/**
  The request-body schemas of the product routes, as zod runs them.

  A schema is an object shape: each field is `string().trim()`, `number().positive()`
  or `boolean()`, optionally `.optional()`. Parsing checks that the body is an
  object, checks every field of the shape, collects one issue per failing field
  in shape order, and on success returns only the shape's fields, strings trimmed.
 */
module Schemas {
  import opened Wrappers
  import opened Json

  // ---------------------------------------------------------------------------
  // `String.prototype.trim`

  /** The characters `trim` removes: ECMAScript WhiteSpace and LineTerminator. */
  predicate IsSpace(c: char) {
    || c == '\t' || c == '\n' || c == '\U{000B}' || c == '\U{000C}' || c == '\r' || c == ' '
    || c == '\U{00A0}' || c == '\U{1680}' || ('\U{2000}' <= c <= '\U{200A}')
    || c == '\U{2028}' || c == '\U{2029}' || c == '\U{202F}' || c == '\U{205F}'
    || c == '\U{3000}' || c == '\U{FEFF}'
  }

  /** Every character of `s` is removed by `trim`. */
  predicate AllSpace(s: string) {
    forall k :: 0 <= k < |s| ==> IsSpace(s[k])
  }

  /** `s` neither starts nor ends with a character `trim` removes. */
  predicate Trimmed(s: string) {
    s == [] || (!IsSpace(s[0]) && !IsSpace(s[|s| - 1]))
  }

  /** `s` without its leading spaces: a suffix of `s`, the dropped prefix all spaces. */
  function TrimStart(s: string): (r: string)
    ensures |r| <= |s| && r == s[|s| - |r|..]
    ensures AllSpace(s[..|s| - |r|])
    ensures r == [] || !IsSpace(r[0])
  {
    if s != [] && IsSpace(s[0]) then TrimStart(s[1..]) else s
  }

  /** `s` without its trailing spaces: a prefix of `s`, the dropped suffix all spaces. */
  function TrimEnd(s: string): (r: string)
    ensures |r| <= |s| && r == s[..|r|]
    ensures AllSpace(s[|r|..])
    ensures r == [] || !IsSpace(r[|r| - 1])
  {
    if s != [] && IsSpace(s[|s| - 1]) then TrimEnd(s[..|s| - 1]) else s
  }

  /** `s.trim()`. */
  function Trim(s: string): (r: string)
    ensures Trimmed(r)
  {
    var t := TrimStart(s);
    var r := TrimEnd(t);
    assert r != [] ==> t[0] == r[0];
    r
  }

  /** Spaces around a trimmed core: removing the spaces of a prefix does not reach the core. */
  lemma {:induction false} TrimStartAround(a: string, t: string)
    requires AllSpace(a) && (t == [] || !IsSpace(t[0]))
    ensures TrimStart(a + t) == t
    decreases |a|
  {
    if a != [] {
      assert (a + t)[1..] == a[1..] + t;
      TrimStartAround(a[1..], t);
    } else {
      assert a + t == t;
    }
  }

  lemma {:induction false} TrimEndAround(t: string, b: string)
    requires AllSpace(b) && (t == [] || !IsSpace(t[|t| - 1]))
    ensures TrimEnd(t + b) == t
    decreases |b|
  {
    if b != [] {
      assert (t + b)[..|t + b| - 1] == t + b[..|b| - 1];
      TrimEndAround(t, b[..|b| - 1]);
    } else {
      assert t + b == t;
    }
  }

  /** `trim` removes exactly the surrounding spaces: a trimmed core with spaces around it trims to the core. */
  lemma TrimAround(a: string, t: string, b: string)
    requires AllSpace(a) && AllSpace(b) && Trimmed(t)
    ensures Trim(a + t + b) == t
  {
    if t == [] {
      assert a + t + b == (a + b) + [];
      assert AllSpace(a + b);
      TrimStartAround(a + b, []);
      TrimEndAround([], []);
    } else {
      assert a + t + b == a + (t + b);
      TrimStartAround(a, t + b);
      TrimEndAround(t, b);
    }
  }

  /** The result of `trim` is `s` with only spaces removed around it. */
  lemma TrimSlices(s: string)
    ensures exists i, j :: 0 <= i <= j <= |s| && Trim(s) == s[i..j] && AllSpace(s[..i]) && AllSpace(s[j..])
  {
    var t := TrimStart(s);
    var r := TrimEnd(t);
    var i := |s| - |t|;
    var j := i + |r|;
    assert s[i..j] == t[..|r|];
    assert s[j..] == t[|r|..];
  }

  /** Trimming twice is trimming once. */
  lemma TrimIdempotent(s: string)
    ensures Trim(Trim(s)) == Trim(s)
  {
    var t := Trim(s);
    assert [] + t + [] == t;
    TrimAround([], t, []);
  }

  // ---------------------------------------------------------------------------
  // Object schemas

  /** The field validators the schemas use. */
  datatype Kind =
    | Text      // `string().trim()`
    | Positive  // `number().positive()`
    | Flag      // `boolean()`

  /** One field of an object shape. */
  datatype FieldSpec = FieldSpec(key: string, kind: Kind, optional: bool)

  /** The zod issue codes these schemas raise; `Required` is `invalid_type` with the message "Required". */
  datatype IssueCode = Required | InvalidType | TooSmall

  /** One validation issue and the path of the value it is about. */
  datatype Issue = Issue(path: seq<string>, code: IssueCode)

  /** No two fields of the shape share a key. */
  predicate DistinctKeys(schema: seq<FieldSpec>) {
    forall i, j :: 0 <= i < j < |schema| ==> schema[i].key != schema[j].key
  }

  /** `body[key]`, `None` when the body has no such property. */
  function Lookup(fields: map<string, Json>, key: string): Option<Json> {
    if key in fields then Some(fields[key]) else None
  }

  /** The value a field validator outputs for an accepted input: strings come out trimmed. */
  function Normalize(kind: Kind, v: Json): Json {
    if kind == Text && v.JStr? then JStr(Trim(v.s)) else v
  }

  /** What a field accepts, stated on its own: present unless optional, and of the right type and sign. */
  predicate Admits(f: FieldSpec, v: Option<Json>) {
    match v
    case None => f.optional
    case Some(x) =>
      match f.kind
      case Text => x.JStr?
      case Positive => x.JNum? && x.n > 0.0
      case Flag => x.JBool?
  }

  /** One field validator run on `body[f.key]`. */
  function CheckField(f: FieldSpec, v: Option<Json>): (r: Result<Option<Json>, Issue>)
    ensures r.Ok? <==> Admits(f, v)
    ensures r.Ok? ==> r.value == if v.Some? then Some(Normalize(f.kind, v.value)) else None
    ensures r.Err? ==> r.error.path == [f.key]
    ensures r.Err? ==> (r.error.code == Required <==> v.None?)
    ensures r.Err? ==> (r.error.code == TooSmall <==> f.kind == Positive && v.Some? && v.value.JNum?)
  {
    match v
    case None => if f.optional then Ok(None) else Err(Issue([f.key], Required))
    case Some(x) =>
      match f.kind
      case Text => if x.JStr? then Ok(Some(JStr(Trim(x.s)))) else Err(Issue([f.key], InvalidType))
      case Positive =>
        if !x.JNum? then Err(Issue([f.key], InvalidType))
        else if x.n > 0.0 then Ok(Some(x))
        else Err(Issue([f.key], TooSmall))
      case Flag => if x.JBool? then Ok(Some(x)) else Err(Issue([f.key], InvalidType))
  }

  /** Every field of the shape admits the body's value for its key. */
  predicate AllAdmit(schema: seq<FieldSpec>, fields: map<string, Json>) {
    forall i :: 0 <= i < |schema| ==> Admits(schema[i], Lookup(fields, schema[i].key))
  }

  /** The keys of the shape that the body carries. */
  function PresentKeys(schema: seq<FieldSpec>, fields: map<string, Json>): set<string> {
    set i | 0 <= i < |schema| && schema[i].key in fields :: schema[i].key
  }

  /** Every field of the shape, in order: the output object and the issues raised. */
  function CheckFields(schema: seq<FieldSpec>, fields: map<string, Json>): (r: (map<string, Json>, seq<Issue>))
    ensures |r.1| <= |schema|
  {
    if schema == [] then (map[], [])
    else
      var f := schema[0];
      var rest := CheckFields(schema[1..], fields);
      match CheckField(f, Lookup(fields, f.key))
      case Ok(None) => rest
      case Ok(Some(v)) => (rest.0[f.key := v], rest.1)
      case Err(x) => (rest.0, [x] + rest.1)
  }

  /** The shape without its first field, seen from the whole shape's indices. */
  lemma AdmitTail(schema: seq<FieldSpec>, fields: map<string, Json>)
    requires schema != []
    ensures AllAdmit(schema, fields) <==>
      Admits(schema[0], Lookup(fields, schema[0].key)) && AllAdmit(schema[1..], fields)
  {
    assert forall i :: 1 <= i < |schema| ==> schema[i] == schema[1..][i - 1];
  }

  /** No issue is raised exactly when every field admits its value. */
  lemma {:induction false} CheckFieldsAccepts(schema: seq<FieldSpec>, fields: map<string, Json>)
    ensures CheckFields(schema, fields).1 == [] <==> AllAdmit(schema, fields)
  {
    if schema != [] {
      CheckFieldsAccepts(schema[1..], fields);
      AdmitTail(schema, fields);
    }
  }

  /** Each issue comes from one field of the shape that does not admit its value. */
  lemma {:induction false} CheckFieldsIssues(schema: seq<FieldSpec>, fields: map<string, Json>)
    ensures forall x :: x in CheckFields(schema, fields).1 ==>
      exists i :: 0 <= i < |schema| && CheckField(schema[i], Lookup(fields, schema[i].key)) == Err(x)
  {
    if schema != [] {
      CheckFieldsIssues(schema[1..], fields);
      forall x | x in CheckFields(schema[1..], fields).1
        ensures exists i :: 0 <= i < |schema| && CheckField(schema[i], Lookup(fields, schema[i].key)) == Err(x)
      {
        var i :| 0 <= i < |schema[1..]| && CheckField(schema[1..][i], Lookup(fields, schema[1..][i].key)) == Err(x);
        assert schema[i + 1] == schema[1..][i];
      }
    }
  }

  /** The output holds only keys of the shape that the body carries, and all of them when nothing failed. */
  lemma {:induction false} CheckFieldsKeys(schema: seq<FieldSpec>, fields: map<string, Json>)
    ensures CheckFields(schema, fields).0.Keys <= PresentKeys(schema, fields)
    ensures CheckFields(schema, fields).1 == [] ==> CheckFields(schema, fields).0.Keys == PresentKeys(schema, fields)
  {
    if schema != [] {
      CheckFieldsKeys(schema[1..], fields);
      var f := schema[0];
      assert PresentKeys(schema, fields) == PresentKeys(schema[1..], fields) + (if f.key in fields then {f.key} else {}) by {
        forall k | k in PresentKeys(schema, fields)
          ensures k in PresentKeys(schema[1..], fields) + (if f.key in fields then {f.key} else {})
        {
          var i :| 0 <= i < |schema| && schema[i].key in fields && schema[i].key == k;
          if i > 0 {
            assert schema[1..][i - 1].key == k;
          }
        }
        forall k | k in PresentKeys(schema[1..], fields)
          ensures k in PresentKeys(schema, fields)
        {
          var i :| 0 <= i < |schema[1..]| && schema[1..][i].key in fields && schema[1..][i].key == k;
          assert schema[i + 1].key == k;
        }
      }
    }
  }

  /** With distinct keys, each output value is what its field's validator makes of the input. */
  lemma {:induction false} CheckFieldsValues(schema: seq<FieldSpec>, fields: map<string, Json>)
    requires DistinctKeys(schema)
    ensures var out := CheckFields(schema, fields).0;
      forall i :: 0 <= i < |schema| && schema[i].key in out ==>
        schema[i].key in fields && out[schema[i].key] == Normalize(schema[i].kind, fields[schema[i].key])
  {
    CheckFieldsKeys(schema, fields);
    if schema != [] {
      CheckFieldsValues(schema[1..], fields);
      CheckFieldsKeys(schema[1..], fields);
      var out := CheckFields(schema, fields).0;
      forall i | 0 <= i < |schema| && schema[i].key in out
        ensures schema[i].key in fields && out[schema[i].key] == Normalize(schema[i].kind, fields[schema[i].key])
      {
        if i > 0 {
          assert schema[i] == schema[1..][i - 1];
          assert schema[i].key != schema[0].key;
        }
      }
    }
  }

  /** `schema.parse(body)`: the output object, or the issues of the thrown `ZodError`. */
  function Parse(schema: seq<FieldSpec>, body: Json): (r: Result<map<string, Json>, seq<Issue>>)
    ensures !body.JObj? ==> r == Err([Issue([], InvalidType)])
    ensures r.Err? ==> r.error != []
  {
    if !body.JObj? then Err([Issue([], InvalidType)])
    else
      var (out, issues) := CheckFields(schema, body.fields);
      if issues == [] then Ok(out) else Err(issues)
  }

  /** A body is accepted exactly when it is an object and every field admits its value. */
  lemma ParseAccepts(schema: seq<FieldSpec>, body: Json)
    ensures Parse(schema, body).Ok? <==> body.JObj? && AllAdmit(schema, body.fields)
  {
    if body.JObj? {
      CheckFieldsAccepts(schema, body.fields);
    }
  }

  /**
    An accepted body comes out with the shape's keys that it carries and no
    other (unknown keys are stripped), each value as its validator outputs it.
   */
  lemma ParseOutput(schema: seq<FieldSpec>, body: Json)
    requires DistinctKeys(schema) && Parse(schema, body).Ok?
    ensures var out := Parse(schema, body).value;
      && out.Keys == PresentKeys(schema, body.fields)
      && forall i :: 0 <= i < |schema| && schema[i].key in body.fields ==>
        out[schema[i].key] == Normalize(schema[i].kind, body.fields[schema[i].key])
  {
    CheckFieldsKeys(schema, body.fields);
    CheckFieldsValues(schema, body.fields);
  }

  /** A rejected body raises one issue per failing field, each at that field's path. */
  lemma ParseIssues(schema: seq<FieldSpec>, body: Json)
    requires body.JObj? && Parse(schema, body).Err?
    ensures var issues := Parse(schema, body).error;
      && 0 < |issues| <= |schema|
      && forall x :: x in issues ==>
        exists i :: 0 <= i < |schema| && x.path == [schema[i].key] && !Admits(schema[i], Lookup(body.fields, schema[i].key))
  {
    CheckFieldsAccepts(schema, body.fields);
    CheckFieldsIssues(schema, body.fields);
  }

  /** A validator's output is accepted again and comes out unchanged. */
  lemma NormalizeStable(f: FieldSpec, v: Json)
    requires Admits(f, Some(v))
    ensures Admits(f, Some(Normalize(f.kind, v)))
    ensures Normalize(f.kind, Normalize(f.kind, v)) == Normalize(f.kind, v)
  {
    if f.kind == Text {
      TrimIdempotent(v.s);
    }
  }

  /** The output of an accepted body is itself accepted. */
  lemma OutputAdmitted(schema: seq<FieldSpec>, fields: map<string, Json>, out: map<string, Json>)
    requires DistinctKeys(schema) && AllAdmit(schema, fields)
    requires out.Keys == PresentKeys(schema, fields)
    requires forall i :: 0 <= i < |schema| && schema[i].key in fields ==>
      out[schema[i].key] == Normalize(schema[i].kind, fields[schema[i].key])
    ensures AllAdmit(schema, out)
  {
    forall i | 0 <= i < |schema|
      ensures Admits(schema[i], Lookup(out, schema[i].key))
    {
      var k := schema[i].key;
      assert Admits(schema[i], Lookup(fields, k));
      if k in fields {
        assert k in out;
        NormalizeStable(schema[i], fields[k]);
      } else {
        assert k !in out;
      }
    }
  }

  /** Parsing the output of a successful parse succeeds and returns that output. */
  lemma ParseIdempotent(schema: seq<FieldSpec>, body: Json)
    requires DistinctKeys(schema) && Parse(schema, body).Ok?
    ensures Parse(schema, JObj(Parse(schema, body).value)) == Ok(Parse(schema, body).value)
  {
    var fields := body.fields;
    var out := Parse(schema, body).value;
    ParseOutput(schema, body);
    ParseAccepts(schema, body);
    OutputAdmitted(schema, fields, out);
    ParseAccepts(schema, JObj(out));
    var again := Parse(schema, JObj(out)).value;
    ParseOutput(schema, JObj(out));
    assert again.Keys == out.Keys by {
      forall k | k in out
        ensures k in PresentKeys(schema, out)
      {
        var i :| 0 <= i < |schema| && schema[i].key in fields && schema[i].key == k;
      }
    }
    forall k | k in out
      ensures again[k] == out[k]
    {
      var i :| 0 <= i < |schema| && schema[i].key in fields && schema[i].key == k;
      NormalizeStable(schema[i], fields[k]);
    }
    assert again == out;
  }

  // ---------------------------------------------------------------------------
  // The four schemas

  const CreateProduct: seq<FieldSpec> := [
    FieldSpec("description", Text, false),
    FieldSpec("name", Text, false),
    FieldSpec("price", Positive, false),
    FieldSpec("content", Text, false),
    FieldSpec("imageUrl", Text, true),
    FieldSpec("parentProductId", Positive, true),
    FieldSpec("type", Text, true)]

  const UpdateProduct: seq<FieldSpec> := [
    FieldSpec("description", Text, true),
    FieldSpec("name", Text, true),
    FieldSpec("price", Positive, true),
    FieldSpec("content", Text, true),
    FieldSpec("imageUrl", Text, true),
    FieldSpec("parentProductId", Positive, true),
    FieldSpec("type", Text, true)]

  const CreateComplementType: seq<FieldSpec> := [
    FieldSpec("name", Text, false),
    FieldSpec("required", Flag, false),
    FieldSpec("maxSelectable", Positive, false)]

  const UpdateComplementType: seq<FieldSpec> := [
    FieldSpec("name", Text, true),
    FieldSpec("required", Flag, true),
    FieldSpec("maxSelectable", Positive, true)]

  /** `AllAdmit` for a shape of three fields, field by field. */
  lemma AdmitThree(schema: seq<FieldSpec>, fields: map<string, Json>, f0: FieldSpec, f1: FieldSpec, f2: FieldSpec)
    requires schema == [f0, f1, f2]
    ensures AllAdmit(schema, fields) <==>
      && Admits(f0, Lookup(fields, f0.key))
      && Admits(f1, Lookup(fields, f1.key))
      && Admits(f2, Lookup(fields, f2.key))
  {
    if AllAdmit(schema, fields) {
      assert Admits(schema[0], Lookup(fields, schema[0].key));
      assert Admits(schema[1], Lookup(fields, schema[1].key));
      assert Admits(schema[2], Lookup(fields, schema[2].key));
    }
  }

  /** `AllAdmit` for a shape of seven fields, field by field. */
  lemma AdmitSeven(schema: seq<FieldSpec>, fields: map<string, Json>,
                   f0: FieldSpec, f1: FieldSpec, f2: FieldSpec, f3: FieldSpec, f4: FieldSpec, f5: FieldSpec, f6: FieldSpec)
    requires schema == [f0, f1, f2, f3, f4, f5, f6]
    ensures AllAdmit(schema, fields) <==>
      && Admits(f0, Lookup(fields, f0.key))
      && Admits(f1, Lookup(fields, f1.key))
      && Admits(f2, Lookup(fields, f2.key))
      && Admits(f3, Lookup(fields, f3.key))
      && Admits(f4, Lookup(fields, f4.key))
      && Admits(f5, Lookup(fields, f5.key))
      && Admits(f6, Lookup(fields, f6.key))
  {
    if AllAdmit(schema, fields) {
      assert Admits(schema[0], Lookup(fields, schema[0].key));
      assert Admits(schema[1], Lookup(fields, schema[1].key));
      assert Admits(schema[2], Lookup(fields, schema[2].key));
      assert Admits(schema[3], Lookup(fields, schema[3].key));
      assert Admits(schema[4], Lookup(fields, schema[4].key));
      assert Admits(schema[5], Lookup(fields, schema[5].key));
      assert Admits(schema[6], Lookup(fields, schema[6].key));
    }
  }

  /** `body[key]` is present and a string. */
  predicate HasString(fields: map<string, Json>, key: string) {
    key in fields && fields[key].JStr?
  }

  /** `body[key]` is present and a number above 0. */
  predicate HasPositive(fields: map<string, Json>, key: string) {
    key in fields && fields[key].JNum? && fields[key].n > 0.0
  }

  /** `body[key]` is absent or a string. */
  predicate MaybeString(fields: map<string, Json>, key: string) {
    key in fields ==> fields[key].JStr?
  }

  /** `body[key]` is absent or a number above 0. */
  predicate MaybePositive(fields: map<string, Json>, key: string) {
    key in fields ==> fields[key].JNum? && fields[key].n > 0.0
  }

  /** `body[key]` is absent or a boolean. */
  predicate MaybeFlag(fields: map<string, Json>, key: string) {
    key in fields ==> fields[key].JBool?
  }

  /** A text field admits the body exactly when its value is a string, or absent if the field is optional. */
  lemma AdmitsText(fields: map<string, Json>, key: string, optional: bool)
    ensures Admits(FieldSpec(key, Text, optional), Lookup(fields, key))
        <==> if optional then MaybeString(fields, key) else HasString(fields, key)
  {
  }

  /** A positive field admits the body exactly when its value is a number above 0, or absent if the field is optional. */
  lemma AdmitsPositive(fields: map<string, Json>, key: string, optional: bool)
    ensures Admits(FieldSpec(key, Positive, optional), Lookup(fields, key))
        <==> if optional then MaybePositive(fields, key) else HasPositive(fields, key)
  {
  }

  /** A flag field admits the body exactly when its value is a boolean, or absent if the field is optional. */
  lemma AdmitsFlag(fields: map<string, Json>, key: string, optional: bool)
    ensures Admits(FieldSpec(key, Flag, optional), Lookup(fields, key))
        <==> if optional then MaybeFlag(fields, key) else key in fields && fields[key].JBool?
  {
  }

  /** Create-product wants strings `description`, `name`, `content`, a positive `price`, and optional `imageUrl`, `parentProductId` > 0, `type`. */
  lemma CreateProductAccepts(fields: map<string, Json>)
    ensures Parse(CreateProduct, JObj(fields)).Ok? <==>
      && HasString(fields, "description") && HasString(fields, "name") && HasPositive(fields, "price")
      && HasString(fields, "content") && MaybeString(fields, "imageUrl")
      && MaybePositive(fields, "parentProductId") && MaybeString(fields, "type")
  {
    ParseAccepts(CreateProduct, JObj(fields));
    AdmitSeven(CreateProduct, fields,
      FieldSpec("description", Text, false), FieldSpec("name", Text, false), FieldSpec("price", Positive, false),
      FieldSpec("content", Text, false), FieldSpec("imageUrl", Text, true),
      FieldSpec("parentProductId", Positive, true), FieldSpec("type", Text, true));
    AdmitsText(fields, "description", false);
    AdmitsText(fields, "name", false);
    AdmitsPositive(fields, "price", false);
    AdmitsText(fields, "content", false);
    AdmitsText(fields, "imageUrl", true);
    AdmitsPositive(fields, "parentProductId", true);
    AdmitsText(fields, "type", true);
  }

  /** A price of 0 or below is rejected, with a `too_small` issue at `price`. */
  lemma CreateProductRejectsNonPositivePrice(fields: map<string, Json>, price: real)
    requires price <= 0.0
    ensures Parse(CreateProduct, JObj(fields["price" := JNum(price)])).Err?
    ensures Issue(["price"], TooSmall) in Parse(CreateProduct, JObj(fields["price" := JNum(price)])).error
  {
    var fs := fields["price" := JNum(price)];
    var f := CreateProduct[2];
    assert f in CreateProduct && !Admits(f, Lookup(fs, f.key));
    ParseAccepts(CreateProduct, JObj(fs));
    FailingFieldReported(CreateProduct, fs, 2);
  }

  /** A field that fails is reported in the issues. */
  lemma {:induction false} FailingFieldReported(schema: seq<FieldSpec>, fields: map<string, Json>, i: nat)
    requires i < |schema|
    requires CheckField(schema[i], Lookup(fields, schema[i].key)).Err?
    ensures CheckField(schema[i], Lookup(fields, schema[i].key)).error in CheckFields(schema, fields).1
  {
    if i > 0 {
      FailingFieldReported(schema[1..], fields, i - 1);
    }
  }

  /** Update-product accepts the empty body and returns it unchanged. */
  lemma UpdateProductAcceptsEmpty()
    ensures Parse(UpdateProduct, JObj(map[])) == Ok(map[])
  {
    ParseAccepts(UpdateProduct, JObj(map[]));
  }

  /** Update-product: every field optional, but a given `price` or `parentProductId` must be above 0. */
  lemma UpdateProductAccepts(fields: map<string, Json>)
    ensures Parse(UpdateProduct, JObj(fields)).Ok? <==>
      && MaybeString(fields, "description") && MaybeString(fields, "name") && MaybePositive(fields, "price")
      && MaybeString(fields, "content") && MaybeString(fields, "imageUrl")
      && MaybePositive(fields, "parentProductId") && MaybeString(fields, "type")
  {
    ParseAccepts(UpdateProduct, JObj(fields));
    AdmitSeven(UpdateProduct, fields,
      FieldSpec("description", Text, true), FieldSpec("name", Text, true), FieldSpec("price", Positive, true),
      FieldSpec("content", Text, true), FieldSpec("imageUrl", Text, true),
      FieldSpec("parentProductId", Positive, true), FieldSpec("type", Text, true));
    AdmitsText(fields, "description", true);
    AdmitsText(fields, "name", true);
    AdmitsPositive(fields, "price", true);
    AdmitsText(fields, "content", true);
    AdmitsText(fields, "imageUrl", true);
    AdmitsPositive(fields, "parentProductId", true);
    AdmitsText(fields, "type", true);
  }

  /** Create-complement-type wants a string `name`, a boolean `required` and `maxSelectable` above 0. */
  lemma CreateComplementTypeAccepts(fields: map<string, Json>)
    ensures Parse(CreateComplementType, JObj(fields)).Ok? <==>
      && HasString(fields, "name") && "required" in fields && fields["required"].JBool?
      && HasPositive(fields, "maxSelectable")
  {
    ParseAccepts(CreateComplementType, JObj(fields));
    AdmitThree(CreateComplementType, fields,
      FieldSpec("name", Text, false), FieldSpec("required", Flag, false), FieldSpec("maxSelectable", Positive, false));
    AdmitsText(fields, "name", false);
    AdmitsFlag(fields, "required", false);
    AdmitsPositive(fields, "maxSelectable", false);
  }

  /** The `-1` "no limit" value is not a valid `maxSelectable`. */
  lemma CreateComplementTypeRejectsSentinel(fields: map<string, Json>)
    ensures Parse(CreateComplementType, JObj(fields["maxSelectable" := JNum(-1.0)])).Err?
  {
    CreateComplementTypeAccepts(fields["maxSelectable" := JNum(-1.0)]);
  }

  /** Update-complement-type: every field optional, but a given `maxSelectable` must be above 0. */
  lemma UpdateComplementTypeAccepts(fields: map<string, Json>)
    ensures Parse(UpdateComplementType, JObj(fields)).Ok? <==>
      MaybeString(fields, "name") && MaybeFlag(fields, "required") && MaybePositive(fields, "maxSelectable")
  {
    ParseAccepts(UpdateComplementType, JObj(fields));
    AdmitThree(UpdateComplementType, fields,
      FieldSpec("name", Text, true), FieldSpec("required", Flag, true), FieldSpec("maxSelectable", Positive, true));
    AdmitsText(fields, "name", true);
    AdmitsFlag(fields, "required", true);
    AdmitsPositive(fields, "maxSelectable", true);
  }

  /** Each shape lists each key once, so the output and re-validation lemmas apply to it. */
  lemma CreateProductKeysDistinct()
    ensures DistinctKeys(CreateProduct)
  {
  }

  lemma UpdateProductKeysDistinct()
    ensures DistinctKeys(UpdateProduct)
  {
  }

  lemma CreateComplementTypeKeysDistinct()
    ensures DistinctKeys(CreateComplementType)
  {
  }

  lemma UpdateComplementTypeKeysDistinct()
    ensures DistinctKeys(UpdateComplementType)
  {
  }
}
