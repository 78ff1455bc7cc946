/**
  `generateRecursiveIncludeQuery`: builds a Prisma `include` query that nests
  the first relation of `baseQuery` `levels` deep.

  Objects are values here, and `JSON.parse(JSON.stringify(x))` is the identity
  on them. Because every level is written as a fresh deep copy, the result
  never shares an object with `baseQuery`, which is what makes a value model
  exact: `baseQuery` is never modified.
 */
module Query {
  import opened Wrappers

  /** A JavaScript object: its keys in insertion order and its properties. */
  datatype Object = Object(keys: seq<string>, props: map<string, Value>)

  /** A JSON value: an object, or a primitive leaf (`true`, a number, a string, `null`). */
  datatype Value = Obj(o: Object) | Leaf(json: string)

  /** What the builder can throw. */
  datatype QueryError = TypeError

  // ---------------------------------------------------------------------------
  // Object operations

  /** The key order lists each property exactly once. */
  ghost predicate WellFormed(o: Object) {
    && (forall i, j :: 0 <= i < j < |o.keys| ==> o.keys[i] != o.keys[j])
    && (forall k :: k in o.props <==> k in o.keys)
  }

  /** Property read `o[key]`; `None` is `undefined`. */
  function Get(o: Object, key: string): Option<Value> {
    if key in o.props then Some(o.props[key]) else None
  }

  /** Property write `o[key] = v`: an existing key keeps its place, a new one goes last. */
  function Put(o: Object, key: string, v: Value): Object {
    Object(if key in o.props then o.keys else o.keys + [key], o.props[key := v])
  }

  /** A written key reads back its new value, every other key reads as before, and the object stays well formed. */
  lemma GetPut(o: Object, key: string, v: Value)
    ensures forall k :: Get(Put(o, key, v), k) == if k == key then Some(v) else Get(o, k)
    ensures WellFormed(o) ==> WellFormed(Put(o, key, v))
  {
  }

  /** Writing a key twice is writing it once, with the second value. */
  lemma PutPut(o: Object, key: string, v: Value, w: Value)
    ensures Put(Put(o, key, v), key, w) == Put(o, key, w)
  {
    assert Put(Put(o, key, v), key, w).props == Put(o, key, w).props;
  }

  /** The object a spread `...v` contributes: an object itself, nothing for anything else. */
  function Props(v: Option<Value>): Object {
    if v.Some? && v.value.Obj? then v.value.o else Object([], map[])
  }

  /** Writes the properties of `b` named by `ks`, in order, over `a`. */
  function Assign(a: Object, b: Object, ks: seq<string>): (r: Object)
    ensures forall k :: Get(r, k) == if k in ks && k in b.props then Get(b, k) else Get(a, k)
    ensures WellFormed(a) ==> WellFormed(r)
    decreases |ks|
  {
    if ks == [] then a
    else if ks[0] in b.props then Assign(Put(a, ks[0], b.props[ks[0]]), b, ks[1..])
    else Assign(a, b, ks[1..])
  }

  /** `{...a, ...b}`: `b`'s properties, in `b`'s key order, written over `a`'s. */
  function Spread(a: Object, b: Object): (r: Object)
    ensures forall k :: Get(r, k) == if k in b.keys && k in b.props then Get(b, k) else Get(a, k)
    ensures WellFormed(b) ==> forall k :: Get(r, k) == if k in b.props then Get(b, k) else Get(a, k)
    ensures WellFormed(a) ==> WellFormed(r)
  {
    Assign(a, b, b.keys)
  }

  // ---------------------------------------------------------------------------
  // The pointer walk

  /**
    The write `pointer[key].include = m` with `pointer` reached from `o` by
    following `key` and then `include` `depth` times. The loop only walks paths
    it has just written, so a broken path (where JavaScript would throw) never
    arises there; the object is then returned unchanged.
   */
  function SetAt(o: Object, key: string, depth: nat, m: Value): Object
    decreases depth
  {
    match Get(o, key)
    case Some(Obj(inner)) =>
      if depth == 0 then Put(o, key, Obj(Put(inner, "include", m)))
      else (match Get(inner, "include")
        case Some(Obj(deeper)) =>
          Put(o, key, Obj(Put(inner, "include", Obj(SetAt(deeper, key, depth - 1, m)))))
        case _ => o)
    case _ => o
  }

  /** The object reached from `o` by following `key` and then `include`, `steps` times. */
  function Follow(o: Object, key: string, steps: nat): Option<Object>
    decreases steps
  {
    if steps == 0 then Some(o)
    else match Get(o, key)
      case Some(Obj(inner)) =>
        (match Get(inner, "include")
         case Some(Obj(deeper)) => Follow(deeper, key, steps - 1)
         case _ => None)
      case _ => None
  }

  /** How many `key` entries the chain `o[key].include[key].include...` holds. */
  function Depth(o: Object, key: string): nat
    decreases o
  {
    match Get(o, key)
    case Some(Obj(inner)) =>
      (match Get(inner, "include")
       case Some(Obj(deeper)) => 1 + Depth(deeper, key)
       case _ => 1)
    case _ => 0
  }

  /** The builder can run its loop: `baseQuery` has a first key whose value is an object. */
  predicate Shaped(baseQuery: Object) {
    |baseQuery.keys| > 0 && Get(baseQuery, baseQuery.keys[0]).Some? && Get(baseQuery, baseQuery.keys[0]).value.Obj?
  }

  /** The first key, `Object.keys(baseQuery)[0]`. */
  function BaseKey(baseQuery: Object): string
    requires Shaped(baseQuery)
  {
    baseQuery.keys[0]
  }

  /** `baseQuery[baseKey]`. */
  function BaseEntry(baseQuery: Object): Object
    requires Shaped(baseQuery)
  {
    baseQuery.props[BaseKey(baseQuery)].o
  }

  /** The base `include`, `baseQuery[baseKey].include` (`None` when it is undefined). */
  function BaseInclude(baseQuery: Object): Option<Value>
    requires Shaped(baseQuery)
  {
    Get(BaseEntry(baseQuery), "include")
  }

  /** Each level's fresh `include`: `{...baseQuery[baseKey].include, ...baseQuery}`. */
  function Merged(baseQuery: Object): (m: Object)
    requires Shaped(baseQuery)
    ensures Get(m, BaseKey(baseQuery)) == Some(Obj(BaseEntry(baseQuery)))
  {
    Spread(Props(BaseInclude(baseQuery)), baseQuery)
  }

  /**
    `o` after `n` writes: its `key` entry becomes `entry` with an `include`
    holding `m`, whose own `key` entry gets the same treatment, `n` levels in all.
   */
  function Chain(key: string, entry: Object, m: Object, o: Object, n: nat): Object
    decreases n
  {
    if n == 0 then o
    else Put(o, key, Obj(Put(entry, "include", Obj(Chain(key, entry, m, m, n - 1)))))
  }

  /** What the builder returns for `levels`. */
  function Expected(baseQuery: Object, levels: int): Result<Object, QueryError> {
    if levels <= 1 then Ok(baseQuery)
    else if !Shaped(baseQuery) then Err(TypeError)
    else Ok(Chain(BaseKey(baseQuery), BaseEntry(baseQuery), Merged(baseQuery), baseQuery, levels - 1))
  }

  /** For more than one level the result is the chain of `levels - 1` writes. */
  lemma ExpectedChain(baseQuery: Object, levels: int, n: nat)
    requires Shaped(baseQuery) && levels > 1 && n == levels - 1
    ensures Expected(baseQuery, levels) == Ok(Chain(BaseKey(baseQuery), BaseEntry(baseQuery), Merged(baseQuery), baseQuery, n))
  {
  }

  /** A write below the top goes through `key` and `include` and lands `depth - 1` below them. */
  lemma SetAtStep(o: Object, key: string, depth: nat, m: Value, inner: Object, deeper: Object)
    requires Get(o, key) == Some(Obj(inner)) && Get(inner, "include") == Some(Obj(deeper))
    ensures depth > 0 ==>
      SetAt(o, key, depth, m) == Put(o, key, Obj(Put(inner, "include", Obj(SetAt(deeper, key, depth - 1, m)))))
  {
  }

  /** Each pass of the loop writes the next level at the bottom of the chain. */
  lemma {:induction false} SetAtChain(key: string, entry: Object, m: Object, o: Object, n: nat)
    requires n >= 1
    requires Get(o, key) == Some(Obj(entry)) && Get(m, key) == Some(Obj(entry))
    ensures SetAt(Chain(key, entry, m, o, n - 1), key, n - 1, Obj(m)) == Chain(key, entry, m, o, n)
    decreases n
  {
    if n > 1 {
      var x := Chain(key, entry, m, m, n - 1 - 1);
      var y := Chain(key, entry, m, m, n - 1);
      var inner := Put(entry, "include", Obj(x));
      var c := Put(o, key, Obj(inner));
      calc {
        SetAt(Chain(key, entry, m, o, n - 1), key, n - 1, Obj(m));
        SetAt(c, key, n - 1, Obj(m));
        { GetPut(o, key, Obj(inner));
          GetPut(entry, "include", Obj(x));
          SetAtStep(c, key, n - 1, Obj(m), inner, x); }
        Put(c, key, Obj(Put(inner, "include", Obj(SetAt(x, key, n - 1 - 1, Obj(m))))));
        { SetAtChain(key, entry, m, m, n - 1); }
        Put(c, key, Obj(Put(inner, "include", Obj(y))));
        { PutPut(entry, "include", Obj(x), Obj(y)); }
        Put(c, key, Obj(Put(entry, "include", Obj(y))));
        { PutPut(o, key, Obj(inner), Obj(Put(entry, "include", Obj(y)))); }
        Put(o, key, Obj(Put(entry, "include", Obj(y))));
        Chain(key, entry, m, o, n);
      }
    }
  }

  /** `SetAtChain`, counted by the depth written at. */
  lemma SetAtChainNext(key: string, entry: Object, m: Object, o: Object, depth: nat)
    requires Get(o, key) == Some(Obj(entry)) && Get(m, key) == Some(Obj(entry))
    ensures SetAt(Chain(key, entry, m, o, depth), key, depth, Obj(m)) == Chain(key, entry, m, o, depth + 1)
  {
    SetAtChain(key, entry, m, o, depth + 1);
  }

  /**
    The builder. `pointer` starts at the copy of `baseQuery` and moves into each
    `include` it writes; `depth` is how far below `result` it stands.
   */
  method GenerateRecursiveIncludeQuery(baseQuery: Object, levels: int) returns (r: Result<Object, QueryError>)
    ensures r == Expected(baseQuery, levels)
  {
    var result := baseQuery;
    var baseKey: Option<string> := if |baseQuery.keys| > 0 then Some(baseQuery.keys[0]) else None;
    var depth: nat := 0;
    var i := 1;
    while i < levels
      invariant i == 1 || 1 < i <= levels
      invariant depth == i - 1
      invariant depth == 0 ==> result == baseQuery
      invariant depth > 0 ==>
        && Shaped(baseQuery)
        && result == Chain(BaseKey(baseQuery), BaseEntry(baseQuery), Merged(baseQuery), baseQuery, depth)
      decreases levels - i
    {
      var entry := if baseKey.Some? then Get(baseQuery, baseKey.value) else None;
      // `.include` of undefined or null throws, and so does setting it on a primitive
      if entry.None? || !entry.value.Obj? {
        return Err(TypeError);
      }
      var merged := Spread(Props(Get(entry.value.o, "include")), baseQuery);
      assert merged == Merged(baseQuery);
      SetAtChainNext(baseKey.value, entry.value.o, merged, baseQuery, depth);
      result := SetAt(result, baseKey.value, depth, Obj(merged));
      depth := depth + 1;
      i := i + 1;
    }
    if levels > 1 {
      assert i == levels && depth == levels - 1;
      assert result == Chain(BaseKey(baseQuery), BaseEntry(baseQuery), Merged(baseQuery), baseQuery, levels - 1);
    }
    return Ok(result);
  }

  // ---------------------------------------------------------------------------
  // What the result looks like

  /** Writing the chain touches only the `key` entry, which `o` already has. */
  lemma ChainOthers(key: string, entry: Object, m: Object, o: Object, n: nat)
    requires Get(o, key) == Some(Obj(entry))
    ensures Chain(key, entry, m, o, n).props.Keys == o.props.Keys
    ensures forall k :: k != key ==> Get(Chain(key, entry, m, o, n), k) == Get(o, k)
  {
    if n > 0 {
      GetPut(o, key, Obj(Put(entry, "include", Obj(Chain(key, entry, m, m, n - 1)))));
    }
  }

  /** The top of a chain of `n` > 0 levels: `key` leads to `entry`, whose `include` is the next level. */
  lemma ChainTop(key: string, entry: Object, m: Object, o: Object, n: nat)
    requires n > 0
    ensures Get(Chain(key, entry, m, o, n), key) == Some(Obj(Put(entry, "include", Obj(Chain(key, entry, m, m, n - 1)))))
    ensures Get(Put(entry, "include", Obj(Chain(key, entry, m, m, n - 1))), "include") == Some(Obj(Chain(key, entry, m, m, n - 1)))
  {
    var x := Chain(key, entry, m, m, n - 1);
    GetPut(o, key, Obj(Put(entry, "include", Obj(x))));
    GetPut(entry, "include", Obj(x));
  }

  /** One step of `Follow` and of `Depth` goes through `key` and `include`. */
  lemma WalkStep(o: Object, key: string, inner: Object, deeper: Object, j: nat)
    requires Get(o, key) == Some(Obj(inner)) && Get(inner, "include") == Some(Obj(deeper))
    ensures j > 0 ==> Follow(o, key, j) == Follow(deeper, key, j - 1)
    ensures Depth(o, key) == 1 + Depth(deeper, key)
  {
  }

  /** Following the chain `j` steps down from the top reaches the level written `j`-th, `rest` levels above the merge. */
  lemma {:induction false} FollowChain(key: string, entry: Object, m: Object, o: Object, n: nat, j: nat, rest: nat)
    requires 0 < j && j + rest == n
    ensures Follow(Chain(key, entry, m, o, n), key, j) == Some(Chain(key, entry, m, m, rest))
    decreases j
  {
    var x := Chain(key, entry, m, m, n - 1);
    calc {
      Follow(Chain(key, entry, m, o, n), key, j);
      { ChainTop(key, entry, m, o, n);
        WalkStep(Chain(key, entry, m, o, n), key, Put(entry, "include", Obj(x)), x, j); }
      Follow(x, key, j - 1);
      { if j > 1 { FollowChain(key, entry, m, m, n - 1, j - 1, rest); } }
      Some(Chain(key, entry, m, m, rest));
    }
  }

  /** Each level of the chain adds one `key` entry to the depth. */
  lemma {:induction false} ChainDepth(key: string, entry: Object, m: Object, o: Object, n: nat)
    requires Get(o, key) == Some(Obj(entry)) && Get(m, key) == Some(Obj(entry))
    ensures Depth(Chain(key, entry, m, o, n), key) == n + Depth(o, key)
    decreases n
  {
    if n > 0 {
      var x := Chain(key, entry, m, m, n - 1);
      calc {
        Depth(Chain(key, entry, m, o, n), key);
        { ChainTop(key, entry, m, o, n);
          WalkStep(Chain(key, entry, m, o, n), key, Put(entry, "include", Obj(x)), x, 0); }
        1 + Depth(x, key);
        { ChainDepth(key, entry, m, m, n - 1); }
        1 + (n - 1) + Depth(m, key);
        { SameEntrySameDepth(o, m, key, entry); }
        n + Depth(o, key);
      }
    }
  }

  /** Two objects with the same `key` entry have the same depth. */
  lemma SameEntrySameDepth(o: Object, m: Object, key: string, entry: Object)
    requires Get(o, key) == Some(Obj(entry)) && Get(m, key) == Some(Obj(entry))
    ensures Depth(m, key) == Depth(o, key)
  {
  }

  /**
    For `levels` >= 1 the chain `baseKey` -> `include` -> `baseKey` ... holds
    `levels - 1` entries more than `baseQuery`'s own, and exactly `levels` when
    the base `include` does not itself continue the chain.
   */
  lemma ResultDepth(baseQuery: Object, levels: int)
    requires Shaped(baseQuery) && levels >= 1
    ensures Expected(baseQuery, levels).Ok?
    ensures Depth(Expected(baseQuery, levels).value, BaseKey(baseQuery)) == levels - 1 + Depth(baseQuery, BaseKey(baseQuery))
    ensures !(BaseInclude(baseQuery).Some? && BaseInclude(baseQuery).value.Obj?
              && Get(BaseInclude(baseQuery).value.o, BaseKey(baseQuery)).Some?
              && Get(BaseInclude(baseQuery).value.o, BaseKey(baseQuery)).value.Obj?) ==>
      Depth(Expected(baseQuery, levels).value, BaseKey(baseQuery)) == levels
  {
    if levels > 1 {
      var n := levels - 1;
      ExpectedChain(baseQuery, levels, n);
      ChainDepth(BaseKey(baseQuery), BaseEntry(baseQuery), Merged(baseQuery), baseQuery, n);
    }
  }

  /** The merge holds the keys of the base `include` and of `baseQuery`, `baseQuery`'s value winning. */
  lemma MergedProps(baseQuery: Object)
    requires Shaped(baseQuery) && WellFormed(baseQuery)
    ensures Merged(baseQuery).props.Keys == Props(BaseInclude(baseQuery)).props.Keys + baseQuery.props.Keys
    ensures forall k :: Get(Merged(baseQuery), k)
                        == if k in baseQuery.props then Get(baseQuery, k) else Get(Props(BaseInclude(baseQuery)), k)
  {
    var m, a := Merged(baseQuery), Props(BaseInclude(baseQuery));
    forall k ensures k in m.props <==> k in a.props || k in baseQuery.props {
      assert Get(m, k).Some? <==> k in m.props;
    }
  }

  /**
    Every level below the top, `j` steps down, is a fresh merge: it holds the
    keys of the base `include` and of `baseQuery`, `baseQuery`'s value winning,
    and differs from the merge only in its `baseKey` entry's `include`.
   */
  lemma InsertedLevels(baseQuery: Object, levels: int, j: nat)
    requires Shaped(baseQuery) && WellFormed(baseQuery)
    requires 1 <= j < levels
    ensures Follow(Expected(baseQuery, levels).value, BaseKey(baseQuery), j).Some?
    ensures var level := Follow(Expected(baseQuery, levels).value, BaseKey(baseQuery), j).value;
      && level.props.Keys == Props(BaseInclude(baseQuery)).props.Keys + baseQuery.props.Keys
      && forall k :: k != BaseKey(baseQuery) ==>
        Get(level, k) == if k in baseQuery.props then Get(baseQuery, k) else Get(Props(BaseInclude(baseQuery)), k)
  {
    var k0, e, m := BaseKey(baseQuery), BaseEntry(baseQuery), Merged(baseQuery);
    var n, rest := levels - 1, levels - 1 - j;
    ExpectedChain(baseQuery, levels, n);
    FollowChain(k0, e, m, baseQuery, n, j, rest);
    ChainOthers(k0, e, m, m, rest);
    MergedProps(baseQuery);
  }

  /**
    The deepest level is the merge itself, untouched: its `baseKey` entry is
    `baseQuery[baseKey]` as given, so it carries the original base `include`.
   */
  lemma DeepestLevel(baseQuery: Object, levels: int)
    requires Shaped(baseQuery) && levels > 1
    ensures Follow(Expected(baseQuery, levels).value, BaseKey(baseQuery), levels - 1) == Some(Merged(baseQuery))
    ensures Get(Merged(baseQuery), BaseKey(baseQuery)) == Get(baseQuery, BaseKey(baseQuery))
    ensures Get(Get(Merged(baseQuery), BaseKey(baseQuery)).value.o, "include") == BaseInclude(baseQuery)
  {
    var n := levels - 1;
    ExpectedChain(baseQuery, levels, n);
    FollowChain(BaseKey(baseQuery), BaseEntry(baseQuery), Merged(baseQuery), baseQuery, n, n, 0);
  }

  /** A well-formed `baseQuery` gives a well-formed top level. */
  lemma ResultWellFormed(baseQuery: Object, levels: int)
    requires WellFormed(baseQuery)
    requires Expected(baseQuery, levels).Ok?
    ensures WellFormed(Expected(baseQuery, levels).value)
  {
    if levels > 1 {
      var k0, e, m := BaseKey(baseQuery), BaseEntry(baseQuery), Merged(baseQuery);
      GetPut(baseQuery, k0, Obj(Put(e, "include", Obj(Chain(k0, e, m, m, levels - 2)))));
    }
  }
}
