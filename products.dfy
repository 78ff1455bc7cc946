/**
  The product repository (`ProductRepository`): the flat `product` table assembled
  into a tree per root product, its children nested by `parent_product_id` and
  each node carrying its option groups.

  `fetchChildren` recurses by binding itself to `{...this, productId}`. That
  copy holds only the repository's own properties, not the methods its class
  prototype provides, so at the second level `this.fetchChildren` and
  `this.fetchComplementTypes` are `undefined` and calling `.bind` on them
  throws. A tree is therefore assembled at most two levels below the bound
  product, and the assembly fails with a `TypeError` as soon as a product at the
  second level has children or option groups.
 */
module Products {
  import opened Wrappers
  import opened Store
  import ComplementTypes

  /** The product type tag. */
  datatype ProductType = Regular | Complemented | Combo

  /** The tag as stored and as sent over the wire. */
  function TypeName(t: ProductType): string {
    match t
    case Regular => "REGULAR"
    case Complemented => "COMPLEMENTED"
    case Combo => "COMBO"
  }

  /** The three accepted spellings. */
  const KnownTypes: seq<string> := ["REGULAR", "COMPLEMENTED", "COMBO"]

  /**
    `sanitizeProductType(type = "")`: a known tag is kept as it is, anything
    else (a missing value included) becomes `"REGULAR"`.
   */
  function SanitizeProductType(t: Option<string>): (r: ProductType)
    ensures TypeName(r) in KnownTypes
    ensures t.Some? && t.value in KnownTypes ==> TypeName(r) == t.value
    ensures !(t.Some? && t.value in KnownTypes) ==> r == Regular
  {
    var s := t.GetOr("");
    if s == "COMPLEMENTED" then Complemented
    else if s == "COMBO" then Combo
    else Regular
  }

  /** Sanitizing is idempotent: a sanitized tag sanitizes to itself. */
  lemma SanitizeIdempotent(t: Option<string>)
    ensures SanitizeProductType(Some(TypeName(SanitizeProductType(t)))) == SanitizeProductType(t)
  {
  }

  /** What `transform` returns: the row's columns under the API's names. */
  datatype ProductFields = ProductFields(
    workspaceId: int,
    id: int,
    name: string,
    description: string,
    price: int,
    imageUrl: Option<string>,
    productType: ProductType,
    content: Option<string>,
    createdAt: string,
    updatedAt: string,
    parentProductId: Option<int>)

  /** The API view of a product: its fields, its child products and its option groups. */
  datatype Product = Product(
    fields: ProductFields,
    products: seq<Product>,
    productComplementTypes: seq<ComplementTypes.ComplementType>)

  /** The row an API view came from, with its type tag as sanitized. */
  function Restore(f: ProductFields): ProductRow {
    ProductRow(f.id, f.workspaceId, f.parentProductId, f.name, f.description, f.price,
               f.content, f.imageUrl, TypeName(f.productType), f.createdAt, f.updatedAt)
  }

  /**
    `transform`: copies every column (SQL `NULL` stays an absent field and
    `workspace_id` becomes `workspaceId`) and sanitizes the type tag.
   */
  function Transform(row: ProductRow): (f: ProductFields)
    ensures Restore(f) == row.(productType := TypeName(SanitizeProductType(Some(row.productType))))
  {
    ProductFields(
      row.workspaceId, row.id, row.name, row.description, row.price, row.imageUrl,
      SanitizeProductType(Some(row.productType)), row.content, row.createdAt, row.updatedAt,
      row.parentProductId)
  }

  // ---------------------------------------------------------------------------
  // Queries over the product table

  /** The rows `fetchChildren` reads: children of `pid` in workspace `w`, in store order. */
  function ChildRows(rows: seq<ProductRow>, w: int, pid: int): (r: seq<ProductRow>)
    ensures forall x :: x in r <==> x in rows && x.workspaceId == w && x.parentProductId == Some(pid)
  {
    var p := (x: ProductRow) => x.workspaceId == w && x.parentProductId == Some(pid);
    var r := Filter(rows, p);
    assert forall x :: x in rows && p(x) ==> x in r by {
      forall x | x in rows && p(x) ensures x in r { FilterMembership(rows, p, x); }
    }
    r
  }

  /** The rows `index` reads: the root products of workspace `w`, in store order. */
  function RootRows(rows: seq<ProductRow>, w: int): (r: seq<ProductRow>)
    ensures forall x :: x in r <==> x in rows && x.workspaceId == w && x.parentProductId.None?
  {
    var p := (x: ProductRow) => x.workspaceId == w && x.parentProductId.None?;
    var r := Filter(rows, p);
    assert forall x :: x in rows && p(x) ==> x in r by {
      forall x | x in rows && p(x) ensures x in r { FilterMembership(rows, p, x); }
    }
    r
  }

  /** `_count.products`: the number of rows whose parent is `id`, in any workspace. */
  function CountChildren(rows: seq<ProductRow>, id: int): (n: nat)
    ensures n <= |rows|
    ensures n > 0 <==> exists x :: x in rows && x.parentProductId == Some(id)
  {
    var p := (x: ProductRow) => x.parentProductId == Some(id);
    FilterNonEmpty(rows, p);
    |Filter(rows, p)|
  }

  /** `_count.product_product_complement_types`: the number of link rows of product `id`. */
  function CountLinks(links: seq<LinkRow>, id: int): (n: nat)
    ensures n <= |links|
    ensures n > 0 <==> exists l :: l in links && l.productId == id
    ensures n == |LinksOf(links, id)|
  {
    var ls := LinksOf(links, id);
    FilterNonEmpty(links, (l: LinkRow) => l.productId == id);
    |ls|
  }

  /** The position of the first row with the given id, in any workspace. */
  function FindById(rows: seq<ProductRow>, id: int): (r: Option<nat>)
    ensures r.Some? <==> id in Keys(rows, ProductKey)
    ensures r.Some? ==> r.value < |rows| && rows[r.value].id == id
  {
    Find(rows, (x: ProductRow) => x.id == id)
  }

  // ---------------------------------------------------------------------------
  // Tree assembly

  /**
    The loop of `fetchChildren` awaits one result after the other: the values of
    all of them in order, or the first failure, which ends the loop.
   */
  function Collect<T>(rs: seq<Result<T, Failure>>): (r: Result<seq<T>, Failure>)
    ensures r.Ok? ==> |r.value| == |rs|
  {
    if rs == [] then Ok([])
    else if rs[0].Err? then Err(rs[0].error)
    else match Collect(rs[1..])
      case Err(e) => Err(e)
      case Ok(vs) => Ok([rs[0].value] + vs)
  }

  /** `Collect` succeeds exactly when every result does, with their values in order; its failure is one of theirs. */
  lemma {:induction false} CollectMeaning<T>(rs: seq<Result<T, Failure>>)
    ensures Collect(rs).Ok? <==> forall k :: 0 <= k < |rs| ==> rs[k].Ok?
    ensures Collect(rs).Ok? ==> forall k :: 0 <= k < |rs| ==> Collect(rs).value[k] == rs[k].value
    ensures Collect(rs).Err? ==> exists k :: 0 <= k < |rs| && rs[k] == Err(Collect(rs).error)
  {
    if rs != [] {
      CollectMeaning(rs[1..]);
      assert forall k :: 1 <= k < |rs| ==> rs[k] == rs[1..][k - 1];
      if rs[0].Ok? && Collect(rs[1..]).Err? {
        var k :| 0 <= k < |rs[1..]| && rs[1..][k] == Err(Collect(rs[1..]).error);
        assert rs[k + 1] == rs[1..][k];
      }
    }
  }

  /** When every result succeeds, `Collect` yields exactly their values. */
  lemma CollectOk<T>(rs: seq<Result<T, Failure>>, vs: seq<T>)
    requires |vs| == |rs| && forall k :: 0 <= k < |rs| ==> rs[k] == Ok(vs[k])
    ensures Collect(rs) == Ok(vs)
  {
    CollectMeaning(rs);
    assert Collect(rs).value == vs;
  }

  /** The first failing result is the failure of `Collect`. */
  lemma {:induction false} CollectErr<T>(rs: seq<Result<T, Failure>>, i: nat, e: Failure)
    requires i < |rs| && rs[i] == Err(e)
    requires forall k :: 0 <= k < i ==> rs[k].Ok?
    ensures Collect(rs) == Err(e)
  {
    if i > 0 {
      assert forall k :: 0 <= k < i - 1 ==> rs[1..][k] == rs[k + 1];
      CollectErr(rs[1..], i - 1, e);
    }
  }

  /** A product with no children and no option groups: the only kind the method-less copy can assemble. */
  predicate Bare(t: Tables, row: ProductRow) {
    CountChildren(t.products, row.id) == 0 && CountLinks(t.links, row.id) == 0
  }

  /**
    The shape of an assembled forest: every node lies in workspace `w`, names
    its parent node as `parentProductId`, and the same holds below it.
   */
  ghost predicate Forest(ps: seq<Product>, w: int, pid: int)
    decreases ps
  {
    forall i :: 0 <= i < |ps| ==>
      && ps[i].fields.workspaceId == w
      && ps[i].fields.parentProductId == Some(pid)
      && Forest(ps[i].products, w, ps[i].fields.id)
  }

  /** Nodes without children, in workspace `w` and below `pid`, form a forest. */
  lemma LeavesAreForest(ps: seq<Product>, w: int, pid: int)
    requires forall j :: 0 <= j < |ps| ==>
      ps[j].products == [] && ps[j].fields.workspaceId == w && ps[j].fields.parentProductId == Some(pid)
    ensures Forest(ps, w, pid)
  {
    forall j | 0 <= j < |ps| ensures Forest(ps[j].products, w, ps[j].fields.id) {
      assert ps[j].products == [];
    }
  }

  /** Store ids start at 1, so no stored product has id 0. */
  lemma IdsNonZero(db: Database)
    requires db.Valid()
    ensures forall x :: x in db.products ==> x.id != 0
  {
    forall x | x in db.products ensures x.id != 0 {
      KeyedMember(db.products, ProductKey, db.nextProductId, x);
    }
  }

  // ---------------------------------------------------------------------------
  // Writes

  /** The arguments of `create`. */
  datatype NewProduct = NewProduct(
    name: string,
    description: string,
    price: int,
    content: Option<string>,
    imageUrl: Option<string>,
    parentProductId: Option<int>,
    productType: Option<string>)

  /** The fields an `update` call may carry; `None` is a field left out of the call. */
  datatype ProductPatch = ProductPatch(
    name: Option<string>,
    description: Option<string>,
    price: Option<int>,
    content: Option<string>,
    imageUrl: Option<string>,
    parentProductId: Option<int>,
    productType: Option<string>)

  /**
    The row `update` writes: a field left out keeps its value, except the type
    tag, which is always written and so becomes `"REGULAR"` when left out.
   */
  function ApplyPatch(row: ProductRow, patch: ProductPatch): (r: ProductRow)
    ensures r.id == row.id && r.workspaceId == row.workspaceId
    ensures r.createdAt == row.createdAt && r.updatedAt == row.updatedAt
    ensures patch.name.None? ==> r.name == row.name
    ensures patch.name.Some? ==> r.name == patch.name.value
    ensures patch.description.None? ==> r.description == row.description
    ensures patch.description.Some? ==> r.description == patch.description.value
    ensures patch.price.None? ==> r.price == row.price
    ensures patch.price.Some? ==> r.price == patch.price.value
    ensures patch.content.None? ==> r.content == row.content
    ensures patch.content.Some? ==> r.content == patch.content
    ensures patch.imageUrl.None? ==> r.imageUrl == row.imageUrl
    ensures patch.imageUrl.Some? ==> r.imageUrl == patch.imageUrl
    ensures patch.parentProductId.None? ==> r.parentProductId == row.parentProductId
    ensures patch.parentProductId.Some? ==> r.parentProductId == patch.parentProductId
    ensures patch.productType.None? ==> r.productType == "REGULAR"
    ensures r.productType == TypeName(SanitizeProductType(patch.productType))
  {
    row.(
      name := patch.name.GetOr(row.name),
      description := patch.description.GetOr(row.description),
      price := patch.price.GetOr(row.price),
      content := if patch.content.Some? then patch.content else row.content,
      imageUrl := if patch.imageUrl.Some? then patch.imageUrl else row.imageUrl,
      parentProductId := if patch.parentProductId.Some? then patch.parentProductId else row.parentProductId,
      productType := TypeName(SanitizeProductType(patch.productType)))
  }

  /** `new ProductRepository(workspaceId, id)`: an instance, with the class's methods. */
  function NewProductRepository(workspaceId: int, id: Option<int>): (r: ProductRepository)
    ensures r.prototype && r.workspaceId == workspaceId && r.productId == id
  {
    ProductRepository(workspaceId, id, true)
  }

  /**
    A repository value: the workspace, the bound product id, and whether it is
    an instance of the class (`prototype`), which has the class's methods, or
    the `{...this}` copy `fetchChildren` binds itself to, which has only the
    instance's own properties.
   */
  datatype ProductRepository = ProductRepository(workspaceId: int, productId: Option<int>, prototype: bool) {

    /** Its option-group repository is built from the workspace alone, so it has the default group id. */
    function GroupRepository(): ComplementTypes.ComplementTypeRepository {
      ComplementTypes.NewRepository(workspaceId, None)
    }

    /** `fetchComplementTypes`: the option groups linked to the bound product. */
    function FetchComplementTypes(t: Tables): (r: Result<seq<ComplementTypes.ComplementType>, Failure>)
      requires LinksResolve(t)
      ensures !Defined(productId) ==> r == Err(IdNotDefined("productId"))
      ensures Defined(productId) ==> r.Ok? && |r.value| == |LinksOf(t.links, productId.value)|
      ensures Defined(productId) ==> r.value == GroupRepository().Index(t, productId.value)
    {
      if !Defined(productId) then Err(IdNotDefined("productId"))
      else Ok(GroupRepository().Index(t, productId.value))
    }

    /** What `fetchChildren` computes: the children of the bound product, assembled one by one. */
    function Children(t: Tables): (r: Result<seq<Product>, Failure>)
      requires LinksResolve(t)
      ensures !Defined(productId) ==> r == Err(IdNotDefined("productId"))
      ensures Defined(productId) && r.Ok? ==> |r.value| == |ChildRows(t.products, workspaceId, productId.value)|
      ensures Defined(productId) && r.Ok? ==> forall k :: 0 <= k < |r.value| ==>
        r.value[k].fields == Transform(ChildRows(t.products, workspaceId, productId.value)[k])
      decreases if prototype then 1 else 0, 2
    {
      if !Defined(productId) then Err(IdNotDefined("productId"))
      else
        var rs := ChildResults(t);
        CollectMeaning(rs);
        Collect(rs)
    }

    /** The result of `fetchChildren`'s loop body for each child row, in store order. */
    function ChildResults(t: Tables): (rs: seq<Result<Product, Failure>>)
      requires LinksResolve(t) && Defined(productId)
      ensures |rs| == |ChildRows(t.products, workspaceId, productId.value)|
      ensures forall k :: 0 <= k < |rs| ==> rs[k] == Child(t, ChildRows(t.products, workspaceId, productId.value)[k])
      decreases if prototype then 1 else 0, 1
    {
      var rows := ChildRows(t.products, workspaceId, productId.value);
      seq(|rows|, k requires 0 <= k < |rows| => Child(t, rows[k]))
    }

    /**
      The loop body of `fetchChildren` for one child row, run with `this` bound
      to this repository value. The child's own children and option groups are
      loaded through a copy bound to the child, each only when its count is
      positive; reading either method from a copy fails.
     */
    function Child(t: Tables, row: ProductRow): (r: Result<Product, Failure>)
      requires LinksResolve(t)
      ensures r.Ok? ==> r.value.fields == Transform(row)
      ensures !prototype ==> (r.Ok? <==> Bare(t, row))
      ensures !prototype && r.Err? ==> r.error == TypeError
      ensures !prototype && r.Ok? ==> r.value.products == [] && r.value.productComplementTypes == []
      decreases if prototype then 1 else 0, 0
    {
      var context := this.(productId := Some(row.id), prototype := false);
      var productsCount := CountChildren(t.products, row.id);
      var complementTypesCount := CountLinks(t.links, row.id);
      if productsCount > 0 && !prototype then Err(TypeError)
      else
        var children := if productsCount > 0 then context.Children(t) else Ok([]);
        if children.Err? then Err(children.error)
        else if complementTypesCount > 0 && !prototype then Err(TypeError)
        else
          var groups := if complementTypesCount > 0 then context.FetchComplementTypes(t) else Ok([]);
          if groups.Err? then Err(groups.error)
          else Ok(Product(Transform(row), children.value, groups.value))
    }

    /**
      Run on a copy, `fetchChildren` succeeds exactly when no child has children
      or option groups of its own, and then yields the children as leaves.
     */
    lemma CopyChildren(t: Tables)
      requires !prototype && Defined(productId) && LinksResolve(t)
      ensures Children(t).Ok? <==> forall g :: g in ChildRows(t.products, workspaceId, productId.value) ==> Bare(t, g)
      ensures Children(t).Err? ==> Children(t).error == TypeError
      ensures Children(t).Ok? ==> forall k :: 0 <= k < |Children(t).value| ==>
        Children(t).value[k] == Product(Transform(ChildRows(t.products, workspaceId, productId.value)[k]), [], [])
    {
      var rows := ChildRows(t.products, workspaceId, productId.value);
      var rs := ChildResults(t);
      CollectMeaning(rs);
      assert forall g :: g in rows ==> exists k :: 0 <= k < |rows| && rows[k] == g;
    }

    /**
      On an instance, the loop body for a child with a nonzero id succeeds
      exactly when no grandchild has children or option groups; the node then
      carries the grandchildren as leaves and the child's option groups.
     */
    lemma InstanceChild(t: Tables, row: ProductRow)
      requires prototype && LinksResolve(t) && row.id != 0
      ensures Child(t, row).Ok? <==> forall g :: g in ChildRows(t.products, workspaceId, row.id) ==> Bare(t, g)
      ensures Child(t, row).Err? ==> Child(t, row).error == TypeError
      ensures Child(t, row).Ok? ==>
        var p := Child(t, row).value;
        var gs := ChildRows(t.products, workspaceId, row.id);
        && p.fields == Transform(row)
        && p.productComplementTypes == GroupRepository().Index(t, row.id)
        && |p.products| == |gs|
        && forall j :: 0 <= j < |gs| ==> p.products[j] == Product(Transform(gs[j]), [], [])
    {
      var context := this.(productId := Some(row.id), prototype := false);
      var gs := ChildRows(t.products, workspaceId, row.id);
      if gs != [] {
        assert gs[0] in gs;
      }
      if CountChildren(t.products, row.id) == 0 {
        assert gs == [];
      } else {
        context.CopyChildren(t);
      }
      assert context.GroupRepository() == GroupRepository();
      if CountLinks(t.links, row.id) == 0 {
        assert GroupRepository().Index(t, row.id) == [];
      }
    }

    /**
      On an instance whose table has no id 0, `fetchChildren` succeeds exactly
      when no product two levels below the bound one has children or option
      groups; otherwise it fails with a `TypeError`.
     */
    lemma ChildrenSucceeds(t: Tables)
      requires prototype && Defined(productId) && LinksResolve(t)
      requires forall x :: x in t.products ==> x.id != 0
      ensures Children(t).Ok? <==> forall c, g ::
        c in ChildRows(t.products, workspaceId, productId.value) && g in ChildRows(t.products, workspaceId, c.id) ==> Bare(t, g)
      ensures Children(t).Err? ==> Children(t).error == TypeError
    {
      var rows := ChildRows(t.products, workspaceId, productId.value);
      var rs := ChildResults(t);
      CollectMeaning(rs);
      forall k | 0 <= k < |rows|
        ensures rs[k].Ok? <==> forall g :: g in ChildRows(t.products, workspaceId, rows[k].id) ==> Bare(t, g)
        ensures rs[k].Err? ==> rs[k].error == TypeError
      {
        assert rows[k] in rows;
        InstanceChild(t, rows[k]);
      }
      assert forall c :: c in rows ==> exists k :: 0 <= k < |rows| && rows[k] == c;
    }

    /** On success on an instance, every child carries its own option groups and its children as leaves. */
    lemma ChildrenShape(t: Tables)
      requires prototype && Defined(productId) && LinksResolve(t)
      requires forall x :: x in t.products ==> x.id != 0
      requires Children(t).Ok?
      ensures var ps := Children(t).value;
        var rows := ChildRows(t.products, workspaceId, productId.value);
        forall k :: 0 <= k < |ps| ==>
          && ps[k].productComplementTypes == GroupRepository().Index(t, rows[k].id)
          && |ps[k].products| == |ChildRows(t.products, workspaceId, rows[k].id)|
          && forall j :: 0 <= j < |ps[k].products| ==>
            ps[k].products[j] == Product(Transform(ChildRows(t.products, workspaceId, rows[k].id)[j]), [], [])
    {
      var rows := ChildRows(t.products, workspaceId, productId.value);
      var rs := ChildResults(t);
      CollectMeaning(rs);
      forall k | 0 <= k < |rows|
        ensures rs[k].Ok? ==>
          && rs[k].value.productComplementTypes == GroupRepository().Index(t, rows[k].id)
          && |rs[k].value.products| == |ChildRows(t.products, workspaceId, rows[k].id)|
          && forall j :: 0 <= j < |rs[k].value.products| ==>
            rs[k].value.products[j] == Product(Transform(ChildRows(t.products, workspaceId, rows[k].id)[j]), [], [])
      {
        assert rows[k] in rows;
        InstanceChild(t, rows[k]);
      }
    }

    /** Whatever this repository value is, a successful `fetchChildren` yields a forest below the bound product. */
    lemma ChildrenAreForest(t: Tables)
      requires Defined(productId) && LinksResolve(t)
      requires forall x :: x in t.products ==> x.id != 0
      requires Children(t).Ok?
      ensures Forest(Children(t).value, workspaceId, productId.value)
    {
      var ps := Children(t).value;
      var rows := ChildRows(t.products, workspaceId, productId.value);
      if prototype {
        ChildrenShape(t);
      } else {
        CopyChildren(t);
      }
      forall k | 0 <= k < |ps|
        ensures ps[k].fields.workspaceId == workspaceId && ps[k].fields.parentProductId == Some(productId.value)
        ensures Forest(ps[k].products, workspaceId, ps[k].fields.id)
      {
        assert rows[k] in rows;
        var qs := ps[k].products;
        if prototype {
          var gs := ChildRows(t.products, workspaceId, rows[k].id);
          forall j | 0 <= j < |qs|
            ensures qs[j].products == [] && qs[j].fields.workspaceId == workspaceId
            ensures qs[j].fields.parentProductId == Some(rows[k].id)
          {
            assert gs[j] in gs;
          }
        }
        LeavesAreForest(qs, workspaceId, rows[k].id);
      }
    }

    /**
      `fetchChildren`: assembles the children of the bound product. Each child is
      loaded through `context`, a copy of this value bound to the child's id.
     */
    method FetchChildren(db: Database) returns (r: Result<seq<Product>, Failure>)
      requires db.Valid()
      ensures r == Children(db.Snapshot())
      decreases if prototype then 1 else 0, 1
    {
      if !Defined(productId) {
        return Err(IdNotDefined("productId"));
      }
      var pid := productId.value;
      ghost var t := db.Snapshot();
      ghost var rs := ChildResults(t);
      var rawProducts := ChildRows(db.products, workspaceId, pid);
      assert |rs| == |rawProducts|;
      var products: seq<Product> := [];
      for i := 0 to |rawProducts|
        invariant |products| == i
        invariant forall k :: 0 <= k < i ==> rs[k] == Ok(products[k])
      {
        var iProduct := FetchNode(db, rawProducts[i]);
        assert iProduct == rs[i];
        if iProduct.Err? {
          CollectErr(rs, i, iProduct.error);
          return Err(iProduct.error);
        }
        products := products + [iProduct.value];
      }
      CollectOk(rs, products);
      r := Ok(products);
    }

    /**
      The body of `fetchChildren`'s loop for one child row: loads the child's own
      children and option groups, each only when its count is positive, through
      a copy bound to the child. On a copy, the method to call is missing.
     */
    method FetchNode(db: Database, row: ProductRow) returns (n: Result<Product, Failure>)
      requires db.Valid()
      ensures n == Child(db.Snapshot(), row)
      decreases if prototype then 1 else 0, 0
    {
      var productsCount := CountChildren(db.products, row.id);
      var complementTypesCount := CountLinks(db.links, row.id);
      var iProduct := Product(Transform(row), [], []);
      var context := this.(productId := Some(row.id), prototype := false);
      if productsCount > 0 {
        if !prototype {
          return Err(TypeError);
        }
        var children := context.FetchChildren(db);
        if children.Err? {
          return Err(children.error);
        }
        iProduct := iProduct.(products := children.value);
      }
      if complementTypesCount > 0 {
        if !prototype {
          return Err(TypeError);
        }
        var groups := context.FetchComplementTypes(db.Snapshot());
        if groups.Err? {
          return Err(groups.error);
        }
        iProduct := iProduct.(productComplementTypes := groups.value);
      }
      n := Ok(iProduct);
    }

    /** `index`: the workspace's root products, shallow, in store order. */
    function Index(t: Tables): (r: seq<Product>)
      ensures |r| == |RootRows(t.products, workspaceId)|
      ensures forall i :: 0 <= i < |r| ==> r[i] == Product(Transform(RootRows(t.products, workspaceId)[i]), [], [])
      ensures forall p :: p in r ==>
        p.fields.workspaceId == workspaceId && p.fields.parentProductId.None?
        && p.products == [] && p.productComplementTypes == []
      ensures forall row :: row in t.products && row.workspaceId == workspaceId && row.parentProductId.None? ==>
        Product(Transform(row), [], []) in r
    {
      var rows := RootRows(t.products, workspaceId);
      var r := seq(|rows|, i requires 0 <= i < |rows| => Product(Transform(rows[i]), [], []));
      assert forall p :: p in r ==> p.fields.workspaceId == workspaceId && p.fields.parentProductId.None? by {
        forall p | p in r ensures p.fields.workspaceId == workspaceId && p.fields.parentProductId.None? {
          var i :| 0 <= i < |r| && r[i] == p;
          assert rows[i] in rows;
          assert Restore(p.fields).workspaceId == rows[i].workspaceId;
        }
      }
      assert forall row :: row in t.products && row.workspaceId == workspaceId && row.parentProductId.None? ==>
        Product(Transform(row), [], []) in r by {
        forall row | row in t.products && row.workspaceId == workspaceId && row.parentProductId.None?
          ensures Product(Transform(row), [], []) in r
        {
          var i :| 0 <= i < |rows| && rows[i] == row;
          assert r[i] == Product(Transform(row), [], []);
        }
      }
      r
    }

    /** The row `fetch` reads: the bound id, in this workspace, with no parent. */
    function FindRoot(rows: seq<ProductRow>, id: int): (r: Option<nat>)
      ensures r.Some? ==>
        r.value < |rows| && rows[r.value].id == id
        && rows[r.value].workspaceId == workspaceId && rows[r.value].parentProductId.None?
      ensures r.None? ==> forall x :: x in rows ==>
        !(x.id == id && x.workspaceId == workspaceId && x.parentProductId.None?)
    {
      Find(rows, (x: ProductRow) => x.id == id && x.workspaceId == workspaceId && x.parentProductId.None?)
    }

    /**
      What `allData(row)` yields: `row`'s own fields, but the children and option
      groups of the BOUND product id, whatever row was passed in.
     */
    function Assembled(t: Tables, row: ProductRow): (r: Result<Product, Failure>)
      requires LinksResolve(t)
      ensures !Defined(productId) ==> r == Err(IdNotDefined("productId"))
      ensures Defined(productId) ==> (r.Ok? <==> Children(t).Ok?)
      ensures r.Ok? ==>
        && r.value.fields == Transform(row)
        && r.value.products == Children(t).value
        && r.value.productComplementTypes == GroupRepository().Index(t, productId.value)
    {
      if !Defined(productId) then Err(IdNotDefined("productId"))
      else match Children(t)
        case Err(e) => Err(e)
        case Ok(ps) => Ok(Product(Transform(row), ps, GroupRepository().Index(t, productId.value)))
    }

    /** A failed assembly of a table without id 0 is the `TypeError` of a copy, on an instance or not. */
    lemma AssembledFails(t: Tables, row: ProductRow)
      requires LinksResolve(t) && Defined(productId)
      requires forall x :: x in t.products ==> x.id != 0
      ensures Assembled(t, row).Err? ==> Assembled(t, row).error == TypeError
      ensures Assembled(t, row).Ok? ==> Forest(Assembled(t, row).value.products, workspaceId, productId.value)
    {
      if prototype {
        ChildrenSucceeds(t);
      } else {
        CopyChildren(t);
      }
      if Children(t).Ok? {
        ChildrenAreForest(t);
      }
    }

    /** `allData`: option groups first, then children, both of the bound id. */
    method AllData(db: Database, row: ProductRow) returns (r: Result<Product, Failure>)
      requires db.Valid()
      ensures r == Assembled(db.Snapshot(), row)
    {
      var groups := FetchComplementTypes(db.Snapshot());
      if groups.Err? {
        return Err(groups.error);
      }
      var children := FetchChildren(db);
      if children.Err? {
        return Err(children.error);
      }
      r := Ok(Product(Transform(row), children.value, groups.value));
    }

    /** `fetch`: the tree of the bound product, which must be a root of this workspace. */
    method Fetch(db: Database) returns (r: Result<Product, Failure>)
      requires db.Valid()
      ensures !Defined(productId) ==> r == Err(IdNotDefined("productId"))
      ensures Defined(productId) && FindRoot(db.products, productId.value).None? ==> r == Err(RecordNotFound)
      ensures Defined(productId) && FindRoot(db.products, productId.value).Some? ==>
        && r == Assembled(db.Snapshot(), db.products[FindRoot(db.products, productId.value).value])
        && (r.Err? ==> r.error == TypeError)
        && (r.Ok? ==>
          && r.value.fields.id == productId.value
          && r.value.fields.workspaceId == workspaceId && r.value.fields.parentProductId.None?
          && Forest(r.value.products, workspaceId, productId.value))
    {
      if !Defined(productId) {
        return Err(IdNotDefined("productId"));
      }
      var found := FindRoot(db.products, productId.value);
      if found.None? {
        return Err(RecordNotFound);
      }
      var row := db.products[found.value];
      assert Restore(Transform(row)).id == row.id;
      IdsNonZero(db);
      AssembledFails(db.Snapshot(), row);
      r := AllData(db, row);
    }

    /** The row `create` inserts: this workspace, a sanitized tag, the other columns as given. */
    function InsertedRow(id: int, params: NewProduct, now: string): (row: ProductRow)
      ensures row.id == id && row.workspaceId == workspaceId
      ensures row.productType == TypeName(SanitizeProductType(params.productType))
      ensures row.parentProductId == params.parentProductId
      ensures row.name == params.name && row.description == params.description && row.price == params.price
      ensures row.content == params.content && row.imageUrl == params.imageUrl
      ensures row.createdAt == now && row.updatedAt == now
    {
      ProductRow(id, workspaceId, params.parentProductId, params.name, params.description, params.price,
                 params.content, params.imageUrl, TypeName(SanitizeProductType(params.productType)), now, now)
    }

    /**
      `create`: inserts one row, then answers with `allData` of that row, which
      fails when the repository is not bound to a product id (the row stays).
     */
    method Create(db: Database, params: NewProduct, now: string) returns (r: Result<Product, Failure>)
      requires db.Valid()
      modifies db
      ensures db.Valid()
      ensures db.products == old(db.products) + [InsertedRow(old(db.nextProductId), params, now)]
      ensures db.nextProductId == old(db.nextProductId) + 1
      ensures r == Assembled(db.Snapshot(), InsertedRow(old(db.nextProductId), params, now))
      ensures !Defined(productId) ==> r == Err(IdNotDefined("productId"))
      ensures db.groups == old(db.groups) && db.links == old(db.links) && db.complements == old(db.complements)
      ensures db.nextGroupId == old(db.nextGroupId) && db.nextComplementId == old(db.nextComplementId)
    {
      var row := InsertedRow(db.nextProductId, params, now);
      ghost var before := db.products;
      db.products := db.products + [row];
      db.nextProductId := db.nextProductId + 1;
      assert Keys(db.products, ProductKey) == Keys(before, ProductKey) + [row.id];
      r := AllData(db, row);
    }

    /** The product table after `update`: only the row with the bound id in this workspace changes. */
    function PatchedRows(rows: seq<ProductRow>, patch: ProductPatch): (r: seq<ProductRow>)
      ensures |r| == |rows|
      ensures forall i :: 0 <= i < |rows| && !(Defined(productId) && rows[i].id == productId.value && rows[i].workspaceId == workspaceId) ==>
        r[i] == rows[i]
      ensures Keys(r, ProductKey) == Keys(rows, ProductKey)
    {
      if !Defined(productId) then rows
      else match Find(rows, (x: ProductRow) => x.id == productId.value && x.workspaceId == workspaceId)
        case None => rows
        case Some(k) =>
          var r := rows[k := ApplyPatch(rows[k], patch)];
          assert Keys(r, ProductKey) == Keys(rows, ProductKey);
          r
    }

    /** The position of the row `update` targets: the bound id, in this workspace. */
    function FindOwned(rows: seq<ProductRow>, id: int): (r: Option<nat>)
      ensures r.Some? ==> r.value < |rows| && rows[r.value].id == id && rows[r.value].workspaceId == workspaceId
      ensures r.None? ==> forall x :: x in rows ==> !(x.id == id && x.workspaceId == workspaceId)
    {
      Find(rows, (x: ProductRow) => x.id == id && x.workspaceId == workspaceId)
    }

    /** `update`: patches the bound row of this workspace, then answers with `allData`. */
    method Update(db: Database, patch: ProductPatch) returns (r: Result<Product, Failure>)
      requires db.Valid()
      modifies db
      ensures db.Valid()
      ensures db.products == PatchedRows(old(db.products), patch)
      ensures !Defined(productId) ==> r == Err(IdNotDefined("productId"))
      ensures Defined(productId) && FindOwned(old(db.products), productId.value).None? ==>
        r == Err(RecordNotFound) && db.products == old(db.products)
      ensures Defined(productId) && FindOwned(old(db.products), productId.value).Some? ==>
        var k := FindOwned(old(db.products), productId.value).value;
        && db.products[k] == ApplyPatch(old(db.products)[k], patch)
        && r == Assembled(db.Snapshot(), db.products[k])
        && (r.Err? ==> r.error == TypeError)
      ensures db.groups == old(db.groups) && db.links == old(db.links) && db.complements == old(db.complements)
      ensures db.nextProductId == old(db.nextProductId)
      ensures db.nextGroupId == old(db.nextGroupId) && db.nextComplementId == old(db.nextComplementId)
    {
      if !Defined(productId) {
        return Err(IdNotDefined("productId"));
      }
      var found := FindOwned(db.products, productId.value);
      if found.None? {
        return Err(RecordNotFound);
      }
      var k := found.value;
      db.products := PatchedRows(db.products, patch);
      assert Keys(db.products, ProductKey) == Keys(old(db.products), ProductKey);
      IdsNonZero(db);
      AssembledFails(db.Snapshot(), db.products[k]);
      r := AllData(db, db.products[k]);
    }

    /**
      `addComplementType`: creates the option group, then links it to the row
      with the bound id in ANY workspace. The two writes are not atomic: when no
      row has the id, the new group stays behind unlinked.
     */
    method AddComplementType(db: Database, name: string, required: bool, maxSelectable: int, now: string)
      returns (r: Result<Product, Failure>)
      requires db.Valid()
      modifies db
      ensures db.Valid()
      ensures db.products == old(db.products) && db.complements == old(db.complements)
      ensures !Defined(productId) ==>
        && r == Err(IdNotDefined("productId"))
        && db.groups == old(db.groups) && db.links == old(db.links) && db.nextGroupId == old(db.nextGroupId)
      ensures Defined(productId) ==>
        && db.groups == old(db.groups) + [GroupRow(old(db.nextGroupId), name, required, maxSelectable, now, now)]
        && db.nextGroupId == old(db.nextGroupId) + 1
      ensures Defined(productId) && productId.value !in Keys(old(db.products), ProductKey) ==>
        r == Err(RecordNotFound) && db.links == old(db.links)
      ensures Defined(productId) && productId.value in Keys(old(db.products), ProductKey) ==>
        && db.links == old(db.links) + [LinkRow(productId.value, old(db.nextGroupId))]
        && r == Assembled(db.Snapshot(), db.products[FindById(db.products, productId.value).value])
      ensures db.nextProductId == old(db.nextProductId) && db.nextComplementId == old(db.nextComplementId)
    {
      if !Defined(productId) {
        return Err(IdNotDefined("productId"));
      }
      var created := GroupRepository().Create(db, name, required, maxSelectable, now);
      var found := FindById(db.products, productId.value);
      if found.None? {
        return Err(RecordNotFound);
      }
      assert ComplementTypes.Restore(created.value).id == db.groups[|db.groups| - 1].id;
      assert created.value.id in Keys(db.groups, GroupKey) by {
        assert Keys(db.groups, GroupKey)[|db.groups| - 1] == created.value.id;
      }
      db.links := db.links + [LinkRow(productId.value, created.value.id)];
      r := AllData(db, db.products[found.value]);
    }
  }

  // ---------------------------------------------------------------------------
  // Two inputs on which the source fails

  /** A row of workspace 1 with the given id and parent, the other columns empty. */
  function SampleRow(id: int, parent: Option<int>): ProductRow {
    ProductRow(id, 1, parent, "", "", 0, None, None, "REGULAR", "", "")
  }

  /**
    A root with a child, a grandchild and a great-grandchild: the grandchild has
    children, so fetching the root fails with a `TypeError`.
   */
  lemma DeepTreeFails()
    ensures var t := Tables([SampleRow(1, None), SampleRow(2, Some(1)), SampleRow(3, Some(2)), SampleRow(4, Some(3))], [], [], []);
      && NewProductRepository(1, Some(1)).Children(t) == Err(TypeError)
      && NewProductRepository(1, Some(1)).Assembled(t, t.products[0]) == Err(TypeError)
  {
    var t := Tables([SampleRow(1, None), SampleRow(2, Some(1)), SampleRow(3, Some(2)), SampleRow(4, Some(3))], [], [], []);
    var repo := NewProductRepository(1, Some(1));
    repo.ChildrenSucceeds(t);
    var c, g := t.products[1], t.products[2];
    assert c in ChildRows(t.products, 1, 1);
    assert g in ChildRows(t.products, 1, c.id);
    assert t.products[3] in t.products;
    assert !Bare(t, g);
  }

  /**
    `update` writes a patch that makes a root and its child each other's parent,
    then fails with a `TypeError` when it assembles the answer.
   */
  lemma CyclicPatchFails()
    ensures var repo := NewProductRepository(1, Some(1));
      var patch := ProductPatch(None, None, None, None, None, Some(2), None);
      var rows := repo.PatchedRows([SampleRow(1, None), SampleRow(2, Some(1))], patch);
      && rows == [SampleRow(1, Some(2)), SampleRow(2, Some(1))]
      && repo.Assembled(Tables(rows, [], [], []), rows[0]) == Err(TypeError)
  {
    var repo := NewProductRepository(1, Some(1));
    var patch := ProductPatch(None, None, None, None, None, Some(2), None);
    var before := [SampleRow(1, None), SampleRow(2, Some(1))];
    var rows := repo.PatchedRows(before, patch);
    assert repo.FindOwned(before, 1) == Some(0);
    assert rows == [SampleRow(1, Some(2)), SampleRow(2, Some(1))];
    var t := Tables(rows, [], [], []);
    repo.ChildrenSucceeds(t);
    assert rows[1] in ChildRows(rows, 1, 1);
    assert rows[0] in ChildRows(rows, 1, rows[1].id);
    assert rows[1] in rows;
    assert !Bare(t, rows[0]);
  }

  /**
    Rows 1 and 2 name each other as parent, but lie in different workspaces:
    children are read in workspace 1 only, so the cycle is never followed.
   */
  lemma CrossWorkspaceCycleSucceeds()
    ensures var rows := [SampleRow(1, Some(2)), ProductRow(2, 2, Some(1), "", "", 0, None, None, "REGULAR", "", "")];
      var repo := NewProductRepository(1, Some(1));
      && repo.Children(Tables(rows, [], [], [])) == Ok([])
      && repo.Assembled(Tables(rows, [], [], []), rows[0]).Ok?
  {
    var rows := [SampleRow(1, Some(2)), ProductRow(2, 2, Some(1), "", "", 0, None, None, "REGULAR", "", "")];
    assert ChildRows(rows, 1, 1) == [];
  }
}
