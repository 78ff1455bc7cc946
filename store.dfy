/**
  The relational store behind the repositories, replaced by in-memory tables.

  Each table is a sequence of rows in store order; a `findMany` is a filter over
  that sequence, a `findFirst` is the first row that matches, `_count` is the
  number of matching rows, and ids come from one autoincrement counter per table.
 */
module Store {
  import opened Wrappers

  /** A row of the `product` table. */
  datatype ProductRow = ProductRow(
    id: int,
    workspaceId: int,
    parentProductId: Option<int>,
    name: string,
    description: string,
    price: int,
    content: Option<string>,
    imageUrl: Option<string>,
    productType: string,
    createdAt: string,
    updatedAt: string)

  /** A row of the `product_complement_type` table (an option group). */
  datatype GroupRow = GroupRow(
    id: int,
    name: string,
    required: bool,
    maxSelectable: int,
    createdAt: string,
    updatedAt: string)

  /** A row of the join table between products and option groups. */
  datatype LinkRow = LinkRow(productId: int, complementTypeId: int)

  /** A row of the `product_complement` table (one selectable option). */
  datatype ComplementRow = ComplementRow(
    id: int,
    complementTypeId: int,
    name: string,
    increment: bool,
    isDisabled: bool,
    price: int)

  /** A snapshot of the four tables, as the read operations see it. */
  datatype Tables = Tables(
    products: seq<ProductRow>,
    groups: seq<GroupRow>,
    links: seq<LinkRow>,
    complements: seq<ComplementRow>)

  /** What a repository operation can throw. */
  datatype Failure =
    | IdNotDefined(field: string)  // `new Error("{<field>} not defined")`
    | RecordNotFound               // `findFirstOrThrow` or `update` matched no row
    | ForeignKeyViolation          // a link row would name a missing product or group
    | TypeError                    // a method read from an object that does not have it is `undefined`

  /** JavaScript truthiness of an optional numeric id: `undefined` and `0` are falsy. */
  predicate Defined(id: Option<int>) {
    id.Some? && id.value != 0
  }

  // ---------------------------------------------------------------------------
  // Queries over a table

  /** The rows of `s` that satisfy `p`, in store order (`findMany` with a `where`). */
  function Filter<T>(s: seq<T>, p: T -> bool): (r: seq<T>)
    ensures |r| <= |s|
    ensures forall x :: x in r ==> x in s && p(x)
  {
    if s == [] then []
    else (if p(s[0]) then [s[0]] else []) + Filter(s[1..], p)
  }

  lemma {:induction false} FilterMembership<T>(s: seq<T>, p: T -> bool, x: T)
    ensures x in Filter(s, p) <==> x in s && p(x)
  {
    if s != [] {
      FilterMembership(s[1..], p, x);
      assert s == [s[0]] + s[1..];
    }
  }

  lemma {:induction false} FilterAppend<T>(a: seq<T>, b: seq<T>, p: T -> bool)
    ensures Filter(a + b, p) == Filter(a, p) + Filter(b, p)
  {
    if a == [] {
      assert a + b == b;
    } else {
      assert (a + b)[1..] == a[1..] + b;
      FilterAppend(a[1..], b, p);
    }
  }

  /** A filter keeps at least one row exactly when some row matches. */
  lemma FilterNonEmpty<T>(s: seq<T>, p: T -> bool)
    ensures |Filter(s, p)| > 0 <==> exists x :: x in s && p(x)
  {
    if |Filter(s, p)| > 0 {
      assert Filter(s, p)[0] in Filter(s, p);
    } else if exists x :: x in s && p(x) {
      var x :| x in s && p(x);
      FilterMembership(s, p, x);
    }
  }

  /** The position of the first row of `s` that satisfies `p` (`findFirst`). */
  function Find<T>(s: seq<T>, p: T -> bool): (r: Option<nat>)
    ensures r.Some? ==> r.value < |s| && p(s[r.value])
    ensures r.Some? ==> forall j :: 0 <= j < r.value ==> !p(s[j])
    ensures r.None? ==> forall j :: 0 <= j < |s| ==> !p(s[j])
  {
    if s == [] then None
    else if p(s[0]) then Some(0)
    else match Find(s[1..], p)
      case None => None
      case Some(i) => Some(i + 1)
  }

  /** The id column of a table, in store order. */
  function Keys<T>(s: seq<T>, key: T -> int): (r: seq<int>)
    ensures |r| == |s|
    ensures forall i :: 0 <= i < |s| ==> r[i] == key(s[i])
  {
    seq(|s|, i requires 0 <= i < |s| => key(s[i]))
  }

  /** The table's ids are positive, pairwise distinct and below the counter `next`. */
  ghost predicate Keyed<T>(s: seq<T>, key: T -> int, next: int) {
    && (forall i :: 0 <= i < |s| ==> 1 <= key(s[i]) < next)
    && (forall i, j :: 0 <= i < j < |s| ==> key(s[i]) != key(s[j]))
  }

  /** Every row of a keyed table has an id in range. */
  lemma KeyedMember<T>(s: seq<T>, key: T -> int, next: int, x: T)
    requires Keyed(s, key, next) && x in s
    ensures 1 <= key(x) < next
  {
    var i :| 0 <= i < |s| && s[i] == x;
  }

  function ProductKey(r: ProductRow): int { r.id }
  function GroupKey(r: GroupRow): int { r.id }
  function ComplementKey(r: ComplementRow): int { r.id }

  /** Every link row names a product and an option group that exist. */
  ghost predicate LinksResolve(t: Tables) {
    forall l :: l in t.links ==>
      l.productId in Keys(t.products, ProductKey) && l.complementTypeId in Keys(t.groups, GroupKey)
  }

  /** The complements of one option group, in store order. */
  function OfType(rows: seq<ComplementRow>, complementTypeId: int): (r: seq<ComplementRow>)
    ensures forall x :: x in r <==> x in rows && x.complementTypeId == complementTypeId
  {
    var r := Filter(rows, (c: ComplementRow) => c.complementTypeId == complementTypeId);
    assert forall x :: x in rows && x.complementTypeId == complementTypeId ==> x in r by {
      forall x | x in rows && x.complementTypeId == complementTypeId
        ensures x in r
      {
        FilterMembership(rows, (c: ComplementRow) => c.complementTypeId == complementTypeId, x);
      }
    }
    r
  }

  /** The link rows of one product, in store order. */
  function LinksOf(links: seq<LinkRow>, productId: int): (r: seq<LinkRow>)
    ensures forall x :: x in r <==> x in links && x.productId == productId
  {
    var r := Filter(links, (l: LinkRow) => l.productId == productId);
    assert forall x :: x in links && x.productId == productId ==> x in r by {
      forall x | x in links && x.productId == productId
        ensures x in r
      {
        FilterMembership(links, (l: LinkRow) => l.productId == productId, x);
      }
    }
    r
  }

  /** The position of the option group with the given id. */
  function FindGroup(groups: seq<GroupRow>, id: int): (r: Option<nat>)
    ensures r.Some? <==> id in Keys(groups, GroupKey)
    ensures r.Some? ==> r.value < |groups| && groups[r.value].id == id
  {
    Find(groups, (g: GroupRow) => g.id == id)
  }

  // ---------------------------------------------------------------------------
  // The database itself

  /** The shared in-memory store that every repository reads and writes. */
  class Database {
    var products: seq<ProductRow>
    var groups: seq<GroupRow>
    var links: seq<LinkRow>
    var complements: seq<ComplementRow>
    var nextProductId: int
    var nextGroupId: int
    var nextComplementId: int

    /** The tables as one value. */
    function Snapshot(): Tables
      reads this
    {
      Tables(products, groups, links, complements)
    }

    /** Autoincrement keys and the link table's foreign keys. */
    ghost predicate Valid()
      reads this
    {
      && 1 <= nextProductId && 1 <= nextGroupId && 1 <= nextComplementId
      && Keyed(products, ProductKey, nextProductId)
      && Keyed(groups, GroupKey, nextGroupId)
      && Keyed(complements, ComplementKey, nextComplementId)
      && LinksResolve(Snapshot())
    }

    constructor ()
      ensures Valid()
      ensures products == [] && groups == [] && links == [] && complements == []
      ensures nextProductId == 1 && nextGroupId == 1 && nextComplementId == 1
    {
      products, groups, links, complements := [], [], [], [];
      nextProductId, nextGroupId, nextComplementId := 1, 1, 1;
    }
  }
}
