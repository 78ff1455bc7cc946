/**
  The complement-type repository: option groups, hydrated with their complements,
  and the join table that offers a group on a product (`ProductComplementTypeRepository`).
 */
module ComplementTypes {
  import opened Wrappers
  import opened Store
  import Complements

  /** The API view of an option group (`ProductComplementType`). */
  datatype ComplementType = ComplementType(
    id: int,
    maxSelectable: int,
    name: string,
    required: bool,
    createdAt: string,
    updatedAt: string,
    productComplements: seq<Complements.Complement>)

  /** The group row an API view came from. */
  function Restore(g: ComplementType): GroupRow {
    GroupRow(g.id, g.name, g.required, g.maxSelectable, g.createdAt, g.updatedAt)
  }

  /**
    `transform`: copies the group's columns (renaming `max_selectable`) and maps
    the included complements, if any were included, one for one and in order.
   */
  function Transform(row: GroupRow, complements: Option<seq<ComplementRow>>): (g: ComplementType)
    ensures Restore(g) == row
    ensures complements.None? ==> g.productComplements == []
    ensures complements.Some? ==> |g.productComplements| == |complements.value|
    ensures complements.Some? ==> forall i :: 0 <= i < |complements.value| ==>
      Complements.Restore(g.productComplements[i], complements.value[i].complementTypeId) == complements.value[i]
  {
    var cs := complements.GetOr([]);
    ComplementType(
      row.id, row.maxSelectable, row.name, row.required, row.createdAt, row.updatedAt,
      seq(|cs|, i requires 0 <= i < |cs| => Complements.Transform(cs[i])))
  }

  /** A group row read with `include: { product_complements: true }`. */
  function Hydrate(t: Tables, row: GroupRow): ComplementType {
    Transform(row, Some(OfType(t.complements, row.id)))
  }

  /** The group row a link row joins to (`include: { product_complement_type: ... }`). */
  function Joined(t: Tables, l: LinkRow): (g: GroupRow)
    requires LinksResolve(t) && l in t.links
    ensures g in t.groups && g.id == l.complementTypeId
  {
    t.groups[FindGroup(t.groups, l.complementTypeId).value]
  }

  /** The fields an `update` call may carry; `None` is a field left out of the call. */
  datatype GroupPatch = GroupPatch(
    name: Option<string>,
    required: Option<bool>,
    maxSelectable: Option<int>)

  /** The row `update` writes: every field left out keeps its value. */
  function Patch(row: GroupRow, patch: GroupPatch): (r: GroupRow)
    ensures r.id == row.id && r.createdAt == row.createdAt && r.updatedAt == row.updatedAt
    ensures patch.name.None? ==> r.name == row.name
    ensures patch.name.Some? ==> r.name == patch.name.value
    ensures patch.required.None? ==> r.required == row.required
    ensures patch.required.Some? ==> r.required == patch.required.value
    ensures patch.maxSelectable.None? ==> r.maxSelectable == row.maxSelectable
    ensures patch.maxSelectable.Some? ==> r.maxSelectable == patch.maxSelectable.value
  {
    row.(
      name := patch.name.GetOr(row.name),
      required := patch.required.GetOr(row.required),
      maxSelectable := patch.maxSelectable.GetOr(row.maxSelectable))
  }

  /** The repository constructor: the group id defaults to -1 when it is not given. */
  function NewRepository(workspaceId: int, id: Option<int>): (r: ComplementTypeRepository)
    ensures r.workspaceId == workspaceId
    ensures id.Some? ==> r.complementTypeId == id.value
    ensures id.None? ==> r.complementTypeId == -1
  {
    ComplementTypeRepository(workspaceId, id.GetOr(-1))
  }

  /**
    The repository bound to group `complementTypeId`. The workspace it is given is
    stored but never used: no query of this repository filters by workspace.
   */
  datatype ComplementTypeRepository = ComplementTypeRepository(workspaceId: int, complementTypeId: int) {

    /** `index`: one hydrated group per link row of `productId`, in link-row order. */
    function Index(t: Tables, productId: int): (r: seq<ComplementType>)
      requires LinksResolve(t)
      ensures |r| == |LinksOf(t.links, productId)|
      ensures forall i :: 0 <= i < |r| ==>
        r[i].id == LinksOf(t.links, productId)[i].complementTypeId
        && r[i] == Hydrate(t, Joined(t, LinksOf(t.links, productId)[i]))
    {
      var ls := LinksOf(t.links, productId);
      seq(|ls|, i requires 0 <= i < |ls| => Hydrate(t, Joined(t, ls[i])))
    }

    /** A new link row of `p` adds one group to the end of `p`'s list and changes no other product's. */
    lemma {:induction false} IndexAfterLink(t: Tables, p: int, g: int)
      requires LinksResolve(t)
      requires LinksResolve(t.(links := t.links + [LinkRow(p, g)]))
      ensures var t' := t.(links := t.links + [LinkRow(p, g)]);
        && Index(t', p) == Index(t, p) + [Hydrate(t, Joined(t', LinkRow(p, g)))]
        && forall q :: q != p ==> Index(t', q) == Index(t, q)
    {
      var t' := t.(links := t.links + [LinkRow(p, g)]);
      var l := LinkRow(p, g);
      FilterAppend(t.links, [l], (k: LinkRow) => k.productId == p);
      assert Filter([l], (k: LinkRow) => k.productId == p) == [l];
      assert LinksOf(t'.links, p) == LinksOf(t.links, p) + [l];
      assert Index(t', p) == Index(t, p) + [Hydrate(t, Joined(t', l))];
      forall q | q != p
        ensures Index(t', q) == Index(t, q)
      {
        FilterAppend(t.links, [l], (k: LinkRow) => k.productId == q);
        assert Filter([l], (k: LinkRow) => k.productId == q) == [];
        assert LinksOf(t'.links, q) == LinksOf(t.links, q);
      }
    }

    /** `fetch`: the bound group, hydrated; fails when no group has the id. */
    function Fetch(t: Tables): (r: Result<ComplementType, Failure>)
      ensures r.Ok? <==> complementTypeId in Keys(t.groups, GroupKey)
      ensures r.Err? ==> r == Err(RecordNotFound)
      ensures r.Ok? ==> exists row :: row in t.groups && row.id == complementTypeId && r.value == Hydrate(t, row)
    {
      match FindGroup(t.groups, complementTypeId)
      case None => Err(RecordNotFound)
      case Some(k) => Ok(Hydrate(t, t.groups[k]))
    }

    /** `create`: inserts one group with the given name, flag and limit. */
    method Create(db: Database, name: string, required: bool, maxSelectable: int, now: string)
      returns (r: Result<ComplementType, Failure>)
      requires db.Valid()
      modifies db
      ensures db.Valid()
      ensures db.groups == old(db.groups) + [GroupRow(old(db.nextGroupId), name, required, maxSelectable, now, now)]
      ensures db.nextGroupId == old(db.nextGroupId) + 1
      ensures r == Ok(Hydrate(db.Snapshot(), db.groups[|db.groups| - 1]))
      ensures db.products == old(db.products) && db.links == old(db.links) && db.complements == old(db.complements)
      ensures db.nextProductId == old(db.nextProductId) && db.nextComplementId == old(db.nextComplementId)
    {
      var row := GroupRow(db.nextGroupId, name, required, maxSelectable, now, now);
      ghost var before := db.Snapshot();
      db.groups := db.groups + [row];
      db.nextGroupId := db.nextGroupId + 1;
      assert Keys(db.groups, GroupKey) == Keys(before.groups, GroupKey) + [row.id];
      r := Ok(Hydrate(db.Snapshot(), row));
    }

    /** `update`: patches the bound group; fails, changing nothing, when no group has the id. */
    method Update(db: Database, patch: GroupPatch) returns (r: Result<ComplementType, Failure>)
      requires db.Valid()
      modifies db
      ensures db.Valid()
      ensures complementTypeId !in Keys(old(db.groups), GroupKey) ==>
        r == Err(RecordNotFound) && db.groups == old(db.groups)
      ensures complementTypeId in Keys(old(db.groups), GroupKey) ==>
        var k := FindGroup(old(db.groups), complementTypeId).value;
        && db.groups == old(db.groups)[k := Patch(old(db.groups)[k], patch)]
        && r == Ok(Hydrate(db.Snapshot(), db.groups[k]))
      ensures |db.groups| == |old(db.groups)|
      ensures forall i :: 0 <= i < |db.groups| && old(db.groups)[i].id != complementTypeId ==>
        db.groups[i] == old(db.groups)[i]
      ensures db.products == old(db.products) && db.links == old(db.links) && db.complements == old(db.complements)
      ensures db.nextProductId == old(db.nextProductId) && db.nextGroupId == old(db.nextGroupId)
      ensures db.nextComplementId == old(db.nextComplementId)
    {
      var pos := FindGroup(db.groups, complementTypeId);
      if pos.None? {
        return Err(RecordNotFound);
      }
      var k := pos.value;
      var row := Patch(db.groups[k], patch);
      db.groups := db.groups[k := row];
      assert Keys(db.groups, GroupKey) == Keys(old(db.groups), GroupKey);
      r := Ok(Hydrate(db.Snapshot(), row));
    }

    /**
      `addToProduct`: inserts the link (productId, this group) and returns the group.
      The join table's foreign keys reject a link to a missing product or group.
     */
    method AddToProduct(db: Database, productId: int) returns (r: Result<ComplementType, Failure>)
      requires db.Valid()
      modifies db
      ensures db.Valid()
      ensures productId !in Keys(old(db.products), ProductKey) || complementTypeId !in Keys(old(db.groups), GroupKey) ==>
        r == Err(ForeignKeyViolation) && db.links == old(db.links)
      ensures productId in Keys(old(db.products), ProductKey) && complementTypeId in Keys(old(db.groups), GroupKey) ==>
        && db.links == old(db.links) + [LinkRow(productId, complementTypeId)]
        && r == Fetch(db.Snapshot()) && r.Ok?
      ensures db.products == old(db.products) && db.groups == old(db.groups) && db.complements == old(db.complements)
      ensures db.nextProductId == old(db.nextProductId) && db.nextGroupId == old(db.nextGroupId)
      ensures db.nextComplementId == old(db.nextComplementId)
    {
      if productId !in Keys(db.products, ProductKey) || complementTypeId !in Keys(db.groups, GroupKey) {
        return Err(ForeignKeyViolation);
      }
      db.links := db.links + [LinkRow(productId, complementTypeId)];
      r := Fetch(db.Snapshot());
    }
  }

  /** A repository built without a group id can never fetch one: store ids are positive. */
  lemma DefaultRepositoryFetchFails(db: Database, workspaceId: int)
    requires db.Valid()
    ensures NewRepository(workspaceId, None).Fetch(db.Snapshot()) == Err(RecordNotFound)
  {
  }
}
