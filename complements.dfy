/**
  The complement repository: the selectable options of one option group
  (`ProductComplementRepository`).
 */
module Complements {
  import opened Wrappers
  import opened Store

  /** The API view of a complement (`ProductComplement`). */
  datatype Complement = Complement(
    id: int,
    increment: bool,
    isDisabled: bool,
    name: string,
    price: int)

  /** The row an API view came from, given the group column that the view drops. */
  function Restore(c: Complement, complementTypeId: int): ComplementRow {
    ComplementRow(c.id, complementTypeId, c.name, c.increment, c.isDisabled, c.price)
  }

  /** `transform`: renames `is_disabled` to `isDisabled` and loses nothing but the group column. */
  function Transform(row: ComplementRow): (c: Complement)
    ensures Restore(c, row.complementTypeId) == row
  {
    Complement(row.id, row.increment, row.isDisabled, row.name, row.price)
  }

  /** The fields an `update` call may carry; `None` is a field left out of the call. */
  datatype ComplementPatch = ComplementPatch(
    name: Option<string>,
    isDisabled: Option<bool>,
    price: Option<int>)

  /**
    The row `update` writes. A field left out keeps its value (Prisma ignores
    `undefined`), and `increment` is written only when the new price is truthy:
    an omitted price and a price of 0 both leave it as it was.
   */
  function Patch(row: ComplementRow, patch: ComplementPatch): (r: ComplementRow)
    ensures r.id == row.id && r.complementTypeId == row.complementTypeId
    ensures patch.name.None? ==> r.name == row.name
    ensures patch.name.Some? ==> r.name == patch.name.value
    ensures patch.isDisabled.None? ==> r.isDisabled == row.isDisabled
    ensures patch.isDisabled.Some? ==> r.isDisabled == patch.isDisabled.value
    ensures patch.price.None? ==> r.price == row.price
    ensures patch.price.Some? ==> r.price == patch.price.value
    ensures Defined(patch.price) ==> r.increment == (patch.price.value > 0)
    ensures !Defined(patch.price) ==> r.increment == row.increment
  {
    ComplementRow(
      row.id,
      row.complementTypeId,
      patch.name.GetOr(row.name),
      if Defined(patch.price) then patch.price.value > 0 else row.increment,
      patch.isDisabled.GetOr(row.isDisabled),
      patch.price.GetOr(row.price))
  }

  /** The data-model rule that `increment` is derived from the price. */
  predicate IncrementMatchesPrice(row: ComplementRow) {
    row.increment == (row.price > 0)
  }

  /** `update` keeps the derivation rule as long as the patch does not set the price to 0. */
  lemma PatchKeepsIncrementRule(row: ComplementRow, patch: ComplementPatch)
    requires IncrementMatchesPrice(row)
    requires patch.price != Some(0)
    ensures IncrementMatchesPrice(Patch(row, patch))
  {
  }

  /** A price of 0 leaves a stale `increment`: "Corn" at 400 patched to 0 stays an increment. */
  lemma ZeroPriceLeavesIncrementStale()
    ensures var row := ComplementRow(1, 1, "Corn", true, false, 400);
            IncrementMatchesPrice(row) && !IncrementMatchesPrice(Patch(row, ComplementPatch(None, None, Some(0))))
  {
  }

  /** The position of the complement with the given id (`where: { id }`). */
  function Position(rows: seq<ComplementRow>, id: int): (r: Option<nat>)
    ensures r.Some? <==> id in Keys(rows, ComplementKey)
    ensures r.Some? ==> r.value < |rows| && rows[r.value].id == id
  {
    Find(rows, (c: ComplementRow) => c.id == id)
  }

  /** The repository for the complements of group `complementTypeId`, optionally bound to one complement. */
  datatype ComplementRepository = ComplementRepository(complementTypeId: int, complementId: Option<int>) {

    /** `index`: the group's complements, transformed, in store order. */
    function Index(rows: seq<ComplementRow>): (r: seq<Complement>)
      ensures |r| == |OfType(rows, complementTypeId)|
      ensures forall i :: 0 <= i < |r| ==> r[i] == Transform(OfType(rows, complementTypeId)[i])
      ensures forall c :: c in r <==>
        exists row :: row in rows && row.complementTypeId == complementTypeId && Transform(row) == c
    {
      var cs := OfType(rows, complementTypeId);
      var r := seq(|cs|, i requires 0 <= i < |cs| => Transform(cs[i]));
      assert forall row :: row in rows && row.complementTypeId == complementTypeId ==> Transform(row) in r by {
        forall row | row in rows && row.complementTypeId == complementTypeId
          ensures Transform(row) in r
        {
          var i :| 0 <= i < |cs| && cs[i] == row;
          assert r[i] == Transform(row);
        }
      }
      r
    }

    /** `fetch`: the bound complement, looked up by id alone. */
    function Fetch(rows: seq<ComplementRow>): (r: Result<Complement, Failure>)
      ensures !Defined(complementId) ==> r == Err(IdNotDefined("productComplementId"))
      ensures Defined(complementId) ==> (r.Ok? <==> complementId.value in Keys(rows, ComplementKey))
      ensures Defined(complementId) && r.Err? ==> r == Err(RecordNotFound)
      ensures r.Ok? ==> exists row :: row in rows && row.id == complementId.value && r.value == Transform(row)
    {
      if !Defined(complementId) then Err(IdNotDefined("productComplementId"))
      else match Position(rows, complementId.value)
        case None => Err(RecordNotFound)
        case Some(k) => Ok(Transform(rows[k]))
    }

    /** `create`: inserts one complement of this group; `increment` is `price > 0`. */
    method Create(db: Database, name: string, isDisabled: bool, price: int) returns (r: Result<Complement, Failure>)
      requires db.Valid()
      modifies db
      ensures db.Valid()
      ensures db.complements == old(db.complements)
        + [ComplementRow(old(db.nextComplementId), complementTypeId, name, price > 0, isDisabled, price)]
      ensures db.nextComplementId == old(db.nextComplementId) + 1
      ensures r == Ok(Transform(db.complements[|db.complements| - 1]))
      ensures db.products == old(db.products) && db.groups == old(db.groups) && db.links == old(db.links)
      ensures db.nextProductId == old(db.nextProductId) && db.nextGroupId == old(db.nextGroupId)
    {
      var row := ComplementRow(db.nextComplementId, complementTypeId, name, price > 0, isDisabled, price);
      db.complements := db.complements + [row];
      db.nextComplementId := db.nextComplementId + 1;
      r := Ok(Transform(row));
    }

    /** `update`: patches the bound complement (looked up by id alone). */
    method Update(db: Database, patch: ComplementPatch) returns (r: Result<Complement, Failure>)
      requires db.Valid()
      modifies db
      ensures db.Valid()
      ensures !Defined(complementId) ==> r == Err(IdNotDefined("productComplementId"))
      ensures Defined(complementId) && complementId.value !in Keys(old(db.complements), ComplementKey) ==>
        r == Err(RecordNotFound)
      ensures r.Err? ==> db.complements == old(db.complements)
      ensures Defined(complementId) && complementId.value in Keys(old(db.complements), ComplementKey) ==>
        var k := Position(old(db.complements), complementId.value).value;
        && db.complements == old(db.complements)[k := Patch(old(db.complements)[k], patch)]
        && r == Ok(Transform(db.complements[k]))
      ensures |db.complements| == |old(db.complements)|
      ensures forall i :: 0 <= i < |db.complements| && old(db.complements)[i].id != complementId.GetOr(0) ==>
        db.complements[i] == old(db.complements)[i]
      ensures db.products == old(db.products) && db.groups == old(db.groups) && db.links == old(db.links)
      ensures db.nextProductId == old(db.nextProductId) && db.nextGroupId == old(db.nextGroupId)
      ensures db.nextComplementId == old(db.nextComplementId)
    {
      if !Defined(complementId) {
        return Err(IdNotDefined("productComplementId"));
      }
      var pos := Position(db.complements, complementId.value);
      if pos.None? {
        return Err(RecordNotFound);
      }
      var k := pos.value;
      var row := Patch(db.complements[k], patch);
      db.complements := db.complements[k := row];
      assert Keys(db.complements, ComplementKey) == Keys(old(db.complements), ComplementKey);
      r := Ok(Transform(row));
    }
  }
}
