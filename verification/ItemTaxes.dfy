/**
 Items and their taxes: the use cases that write them in one transaction, and the
 loader that reads the taxes of many items with one query.
 */
module ItemTaxes {
  import opened Wrappers

  /** A database uuid, or none yet. */
  datatype Id = Unset | Uuid(value: nat)

  datatype Kind = Good | Service | Unknown

  datatype ItemTax = ItemTax(id: Id, itemId: Id, name: string, taxNumber: string, rate: real, enabled: bool, createdAt: int)

  datatype Details = Details(name: string, kind: Kind, rate: real, trackInventory: bool, quantity: int)

  datatype ItemRow = ItemRow(organization: nat, details: Details, createdAt: int, deleted: bool)

  datatype Error = InvalidItemType | NameRequired | InvalidRate | InvalidStockQuantity | InvalidTaxRate
                 | ItemNotFound | WriteFailed

  // ---- numbers as columns keep them ----

  /** Hundredths, halves rounded away from zero. */
  function Cents(r: real): int {
    if r >= 0.0 then (r * 100.0 + 0.5).Floor else -((0.5 - r * 100.0).Floor)
  }

  /** What a column with two decimals gives back. */
  function Stored(r: real): real {
    Cents(r) as real / 100.0
  }

  predicate TwoDecimals(r: real) {
    (r * 100.0).Floor as real == r * 100.0
  }

  lemma CentsOfWhole(r: real, n: int)
    requires r * 100.0 == n as real
    ensures Cents(r) == n
  {
    assert (n as real + 0.5).Floor == n;
    assert (0.5 - n as real).Floor == -n;
  }

  lemma StoredIsNear(r: real)
    ensures Stored(r) * 100.0 == Cents(r) as real
    ensures -0.005 <= Stored(r) - r <= 0.005
  {
  }

  lemma ExactIffTwoDecimals(r: real)
    ensures Stored(r) == r <==> TwoDecimals(r)
    ensures TwoDecimals(Stored(r)) && -0.005 <= Stored(r) - r <= 0.005
  {
    StoredIsNear(r);
    assert (Cents(r) as real).Floor == Cents(r);
    if TwoDecimals(r) {
      CentsOfWhole(r, (r * 100.0).Floor);
    }
  }

  // ---- validation ----

  function Normalized(d: Details): Details {
    if d.kind == Service then d.(trackInventory := false, quantity := 0) else d
  }

  predicate ValidTaxRate(t: ItemTax) {
    0.0 <= t.rate <= 100.0
  }

  function Validation(d: Details, taxes: seq<ItemTax>): (r: Result<(), Error>) {
    var n := Normalized(d);
    if n.kind == Unknown then Err(InvalidItemType)
    else if IsBlank(n.name) then Err(NameRequired)
    else if n.rate <= 0.0 then Err(InvalidRate)
    else if n.kind == Good && n.trackInventory && n.quantity < 0 then Err(InvalidStockQuantity)
    else if exists t <- taxes :: !ValidTaxRate(t) then Err(InvalidTaxRate)
    else Ok(())
  }

  // ---- tables ----

  datatype Tables = Tables(items: map<Id, ItemRow>, taxes: seq<ItemTax>)

  ghost predicate Consistent(db: Tables) {
    && Unset !in db.items
    && (forall id <- db.items :: Acceptable(db.items[id].details))
    && (forall t <- db.taxes ::
          t.id != Unset && t.itemId in db.items && TaxFits(t) && TwoDecimals(t.rate) && ValidTaxRate(t))
    && Distinct(db.taxes)
  }

  ghost predicate Distinct(rows: seq<ItemTax>) {
    forall i, j :: 0 <= i < j < |rows| ==> rows[i].id != rows[j].id
  }

  /** What validation and the columns leave of an item: its rate may have become zero. */
  ghost predicate Acceptable(d: Details) {
    DetailsFit(d) && TwoDecimals(d.rate) && Validation(d.(rate := 1.0), []).Ok? && d.rate >= 0.0 && Normalized(d) == d
  }

  predicate Visible(db: Tables, organization: nat, id: Id) {
    id in db.items && db.items[id].organization == organization && !db.items[id].deleted
  }

  predicate TaxFits(t: ItemTax) {
    |t.name| <= 255 && |t.taxNumber| <= 255 && 0 <= Cents(t.rate) <= 10000
  }

  /** The parameter can be sent at all. */
  predicate Encodes(d: Details) {
    -0x8000_0000 <= d.quantity < 0x8000_0000
  }

  predicate DetailsFit(d: Details) {
    && Encodes(d) && |d.name| <= 255 && d.kind != Unknown
    && -1_000_000_000_000_000_000 < Cents(d.rate) < 1_000_000_000_000_000_000
  }

  function StoredDetails(d: Details): Details {
    d.(rate := Stored(d.rate))
  }

  function StoredTax(t: ItemTax): ItemTax {
    t.(rate := Stored(t.rate))
  }

  function Chosen(id: Id, drawn: nat): Id {
    if id == Unset then Uuid(drawn) else id
  }

  /** The taxes as the write leaves them in memory: with identity, owner and timestamp. */
  function Filled(taxes: seq<ItemTax>, item: Id, drawn: seq<nat>, now: int): seq<ItemTax>
    requires |drawn| == |taxes|
  {
    seq(|taxes|, i requires 0 <= i < |taxes| =>
      taxes[i].(id := Chosen(taxes[i].id, drawn[i]), itemId := item, createdAt := now))
  }

  function Rows(filled: seq<ItemTax>): seq<ItemTax> {
    seq(|filled|, i requires 0 <= i < |filled| => StoredTax(filled[i]))
  }

  predicate Unused(table: seq<ItemTax>, id: Id) {
    forall t <- table :: t.id != id
  }

  /** Every row fits its columns and no primary key repeats. */
  predicate Insertable(table: seq<ItemTax>, filled: seq<ItemTax>) {
    && (forall i :: 0 <= i < |filled| ==> TaxFits(filled[i]) && Unused(table, filled[i].id))
    && (forall i, j :: 0 <= i < j < |filled| ==> filled[i].id != filled[j].id)
  }

  function Without(table: seq<ItemTax>, item: Id): seq<ItemTax> {
    if table == [] then []
    else if table[0].itemId == item then Without(table[1..], item)
    else [table[0]] + Without(table[1..], item)
  }

  /** The tables once item `id` has been written with exactly these taxes. */
  function Written(db: Tables, id: Id, row: ItemRow, filled: seq<ItemTax>): Tables {
    Tables(db.items[id := row], Without(db.taxes, id) + Rows(filled))
  }

  function RowOf(organization: nat, d: Details, now: int): ItemRow {
    ItemRow(organization, StoredDetails(d), now, false)
  }

  function CreateVerdict(db: Tables, id: Id, d: Details, taxes: seq<ItemTax>, filled: seq<ItemTax>): Result<(), Error> {
    var valid := Validation(d, taxes);
    if valid.Err? then valid
    else if id in db.items || !DetailsFit(Normalized(d)) || !Insertable(db.taxes, filled) then Err(WriteFailed)
    else valid
  }

  function UpdateVerdict(db: Tables, id: Id, organization: nat, d: Details, filled: seq<ItemTax>): Result<(), Error> {
    if !Encodes(d) then Err(WriteFailed)
    else if !Visible(db, organization, id) then Err(ItemNotFound)
    else if !DetailsFit(d) || !Insertable(Without(db.taxes, id), filled) then Err(WriteFailed)
    else Ok(())
  }

  datatype Change = Change(tables: Tables, result: Result<(), Error>)

  function CreateStep(db: Tables, organization: nat, id: Id, d: Details, taxes: seq<ItemTax>, drawn: seq<nat>, now: int)
    : Change
    requires |drawn| == |taxes|
  {
    var filled := Filled(taxes, id, drawn, now);
    var r := CreateVerdict(db, id, d, taxes, filled);
    Change(if r.Ok? then Written(db, id, RowOf(organization, Normalized(d), now), filled) else db, r)
  }

  function UpdateStep(db: Tables, organization: nat, id: Id, d: Details, taxes: seq<ItemTax>, drawn: seq<nat>, now: int)
    : Change
    requires |drawn| == |taxes|
  {
    var filled := Filled(taxes, id, drawn, now);
    var valid := Validation(d, taxes);
    var r := if valid.Err? then valid else UpdateVerdict(db, id, organization, Normalized(d), filled);
    Change(if r.Ok? && id in db.items
           then Written(db, id, db.items[id].(details := StoredDetails(Normalized(d))), filled) else db, r)
  }

  function DeleteStep(db: Tables, organization: nat, id: Id): Change {
    if Visible(db, organization, id)
    then Change(db.(items := db.items[id := db.items[id].(deleted := true)]), Ok(()))
    else Change(db, Err(ItemNotFound))
  }

  datatype Listing = Listing(details: Details, taxes: seq<ItemTax>)

  /** What an organization is shown of an item. */
  function Found(db: Tables, organization: nat, id: Id): Option<Listing> {
    if Visible(db, organization, id) then Some(Listing(db.items[id].details, Query(db.taxes, {id}))) else None
  }

  // ---- the query: the taxes of some items, in order of creation and then of id ----

  function Of(rows: seq<ItemTax>, ids: set<Id>): seq<ItemTax> {
    if rows == [] then []
    else if rows[0].itemId in ids then [rows[0]] + Of(rows[1..], ids)
    else Of(rows[1..], ids)
  }

  function Rank(id: Id): int {
    match id case Unset => -1 case Uuid(value) => value
  }

  predicate Before(a: ItemTax, b: ItemTax) {
    a.createdAt < b.createdAt || (a.createdAt == b.createdAt && Rank(a.id) <= Rank(b.id))
  }

  function Place(t: ItemTax, sorted: seq<ItemTax>): seq<ItemTax> {
    if sorted == [] || Before(t, sorted[0]) then [t] + sorted else [sorted[0]] + Place(t, sorted[1..])
  }

  function Ordered(rows: seq<ItemTax>): seq<ItemTax> {
    if rows == [] then [] else Place(rows[0], Ordered(rows[1..]))
  }

  function Query(table: seq<ItemTax>, ids: set<Id>): seq<ItemTax> {
    Ordered(Of(table, ids))
  }

  predicate Precedes(t: ItemTax, rows: seq<ItemTax>) {
    forall u <- rows :: Before(t, u)
  }

  predicate Sorted(rows: seq<ItemTax>) {
    rows == [] || (Precedes(rows[0], rows[1..]) && Sorted(rows[1..]))
  }

  lemma {:induction false} PlaceKeeps(t: ItemTax, rows: seq<ItemTax>)
    ensures multiset(Place(t, rows)) == multiset(rows) + multiset{t}
  {
    if rows != [] {
      assert rows == [rows[0]] + rows[1..];
      if !Before(t, rows[0]) {
        PlaceKeeps(t, rows[1..]);
      }
    }
  }

  lemma FirstPrecedesAll(t: ItemTax, sorted: seq<ItemTax>)
    requires sorted != [] && Sorted(sorted) && Before(t, sorted[0])
    ensures Precedes(t, sorted)
  {
    forall u <- sorted
      ensures Before(t, u)
    {
      assert u == sorted[0] || u in sorted[1..];
    }
  }

  lemma {:induction false} PlaceSorts(t: ItemTax, sorted: seq<ItemTax>)
    requires Sorted(sorted)
    ensures Sorted(Place(t, sorted))
  {
    if sorted == [] {
    } else if Before(t, sorted[0]) {
      FirstPrecedesAll(t, sorted);
      assert Place(t, sorted)[1..] == sorted;
    } else {
      PlaceSorts(t, sorted[1..]);
      PlaceKeeps(t, sorted[1..]);
      forall u <- Place(t, sorted[1..])
        ensures Before(sorted[0], u)
      {
        assert u in multiset(Place(t, sorted[1..]));
        assert u == t || u in sorted[1..];
      }
      assert Place(t, sorted)[1..] == Place(t, sorted[1..]);
    }
  }

  lemma {:induction false} OrderedSorts(rows: seq<ItemTax>)
    ensures Sorted(Ordered(rows)) && multiset(Ordered(rows)) == multiset(rows)
  {
    if rows != [] {
      OrderedSorts(rows[1..]);
      PlaceSorts(rows[0], Ordered(rows[1..]));
      PlaceKeeps(rows[0], Ordered(rows[1..]));
      assert rows == [rows[0]] + rows[1..];
    }
  }

  lemma {:induction false} OfConcat(a: seq<ItemTax>, b: seq<ItemTax>, ids: set<Id>)
    ensures Of(a + b, ids) == Of(a, ids) + Of(b, ids)
  {
    if a == [] {
      assert a + b == b;
    } else {
      assert (a + b)[1..] == a[1..] + b;
      OfConcat(a[1..], b, ids);
    }
  }

  lemma {:induction false} OfNone(rows: seq<ItemTax>, ids: set<Id>)
    requires forall t <- rows :: t.itemId !in ids
    ensures Of(rows, ids) == []
  {
    if rows != [] {
      OfNone(rows[1..], ids);
    }
  }

  lemma {:induction false} OfAll(rows: seq<ItemTax>, ids: set<Id>)
    requires forall t <- rows :: t.itemId in ids
    ensures Of(rows, ids) == rows
  {
    if rows != [] {
      OfAll(rows[1..], ids);
    }
  }

  lemma {:induction false} OfNarrows(rows: seq<ItemTax>, ids: set<Id>, some: set<Id>)
    requires some <= ids
    ensures Of(Of(rows, ids), some) == Of(rows, some)
  {
    if rows != [] {
      OfNarrows(rows[1..], ids, some);
      if rows[0].itemId in ids {
        assert Of(rows, ids)[1..] == Of(rows[1..], ids);
      }
    }
  }

  lemma {:induction false} PlaceThenOf(t: ItemTax, sorted: seq<ItemTax>, ids: set<Id>)
    requires Sorted(sorted)
    ensures Of(Place(t, sorted), ids) ==
            if t.itemId in ids then Place(t, Of(sorted, ids)) else Of(sorted, ids)
  {
    if sorted == [] {
    } else if Before(t, sorted[0]) {
      assert Place(t, sorted)[1..] == sorted;
      FirstPrecedesAll(t, sorted);
      if Of(sorted, ids) != [] {
        FirstOf(sorted, ids);
      }
    } else {
      assert Place(t, sorted)[1..] == Place(t, sorted[1..]);
      PlaceThenOf(t, sorted[1..], ids);
      if sorted[0].itemId in ids {
        assert Of(sorted, ids)[1..] == Of(sorted[1..], ids);
      }
    }
  }

  lemma {:induction false} FirstOf(rows: seq<ItemTax>, ids: set<Id>)
    requires Of(rows, ids) != []
    ensures Of(rows, ids)[0] in rows
  {
    if rows[0].itemId !in ids {
      FirstOf(rows[1..], ids);
    }
  }

  lemma {:induction false} OrderThenOf(rows: seq<ItemTax>, ids: set<Id>)
    ensures Of(Ordered(rows), ids) == Ordered(Of(rows, ids))
  {
    if rows != [] {
      OrderThenOf(rows[1..], ids);
      OrderedSorts(rows[1..]);
      PlaceThenOf(rows[0], Ordered(rows[1..]), ids);
      if rows[0].itemId in ids {
        assert Of(rows, ids)[1..] == Of(rows[1..], ids);
      }
    }
  }

  /** The rows of some items within the batch are what a query for those items alone gives, in the same order. */
  lemma BatchedEqualsPerItem(table: seq<ItemTax>, ids: set<Id>, some: set<Id>)
    requires some <= ids
    ensures Of(Query(table, ids), some) == Query(table, some)
  {
    OrderThenOf(Of(table, ids), some);
    OfNarrows(table, ids, some);
  }

  // ---- reading back what was written ----

  lemma {:induction false} WithoutKeepsOthers(table: seq<ItemTax>, item: Id, ids: set<Id>)
    ensures Of(Without(table, item), ids) == Of(table, ids - {item})
  {
    if table != [] {
      WithoutKeepsOthers(table[1..], item, ids);
      if table[0].itemId != item {
        assert Without(table, item)[1..] == Without(table[1..], item);
      }
    }
  }

  lemma {:induction false} WithoutIsSubset(table: seq<ItemTax>, item: Id)
    ensures forall t <- Without(table, item) :: t in table && t.itemId != item
    ensures Distinct(table) ==> Distinct(Without(table, item))
  {
    if table != [] {
      WithoutIsSubset(table[1..], item);
    }
  }

  lemma {:induction false} WithoutNone(table: seq<ItemTax>, item: Id)
    requires forall t <- table :: t.itemId != item
    ensures Without(table, item) == table
  {
    if table != [] {
      WithoutNone(table[1..], item);
    }
  }

  /** Afterwards the item has exactly the taxes written, as their columns keep them; no other item's change. */
  lemma ReadBack(db: Tables, id: Id, row: ItemRow, filled: seq<ItemTax>, other: Id)
    requires forall t <- filled :: t.itemId == id
    ensures var after := Written(db, id, row, filled).taxes;
            && multiset(Query(after, {id})) == multiset(Rows(filled)) && Sorted(Query(after, {id}))
            && (other != id ==> Query(after, {other}) == Query(db.taxes, {other}))
  {
    OfWritten(db.taxes, id, filled, id);
    OrderedSorts(Rows(filled));
    if other != id {
      OfWritten(db.taxes, id, filled, other);
    }
  }

  lemma OfWritten(table: seq<ItemTax>, id: Id, filled: seq<ItemTax>, one: Id)
    requires forall t <- filled :: t.itemId == id
    ensures Of(Without(table, id) + Rows(filled), {one}) == if one == id then Rows(filled) else Of(table, {one})
  {
    OfConcat(Without(table, id), Rows(filled), {one});
    WithoutKeepsOthers(table, id, {one});
    if one == id {
      assert {one} - {id} == {};
      OfNone(table, {});
      OfAll(Rows(filled), {one});
    } else {
      assert {one} - {id} == {one};
      OfNone(Rows(filled), {one});
    }
  }

  /**
   The taxes read back are the taxes written exactly when no rate has more than two
   decimals; validation lets finer rates through, and the column rounds them.
   */
  lemma ReadBackIsExactIff(db: Tables, id: Id, row: ItemRow, filled: seq<ItemTax>)
    requires forall t <- filled :: t.itemId == id
    ensures multiset(Query(Written(db, id, row, filled).taxes, {id})) == multiset(filled)
            <==> forall t <- filled :: TwoDecimals(t.rate)
  {
    ReadBack(db, id, row, filled, id);
    if multiset(Rows(filled)) == multiset(filled) {
      forall t <- filled
        ensures TwoDecimals(t.rate)
      {
        assert t in multiset(Rows(filled));
        var i :| 0 <= i < |filled| && Rows(filled)[i] == t;
        ExactIffTwoDecimals(filled[i].rate);
      }
    }
    if forall t <- filled :: TwoDecimals(t.rate) {
      forall i | 0 <= i < |filled|
        ensures Rows(filled)[i] == filled[i]
      {
        ExactIffTwoDecimals(filled[i].rate);
      }
      assert Rows(filled) == filled;
    }
  }

  lemma FineRateIsRounded(t: ItemTax)
    requires t.rate == 12.345 && |t.name| <= 255 && |t.taxNumber| <= 255
    ensures ValidTaxRate(t) && TaxFits(t) && StoredTax(t) == t.(rate := 12.35)
  {
  }

  /** An item written after validation and read back is refused by the next validation exactly when its rate was below half a cent. */
  lemma ReadBackIsRefusedIff(d: Details, taxes: seq<ItemTax>)
    requires Validation(d, taxes).Ok?
    ensures Validation(StoredDetails(Normalized(d)), Rows(taxes)).Err? <==> d.rate < 0.005
    ensures d.rate < 0.005 ==> Validation(StoredDetails(Normalized(d)), Rows(taxes)) == Err(InvalidRate)
  {
    forall t <- Rows(taxes)
      ensures ValidTaxRate(t)
    {
      var i :| 0 <= i < |taxes| && t == StoredTax(taxes[i]);
      ValidRatesFit(taxes[i]);
    }
  }

  lemma StoredIsAcceptable(d: Details, taxes: seq<ItemTax>, item: Id, drawn: seq<nat>, now: int)
    requires Validation(d, taxes).Ok? && DetailsFit(Normalized(d)) && |drawn| == |taxes|
    ensures Acceptable(StoredDetails(Normalized(d))) && forall t <- Filled(taxes, item, drawn, now) :: ValidTaxRate(t)
  {
    forall t <- Filled(taxes, item, drawn, now)
      ensures ValidTaxRate(t)
    {
      var i :| 0 <= i < |taxes| && t == Filled(taxes, item, drawn, now)[i];
      assert taxes[i] in taxes;
    }
    ExactIffTwoDecimals(d.rate);
    ExactIffTwoDecimals(Stored(d.rate));
    assert Stored(d.rate) * 100.0 == Cents(d.rate) as real;
  }

  /** The bounds survive rounding, so after validation the column's own check cannot fail. */
  lemma ValidRatesFit(t: ItemTax)
    requires ValidTaxRate(t)
    ensures 0 <= Cents(t.rate) <= 10000 && ValidTaxRate(StoredTax(t))
  {
  }

  lemma WrittenIsConsistent(db: Tables, id: Id, row: ItemRow, filled: seq<ItemTax>)
    requires Consistent(db) && id != Unset && (forall t <- filled :: t.itemId == id && t.id != Unset)
    requires Insertable(Without(db.taxes, id), filled) && Acceptable(row.details)
    requires forall t <- filled :: ValidTaxRate(t)
    ensures Consistent(Written(db, id, row, filled))
  {
    var kept, rows := Without(db.taxes, id), Rows(filled);
    WithoutIsSubset(db.taxes, id);
    forall t <- rows
      ensures TaxFits(t) && TwoDecimals(t.rate) && ValidTaxRate(t)
    {
      var i :| 0 <= i < |filled| && t == StoredTax(filled[i]);
      ExactIffTwoDecimals(filled[i].rate);
    }
    forall i, j | 0 <= i < j < |kept + rows|
      ensures (kept + rows)[i].id != (kept + rows)[j].id
    {
      if i < |kept| <= j {
        assert Unused(kept, filled[j - |kept|].id);
      }
    }
  }

  lemma {:induction false} OfDistinct(rows: seq<ItemTax>, ids: set<Id>)
    requires Distinct(rows)
    ensures Distinct(Of(rows, ids)) && forall t <- Of(rows, ids) :: t in rows && t.itemId in ids
  {
    if rows != [] {
      OfDistinct(rows[1..], ids);
    }
  }

  lemma {:induction false} PlaceDistinct(t: ItemTax, rows: seq<ItemTax>)
    requires Distinct(rows) && Unused(rows, t.id)
    ensures Distinct(Place(t, rows)) && forall u <- Place(t, rows) :: u == t || u in rows
  {
    if rows != [] && !Before(t, rows[0]) {
      PlaceDistinct(t, rows[1..]);
      forall u <- Place(t, rows[1..])
        ensures u.id != rows[0].id
      {
        assert u == t || u in rows[1..];
      }
    }
  }

  lemma {:induction false} OrderedDistinct(rows: seq<ItemTax>)
    requires Distinct(rows)
    ensures Distinct(Ordered(rows)) && forall t <- Ordered(rows) :: t in rows
  {
    if rows != [] {
      OrderedDistinct(rows[1..]);
      PlaceDistinct(rows[0], Ordered(rows[1..]));
    }
  }

  function Restamped(rows: seq<ItemTax>, now: int): seq<ItemTax> {
    seq(|rows|, i requires 0 <= i < |rows| => rows[i].(createdAt := now))
  }

  lemma FilledIsRestamped(read: seq<ItemTax>, id: Id, drawn: seq<nat>, now: int)
    requires |drawn| == |read| && forall t <- read :: t.id != Unset && t.itemId == id
    ensures Filled(read, id, drawn, now) == Restamped(read, now)
    ensures (forall t <- read :: TwoDecimals(t.rate)) ==> forall t <- Restamped(read, now) :: TwoDecimals(t.rate)
  {
    assert forall i :: 0 <= i < |read| ==> read[i] in read;
  }

  /**
   Saving an item just as it was read changes nothing but the timestamps, and fails
   exactly when its rate was rounded away to zero.
   */
  lemma SavingWhatWasRead(db: Tables, organization: nat, id: Id, now: int, drawn: seq<nat>)
    requires Consistent(db) && Visible(db, organization, id) && |drawn| == |Query(db.taxes, {id})|
    ensures var row, read := db.items[id], Query(db.taxes, {id});
            var filled := Filled(read, id, drawn, now);
            var after := Written(db, id, row.(details := StoredDetails(row.details)), filled);
            && Validation(row.details, read) == (if row.details.rate == 0.0 then Err(InvalidRate) else Ok(()))
            && UpdateVerdict(db, id, organization, Normalized(row.details), filled) == Ok(())
            && after.items == db.items
            && multiset(Query(after.taxes, {id}))
               == multiset(Restamped(read, now))
  {
    var row, read := db.items[id], Query(db.taxes, {id});
    var filled := Filled(read, id, drawn, now);
    RowsAsRead(db, id);
    FilledIsRestamped(read, id, drawn, now);
    ReadBackIsExactIff(db, id, row, filled);
    ExactIffTwoDecimals(row.details.rate);
    assert StoredDetails(row.details) == row.details;
    assert db.items[id := row] == db.items;
    ReadIsInsertable(db.taxes, id, read, filled, now);
  }

  lemma RowsAsRead(db: Tables, id: Id)
    requires Consistent(db) && id in db.items
    ensures var read, d := Query(db.taxes, {id}), db.items[id].details;
            && Distinct(read) && (forall t <- read :: t in db.taxes && t.itemId == id)
            && Validation(d, read) == (if d.rate == 0.0 then Err(InvalidRate) else Ok(()))
  {
    OfDistinct(db.taxes, {id});
    OrderedDistinct(Of(db.taxes, {id}));
    assert Acceptable(db.items[id].details);
  }

  lemma ReadIsInsertable(table: seq<ItemTax>, id: Id, read: seq<ItemTax>, filled: seq<ItemTax>, now: int)
    requires Distinct(table) && Distinct(read) && |filled| == |read|
    requires forall t <- read :: t in table && t.itemId == id && TaxFits(t)
    requires forall i :: 0 <= i < |read| ==> filled[i] == read[i].(createdAt := now)
    ensures Insertable(Without(table, id), filled)
  {
    OnlyRowsOfItem(table, id, read);
    forall i | 0 <= i < |filled|
      ensures TaxFits(filled[i]) && Unused(Without(table, id), filled[i].id)
    {
      assert read[i] in read;
    }
  }

  lemma OnlyRowsOfItem(table: seq<ItemTax>, id: Id, read: seq<ItemTax>)
    requires Distinct(table) && forall t <- read :: t in table && t.itemId == id
    ensures forall t <- read :: Unused(Without(table, id), t.id)
  {
    WithoutIsSubset(table, id);
    forall t, u | t in read && u in Without(table, id)
      ensures t.id != u.id
    {
      var i :| 0 <= i < |table| && table[i] == t;
      var j :| 0 <= j < |table| && table[j] == u;
      assert i < j || j < i;
    }
  }

  // ---- entities and repository ----

  class Item {
    var id: Id
    var organization: nat
    var details: Details
    var taxes: seq<ItemTax>

    constructor (id: Id, organization: nat, details: Details, taxes: seq<ItemTax>)
      ensures this.id == id && this.organization == organization && this.details == details && this.taxes == taxes
    {
      this.id, this.organization, this.details, this.taxes := id, organization, details, taxes;
    }
  }

  /** items[i] is the last of the list to carry its id. */
  ghost predicate Owns(items: seq<Item>, i: nat)
    requires i < |items|
    reads items
  {
    exists j :: 0 <= j < |items| && items[j] == items[i] && forall k :: j < k < |items| ==> items[k].id != items[j].id
  }

  /** Each item has what a query for it alone would give; of several with one id, only the last does. */
  ghost predicate Loaded(table: seq<ItemTax>, items: seq<Item>)
    reads items
  {
    forall i :: 0 <= i < |items| ==> items[i].taxes == if Owns(items, i) then Query(table, {items[i].id}) else []
  }

  /** A list without repeated ids is loaded as if item by item. */
  lemma DistinctItemsAreLoaded(table: seq<ItemTax>, items: seq<Item>)
    requires Loaded(table, items) && forall i, j :: 0 <= i < j < |items| ==> items[i].id != items[j].id
    ensures forall i :: 0 <= i < |items| ==> items[i].taxes == Query(table, {items[i].id})
  {
    forall i | 0 <= i < |items|
      ensures Owns(items, i)
    {
      assert items[i] == items[i];
    }
  }

  /** byId sends each id of the list to the last item listed with it. */
  ghost predicate Resolves(byId: map<Id, Item>, items: seq<Item>, ids: seq<Id>) {
    && |ids| == |items|
    && (forall i :: 0 <= i < |ids| ==> ids[i] in byId)
    && (forall id <- byId :: exists j :: LastWith(byId[id], id, items, ids, j))
  }

  ghost predicate LastWith(item: Item, id: Id, items: seq<Item>, ids: seq<Id>, j: int)
    requires |ids| == |items|
  {
    0 <= j < |items| && items[j] == item && ids[j] == id && forall k :: j < k < |ids| ==> ids[k] != id
  }

  ghost predicate Bare(items: seq<Item>)
    reads items
  {
    forall i :: 0 <= i < |items| ==> items[i].taxes == []
  }

  ghost predicate Identified(items: seq<Item>, ids: seq<Id>)
    reads items
  {
    |ids| == |items| && forall i :: 0 <= i < |items| ==> items[i].id == ids[i]
  }

  ghost predicate Delivered(items: seq<Item>, ids: seq<Id>, byId: map<Id, Item>, rows: seq<ItemTax>)
    requires Resolves(byId, items, ids)
    reads items
  {
    forall i :: 0 <= i < |items| ==> items[i].taxes == if byId[ids[i]] == items[i] then Of(rows, {ids[i]}) else []
  }

  lemma ResolvesNext(byId: map<Id, Item>, items: seq<Item>, ids: seq<Id>, item: Item, id: Id)
    requires Resolves(byId, items, ids)
    ensures Resolves(byId[id := item], items + [item], ids + [id])
  {
    var next := byId[id := item];
    forall other <- next
      ensures exists j :: LastWith(next[other], other, items + [item], ids + [id], j)
    {
      if other == id {
        assert LastWith(next[other], other, items + [item], ids + [id], |items|);
      } else {
        var j :| LastWith(byId[other], other, items, ids, j);
        assert LastWith(next[other], other, items + [item], ids + [id], j);
      }
    }
  }

  lemma ResolvesOwns(byId: map<Id, Item>, items: seq<Item>, ids: seq<Id>, i: nat)
    requires Resolves(byId, items, ids) && Identified(items, ids) && i < |items|
    ensures Owns(items, i) <==> byId[ids[i]] == items[i]
    ensures byId[ids[i]].id == ids[i]
  {
    var j :| LastWith(byId[ids[i]], ids[i], items, ids, j);
    if Owns(items, i) {
      var o :| 0 <= o < |items| && items[o] == items[i] && forall k :: o < k < |items| ==> items[k].id != items[o].id;
      assert o == j;
    }
  }

  lemma AllDelivered(table: seq<ItemTax>, items: seq<Item>, ids: seq<Id>, byId: map<Id, Item>)
    requires Resolves(byId, items, ids) && Identified(items, ids)
    requires Delivered(items, ids, byId, Query(table, set i | 0 <= i < |ids| :: ids[i]))
    ensures Loaded(table, items)
  {
    forall i | 0 <= i < |items|
      ensures items[i].taxes == if Owns(items, i) then Query(table, {items[i].id}) else []
    {
      ResolvesOwns(byId, items, ids, i);
      BatchedEqualsPerItem(table, set i | 0 <= i < |ids| :: ids[i], {ids[i]});
    }
  }

  lemma DeliverNext(rows: seq<ItemTax>, n: nat, id: Id)
    requires n < |rows|
    ensures Of(rows[..n + 1], {id}) == Of(rows[..n], {id}) + if rows[n].itemId == id then [rows[n]] else []
  {
    assert rows[..n + 1] == rows[..n] + [rows[n]];
    OfConcat(rows[..n], [rows[n]], {id});
  }

  class Catalog {
    var db: Tables

    constructor ()
      ensures Consistent(db) && db == Tables(map[], [])
    {
      db := Tables(map[], []);
    }

    method FindTaxes(ids: seq<Id>) returns (rows: seq<ItemTax>)
      ensures rows == Query(db.taxes, set i | 0 <= i < |ids| :: ids[i])
    {
      rows := Query(db.taxes, set i | 0 <= i < |ids| :: ids[i]);
    }

    /** One query for all the items, then a pass over its rows. */
    method AttachTaxes(items: seq<Item>)
      modifies items`taxes
      ensures Loaded(db.taxes, items)
    {
      for i := 0 to |items|
        invariant forall j :: 0 <= j < i ==> items[j].taxes == []
      {
        items[i].taxes := [];
      }
      if |items| == 0 {
        return;
      }
      var ids: seq<Id> := [];
      var byId: map<Id, Item> := map[];
      for i := 0 to |items|
        invariant Bare(items)
        invariant Identified(items[..i], ids) && Resolves(byId, items[..i], ids)
      {
        ResolvesNext(byId, items[..i], ids, items[i], items[i].id);
        assert items[..i + 1] == items[..i] + [items[i]];
        ids := ids + [items[i].id];
        byId := byId[items[i].id := items[i]];
      }
      assert items[..|items|] == items;
      var rows := FindTaxes(ids);
      Deliver(items, ids, byId, rows);
      AllDelivered(db.taxes, items, ids, byId);
    }

    /** The loop over the rows found. */
    method Deliver(items: seq<Item>, ghost ids: seq<Id>, byId: map<Id, Item>, rows: seq<ItemTax>)
      requires Resolves(byId, items, ids) && Identified(items, ids)
      requires Bare(items)
      modifies items`taxes
      ensures Delivered(items, ids, byId, rows)
    {
      for n := 0 to |rows|
        invariant Delivered(items, ids, byId, rows[..n])
      {
        ghost var was := seq(|items|, i requires 0 <= i < |items| reads items => items[i].taxes);
        Append(items, ids, byId, rows[n]);
        forall i | 0 <= i < |items|
          ensures items[i].taxes == if byId[ids[i]] == items[i] then Of(rows[..n + 1], {ids[i]}) else []
        {
          DeliverNext(rows, n, ids[i]);
          assert was[i] == if byId[ids[i]] == items[i] then Of(rows[..n], {ids[i]}) else [];
        }
      }
      assert rows[..|rows|] == rows;
    }

    /** The body of that loop. */
    method Append(items: seq<Item>, ghost ids: seq<Id>, byId: map<Id, Item>, tax: ItemTax)
      requires Resolves(byId, items, ids) && Identified(items, ids)
      modifies items`taxes
      ensures forall i :: 0 <= i < |items| ==>
                items[i].taxes == old(items[i].taxes)
                                  + if byId[ids[i]] == items[i] && ids[i] == tax.itemId then [tax] else []
    {
      if tax.itemId in byId {
        var item := byId[tax.itemId];
        ghost var j :| LastWith(item, tax.itemId, items, ids, j);
        item.taxes := item.taxes + [tax];
      }
    }

    method InsertTax(tax: ItemTax) returns (ok: bool)
      modifies this
      ensures ok <==> TaxFits(tax) && Unused(old(db).taxes, tax.id)
      ensures db == if ok then old(db).(taxes := old(db).taxes + [StoredTax(tax)]) else old(db)
    {
      ok := TaxFits(tax) && Unused(db.taxes, tax.id);
      if ok {
        db := db.(taxes := db.taxes + [StoredTax(tax)]);
      }
    }

    /** `drawn` are the uuids the database would generate. */
    method InsertItemTaxes(item: Item, now: int, drawn: seq<nat>) returns (ok: bool)
      requires |drawn| == |item.taxes|
      modifies this, item`taxes
      ensures db.items == old(db).items
      ensures ok <==> Insertable(old(db).taxes, Filled(old(item.taxes), item.id, drawn, now))
      ensures ok ==> item.taxes == Filled(old(item.taxes), item.id, drawn, now)
      ensures ok ==> db.taxes == old(db).taxes + Rows(item.taxes)
    {
      ghost var filled := Filled(item.taxes, item.id, drawn, now);
      ghost var before := db;
      for i := 0 to |item.taxes|
        invariant |item.taxes| == |filled|
        invariant forall j :: 0 <= j < |filled| ==> item.taxes[j] == if j < i then filled[j] else old(item.taxes)[j]
        invariant db == before.(taxes := before.taxes + Rows(filled[..i]))
        invariant Insertable(before.taxes, filled[..i])
      {
        var tax := item.taxes[i].(itemId := item.id, id := Chosen(item.taxes[i].id, drawn[i]), createdAt := now);
        assert tax == filled[i];
        InsertableNext(before.taxes, filled, i);
        var inserted := InsertTax(tax);
        if !inserted {
          return false;
        }
        item.taxes := item.taxes[i := tax];
      }
      assert filled[..|filled|] == filled;
      return true;
    }

    /** The new row's id is the caller's, or the one drawn. */
    method Create(item: Item, now: int, itemDrawn: nat, drawn: seq<nat>) returns (ok: bool)
      requires Consistent(db) && |drawn| == |item.taxes|
      modifies this, item`id, item`taxes
      ensures item.id == Chosen(old(item.id), itemDrawn)
      ensures ok <==> && item.id !in old(db).items && DetailsFit(item.details)
                      && Insertable(old(db).taxes, Filled(old(item.taxes), item.id, drawn, now))
      ensures ok ==> item.taxes == Filled(old(item.taxes), item.id, drawn, now)
      ensures ok ==> db == Written(old(db), item.id, RowOf(item.organization, item.details, now), item.taxes)
    {
      item.id := Chosen(item.id, itemDrawn);
      if item.id in db.items || !DetailsFit(item.details) {
        return false;
      }
      WithoutNone(db.taxes, item.id);
      db := db.(items := db.items[item.id := RowOf(item.organization, item.details, now)]);
      ok := InsertItemTaxes(item, now, drawn);
    }

    /** Renames, reprices and replaces the taxes of an item that its organization can see. */
    method Update(item: Item, now: int, drawn: seq<nat>) returns (r: Result<(), Error>)
      requires |drawn| == |item.taxes|
      modifies this, item`taxes
      ensures r == UpdateVerdict(old(db), item.id, item.organization, item.details,
                                 Filled(old(item.taxes), item.id, drawn, now))
      ensures r.Ok? ==> item.taxes == Filled(old(item.taxes), item.id, drawn, now)
      ensures r.Ok? ==>
                db == Written(old(db), item.id, old(db).items[item.id].(details := StoredDetails(item.details)), item.taxes)
    {
      if !Encodes(item.details) {
        return Err(WriteFailed);
      }
      if !Visible(db, item.organization, item.id) {
        return Err(ItemNotFound);
      }
      if !DetailsFit(item.details) {
        return Err(WriteFailed);
      }
      db := db.(items := db.items[item.id := db.items[item.id].(details := StoredDetails(item.details))]);
      db := db.(taxes := Without(db.taxes, item.id));
      var ok := InsertItemTaxes(item, now, drawn);
      return if ok then Ok(()) else Err(WriteFailed);
    }

    method Delete(organization: nat, id: Id) returns (r: Result<(), Error>)
      modifies this
      ensures Change(db, r) == DeleteStep(old(db), organization, id)
      ensures r == if Visible(old(db), organization, id) then Ok(()) else Err(ItemNotFound)
      ensures db == if r.Ok? then old(db).(items := old(db).items[id := old(db).items[id].(deleted := true)]) else old(db)
    {
      if !Visible(db, organization, id) {
        return Err(ItemNotFound);
      }
      db := db.(items := db.items[id := db.items[id].(deleted := true)]);
      return Ok(());
    }

    method FindById(organization: nat, id: Id) returns (r: Result<Item, Error>)
      ensures r.Ok? <==> Visible(db, organization, id)
      ensures r.Err? ==> r.error == ItemNotFound
      ensures r.Ok? ==> fresh(r.value) && r.value.id == id && r.value.organization == organization
      ensures r.Ok? ==> Found(db, organization, id) == Some(Listing(r.value.details, r.value.taxes))
    {
      if !Visible(db, organization, id) {
        return Err(ItemNotFound);
      }
      var item := new Item(id, organization, db.items[id].details, []);
      AttachTaxes([item]);
      assert [item][0] == item && Owns([item], 0);
      return Ok(item);
    }

    /** `selected` are the ids the database's scan answers, in its order. */
    method List(organization: nat, selected: seq<Id>) returns (items: seq<Item>)
      requires forall i :: 0 <= i < |selected| ==> Visible(db, organization, selected[i])
      requires forall i, j :: 0 <= i < j < |selected| ==> selected[i] != selected[j]
      ensures |items| == |selected|
      ensures forall i :: 0 <= i < |items| ==> && items[i].id == selected[i] && selected[i] in db.items
                                               && items[i].details == db.items[selected[i]].details
                                               && items[i].taxes == Query(db.taxes, {selected[i]})
    {
      items := [];
      for n := 0 to |selected|
        invariant |items| == n && forall i :: 0 <= i < n ==> fresh(items[i])
        invariant forall i :: 0 <= i < n ==>
            items[i].id == selected[i] && items[i].details == db.items[selected[i]].details
      {
        var item := new Item(selected[n], organization, db.items[selected[n]].details, []);
        items := items + [item];
      }
      AttachTaxes(items);
      DistinctItemsAreLoaded(db.taxes, items);
    }

    /** Validation first, then one transaction. */
    method CreateItem(item: Item, now: int, itemDrawn: nat, drawn: seq<nat>) returns (r: Result<(), Error>)
      requires Consistent(db) && |drawn| == |item.taxes|
      modifies this, item
      ensures Consistent(db) && item.organization == old(item.organization)
      ensures Change(db, r) == CreateStep(old(db), old(item.organization), Chosen(old(item.id), itemDrawn),
                                          old(item.details), old(item.taxes), drawn, now)
      ensures r == CreateVerdict(old(db), Chosen(old(item.id), itemDrawn), old(item.details), old(item.taxes),
                                 Filled(old(item.taxes), Chosen(old(item.id), itemDrawn), drawn, now))
      ensures r.Err? ==> db == old(db)
      ensures r.Ok? ==> item.id == if old(item.id) == Unset then Uuid(itemDrawn) else old(item.id)
      ensures r.Ok? ==> && item.id == Chosen(old(item.id), itemDrawn) && item.details == Normalized(old(item.details))
                        && item.taxes == Filled(old(item.taxes), item.id, drawn, now)
                        && db == Written(old(db), item.id, RowOf(item.organization, item.details, now), item.taxes)
    {
      r := Validate(item);
      if r.Err? {
        return;
      }
      var begun := db;
      var ok := Create(item, now, itemDrawn, drawn);
      if !ok {
        db := begun;
        return Err(WriteFailed);
      }
      WithoutNone(begun.taxes, item.id);
      StoredIsAcceptable(old(item.details), old(item.taxes), item.id, drawn, now);
      WrittenIsConsistent(begun, item.id, RowOf(item.organization, item.details, now), item.taxes);
    }

    method UpdateItem(item: Item, now: int, drawn: seq<nat>) returns (r: Result<(), Error>)
      requires Consistent(db) && |drawn| == |item.taxes|
      modifies this, item
      ensures Consistent(db) && item.organization == old(item.organization) && item.id == old(item.id)
      ensures Change(db, r) == UpdateStep(old(db), old(item.organization), old(item.id),
                                          old(item.details), old(item.taxes), drawn, now)
      ensures var valid := Validation(old(item.details), old(item.taxes));
              r == if valid.Err? then valid
                   else UpdateVerdict(old(db), item.id, item.organization, Normalized(old(item.details)),
                                      Filled(old(item.taxes), item.id, drawn, now))
      ensures r.Err? ==> db == old(db)
      ensures r.Ok? ==> && item.details == Normalized(old(item.details))
                        && item.taxes == Filled(old(item.taxes), item.id, drawn, now)
                        && db == Written(old(db), item.id,
                                         old(db).items[item.id].(details := StoredDetails(item.details)), item.taxes)
    {
      r := Validate(item);
      if r.Err? {
        return;
      }
      var begun := db;
      r := Update(item, now, drawn);
      if r.Err? {
        db := begun;
        return;
      }
      StoredIsAcceptable(old(item.details), old(item.taxes), item.id, drawn, now);
      WrittenIsConsistent(begun, item.id, begun.items[item.id].(details := StoredDetails(item.details)), item.taxes);
    }
  }

  method Validate(item: Item) returns (r: Result<(), Error>)
    modifies item`details
    ensures r == Validation(old(item.details), item.taxes)
    ensures r.Ok? ==> item.details == Normalized(old(item.details))
  {
    if item.details.kind == Unknown {
      return Err(InvalidItemType);
    }
    item.details := Normalized(item.details);
    if IsBlank(item.details.name) {
      return Err(NameRequired);
    }
    if item.details.rate <= 0.0 {
      return Err(InvalidRate);
    }
    if item.details.kind == Good && item.details.trackInventory && item.details.quantity < 0 {
      return Err(InvalidStockQuantity);
    }
    for i := 0 to |item.taxes|
      invariant forall j :: 0 <= j < i ==> ValidTaxRate(item.taxes[j])
    {
      if !ValidTaxRate(item.taxes[i]) {
        return Err(InvalidTaxRate);
      }
    }
    return Ok(());
  }

  lemma InsertableNext(table: seq<ItemTax>, filled: seq<ItemTax>, i: nat)
    requires i < |filled| && Insertable(table, filled[..i])
    ensures Rows(filled[..i + 1]) == Rows(filled[..i]) + [StoredTax(filled[i])]
    ensures TaxFits(filled[i]) && Unused(table + Rows(filled[..i]), filled[i].id) <==> Insertable(table, filled[..i + 1])
    ensures Insertable(table, filled) ==> Insertable(table, filled[..i + 1])
  {
    var t, rows := filled[i], Rows(filled[..i]);
    assert forall j :: 0 <= j < i ==> filled[..i][j] == filled[j] && rows[j].id == filled[j].id;
    if Insertable(table, filled[..i + 1]) {
      assert filled[..i + 1][i] == t;
      assert forall j :: 0 <= j < i ==> filled[..i + 1][j] == filled[j];
    }
    if TaxFits(t) && Unused(table + rows, t.id) {
      assert forall j :: 0 <= j < i ==> rows[j] in table + rows;
      assert forall u <- table :: u in table + rows;
    }
  }
}
