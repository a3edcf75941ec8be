/** What holds across creating, updating, deleting and reading items, for one organization and between several. */
module ItemLaws {
  import opened Wrappers
  import opened ItemTaxes

  /** Creating comes after the identity has been chosen. */
  datatype Command =
    | Create(organization: nat, id: Id, details: Details, taxes: seq<ItemTax>, drawn: seq<nat>, now: int)
    | Update(organization: nat, id: Id, details: Details, taxes: seq<ItemTax>, drawn: seq<nat>, now: int)
    | Delete(organization: nat, id: Id)

  predicate WellFormed(c: Command) {
    c.Delete? || (|c.drawn| == |c.taxes| && c.id != Unset)
  }

  function Do(db: Tables, c: Command): Change
    requires WellFormed(c)
  {
    match c
    case Create(organization, id, d, taxes, drawn, now) => CreateStep(db, organization, id, d, taxes, drawn, now)
    case Update(organization, id, d, taxes, drawn, now) => UpdateStep(db, organization, id, d, taxes, drawn, now)
    case Delete(organization, id) => DeleteStep(db, organization, id)
  }

  function Run(db: Tables, cs: seq<Command>): Tables
    requires forall c <- cs :: WellFormed(c)
    decreases cs
  {
    if cs == [] then db else Run(Do(db, cs[0]).tables, cs[1..])
  }

  /** The item is there, is this organization's, and was not deleted. */
  predicate Has(db: Tables, organization: nat, id: Id) {
    id in db.items && db.items[id].organization == organization && db.items[id].deleted == false
  }

  lemma FoundIff(db: Tables, organization: nat, id: Id)
    ensures Found(db, organization, id).Some? <==> Has(db, organization, id)
  {
  }

  // ---- validation ----

  /** Every answer of validation, the first that applies; stock counts only for goods that track it. */
  lemma ValidationIs(d: Details, taxes: seq<ItemTax>)
    ensures Validation(d, taxes) ==
            if d.kind != Good && d.kind != Service then Err(InvalidItemType)
            else if forall c <- d.name :: IsSpace(c) then Err(NameRequired)
            else if d.rate <= 0.0 then Err(InvalidRate)
            else if d.kind == Good && d.trackInventory && d.quantity < 0 then Err(InvalidStockQuantity)
            else if exists t <- taxes :: t.rate < 0.0 || 100.0 < t.rate then Err(InvalidTaxRate)
            else Ok(())
  {
    if IsBlank(d.name) {
      assert forall c <- d.name :: IsSpace(c);
    }
    if forall c <- d.name :: IsSpace(c) {
      assert forall i :: 0 <= i < |d.name| ==> d.name[i] in d.name;
    }
  }

  // ---- when writes succeed ----

  predicate TaxStorable(t: ItemTax) {
    |t.name| <= 255 && |t.taxNumber| <= 255
  }

  /** Identities the taxes of an item will have: given, or drawn. */
  function TaxId(t: ItemTax, drawn: nat): Id {
    match t.id
    case Unset => Uuid(drawn)
    case Uuid(value) => Uuid(value)
  }

  ghost predicate FreshTaxes(others: seq<ItemTax>, taxes: seq<ItemTax>, drawn: seq<nat>)
    requires |drawn| == |taxes|
  {
    && (forall i :: 0 <= i < |taxes| ==> forall t <- others :: t.id != TaxId(taxes[i], drawn[i]))
    && (forall i, j :: 0 <= i < j < |taxes| ==> TaxId(taxes[i], drawn[i]) != TaxId(taxes[j], drawn[j]))
  }

  lemma RateFits(r: real)
    requires r > 0.0
    ensures Cents(r) < 1_000_000_000_000_000_000 <==> r < 9_999_999_999_999_999.995
    ensures -1_000_000_000_000_000_000 < Cents(r)
  {
  }

  lemma InsertableIff(table: seq<ItemTax>, taxes: seq<ItemTax>, item: Id, drawn: seq<nat>, now: int)
    requires |drawn| == |taxes| && forall t <- taxes :: 0.0 <= t.rate <= 100.0
    ensures Insertable(table, Filled(taxes, item, drawn, now))
            <==> (forall t <- taxes :: TaxStorable(t)) && FreshTaxes(table, taxes, drawn)
  {
    var filled := Filled(taxes, item, drawn, now);
    forall i | 0 <= i < |taxes|
      ensures filled[i].id == TaxId(taxes[i], drawn[i]) && (TaxFits(filled[i]) <==> TaxStorable(taxes[i]))
    {
      assert taxes[i] in taxes;
      ValidRatesFit(filled[i]);
    }
  }

  predicate Storable(d: Details) {
    && |d.name| <= 255 && d.rate < 9_999_999_999_999_999.995
    && (d.kind == Service || -0x8000_0000 <= d.quantity <= 0x7fff_ffff)
  }

  lemma StorableIff(d: Details)
    requires Validation(d, []).Ok?
    ensures DetailsFit(Normalized(d)) <==> Storable(d)
    ensures Encodes(Normalized(d)) <==> d.kind == Service || -0x8000_0000 <= d.quantity <= 0x7fff_ffff
  {
    RateFits(d.rate);
  }

  /** A new item is written exactly if it is valid, fits its columns, and neither it nor any of its taxes repeats an identity. */
  lemma CreateSucceedsIff(db: Tables, c: Command)
    requires WellFormed(c) && c.Create?
    ensures Do(db, c).result ==
            if Validation(c.details, c.taxes).Err? then Validation(c.details, c.taxes)
            else if c.id !in db.items && Storable(c.details) && (forall t <- c.taxes :: TaxStorable(t))
                    && FreshTaxes(db.taxes, c.taxes, c.drawn) then Ok(())
            else Err(WriteFailed)
  {
    if Validation(c.details, c.taxes).Ok? {
      StorableIff(c.details);
      InsertableIff(db.taxes, c.taxes, c.id, c.drawn, c.now);
    }
  }

  /** An update succeeds only on an item that the organization has, and may reuse the identities of its own old taxes. */
  lemma UpdateSucceedsIff(db: Tables, c: Command)
    requires WellFormed(c) && c.Update?
    ensures Do(db, c).result ==
            if Validation(c.details, c.taxes).Err? then Validation(c.details, c.taxes)
            else if c.details.kind == Good && !(-0x8000_0000 <= c.details.quantity <= 0x7fff_ffff) then Err(WriteFailed)
            else if !Has(db, c.organization, c.id) then Err(ItemNotFound)
            else if Storable(c.details) && (forall t <- c.taxes :: TaxStorable(t))
                    && FreshTaxes(Without(db.taxes, c.id), c.taxes, c.drawn) then Ok(())
            else Err(WriteFailed)
  {
    if Validation(c.details, c.taxes).Ok? {
      StorableIff(c.details);
      InsertableIff(Without(db.taxes, c.id), c.taxes, c.id, c.drawn, c.now);
    }
  }

  // ---- what is found afterwards ----

  /** The tax as given, for this item, with an identity and the time of the write. */
  predicate AsGiven(given: ItemTax, written: ItemTax, item: Id, drawn: nat, now: int) {
    written == ItemTax(TaxId(given, drawn), item, given.name, given.taxNumber, Stored(given.rate), given.enabled, now)
  }

  ghost predicate Shows(shown: seq<ItemTax>, c: Command)
    requires WellFormed(c) && !c.Delete?
  {
    exists rows: seq<ItemTax> :: AllAsGiven(rows, c) && multiset(rows) == multiset(shown)
  }

  predicate AllAsGiven(rows: seq<ItemTax>, c: Command)
    requires WellFormed(c) && !c.Delete?
  {
    |rows| == |c.taxes| && forall i :: 0 <= i < |rows| ==> AsGiven(c.taxes[i], rows[i], c.id, c.drawn[i], c.now)
  }

  /** Goods keep their stock fields, services have none; the rate is kept to the cent. */
  predicate DetailsAsGiven(given: Details, kept: Details) {
    kept == if given.kind == Service then Details(given.name, Service, Stored(given.rate), false, 0)
            else Details(given.name, given.kind, Stored(given.rate), given.trackInventory, given.quantity)
  }

  lemma WrittenIsShown(db: Tables, c: Command, row: ItemRow)
    requires WellFormed(c) && !c.Delete?
    ensures Shows(Query(Written(db, c.id, row, Filled(c.taxes, c.id, c.drawn, c.now)).taxes, {c.id}), c)
  {
    var filled := Filled(c.taxes, c.id, c.drawn, c.now);
    ReadBack(db, c.id, row, filled, c.id);
    var rows := Rows(filled);
    assert AllAsGiven(rows, c);
  }

  /** What was created is found by its organization and no other, with what was given, to the cent. */
  lemma CreateThenFind(db: Tables, c: Command, other: nat)
    requires WellFormed(c) && c.Create? && Do(db, c).result.Ok?
    ensures var found := Found(Do(db, c).tables, c.organization, c.id);
            && found.Some? && DetailsAsGiven(c.details, found.value.details) && Shows(found.value.taxes, c)
    ensures other != c.organization ==> Found(Do(db, c).tables, other, c.id) == None
    ensures c.id in Do(db, c).tables.items && Do(db, c).tables.items[c.id].createdAt == c.now
  {
    WrittenIsShown(db, c, RowOf(c.organization, Normalized(c.details), c.now));
    ValidationIs(c.details, c.taxes);
  }

  /** What was updated is found as updated; whose it is and when it was created stay as they were. */
  lemma UpdateThenFind(db: Tables, c: Command, other: nat)
    requires WellFormed(c) && c.Update? && Do(db, c).result.Ok?
    ensures Has(db, c.organization, c.id)
    ensures var found := Found(Do(db, c).tables, c.organization, c.id);
            && found.Some? && DetailsAsGiven(c.details, found.value.details) && Shows(found.value.taxes, c)
    ensures other != c.organization ==> Found(Do(db, c).tables, other, c.id) == None
    ensures c.id in Do(db, c).tables.items && Do(db, c).tables.items[c.id].createdAt == db.items[c.id].createdAt
  {
    WrittenIsShown(db, c, db.items[c.id].(details := StoredDetails(Normalized(c.details))));
    ValidationIs(c.details, c.taxes);
  }

  /** Only what an organization has can it delete, and then nobody finds it. */
  lemma DeleteThenFind(db: Tables, c: Command, anyone: nat)
    requires c.Delete?
    ensures Do(db, c).result == if Has(db, c.organization, c.id) then Ok(()) else Err(ItemNotFound)
    ensures Do(db, c).result.Ok? ==> Found(Do(db, c).tables, anyone, c.id) == None
  {
  }

  /** A command that is refused changes nothing, and no command changes what anybody is shown of another item. */
  lemma OtherItemsAreUntouched(db: Tables, c: Command, id: Id, anyone: nat)
    requires WellFormed(c)
    ensures Do(db, c).result.Err? ==> Do(db, c).tables == db
    ensures id != c.id ==>
              && Found(Do(db, c).tables, anyone, id) == Found(db, anyone, id)
              && Query(Do(db, c).tables.taxes, {id}) == Query(db.taxes, {id})
              && (id in Do(db, c).tables.items <==> id in db.items)
              && (id in db.items ==> Do(db, c).tables.items[id] == db.items[id])
  {
    if !c.Delete? && id != c.id {
      var row := if c.Create? then RowOf(c.organization, Normalized(c.details), c.now)
                 else if c.id in db.items then db.items[c.id].(details := StoredDetails(Normalized(c.details)))
                 else RowOf(0, c.details, 0);
      ReadBack(db, c.id, row, Filled(c.taxes, c.id, c.drawn, c.now), id);
    }
  }

  // ---- between organizations, and for good ----

  lemma StepIsolates(db: Tables, c: Command, id: Id)
    requires WellFormed(c) && id in db.items && db.items[id].organization != c.organization
    ensures var after := Do(db, c).tables;
            id in after.items && after.items[id] == db.items[id] && Query(after.taxes, {id}) == Query(db.taxes, {id})
  {
    OtherItemsAreUntouched(db, c, id, 0);
    if id == c.id {
      assert Do(db, c).result.Err?;
    }
  }

  /** However many commands other organizations send, an item of this one and its taxes stay as they are. */
  lemma {:induction false} RunIsolates(db: Tables, cs: seq<Command>, id: Id)
    requires (forall c <- cs :: WellFormed(c)) && id in db.items
    requires forall c <- cs :: c.organization != db.items[id].organization
    ensures var after := Run(db, cs);
            && id in after.items && after.items[id] == db.items[id]
            && Query(after.taxes, {id}) == Query(db.taxes, {id})
            && Found(after, db.items[id].organization, id) == Found(db, db.items[id].organization, id)
    decreases cs
  {
    if cs != [] {
      StepIsolates(db, cs[0], id);
      RunIsolates(Do(db, cs[0]).tables, cs[1..], id);
    }
  }

  lemma StepKeepsDeleted(db: Tables, c: Command, id: Id)
    requires WellFormed(c) && id in db.items && db.items[id].deleted
    ensures id in Do(db, c).tables.items && Do(db, c).tables.items[id].deleted
  {
  }

  /** A deleted item is found by nobody ever again, and its identity is not used for another. */
  lemma {:induction false} DeletedForGood(db: Tables, cs: seq<Command>, id: Id, anyone: nat)
    requires (forall c <- cs :: WellFormed(c)) && id in db.items && db.items[id].deleted
    ensures Found(Run(db, cs), anyone, id) == None
    decreases cs
  {
    if cs != [] {
      StepKeepsDeleted(db, cs[0], id);
      DeletedForGood(Do(db, cs[0]).tables, cs[1..], id, anyone);
    }
  }

  lemma DoKeepsConsistent(db: Tables, c: Command)
    requires Consistent(db) && WellFormed(c)
    ensures Consistent(Do(db, c).tables)
  {
    if !c.Delete? && Do(db, c).result.Ok? {
      var filled := Filled(c.taxes, c.id, c.drawn, c.now);
      StoredIsAcceptable(c.details, c.taxes, c.id, c.drawn, c.now);
      if c.Create? {
        WithoutNone(db.taxes, c.id);
        WrittenIsConsistent(db, c.id, RowOf(c.organization, Normalized(c.details), c.now), filled);
      } else {
        WrittenIsConsistent(db, c.id, db.items[c.id].(details := StoredDetails(Normalized(c.details))), filled);
      }
    }
  }

  /** In every state that commands lead to, all stored rates are valid to the cent and no service tracks stock. */
  lemma {:induction false} RunKeepsRows(db: Tables, cs: seq<Command>)
    requires Consistent(db) && forall c <- cs :: WellFormed(c)
    ensures var after := Run(db, cs);
            && Consistent(after)
            && (forall t <- after.taxes :: t.itemId in after.items && 0.0 <= t.rate <= 100.0 && TwoDecimals(t.rate))
            && (forall id <- after.items :: after.items[id].details.kind == Service ==>
                  !after.items[id].details.trackInventory && after.items[id].details.quantity == 0)
    decreases cs
  {
    if cs != [] {
      DoKeepsConsistent(db, cs[0]);
      RunKeepsRows(Do(db, cs[0]).tables, cs[1..]);
    }
  }

  // ---- the query ----

  lemma {:induction false} OfCounts(rows: seq<ItemTax>, ids: set<Id>, t: ItemTax)
    ensures multiset(Of(rows, ids))[t] == if t.itemId in ids then multiset(rows)[t] else 0
  {
    if rows != [] {
      OfCounts(rows[1..], ids, t);
      assert rows == [rows[0]] + rows[1..];
    }
  }

  lemma {:induction false} SortedAt(rows: seq<ItemTax>, i: nat, j: nat)
    requires Sorted(rows) && i < j < |rows|
    ensures Before(rows[i], rows[j])
  {
    if i == 0 {
      assert rows[j] in rows[1..] by { assert rows[1..][j - 1] == rows[j]; }
    } else {
      SortedAt(rows[1..], i - 1, j - 1);
    }
  }

  /** A query answers each row of the items asked for as often as the table has it, and no other row. */
  lemma QueryHolds(table: seq<ItemTax>, ids: set<Id>, t: ItemTax)
    ensures multiset(Query(table, ids))[t] == if t.itemId in ids then multiset(table)[t] else 0
  {
    OrderedSorts(Of(table, ids));
    OfCounts(table, ids, t);
  }

  /** Its answer is ordered by creation, and by identity among rows created at once. */
  lemma QueryIsOrdered(table: seq<ItemTax>, ids: set<Id>, i: nat, j: nat)
    requires i < j < |Query(table, ids)|
    ensures var a, b := Query(table, ids)[i], Query(table, ids)[j];
            || a.createdAt < b.createdAt
            || (a.createdAt == b.createdAt && (a.id.Uuid? && b.id.Uuid? ==> a.id.value <= b.id.value))
  {
    OrderedSorts(Of(table, ids));
    SortedAt(Query(table, ids), i, j);
  }
}
