/**
 The offer store (apps/api/src/offers/offer-store.ts). Every operation on a row is one conditional
 update, so exactly one caller can withdraw, claim or supersede an offer. The functions say what each
 operation commits; the classes are the database store and its in-memory twin.
 */
module OfferStore {
  import opened CancellationPolicies
  import opened Money
  import opened Wrappers

  /** The columns an old row may lack; a row without them is never verified. */
  datatype Details = Details(supplierOfferToken: string, canonicalPropertyId: string, nationality: string,
                             guestsPerRoom: seq<nat>, subTenant: Option<string>, supplierNet: Money)

  datatype StoredOffer = StoredOffer(
    net: Money,
    sell: Money,
    priceHash: string,
    policySnapshot: Option<Policy>,
    expiresAt: int,
    createdAt: int,
    details: Option<Details>,
    checkedAt: Option<int>,
    invalidatedAt: Option<int>
  )

  datatype NewOfferRecord = NewOfferRecord(
    id: nat,
    net: Money,
    sell: Money,
    priceHash: string,
    policySnapshot: Option<Policy>,
    expiresAt: int,
    details: Details,
    checkedAt: Option<int>
  )

  type Offers = map<nat, StoredOffer>

  datatype StoreError = DuplicateOfferId | CheckViolation

  predicate ValidNationality(nationality: string) {
    |nationality| == 2 && forall i :: 0 <= i < 2 ==> 'A' <= nationality[i] <= 'Z'
  }

  /** The check constraints of the offer table. */
  predicate TableAccepts(record: NewOfferRecord, createdAt: int) {
    && record.net.amount >= 0 && record.sell.amount >= 0 && ValidCurrency(record.sell.currency)
    && ValidNationality(record.details.nationality) && record.expiresAt > createdAt
  }

  /** A record as it is: the in-memory row. */
  function RowOf(record: NewOfferRecord, createdAt: int): StoredOffer {
    StoredOffer(record.net, record.sell, record.priceHash, record.policySnapshot, record.expiresAt, createdAt,
                Some(record.details), record.checkedAt, None)
  }

  /** On record and not withdrawn: the rows every conditional update is about. */
  predicate Live(offers: Offers, id: nat) {
    id in offers && offers[id].invalidatedAt.None?
  }

  /** A record through the table, whose one currency column holds that of the sell price. */
  function StoredRow(record: NewOfferRecord, createdAt: int): StoredOffer {
    RowOf(record, createdAt).(net := Money(record.net.amount, record.sell.currency))
  }

  function Insert(offers: Offers, record: NewOfferRecord, now: int): (Offers, Result<(), StoreError>) {
    if !TableAccepts(record, now) then (offers, Failure(CheckViolation))
    else if record.id in offers then (offers, Failure(DuplicateOfferId))
    else (offers[record.id := StoredRow(record, now)], Success(()))
  }

  function MarkChecked(offers: Offers, id: nat, at: int): Offers {
    if Live(offers, id) then offers[id := offers[id].(checkedAt := Some(at))] else offers
  }

  /** The conditional invalidation; true when it flipped the row. */
  function Claim(offers: Offers, id: nat, at: int): (Offers, bool) {
    if Live(offers, id) then (offers[id := offers[id].(invalidatedAt := Some(at))], true) else (offers, false)
  }

  /** Claim the old row and insert its successor, in one transaction: a failed insert undoes the claim. */
  function Supersede(offers: Offers, oldId: nat, replacement: NewOfferRecord, at: int): (Offers, Result<bool, StoreError>) {
    var (claimed, won) := Claim(offers, oldId, at);
    if !won then (offers, Success(false))
    else
      var (inserted, r) := Insert(claimed, replacement, at);
      if r.Failure? then (offers, Failure(r.error)) else (inserted, Success(true))
  }

  /** The in-memory insert: no constraint but the id. */
  function MemoryInsert(offers: Offers, record: NewOfferRecord, now: int): (Offers, Result<(), StoreError>) {
    if record.id in offers then (offers, Failure(DuplicateOfferId)) else (offers[record.id := RowOf(record, now)], Success(()))
  }

  /** The in-memory supersede: no transaction, so a failed insert leaves the old offer claimed. */
  function MemorySupersede(offers: Offers, oldId: nat, replacement: NewOfferRecord, at: int): (Offers, Result<bool, StoreError>) {
    var (claimed, won) := Claim(offers, oldId, at);
    if !won then (offers, Success(false))
    else
      var (inserted, r) := MemoryInsert(claimed, replacement, at);
      (inserted, if r.Failure? then Failure(r.error) else Success(true))
  }

  class DrizzleOfferStore {
    var offers: Offers

    constructor ()
      ensures offers == map[]
    {
      offers := map[];
    }

    method InsertOffer(record: NewOfferRecord, now: int) returns (r: Result<(), StoreError>)
      modifies this
      ensures (offers, r) == Insert(old(offers), record, now)
    {
      if record.net.amount < 0 || record.sell.amount < 0 || !ValidCurrency(record.sell.currency)
         || !ValidNationality(record.details.nationality) || record.expiresAt <= now {
        return Failure(CheckViolation);
      }
      if record.id in offers {
        return Failure(DuplicateOfferId);
      }
      offers := offers[record.id := StoredRow(record, now)];
      r := Success(());
    }

    method MarkOfferChecked(id: nat, at: int)
      modifies this
      ensures offers == MarkChecked(old(offers), id, at)
    {
      if id in offers && offers[id].invalidatedAt.None? {
        offers := offers[id := offers[id].(checkedAt := Some(at))];
      }
    }

    method InvalidateOffer(id: nat, at: int)
      modifies this
      ensures offers == Claim(old(offers), id, at).0
    {
      var _ := ClaimOffer(id, at);
    }

    method ClaimOffer(id: nat, at: int) returns (claimed: bool)
      modifies this
      ensures (offers, claimed) == Claim(old(offers), id, at)
    {
      claimed := id in offers && offers[id].invalidatedAt.None?;
      if claimed {
        offers := offers[id := offers[id].(invalidatedAt := Some(at))];
      }
    }

    method SupersedeOffer(oldId: nat, replacement: NewOfferRecord, at: int) returns (r: Result<bool, StoreError>)
      modifies this
      ensures (offers, r) == Supersede(old(offers), oldId, replacement, at)
    {
      var before := offers;
      var claimed := ClaimOffer(oldId, at);
      if !claimed {
        return Success(false);
      }
      var inserted := InsertOffer(replacement, at);
      if inserted.Failure? {
        offers := before;
        return Failure(inserted.error);
      }
      r := Success(true);
    }
  }

  /** The store unit tests use: one map per tenant, no transactions. */
  class InMemoryOfferStore {
    var byTenant: map<string, Offers>

    constructor ()
      ensures byTenant == map[]
    {
      byTenant := map[];
    }

    function TenantMap(tenant: string): Offers
      reads this
    {
      if tenant in byTenant then byTenant[tenant] else map[]
    }

    twostate predicate OthersUnchanged(tenant: string)
      reads this
    {
      forall other :: other != tenant ==> TenantMap(other) == old(TenantMap(other))
    }

    method InsertOffer(tenant: string, record: NewOfferRecord, now: int) returns (r: Result<(), StoreError>)
      modifies this
      ensures (TenantMap(tenant), r) == MemoryInsert(old(TenantMap(tenant)), record, now) && OthersUnchanged(tenant)
    {
      var offers := TenantMap(tenant);
      if record.id in offers {
        return Failure(DuplicateOfferId);
      }
      byTenant := byTenant[tenant := offers[record.id := RowOf(record, now)]];
      r := Success(());
    }

    method MarkOfferChecked(tenant: string, id: nat, at: int)
      modifies this
      ensures TenantMap(tenant) == MarkChecked(old(TenantMap(tenant)), id, at) && OthersUnchanged(tenant)
    {
      var offers := TenantMap(tenant);
      if id in offers && offers[id].invalidatedAt.None? {
        byTenant := byTenant[tenant := offers[id := offers[id].(checkedAt := Some(at))]];
      }
    }

    method ClaimOffer(tenant: string, id: nat, at: int) returns (claimed: bool)
      modifies this
      ensures (TenantMap(tenant), claimed) == Claim(old(TenantMap(tenant)), id, at) && OthersUnchanged(tenant)
    {
      var offers := TenantMap(tenant);
      if id !in offers || offers[id].invalidatedAt.Some? {
        return false;
      }
      byTenant := byTenant[tenant := offers[id := offers[id].(invalidatedAt := Some(at))]];
      claimed := true;
    }

    method SupersedeOffer(tenant: string, oldId: nat, replacement: NewOfferRecord, at: int) returns (r: Result<bool, StoreError>)
      modifies this
      ensures (TenantMap(tenant), r) == MemorySupersede(old(TenantMap(tenant)), oldId, replacement, at) && OthersUnchanged(tenant)
    {
      var claimed := ClaimOffer(tenant, oldId, at);
      if !claimed {
        return Success(false);
      }
      var inserted := InsertOffer(tenant, replacement, at);
      r := if inserted.Failure? then Failure(inserted.error) else Success(true);
    }
  }

  // ---------------------------------------------------------------------------
  // The twins

  /**
   The in-memory insert does what the table does exactly for records whose amounts share a currency and
   whose id is taken or which pass the table's checks; it lets the others through.
   */
  lemma TwinsInsertAlike(offers: Offers, record: NewOfferRecord, now: int)
    ensures MemoryInsert(offers, record, now).0 == Insert(offers, record, now).0
            <==> record.id in offers || (TableAccepts(record, now) && record.net.currency == record.sell.currency)
  {
    if record.id !in offers {
      assert record.id in MemoryInsert(offers, record, now).0;
      if MemoryInsert(offers, record, now).0 == Insert(offers, record, now).0 {
        assert MemoryInsert(offers, record, now).0[record.id] == RowOf(record, now);
        assert RowOf(record, now).net == StoredRow(record, now).net;
      }
    }
  }

  /** Superseding a live offer, it leaves other rows than the database unless the successor inserts alike under a fresh id. */
  lemma TwinsSupersedeAlike(offers: Offers, oldId: nat, replacement: NewOfferRecord, at: int)
    requires Live(offers, oldId)
    ensures MemorySupersede(offers, oldId, replacement, at).0 == Supersede(offers, oldId, replacement, at).0
            <==> replacement.id !in offers && TableAccepts(replacement, at) && replacement.net.currency == replacement.sell.currency
  {
    var memory, table := MemorySupersede(offers, oldId, replacement, at).0, Supersede(offers, oldId, replacement, at).0;
    var claimed := Claim(offers, oldId, at).0;
    assert memory[oldId].invalidatedAt.Some? && offers[oldId].invalidatedAt.None?;
    TwinsInsertAlike(claimed, replacement, at);
    if replacement.id !in offers && TableAccepts(replacement, at) {
      assert table == Insert(claimed, replacement, at).0 && memory == MemoryInsert(claimed, replacement, at).0;
    } else {
      assert table == offers;
    }
  }

  // ---------------------------------------------------------------------------
  // Lineages

  /** The lineage each offer belongs to: issuing starts a new one, superseding stays within it. */
  datatype Lineages = Lineages(of: map<nat, nat>, count: nat)

  function WithNewLineage(lineages: Lineages, id: nat): Lineages {
    Lineages(lineages.of[id := lineages.count], lineages.count + 1)
  }

  function WithSuccessor(lineages: Lineages, oldId: nat, newId: nat): Lineages
    requires oldId in lineages.of
  {
    lineages.(of := lineages.of[newId := lineages.of[oldId]])
  }

  /** Every offer has a lineage, and no lineage has two live offers. */
  ghost predicate LineagesInv(offers: Offers, lineages: Lineages) {
    && (forall id :: id in lineages.of <==> id in offers)
    && (forall id :: id in lineages.of ==> lineages.of[id] < lineages.count)
    && (forall a, b :: Live(offers, a) && Live(offers, b) && lineages.of[a] == lineages.of[b] ==> a == b)
  }

  /** No offer of this lineage can be claimed any more. */
  ghost predicate Dead(offers: Offers, lineages: Lineages, lineage: nat)
    requires LineagesInv(offers, lineages)
  {
    lineage < lineages.count && forall id :: Live(offers, id) ==> lineages.of[id] != lineage
  }

  /** The terms a row was stored with: everything but its check and its withdrawal. */
  predicate SameTerms(a: StoredOffer, b: StoredOffer) {
    a.(checkedAt := b.checkedAt, invalidatedAt := b.invalidatedAt) == b
  }

  /** Rows keep their terms and lineage, and a lineage once dead stays dead. */
  ghost predicate Evolves(offers: Offers, lineages: Lineages, offers': Offers, lineages': Lineages)
    requires LineagesInv(offers, lineages) && LineagesInv(offers', lineages')
  {
    && (forall id :: id in offers ==> id in offers' && SameTerms(offers[id], offers'[id]) && lineages'.of[id] == lineages.of[id])
    && (forall lineage :: Dead(offers, lineages, lineage) ==> Dead(offers', lineages', lineage))
  }

  lemma InsertStartsALineage(offers: Offers, lineages: Lineages, record: NewOfferRecord, now: int)
    requires LineagesInv(offers, lineages) && Insert(offers, record, now).1.Success?
    ensures var offers', lineages' := Insert(offers, record, now).0, WithNewLineage(lineages, record.id);
            LineagesInv(offers', lineages') && Evolves(offers, lineages, offers', lineages')
  {
    NewLineageKeeps(offers, lineages, record.id, StoredRow(record, now));
    NewLineageEvolves(offers, lineages, record.id, StoredRow(record, now));
  }

  lemma NewLineageKeeps(offers: Offers, lineages: Lineages, id: nat, row: StoredOffer)
    requires LineagesInv(offers, lineages) && id !in offers
    ensures LineagesInv(offers[id := row], WithNewLineage(lineages, id))
  {
    assert forall x :: Live(offers[id := row], x) && x != id ==> Live(offers, x);
  }

  lemma NewLineageEvolves(offers: Offers, lineages: Lineages, id: nat, row: StoredOffer)
    requires LineagesInv(offers, lineages) && id !in offers && LineagesInv(offers[id := row], WithNewLineage(lineages, id))
    ensures Evolves(offers, lineages, offers[id := row], WithNewLineage(lineages, id))
  {
    var offers', lineages' := offers[id := row], WithNewLineage(lineages, id);
    forall lineage | Dead(offers, lineages, lineage) ensures Dead(offers', lineages', lineage) {
      forall x | Live(offers', x) ensures lineages'.of[x] != lineage {
        assert x == id || Live(offers, x);
      }
    }
  }

  lemma MarkEvolves(offers: Offers, lineages: Lineages, id: nat, at: int)
    requires LineagesInv(offers, lineages)
    ensures LineagesInv(MarkChecked(offers, id, at), lineages) && Evolves(offers, lineages, MarkChecked(offers, id, at), lineages)
  {
    var offers' := MarkChecked(offers, id, at);
    assert forall x :: Live(offers', x) <==> Live(offers, x);
  }

  /** Claiming a live offer kills its lineage, since nothing else in it is live. */
  lemma ClaimKillsTheLineage(offers: Offers, lineages: Lineages, id: nat, at: int)
    requires LineagesInv(offers, lineages)
    ensures var (offers', won) := Claim(offers, id, at);
            && LineagesInv(offers', lineages) && Evolves(offers, lineages, offers', lineages)
            && (won ==> Live(offers, id) && !Dead(offers, lineages, lineages.of[id]) && Dead(offers', lineages, lineages.of[id]))
  {
    var offers' := Claim(offers, id, at).0;
    assert forall x :: Live(offers', x) ==> Live(offers, x);
  }

  /** One live offer traded for a new one, and nothing else. */
  ghost predicate Traded(offers: Offers, offers': Offers, oldId: nat, newId: nat) {
    && Live(offers, oldId) && newId !in offers && offers'.Keys == offers.Keys + {newId}
    && (forall x :: Live(offers', x) <==> x == newId || (x != oldId && Live(offers, x)))
    && (forall x :: x in offers ==> SameTerms(offers[x], offers'[x]))
  }

  lemma SupersedeOutcome(offers: Offers, oldId: nat, replacement: NewOfferRecord, at: int)
    requires Supersede(offers, oldId, replacement, at).1 == Success(true)
    ensures var offers' := Supersede(offers, oldId, replacement, at).0;
            && Traded(offers, offers', oldId, replacement.id)
            && offers'[replacement.id] == StoredRow(replacement, at)
  {
  }

  lemma TradeKeepsLineages(offers: Offers, lineages: Lineages, offers': Offers, oldId: nat, newId: nat)
    requires LineagesInv(offers, lineages) && Traded(offers, offers', oldId, newId)
    ensures LineagesInv(offers', WithSuccessor(lineages, oldId, newId))
  {
    assert forall x :: x in offers' <==> x in offers || x == newId;
  }

  lemma TradeEvolves(offers: Offers, lineages: Lineages, offers': Offers, oldId: nat, newId: nat)
    requires LineagesInv(offers, lineages) && Traded(offers, offers', oldId, newId)
    requires LineagesInv(offers', WithSuccessor(lineages, oldId, newId))
    ensures Evolves(offers, lineages, offers', WithSuccessor(lineages, oldId, newId))
  {
    var lineages' := WithSuccessor(lineages, oldId, newId);
    assert forall x :: x in offers ==> x in offers'.Keys;
    forall lineage | Dead(offers, lineages, lineage) ensures Dead(offers', lineages', lineage) {
      forall x | Live(offers', x) ensures lineages'.of[x] != lineage {
        assert x == newId || Live(offers, x);
      }
    }
  }

  /** Superseding leaves the lineage one live offer: the successor. */
  lemma SupersedeKeepsOneLive(offers: Offers, lineages: Lineages, oldId: nat, replacement: NewOfferRecord, at: int)
    requires LineagesInv(offers, lineages)
    requires Supersede(offers, oldId, replacement, at).1 == Success(true)
    ensures oldId in lineages.of
    ensures var offers', lineages' := Supersede(offers, oldId, replacement, at).0, WithSuccessor(lineages, oldId, replacement.id);
            LineagesInv(offers', lineages') && Evolves(offers, lineages, offers', lineages')
  {
    SupersedeOutcome(offers, oldId, replacement, at);
    var offers' := Supersede(offers, oldId, replacement, at).0;
    TradeKeepsLineages(offers, lineages, offers', oldId, replacement.id);
    TradeEvolves(offers, lineages, offers', oldId, replacement.id);
  }
}
