/** The in-memory billing store: the shop directory and the rent and
    maintenance collections, with the operations that write to them. Each
    write is taken to land in the sequences at once; ids, dates and the
    current month are parameters. */
module Store {
  import opened Wrappers
  import opened Types
  import opened Billing
  import opened Strings
  import opened Sorting

  /** The message a bulk generation ends with. */
  datatype Notice = BillsGenerated(count: nat, month: string) | BillsAlreadyExist(month: string)

  /** The order a collection listener keeps: month descending (a missing
      month counts as ""), ties kept in arrival order. */
  predicate NewerOrSame(a: BillingRecord, b: BillingRecord)
  {
    LexLeq(b.month, a.month)
  }

  lemma NewerOrSameIsTotalPreorder()
    ensures IsTotalPreorder(NewerOrSame)
  {
    forall a: BillingRecord, b: BillingRecord, c: BillingRecord
      ensures NewerOrSame(a, b) || NewerOrSame(b, a)
      ensures NewerOrSame(a, b) && NewerOrSame(b, c) ==> NewerOrSame(a, c)
    {
      LexLeqOrder(c.month, b.month, a.month);
      LexLeqOrder(a.month, b.month, c.month);
    }
  }

  /** A collection as its listener publishes it. */
  function SnapshotOrder(rs: seq<BillingRecord>): (r: seq<BillingRecord>)
    ensures multiset(r) == multiset(rs)
    ensures SortedBy(r, NewerOrSame)
  {
    NewerOrSameIsTotalPreorder();
    SortBySorted(rs, NewerOrSame);
    SortBy(rs, NewerOrSame)
  }

  class PlazaStore {
    var shops: seq<Shop>
    var rentRecords: seq<BillingRecord>
    var maintenanceRecords: seq<BillingRecord>

    constructor (shops0: seq<Shop>, rent0: seq<BillingRecord>, maintenance0: seq<BillingRecord>)
      ensures shops == shops0 && rentRecords == rent0 && maintenanceRecords == maintenance0
    {
      shops := shops0;
      rentRecords := rent0;
      maintenanceRecords := maintenance0;
    }

    /** The collection a kind of bill lives in. */
    function Records(kind: Kind): seq<BillingRecord>
      reads this
    {
      match kind
      case Rent => rentRecords
      case Maintenance => maintenanceRecords
    }

    method SetRecords(kind: Kind, rs: seq<BillingRecord>)
      modifies this
      ensures Records(kind) == rs
      ensures forall k :: k != kind ==> Records(k) == old(Records(k))
      ensures shops == old(shops)
    {
      match kind
      case Rent => rentRecords := rs;
      case Maintenance => maintenanceRecords := rs;
    }

    /** `addRentPayment` / `addMaintenancePayment`: the first record with the
        id gets the payment added to `collected`, a re-derived status and the
        new transaction in front of the old ones; an unknown id changes
        nothing. */
    method AddPayment(kind: Kind, recordId: string, amount: int,
                      txId: string, date: string, note: string, displayName: Option<string>)
      modifies this
      ensures Records(kind) == ApplyPayment(old(Records(kind)), recordId, amount,
                                            PaymentTx(txId, date, amount, note, CollectorName(displayName)))
      ensures forall k :: k != kind ==> Records(k) == old(Records(k))
      ensures shops == old(shops)
    {
      var rs := Records(kind);
      var found := FindById(rs, recordId);
      if found.None? {
        return;
      }
      var k := found.value;
      var record := rs[k];
      var newCollected := record.Collected() + amount;
      var newStatus := Pending;
      if newCollected >= record.Due() {
        newStatus := Paid;
      } else if newCollected > 0 {
        newStatus := Partial;
      }
      var tx := Transaction(txId, date, Num(amount), note, CollectorName(displayName));
      var updated := [tx] + record.Txs();
      SetRecords(kind, rs[k := record.(collected := Some(newCollected), status := newStatus,
                                       transactions := Some(updated))]);
    }

    /** `generateMonthlyRent(month)` / `generateMonthlyMaintenance(month)`:
        walks the directory, adds a bill for each Occupied shop without one
        for the month, counts them and reports. */
    method GenerateMonthly(kind: Kind, month: string, newId: string -> string)
      returns (count: nat, notice: Notice)
      modifies this
      ensures Records(kind) == old(Records(kind)) + MissingBills(kind, shops, old(Records(kind)), month, newId)
      ensures forall k :: k != kind ==> Records(k) == old(Records(k))
      ensures shops == old(shops)
      ensures count == |Records(kind)| - |old(Records(kind))|
      ensures notice.BillsGenerated? ==> notice == BillsGenerated(count, month) && count > 0
      ensures notice.BillsAlreadyExist? ==> notice == BillsAlreadyExist(month) && count == 0
      ensures notice.BillsAlreadyExist? <==>
                (forall s :: s in shops && s.status == Occupied ==> HasBill(old(Records(kind)), s.id, month))
      ensures forall s :: s in shops && s.status == Occupied ==> HasBill(Records(kind), s.id, month)
      ensures UniqueBills(old(Records(kind))) && DistinctShopIds(shops) ==> UniqueBills(Records(kind))
    {
      var existing := Records(kind);
      var batch: seq<BillingRecord> := [];
      count := 0;
      for i := 0 to |shops|
        invariant batch == MissingBills(kind, shops[..i], existing, month, newId)
        invariant count == |batch|
      {
        var shop := shops[i];
        assert shops[..i + 1] == shops[..i] + [shop];
        if shop.status == Occupied {
          var billed := HasBill(existing, shop.id, month);
          if !billed {
            batch := batch + [NewBill(kind, shop, month, newId(shop.id))];
            count := count + 1;
          }
        }
      }
      assert shops[..|shops|] == shops;
      SetRecords(kind, existing + batch);
      if count > 0 {
        notice := BillsGenerated(count, month);
      } else {
        notice := BillsAlreadyExist(month);
      }
      MissingBillsEmptyIff(kind, shops, existing, month, newId);
      forall s | s in shops && s.status == Occupied
        ensures HasBill(existing + batch, s.id, month)
      {
        MissingBillsCover(kind, shops, existing, month, newId, s);
      }
      if UniqueBills(existing) && DistinctShopIds(shops) {
        GeneratePreservesUnique(kind, shops, existing, month, newId);
      }
    }

    /** `createRentBill` / `createMaintenanceBill`: an unknown shop changes
        nothing; otherwise one bill is appended, whatever the shop's status
        and whatever bills the month already has. */
    method CreateBill(kind: Kind, shopId: string, month: string, id: string)
      modifies this
      ensures FindShop(shops, shopId).None? ==> Records(kind) == old(Records(kind))
      ensures FindShop(shops, shopId).Some? ==>
                Records(kind) == old(Records(kind)) + [NewBill(kind, FindShop(shops, shopId).value, month, id)]
      ensures FindShop(shops, shopId).Some? ==>
                BillCount(Records(kind), shopId, month) == BillCount(old(Records(kind)), shopId, month) + 1
      ensures forall k :: k != kind ==> Records(k) == old(Records(k))
      ensures shops == old(shops)
    {
      var shop := FindShop(shops, shopId);
      if shop.None? {
        return;
      }
      var rs := Records(kind);
      CreateBillAddsOne(kind, rs, shops, shopId, month, id);
      SetRecords(kind, rs + [NewBill(kind, shop.value, month, id)]);
    }

    /** The billing part of `addShop`: the shop is stored under its new
        document id and, when Occupied, billed for the current month in both
        collections. */
    method AddShop(shop: Shop, docId: string, currentMonth: string, rentId: string, maintenanceId: string)
      modifies this
      ensures shops == old(shops) + [shop.(id := docId)]
      ensures shop.status == Occupied ==>
                rentRecords == old(rentRecords) + [NewBill(Rent, shop.(id := docId), currentMonth, rentId)]
                && maintenanceRecords == old(maintenanceRecords)
                   + [NewBill(Maintenance, shop.(id := docId), currentMonth, maintenanceId)]
      ensures shop.status == Vacant ==>
                rentRecords == old(rentRecords) && maintenanceRecords == old(maintenanceRecords)
      // a generation for the current month right after adds nothing for it
      ensures shop.status == Occupied ==>
                forall k :: BillFor(k, shop.(id := docId), Records(k), currentMonth, (x: string) => x) == []
    {
      var stored := shop.(id := docId);
      shops := shops + [stored];
      if stored.status == Occupied {
        var rentBill := NewBill(Rent, stored, currentMonth, rentId);
        var maintenanceBill := NewBill(Maintenance, stored, currentMonth, maintenanceId);
        rentRecords := rentRecords + [rentBill];
        maintenanceRecords := maintenanceRecords + [maintenanceBill];
        assert rentRecords[|rentRecords| - 1] == rentBill;
        assert maintenanceRecords[|maintenanceRecords| - 1] == maintenanceBill;
      }
    }

    /** `updateShop`: the shop document with the edited shop's id is
        overwritten; an empty id, or one no stored shop has, fails and
        changes nothing. The bills already issued keep the shop number and
        owner they were made with. */
    method UpdateShop(edited: Shop) returns (ok: bool)
      modifies this
      ensures ok <==> edited.id != "" && FindShop(old(shops), edited.id).Some?
      ensures ok ==> shops == ReplaceShop(old(shops), edited)
      ensures !ok ==> shops == old(shops)
      ensures rentRecords == old(rentRecords) && maintenanceRecords == old(maintenanceRecords)
    {
      if edited.id == "" {
        return false;
      }
      var found := FindShop(shops, edited.id);
      if found.None? {
        return false;
      }
      shops := ReplaceShop(shops, edited);
      ok := true;
    }
  }
}
