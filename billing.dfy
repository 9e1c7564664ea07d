/** The billing rules of the store: how a payment changes a record, what a new
    bill looks like, and which bills a bulk generation adds. These are the
    values the store's methods write; the lemmas state what the rules promise. */
module Billing {
  import opened Wrappers
  import opened Types

  // ---------------------------------------------------------------------
  // Status and payments

  /** The status a payment handler writes: `Paid` once the collected total
      reaches the amount, else `Partial` while something is collected, else
      `Pending`. Never `Overdue`. */
  function DeriveStatus(amount: int, collected: int): (s: BillStatus)
    ensures s == Paid <==> collected >= amount
    ensures s == Partial <==> 0 < collected < amount
    ensures s == Pending <==> collected <= 0 && collected < amount
    ensures s != Overdue
  {
    if collected >= amount then Paid else if collected > 0 then Partial else Pending
  }

  /** `user?.displayName || 'Unknown Staff'` */
  function CollectorName(displayName: Option<string>): (name: string)
    ensures name != ""
    ensures displayName.Some? && displayName.value != "" ==> name == displayName.value
    ensures displayName.None? || displayName.value == "" ==> name == "Unknown Staff"
  {
    match displayName
    case Some(n) => if n != "" then n else "Unknown Staff"
    case None => "Unknown Staff"
  }

  function PaymentTx(id: string, date: string, amount: int, note: string, collectedBy: string): Transaction
  {
    Transaction(id, date, Num(amount), note, collectedBy)
  }

  /** The record after a payment of `amount` recorded as `tx`. */
  function Pay(r: BillingRecord, amount: int, tx: Transaction): (p: BillingRecord)
    ensures p.Collected() == r.Collected() + amount
    ensures p.status == Paid <==> p.Collected() >= r.Due()
    ensures p.status == Partial <==> 0 < p.Collected() < r.Due()
    ensures p.status == Pending <==> p.Collected() <= 0 && p.Collected() < r.Due()
    ensures p.Txs() == [tx] + r.Txs()
    ensures p.Due() == r.Due()
    // only `collected`, `status` and `transactions` are written
    ensures p.(collected := r.collected, status := r.status, transactions := r.transactions) == r
  {
    var newCollected := r.Collected() + amount;
    r.(collected := Some(newCollected),
       status := DeriveStatus(r.Due(), newCollected),
       transactions := Some([tx] + r.Txs()))
  }

  /** Index of the first record with the given id (`records.find`). */
  function FindById(rs: seq<BillingRecord>, id: string): (k: Option<nat>)
    ensures k.None? <==> forall i :: 0 <= i < |rs| ==> rs[i].id != id
    ensures k.Some? ==> k.value < |rs| && rs[k.value].id == id
    ensures k.Some? ==> forall i :: 0 <= i < k.value ==> rs[i].id != id
  {
    if rs == [] then None
    else if rs[0].id == id then Some(0)
    else match FindById(rs[1..], id)
      case None => None
      case Some(j) => Some(j + 1)
  }

  /** The collection after `addRentPayment(id, amount)` (or the maintenance
      twin): the first record with that id is paid, nothing else changes. */
  function ApplyPayment(rs: seq<BillingRecord>, id: string, amount: int, tx: Transaction): (r: seq<BillingRecord>)
    ensures |r| == |rs|
    ensures (forall i :: 0 <= i < |rs| ==> rs[i].id != id) ==> r == rs
    ensures forall i :: 0 <= i < |rs| && r[i] != rs[i] ==> FindById(rs, id) == Some(i)
    ensures forall i :: 0 <= i < |rs| && FindById(rs, id) == Some(i) ==> r[i] == Pay(rs[i], amount, tx)
  {
    match FindById(rs, id)
    case None => rs
    case Some(k) => rs[k := Pay(rs[k], amount, tx)]
  }

  /** Two payments in a row add up, and the later transaction comes first. */
  lemma {:induction false} TwoPayments(r: BillingRecord, x: int, tx1: Transaction, y: int, tx2: Transaction)
    ensures Pay(Pay(r, x, tx1), y, tx2).Collected() == r.Collected() + x + y
    ensures Pay(Pay(r, x, tx1), y, tx2).Txs() == [tx2, tx1] + r.Txs()
    ensures Pay(Pay(r, x, tx1), y, tx2).status == DeriveStatus(r.Due(), r.Collected() + x + y)
  {
    var p := Pay(r, x, tx1);
    var q := Pay(p, y, tx2);
    assert q.Txs() == [tx2] + ([tx1] + r.Txs());
  }

  // ---------------------------------------------------------------------
  // New bills

  /** Rent falls due on the 5th, maintenance on the 10th. */
  function DueSuffix(kind: Kind): string
  {
    match kind
    case Rent => "-05"
    case Maintenance => "-10"
  }

  /** The shop field that supplies a bill's amount. */
  function Charge(shop: Shop, kind: Kind): int
  {
    match kind
    case Rent => shop.monthlyRent
    case Maintenance => shop.monthlyMaintenance
  }

  /** The document every bill-creating operation adds for `shop` and `month`. */
  function NewBill(kind: Kind, shop: Shop, month: string, id: string): (r: BillingRecord)
    ensures r.id == id && r.shopId == shop.id && r.month == month
    ensures r.Due() == Charge(shop, kind) && r.Collected() == 0 && r.Balance() == Charge(shop, kind)
    ensures r.Txs() == [] && r.status == Pending
    ensures r.dueDate == month + DueSuffix(kind)
  {
    BillingRecord(id, shop.id, shop.shopNumber, shop.ownerName, shop.phone,
                  Some(Charge(shop, kind)), Some(0), Some([]),
                  month + DueSuffix(kind), Pending, month)
  }

  /** `records.some(r => r.shopId === shopId && r.month === month)` */
  predicate HasBill(rs: seq<BillingRecord>, shopId: string, month: string)
  {
    exists i :: 0 <= i < |rs| && rs[i].shopId == shopId && rs[i].month == month
  }

  /** The bill a bulk generation adds for one shop: one for an Occupied shop
      without a bill for the month, none otherwise. */
  function BillFor(kind: Kind, shop: Shop, existing: seq<BillingRecord>, month: string, newId: string -> string): seq<BillingRecord>
  {
    if shop.status == Occupied && !HasBill(existing, shop.id, month)
    then [NewBill(kind, shop, month, newId(shop.id))]
    else []
  }

  /** The bills `generateMonthlyRent(month)` (or the maintenance twin) adds,
      shop by shop in directory order. Existence is checked against the
      collection as it was before the run. */
  function MissingBills(kind: Kind, shops: seq<Shop>, existing: seq<BillingRecord>, month: string, newId: string -> string): (bills: seq<BillingRecord>)
    ensures |bills| <= |shops|
    ensures forall i :: 0 <= i < |bills| ==> bills[i].month == month && bills[i].status == Pending && bills[i].Collected() == 0
  {
    if shops == [] then []
    else MissingBills(kind, shops[..|shops| - 1], existing, month, newId)
         + BillFor(kind, shops[|shops| - 1], existing, month, newId)
  }

  /** A generated bill is exactly a fresh bill for an Occupied shop of the
      directory that had no bill for the month: amount from the shop, nothing
      collected, no transactions, `Pending`, due on the kind's day. */
  lemma {:induction false} MissingBillsMembers(kind: Kind, shops: seq<Shop>, existing: seq<BillingRecord>, month: string, newId: string -> string, b: BillingRecord)
    ensures b in MissingBills(kind, shops, existing, month, newId) <==>
            exists s :: s in shops && s.status == Occupied && !HasBill(existing, s.id, month)
                        && b == NewBill(kind, s, month, newId(s.id))
  {
    if shops != [] {
      var init := shops[..|shops| - 1];
      var last := shops[|shops| - 1];
      MissingBillsMembers(kind, init, existing, month, newId, b);
      assert shops == init + [last];
      if b in MissingBills(kind, shops, existing, month, newId) {
        if b in BillFor(kind, last, existing, month, newId) {
          assert last in shops;
        } else {
          var s :| s in init && s.status == Occupied && !HasBill(existing, s.id, month)
                   && b == NewBill(kind, s, month, newId(s.id));
          assert s in shops;
        }
      }
      if s :| s in shops && s.status == Occupied && !HasBill(existing, s.id, month)
              && b == NewBill(kind, s, month, newId(s.id)) {
        if s != last {
          assert s in init;
        }
      }
    }
  }

  /** After a generation every Occupied shop has a bill for the month. */
  lemma {:induction false} MissingBillsCover(kind: Kind, shops: seq<Shop>, existing: seq<BillingRecord>, month: string, newId: string -> string, s: Shop)
    requires s in shops && s.status == Occupied
    ensures HasBill(existing + MissingBills(kind, shops, existing, month, newId), s.id, month)
  {
    var added := MissingBills(kind, shops, existing, month, newId);
    if !HasBill(existing, s.id, month) {
      var b := NewBill(kind, s, month, newId(s.id));
      MissingBillsMembers(kind, shops, existing, month, newId, b);
      var j :| 0 <= j < |added| && added[j] == b;
      assert (existing + added)[|existing| + j] == b;
    } else {
      var i :| 0 <= i < |existing| && existing[i].shopId == s.id && existing[i].month == month;
      assert (existing + added)[i] == existing[i];
    }
  }

  /** Generation adds nothing exactly when every Occupied shop is already
      billed for the month (the "already exist" notice). */
  lemma MissingBillsEmptyIff(kind: Kind, shops: seq<Shop>, existing: seq<BillingRecord>, month: string, newId: string -> string)
    ensures MissingBills(kind, shops, existing, month, newId) == [] <==>
            forall s :: s in shops && s.status == Occupied ==> HasBill(existing, s.id, month)
  {
    var added := MissingBills(kind, shops, existing, month, newId);
    if added == [] {
      forall s | s in shops && s.status == Occupied
        ensures HasBill(existing, s.id, month)
      {
        MissingBillsMembers(kind, shops, existing, month, newId, NewBill(kind, s, month, newId(s.id)));
      }
    } else {
      MissingBillsMembers(kind, shops, existing, month, newId, added[0]);
    }
  }

  /** Run twice in a row for the same month, the second generation adds
      nothing. */
  lemma GenerateIdempotent(kind: Kind, shops: seq<Shop>, existing: seq<BillingRecord>, month: string, newId: string -> string, newId2: string -> string)
    ensures MissingBills(kind, shops, existing + MissingBills(kind, shops, existing, month, newId), month, newId2) == []
  {
    var after := existing + MissingBills(kind, shops, existing, month, newId);
    forall s | s in shops && s.status == Occupied
      ensures HasBill(after, s.id, month)
    {
      MissingBillsCover(kind, shops, existing, month, newId, s);
    }
    MissingBillsEmptyIff(kind, shops, after, month, newId2);
  }

  /** At most one bill per shop and month. */
  predicate UniqueBills(rs: seq<BillingRecord>)
  {
    forall i, j :: 0 <= i < j < |rs| ==> !(rs[i].shopId == rs[j].shopId && rs[i].month == rs[j].month)
  }

  predicate DistinctShopIds(shops: seq<Shop>)
  {
    forall i, j :: 0 <= i < j < |shops| ==> shops[i].id != shops[j].id
  }

  lemma {:induction false} MissingBillsShops(kind: Kind, shops: seq<Shop>, existing: seq<BillingRecord>, month: string, newId: string -> string)
    ensures forall k :: 0 <= k < |MissingBills(kind, shops, existing, month, newId)| ==>
              var b := MissingBills(kind, shops, existing, month, newId)[k];
              b.month == month && !HasBill(existing, b.shopId, month)
              && exists i :: 0 <= i < |shops| && shops[i].id == b.shopId
    ensures UniqueBills(MissingBills(kind, shops, existing, month, newId)) || !DistinctShopIds(shops)
  {
    if shops != [] {
      var init := shops[..|shops| - 1];
      var last := shops[|shops| - 1];
      MissingBillsShops(kind, init, existing, month, newId);
      var a := MissingBills(kind, init, existing, month, newId);
      var m := MissingBills(kind, shops, existing, month, newId);
      assert m == a + BillFor(kind, last, existing, month, newId);
      forall k | 0 <= k < |m|
        ensures m[k].month == month && !HasBill(existing, m[k].shopId, month)
        ensures exists i :: 0 <= i < |shops| && shops[i].id == m[k].shopId
      {
        if k < |a| {
          var i :| 0 <= i < |init| && init[i].id == a[k].shopId;
          assert shops[i] == init[i];
        } else {
          assert shops[|shops| - 1].id == m[k].shopId;
        }
      }
      if DistinctShopIds(shops) {
        assert DistinctShopIds(init) by {
          forall i, j | 0 <= i < j < |init| ensures init[i].id != init[j].id {
            assert init[i] == shops[i] && init[j] == shops[j];
          }
        }
        forall i, j | 0 <= i < j < |m|
          ensures !(m[i].shopId == m[j].shopId && m[i].month == m[j].month)
        {
          if j >= |a| {
            var i' :| 0 <= i' < |init| && init[i'].id == a[i].shopId;
            assert shops[i'] == init[i'];
            assert m[j].shopId == last.id;
          }
        }
      }
    }
  }

  /** Generation keeps "at most one bill per shop and month" when the shop ids
      are distinct. */
  lemma GeneratePreservesUnique(kind: Kind, shops: seq<Shop>, existing: seq<BillingRecord>, month: string, newId: string -> string)
    requires UniqueBills(existing) && DistinctShopIds(shops)
    ensures UniqueBills(existing + MissingBills(kind, shops, existing, month, newId))
  {
    var m := MissingBills(kind, shops, existing, month, newId);
    var all := existing + m;
    MissingBillsShops(kind, shops, existing, month, newId);
    forall i, j | 0 <= i < j < |all|
      ensures !(all[i].shopId == all[j].shopId && all[i].month == all[j].month)
    {
      if i < |existing| && j >= |existing| {
        var b := m[j - |existing|];
        assert all[i] == existing[i] && all[j] == b;
        assert b.month == month && !HasBill(existing, b.shopId, month);
      } else if i >= |existing| {
        assert all[i] == m[i - |existing|] && all[j] == m[j - |existing|];
      }
    }
  }

  /** Index of the first shop with the given id. */
  function ShopIndex(shops: seq<Shop>, shopId: string): (k: Option<nat>)
    ensures k.None? <==> forall i :: 0 <= i < |shops| ==> shops[i].id != shopId
    ensures k.Some? ==> k.value < |shops| && shops[k.value].id == shopId
    ensures k.Some? ==> forall i :: 0 <= i < k.value ==> shops[i].id != shopId
  {
    if shops == [] then None
    else if shops[0].id == shopId then Some(0)
    else match ShopIndex(shops[1..], shopId)
      case None => None
      case Some(j) => Some(j + 1)
  }

  /** `shops.find(s => s.id === shopId)`: the first shop with the id. */
  function FindShop(shops: seq<Shop>, shopId: string): (r: Option<Shop>)
    ensures r.None? <==> forall i :: 0 <= i < |shops| ==> shops[i].id != shopId
    ensures r.Some? ==> r.value in shops && r.value.id == shopId
    ensures r.Some? ==> ShopIndex(shops, shopId).Some? && r.value == shops[ShopIndex(shops, shopId).value]
  {
    match ShopIndex(shops, shopId)
    case None => None
    case Some(k) => Some(shops[k])
  }

  /** The directory after a shop document is overwritten: every shop with
      the edited shop's id takes its fields, the rest stay in place. */
  function ReplaceShop(shops: seq<Shop>, edited: Shop): (r: seq<Shop>)
    ensures |r| == |shops|
    ensures forall i :: 0 <= i < |shops| ==> r[i] == if shops[i].id == edited.id then edited else shops[i]
  {
    if shops == [] then [] else [if shops[0].id == edited.id then edited else shops[0]] + ReplaceShop(shops[1..], edited)
  }

  /** After an edit the directory finds the edited shop under its id
      (when a shop had that id), and finds every other id as before. */
  lemma {:induction false} ReplaceShopFinds(shops: seq<Shop>, edited: Shop, id: string)
    ensures FindShop(ReplaceShop(shops, edited), id)
            == if id != edited.id then FindShop(shops, id)
               else if FindShop(shops, id).Some? then Some(edited) else None
  {
    if shops != [] {
      var r := ReplaceShop(shops, edited);
      assert r[1..] == ReplaceShop(shops[1..], edited);
      ReplaceShopFinds(shops[1..], edited, id);
    }
  }

  /** How many bills a collection holds for one shop and month. */
  function BillCount(rs: seq<BillingRecord>, shopId: string, month: string): (n: nat)
    ensures n == 0 <==> !HasBill(rs, shopId, month)
  {
    if rs == [] then 0
    else
      assert rs == [rs[0]] + rs[1..];
      (if rs[0].shopId == shopId && rs[0].month == month then 1 else 0) + BillCount(rs[1..], shopId, month)
  }

  lemma {:induction false} BillCountAppend(rs: seq<BillingRecord>, b: BillingRecord, shopId: string, month: string)
    ensures BillCount(rs + [b], shopId, month)
            == BillCount(rs, shopId, month) + (if b.shopId == shopId && b.month == month then 1 else 0)
  {
    if rs == [] {
      assert rs + [b] == [b];
    } else {
      assert (rs + [b])[1..] == rs[1..] + [b];
      BillCountAppend(rs[1..], b, shopId, month);
    }
  }

  /** A single-bill creation checks nothing: for a known shop it adds one more
      bill for (shop, month) however many there were. */
  lemma CreateBillAddsOne(kind: Kind, rs: seq<BillingRecord>, shops: seq<Shop>, shopId: string, month: string, id: string)
    requires FindShop(shops, shopId).Some?
    ensures BillCount(rs + [NewBill(kind, FindShop(shops, shopId).value, month, id)], shopId, month)
            == BillCount(rs, shopId, month) + 1
  {
    BillCountAppend(rs, NewBill(kind, FindShop(shops, shopId).value, month, id), shopId, month);
  }
}
