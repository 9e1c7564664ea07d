/** What the Maintenance page adds to the shared collection logic: the phone
    number a WhatsApp bill is sent to, the shop's arrears and the total
    payable the bill announces. */
module MaintenancePage {
  import opened Wrappers
  import opened Types
  import opened Strings
  import opened Seqs
  import opened Billing

  // ---------------------------------------------------------------------
  // WhatsApp number

  /** `phone.replace(/\D/g, '')` */
  function DigitsOnly(phone: string): (d: string)
    ensures AllDigits(d) && |d| <= |phone|
    ensures forall c :: c in d <==> c in phone && IsDigit(c)
    ensures AllDigits(phone) ==> d == phone
  {
    FilterKeepsAll(phone, IsDigit);
    Filter(phone, IsDigit)
  }

  /** Stripping non-digits works piece by piece, so a number typed with
      separators between its groups keeps every group's digits in order. */
  lemma DigitsOnlyAppend(a: string, b: string)
    ensures DigitsOnly(a + b) == DigitsOnly(a) + DigitsOnly(b)
  {
    FilterAppend(a, b, IsDigit);
  }

  /** The number the bill is sent to: none (the "no phone" error) when the
      record has no phone; otherwise its digits, with a leading '0' replaced
      by the country code 92. */
  function WhatsAppNumber(phone: string): (n: Option<string>)
    ensures n.None? <==> phone == ""
    ensures n.Some? ==> AllDigits(n.value) && !StartsWith(n.value, "0")
    ensures n.Some? && StartsWith(DigitsOnly(phone), "0") ==>
              StartsWith(n.value, "92") && n.value[2..] == DigitsOnly(phone)[1..]
    ensures n.Some? && !StartsWith(DigitsOnly(phone), "0") ==> n.value == DigitsOnly(phone)
  {
    if phone == "" then None
    else
      var digits := DigitsOnly(phone);
      if StartsWith(digits, "0") then
        var r := "92" + digits[1..];
        assert r[..1] == "9";
        Some(r)
      else Some(digits)
  }

  /** Normalising a number the page produced leaves it unchanged, so
      numbers already in international form pass through. */
  lemma WhatsAppNumberStable(phone: string)
    requires WhatsAppNumber(phone).Some? && WhatsAppNumber(phone).value != ""
    ensures WhatsAppNumber(WhatsAppNumber(phone).value) == WhatsAppNumber(phone)
  {
    var n := WhatsAppNumber(phone).value;
    FilterKeepsAll(n, IsDigit);
  }

  // ---------------------------------------------------------------------
  // Arrears and total payable

  function BalanceOf(r: BillingRecord): int { r.Balance() }

  /** The same shop's records with a strictly earlier month. */
  function EarlierOfShop(current: BillingRecord): BillingRecord -> bool
  {
    (r: BillingRecord) => r.shopId == current.shopId && LexLess(r.month, current.month)
  }

  /** The same shop's records up to and including the current month. */
  function UpToOfShop(current: BillingRecord): BillingRecord -> bool
  {
    (r: BillingRecord) => r.shopId == current.shopId && LexLeq(r.month, current.month)
  }

  function SameBill(current: BillingRecord): BillingRecord -> bool
  {
    (r: BillingRecord) => r.shopId == current.shopId && r.month == current.month
  }

  /** Previous dues: the balances of the shop's earlier records, summed and
      not clamped (an overpayment lowers them). */
  function Arrears(rs: seq<BillingRecord>, current: BillingRecord): (a: int)
    ensures (forall i :: 0 <= i < |rs| ==> !EarlierOfShop(current)(rs[i])) ==> a == 0
  {
    FilterNone(rs, EarlierOfShop(current));
    Sum(Filter(rs, EarlierOfShop(current)), BalanceOf)
  }

  /** Arrears are negative only when some record was overpaid. */
  lemma ArrearsNonNegative(rs: seq<BillingRecord>, current: BillingRecord)
    requires forall i :: 0 <= i < |rs| ==> rs[i].Balance() >= 0
    ensures Arrears(rs, current) >= 0
  {
    var earlier := Filter(rs, EarlierOfShop(current));
    forall j | 0 <= j < |earlier| ensures BalanceOf(earlier[j]) >= 0 {
      assert earlier[j] in rs;
    }
    SumNonNegative(earlier, BalanceOf);
  }

  /** The current record never counts towards its own arrears. */
  lemma ArrearsExcludeCurrent(rs: seq<BillingRecord>, current: BillingRecord)
    ensures current !in Filter(rs, EarlierOfShop(current))
  {
    LexTrichotomy(current.month, current.month);
  }

  /** `previousDues + currentBalance` */
  function TotalPayable(rs: seq<BillingRecord>, current: BillingRecord): (t: int)
    ensures (forall i :: 0 <= i < |rs| ==> !EarlierOfShop(current)(rs[i])) ==> t == current.Balance()
  {
    Arrears(rs, current) + current.Balance()
  }

  /** The closing line says "PAID IN FULL" exactly for a `Paid` record. */
  predicate PaidInFull(current: BillingRecord)
  {
    current.status == Paid
  }

  /** A payment brings the closing line to "PAID IN FULL" exactly when it
      lifts the collected total to the amount due. */
  lemma PaidInFullAfterPayment(r: BillingRecord, amount: int, tx: Transaction)
    ensures PaidInFull(Pay(r, amount, tx)) <==> r.Collected() + amount >= r.Due()
  {
  }

  /** With at most one bill per shop and month, the record in the collection
      is the only one of its shop and month. */
  lemma {:induction false} OnlyBillOfItsMonth(rs: seq<BillingRecord>, current: BillingRecord)
    requires UniqueBills(rs) && current in rs
    ensures Filter(rs, SameBill(current)) == [current]
  {
    assert UniqueBills(rs[1..]) by {
      forall i, j | 0 <= i < j < |rs[1..]|
        ensures !(rs[1..][i].shopId == rs[1..][j].shopId && rs[1..][i].month == rs[1..][j].month)
      {
        assert rs[1..][i] == rs[i + 1] && rs[1..][j] == rs[j + 1];
      }
    }
    if SameBill(current)(rs[0]) {
      assert rs[0] == current by {
        var k :| 0 <= k < |rs| && rs[k] == current;
        assert !(0 < k);
      }
      forall i | 0 <= i < |rs[1..]| ensures !SameBill(current)(rs[1..][i]) {
        assert rs[1..][i] == rs[i + 1];
      }
      FilterNone(rs[1..], SameBill(current));
    } else {
      assert current in rs[1..];
      OnlyBillOfItsMonth(rs[1..], current);
    }
  }

  function NotEarlierOfShop(current: BillingRecord): BillingRecord -> bool
  {
    (r: BillingRecord) => !EarlierOfShop(current)(r)
  }

  /** Among the shop's records up to the current month, those not earlier
      are the ones of the current month. */
  lemma UpToSplits(rs: seq<BillingRecord>, current: BillingRecord)
    ensures Filter(Filter(rs, UpToOfShop(current)), EarlierOfShop(current)) == Filter(rs, EarlierOfShop(current))
    ensures Filter(Filter(rs, UpToOfShop(current)), NotEarlierOfShop(current)) == Filter(rs, SameBill(current))
  {
    forall x | EarlierOfShop(current)(x) ensures UpToOfShop(current)(x) {
      LexTrichotomy(x.month, current.month);
    }
    FilterFilter(rs, UpToOfShop(current), EarlierOfShop(current));
    forall x ensures SameBill(current)(x) == (UpToOfShop(current)(x) && NotEarlierOfShop(current)(x)) {
      LexTrichotomy(x.month, current.month);
    }
    FilterFilterBoth(rs, UpToOfShop(current), NotEarlierOfShop(current), SameBill(current));
  }

  /** With at most one bill per shop and month, the total payable is the
      shop's outstanding balance over every month up to the current one. */
  lemma TotalPayableUpToNow(rs: seq<BillingRecord>, current: BillingRecord)
    requires UniqueBills(rs) && current in rs
    ensures TotalPayable(rs, current) == Sum(Filter(rs, UpToOfShop(current)), BalanceOf)
  {
    var upTo := Filter(rs, UpToOfShop(current));
    var earlier := Filter(upTo, EarlierOfShop(current));
    var rest := Filter(upTo, NotEarlierOfShop(current));
    SumPartition(upTo, BalanceOf, EarlierOfShop(current), NotEarlierOfShop(current));
    assert Sum(upTo, BalanceOf) == Sum(earlier, BalanceOf) + Sum(rest, BalanceOf);
    UpToSplits(rs, current);
    assert Sum(earlier, BalanceOf) == Arrears(rs, current);
    OnlyBillOfItsMonth(rs, current);
    assert rest == [current];
    assert Sum([current], BalanceOf) == current.Balance() + Sum([], BalanceOf);
  }

  /** Settling a bill with the offered amount makes its closing line say
      "PAID IN FULL" and clears its balance, so the total payable it
      announces is the earlier months' arrears alone. */
  lemma SettledBillIsPaidInFull(rs: seq<BillingRecord>, r: BillingRecord, tx: Transaction)
    requires r.Due() - r.Collected() >= 0
    ensures PaidInFull(Pay(r, r.Due() - r.Collected(), tx))
    ensures Pay(r, r.Due() - r.Collected(), tx).Balance() == 0
    ensures TotalPayable(rs, Pay(r, r.Due() - r.Collected(), tx)) == Arrears(rs, Pay(r, r.Due() - r.Collected(), tx))
  {
  }
}
