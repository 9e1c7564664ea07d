/** The Revenue page: every payment transaction of both collections as one
    flat list, newest first; the date-range, search and type filter over it;
    the total of what is shown; and the CSV export of the shown rows. */
module Revenue {
  import opened Wrappers
  import opened Types
  import opened Strings
  import opened Seqs
  import opened Sorting
  import opened Calendar
  import opened JsDates

  // ---------------------------------------------------------------------
  // Amounts

  /** The value of the run of digits `s` starts with, read after the
      digits already read into `acc`. */
  function DigitRunValue(s: string, acc: int): int
  {
    if s == [] || !IsDigit(s[0]) then acc else DigitRunValue(s[1..], acc * 10 + DigitValue(s[0]))
  }

  /** `parseFloat(t)` on whole numbers: leading white space is skipped,
      then an optional sign and the longest run of digits is read; no
      digit there is NaN. */
  function ParseFloatText(t: string): Option<int>
  {
    var s := TrimStart(t);
    var signed := s != [] && (s[0] == '-' || s[0] == '+');
    var body := if signed then s[1..] else s;
    if body == [] || !IsDigit(body[0]) then None
    else if signed && s[0] == '-' then Some(-DigitRunValue(body, 0))
    else Some(DigitRunValue(body, 0))
  }

  /** `(typeof amount === 'string' ? parseFloat(amount) : amount) || 0`. */
  function AmountOf(a: TxAmount): (n: int)
    ensures a.Num? ==> n == a.n
    ensures a.Text? && ParseFloatText(a.text).None? ==> n == 0
  {
    match a
    case Num(v) => v
    case Text(t) => ParseFloatText(t).GetOr(0)
  }

  /** An amount stored as the text of a whole number counts as that number. */
  lemma AmountOfNumberText(n: int)
    ensures AmountOf(Text(IntToString(n))) == n
  {
    var t := NatToString(if n < 0 then -n else n);
    NatRoundTrip(if n < 0 then -n else n);
    if n < 0 {
      assert IntToString(n) == "-" + t;
      ParseFloatNegative(t);
    } else {
      assert IntToString(n) == t;
      ParseFloatDigits(t);
    }
  }

  /** A run of digits reads as its value. */
  lemma ParseFloatDigits(t: string)
    requires |t| >= 1 && AllDigits(t)
    ensures ParseFloatText(t) == Some(DigitsValue(t) as int)
  {
    assert IsDigit(t[0]);
    assert TrimStart(t) == t;
    DigitRunOfAll(t);
  }

  /** A minus sign then a run of digits reads as the negated value. */
  lemma ParseFloatNegative(t: string)
    requires |t| >= 1 && AllDigits(t)
    ensures ParseFloatText("-" + t) == Some(-(DigitsValue(t) as int))
  {
    assert TrimStart("-" + t) == "-" + t;
    assert ("-" + t)[1..] == t;
    assert IsDigit(t[0]);
    DigitRunOfAll(t);
  }

  lemma DigitRunOfAll(t: string)
    requires AllDigits(t)
    ensures DigitRunValue(t, 0) == DigitsValue(t)
  {
    DigitRunOfDigits([], t);
    assert [] + t == t;
  }

  /** Reading a whole run of digits after the digits of `p` gives the
      value of both runs together. */
  lemma {:induction false} DigitRunOfDigits(p: string, t: string)
    requires AllDigits(p) && AllDigits(t)
    ensures DigitRunValue(t, DigitsValue(p)) == DigitsValue(p + t)
    decreases |t|
  {
    if t == [] {
      assert p + t == p;
    } else {
      var p1 := p + [t[0]];
      assert p1[..|p1| - 1] == p;
      assert DigitsValue(p1) == DigitsValue(p) * 10 + DigitValue(t[0]);
      DigitRunOfDigits(p1, t[1..]);
      assert p1 + t[1..] == p + t;
    }
  }

  // ---------------------------------------------------------------------
  // Flattening

  /** A transaction with the fields of its record: the spread transaction,
      its amount as a number, the collection it came from, the record's shop
      number, owner and month, and its parsed date in milliseconds. */
  datatype FlatTx = FlatTx(
    tx: Transaction,
    amount: int,
    kind: Kind,
    shopNumber: string,
    ownerName: string,
    monthBill: string,
    time: int)

  /** `parseDate` as the closure the page calls; `native` is the runtime's
      own date parse, which is not part of this model. */
  function ParseDateWith(native: string -> Option<int>): string -> int
  {
    (s: string) => DateOf(s, native(s))
  }

  /** The entry for transaction `t` of record `r`, dated by `parse`. */
  function Flat(kind: Kind, r: BillingRecord, t: Transaction, parse: string -> int): FlatTx
  {
    FlatTx(t, AmountOf(t.amount), kind, r.shopNumber, r.ownerName, r.month, parse(t.date))
  }

  /** The entries of some of a record's transactions, in their order. */
  function FlattenTxs(kind: Kind, r: BillingRecord, txs: seq<Transaction>, parse: string -> int)
    : seq<FlatTx>
  {
    if txs == [] then []
    else FlattenTxs(kind, r, txs[..|txs| - 1], parse) + [Flat(kind, r, txs[|txs| - 1], parse)]
  }

  /** One entry per transaction, in the transactions' order. */
  lemma {:induction false} FlattenTxsEntries(kind: Kind, r: BillingRecord, txs: seq<Transaction>, parse: string -> int)
    ensures |FlattenTxs(kind, r, txs, parse)| == |txs|
    ensures forall j :: 0 <= j < |txs| ==> FlattenTxs(kind, r, txs, parse)[j] == Flat(kind, r, txs[j], parse)
  {
    if txs != [] {
      FlattenTxsEntries(kind, r, txs[..|txs| - 1], parse);
    }
  }

  /** A record whose transactions are missing contributes nothing. */
  function FlattenRecord(kind: Kind, r: BillingRecord, parse: string -> int): seq<FlatTx>
  {
    match r.transactions
    case None => []
    case Some(txs) => FlattenTxs(kind, r, txs, parse)
  }

  /** The number of transactions a record holds. */
  function TxCount(r: BillingRecord): int
  {
    |r.Txs()|
  }

  /** The entries of a collection, record by record: one entry per
      transaction of every record. */
  function Flatten(kind: Kind, rs: seq<BillingRecord>, parse: string -> int): (f: seq<FlatTx>)
    ensures |f| == Sum(rs, TxCount)
  {
    if rs == [] then []
    else
      var init, last := rs[..|rs| - 1], rs[|rs| - 1];
      FlattenTxsEntries(kind, last, last.Txs(), parse);
      assert init + [last] == rs;
      SumAppend(init, [last], TxCount);
      assert Sum([last], TxCount) == TxCount(last) + Sum([], TxCount);
      Flatten(kind, init, parse) + FlattenRecord(kind, last, parse)
  }

  /** An entry is in the flat list exactly when it is the entry of some
      transaction of some record. */
  lemma FlattenMembers(kind: Kind, rs: seq<BillingRecord>, parse: string -> int, x: FlatTx)
    ensures x in Flatten(kind, rs, parse)
            <==> exists i, j :: 0 <= i < |rs| && 0 <= j < |rs[i].Txs()| && x == Flat(kind, rs[i], rs[i].Txs()[j], parse)
  {
    if x in Flatten(kind, rs, parse) {
      var i, j := FlattenSource(kind, rs, parse, x);
    }
    if exists i, j :: 0 <= i < |rs| && 0 <= j < |rs[i].Txs()| && x == Flat(kind, rs[i], rs[i].Txs()[j], parse) {
      var i, j :| 0 <= i < |rs| && 0 <= j < |rs[i].Txs()| && x == Flat(kind, rs[i], rs[i].Txs()[j], parse);
      FlattenHas(kind, rs, parse, i, j);
    }
  }

  /** Every entry comes from a transaction of a record. */
  lemma {:induction false} FlattenSource(kind: Kind, rs: seq<BillingRecord>, parse: string -> int, x: FlatTx)
    returns (i: nat, j: nat)
    requires x in Flatten(kind, rs, parse)
    ensures i < |rs| && j < |rs[i].Txs()| && x == Flat(kind, rs[i], rs[i].Txs()[j], parse)
  {
    var init, last := rs[..|rs| - 1], rs[|rs| - 1];
    if x in Flatten(kind, init, parse) {
      i, j := FlattenSource(kind, init, parse, x);
      assert rs[i] == init[i];
    } else {
      var flat := FlattenTxs(kind, last, last.Txs(), parse);
      assert x in flat;
      FlattenTxsEntries(kind, last, last.Txs(), parse);
      j :| 0 <= j < |flat| && flat[j] == x;
      i := |rs| - 1;
    }
  }

  /** Every transaction of every record has its entry. */
  lemma {:induction false} FlattenHas(kind: Kind, rs: seq<BillingRecord>, parse: string -> int, i: nat, j: nat)
    requires i < |rs| && j < |rs[i].Txs()|
    ensures Flat(kind, rs[i], rs[i].Txs()[j], parse) in Flatten(kind, rs, parse)
  {
    var init, last := rs[..|rs| - 1], rs[|rs| - 1];
    if i < |rs| - 1 {
      assert rs[i] == init[i];
      FlattenHas(kind, init, parse, i, j);
    } else {
      FlattenTxsEntries(kind, last, last.Txs(), parse);
      assert FlattenTxs(kind, last, last.Txs(), parse)[j] in FlattenRecord(kind, last, parse);
    }
  }

  /** `(a, b) => b.rawDate.getTime() - a.rawDate.getTime()`: `a` may stay
      before `b` when it is not older. */
  predicate NewestFirst(a: FlatTx, b: FlatTx)
  {
    b.time <= a.time
  }

  lemma NewestFirstIsTotalPreorder()
    ensures IsTotalPreorder(NewestFirst)
  {
  }

  /** `allTransactions`: the rent entries, then the maintenance entries,
      pushed one transaction at a time and sorted newest first. */
  method AllTransactions(rent: seq<BillingRecord>, maintenance: seq<BillingRecord>, native: string -> Option<int>)
    returns (all: seq<FlatTx>)
    ensures var parse := ParseDateWith(native);
            all == SortBy(Flatten(Rent, rent, parse) + Flatten(Maintenance, maintenance, parse), NewestFirst)
    ensures SortedBy(all, NewestFirst)
    ensures var parse := ParseDateWith(native);
            multiset(all) == multiset(Flatten(Rent, rent, parse) + Flatten(Maintenance, maintenance, parse))
  {
    var parse := ParseDateWith(native);
    var flat := PushTransactions([], Rent, rent, parse);
    assert flat == Flatten(Rent, rent, parse);
    flat := PushTransactions(flat, Maintenance, maintenance, parse);
    all := SortBy(flat, NewestFirst);
    NewestFirstIsTotalPreorder();
    SortBySorted(flat, NewestFirst);
  }

  /** One `forEach` over a collection, pushing an entry per transaction. */
  method PushTransactions(flat: seq<FlatTx>, kind: Kind, rs: seq<BillingRecord>, parse: string -> int)
    returns (out: seq<FlatTx>)
    ensures out == flat + Flatten(kind, rs, parse)
  {
    out := flat;
    for i := 0 to |rs|
      invariant out == flat + Flatten(kind, rs[..i], parse)
    {
      FlattenNext(kind, rs, i, parse);
      AppendAssoc(flat, Flatten(kind, rs[..i], parse), FlattenRecord(kind, rs[i], parse));
      out := PushRecord(out, kind, rs[i], parse);
    }
    assert rs[..|rs|] == rs;
  }

  lemma FlattenNext(kind: Kind, rs: seq<BillingRecord>, i: nat, parse: string -> int)
    requires i < |rs|
    ensures Flatten(kind, rs[..i + 1], parse) == Flatten(kind, rs[..i], parse) + FlattenRecord(kind, rs[i], parse)
  {
    assert rs[..i + 1][..i] == rs[..i];
  }

  /** The inner `forEach` over one record's transactions, when it has them. */
  method PushRecord(flat: seq<FlatTx>, kind: Kind, record: BillingRecord, parse: string -> int)
    returns (out: seq<FlatTx>)
    ensures out == flat + FlattenRecord(kind, record, parse)
  {
    out := flat;
    if record.transactions.Some? {
      var txs := record.transactions.value;
      for j := 0 to |txs|
        invariant out == flat + FlattenTxs(kind, record, txs[..j], parse)
      {
        var t := txs[j];
        var time := parse(t.date);
        AppendAssoc(flat, FlattenTxs(kind, record, txs[..j], parse), [Flat(kind, record, t, parse)]);
        out := out + [FlatTx(t, AmountOf(t.amount), kind, record.shopNumber, record.ownerName, record.month, time)];
        assert txs[..j + 1][..j] == txs[..j];
      }
      assert txs[..|txs|] == txs;
    }
  }

  // ---------------------------------------------------------------------
  // Filtering

  datatype TypeFilter = AllTypes | OnlyKind(kind: Kind)

  /** `txDate >= start && txDate <= end`: an invalid bound compares false. */
  predicate InRange(t: int, start: Option<int>, end: Option<int>)
  {
    start.Some? && end.Some? && start.value <= t <= end.value
  }

  /** The search on the lower-cased query `q`: shop number, owner or
      collector contain it, or the note is present and contains it. */
  predicate MatchesSearch(x: FlatTx, q: string)
  {
    || Includes(Lower(x.shopNumber), q)
    || Includes(Lower(x.ownerName), q)
    || Includes(Lower(x.tx.collectedBy), q)
    || (x.tx.note != "" && Includes(Lower(x.tx.note), q))
  }

  predicate MatchesType(x: FlatTx, tf: TypeFilter)
  {
    tf.AllTypes? || x.kind == tf.kind
  }

  /** The filter's predicate, with the range ends and the query computed
      once as the page does. */
  function Kept(start: Option<int>, end: Option<int>, q: string, tf: TypeFilter): FlatTx -> bool
  {
    (x: FlatTx) => x.time > 0 && InRange(x.time, start, end) && MatchesSearch(x, q) && MatchesType(x, tf)
  }

  /** `filteredTransactions` */
  function FilteredTransactions(all: seq<FlatTx>, startDate: string, endDate: string, searchQuery: string,
                                tf: TypeFilter): (shown: seq<FlatTx>)
    ensures forall x :: x in shown <==>
              && x in all
              && x.time > 0
              && InRange(x.time, DayStart(startDate), DayEnd(endDate))
              && MatchesSearch(x, Lower(searchQuery))
              && MatchesType(x, tf)
    ensures |shown| <= |all|
  {
    Filter(all, Kept(DayStart(startDate), DayEnd(endDate), Lower(searchQuery), tf))
  }

  /** The empty query matches every entry. */
  lemma EmptySearchMatches(x: FlatTx)
    ensures MatchesSearch(x, Lower(""))
  {
    IncludesEmpty(Lower(x.shopNumber));
  }

  /** With one day picked as both ends, no search and every type, the list
      shows exactly the valid entries dated that day. */
  lemma OneDayShown(all: seq<FlatTx>, year: nat, month0: int, day: int)
    requires 0 <= month0 <= 11 && 1 <= day <= 31
    ensures var d := LocalDateString(year, month0, day);
            forall x :: x in FilteredTransactions(all, d, d, "", AllTypes) <==>
              && x in all
              && x.time > 0
              && DateValue(year, month0, day, 0, 0, 0, 0) <= x.time <= DateValue(year, month0, day, 23, 59, 59, 999)
  {
    LocalDayBounds(year, month0, day);
    forall x: FlatTx {
      EmptySearchMatches(x);
    }
  }

  /** Every transaction made on the picked day is shown, at whatever time
      of that day it was made. */
  lemma TransactionOfTheDayShown(all: seq<FlatTx>, x: FlatTx, year: nat, month0: int, day: int,
                                 h: int, mi: int, s: int, ms: int)
    requires 0 <= month0 <= 11 && 1 <= day <= 31
    requires 0 <= h < 24 && 0 <= mi < 60 && 0 <= s < 60 && 0 <= ms < 1000
    requires x in all && x.time == DateValue(year, month0, day, h, mi, s, ms) && x.time > 0
    ensures var d := LocalDateString(year, month0, day);
            x in FilteredTransactions(all, d, d, "", AllTypes)
  {
    OneDayShown(all, year, month0, day);
    SameDayWindow(year, month0, day, h, mi, s, ms);
  }

  // ---------------------------------------------------------------------
  // Total

  function AmountOfEntry(x: FlatTx): int { x.amount }

  /** `totalRevenue`: the sum of the shown amounts. */
  function TotalRevenue(shown: seq<FlatTx>): (total: int)
    ensures (forall i :: 0 <= i < |shown| ==> shown[i].amount >= 0) ==> total >= 0
  {
    SumNonNegativeWhen(shown);
    Sum(shown, AmountOfEntry)
  }

  lemma SumNonNegativeWhen(shown: seq<FlatTx>)
    ensures (forall i :: 0 <= i < |shown| ==> shown[i].amount >= 0) ==> Sum(shown, AmountOfEntry) >= 0
  {
    if forall i :: 0 <= i < |shown| ==> shown[i].amount >= 0 {
      SumNonNegative(shown, AmountOfEntry);
    }
  }

  function IsKind(k: Kind): FlatTx -> bool
  {
    (x: FlatTx) => x.kind == k
  }

  /** Under the same dates and search, the total over all types is the
      rent total plus the maintenance total. */
  lemma TotalSplitsByType(all: seq<FlatTx>, startDate: string, endDate: string, searchQuery: string)
    ensures TotalRevenue(FilteredTransactions(all, startDate, endDate, searchQuery, AllTypes))
            == TotalRevenue(FilteredTransactions(all, startDate, endDate, searchQuery, OnlyKind(Rent)))
               + TotalRevenue(FilteredTransactions(all, startDate, endDate, searchQuery, OnlyKind(Maintenance)))
  {
    var start, end, q := DayStart(startDate), DayEnd(endDate), Lower(searchQuery);
    var shown := Filter(all, Kept(start, end, q, AllTypes));
    FilterFilterBoth(all, Kept(start, end, q, AllTypes), IsKind(Rent), Kept(start, end, q, OnlyKind(Rent)));
    FilterFilterBoth(all, Kept(start, end, q, AllTypes), IsKind(Maintenance), Kept(start, end, q, OnlyKind(Maintenance)));
    SumPartition(shown, AmountOfEntry, IsKind(Rent), IsKind(Maintenance));
  }

  // ---------------------------------------------------------------------
  // Export

  const ExportHeaders: seq<string> := ["Date", "Type", "Shop No", "Owner", "Amount", "Collected By", "Note"]

  function KindName(k: Kind): string
  {
    match k
    case Rent => "Rent"
    case Maintenance => "Maintenance"
  }

  /** The seven fields of an entry's row, one per header; date, owner and
      note are quoted, a missing note is empty. */
  function ExportRow(x: FlatTx): (row: seq<string>)
    ensures |row| == |ExportHeaders|
    ensures row[0] == "\"" + x.tx.date + "\"" && row[3] == "\"" + x.ownerName + "\""
    ensures row[6] == "\"" + x.tx.note + "\""
    ensures row[1] == KindName(x.kind) && row[2] == x.shopNumber && row[5] == x.tx.collectedBy
    ensures ParseIntText(row[4]) == Some(x.amount)
  {
    IntRoundTrip(x.amount);
    ["\"" + x.tx.date + "\"", KindName(x.kind), x.shopNumber, "\"" + x.ownerName + "\"",
     IntToString(x.amount), x.tx.collectedBy, "\"" + x.tx.note + "\""]
  }

  /** An entry the export carries: the quoted date, owner and note hold no
      quote or line break, and the unquoted shop number and collector no
      comma, quote or line break. */
  predicate ExportSafe(x: FlatTx)
  {
    && QuotableText(x.tx.date) && QuotableText(x.ownerName) && QuotableText(x.tx.note)
    && PlainText(x.shopNumber) && PlainText(x.tx.collectedBy)
  }

  /** A safe entry's line has no line break and, split as CSV, gives back
      its row. */
  lemma ExportLineReadsBack(x: FlatTx)
    requires ExportSafe(x)
    ensures '\n' !in Join(ExportRow(x), ",")
    ensures SplitCsv(Join(ExportRow(x), ",")) == ExportRow(x)
  {
    var row := ExportRow(x);
    IntTextPlain(x.amount);
    assert PlainText(KindName(x.kind));
    QuotedField(x.tx.date);
    PlainField(row[1]);
    PlainField(row[2]);
    QuotedField(x.ownerName);
    PlainField(row[4]);
    PlainField(row[5]);
    QuotedField(x.tx.note);
    forall k | 0 <= k < |row|
      ensures CsvField(row[k]) && '\n' !in row[k]
    {
    }
    JoinExcludes(row, ",", '\n');
    SplitCsvJoin(row);
  }

  datatype ExportError = NoRecordsMatch

  /** `handleExport`: refused when nothing is shown; otherwise the header
      line and one line per shown entry, in the shown order. */
  function ExportLines(shown: seq<FlatTx>): (res: Result<seq<string>, ExportError>)
    ensures res.Err? <==> shown == []
    ensures res.Ok? ==> |res.value| == |shown| + 1 && res.value[0] == Join(ExportHeaders, ",")
    ensures res.Ok? ==> forall i :: 0 <= i < |shown| ==> res.value[i + 1] == Join(ExportRow(shown[i]), ",")
  {
    if shown == [] then Err(NoRecordsMatch)
    else
      var body := seq(|shown|, i requires 0 <= i < |shown| => Join(ExportRow(shown[i]), ","));
      assert forall i :: 0 <= i < |shown| ==> ([Join(ExportHeaders, ",")] + body)[i + 1] == body[i];
      Ok([Join(ExportHeaders, ",")] + body)
  }

  /** The CSV text of an export that was not refused. */
  function ExportCsv(shown: seq<FlatTx>): Option<string>
  {
    match ExportLines(shown)
    case Ok(lines) => Some(Join(lines, "\n"))
    case Err(_) => None
  }

  lemma ExportHeaderReadsBack()
    ensures '\n' !in Join(ExportHeaders, ",")
    ensures SplitCsv(Join(ExportHeaders, ",")) == ExportHeaders
  {
    forall k | 0 <= k < |ExportHeaders|
      ensures CsvField(ExportHeaders[k]) && '\n' !in ExportHeaders[k]
    {
      assert PlainText(ExportHeaders[k]);
    }
    JoinExcludes(ExportHeaders, ",", '\n');
    SplitCsvJoin(ExportHeaders);
  }

  /** An export that was not refused reads back as the header line and one
      row per shown entry, field by field, when every entry is safe. */
  lemma ExportCsvReadsBack(shown: seq<FlatTx>)
    requires forall i :: 0 <= i < |shown| ==> ExportSafe(shown[i])
    ensures ExportCsv(shown).Some? <==> shown != []
    ensures ExportCsv(shown).Some? ==>
              |Split(ExportCsv(shown).value, '\n')| == |shown| + 1
              && SplitCsv(Split(ExportCsv(shown).value, '\n')[0]) == ExportHeaders
    ensures ExportCsv(shown).Some? ==> forall i :: 0 <= i < |shown| ==>
              SplitCsv(Split(ExportCsv(shown).value, '\n')[i + 1]) == ExportRow(shown[i])
  {
    if shown != [] {
      var lines := ExportLines(shown).value;
      assert ExportCsv(shown) == Some(Join(lines, "\n"));
      ExportHeaderReadsBack();
      forall j | 0 <= j < |lines|
        ensures '\n' !in lines[j]
        ensures j > 0 ==> SplitCsv(lines[j]) == ExportRow(shown[j - 1])
      {
        if j > 0 {
          ExportLineReadsBack(shown[j - 1]);
        }
      }
      SplitJoin(lines, '\n');
    }
  }
}
