/** What the Rent and the Maintenance pages derive from a collection: the
    month view with its search and status filter, the export shop picker and
    the export itself, the default payment amount, the floor label and the
    year-grouped payment history of one shop. The two pages run the same
    logic on their own collection. */
module CollectionPage {
  import opened Wrappers
  import opened Types
  import opened Strings
  import opened Seqs
  import opened Sorting
  import opened Billing
  import opened Store

  // ---------------------------------------------------------------------
  // Month view

  /** A shop's status in the month view: its bill's status, or
      'Not Generated' when it has no bill for the month. */
  datatype ViewStatus = Billed(status: BillStatus) | NotGenerated

  datatype Entry = Entry(shop: Shop, record: Option<BillingRecord>, status: ViewStatus)

  /** The status drop-down: 'All', or one status to keep. */
  datatype StatusFilter = AllStatuses | OnlyStatus(wanted: ViewStatus)

  predicate IsOccupied(s: Shop) { s.status == Occupied }

  /** Index of the first bill for (shop, month). */
  function FirstBill(rs: seq<BillingRecord>, shopId: string, month: string): (k: Option<nat>)
    ensures k.None? <==> forall i :: 0 <= i < |rs| ==> !(rs[i].shopId == shopId && rs[i].month == month)
    ensures k.Some? ==> k.value < |rs| && rs[k.value].shopId == shopId && rs[k.value].month == month
    ensures k.Some? ==> forall i :: 0 <= i < k.value ==> !(rs[i].shopId == shopId && rs[i].month == month)
  {
    if rs == [] then None
    else if rs[0].shopId == shopId && rs[0].month == month then Some(0)
    else match FirstBill(rs[1..], shopId, month)
      case None => None
      case Some(j) => Some(j + 1)
  }

  /** `records.find(r => r.shopId === shopId && r.month === month)` */
  function FindBill(rs: seq<BillingRecord>, shopId: string, month: string): (r: Option<BillingRecord>)
    ensures r.None? <==> !HasBill(rs, shopId, month)
    ensures r.Some? ==> r.value in rs && r.value.shopId == shopId && r.value.month == month
    ensures r.Some? ==> FirstBill(rs, shopId, month).Some? && r.value == rs[FirstBill(rs, shopId, month).value]
  {
    match FirstBill(rs, shopId, month)
    case Some(k) => Some(rs[k])
    case None => None
  }

  function EntryFor(shop: Shop, rs: seq<BillingRecord>, month: string): Entry
  {
    var record := FindBill(rs, shop.id, month);
    Entry(shop, record, if record.Some? then Billed(record.value.status) else NotGenerated)
  }

  /** `processedList`: one entry per Occupied shop, in directory order, with
      the first bill for (shop, month) and its status, or 'Not Generated'. */
  function MonthView(shops: seq<Shop>, rs: seq<BillingRecord>, month: string): (v: seq<Entry>)
    ensures |v| == |Filter(shops, IsOccupied)|
    ensures forall i :: 0 <= i < |v| ==> v[i].shop == Filter(shops, IsOccupied)[i]
    ensures forall e :: e in v ==> e.shop in shops && e.shop.status == Occupied
    ensures forall e :: e in v ==> (e.status == NotGenerated <==> !HasBill(rs, e.shop.id, month))
    ensures forall e :: e in v ==> e.record == FindBill(rs, e.shop.id, month)
    ensures forall e :: e in v && e.record.Some? ==> e.status == Billed(e.record.value.status)
  {
    var occupied := Filter(shops, IsOccupied);
    seq(|occupied|, i requires 0 <= i < |occupied| => EntryFor(occupied[i], rs, month))
  }

  /** Every Occupied shop has an entry in the month view. */
  lemma MonthViewCoversOccupied(shops: seq<Shop>, rs: seq<BillingRecord>, month: string, s: Shop)
    requires s in shops && s.status == Occupied
    ensures exists e :: e in MonthView(shops, rs, month) && e.shop == s
  {
    var occupied := Filter(shops, IsOccupied);
    var v := MonthView(shops, rs, month);
    assert s in occupied;
    var i :| 0 <= i < |occupied| && occupied[i] == s;
    assert v[i] in v && v[i].shop == s;
  }

  /** The search box: shop number or owner name contain the lower-cased
      query ignoring case, or the phone contains it as typed. */
  predicate MatchesSearch(shop: Shop, query: string)
  {
    var q := Lower(query);
    Includes(Lower(shop.shopNumber), q) || Includes(Lower(shop.ownerName), q) || Includes(shop.phone, q)
  }

  /** The case of the letters in the query and in the shop number and owner
      name does not matter. */
  lemma SearchIgnoresCase(shop: Shop, query: string)
    ensures MatchesSearch(shop, query) == MatchesSearch(shop, Lower(query))
    ensures MatchesSearch(shop, query)
            == MatchesSearch(shop.(shopNumber := Lower(shop.shopNumber), ownerName := Lower(shop.ownerName)), query)
  {
    LowerIdempotent(query);
    LowerIdempotent(shop.shopNumber);
    LowerIdempotent(shop.ownerName);
  }

  predicate StatusMatches(filter: StatusFilter, status: ViewStatus)
  {
    filter.AllStatuses? || filter.wanted == status
  }

  /** `filteredList` */
  function FilteredList(view: seq<Entry>, query: string, filter: StatusFilter): (r: seq<Entry>)
    ensures forall e :: e in r <==> e in view && MatchesSearch(e.shop, query) && StatusMatches(filter, e.status)
    ensures filter.OnlyStatus? ==> forall e :: e in r ==> e.status == filter.wanted
  {
    Filter(view, (e: Entry) => MatchesSearch(e.shop, query) && StatusMatches(filter, e.status))
  }

  /** An empty query with 'All' shows the whole month view. */
  lemma FilteredListKeepsAll(view: seq<Entry>)
    ensures FilteredList(view, "", AllStatuses) == view
  {
    forall i | 0 <= i < |view|
      ensures MatchesSearch(view[i].shop, "") && StatusMatches(AllStatuses, view[i].status)
    {
      IncludesEmpty(Lower(view[i].shop.shopNumber));
    }
    FilterKeepsAll(view, (e: Entry) => MatchesSearch(e.shop, "") && StatusMatches(AllStatuses, e.status));
  }

  /** `filteredExportShops`: the export picker's list under its own search. */
  function ExportShops(shops: seq<Shop>, query: string): (r: seq<Shop>)
    ensures forall s :: s in r <==> s in shops && MatchesSearch(s, query)
    ensures |r| <= |shops|
  {
    Filter(shops, (s: Shop) => MatchesSearch(s, query))
  }

  // ---------------------------------------------------------------------
  // Export selection

  /** The picker's selection after a click on `id` ("all" is the
      select-all entry). */
  function Toggled(sel: seq<string>, id: string): (r: seq<string>)
    ensures id == "all" ==> ("all" in r <==> "all" !in sel) && |r| <= 1
    ensures id != "all" ==> "all" !in r
    ensures id != "all" ==> (id in r <==> "all" in sel || id !in sel)
    ensures id != "all" && "all" in sel ==> r == [id]
    ensures id != "all" && "all" !in sel ==> forall x :: x != id ==> (x in r <==> x in sel)
    ensures id != "all" && "all" !in sel && id !in sel ==> r == sel + [id]
  {
    if id == "all" then (if "all" in sel then [] else ["all"])
    else if "all" in sel then [id]
    else if id in sel then RemoveAll(sel, id)
    else sel + [id]
  }

  /** `toggleShopSelection` as the page runs it, step by step: copy, clear
      when "all" was on, then remove or push the id. `Toggled` is its
      specification, and the lemmas about the selection are stated on it. */
  method ToggleShopSelection(sel: seq<string>, id: string) returns (r: seq<string>)
    ensures r == Toggled(sel, id)
  {
    if id == "all" {
      if "all" in sel {
        r := [];
      } else {
        r := ["all"];
      }
    } else {
      var newSelection := sel;
      if "all" in newSelection {
        newSelection := [];
      }
      if id in newSelection {
        newSelection := RemoveAll(newSelection, id);
      } else {
        newSelection := newSelection + [id];
      }
      r := newSelection;
    }
  }

  /** Clicking the same shop twice restores the selection's members, and
      restores the selection itself when the shop was not in it. */
  lemma ToggleTwice(sel: seq<string>, id: string)
    requires id != "all" && "all" !in sel
    ensures forall x :: x in Toggled(Toggled(sel, id), id) <==> x in sel
    ensures id !in sel ==> Toggled(Toggled(sel, id), id) == sel
  {
    if id !in sel {
      RemoveAllAppended(sel, id);
    }
  }

  // ---------------------------------------------------------------------
  // Export

  /** A record goes into the export when it has a month inside the range
      (string order, both ends included) and its shop is selected. */
  predicate InExport(r: BillingRecord, startMonth: string, endMonth: string, sel: seq<string>)
  {
    r.month != "" && LexLeq(startMonth, r.month) && LexLeq(r.month, endMonth)
    && ("all" in sel || r.shopId in sel)
  }

  datatype ExportError = NoRecordsFound

  /** `handleExport`'s selection: the records in collection order, or an
      error and no file when none qualifies. */
  function ExportRecords(rs: seq<BillingRecord>, startMonth: string, endMonth: string, sel: seq<string>)
    : (res: Result<seq<BillingRecord>, ExportError>)
    ensures res.Err? <==> forall r :: r in rs ==> !InExport(r, startMonth, endMonth, sel)
    ensures res.Ok? ==> res.value != []
    ensures res.Ok? ==> forall r :: r in res.value <==> r in rs && InExport(r, startMonth, endMonth, sel)
  {
    var data := Filter(rs, (r: BillingRecord) => InExport(r, startMonth, endMonth, sel));
    if data == [] then Err(NoRecordsFound)
    else
      assert data[0] in data;
      Ok(data)
  }

  /** A range whose end comes before its start exports nothing. */
  lemma ExportEmptyRange(rs: seq<BillingRecord>, startMonth: string, endMonth: string, sel: seq<string>)
    requires LexLess(endMonth, startMonth)
    ensures ExportRecords(rs, startMonth, endMonth, sel).Err?
  {
    forall r | r in rs
      ensures !InExport(r, startMonth, endMonth, sel)
    {
      LexLeqOrder(startMonth, r.month, endMonth);
      LexTrichotomy(startMonth, endMonth);
    }
  }

  const Headers: seq<string> :=
    ["Month", "Shop No", "Owner", "Phone", "Total Due", "Collected", "Balance", "Status", "Due Date", "Transactions"]

  /** A number in a joined row; a missing one is rendered empty. */
  function OptionalNumberText(v: Option<int>): string
  {
    match v
    case Some(n) => IntToString(n)
    case None => ""
  }

  function TxAmountText(a: TxAmount): string
  {
    match a
    case Num(n) => IntToString(n)
    case Text(t) => t
  }

  function StatusText(s: BillStatus): string
  {
    match s
    case Paid => "Paid"
    case Partial => "Partial"
    case Pending => "Pending"
    case Overdue => "Overdue"
  }

  /** One transaction in the export's last column. */
  function TxDetail(t: Transaction): string
  {
    t.date + " (Rs." + TxAmountText(t.amount) + ") by " + t.collectedBy
  }

  function TxDetails(ts: seq<Transaction>): (d: seq<string>)
    ensures |d| == |ts| && forall i :: 0 <= i < |ts| ==> d[i] == TxDetail(ts[i])
  {
    seq(|ts|, i requires 0 <= i < |ts| => TxDetail(ts[i]))
  }

  /** The ten fields of a record's export row, one per header. */
  function ExportRow(r: BillingRecord): (row: seq<string>)
    ensures |row| == |Headers|
    ensures row[0] == r.month && row[1] == r.shopNumber && row[3] == r.phone && row[8] == r.dueDate
    ensures row[2] == "\"" + r.ownerName + "\""
    ensures row[4] == OptionalNumberText(r.amount) && row[5] == OptionalNumberText(r.collected)
    ensures row[6] == IntToString(r.Due() - r.Collected())
    ensures row[7] == StatusText(r.status)
    ensures row[9] == "\"" + Join(TxDetails(r.Txs()), "; ") + "\""
  {
    [r.month, r.shopNumber, "\"" + r.ownerName + "\"", r.phone,
     OptionalNumberText(r.amount), OptionalNumberText(r.collected), IntToString(r.Balance()),
     StatusText(r.status), r.dueDate, "\"" + Join(TxDetails(r.Txs()), "; ") + "\""]
  }

  /** The number columns read back as the amount and the collected sum
      (empty when missing) and as the balance, amount less collected. */
  lemma ExportRowNumbers(r: BillingRecord)
    ensures r.amount.Some? ==> ParseIntText(ExportRow(r)[4]) == Some(r.amount.value)
    ensures r.amount.None? ==> ExportRow(r)[4] == ""
    ensures r.collected.Some? ==> ParseIntText(ExportRow(r)[5]) == Some(r.collected.value)
    ensures r.collected.None? ==> ExportRow(r)[5] == ""
    ensures ParseIntText(ExportRow(r)[6]) == Some(r.Due() - r.Collected())
  {
    IntRoundTrip(r.Due() - r.Collected());
    if r.amount.Some? {
      IntRoundTrip(r.amount.value);
    }
    if r.collected.Some? {
      IntRoundTrip(r.collected.value);
    }
  }

  function ExportLine(r: BillingRecord): string
  {
    Join(ExportRow(r), ",")
  }

  /** The header line, then one line per record. */
  function ExportLines(records: seq<BillingRecord>): (lines: seq<string>)
    ensures |lines| == |records| + 1
    ensures lines[0] == Join(Headers, ",")
    ensures forall i :: 0 <= i < |records| ==> lines[i + 1] == ExportLine(records[i])
  {
    var body := seq(|records|, i requires 0 <= i < |records| => ExportLine(records[i]));
    var lines := [Join(Headers, ",")] + body;
    assert forall i :: 0 <= i < |records| ==> lines[i + 1] == body[i];
    lines
  }

  /** The CSV text. */
  function ExportCsv(records: seq<BillingRecord>): string
  {
    Join(ExportLines(records), "\n")
  }

  predicate QuotableTx(t: Transaction)
  {
    QuotableText(t.date) && QuotableText(t.collectedBy) && (t.amount.Text? ==> QuotableText(t.amount.text))
  }

  /** A record whose row the CSV carries: plain month, shop number, phone
      and due date; owner and transactions free of quotes and line breaks.
      Payment dates such as `15/10/2024, 3:45:07 pm` keep their comma. */
  predicate CsvSafe(r: BillingRecord)
  {
    && PlainText(r.month) && PlainText(r.shopNumber) && PlainText(r.phone) && PlainText(r.dueDate)
    && QuotableText(r.ownerName)
    && forall t :: t in r.Txs() ==> QuotableTx(t)
  }

  lemma OptionalNumberPlain(v: Option<int>)
    ensures PlainText(OptionalNumberText(v))
  {
    if v.Some? {
      IntTextPlain(v.value);
    }
  }

  lemma TxDetailQuotable(t: Transaction)
    requires QuotableTx(t)
    ensures QuotableText(TxDetail(t))
  {
    if t.amount.Num? {
      IntTextPlain(t.amount.n);
    }
    var a := TxAmountText(t.amount);
    assert TxDetail(t) == t.date + " (Rs." + a + ") by " + t.collectedBy;
    assert QuotableText(" (Rs.") && QuotableText(") by ");
  }

  /** The transactions column's text is quotable when each transaction is. */
  lemma DetailsQuotable(ts: seq<Transaction>)
    requires forall t :: t in ts ==> QuotableTx(t)
    ensures QuotableText(Join(TxDetails(ts), "; "))
  {
    var details := TxDetails(ts);
    forall i | 0 <= i < |details|
      ensures '"' !in details[i] && '\n' !in details[i]
    {
      assert ts[i] in ts;
      TxDetailQuotable(ts[i]);
    }
    JoinExcludes(details, "; ", '"');
    JoinExcludes(details, "; ", '\n');
  }

  /** Every field of a safe record's row reads back whole and has no line
      break. */
  lemma RowFieldsSafe(r: BillingRecord)
    requires CsvSafe(r)
    ensures forall k :: 0 <= k < |ExportRow(r)| ==> CsvField(ExportRow(r)[k]) && '\n' !in ExportRow(r)[k]
  {
    var row := ExportRow(r);
    OptionalNumberPlain(r.amount);
    OptionalNumberPlain(r.collected);
    IntTextPlain(r.Balance());
    assert PlainText(StatusText(r.status));
    PlainField(row[0]);
    PlainField(row[1]);
    QuotedField(r.ownerName);
    PlainField(row[3]);
    PlainField(row[4]);
    PlainField(row[5]);
    PlainField(row[6]);
    PlainField(row[7]);
    PlainField(row[8]);
    DetailsQuotable(r.Txs());
    QuotedField(Join(TxDetails(r.Txs()), "; "));
    forall k | 0 <= k < |row|
      ensures CsvField(row[k]) && '\n' !in row[k]
    {
    }
  }

  /** A safe record's line has no line break and splits back into its row. */
  lemma LineReadsBack(r: BillingRecord)
    requires CsvSafe(r)
    ensures '\n' !in ExportLine(r)
    ensures SplitCsv(ExportLine(r)) == ExportRow(r)
  {
    RowFieldsSafe(r);
    JoinExcludes(ExportRow(r), ",", '\n');
    SplitCsvJoin(ExportRow(r));
  }

  lemma HeaderReadsBack()
    ensures '\n' !in Join(Headers, ",")
    ensures SplitCsv(Join(Headers, ",")) == Headers
  {
    forall k | 0 <= k < |Headers|
      ensures CsvField(Headers[k]) && '\n' !in Headers[k]
    {
      assert PlainText(Headers[k]);
    }
    JoinExcludes(Headers, ",", '\n');
    SplitCsvJoin(Headers);
  }

  /** The CSV reads back as the header line followed by the records' rows,
      field by field, when every record is safe. */
  lemma ExportCsvReadsBack(records: seq<BillingRecord>)
    requires forall i :: 0 <= i < |records| ==> CsvSafe(records[i])
    ensures |Split(ExportCsv(records), '\n')| == |records| + 1
    ensures SplitCsv(Split(ExportCsv(records), '\n')[0]) == Headers
    ensures forall i :: 0 <= i < |records| ==>
              SplitCsv(Split(ExportCsv(records), '\n')[i + 1]) == ExportRow(records[i])
  {
    var lines := ExportLines(records);
    HeaderReadsBack();
    forall j | 0 <= j < |lines|
      ensures '\n' !in lines[j]
      ensures j > 0 ==> SplitCsv(lines[j]) == ExportRow(records[j - 1])
    {
      if j > 0 {
        LineReadsBack(records[j - 1]);
      }
    }
    SplitJoin(lines, '\n');
  }

  /** Recording a payment with a quotable transaction keeps a record
      exportable. */
  lemma PaymentKeepsCsvSafe(r: BillingRecord, amount: int, tx: Transaction)
    requires CsvSafe(r) && QuotableTx(tx)
    ensures CsvSafe(Pay(r, amount, tx))
  {
  }

  // ---------------------------------------------------------------------
  // Payment form

  /** `Math.max(0, amount - collected)`: what the payment form offers. */
  function PayDefault(r: BillingRecord): (d: int)
    ensures d >= 0 && d >= r.Due() - r.Collected()
    ensures d == 0 || d == r.Due() - r.Collected()
  {
    if r.Due() - r.Collected() > 0 then r.Due() - r.Collected() else 0
  }

  /** Accepting the offered amount settles the bill. */
  lemma PayDefaultSettles(r: BillingRecord, tx: Transaction)
    ensures Pay(r, PayDefault(r), tx).status == Paid
    ensures Pay(r, PayDefault(r), tx).Collected() == (if r.Collected() >= r.Due() then r.Collected() else r.Due())
  {
  }

  // ---------------------------------------------------------------------
  // Floor label

  /** The value handed to `formatFloor`: the stored floor number, or a
      floor name. */
  datatype FloorValue = FloorNumber(n: int) | FloorName(name: string)

  function FormatFloor(f: FloorValue): (text: string)
    ensures text == "Lower Ground" <==> f == FloorName("Basement") || f == FloorName("Lower Ground")
    ensures text == "Ground Floor" <==> f == FloorName("Ground")
    ensures f.FloorNumber? ==> text == "Floor " + IntToString(f.n)
    ensures f.FloorName? && f.name !in {"Basement", "Lower Ground", "Ground"} ==> text == "Floor " + f.name
  {
    match f
    case FloorName(name) =>
      if name == "Basement" || name == "Lower Ground" then "Lower Ground"
      else if name == "Ground" then "Ground Floor"
      else
        assert ("Floor " + name)[0] == 'F';
        "Floor " + name
    case FloorNumber(n) =>
      assert ("Floor " + IntToString(n))[0] == 'F';
      "Floor " + IntToString(n)
  }

  // ---------------------------------------------------------------------
  // Payment history of one shop

  /** `month.split('-')[0]` */
  function YearOf(month: string): (y: string)
    ensures '-' !in y
    ensures StartsWith(month, y)
    ensures |y| == |month| || month[|y|] == '-'
  {
    var p := Before(month, '-');
    assert |p| == |month| ==> p == month;
    Split(month, '-')[0]
  }

  /** The records of one shop (`records.filter(r => r.shopId === shopId)`). */
  function ShopRecords(rs: seq<BillingRecord>, shopId: string): (r: seq<BillingRecord>)
    ensures forall x :: x in r <==> x in rs && x.shopId == shopId
  {
    Filter(rs, (x: BillingRecord) => x.shopId == shopId)
  }

  /** `r` has a month and it lies in year `y`. */
  predicate InYearOf(r: BillingRecord, y: string)
  {
    r.month != "" && YearOf(r.month) == y
  }

  function InYear(y: string): BillingRecord -> bool
  {
    (r: BillingRecord) => InYearOf(r, y)
  }

  /** The records with a month in year `y`, in collection order. */
  function YearGroup(rs: seq<BillingRecord>, y: string): (g: seq<BillingRecord>)
    ensures forall r :: r in g <==> r in rs && r.month != "" && YearOf(r.month) == y
  {
    Filter(rs, InYear(y))
  }

  lemma NewerOrSameTotal()
    ensures IsTotalPreorder(NewerOrSame)
  {
    NewerOrSameIsTotalPreorder();
  }

  lemma LexLeqIsTotalPreorder()
    ensures IsTotalPreorder(LexLeq)
  {
    forall a: string, b: string, c: string
      ensures LexLeq(a, b) || LexLeq(b, a)
      ensures LexLeq(a, b) && LexLeq(b, c) ==> LexLeq(a, c)
    {
      LexLeqOrder(a, b, c);
    }
  }

  /** A history group holds exactly the shop's records of that year, newest
      month first. */
  lemma HistoryGroupContents(rs: seq<BillingRecord>, shopId: string, y: string)
    ensures forall r :: r in SortBy(YearGroup(ShopRecords(rs, shopId), y), NewerOrSame) <==>
              r in rs && r.shopId == shopId && r.month != "" && YearOf(r.month) == y
    ensures SortedBy(SortBy(YearGroup(ShopRecords(rs, shopId), y), NewerOrSame), NewerOrSame)
  {
    var g := YearGroup(ShopRecords(rs, shopId), y);
    var s := SortBy(g, NewerOrSame);
    forall r ensures r in s <==> r in g {
      assert r in s <==> r in multiset(s);
      assert r in g <==> r in multiset(g);
    }
    NewerOrSameIsTotalPreorder();
    SortBySorted(g, NewerOrSame);
  }

  /** One more record joins the group of year `y` exactly when it lies in
      that year. */
  lemma YearGroupPush(rs: seq<BillingRecord>, r: BillingRecord, y: string)
    ensures YearGroup(rs + [r], y) == YearGroup(rs, y) + (if InYearOf(r, y) then [r] else [])
  {
    FilterAppend(rs, [r], InYear(y));
    assert Filter([r], InYear(y)) == (if InYearOf(r, y) then [r] else []) + Filter([], InYear(y));
  }

  /** The year dictionary after visiting `rs` in order: a record with a
      month is pushed onto its year's list, which is created empty the first
      time the year occurs. */
  function GroupedByYear(rs: seq<BillingRecord>): map<string, seq<BillingRecord>>
  {
    if rs == [] then map[]
    else
      var groups := GroupedByYear(rs[..|rs| - 1]);
      var r := rs[|rs| - 1];
      if r.month == "" then groups
      else
        var y := YearOf(r.month);
        groups[y := (if y in groups then groups[y] else []) + [r]]
  }

  /** The dictionary's keys in the order they were created. */
  function YearsSeen(rs: seq<BillingRecord>): seq<string>
  {
    if rs == [] then []
    else
      var prefix := rs[..|rs| - 1];
      var r := rs[|rs| - 1];
      if r.month == "" || YearOf(r.month) in GroupedByYear(prefix) then YearsSeen(prefix)
      else YearsSeen(prefix) + [YearOf(r.month)]
  }

  /** The dictionary partitions the dated records by year: its keys are the
      years that occur, once each, and each key holds exactly that year's
      records in their original order. */
  lemma GroupedByYearPartitions(rs: seq<BillingRecord>)
    ensures forall y :: y in GroupedByYear(rs) <==> y in YearsSeen(rs)
    ensures Distinct(YearsSeen(rs))
    ensures forall y :: y in GroupedByYear(rs) ==> GroupedByYear(rs)[y] == YearGroup(rs, y) && GroupedByYear(rs)[y] != []
    ensures forall y :: y !in GroupedByYear(rs) ==> YearGroup(rs, y) == []
  {
    YearsSeenAreKeys(rs);
    GroupsAreYearGroups(rs);
  }

  /** The keys in creation order are the dictionary's keys, once each. */
  lemma {:induction false} YearsSeenAreKeys(rs: seq<BillingRecord>)
    ensures forall y :: y in GroupedByYear(rs) <==> y in YearsSeen(rs)
    ensures Distinct(YearsSeen(rs))
  {
    if rs != [] {
      var prefix := rs[..|rs| - 1];
      var r := rs[|rs| - 1];
      YearsSeenAreKeys(prefix);
      var groups := GroupedByYear(prefix);
      if r.month == "" {
        assert GroupedByYear(rs) == groups && YearsSeen(rs) == YearsSeen(prefix);
      } else if YearOf(r.month) in groups {
        assert YearsSeen(rs) == YearsSeen(prefix);
      } else {
        assert YearsSeen(rs) == YearsSeen(prefix) + [YearOf(r.month)];
      }
    }
  }

  /** Each key holds its year's records; a year without a key has none. */
  lemma {:induction false} GroupsAreYearGroups(rs: seq<BillingRecord>)
    ensures GroupsMatch(GroupedByYear(rs), rs)
  {
    if rs != [] {
      var prefix := rs[..|rs| - 1];
      var r := rs[|rs| - 1];
      assert rs == prefix + [r];
      GroupsAreYearGroups(prefix);
      if r.month == "" {
        GroupsMatchUndated(GroupedByYear(prefix), prefix, r);
      } else {
        GroupsMatchDated(GroupedByYear(prefix), prefix, r, YearOf(r.month));
      }
    }
  }

  /** `groups` holds, under each key, that year's records of `rs`, and no
      dated record of `rs` lacks its key. */
  ghost predicate GroupsMatch(groups: map<string, seq<BillingRecord>>, rs: seq<BillingRecord>)
  {
    (forall y :: y in groups ==> groups[y] == YearGroup(rs, y) && groups[y] != []) &&
    (forall y :: y !in groups ==> YearGroup(rs, y) == [])
  }

  /** A record without a month leaves the dictionary matched as it is. */
  lemma GroupsMatchUndated(groups: map<string, seq<BillingRecord>>, rs: seq<BillingRecord>, r: BillingRecord)
    requires GroupsMatch(groups, rs) && r.month == ""
    ensures GroupsMatch(groups, rs + [r])
  {
    forall y ensures YearGroup(rs + [r], y) == YearGroup(rs, y) {
      YearGroupPush(rs, r, y);
    }
  }

  /** A record of year `year` pushed onto that year's list (created empty
      if absent) keeps the dictionary matched. */
  lemma GroupsMatchDated(groups: map<string, seq<BillingRecord>>, rs: seq<BillingRecord>, r: BillingRecord, year: string)
    requires GroupsMatch(groups, rs) && InYearOf(r, year)
    ensures GroupsMatch(groups[year := (if year in groups then groups[year] else []) + [r]], rs + [r])
  {
    var grown := groups[year := (if year in groups then groups[year] else []) + [r]];
    forall y | y in grown ensures grown[y] == YearGroup(rs + [r], y) && grown[y] != [] {
      YearGroupPush(rs, r, y);
    }
    forall y | y !in grown ensures YearGroup(rs + [r], y) == [] {
      YearGroupPush(rs, r, y);
    }
  }

  /** Filling the year dictionary record by record (`forEach` with `push`). */
  method GroupByYear(all: seq<BillingRecord>) returns (keys: seq<string>, groups: map<string, seq<BillingRecord>>)
    ensures keys == YearsSeen(all) && groups == GroupedByYear(all)
  {
    groups := map[];
    keys := [];
    for i := 0 to |all|
      invariant keys == YearsSeen(all[..i]) && groups == GroupedByYear(all[..i])
    {
      var r := all[i];
      assert all[..i + 1][..i] == all[..i];
      if r.month != "" {
        var y := YearOf(r.month);
        if y !in groups {
          groups := groups[y := []];
          keys := keys + [y];
        }
        groups := groups[y := groups[y] + [r]];
      }
    }
    assert all[..|all|] == all;
  }

  /** Sorting keeps the keys, and sorting distinct keys in string order
      leaves each strictly before the next. */
  lemma SortedKeys(keys: seq<string>)
    requires Distinct(keys)
    ensures forall y :: y in SortBy(keys, LexLeq) <==> y in keys
    ensures forall i, j :: 0 <= i < j < |SortBy(keys, LexLeq)| ==>
              LexLess(SortBy(keys, LexLeq)[i], SortBy(keys, LexLeq)[j])
  {
    var ascending := SortBy(keys, LexLeq);
    forall y ensures y in ascending <==> y in keys {
      assert y in ascending <==> y in multiset(ascending);
      assert y in keys <==> y in multiset(keys);
    }
    LexLeqIsTotalPreorder();
    SortBySorted(keys, LexLeq);
    SameElementsDistinct(keys, ascending);
    forall i, j | 0 <= i < j < |ascending|
      ensures LexLess(ascending[i], ascending[j])
    {
      LexLeqOrder(ascending[i], ascending[j], ascending[j]);
    }
  }

  /** `Object.keys(...).sort().reverse()`: distinct keys come out strictly
      descending, each exactly once. */
  lemma YearsDescending(keys: seq<string>)
    requires Distinct(keys)
    ensures forall y :: y in Reverse(SortBy(keys, LexLeq)) <==> y in keys
    ensures forall i, j :: 0 <= i < j < |Reverse(SortBy(keys, LexLeq))| ==>
              LexLess(Reverse(SortBy(keys, LexLeq))[j], Reverse(SortBy(keys, LexLeq))[i])
  {
    var ascending := SortBy(keys, LexLeq);
    var years := Reverse(ascending);
    SortedKeys(keys);
    forall i, j | 0 <= i < j < |years|
      ensures LexLess(years[j], years[i])
    {
      var n := |ascending|;
      assert years[j] == ascending[n - 1 - j] && years[i] == ascending[n - 1 - i];
    }
  }

  /** `years.forEach(y => recordsByYear[y].sort(...))` */
  method SortGroups(groups: map<string, seq<BillingRecord>>, years: seq<string>)
    returns (byYear: map<string, seq<BillingRecord>>)
    requires Distinct(years)
    requires forall y :: y in years ==> y in groups
    ensures forall y :: y in byYear <==> y in groups
    ensures forall y :: y in byYear ==> byYear[y] == if y in years then SortBy(groups[y], NewerOrSame) else groups[y]
  {
    byYear := groups;
    for j := 0 to |years|
      invariant forall y :: y in byYear <==> y in groups
      invariant forall y :: y in byYear && y in years[..j] ==> byYear[y] == SortBy(groups[y], NewerOrSame)
      invariant forall y :: y in byYear && y !in years[..j] ==> byYear[y] == groups[y]
    {
      var y := years[j];
      assert years[..j + 1] == years[..j] + [y];
      assert y !in years[..j];
      byYear := byYear[y := SortBy(byYear[y], NewerOrSame)];
    }
    assert years[..|years|] == years;
  }

  /** `shopHistory`: the selected record's shop's records that have a month,
      grouped by year, each group sorted newest month first, and the year
      keys sorted and reversed. */
  method ShopHistory(records: seq<BillingRecord>, selected: Option<BillingRecord>)
    returns (years: seq<string>, byYear: map<string, seq<BillingRecord>>)
    ensures selected.None? ==> years == [] && byYear == map[]
    ensures forall y :: y in byYear <==> y in years
    ensures forall i, j :: 0 <= i < j < |years| ==> LexLess(years[j], years[i])
    ensures selected.Some? ==> forall y :: y in byYear <==>
              exists r :: r in records && r.shopId == selected.value.shopId && r.month != "" && YearOf(r.month) == y
    ensures selected.Some? ==> forall y :: y in byYear ==>
              byYear[y] == SortBy(YearGroup(ShopRecords(records, selected.value.shopId), y), NewerOrSame)
  {
    if selected.None? {
      return [], map[];
    }
    var all := ShopRecords(records, selected.value.shopId);
    var keys, groups := GroupByYear(all);
    GroupedByYearPartitions(all);
    years := Reverse(SortBy(keys, LexLeq));
    YearsDescending(keys);
    assert Distinct(years) by {
      forall i, j | 0 <= i < j < |years| ensures years[i] != years[j] {
        LexTrichotomy(years[j], years[i]);
      }
    }
    byYear := SortGroups(groups, years);
    forall y
      ensures y in byYear <==> exists r :: r in records && r.shopId == selected.value.shopId
                                           && r.month != "" && YearOf(r.month) == y
    {
      if y in byYear {
        var r := groups[y][0];
        assert r in YearGroup(all, y);
      }
      if r :| r in records && r.shopId == selected.value.shopId && r.month != "" && YearOf(r.month) == y {
        assert r in YearGroup(all, y);
      }
    }
  }
}
