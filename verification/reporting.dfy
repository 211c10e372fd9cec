/** The dashboard: total revenue and the fixed-margin profit estimate, and
    three tables that sum sale totals by day, by Monday-to-Sunday week and by
    month, each keyed by a label and ordered by first appearance. */
module Reporting {
  import opened Text
  import opened Calendar
  import opened Ledger

  /** `sales.reduce((acc, s) => acc + s.total, 0)`. */
  function TotalRevenue(sales: seq<Sale>): real {
    if sales == [] then 0.0 else TotalRevenue(sales[..|sales| - 1]) + sales[|sales| - 1].total
  }

  /** Revenue adds up over any split of the sales. */
  lemma {:induction false} TotalRevenueAppend(a: seq<Sale>, b: seq<Sale>)
    ensures TotalRevenue(a + b) == TotalRevenue(a) + TotalRevenue(b)
  {
    if b != [] {
      assert (a + b)[..|a + b| - 1] == a + b[..|b| - 1];
      TotalRevenueAppend(a, b[..|b| - 1]);
    } else {
      assert a + b == a;
    }
  }

  /** The assumed margin: profit is estimated as 30% of revenue. */
  const ProfitMargin: real := 0.3

  function EstimatedProfit(revenue: real): real {
    revenue * ProfitMargin
  }

  // ---------------------------------------------------------------------
  // Grouping: a JavaScript object used as an insertion-ordered dictionary
  // ---------------------------------------------------------------------

  /** The object a grouping loop builds: its keys in insertion order, and the
      running sum under each key. */
  datatype Buckets = Buckets(keys: seq<string>, sums: map<string, real>)

  /** Every listed key has a sum. */
  predicate Covered(b: Buckets) {
    forall i :: 0 <= i < |b.keys| ==> b.keys[i] in b.sums
  }

  /** Moreover no key is listed twice. */
  predicate WellFormed(b: Buckets) {
    && Covered(b)
    && (forall i, j :: 0 <= i < j < |b.keys| ==> b.keys[i] != b.keys[j])
  }

  /** `obj[key] = (obj[key] || 0) + amount`: a known key keeps its place, a
      new key goes last. */
  function Accumulate(b: Buckets, key: string, amount: real): (r: Buckets)
    ensures key in r.sums && r.sums[key] == (if key in b.sums then b.sums[key] else 0.0) + amount
    ensures forall k :: k != key ==> (k in r.sums <==> k in b.sums) && (k in b.sums ==> r.sums[k] == b.sums[k])
    ensures r.keys == if key in b.sums then b.keys else b.keys + [key]
  {
    if key in b.sums then Buckets(b.keys, b.sums[key := b.sums[key] + amount])
    else Buckets(b.keys + [key], b.sums[key := amount])
  }

  /** The fold a `sales.forEach` grouping loop performs, under the key
      function `keyOf`. Each listed key has a sum, and there are never more
      buckets than sales. */
  function GroupBy(sales: seq<Sale>, keyOf: Sale -> string): (b: Buckets)
    ensures Covered(b) && |b.keys| <= |sales|
  {
    if sales == [] then Buckets([], map[])
    else
      var last := sales[|sales| - 1];
      Accumulate(GroupBy(sales[..|sales| - 1], keyOf), keyOf(last), last.total)
  }

  /** The keys of a grouping are distinct. */
  lemma {:induction false} GroupByWellFormed(sales: seq<Sale>, keyOf: Sale -> string)
    ensures WellFormed(GroupBy(sales, keyOf))
  {
    if sales != [] {
      var init := sales[..|sales| - 1];
      GroupByWellFormed(init, keyOf);
    }
  }

  /** The position of the first sale whose key is `k`, or `|sales|` if none. */
  function FirstIndex(sales: seq<Sale>, keyOf: Sale -> string, k: string): (r: nat)
    ensures r <= |sales|
    ensures r < |sales| ==> keyOf(sales[r]) == k
    ensures forall j :: 0 <= j < r ==> keyOf(sales[j]) != k
  {
    if sales == [] then 0
    else if keyOf(sales[0]) == k then 0
    else 1 + FirstIndex(sales[1..], keyOf, k)
  }

  lemma {:induction false} FirstIndexSnoc(sales: seq<Sale>, x: Sale, keyOf: Sale -> string, k: string)
    ensures FirstIndex(sales + [x], keyOf, k) ==
      if FirstIndex(sales, keyOf, k) < |sales| then FirstIndex(sales, keyOf, k)
      else if keyOf(x) == k then |sales| else |sales| + 1
  {
    if sales != [] {
      assert (sales + [x])[1..] == sales[1..] + [x];
      FirstIndexSnoc(sales[1..], x, keyOf, k);
    }
  }

  /** The sales whose key is `k`, in their order. */
  function SalesWithKey(sales: seq<Sale>, keyOf: Sale -> string, k: string): seq<Sale> {
    if sales == [] then []
    else
      var last := sales[|sales| - 1];
      SalesWithKey(sales[..|sales| - 1], keyOf, k) + (if keyOf(last) == k then [last] else [])
  }

  /** A key is listed, and has a sum, exactly when some sale has that key. */
  lemma {:induction false} GroupByMembers(sales: seq<Sale>, keyOf: Sale -> string, k: string)
    ensures k in GroupBy(sales, keyOf).keys <==> FirstIndex(sales, keyOf, k) < |sales|
    ensures k in GroupBy(sales, keyOf).sums <==> FirstIndex(sales, keyOf, k) < |sales|
  {
    if sales != [] {
      var init, x := sales[..|sales| - 1], sales[|sales| - 1];
      assert sales == init + [x];
      GroupByMembers(init, keyOf, k);
      FirstIndexSnoc(init, x, keyOf, k);
    }
  }

  /** The keys of a grouping come in the order of their first appearance
      among the sales. */
  lemma {:induction false} GroupByKeyOrder(sales: seq<Sale>, keyOf: Sale -> string)
    ensures var b := GroupBy(sales, keyOf);
      forall i, j :: 0 <= i < j < |b.keys| ==>
        FirstIndex(sales, keyOf, b.keys[i]) < FirstIndex(sales, keyOf, b.keys[j]) < |sales|
  {
    if sales != [] {
      var init, x := sales[..|sales| - 1], sales[|sales| - 1];
      assert sales == init + [x];
      GroupByKeyOrder(init, keyOf);
      var b0, b := GroupBy(init, keyOf), GroupBy(sales, keyOf);
      forall i, j | 0 <= i < j < |b.keys|
        ensures FirstIndex(sales, keyOf, b.keys[i]) < FirstIndex(sales, keyOf, b.keys[j]) < |sales|
      {
        FirstIndexSnoc(init, x, keyOf, b.keys[i]);
        FirstIndexSnoc(init, x, keyOf, b.keys[j]);
        GroupByMembers(init, keyOf, b.keys[i]);
        GroupByMembers(init, keyOf, b.keys[j]);
        if j == |b0.keys| {
          assert b.keys[i] == b0.keys[i];
        } else {
          assert b.keys[i] == b0.keys[i] && b.keys[j] == b0.keys[j];
        }
      }
    }
  }

  /** Each bucket holds the revenue of exactly the sales with its key. */
  lemma {:induction false} GroupBySum(sales: seq<Sale>, keyOf: Sale -> string, k: string)
    requires k in GroupBy(sales, keyOf).sums
    ensures GroupBy(sales, keyOf).sums[k] == TotalRevenue(SalesWithKey(sales, keyOf, k))
  {
    var init, x := sales[..|sales| - 1], sales[|sales| - 1];
    var b0 := GroupBy(init, keyOf);
    var w0 := SalesWithKey(init, keyOf, k);
    assert GroupBy(sales, keyOf) == Accumulate(b0, keyOf(x), x.total);
    if keyOf(x) == k {
      assert SalesWithKey(sales, keyOf, k) == w0 + [x];
      TotalRevenueAppend(w0, [x]);
      assert TotalRevenue([x]) == x.total by {
        assert [x][..0] == [];
      }
      if k in b0.sums {
        GroupBySum(init, keyOf, k);
      } else {
        GroupByMembers(init, keyOf, k);
        SalesWithKeyEmpty(init, keyOf, k);
      }
    } else {
      assert SalesWithKey(sales, keyOf, k) == w0 + [] == w0;
      assert k in b0.sums;
      GroupBySum(init, keyOf, k);
      assert GroupBy(sales, keyOf).sums[k] == b0.sums[k];
    }
  }

  /** A key no sale has selects no sale. */
  lemma {:induction false} SalesWithKeyEmpty(sales: seq<Sale>, keyOf: Sale -> string, k: string)
    requires FirstIndex(sales, keyOf, k) == |sales|
    ensures SalesWithKey(sales, keyOf, k) == []
  {
    if sales != [] {
      var init, x := sales[..|sales| - 1], sales[|sales| - 1];
      assert sales == init + [x];
      FirstIndexSnoc(init, x, keyOf, k);
      SalesWithKeyEmpty(init, keyOf, k);
    }
  }

  /** The sum of the buckets, in key order. */
  function SumOver(keys: seq<string>, sums: map<string, real>): real
    requires forall i :: 0 <= i < |keys| ==> keys[i] in sums
  {
    if keys == [] then 0.0 else SumOver(keys[..|keys| - 1], sums) + sums[keys[|keys| - 1]]
  }

  lemma {:induction false} SumOverUnrelated(keys: seq<string>, sums: map<string, real>, k: string, v: real)
    requires forall i :: 0 <= i < |keys| ==> keys[i] in sums
    requires k !in keys
    ensures SumOver(keys, sums[k := v]) == SumOver(keys, sums)
  {
    if keys != [] {
      SumOverUnrelated(keys[..|keys| - 1], sums, k, v);
    }
  }

  lemma {:induction false} SumOverAddTo(keys: seq<string>, sums: map<string, real>, k: string, v: real)
    requires forall i :: 0 <= i < |keys| ==> keys[i] in sums
    requires forall i, j :: 0 <= i < j < |keys| ==> keys[i] != keys[j]
    requires k in keys
    ensures SumOver(keys, sums[k := sums[k] + v]) == SumOver(keys, sums) + v
  {
    var init := keys[..|keys| - 1];
    if keys[|keys| - 1] == k {
      SumOverUnrelated(init, sums, k, sums[k] + v);
    } else {
      assert k in init by {
        var i :| 0 <= i < |keys| && keys[i] == k;
        assert init[i] == k;
      }
      SumOverAddTo(init, sums, k, v);
    }
  }

  /** One step of a grouping loop adds the sale's total to the bucket sum. */
  lemma AccumulateSum(b: Buckets, k: string, v: real)
    requires WellFormed(b) && (k in b.sums <==> k in b.keys)
    ensures Covered(Accumulate(b, k, v))
    ensures SumOver(Accumulate(b, k, v).keys, Accumulate(b, k, v).sums) == SumOver(b.keys, b.sums) + v
  {
    var b' := Accumulate(b, k, v);
    if k in b.sums {
      SumOverAddTo(b.keys, b.sums, k, v);
    } else {
      assert b'.keys[..|b'.keys| - 1] == b.keys;
      SumOverUnrelated(b.keys, b.sums, k, v);
    }
  }

  /** Conservation: the buckets of any grouping add up to the total revenue. */
  lemma {:induction false} GroupByConserves(sales: seq<Sale>, keyOf: Sale -> string)
    ensures var b := GroupBy(sales, keyOf); SumOver(b.keys, b.sums) == TotalRevenue(sales)
  {
    if sales != [] {
      var init, x := sales[..|sales| - 1], sales[|sales| - 1];
      GroupByConserves(init, keyOf);
      GroupByWellFormed(init, keyOf);
      GroupByMembers(init, keyOf, keyOf(x));
      AccumulateSum(GroupBy(init, keyOf), keyOf(x), x.total);
    }
  }

  // ---------------------------------------------------------------------
  // Report rows: `fillTable`
  // ---------------------------------------------------------------------

  datatype Row = Row(key: string, revenue: real, profit: real)

  /** The rows `fillTable` writes for a grouping, one per key in key order. */
  function Rows(b: Buckets): seq<Row>
    requires Covered(b)
  {
    seq(|b.keys|, i requires 0 <= i < |b.keys| => Row(b.keys[i], b.sums[b.keys[i]], EstimatedProfit(b.sums[b.keys[i]])))
  }

  function SumRevenue(rows: seq<Row>): real {
    if rows == [] then 0.0 else SumRevenue(rows[..|rows| - 1]) + rows[|rows| - 1].revenue
  }

  function SumProfit(rows: seq<Row>): real {
    if rows == [] then 0.0 else SumProfit(rows[..|rows| - 1]) + rows[|rows| - 1].profit
  }

  lemma {:induction false} RowsSum(keys: seq<string>, sums: map<string, real>)
    requires Covered(Buckets(keys, sums))
    ensures SumRevenue(Rows(Buckets(keys, sums))) == SumOver(keys, sums)
    ensures SumProfit(Rows(Buckets(keys, sums))) == EstimatedProfit(SumOver(keys, sums))
  {
    if keys != [] {
      var init := keys[..|keys| - 1];
      var rows := Rows(Buckets(keys, sums));
      RowsSum(init, sums);
      assert rows[..|rows| - 1] == Rows(Buckets(init, sums));
    }
  }

  /** Each table balances: its revenue column sums to the total revenue and
      its profit column to the estimated profit. */
  lemma TableTotals(sales: seq<Sale>, keyOf: Sale -> string)
    ensures var rows := Rows(GroupBy(sales, keyOf));
      && SumRevenue(rows) == TotalRevenue(sales)
      && SumProfit(rows) == EstimatedProfit(TotalRevenue(sales))
  {
    var b := GroupBy(sales, keyOf);
    RowsSum(b.keys, b.sums);
    GroupByConserves(sales, keyOf);
  }

  /** `fillTable`: one row per key in the object's key order, holding the
      bucket's revenue and 30% of it as profit. */
  method FillTable(b: Buckets) returns (rows: seq<Row>)
    requires Covered(b)
    ensures |rows| == |b.keys|
    ensures forall i :: 0 <= i < |rows| ==>
      rows[i].key == b.keys[i] && rows[i].revenue == b.sums[b.keys[i]]
      && rows[i].profit == EstimatedProfit(rows[i].revenue)
    ensures rows == Rows(b)
  {
    rows := [];
    for i := 0 to |b.keys|
      invariant |rows| == i
      invariant forall j :: 0 <= j < i ==> rows[j] == Rows(b)[j]
    {
      var key := b.keys[i];
      var total := b.sums[key];
      var profit := total * ProfitMargin;
      rows := rows + [Row(key, total, profit)];
    }
  }

  // ---------------------------------------------------------------------
  // The three keys
  // ---------------------------------------------------------------------

  /** The day key: `sale.date.split('T')[0]`. */
  function DayKey(date: string): string {
    BeforeFirst(date, 'T')
  }

  /** `formatDate`: DD/MM/YYYY, day and month padded to two digits, the year
      as `getFullYear()` prints it. */
  function FormatDate(c: Civil): string
    requires ValidCivil(c)
  {
    Padded(c.day, 2) + "/" + Padded(c.month, 2) + "/" + IntToString(c.year)
  }

  /** The week label: the Monday that starts the week and the Sunday six days
      later, both formatted, joined by " - ". */
  function WeekLabel(n: int): string {
    WeekRange(StartOfWeek(n))
  }

  /** The label of the week that starts on day `monday`. */
  function WeekRange(monday: int): string {
    FormatDate(CivilOf(monday)) + " - " + FormatDate(CivilOf(monday + 6))
  }

  /** The month key: the year, '-', and the month padded to two digits. */
  function MonthKey(c: Civil): string
    requires ValidCivil(c)
  {
    IntToString(c.year) + "-" + Padded(c.month, 2)
  }

  lemma TwoDigits(n: nat)
    requires 1 <= n <= 31
    ensures |Padded(n, 2)| == 2 && AllDigits(Padded(n, 2))
  {
    PaddedLength(n, 2);
  }

  /** Distinct valid dates are formatted differently. */
  lemma FormatDateInjective(c1: Civil, c2: Civil)
    requires ValidCivil(c1) && ValidCivil(c2)
    requires FormatDate(c1) == FormatDate(c2)
    ensures c1 == c2
  {
    var d1, m1, y1 := Padded(c1.day, 2), Padded(c1.month, 2), IntToString(c1.year);
    var d2, m2, y2 := Padded(c2.day, 2), Padded(c2.month, 2), IntToString(c2.year);
    TwoDigits(c1.day); TwoDigits(c1.month); TwoDigits(c2.day); TwoDigits(c2.month);
    EqualParts(d1 + "/" + m1 + "/", y1, d2 + "/" + m2 + "/", y2);
    EqualParts(d1 + "/" + m1, "/", d2 + "/" + m2, "/");
    EqualParts(d1 + "/", m1, d2 + "/", m2);
    EqualParts(d1, "/", d2, "/");
    PaddedInjective(c1.day, c2.day, 2);
    PaddedInjective(c1.month, c2.month, 2);
    IntToStringInjective(c1.year, c2.year);
  }

  lemma FormatDateHasNoSpace(c: Civil)
    requires ValidCivil(c)
    ensures ' ' !in FormatDate(c)
  {
    var d, m, y := Padded(c.day, 2), Padded(c.month, 2), IntToString(c.year);
    TwoDigits(c.day);
    TwoDigits(c.month);
    IntToStringHasNoSpace(c.year);
    assert ' ' !in d && ' ' !in m by {
      assert forall i :: 0 <= i < 2 ==> IsDigit(d[i]) && IsDigit(m[i]);
    }
    assert FormatDate(c) == d + "/" + m + "/" + y;
  }

  /** The text before the first space of a week label is the formatted
      Monday. */
  lemma WeekRangeHead(monday: int)
    ensures BeforeFirst(WeekRange(monday), ' ') == FormatDate(CivilOf(monday))
  {
    var c1, c2 := CivilOf(monday), CivilOf(monday + 6);
    RangeHead(c1, c2);
  }

  lemma RangeHead(c1: Civil, c2: Civil)
    requires ValidCivil(c1) && ValidCivil(c2)
    ensures BeforeFirst(FormatDate(c1) + " - " + FormatDate(c2), ' ') == FormatDate(c1)
  {
    FormatDateHasNoSpace(c1);
    BeforeFirstOfJoinWith(FormatDate(c1), ' ', " - ", FormatDate(c2));
  }

  /** Two local days get the same week label exactly when they fall in the
      same Monday-to-Sunday week. */
  lemma WeekLabelIff(a: int, b: int)
    ensures WeekLabel(a) == WeekLabel(b) <==> StartOfWeek(a) == StartOfWeek(b)
  {
    var sa, sb := StartOfWeek(a), StartOfWeek(b);
    if WeekLabel(a) == WeekLabel(b) {
      WeekRangeHead(sa);
      WeekRangeHead(sb);
      var ca, cb := CivilOf(sa), CivilOf(sb);
      assert FormatDate(ca) == FormatDate(cb);
      FormatDateInjective(ca, cb);
      CivilOfInjective(sa, sb);
    }
  }

  /** Two valid dates share a month key exactly when they share year and
      month. */
  lemma MonthKeyIff(c1: Civil, c2: Civil)
    requires ValidCivil(c1) && ValidCivil(c2)
    ensures MonthKey(c1) == MonthKey(c2) <==> c1.year == c2.year && c1.month == c2.month
  {
    if MonthKey(c1) == MonthKey(c2) {
      var y1, m1 := IntToString(c1.year), Padded(c1.month, 2);
      var y2, m2 := IntToString(c2.year), Padded(c2.month, 2);
      TwoDigits(c1.month);
      TwoDigits(c2.month);
      EqualParts(y1 + "-", m1, y2 + "-", m2);
      EqualParts(y1, "-", y2, "-");
      IntToStringInjective(c1.year, c2.year);
      PaddedInjective(c1.month, c2.month, 2);
    }
  }

  // ---------------------------------------------------------------------
  // The stored timestamp and its day key
  // ---------------------------------------------------------------------

  /** A UTC time of day, as `toISOString` writes it. */
  datatype TimeOfDay = TimeOfDay(hour: nat, minute: nat, second: nat, millis: nat)

  /** The clock readings `toISOString` can write. */
  predicate ValidTime(t: TimeOfDay) {
    t.hour < 24 && t.minute < 60 && t.second < 60 && t.millis < 1000
  }

  /** The RFC 3339 full-date: YYYY-MM-DD, the year padded to four digits. */
  function FullDate(c: Civil): string
    requires ValidCivil(c) && 0 <= c.year
  {
    Padded(c.year as nat, 4) + "-" + Padded(c.month, 2) + "-" + Padded(c.day, 2)
  }

  /** The RFC 3339 partial-time with milliseconds and the "Z" offset:
      HH:MM:SS.mmmZ. */
  function FullTime(t: TimeOfDay): string {
    Padded(t.hour, 2) + ":" + Padded(t.minute, 2) + ":" + Padded(t.second, 2) + "." + Padded(t.millis, 3) + "Z"
  }

  /** The text `toISOString` produces for an instant in the years 0..9999:
      the date-time form of section 5.6 of RFC 3339, full-date "T" time. */
  function IsoTimestamp(c: Civil, t: TimeOfDay): string
    requires ValidCivil(c) && 0 <= c.year <= 9999 && ValidTime(t)
  {
    FullDate(c) + "T" + FullTime(t)
  }

  /** The date part of a timestamp holds digits and '-' only. */
  lemma FullDateHasNoT(c: Civil)
    requires ValidCivil(c) && 0 <= c.year
    ensures 'T' !in FullDate(c)
  {
    var y, m, d := Padded(c.year as nat, 4), Padded(c.month, 2), Padded(c.day, 2);
    PaddedHasNoT(c.year as nat, 4);
    PaddedHasNoT(c.month, 2);
    PaddedHasNoT(c.day, 2);
    assert FullDate(c) == y + "-" + m + "-" + d;
  }

  lemma PaddedHasNoT(n: nat, width: nat)
    ensures 'T' !in Padded(n, width)
  {
    PaddedValue(n, width);
    DigitsExclude(Padded(n, width), 'T');
  }

  /** Distinct valid dates have distinct full-dates. */
  lemma FullDateInjective(c1: Civil, c2: Civil)
    requires ValidCivil(c1) && 0 <= c1.year && ValidCivil(c2) && 0 <= c2.year
    requires FullDate(c1) == FullDate(c2)
    ensures c1 == c2
  {
    var y1, m1, d1 := Padded(c1.year as nat, 4), Padded(c1.month, 2), Padded(c1.day, 2);
    var y2, m2, d2 := Padded(c2.year as nat, 4), Padded(c2.month, 2), Padded(c2.day, 2);
    TwoDigits(c1.day); TwoDigits(c1.month); TwoDigits(c2.day); TwoDigits(c2.month);
    EqualParts(y1 + "-" + m1 + "-", d1, y2 + "-" + m2 + "-", d2);
    EqualParts(y1 + "-" + m1, "-", y2 + "-" + m2, "-");
    EqualParts(y1 + "-", m1, y2 + "-", m2);
    EqualParts(y1, "-", y2, "-");
    PaddedInjective(c1.year as nat, c2.year as nat, 4);
    PaddedInjective(c1.month, c2.month, 2);
    PaddedInjective(c1.day, c2.day, 2);
  }

  /** The day key of a stored timestamp is its UTC full-date, whatever the
      time of day. */
  lemma DayKeyOfTimestamp(c: Civil, t: TimeOfDay)
    requires ValidCivil(c) && 0 <= c.year <= 9999 && ValidTime(t)
    ensures DayKey(IsoTimestamp(c, t)) == FullDate(c)
  {
    FullDateHasNoT(c);
    BeforeFirstOfJoin(FullDate(c), 'T', FullTime(t));
  }

  /** So two sales fall in the same daily bucket exactly when they were
      stamped on the same UTC date. */
  lemma DayKeyIff(c1: Civil, t1: TimeOfDay, c2: Civil, t2: TimeOfDay)
    requires ValidCivil(c1) && 0 <= c1.year <= 9999 && ValidTime(t1)
    requires ValidCivil(c2) && 0 <= c2.year <= 9999 && ValidTime(t2)
    ensures DayKey(IsoTimestamp(c1, t1)) == DayKey(IsoTimestamp(c2, t2)) <==> c1 == c2
  {
    DayKeyOfTimestamp(c1, t1);
    DayKeyOfTimestamp(c2, t2);
    if FullDate(c1) == FullDate(c2) {
      FullDateInjective(c1, c2);
    }
  }

  // ---------------------------------------------------------------------
  // The dashboard
  // ---------------------------------------------------------------------

  /** The daily bucket of a sale. */
  function DayOf(s: Sale): string {
    DayKey(s.date)
  }

  /** The weekly bucket of a sale; `localDay` stands for `new Date(text)`
      read in the local time zone, as a day number. */
  function WeekOf(localDay: string -> int): Sale -> string {
    (s: Sale) => WeekLabel(localDay(s.date))
  }

  /** The monthly bucket of a sale. */
  function MonthOf(localDay: string -> int): Sale -> string {
    (s: Sale) => MonthKey(CivilOf(localDay(s.date)))
  }

  /** The body of the weekly loop for one sale on local day `n`: find the
      Monday (which also moves `date` there), copy it, move the copy six
      days on, and format both. */
  method WeekLabelOf(n: int) returns (weekLabel: string)
    ensures weekLabel == WeekLabel(n)
  {
    var date := new LocalDate(n);
    var startOfWeek := GetStartOfWeek(date);
    var endOfWeek := SixDaysOn(startOfWeek);
    var first, last := startOfWeek.ToCivil(), endOfWeek.ToCivil();
    weekLabel := FormatDate(first) + " - " + FormatDate(last);
  }

  /** `new Date(startOfWeek)` followed by `setDate(getDate() + 6)`: a new
      date six days after the given one, which is left as it was. */
  method SixDaysOn(start: LocalDate) returns (end: LocalDate)
    ensures fresh(end) && end.dayNumber == start.dayNumber + 6
  {
    end := new LocalDate.Copy(start);
    end.SetDate(end.GetDate() + 6);
  }

  /** The body of the monthly loop for one sale on local day `n`: the year,
      '-', and the month counted from 1 and padded to two digits. */
  method MonthKeyOf(n: int) returns (month: string)
    ensures month == MonthKey(CivilOf(n))
  {
    var date := new LocalDate(n);
    month := IntToString(date.GetFullYear()) + "-" + Padded(date.GetMonth() + 1, 2);
  }

  /** What `updateDashboard` shows: the two totals and the three tables. */
  datatype Dashboard = Dashboard(
    totalSales: real, totalProfit: real,
    daily: seq<Row>, weekly: seq<Row>, monthly: seq<Row>)

  /** One more sale is one more accumulation step. */
  lemma GroupByStep(sales: seq<Sale>, i: nat, keyOf: Sale -> string)
    requires i < |sales|
    ensures GroupBy(sales[..i + 1], keyOf) ==
      Accumulate(GroupBy(sales[..i], keyOf), keyOf(sales[i]), sales[i].total)
  {
    assert sales[..i + 1][..i] == sales[..i];
  }

  /** The daily loop: `dailySales[day] = (dailySales[day] || 0) + sale.total`
      for every sale in order. */
  method DailySales(sales: seq<Sale>) returns (dailySales: Buckets)
    ensures dailySales == GroupBy(sales, DayOf)
  {
    dailySales := Buckets([], map[]);
    for i := 0 to |sales|
      invariant dailySales == GroupBy(sales[..i], DayOf)
    {
      var sale := sales[i];
      var day := DayKey(sale.date);
      GroupByStep(sales, i, DayOf);
      dailySales := Accumulate(dailySales, day, sale.total);
    }
    assert sales[..|sales|] == sales;
  }

  /** The weekly loop, keyed by the label of each sale's local week. */
  method WeeklySales(sales: seq<Sale>, localDay: string -> int) returns (weeklySales: Buckets)
    ensures weeklySales == GroupBy(sales, WeekOf(localDay))
  {
    weeklySales := Buckets([], map[]);
    for i := 0 to |sales|
      invariant weeklySales == GroupBy(sales[..i], WeekOf(localDay))
    {
      var sale := sales[i];
      var weekLabel := WeekLabelOf(localDay(sale.date));
      GroupByStep(sales, i, WeekOf(localDay));
      weeklySales := Accumulate(weeklySales, weekLabel, sale.total);
    }
    assert sales[..|sales|] == sales;
  }

  /** The monthly loop, keyed by each sale's local year and month. */
  method MonthlySales(sales: seq<Sale>, localDay: string -> int) returns (monthlySales: Buckets)
    ensures monthlySales == GroupBy(sales, MonthOf(localDay))
  {
    monthlySales := Buckets([], map[]);
    for i := 0 to |sales|
      invariant monthlySales == GroupBy(sales[..i], MonthOf(localDay))
    {
      var sale := sales[i];
      var month := MonthKeyOf(localDay(sale.date));
      GroupByStep(sales, i, MonthOf(localDay));
      monthlySales := Accumulate(monthlySales, month, sale.total);
    }
    assert sales[..|sales|] == sales;
  }

  /** `updateDashboard`: the revenue and profit totals, then the three
      grouping loops, each followed by `fillTable`. */
  method UpdateDashboard(sales: seq<Sale>, localDay: string -> int) returns (d: Dashboard)
    ensures d.totalSales == TotalRevenue(sales)
    ensures d.totalProfit == EstimatedProfit(TotalRevenue(sales))
    ensures d.daily == Rows(GroupBy(sales, DayOf))
    ensures d.weekly == Rows(GroupBy(sales, WeekOf(localDay)))
    ensures d.monthly == Rows(GroupBy(sales, MonthOf(localDay)))
  {
    var totalSales := TotalRevenue(sales);
    var totalProfit := totalSales * ProfitMargin;
    var dailySales := DailySales(sales);
    var daily := FillTable(dailySales);
    var weeklySales := WeeklySales(sales, localDay);
    var weekly := FillTable(weeklySales);
    var monthlySales := MonthlySales(sales, localDay);
    var monthly := FillTable(monthlySales);
    d := Dashboard(totalSales, totalProfit, daily, weekly, monthly);
  }
}
