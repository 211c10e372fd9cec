/** Worked instances of the ledger and the reports on concrete dates and
    amounts. */
module Scenarios {
  import opened Wrappers
  import opened Text
  import opened Calendar
  import opened Ledger
  import opened Reporting

  /** 1 January 2024, a Monday, is day 19723 after 1970-01-01. */
  lemma NewYear2024()
    ensures DaysFromCivil(Civil(2024, 1, 1)) == 19723 && Weekday(19723) == 1
  {
  }

  /** Day 19723 and the six days after it are 1 to 7 January 2024. */
  lemma FirstWeekOf2024()
    ensures CivilOf(19723) == Civil(2024, 1, 1) && CivilOf(19729) == Civil(2024, 1, 7)
  {
    NewYear2024();
    FirstWeekDays(19723);
  }

  lemma FirstWeekDays(monday: int)
    requires monday == DaysFromCivil(Civil(2024, 1, 1))
    ensures CivilOf(monday) == Civil(2024, 1, 1) && CivilOf(monday + 6) == Civil(2024, 1, 7)
  {
    var first, seventh := Civil(2024, 1, 1), Civil(2024, 1, 7);
    assert DaysFromCivil(seventh) == monday + 6;
    CivilOfDaysFromCivil(first);
    CivilOfDaysFromCivil(seventh);
  }

  /** A sale on Monday 2024-01-01 and one on Sunday 2024-01-07 share the
      weekly bucket "01/01/2024 - 07/01/2024". */
  lemma SameWeekExample()
    ensures WeekLabel(19723) == "01/01/2024 - 07/01/2024"
    ensures WeekLabel(19729) == WeekLabel(19723)
  {
    NewYear2024();
    SameWeekOf(19723, 19729);
  }

  lemma SameWeekOf(monday: int, sunday: int)
    requires monday == DaysFromCivil(Civil(2024, 1, 1)) && sunday == monday + 6
    ensures WeekLabel(monday) == "01/01/2024 - 07/01/2024"
    ensures WeekLabel(sunday) == WeekLabel(monday)
  {
    FirstWeekStart(monday);
    FirstWeekRange(monday);
    SameStartSameLabel(monday, sunday, monday);
  }

  lemma SameStartSameLabel(a: int, b: int, m: int)
    requires StartOfWeek(a) == m && StartOfWeek(b) == m
    ensures WeekLabel(a) == WeekRange(m) && WeekLabel(b) == WeekRange(m)
  {
  }

  lemma FirstWeekStart(monday: int)
    requires monday == DaysFromCivil(Civil(2024, 1, 1))
    ensures StartOfWeek(monday) == monday && StartOfWeek(monday + 6) == monday
  {
    NewYear2024();
    StartOfWeekUnique(monday, monday);
    StartOfWeekUnique(monday + 6, monday);
  }

  lemma FirstWeekRange(monday: int)
    requires monday == DaysFromCivil(Civil(2024, 1, 1))
    ensures WeekRange(monday) == "01/01/2024 - 07/01/2024"
  {
    FirstWeekDays(monday);
    FirstWeekLabel(monday);
  }

  lemma FirstWeekLabel(monday: int)
    requires CivilOf(monday) == Civil(2024, 1, 1) && CivilOf(monday + 6) == Civil(2024, 1, 7)
    ensures WeekRange(monday) == "01/01/2024 - 07/01/2024"
  {
    var a, b := FormatDate(CivilOf(monday)), FormatDate(CivilOf(monday + 6));
    assert WeekRange(monday) == a + " - " + b;
    FirstWeekDates();
    FirstWeekText(a, b);
  }

  lemma FirstWeekText(a: string, b: string)
    requires a == "01/01/2024" && b == "07/01/2024"
    ensures a + " - " + b == "01/01/2024 - 07/01/2024"
  {
  }

  lemma FirstWeekDates()
    ensures FormatDate(Civil(2024, 1, 1)) == "01/01/2024"
    ensures FormatDate(Civil(2024, 1, 7)) == "07/01/2024"
  {
    MondayForm();
    SundayForm();
  }

  lemma MondayForm()
    ensures FormatDate(Civil(2024, 1, 1)) == "01/01/2024"
  {
    assert Padded(1, 2) == "01";
    assert IntToString(2024) == "2024";
    MondayText(Padded(1, 2), IntToString(2024));
  }

  lemma SundayForm()
    ensures FormatDate(Civil(2024, 1, 7)) == "07/01/2024"
  {
    assert Padded(7, 2) == "07";
    assert Padded(1, 2) == "01";
    assert IntToString(2024) == "2024";
    SundayText(Padded(7, 2), Padded(1, 2), IntToString(2024));
  }

  lemma MondayText(one: string, year: string)
    requires one == "01" && year == "2024"
    ensures one + "/" + one + "/" + year == "01/01/2024"
  {
  }

  lemma SundayText(seven: string, one: string, year: string)
    requires seven == "07" && one == "01" && year == "2024"
    ensures seven + "/" + one + "/" + year == "07/01/2024"
  {
  }

  /** Sales on 2024-01-15 and 2024-01-31 share the monthly bucket "2024-01". */
  lemma SameMonthExample()
    ensures MonthKey(Civil(2024, 1, 15)) == "2024-01"
    ensures MonthKey(Civil(2024, 1, 31)) == "2024-01"
  {
    assert IntToString(2024) == "2024";
    assert Padded(1, 2) == "01";
  }

  /** A sale stamped 2024-01-15T10:00:00.000Z goes to the daily bucket
      "2024-01-15". */
  lemma DayKeyExample()
    ensures DayKey(IsoTimestamp(Civil(2024, 1, 15), TimeOfDay(10, 0, 0, 0))) == "2024-01-15"
  {
    DayKeyAt(Civil(2024, 1, 15), TimeOfDay(10, 0, 0, 0));
  }

  lemma DayKeyAt(c: Civil, t: TimeOfDay)
    requires c == Civil(2024, 1, 15) && t == TimeOfDay(10, 0, 0, 0)
    ensures DayKey(IsoTimestamp(c, t)) == "2024-01-15"
  {
    DayKeyOfTimestamp(c, t);
    MidJanuaryForm();
  }

  lemma MidJanuaryForm()
    ensures FullDate(Civil(2024, 1, 15)) == "2024-01-15"
  {
    assert NatToString(2024) == "2024";
    assert NatToString(15) == "15";
    assert Padded(1, 2) == "01";
    MidJanuaryText(Padded(2024, 4), Padded(1, 2), Padded(15, 2));
  }

  lemma MidJanuaryText(year: string, one: string, fifteen: string)
    requires year == "2024" && one == "01" && fifteen == "15"
    ensures year + "-" + one + "-" + fifteen == "2024-01-15"
  {
  }

  /** Store "Loja A" and product "Caneta" at 2.50 with 100 in stock, then
      one sale of 10: both get id 1, the stock drops to 90, and the sale,
      the revenue and the profit are 25.00, 25.00 and 7.50. */
  method StoreScenario(now: string, localDay: string -> int)
    returns (storeId: int, productId: int, stock: int, total: real, revenue: real, profit: real)
    ensures storeId == 1 && productId == 1
    ensures stock == 90 && total == 25.0 && revenue == 25.0 && profit == 7.5
  {
    var sales;
    storeId, productId, stock, sales := FirstSale(now);
    total := sales[0].total;
    var d := UpdateDashboard(sales, localDay);
    revenue := d.totalSales;
    profit := d.totalProfit;
    assert sales[..0] == [];
  }

  /** The ledger part of the scenario: the records it leaves behind. */
  method FirstSale(now: string) returns (storeId: int, productId: int, stock: int, sales: seq<Sale>)
    ensures storeId == 1 && productId == 1 && stock == 90
    ensures sales == [Sale(1, "Loja A", 1, "Caneta", 2.5, 10, 25.0, now)]
  {
    var storeName, productName := "Loja A", "Caneta";
    TrimKeeps(storeName);
    TrimKeeps(productName);
    var ledger := new Ledger();
    var o1 := ledger.AddStore(storeName);
    var o2 := ledger.AddProduct(productName, Some(2.5), Some(100));
    var o3 := ledger.RegisterSale(Some(1), Some(1), Some(10), now);
    sales := ledger.sales;
    storeId := ledger.stores[0].id;
    productId := ledger.products[0].id;
    stock := ledger.products[0].stock;
  }
}
