/**
 * The data service's mock query: one record per day, account and platform
 * of a date range, numbered in the order they are produced, with the
 * summary computed from them and the CSV export's empty case.
 *
 * Dates are day numbers as Python's `date.toordinal()` counts them
 * (0001-01-01 is day 1, 9999-12-31 is `LastDate`); parsing and formatting
 * them as `YYYY-MM-DD` is not part of this model.
 */
module DataService {
  import opened Wrappers
  import Text
  import History

  /** 9999-12-31, the last date `datetime` can hold: a day later raises OverflowError. */
  const LastDate: int := 3652059

  /** An entry of the mock account and platform catalogues. */
  datatype Named = Named(id: string, name: string)

  const Accounts: seq<Named> := [Named("account1", "Account 1"), Named("account2", "Account 2"), Named("account3", "Account 3")]
  const Platforms: seq<Named> := [Named("platform1", "Platform 1"), Named("platform2", "Platform 2"), Named("platform3", "Platform 3")]

  /** Which day, account and platform a record is for. */
  datatype Cell = Cell(date: int, account: string, platform: string)

  /** A mock record; `date` and `createdAt` are the day it is for. */
  datatype Record = Record(id: string, date: int, account: string, platform: string, value: nat, status: string, createdAt: int)

  /** One account's cells of a day: one per platform. */
  function PlatformRows(date: int, account: string, platforms: seq<string>): (r: seq<Cell>)
    ensures |r| == |platforms|
    ensures forall j :: 0 <= j < |r| ==> r[j] == Cell(date, account, platforms[j])
  {
    seq(|platforms|, j requires 0 <= j < |platforms| => Cell(date, account, platforms[j]))
  }

  /** A day's cells: account by account, each over all platforms. */
  function DayRows(date: int, accounts: seq<string>, platforms: seq<string>): seq<Cell>
  {
    if accounts == [] then []
    else DayRows(date, accounts[..|accounts| - 1], platforms) + PlatformRows(date, accounts[|accounts| - 1], platforms)
  }

  /** A day has one cell per account and platform. */
  lemma {:induction false} DayRowsLength(date: int, accounts: seq<string>, platforms: seq<string>)
    ensures |DayRows(date, accounts, platforms)| == |accounts| * |platforms|
  {
    if accounts != [] {
      var n := |accounts| - 1;
      DayRowsLength(date, accounts[..n], platforms);
      MulSucc(n, |platforms|);
    }
  }

  /** The cells of the days from `start` to `end`, day by day. */
  function Layout(start: int, end: int, accounts: seq<string>, platforms: seq<string>): (r: seq<Cell>)
    ensures start > end ==> r == []
    decreases end - start
  {
    if start > end then []
    else Layout(start, end - 1, accounts, platforms) + DayRows(end, accounts, platforms)
  }

  /** A range of days has one cell per day, account and platform. */
  lemma LayoutLength(start: int, end: int, accounts: seq<string>, platforms: seq<string>)
    requires start <= end
    ensures |Layout(start, end, accounts, platforms)| == (end - start + 1) * (|accounts| * |platforms|)
  {
    DayRowsLength(end, accounts, platforms);
    LayoutSum(start, end, accounts, platforms);
    TimesIsMul(end - start + 1, |accounts| * |platforms|);
  }

  /** `n` times `c`, as repeated addition. */
  function Times(n: nat, c: nat): nat
  {
    if n == 0 then 0 else Times(n - 1, c) + c
  }

  lemma {:induction false} TimesIsMul(n: nat, c: nat)
    ensures Times(n, c) == n * c
  {
    if n > 0 {
      TimesIsMul(n - 1, c);
      MulSucc(n - 1, c);
    }
  }

  /** Each day of the range adds one day's cells. */
  lemma {:induction false} LayoutSum(start: int, end: int, accounts: seq<string>, platforms: seq<string>)
    requires start <= end + 1
    ensures |Layout(start, end, accounts, platforms)| == Times(end - start + 1, |DayRows(end, accounts, platforms)|)
    decreases end - start
  {
    if start <= end {
      var c := |DayRows(end, accounts, platforms)|;
      LayoutSum(start, end - 1, accounts, platforms);
      DayRowsSameLength(end - 1, end, accounts, platforms);
      assert |Layout(start, end - 1, accounts, platforms)| == Times(end - start, c);
      assert |Layout(start, end, accounts, platforms)| == |Layout(start, end - 1, accounts, platforms)| + c;
      assert Times(end - start + 1, c) == Times(end - start, c) + c;
    }
  }

  /** Every day has the same number of cells. */
  lemma {:induction false} DayRowsSameLength(d: int, e: int, accounts: seq<string>, platforms: seq<string>)
    ensures |DayRows(d, accounts, platforms)| == |DayRows(e, accounts, platforms)|
  {
    DayRowsLength(d, accounts, platforms);
    DayRowsLength(e, accounts, platforms);
  }

  lemma MulSucc(n: int, c: int)
    ensures (n + 1) * c == n * c + c
  {
  }

  /** The record produced when `k` records already exist: id `record_{k+1}`, value `100 + k % 1000`, active when `k` is even. */
  function MockRecord(k: nat, c: Cell): (r: Record)
    ensures r.date == c.date && r.account == c.account && r.platform == c.platform && r.createdAt == c.date
    ensures 100 <= r.value < 1100 && r.value == 100 + k % 1000
    ensures r.status == "active" <==> k % 2 == 0
    ensures r.status == "inactive" <==> k % 2 == 1
  {
    Record("record_" + Text.NatToString(k + 1), c.date, c.account, c.platform,
           100 + k % 1000, if k % 2 == 0 then "active" else "inactive", c.date)
  }

  /** The cells turned into records in order. */
  function Numbered(cells: seq<Cell>): (r: seq<Record>)
    ensures |r| == |cells|
    ensures forall k :: 0 <= k < |r| ==> r[k] == MockRecord(k, cells[k])
  {
    seq(|cells|, k requires 0 <= k < |cells| => MockRecord(k, cells[k]))
  }

  /** The mock records of a date range. */
  function Records(start: int, end: int, accounts: seq<string>, platforms: seq<string>): seq<Record>
  {
    Numbered(Layout(start, end, accounts, platforms))
  }

  /**
   * `_generate_mock_records`: a loop over the days; the loops over the
   * accounts and the platforms inside it are `AppendDay` and
   * `AppendAccount`.
   */
  method GenerateMockRecords(start: int, end: int, accounts: seq<string>, platforms: seq<string>)
    returns (records: seq<Record>)
    ensures records == Records(start, end, accounts, platforms)
  {
    records := [];
    var current := start;
    while current <= end
      invariant current == start || start < current <= end + 1
      invariant records == Numbered(Layout(start, current - 1, accounts, platforms))
      decreases end - current
    {
      ghost var before := Layout(start, current - 1, accounts, platforms);
      records := AppendDay(records, before, current, accounts, platforms);
      LayoutSnoc(start, current, accounts, platforms);
      current := current + 1;
    }
  }

  /** The records of one day appended, account by account. */
  method AppendDay(records: seq<Record>, ghost before: seq<Cell>, date: int, accounts: seq<string>, platforms: seq<string>)
    returns (after: seq<Record>)
    requires records == Numbered(before)
    ensures after == Numbered(before + DayRows(date, accounts, platforms))
  {
    after := records;
    for i := 0 to |accounts|
      invariant after == Numbered(before + DayRows(date, accounts[..i], platforms))
    {
      ghost var sofar := before + DayRows(date, accounts[..i], platforms);
      after := AppendAccount(after, sofar, date, accounts[i], platforms);
      DayRowsSnoc(before, date, accounts, platforms, i);
    }
    assert accounts[..|accounts|] == accounts;
  }

  /** The records of one account on one day appended, platform by platform. */
  method AppendAccount(records: seq<Record>, ghost before: seq<Cell>, date: int, account: string, platforms: seq<string>)
    returns (after: seq<Record>)
    requires records == Numbered(before)
    ensures after == Numbered(before + PlatformRows(date, account, platforms))
  {
    after := records;
    for j := 0 to |platforms|
      invariant after == Numbered(before + PlatformRows(date, account, platforms[..j]))
    {
      var cell := Cell(date, account, platforms[j]);
      ghost var cells := before + PlatformRows(date, account, platforms[..j]);
      PlatformRowsSnoc(date, account, platforms, j);
      NumberedSnoc(cells, cell);
      assert cells + [cell] == before + PlatformRows(date, account, platforms[..j + 1]);
      after := after + [MockRecord(|after|, cell)];
    }
    assert platforms[..|platforms|] == platforms;
  }

  lemma PlatformRowsSnoc(date: int, account: string, platforms: seq<string>, j: int)
    requires 0 <= j < |platforms|
    ensures PlatformRows(date, account, platforms[..j + 1]) == PlatformRows(date, account, platforms[..j]) + [Cell(date, account, platforms[j])]
  {
  }

  lemma DayRowsSnoc(before: seq<Cell>, date: int, accounts: seq<string>, platforms: seq<string>, i: int)
    requires 0 <= i < |accounts|
    ensures before + DayRows(date, accounts[..i + 1], platforms)
         == (before + DayRows(date, accounts[..i], platforms)) + PlatformRows(date, accounts[i], platforms)
  {
    assert accounts[..i + 1][..i] == accounts[..i];
  }

  lemma LayoutSnoc(start: int, current: int, accounts: seq<string>, platforms: seq<string>)
    requires start <= current
    ensures Layout(start, current, accounts, platforms) == Layout(start, current - 1, accounts, platforms) + DayRows(current, accounts, platforms)
  {
  }

  lemma NumberedSnoc(cells: seq<Cell>, cell: Cell)
    ensures Numbered(cells + [cell]) == Numbered(cells) + [MockRecord(|cells|, cell)]
  {
  }

  // ---------------------------------------------------------------------
  // Where each record sits
  // ---------------------------------------------------------------------

  /** Euclidean division of `q * n + r` by `n` gives back `q` and `r`. */
  lemma DivModOf(q: int, n: int, r: int)
    requires n > 0 && 0 <= r < n
    ensures (q * n + r) / n == q && (q * n + r) % n == r
  {
    var k := q * n + r;
    var q2, r2 := k / n, k % n;
    assert k == q2 * n + r2;
    assert (q - q2) * n == r2 - r;
    History.MulCancel(q - q2, 1, n);
    History.MulCancel(-1, q - q2, n);
  }

  lemma MulAtLeast(a: int, n: int)
    requires a >= 1 && n > 0
    ensures a * n >= n
  {
  }

  /** Within a day, cell `c` is for account `c / |platforms|` and platform `c % |platforms|`. */
  lemma {:induction false} DayCell(date: int, accounts: seq<string>, platforms: seq<string>, c: int)
    requires 0 <= c < |accounts| * |platforms|
    ensures |platforms| > 0 && 0 <= c / |platforms| < |accounts| && c < |DayRows(date, accounts, platforms)|
    ensures DayRows(date, accounts, platforms)[c] == Cell(date, accounts[c / |platforms|], platforms[c % |platforms|])
  {
    var p := |platforms|;
    PositiveFactors(|accounts|, p);
    DivNonNegative(c, p);
    var n := |accounts| - 1;
    DayRowsLength(date, accounts[..n], platforms);
    DayRowsLength(date, accounts, platforms);
    MulSucc(n, p);
    if c < n * p {
      EarlierAccount(date, accounts, platforms, c);
      DayCell(date, accounts[..n], platforms, c);
      assert accounts[..n][c / p] == accounts[c / p];
    } else {
      LastAccount(date, accounts, platforms, c);
    }
  }

  /** A cell before the last account's sits where it sits in the day without that account. */
  lemma EarlierAccount(date: int, accounts: seq<string>, platforms: seq<string>, c: int)
    requires accounts != [] && 0 <= c < |DayRows(date, accounts[..|accounts| - 1], platforms)|
    ensures c < |DayRows(date, accounts, platforms)|
    ensures DayRows(date, accounts, platforms)[c] == DayRows(date, accounts[..|accounts| - 1], platforms)[c]
  {
  }

  /** A cell of the last account is that account's cell for platform `c % |platforms|`. */
  lemma LastAccount(date: int, accounts: seq<string>, platforms: seq<string>, c: int)
    requires accounts != [] && |platforms| > 0
    requires (|accounts| - 1) * |platforms| <= c < (|accounts| - 1) * |platforms| + |platforms|
    ensures c / |platforms| == |accounts| - 1 && c < |DayRows(date, accounts, platforms)|
    ensures DayRows(date, accounts, platforms)[c] == Cell(date, accounts[|accounts| - 1], platforms[c % |platforms|])
  {
    var n := |accounts| - 1;
    var p := |platforms|;
    var init := DayRows(date, accounts[..n], platforms);
    var last := PlatformRows(date, accounts[n], platforms);
    DayRowsLength(date, accounts[..n], platforms);
    assert DayRows(date, accounts, platforms) == init + last;
    var j := c - n * p;
    DivModOf(n, p, j);
    assert (init + last)[c] == last[j];
  }

  lemma PositiveFactors(a: nat, b: nat)
    requires a * b > 0
    ensures a > 0 && b > 0
  {
  }

  /** Record `k` is for day `start + k / cells`, and within that day for cell `k % cells`. */
  lemma {:induction false} LayoutCell(start: int, end: int, accounts: seq<string>, platforms: seq<string>, k: int)
    requires start <= end && 0 <= k < |Layout(start, end, accounts, platforms)|
    ensures |accounts| * |platforms| > 0
    ensures var cells := |accounts| * |platforms|;
      k % cells < |DayRows(start + k / cells, accounts, platforms)| &&
      Layout(start, end, accounts, platforms)[k] == DayRows(start + k / cells, accounts, platforms)[k % cells]
    decreases end - start
  {
    var cells := |accounts| * |platforms|;
    LayoutLength(start, end, accounts, platforms);
    PositiveFactors(end - start + 1, cells);
    if start < end && k < (end - start) * cells {
      EarlierDay(start, end, accounts, platforms, k);
      LayoutCell(start, end - 1, accounts, platforms, k);
    } else {
      LastDay(start, end, accounts, platforms, k);
    }
  }

  /** A record before the last day's sits where it sits in the range without the last day. */
  lemma EarlierDay(start: int, end: int, accounts: seq<string>, platforms: seq<string>, k: int)
    requires start < end && 0 <= k < (end - start) * (|accounts| * |platforms|)
    ensures k < |Layout(start, end - 1, accounts, platforms)| < |Layout(start, end, accounts, platforms)|
    ensures Layout(start, end, accounts, platforms)[k] == Layout(start, end - 1, accounts, platforms)[k]
  {
    LayoutLength(start, end - 1, accounts, platforms);
    DayRowsLength(end, accounts, platforms);
    assert Layout(start, end, accounts, platforms) == Layout(start, end - 1, accounts, platforms) + DayRows(end, accounts, platforms);
  }

  /** A record of the last day is that day's cell `k % cells`. */
  lemma LastDay(start: int, end: int, accounts: seq<string>, platforms: seq<string>, k: int)
    requires start <= end && |accounts| * |platforms| > 0
    requires start == end || (end - start) * (|accounts| * |platforms|) <= k
    requires 0 <= k < (end - start + 1) * (|accounts| * |platforms|)
    ensures var cells := |accounts| * |platforms|;
      k / cells == end - start && k % cells < |DayRows(end, accounts, platforms)| &&
      k < |Layout(start, end, accounts, platforms)| &&
      Layout(start, end, accounts, platforms)[k] == DayRows(end, accounts, platforms)[k % cells]
  {
    var cells := |accounts| * |platforms|;
    var days := end - start;
    var init := Layout(start, end - 1, accounts, platforms);
    var last := DayRows(end, accounts, platforms);
    if start < end {
      LayoutLength(start, end - 1, accounts, platforms);
    }
    LayoutLength(start, end, accounts, platforms);
    DayRowsLength(end, accounts, platforms);
    assert |init| == days * cells;
    assert Layout(start, end, accounts, platforms) == init + last;
    var j := k - days * cells;
    assert j < cells;
    DivModOf(days, cells, j);
    assert (init + last)[k] == last[j];
  }

  /**
   * The order of the records: day by day, then account by account, then
   * platform by platform; record `k` is for day `start + k / cells`,
   * account `(k % cells) / |platforms|` and platform `k % |platforms|`,
   * where `cells` is the number of accounts times the number of platforms.
   */
  lemma RecordAt(start: int, end: int, accounts: seq<string>, platforms: seq<string>, k: int)
    requires 0 <= k < |Records(start, end, accounts, platforms)|
    ensures start <= end && |platforms| > 0 && |accounts| > 0 && |accounts| * |platforms| > 0
    ensures var cells := |accounts| * |platforms|; var r := Records(start, end, accounts, platforms)[k];
      0 <= (k % cells) / |platforms| < |accounts| &&
      r == MockRecord(k, Cell(start + k / cells, accounts[(k % cells) / |platforms|], platforms[(k % cells) % |platforms|]))
  {
    LayoutCell(start, end, accounts, platforms, k);
    var cells := |accounts| * |platforms|;
    DayCell(start + k / cells, accounts, platforms, k % cells);
    DivNonNegative(k % cells, |platforms|);
  }

  lemma DivNonNegative(a: int, b: int)
    requires 0 <= a && 0 < b
    ensures 0 <= a / b
  {
  }

  /** No two records share an id. */
  lemma IdsDistinct(start: int, end: int, accounts: seq<string>, platforms: seq<string>, k: int, m: int)
    requires 0 <= k < m < |Records(start, end, accounts, platforms)|
    ensures Records(start, end, accounts, platforms)[k].id != Records(start, end, accounts, platforms)[m].id
  {
    var rs := Records(start, end, accounts, platforms);
    if rs[k].id == rs[m].id {
      var prefix := "record_";
      assert rs[k].id == prefix + Text.NatToString(k + 1);
      assert rs[m].id == prefix + Text.NatToString(m + 1);
      assert Text.NatToString(k + 1) == rs[k].id[|prefix|..];
      assert Text.NatToString(m + 1) == rs[m].id[|prefix|..];
      Text.NatToStringInjective(k + 1, m + 1);
    }
  }

  // ---------------------------------------------------------------------
  // Summary and export
  // ---------------------------------------------------------------------

  /** The accounts named by some record. */
  function AccountsOf(records: seq<Record>): set<string>
  {
    set r | r in records :: r.account
  }

  /** The platforms named by some record. */
  function PlatformsOf(records: seq<Record>): set<string>
  {
    set r | r in records :: r.platform
  }

  /** The cells of a day: exactly the day's account and platform pairs. */
  lemma {:induction false} DayRowsMembers(date: int, accounts: seq<string>, platforms: seq<string>, c: Cell)
    ensures c in DayRows(date, accounts, platforms) <==> c.date == date && c.account in accounts && c.platform in platforms
  {
    if accounts != [] {
      var n := |accounts| - 1;
      DayRowsMembers(date, accounts[..n], platforms, c);
      assert accounts == accounts[..n] + [accounts[n]];
      var last := PlatformRows(date, accounts[n], platforms);
      assert c in last <==> c.date == date && c.account == accounts[n] && c.platform in platforms by {
        if c.date == date && c.account == accounts[n] && c.platform in platforms {
          var j :| 0 <= j < |platforms| && platforms[j] == c.platform;
          assert last[j] == c;
        }
      }
    }
  }

  /** The cells of a range: exactly the triples of a day in the range, a listed account and a listed platform. */
  lemma {:induction false} LayoutMembers(start: int, end: int, accounts: seq<string>, platforms: seq<string>, c: Cell)
    ensures c in Layout(start, end, accounts, platforms) <==>
      start <= c.date <= end && c.account in accounts && c.platform in platforms
    decreases end - start
  {
    if start <= end {
      LayoutMembers(start, end - 1, accounts, platforms, c);
      DayRowsMembers(end, accounts, platforms, c);
    }
  }

  /** A record is for an account exactly when its cell is. */
  lemma NumberedAccounts(cells: seq<Cell>)
    ensures AccountsOf(Numbered(cells)) == set c | c in cells :: c.account
  {
    var rs := Numbered(cells);
    forall k | 0 <= k < |cells| ensures rs[k].account == cells[k].account {
    }
    forall c | c in cells ensures c.account in AccountsOf(rs) {
      var k :| 0 <= k < |cells| && cells[k] == c;
      assert rs[k] in rs;
    }
    forall r | r in rs ensures r.account in set c | c in cells :: c.account {
      var k :| 0 <= k < |rs| && rs[k] == r;
      assert cells[k] in cells;
    }
  }

  /** A record is for a platform exactly when its cell is. */
  lemma NumberedPlatforms(cells: seq<Cell>)
    ensures PlatformsOf(Numbered(cells)) == set c | c in cells :: c.platform
  {
    var rs := Numbered(cells);
    forall k | 0 <= k < |cells| ensures rs[k].platform == cells[k].platform {
    }
    forall c | c in cells ensures c.platform in PlatformsOf(rs) {
      var k :| 0 <= k < |cells| && cells[k] == c;
      assert rs[k] in rs;
    }
    forall r | r in rs ensures r.platform in set c | c in cells :: c.platform {
      var k :| 0 <= k < |rs| && rs[k] == r;
      assert cells[k] in cells;
    }
  }

  /** With at least one platform, every listed account appears in some record and no other does. */
  lemma AccountsCovered(start: int, end: int, accounts: seq<string>, platforms: seq<string>)
    requires start <= end && platforms != []
    ensures AccountsOf(Records(start, end, accounts, platforms)) == set a | a in accounts
  {
    var cells := Layout(start, end, accounts, platforms);
    NumberedAccounts(cells);
    forall c | c in cells ensures c.account in accounts {
      LayoutMembers(start, end, accounts, platforms, c);
    }
    forall a | a in accounts ensures exists c :: c in cells && c.account == a {
      LayoutMembers(start, end, accounts, platforms, Cell(start, a, platforms[0]));
    }
  }

  /** With at least one account, every listed platform appears in some record and no other does. */
  lemma PlatformsCovered(start: int, end: int, accounts: seq<string>, platforms: seq<string>)
    requires start <= end && accounts != []
    ensures PlatformsOf(Records(start, end, accounts, platforms)) == set x | x in platforms
  {
    var cells := Layout(start, end, accounts, platforms);
    NumberedPlatforms(cells);
    forall c | c in cells ensures c.platform in platforms {
      LayoutMembers(start, end, accounts, platforms, c);
    }
    forall x | x in platforms ensures exists c :: c in cells && c.platform == x {
      LayoutMembers(start, end, accounts, platforms, Cell(start, accounts[0], x));
    }
  }

  /** No accounts or no platforms: no records. */
  lemma NoCellsNoRecords(start: int, end: int, accounts: seq<string>, platforms: seq<string>)
    requires accounts == [] || platforms == []
    ensures Records(start, end, accounts, platforms) == []
  {
    if start <= end {
      LayoutLength(start, end, accounts, platforms);
      var cells := |accounts| * |platforms|;
      assert cells == 0;
      MulZero(end - start + 1, cells);
      assert Layout(start, end, accounts, platforms) == [];
    }
  }

  lemma MulZero(a: int, b: int)
    requires b == 0
    ensures a * b == 0
  {
  }

  /** A range of days has one record per day, account and platform. */
  lemma RecordsCount(start: int, end: int, accounts: seq<string>, platforms: seq<string>)
    requires start <= end
    ensures |Records(start, end, accounts, platforms)| == (end - start + 1) * (|accounts| * |platforms|)
  {
    var n := |Layout(start, end, accounts, platforms)|;
    assert |Records(start, end, accounts, platforms)| == n;
    LayoutLength(start, end, accounts, platforms);
  }

  /** The summary's distinct accounts. */
  lemma AccountCount(start: int, end: int, accounts: seq<string>, platforms: seq<string>)
    requires start <= end
    ensures |AccountsOf(Records(start, end, accounts, platforms))| == if platforms == [] then 0 else |set a | a in accounts|
  {
    if platforms != [] {
      AccountsCovered(start, end, accounts, platforms);
    } else {
      NoCellsNoRecords(start, end, accounts, platforms);
    }
  }

  /** The summary's distinct platforms. */
  lemma PlatformCount(start: int, end: int, accounts: seq<string>, platforms: seq<string>)
    requires start <= end
    ensures |PlatformsOf(Records(start, end, accounts, platforms))| == if accounts == [] then 0 else |set x | x in platforms|
  {
    if accounts != [] {
      PlatformsCovered(start, end, accounts, platforms);
    } else {
      NoCellsNoRecords(start, end, accounts, platforms);
    }
  }

  datatype Summary = Summary(totalRecords: nat, totalAccounts: nat, totalPlatforms: nat,
                             start: string, end: string, days: int, rangeType: string)

  datatype Fetched = Fetched(summary: Summary, records: seq<Record>)

  /**
   * Why a fetch fails: a date not in `YYYY-MM-DD` form, a start after the
   * end, or the day loop stepping past 9999-12-31 after the range's last day.
   */
  datatype FetchError = BadDate | StartAfterEnd(message: string) | DateOverflow

  /**
   * `fetch_data`: `start` and `end` are the parsed dates (`None` when a text
   * does not parse) and `startText`/`endText` the texts as given.
   */
  function Fetch(start: Option<int>, end: Option<int>, startText: string, endText: string,
                 accounts: seq<string>, platforms: seq<string>, rangeType: string): (r: Result<Fetched, FetchError>)
    ensures start.None? || end.None? ==> r == Err(BadDate)
    ensures start.Some? && end.Some? && start.value > end.value ==> r == Err(StartAfterEnd("Start date must be before end date"))
    ensures start.Some? && end.Some? && start.value <= end.value && end.value == LastDate ==> r == Err(DateOverflow)
    ensures r.Ok? <==> start.Some? && end.Some? && start.value <= end.value && end.value != LastDate
    ensures r.Ok? ==> r.value.records == Records(start.value, end.value, accounts, platforms)
    ensures r.Ok? ==> r.value.summary.days == end.value - start.value + 1 >= 1
    ensures r.Ok? ==> r.value.summary.totalRecords == |r.value.records| == r.value.summary.days * (|accounts| * |platforms|)
    ensures r.Ok? ==> r.value.summary.totalAccounts == if platforms == [] then 0 else |set a | a in accounts|
    ensures r.Ok? ==> r.value.summary.totalPlatforms == if accounts == [] then 0 else |set x | x in platforms|
  {
    if start.None? || end.None? then Err(BadDate)
    else if start.value > end.value then Err(StartAfterEnd("Start date must be before end date"))
    else if end.value == LastDate then Err(DateOverflow)
    else
      var records := Records(start.value, end.value, accounts, platforms);
      var days := end.value - start.value + 1;
      RecordsCount(start.value, end.value, accounts, platforms);
      AccountCount(start.value, end.value, accounts, platforms);
      PlatformCount(start.value, end.value, accounts, platforms);
      Ok(Fetched(Summary(|records|, |AccountsOf(records)|, |PlatformsOf(records)|, startText, endText, days, rangeType), records))
  }

  /** `fetch_data` with the records produced by the loops. */
  method FetchData(start: Option<int>, end: Option<int>, startText: string, endText: string,
                   accounts: seq<string>, platforms: seq<string>, rangeType: string)
    returns (r: Result<Fetched, FetchError>)
    ensures r == Fetch(start, end, startText, endText, accounts, platforms, rangeType)
  {
    if start.None? || end.None? {
      return Err(BadDate);
    }
    if start.value > end.value {
      return Err(StartAfterEnd("Start date must be before end date"));
    }
    var records := GenerateMockRecords(start.value, end.value, accounts, platforms);
    if end.value == LastDate {
      // the step after the last day leaves the calendar; the rows built are dropped
      return Err(DateOverflow);
    }
    var days := end.value - start.value + 1;
    r := Ok(Fetched(Summary(|records|, |AccountsOf(records)|, |PlatformsOf(records)|, startText, endText, days, rangeType), records));
  }

  /** `export_to_csv`'s outcome: the fixed message when there is nothing, else a table of the records. */
  datatype Export = NoData(text: string) | Table(rows: seq<Record>)

  function ExportCsv(start: Option<int>, end: Option<int>, startText: string, endText: string,
                     accounts: seq<string>, platforms: seq<string>, rangeType: string): (r: Result<Export, FetchError>)
    ensures r.Ok? <==> start.Some? && end.Some? && start.value <= end.value && end.value != LastDate
    ensures r.Ok? ==> (r.value == NoData("No data to export\n") <==> accounts == [] || platforms == [])
    ensures r.Ok? && r.value.Table? ==> r.value.rows == Records(start.value, end.value, accounts, platforms)
  {
    match Fetch(start, end, startText, endText, accounts, platforms, rangeType)
    case Err(e) => Err(e)
    case Ok(f) =>
      var n := f.summary.days;
      assert n * |accounts| * |platforms| == 0 <==> |accounts| == 0 || |platforms| == 0 by {
        ProductZero(n, |accounts|, |platforms|);
      }
      Ok(if f.records == [] then NoData("No data to export\n") else Table(f.records))
  }

  lemma ProductZero(n: nat, a: nat, p: nat)
    requires n >= 1
    ensures n * a * p == 0 <==> a == 0 || p == 0
  {
    if a > 0 && p > 0 {
      MulAtLeast(n, a);
      MulAtLeast(n * a, p);
    }
  }
}
