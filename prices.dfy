/**
 * Where the stocks model finds a closing price, over in-memory data: the bundled daily series of
 * the symbols listed as stored with the program (used up to 2022-10-31), the local cache of series
 * fetched earlier, and the response lines of the daily time-series request. A price is looked up
 * by the `yyyy-MM-dd` text of its date; -1 is the "unavailable" sentinel.
 */
module Prices {
  import opened Wrappers
  import Text
  import Calendar

  type Day = Calendar.Day

  /**
   * Closing prices by day. The program keys them by the `yyyy-MM-dd` text of the date and looks
   * them up by the text of a day, so only rows whose date text is exactly that of a day can ever
   * be found; RowDay keeps those and RowDayCanonical shows the two keyings agree.
   */
  type Series = map<Day, real>

  /** Why a lookup threw: the request failed (IOException), or the answer was refused or unreadable (IllegalArgumentException). */
  datatype Error = IoError | InvalidCall

  /** What getPrice gives back: a price, null, or an exception. */
  datatype Quote = Found(price: real) | Missing | Failed(error: Error)

  const Unavailable: real := -1.0

  /** The last day of the bundled series. */
  const LastBundledDay: Day := Calendar.Date(2022, 10, 31)

  /**
   * What the model reads besides its own files: the symbols whose series are bundled, those
   * series, and per symbol the lines the time-series request answers with (a symbol with no entry
   * is a request that fails with an IOException). `fetched` holds, per symbol, what callAPI makes
   * of those lines; WellFormedMarket ties the two together.
   */
  datatype Market = Market(csvSymbols: set<string>, bundled: map<string, Series>,
                           responses: map<string, seq<string>>, fetched: map<string, Result<Series, Error>>)

  function Columns(line: string): seq<string> {
    Text.Split(line, ",")
  }

  /** The lines after the header. */
  function DataRows(lines: seq<string>): (rows: seq<string>)
    ensures |rows| == if lines == [] then 0 else |lines| - 1
    ensures forall i :: 0 <= i < |rows| ==> rows[i] == lines[i + 1]
  {
    if lines == [] then [] else lines[1..]
  }

  /** Every data row has a column 4. */
  predicate RowsHaveClose(rows: seq<string>) {
    forall i :: 0 <= i < |rows| ==> |Columns(rows[i])| >= 5
  }

  /** The response lines callAPI can read without an exception: an error answer of three lines, or rows with a close. */
  predicate ResponseReadable(lines: seq<string>) {
    |lines| != 3 ==> RowsHaveClose(DataRows(lines))
  }

  /**
   * The data the model needs to run without runtime exceptions: a bundled series for every listed
   * symbol, readable responses, and `fetched` holding exactly the parse of each response. A
   * response with a data row of fewer than five columns, on which callAPI's `parts[4]` throws an
   * uncaught ArrayIndexOutOfBoundsException, is outside the model.
   */
  predicate WellFormedMarket(m: Market) {
    && m.csvSymbols <= m.bundled.Keys
    && m.fetched.Keys == m.responses.Keys
    && (forall s :: s in m.responses ==> ResponseReadable(m.responses[s]))
    && forall s {:trigger Parse(m.responses[s])} :: s in m.responses ==> m.fetched[s] == Parse(m.responses[s])
  }

  /** One data row as callAPI reads it: the day its column 0 names, if any, and its column 4. */
  datatype Row = Row(day: Option<Day>, close: real)

  /** Column 4 of a row as `Double.valueOf` reads it; None is the NumberFormatException. */
  function ReadRow(line: string): Option<Row>
    requires |Columns(line)| >= 5
  {
    var parts := Columns(line);
    match Text.ParseDecimal(parts[4])
    case None => None
    case Some(v) => Some(Row(RowDay(parts[0]), v))
  }

  /** A row put into the series: rows whose date is not the text of a day cannot be looked up. */
  function Put(acc: Series, row: Row): Series {
    if row.day.Some? then acc[row.day.value := row.close] else acc
  }

  /** Each data row read on its own. */
  function ReadRows(rows: seq<string>): seq<Option<Row>>
    requires RowsHaveClose(rows)
  {
    seq(|rows|, i requires 0 <= i < |rows| && RowsHaveClose(rows) => ReadRow(rows[i]))
  }

  /** The series made of the first n rows: column 0 mapped to column 4, a later row overriding an earlier one. */
  function Collect(rows: seq<Option<Row>>, n: nat): Result<Series, Error>
    requires n <= |rows|
  {
    if n == 0 then Success(map[])
    else
      match Collect(rows, n - 1)
      case Failure(e) => Failure(e)
      case Success(acc) =>
        match rows[n - 1]
        case None => Failure(InvalidCall)
        case Some(row) => Success(Put(acc, row))
  }

  /** Row i is the last of the first n rows that names `day`. */
  predicate LastFor(rows: seq<Option<Row>>, n: nat, i: int, day: Day)
    requires n <= |rows|
  {
    && 0 <= i < n && rows[i].Some? && rows[i].value.day == Some(day)
    && forall j :: i < j < n ==> !(rows[j].Some? && rows[j].value.day == Some(day))
  }

  /**
   * A series comes out only when every row is a number; it has exactly the days the rows name,
   * each with the close of the last row naming it.
   */
  lemma {:induction false} CollectContents(rows: seq<Option<Row>>, n: nat)
    requires n <= |rows| && Collect(rows, n).Success?
    ensures forall i :: 0 <= i < n ==> rows[i].Some?
    ensures forall day :: day in Collect(rows, n).value <==>
      exists i :: 0 <= i < n && rows[i].Some? && rows[i].value.day == Some(day)
    ensures forall i, day :: LastFor(rows, n, i, day) ==>
      day in Collect(rows, n).value && Collect(rows, n).value[day] == rows[i].value.close
    decreases n
  {
    if n > 0 {
      CollectContents(rows, n - 1);
      var acc := Collect(rows, n - 1).value;
      var row := rows[n - 1].value;
      forall day | day in Collect(rows, n).value
        ensures exists i :: 0 <= i < n && rows[i].Some? && rows[i].value.day == Some(day)
      {
        if row.day != Some(day) {
          var i :| 0 <= i < n - 1 && rows[i].Some? && rows[i].value.day == Some(day);
        }
      }
      forall i, day | LastFor(rows, n, i, day)
        ensures day in Collect(rows, n).value && Collect(rows, n).value[day] == rows[i].value.close
      {
        if i < n - 1 {
          assert LastFor(rows, n - 1, i, day);
        }
      }
    }
  }

  /** Once a row fails to parse, the whole response fails. */
  lemma {:induction false} CollectStops(rows: seq<Option<Row>>, n: nat)
    requires n <= |rows| && Collect(rows, n).Failure?
    ensures Collect(rows, |rows|) == Collect(rows, n)
    decreases |rows| - n
  {
    if n < |rows| {
      CollectStops(rows, n + 1);
    }
  }

  /** The day whose `yyyy-MM-dd` text a date column is, if it is one. */
  function RowDay(text: string): Option<Day> {
    match Calendar.ParseDate(text)
    case None => None
    case Some(d) => if Calendar.FormatDate(d) == text then Some(d) else None
  }

  /** A row is found under a day exactly when its date column is that day's text. */
  lemma RowDayCanonical(text: string, d: Day)
    ensures RowDay(text) == Some(d) <==> text == Calendar.FormatDate(d)
  {
    if text == Calendar.FormatDate(d) {
      Calendar.ParseFormatDate(d);
    }
  }

  /** callAPI's reading of a response: three lines are the service's error message; otherwise the rows after the header. */
  function Parse(lines: seq<string>): Result<Series, Error>
    requires ResponseReadable(lines)
  {
    if |lines| == 3 then Failure(InvalidCall)
    else
      var rows := ReadRows(DataRows(lines));
      Collect(rows, |rows|)
  }

  /** What callAPI answers for a symbol: an IOException when the request fails, else the parse of the response. */
  function Fetch(m: Market, symbol: string): Result<Series, Error> {
    if symbol !in m.fetched then Failure(IoError) else m.fetched[symbol]
  }

  predicate Positive(s: Series) {
    forall k :: k in s ==> s[k] > 0.0
  }

  /** Well-formed data whose prices, bundled or fetched, are all positive. */
  predicate ValidMarket(m: Market) {
    WellFormedMarket(m)
    && (forall s :: s in m.bundled ==> Positive(m.bundled[s]))
    && (forall s :: s in m.fetched && m.fetched[s].Success? ==> Positive(m.fetched[s].value))
  }

  // ---------------------------------------------------------------------------------------------
  // One lookup

  predicate BundledHit(m: Market, symbol: string, d: Day) {
    symbol in m.csvSymbols && symbol in m.bundled
    && Calendar.NotAfter(d, LastBundledDay) && d in m.bundled[symbol]
  }

  predicate CacheHit(cache: map<string, Series>, symbol: string, d: Day) {
    symbol in cache && d in cache[symbol]
  }

  function Max(a: int, b: int): int {
    if a < b then b else a
  }

  /**
   * getPriceHelper's forward scan: from d, one day at a time while the day is not after today,
   * the first day with a price; so it ends at tomorrow at the latest.
   */
  function ScanFrom(series: Series, d: Day, today: Day): (r: Option<Day>)
    ensures r.Some? ==> r.value in series
    decreases Calendar.DayNumber(today) + 1 - Calendar.DayNumber(d)
  {
    if d in series then Some(d)
    else if Calendar.DayNumber(d) <= Calendar.DayNumber(today) then ScanFrom(series, Calendar.NextDay(d), today)
    else None
  }

  /** The scan finds the first priced day from d on, and None means no day from d to tomorrow has a price. */
  lemma {:induction false} ScanFromFirst(series: Series, d: Day, today: Day)
    ensures var r := ScanFrom(series, d, today);
      && (r.Some? ==> Calendar.DayNumber(d) <= Calendar.DayNumber(r.value) <= Max(Calendar.DayNumber(d), Calendar.DayNumber(today) + 1))
      && (r.Some? ==> forall e: Day :: Calendar.DayNumber(d) <= Calendar.DayNumber(e) < Calendar.DayNumber(r.value) ==> e !in series)
      && (r.None? ==> forall e: Day :: Calendar.DayNumber(d) <= Calendar.DayNumber(e) <= Calendar.DayNumber(today) + 1 ==> e !in series)
    decreases Calendar.DayNumber(today) + 1 - Calendar.DayNumber(d)
  {
    if d !in series {
      assert forall e: Day :: Calendar.DayNumber(e) == Calendar.DayNumber(d) ==> e == d by {
        forall e: Day | Calendar.DayNumber(e) == Calendar.DayNumber(d) ensures e == d {
          Calendar.DayNumberInjective(e, d);
        }
      }
      if Calendar.DayNumber(d) <= Calendar.DayNumber(today) {
        ScanFromFirst(series, Calendar.NextDay(d), today);
      }
    }
  }

  /** getPriceHelper once the series is fetched: the day itself; else -1 if asked for the sentinel; else the forward scan, null when it finds nothing. */
  function PriceFrom(series: Series, d: Day, flag: bool, today: Day): Quote {
    if d in series then Found(series[d])
    else if flag then Found(Unavailable)
    else match ScanFrom(series, d, today)
      case None => Missing
      case Some(e) => Found(series[e])
  }

  /** What getPrice answers: the bundled series, then the cache, then a fresh fetch. */
  function QuoteOf(m: Market, cache: map<string, Series>, symbol: string, d: Day, flag: bool, today: Day): Quote
  {
    if BundledHit(m, symbol, d) then Found(m.bundled[symbol][d])
    else if CacheHit(cache, symbol, d) then Found(cache[symbol][d])
    else
      match Fetch(m, symbol)
      case Failure(e) => Failed(e)
      case Success(series) => PriceFrom(series, d, flag, today)
  }

  /** The cache after that lookup: a successful fetch replaces the symbol's series. */
  function CacheAfter(m: Market, cache: map<string, Series>, symbol: string, d: Day): map<string, Series>
  {
    if BundledHit(m, symbol, d) || CacheHit(cache, symbol, d) then cache
    else
      match Fetch(m, symbol)
      case Failure(_) => cache
      case Success(series) => cache[symbol := series]
  }

  // ---------------------------------------------------------------------------------------------
  // The cache never changes an answer

  predicate Agrees(part: Series, whole: Series) {
    forall k :: k in part ==> k in whole && part[k] == whole[k]
  }

  /** Every cached series is part of what a successful fetch gives now, and cached prices are positive. */
  predicate Consistent(m: Market, cache: map<string, Series>)
    requires WellFormedMarket(m)
  {
    forall s :: s in cache ==> Positive(cache[s]) && Fetch(m, s).Success? && Agrees(cache[s], Fetch(m, s).value)
  }

  /**
   * With a consistent cache, a lookup keeps the cache consistent and every later lookup answers
   * as it would have before: the answers are a function of the data alone.
   */
  lemma QuoteStable(m: Market, cache: map<string, Series>, s0: string, d0: Day,
                    s: string, d: Day, flag: bool, today: Day)
    requires ValidMarket(m) && Consistent(m, cache)
    ensures Consistent(m, CacheAfter(m, cache, s0, d0))
    ensures QuoteOf(m, CacheAfter(m, cache, s0, d0), s, d, flag, today) == QuoteOf(m, cache, s, d, flag, today)
  {
    var c := CacheAfter(m, cache, s0, d0);
    if c != cache {
      var series := Fetch(m, s0).value;
      assert c == cache[s0 := series];
      assert Positive(series);
      if s == s0 && !BundledHit(m, s, d) {
        var k := d;
        if k in series {
          assert CacheHit(c, s, d);
        } else {
          assert !CacheHit(cache, s, d);
        }
      }
    }
  }

  /** With the sentinel requested, a lookup never answers null. */
  lemma SentinelNeverMissing(m: Market, cache: map<string, Series>, symbol: string, d: Day, today: Day)
    requires WellFormedMarket(m)
    ensures QuoteOf(m, cache, symbol, d, true, today) != Missing
  {
  }

  /** A price found is positive; -1 only comes back as the requested sentinel. */
  lemma FoundIsPositive(m: Market, cache: map<string, Series>, symbol: string, d: Day, flag: bool, today: Day)
    requires ValidMarket(m) && Consistent(m, cache)
    ensures QuoteOf(m, cache, symbol, d, flag, today).Found? ==>
      QuoteOf(m, cache, symbol, d, flag, today).price > 0.0
      || (flag && QuoteOf(m, cache, symbol, d, flag, today).price == Unavailable)
  {
  }

  /** Up to 2022-10-31 a listed symbol is priced from its bundled series, whatever the cache and the network hold. */
  lemma BundledFirst(m: Market, cache: map<string, Series>, symbol: string, d: Day, flag: bool, today: Day)
    requires WellFormedMarket(m) && symbol in m.csvSymbols
    requires Calendar.NotAfter(d, LastBundledDay) && d in m.bundled[symbol]
    ensures QuoteOf(m, cache, symbol, d, flag, today) == Found(m.bundled[symbol][d])
    ensures CacheAfter(m, cache, symbol, d) == cache
  {
  }

  /**
   * Without the sentinel, a price the fetched series lacks is the price of the first later day it
   * has, no later than tomorrow; null if there is none.
   */
  lemma ScanQuote(m: Market, cache: map<string, Series>, symbol: string, d: Day, today: Day)
    requires WellFormedMarket(m) && !BundledHit(m, symbol, d) && !CacheHit(cache, symbol, d)
    requires Fetch(m, symbol).Success?
    ensures var series := Fetch(m, symbol).value;
      match QuoteOf(m, cache, symbol, d, false, today)
      case Found(p) =>
        exists e: Day ::
          && e in series && series[e] == p
          && Calendar.DayNumber(d) <= Calendar.DayNumber(e) <= Max(Calendar.DayNumber(d), Calendar.DayNumber(today) + 1)
          && forall x: Day :: Calendar.DayNumber(d) <= Calendar.DayNumber(x) < Calendar.DayNumber(e) ==> x !in series
      case Missing => forall x: Day :: Calendar.DayNumber(d) <= Calendar.DayNumber(x) <= Calendar.DayNumber(today) + 1 ==> x !in series
      case Failed(_) => false
  {
    var series := Fetch(m, symbol).value;
    if d in series {
      assert d in series && series[d] == series[d];
    } else {
      var r := ScanFrom(series, d, today);
      ScanFromFirst(series, d, today);
      if r.Some? {
        assert r.value in series;
      }
    }
  }

  /** Two caches under which every lookup answers alike. */
  ghost predicate SameAnswers(m: Market, c1: map<string, Series>, c2: map<string, Series>)
    requires WellFormedMarket(m)
  {
    forall s, d, flag, today :: QuoteOf(m, c1, s, d, flag, today) == QuoteOf(m, c2, s, d, flag, today)
  }

  /** QuoteStable for all later lookups at once. */
  lemma LookupKeepsAnswers(m: Market, cache: map<string, Series>, s0: string, d0: Day)
    requires ValidMarket(m) && Consistent(m, cache)
    ensures Consistent(m, CacheAfter(m, cache, s0, d0))
    ensures SameAnswers(m, CacheAfter(m, cache, s0, d0), cache)
  {
    forall s, d, flag, today
      ensures QuoteOf(m, CacheAfter(m, cache, s0, d0), s, d, flag, today) == QuoteOf(m, cache, s, d, flag, today)
    {
      QuoteStable(m, cache, s0, d0, s, d, flag, today);
    }
    QuoteStable(m, cache, s0, d0, s0, d0, false, d0);
  }

  /** With a consistent cache, every lookup answers what it would answer with an empty cache. */
  lemma CacheIrrelevant(m: Market, cache: map<string, Series>, s: string, d: Day, flag: bool, today: Day)
    requires ValidMarket(m) && Consistent(m, cache)
    ensures QuoteOf(m, cache, s, d, flag, today) == QuoteOf(m, map[], s, d, flag, today)
  {
    if !BundledHit(m, s, d) && CacheHit(cache, s, d) {
      assert Fetch(m, s).Success? ==> d in Fetch(m, s).value;
    }
  }

  /** Two consistent caches give every lookup the same answer. */
  lemma ConsistentCachesAgree(m: Market, c1: map<string, Series>, c2: map<string, Series>,
                              s: string, d: Day, flag: bool, today: Day)
    requires ValidMarket(m) && Consistent(m, c1) && Consistent(m, c2)
    ensures QuoteOf(m, c1, s, d, flag, today) == QuoteOf(m, c2, s, d, flag, today)
  {
    CacheIrrelevant(m, c1, s, d, flag, today);
    CacheIrrelevant(m, c2, s, d, flag, today);
  }
}
