/**
 * The portfolio model as an object: the price cache it fills, the ledgers it stores per user,
 * directory and portfolio name, the per-user text of ongoing strategies, and the list of symbols
 * that may be sold. The market data are fixed for the object's lifetime; `today` is a parameter.
 */
module Model {
  import opened Wrappers
  import Text
  import Calendar
  import Prices
  import Ledger
  import Performance
  import Strategy
  import Checkpoint
  import CheckpointLoops
  import Validators

  type Day = Calendar.Day
  type Record = Ledger.Record

  /** The two stores: `inflexible/` for PORTFOLIO records, `flexible/` for BUY and SELL records. */
  datatype Store = Inflexible | Flexible

  /** The store a record of this operation is written to. */
  function StoreOf(op: Ledger.Operation): Store {
    if op == Ledger.PortfolioOp then Inflexible else Flexible
  }

  type Ledgers = map<(string, Store, string), seq<Record>>

  /** The ledger a model reading from `store` finds; a missing file reads as the empty array. */
  function StoredIn(ledgers: Ledgers, user: string, store: Store, name: string): seq<Record> {
    if (user, store, name) in ledgers then ledgers[(user, store, name)] else []
  }

  /** What a lookup leaves in a new record: the price, or null when none was found. */
  function PriceOf(q: Prices.Quote): Option<real> {
    if q.Found? then Some(q.price) else None
  }

  /** The lookups writePortfolioToJson makes: entry i is priced once, on its own date. */
  function Quotes(m: Prices.Market, cache: map<string, Prices.Series>, symbols: seq<string>, dates: seq<Day>,
                  today: Day): seq<Prices.Quote>
    requires Prices.WellFormedMarket(m) && |dates| == |symbols|
  {
    seq(|symbols|, i requires 0 <= i < |symbols| && |dates| == |symbols| && Prices.WellFormedMarket(m) =>
      Prices.QuoteOf(m, cache, symbols[i], dates[i], false, today))
  }

  /** The entries of one call of writePortfolioToJson, with what the lookup of each answered. */
  predicate Fits(symbols: seq<string>, dates: seq<Day>, quantities: seq<real>, commissions: seq<real>, quotes: seq<Prices.Quote>) {
    |dates| == |symbols| && |quantities| == |symbols| && |commissions| == |symbols| && |quotes| == |symbols|
  }

  /** The record built from entry i; None when its lookup threw. */
  function Entry(op: Ledger.Operation, symbols: seq<string>, dates: seq<Day>, quantities: seq<real>, commissions: seq<real>,
                 quotes: seq<Prices.Quote>, i: nat): Option<Record>
    requires Fits(symbols, dates, quantities, commissions, quotes) && i < |symbols|
  {
    if quotes[i].Failed? then None
    else Some(Ledger.Record(op, symbols[i], dates[i], quantities[i], PriceOf(quotes[i]),
                            if op == Ledger.PortfolioOp then None else Some(commissions[i])))
  }

  function Append(acc: Option<seq<Record>>, e: Option<Record>): Option<seq<Record>> {
    if acc.Some? && e.Some? then Some(acc.value + [e.value]) else None
  }

  /** The records built from the first n entries; None as soon as a lookup throws. */
  function NewRecords(op: Ledger.Operation, symbols: seq<string>, dates: seq<Day>, quantities: seq<real>, commissions: seq<real>,
                      quotes: seq<Prices.Quote>, n: nat): (r: Option<seq<Record>>)
    requires Fits(symbols, dates, quantities, commissions, quotes) && n <= |symbols|
    ensures r.Some? ==> |r.value| == n
    decreases n
  {
    if n == 0 then Some([])
    else Append(NewRecords(op, symbols, dates, quantities, commissions, quotes, n - 1),
                Entry(op, symbols, dates, quantities, commissions, quotes, n - 1))
  }

  /**
   * The records written: none at all when some lookup throws; otherwise one per entry, carrying
   * its symbol, date and quantity, the price found (null when there was none) and, for BUY and
   * SELL only, its commission.
   */
  lemma {:induction false} NewRecordsSpec(op: Ledger.Operation, symbols: seq<string>, dates: seq<Day>, quantities: seq<real>,
                                          commissions: seq<real>, quotes: seq<Prices.Quote>, n: nat)
    requires Fits(symbols, dates, quantities, commissions, quotes) && n <= |symbols|
    ensures var r := NewRecords(op, symbols, dates, quantities, commissions, quotes, n);
      && (r.None? <==> exists i :: 0 <= i < n && quotes[i].Failed?)
      && (r.Some? ==> Ledger.AllWellFormed(r.value))
      && (r.Some? ==> forall i :: 0 <= i < n ==>
            && r.value[i].op == op && r.value[i].symbol == symbols[i] && r.value[i].date == dates[i]
            && r.value[i].quantity == quantities[i] && r.value[i].price == PriceOf(quotes[i])
            && r.value[i].commission == (if op == Ledger.PortfolioOp then None else Some(commissions[i])))
    decreases n
  {
    if n > 0 {
      NewRecordsSpec(op, symbols, dates, quantities, commissions, quotes, n - 1);
    }
  }

  /** One more entry whose lookup answered extends the records by the record built from it. */
  lemma NewRecordsStep(op: Ledger.Operation, symbols: seq<string>, dates: seq<Day>, quantities: seq<real>,
                       commissions: seq<real>, quotes: seq<Prices.Quote>, i: nat, records: seq<Record>)
    requires Fits(symbols, dates, quantities, commissions, quotes) && i < |symbols|
    requires NewRecords(op, symbols, dates, quantities, commissions, quotes, i) == Some(records)
    requires !quotes[i].Failed?
    ensures NewRecords(op, symbols, dates, quantities, commissions, quotes, i + 1)
         == Some(records + [Ledger.Record(op, symbols[i], dates[i], quantities[i], PriceOf(quotes[i]),
                                          if op == Ledger.PortfolioOp then None else Some(commissions[i]))])
  {
  }

  /** Once a lookup has thrown, no record is written. */
  lemma {:induction false} NewRecordsStop(op: Ledger.Operation, symbols: seq<string>, dates: seq<Day>, quantities: seq<real>,
                                          commissions: seq<real>, quotes: seq<Prices.Quote>, n: nat)
    requires Fits(symbols, dates, quantities, commissions, quotes) && n <= |symbols|
    requires NewRecords(op, symbols, dates, quantities, commissions, quotes, n).None?
    ensures NewRecords(op, symbols, dates, quantities, commissions, quotes, |symbols|).None?
    decreases |symbols| - n
  {
    if n < |symbols| {
      NewRecordsStop(op, symbols, dates, quantities, commissions, quotes, n + 1);
    }
  }

  /** The records one call of writePortfolioToJson adds, each priced by a lookup on its own date. */
  function Written(m: Prices.Market, cache: map<string, Prices.Series>, op: Ledger.Operation,
                   symbols: seq<string>, dates: seq<Day>, quantities: seq<real>, commissions: seq<real>,
                   today: Day): Option<seq<Record>>
    requires Prices.WellFormedMarket(m)
    requires |dates| == |symbols| && |quantities| == |symbols| && |commissions| == |symbols|
  {
    NewRecords(op, symbols, dates, quantities, commissions, Quotes(m, cache, symbols, dates, today), |symbols|)
  }

  /** Nothing is written when some lookup throws; otherwise record i holds entry i and the price found on its date. */
  lemma WrittenSpec(m: Prices.Market, cache: map<string, Prices.Series>, op: Ledger.Operation,
                    symbols: seq<string>, dates: seq<Day>, quantities: seq<real>, commissions: seq<real>, today: Day)
    requires Prices.WellFormedMarket(m)
    requires |dates| == |symbols| && |quantities| == |symbols| && |commissions| == |symbols|
    ensures var r := Written(m, cache, op, symbols, dates, quantities, commissions, today);
      && (r.None? <==> exists i :: 0 <= i < |symbols| && Prices.QuoteOf(m, cache, symbols[i], dates[i], false, today).Failed?)
      && (r.Some? ==> |r.value| == |symbols| && Ledger.AllWellFormed(r.value))
      && (r.Some? ==> forall i :: 0 <= i < |symbols| ==>
            && r.value[i].op == op && r.value[i].symbol == symbols[i] && r.value[i].date == dates[i]
            && r.value[i].quantity == quantities[i]
            && r.value[i].price == PriceOf(Prices.QuoteOf(m, cache, symbols[i], dates[i], false, today))
            && r.value[i].commission == (if op == Ledger.PortfolioOp then None else Some(commissions[i])))
  {
    var qs := Quotes(m, cache, symbols, dates, today);
    NewRecordsSpec(op, symbols, dates, quantities, commissions, qs, |symbols|);
  }

  /**
   * The ledgers after one call of writePortfolioToJson by a model reading from `kind`: unchanged
   * when a lookup throws; otherwise the records are stored under the operation's directory,
   * after the ledger the model reads for BUY and SELL, alone for PORTFOLIO.
   */
  function AfterWrite(m: Prices.Market, cache: map<string, Prices.Series>, ledgers: Ledgers, kind: Store,
                      user: string, name: string, op: Ledger.Operation, symbols: seq<string>, dates: seq<Day>,
                      quantities: seq<real>, commissions: seq<real>, today: Day): Ledgers
    requires Prices.WellFormedMarket(m)
    requires |dates| == |symbols| && |quantities| == |symbols| && |commissions| == |symbols|
  {
    var recs := Written(m, cache, op, symbols, dates, quantities, commissions, today);
    if recs.None? then ledgers
    else ledgers[(user, StoreOf(op), name) := (if op == Ledger.PortfolioOp then [] else StoredIn(ledgers, user, kind, name)) + recs.value]
  }

  /** The records written do not depend on which consistent cache the lookups start from. */
  lemma WrittenCacheIndependent(m: Prices.Market, c1: map<string, Prices.Series>, c2: map<string, Prices.Series>,
                                op: Ledger.Operation, symbols: seq<string>, dates: seq<Day>, quantities: seq<real>,
                                commissions: seq<real>, today: Day)
    requires Prices.ValidMarket(m) && Prices.Consistent(m, c1) && Prices.Consistent(m, c2)
    requires |dates| == |symbols| && |quantities| == |symbols| && |commissions| == |symbols|
    ensures Written(m, c1, op, symbols, dates, quantities, commissions, today) == Written(m, c2, op, symbols, dates, quantities, commissions, today)
  {
    var q1, q2 := Quotes(m, c1, symbols, dates, today), Quotes(m, c2, symbols, dates, today);
    forall i | 0 <= i < |symbols| ensures q1[i] == q2[i] {
      Prices.ConsistentCachesAgree(m, c1, c2, symbols[i], dates[i], false, today);
    }
    assert q1 == q2;
  }

  /** The days from `to` back to just after `from` all answer the sentinel. */
  ghost predicate SentinelAfter(m: Prices.Market, cache: map<string, Prices.Series>, symbol: string, from: Day, to: Day)
    requires Prices.WellFormedMarket(m)
  {
    forall x: Day :: Calendar.DayNumber(from) < Calendar.DayNumber(x) <= Calendar.DayNumber(to) ==>
      Prices.QuoteOf(m, cache, symbol, x, true, to) == Prices.Found(Prices.Unavailable)
  }

  /** A sentinel on the day after `day` extends the run of sentinels back to `day`. */
  lemma SentinelStepBack(m: Prices.Market, cache: map<string, Prices.Series>, symbol: string, day: Day, next: Day, to: Day)
    requires Prices.WellFormedMarket(m) && Calendar.NextDay(day) == next
    requires SentinelAfter(m, cache, symbol, next, to)
    requires Prices.QuoteOf(m, cache, symbol, next, true, to) == Prices.Found(Prices.Unavailable)
    ensures SentinelAfter(m, cache, symbol, day, to)
  {
    forall x: Day | Calendar.DayNumber(day) < Calendar.DayNumber(x) <= Calendar.DayNumber(to)
      ensures Prices.QuoteOf(m, cache, symbol, x, true, to) == Prices.Found(Prices.Unavailable)
    {
      if Calendar.DayNumber(x) == Calendar.DayNumber(next) {
        Calendar.DayNumberInjective(x, next);
      }
    }
  }

  /**
   * What getLastValidPrice may answer: some day e up to today after which every day answers the
   * sentinel, and e's own price, or -1 when the lookup on e throws.
   */
  ghost predicate LastValid(m: Prices.Market, cache: map<string, Prices.Series>, symbol: string, today: Day, price: real)
    requires Prices.WellFormedMarket(m)
  {
    exists e: Day ::
      && Calendar.DayNumber(e) <= Calendar.DayNumber(today)
      && SentinelAfter(m, cache, symbol, e, today)
      && if price == Prices.Unavailable then Prices.QuoteOf(m, cache, symbol, e, true, today).Failed?
         else Prices.QuoteOf(m, cache, symbol, e, true, today) == Prices.Found(price)
  }

  /** The first day back from today without the sentinel gives a lastValid answer: its price, or -1 when it throws. */
  lemma LastValidAt(m: Prices.Market, cache: map<string, Prices.Series>, symbol: string, day: Day, today: Day)
    requires Prices.ValidMarket(m) && Prices.Consistent(m, cache)
    requires Calendar.DayNumber(day) <= Calendar.DayNumber(today) && SentinelAfter(m, cache, symbol, day, today)
    requires Prices.QuoteOf(m, cache, symbol, day, true, today) != Prices.Found(Prices.Unavailable)
    ensures Prices.QuoteOf(m, cache, symbol, day, true, today).Failed? || Prices.QuoteOf(m, cache, symbol, day, true, today).Found?
    ensures LastValid(m, cache, symbol, today,
                      match Prices.QuoteOf(m, cache, symbol, day, true, today)
                      case Found(p) => p
                      case _ => Prices.Unavailable)
  {
    Prices.SentinelNeverMissing(m, cache, symbol, day, today);
    Prices.FoundIsPositive(m, cache, symbol, day, true, today);
  }

  /** What getPortfolioValue answers on the day numbered n, starting from `cache`. */
  function ValueAt(m: Prices.Market, cache: map<string, Prices.Series>, records: seq<Record>, today: Day, n: nat): Option<real> {
    Ledger.ValueResult(Ledger.ValueUpTo(m, cache, records, Performance.DateOf(n), today, |records|))
  }

  /** The sampler's valuation: ValueAt on every day number. */
  function ValueFn(m: Prices.Market, cache: map<string, Prices.Series>, records: seq<Record>, today: Day): Performance.Valuation {
    (n: nat) => ValueAt(m, cache, records, today, n)
  }

  /**
   * V answers as ValueAt does. The sampler's loops carry this instead of ValueFn itself, so that
   * their proofs need not look inside a day's value.
   */
  ghost predicate Values(V: Performance.Valuation, m: Prices.Market, cache: map<string, Prices.Series>, records: seq<Record>, today: Day) {
    forall n: nat {:trigger ValueAt(m, cache, records, today, n)} :: V(n) == ValueAt(m, cache, records, today, n)
  }

  // ---------------------------------------------------------------------------------------------
  // investmentStrategy

  /** How investmentStrategy ends: true, false for another strategy name, or an exception it lets through. */
  datatype Run = Invested | NotDollarCost | Threw

  /**
   * `Math.round(q * 100.0) / 100.0` of what the amount's share buys after the commission, at price
   * p. A NaN weight makes q NaN, and `Math.round` of NaN is 0.
   */
  function Quantity(amount: real, w: Strategy.Weight, c: real, p: real): real
    requires p != 0.0
  {
    match w
    case Finite(x) => Ledger.Round2((amount * x / 100.0 - c) / p)
    case NaN => 0.0
  }

  /** The same day for each of n entries: `buyDatesArray`. */
  function Dates(day: Day, n: nat): (r: seq<Day>)
    ensures |r| == n && forall i :: 0 <= i < n ==> r[i] == day
  {
    seq(n, _ => day)
  }

  /** Every price found is positive, as a lookup without the flag guarantees. */
  predicate PositivePrices(quotes: seq<Prices.Quote>) {
    forall i :: 0 <= i < |quotes| ==> quotes[i].Found? ==> quotes[i].price > 0.0
  }

  lemma QuotesPositive(m: Prices.Market, cache: map<string, Prices.Series>, symbols: seq<string>, dates: seq<Day>, today: Day)
    requires Prices.ValidMarket(m) && Prices.Consistent(m, cache) && |dates| == |symbols|
    ensures PositivePrices(Quotes(m, cache, symbols, dates, today))
  {
    var qs := Quotes(m, cache, symbols, dates, today);
    forall i | 0 <= i < |qs| && qs[i].Found? ensures qs[i].price > 0.0 {
      Prices.FoundIsPositive(m, cache, symbols[i], dates[i], false, today);
    }
  }

  /**
   * The quantities of one pass for the first n symbols, given what each lookup answered: the
   * rounded quantity for a price found, 0 where the lookup threw the IOException the pass
   * catches; None where a null price is unboxed or the API call is refused, neither of which is
   * caught.
   */
  function PassQuantities(quotes: seq<Prices.Quote>, ws: seq<Strategy.Weight>, cs: seq<real>, amount: real, n: nat): (r: Option<seq<real>>)
    requires PositivePrices(quotes) && n <= |quotes| && |ws| == |quotes| && |cs| == |quotes|
    ensures r.Some? ==> |r.value| == n
    decreases n
  {
    if n == 0 then Some([])
    else
      match PassQuantities(quotes, ws, cs, amount, n - 1)
      case None => None
      case Some(qs) =>
        var q := quotes[n - 1];
        if q.Found? then Some(qs + [Quantity(amount, ws[n - 1], cs[n - 1], q.price)])
        else if q == Prices.Failed(Prices.IoError) then Some(qs + [0.0])
        else None
  }

  /** A pass goes through exactly when no lookup answers null or a refused call, and then gives each symbol its quantity. */
  lemma {:induction false} PassQuantitiesSpec(quotes: seq<Prices.Quote>, ws: seq<Strategy.Weight>, cs: seq<real>, amount: real, n: nat)
    requires PositivePrices(quotes) && n <= |quotes| && |ws| == |quotes| && |cs| == |quotes|
    ensures var r := PassQuantities(quotes, ws, cs, amount, n);
      && (r.Some? <==> forall i :: 0 <= i < n ==> quotes[i].Found? || quotes[i] == Prices.Failed(Prices.IoError))
      && (r.Some? ==> forall i :: 0 <= i < n ==>
            r.value[i] == if quotes[i].Found? then Quantity(amount, ws[i], cs[i], quotes[i].price) else 0.0)
    decreases n
  {
    if n > 0 {
      PassQuantitiesSpec(quotes, ws, cs, amount, n - 1);
    }
  }

  /** Weights that summed to zero are NaN after normalising: a pass that goes through buys 0 of every symbol. */
  lemma NaNWeightsBuyNothing(quotes: seq<Prices.Quote>, cs: seq<real>, amount: real)
    requires PositivePrices(quotes) && |cs| == |quotes|
    ensures var r := PassQuantities(quotes, Strategy.AllNaN(|quotes|), cs, amount, |quotes|);
      r.Some? ==> |r.value| == |quotes| && forall i :: 0 <= i < |quotes| ==> r.value[i] == 0.0
  {
    PassQuantitiesSpec(quotes, Strategy.AllNaN(|quotes|), cs, amount, |quotes|);
  }

  /** Once a lookup of a pass has thrown, the whole pass throws. */
  lemma {:induction false} PassQuantitiesStop(quotes: seq<Prices.Quote>, ws: seq<Strategy.Weight>, cs: seq<real>, amount: real, n: nat)
    requires PositivePrices(quotes) && n <= |quotes| && |ws| == |quotes| && |cs| == |quotes|
    requires PassQuantities(quotes, ws, cs, amount, n).None?
    ensures PassQuantities(quotes, ws, cs, amount, |quotes|).None?
    decreases |quotes| - n
  {
    if n < |quotes| {
      PassQuantitiesStop(quotes, ws, cs, amount, n + 1);
    }
  }

  /** The pass on `day`: every symbol priced on that day. */
  function Pass(m: Prices.Market, cache: map<string, Prices.Series>, symbols: seq<string>, ws: seq<Strategy.Weight>,
                cs: seq<real>, amount: real, day: Day, today: Day): (r: Option<seq<real>>)
    requires Prices.ValidMarket(m) && Prices.Consistent(m, cache) && |ws| == |symbols| && |cs| == |symbols|
    ensures r.Some? ==> |r.value| == |symbols|
  {
    QuotesPositive(m, cache, symbols, Dates(day, |symbols|), today);
    PassQuantities(Quotes(m, cache, symbols, Dates(day, |symbols|), today), ws, cs, amount, |symbols|)
  }

  /** The ledgers after the passes on the given days, and whether a pass threw (ending the run). */
  datatype Progress = Progress(ledgers: Ledgers, threw: bool)

  /** The pass on day number c: the BUY records of its quantities written, or a throw that changes nothing. */
  function Buy(m: Prices.Market, cache: map<string, Prices.Series>, ledgers: Ledgers, kind: Store, user: string,
               name: string, symbols: seq<string>, ws: seq<Strategy.Weight>, cs: seq<real>, amount: real, today: Day, c: nat): Progress
    requires Prices.ValidMarket(m) && Prices.Consistent(m, cache) && |ws| == |symbols| && |cs| == |symbols|
  {
    var day := Performance.DateOf(c);
    var qs := Pass(m, cache, symbols, ws, cs, amount, day, today);
    if qs.None? then Progress(ledgers, true)
    else Progress(AfterWrite(m, cache, ledgers, kind, user, name, Ledger.Buy, symbols, Dates(day, |symbols|), qs.value, cs, today), false)
  }

  /** Buy with everything but the ledgers and the day fixed: what one pass of a run does. */
  function BuyFn(m: Prices.Market, cache: map<string, Prices.Series>, kind: Store, user: string, name: string,
                 symbols: seq<string>, ws: seq<Strategy.Weight>, cs: seq<real>, amount: real, today: Day): (Ledgers, nat) -> Progress
    requires Prices.ValidMarket(m) && Prices.Consistent(m, cache) && |ws| == |symbols| && |cs| == |symbols|
  {
    (l: Ledgers, c: nat) => Buy(m, cache, l, kind, user, name, symbols, ws, cs, amount, today, c)
  }

  /** B is that function, stated pointwise. */
  ghost predicate Buys(B: (Ledgers, nat) -> Progress, m: Prices.Market, cache: map<string, Prices.Series>, kind: Store,
                       user: string, name: string, symbols: seq<string>, ws: seq<Strategy.Weight>, cs: seq<real>, amount: real, today: Day)
    requires Prices.ValidMarket(m) && Prices.Consistent(m, cache) && |ws| == |symbols| && |cs| == |symbols|
  {
    forall l: Ledgers, c: nat {:trigger Buy(m, cache, l, kind, user, name, symbols, ws, cs, amount, today, c)} ::
      B(l, c) == Buy(m, cache, l, kind, user, name, symbols, ws, cs, amount, today, c)
  }

  /** The passes B makes on the buying days in turn, up to the first that throws. */
  function Invest(B: (Ledgers, nat) -> Progress, ledgers: Ledgers, days: seq<nat>): Progress
    decreases |days|
  {
    if days == [] then Progress(ledgers, false)
    else
      var p := B(ledgers, days[0]);
      if p.threw then p
      else Invest(B, p.ledgers, days[1..])
  }

  /** One turn of the loop that buys: its pass, then the passes from the cursor an interval later. */
  lemma InvestStep(B: (Ledgers, nat) -> Progress, ledgers: Ledgers, d: nat, e: nat, interval: int)
    requires interval >= 1 && d <= e && Strategy.Adjust(d, e).Stay?
    ensures var c := Strategy.Adjust(d, e).day;
      var p := B(ledgers, c);
      Invest(B, ledgers, Strategy.Cycles(d, e, interval))
        == if p.threw then p else Invest(B, p.ledgers, Strategy.Cycles(c + interval, e, interval))
  {
    var c := Strategy.Adjust(d, e).day;
    assert Strategy.Cycles(d, e, interval) == [c] + Strategy.Cycles(c + interval, e, interval);
    assert ([c] + Strategy.Cycles(c + interval, e, interval))[1..] == Strategy.Cycles(c + interval, e, interval);
  }

  /** `Double.toString` of each number, as the record prints the arrays. */
  function Shown(xs: seq<real>, show: real -> string): (r: seq<string>)
    ensures |r| == |xs| && forall i :: 0 <= i < |xs| ==> r[i] == show(xs[i])
  {
    seq(|xs|, i requires 0 <= i < |xs| => show(xs[i]))
  }

  /** `Double.toString` of each weight: NaN prints as "NaN". */
  function ShownWeights(ws: seq<Strategy.Weight>, show: real -> string): (r: seq<string>)
    ensures |r| == |ws|
    ensures forall i :: 0 <= i < |ws| ==> r[i] == if ws[i].Finite? then show(ws[i].value) else "NaN"
  {
    seq(|ws|, i requires 0 <= i < |ws| => if ws[i].Finite? then show(ws[i].value) else "NaN")
  }

  /** Numbers shown as weights print as they do as numbers. */
  lemma ShownFinites(xs: seq<real>, show: real -> string)
    ensures ShownWeights(Strategy.Finites(xs), show) == Shown(xs, show)
  {
  }

  /** The record an open-ended run appends for a portfolio the file does not mention yet. */
  function StrategyRecord(name: string, user: string, interval: int, exit: Day, amount: real, symbols: seq<string>,
                          ws: seq<Strategy.Weight>, cs: seq<real>, show: real -> string): string
  {
    Checkpoint.RecordText(name, Strategy.DollarCostAveraging, user, interval, Calendar.FormatDate(exit), show(amount),
                          symbols, ShownWeights(ws, show), Shown(cs, show))
  }

  /** The ongoing-strategies file of the user, None when there is none. */
  function FileOf(checkpoints: map<string, string>, user: string): Option<string> {
    if user in checkpoints then Some(checkpoints[user]) else None
  }

  /** What a run leaves: the ledgers, the ongoing-strategies files and how it ended. */
  datatype Effect = Effect(ledgers: Ledgers, checkpoints: map<string, string>, run: Run)

  /** The day the run's loop ends on: the end date given, today's date for an open-ended run. */
  function EndOf(end: Option<Day>, today: Day): Day {
    if end.Some? then end.value else today
  }

  /**
   * investmentStrategy once the weights are normalised to `ws`: for another strategy name,
   * nothing. Otherwise the passes on the buying days of Strategy.Cycles from the start to the end
   * (today for an open-ended run); a pass that throws ends the run with what the earlier passes
   * stored. An open-ended run then rewrites the user's ongoing-strategies file with the day the
   * loop stopped on, or throws when a line of the file has too few fields.
   */
  function StrategyEffect(m: Prices.Market, cache: map<string, Prices.Series>, ledgers: Ledgers,
                          checkpoints: map<string, string>, kind: Store, strategy: string, name: string, user: string,
                          start: Day, end: Option<Day>, interval: int, amount: real, symbols: seq<string>,
                          ws: seq<Strategy.Weight>, cs: seq<real>, today: Day, show: real -> string): Effect
    requires Prices.ValidMarket(m) && Prices.Consistent(m, cache) && |ws| == |symbols| && |cs| == |symbols| && interval >= 1
  {
    if strategy != Strategy.DollarCostAveraging then Effect(ledgers, checkpoints, NotDollarCost)
    else
      var s, e := Performance.NumberOf(start), Performance.NumberOf(EndOf(end, today));
      var p := Invest(BuyFn(m, cache, kind, user, name, symbols, ws, cs, amount, today), ledgers, Strategy.Cycles(s, e, interval));
      if p.threw then Effect(p.ledgers, checkpoints, Threw)
      else if end.Some? then Effect(p.ledgers, checkpoints, Invested)
      else
        var exit := Calendar.FormatDate(Performance.DateOf(Strategy.Exit(s, e, interval)));
        var text := FileOf(checkpoints, user);
        if text.Some? && !Checkpoint.Rewritable(Checkpoint.Lines(text.value), name) then Effect(p.ledgers, checkpoints, Threw)
        else
          var record := StrategyRecord(name, user, interval, Performance.DateOf(Strategy.Exit(s, e, interval)), amount, symbols, ws, cs, show);
          Effect(p.ledgers, checkpoints[user := Checkpoint.Rewrite(text, name, exit, record)], Invested)
  }

  /** A run none of whose passes falls on or before its end appends no record. */
  lemma StrategyEffectWithoutPasses(m: Prices.Market, cache: map<string, Prices.Series>, ledgers: Ledgers,
                                    checkpoints: map<string, string>, kind: Store, strategy: string, name: string,
                                    user: string, start: Day, end: Option<Day>, interval: int, amount: real,
                                    symbols: seq<string>, ws: seq<Strategy.Weight>, cs: seq<real>, today: Day, show: real -> string)
    requires Prices.ValidMarket(m) && Prices.Consistent(m, cache) && |ws| == |symbols| && |cs| == |symbols| && interval >= 1
    requires Performance.NumberOf(EndOf(end, today)) < Performance.NumberOf(start)
    ensures StrategyEffect(m, cache, ledgers, checkpoints, kind, strategy, name, user, start, end, interval, amount,
                           symbols, ws, cs, today, show).ledgers == ledgers
  {
    var s, e := Performance.NumberOf(start), Performance.NumberOf(EndOf(end, today));
    assert Strategy.Cycles(s, e, interval) == [];
  }

  /**
   * An open-ended run that ends well has passed every buying day and rewritten the user's file with
   * the day its loop stopped on, which is after today.
   */
  lemma OpenEndedEffect(m: Prices.Market, cache: map<string, Prices.Series>, ledgers: Ledgers,
                        checkpoints: map<string, string>, kind: Store, strategy: string, name: string, user: string,
                        start: Day, interval: int, amount: real, symbols: seq<string>, ws: seq<Strategy.Weight>, cs: seq<real>,
                        today: Day, show: real -> string)
    requires Prices.ValidMarket(m) && Prices.Consistent(m, cache) && |ws| == |symbols| && |cs| == |symbols| && interval >= 1
    requires StrategyEffect(m, cache, ledgers, checkpoints, kind, strategy, name, user, start, None, interval, amount,
                            symbols, ws, cs, today, show).run == Invested
    ensures var x := Strategy.Exit(Performance.NumberOf(start), Performance.NumberOf(today), interval);
      var text := FileOf(checkpoints, user);
      && strategy == Strategy.DollarCostAveraging
      && x > Performance.NumberOf(today)
      && (text.Some? ==> Checkpoint.Rewritable(Checkpoint.Lines(text.value), name))
      && StrategyEffect(m, cache, ledgers, checkpoints, kind, strategy, name, user, start, None, interval, amount,
                        symbols, ws, cs, today, show).checkpoints
         == checkpoints[user := Checkpoint.Rewrite(text, name, Calendar.FormatDate(Performance.DateOf(x)),
                                                   StrategyRecord(name, user, interval, Performance.DateOf(x), amount,
                                                                  symbols, ws, cs, show))]
  {
    Strategy.ExitAfterEnd(Performance.NumberOf(start), Performance.NumberOf(today), interval);
  }

  class StocksModel {
    const market: Prices.Market
    /** Which store this model reads from (the Inflexible or Flexible subclass). */
    const kind: Store
    var cache: map<string, Prices.Series>
    var ledgers: Ledgers
    /** The ongoing-strategies file of each user who has one. */
    var checkpoints: map<string, string>
    var validSellSymbols: seq<string>

    ghost predicate Valid()
      reads this
    {
      Prices.ValidMarket(market) && Prices.Consistent(market, cache)
      && forall k :: k in ledgers ==> Ledger.AllWellFormed(ledgers[k])
    }

    constructor(market: Prices.Market, kind: Store)
      requires Prices.ValidMarket(market)
      ensures Valid() && this.market == market && this.kind == kind
      ensures cache == map[] && ledgers == map[] && checkpoints == map[] && validSellSymbols == []
    {
      this.market := market;
      this.kind := kind;
      cache := map[];
      ledgers := map[];
      checkpoints := map[];
      validSellSymbols := [];
    }

    /** The ledger getPortfolioFromJson reads for this model. */
    function Stored(user: string, name: string): seq<Record>
      reads this
    {
      StoredIn(ledgers, user, kind, name)
    }

    // -------------------------------------------------------------------------------------------
    // Prices

    /** callAPI: parse the response rows after the header; a successful fetch replaces the symbol's cache. */
    method CallApi(symbol: string) returns (r: Result<Prices.Series, Prices.Error>)
      requires Prices.WellFormedMarket(market)
      modifies this`cache
      ensures r == Prices.Fetch(market, symbol)
      ensures cache == if r.Success? then old(cache)[symbol := r.value] else old(cache)
    {
      if symbol !in market.responses {
        return Failure(Prices.IoError);
      }
      r := ReadResponse(market.responses[symbol]);
      if r.Success? {
        cache := cache[symbol := r.value];
      }
    }

    /** The loop of callAPI: three lines are the service's error answer; otherwise every row after the header. */
    static method ReadResponse(lines: seq<string>) returns (r: Result<Prices.Series, Prices.Error>)
      requires Prices.ResponseReadable(lines)
      ensures r == Prices.Parse(lines)
    {
      if |lines| == 3 {
        return Failure(Prices.InvalidCall);
      }
      var data := Prices.DataRows(lines);
      ghost var rows := Prices.ReadRows(data);
      var series: Prices.Series := map[];
      for j := 0 to |data|
        invariant Prices.Collect(rows, j) == Success(series)
      {
        var next := ReadStep(data, j, series, rows);
        if next.Failure? {
          Prices.CollectStops(rows, j + 1);
          return next;
        }
        series := next.value;
      }
      return Success(series);
    }

    /** One iteration of callAPI's loop: a row whose column 4 is not a number ends the call. */
    static method ReadStep(data: seq<string>, j: nat, series: Prices.Series, ghost rows: seq<Option<Prices.Row>>)
      returns (r: Result<Prices.Series, Prices.Error>)
      requires Prices.RowsHaveClose(data) && rows == Prices.ReadRows(data) && j < |data|
      requires Prices.Collect(rows, j) == Success(series)
      ensures r == Prices.Collect(rows, j + 1)
    {
      var row := ReadLine(data[j]);
      assert row == rows[j];
      if row.None? {
        return Failure(Prices.InvalidCall);
      }
      if row.value.day.Some? {
        return Success(series[row.value.day.value := row.value.close]);
      }
      return Success(series);
    }

    /** The body of callAPI's loop: split a row at commas, read column 4 and key it by column 0. */
    static method ReadLine(line: string) returns (row: Option<Prices.Row>)
      requires |Prices.Columns(line)| >= 5
      ensures row == Prices.ReadRow(line)
    {
      var parts := Prices.Columns(line);
      var v := Text.ParseDecimal(parts[4]);
      if v.None? {
        return None;
      }
      row := Some(Prices.Row(Prices.RowDay(parts[0]), v.value));
    }

    /** getPriceHelper: fetch, then the exact day, the sentinel, or the forward scan up to tomorrow. */
    method GetPriceHelper(symbol: string, d: Day, flag: bool, today: Day) returns (q: Prices.Quote)
      requires Prices.WellFormedMarket(market)
      modifies this`cache
      ensures q == match Prices.Fetch(market, symbol)
                   case Failure(e) => Prices.Failed(e)
                   case Success(series) => Prices.PriceFrom(series, d, flag, today)
      ensures cache == match Prices.Fetch(market, symbol)
                       case Failure(_) => old(cache)
                       case Success(series) => old(cache)[symbol := series]
    {
      var fetched := CallApi(symbol);
      if fetched.Failure? {
        return Prices.Failed(fetched.error);
      }
      var series := fetched.value;
      if d !in series && flag {
        return Prices.Found(Prices.Unavailable);
      }
      q := ScanForward(series, d, today);
    }

    /** The loop of getPriceHelper: step a day at a time while there is no price and the day is not after today. */
    static method ScanForward(series: Prices.Series, d: Day, today: Day) returns (q: Prices.Quote)
      ensures q == match Prices.ScanFrom(series, d, today)
                   case None => Prices.Missing
                   case Some(e) => Prices.Found(series[e])
    {
      var day: Day := d;
      while day !in series && Calendar.DayNumber(day) <= Calendar.DayNumber(today)
        invariant Prices.ScanFrom(series, day, today) == Prices.ScanFrom(series, d, today)
        decreases Calendar.DayNumber(today) + 1 - Calendar.DayNumber(day)
      {
        day := Calendar.NextDay(day);
      }
      if day in series {
        q := Prices.Found(series[day]);
      } else {
        q := Prices.Missing;
      }
    }

    /** getPrice: the bundled series up to 2022-10-31 for listed symbols, then the cache, then a fetch. */
    method GetPrice(symbol: string, d: Day, flag: bool, today: Day) returns (q: Prices.Quote)
      requires Valid()
      modifies this`cache
      ensures Valid()
      ensures q == Prices.QuoteOf(market, old(cache), symbol, d, flag, today)
      ensures cache == Prices.CacheAfter(market, old(cache), symbol, d)
    {
      Prices.LookupKeepsAnswers(market, cache, symbol, d);
      if Prices.BundledHit(market, symbol, d) {
        return Prices.Found(market.bundled[symbol][d]);
      }
      if Prices.CacheHit(cache, symbol, d) {
        return Prices.Found(cache[symbol][d]);
      }
      q := GetPriceHelper(symbol, d, flag, today);
    }

    /**
     * A getPrice call seen from a caller that started with cache `start`: any consistent cache
     * answers alike, so the quote is the one `start` would have given.
     */
    method LookUp(symbol: string, d: Day, flag: bool, today: Day, ghost start: map<string, Prices.Series>)
      returns (q: Prices.Quote)
      requires Valid() && Prices.Consistent(market, start)
      modifies this`cache
      ensures Valid()
      ensures q == Prices.QuoteOf(market, start, symbol, d, flag, today)
    {
      ghost var before := cache;
      q := GetPrice(symbol, d, flag, today);
      Prices.ConsistentCachesAgree(market, before, start, symbol, d, flag, today);
    }

    /**
     * getLastValidPrice: from today backward, the first day whose price is not the sentinel; -1
     * when a lookup throws first. Some day up to today must have a price or fail.
     */
    method GetLastValidPrice(symbol: string, today: Day) returns (price: real)
      requires Valid()
      requires exists w: Day :: Calendar.DayNumber(w) <= Calendar.DayNumber(today)
                 && Prices.QuoteOf(market, cache, symbol, w, true, today) != Prices.Found(Prices.Unavailable)
      modifies this`cache
      ensures Valid()
      ensures LastValid(market, old(cache), symbol, today, price)
    {
      ghost var w: Day :| Calendar.DayNumber(w) <= Calendar.DayNumber(today)
        && Prices.QuoteOf(market, cache, symbol, w, true, today) != Prices.Found(Prices.Unavailable);
      ghost var start := cache;
      var day: Day := today;
      var q := LookUp(symbol, day, true, today, start);
      while q == Prices.Found(Prices.Unavailable)
        invariant Valid() && Prices.Consistent(market, start)
        invariant Calendar.DayNumber(w) <= Calendar.DayNumber(day) <= Calendar.DayNumber(today)
        invariant q == Prices.QuoteOf(market, start, symbol, day, true, today)
        invariant SentinelAfter(market, start, symbol, day, today)
        decreases Calendar.DayNumber(day) - Calendar.DayNumber(w)
      {
        Calendar.DayNumberStrict(w, day);
        Calendar.DayNumberNonNegative(w);
        day, q := StepBack(symbol, day, today, start);
      }
      LastValidAt(market, start, symbol, day, today);
      if q.Failed? {
        return Prices.Unavailable;
      }
      price := q.price;
    }

    /** One iteration of that loop: the day before `prev`, and its quote. */
    method StepBack(symbol: string, prev: Day, today: Day, ghost start: map<string, Prices.Series>)
      returns (day: Day, q: Prices.Quote)
      requires Valid() && Prices.Consistent(market, start) && Calendar.DayNumber(prev) >= 1
      requires SentinelAfter(market, start, symbol, prev, today)
      requires Prices.QuoteOf(market, start, symbol, prev, true, today) == Prices.Found(Prices.Unavailable)
      modifies this`cache
      ensures Valid()
      ensures day == Calendar.PrevDay(prev) && Calendar.DayNumber(day) == Calendar.DayNumber(prev) - 1
      ensures q == Prices.QuoteOf(market, start, symbol, day, true, today)
      ensures SentinelAfter(market, start, symbol, day, today)
    {
      day := Calendar.PrevDay(prev);
      q := LookUp(symbol, day, true, today, start);
      SentinelStepBack(market, start, symbol, day, prev, today);
    }

    // -------------------------------------------------------------------------------------------
    // Ledgers

    /** getPortfolioFromJson: the stored ledger, or the empty array when there is none. */
    method GetPortfolioFromJson(user: string, name: string) returns (records: seq<Record>)
      ensures records == Stored(user, name)
      ensures (user, kind, name) !in ledgers ==> records == []
    {
      if (user, kind, name) in ledgers {
        records := ledgers[(user, kind, name)];
      } else {
        records := [];
      }
    }

    /**
     * writePortfolioToJson: PORTFOLIO starts a new ledger in `inflexible/`; BUY and SELL extend the
     * ledger this model reads and store it in `flexible/`. Each entry is priced once on its own date;
     * if a lookup throws, nothing is stored and the answer is false.
     */
    method WritePortfolioToJson(user: string, name: string, symbols: seq<string>, dates: seq<Day>,
                                quantities: seq<real>, commissions: seq<real>, op: Ledger.Operation, today: Day)
      returns (ok: bool)
      requires Valid()
      requires |dates| == |symbols| && |quantities| == |symbols| && |commissions| == |symbols|
      modifies this`cache, this`ledgers
      ensures Valid()
      ensures ok == Written(market, old(cache), op, symbols, dates, quantities, commissions, today).Some?
      ensures ledgers == AfterWrite(market, old(cache), old(ledgers), kind, user, name, op, symbols, dates, quantities, commissions, today)
    {
      var base: seq<Record> := [];
      if op != Ledger.PortfolioOp {
        base := GetPortfolioFromJson(user, name);
      }
      assert Ledger.AllWellFormed(base);
      var written := PriceEntries(op, symbols, dates, quantities, commissions, today);
      if written.None? {
        return false;
      }
      ghost var quotes := Quotes(market, old(cache), symbols, dates, today);
      NewRecordsSpec(op, symbols, dates, quantities, commissions, quotes, |symbols|);
      assert Ledger.AllWellFormed(base + written.value);
      ledgers := ledgers[(user, StoreOf(op), name) := base + written.value];
      return true;
    }

    /** The loop of writePortfolioToJson: one lookup and one new record per entry, stopping when a lookup throws. */
    method PriceEntries(op: Ledger.Operation, symbols: seq<string>, dates: seq<Day>,
                        quantities: seq<real>, commissions: seq<real>, today: Day)
      returns (written: Option<seq<Record>>)
      requires Valid()
      requires |dates| == |symbols| && |quantities| == |symbols| && |commissions| == |symbols|
      modifies this`cache
      ensures Valid()
      ensures written == Written(market, old(cache), op, symbols, dates, quantities, commissions, today)
    {
      ghost var quotes := Quotes(market, old(cache), symbols, dates, today);
      var records: seq<Record> := [];
      for i := 0 to |symbols|
        invariant Valid()
        invariant NewRecords(op, symbols, dates, quantities, commissions, quotes, i) == Some(records)
      {
        var next := PriceEntry(op, symbols, dates, quantities, commissions, today, i, quotes, old(cache), records);
        if next.None? {
          NewRecordsStop(op, symbols, dates, quantities, commissions, quotes, i + 1);
          return None;
        }
        records := next.value;
      }
      return Some(records);
    }

    /** One iteration of that loop: look up entry i and build its record, or stop when the lookup throws. */
    method PriceEntry(op: Ledger.Operation, symbols: seq<string>, dates: seq<Day>, quantities: seq<real>,
                      commissions: seq<real>, today: Day, i: nat, ghost quotes: seq<Prices.Quote>,
                      ghost start: map<string, Prices.Series>, records: seq<Record>)
      returns (next: Option<seq<Record>>)
      requires Valid() && Prices.Consistent(market, start)
      requires Fits(symbols, dates, quantities, commissions, quotes) && i < |symbols|
      requires quotes[i] == Prices.QuoteOf(market, start, symbols[i], dates[i], false, today)
      requires NewRecords(op, symbols, dates, quantities, commissions, quotes, i) == Some(records)
      modifies this`cache
      ensures Valid()
      ensures next == NewRecords(op, symbols, dates, quantities, commissions, quotes, i + 1)
    {
      var q := LookUp(symbols[i], dates[i], false, today, start);
      if q.Failed? {
        return None;
      }
      NewRecordsStep(op, symbols, dates, quantities, commissions, quotes, i, records);
      next := Some(records + [Ledger.Record(op, symbols[i], dates[i], quantities[i], PriceOf(q),
                                            if op == Ledger.PortfolioOp then None else Some(commissions[i]))]);
    }

    /** getPortfolioValue: the value on d of the records dated on or before d (None: a null price was unboxed). */
    method GetPortfolioValue(records: seq<Record>, d: Day, today: Day) returns (value: Option<real>)
      requires Valid()
      modifies this`cache
      ensures Valid()
      ensures value == Ledger.ValueResult(Ledger.ValueUpTo(market, old(cache), records, d, today, |records|))
    {
      var total := 0.0;
      for i := 0 to |records|
        invariant Valid()
        invariant Ledger.ValueUpTo(market, old(cache), records, d, today, i) == Ledger.Summing(total)
      {
        var v := ValueEntry(records, d, today, i, total, old(cache));
        if !v.Summing? {
          StopsAt(old(cache), records, d, today, i + 1, v);
          return if v.NoValue? then Some(Prices.Unavailable) else None;
        }
        total := v.total;
      }
      return Some(total);
    }

    /** One iteration of that loop: record i, if dated on or before d, priced on d and added with its sign. */
    method ValueEntry(records: seq<Record>, d: Day, today: Day, i: nat, total: real, ghost start: map<string, Prices.Series>)
      returns (v: Ledger.Valuation)
      requires Valid() && Prices.Consistent(market, start) && i < |records|
      requires Ledger.ValueUpTo(market, start, records, d, today, i) == Ledger.Summing(total)
      modifies this`cache
      ensures Valid()
      ensures v == Ledger.ValueUpTo(market, start, records, d, today, i + 1)
    {
      var r := records[i];
      if !Ledger.OnOrBefore(r, d) {
        return Ledger.Summing(total);
      }
      var q := LookUp(r.symbol, d, false, today, start);
      if q.Failed? {
        return Ledger.NoValue;
      }
      if q.Missing? {
        return Ledger.NullPrice;
      }
      if q.price == Prices.Unavailable {
        return Ledger.NoValue;
      }
      v := Ledger.Summing(total + Ledger.Signed(r, q.price));
    }

    /** Once the loop stops, the value stays stopped. */
    lemma StopsAt(c: map<string, Prices.Series>, records: seq<Record>, d: Day, today: Day, n: nat, v: Ledger.Valuation)
      requires Prices.WellFormedMarket(market) && n <= |records| && !v.Summing?
      requires Ledger.ValueUpTo(market, c, records, d, today, n) == v
      ensures Ledger.ValueUpTo(market, c, records, d, today, |records|) == v
      decreases |records| - n
    {
      if n < |records| {
        StopsAt(c, records, d, today, n + 1, v);
      }
    }

    /** getPortfolioValue on day number n, stated against the cache the caller started from. */
    method ValueOn(records: seq<Record>, n: nat, today: Day, ghost V: Performance.Valuation, ghost start: map<string, Prices.Series>)
      returns (v: Option<real>)
      requires Valid() && Prices.Consistent(market, start) && Values(V, market, start, records, today)
      modifies this`cache
      ensures Valid()
      ensures v == V(n)
    {
      v := GetPortfolioValue(records, Performance.DateOf(n), today);
      Ledger.ValueCacheIndependent(market, old(cache), start, records, Performance.DateOf(n), today, |records|);
      assert v == ValueAt(market, start, records, today, n);
    }

    /** The inner daily loop: one day later while the value is -1. */
    method ScanForwardOn(records: seq<Record>, d: nat, today: Day, fuel: nat, ghost V: Performance.Valuation,
                      ghost start: map<string, Prices.Series>)
      returns (sc: Performance.Scan)
      requires Valid() && Prices.Consistent(market, start) && Values(V, market, start, records, today)
      modifies this`cache
      ensures Valid()
      ensures sc == Performance.ScanForward(V, d, fuel)
    {
      var day, f := d, fuel;
      var v := ValueOn(records, day, today, V, start);
      while v == Some(Performance.Unavailable) && f > 0
        invariant Valid() && v == V(day)
        invariant Performance.ScanForward(V, day, f) == Performance.ScanForward(V, d, fuel)
        decreases f
      {
        day, f := day + 1, f - 1;
        v := ValueOn(records, day, today, V, start);
      }
      sc := if v.None? then Performance.ScanThrew
            else if v.value != Performance.Unavailable then Performance.Valued(day, v.value)
            else Performance.ScanOut;
    }

    /** The inner weekly, monthly and yearly loop: one day earlier while the value is -1. */
    method ScanBackwardOn(records: seq<Record>, d: nat, today: Day, fuel: nat, ghost V: Performance.Valuation,
                      ghost start: map<string, Prices.Series>)
      returns (sc: Performance.Scan)
      requires Valid() && Prices.Consistent(market, start) && Values(V, market, start, records, today)
      modifies this`cache
      ensures Valid()
      ensures sc == Performance.ScanBackward(V, d, fuel)
    {
      var day, f := d, fuel;
      var v := ValueOn(records, day, today, V, start);
      while v == Some(Performance.Unavailable) && f > 0 && day > 0
        invariant Valid() && v == V(day)
        invariant Performance.ScanBackward(V, day, f) == Performance.ScanBackward(V, d, fuel)
        decreases f
      {
        day, f := day - 1, f - 1;
        v := ValueOn(records, day, today, V, start);
      }
      sc := if v.None? then Performance.ScanThrew
            else if v.value != Performance.Unavailable then Performance.Valued(day, v.value)
            else Performance.ScanOut;
    }

    /** One weekly or yearly pass: the value on the probe day, else the backward scan from the day before the cursor. */
    method WeekStepOn(records: seq<Record>, cursor: nat, probe: nat, today: Day, fuel: nat, ghost V: Performance.Valuation,
                      ghost start: map<string, Prices.Series>)
      returns (sc: Performance.Scan)
      requires Valid() && Prices.Consistent(market, start) && Values(V, market, start, records, today)
      modifies this`cache
      ensures Valid()
      ensures sc == Performance.WeekStep(V, cursor, probe, fuel)
    {
      var v := ValueOn(records, probe, today, V, start);
      if v.None? {
        sc := Performance.ScanThrew;
      } else if v.value != Performance.Unavailable {
        sc := Performance.Valued(cursor, v.value);
      } else if cursor == 0 {
        sc := Performance.ScanOut;
      } else {
        sc := ScanBackwardOn(records, cursor - 1, today, fuel, V, start);
      }
    }

    /**
     * portfolioPerformance without its scale entry: the samples of the records' value between
     * begin and finish, daily, weekly, monthly or yearly by the length of the range. The weekly
     * loop starts with begin as its cursor and the Friday after it as its probe. Threw: a null price was unboxed; OutOfFuel: a scan
     * went on past `fuel` days.
     */
    method PortfolioPerformance(records: seq<Record>, begin: Day, finish: Day, today: Day, fuel: nat)
      returns (r: Performance.Outcome)
      requires Valid()
      modifies this`cache
      ensures Valid()
      ensures r == Performance.Sampled(ValueFn(market, old(cache), records, today), begin, finish, today, fuel)
    {
      ghost var start := cache;
      ghost var V := ValueFn(market, start, records, today);
      var b, f := Performance.NumberOf(begin), Performance.NumberOf(finish);
      match Performance.GranularityOf(f as int - b)
      case ByDay =>
        r := DailyLoop(records, b, f, today, fuel, V, start);
      case ByWeek =>
        r := WeeklyLoop(records, b, Performance.FridayAfter(b), f, today, fuel, V, start);
      case ByMonth =>
        r := MonthlyLoop(records, Performance.MonthEnd, Performance.MonthIndex(begin), Performance.MonthIndex(finish), today, fuel, V, start);
      case ByYear =>
        r := YearlyLoop(records, Performance.YearOf, Performance.YearLater,
                        Performance.NumberOf(Calendar.LastDayOfMonth(begin.year, 12)),
                        Performance.NumberOf(Calendar.LastDayOfMonth(finish.year, 12)), Performance.NumberOf(today),
                        today, fuel, V, start);
    }

    /** The daily loop: each day from b to f, moved forward to a valued day, keyed by that day. */
    method DailyLoop(records: seq<Record>, b: nat, f: nat, today: Day, fuel: nat, ghost V: Performance.Valuation,
                      ghost start: map<string, Prices.Series>)
      returns (r: Performance.Outcome)
      requires Valid() && Prices.Consistent(market, start) && Values(V, market, start, records, today)
      modifies this`cache
      ensures Valid()
      ensures r == Performance.Daily(V, b, f, fuel, [])
    {
      var cur := b;
      var acc: seq<Performance.Sample> := [];
      while cur <= f
        invariant Valid()
        invariant Performance.Daily(V, cur, f, fuel, acc) == Performance.Daily(V, b, f, fuel, [])
        decreases f + 1 - cur
      {
        var sc := ScanForwardOn(records, cur, today, fuel, V, start);
        if !sc.Valued? {
          return if sc.ScanThrew? then Performance.Threw else Performance.OutOfFuel;
        }
        Performance.DailyStep(V, cur, f, fuel, acc, sc.day, sc.value);
        acc := Performance.Put(acc, Performance.DayKey(sc.day), sc.value);
        cur := sc.day + 1;
      }
      r := Performance.Done(acc);
    }

    /** The weekly loop: probe, key the sample, move seven days on from the day keyed. */
    method WeeklyLoop(records: seq<Record>, cursor0: nat, probe0: nat, f: nat, today: Day, fuel: nat,
                      ghost V: Performance.Valuation,
                      ghost start: map<string, Prices.Series>)
      returns (r: Performance.Outcome)
      requires Valid() && Prices.Consistent(market, start) && Values(V, market, start, records, today)
      modifies this`cache
      ensures Valid()
      ensures r == Performance.Weekly(V, cursor0, probe0, f, fuel, [])
    {
      var cursor: nat, probe: nat, k: nat := cursor0, probe0, fuel;
      var acc: seq<Performance.Sample> := [];
      while cursor <= f
        invariant Valid()
        invariant Performance.Weekly(V, cursor, probe, f, k, acc) == Performance.Weekly(V, cursor0, probe0, f, fuel, [])
        decreases k
      {
        if k == 0 {
          return Performance.OutOfFuel;
        }
        var sc := WeekStepOn(records, cursor, probe, today, k, V, start);
        if !sc.Valued? {
          return if sc.ScanThrew? then Performance.Threw else Performance.OutOfFuel;
        }
        acc := Performance.Put(acc, Performance.DayKey(sc.day), sc.value);
        cursor, probe, k := sc.day + 7, sc.day + 7, k - 1;
      }
      r := Performance.Done(acc);
    }

    /** The monthly loop: each month from i0 to last, valued at its last valued day up to ends(i), keyed by the month. */
    method MonthlyLoop(records: seq<Record>, ends: int -> nat, i0: int, last: int, today: Day, fuel: nat,
                       ghost V: Performance.Valuation, ghost start: map<string, Prices.Series>)
      returns (r: Performance.Outcome)
      requires Valid() && Prices.Consistent(market, start) && Values(V, market, start, records, today)
      modifies this`cache
      ensures Valid()
      ensures r == Performance.Monthly(V, ends, i0, last, fuel, [])
    {
      var i := i0;
      var acc: seq<Performance.Sample> := [];
      while i <= last
        invariant Valid()
        invariant Performance.Monthly(V, ends, i, last, fuel, acc) == Performance.Monthly(V, ends, i0, last, fuel, [])
        decreases last - i
      {
        var sc := ScanBackwardOn(records, ends(i), today, fuel, V, start);
        if !sc.Valued? {
          return if sc.ScanThrew? then Performance.Threw else Performance.OutOfFuel;
        }
        acc := Performance.Put(acc, Performance.MonthKey(i), sc.value);
        i := i + 1;
      }
      r := Performance.Done(acc);
    }

    /**
     * The yearly loop: probe each 31 December (today, numbered t, once it is past), scan back, key
     * by year, move a year on. The calendar's year of a day number and its day a year later come in
     * as yearOf and later.
     */
    method YearlyLoop(records: seq<Record>, yearOf: nat -> int, later: nat -> nat, cursor0: nat, end: nat, t: nat,
                      today: Day, fuel: nat, ghost V: Performance.Valuation, ghost start: map<string, Prices.Series>)
      returns (r: Performance.Outcome)
      requires Valid() && Prices.Consistent(market, start) && Values(V, market, start, records, today)
      modifies this`cache
      ensures Valid()
      ensures r == Performance.Yearly(V, yearOf, later, cursor0, end, t, fuel, [])
    {
      var cursor: nat, k: nat := cursor0, fuel;
      var acc: seq<Performance.Sample> := [];
      while cursor <= end
        invariant Valid()
        invariant Performance.Yearly(V, yearOf, later, cursor, end, t, k, acc) == Performance.Yearly(V, yearOf, later, cursor0, end, t, fuel, [])
        decreases k
      {
        if k == 0 {
          return Performance.OutOfFuel;
        }
        var capped := cursor > t;
        var c := if capped then t else cursor;
        var sc := WeekStepOn(records, c, c, today, k, V, start);
        if !sc.Valued? {
          return if sc.ScanThrew? then Performance.Threw else Performance.OutOfFuel;
        }
        acc := Performance.Put(acc, Performance.YearKey(yearOf(sc.day)), sc.value);
        if capped {
          return Performance.Done(acc);
        }
        cursor, k := later(sc.day), k - 1;
      }
      r := Performance.Done(acc);
    }

    /**
     * getCompositionHelper on the stored ledger, with the inner step as the program writes it: only
     * BUY adds, and each date is compared with the anchor's. None: a stored null price was parsed.
     */
    method GetCompositionHelper(asOf: Day, user: string, name: string) returns (r: Option<seq<Ledger.Position>>)
      ensures var records := Stored(user, name);
        r == if Ledger.AllPriced(records) then Some(Ledger.CompositionAsWritten(records, asOf)) else None
    {
      var records := GetPortfolioFromJson(user, name);
      var processed: seq<string> := [];
      var positions: seq<Ledger.Position> := [];
      for index := 0 to |records|
        invariant forall k :: 0 <= k < index ==> records[k].price.Some?
        invariant Ledger.AllPriced(records) ==>
          Ledger.CompositionUpTo(records, Ledger.TalliesAsWritten(records, asOf), asOf, index) == Ledger.Outer(processed, positions)
      {
        var anchor := records[index];
        if anchor.price.None? {
          return None;
        }
        if Ledger.OnOrBefore(anchor, asOf) && anchor.symbol !in processed {
          var t := Ledger.Start(anchor);
          for i := 0 to |records|
            invariant forall k :: 0 <= k < index ==> records[k].price.Some?
            invariant forall k :: 0 <= k < i ==> records[k].price.Some?
            invariant Ledger.AllPriced(records) ==> t == Ledger.TallyAsWritten(records, index, asOf, i)
          {
            if i != index {
              var other := records[i];
              if other.price.None? {
                return None;
              }
              if Ledger.OnOrBefore(other, asOf) && other.symbol == anchor.symbol {
                t := Ledger.StepAsWritten(t, anchor.date, other);
              }
            }
          }
          processed := processed + [anchor.symbol];
          if t.total > 0.0 {
            positions := positions + [Ledger.PositionOf(records, index, t)];
          }
        }
      }
      return Some(positions);
    }

    /** setValidSellSymbols: the symbols bought in the stored ledger, each once. */
    method SetValidSellSymbols(name: string, user: string)
      modifies this`validSellSymbols
      ensures validSellSymbols == Ledger.BoughtSymbols(Stored(user, name))
      ensures forall s :: CheckValidSellSymbols(s) <==>
        exists i :: 0 <= i < |Stored(user, name)| && Stored(user, name)[i].op == Ledger.Buy && Stored(user, name)[i].symbol == s
    {
      var records := GetPortfolioFromJson(user, name);
      var symbols: seq<string> := [];
      for i := 0 to |records|
        invariant symbols == Ledger.BoughtSymbols(records[..i])
      {
        assert records[..i + 1][..i] == records[..i];
        if records[i].op == Ledger.Buy && records[i].symbol !in symbols {
          symbols := symbols + [records[i].symbol];
        }
      }
      assert records[..|records|] == records;
      validSellSymbols := symbols;
    }

    /** checkValidSellSymbols: whether the symbol was bought in the portfolio last examined. */
    predicate CheckValidSellSymbols(symbol: string)
      reads this
    {
      symbol in validSellSymbols
    }

    /** validSellOrderQuantity: what is held of the symbol on the sale's date covers the quantity. */
    method ValidSellOrderQuantity(symbol: string, quantity: real, date: Day, user: string, name: string)
      returns (ok: bool)
      ensures ok <==> Ledger.Holding(Stored(user, name), symbol, date) >= quantity
    {
      var records := GetPortfolioFromJson(user, name);
      var total := 0.0;
      for i := 0 to |records|
        invariant total == Ledger.Holding(records[..i], symbol, date)
      {
        assert records[..i + 1][..i] == records[..i];
        var r := records[i];
        if Ledger.OnOrBefore(r, date) && r.symbol == symbol {
          if r.op == Ledger.Buy {
            total := total + r.quantity;
          } else if r.op == Ledger.Sell {
            total := total - r.quantity;
          }
        }
      }
      assert records[..|records|] == records;
      ok := total >= quantity;
    }
    // -------------------------------------------------------------------------------------------
    // Strategies

    /**
     * investmentStrategy: normalise the weights in place, then, for dollar-cost averaging, buy
     * on every buying day from the start to the end (today when there is no end), the symbols in
     * the normalised proportions of `amount`; an open-ended run then records where it stopped in
     * the user's ongoing-strategies file. `show` is how a double is printed.
     */
    method InvestmentStrategy(strategy: string, name: string, user: string, start: Day, end: Option<Day>,
                              interval: int, amount: real, symbols: seq<string>, weights: array<real>,
                              commissions: seq<real>, today: Day, show: real -> string)
      returns (r: Run)
      requires Valid() && weights.Length == |symbols| && |commissions| == |symbols|
      requires Strategy.Normalizable(weights[..]) && interval >= 1
      modifies weights, this`cache, this`ledgers, this`checkpoints
      ensures Valid()
      ensures var nan := Validators.Sum(old(weights[..])) == 0.0;
        && Strategy.Held(weights[..], nan) == Strategy.Normalized(old(weights[..]))
        && (nan ==> weights[..] == old(weights[..]))
        && (!nan ==> weights[..] == Strategy.Rescaled(old(weights[..])))
      ensures var e := StrategyEffect(market, old(cache), old(ledgers), old(checkpoints), kind, strategy, name, user,
                                      start, end, interval, amount, symbols, Strategy.Normalized(old(weights[..])),
                                      commissions, today, show);
        ledgers == e.ledgers && checkpoints == e.checkpoints && r == e.run
    {
      var nan := NormalizeWeights(weights);
      if strategy != Strategy.DollarCostAveraging {
        return NotDollarCost;
      }
      var ws := Strategy.Held(weights[..], nan);
      var s, e := Performance.NumberOf(start), Performance.NumberOf(EndOf(end, today));
      var d;
      d, r := RunPasses(name, user, s, e, interval, amount, symbols, ws, commissions, today);
      if r == Threw || end.Some? {
        return;
      }
      var ok := RecordExit(name, user, interval, Performance.DateOf(d), amount, symbols, ws, commissions, show);
      if !ok {
        return Threw;
      }
    }

    /**
     * The end of an open-ended run: the user's ongoing-strategies file with the portfolio's record
     * moved to the exit date, or a new record appended; false when a line has too few fields.
     */
    method RecordExit(name: string, user: string, interval: int, exit: Day, amount: real, symbols: seq<string>,
                      ws: seq<Strategy.Weight>, commissions: seq<real>, show: real -> string)
      returns (ok: bool)
      modifies this`checkpoints
      ensures var text := FileOf(old(checkpoints), user);
        && (ok <==> text.None? || Checkpoint.Rewritable(Checkpoint.Lines(text.value), name))
        && checkpoints == if !ok then old(checkpoints)
                          else old(checkpoints)[user := Checkpoint.Rewrite(text, name, Calendar.FormatDate(exit),
                                 StrategyRecord(name, user, interval, exit, amount, symbols, ws, commissions, show))]
    {
      var text := if user in checkpoints then Some(checkpoints[user]) else None;
      var record := StrategyRecord(name, user, interval, exit, amount, symbols, ws, commissions, show);
      var newText := CheckpointLoops.RewriteFile(text, name, Calendar.FormatDate(exit), record);
      if newText.None? {
        return false;
      }
      checkpoints := checkpoints[user := newText.value];
      return true;
    }

    /**
     * The two loops over the weights: their sum, then each multiplied by 100 / sum when that is
     * under 100. A zero sum makes the factor infinite and every weight NaN: the array is then left
     * as it is and `nan` reports that it stands for NaN in every place.
     */
    method NormalizeWeights(weights: array<real>) returns (nan: bool)
      requires Strategy.Normalizable(weights[..])
      modifies weights
      ensures nan <==> Validators.Sum(old(weights[..])) == 0.0
      ensures Strategy.Held(weights[..], nan) == Strategy.Normalized(old(weights[..]))
      ensures nan ==> weights[..] == old(weights[..])
      ensures !nan ==> weights[..] == Strategy.Rescaled(old(weights[..]))
    {
      var sum := WeightSum(weights);
      nan := sum == 0.0;
      if sum < 100.0 && !nan {
        ScaleWeights(weights, 100.0 / sum);
      }
    }

    /** `weightageSum`, added up over the array. */
    method WeightSum(weights: array<real>) returns (sum: real)
      ensures sum == Validators.Sum(weights[..])
    {
      sum := 0.0;
      for i := 0 to weights.Length
        invariant sum == Validators.Sum(weights[..i])
      {
        assert weights[..i + 1][..i] == weights[..i];
        sum := sum + weights[i];
      }
      assert weights[..weights.Length] == weights[..];
    }

    /** `stockWeightagesArray[i] *= multiplyFactor` for every i. */
    method ScaleWeights(weights: array<real>, k: real)
      modifies weights
      ensures weights[..] == Strategy.Scaled(old(weights[..]), k)
    {
      for i := 0 to weights.Length
        invariant forall j :: 0 <= j < i ==> weights[j] == old(weights[j]) * k
        invariant forall j :: i <= j < weights.Length ==> weights[j] == old(weights[j])
      {
        weights[i] := weights[i] * k;
      }
      assert forall j :: 0 <= j < weights.Length ==> weights[..][j] == Strategy.Scaled(old(weights[..]), k)[j];
    }

    /**
     * The while loop of investmentStrategy over day numbers s to e: the ledgers after the passes
     * of Buy on the buying days, and the day the cursor stopped on, Strategy.Exit.
     */
    method RunPasses(name: string, user: string, s: nat, e: nat, interval: int, amount: real, symbols: seq<string>,
                     ws: seq<Strategy.Weight>, commissions: seq<real>, today: Day)
      returns (d: nat, r: Run)
      requires Valid() && |ws| == |symbols| && |commissions| == |symbols| && interval >= 1
      modifies this`cache, this`ledgers
      ensures Valid()
      ensures var p := Invest(BuyFn(market, old(cache), kind, user, name, symbols, ws, commissions, amount, today),
                              old(ledgers), Strategy.Cycles(s, e, interval));
        ledgers == p.ledgers && (r == if p.threw then Threw else Invested)
      ensures r == Invested ==> d == Strategy.Exit(s, e, interval)
    {
      ghost var cache0, ledgers0 := cache, ledgers;
      ghost var B := BuyFn(market, cache0, kind, user, name, symbols, ws, commissions, amount, today);
      assert Buys(B, market, cache0, kind, user, name, symbols, ws, commissions, amount, today);
      d := s;
      while d <= e
        invariant Valid() && Prices.Consistent(market, cache0)
        invariant Invest(B, ledgers, Strategy.Cycles(d, e, interval)) == Invest(B, ledgers0, Strategy.Cycles(s, e, interval))
        invariant Strategy.Exit(d, e, interval) == Strategy.Exit(s, e, interval)
        decreases e + 1 - d
      {
        var next, stop, threw := Turn(name, user, d, e, interval, amount, symbols, ws, commissions, today, cache0, B);
        if threw {
          return d, Threw;
        }
        d := next;
        if stop {
          break;
        }
      }
      assert Strategy.Cycles(d, e, interval) == [] && Strategy.Exit(d, e, interval) == d;
      return d, Invested;
    }

    /**
     * One turn of that loop from cursor d: the weekend step, and unless it passes the end, the
     * pass on the day it moved to; the cursor the next turn starts from.
     */
    method Turn(name: string, user: string, d: nat, e: nat, interval: int, amount: real, symbols: seq<string>,
                ws: seq<Strategy.Weight>, commissions: seq<real>, today: Day, ghost cache0: map<string, Prices.Series>,
                ghost B: (Ledgers, nat) -> Progress)
      returns (next: nat, stop: bool, threw: bool)
      requires Valid() && Prices.Consistent(market, cache0) && |ws| == |symbols| && |commissions| == |symbols|
      requires Buys(B, market, cache0, kind, user, name, symbols, ws, commissions, amount, today)
      requires interval >= 1 && d <= e
      modifies this`cache, this`ledgers
      ensures Valid()
      ensures d < next
      ensures stop ==> !threw && ledgers == old(ledgers)
      ensures stop ==> Strategy.Cycles(d, e, interval) == [] && next == Strategy.Exit(d, e, interval) && e < next
      ensures threw ==> Invest(B, old(ledgers), Strategy.Cycles(d, e, interval)) == Progress(ledgers, true)
      ensures !stop && !threw ==>
        && Invest(B, old(ledgers), Strategy.Cycles(d, e, interval)) == Invest(B, ledgers, Strategy.Cycles(next, e, interval))
        && Strategy.Exit(d, e, interval) == Strategy.Exit(next, e, interval)
    {
      var mv := Strategy.Adjust(d, e);
      if mv.Stop? {
        Strategy.Halt(d, e, interval);
        return mv.day, true, false;
      }
      Strategy.Step(d, e, interval);
      InvestStep(B, ledgers, d, e, interval);
      threw := PassAt(name, user, mv.day, amount, symbols, ws, commissions, today, cache0, B);
      next, stop := mv.day + interval, false;
    }

    /** The body of that loop for one buying day: the pass, and the BUY records written for it unless the pass threw. */
    method PassAt(name: string, user: string, c: nat, amount: real, symbols: seq<string>, ws: seq<Strategy.Weight>,
                  commissions: seq<real>, today: Day, ghost cache0: map<string, Prices.Series>,
                  ghost B: (Ledgers, nat) -> Progress)
      returns (threw: bool)
      requires Valid() && Prices.Consistent(market, cache0) && |ws| == |symbols| && |commissions| == |symbols|
      requires Buys(B, market, cache0, kind, user, name, symbols, ws, commissions, amount, today)
      modifies this`cache, this`ledgers
      ensures Valid()
      ensures Progress(ledgers, threw) == B(old(ledgers), c)
    {
      ghost var l0 := ledgers;
      assert B(l0, c) == Buy(market, cache0, l0, kind, user, name, symbols, ws, commissions, amount, today, c);
      var day := Performance.DateOf(c);
      var qs := PassQuantitiesOn(symbols, ws, commissions, amount, day, today, cache0);
      if qs.None? {
        return true;
      }
      ghost var before := cache;
      var _ := WritePortfolioToJson(user, name, symbols, Dates(day, |symbols|), qs.value, commissions, Ledger.Buy, today);
      WrittenCacheIndependent(market, before, cache0, Ledger.Buy, symbols, Dates(day, |symbols|), qs.value, commissions, today);
      return false;
    }

    /** The inner loop of a pass: one lookup and one quantity per symbol, on the pass's day. */
    method PassQuantitiesOn(symbols: seq<string>, ws: seq<Strategy.Weight>, cs: seq<real>, amount: real, day: Day, today: Day,
                            ghost start: map<string, Prices.Series>)
      returns (r: Option<seq<real>>)
      requires Valid() && Prices.Consistent(market, start) && |ws| == |symbols| && |cs| == |symbols|
      modifies this`cache
      ensures Valid()
      ensures r == Pass(market, start, symbols, ws, cs, amount, day, today)
    {
      ghost var quotes := Quotes(market, start, symbols, Dates(day, |symbols|), today);
      QuotesPositive(market, start, symbols, Dates(day, |symbols|), today);
      var qs: seq<real> := [];
      for i := 0 to |symbols|
        invariant Valid()
        invariant PassQuantities(quotes, ws, cs, amount, i) == Some(qs)
      {
        var q := LookUp(symbols[i], day, false, today, start);
        assert q == quotes[i];
        if q.Found? {
          qs := qs + [Quantity(amount, ws[i], cs[i], q.price)];
        } else if q == Prices.Failed(Prices.IoError) {
          qs := qs + [0.0];
        } else {
          PassQuantitiesStop(quotes, ws, cs, amount, i + 1);
          return None;
        }
      }
      return Some(qs);
    }

    /** isStrategyOngoing: the fields of the portfolio's line in the user's ongoing-strategies file, or none; None when it throws. */
    method IsStrategyOngoing(user: string, name: string) returns (r: Option<seq<string>>)
      ensures var text := FileOf(checkpoints, user);
        && (r.Some? <==> text.None? || Checkpoint.Searchable(Checkpoint.Lines(text.value), name))
        && (r.Some? ==> r.value == Checkpoint.Ongoing(text, name))
    {
      if user !in checkpoints {
        return Some([]);
      }
      r := CheckpointLoops.FindRecord(Checkpoint.Lines(checkpoints[user]), name);
    }
  }
}
