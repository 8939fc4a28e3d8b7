/**
 * A portfolio's transaction ledger and the queries over it: the quantity of a symbol held on a
 * date (the sell-order check), the cost basis, the symbols that may be sold, the composition on a
 * date and the value on a date. Records are kept in the order they were written.
 */
module Ledger {
  import opened Wrappers
  import Calendar
  import Prices

  type Day = Calendar.Day

  datatype Operation = PortfolioOp | Buy | Sell

  /**
   * One stored transaction. `price` is None when the lookup found no price (a null is stored);
   * `commission` is None for PORTFOLIO records, which are written without one.
   */
  datatype Record = Record(op: Operation, symbol: string, date: Day, quantity: real,
                           price: Option<real>, commission: Option<real>)

  predicate WellFormed(r: Record) {
    r.commission.None? <==> r.op == PortfolioOp
  }

  predicate AllWellFormed(records: seq<Record>) {
    forall i :: 0 <= i < |records| ==> WellFormed(records[i])
  }

  /** A record takes part in a query on day d when it is dated on or before d. */
  predicate OnOrBefore(r: Record, d: Day) {
    Calendar.NotAfter(r.date, d)
  }

  // ---------------------------------------------------------------------------------------------
  // Quantity held (validSellOrderQuantity)

  function HoldingStep(r: Record, s: string, d: Day): real {
    if OnOrBefore(r, d) && r.symbol == s then
      match r.op
      case Buy => r.quantity
      case Sell => -r.quantity
      case PortfolioOp => 0.0
    else 0.0
  }

  /** The running total validSellOrderQuantity keeps over the records, in order. */
  function Holding(records: seq<Record>, s: string, d: Day): real
    decreases |records|
  {
    if records == [] then 0.0
    else Holding(records[..|records| - 1], s, d) + HoldingStep(records[|records| - 1], s, d)
  }

  lemma HoldingSnoc(records: seq<Record>, r: Record, s: string, d: Day)
    ensures Holding(records + [r], s, d) == Holding(records, s, d) + HoldingStep(r, s, d)
  {
    assert (records + [r])[..|records|] == records;
  }

  /** The records of one operation on symbol s dated on or before d, in order. */
  function Matching(records: seq<Record>, op: Operation, s: string, d: Day): (r: seq<Record>)
    ensures forall x :: x in r ==> x.op == op && x.symbol == s && OnOrBefore(x, d)
    decreases |records|
  {
    if records == [] then []
    else
      (if records[0].op == op && records[0].symbol == s && OnOrBefore(records[0], d) then [records[0]] else [])
      + Matching(records[1..], op, s, d)
  }

  function TotalQuantity(records: seq<Record>): real
    decreases |records|
  {
    if records == [] then 0.0 else records[0].quantity + TotalQuantity(records[1..])
  }

  lemma {:induction false} MatchingSnoc(records: seq<Record>, r: Record, op: Operation, s: string, d: Day)
    ensures Matching(records + [r], op, s, d)
         == Matching(records, op, s, d) + (if r.op == op && r.symbol == s && OnOrBefore(r, d) then [r] else [])
    decreases |records|
  {
    if records == [] {
      assert [r][1..] == [];
    } else {
      assert (records + [r])[1..] == records[1..] + [r];
      MatchingSnoc(records[1..], r, op, s, d);
    }
  }

  lemma {:induction false} TotalQuantityConcat(a: seq<Record>, b: seq<Record>)
    ensures TotalQuantity(a + b) == TotalQuantity(a) + TotalQuantity(b)
    decreases |a|
  {
    if a == [] {
      assert a + b == b;
    } else {
      assert (a + b)[1..] == a[1..] + b;
      TotalQuantityConcat(a[1..], b);
    }
  }

  /** One more record adds its quantity to the matching total exactly when it matches. */
  lemma MatchingTotalSnoc(records: seq<Record>, r: Record, op: Operation, s: string, d: Day)
    ensures TotalQuantity(Matching(records + [r], op, s, d))
         == TotalQuantity(Matching(records, op, s, d)) + (if r.op == op && r.symbol == s && OnOrBefore(r, d) then r.quantity else 0.0)
  {
    MatchingSnoc(records, r, op, s, d);
    var one := if r.op == op && r.symbol == s && OnOrBefore(r, d) then [r] else [];
    TotalQuantityConcat(Matching(records, op, s, d), one);
    assert TotalQuantity([r]) == r.quantity by {
      assert [r][1..] == [];
    }
  }

  /**
   * The quantity validSellOrderQuantity compares with is what was bought minus what was sold of
   * that symbol up to the date; PORTFOLIO records, other symbols and later records play no part.
   */
  lemma {:induction false} HoldingIsBoughtMinusSold(records: seq<Record>, s: string, d: Day)
    ensures Holding(records, s, d)
         == TotalQuantity(Matching(records, Buy, s, d)) - TotalQuantity(Matching(records, Sell, s, d))
    decreases |records|
  {
    if records != [] {
      var n := |records| - 1;
      var front, r := records[..n], records[n];
      assert records == front + [r];
      HoldingIsBoughtMinusSold(front, s, d);
      MatchingTotalSnoc(front, r, Buy, s, d);
      MatchingTotalSnoc(front, r, Sell, s, d);
    }
  }

  // ---------------------------------------------------------------------------------------------
  // Cost basis (getCostValueBasis)

  /**
   * What one record adds to the cost basis on day d: a BUY its commission plus price times
   * quantity, a SELL its commission. A BUY stored with a null price adds nothing (the
   * NumberFormatException is caught).
   */
  function CostStep(r: Record, d: Day): real
    requires WellFormed(r)
  {
    if !OnOrBefore(r, d) then 0.0
    else
      match r.op
      case Buy => if r.price.Some? then r.commission.value + r.price.value * r.quantity else 0.0
      case Sell => r.commission.value
      case PortfolioOp => 0.0
  }

  function CostBasis(records: seq<Record>, d: Day): real
    requires AllWellFormed(records)
    decreases |records|
  {
    if records == [] then 0.0
    else CostBasis(records[..|records| - 1], d) + CostStep(records[|records| - 1], d)
  }

  /** getCostValueBasis: the loop adding up every record's part. */
  method GetCostValueBasis(records: seq<Record>, d: Day) returns (cost: real)
    requires AllWellFormed(records)
    ensures cost == CostBasis(records, d)
  {
    cost := 0.0;
    for i := 0 to |records|
      invariant cost == CostBasis(records[..i], d)
    {
      assert records[..i + 1][..i] == records[..i];
      cost := cost + CostStep(records[i], d);
    }
    assert records[..|records|] == records;
  }

  predicate NonNegative(r: Record) {
    r.quantity >= 0.0
    && (r.price.Some? ==> r.price.value >= 0.0)
    && (r.commission.Some? ==> r.commission.value >= 0.0)
  }

  /** With no negative amounts, the cost basis never decreases as the date moves later. */
  lemma {:induction false} CostBasisMonotone(records: seq<Record>, d1: Day, d2: Day)
    requires AllWellFormed(records) && forall i :: 0 <= i < |records| ==> NonNegative(records[i])
    requires Calendar.NotAfter(d1, d2)
    ensures CostBasis(records, d1) <= CostBasis(records, d2)
    decreases |records|
  {
    if records != [] {
      var n := |records| - 1;
      CostBasisMonotone(records[..n], d1, d2);
      var r := records[n];
      assert NonNegative(r) && WellFormed(r);
      if r.op == Buy && r.price.Some? {
        assert r.price.value * r.quantity >= 0.0;
      }
    }
  }

  /** A ledger whose purchases and sales all come after d has cost basis zero on d. */
  lemma {:induction false} CostBasisBeforeAnyTrade(records: seq<Record>, d: Day)
    requires AllWellFormed(records)
    requires forall i :: 0 <= i < |records| && records[i].op != PortfolioOp ==> !OnOrBefore(records[i], d)
    ensures CostBasis(records, d) == 0.0
    decreases |records|
  {
    if records != [] {
      CostBasisBeforeAnyTrade(records[..|records| - 1], d);
    }
  }

  // ---------------------------------------------------------------------------------------------
  // Symbols that may be sold (setValidSellSymbols)

  /** The symbols of the BUY records, each once, in the order of their first purchase. */
  function BoughtSymbols(records: seq<Record>): (r: seq<string>)
    ensures forall s :: s in r <==> exists i :: 0 <= i < |records| && records[i].op == Buy && records[i].symbol == s
    ensures forall i, j :: 0 <= i < j < |r| ==> r[i] != r[j]
    decreases |records|
  {
    if records == [] then []
    else
      var front := records[..|records| - 1];
      var acc := BoughtSymbols(front);
      var last := records[|records| - 1];
      assert forall i :: 0 <= i < |front| ==> front[i] == records[i];
      if last.op == Buy && last.symbol !in acc then acc + [last.symbol] else acc
  }

  // ---------------------------------------------------------------------------------------------
  // Composition on a date (getCompositionHelper)

  /** `Math.round(x * 100.0) / 100.0`, rounding half up to two decimals. */
  function Round2(x: real): real {
    ((x * 100.0 + 0.5).Floor as real) / 100.0
  }

  /** Round2 moves a value by at most half a cent. */
  lemma Round2Close(x: real)
    ensures x - 0.005 < Round2(x) <= x + 0.005
  {
    var f := (x * 100.0 + 0.5).Floor;
    assert f as real <= x * 100.0 + 0.5 < f as real + 1.0;
  }

  predicate Whole(x: real) {
    x == x.Floor as real
  }

  /** Whole numbers are left as they are. */
  lemma Round2Whole(x: real)
    requires Whole(x)
    ensures Round2(x) == x
  {
    var k := x.Floor;
    assert x * 100.0 + 0.5 == (100 * k) as real + 0.5;
    assert (x * 100.0 + 0.5).Floor == 100 * k;
  }

  /** The running state of the inner loop for one symbol. `avg` is None once a purchase divides by a zero total. */
  datatype Tally = Tally(total: real, avg: Option<real>, first: Day, last: Day)

  /** One position of the composition: the anchor record's price and commission, the tallied quantity, average and dates. */
  datatype Position = Position(symbol: string, quantity: real, first: Day, price: real,
                               last: Day, avgPrice: Option<real>, commission: Option<real>)

  predicate AllPriced(records: seq<Record>) {
    forall i :: 0 <= i < |records| ==> records[i].price.Some?
  }

  /** The tally the anchor record starts with, whatever its operation. */
  function Start(anchor: Record): Tally
    requires anchor.price.Some?
  {
    Tally(anchor.quantity, Some(anchor.price.value), anchor.date, anchor.date)
  }

  /** A purchase: the total grows and the average is re-weighted, each rounded to two decimals. */
  function Bought(t: Tally, r: Record): Tally
    requires r.price.Some?
  {
    var total := Round2(t.total + r.quantity);
    var avg := if total == 0.0 || t.avg.None? then None
               else Some(Reweighted(t.avg.value, t.total, r.price.value, r.quantity, total));
    t.(total := total, avg := avg)
  }

  /** The average price after a purchase, rounded to two decimals. */
  function Reweighted(avg: real, held: real, price: real, bought: real, total: real): real
    requires total != 0.0
  {
    Round2((avg * held + price * bought) / total)
  }

  /** A sale: the total shrinks, rounded to two decimals; the average stays. */
  function Sold(t: Tally, r: Record): Tally {
    t.(total := Round2(t.total - r.quantity))
  }

  /**
   * The inner loop's step as written: only BUY adds, every other operation subtracts, and the
   * dates are compared with the anchor's date rather than with the dates kept so far.
   */
  function StepAsWritten(t: Tally, anchorDate: Day, r: Record): Tally
    requires r.price.Some?
  {
    var first := if Calendar.Before(r.date, anchorDate) then r.date else t.first;
    var last := if !Calendar.Before(r.date, anchorDate) && Calendar.Before(anchorDate, r.date) then r.date else t.last;
    var u := if r.op == Buy then Bought(t, r) else Sold(t, r);
    u.(first := first, last := last)
  }

  /** The earliest and the latest date seen. */
  datatype Span = Span(first: Day, last: Day)

  /** A span widened to take in day d. */
  function Widen(sp: Span, d: Day): (w: Span)
    ensures Calendar.Ord(w.first) == Min(Calendar.Ord(sp.first), Calendar.Ord(d))
    ensures Calendar.Ord(w.last) == Max(Calendar.Ord(sp.last), Calendar.Ord(d))
    ensures w.first == sp.first || w.first == d
    ensures w.last == sp.last || w.last == d
  {
    Span(if Calendar.Before(d, sp.first) then d else sp.first, if Calendar.Before(sp.last, d) then d else sp.last)
  }

  /** The step as intended: a SELL subtracts and any other record adds; the dates are the earliest and the latest so far. */
  function Step(t: Tally, r: Record): (u: Tally)
    requires r.price.Some?
    ensures Span(u.first, u.last) == Widen(Span(t.first, t.last), r.date)
  {
    var w := Widen(Span(t.first, t.last), r.date);
    var u := if r.op == Sell then Sold(t, r) else Bought(t, r);
    u.(first := w.first, last := w.last)
  }

  function Min(a: int, b: int): int {
    if a < b then a else b
  }

  function Max(a: int, b: int): int {
    if a < b then b else a
  }

  /** Whether record i is tallied into the anchor a's position. */
  predicate Joins(records: seq<Record>, a: nat, i: nat, asOf: Day)
    requires a < |records| && i < |records|
  {
    i != a && OnOrBefore(records[i], asOf) && records[i].symbol == records[a].symbol
  }

  /** The inner loop over the first n records, for the anchor at index a. */
  function TallyUpTo(records: seq<Record>, a: nat, asOf: Day, n: nat): Tally
    requires a < |records| && n <= |records| && AllPriced(records)
    decreases n
  {
    if n == 0 then Start(records[a])
    else
      var t := TallyUpTo(records, a, asOf, n - 1);
      if Joins(records, a, n - 1, asOf) then Step(t, records[n - 1]) else t
  }

  /** The same loop with the step as written. */
  function TallyAsWritten(records: seq<Record>, a: nat, asOf: Day, n: nat): Tally
    requires a < |records| && n <= |records| && AllPriced(records)
    decreases n
  {
    if n == 0 then Start(records[a])
    else
      var t := TallyAsWritten(records, a, asOf, n - 1);
      if Joins(records, a, n - 1, asOf) then StepAsWritten(t, records[a].date, records[n - 1]) else t
  }

  function PositionOf(records: seq<Record>, a: nat, t: Tally): Position
    requires a < |records| && AllPriced(records)
  {
    var r := records[a];
    Position(r.symbol, t.total, t.first, r.price.value, t.last, t.avg, r.commission)
  }

  /** The outer loop's state: the symbols already handled and the positions emitted. */
  datatype Outer = Outer(processed: seq<string>, positions: seq<Position>)

  /**
   * The outer loop over the first n records: a record dated on or before asOf whose symbol is not
   * handled yet anchors that symbol; its position is emitted when the tallied total is positive.
   */
  function CompositionUpTo(records: seq<Record>, tallies: seq<Tally>, asOf: Day, n: nat): Outer
    requires n <= |records| && |tallies| == |records| && AllPriced(records)
    decreases n
  {
    if n == 0 then Outer([], [])
    else
      var o := CompositionUpTo(records, tallies, asOf, n - 1);
      var r := records[n - 1];
      if OnOrBefore(r, asOf) && r.symbol !in o.processed then
        var t := tallies[n - 1];
        Outer(o.processed + [r.symbol], if t.total > 0.0 then o.positions + [PositionOf(records, n - 1, t)] else o.positions)
      else o
  }

  /** The inner loop's result for every record taken as the anchor. */
  function Tallies(records: seq<Record>, asOf: Day): (ts: seq<Tally>)
    requires AllPriced(records)
    ensures |ts| == |records|
  {
    seq(|records|, a requires 0 <= a < |records| && AllPriced(records) => TallyUpTo(records, a, asOf, |records|))
  }

  /** The composition with the intended step. */
  function Composition(records: seq<Record>, asOf: Day): seq<Position>
    requires AllPriced(records)
  {
    CompositionUpTo(records, Tallies(records, asOf), asOf, |records|).positions
  }

  /** The inner loop's result as written for every record taken as the anchor. */
  function TalliesAsWritten(records: seq<Record>, asOf: Day): (ts: seq<Tally>)
    requires AllPriced(records)
    ensures |ts| == |records|
  {
    seq(|records|, a requires 0 <= a < |records| && AllPriced(records) => TallyAsWritten(records, a, asOf, |records|))
  }

  /** The composition the program computes: the same outer loop over the tallies as written. */
  function CompositionAsWritten(records: seq<Record>, asOf: Day): seq<Position>
    requires AllPriced(records)
  {
    CompositionUpTo(records, TalliesAsWritten(records, asOf), asOf, |records|).positions
  }

  /** The first index of a record of symbol s dated on or before asOf: the anchor of s. */
  function AnchorUpTo(records: seq<Record>, s: string, asOf: Day, n: nat): (r: Option<nat>)
    requires n <= |records|
    ensures r.Some? ==> r.value < n && records[r.value].symbol == s && OnOrBefore(records[r.value], asOf)
    decreases n
  {
    if n == 0 then None
    else
      match AnchorUpTo(records, s, asOf, n - 1)
      case Some(a) => Some(a)
      case None => if records[n - 1].symbol == s && OnOrBefore(records[n - 1], asOf) then Some(n - 1) else None
  }

  /** The anchor is the first qualifying record; there is none exactly when no record qualifies. */
  lemma {:induction false} AnchorIsFirst(records: seq<Record>, s: string, asOf: Day, n: nat)
    requires n <= |records|
    ensures AnchorUpTo(records, s, asOf, n).Some? ==>
      forall i :: 0 <= i < AnchorUpTo(records, s, asOf, n).value ==> !(records[i].symbol == s && OnOrBefore(records[i], asOf))
    ensures AnchorUpTo(records, s, asOf, n).None? <==>
      forall i :: 0 <= i < n ==> !(records[i].symbol == s && OnOrBefore(records[i], asOf))
    decreases n
  {
    if n > 0 {
      AnchorIsFirst(records, s, asOf, n - 1);
    }
  }

  predicate DistinctSymbols(ps: seq<Position>) {
    forall i, j :: 0 <= i < j < |ps| ==> ps[i].symbol != ps[j].symbol
  }

  /** A symbol's anchor does not move once found; before that, record n is the anchor when it qualifies. */
  lemma AnchorStable(records: seq<Record>, asOf: Day, n: nat)
    requires n < |records|
    ensures forall s :: AnchorUpTo(records, s, asOf, n).Some? ==> AnchorUpTo(records, s, asOf, n + 1) == AnchorUpTo(records, s, asOf, n)
    ensures forall s :: (s != records[n].symbol || !OnOrBefore(records[n], asOf)) ==> AnchorUpTo(records, s, asOf, n + 1) == AnchorUpTo(records, s, asOf, n)
  {
  }

  /** The symbols the outer loop has handled are exactly those with an anchor so far. */
  lemma {:induction false} ProcessedAnchored(records: seq<Record>, tallies: seq<Tally>, asOf: Day, n: nat)
    requires n <= |records| && |tallies| == |records| && AllPriced(records)
    ensures forall s :: s in CompositionUpTo(records, tallies, asOf, n).processed <==> AnchorUpTo(records, s, asOf, n).Some?
    decreases n
  {
    if n > 0 {
      ProcessedAnchored(records, tallies, asOf, n - 1);
      AnchorStable(records, asOf, n - 1);
    }
  }

  /** AnchorStable for one symbol. */
  lemma AnchorStableAt(records: seq<Record>, s: string, asOf: Day, n: nat)
    requires n < |records|
    ensures AnchorUpTo(records, s, asOf, n).Some? ==> AnchorUpTo(records, s, asOf, n + 1) == AnchorUpTo(records, s, asOf, n)
    ensures (s != records[n].symbol || !OnOrBefore(records[n], asOf)) ==> AnchorUpTo(records, s, asOf, n + 1) == AnchorUpTo(records, s, asOf, n)
  {
  }

  /** Position p sits at its symbol's anchor among the first n records, with that anchor's tally. */
  predicate AnchoredAt(records: seq<Record>, tallies: seq<Tally>, asOf: Day, n: nat, p: Position)
    requires n <= |records| && |tallies| == |records| && AllPriced(records)
  {
    && AnchorUpTo(records, p.symbol, asOf, n).Some?
    && p == PositionOf(records, AnchorUpTo(records, p.symbol, asOf, n).value,
                       tallies[AnchorUpTo(records, p.symbol, asOf, n).value])
  }

  /** Every position emitted among the first n records sits at its anchor, carries its tally, and is positive. */
  predicate AllAnchored(records: seq<Record>, tallies: seq<Tally>, asOf: Day, n: nat)
    requires n <= |records| && |tallies| == |records| && AllPriced(records)
  {
    forall p :: p in CompositionUpTo(records, tallies, asOf, n).positions ==>
      p.symbol in CompositionUpTo(records, tallies, asOf, n).processed && AnchoredAt(records, tallies, asOf, n, p) && p.quantity > 0.0
  }

  /** Every position emitted sits at its symbol's anchor, carries that anchor's tally, and is positive. */
  lemma {:induction false} PositionsAnchored(records: seq<Record>, tallies: seq<Tally>, asOf: Day, n: nat)
    requires n <= |records| && |tallies| == |records| && AllPriced(records)
    ensures AllAnchored(records, tallies, asOf, n)
    decreases n
  {
    if n > 0 {
      PositionsAnchored(records, tallies, asOf, n - 1);
      var o := CompositionUpTo(records, tallies, asOf, n - 1);
      var r := records[n - 1];
      if OnOrBefore(r, asOf) && r.symbol !in o.processed {
        NewAnchorAnchored(records, tallies, asOf, n);
      } else {
        NoAnchorAnchored(records, tallies, asOf, n);
      }
    }
  }

  /** The step of PositionsAnchored where record n - 1 anchors a new symbol. */
  lemma NewAnchorAnchored(records: seq<Record>, tallies: seq<Tally>, asOf: Day, n: nat)
    requires 0 < n <= |records| && |tallies| == |records| && AllPriced(records)
    requires AllAnchored(records, tallies, asOf, n - 1)
    requires OnOrBefore(records[n - 1], asOf) && records[n - 1].symbol !in CompositionUpTo(records, tallies, asOf, n - 1).processed
    ensures AllAnchored(records, tallies, asOf, n)
  {
    var o := CompositionUpTo(records, tallies, asOf, n - 1);
    var o' := CompositionUpTo(records, tallies, asOf, n);
    var r := records[n - 1];
    ProcessedAnchored(records, tallies, asOf, n - 1);
    assert AnchorUpTo(records, r.symbol, asOf, n) == Some(n - 1);
    forall p | p in o'.positions
      ensures p.symbol in o'.processed && AnchoredAt(records, tallies, asOf, n, p) && p.quantity > 0.0
    {
      if p in o.positions {
        AnchorStableAt(records, p.symbol, asOf, n - 1);
      }
    }
  }

  /** The step of PositionsAnchored where record n - 1 anchors nothing. */
  lemma NoAnchorAnchored(records: seq<Record>, tallies: seq<Tally>, asOf: Day, n: nat)
    requires 0 < n <= |records| && |tallies| == |records| && AllPriced(records)
    requires AllAnchored(records, tallies, asOf, n - 1)
    requires !(OnOrBefore(records[n - 1], asOf) && records[n - 1].symbol !in CompositionUpTo(records, tallies, asOf, n - 1).processed)
    ensures AllAnchored(records, tallies, asOf, n)
  {
    var o' := CompositionUpTo(records, tallies, asOf, n);
    assert o' == CompositionUpTo(records, tallies, asOf, n - 1);
    forall p | p in o'.positions
      ensures p.symbol in o'.processed && AnchoredAt(records, tallies, asOf, n, p) && p.quantity > 0.0
    {
      AnchorStableAt(records, p.symbol, asOf, n - 1);
    }
  }

  /** No symbol is emitted twice. */
  lemma {:induction false} PositionsDistinct(records: seq<Record>, tallies: seq<Tally>, asOf: Day, n: nat)
    requires n <= |records| && |tallies| == |records| && AllPriced(records)
    ensures DistinctSymbols(CompositionUpTo(records, tallies, asOf, n).positions)
    decreases n
  {
    if n > 0 {
      PositionsDistinct(records, tallies, asOf, n - 1);
      PositionsAnchored(records, tallies, asOf, n - 1);
      var o := CompositionUpTo(records, tallies, asOf, n - 1);
      var r := records[n - 1];
      var o' := CompositionUpTo(records, tallies, asOf, n);
      if OnOrBefore(r, asOf) && r.symbol !in o.processed && |o'.positions| > |o.positions| {
        var t := tallies[n - 1];
        var p := PositionOf(records, n - 1, t);
        assert o'.positions == o.positions + [p];
        forall i, j | 0 <= i < j < |o'.positions| ensures o'.positions[i].symbol != o'.positions[j].symbol {
          if j < |o.positions| {
            assert o'.positions[i] == o.positions[i] && o'.positions[j] == o.positions[j];
          } else {
            assert o'.positions[i] in o.positions;
          }
        }
      }
    }
  }

  /** Every handled symbol whose anchor's tally is positive has its position emitted. */
  lemma {:induction false} PositionsComplete(records: seq<Record>, tallies: seq<Tally>, asOf: Day, n: nat)
    requires n <= |records| && |tallies| == |records| && AllPriced(records)
    ensures forall s :: s in CompositionUpTo(records, tallies, asOf, n).processed && AnchorUpTo(records, s, asOf, n).Some? ==>
      var a := AnchorUpTo(records, s, asOf, n).value;
      tallies[a].total > 0.0 ==>
        PositionOf(records, a, tallies[a]) in CompositionUpTo(records, tallies, asOf, n).positions
    decreases n
  {
    if n > 0 {
      PositionsComplete(records, tallies, asOf, n - 1);
      ProcessedAnchored(records, tallies, asOf, n - 1);
      AnchorStable(records, asOf, n - 1);
      var o := CompositionUpTo(records, tallies, asOf, n - 1);
      var r := records[n - 1];
      if OnOrBefore(r, asOf) && r.symbol !in o.processed {
        assert AnchorUpTo(records, r.symbol, asOf, n) == Some(n - 1);
      }
    }
  }

  /** Each symbol appears at most once in the composition, with either step. */
  lemma CompositionDistinct(records: seq<Record>, asOf: Day)
    requires AllPriced(records)
    ensures DistinctSymbols(Composition(records, asOf))
    ensures DistinctSymbols(CompositionAsWritten(records, asOf))
  {
    PositionsDistinct(records, Tallies(records, asOf), asOf, |records|);
    PositionsDistinct(records, TalliesAsWritten(records, asOf), asOf, |records|);
  }

  /**
   * Over any tallies, a symbol is emitted exactly when it has a record dated on or before asOf and
   * its anchor's tally is positive; the position then carries the anchor's price and commission
   * and that tally.
   */
  lemma PositionsMembers(records: seq<Record>, tallies: seq<Tally>, asOf: Day, s: string)
    requires |tallies| == |records| && AllPriced(records)
    ensures var ps := CompositionUpTo(records, tallies, asOf, |records|).positions;
      var an := AnchorUpTo(records, s, asOf, |records|);
      && ((exists p :: p in ps && p.symbol == s) <==> (an.Some? && tallies[an.value].total > 0.0))
      && (forall p :: p in ps && p.symbol == s ==> an.Some? && p == PositionOf(records, an.value, tallies[an.value]))
  {
    ProcessedAnchored(records, tallies, asOf, |records|);
    PositionsAnchored(records, tallies, asOf, |records|);
    PositionsComplete(records, tallies, asOf, |records|);
    var o := CompositionUpTo(records, tallies, asOf, |records|);
    if AnchorUpTo(records, s, asOf, |records|).Some? {
      var a := AnchorUpTo(records, s, asOf, |records|).value;
      assert s in o.processed;
      var t := tallies[a];
      if t.total > 0.0 {
        assert PositionOf(records, a, t) in o.positions;
      }
    }
  }

  /**
   * A symbol is in the composition exactly when it has a record dated on or before asOf and the
   * tally of its anchor (its first such record) is positive; its price and commission are then the
   * anchor's, and its quantity, average and dates that tally's.
   */
  lemma CompositionMembers(records: seq<Record>, asOf: Day, s: string)
    requires AllPriced(records)
    ensures (exists p :: p in Composition(records, asOf) && p.symbol == s) <==>
      (AnchorUpTo(records, s, asOf, |records|).Some?
       && TallyUpTo(records, AnchorUpTo(records, s, asOf, |records|).value, asOf, |records|).total > 0.0)
    ensures forall p :: p in Composition(records, asOf) && p.symbol == s ==>
      var a := AnchorUpTo(records, s, asOf, |records|).value;
      var t := TallyUpTo(records, a, asOf, |records|);
      p.price == records[a].price.value && p.commission == records[a].commission
      && p.quantity == t.total && p.avgPrice == t.avg && p.first == t.first && p.last == t.last
  {
    PositionsMembers(records, Tallies(records, asOf), asOf, s);
  }

  /** CompositionMembers for the composition the program computes, whose tallies use the step as written. */
  lemma CompositionAsWrittenMembers(records: seq<Record>, asOf: Day, s: string)
    requires AllPriced(records)
    ensures (exists p :: p in CompositionAsWritten(records, asOf) && p.symbol == s) <==>
      (AnchorUpTo(records, s, asOf, |records|).Some?
       && TallyAsWritten(records, AnchorUpTo(records, s, asOf, |records|).value, asOf, |records|).total > 0.0)
    ensures forall p :: p in CompositionAsWritten(records, asOf) && p.symbol == s ==>
      var a := AnchorUpTo(records, s, asOf, |records|).value;
      var t := TallyAsWritten(records, a, asOf, |records|);
      p.price == records[a].price.value && p.commission == records[a].commission
      && p.quantity == t.total && p.avgPrice == t.avg && p.first == t.first && p.last == t.last
  {
    PositionsMembers(records, TalliesAsWritten(records, asOf), asOf, s);
  }

  /** The records tallied into anchor a's position among the first n: the anchor itself and those that join it. */
  predicate Tallied(records: seq<Record>, a: nat, asOf: Day, n: nat, i: nat)
    requires a < |records| && i < |records|
  {
    i == a || (i < n && Joins(records, a, i, asOf))
  }

  /** The dates the inner loop keeps over the first n records, for the anchor at index a. */
  function SpanUpTo(records: seq<Record>, a: nat, asOf: Day, n: nat): Span
    requires a < |records| && n <= |records|
    decreases n
  {
    if n == 0 then Span(records[a].date, records[a].date)
    else
      var sp := SpanUpTo(records, a, asOf, n - 1);
      if Joins(records, a, n - 1, asOf) then Widen(sp, records[n - 1].date) else sp
  }

  /** The tally's dates are that span: the amounts play no part in them. */
  lemma {:induction false} TallySpan(records: seq<Record>, a: nat, asOf: Day, n: nat)
    requires a < |records| && n <= |records| && AllPriced(records)
    ensures Span(TallyUpTo(records, a, asOf, n).first, TallyUpTo(records, a, asOf, n).last) == SpanUpTo(records, a, asOf, n)
    decreases n
  {
    if n > 0 {
      TallySpan(records, a, asOf, n - 1);
    }
  }

  /** With the intended step, a position's dates bound every record tallied into it. */
  lemma {:induction false} TallyDates(records: seq<Record>, a: nat, asOf: Day, n: nat)
    requires a < |records| && n <= |records|
    ensures forall i :: 0 <= i < |records| && Tallied(records, a, asOf, n, i) ==>
      Calendar.NotAfter(SpanUpTo(records, a, asOf, n).first, records[i].date)
      && Calendar.NotAfter(records[i].date, SpanUpTo(records, a, asOf, n).last)
    decreases n
  {
    if n > 0 {
      TallyDates(records, a, asOf, n - 1);
    }
  }

  /** ... and both dates belong to tallied records: they are the earliest and the latest. */
  lemma {:induction false} TallyDatesAttained(records: seq<Record>, a: nat, asOf: Day, n: nat)
    requires a < |records| && n <= |records|
    ensures exists i :: 0 <= i < |records| && Tallied(records, a, asOf, n, i) && SpanUpTo(records, a, asOf, n).first == records[i].date
    ensures exists i :: 0 <= i < |records| && Tallied(records, a, asOf, n, i) && SpanUpTo(records, a, asOf, n).last == records[i].date
    decreases n
  {
    if n == 0 {
      assert Tallied(records, a, asOf, n, a);
    } else {
      TallyDatesAttained(records, a, asOf, n - 1);
      var sp := SpanUpTo(records, a, asOf, n - 1);
      var i :| 0 <= i < |records| && Tallied(records, a, asOf, n - 1, i) && sp.first == records[i].date;
      var j :| 0 <= j < |records| && Tallied(records, a, asOf, n - 1, j) && sp.last == records[j].date;
      assert Tallied(records, a, asOf, n, i) && Tallied(records, a, asOf, n, j);
      if Joins(records, a, n - 1, asOf) {
        assert Tallied(records, a, asOf, n, n - 1);
      }
    }
  }

  /** The position's dates, as intended: the earliest and the latest tallied record. */
  lemma CompositionDates(records: seq<Record>, asOf: Day, p: Position)
    requires AllPriced(records) && p in Composition(records, asOf)
    ensures exists a ::
      && 0 <= a < |records| && records[a].symbol == p.symbol && OnOrBefore(records[a], asOf)
      && (forall i :: 0 <= i < |records| && Tallied(records, a, asOf, |records|, i) ==>
            Calendar.NotAfter(p.first, records[i].date) && Calendar.NotAfter(records[i].date, p.last))
      && (exists i :: 0 <= i < |records| && Tallied(records, a, asOf, |records|, i) && p.first == records[i].date)
      && (exists i :: 0 <= i < |records| && Tallied(records, a, asOf, |records|, i) && p.last == records[i].date)
  {
    CompositionMembers(records, asOf, p.symbol);
    var a := AnchorUpTo(records, p.symbol, asOf, |records|).value;
    TallySpan(records, a, asOf, |records|);
    TallyDates(records, a, asOf, |records|);
    TallyDatesAttained(records, a, asOf, |records|);
  }

  /** The net quantity of the composition: only SELL counts negatively, PORTFOLIO like BUY; the anchor counts as bought. */
  function NetStep(records: seq<Record>, a: nat, asOf: Day, i: nat): real
    requires a < |records| && i < |records|
  {
    if Joins(records, a, i, asOf) then (if records[i].op == Sell then -records[i].quantity else records[i].quantity) else 0.0
  }

  function Net(records: seq<Record>, a: nat, asOf: Day, n: nat): real
    requires a < |records| && n <= |records|
    decreases n
  {
    if n == 0 then records[a].quantity else Net(records, a, asOf, n - 1) + NetStep(records, a, asOf, n - 1)
  }

  predicate WholeQuantities(records: seq<Record>) {
    forall i :: 0 <= i < |records| ==> Whole(records[i].quantity)
  }

  /** With whole quantities no rounding happens: the tallied quantity is the exact net quantity. */
  lemma {:induction false} TallyIsNet(records: seq<Record>, a: nat, asOf: Day, n: nat)
    requires a < |records| && n <= |records| && AllPriced(records) && WholeQuantities(records)
    ensures TallyUpTo(records, a, asOf, n).total == Net(records, a, asOf, n)
    ensures Whole(Net(records, a, asOf, n))
    decreases n
  {
    if n > 0 {
      TallyIsNet(records, a, asOf, n - 1);
      var t := TallyUpTo(records, a, asOf, n - 1);
      var q := records[n - 1].quantity;
      if Joins(records, a, n - 1, asOf) {
        var x := if records[n - 1].op == Sell then t.total - q else t.total + q;
        assert Whole(x) by {
          assert x == (if records[n - 1].op == Sell then t.total.Floor - q.Floor else t.total.Floor + q.Floor) as real;
        }
        Round2Whole(x);
      }
    }
  }

  /**
   * For a ledger of purchases and sales with whole quantities, the quantity of a symbol's position
   * is the quantity the sell-order check finds held on that date, when the anchor is a purchase.
   */
  lemma CompositionQuantityIsHolding(records: seq<Record>, asOf: Day, a: nat)
    requires a < |records| && AllPriced(records) && WholeQuantities(records)
    requires forall i :: 0 <= i < |records| ==> records[i].op != PortfolioOp
    requires records[a].op == Buy && OnOrBefore(records[a], asOf)
    ensures TallyUpTo(records, a, asOf, |records|).total == Holding(records, records[a].symbol, asOf)
    ensures TallyAsWritten(records, a, asOf, |records|).total == Holding(records, records[a].symbol, asOf)
  {
    TallyAsWrittenAgrees(records, a, asOf, |records|);
    TallyIsNet(records, a, asOf, |records|);
    NetIsHolding(records, a, asOf, |records|);
    assert records[..|records|] == records;
  }

  /** Without PORTFOLIO records the two steps agree on the total and the average; only the dates differ. */
  lemma {:induction false} TallyAsWrittenAgrees(records: seq<Record>, a: nat, asOf: Day, n: nat)
    requires a < |records| && n <= |records| && AllPriced(records)
    requires forall i :: 0 <= i < |records| ==> records[i].op != PortfolioOp
    ensures TallyAsWritten(records, a, asOf, n).total == TallyUpTo(records, a, asOf, n).total
    ensures TallyAsWritten(records, a, asOf, n).avg == TallyUpTo(records, a, asOf, n).avg
    decreases n
  {
    if n > 0 {
      TallyAsWrittenAgrees(records, a, asOf, n - 1);
      if Joins(records, a, n - 1, asOf) {
        StepsAgree(TallyAsWritten(records, a, asOf, n - 1), TallyUpTo(records, a, asOf, n - 1), records[a].date, records[n - 1]);
      }
    }
  }

  /** One step of each kind, from tallies that agree on total and average, on a BUY or SELL record. */
  lemma StepsAgree(t: Tally, u: Tally, anchorDate: Day, r: Record)
    requires r.price.Some? && r.op != PortfolioOp && t.total == u.total && t.avg == u.avg
    ensures StepAsWritten(t, anchorDate, r).total == Step(u, r).total
    ensures StepAsWritten(t, anchorDate, r).avg == Step(u, r).avg
  {
  }

  lemma {:induction false} NetIsHolding(records: seq<Record>, a: nat, asOf: Day, n: nat)
    requires a < |records| && n <= |records|
    requires forall i :: 0 <= i < |records| ==> records[i].op != PortfolioOp
    requires records[a].op == Buy && OnOrBefore(records[a], asOf)
    ensures Net(records, a, asOf, n) == Holding(records[..n], records[a].symbol, asOf) + (if n <= a then records[a].quantity else 0.0)
    decreases n
  {
    if n > 0 {
      NetIsHolding(records, a, asOf, n - 1);
      assert records[..n][..n - 1] == records[..n - 1];
      assert records[..n][n - 1] == records[n - 1];
    }
  }

  /**
   * The dates as written are not the earliest and latest: three purchases of one symbol dated
   * 10th, 3rd and 5th October leave the first date at the 5th.
   */
  lemma FirstDateNotEarliest()
    ensures var records := Example();
      && AllPriced(records)
      && TallyAsWritten(records, 0, Calendar.Date(2022, 10, 31), 3).first == Calendar.Date(2022, 10, 5)
      && TallyUpTo(records, 0, Calendar.Date(2022, 10, 31), 3).first == Calendar.Date(2022, 10, 3)
  {
    var records := Example();
    var d10: Day := Calendar.Date(2022, 10, 10);
    var d03: Day := Calendar.Date(2022, 10, 3);
    var d05: Day := Calendar.Date(2022, 10, 5);
    var asOf: Day := Calendar.Date(2022, 10, 31);
    assert TallyAsWritten(records, 0, asOf, 2).first == d03;
    assert TallyUpTo(records, 0, asOf, 2).first == d03;
  }

  function Example(): seq<Record> {
    [Record(Buy, "A", Calendar.Date(2022, 10, 10), 1.0, Some(1.0), Some(0.0)),
     Record(Buy, "A", Calendar.Date(2022, 10, 3), 1.0, Some(1.0), Some(0.0)),
     Record(Buy, "A", Calendar.Date(2022, 10, 5), 1.0, Some(1.0), Some(0.0))]
  }

  /**
   * As written a second PORTFOLIO record of a symbol subtracts: an inflexible portfolio holding 10
   * and then 5 shares of one symbol shows 5 of them, where the intended step shows 15.
   */
  lemma PortfolioRecordSubtracts()
    ensures var records := [Record(PortfolioOp, "A", Calendar.Date(2022, 10, 3), 10.0, Some(1.0), None),
                            Record(PortfolioOp, "A", Calendar.Date(2022, 10, 3), 5.0, Some(1.0), None)];
      && AllPriced(records)
      && TallyAsWritten(records, 0, Calendar.Date(2022, 10, 3), 2).total == 5.0
      && TallyUpTo(records, 0, Calendar.Date(2022, 10, 3), 2).total == 15.0
  {
    Round2Whole(5.0);
    Round2Whole(15.0);
  }

  // ---------------------------------------------------------------------------------------------
  // Value on a date (getPortfolioValue)

  /** The loop's state: still summing, stopped with -1, or stopped by a null price being unboxed. */
  datatype Valuation = Summing(total: real) | NoValue | NullPrice

  function Signed(r: Record, price: real): real {
    if r.op == Sell then -(price * r.quantity) else price * r.quantity
  }

  /**
   * getPortfolioValue over the first n records: every record dated on or before d is priced on d
   * (not on its own date); a lookup that throws or answers -1 stops the loop with -1.
   */
  function ValueUpTo(m: Prices.Market, cache: map<string, Prices.Series>, records: seq<Record>,
                     d: Day, today: Day, n: nat): Valuation
    requires n <= |records|
    decreases n
  {
    if n == 0 then Summing(0.0)
    else
      match ValueUpTo(m, cache, records, d, today, n - 1)
      case Summing(total) =>
        var r := records[n - 1];
        if !OnOrBefore(r, d) then Summing(total)
        else
          (match Prices.QuoteOf(m, cache, r.symbol, d, false, today)
           case Failed(_) => NoValue
           case Missing => NullPrice
           case Found(p) => if p == Prices.Unavailable then NoValue else Summing(total + Signed(r, p)))
      case other => other
  }

  /** The value the method returns; None when a null price is unboxed. */
  function ValueResult(v: Valuation): Option<real> {
    match v
    case Summing(total) => Some(total)
    case NoValue => Some(Prices.Unavailable)
    case NullPrice => None
  }

  /** Every record dated on or before d has a price on d other than -1. */
  predicate AllQuoted(m: Prices.Market, cache: map<string, Prices.Series>, records: seq<Record>, d: Day, today: Day, n: nat)
    requires n <= |records|
  {
    forall i :: 0 <= i < n && OnOrBefore(records[i], d) ==>
      Prices.QuoteOf(m, cache, records[i].symbol, d, false, today).Found?
      && Prices.QuoteOf(m, cache, records[i].symbol, d, false, today).price != Prices.Unavailable
  }

  /** The sum of all records dated on or before d, bought ones adding and sold ones subtracting their value on d. */
  function PricedSum(m: Prices.Market, cache: map<string, Prices.Series>, records: seq<Record>, d: Day, today: Day, n: nat): real
    requires n <= |records|
    decreases n
  {
    if n == 0 then 0.0
    else
      var r := records[n - 1];
      var q := Prices.QuoteOf(m, cache, r.symbol, d, false, today);
      PricedSum(m, cache, records, d, today, n - 1) + (if OnOrBefore(r, d) && q.Found? then Signed(r, q.price) else 0.0)
  }

  /**
   * The value is all or nothing: a sum comes out exactly when every included record is priced,
   * and then it is the full signed sum; otherwise the answer is -1 or the null-price crash.
   */
  lemma ValueAllOrNothing(m: Prices.Market, cache: map<string, Prices.Series>, records: seq<Record>,
                          d: Day, today: Day, n: nat)
    requires Prices.WellFormedMarket(m) && n <= |records|
    ensures ValueUpTo(m, cache, records, d, today, n).Summing? <==> AllQuoted(m, cache, records, d, today, n)
    ensures AllQuoted(m, cache, records, d, today, n) ==>
      ValueUpTo(m, cache, records, d, today, n) == Summing(PricedSum(m, cache, records, d, today, n))
  {
    if AllQuoted(m, cache, records, d, today, n) {
      ValueWhenAllQuoted(m, cache, records, d, today, n);
    }
    ValueOnlyWhenQuoted(m, cache, records, d, today, n);
  }

  lemma {:induction false} ValueWhenAllQuoted(m: Prices.Market, cache: map<string, Prices.Series>, records: seq<Record>,
                                               d: Day, today: Day, n: nat)
    requires Prices.WellFormedMarket(m) && n <= |records| && AllQuoted(m, cache, records, d, today, n)
    ensures ValueUpTo(m, cache, records, d, today, n) == Summing(PricedSum(m, cache, records, d, today, n))
    decreases n
  {
    if n > 0 {
      assert AllQuoted(m, cache, records, d, today, n - 1);
      ValueWhenAllQuoted(m, cache, records, d, today, n - 1);
    }
  }

  lemma {:induction false} ValueOnlyWhenQuoted(m: Prices.Market, cache: map<string, Prices.Series>, records: seq<Record>,
                                                d: Day, today: Day, n: nat)
    requires Prices.WellFormedMarket(m) && n <= |records|
    ensures ValueUpTo(m, cache, records, d, today, n).Summing? ==> AllQuoted(m, cache, records, d, today, n)
    decreases n
  {
    if n > 0 && ValueUpTo(m, cache, records, d, today, n).Summing? {
      ValueOnlyWhenQuoted(m, cache, records, d, today, n - 1);
    }
  }

  /** Records dated after d do not change the value on d. */
  lemma LaterRecordIgnored(m: Prices.Market, cache: map<string, Prices.Series>, records: seq<Record>, r: Record, d: Day, today: Day)
    requires Prices.WellFormedMarket(m) && !OnOrBefore(r, d)
    ensures ValueUpTo(m, cache, records + [r], d, today, |records| + 1) == ValueUpTo(m, cache, records, d, today, |records|)
  {
    ValuePrefix(m, cache, records, [r], d, today, |records|);
  }

  /** The value over the first n records depends on those records only. */
  lemma {:induction false} ValuePrefix(m: Prices.Market, cache: map<string, Prices.Series>, records: seq<Record>, more: seq<Record>,
                                       d: Day, today: Day, n: nat)
    requires Prices.WellFormedMarket(m) && n <= |records|
    ensures ValueUpTo(m, cache, records + more, d, today, n) == ValueUpTo(m, cache, records, d, today, n)
    decreases n
  {
    if n > 0 {
      ValuePrefix(m, cache, records, more, d, today, n - 1);
      assert (records + more)[n - 1] == records[n - 1];
    }
  }

  /** Whichever consistent cache the lookups start from, the value comes out the same. */
  lemma {:induction false} ValueCacheIndependent(m: Prices.Market, c1: map<string, Prices.Series>, c2: map<string, Prices.Series>,
                                                 records: seq<Record>, d: Day, today: Day, n: nat)
    requires Prices.ValidMarket(m) && Prices.Consistent(m, c1) && Prices.Consistent(m, c2) && n <= |records|
    ensures ValueUpTo(m, c1, records, d, today, n) == ValueUpTo(m, c2, records, d, today, n)
    decreases n
  {
    if n > 0 {
      ValueCacheIndependent(m, c1, c2, records, d, today, n - 1);
      Prices.ConsistentCachesAgree(m, c1, c2, records[n - 1].symbol, d, false, today);
    }
  }

  /** Ten shares of GOOG bought on 2022-10-31 are worth 946.6 that day at the bundled close of 94.66. */
  lemma TenGoogleShares(cache: map<string, Prices.Series>, today: Day)
    ensures var m := Prices.Market({"GOOG"}, map["GOOG" := map[Prices.LastBundledDay := 94.66]], map[], map[]);
      && Prices.WellFormedMarket(m)
      && ValueResult(ValueUpTo(m, cache, [Record(Buy, "GOOG", Prices.LastBundledDay, 10.0, Some(94.66), Some(0.0))],
                               Prices.LastBundledDay, today, 1)) == Some(946.6)
  {
    var m := Prices.Market({"GOOG"}, map["GOOG" := map[Prices.LastBundledDay := 94.66]], map[], map[]);
    Prices.BundledFirst(m, cache, "GOOG", Prices.LastBundledDay, false, today);
  }
}
