/**
 * The sampling loops of portfolioPerformance, over a valuation `V` giving the portfolio's value
 * on a day as getPortfolioValue answers it: a value, -1 when the value is unavailable, or None
 * when the call throws (a null price unboxed). The number of days from `begin` to `finish` picks
 * daily, weekly, monthly or yearly samples; a sample whose day is valued -1 moves to a
 * neighbouring day. The source's scans run until a value other than -1 turns up, so each scan
 * here carries a `fuel` bound and ends in OutOfFuel where it would run on past it.
 */
module Performance {
  import opened Wrappers
  import Calendar

  type Day = Calendar.Day

  /**
   * Days are counted as Calendar.DayNumber counts them (0 is 0001-01-01), so that a day later or
   * earlier is one more or one less; the valuation takes the day's number.
   */
  type Valuation = nat -> Option<real>

  /** The date numbered n and the number of a date, Calendar.FromDayNumber and Calendar.DayNumber. */
  function DateOf(n: nat): Day {
    Calendar.FromDayNumber(n)
  }

  function NumberOf(d: Day): nat {
    Calendar.DayNumberNonNegative(d);
    Calendar.DayNumber(d)
  }

  const Unavailable: real := -1.0

  /**
   * The keys of the result map: `dd MMM yyyy` of a day, `MMM yyyy` of a month (numbered
   * year * 12 + month - 1, as MonthIndex numbers it), `yyyy` of a year.
   */
  datatype Key = DayKey(day: nat) | MonthKey(month: int) | YearKey(year: int)

  datatype Sample = Sample(key: Key, value: real)

  /** The result map in insertion order, or the exception, or a scan past the fuel bound. */
  datatype Outcome = Done(samples: seq<Sample>) | Threw | OutOfFuel

  predicate HasKey(samples: seq<Sample>, key: Key) {
    exists i :: 0 <= i < |samples| && samples[i].key == key
  }

  /** `LinkedHashMap.put`: a present key keeps its place and takes the new value, a new key goes last. */
  function Put(samples: seq<Sample>, key: Key, value: real): (r: seq<Sample>)
    ensures |r| == |samples| || r == samples + [Sample(key, value)]
    ensures forall i :: 0 <= i < |samples| ==> r[i].key == samples[i].key
  {
    if samples == [] then [Sample(key, value)]
    else if samples[0].key == key then [Sample(key, value)] + samples[1..]
    else [samples[0]] + Put(samples[1..], key, value)
  }

  /** A key not yet in the map is appended; a present one is updated where it stands. */
  lemma {:induction false} PutPlaces(samples: seq<Sample>, key: Key, value: real)
    ensures !HasKey(samples, key) ==> Put(samples, key, value) == samples + [Sample(key, value)]
    ensures HasKey(samples, key) ==> |Put(samples, key, value)| == |samples|
    ensures forall s :: s in Put(samples, key, value) ==> s in samples || s == Sample(key, value)
  {
    if samples != [] && samples[0].key != key {
      PutPlaces(samples[1..], key, value);
      if HasKey(samples, key) {
        var i :| 0 <= i < |samples| && samples[i].key == key;
        assert samples[1..][i - 1].key == key;
      }
      if HasKey(samples[1..], key) {
        var i :| 0 <= i < |samples[1..]| && samples[1..][i].key == key;
        assert samples[i + 1].key == key;
      }
      forall s | s in Put(samples, key, value) ensures s in samples || s == Sample(key, value) {
        if s != samples[0] {
          assert s in Put(samples[1..], key, value);
        }
      }
    } else if samples != [] {
      assert HasKey(samples, key);
      forall s | s in Put(samples, key, value) ensures s in samples || s == Sample(key, value) {
        if s != Sample(key, value) {
          var j :| 0 <= j < |Put(samples, key, value)| && Put(samples, key, value)[j] == s;
          assert s == samples[1..][j - 1];
        }
      }
    }
  }

  // ---------------------------------------------------------------------------------------------
  // The inner scans

  /** Where a scan stops: a day with a value other than -1, the exception, or past the bound. */
  datatype Scan = Valued(day: nat, value: real) | ScanThrew | ScanOut

  /** A value other than -1. */
  predicate IsValued(V: Valuation, d: nat) {
    V(d).Some? && V(d).value != Unavailable
  }

  /** A day sample whose key is the day its value was taken on. */
  predicate DaySampled(V: Valuation, s: Sample) {
    s.key.DayKey? && IsValued(V, s.key.day) && s.value == V(s.key.day).value
  }

  /** The daily scan: from d on, one day later while the value is -1. */
  function ScanForward(V: Valuation, d: nat, fuel: nat): Scan
    decreases fuel
  {
    match V(d)
    case None => ScanThrew
    case Some(v) =>
      if v != Unavailable then Valued(d, v)
      else if fuel == 0 then ScanOut
      else ScanForward(V, d + 1, fuel - 1)
  }

  /** The backward scan: from d on, one day earlier while the value is -1. */
  function ScanBackward(V: Valuation, d: nat, fuel: nat): Scan
    decreases fuel
  {
    match V(d)
    case None => ScanThrew
    case Some(v) =>
      if v != Unavailable then Valued(d, v)
      else if fuel == 0 || d == 0 then ScanOut
      else ScanBackward(V, d - 1, fuel - 1)
  }

  /** A forward scan stops at the first valued day from d on; every day before it is valued -1. */
  lemma {:induction false} ScanForwardFinds(V: Valuation, d: nat, fuel: nat)
    ensures ScanForward(V, d, fuel).Valued? ==>
      var e := ScanForward(V, d, fuel).day;
      && d <= e && IsValued(V, e) && V(e).value == ScanForward(V, d, fuel).value
      && forall x: nat :: d <= x < e ==> V(x) == Some(Unavailable)
    decreases fuel
  {
    if V(d).Some? && V(d).value == Unavailable && fuel > 0 {
      ScanForwardFinds(V, d + 1, fuel - 1);
    }
  }

  /** A backward scan stops at the latest valued day up to d; every day after it is valued -1. */
  lemma {:induction false} ScanBackwardFinds(V: Valuation, d: nat, fuel: nat)
    ensures ScanBackward(V, d, fuel).Valued? ==>
      var e := ScanBackward(V, d, fuel).day;
      && e <= d && IsValued(V, e) && V(e).value == ScanBackward(V, d, fuel).value
      && forall x: nat :: e < x <= d ==> V(x) == Some(Unavailable)
    decreases fuel
  {
    if V(d).Some? && V(d).value == Unavailable && fuel > 0 && d != 0 {
      ScanBackwardFinds(V, d - 1, fuel - 1);
    }
  }

  // ---------------------------------------------------------------------------------------------
  // Daily: every day from begin to finish

  /** The daily loop from day `cur`: scan forward to a valued day, key it by that day, go on the day after. */
  function Daily(V: Valuation, cur: nat, finish: nat, fuel: nat, acc: seq<Sample>): Outcome
    decreases finish + 1 - cur
  {
    if cur > finish then Done(acc)
    else
      match ScanForward(V, cur, fuel)
      case ScanThrew => Threw
      case ScanOut => OutOfFuel
      case Valued(e, v) =>
        ScanForwardFinds(V, cur, fuel);
        Daily(V, e + 1, finish, fuel, Put(acc, DayKey(e), v))
  }

  /** One pass of the daily loop, as the loop takes it. */
  lemma DailyStep(V: Valuation, cur: nat, finish: nat, fuel: nat, acc: seq<Sample>, e: nat, v: real)
    requires cur <= finish && ScanForward(V, cur, fuel) == Valued(e, v)
    ensures cur <= e
    ensures Daily(V, cur, finish, fuel, acc) == Daily(V, e + 1, finish, fuel, Put(acc, DayKey(e), v))
  {
    ScanForwardFinds(V, cur, fuel);
  }

  /** The loop's samples added to what the map already held. */
  function Then(acc: seq<Sample>, r: Outcome): Outcome {
    if r.Done? then Done(acc + r.samples) else r
  }

  /** The daily samples from `cur` on, the sample found first heading the rest. */
  function DailyFrom(V: Valuation, cur: nat, finish: nat, fuel: nat): Outcome
    decreases finish + 1 - cur
  {
    if cur > finish then Done([])
    else
      match ScanForward(V, cur, fuel)
      case ScanThrew => Threw
      case ScanOut => OutOfFuel
      case Valued(e, v) =>
        ScanForwardFinds(V, cur, fuel);
        Then([Sample(DayKey(e), v)], DailyFrom(V, e + 1, finish, fuel))
  }

  /** Every key is a day before `cur`. */
  predicate DaysBefore(acc: seq<Sample>, cur: nat) {
    forall i :: 0 <= i < |acc| ==> acc[i].key.DayKey? && acc[i].key.day < cur
  }

  /** Each day the daily loop keys is later than any already in the map, so every `put` appends. */
  lemma {:induction false} DailyAppends(V: Valuation, cur: nat, finish: nat, fuel: nat, acc: seq<Sample>)
    requires DaysBefore(acc, cur)
    ensures Daily(V, cur, finish, fuel, acc) == Then(acc, DailyFrom(V, cur, finish, fuel))
    decreases finish + 1 - cur
  {
    if cur > finish {
      assert acc + [] == acc;
    } else if ScanForward(V, cur, fuel).Valued? {
      var e, v := ScanForward(V, cur, fuel).day, ScanForward(V, cur, fuel).value;
      ScanForwardFinds(V, cur, fuel);
      assert !HasKey(acc, DayKey(e));
      PutPlaces(acc, DayKey(e), v);
      var acc2 := acc + [Sample(DayKey(e), v)];
      DailyAppends(V, e + 1, finish, fuel, acc2);
      var rest := DailyFrom(V, e + 1, finish, fuel);
      if rest.Done? {
        assert acc2 + rest.samples == acc + ([Sample(DayKey(e), v)] + rest.samples);
      }
    }
  }

  /** The chain of daily samples from `cur`: days increasing from `cur` on, each keyed by its own value. */
  predicate Chain(V: Valuation, s: seq<Sample>, cur: nat)
    decreases |s|
  {
    s == [] || (DaySampled(V, s[0]) && cur <= s[0].key.day && Chain(V, s[1..], s[0].key.day + 1))
  }

  /** The samples from `cur` on form a chain in which every day but the last lies up to `finish`. */
  lemma {:induction false} DailyFromChain(V: Valuation, cur: nat, finish: nat, fuel: nat)
    ensures var r := DailyFrom(V, cur, finish, fuel);
      r.Done? ==> Chain(V, r.samples, cur)
    decreases finish + 1 - cur
  {
    if cur <= finish && ScanForward(V, cur, fuel).Valued? {
      var e := ScanForward(V, cur, fuel).day;
      ScanForwardFinds(V, cur, fuel);
      DailyFromChain(V, e + 1, finish, fuel);
    }
  }

  /** Every valued day from `cur` to `finish` is in the samples from `cur` on. */
  lemma {:induction false} DailyFromCovers(V: Valuation, cur: nat, finish: nat, fuel: nat, x: nat)
    requires cur <= x <= finish && IsValued(V, x)
    ensures var r := DailyFrom(V, cur, finish, fuel);
      r.Done? ==> Sample(DayKey(x), V(x).value) in r.samples
    decreases finish + 1 - cur
  {
    if ScanForward(V, cur, fuel).Valued? {
      var e := ScanForward(V, cur, fuel).day;
      ScanForwardFinds(V, cur, fuel);
      if x > e {
        DailyFromCovers(V, e + 1, finish, fuel, x);
      }
    }
  }

  /** All keys are days, in strictly increasing order. */
  predicate DayKeysIncreasing(samples: seq<Sample>) {
    && (forall i :: 0 <= i < |samples| ==> samples[i].key.DayKey?)
    && forall i, j :: 0 <= i < j < |samples| ==> samples[i].key.day < samples[j].key.day
  }

  /** A chain from `cur` holds days from `cur` on, in strictly increasing order, each keyed by its own value. */
  lemma {:induction false} ChainIncreasing(V: Valuation, s: seq<Sample>, cur: nat)
    requires Chain(V, s, cur)
    ensures DayKeysIncreasing(s)
    ensures forall i :: 0 <= i < |s| ==> cur <= s[i].key.day && DaySampled(V, s[i])
    decreases |s|
  {
    if s != [] {
      ChainIncreasing(V, s[1..], s[0].key.day + 1);
      forall i | 0 < i < |s| ensures s[0].key.day < s[i].key.day && DaySampled(V, s[i]) {
        assert s[i] == s[1..][i - 1];
      }
      forall i, j | 0 <= i < j < |s| ensures s[i].key.day < s[j].key.day {
        if i > 0 {
          assert s[i] == s[1..][i - 1] && s[j] == s[1..][j - 1];
        }
      }
    }
  }

  /** Every sample but the last is for a day up to `finish`: only the last scan can run past it. */
  lemma {:induction false} DailyFromWithin(V: Valuation, cur: nat, finish: nat, fuel: nat)
    ensures var r := DailyFrom(V, cur, finish, fuel);
      r.Done? ==> forall i :: 0 <= i < |r.samples| - 1 ==> r.samples[i].key.DayKey? && r.samples[i].key.day <= finish
    decreases finish + 1 - cur
  {
    if cur <= finish && ScanForward(V, cur, fuel).Valued? {
      var e := ScanForward(V, cur, fuel).day;
      ScanForwardFinds(V, cur, fuel);
      DailyFromWithin(V, e + 1, finish, fuel);
      DailyFromChain(V, e + 1, finish, fuel);
      var r := DailyFrom(V, cur, finish, fuel);
      var rest := DailyFrom(V, e + 1, finish, fuel);
      if r.Done? {
        forall i | 0 <= i < |r.samples| - 1 ensures r.samples[i].key.DayKey? && r.samples[i].key.day <= finish {
          if i > 0 {
            assert r.samples[i] == rest.samples[i - 1];
          } else if rest.samples != [] {
            assert e + 1 <= finish;
          }
        }
      }
    }
  }

  /**
   * What the daily loop collects: every valued day from `begin` to `finish` once, in increasing
   * order, each keyed by the day its value was taken on; only the last may lie after `finish`,
   * where the last scan ran past it.
   */
  lemma DailySamples(V: Valuation, begin: nat, finish: nat, fuel: nat)
    ensures var r := Daily(V, begin, finish, fuel, []);
      r.Done? ==>
        && DayKeysIncreasing(r.samples)
        && (forall i :: 0 <= i < |r.samples| ==> begin <= r.samples[i].key.day && DaySampled(V, r.samples[i]))
        && (forall i :: 0 <= i < |r.samples| - 1 ==> r.samples[i].key.day <= finish)
        && (forall x: nat :: begin <= x <= finish && IsValued(V, x) ==> Sample(DayKey(x), V(x).value) in r.samples)
  {
    DailyAppends(V, begin, finish, fuel, []);
    var r := DailyFrom(V, begin, finish, fuel);
    if r.Done? {
      assert [] + r.samples == r.samples;
      DailyFromChain(V, begin, finish, fuel);
      ChainIncreasing(V, r.samples, begin);
      DailyFromWithin(V, begin, finish, fuel);
      forall x: nat | begin <= x <= finish && IsValued(V, x) ensures Sample(DayKey(x), V(x).value) in r.samples {
        DailyFromCovers(V, begin, finish, fuel, x);
      }
    }
  }

  // ---------------------------------------------------------------------------------------------
  // Weekly: a probe day, then every seventh day

  /**
   * One pass of the weekly (and yearly) loop: the value on `probe`; when that is -1, the backward
   * scan from the day before the cursor. The sample is keyed by the cursor, or by the day the
   * scan stopped at.
   */
  function WeekStep(V: Valuation, cursor: nat, probe: nat, fuel: nat): Scan {
    match V(probe)
    case None => ScanThrew
    case Some(v) =>
      if v != Unavailable then Valued(cursor, v)
      else if cursor == 0 then ScanOut
      else ScanBackward(V, cursor - 1, fuel)
  }

  /** When the probe is the cursor, a pass keys its sample by the day its value comes from. */
  lemma WeekStepSampled(V: Valuation, cursor: nat, fuel: nat)
    ensures WeekStep(V, cursor, cursor, fuel).Valued? ==>
      var e := WeekStep(V, cursor, cursor, fuel).day;
      e <= cursor && DaySampled(V, Sample(DayKey(e), WeekStep(V, cursor, cursor, fuel).value))
  {
    if V(cursor).Some? && V(cursor).value == Unavailable && cursor != 0 {
      ScanBackwardFinds(V, cursor - 1, fuel);
    }
  }

  /**
   * The weekly loop: probe, key the sample, move the cursor seven days on from the day keyed
   * and probe that. A backward scan can move the cursor back, so the passes are bounded by the fuel.
   */
  function Weekly(V: Valuation, cursor: nat, probe: nat, finish: nat, fuel: nat, acc: seq<Sample>): Outcome
    decreases fuel
  {
    if cursor > finish then Done(acc)
    else if fuel == 0 then OutOfFuel
    else
      match WeekStep(V, cursor, probe, fuel)
      case ScanThrew => Threw
      case ScanOut => OutOfFuel
      case Valued(e, v) => Weekly(V, e + 7, e + 7, finish, fuel - 1, Put(acc, DayKey(e), v))
  }

  /** The number of the first Friday strictly after day `begin`. */
  function FridayAfter(begin: nat): (r: nat)
    ensures begin < r <= begin + 7
  {
    NumberOf(Calendar.NextFridayAfter(DateOf(begin)))
  }

  /** As written: the first probe is the Friday after `begin`, the first cursor `begin` itself. */
  function WeeklyAsWritten(V: Valuation, begin: nat, finish: nat, fuel: nat): Outcome {
    Weekly(V, begin, FridayAfter(begin), finish, fuel, [])
  }

  /** Corrected: the first cursor is the Friday that is probed. */
  function WeeklyFromFriday(V: Valuation, begin: nat, finish: nat, fuel: nat): Outcome {
    Weekly(V, FridayAfter(begin), FridayAfter(begin), finish, fuel, [])
  }

  /**
   * As written, when the Friday after `begin` has a value, the first sample carries that value
   * but is keyed by `begin`, a different day whose own value it need not be.
   */
  lemma WeeklyFirstSampleMislabelled(V: Valuation, begin: nat, finish: nat, fuel: nat)
    requires begin <= finish && fuel > 0 && IsValued(V, FridayAfter(begin))
    ensures begin != FridayAfter(begin)
    ensures WeeklyAsWritten(V, begin, finish, fuel)
         == Weekly(V, begin + 7, begin + 7, finish, fuel - 1, [Sample(DayKey(begin), V(FridayAfter(begin)).value)])
  {
    WeeklyValuedProbe(V, begin, FridayAfter(begin), finish, fuel, []);
  }

  /** A pass whose probe has a value keys that value by the cursor and moves the cursor a week on. */
  lemma WeeklyValuedProbe(V: Valuation, cursor: nat, probe: nat, finish: nat, fuel: nat, acc: seq<Sample>)
    requires cursor <= finish && fuel > 0 && IsValued(V, probe)
    ensures Weekly(V, cursor, probe, finish, fuel, acc)
         == Weekly(V, cursor + 7, cursor + 7, finish, fuel - 1, Put(acc, DayKey(cursor), V(probe).value))
  {
  }

  /** Key `a`'s keys stay in place, in order, at the front of `b`. */
  predicate KeysKept(a: seq<Sample>, b: seq<Sample>) {
    |a| <= |b| && forall i :: 0 <= i < |a| ==> b[i].key == a[i].key
  }

  /** A later `put` changes values but never the keys already in place. */
  lemma {:induction false} WeeklyKeepsKeys(V: Valuation, cursor: nat, probe: nat, finish: nat, fuel: nat, acc: seq<Sample>)
    ensures var r := Weekly(V, cursor, probe, finish, fuel, acc);
      r.Done? ==> KeysKept(acc, r.samples)
    decreases fuel
  {
    if cursor <= finish && fuel > 0 {
      var w := WeekStep(V, cursor, probe, fuel);
      if w.Valued? {
        var acc2 := Put(acc, DayKey(w.day), w.value);
        WeeklyKeepsKeys(V, w.day + 7, w.day + 7, finish, fuel - 1, acc2);
        assert Weekly(V, cursor, probe, finish, fuel, acc) == Weekly(V, w.day + 7, w.day + 7, finish, fuel - 1, acc2);
      }
    }
  }

  /** Sample s is keyed by the day its value was taken on, or it is the one sample `x` let through. */
  predicate SampledOrIs(V: Valuation, s: Sample, x: Option<Sample>) {
    DaySampled(V, s) || x == Some(s)
  }

  /**
   * Once the probe is the cursor, every sample the loop puts is keyed by the day its value was
   * taken on, so a map whose samples are all so keyed, but for one sample `x`, stays so.
   */
  lemma {:induction false} WeeklySampled(V: Valuation, cursor: nat, finish: nat, fuel: nat, acc: seq<Sample>, x: Option<Sample>)
    requires forall s :: s in acc ==> SampledOrIs(V, s, x)
    ensures var r := Weekly(V, cursor, cursor, finish, fuel, acc);
      r.Done? ==> forall s :: s in r.samples ==> SampledOrIs(V, s, x)
    decreases fuel
  {
    if cursor <= finish && fuel > 0 && WeekStep(V, cursor, cursor, fuel).Valued? {
      var e, v := WeekStep(V, cursor, cursor, fuel).day, WeekStep(V, cursor, cursor, fuel).value;
      WeekStepSampled(V, cursor, fuel);
      PutPlaces(acc, DayKey(e), v);
      WeeklySampled(V, e + 7, finish, fuel - 1, Put(acc, DayKey(e), v), x);
    }
  }

  /** From the Friday on, every weekly sample is keyed by the day its value was taken on. */
  lemma WeeklyFromFridaySampled(V: Valuation, begin: nat, finish: nat, fuel: nat)
    ensures var r := WeeklyFromFriday(V, begin, finish, fuel);
      r.Done? ==> forall s :: s in r.samples ==> DaySampled(V, s)
  {
    var r := Weekly(V, FridayAfter(begin), FridayAfter(begin), finish, fuel, []);
    WeeklySampled(V, FridayAfter(begin), finish, fuel, [], None);
    if r.Done? {
      forall s | s in r.samples ensures DaySampled(V, s) {
        assert SampledOrIs(V, s, None);
      }
    }
  }

  /** Every sample is keyed by the day its value was taken on, but one keyed by `begin` may carry the Friday's value. */
  predicate SampledAsWritten(V: Valuation, begin: nat, r: Outcome) {
    r.Done? ==> forall s :: s in r.samples ==>
      DaySampled(V, s) || (s.key == DayKey(begin) && V(FridayAfter(begin)) == Some(s.value))
  }

  /**
   * As written, every weekly sample is keyed by the day its value was taken on, except the
   * first when the Friday after `begin` has a value: that sample is keyed by `begin` and carries
   * the Friday's value. That first key stays first in the map.
   */
  lemma WeeklyAsWrittenSampled(V: Valuation, begin: nat, finish: nat, fuel: nat)
    ensures SampledAsWritten(V, begin, WeeklyAsWritten(V, begin, finish, fuel))
    ensures var r := WeeklyAsWritten(V, begin, finish, fuel);
      r.Done? && begin <= finish && IsValued(V, FridayAfter(begin)) ==> |r.samples| > 0 && r.samples[0].key == DayKey(begin)
  {
    if begin <= finish && fuel > 0 {
      if IsValued(V, FridayAfter(begin)) {
        WeeklyFridayValued(V, begin, finish, fuel);
      } else {
        WeeklyFridayUnvalued(V, begin, finish, fuel);
      }
    }
  }

  /** The case of WeeklyAsWrittenSampled where the Friday has a value. */
  lemma WeeklyFridayValued(V: Valuation, begin: nat, finish: nat, fuel: nat)
    requires begin <= finish && fuel > 0 && IsValued(V, FridayAfter(begin))
    ensures SampledAsWritten(V, begin, WeeklyAsWritten(V, begin, finish, fuel))
    ensures var r := WeeklyAsWritten(V, begin, finish, fuel);
      r.Done? ==> |r.samples| > 0 && r.samples[0].key == DayKey(begin)
  {
    var x := Sample(DayKey(begin), V(FridayAfter(begin)).value);
    WeeklyFirstSampleMislabelled(V, begin, finish, fuel);
    var r := Weekly(V, begin + 7, begin + 7, finish, fuel - 1, [x]);
    WeeklySampled(V, begin + 7, finish, fuel - 1, [x], Some(x));
    WeeklyKeepsKeys(V, begin + 7, begin + 7, finish, fuel - 1, [x]);
    if r.Done? {
      forall s | s in r.samples
        ensures DaySampled(V, s) || (s.key == DayKey(begin) && V(FridayAfter(begin)) == Some(s.value))
      {
        assert SampledOrIs(V, s, Some(x));
      }
      assert KeysKept([x], r.samples);
    }
  }

  /** The case of WeeklyAsWrittenSampled where the Friday is valued -1: the backward scan keys its day. */
  lemma WeeklyFridayUnvalued(V: Valuation, begin: nat, finish: nat, fuel: nat)
    requires begin <= finish && fuel > 0 && !IsValued(V, FridayAfter(begin))
    ensures SampledAsWritten(V, begin, WeeklyAsWritten(V, begin, finish, fuel))
  {
    WeeklyProbeUnvalued(V, begin, FridayAfter(begin), finish, fuel);
  }

  /** A first probe without a value: the backward scan from the day before the cursor keys its own day. */
  lemma WeeklyProbeUnvalued(V: Valuation, begin: nat, probe: nat, finish: nat, fuel: nat)
    requires begin <= finish && fuel > 0 && !IsValued(V, probe)
    ensures var r := Weekly(V, begin, probe, finish, fuel, []);
      r.Done? ==> forall s :: s in r.samples ==> DaySampled(V, s)
  {
    var w := WeekStep(V, begin, probe, fuel);
    if w.Valued? {
      assert begin > 0;
      ScanBackwardFinds(V, begin - 1, fuel);
      var acc := Put([], DayKey(w.day), w.value);
      assert acc == [Sample(DayKey(w.day), w.value)];
      var r := Weekly(V, w.day + 7, w.day + 7, finish, fuel - 1, acc);
      assert Weekly(V, begin, probe, finish, fuel, []) == r;
      WeeklySampled(V, w.day + 7, finish, fuel - 1, acc, None);
      if r.Done? {
        forall s | s in r.samples ensures DaySampled(V, s) {
          assert SampledOrIs(V, s, None);
        }
      }
    }
  }

  // ---------------------------------------------------------------------------------------------
  // Weekly: a run of -1 days that sends the cursor back

  /** A backward scan from inside a run of days valued -1 that starts at `lo` stops at lo - 1 or runs out. */
  lemma {:induction false} ScanBackwardToRunStart(V: Valuation, lo: nat, d: nat, fuel: nat)
    requires 1 <= lo <= d && IsValued(V, lo - 1)
    requires forall x: nat :: lo <= x <= d ==> V(x) == Some(Unavailable)
    ensures ScanBackward(V, d, fuel) == ScanOut || ScanBackward(V, d, fuel) == Valued(lo - 1, V(lo - 1).value)
    decreases d
  {
    assert V(d) == Some(Unavailable);
    if fuel > 0 && d > lo {
      ScanBackwardToRunStart(V, lo, d - 1, fuel - 1);
    }
  }

  /**
   * As written, when days r to r + 6 are valued -1 and day r - 1 has a value, the pass at cursor
   * r + 6 scans back to r - 1, keys it, and moves the cursor to r - 1 + 7 = r + 6 again.
   */
  lemma {:induction false} WeeklyStalls(V: Valuation, r: nat, finish: nat, fuel: nat, acc: seq<Sample>)
    requires 1 <= r && r + 6 <= finish && IsValued(V, r - 1)
    requires forall x: nat :: r <= x <= r + 6 ==> V(x) == Some(Unavailable)
    ensures Weekly(V, r + 6, r + 6, finish, fuel, acc) == OutOfFuel
    decreases fuel
  {
    if fuel > 0 {
      ScanBackwardToRunStart(V, r, r + 5, fuel);
      assert WeekStep(V, r + 6, r + 6, fuel) == ScanBackward(V, r + 5, fuel);
      if ScanBackward(V, r + 5, fuel).Valued? {
        WeeklyStalls(V, r, finish, fuel - 1, Put(acc, DayKey(r - 1), V(r - 1).value));
      }
    }
  }

  /**
   * So the source's weekly loop never ends when the days from `begin` to begin + 7 are valued -1
   * and the day before `begin` has a value: a held symbol whose every lookup fails from the day
   * `begin` of its first record on, the day before which values the portfolio at 0. Whatever the
   * fuel, the outcome is OutOfFuel.
   */
  lemma WeeklyAsWrittenNeverEnds(V: Valuation, begin: nat, finish: nat, fuel: nat)
    requires 1 <= begin && begin + 6 <= finish && IsValued(V, begin - 1)
    requires forall x: nat :: begin <= x <= begin + 7 ==> V(x) == Some(Unavailable)
    ensures WeeklyAsWritten(V, begin, finish, fuel) == OutOfFuel
  {
    WeeklyProbeInRun(V, begin, FridayAfter(begin), finish, fuel);
  }

  /** The first pass of that loop, for any first probe within the run. */
  lemma WeeklyProbeInRun(V: Valuation, begin: nat, probe: nat, finish: nat, fuel: nat)
    requires 1 <= begin <= probe <= begin + 7 && begin + 6 <= finish && IsValued(V, begin - 1)
    requires forall x: nat :: begin <= x <= begin + 7 ==> V(x) == Some(Unavailable)
    ensures Weekly(V, begin, probe, finish, fuel, []) == OutOfFuel
  {
    if fuel > 0 {
      assert V(probe) == Some(Unavailable);
      var v := V(begin - 1).value;
      assert WeekStep(V, begin, probe, fuel) == Valued(begin - 1, v);
      WeeklyStalls(V, begin, finish, fuel - 1, Put([], DayKey(begin - 1), v));
    }
  }

  /** The cursors of the weeks from `cursor` to `finish`: cursor, cursor + 7, cursor + 14, ... */
  predicate IsWeekOf(cursor: nat, finish: nat, c: nat) {
    cursor <= c <= finish && (c - cursor) % 7 == 0
  }

  /** Every week's pass, probing its own cursor, finds a value. */
  ghost predicate WeeksValued(V: Valuation, cursor: nat, finish: nat, fuel: nat) {
    forall c: nat :: IsWeekOf(cursor, finish, c) ==> WeekStep(V, c, c, fuel).Valued?
  }

  /** The number of weeks from `cursor` to `finish`. */
  function WeeksFrom(cursor: nat, finish: nat): nat {
    if cursor > finish then 0 else (finish - cursor) / 7 + 1
  }

  /**
   * Corrected: the backward scan walks a day of its own, and the cursor moves a week on from where
   * it stood, so every pass moves it forward. Samples are keyed by the day of their value.
   */
  function WeeklySteady(V: Valuation, cursor: nat, finish: nat, fuel: nat, acc: seq<Sample>): Outcome
    decreases finish + 1 - cursor
  {
    if cursor > finish then Done(acc)
    else
      match WeekStep(V, cursor, cursor, fuel)
      case ScanThrew => Threw
      case ScanOut => OutOfFuel
      case Valued(e, v) => WeeklySteady(V, cursor + 7, finish, fuel, Put(acc, DayKey(e), v))
  }

  /** The weeks after the first are the weeks from a week later. */
  lemma WeeksShift(V: Valuation, cursor: nat, finish: nat, fuel: nat)
    requires cursor <= finish
    ensures WeeksValued(V, cursor, finish, fuel)
        <==> WeekStep(V, cursor, cursor, fuel).Valued? && WeeksValued(V, cursor + 7, finish, fuel)
    ensures WeeksFrom(cursor, finish) == WeeksFrom(cursor + 7, finish) + 1
  {
    assert IsWeekOf(cursor, finish, cursor);
    forall c: nat | IsWeekOf(cursor + 7, finish, c) ensures IsWeekOf(cursor, finish, c) {
      assert (c - cursor) == (c - (cursor + 7)) + 7;
    }
    forall c: nat | IsWeekOf(cursor, finish, c) && c != cursor ensures IsWeekOf(cursor + 7, finish, c) {
      assert (c - cursor) == (c - (cursor + 7)) + 7;
    }
  }

  /**
   * The corrected loop makes one pass per week and ends: it is Done exactly when every week's
   * pass finds a value, with at most one new sample per week, and every sample it adds is keyed
   * by the day its value was taken on.
   */
  lemma {:induction false} WeeklySteadyEnds(V: Valuation, cursor: nat, finish: nat, fuel: nat, acc: seq<Sample>)
    ensures var r := WeeklySteady(V, cursor, finish, fuel, acc);
      && (r.Done? <==> WeeksValued(V, cursor, finish, fuel))
      && (r.Done? ==> |acc| <= |r.samples| <= |acc| + WeeksFrom(cursor, finish))
      && (r.Done? ==> forall s :: s in r.samples ==> s in acc || DaySampled(V, s))
    decreases finish + 1 - cursor
  {
    if cursor <= finish {
      WeeksShift(V, cursor, finish, fuel);
      var w := WeekStep(V, cursor, cursor, fuel);
      if w.Valued? {
        WeekStepSampled(V, cursor, fuel);
        var acc' := Put(acc, DayKey(w.day), w.value);
        PutPlaces(acc, DayKey(w.day), w.value);
        WeeklySteadyEnds(V, cursor + 7, finish, fuel, acc');
      }
    }
  }

  // ---------------------------------------------------------------------------------------------
  // Monthly: one sample per calendar month

  /** The number of the month of d: year * 12 + month - 1, so that the next month is one more. */
  function MonthIndex(d: Day): int {
    d.year * 12 + d.month - 1
  }

  /** The number of the last day of month i: `getActualMaximum(DAY_OF_MONTH)` of that month. */
  function MonthEnd(i: int): nat {
    if i < 12 then 0 else NumberOf(Calendar.LastDayOfMonth(i / 12, i % 12 + 1))
  }

  lemma MonthEndOf(d: Day)
    ensures MonthEnd(MonthIndex(d)) == NumberOf(Calendar.LastDayOfMonth(d.year, d.month))
  {
    assert MonthIndex(d) / 12 == d.year && MonthIndex(d) % 12 + 1 == d.month;
  }

  /** The months from i to last, both counted; none when last comes first. */
  function MonthCount(i: int, last: int): nat {
    if i > last then 0 else last - i + 1
  }

  /**
   * The monthly loop from month i to month `last`: each month is valued at its last day, `ends(i)`,
   * or, when that is -1, at the latest valued day before it, and keyed by the month.
   */
  function Monthly(V: Valuation, ends: int -> nat, i: int, last: int, fuel: nat, acc: seq<Sample>): Outcome
    decreases last - i
  {
    if i > last then Done(acc)
    else
      match ScanBackward(V, ends(i), fuel)
      case ScanThrew => Threw
      case ScanOut => OutOfFuel
      case Valued(_, v) => Monthly(V, ends, i + 1, last, fuel, Put(acc, MonthKey(i), v))
  }

  /** The sample month i gets: keyed by the month, valued at the latest valued day up to its last day. */
  ghost predicate MonthSampled(V: Valuation, ends: int -> nat, i: int, s: Sample) {
    && s.key == MonthKey(i)
    && exists e: nat ::
         && e <= ends(i) && IsValued(V, e) && s.value == V(e).value
         && forall x: nat :: e < x <= ends(i) ==> V(x) == Some(Unavailable)
  }

  /** Every key is a month before month i. */
  predicate MonthsBefore(acc: seq<Sample>, i: int) {
    forall j :: 0 <= j < |acc| ==> acc[j].key.MonthKey? && acc[j].key.month < i
  }

  /** The monthly samples from month i on, that month's heading the rest. */
  function MonthlyFrom(V: Valuation, ends: int -> nat, i: int, last: int, fuel: nat): Outcome
    decreases last - i
  {
    if i > last then Done([])
    else
      match ScanBackward(V, ends(i), fuel)
      case ScanThrew => Threw
      case ScanOut => OutOfFuel
      case Valued(_, v) => Then([Sample(MonthKey(i), v)], MonthlyFrom(V, ends, i + 1, last, fuel))
  }

  /** Each month the loop keys is later than any already in the map, so every `put` appends. */
  lemma {:induction false} MonthlyAppends(V: Valuation, ends: int -> nat, i: int, last: int, fuel: nat, acc: seq<Sample>)
    requires MonthsBefore(acc, i)
    ensures Monthly(V, ends, i, last, fuel, acc) == Then(acc, MonthlyFrom(V, ends, i, last, fuel))
    decreases last - i
  {
    if i > last {
      assert acc + [] == acc;
    } else if ScanBackward(V, ends(i), fuel).Valued? {
      var v := ScanBackward(V, ends(i), fuel).value;
      assert !HasKey(acc, MonthKey(i));
      PutPlaces(acc, MonthKey(i), v);
      var acc2 := acc + [Sample(MonthKey(i), v)];
      MonthlyAppends(V, ends, i + 1, last, fuel, acc2);
      var rest := MonthlyFrom(V, ends, i + 1, last, fuel);
      if rest.Done? {
        assert acc2 + rest.samples == acc + ([Sample(MonthKey(i), v)] + rest.samples);
      }
    }
  }

  /** The samples from month i on: one per month up to `last`, the k-th being month i + k's. */
  lemma {:induction false} MonthlyFromSamples(V: Valuation, ends: int -> nat, i: int, last: int, fuel: nat)
    ensures var r := MonthlyFrom(V, ends, i, last, fuel);
      r.Done? ==>
        && |r.samples| == MonthCount(i, last)
        && forall k :: 0 <= k < |r.samples| ==> MonthSampled(V, ends, i + k, r.samples[k])
    decreases last - i
  {
    if i <= last && ScanBackward(V, ends(i), fuel).Valued? {
      ScanBackwardFinds(V, ends(i), fuel);
      MonthlyFromSamples(V, ends, i + 1, last, fuel);
      var r := MonthlyFrom(V, ends, i, last, fuel);
      var rest := MonthlyFrom(V, ends, i + 1, last, fuel);
      if r.Done? {
        forall k | 0 <= k < |r.samples| ensures MonthSampled(V, ends, i + k, r.samples[k]) {
          if k > 0 {
            assert r.samples[k] == rest.samples[k - 1] && (i + 1) + (k - 1) == i + k;
          }
        }
      }
    }
  }

  /**
   * What the monthly loop collects: exactly one sample per month from month i to `last`, in
   * order, the k-th being month i + k's as MonthSampled says.
   */
  lemma MonthlySamples(V: Valuation, ends: int -> nat, i: int, last: int, fuel: nat)
    ensures var r := Monthly(V, ends, i, last, fuel, []);
      r.Done? ==>
        && |r.samples| == MonthCount(i, last)
        && forall k :: 0 <= k < |r.samples| ==> MonthSampled(V, ends, i + k, r.samples[k])
  {
    MonthlyAppends(V, ends, i, last, fuel, []);
    MonthlyFromSamples(V, ends, i, last, fuel);
    var r := MonthlyFrom(V, ends, i, last, fuel);
    if r.Done? {
      assert [] + r.samples == r.samples;
    }
  }

  // ---------------------------------------------------------------------------------------------
  // Yearly: one sample per year, never later than today

  /** The year of day n. */
  function YearOf(n: nat): int {
    DateOf(n).year
  }

  /** `Calendar.add(Calendar.YEAR, 1)` on day n. */
  function YearLater(n: nat): nat {
    NumberOf(Calendar.AddYear(DateOf(n)))
  }

  /**
   * The yearly loop, with `yearOf` and `later` the year of a day and the same day a year on: a
   * cursor after today is replaced by today and ends the loop after its pass; otherwise probe the
   * cursor, scan back while -1, key the sample by the year of the day reached, and move a year on
   * from that day.
   */
  function Yearly(V: Valuation, yearOf: nat -> int, later: nat -> nat, cursor: nat, end: nat, today: nat,
                  fuel: nat, acc: seq<Sample>): Outcome
    decreases fuel
  {
    if cursor > end then Done(acc)
    else if fuel == 0 then OutOfFuel
    else
      var c := if cursor > today then today else cursor;
      match WeekStep(V, c, c, fuel)
      case ScanThrew => Threw
      case ScanOut => OutOfFuel
      case Valued(e, v) =>
        var acc2 := Put(acc, YearKey(yearOf(e)), v);
        if cursor > today then Done(acc2) else Yearly(V, yearOf, later, later(e), end, today, fuel - 1, acc2)
  }

  /** A year sample: its value was taken on a valued day of that year, no later than today. */
  ghost predicate YearSampled(V: Valuation, yearOf: nat -> int, today: nat, s: Sample) {
    s.key.YearKey? &&
    exists e: nat :: yearOf(e) == s.key.year && e <= today && IsValued(V, e) && s.value == V(e).value
  }

  /** No yearly sample looks past today: each comes from a valued day of its year up to today. */
  lemma {:induction false} YearlySampled(V: Valuation, yearOf: nat -> int, later: nat -> nat, cursor: nat, end: nat,
                                         today: nat, fuel: nat, acc: seq<Sample>)
    requires forall s :: s in acc ==> YearSampled(V, yearOf, today, s)
    ensures var r := Yearly(V, yearOf, later, cursor, end, today, fuel, acc);
      r.Done? ==> forall s :: s in r.samples ==> YearSampled(V, yearOf, today, s)
    decreases fuel
  {
    if cursor <= end && fuel > 0 {
      var c := if cursor > today then today else cursor;
      if WeekStep(V, c, c, fuel).Valued? {
        var e, v := WeekStep(V, c, c, fuel).day, WeekStep(V, c, c, fuel).value;
        WeekStepSampled(V, c, fuel);
        assert YearSampled(V, yearOf, today, Sample(YearKey(yearOf(e)), v));
        PutPlaces(acc, YearKey(yearOf(e)), v);
        if cursor <= today {
          YearlySampled(V, yearOf, later, later(e), end, today, fuel - 1, Put(acc, YearKey(yearOf(e)), v));
        }
      }
    }
  }

  // ---------------------------------------------------------------------------------------------
  // The whole sampler

  /** Which loop a range of `span` days gets. */
  datatype Granularity = ByDay | ByWeek | ByMonth | ByYear

  function GranularityOf(span: int): Granularity {
    if span <= 30 then ByDay
    else if span <= 200 then ByWeek
    else if span <= 1600 then ByMonth
    else ByYear
  }

  /** The samples portfolioPerformance collects between begin and finish (the scale entry left aside). */
  function Sampled(V: Valuation, begin: Day, finish: Day, today: Day, fuel: nat): Outcome {
    var b, f := NumberOf(begin), NumberOf(finish);
    match GranularityOf(f as int - b)
    case ByDay => Daily(V, b, f, fuel, [])
    case ByWeek => WeeklyAsWritten(V, b, f, fuel)
    case ByMonth => Monthly(V, MonthEnd, MonthIndex(begin), MonthIndex(finish), fuel, [])
    case ByYear =>
      Yearly(V, YearOf, YearLater, NumberOf(Calendar.LastDayOfMonth(begin.year, 12)),
             NumberOf(Calendar.LastDayOfMonth(finish.year, 12)), NumberOf(today), fuel, [])
  }

  /** A range of at most 30 days gets every valued day in it once, in order, each keyed by its own day. */
  lemma SampledByDay(V: Valuation, begin: Day, finish: Day, today: Day, fuel: nat)
    requires GranularityOf(NumberOf(finish) as int - NumberOf(begin)) == ByDay
    ensures var r := Sampled(V, begin, finish, today, fuel);
      r.Done? ==>
        && DayKeysIncreasing(r.samples)
        && (forall s :: s in r.samples ==> DaySampled(V, s))
        && forall x: nat :: NumberOf(begin) <= x <= NumberOf(finish) && IsValued(V, x) ==>
             Sample(DayKey(x), V(x).value) in r.samples
  {
    var b, f := NumberOf(begin), NumberOf(finish);
    var r := Daily(V, b, f, fuel, []);
    assert Sampled(V, begin, finish, today, fuel) == r;
    DailySamples(V, b, f, fuel);
    if r.Done? {
      forall s | s in r.samples ensures DaySampled(V, s) {
        var i :| 0 <= i < |r.samples| && r.samples[i] == s;
      }
    }
  }

  /**
   * A range of 31 to 200 days gets samples each keyed by the day its value was taken on, except
   * that the sample keyed by `begin` may carry the value of the Friday after it.
   */
  lemma SampledByWeek(V: Valuation, begin: Day, finish: Day, today: Day, fuel: nat)
    requires GranularityOf(NumberOf(finish) as int - NumberOf(begin)) == ByWeek
    ensures var r := Sampled(V, begin, finish, today, fuel);
      r.Done? ==> forall s :: s in r.samples ==>
        DaySampled(V, s) || (s.key == DayKey(NumberOf(begin)) && V(FridayAfter(NumberOf(begin))) == Some(s.value))
  {
    WeeklyAsWrittenSampled(V, NumberOf(begin), NumberOf(finish), fuel);
  }

  /** A range of 201 to 1600 days gets one sample per month from begin's month to finish's, in order. */
  lemma SampledByMonth(V: Valuation, begin: Day, finish: Day, today: Day, fuel: nat)
    requires GranularityOf(NumberOf(finish) as int - NumberOf(begin)) == ByMonth
    ensures var r := Sampled(V, begin, finish, today, fuel);
      r.Done? ==>
        && |r.samples| == MonthCount(MonthIndex(begin), MonthIndex(finish))
        && forall k :: 0 <= k < |r.samples| ==> MonthSampled(V, MonthEnd, MonthIndex(begin) + k, r.samples[k])
  {
    MonthlySamples(V, MonthEnd, MonthIndex(begin), MonthIndex(finish), fuel);
  }

  /** A longer range gets years, each valued on a day of that year no later than today. */
  lemma SampledByYear(V: Valuation, begin: Day, finish: Day, today: Day, fuel: nat)
    requires GranularityOf(NumberOf(finish) as int - NumberOf(begin)) == ByYear
    ensures var r := Sampled(V, begin, finish, today, fuel);
      r.Done? ==> forall s :: s in r.samples ==> YearSampled(V, YearOf, NumberOf(today), s)
  {
    YearlySampled(V, YearOf, YearLater, NumberOf(Calendar.LastDayOfMonth(begin.year, 12)),
                  NumberOf(Calendar.LastDayOfMonth(finish.year, 12)), NumberOf(today), fuel, []);
  }
}
