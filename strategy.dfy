/**
 * The dollar-cost-averaging schedule of investmentStrategy, on day numbers as Calendar.DayNumber
 * counts them: day 0 (0001-01-01) is a Monday, so n % 7 is the weekday of day n with Monday 0,
 * Saturday 5 and Sunday 6. A run advances a cursor from its start: a Saturday moves it two days
 * on and a Sunday one; if that passes the end the loop breaks, the cursor left where it moved.
 * Otherwise a pass buys on the cursor's day and the cursor moves on by the interval.
 */
module Strategy {
  import Validators

  /** The only strategy name investmentStrategy runs. */
  const DollarCostAveraging: string := "DOLLAR COST AVERAGING"

  const Saturday: nat := 5
  const Sunday: nat := 6

  predicate Weekend(n: nat) {
    n % 7 == Saturday || n % 7 == Sunday
  }

  // ---------------------------------------------------------------------------------------------
  // Weights

  function Scaled(ws: seq<real>, k: real): (r: seq<real>)
    ensures |r| == |ws| && forall i :: 0 <= i < |ws| ==> r[i] == ws[i] * k
  {
    seq(|ws|, i requires 0 <= i < |ws| => ws[i] * k)
  }

  /** Scaling every weight scales their sum. */
  lemma {:induction false} SumScaled(ws: seq<real>, k: real)
    ensures Validators.Sum(Scaled(ws, k)) == Validators.Sum(ws) * k
    decreases |ws|
  {
    if ws != [] {
      var n := |ws| - 1;
      var front := ws[..n];
      var sc := Scaled(ws, k);
      SumScaled(front, k);
      var sf := Scaled(front, k);
      assert |sf| == n && |sc| == n + 1;
      assert sc[..n] == sf by {
        forall i | 0 <= i < n ensures sc[..n][i] == sf[i] {
          assert front[i] == ws[i];
          assert sf[i] == front[i] * k;
          assert sc[i] == ws[i] * k;
        }
      }
      assert Validators.Sum(sc) == Validators.Sum(front) * k + ws[n] * k;
      Distributes(Validators.Sum(front), ws[n], k);
    }
  }

  lemma Distributes(a: real, b: real, k: real)
    ensures (a + b) * k == a * k + b * k
  {
  }

  /** A weight as the run holds it: a number, or NaN once a zero sum was scaled by 100 / 0. */
  datatype Weight = Finite(value: real) | NaN

  function Finites(xs: seq<real>): (r: seq<Weight>)
    ensures |r| == |xs| && forall i :: 0 <= i < |xs| ==> r[i] == Finite(xs[i])
  {
    seq(|xs|, i requires 0 <= i < |xs| => Finite(xs[i]))
  }

  function AllNaN(n: nat): (r: seq<Weight>)
    ensures |r| == n && forall i :: 0 <= i < n ==> r[i] == NaN
  {
    seq(n, i => NaN)
  }

  /** What an array of reals holds: its numbers, or NaN in every place when `nan` is set. */
  function Held(xs: seq<real>, nan: bool): (r: seq<Weight>)
    ensures |r| == |xs|
  {
    if nan then AllNaN(|xs|) else Finites(xs)
  }

  /**
   * The weights the model can normalise: a non-zero sum, or all of them zero. A zero sum of
   * weights of mixed sign would scale them to infinities, which the model does not represent.
   */
  predicate Normalizable(ws: seq<real>) {
    Validators.Sum(ws) != 0.0 || forall i :: 0 <= i < |ws| ==> ws[i] == 0.0
  }

  /** A non-zero sum below 100 scales every weight by 100 / sum; any other sum keeps them. */
  function Rescaled(ws: seq<real>): seq<real>
    requires Validators.Sum(ws) != 0.0
  {
    if Validators.Sum(ws) < 100.0 then Scaled(ws, 100.0 / Validators.Sum(ws)) else ws
  }

  /**
   * The weights as the run uses them. A zero sum is below 100 too, so every weight is multiplied
   * by 100 / 0, infinity, and 0 times infinity is NaN.
   */
  function Normalized(ws: seq<real>): (r: seq<Weight>)
    requires Normalizable(ws)
    ensures |r| == |ws|
  {
    if Validators.Sum(ws) == 0.0 then AllNaN(|ws|) else Finites(Rescaled(ws))
  }

  /**
   * Weights summing to less than 100 but not to zero come out summing to exactly 100, each scaled
   * by the same factor and none made smaller when all are non-negative; weights summing to 100 or
   * more are kept as they are; weights summing to zero all become NaN.
   */
  lemma NormalizedSum(ws: seq<real>)
    requires Normalizable(ws)
    ensures Validators.Sum(ws) == 0.0 <==> forall i :: 0 <= i < |ws| ==> Normalized(ws)[i] == NaN
    ensures Validators.Sum(ws) != 0.0 ==> Normalized(ws) == Finites(Rescaled(ws)) && |Rescaled(ws)| == |ws|
    ensures Validators.Sum(ws) != 0.0 && Validators.Sum(ws) < 100.0 ==>
      && Validators.Sum(Rescaled(ws)) == 100.0
      && forall i :: 0 <= i < |ws| ==> Rescaled(ws)[i] == ws[i] * (100.0 / Validators.Sum(ws))
    ensures Validators.Sum(ws) > 0.0 && (forall i :: 0 <= i < |ws| ==> ws[i] >= 0.0) ==>
      forall i :: 0 <= i < |ws| ==> Rescaled(ws)[i] >= ws[i]
    ensures Validators.Sum(ws) >= 100.0 ==> Normalized(ws) == Finites(ws)
  {
    var s := Validators.Sum(ws);
    if s != 0.0 && s < 100.0 {
      SumScaled(ws, 100.0 / s);
      if s > 0.0 {
        assert 100.0 / s > 1.0;
        forall i | 0 <= i < |ws| && ws[i] >= 0.0 ensures Rescaled(ws)[i] >= ws[i] {
          assert ws[i] * (100.0 / s) >= ws[i] * 1.0;
        }
      }
    }
    if s != 0.0 && |ws| > 0 {
      assert Normalized(ws)[0] == Finite(Rescaled(ws)[0]);
    }
  }

  /** Non-negative weights summing to zero are all zero. */
  lemma {:induction false} ZeroSumAllZero(ws: seq<real>)
    requires forall i :: 0 <= i < |ws| ==> ws[i] >= 0.0
    ensures Validators.Sum(ws) >= 0.0
    ensures Validators.Sum(ws) == 0.0 ==> forall i :: 0 <= i < |ws| ==> ws[i] == 0.0
    decreases |ws|
  {
    if ws != [] {
      var front := ws[..|ws| - 1];
      ZeroSumAllZero(front);
      if Validators.Sum(ws) == 0.0 {
        forall i | 0 <= i < |ws| ensures ws[i] == 0.0 {
          if i < |front| {
            assert ws[i] == front[i];
          }
        }
      }
    }
  }

  /** Weights the validator accepted one by one can always be normalised. */
  lemma AcceptedNormalizable(ws: seq<real>)
    requires Validators.AcceptedOneByOne(ws)
    ensures Normalizable(ws)
  {
    Validators.AcceptedWeightsWithinHundred(ws);
    ZeroSumAllZero(ws);
  }

  // ---------------------------------------------------------------------------------------------
  // The schedule

  /** Where the weekend step leaves the cursor: a day to buy on, or one past the end that stops the loop. */
  datatype Move = Stay(day: nat) | Stop(day: nat)

  /** The weekend step at the top of each pass, for a cursor d not after the end. */
  function Adjust(d: nat, end: nat): (r: Move)
    requires d <= end
    ensures d <= r.day <= d + 2
    ensures r.Stay? ==> r.day <= end && !Weekend(r.day)
    ensures r.Stop? ==> end < r.day
    ensures !Weekend(d) ==> r == Stay(d)
  {
    if d % 7 == Saturday then (if d + 2 <= end then Stay(d + 2) else Stop(d + 2))
    else if d % 7 == Sunday then (if d + 1 <= end then Stay(d + 1) else Stop(d + 1))
    else Stay(d)
  }

  /** The days the passes from cursor d buy on. */
  function Cycles(d: nat, end: nat, interval: nat): seq<nat>
    requires interval >= 1
    decreases end + 1 - d
  {
    if d > end then []
    else match Adjust(d, end)
      case Stop(_) => []
      case Stay(c) => [c] + Cycles(c + interval, end, interval)
  }

  /** Where the cursor is when the loop ends: the date an open-ended run records. */
  function Exit(d: nat, end: nat, interval: nat): nat
    requires interval >= 1
    decreases end + 1 - d
  {
    if d > end then d
    else match Adjust(d, end)
      case Stop(e) => e
      case Stay(c) => Exit(c + interval, end, interval)
  }

  /** One turn of the loop that buys: the buying day it moved to, then the turns from an interval later. */
  lemma Step(d: nat, end: nat, interval: nat)
    requires interval >= 1 && d <= end && Adjust(d, end).Stay?
    ensures Cycles(d, end, interval) == [Adjust(d, end).day] + Cycles(Adjust(d, end).day + interval, end, interval)
    ensures Exit(d, end, interval) == Exit(Adjust(d, end).day + interval, end, interval)
  {
  }

  /** A weekend step past the end stops the loop there without buying. */
  lemma Halt(d: nat, end: nat, interval: nat)
    requires interval >= 1 && d <= end && Adjust(d, end).Stop?
    ensures Cycles(d, end, interval) == [] && Exit(d, end, interval) == Adjust(d, end).day
  {
  }

  /**
   * Every pass buys on a weekday between the start and the end, each at least an interval after
   * the one before; the loop stops with the cursor past the end and at least an interval after
   * the last buying day, even when the run has no pass; a start on a weekday within the range is
   * the first buying day.
   */
  lemma {:induction false} CyclesSpec(d: nat, end: nat, interval: nat)
    requires interval >= 1
    ensures var cs := Cycles(d, end, interval);
      && (forall k :: 0 <= k < |cs| ==> d <= cs[k] <= end && !Weekend(cs[k]))
      && (forall k :: 0 <= k < |cs| - 1 ==> cs[k] + interval <= cs[k + 1])
      && end < Exit(d, end, interval) && d <= Exit(d, end, interval)
      && (cs != [] ==> cs[|cs| - 1] + interval <= Exit(d, end, interval))
      && (d <= end && !Weekend(d) ==> cs != [] && cs[0] == d)
    decreases end + 1 - d
  {
    if d <= end && Adjust(d, end).Stay? {
      var c := Adjust(d, end).day;
      Step(d, end, interval);
      CyclesSpec(c + interval, end, interval);
    }
  }

  /** The loop always stops with the cursor past the end. */
  lemma ExitAfterEnd(d: nat, end: nat, interval: nat)
    requires interval >= 1
    ensures end < Exit(d, end, interval)
  {
    CyclesSpec(d, end, interval);
  }

  /** The buying days are strictly increasing. */
  lemma CyclesIncreasing(d: nat, end: nat, interval: nat, j: nat, k: nat)
    requires interval >= 1 && j < k < |Cycles(d, end, interval)|
    ensures Cycles(d, end, interval)[j] < Cycles(d, end, interval)[k]
    decreases k - j
  {
    CyclesSpec(d, end, interval);
    if j + 1 < k {
      CyclesIncreasing(d, end, interval, j + 1, k);
    }
  }

  /** A weekend step that stops the loop leaves the cursor on a Monday. */
  lemma StopOnMonday(d: nat, end: nat)
    requires d <= end && Adjust(d, end).Stop?
    ensures Adjust(d, end).day % 7 == 0
  {
  }

  /** With a later end the weekend step moves the cursor to the same day, and buys there once that day is in range. */
  lemma AdjustLater(d: nat, end: nat, end2: nat)
    requires d <= end <= end2
    ensures Adjust(d, end2).day == Adjust(d, end).day
    ensures Adjust(d, end).Stay? ==> Adjust(d, end2) == Adjust(d, end)
    ensures Adjust(d, end).day <= end2 ==> Adjust(d, end2).Stay?
  {
  }

  /**
   * A run resumed where an earlier one stopped does what a single run to the later end does:
   * the buying days of the long run are those of the short run followed by those of the resumed
   * run, and both stop at the same day.
   */
  lemma {:induction false} Resume(d: nat, end: nat, end2: nat, interval: nat)
    requires interval >= 1 && end <= end2
    ensures Cycles(d, end2, interval) == Cycles(d, end, interval) + Cycles(Exit(d, end, interval), end2, interval)
    ensures Exit(d, end2, interval) == Exit(Exit(d, end, interval), end2, interval)
    decreases end + 1 - d
  {
    if d <= end {
      if Adjust(d, end).Stop? {
        ResumeStopped(d, end, end2, interval);
      } else {
        AdjustLater(d, end, end2);
        Resume(Adjust(d, end).day + interval, end, end2, interval);
      }
    }
  }

  /** Resuming where a weekend step stopped the short run: on that Monday, the first buying day of the long run. */
  lemma ResumeStopped(d: nat, end: nat, end2: nat, interval: nat)
    requires interval >= 1 && d <= end <= end2 && Adjust(d, end).Stop?
    ensures Cycles(d, end2, interval) == Cycles(d, end, interval) + Cycles(Exit(d, end, interval), end2, interval)
    ensures Exit(d, end2, interval) == Exit(Exit(d, end, interval), end2, interval)
  {
    AdjustLater(d, end, end2);
    StopOnMonday(d, end);
    var c := Adjust(d, end).day;
    assert Cycles(d, end, interval) == [] && Exit(d, end, interval) == c;
    if c <= end2 {
      assert Adjust(c, end2) == Stay(c);
    }
  }

  /** A resumed run whose end is the one the run stopped after buys nothing and stops where it started. */
  lemma NothingAfterExit(d: nat, end: nat, interval: nat)
    requires interval >= 1
    ensures Cycles(Exit(d, end, interval), end, interval) == []
    ensures Exit(Exit(d, end, interval), end, interval) == Exit(d, end, interval)
  {
    CyclesSpec(d, end, interval);
  }
}
