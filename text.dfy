/**
 * The string operations of the Java standard library that the portfolio code relies on:
 * decimal rendering and parsing of integers and plain decimals, `String.split` with a literal
 * separator (trailing empty pieces removed, as with a zero limit), `split(sep, 2)`, joining,
 * `trim` and `replace` of one character by nothing.
 */
module Text {
  import opened Wrappers

  predicate IsDigit(c: char) {
    '0' <= c <= '9'
  }

  predicate AllDigits(s: string) {
    forall i :: 0 <= i < |s| ==> IsDigit(s[i])
  }

  function DigitChar(n: int): (c: char)
    requires 0 <= n < 10
    ensures IsDigit(c)
  {
    (48 + n) as char
  }

  function DigitValue(c: char): (n: int)
    requires IsDigit(c)
    ensures 0 <= n < 10
  {
    c as int - 48
  }

  /** Decimal digits of a natural number, without leading zeros (`Integer.toString` for n >= 0). */
  function NatText(n: nat): (s: string)
    ensures |s| > 0 && AllDigits(s)
    ensures n > 0 ==> s[0] != '0'
    decreases n
  {
    if n < 10 then [DigitChar(n)] else NatText(n / 10) + [DigitChar(n % 10)]
  }

  /** The value of a string of decimal digits, most significant first. */
  function DigitsValue(s: string): nat
    requires AllDigits(s)
    decreases |s|
  {
    if s == [] then 0 else DigitsValue(s[..|s| - 1]) * 10 + DigitValue(s[|s| - 1])
  }

  lemma {:induction false} DigitsValueOfNatText(n: nat)
    ensures DigitsValue(NatText(n)) == n
    decreases n
  {
    var s := NatText(n);
    if n >= 10 {
      DigitsValueOfNatText(n / 10);
      assert s[..|s| - 1] == NatText(n / 10);
    }
  }

  /** `Integer.toString`: an optional minus sign followed by the digits. */
  function IntText(n: int): string {
    if n < 0 then "-" + NatText(-n) else NatText(n)
  }

  /** The range of a Java `int`. */
  predicate IsInt32(n: int) {
    -0x8000_0000 <= n < 0x8000_0000
  }

  /**
   * `Integer.parseInt` on decimal text: an optional sign, at least one digit, and a value within
   * the range of an `int`. None stands for the NumberFormatException.
   */
  function ParseInt(s: string): (r: Option<int>)
    ensures r.Some? ==> |s| > 0 && IsInt32(r.value)
  {
    var v: Option<int> :=
      if |s| > 0 && (s[0] == '-' || s[0] == '+') then
        if |s| > 1 && AllDigits(s[1..]) then
          var m: int := DigitsValue(s[1..]);
          Some(if s[0] == '-' then -m else m)
        else None
      else if |s| > 0 && AllDigits(s) then Some(DigitsValue(s))
      else None;
    if v.Some? && IsInt32(v.value) then v else None
  }

  lemma ParseIntText(n: int)
    requires IsInt32(n)
    ensures ParseInt(IntText(n)) == Some(n)
  {
    if n < 0 {
      DigitsValueOfNatText(-n);
      assert IntText(n)[1..] == NatText(-n);
    } else {
      DigitsValueOfNatText(n);
    }
  }

  function Repeat(c: char, k: nat): (s: string)
    ensures |s| == k && forall i :: 0 <= i < k ==> s[i] == c
  {
    if k == 0 then [] else Repeat(c, k - 1) + [c]
  }

  /** The digits of n left-padded with zeros to at least `width` characters (`%02d`, `yyyy`). */
  function ZeroPad(n: nat, width: nat): (s: string)
    ensures AllDigits(s) && |s| >= width && |s| >= 1
  {
    var t := NatText(n);
    (if |t| < width then Repeat('0', width - |t|) else []) + t
  }

  lemma {:induction false} DigitsValueLeadingZeros(k: nat, t: string)
    requires AllDigits(t)
    ensures AllDigits(Repeat('0', k) + t)
    ensures DigitsValue(Repeat('0', k) + t) == DigitsValue(t)
    decreases |t|
  {
    var s := Repeat('0', k) + t;
    if t == [] {
      assert s == Repeat('0', k);
      ZerosValue(k);
    } else {
      assert s[..|s| - 1] == Repeat('0', k) + t[..|t| - 1];
      DigitsValueLeadingZeros(k, t[..|t| - 1]);
    }
  }

  lemma {:induction false} ZerosValue(k: nat)
    ensures DigitsValue(Repeat('0', k)) == 0
  {
    if k > 0 {
      assert Repeat('0', k)[..k - 1] == Repeat('0', k - 1);
      ZerosValue(k - 1);
    }
  }

  lemma ZeroPadValue(n: nat, width: nat)
    ensures DigitsValue(ZeroPad(n, width)) == n
  {
    var t := NatText(n);
    DigitsValueOfNatText(n);
    if |t| < width {
      DigitsValueLeadingZeros(width - |t|, t);
    } else {
      assert ZeroPad(n, width) == t;
    }
  }

  // ---------------------------------------------------------------------------------------------
  // Searching, splitting and joining

  predicate OccursAt(s: string, sep: string, j: int) {
    0 <= j && j + |sep| <= |s| && s[j..j + |sep|] == sep
  }

  lemma OccursAtChar(s: string, c: char, j: int)
    ensures OccursAt(s, [c], j) <==> 0 <= j < |s| && s[j] == c
  {
    if 0 <= j < |s| {
      assert s[j..j + 1] == [s[j]];
    }
  }

  /** The first position from `i` on at which `sep` occurs in `s` (IndexFromFirst says so). */
  function IndexFrom(s: string, sep: string, i: nat): (r: Option<nat>)
    requires |sep| > 0
    ensures r.Some? ==> i <= r.value && r.value + |sep| <= |s|
    decreases |s| - i
  {
    if i + |sep| > |s| then None
    else if s[i..i + |sep|] == sep then Some(i)
    else IndexFrom(s, sep, i + 1)
  }

  lemma {:induction false} IndexFromFirst(s: string, sep: string, i: nat)
    requires |sep| > 0
    ensures IndexFrom(s, sep, i).Some? ==> OccursAt(s, sep, IndexFrom(s, sep, i).value)
    ensures IndexFrom(s, sep, i).Some? ==> forall j :: i <= j < IndexFrom(s, sep, i).value ==> !OccursAt(s, sep, j)
    ensures IndexFrom(s, sep, i).None? ==> forall j :: i <= j ==> !OccursAt(s, sep, j)
    decreases |s| - i
  {
    if i + |sep| <= |s| && s[i..i + |sep|] != sep {
      IndexFromFirst(s, sep, i + 1);
    }
  }

  /** `String.indexOf`: the first position at which `sep` occurs in `s`. */
  function IndexOf(s: string, sep: string): (r: Option<nat>)
    requires |sep| > 0
    ensures r.Some? ==> r.value + |sep| <= |s|
  {
    IndexFrom(s, sep, 0)
  }

  lemma IndexOfFirst(s: string, sep: string)
    requires |sep| > 0
    ensures IndexOf(s, sep).Some? ==>
      OccursAt(s, sep, IndexOf(s, sep).value) && forall j :: 0 <= j < IndexOf(s, sep).value ==> !OccursAt(s, sep, j)
    ensures IndexOf(s, sep).None? <==> forall j :: !OccursAt(s, sep, j)
  {
    IndexFromFirst(s, sep, 0);
  }

  /** Every piece between occurrences of `sep`, keeping empty pieces. */
  function SplitAll(s: string, sep: string): (r: seq<string>)
    requires |sep| > 0
    ensures |r| >= 1
    decreases |s|
  {
    match IndexOf(s, sep)
    case None => [s]
    case Some(i) => [s[..i]] + SplitAll(s[i + |sep|..], sep)
  }

  function DropTrailingEmpty(xs: seq<string>): (r: seq<string>)
    ensures |r| <= |xs|
    ensures |r| > 0 ==> r[|r| - 1] != ""
  {
    if xs == [] then []
    else if xs[|xs| - 1] == "" then DropTrailingEmpty(xs[..|xs| - 1])
    else xs
  }

  /** Only empty pieces are dropped, and only from the end. */
  lemma {:induction false} DropTrailingEmptyPrefix(xs: seq<string>)
    ensures DropTrailingEmpty(xs) == xs[..|DropTrailingEmpty(xs)|]
    ensures forall k :: |DropTrailingEmpty(xs)| <= k < |xs| ==> xs[k] == ""
    decreases |xs|
  {
    if xs != [] && xs[|xs| - 1] == "" {
      DropTrailingEmptyPrefix(xs[..|xs| - 1]);
    }
  }

  /**
   * `s.split(sep)` for a separator without regular-expression meta characters: the pieces between
   * occurrences, with trailing empty pieces removed; a string without an occurrence gives itself.
   */
  function Split(s: string, sep: string): (r: seq<string>)
    requires |sep| > 0
  {
    if IndexOf(s, sep).None? then [s] else DropTrailingEmpty(SplitAll(s, sep))
  }

  /** `s.split(sep, 2)`: the text before the first occurrence and everything after it. */
  function SplitOnce(s: string, sep: char): (r: seq<string>)
    ensures 1 <= |r| <= 2
    ensures |r| == 1 <==> sep !in s
    ensures |r| == 1 ==> r[0] == s
    ensures |r| == 2 ==> s == r[0] + [sep] + r[1] && sep !in r[0]
  {
    IndexOfFirst(s, [sep]);
    match IndexOf(s, [sep])
    case None =>
      assert forall j :: 0 <= j < |s| ==> s[j] != sep by {
        forall j | 0 <= j < |s| ensures s[j] != sep {
          assert !OccursAt(s, [sep], j);
          assert s[j..j + 1] == [s[j]];
        }
      }
      [s]
    case Some(i) =>
      assert s[i..i + 1] == [sep];
      assert forall j :: 0 <= j < i ==> s[j] != sep by {
        forall j | 0 <= j < i ensures s[j] != sep {
          assert !OccursAt(s, [sep], j);
          assert s[j..j + 1] == [s[j]];
        }
      }
      assert s == s[..i] + [sep] + s[i + 1..];
      [s[..i], s[i + 1..]]
  }

  function Join(xs: seq<string>, sep: string): string
    decreases |xs|
  {
    if |xs| == 0 then "" else if |xs| == 1 then xs[0] else xs[0] + sep + Join(xs[1..], sep)
  }

  lemma {:induction false} IndexAfterPrefix(a: string, sep: string, b: string, i: nat)
    requires |sep| > 0 && i <= |a|
    requires forall j :: 0 <= j < |a| ==> a[j] != sep[0]
    ensures IndexFrom(a + sep + b, sep, i) == Some(|a|)
    decreases |a| - i
  {
    var s := a + sep + b;
    assert s[|a|..|a| + |sep|] == sep;
    if i < |a| {
      assert s[i..i + |sep|][0] == a[i];
      IndexAfterPrefix(a, sep, b, i + 1);
    }
  }

  /** Splitting what was joined gives back the pieces: no piece before the last may contain the separator's first character, and the last may not contain the separator. */
  lemma {:induction false} SplitAllJoin(xs: seq<string>, sep: string)
    requires |sep| > 0 && |xs| > 0
    requires forall k, j :: 0 <= k < |xs| - 1 && 0 <= j < |xs[k]| ==> xs[k][j] != sep[0]
    requires IndexOf(xs[|xs| - 1], sep).None?
    ensures SplitAll(Join(xs, sep), sep) == xs
    decreases |xs|
  {
    if |xs| > 1 {
      var rest := Join(xs[1..], sep);
      IndexAfterPrefix(xs[0], sep, rest, 0);
      var s := xs[0] + sep + rest;
      assert s[|xs[0]|..] == sep + rest;
      assert s[|xs[0]| + |sep|..] == rest;
      assert s[..|xs[0]|] == xs[0];
      SplitAllJoin(xs[1..], sep);
    }
  }

  lemma SplitJoin(xs: seq<string>, sep: string)
    requires |sep| > 0 && |xs| > 0 && xs[|xs| - 1] != ""
    requires forall k, j :: 0 <= k < |xs| - 1 && 0 <= j < |xs[k]| ==> xs[k][j] != sep[0]
    requires IndexOf(xs[|xs| - 1], sep).None?
    ensures Split(Join(xs, sep), sep) == xs
  {
    SplitAllJoin(xs, sep);
    if IndexOf(Join(xs, sep), sep).None? {
      assert |xs| == 1;
    }
  }

  lemma {:induction false} JoinSnoc(xs: seq<string>, x: string, sep: string)
    ensures Join(xs + [x], sep) == if xs == [] then x else Join(xs, sep) + sep + x
    decreases |xs|
  {
    if xs == [] {
      assert xs + [x] == [x];
    } else if |xs| == 1 {
      assert xs + [x] == [xs[0], x];
      assert (xs + [x])[1..] == [x];
    } else {
      assert (xs + [x])[1..] == xs[1..] + [x];
      JoinSnoc(xs[1..], x, sep);
    }
  }

  predicate Avoids(s: string, c: char) {
    forall j :: 0 <= j < |s| ==> s[j] != c
  }

  lemma AvoidsConcat(a: string, b: string, c: char)
    requires Avoids(a, c) && Avoids(b, c)
    ensures Avoids(a + b, c)
  {
    forall j | 0 <= j < |a + b| ensures (a + b)[j] != c {
      if j >= |a| {
        assert (a + b)[j] == b[j - |a|];
      }
    }
  }

  lemma {:induction false} JoinAvoids(xs: seq<string>, sep: string, c: char)
    requires forall i :: 0 <= i < |xs| ==> Avoids(xs[i], c)
    requires Avoids(sep, c)
    ensures Avoids(Join(xs, sep), c)
    decreases |xs|
  {
    if |xs| > 1 {
      JoinAvoids(xs[1..], sep, c);
      var rest := Join(xs[1..], sep);
      assert Join(xs, sep) == xs[0] + sep + rest;
      forall j | 0 <= j < |Join(xs, sep)| ensures Join(xs, sep)[j] != c {
        if j < |xs[0]| {
          assert Join(xs, sep)[j] == xs[0][j];
        } else if j < |xs[0]| + |sep| {
          assert Join(xs, sep)[j] == sep[j - |xs[0]|];
        } else {
          assert Join(xs, sep)[j] == rest[j - |xs[0]| - |sep|];
        }
      }
    }
  }

  /** `RemoveAll` applied to every piece. */
  function RemoveEach(xs: seq<string>, c: char): (r: seq<string>)
    ensures |r| == |xs|
    decreases |xs|
  {
    if xs == [] then [] else [RemoveAll(xs[0], c)] + RemoveEach(xs[1..], c)
  }

  lemma {:induction false} RemoveAllJoin(xs: seq<string>, sep: string, c: char)
    requires Avoids(sep, c)
    ensures RemoveAll(Join(xs, sep), c) == Join(RemoveEach(xs, c), sep)
    decreases |xs|
  {
    if |xs| == 1 {
      assert RemoveEach(xs, c) == [RemoveAll(xs[0], c)];
    } else if |xs| > 1 {
      RemoveAllJoin(xs[1..], sep, c);
      RemoveAllConcat(xs[0] + sep, Join(xs[1..], sep), c);
      RemoveAllConcat(xs[0], sep, c);
      assert c !in sep;
      RemoveAllAbsent(sep, c);
      assert RemoveEach(xs, c)[1..] == RemoveEach(xs[1..], c);
    }
  }

  lemma AvoidsNoOccurrence(s: string, sep: string)
    requires |sep| > 0 && Avoids(s, sep[0])
    ensures IndexOf(s, sep).None?
  {
    IndexOfFirst(s, sep);
  }

  lemma FirstOccurrenceUnique(s: string, c: char, i: nat, j: nat)
    requires i < |s| && j < |s| && s[i] == c && s[j] == c
    requires c !in s[..i] && c !in s[..j]
    ensures i == j
  {
  }

  /** Splitting at the first occurrence of a character that the left part lacks. */
  lemma SplitOnceAt(a: string, c: char, b: string)
    requires c !in a
    ensures SplitOnce(a + [c] + b, c) == [a, b]
  {
    var r := SplitOnce(a + [c] + b, c);
    assert (a + [c] + b)[|a|] == c;
    assert |r| == 2;
    var s := a + [c] + b;
    assert s == r[0] + [c] + r[1];
    assert s[|r[0]|] == c;
    assert forall k :: 0 <= k < |r[0]| ==> s[k] == r[0][k];
    assert forall k :: 0 <= k < |a| ==> s[k] == a[k];
    FirstOccurrenceUnique(s, c, |a|, |r[0]|);
    assert r[0] == s[..|a|] == a;
    assert r[1] == s[|a| + 1..] == b;
  }

  /** Every piece of a split at a character lacks that character. */
  lemma {:induction false} SplitAllAvoidsSep(s: string, c: char)
    ensures forall k :: 0 <= k < |SplitAll(s, [c])| ==> Avoids(SplitAll(s, [c])[k], c)
    decreases |s|
  {
    IndexOfFirst(s, [c]);
    match IndexOf(s, [c])
    case None =>
      forall j | 0 <= j < |s| ensures s[j] != c {
        OccursAtChar(s, c, j);
      }
    case Some(i) =>
      forall j | 0 <= j < i ensures s[j] != c {
        OccursAtChar(s, c, j);
      }
      SplitAllAvoidsSep(s[i + 1..], c);
  }

  /** The pieces of a text that lacks a character lack it too. */
  lemma {:induction false} SplitAllKeepsAvoid(s: string, sep: string, c: char)
    requires |sep| > 0 && Avoids(s, c)
    ensures forall k :: 0 <= k < |SplitAll(s, sep)| ==> Avoids(SplitAll(s, sep)[k], c)
    decreases |s|
  {
    match IndexOf(s, sep)
    case None =>
    case Some(i) =>
      SplitAllKeepsAvoid(s[i + |sep|..], sep, c);
  }

  /** The pieces of `split` at a character lack it, and lack whatever the text lacks. */
  lemma SplitAvoids(s: string, c: char, d: char)
    ensures forall k :: 0 <= k < |Split(s, [c])| ==> Avoids(Split(s, [c])[k], c)
    ensures Avoids(s, d) ==> forall k :: 0 <= k < |Split(s, [c])| ==> Avoids(Split(s, [c])[k], d)
  {
    if IndexOf(s, [c]).Some? {
      SplitAllAvoidsSep(s, c);
      if Avoids(s, d) {
        SplitAllKeepsAvoid(s, [c], d);
      }
      DropTrailingEmptyPrefix(SplitAll(s, [c]));
    } else {
      IndexOfFirst(s, [c]);
      forall j | 0 <= j < |s| ensures s[j] != c {
        OccursAtChar(s, c, j);
      }
    }
  }

  /** Splitting a join at a character no piece holds gives the pieces back, unless a last empty piece is dropped. */
  lemma SplitJoinAvoiding(xs: seq<string>, c: char)
    requires |xs| > 0 && forall k :: 0 <= k < |xs| ==> Avoids(xs[k], c)
    requires |xs| > 1 ==> xs[|xs| - 1] != ""
    ensures Split(Join(xs, [c]), [c]) == xs
  {
    AvoidsNoOccurrence(xs[|xs| - 1], [c]);
    if |xs| > 1 {
      forall k, j | 0 <= k < |xs| - 1 && 0 <= j < |xs[k]| ensures xs[k][j] != [c][0] {
        assert Avoids(xs[k], c);
      }
      SplitJoin(xs, [c]);
    }
  }

  /** The pieces of a split, joined and split again, are the same pieces. */
  lemma SplitRejoin(s: string, c: char)
    requires |Split(s, [c])| > 0
    ensures Split(Join(Split(s, [c]), [c]), [c]) == Split(s, [c])
  {
    SplitAvoids(s, c, c);
    SplitJoinAvoiding(Split(s, [c]), c);
  }

  /** A join is empty only when its last piece is. */
  lemma {:induction false} JoinKeepsLast(xs: seq<string>, sep: string)
    requires |xs| > 0 && xs[|xs| - 1] != ""
    ensures Join(xs, sep) != ""
    decreases |xs|
  {
    if |xs| > 1 {
      JoinKeepsLast(xs[1..], sep);
    }
  }

  /** Each piece followed by `sep`, as a loop appending a piece and then the separator builds it. */
  function Terminated(xs: seq<string>, sep: string): string
    decreases |xs|
  {
    if xs == [] then "" else Terminated(xs[..|xs| - 1], sep) + xs[|xs| - 1] + sep
  }

  lemma {:induction false} TerminatedIsJoin(xs: seq<string>, sep: string)
    requires xs != []
    ensures Terminated(xs, sep) == Join(xs, sep) + sep
    decreases |xs|
  {
    var n := |xs| - 1;
    assert xs == xs[..n] + [xs[n]];
    JoinSnoc(xs[..n], xs[n], sep);
    if n > 0 {
      TerminatedIsJoin(xs[..n], sep);
    }
  }

  /** Splitting terminated pieces gives them back, as long as the last is not empty. */
  lemma SplitTerminated(xs: seq<string>, c: char)
    requires forall k :: 0 <= k < |xs| ==> Avoids(xs[k], c)
    requires xs != [] && xs[|xs| - 1] != ""
    ensures Split(Terminated(xs, [c]), [c]) == xs
  {
    var t := Terminated(xs, [c]);
    var ys := xs + [""];
    assert Join(ys, [c]) == t by {
      TerminatedIsJoin(xs, [c]);
      JoinSnoc(xs, "", [c]);
    }
    SplitAllOfTerminated(xs, ys, c);
    assert SplitAll(t, [c]) == ys;
    assert IndexOf(t, [c]).Some?;
    assert ys[..|ys| - 1] == xs;
    assert DropTrailingEmpty(ys) == xs;
  }

  lemma SplitAllOfTerminated(xs: seq<string>, ys: seq<string>, c: char)
    requires forall k :: 0 <= k < |xs| ==> Avoids(xs[k], c)
    requires ys == xs + [""]
    ensures SplitAll(Join(ys, [c]), [c]) == ys
  {
    forall k, j | 0 <= k < |ys| - 1 && 0 <= j < |ys[k]| ensures ys[k][j] != [c][0] {
      assert ys[k] == xs[k];
      assert Avoids(xs[k], c);
    }
    IndexOfFirst("", [c]);
    SplitAllJoin(ys, [c]);
  }

  /** Terminated pieces followed by one more non-empty piece split into all of them. */
  lemma SplitTerminatedThen(xs: seq<string>, x: string, c: char)
    requires forall k :: 0 <= k < |xs| ==> Avoids(xs[k], c)
    requires Avoids(x, c) && x != ""
    ensures Split(Terminated(xs, [c]) + x, [c]) == xs + [x]
  {
    TerminatedThenIsJoin(xs, x, [c]);
    AllAvoidSnoc(xs, x, c);
    SplitJoinAvoiding(xs + [x], c);
  }

  lemma TerminatedThenIsJoin(xs: seq<string>, x: string, sep: string)
    ensures Join(xs + [x], sep) == Terminated(xs, sep) + x
  {
    JoinSnoc(xs, x, sep);
    if xs != [] {
      TerminatedIsJoin(xs, sep);
    }
  }

  lemma AllAvoidSnoc(xs: seq<string>, x: string, c: char)
    requires forall k :: 0 <= k < |xs| ==> Avoids(xs[k], c)
    requires Avoids(x, c)
    ensures forall k :: 0 <= k < |xs + [x]| ==> Avoids((xs + [x])[k], c)
  {
    forall k | 0 <= k < |xs + [x]| ensures Avoids((xs + [x])[k], c) {
      if k < |xs| {
        assert (xs + [x])[k] == xs[k];
      }
    }
  }

  // ---------------------------------------------------------------------------------------------
  // Trimming and character removal

  predicate IsBlank(c: char) {
    c <= ' '
  }

  function TrimStart(s: string): (r: string)
    ensures |r| <= |s|
    ensures |r| > 0 ==> !IsBlank(r[0])
    decreases |s|
  {
    if |s| > 0 && IsBlank(s[0]) then TrimStart(s[1..]) else s
  }

  function TrimEnd(s: string): (r: string)
    ensures |r| <= |s|
    ensures |r| > 0 ==> !IsBlank(r[|r| - 1])
    decreases |s|
  {
    if |s| > 0 && IsBlank(s[|s| - 1]) then TrimEnd(s[..|s| - 1]) else s
  }

  /** Trimming keeps a suffix, and everything it drops is blank. */
  lemma {:induction false} TrimStartSuffix(s: string)
    ensures TrimStart(s) == s[|s| - |TrimStart(s)|..]
    ensures forall k :: 0 <= k < |s| - |TrimStart(s)| ==> IsBlank(s[k])
    decreases |s|
  {
    if |s| > 0 && IsBlank(s[0]) {
      TrimStartSuffix(s[1..]);
      forall k | 1 <= k < |s| - |TrimStart(s)| ensures IsBlank(s[k]) {
        assert s[k] == s[1..][k - 1];
      }
    }
  }

  /** Trimming keeps a prefix, and everything it drops is blank. */
  lemma {:induction false} TrimEndPrefix(s: string)
    ensures TrimEnd(s) == s[..|TrimEnd(s)|]
    ensures forall k :: |TrimEnd(s)| <= k < |s| ==> IsBlank(s[k])
    decreases |s|
  {
    if |s| > 0 && IsBlank(s[|s| - 1]) {
      TrimEndPrefix(s[..|s| - 1]);
    }
  }

  /** `String.trim`: drop every character up to and including the space from both ends. */
  function Trim(s: string): string {
    TrimEnd(TrimStart(s))
  }

  lemma TrimUnblanked(s: string)
    requires |s| > 0 ==> !IsBlank(s[0]) && !IsBlank(s[|s| - 1])
    ensures Trim(s) == s
  {
  }

  /** `s.replace(c, "")`: every occurrence of `c` deleted. */
  function RemoveAll(s: string, c: char): (r: string)
    ensures c !in r
    ensures |r| <= |s|
    decreases |s|
  {
    if s == [] then [] else RemoveAll(s[..|s| - 1], c) + (if s[|s| - 1] == c then [] else [s[|s| - 1]])
  }

  lemma {:induction false} RemoveAllConcat(a: string, b: string, c: char)
    ensures RemoveAll(a + b, c) == RemoveAll(a, c) + RemoveAll(b, c)
    decreases |b|
  {
    if b != [] {
      assert (a + b)[..|a + b| - 1] == a + b[..|b| - 1];
      RemoveAllConcat(a, b[..|b| - 1], c);
    } else {
      assert a + b == a;
    }
  }

  lemma {:induction false} RemoveAllAbsent(s: string, c: char)
    requires c !in s
    ensures RemoveAll(s, c) == s
    decreases |s|
  {
    if s != [] {
      RemoveAllAbsent(s[..|s| - 1], c);
    }
  }

  // ---------------------------------------------------------------------------------------------
  // Plain decimal numbers

  function Pow10(k: nat): (p: nat)
    ensures p >= 1
  {
    if k == 0 then 1 else 10 * Pow10(k - 1)
  }

  /** An unsigned decimal: digits, optionally a point and more digits, at least one digit in all. */
  function ParseUnsignedDecimal(s: string): Option<real> {
    match IndexOf(s, ".")
    case None =>
      if |s| > 0 && AllDigits(s) then Some(DigitsValue(s) as real) else None
    case Some(i) =>
      var whole, frac := s[..i], s[i + 1..];
      if AllDigits(whole) && AllDigits(frac) && |whole| + |frac| > 0 then
        Some(DigitsValue(whole) as real + (DigitsValue(frac) as real) / (Pow10(|frac|) as real))
      else None
  }

  /** An optional sign followed by an unsigned decimal. */
  function ParseSignedDecimal(s: string): Option<real> {
    if |s| > 0 && (s[0] == '-' || s[0] == '+') then
      match ParseUnsignedDecimal(s[1..])
      case None => None
      case Some(v) => Some(if s[0] == '-' then -v else v)
    else ParseUnsignedDecimal(s)
  }

  /**
   * `Double.parseDouble` on plain decimal text: surrounding blanks trimmed, then a signed decimal.
   * None stands for the NumberFormatException the source lets propagate.
   */
  function ParseDecimal(text: string): Option<real> {
    ParseSignedDecimal(Trim(text))
  }

  lemma UnsignedDecimalPrice()
    ensures ParseUnsignedDecimal("94.66") == Some(94.66)
  {
    IndexOfFirst("94.66", ".");
    OccursAtChar("94.66", '.', 0);
    OccursAtChar("94.66", '.', 1);
    OccursAtChar("94.66", '.', 2);
    assert "94.66"[..2] == "94" && "94.66"[3..] == "66";
    assert DigitsValue("94") == 94 by { assert "94"[..1] == "9"; }
    assert DigitsValue("66") == 66 by { assert "66"[..1] == "6"; }
  }

  /** The closing price of the bundled series for GOOG on 2022-10-31, as the source reads it. */
  lemma ParseDecimalPrice()
    ensures ParseDecimal("94.66") == Some(94.66)
  {
    TrimPrice();
    SignedDecimalPrice();
  }

  lemma TrimPrice()
    ensures Trim("94.66") == "94.66"
  {
    TrimUnblanked("94.66");
  }

  lemma SignedDecimalPrice()
    ensures ParseSignedDecimal("94.66") == Some(94.66)
  {
    UnsignedDecimalPrice();
  }

  lemma ParseDecimalRejectsWords()
    ensures ParseDecimal("abc") == None
  {
    assert Trim("abc") == "abc" by {
      TrimUnblanked("abc");
    }
    assert ParseUnsignedDecimal("abc") == None by {
      IndexOfFirst("abc", ".");
      OccursAtChar("abc", '.', 0);
      OccursAtChar("abc", '.', 1);
      OccursAtChar("abc", '.', 2);
    }
  }
}
