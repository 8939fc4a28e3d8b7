/**
 * The ongoing-strategies file of a user (`flexible/ongoing_strategies.csv`): one line per
 * open-ended strategy, with the fields portfolio name, strategy, user, interval in days, the next
 * cycle date, the amount per cycle, and the symbols, weights and commissions as
 * `Arrays.toString` writes them, separated by ';'. `isStrategyOngoing` finds a portfolio's line;
 * an open-ended run of `investmentStrategy` rewrites the file.
 */
module Checkpoint {
  import opened Wrappers
  import Text

  /** `text.split("\n")`. */
  function Lines(text: string): seq<string> {
    Text.Split(text, "\n")
  }

  /** `line.split(";")`. */
  function Fields(line: string): seq<string> {
    Text.Split(line, ";")
  }

  /** The line is a record of this portfolio: it has a field 0 and that field is the name. */
  predicate IsRecordOf(line: string, name: string) {
    |Fields(line)| > 0 && Fields(line)[0] == name
  }

  /** Text fit for a field: neither separator occurs in it. */
  predicate Plain(s: string) {
    Text.Avoids(s, ';') && Text.Avoids(s, '\n')
  }

  // ---------------------------------------------------------------------------------------------
  // isStrategyOngoing

  /** Every line read before the portfolio's record has a field 0 (otherwise `data[0]` throws). */
  predicate Searchable(lines: seq<string>, name: string)
    decreases |lines|
  {
    lines == [] || (|Fields(lines[0])| > 0 && (Fields(lines[0])[0] == name || Searchable(lines[1..], name)))
  }

  /** The fields of the first line whose field 0 is the name; none when there is no such line. */
  function FindIn(lines: seq<string>, name: string): seq<string>
    requires Searchable(lines, name)
    decreases |lines|
  {
    if lines == [] then []
    else if Fields(lines[0])[0] == name then Fields(lines[0])
    else FindIn(lines[1..], name)
  }

  /** What isStrategyOngoing answers; a file that cannot be read gives the empty array. */
  function Ongoing(text: Option<string>, name: string): seq<string>
    requires text.Some? ==> Searchable(Lines(text.value), name)
  {
    if text.None? then [] else FindIn(Lines(text.value), name)
  }

  /** FindIn answers the fields of the first record of the portfolio, and nothing exactly when there is none. */
  lemma {:induction false} FindInFirst(lines: seq<string>, name: string)
    requires Searchable(lines, name)
    ensures FindIn(lines, name) == [] <==> forall i :: 0 <= i < |lines| ==> !IsRecordOf(lines[i], name)
    ensures FindIn(lines, name) != [] ==>
      exists i :: 0 <= i < |lines| && IsRecordOf(lines[i], name) && FindIn(lines, name) == Fields(lines[i])
                  && forall j :: 0 <= j < i ==> !IsRecordOf(lines[j], name)
    decreases |lines|
  {
    if lines != [] && Fields(lines[0])[0] != name {
      FindInFirst(lines[1..], name);
      if FindIn(lines, name) != [] {
        var i :| 0 <= i < |lines[1..]| && IsRecordOf(lines[1..][i], name) && FindIn(lines[1..], name) == Fields(lines[1..][i])
                 && forall j :: 0 <= j < i ==> !IsRecordOf(lines[1..][j], name);
        assert IsRecordOf(lines[i + 1], name) && FindIn(lines, name) == Fields(lines[i + 1]);
        assert forall j :: 0 <= j < i + 1 ==> !IsRecordOf(lines[j], name) by {
          forall j | 0 <= j < i + 1 ensures !IsRecordOf(lines[j], name) {
            if j > 0 {
              assert lines[j] == lines[1..][j - 1];
            }
          }
        }
      } else {
        forall i | 0 <= i < |lines| ensures !IsRecordOf(lines[i], name) {
          if i > 0 {
            assert lines[i] == lines[1..][i - 1];
          }
        }
      }
    } else if lines != [] {
      assert IsRecordOf(lines[0], name);
    }
  }

  // ---------------------------------------------------------------------------------------------
  // The rewrite at the end of an open-ended investmentStrategy

  /** What the rewrite needs: a field 0 on every line, and a field 4 on every record of the portfolio. */
  predicate Rewritable(lines: seq<string>, name: string) {
    forall i :: 0 <= i < |lines| ==>
      |Fields(lines[i])| > 0 && (Fields(lines[i])[0] == name ==> |Fields(lines[i])| > 4)
  }

  /** A line's fields as written back: a record of the portfolio gets the new date as field 4. */
  function NewFields(data: seq<string>, name: string, exit: string): seq<string>
    requires |data| > 0 && (data[0] == name ==> |data| > 4)
  {
    if data[0] == name then data[4 := exit] else data
  }

  /** One line as written back: its new fields joined by ';'. */
  function RewriteLine(line: string, name: string, exit: string): string
    requires |Fields(line)| > 0 && (Fields(line)[0] == name ==> |Fields(line)| > 4)
  {
    Text.Join(NewFields(Fields(line), name, exit), ";")
  }

  function RewriteLines(lines: seq<string>, name: string, exit: string): (r: seq<string>)
    requires Rewritable(lines, name)
    ensures |r| == |lines| && forall i :: 0 <= i < |lines| ==> r[i] == RewriteLine(lines[i], name, exit)
  {
    seq(|lines|, i requires 0 <= i < |lines| && Rewritable(lines, name) => RewriteLine(lines[i], name, exit))
  }

  predicate Mentions(lines: seq<string>, name: string) {
    exists i :: 0 <= i < |lines| && IsRecordOf(lines[i], name)
  }

  /**
   * The new file: every line rewritten and followed by a newline, then the new record when no
   * line was the portfolio's. When the file cannot be read the source writes the empty text.
   */
  function Rewrite(text: Option<string>, name: string, exit: string, record: string): string
    requires text.Some? ==> Rewritable(Lines(text.value), name)
  {
    match text
    case None => ""
    case Some(t) =>
      Text.Terminated(RewriteLines(Lines(t), name, exit), "\n") + (if Mentions(Lines(t), name) then "" else record)
  }

  /** `Arrays.toString`: the elements between brackets, separated by a comma and a space. */
  function ListText(xs: seq<string>): string {
    "[" + Text.Join(xs, ", ") + "]"
  }

  /** The fields of the record an open-ended run appends for a new portfolio. */
  function RecordFields(name: string, strategy: string, user: string, interval: int, exit: string, amount: string,
                        symbols: seq<string>, weights: seq<string>, commissions: seq<string>): (r: seq<string>)
    ensures |r| == 9 && r[0] == name && r[4] == exit
  {
    [name, strategy, user, Text.IntText(interval), exit, amount, ListText(symbols), ListText(weights), ListText(commissions)]
  }

  function RecordText(name: string, strategy: string, user: string, interval: int, exit: string, amount: string,
                      symbols: seq<string>, weights: seq<string>, commissions: seq<string>): string
  {
    Text.Join(RecordFields(name, strategy, user, interval, exit, amount, symbols, weights, commissions), ";")
  }

  /** Every piece is fit for a field. */
  predicate AllPlain(xs: seq<string>) {
    forall i :: 0 <= i < |xs| ==> Plain(xs[i])
  }

  /** A bracketed list of plain pieces is plain, and ends with its closing bracket. */
  lemma ListTextPlain(xs: seq<string>)
    requires AllPlain(xs)
    ensures Plain(ListText(xs)) && |ListText(xs)| > 0
  {
    Text.JoinAvoids(xs, ", ", ';');
    Text.JoinAvoids(xs, ", ", '\n');
    var j := Text.Join(xs, ", ");
    Text.AvoidsConcat("[", j, ';');
    Text.AvoidsConcat("[" + j, "]", ';');
    Text.AvoidsConcat("[", j, '\n');
    Text.AvoidsConcat("[" + j, "]", '\n');
  }

  /** The decimal text of an integer holds only digits and a sign. */
  lemma IntTextPlain(n: int)
    ensures Plain(Text.IntText(n))
  {
    var t := Text.NatText(if n < 0 then -n else n);
    assert Plain(t) by {
      forall j | 0 <= j < |t| ensures t[j] != ';' && t[j] != '\n' {
        assert Text.IsDigit(t[j]);
      }
    }
    if n < 0 {
      Text.AvoidsConcat("-", t, ';');
      Text.AvoidsConcat("-", t, '\n');
    }
  }

  /**
   * A record built from plain parts is one line, the portfolio's record, and splits back into
   * exactly its nine fields.
   */
  lemma RecordTextFields(name: string, strategy: string, user: string, interval: int, exit: string, amount: string,
                         symbols: seq<string>, weights: seq<string>, commissions: seq<string>)
    requires Plain(name) && Plain(strategy) && Plain(user) && Plain(exit) && Plain(amount)
    requires AllPlain(symbols) && AllPlain(weights) && AllPlain(commissions)
    ensures var r := RecordText(name, strategy, user, interval, exit, amount, symbols, weights, commissions);
      && Fields(r) == RecordFields(name, strategy, user, interval, exit, amount, symbols, weights, commissions)
      && Text.Avoids(r, '\n') && r != "" && IsRecordOf(r, name)
  {
    var fs := RecordFields(name, strategy, user, interval, exit, amount, symbols, weights, commissions);
    ListTextPlain(symbols);
    ListTextPlain(weights);
    ListTextPlain(commissions);
    IntTextPlain(interval);
    assert AllPlain(fs);
    Text.SplitJoinAvoiding(fs, ';');
    Text.JoinAvoids(fs, ";", '\n');
    Text.JoinKeepsLast(fs, ";");
  }

  // ---------------------------------------------------------------------------------------------
  // Properties of the rewrite

  /** The last field of a split is not empty unless it is the only one. */
  lemma FieldsLast(line: string)
    ensures |Fields(line)| > 1 ==> Fields(line)[|Fields(line)| - 1] != ""
    ensures line != "" && |Fields(line)| > 0 ==> Fields(line)[|Fields(line)| - 1] != ""
  {
  }

  /** The fields of a rewritten line are its new fields, and a rewritten line holds no newline. */
  lemma RewrittenLine(line: string, name: string, exit: string)
    requires |Fields(line)| > 0 && (Fields(line)[0] == name ==> |Fields(line)| > 4)
    requires Plain(exit) && exit != "" && Text.Avoids(line, '\n')
    ensures Fields(RewriteLine(line, name, exit)) == NewFields(Fields(line), name, exit)
    ensures Text.Avoids(RewriteLine(line, name, exit), '\n')
    ensures line != "" ==> RewriteLine(line, name, exit) != ""
  {
    var data := Fields(line);
    var nf := NewFields(data, name, exit);
    Text.SplitAvoids(line, ';', '\n');
    FieldsLast(line);
    assert forall k :: 0 <= k < |nf| ==> Text.Avoids(nf[k], ';') && Text.Avoids(nf[k], '\n') by {
      forall k | 0 <= k < |nf| ensures Text.Avoids(nf[k], ';') && Text.Avoids(nf[k], '\n') {
        assert nf[k] == data[k] || nf[k] == exit;
      }
    }
    assert |nf| > 1 ==> nf[|nf| - 1] != "";
    Text.SplitJoinAvoiding(nf, ';');
    Text.JoinAvoids(nf, ";", '\n');
    if line != "" {
      Text.JoinKeepsLast(nf, ";");
    }
  }

  /** Every line of a text holds no newline, and the last is empty only when the text is. */
  lemma LinesShape(t: string)
    ensures forall i :: 0 <= i < |Lines(t)| ==> Text.Avoids(Lines(t)[i], '\n')
    ensures |Lines(t)| > 0 && Lines(t)[|Lines(t)| - 1] == "" ==> t == ""
  {
    Text.SplitAvoids(t, '\n', '\n');
  }

  /** The rewritten lines: each has no newline, keeps the line's field 0, and the last is not empty. */
  lemma RewrittenLines(t: string, name: string, exit: string)
    requires Rewritable(Lines(t), name) && Plain(exit) && exit != ""
    ensures var rl := RewriteLines(Lines(t), name, exit);
      && (forall i :: 0 <= i < |rl| ==> Text.Avoids(rl[i], '\n'))
      && (forall i :: 0 <= i < |rl| ==> Fields(rl[i]) == NewFields(Fields(Lines(t)[i]), name, exit))
      && (t != "" && |rl| > 0 ==> rl[|rl| - 1] != "")
  {
    var lines := Lines(t);
    var rl := RewriteLines(lines, name, exit);
    LinesShape(t);
    forall i | 0 <= i < |rl|
      ensures Text.Avoids(rl[i], '\n') && Fields(rl[i]) == NewFields(Fields(lines[i]), name, exit)
      ensures i == |rl| - 1 && t != "" ==> rl[i] != ""
    {
      RewrittenLine(lines[i], name, exit);
    }
  }

  /** The lines of the new file: the rewritten lines, then the new record if it was appended. */
  lemma LinesOfRewrite(t: string, name: string, exit: string, record: string)
    requires Rewritable(Lines(t), name) && Plain(exit) && exit != ""
    requires Text.Avoids(record, '\n') && record != ""
    ensures Lines(Rewrite(Some(t), name, exit, record))
         == RewriteLines(Lines(t), name, exit) + (if Mentions(Lines(t), name) then [] else [record])
  {
    var lines := Lines(t);
    var rl := RewriteLines(lines, name, exit);
    RewrittenLines(t, name, exit);
    var body := Text.Terminated(rl, "\n");
    if Mentions(lines, name) {
      assert Rewrite(Some(t), name, exit, record) == body + "";
      assert body + "" == body;
      var i :| 0 <= i < |lines| && IsRecordOf(lines[i], name);
      Text.SplitTerminated(rl, '\n');
      assert rl + [] == rl;
    } else {
      assert Rewrite(Some(t), name, exit, record) == body + record;
      Text.SplitTerminatedThen(rl, record, '\n');
    }
  }

  /** FindIn over lines whose fields are the new fields of other lines finds the new fields of what it found there. */
  lemma {:induction false} FindInRewritten(lines: seq<string>, rl: seq<string>, name: string, exit: string)
    requires Rewritable(lines, name) && |rl| == |lines|
    requires forall i :: 0 <= i < |rl| ==> Fields(rl[i]) == NewFields(Fields(lines[i]), name, exit)
    requires Mentions(lines, name)
    ensures Searchable(rl, name) && Searchable(lines, name)
    ensures |FindIn(lines, name)| > 4
    ensures FindIn(rl, name) == FindIn(lines, name)[4 := exit]
    decreases |lines|
  {
    var i :| 0 <= i < |lines| && IsRecordOf(lines[i], name);
    var data := Fields(lines[0]);
    assert |data| > 0 && (data[0] == name ==> |data| > 4);
    assert Fields(rl[0]) == NewFields(data, name, exit);
    if data[0] != name {
      assert i > 0;
      var ls, rs := lines[1..], rl[1..];
      assert IsRecordOf(ls[i - 1], name);
      assert Rewritable(ls, name) by {
        forall k | 0 <= k < |ls| ensures |Fields(ls[k])| > 0 && (Fields(ls[k])[0] == name ==> |Fields(ls[k])| > 4) {
          assert ls[k] == lines[k + 1];
        }
      }
      forall k | 0 <= k < |rs| ensures Fields(rs[k]) == NewFields(Fields(ls[k]), name, exit) {
        assert rs[k] == rl[k + 1] && ls[k] == lines[k + 1];
      }
      FindInRewritten(ls, rs, name, exit);
    }
  }

  /** With no record of the portfolio, FindIn passes the rewritten lines and finds what follows them. */
  lemma {:induction false} FindInPast(rl: seq<string>, rest: seq<string>, name: string)
    requires forall i :: 0 <= i < |rl| ==> |Fields(rl[i])| > 0 && Fields(rl[i])[0] != name
    requires Searchable(rest, name)
    ensures Searchable(rl + rest, name) && FindIn(rl + rest, name) == FindIn(rest, name)
    decreases |rl|
  {
    if rl != [] {
      assert (rl + rest)[1..] == rl[1..] + rest;
      FindInPast(rl[1..], rest, name);
    } else {
      assert rl + rest == rest;
    }
  }

  /**
   * After the rewrite, isStrategyOngoing finds the portfolio's record with the new date as
   * field 4; for a portfolio the file did not mention, it finds the appended record.
   */
  lemma OngoingAfterRewrite(t: string, name: string, exit: string, record: string)
    requires Rewritable(Lines(t), name) && Plain(exit) && exit != ""
    requires Text.Avoids(record, '\n') && record != "" && IsRecordOf(record, name)
    ensures Searchable(Lines(Rewrite(Some(t), name, exit, record)), name)
    ensures var found := Ongoing(Some(Rewrite(Some(t), name, exit, record)), name);
      if Mentions(Lines(t), name)
      then Searchable(Lines(t), name) && |FindIn(Lines(t), name)| > 4 && found == FindIn(Lines(t), name)[4 := exit]
      else found == Fields(record)
  {
    var lines := Lines(t);
    var rl := RewriteLines(lines, name, exit);
    LinesOfRewrite(t, name, exit, record);
    RewrittenLines(t, name, exit);
    if Mentions(lines, name) {
      assert rl + [] == rl;
      FindInRewritten(lines, rl, name, exit);
    } else {
      forall i | 0 <= i < |rl| ensures |Fields(rl[i])| > 0 && Fields(rl[i])[0] != name {
        assert !IsRecordOf(lines[i], name);
      }
      assert Searchable([record], name);
      FindInPast(rl, [record], name);
    }
  }

  /**
   * When the file already has the portfolio's record, the rewrite appends nothing, and its record
   * is then the old one with the new date as field 4.
   */
  lemma OngoingAfterRewriteMentioned(t: string, name: string, exit: string, record: string)
    requires Rewritable(Lines(t), name) && Plain(exit) && exit != "" && Mentions(Lines(t), name)
    ensures Searchable(Lines(t), name) && |FindIn(Lines(t), name)| > 4
    ensures Searchable(Lines(Rewrite(Some(t), name, exit, record)), name)
    ensures FindIn(Lines(Rewrite(Some(t), name, exit, record)), name) == FindIn(Lines(t), name)[4 := exit]
  {
    var lines := Lines(t);
    var rl := RewriteLines(lines, name, exit);
    RewrittenLines(t, name, exit);
    var body := Text.Terminated(rl, "\n");
    assert Rewrite(Some(t), name, exit, record) == body + "";
    assert body + "" == body;
    var i :| 0 <= i < |lines| && IsRecordOf(lines[i], name);
    Text.SplitTerminated(rl, '\n');
    FindInRewritten(lines, rl, name, exit);
  }

  /** Rewritten lines can be rewritten again, and still mention the portfolio. */
  lemma RewriteAgainFits(t: string, name: string, exit: string)
    requires Rewritable(Lines(t), name) && Plain(exit) && exit != "" && Mentions(Lines(t), name)
    ensures Rewritable(RewriteLines(Lines(t), name, exit), name)
    ensures Mentions(RewriteLines(Lines(t), name, exit), name)
  {
    var lines := Lines(t);
    var rl := RewriteLines(lines, name, exit);
    RewrittenLines(t, name, exit);
    forall i | 0 <= i < |rl| ensures |Fields(rl[i])| > 0 && (Fields(rl[i])[0] == name ==> |Fields(rl[i])| > 4) {
      assert Fields(rl[i]) == NewFields(Fields(lines[i]), name, exit);
    }
    var i :| 0 <= i < |lines| && IsRecordOf(lines[i], name);
    assert Fields(rl[i]) == NewFields(Fields(lines[i]), name, exit);
    assert IsRecordOf(rl[i], name);
  }

  /** Rewriting a rewritten line with the same date gives it back. */
  lemma RewriteLineAgain(line: string, name: string, exit: string)
    requires |Fields(line)| > 0 && (Fields(line)[0] == name ==> |Fields(line)| > 4)
    requires Plain(exit) && exit != "" && Text.Avoids(line, '\n')
    ensures var l := RewriteLine(line, name, exit);
      |Fields(l)| > 0 && (Fields(l)[0] == name ==> |Fields(l)| > 4) && RewriteLine(l, name, exit) == l
  {
    RewrittenLine(line, name, exit);
    var nf := NewFields(Fields(line), name, exit);
    assert NewFields(nf, name, exit) == nf;
  }

  /**
   * Once the file has the portfolio's record, rewriting it again with the same date changes
   * nothing: the text is a fixed point.
   */
  lemma RewriteIdempotent(t: string, name: string, exit: string, record: string, record2: string)
    requires Rewritable(Lines(t), name) && Plain(exit) && exit != "" && Mentions(Lines(t), name)
    requires Text.Avoids(record, '\n') && record != ""
    ensures var t2 := Rewrite(Some(t), name, exit, record);
      Rewritable(Lines(t2), name) && Rewrite(Some(t2), name, exit, record2) == t2
  {
    var lines := Lines(t);
    var rl := RewriteLines(lines, name, exit);
    var t2 := Rewrite(Some(t), name, exit, record);
    LinesOfRewrite(t, name, exit, record);
    assert rl + [] == rl;
    assert Lines(t2) == rl;
    RewriteAgainFits(t, name, exit);
    LinesShape(t);
    forall i | 0 <= i < |rl| ensures RewriteLine(rl[i], name, exit) == rl[i] {
      RewriteLineAgain(lines[i], name, exit);
    }
    assert RewriteLines(rl, name, exit) == rl;
  }

  /** Whatever the file held, two rewrites with the same date leave a text that a further rewrite keeps. */
  lemma RewriteSettles(t: string, name: string, exit: string, record: string, record2: string, record3: string)
    requires Rewritable(Lines(t), name) && Plain(exit) && exit != ""
    requires Text.Avoids(record, '\n') && record != "" && IsRecordOf(record, name) && |Fields(record)| > 4
    requires Text.Avoids(record2, '\n') && record2 != ""
    ensures var t2 := Rewrite(Some(t), name, exit, record);
      && Rewritable(Lines(t2), name) && Mentions(Lines(t2), name)
      && Rewritable(Lines(Rewrite(Some(t2), name, exit, record2)), name)
      && Rewrite(Some(Rewrite(Some(t2), name, exit, record2)), name, exit, record3) == Rewrite(Some(t2), name, exit, record2)
  {
    var lines := Lines(t);
    var rl := RewriteLines(lines, name, exit);
    var t2 := Rewrite(Some(t), name, exit, record);
    LinesOfRewrite(t, name, exit, record);
    RewrittenLines(t, name, exit);
    if Mentions(lines, name) {
      RewriteAgainFits(t, name, exit);
      assert rl + [] == rl;
    } else {
      var ls := rl + [record];
      assert Lines(t2) == ls;
      assert IsRecordOf(ls[|rl|], name);
      assert Rewritable(ls, name) by {
        forall i | 0 <= i < |ls| ensures |Fields(ls[i])| > 0 && (Fields(ls[i])[0] == name ==> |Fields(ls[i])| > 4) {
          if i < |rl| {
            assert ls[i] == rl[i];
            assert !IsRecordOf(lines[i], name);
          } else {
            assert ls[i] == record;
          }
        }
      }
    }
    RewriteIdempotent(t2, name, exit, record2, record3);
  }
}

/**
 * The loops of the checkpoint code: the search in isStrategyOngoing, and the rewrite at the end
 * of an open-ended investmentStrategy with its inner loop that joins a line's fields back.
 */
module CheckpointLoops {
  import opened Wrappers
  import Text
  import opened Checkpoint

  /**
   * isStrategyOngoing's loop over the lines: the fields of the first record of the portfolio, or
   * none; None when a line before it has no field 0 and `data[0]` throws.
   */
  method FindRecord(lines: seq<string>, name: string) returns (r: Option<seq<string>>)
    ensures r.Some? <==> Searchable(lines, name)
    ensures r.Some? ==> r.value == FindIn(lines, name)
  {
    var i := 0;
    while i < |lines|
      invariant i <= |lines| && (Searchable(lines, name) <==> Searchable(lines[i..], name))
      invariant Searchable(lines, name) ==> FindIn(lines[i..], name) == FindIn(lines, name)
    {
      assert lines[i..][1..] == lines[i + 1..];
      var data := Fields(lines[i]);
      if |data| == 0 {
        return None;
      }
      if data[0] == name {
        return Some(data);
      }
      i := i + 1;
    }
    return Some([]);
  }

  /** The loop that builds `newMetaData`: the fields separated by ';'. */
  method JoinFields(data: seq<string>) returns (s: string)
    ensures s == Text.Join(data, ";")
  {
    s := "";
    for j := 0 to |data|
      invariant s == Text.Join(data[..j], ";") + (if 0 < j < |data| then ";" else "")
    {
      Text.JoinSnoc(data[..j], data[j], ";");
      assert data[..j + 1] == data[..j] + [data[j]];
      s := s + data[j];
      if j != |data| - 1 {
        s := s + ";";
      }
    }
    assert data[..|data|] == data;
  }

  /** One pass of the rewrite loop: the line written back, None when its fields do not fit. */
  method RewriteOne(line: string, name: string, exit: string) returns (r: Option<string>)
    ensures r.Some? <==> |Fields(line)| > 0 && (Fields(line)[0] == name ==> |Fields(line)| > 4)
    ensures r.Some? ==> r.value == RewriteLine(line, name, exit)
  {
    var data := Fields(line);
    if |data| == 0 || (data[0] == name && |data| <= 4) {
      return None;
    }
    if data[0] == name {
      data := data[4 := exit];
    }
    var joined := JoinFields(data);
    return Some(joined);
  }

  lemma RewritableSnoc(lines: seq<string>, i: nat, name: string)
    requires i < |lines| && Rewritable(lines[..i], name)
    requires |Fields(lines[i])| > 0 && (Fields(lines[i])[0] == name ==> |Fields(lines[i])| > 4)
    ensures Rewritable(lines[..i + 1], name)
  {
    assert forall k :: 0 <= k < i ==> lines[..i + 1][k] == lines[..i][k];
  }

  lemma RewriteLinesSnoc(lines: seq<string>, i: nat, name: string, exit: string)
    requires i < |lines| && Rewritable(lines[..i + 1], name)
    ensures Rewritable(lines[..i], name)
    ensures RewriteLines(lines[..i + 1], name, exit) == RewriteLines(lines[..i], name, exit) + [RewriteLine(lines[i], name, exit)]
  {
    assert forall k :: 0 <= k < i ==> lines[..i + 1][k] == lines[..i][k];
  }

  lemma TerminatedSnoc(xs: seq<string>, x: string, sep: string)
    ensures Text.Terminated(xs + [x], sep) == Text.Terminated(xs, sep) + x + sep
  {
    assert (xs + [x])[..|xs|] == xs;
  }

  lemma MentionsSnoc(lines: seq<string>, i: nat, name: string)
    requires i < |lines|
    ensures Mentions(lines[..i + 1], name) <==> Mentions(lines[..i], name) || IsRecordOf(lines[i], name)
  {
    if IsRecordOf(lines[i], name) {
      assert IsRecordOf(lines[..i + 1][i], name);
    }
    if Mentions(lines[..i], name) {
      var k :| 0 <= k < i && IsRecordOf(lines[..i][k], name);
      assert lines[..i + 1][k] == lines[..i][k];
    }
    if Mentions(lines[..i + 1], name) && !IsRecordOf(lines[i], name) {
      var k :| 0 <= k < i + 1 && IsRecordOf(lines[..i + 1][k], name);
      assert lines[..i + 1][k] == lines[..i][k];
    }
  }

  /**
   * The rewrite loop over the lines: None when a line has no field 0 or the portfolio's record
   * has no field 4 (the ArrayIndexOutOfBoundsException), otherwise every line rewritten and
   * followed by a newline; `found` tells whether a line was the portfolio's record.
   */
  method RewriteAll(lines: seq<string>, name: string, exit: string) returns (r: Option<string>, found: bool)
    ensures r.Some? <==> Rewritable(lines, name)
    ensures r.Some? ==> r.value == Text.Terminated(RewriteLines(lines, name, exit), "\n") && (found <==> Mentions(lines, name))
  {
    var out := "";
    found := false;
    for i := 0 to |lines|
      invariant Rewritable(lines[..i], name)
      invariant out == Text.Terminated(RewriteLines(lines[..i], name, exit), "\n")
      invariant found <==> Mentions(lines[..i], name)
    {
      var line := RewriteOne(lines[i], name, exit);
      if line.None? {
        assert !(|Fields(lines[i])| > 0 && (Fields(lines[i])[0] == name ==> |Fields(lines[i])| > 4));
        return None, found;
      }
      RewritableSnoc(lines, i, name);
      RewriteLinesSnoc(lines, i, name, exit);
      TerminatedSnoc(RewriteLines(lines[..i], name, exit), line.value, "\n");
      MentionsSnoc(lines, i, name);
      found := found || IsRecordOf(lines[i], name);
      out := out + line.value + "\n";
    }
    assert lines[..|lines|] == lines;
    return Some(out), found;
  }

  /**
   * The rewrite at the end of an open-ended run: None when the loop throws, otherwise the new
   * file text, with the new record appended when no line was the portfolio's. An unreadable
   * file is rewritten as the empty text.
   */
  method RewriteFile(text: Option<string>, name: string, exit: string, record: string) returns (r: Option<string>)
    ensures r == if text.Some? && !Rewritable(Lines(text.value), name) then None else Some(Rewrite(text, name, exit, record))
  {
    if text.None? {
      return Some("");
    }
    var body, found := RewriteAll(Lines(text.value), name, exit);
    if body.None? {
      return None;
    }
    if found {
      assert body.value + "" == body.value;
      return Some(body.value);
    }
    return Some(body.value + record);
  }
}
