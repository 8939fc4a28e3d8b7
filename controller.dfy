/**
 * The controller's input rules. The user's input is the sequence of tokens `Scanner.next` would
 * return, read from an index on; running out of tokens is the Scanner's NoSuchElementException.
 * The prompt loops read a date (getDateHelper), a quantity (getQuantityHelper), a SELL order
 * (portfolioHelper) and the range of a performance query (portfolioPerformanceHelper); the
 * catch-up (getOngoingStrategyUpToDate) resumes an ongoing strategy before a portfolio is used.
 * `read` stands for `Double.parseDouble` and `show` for `Double.toString`.
 */
module Controller {
  import opened Wrappers
  import Text
  import Calendar
  import Validators
  import Checkpoint
  import Strategy
  import Ledger
  import Prices
  import Performance
  import Model

  type Day = Calendar.Day

  // ---------------------------------------------------------------------------------------------
  // Prompt loops

  /** How a prompt loop ends: with the token it accepted and the index after it, an exception, or no tokens left. */
  datatype Scan = Took(token: string, next: nat) | Threw | OutOfInput

  /**
   * A `while (true)` prompt loop: it reads a token and asks `check` about it until the check
   * accepts one. False prompts again; None is an exception the loop lets escape.
   */
  function FirstAccepted(tokens: seq<string>, i: nat, check: string -> Option<bool>): (r: Scan)
    ensures r.Took? ==> i < r.next <= |tokens| && r.token == tokens[r.next - 1] && check(r.token) == Some(true)
    decreases |tokens| - i
  {
    if i >= |tokens| then OutOfInput
    else match check(tokens[i])
      case None => Threw
      case Some(ok) => if ok then Took(tokens[i], i + 1) else FirstAccepted(tokens, i + 1, check)
  }

  /**
   * The loop stops at the first token the check does not refuse: it takes that token when the
   * check accepts it and throws when the check throws.
   */
  lemma {:induction false} FirstAcceptedStops(tokens: seq<string>, i: nat, check: string -> Option<bool>, k: nat)
    requires i <= k < |tokens| && check(tokens[k]) != Some(false)
    requires forall j :: i <= j < k ==> check(tokens[j]) == Some(false)
    ensures FirstAccepted(tokens, i, check) == if check(tokens[k]) == Some(true) then Took(tokens[k], k + 1) else Threw
    decreases k - i
  {
    if i < k {
      FirstAcceptedStops(tokens, i + 1, check, k);
    }
  }

  /** When the check refuses every remaining token, the loop runs out of input. */
  lemma {:induction false} FirstAcceptedExhausted(tokens: seq<string>, i: nat, check: string -> Option<bool>)
    requires forall j :: i <= j < |tokens| ==> check(tokens[j]) == Some(false)
    ensures FirstAccepted(tokens, i, check) == OutOfInput
    decreases |tokens| - i
  {
    if i < |tokens| {
      FirstAcceptedExhausted(tokens, i + 1, check);
    }
  }

  /** The prompt loop as the source runs it. */
  method ScanFor(tokens: seq<string>, i: nat, check: string -> Option<bool>) returns (r: Scan)
    ensures r == FirstAccepted(tokens, i, check)
  {
    var j := i;
    while j < |tokens|
      invariant i <= j && FirstAccepted(tokens, j, check) == FirstAccepted(tokens, i, check)
      decreases |tokens| - j
    {
      var answer := check(tokens[j]);
      if answer.None? {
        return Threw;
      }
      if answer.value {
        return Took(tokens[j], j + 1);
      }
      j := j + 1;
    }
    return OutOfInput;
  }

  // ---------------------------------------------------------------------------------------------
  // getDateHelper

  /** checkValidYear against the current year. */
  function YearCheck(currentYear: int): string -> Option<bool> {
    year => Validators.CheckValidYear(year, currentYear)
  }

  function MonthCheck(): string -> Option<bool> {
    month => Validators.CheckValidMonth(month)
  }

  /** checkValidDate for the month and the year accepted before it. */
  function DayCheck(month: string, year: string): string -> Option<bool> {
    date => Validators.CheckValidDate(date, month, year)
  }

  /** Three tokens the year, month and day loops accepted. */
  predicate Accepted(year: string, month: string, day: string, currentYear: int) {
    && Validators.CheckValidYear(year, currentYear) == Some(true)
    && Validators.CheckValidMonth(month) == Some(true)
    && Validators.CheckValidDate(day, month, year) == Some(true)
  }

  /** The date with the accepted tokens' values. */
  function TypedDate(year: string, month: string, day: string, currentYear: int): (d: Calendar.Date)
    requires Accepted(year, month, day, currentYear)
    ensures Calendar.ValidDate(d) && 1999 <= d.year <= currentYear
  {
    Calendar.Date(Text.ParseInt(year).value, Text.ParseInt(month).value, Text.ParseInt(day).value)
  }

  /** The text the StringBuilder holds: the year as typed, then the month and the day as `%02d`. */
  function DateText(year: string, month: string, day: string, currentYear: int): string
    requires Accepted(year, month, day, currentYear)
  {
    var d := TypedDate(year, month, day, currentYear);
    year + "-" + Text.ZeroPad(d.month, 2) + "-" + Text.ZeroPad(d.day, 2)
  }

  /** What the end of one round of getDateHelper does: return the text, prompt again, or throw. */
  datatype Round = Returned(text: string) | Retry | Thrown

  /**
   * `checkValidBuyDate(validDate) || flag`: the check runs first, so a text it cannot parse throws
   * even when `flag` lets weekends and later dates through.
   */
  function DateRound(year: string, month: string, day: string, flag: bool, today: Day): Round
    requires Accepted(year, month, day, today.year)
  {
    var text := DateText(year, month, day, today.year);
    match Validators.CheckValidBuyDate(text, today)
    case None => Thrown
    case Some(ok) => if ok || flag then Returned(text) else Retry
  }

  /** The built text parses as the typed date exactly when the year was typed as plain digits (no sign). */
  lemma DateTextParses(year: string, month: string, day: string, currentYear: int)
    requires Accepted(year, month, day, currentYear)
    ensures Calendar.ParseDate(DateText(year, month, day, currentYear))
         == if Text.AllDigits(year) then Some(TypedDate(year, month, day, currentYear)) else None
  {
    var d := TypedDate(year, month, day, currentYear);
    var ms, ds := Text.ZeroPad(d.month, 2), Text.ZeroPad(d.day, 2);
    var parts := [year, ms, ds];
    assert Text.Avoids(year, '-') by {
      forall j | 0 <= j < |year| ensures year[j] != '-' {
        if j > 0 && (year[0] == '-' || year[0] == '+') {
          assert year[j] == year[1..][j - 1];
        }
      }
    }
    forall k | 1 <= k < 3 ensures Text.Avoids(parts[k], '-') {
      forall j | 0 <= j < |parts[k]| ensures parts[k][j] != '-' {
        assert Text.IsDigit(parts[k][j]);
      }
    }
    assert Text.Join(parts[1..], "-") == ms + "-" + ds by {
      assert parts[1..][1..] == [ds];
    }
    assert Text.Join(parts, "-") == DateText(year, month, day, currentYear);
    Text.SplitJoinAvoiding(parts, '-');
    Text.ZeroPadValue(d.month, 2);
    Text.ZeroPadValue(d.day, 2);
  }

  /**
   * A round returns the date text only once its year, month and day passed their checks, and
   * the text names that date; unless `flag` is set, the date is a weekday no later than today.
   * A year typed with a sign makes the buy-date check throw; otherwise the round returns exactly
   * when `flag` is set or the date is such a weekday.
   */
  lemma DateRoundSound(year: string, month: string, day: string, flag: bool, today: Day)
    requires Accepted(year, month, day, today.year)
    ensures var r := DateRound(year, month, day, flag, today);
      var d := TypedDate(year, month, day, today.year);
      && (r.Returned? ==> Calendar.ParseDate(r.text) == Some(d)
                          && (!flag ==> Calendar.NotAfter(d, today) && !Calendar.IsWeekend(d)))
      && (r == Thrown <==> !Text.AllDigits(year))
      && (Text.AllDigits(year) ==> (r.Returned? <==> flag || (Calendar.NotAfter(d, today) && !Calendar.IsWeekend(d))))
  {
    DateTextParses(year, month, day, today.year);
  }

  /** getDateHelper: the year, month and day loops, then the round's end; a refused date starts over. */
  function DateFrom(tokens: seq<string>, i: nat, flag: bool, today: Day): (r: Scan)
    ensures r.Took? ==> i < r.next <= |tokens|
    decreases |tokens| - i
  {
    match FirstAccepted(tokens, i, YearCheck(today.year))
    case Threw => Threw
    case OutOfInput => OutOfInput
    case Took(year, a) =>
      match FirstAccepted(tokens, a, MonthCheck())
      case Threw => Threw
      case OutOfInput => OutOfInput
      case Took(month, b) =>
        match FirstAccepted(tokens, b, DayCheck(month, year))
        case Threw => Threw
        case OutOfInput => OutOfInput
        case Took(day, c) =>
          match DateRound(year, month, day, flag, today)
          case Returned(text) => Took(text, c)
          case Thrown => Threw
          case Retry => DateFrom(tokens, c, flag, today)
  }

  /**
   * Every date getDateHelper returns parses as a real date from 1999 up to the current year, and
   * unless `flag` is set it is a weekday no later than today.
   */
  lemma {:induction false} DateFromSound(tokens: seq<string>, i: nat, flag: bool, today: Day)
    ensures var r := DateFrom(tokens, i, flag, today);
      r.Took? ==>
        && Calendar.ParseDate(r.token).Some?
        && 1999 <= Calendar.ParseDate(r.token).value.year <= today.year
        && (!flag ==> Calendar.NotAfter(Calendar.ParseDate(r.token).value, today)
                      && !Calendar.IsWeekend(Calendar.ParseDate(r.token).value))
    decreases |tokens| - i
  {
    var y := FirstAccepted(tokens, i, YearCheck(today.year));
    if y.Took? {
      var m := FirstAccepted(tokens, y.next, MonthCheck());
      if m.Took? {
        var d := FirstAccepted(tokens, m.next, DayCheck(m.token, y.token));
        if d.Took? {
          DateRoundSound(y.token, m.token, d.token, flag, today);
          if DateRound(y.token, m.token, d.token, flag, today).Retry? {
            DateFromSound(tokens, d.next, flag, today);
          }
        }
      }
    }
  }

  /** getDateHelper as the source runs it, each inner loop a ScanFor. */
  method GetDateHelper(tokens: seq<string>, i: nat, flag: bool, today: Day) returns (r: Scan)
    ensures r == DateFrom(tokens, i, flag, today)
  {
    var j := i;
    while true
      invariant j == i || j <= |tokens|
      invariant DateFrom(tokens, j, flag, today) == DateFrom(tokens, i, flag, today)
      decreases |tokens| - j
    {
      var year := ScanFor(tokens, j, YearCheck(today.year));
      if !year.Took? {
        return year;
      }
      var month := ScanFor(tokens, year.next, MonthCheck());
      if !month.Took? {
        return month;
      }
      var day := ScanFor(tokens, month.next, DayCheck(month.token, year.token));
      if !day.Took? {
        return day;
      }
      var round := DateRound(year.token, month.token, day.token, flag, today);
      if round.Returned? {
        return Took(round.text, day.next);
      }
      if round.Thrown? {
        return Threw;
      }
      j := day.next;
    }
  }

  // ---------------------------------------------------------------------------------------------
  // getQuantityHelper

  /** BUY and PORTFOLIO refuse fractional shares. */
  predicate WholeShares(operation: string) {
    operation == "BUY" || operation == "PORTFOLIO"
  }

  /**
   * One token of getQuantityHelper: a token with a '.' is refused when only whole shares may be
   * bought; otherwise it is parsed (None when parseDouble throws) and must be positive.
   */
  function QuantityCheck(whole: bool, read: string -> Option<real>): string -> Option<bool> {
    token =>
      if whole && '.' in token then Some(false)
      else match read(token)
        case None => None
        case Some(q) => Some(q > 0.0)
  }

  /**
   * getQuantityHelper: the quantity of the first token the rule does not refuse. It is positive,
   * read from that token, and for BUY and PORTFOLIO the token holds no '.'.
   */
  method GetQuantityHelper(operation: string, tokens: seq<string>, i: nat, read: string -> Option<real>)
    returns (r: Scan, quantity: real)
    ensures r == FirstAccepted(tokens, i, QuantityCheck(WholeShares(operation), read))
    ensures r.Took? ==> read(r.token) == Some(quantity) && quantity > 0.0
    ensures r.Took? && WholeShares(operation) ==> '.' !in r.token
  {
    quantity := 0.0;
    r := ScanFor(tokens, i, QuantityCheck(WholeShares(operation), read));
    if r.Took? {
      quantity := read(r.token).value;
    }
  }

  // ---------------------------------------------------------------------------------------------
  // The SELL loop of portfolioHelper

  /** How the loop for one stock ends: with an order the holding covers, an exception, or no tokens left. */
  datatype Sale = Sale(date: Day, quantity: real, next: nat) | SaleThrew | SaleOutOfInput

  /**
   * portfolioHelper for one stock of a SELL: a date, then a quantity, until validSellOrderQuantity
   * accepts the pair against the records stored before the batch.
   */
  function SaleFrom(records: seq<Ledger.Record>, symbol: string, tokens: seq<string>, i: nat, today: Day,
                    read: string -> Option<real>): (r: Sale)
    ensures r.Sale? ==>
      && i < r.next <= |tokens| && r.quantity > 0.0
      && Ledger.Holding(records, symbol, r.date) >= r.quantity
      && Calendar.NotAfter(r.date, today) && !Calendar.IsWeekend(r.date)
    decreases |tokens| - i
  {
    match DateFrom(tokens, i, false, today)
    case Threw => SaleThrew
    case OutOfInput => SaleOutOfInput
    case Took(text, a) =>
      DateFromSound(tokens, i, false, today);
      var date: Day := Calendar.ParseDate(text).value;
      match FirstAccepted(tokens, a, QuantityCheck(false, read))
      case Threw => SaleThrew
      case OutOfInput => SaleOutOfInput
      case Took(q, b) =>
        var quantity := read(q).value;
        if Ledger.Holding(records, symbol, date) >= quantity then Sale(date, quantity, b)
        else SaleFrom(records, symbol, tokens, b, today, read)
  }

  /**
   * The SELL loop as the source runs it: every order it passes on has passed validSellOrderQuantity
   * against the portfolio as stored.
   */
  method SellLoop(model: Model.StocksModel, user: string, name: string, symbol: string, tokens: seq<string>,
                  i: nat, today: Day, read: string -> Option<real>)
    returns (r: Sale)
    ensures r == SaleFrom(model.Stored(user, name), symbol, tokens, i, today, read)
  {
    var j := i;
    while true
      invariant j == i || j <= |tokens|
      invariant SaleFrom(model.Stored(user, name), symbol, tokens, j, today, read)
             == SaleFrom(model.Stored(user, name), symbol, tokens, i, today, read)
      decreases |tokens| - j
    {
      var text := GetDateHelper(tokens, j, false, today);
      if text.Threw? {
        return SaleThrew;
      } else if text.OutOfInput? {
        return SaleOutOfInput;
      }
      DateFromSound(tokens, j, false, today);
      var date: Day := Calendar.ParseDate(text.token).value;
      var q, quantity := GetQuantityHelper("SELL", tokens, text.next, read);
      if q.Threw? {
        return SaleThrew;
      } else if q.OutOfInput? {
        return SaleOutOfInput;
      }
      var ok := model.ValidSellOrderQuantity(symbol, quantity, date, user, name);
      if ok {
        return Sale(date, quantity, q.next);
      }
      j := q.next;
    }
  }

  // ---------------------------------------------------------------------------------------------
  // The range guard of portfolioPerformanceHelper

  /** How the guard ends: a range whose start is before its end, an exception, or no tokens left. */
  datatype Range = Range(begin: Day, finish: Day, next: nat) | RangeThrew | RangeOutOfInput

  /**
   * Pairs of dates are read (weekends and later dates allowed) until the start is before the end.
   * The dates come from getDateHelper, which parsed them already, so the ParseException branch
   * cannot be taken.
   */
  function RangeFrom(tokens: seq<string>, i: nat, today: Day): (r: Range)
    ensures r.Range? ==>
      && i < r.next <= |tokens| && Calendar.Before(r.begin, r.finish)
      && Performance.NumberOf(r.begin) < Performance.NumberOf(r.finish)
    decreases |tokens| - i
  {
    match DateFrom(tokens, i, true, today)
    case Threw => RangeThrew
    case OutOfInput => RangeOutOfInput
    case Took(b, a) =>
      match DateFrom(tokens, a, true, today)
      case Threw => RangeThrew
      case OutOfInput => RangeOutOfInput
      case Took(f, c) =>
        DateFromSound(tokens, i, true, today);
        DateFromSound(tokens, a, true, today);
        var begin: Day, finish: Day := Calendar.ParseDate(b).value, Calendar.ParseDate(f).value;
        Calendar.OrderIsChronological(begin, finish);
        if Calendar.Before(begin, finish) then Range(begin, finish, c) else RangeFrom(tokens, c, today)
  }

  /** The guard as the source runs it. */
  method ReadRange(tokens: seq<string>, i: nat, today: Day) returns (r: Range)
    ensures r == RangeFrom(tokens, i, today)
  {
    var j := i;
    while true
      invariant j == i || j <= |tokens|
      invariant RangeFrom(tokens, j, today) == RangeFrom(tokens, i, today)
      decreases |tokens| - j
    {
      var b := GetDateHelper(tokens, j, true, today);
      if b.Threw? {
        return RangeThrew;
      } else if b.OutOfInput? {
        return RangeOutOfInput;
      }
      var f := GetDateHelper(tokens, b.next, true, today);
      if f.Threw? {
        return RangeThrew;
      } else if f.OutOfInput? {
        return RangeOutOfInput;
      }
      DateFromSound(tokens, j, true, today);
      DateFromSound(tokens, b.next, true, today);
      var begin: Day, finish: Day := Calendar.ParseDate(b.token).value, Calendar.ParseDate(f.token).value;
      if Calendar.Before(begin, finish) {
        return Range(begin, finish, f.next);
      }
      j := f.next;
    }
  }

  // ---------------------------------------------------------------------------------------------
  // getOngoingStrategyUpToDate: decoding a checkpoint record

  /** `s.substring(1, s.length() - 1)`, the text between the brackets; None when it throws. */
  function Inner(s: string): Option<string> {
    if |s| >= 2 then Some(s[1..|s| - 1]) else None
  }

  /** The pieces of a bracketed list field, split at ','. */
  function Pieces(field: string): Option<seq<string>> {
    match Inner(field)
    case None => None
    case Some(t) => Some(Text.Split(t, ","))
  }

  /** Each piece trimmed, as the symbol loop stores them. */
  function Trimmed(ps: seq<string>): (r: seq<string>)
    ensures |r| == |ps| && forall i :: 0 <= i < |ps| ==> r[i] == Text.Trim(ps[i])
  {
    seq(|ps|, i requires 0 <= i < |ps| => Text.Trim(ps[i]))
  }

  /**
   * `Double.parseDouble` of every piece, which ignores blanks around the number: all the numbers
   * when every piece reads as one, None when a piece throws.
   */
  function Numbers(ps: seq<string>, read: string -> Option<real>): (r: Option<seq<real>>)
    ensures r.Some? <==> forall i :: 0 <= i < |ps| ==> read(Text.Trim(ps[i])).Some?
    ensures r.Some? ==> |r.value| == |ps| && forall i :: 0 <= i < |ps| ==> Some(r.value[i]) == read(Text.Trim(ps[i]))
    decreases |ps|
  {
    if ps == [] then Some([])
    else
      var n := |ps| - 1;
      match Numbers(ps[..n], read)
      case None => None
      case Some(front) =>
        match read(Text.Trim(ps[n]))
        case None => None
        case Some(x) =>
          assert forall i :: 0 <= i < n ==> ps[..n][i] == ps[i];
          Some(front + [x])
  }

  /** The arguments the catch-up passes to investmentStrategy. */
  datatype Resume = Resume(name: string, strategy: string, user: string, interval: int, start: Option<Day>,
                           amount: real, symbols: seq<string>, weights: seq<real>, commissions: seq<real>)

  /**
   * The record's fields decoded: portfolio 0, strategy 1, user 2, interval 3, start 4, amount 5
   * and the three lists 6 to 8. None when the decoding throws: a field is missing, a list field is
   * shorter than its brackets, or a number does not parse. The start is None when it is not a date.
   */
  function Decode(fields: seq<string>, read: string -> Option<real>): Option<Resume> {
    if |fields| < 9 then None
    else
      var names, ws, cs := Pieces(fields[6]), Pieces(fields[7]), Pieces(fields[8]);
      if names.None? || ws.None? || cs.None? then None
      else
        var weights, commissions := Numbers(ws.value, read), Numbers(cs.value, read);
        var interval, amount := Text.ParseInt(fields[3]), read(Text.Trim(fields[5]));
        if weights.None? || commissions.None? || interval.None? || amount.None? then None
        else
          var start := Calendar.ParseDate(fields[4]);
          Some(Resume(fields[0], fields[1], fields[2], interval.value, if start.Some? then Some(start.value) else None,
                      amount.value, Trimmed(names.value), weights.value, commissions.value))
  }

  /** The start the catch-up resumes from is field 4 read as a date. */
  lemma DecodeStart(fields: seq<string>, read: string -> Option<real>)
    requires Decode(fields, read).Some?
    ensures |fields| >= 9
    ensures Decode(fields, read).value.start == Calendar.ParseDate(fields[4])
  {
  }

  /** Decode puts together what it read from each field. */
  lemma DecodeFrom(fields: seq<string>, read: string -> Option<real>, names: seq<string>, weights: seq<real>,
                   commissions: seq<real>, interval: int, amount: real)
    requires |fields| >= 9
    requires Pieces(fields[6]).Some? && Trimmed(Pieces(fields[6]).value) == names
    requires Pieces(fields[7]).Some? && Numbers(Pieces(fields[7]).value, read) == Some(weights)
    requires Pieces(fields[8]).Some? && Numbers(Pieces(fields[8]).value, read) == Some(commissions)
    requires Text.ParseInt(fields[3]) == Some(interval) && read(Text.Trim(fields[5])) == Some(amount)
    ensures Decode(fields, read) == Some(Resume(fields[0], fields[1], fields[2], interval, Calendar.ParseDate(fields[4]),
                                                amount, names, weights, commissions))
  {
  }

  /**
   * A record the model resumes: a start date, one weight and one commission per symbol, weights
   * the model can normalise, an interval of at least a day.
   */
  predicate Supported(r: Resume) {
    && r.start.Some? && |r.weights| == |r.symbols| && |r.commissions| == |r.symbols|
    && Strategy.Normalizable(r.weights) && r.interval >= 1
  }

  /**
   * What the catch-up finds in the user's ongoing-strategies file: the search throws (a line has
   * no field 0), no record with more than one field, a record that does not decode, a record
   * outside the model, or the strategy to resume.
   */
  datatype Lookup = Unsearchable | NoRecord | Undecodable | Outside | Found(resume: Resume)

  function LookUpRecord(checkpoints: map<string, string>, user: string, name: string,
                        read: string -> Option<real>): (l: Lookup)
    ensures l.Found? ==> Supported(l.resume)
  {
    var text := Model.FileOf(checkpoints, user);
    if text.Some? && !Checkpoint.Searchable(Checkpoint.Lines(text.value), name) then Unsearchable
    else
      var fields := Checkpoint.Ongoing(text, name);
      if |fields| <= 1 then NoRecord
      else match Decode(fields, read)
        case None => Undecodable
        case Some(r) => if Supported(r) then Found(r) else Outside
  }

  /** A record found in an existing file is the first record of the portfolio there, decoded. */
  lemma LookUpFound(checkpoints: map<string, string>, user: string, name: string, read: string -> Option<real>)
    requires LookUpRecord(checkpoints, user, name, read).Found? && user in checkpoints
    ensures Checkpoint.Searchable(Checkpoint.Lines(checkpoints[user]), name)
    ensures var f := Checkpoint.FindIn(Checkpoint.Lines(checkpoints[user]), name);
      Decode(f, read) == Some(LookUpRecord(checkpoints, user, name, read).resume)
  {
    assert Model.FileOf(checkpoints, user) == Some(checkpoints[user]);
  }

  /** How the catch-up ends. */
  datatype Outcome = UpToDate | Resumed(run: Model.Run) | Raised | Unsupported

  /** The flexible store after the catch-up, and how it ended. */
  datatype CatchUp = CatchUp(ledgers: Model.Ledgers, checkpoints: map<string, string>, outcome: Outcome)

  /** investmentStrategy of the flexible model resuming a record from its start, with no end date and the weights normalised. */
  function ResumedEffect(m: Prices.Market, cache: map<string, Prices.Series>, ledgers: Model.Ledgers,
                         checkpoints: map<string, string>, r: Resume, today: Day, show: real -> string): Model.Effect
    requires Prices.ValidMarket(m) && Prices.Consistent(m, cache) && Supported(r)
  {
    Model.StrategyEffect(m, cache, ledgers, checkpoints, Model.Flexible, r.strategy, r.name, r.user, r.start.value, None,
                         r.interval, r.amount, r.symbols, Strategy.Normalized(r.weights), r.commissions, today, show)
  }

  /**
   * getOngoingStrategyUpToDate: the portfolio's record in the user's ongoing-strategies file; with
   * more than one field it is decoded and resumed. A search or a decoding that throws does so
   * before anything changes.
   */
  function CatchUpEffect(m: Prices.Market, cache: map<string, Prices.Series>, ledgers: Model.Ledgers,
                         checkpoints: map<string, string>, user: string, name: string, today: Day,
                         show: real -> string, read: string -> Option<real>): CatchUp
    requires Prices.ValidMarket(m) && Prices.Consistent(m, cache)
  {
    match LookUpRecord(checkpoints, user, name, read)
    case Unsearchable => CatchUp(ledgers, checkpoints, Raised)
    case NoRecord => CatchUp(ledgers, checkpoints, UpToDate)
    case Undecodable => CatchUp(ledgers, checkpoints, Raised)
    case Outside => CatchUp(ledgers, checkpoints, Unsupported)
    case Found(r) =>
      var e := ResumedEffect(m, cache, ledgers, checkpoints, r, today, show);
      CatchUp(e.ledgers, e.checkpoints, Resumed(e.run))
  }

  // ---------------------------------------------------------------------------------------------
  // Properties of the catch-up

  /** Text that survives a trip through a list field: fit for a field, no comma, nothing to trim. */
  predicate Token(s: string) {
    Checkpoint.Plain(s) && Text.Avoids(s, ',') && Text.Trim(s) == s
  }

  predicate Tokens(xs: seq<string>) {
    forall i :: 0 <= i < |xs| ==> Token(xs[i])
  }

  /** `show` prints each of the numbers as a token that `read` reads back as that number. */
  predicate Readable(xs: seq<real>, show: real -> string, read: string -> Option<real>) {
    forall i :: 0 <= i < |xs| ==> Token(show(xs[i])) && read(show(xs[i])) == Some(xs[i])
  }

  /** The pieces of `Arrays.toString` split at ',': every element after the first keeps the space before it. */
  function Spaced(xs: seq<string>): (r: seq<string>)
    ensures |r| == |xs| && forall k :: 0 <= k < |xs| ==> r[k] == if k == 0 then xs[0] else " " + xs[k]
  {
    seq(|xs|, k requires 0 <= k < |xs| => if k == 0 then xs[0] else " " + xs[k])
  }

  lemma JoinFirstSpaced(ys: seq<string>, sep: string)
    requires |ys| > 0
    ensures Text.Join([" " + ys[0]] + ys[1..], sep) == " " + Text.Join(ys, sep)
  {
    var zs := [" " + ys[0]] + ys[1..];
    if |ys| > 1 {
      assert zs[1..] == ys[1..];
    }
  }

  lemma {:induction false} JoinSpaced(xs: seq<string>)
    requires |xs| > 0
    ensures Text.Join(xs, ", ") == Text.Join(Spaced(xs), ",")
    decreases |xs|
  {
    if |xs| > 1 {
      var tail := xs[1..];
      JoinSpaced(tail);
      var st := Spaced(tail);
      assert Spaced(xs)[1..] == [" " + st[0]] + st[1..];
      JoinFirstSpaced(st, ",");
    }
  }

  lemma TrimSpaced(s: string)
    requires Text.Trim(s) == s
    ensures Text.Trim(" " + s) == s
  {
    assert (" " + s)[1..] == s;
  }

  /** The elements of a list field come back, trimmed, as they were written. */
  lemma ListPieces(xs: seq<string>)
    requires |xs| > 0 && forall k :: 0 <= k < |xs| ==> Text.Avoids(xs[k], ',')
    ensures Pieces(Checkpoint.ListText(xs)) == Some(Spaced(xs))
    ensures forall k :: 0 <= k < |xs| && Text.Trim(xs[k]) == xs[k] ==> Text.Trim(Spaced(xs)[k]) == xs[k]
  {
    var j := Text.Join(xs, ", ");
    assert Inner(Checkpoint.ListText(xs)) == Some(j);
    JoinSpaced(xs);
    var sp := Spaced(xs);
    forall k | 0 <= k < |xs| ensures Text.Avoids(sp[k], ',') {
      if k > 0 {
        Text.AvoidsConcat(" ", xs[k], ',');
      }
    }
    Text.SplitJoinAvoiding(sp, ',');
    forall k | 0 <= k < |xs| && Text.Trim(xs[k]) == xs[k] ensures Text.Trim(sp[k]) == xs[k] {
      if k > 0 {
        TrimSpaced(xs[k]);
      }
    }
  }

  lemma NamesBack(xs: seq<string>)
    requires |xs| > 0 && Tokens(xs)
    ensures Pieces(Checkpoint.ListText(xs)).Some? && Trimmed(Pieces(Checkpoint.ListText(xs)).value) == xs
  {
    ListPieces(xs);
  }

  lemma NumbersBack(xs: seq<real>, show: real -> string, read: string -> Option<real>)
    requires |xs| > 0 && Readable(xs, show, read)
    ensures Pieces(Checkpoint.ListText(Model.Shown(xs, show))).Some?
    ensures Numbers(Pieces(Checkpoint.ListText(Model.Shown(xs, show))).value, read) == Some(xs)
  {
    var ss := Model.Shown(xs, show);
    assert forall k :: 0 <= k < |ss| ==> Text.Avoids(ss[k], ',') && Text.Trim(ss[k]) == ss[k] by {
      forall k | 0 <= k < |ss| ensures Text.Avoids(ss[k], ',') && Text.Trim(ss[k]) == ss[k] {
        assert Token(show(xs[k]));
      }
    }
    ListPieces(ss);
    var ps := Spaced(ss);
    forall k | 0 <= k < |xs| ensures read(Text.Trim(ps[k])) == Some(xs[k]) {
      assert Text.Trim(ps[k]) == show(xs[k]);
    }
    var n := Numbers(ps, read);
    assert n.Some?;
    assert |n.value| == |xs|;
    forall k | 0 <= k < |xs| ensures n.value[k] == xs[k] {
      assert Some(n.value[k]) == read(Text.Trim(ps[k]));
    }
    assert n.value == xs;
  }

  lemma FormatDatePlain(d: Day)
    ensures Checkpoint.Plain(Calendar.FormatDate(d)) && Calendar.FormatDate(d) != ""
  {
    var ys, ms, ds := Text.ZeroPad(d.year, 4), Text.ZeroPad(d.month, 2), Text.ZeroPad(d.day, 2);
    forall s | s in {ys, ms, ds} ensures Checkpoint.Plain(s) {
      forall j | 0 <= j < |s| ensures s[j] != ';' && s[j] != '\n' {
        assert Text.IsDigit(s[j]);
      }
    }
    Text.AvoidsConcat(ys, "-", ';');
    Text.AvoidsConcat(ys + "-", ms, ';');
    Text.AvoidsConcat(ys + "-" + ms, "-", ';');
    Text.AvoidsConcat(ys + "-" + ms + "-", ds, ';');
    Text.AvoidsConcat(ys, "-", '\n');
    Text.AvoidsConcat(ys + "-", ms, '\n');
    Text.AvoidsConcat(ys + "-" + ms, "-", '\n');
    Text.AvoidsConcat(ys + "-" + ms + "-", ds, '\n');
  }

  lemma StrategyNamePlain()
    ensures Checkpoint.Plain(Strategy.DollarCostAveraging)
  {
    var s := Strategy.DollarCostAveraging;
    forall j | 0 <= j < |s| ensures s[j] != ';' && s[j] != '\n' {
      assert s[j] in "DOLLAR COSTVEGING ";
    }
  }

  /**
   * The record an open-ended run appends decodes to the arguments of the run: the catch-up
   * resumes the same strategy, for the same portfolio and user, from the day the loop stopped on.
   */
  lemma DecodeRecord(name: string, user: string, interval: int, exit: Day, amount: real, symbols: seq<string>,
                     ws: seq<real>, cs: seq<real>, show: real -> string, read: string -> Option<real>)
    requires Checkpoint.Plain(name) && Checkpoint.Plain(user) && Text.IsInt32(interval)
    requires |symbols| > 0 && Tokens(symbols) && |ws| > 0 && |cs| > 0
    requires Readable(ws, show, read) && Readable(cs, show, read) && Readable([amount], show, read)
    ensures Decode(Checkpoint.Fields(Model.StrategyRecord(name, user, interval, exit, amount, symbols,
                                                         Strategy.Finites(ws), cs, show)), read)
         == Some(Resume(name, Strategy.DollarCostAveraging, user, interval, Some(exit), amount, symbols, ws, cs))
  {
    var sw, sc := Model.Shown(ws, show), Model.Shown(cs, show);
    Model.ShownFinites(ws, show);
    var date, shown := Calendar.FormatDate(exit), show(amount);
    assert Token(show([amount][0]));
    FormatDatePlain(exit);
    StrategyNamePlain();
    assert Checkpoint.AllPlain(symbols);
    assert Checkpoint.AllPlain(sw) by {
      forall k | 0 <= k < |sw| ensures Checkpoint.Plain(sw[k]) {
        assert Token(show(ws[k]));
      }
    }
    assert Checkpoint.AllPlain(sc) by {
      forall k | 0 <= k < |sc| ensures Checkpoint.Plain(sc[k]) {
        assert Token(show(cs[k]));
      }
    }
    Checkpoint.RecordTextFields(name, Strategy.DollarCostAveraging, user, interval, date, shown, symbols, sw, sc);
    var f := Checkpoint.RecordFields(name, Strategy.DollarCostAveraging, user, interval, date, shown, symbols, sw, sc);
    assert Checkpoint.Fields(Model.StrategyRecord(name, user, interval, exit, amount, symbols, Strategy.Finites(ws), cs, show)) == f;
    NamesBack(symbols);
    NumbersBack(ws, show, read);
    NumbersBack(cs, show, read);
    Text.ParseIntText(interval);
    Calendar.ParseFormatDate(exit);
    DecodeFrom(f, read, symbols, ws, cs, interval, amount);
  }

  /**
   * A record whose date is the text of a day after today resumes nothing: the catch-up leaves the
   * ledgers as they were, however it ends.
   */
  lemma ResumeAfterToday(m: Prices.Market, cache: map<string, Prices.Series>, ledgers: Model.Ledgers,
                         checkpoints: map<string, string>, user: string, name: string, today: Day,
                         show: real -> string, read: string -> Option<real>, x: nat)
    requires Prices.ValidMarket(m) && Prices.Consistent(m, cache)
    requires user in checkpoints && Checkpoint.Searchable(Checkpoint.Lines(checkpoints[user]), name)
    requires var f := Checkpoint.FindIn(Checkpoint.Lines(checkpoints[user]), name);
      |f| > 4 && f[4] == Calendar.FormatDate(Performance.DateOf(x))
    requires x > Performance.NumberOf(today)
    ensures CatchUpEffect(m, cache, ledgers, checkpoints, user, name, today, show, read).ledgers == ledgers
  {
    if LookUpRecord(checkpoints, user, name, read).Found? {
      FoundLater(m, cache, ledgers, checkpoints, user, name, today, show, read, x);
    }
  }

  /** The record found, resumed from a start after today, appends nothing. */
  lemma FoundLater(m: Prices.Market, cache: map<string, Prices.Series>, ledgers: Model.Ledgers,
                   checkpoints: map<string, string>, user: string, name: string, today: Day,
                   show: real -> string, read: string -> Option<real>, x: nat)
    requires Prices.ValidMarket(m) && Prices.Consistent(m, cache)
    requires user in checkpoints && Checkpoint.Searchable(Checkpoint.Lines(checkpoints[user]), name)
    requires var f := Checkpoint.FindIn(Checkpoint.Lines(checkpoints[user]), name);
      |f| > 4 && f[4] == Calendar.FormatDate(Performance.DateOf(x))
    requires x > Performance.NumberOf(today)
    requires LookUpRecord(checkpoints, user, name, read).Found?
    ensures ResumedEffect(m, cache, ledgers, checkpoints, LookUpRecord(checkpoints, user, name, read).resume, today, show).ledgers
         == ledgers
  {
    FoundStart(checkpoints, user, name, read, x);
    ResumedFromLater(m, cache, ledgers, checkpoints, LookUpRecord(checkpoints, user, name, read).resume, today, show, x);
  }

  /** The record found resumes from the day its field 4 names. */
  lemma FoundStart(checkpoints: map<string, string>, user: string, name: string, read: string -> Option<real>, x: nat)
    requires user in checkpoints && Checkpoint.Searchable(Checkpoint.Lines(checkpoints[user]), name)
    requires var f := Checkpoint.FindIn(Checkpoint.Lines(checkpoints[user]), name);
      |f| > 4 && f[4] == Calendar.FormatDate(Performance.DateOf(x))
    requires LookUpRecord(checkpoints, user, name, read).Found?
    ensures LookUpRecord(checkpoints, user, name, read).resume.start == Some(Performance.DateOf(x))
  {
    var f := Checkpoint.FindIn(Checkpoint.Lines(checkpoints[user]), name);
    LookUpFound(checkpoints, user, name, read);
    DecodeStart(f, read);
    Calendar.ParseFormatDate(Performance.DateOf(x));
  }

  /** Resuming from a day after today passes no buying day. */
  lemma ResumedFromLater(m: Prices.Market, cache: map<string, Prices.Series>, ledgers: Model.Ledgers,
                         checkpoints: map<string, string>, r: Resume, today: Day, show: real -> string, x: nat)
    requires Prices.ValidMarket(m) && Prices.Consistent(m, cache) && Supported(r)
    requires r.start == Some(Performance.DateOf(x)) && x > Performance.NumberOf(today)
    ensures ResumedEffect(m, cache, ledgers, checkpoints, r, today, show).ledgers == ledgers
  {
    Model.StrategyEffectWithoutPasses(m, cache, ledgers, checkpoints, Model.Flexible, r.strategy, r.name, r.user,
                                      r.start.value, None, r.interval, r.amount, r.symbols,
                                      Strategy.Normalized(r.weights), r.commissions, today, show);
  }

  /**
   * After an open-ended dollar-cost-averaging run has stored its exit day, the next catch-up on
   * the same day appends no records: the stored day is after today. The file must exist (when it
   * does not, the run writes an empty file and the strategy is not recorded at all).
   */
  lemma CatchUpAfterRun(m: Prices.Market, cache: map<string, Prices.Series>, cache2: map<string, Prices.Series>,
                        ledgers: Model.Ledgers, checkpoints: map<string, string>, kind: Model.Store, name: string,
                        user: string, start: Day, interval: int, amount: real, symbols: seq<string>,
                        ws: seq<Strategy.Weight>, cs: seq<real>, today: Day, show: real -> string, read: string -> Option<real>)
    requires Prices.ValidMarket(m) && Prices.Consistent(m, cache) && Prices.Consistent(m, cache2)
    requires |ws| == |symbols| && |cs| == |symbols| && interval >= 1 && user in checkpoints
    requires Checkpoint.Plain(name) && Checkpoint.Plain(user) && Checkpoint.AllPlain(symbols)
    requires Checkpoint.Plain(show(amount)) && Checkpoint.AllPlain(Model.ShownWeights(ws, show)) && Checkpoint.AllPlain(Model.Shown(cs, show))
    requires Model.StrategyEffect(m, cache, ledgers, checkpoints, kind, Strategy.DollarCostAveraging, name, user, start, None,
                                  interval, amount, symbols, ws, cs, today, show).run == Model.Invested
    ensures var e := Model.StrategyEffect(m, cache, ledgers, checkpoints, kind, Strategy.DollarCostAveraging, name, user,
                                          start, None, interval, amount, symbols, ws, cs, today, show);
      CatchUpEffect(m, cache2, e.ledgers, e.checkpoints, user, name, today, show, read).ledgers == e.ledgers
  {
    var e := Model.StrategyEffect(m, cache, ledgers, checkpoints, kind, Strategy.DollarCostAveraging, name, user,
                                  start, None, interval, amount, symbols, ws, cs, today, show);
    Model.OpenEndedEffect(m, cache, ledgers, checkpoints, kind, Strategy.DollarCostAveraging, name, user, start,
                          interval, amount, symbols, ws, cs, today, show);
    var x := Strategy.Exit(Performance.NumberOf(start), Performance.NumberOf(today), interval);
    var exit := Calendar.FormatDate(Performance.DateOf(x));
    var record := Model.StrategyRecord(name, user, interval, Performance.DateOf(x), amount, symbols, ws, cs, show);
    var t := checkpoints[user];
    FormatDatePlain(Performance.DateOf(x));
    StrategyNamePlain();
    Checkpoint.RecordTextFields(name, Strategy.DollarCostAveraging, user, interval, exit, show(amount),
                                symbols, Model.ShownWeights(ws, show), Model.Shown(cs, show));
    Checkpoint.OngoingAfterRewrite(t, name, exit, record);
    ResumeAfterToday(m, cache2, e.ledgers, e.checkpoints, user, name, today, show, read, x);
  }

  /**
   * A catch-up that resumed an open-ended run leaves a record the next catch-up on the same day
   * resumes without appending anything, and that record's date is after today. The record must
   * name as its user the owner of the file it is in.
   */
  lemma SecondCatchUp(m: Prices.Market, cache: map<string, Prices.Series>, cache2: map<string, Prices.Series>,
                      ledgers: Model.Ledgers, checkpoints: map<string, string>, user: string, name: string, today: Day,
                      show: real -> string, read: string -> Option<real>)
    requires Prices.ValidMarket(m) && Prices.Consistent(m, cache) && Prices.Consistent(m, cache2)
    requires user in checkpoints && Checkpoint.Searchable(Checkpoint.Lines(checkpoints[user]), name)
    requires var f := Checkpoint.FindIn(Checkpoint.Lines(checkpoints[user]), name); |f| > 2 && f[2] == user
    requires CatchUpEffect(m, cache, ledgers, checkpoints, user, name, today, show, read).outcome == Resumed(Model.Invested)
    ensures var c := CatchUpEffect(m, cache, ledgers, checkpoints, user, name, today, show, read);
      && user in c.checkpoints && Checkpoint.Searchable(Checkpoint.Lines(c.checkpoints[user]), name)
      && var f := Checkpoint.FindIn(Checkpoint.Lines(c.checkpoints[user]), name);
      && |f| > 4 && Calendar.ParseDate(f[4]).Some? && Calendar.Before(today, Calendar.ParseDate(f[4]).value)
      && CatchUpEffect(m, cache2, c.ledgers, c.checkpoints, user, name, today, show, read).ledgers == c.ledgers
  {
    var c := CatchUpEffect(m, cache, ledgers, checkpoints, user, name, today, show, read);
    var r := LookUpRecord(checkpoints, user, name, read).resume;
    var t := checkpoints[user];
    var lines := Checkpoint.Lines(t);
    var f := Checkpoint.FindIn(lines, name);
    LookUpFound(checkpoints, user, name, read);
    DecodeStart(f, read);
    Checkpoint.FindInFirst(lines, name);
    assert r.name == name && r.user == user;
    assert Checkpoint.Mentions(lines, name);
    var ws := Strategy.Normalized(r.weights);
    Strategy.NormalizedSum(r.weights);
    Model.OpenEndedEffect(m, cache, ledgers, checkpoints, Model.Flexible, r.strategy, name, user, r.start.value,
                          r.interval, r.amount, r.symbols, ws, r.commissions, today, show);
    var x := Strategy.Exit(Performance.NumberOf(r.start.value), Performance.NumberOf(today), r.interval);
    var exit := Calendar.FormatDate(Performance.DateOf(x));
    var record := Model.StrategyRecord(name, user, r.interval, Performance.DateOf(x), r.amount, r.symbols, ws,
                                       r.commissions, show);
    assert c.checkpoints == checkpoints[user := Checkpoint.Rewrite(Some(t), name, exit, record)];
    FormatDatePlain(Performance.DateOf(x));
    Checkpoint.OngoingAfterRewriteMentioned(t, name, exit, record);
    Calendar.ParseFormatDate(Performance.DateOf(x));
    Calendar.OrderIsChronological(today, Performance.DateOf(x));
    ResumeAfterToday(m, cache2, c.ledgers, c.checkpoints, user, name, today, show, read, x);
  }

  // ---------------------------------------------------------------------------------------------
  // The controller

  /** The trimmed pieces of a list field, as the loop filling `stockNamesArray` stores them. */
  method TrimAll(ps: seq<string>) returns (names: array<string>)
    ensures fresh(names) && names[..] == Trimmed(ps)
  {
    names := new string[|ps|];
    for i := 0 to |ps|
      invariant forall k :: 0 <= k < i ==> names[k] == Text.Trim(ps[k])
    {
      names[i] := Text.Trim(ps[i]);
    }
  }

  /** The loop filling a `double[]` from the pieces of a list field; false when a piece does not parse. */
  method ReadAll(ps: seq<string>, read: string -> Option<real>) returns (ok: bool, values: array<real>)
    ensures fresh(values)
    ensures ok <==> Numbers(ps, read).Some?
    ensures ok ==> values[..] == Numbers(ps, read).value
  {
    values := new real[|ps|];
    for i := 0 to |ps|
      invariant forall k :: 0 <= k < i ==> read(Text.Trim(ps[k])) == Some(values[k])
    {
      var x := read(Text.Trim(ps[i]));
      if x.None? {
        return false, values;
      }
      values[i] := x.value;
    }
    ok := true;
    assert values[..] == Numbers(ps, read).value;
  }

  /**
   * The decoding steps of getOngoingStrategyUpToDate, in their order, each of which may throw: the
   * three list fields split and read into arrays, then the interval and the amount.
   */
  method DecodeFields(fields: seq<string>, read: string -> Option<real>) returns (r: Option<Resume>, weights: array<real>)
    ensures fresh(weights)
    ensures r == Decode(fields, read)
    ensures r.Some? ==> weights[..] == r.value.weights
  {
    weights := new real[0];
    if |fields| < 9 || |fields[6]| < 2 || |fields[7]| < 2 || |fields[8]| < 2 {
      return None, weights;
    }
    var names := TrimAll(Text.Split(fields[6][1..|fields[6]| - 1], ","));
    var readWeights;
    readWeights, weights := ReadAll(Text.Split(fields[7][1..|fields[7]| - 1], ","), read);
    if !readWeights {
      return None, weights;
    }
    var readCommissions, commissions := ReadAll(Text.Split(fields[8][1..|fields[8]| - 1], ","), read);
    if !readCommissions {
      return None, weights;
    }
    var interval, amount := Text.ParseInt(fields[3]), read(Text.Trim(fields[5]));
    if interval.None? || amount.None? {
      return None, weights;
    }
    DecodeFrom(fields, read, names[..], weights[..], commissions[..], interval.value, amount.value);
    r := Some(Resume(fields[0], fields[1], fields[2], interval.value, Calendar.ParseDate(fields[4]), amount.value,
                     names[..], weights[..], commissions[..]));
  }

  /** The controller's use of the flexible model. */
  class StocksController {
    const flexible: Model.StocksModel

    constructor(flexible: Model.StocksModel)
      ensures this.flexible == flexible
    {
      this.flexible := flexible;
    }

    /**
     * getOngoingStrategyUpToDate: finds the portfolio's record among the user's ongoing strategies,
     * decodes its fields and runs investmentStrategy on them from the recorded start with no end
     * date. The outcome, the ledgers and the ongoing-strategies files are those of CatchUpEffect.
     */
    method GetOngoingStrategyUpToDate(user: string, name: string, today: Day, show: real -> string,
                                      read: string -> Option<real>)
      returns (outcome: Outcome)
      requires flexible.Valid() && flexible.kind == Model.Flexible
      modifies flexible`cache, flexible`ledgers, flexible`checkpoints
      ensures flexible.Valid()
      ensures var c := CatchUpEffect(flexible.market, old(flexible.cache), old(flexible.ledgers),
                                     old(flexible.checkpoints), user, name, today, show, read);
        flexible.ledgers == c.ledgers && flexible.checkpoints == c.checkpoints && outcome == c.outcome
    {
      var l, weights := FindRecord(user, name, read);
      match l
      case Unsearchable => return Raised;
      case NoRecord => return UpToDate;
      case Undecodable => return Raised;
      case Outside => return Unsupported;
      case Found(r) =>
        var run := ResumeRun(r, weights, today, show);
        return Resumed(run);
    }

    /**
     * The record isStrategyOngoing finds, decoded; the weights come in the array investmentStrategy
     * normalises in place.
     */
    method FindRecord(user: string, name: string, read: string -> Option<real>) returns (l: Lookup, weights: array<real>)
      ensures fresh(weights)
      ensures l == LookUpRecord(flexible.checkpoints, user, name, read)
      ensures l.Found? ==> weights[..] == l.resume.weights
    {
      weights := new real[0];
      var found := flexible.IsStrategyOngoing(user, name);
      if found.None? {
        return Unsearchable, weights;
      }
      var fields := found.value;
      if |fields| <= 1 {
        return NoRecord, weights;
      }
      var resume;
      resume, weights := DecodeFields(fields, read);
      if resume.None? {
        return Undecodable, weights;
      }
      var r := resume.value;
      if r.start.None? || weights.Length != |r.symbols| || |r.commissions| != |r.symbols|
         || !Strategy.Normalizable(weights[..]) || r.interval < 1 {
        return Outside, weights;
      }
      return Found(r), weights;
    }

    /** investmentStrategy on a decoded record's fields, from its start with no end date. */
    method ResumeRun(r: Resume, weights: array<real>, today: Day, show: real -> string) returns (run: Model.Run)
      requires flexible.Valid() && flexible.kind == Model.Flexible && Supported(r) && weights[..] == r.weights
      modifies weights, flexible`cache, flexible`ledgers, flexible`checkpoints
      ensures flexible.Valid()
      ensures var e := ResumedEffect(flexible.market, old(flexible.cache), old(flexible.ledgers), old(flexible.checkpoints),
                                     r, today, show);
        flexible.ledgers == e.ledgers && flexible.checkpoints == e.checkpoints && run == e.run
    {
      run := flexible.InvestmentStrategy(r.strategy, r.name, r.user, r.start.value, None, r.interval,
                                         r.amount, r.symbols, weights, r.commissions, today, show);
    }
  }
}
