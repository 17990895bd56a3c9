/**
 * The executor's command line: each input line is trimmed, "exit" ends the session,
 * anything else must be three whitespace-separated tokens `sender receiver amount`
 * whose amount parses as a `u64`, and is then submitted to the executor.
 */
module Cli {
  import opened Base
  import opened Ledger
  import opened Transactions
  import opened Executor

  /** Unicode White_Space, the set Rust's `char::is_whitespace` tests. */
  predicate IsWhitespace(c: char) {
    var n := c as int;
    (9 <= n <= 13) || n == 0x20 || n == 0x85 || n == 0xA0 || n == 0x1680 ||
    (0x2000 <= n <= 0x200A) || n == 0x2028 || n == 0x2029 || n == 0x202F ||
    n == 0x205F || n == 0x3000
  }

  predicate AllWhitespace(s: string) {
    forall i :: 0 <= i < |s| ==> IsWhitespace(s[i])
  }

  predicate NoWhitespace(s: string) {
    forall i :: 0 <= i < |s| ==> !IsWhitespace(s[i])
  }

  /** `trim_start`: drops the leading white space. */
  function TrimStart(s: string): (r: string)
    ensures |r| <= |s| && r == s[|s| - |r|..]
    ensures AllWhitespace(s[..|s| - |r|])
    ensures r == [] || !IsWhitespace(r[0])
    decreases |s|
  {
    if s != [] && IsWhitespace(s[0]) then
      var r := TrimStart(s[1..]);
      assert s[1..][|s| - 1 - |r|..] == s[|s| - |r|..];
      WhitespaceCons(s, |s| - |r|);
      r
    else s
  }

  /** A white-space character followed by white space is white space. */
  lemma WhitespaceCons(s: string, n: nat)
    requires 0 < n <= |s| && IsWhitespace(s[0]) && AllWhitespace(s[1..][..n - 1])
    ensures AllWhitespace(s[..n])
  {
    forall k | 0 <= k < n ensures IsWhitespace(s[..n][k]) {
      if k > 0 {
        assert s[..n][k] == s[1..][..n - 1][k - 1];
      }
    }
  }

  /** `trim_end`: drops the trailing white space. */
  function TrimEnd(s: string): (r: string)
    ensures |r| <= |s| && r == s[..|r|]
    ensures AllWhitespace(s[|r|..])
    ensures r == [] || !IsWhitespace(r[|r| - 1])
    decreases |s|
  {
    if s != [] && IsWhitespace(s[|s| - 1]) then
      var r := TrimEnd(s[..|s| - 1]);
      assert s[..|s| - 1][..|r|] == s[..|r|];
      WhitespaceSnoc(s, |r|);
      r
    else s
  }

  /** White space followed by a white-space character is white space. */
  lemma WhitespaceSnoc(s: string, n: nat)
    requires n < |s| && IsWhitespace(s[|s| - 1]) && AllWhitespace(s[..|s| - 1][n..])
    ensures AllWhitespace(s[n..])
  {
    forall k | 0 <= k < |s| - n ensures IsWhitespace(s[n..][k]) {
      if k < |s| - 1 - n {
        assert s[n..][k] == s[..|s| - 1][n..][k];
      }
    }
  }

  /** `str::trim`: white space removed from both ends. */
  function Trim(s: string): (r: string)
    ensures |r| <= |s|
    ensures r == [] || (!IsWhitespace(r[0]) && !IsWhitespace(r[|r| - 1]))
  {
    TrimEnd(TrimStart(s))
  }

  /** Trimming touches nothing but the white space at the two ends. */
  lemma TrimIsSlice(s: string)
    ensures exists i, j :: 0 <= i <= j <= |s| && Trim(s) == s[i..j] && AllWhitespace(s[..i]) && AllWhitespace(s[j..])
  {
    var t := TrimStart(s);
    var r := TrimEnd(t);
    var i := |s| - |t|;
    assert r == s[i..i + |r|];
    assert s[i + |r|..] == t[|r|..];
    assert 0 <= i <= i + |r| <= |s| && Trim(s) == s[i..i + |r|] && AllWhitespace(s[..i]) && AllWhitespace(s[i + |r|..]);
  }

  lemma {:induction false} TrimStartPadded(w: string, t: string)
    requires AllWhitespace(w) && (t == [] || !IsWhitespace(t[0]))
    ensures TrimStart(w + t) == t
    decreases |w|
  {
    if w != [] {
      assert (w + t)[1..] == w[1..] + t;
      TrimStartPadded(w[1..], t);
    }
  }

  lemma {:induction false} TrimEndPadded(t: string, w: string)
    requires AllWhitespace(w) && (t == [] || !IsWhitespace(t[|t| - 1]))
    ensures TrimEnd(t + w) == t
    decreases |w|
  {
    if w != [] {
      assert (t + w)[..|t + w| - 1] == t + w[..|w| - 1];
      TrimEndPadded(t, w[..|w| - 1]);
    }
  }

  /** Trimming a padded text gives back the text, however long the padding. */
  lemma TrimPadded(w0: string, t: string, w1: string)
    requires AllWhitespace(w0) && AllWhitespace(w1)
    requires t != [] && !IsWhitespace(t[0]) && !IsWhitespace(t[|t| - 1])
    ensures Trim(w0 + t + w1) == t
  {
    assert w0 + t + w1 == w0 + (t + w1);
    TrimStartPadded(w0, t + w1);
    TrimEndPadded(t, w1);
  }

  /** Length of the leading run of non-white-space characters. */
  function TokenLength(s: string): (n: nat)
    ensures n <= |s| && NoWhitespace(s[..n])
    ensures n == |s| || IsWhitespace(s[n])
    ensures s != [] && !IsWhitespace(s[0]) ==> n > 0
    decreases |s|
  {
    if s == [] || IsWhitespace(s[0]) then 0 else 1 + TokenLength(s[1..])
  }

  /** `split_whitespace`: the maximal runs of non-white-space characters, in order. */
  function SplitWhitespace(s: string): (parts: seq<string>)
    ensures forall k :: 0 <= k < |parts| ==> parts[k] != [] && NoWhitespace(parts[k])
    decreases |s|
  {
    if s == [] then []
    else if IsWhitespace(s[0]) then SplitWhitespace(s[1..])
    else
      var n := TokenLength(s);
      [s[..n]] + SplitWhitespace(s[n..])
  }

  function Concat(parts: seq<string>): string {
    if parts == [] then [] else parts[0] + Concat(parts[1..])
  }

  /** `s` with every white-space character taken out. */
  function WithoutWhitespace(s: string): string {
    if s == [] then [] else (if IsWhitespace(s[0]) then [] else [s[0]]) + WithoutWhitespace(s[1..])
  }

  lemma {:induction false} WithoutWhitespaceAppend(a: string, b: string)
    ensures WithoutWhitespace(a + b) == WithoutWhitespace(a) + WithoutWhitespace(b)
    decreases |a|
  {
    if a != [] {
      assert (a + b)[0] == a[0] && (a + b)[1..] == a[1..] + b;
      WithoutWhitespaceAppend(a[1..], b);
    } else {
      assert a + b == b;
    }
  }

  lemma {:induction false} WithoutWhitespaceOfToken(t: string)
    requires NoWhitespace(t)
    ensures WithoutWhitespace(t) == t
    decreases |t|
  {
    if t != [] {
      WithoutWhitespaceOfToken(t[1..]);
    }
  }

  /** The tokens, put back together, are exactly the non-white-space characters of the line. */
  lemma {:induction false} SplitLosesOnlyWhitespace(s: string)
    ensures Concat(SplitWhitespace(s)) == WithoutWhitespace(s)
    decreases |s|
  {
    if s != [] {
      if IsWhitespace(s[0]) {
        SplitLosesOnlyWhitespace(s[1..]);
      } else {
        var n := TokenLength(s);
        var parts := SplitWhitespace(s);
        assert parts[1..] == SplitWhitespace(s[n..]);
        SplitLosesOnlyWhitespace(s[n..]);
        assert s == s[..n] + s[n..];
        WithoutWhitespaceAppend(s[..n], s[n..]);
        WithoutWhitespaceOfToken(s[..n]);
      }
    }
  }

  /** Leading white space, however long, contributes no token. */
  lemma {:induction false} SplitSkipsWhitespace(w: string, s: string)
    requires AllWhitespace(w)
    ensures SplitWhitespace(w + s) == SplitWhitespace(s)
    decreases |w|
  {
    if w != [] {
      assert (w + s)[0] == w[0] && (w + s)[1..] == w[1..] + s;
      assert SplitWhitespace(w + s) == SplitWhitespace(w[1..] + s);
      assert AllWhitespace(w[1..]) by {
        forall i | 0 <= i < |w| - 1 ensures IsWhitespace(w[1..][i]) { assert w[1..][i] == w[i + 1]; }
      }
      SplitSkipsWhitespace(w[1..], s);
    } else {
      assert w + s == s;
    }
  }

  lemma {:induction false} TokenLengthOfToken(t: string, s: string)
    requires t != [] && NoWhitespace(t)
    requires s == [] || IsWhitespace(s[0])
    ensures TokenLength(t + s) == |t|
    decreases |t|
  {
    if |t| > 1 {
      assert (t + s)[1..] == t[1..] + s;
      TokenLengthOfToken(t[1..], s);
    } else {
      assert (t + s)[1..] == s;
    }
  }

  /** A token followed by white space (or by the end) is split off whole. */
  lemma SplitToken(t: string, s: string)
    requires t != [] && NoWhitespace(t)
    requires s == [] || IsWhitespace(s[0])
    ensures SplitWhitespace(t + s) == [t] + SplitWhitespace(s)
  {
    TokenLengthOfToken(t, s);
    assert (t + s)[..|t|] == t;
    assert (t + s)[|t|..] == s;
  }

  /** A token, a run of white space and the rest: the token, then the tokens of the rest. */
  lemma SplitTokenThen(t: string, w: string, rest: string)
    requires t != [] && NoWhitespace(t)
    requires w != [] && AllWhitespace(w)
    ensures SplitWhitespace(t + (w + rest)) == [t] + SplitWhitespace(rest)
  {
    assert (w + rest)[0] == w[0];
    SplitToken(t, w + rest);
    SplitSkipsWhitespace(w, rest);
  }

  lemma SplitThreeTokens(a: string, w1: string, b: string, w2: string, c: string, w3: string)
    requires AllWhitespace(w1) && AllWhitespace(w2) && AllWhitespace(w3)
    requires w1 != [] && w2 != []
    requires a != [] && b != [] && c != [] && NoWhitespace(a) && NoWhitespace(b) && NoWhitespace(c)
    ensures SplitWhitespace(a + (w1 + (b + (w2 + (c + w3))))) == [a, b, c]
  {
    SplitSkipsWhitespace(w3, []);
    assert w3 + [] == w3;
    SplitToken(c, w3);
    SplitTokenThen(b, w2, c + w3);
    SplitTokenThen(a, w1, b + (w2 + (c + w3)));
  }

  /**
   * Runs of white space of any length between, before and after three tokens give exactly
   * those three tokens.
   */
  lemma SplitThree(w0: string, a: string, w1: string, b: string, w2: string, c: string, w3: string)
    requires AllWhitespace(w0) && AllWhitespace(w1) && AllWhitespace(w2) && AllWhitespace(w3)
    requires w1 != [] && w2 != []
    requires a != [] && b != [] && c != [] && NoWhitespace(a) && NoWhitespace(b) && NoWhitespace(c)
    ensures SplitWhitespace(w0 + a + w1 + b + w2 + c + w3) == [a, b, c]
  {
    SplitThreeTokens(a, w1, b, w2, c, w3);
    SplitSkipsWhitespace(w0, a + (w1 + (b + (w2 + (c + w3)))));
    Regroup(w0, a, w1, b, w2, c, w3);
  }

  lemma Regroup(w0: string, a: string, w1: string, b: string, w2: string, c: string, w3: string)
    ensures w0 + a + w1 + b + w2 + c + w3 == w0 + (a + (w1 + (b + (w2 + (c + w3)))))
    ensures w0 + a + w1 + b + w2 + c + w3 == w0 + (a + w1 + b + w2 + c) + w3
  {
  }

  predicate IsDigit(c: char) {
    '0' <= c <= '9'
  }

  predicate AllDigits(s: string) {
    forall i :: 0 <= i < |s| ==> IsDigit(s[i])
  }

  /** The number a string of decimal digits denotes, most significant digit first. */
  function DigitsValue(ds: string): nat
    requires AllDigits(ds)
  {
    if ds == [] then 0
    else DigitsValue(ds[..|ds| - 1]) * 10 + (ds[|ds| - 1] as int - '0' as int)
  }

  /** The digits after an optional leading '+', the one sign an unsigned parse accepts. */
  function Unsigned(s: string): string {
    if |s| > 0 && s[0] == '+' then s[1..] else s
  }

  /**
   * `str::parse::<u64>`: an optional '+' and then one or more ASCII digits whose value fits
   * 64 bits. The empty string, a lone '+', a '-' sign, any other character and any value of
   * 2^64 or more are errors.
   */
  function ParseU64(s: string): (r: Option<u64>)
    ensures r.Some? ==> (s != [] && Unsigned(s) != [] && AllDigits(Unsigned(s)) &&
      r.value as int == DigitsValue(Unsigned(s)))
  {
    var digits := Unsigned(s);
    if digits == [] || !AllDigits(digits) then None
    else if DigitsValue(digits) >= U64_LIMIT then None
    else Some(DigitsValue(digits) as u64)
  }

  /** Every optional '+' followed by digits whose value is below 2^64 is accepted, leading zeros included. */
  lemma ParseU64Accepts(s: string)
    requires Unsigned(s) != [] && AllDigits(Unsigned(s)) && DigitsValue(Unsigned(s)) < U64_LIMIT
    ensures ParseU64(s) == Some(DigitsValue(Unsigned(s)) as u64)
  {
  }

  /** A leading '-' is never accepted, whatever follows. */
  lemma ParseU64RejectsMinus(s: string)
    requires s != [] && s[0] == '-'
    ensures ParseU64(s) == None
  {
    assert !IsDigit(Unsigned(s)[0]);
  }

  /** Digit strings denoting 2^64 or more are rejected, as the overflow check does. */
  lemma ParseU64RejectsOverflow(s: string)
    requires AllDigits(s) && DigitsValue(s) >= U64_LIMIT
    ensures ParseU64(s) == None
  {
  }

  /** The decimal digits of `n`, as `to_string` writes them. */
  function Decimal(n: nat): (s: string)
    ensures s != [] && AllDigits(s)
  {
    var d := [('0' as int + n % 10) as char];
    if n < 10 then d else Decimal(n / 10) + d
  }

  lemma {:induction false} DecimalValue(n: nat)
    ensures DigitsValue(Decimal(n)) == n
  {
    var s := Decimal(n);
    assert s[..|s| - 1] == if n < 10 then [] else Decimal(n / 10);
    if n >= 10 {
      DecimalValue(n / 10);
    }
  }

  /** Every `u64`, written in decimal, parses back to itself. */
  lemma ParseU64Decimal(n: u64)
    ensures ParseU64(Decimal(n as nat)) == Some(n)
  {
    DecimalValue(n as nat);
    assert Decimal(n as nat)[0] != '+';
  }

  /** What one input line asks for. */
  datatype Command =
    | Quit                      // the trimmed line is "exit"
    | InvalidFormat             // not exactly three tokens
    | InvalidAmount             // the third token is not a `u64`
    | Submit(tx: Transaction)   // a transfer to execute

  /** The classification the loop body makes of one line. */
  function ParseLine(line: string): Command {
    var input := Trim(line);
    if input == "exit" then Quit
    else
      var parts := SplitWhitespace(input);
      if |parts| != 3 then InvalidFormat
      else
        var amount := ParseU64(parts[2]);
        if amount.None? then InvalidAmount
        else Submit(Transactions.New(parts[0], parts[1], amount.value))
  }

  /**
   * The four outcomes of a line: "exit" after trimming quits before any splitting; a token
   * count other than three is a format error; a third token that is not a `u64` is an
   * amount error; otherwise the transaction holds the three tokens, in order.
   */
  lemma ParseLineCases(line: string)
    ensures ParseLine(line) == Quit <==> Trim(line) == "exit"
    ensures ParseLine(line) == InvalidFormat <==> Trim(line) != "exit" && |SplitWhitespace(Trim(line))| != 3
    ensures ParseLine(line) == InvalidAmount <==> (
      var parts := SplitWhitespace(Trim(line));
      Trim(line) != "exit" && |parts| == 3 && ParseU64(parts[2]) == None)
    ensures ParseLine(line).Submit? ==> (
      var parts := SplitWhitespace(Trim(line));
      |parts| == 3 && Some(ParseLine(line).tx.amount) == ParseU64(parts[2]) &&
      ParseLine(line).tx.sender == parts[0] && ParseLine(line).tx.receiver == parts[1])
  {
  }

  /** A line stripped of white space equal to "exit" ends the session, whatever the padding. */
  lemma ExitLine(w0: string, w1: string)
    requires AllWhitespace(w0) && AllWhitespace(w1)
    ensures ParseLine(w0 + "exit" + w1) == Quit
  {
    TrimPadded(w0, "exit", w1);
  }

  lemma DecimalIsToken(n: nat)
    ensures NoWhitespace(Decimal(n))
  {
    var d := Decimal(n);
    forall i | 0 <= i < |d| ensures !IsWhitespace(d[i]) { assert IsDigit(d[i]); }
  }

  /** The padded line trims to its three tokens and the two runs between them. */
  lemma TrimThree(w0: string, a: string, w1: string, b: string, w2: string, d: string, w3: string)
    requires AllWhitespace(w0) && AllWhitespace(w3)
    requires a != [] && d != [] && NoWhitespace(a) && NoWhitespace(d)
    ensures Trim(w0 + a + w1 + b + w2 + d + w3) == a + w1 + b + w2 + d
  {
    var t := a + w1 + b + w2 + d;
    Regroup(w0, a, w1, b, w2, d, w3);
    assert t[0] == a[0] && t[|t| - 1] == d[|d| - 1];
    TrimPadded(w0, t, w3);
  }

  lemma RegroupTrimmed(a: string, w1: string, b: string, w2: string, d: string)
    ensures a + w1 + b + w2 + d == a + (w1 + (b + (w2 + (d + []))))
  {
  }

  /** The trimmed line splits into its three tokens and is not "exit". */
  lemma SplitTrimmed(a: string, w1: string, b: string, w2: string, d: string)
    requires AllWhitespace(w1) && AllWhitespace(w2) && w1 != [] && w2 != []
    requires a != [] && b != [] && d != [] && NoWhitespace(a) && NoWhitespace(b) && NoWhitespace(d)
    ensures SplitWhitespace(a + w1 + b + w2 + d) == [a, b, d]
    ensures a + w1 + b + w2 + d != "exit"
  {
    var t := a + w1 + b + w2 + d;
    RegroupTrimmed(a, w1, b, w2, d);
    SplitThreeTokens(a, w1, b, w2, d, []);
    assert t[|a|] == w1[0];
    assert IsWhitespace(t[|a|]);
    assert NoWhitespace("exit");
  }

  /**
   * A line of a sender, a receiver and a decimal amount, separated and surrounded by any
   * runs of white space, submits exactly that transfer.
   */
  lemma WellFormedLine(w0: string, a: string, w1: string, b: string, w2: string, n: u64, w3: string)
    requires AllWhitespace(w0) && AllWhitespace(w1) && AllWhitespace(w2) && AllWhitespace(w3)
    requires w1 != [] && w2 != []
    requires a != [] && b != [] && NoWhitespace(a) && NoWhitespace(b)
    ensures ParseLine(w0 + a + w1 + b + w2 + Decimal(n as nat) + w3) == Submit(Transactions.New(a, b, n))
  {
    var d := Decimal(n as nat);
    DecimalIsToken(n as nat);
    TrimThree(w0, a, w1, b, w2, d, w3);
    SplitTrimmed(a, w1, b, w2, d);
    ParseU64Decimal(n);
  }

  /** The message the loop prints for a processed line. */
  datatype Reply =
    | FormatError   // "Formato inválido. Use: sender receiver amount"
    | AmountError   // "Valor inválido!"
    | Executed      // "Transação executada com sucesso!"
    | Rejected      // "Falha na transação (saldo insuficiente ou erro)."

  /** Why the session stopped. */
  datatype End =
    | Exhausted      // the model's input ran out
    | ExitCommand    // the user typed "exit"
    | SavePanic      // a successful transfer could not be saved
    | Overflow       // a receiver balance would leave `u64` (excluded by the model)

  /** What one input line does: the loop goes on after a reply, or it stops. */
  datatype Step =
    | Next(reply: Reply, balances: Balances, saved: bool)  // `saved`: the file was written
    | Stop(end: End, balances: Balances)

  /** One pass of the loop body on balances `b`, for a line that parses as `command`. */
  function LineStep(b: Balances, writable: bool, command: Command): Step {
    match command
    case Quit => Stop(ExitCommand, b)
    case InvalidFormat => Next(FormatError, b, false)
    case InvalidAmount => Next(AmountError, b, false)
    case Submit(tx) =>
      if !NoOverflow(b, tx.sender, tx.receiver, tx.amount) then Stop(Overflow, b)
      else
        var t := Transfer(b, tx.sender, tx.receiver, tx.amount);
        if t.0 && !writable then Stop(SavePanic, t.1)
        else Next(if t.0 then Executed else Rejected, t.1, t.0)
  }

  /** One line keeps the total supply. */
  lemma StepConserves(b: Balances, writable: bool, command: Command)
    ensures Total(LineStep(b, writable, command).balances) == Total(b)
  {
    match command
    case Quit =>
    case InvalidFormat =>
    case InvalidAmount =>
    case Submit(tx) =>
      if NoOverflow(b, tx.sender, tx.receiver, tx.amount) {
        TransferConserves(b, tx.sender, tx.receiver, tx.amount);
      }
  }

  /**
   * A transfer line prints the success message exactly when the sender can pay, and only
   * then is the file written; a line that is not a transfer changes nothing.
   */
  lemma StepReplies(b: Balances, writable: bool, command: Command)
    ensures var s := LineStep(b, writable, command);
      && (s.Next? && s.saved <==> s.Next? && s.reply == Executed)
      && (!command.Submit? ==> s.balances == b && !(s.Next? && s.saved))
      && (command.Submit? && s.Next? ==> (s.reply == Executed <==> command.tx.amount <= BalanceOf(b, command.tx.sender)))
  {
  }

  /**
   * A session's outcome: the final balances, the replies printed, the last map written to
   * `state.json` (if any), and why it stopped.
   */
  datatype Session = Session(balances: Balances, replies: seq<Reply>, saved: Option<Balances>, end: End)

  /** `rest`, preceded by the replies and the last save that came before it. */
  function Continue(replies: seq<Reply>, saved: Option<Balances>, rest: Session): Session {
    Session(rest.balances, replies + rest.replies, if rest.saved.Some? then rest.saved else saved, rest.end)
  }

  /** The classification of every input line, in order. */
  function ParseAll(lines: seq<string>): (commands: seq<Command>)
    ensures |commands| == |lines|
  {
    seq(|lines|, k requires 0 <= k < |lines| => ParseLine(lines[k]))
  }

  /**
   * The session the loop of `main` runs on the parsed input lines, from the balances the
   * loaded snapshot gives.
   */
  function Replay(b: Balances, writable: bool, commands: seq<Command>): (s: Session)
    ensures |s.replies| <= |commands|
    decreases |commands|
  {
    if commands == [] then Session(b, [], None, Exhausted)
    else
      match LineStep(b, writable, commands[0])
      case Stop(end, after) => Session(after, [], None, end)
      case Next(reply, after, saved) =>
        Continue([reply], if saved then Some(after) else None, Replay(after, writable, commands[1..]))
  }

  /** Over a whole session the total supply does not change. */
  lemma {:induction false} SessionConserves(b: Balances, writable: bool, commands: seq<Command>)
    ensures Total(Replay(b, writable, commands).balances) == Total(b)
    decreases |commands|
  {
    if commands != [] {
      StepConserves(b, writable, commands[0]);
      var step := LineStep(b, writable, commands[0]);
      if step.Next? {
        SessionConserves(step.balances, writable, commands[1..]);
      }
    }
  }

  /** A session that reaches the end of its input printed exactly one reply per line. */
  lemma {:induction false} ExhaustedRepliesToEveryLine(b: Balances, writable: bool, commands: seq<Command>)
    requires Replay(b, writable, commands).end == Exhausted
    ensures |Replay(b, writable, commands).replies| == |commands|
    decreases |commands|
  {
    if commands != [] {
      var step := LineStep(b, writable, commands[0]);
      if step.Next? {
        ExhaustedRepliesToEveryLine(step.balances, writable, commands[1..]);
      }
    }
  }

  /** The file is written during a session exactly when some transfer of it succeeded. */
  lemma {:induction false} SavedIffExecuted(b: Balances, writable: bool, commands: seq<Command>)
    ensures Replay(b, writable, commands).saved.Some? <==> Executed in Replay(b, writable, commands).replies
    decreases |commands|
  {
    if commands != [] {
      var step := LineStep(b, writable, commands[0]);
      StepReplies(b, writable, commands[0]);
      if step.Next? {
        SavedIffExecuted(step.balances, writable, commands[1..]);
        var rest := Replay(step.balances, writable, commands[1..]);
        assert Replay(b, writable, commands).replies == [step.reply] + rest.replies;
      }
    }
  }

  /**
   * Unless a save fails, the last map written during a session is the map the session ends
   * with; a session that writes nothing ends with the balances it started from.
   */
  lemma {:induction false} SessionDurable(b: Balances, writable: bool, commands: seq<Command>)
    ensures var s := Replay(b, writable, commands);
      s.end != SavePanic ==> if s.saved.Some? then s.saved.value == s.balances else s.balances == b
    decreases |commands|
  {
    if commands != [] {
      var step := LineStep(b, writable, commands[0]);
      if step.Next? {
        SessionDurable(step.balances, writable, commands[1..]);
      }
    }
  }

  /**
   * Unless a save fails, the file a session leaves behind restores exactly the balances the
   * session ends with, when it started from the balances the previous file restores.
   */
  lemma SessionLeavesRestorableFile(disk: Option<JsonText>, writable: bool, commands: seq<Command>)
    ensures var s := Replay(Restored(disk), writable, commands);
      s.end != SavePanic ==>
        Restored(if s.saved.Some? then Some(Serialize(s.saved.value)) else disk) == s.balances
  {
    SessionDurable(Restored(disk), writable, commands);
  }

  lemma ContinueTwice(replies: seq<Reply>, saved: Option<Balances>, more: seq<Reply>, saved': Option<Balances>, rest: Session)
    ensures Continue(replies, saved, Continue(more, saved', rest)) ==
      Continue(replies + more, if saved'.Some? then saved' else saved, rest)
  {
    assert replies + (more + rest.replies) == replies + more + rest.replies;
  }

  /** The loop's invariant, carried over line `i`, whose pass is `step`. */
  lemma StepAt(whole: Session, replies: seq<Reply>, saved: Option<Balances>, b: Balances, writable: bool,
               commands: seq<Command>, i: nat, step: Step)
    requires i < |commands| && whole == Continue(replies, saved, Replay(b, writable, commands[i..]))
    requires step == LineStep(b, writable, commands[i])
    ensures step.Stop? ==>
      whole.balances == step.balances && whole.replies == replies && whole.saved == saved && whole.end == step.end
    ensures step.Next? ==>
      whole == Continue(replies + [step.reply], if step.saved then Some(step.balances) else saved,
                        Replay(step.balances, writable, commands[i + 1..]))
  {
    assert commands[i..][0] == commands[i] && commands[i..][1..] == commands[i + 1..];
    assert replies + [] == replies;
    if step.Next? {
      ContinueTwice(replies, saved, [step.reply], if step.saved then Some(step.balances) else None,
                    Replay(step.balances, writable, commands[i + 1..]));
    }
  }

  /** A session that does not end in an overflow never submits a transfer that overflows. */
  lemma NoOverflowAt(whole: Session, replies: seq<Reply>, saved: Option<Balances>, b: Balances, writable: bool,
                     commands: seq<Command>, i: nat)
    requires i < |commands| && whole == Continue(replies, saved, Replay(b, writable, commands[i..]))
    requires whole.end != Overflow
    ensures commands[i].Submit? ==>
      NoOverflow(b, commands[i].tx.sender, commands[i].tx.receiver, commands[i].tx.amount)
  {
    assert commands[i..][0] == commands[i];
  }

  /** The loop body's parse of line `i`: the command `ParseAll` lists for it. */
  method ParseLineAt(lines: seq<string>, i: nat) returns (command: Command)
    requires i < |lines|
    ensures command == ParseAll(lines)[i]
  {
    command := ParseLine(lines[i]);
  }

  /** The loop's invariant at the end of the input. */
  lemma StepEnd(whole: Session, replies: seq<Reply>, saved: Option<Balances>, b: Balances, writable: bool,
                commands: seq<Command>)
    requires whole == Continue(replies, saved, Replay(b, writable, commands[|commands|..]))
    ensures whole.balances == b && whole.replies == replies && whole.saved == saved && whole.end == Exhausted
  {
    assert commands[|commands|..] == [];
    assert replies + [] == replies;
  }

  /**
   * The loop body of `main` for a parsed line: a transfer goes to the executor, whose result
   * picks the reply; the executor's panic on a failed save ends the loop.
   */
  method Execute(exec: Executor, command: Command) returns (step: Step)
    requires command.Submit? ==>
      NoOverflow(exec.state.balances, command.tx.sender, command.tx.receiver, command.tx.amount)
    modifies exec`disk, exec.state
    ensures exec.state == old(exec.state)
    ensures step == LineStep(old(exec.state.balances), exec.writable, command)
    ensures exec.state.balances == step.balances
    ensures exec.disk == if step.Next? && step.saved then Some(Serialize(step.balances)) else old(exec.disk)
  {
    match command
    case Quit =>
      step := Stop(ExitCommand, exec.state.balances);
    case InvalidFormat =>
      step := Next(FormatError, exec.state.balances, false);
    case InvalidAmount =>
      step := Next(AmountError, exec.state.balances, false);
    case Submit(tx) =>
      var r := exec.ExecuteTransaction(tx);
      if r.Panicked? {
        step := Stop(SavePanic, exec.state.balances);
      } else {
        step := Next(if r.value then Executed else Rejected, exec.state.balances, r.value);
      }
  }

  /**
   * The read loop of `main` over the loaded ledger: one reply for each line before "exit", a
   * panic when a successful transfer cannot be saved. The model's input is a finite list of
   * lines.
   */
  method Serve(exec: Executor, lines: seq<string>) returns (replies: seq<Reply>, exit: Exit<()>)
    requires Replay(exec.state.balances, exec.writable, ParseAll(lines)).end != Overflow
    modifies exec`disk, exec.state
    ensures exec.state == old(exec.state)
    ensures var s := Replay(old(exec.state.balances), exec.writable, ParseAll(lines));
      && exec.state.balances == s.balances
      && replies == s.replies
      && exit == (if s.end == SavePanic then Panicked(SAVE_FAILED) else Returned(()))
      && exec.disk == (if s.saved.Some? then Some(Serialize(s.saved.value)) else old(exec.disk))
  {
    ghost var commands := ParseAll(lines);
    ghost var whole := Replay(exec.state.balances, exec.writable, commands);
    ghost var saved: Option<Balances> := None;
    replies := [];
    exit := Returned(());
    assert commands[0..] == commands;
    for i := 0 to |lines|
      invariant exec.state == old(exec.state)
      invariant whole.end != Overflow
      invariant whole == Continue(replies, saved, Replay(exec.state.balances, exec.writable, commands[i..]))
      invariant exec.disk == if saved.Some? then Some(Serialize(saved.value)) else old(exec.disk)
    {
      ghost var before := exec.state.balances;
      var command := ParseLineAt(lines, i);
      NoOverflowAt(whole, replies, saved, before, exec.writable, commands, i);
      var step := Execute(exec, command);
      StepAt(whole, replies, saved, before, exec.writable, commands, i, step);
      if step.Stop? {
        if step.end == SavePanic {
          exit := Panicked(SAVE_FAILED);
        }
        return;
      }
      replies := replies + [step.reply];
      if step.saved {
        saved := Some(step.balances);
      }
    }
    StepEnd(whole, replies, saved, exec.state.balances, exec.writable, commands);
  }

  /** `main`: loads the snapshot, then runs the read loop. */
  method Run(exec: Executor, lines: seq<string>) returns (replies: seq<Reply>, exit: Exit<()>)
    requires Replay(Restored(exec.disk), exec.writable, ParseAll(lines)).end != Overflow
    modifies exec
    ensures var s := Replay(Restored(old(exec.disk)), exec.writable, ParseAll(lines));
      && fresh(exec.state)
      && exec.state.balances == s.balances
      && replies == s.replies
      && exit == (if s.end == SavePanic then Panicked(SAVE_FAILED) else Returned(()))
      && exec.disk == (if s.saved.Some? then Some(Serialize(s.saved.value)) else old(exec.disk))
    ensures exit.Returned? ==> Restored(exec.disk) == exec.state.balances
  {
    SessionLeavesRestorableFile(exec.disk, exec.writable, ParseAll(lines));
    exec.LoadState();
    replies, exit := Serve(exec, lines);
  }
}
