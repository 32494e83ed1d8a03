/** The command-line front end of main.cpp: the option table (string_case), the
    digit check (is_digits), the decimal conversion std::stoull performs on the
    --count value, and the left-to-right scan that turns the tokens after the
    program name into a run configuration or a fatal error. */
module Arguments {
  import opened Common

  // ---------------------------------------------------------------------------
  // Classifier
  // ---------------------------------------------------------------------------

  /** The fixed table of recognised option words and their role codes. */
  const StringMap: map<string, int> :=
    map["--count" := 1, "--in" := 2, "--out" := 2, "--err" := 2, "process" := 3]

  /** Role code of a token: 1 for the repeat count, 2 for a stream path,
      3 for the marker that starts the child's arguments, 0 for anything else. */
  function StringCase(token: string): (code: int)
    ensures code == 1 <==> token == "--count"
    ensures code == 2 <==> token == "--in" || token == "--out" || token == "--err"
    ensures code == 3 <==> token == "process"
    ensures code == 0 <==>
      token != "--count" && token != "--in" && token != "--out" && token != "--err" && token != "process"
  {
    if token in StringMap then StringMap[token] else 0
  }

  // ---------------------------------------------------------------------------
  // Digit check
  // ---------------------------------------------------------------------------

  const Digits: string := "0123456789"

  predicate IsDigitChar(c: char) {
    '0' <= c <= '9'
  }

  predicate AllDigits(s: string) {
    forall i :: 0 <= i < |s| ==> IsDigitChar(s[i])
  }

  lemma DigitsHoldsDigitChars(c: char)
    ensures c in Digits <==> IsDigitChar(c)
  {
    if IsDigitChar(c) {
      assert c == '0' || c == '1' || c == '2' || c == '3' || c == '4'
          || c == '5' || c == '6' || c == '7' || c == '8' || c == '9';
      assert Digits[0] == '0' && Digits[1] == '1' && Digits[2] == '2' && Digits[3] == '3'
          && Digits[4] == '4' && Digits[5] == '5' && Digits[6] == '6' && Digits[7] == '7'
          && Digits[8] == '8' && Digits[9] == '9';
    }
  }

  /** std::string::find_first_not_of: the index of the first character of s
      that does not occur in chars, or None where the library returns npos. */
  function FindFirstNotOf(s: string, chars: string): (r: Option<nat>)
    ensures r.None? <==> forall i :: 0 <= i < |s| ==> s[i] in chars
    ensures r.Some? ==>
      r.value < |s| && s[r.value] !in chars && forall i :: 0 <= i < r.value ==> s[i] in chars
  {
    if s == [] then None
    else if s[0] !in chars then Some(0)
    else match FindFirstNotOf(s[1..], chars)
      case None => None
      case Some(k) => Some(k + 1)
  }

  /** is_digits: true exactly when every character is a decimal digit, so the
      empty string passes. */
  function IsDigits(s: string): (b: bool)
    ensures b <==> AllDigits(s)
  {
    forall c | c in s ensures c in Digits <==> IsDigitChar(c) {
      DigitsHoldsDigitChars(c);
    }
    FindFirstNotOf(s, Digits) == None
  }

  // ---------------------------------------------------------------------------
  // Decimal values and std::stoull
  // ---------------------------------------------------------------------------

  /** The largest unsigned long long, 2^64 - 1. */
  const MaxULL: nat := 18446744073709551615

  function DigitValue(c: char): (d: nat)
    requires IsDigitChar(c)
    ensures d < 10
  {
    (c as int) - ('0' as int)
  }

  function DigitChar(d: nat): (c: char)
    requires d < 10
    ensures IsDigitChar(c) && DigitValue(c) == d
  {
    (('0' as int) + d) as char
  }

  /** Value of a digit string read most significant digit first. */
  function DecimalValue(s: string): nat
    requires AllDigits(s)
  {
    if s == [] then 0 else 10 * DecimalValue(s[..|s| - 1]) + DigitValue(s[|s| - 1])
  }

  /** Shortest decimal spelling of n; serves as the inverse of DecimalValue. */
  function ToDecimal(n: nat): (s: string)
    ensures AllDigits(s) && s != []
  {
    if n < 10 then [DigitChar(n)] else ToDecimal(n / 10) + [DigitChar(n % 10)]
  }

  lemma {:induction false} DecimalRoundTrip(n: nat)
    ensures DecimalValue(ToDecimal(n)) == n
  {
    if n >= 10 {
      var s := ToDecimal(n);
      assert s[..|s| - 1] == ToDecimal(n / 10);
      DecimalRoundTrip(n / 10);
    }
  }

  /** A leading zero does not change the value, so "007" reads as 7. */
  lemma {:induction false} LeadingZero(s: string)
    requires AllDigits(s)
    ensures AllDigits("0" + s) && DecimalValue("0" + s) == DecimalValue(s)
  {
    var z := "0" + s;
    if s != [] {
      assert z[..|z| - 1] == "0" + s[..|s| - 1];
      LeadingZero(s[..|s| - 1]);
    }
  }

  function Pow10(k: nat): (p: nat)
    ensures p >= 1
  {
    if k == 0 then 1 else 10 * Pow10(k - 1)
  }

  /** The leading digit alone bounds the value from below. */
  lemma {:induction false} LeadingDigitBound(s: string)
    requires AllDigits(s) && s != []
    ensures DecimalValue(s) >= DigitValue(s[0]) * Pow10(|s| - 1)
  {
    if |s| > 1 {
      var t := s[..|s| - 1];
      assert t[0] == s[0];
      LeadingDigitBound(t);
      var a, b := DigitValue(s[0]), Pow10(|t| - 1);
      assert 10 * (a * b) == a * (10 * b);
    }
  }

  /** What std::stoull(s) does in base 10. */
  datatype Conversion = Converted(value: nat) | InvalidArgument | OutOfRange

  /** The longest run of digits at the start of s. */
  function DigitPrefix(s: string): (p: string)
    ensures p <= s && AllDigits(p)
    ensures |p| < |s| ==> !IsDigitChar(s[|p|])
  {
    if s == [] || !IsDigitChar(s[0]) then [] else [s[0]] + DigitPrefix(s[1..])
  }

  /** std::stoull: converts the leading digits; no digits at all is
      invalid_argument, a value above 2^64 - 1 is out_of_range. */
  function Stoull(s: string): (r: Conversion)
    ensures r == InvalidArgument <==> s == [] || !IsDigitChar(s[0])
    ensures r.Converted? ==> r.value <= MaxULL
    ensures AllDigits(s) && s != [] ==>
      (r == OutOfRange <==> DecimalValue(s) > MaxULL) &&
      (r.Converted? ==> r.value == DecimalValue(s))
  {
    var p := DigitPrefix(s);
    assert AllDigits(s) ==> |p| == |s| && p == s[..|p|] && p == s;
    if p == [] then InvalidArgument
    else if DecimalValue(p) > MaxULL then OutOfRange
    else Converted(DecimalValue(p))
  }

  /** The checks applied to the token after --count, in the order the scan
      makes them, and the count it yields when all pass. */
  function CountValue(token: string): (r: Result<nat>)
    ensures r == Err(CountNotNumeric) <==> !AllDigits(token)
    ensures r == Err(CountNotAccepted) <==> token == []
    ensures r == Err(CountTooLarge) <==>
      AllDigits(token) && token != [] && DecimalValue(token) > MaxULL
    ensures r == Err(CountZero) <==>
      AllDigits(token) && token != [] && DecimalValue(token) == 0
    ensures r.Ok? <==> AllDigits(token) && token != [] && 1 <= DecimalValue(token) <= MaxULL
    ensures r.Ok? ==> r.value == DecimalValue(token)
  {
    if !IsDigits(token) then Err(CountNotNumeric)
    else match Stoull(token)
      case OutOfRange => Err(CountTooLarge)
      case InvalidArgument => Err(CountNotAccepted)
      case Converted(v) => if v == 0 then Err(CountZero) else Ok(v)
  }

  // ---------------------------------------------------------------------------
  // Run configuration and the argument scan
  // ---------------------------------------------------------------------------

  /** What the scan produces: the executable, the repeat count, the three
      redirect paths ("" meaning inherit) and the child's arguments. */
  datatype Config = Config(
    executable: string,
    count: nat,
    inPath: string,
    outPath: string,
    errPath: string,
    processArguments: seq<string>)

  /** The state before the scan starts. */
  function Defaults(executable: string): Config {
    Config(executable, 1, "", "", "", [])
  }

  /** The if/else-if chain that stores a path under the stream its option names. */
  function SetPath(c: Config, option: string, path: string): Config {
    if option == "--in" then c.(inPath := path)
    else if option == "--out" then c.(outPath := path)
    else if option == "--err" then c.(errPath := path)
    else c
  }

  /** The scan over the tokens still to be read, from configuration c. */
  function Scan(tokens: seq<string>, c: Config): (r: Result<Config>)
    ensures r.Ok? ==> r.value.executable == c.executable
    ensures r.Ok? && 1 <= c.count <= MaxULL ==> 1 <= r.value.count <= MaxULL
    ensures r != Err(NoExecutable)
  {
    if tokens == [] then Ok(c)
    else
      var code := StringCase(tokens[0]);
      if code == 1 then
        if |tokens| == 1 then Err(UnexpectedEnd)
        else match CountValue(tokens[1])
          case Err(e) => Err(e)
          case Ok(n) => Scan(tokens[2..], c.(count := n))
      else if code == 2 then
        if |tokens| == 1 then Err(UnexpectedEnd)
        else Scan(tokens[2..], SetPath(c, tokens[0], tokens[1]))
      else if code == 3 then
        Ok(c.(processArguments := c.processArguments + tokens[1..]))
      else
        Err(IllegalArgument(tokens[0]))
  }

  /** The whole front end over argv[1..]: the first token is the executable
      and is never classified. */
  function Parse(args: seq<string>): (r: Result<Config>)
    ensures r == Err(NoExecutable) <==> args == []
    ensures r.Ok? ==> r.value.executable == args[0] && 1 <= r.value.count <= MaxULL
  {
    if args == [] then Err(NoExecutable) else Scan(args[1..], Defaults(args[0]))
  }

  /** The body of the "count" case once its value token is at hand: the
      digit check, the conversion with its two exceptions, and the zero check. */
  method ReadCount(stringNum: string) returns (r: Result<nat>)
    ensures r == CountValue(stringNum)
  {
    if !IsDigits(stringNum) {
      return Err(CountNotNumeric);
    }
    var count: nat;
    match Stoull(stringNum) {
      case OutOfRange => return Err(CountTooLarge);
      case InvalidArgument => return Err(CountNotAccepted);
      case Converted(v) => count := v;
    }
    if count == 0 {
      return Err(CountZero);
    }
    return Ok(count);
  }

  /** The inner loop of the "process" case: every token after position it is
      appended, in order, and it ends on the last token. */
  method TakeRemaining(args: seq<string>, it: nat, processArguments: seq<string>)
    returns (it': nat, processArguments': seq<string>)
    requires it < |args|
    ensures it' == |args| - 1
    ensures processArguments' == processArguments + args[it + 1..]
  {
    it', processArguments' := it, processArguments;
    while it' + 1 != |args|
      invariant it <= it' < |args|
      invariant processArguments' == processArguments + args[it + 1..it' + 1]
      decreases |args| - it'
    {
      it' := it' + 1;
      processArguments' := processArguments' + [args[it']];
      assert args[it + 1..it' + 1] == args[it + 1..it'] + [args[it']];
    }
    assert args[it + 1..it' + 1] == args[it + 1..];
  }

  /** The iterator loop of main: `it` is the position of the token last read. */
  method ParseArguments(args: seq<string>) returns (r: Result<Config>)
    ensures r == Parse(args)
  {
    if |args| < 1 {
      return Err(NoExecutable);
    }
    var it := 0;
    var executable := args[it];
    var processArguments: seq<string> := [];
    var count: nat := 1;
    var inPath, outPath, errPath := "", "", "";
    while it + 1 != |args|
      invariant 0 <= it < |args|
      invariant Scan(args[it + 1..], Config(executable, count, inPath, outPath, errPath, processArguments))
             == Parse(args)
      decreases |args| - it
    {
      it := it + 1;
      ghost var tokens := args[it..];
      ghost var before := Config(executable, count, inPath, outPath, errPath, processArguments);
      assert tokens[0] == args[it];
      var code := StringCase(args[it]);
      if code == 1 {
        if it + 1 == |args| {
          return Err(UnexpectedEnd);
        }
        assert tokens[1] == args[it + 1] && tokens[2..] == args[it + 2..];
        it := it + 1;
        var counted := ReadCount(args[it]);
        if counted.Err? {
          return Err(counted.error);
        }
        count := counted.value;
        assert Scan(tokens, before) == Scan(tokens[2..], before.(count := count));
      } else if code == 2 {
        if it + 1 == |args| {
          return Err(UnexpectedEnd);
        }
        assert tokens[1] == args[it + 1] && tokens[2..] == args[it + 2..];
        assert Scan(tokens, before) == Scan(tokens[2..], SetPath(before, tokens[0], tokens[1]));
        if args[it] == "--in" {
          it := it + 1;
          inPath := args[it];
        } else if args[it] == "--out" {
          it := it + 1;
          outPath := args[it];
        } else if args[it] == "--err" {
          it := it + 1;
          errPath := args[it];
        }
      } else if code == 3 {
        assert tokens[1..] == args[it + 1..];
        it, processArguments := TakeRemaining(args, it, processArguments);
        assert args[it + 1..] == [];
      } else {
        return Err(IllegalArgument(args[it]));
      }
    }
    return Ok(Config(executable, count, inPath, outPath, errPath, processArguments));
  }

  // ---------------------------------------------------------------------------
  // Properties of the scan
  // ---------------------------------------------------------------------------

  /** A well-formed option together with its value, as a user would write it. */
  datatype Flag = CountFlag(count: nat) | InFlag(path: string) | OutFlag(path: string) | ErrFlag(path: string)

  predicate WellFormed(f: Flag) {
    f.CountFlag? ==> 1 <= f.count <= MaxULL
  }

  predicate AllWellFormed(fs: seq<Flag>) {
    forall i :: 0 <= i < |fs| ==> WellFormed(fs[i])
  }

  function FlagWords(f: Flag): seq<string> {
    match f
    case CountFlag(n) => ["--count", ToDecimal(n)]
    case InFlag(p) => ["--in", p]
    case OutFlag(p) => ["--out", p]
    case ErrFlag(p) => ["--err", p]
  }

  function FlagTokens(fs: seq<Flag>): seq<string> {
    if fs == [] then [] else FlagWords(fs[0]) + FlagTokens(fs[1..])
  }

  /** The intended meaning of one option: set the field it names. */
  function ApplyFlag(f: Flag, c: Config): Config {
    match f
    case CountFlag(n) => c.(count := n)
    case InFlag(p) => c.(inPath := p)
    case OutFlag(p) => c.(outPath := p)
    case ErrFlag(p) => c.(errPath := p)
  }

  function ApplyFlags(fs: seq<Flag>, c: Config): (r: Config)
    ensures r.executable == c.executable && r.processArguments == c.processArguments
  {
    if fs == [] then c else ApplyFlags(fs[1..], ApplyFlag(fs[0], c))
  }

  /** Reading well-formed options applies them one after the other; a value
      is taken verbatim even when it is itself an option word. */
  lemma ScanFlag(f: Flag, rest: seq<string>, c: Config)
    requires WellFormed(f)
    ensures Scan(FlagWords(f) + rest, c) == Scan(rest, ApplyFlag(f, c))
  {
    var tokens := FlagWords(f) + rest;
    assert tokens[0] == FlagWords(f)[0] && tokens[1] == FlagWords(f)[1];
    assert tokens[2..] == rest;
    match f
    case CountFlag(n) =>
      DecimalRoundTrip(n);
      assert CountValue(tokens[1]) == Ok(n);
    case InFlag(p) =>
      assert SetPath(c, "--in", p) == ApplyFlag(f, c);
    case OutFlag(p) =>
      assert SetPath(c, "--out", p) == ApplyFlag(f, c);
    case ErrFlag(p) =>
      assert SetPath(c, "--err", p) == ApplyFlag(f, c);
  }

  lemma {:induction false} ScanFlags(fs: seq<Flag>, rest: seq<string>, c: Config)
    requires AllWellFormed(fs)
    ensures Scan(FlagTokens(fs) + rest, c) == Scan(rest, ApplyFlags(fs, c))
  {
    if fs != [] {
      var f := fs[0];
      assert FlagTokens(fs) + rest == FlagWords(f) + (FlagTokens(fs[1..]) + rest);
      assert WellFormed(f) && AllWellFormed(fs[1..]);
      ScanFlag(f, FlagTokens(fs[1..]) + rest, c);
      ScanFlags(fs[1..], rest, ApplyFlag(f, c));
      assert ApplyFlags(fs, c) == ApplyFlags(fs[1..], ApplyFlag(f, c));
    } else {
      assert FlagTokens(fs) + rest == rest;
    }
  }

  /** The argument list built from options alone yields their combined effect. */
  lemma ParseFlags(executable: string, fs: seq<Flag>)
    requires AllWellFormed(fs)
    ensures Parse([executable] + FlagTokens(fs)) == Ok(ApplyFlags(fs, Defaults(executable)))
  {
    assert ([executable] + FlagTokens(fs))[1..] == FlagTokens(fs) + [];
    ScanFlags(fs, [], Defaults(executable));
  }

  /** Only the executable path: every default holds, whatever that path looks like. */
  lemma ParseOnlyExecutable(executable: string)
    ensures Parse([executable]) == Ok(Config(executable, 1, "", "", "", []))
  {
  }

  /** An option that needs a value, given as the last token, is an error. */
  lemma ParseMissingValue(executable: string, fs: seq<Flag>, option: string)
    requires AllWellFormed(fs)
    requires StringCase(option) == 1 || StringCase(option) == 2
    ensures Parse([executable] + FlagTokens(fs) + [option]) == Err(UnexpectedEnd)
  {
    assert ([executable] + FlagTokens(fs) + [option])[1..] == FlagTokens(fs) + [option];
    ScanFlags(fs, [option], Defaults(executable));
  }

  /** An unrecognised token aborts the scan with an error naming that token,
      whatever follows. */
  lemma ParseIllegal(executable: string, fs: seq<Flag>, token: string, rest: seq<string>)
    requires AllWellFormed(fs)
    requires StringCase(token) == 0
    ensures Parse([executable] + FlagTokens(fs) + [token] + rest) == Err(IllegalArgument(token))
  {
    assert ([executable] + FlagTokens(fs) + [token] + rest)[1..] == FlagTokens(fs) + ([token] + rest);
    ScanFlags(fs, [token] + rest, Defaults(executable));
  }

  /** `process` takes every later token verbatim and in order, none of them
      classified, and ends the scan. */
  lemma ParseProcess(executable: string, fs: seq<Flag>, rest: seq<string>)
    requires AllWellFormed(fs)
    ensures Parse([executable] + FlagTokens(fs) + ["process"] + rest)
         == Ok(ApplyFlags(fs, Defaults(executable)).(processArguments := rest))
  {
    var tail := ["process"] + rest;
    assert ([executable] + FlagTokens(fs) + ["process"] + rest)[1..] == FlagTokens(fs) + tail;
    ScanFlags(fs, tail, Defaults(executable));
    var c := ApplyFlags(fs, Defaults(executable));
    assert tail[0] == "process" && tail[1..] == rest;
    assert Scan(tail, c) == Ok(c.(processArguments := c.processArguments + rest));
    assert c.processArguments + rest == rest;
  }

  /** The value after --count is judged in a fixed order: a non-digit first,
      then the empty string, then magnitude, then zero; otherwise the count
      is its decimal value and the scan goes on. */
  lemma ParseCount(executable: string, fs: seq<Flag>, token: string, rest: seq<string>)
    requires AllWellFormed(fs)
    ensures var r := Parse([executable] + FlagTokens(fs) + ["--count", token] + rest);
      && (!AllDigits(token) ==> r == Err(CountNotNumeric))
      && (token == [] ==> r == Err(CountNotAccepted))
      && (AllDigits(token) && token != [] && DecimalValue(token) > MaxULL ==> r == Err(CountTooLarge))
      && (AllDigits(token) && token != [] && DecimalValue(token) == 0 ==> r == Err(CountZero))
      && (AllDigits(token) && token != [] && 1 <= DecimalValue(token) <= MaxULL ==>
            r == Scan(rest, ApplyFlags(fs, Defaults(executable)).(count := DecimalValue(token))))
  {
    var tail := ["--count", token] + rest;
    assert ([executable] + FlagTokens(fs) + ["--count", token] + rest)[1..] == FlagTokens(fs) + tail;
    ScanFlags(fs, tail, Defaults(executable));
    assert tail[0] == "--count" && tail[1] == token && tail[2..] == rest;
  }

  lemma {:induction false} ApplyFlagsAppend(fs: seq<Flag>, gs: seq<Flag>, c: Config)
    ensures ApplyFlags(fs + gs, c) == ApplyFlags(gs, ApplyFlags(fs, c))
  {
    if fs != [] {
      assert (fs + gs)[0] == fs[0] && (fs + gs)[1..] == fs[1..] + gs;
      ApplyFlagsAppend(fs[1..], gs, ApplyFlag(fs[0], c));
      assert ApplyFlags(fs + gs, c) == ApplyFlags(fs[1..] + gs, ApplyFlag(fs[0], c));
    } else {
      assert fs + gs == gs;
    }
  }

  predicate SameOption(f: Flag, g: Flag) {
    (f.CountFlag? && g.CountFlag?) || (f.InFlag? && g.InFlag?)
    || (f.OutFlag? && g.OutFlag?) || (f.ErrFlag? && g.ErrFlag?)
  }

  function OptionField(f: Flag, c: Config): Flag {
    match f
    case CountFlag(_) => CountFlag(c.count)
    case InFlag(_) => InFlag(c.inPath)
    case OutFlag(_) => OutFlag(c.outPath)
    case ErrFlag(_) => ErrFlag(c.errPath)
  }

  lemma {:induction false} OtherFlagsKeepField(f: Flag, gs: seq<Flag>, c: Config)
    requires forall k :: 0 <= k < |gs| ==> !SameOption(gs[k], f)
    ensures OptionField(f, ApplyFlags(gs, c)) == OptionField(f, c)
  {
    if gs != [] {
      OtherFlagsKeepField(f, gs[1..], ApplyFlag(gs[0], c));
    }
  }

  /** A repeated option keeps its last value: after the last occurrence of
      an option, the field it names holds that occurrence's value. */
  lemma LastFlagWins(fs: seq<Flag>, f: Flag, gs: seq<Flag>, c: Config)
    requires forall k :: 0 <= k < |gs| ==> !SameOption(gs[k], f)
    ensures OptionField(f, ApplyFlags(fs + [f] + gs, c)) == f
  {
    ApplyFlagsAppend(fs + [f], gs, c);
    ApplyFlagsAppend(fs, [f], c);
    OtherFlagsKeepField(f, gs, ApplyFlags(fs + [f], c));
  }

  /** An argument list that spells out a whole configuration. */
  function Render(c: Config): seq<string> {
    [c.executable]
      + FlagTokens([CountFlag(c.count), InFlag(c.inPath), OutFlag(c.outPath), ErrFlag(c.errPath)])
      + ["process"] + c.processArguments
  }

  /** The four options of a spelling set the four fields they name. */
  lemma ApplyRendered(c: Config)
    ensures ApplyFlags([CountFlag(c.count), InFlag(c.inPath), OutFlag(c.outPath), ErrFlag(c.errPath)],
                       Defaults(c.executable))
         == c.(processArguments := [])
  {
    var fs := [CountFlag(c.count), InFlag(c.inPath), OutFlag(c.outPath), ErrFlag(c.errPath)];
    var d := Defaults(c.executable);
    var d1 := d.(count := c.count);
    var d2 := d1.(inPath := c.inPath);
    var d3 := d2.(outPath := c.outPath);
    assert fs[1..] == [InFlag(c.inPath), OutFlag(c.outPath), ErrFlag(c.errPath)];
    assert fs[2..] == [OutFlag(c.outPath), ErrFlag(c.errPath)];
    assert fs[3..] == [ErrFlag(c.errPath)];
    assert ApplyFlags(fs[3..], d3) == d3.(errPath := c.errPath);
    assert ApplyFlags(fs[2..], d2) == ApplyFlags(fs[3..], d3);
    assert ApplyFlags(fs[1..], d1) == ApplyFlags(fs[2..], d2);
    assert ApplyFlags(fs, d) == ApplyFlags(fs[1..], d1);
  }

  /** Every configuration the scan can produce is produced from its spelling. */
  lemma ParseRender(c: Config)
    requires 1 <= c.count <= MaxULL
    ensures Parse(Render(c)) == Ok(c)
  {
    var fs := [CountFlag(c.count), InFlag(c.inPath), OutFlag(c.outPath), ErrFlag(c.errPath)];
    assert AllWellFormed(fs);
    ParseProcess(c.executable, fs, c.processArguments);
    ApplyRendered(c);
  }

  /** `--in --out` stores the word "--out" as the input path. */
  lemma ExampleValueTakenVerbatim()
    ensures Parse(["bench", "--in", "--out"]) == Ok(Defaults("bench").(inPath := "--out"))
  {
    ParseFlags("bench", [InFlag("--out")]);
    assert FlagTokens([InFlag("--out")]) == ["--in", "--out"];
  }

  /** `process --count 3` passes both words to the child; the count stays 1. */
  lemma ExampleProcessSwallowsOptions()
    ensures Parse(["bench", "process", "--count", "3"])
         == Ok(Config("bench", 1, "", "", "", ["--count", "3"]))
  {
    ParseProcess("bench", [], ["--count", "3"]);
    assert [("bench")] + FlagTokens([]) + ["process"] + ["--count", "3"]
        == ["bench", "process", "--count", "3"];
  }

  /** Leading zeros in the --count value are ignored: "007" counts 7 runs.
      (A value made of zeros only is still the zero count.) */
  lemma ParseLeadingZero(executable: string, s: string, rest: seq<string>)
    requires AllDigits(s) && s != []
    ensures Parse([executable, "--count", "0" + s] + rest) == Parse([executable, "--count", s] + rest)
  {
    LeadingZero(s);
    var a := [executable, "--count", "0" + s] + rest;
    var b := [executable, "--count", s] + rest;
    assert a[1..][0] == "--count" && a[1..][1] == "0" + s && a[1..][2..] == rest;
    assert b[1..][0] == "--count" && b[1..][1] == s && b[1..][2..] == rest;
  }

  /** Any twenty-digit value with a leading 9 exceeds 2^64 - 1. */
  lemma TwentyDigitsTooLarge(executable: string, s: string)
    requires AllDigits(s) && |s| == 20 && s[0] == '9'
    ensures Parse([executable, "--count", s]) == Err(CountTooLarge)
  {
    LeadingDigitBound(s);
    assert Pow10(9) == 1000000000;
    assert Pow10(14) == 100000000000000;
    assert Pow10(19) == 10000000000000000000;
    assert CountValue(s) == Err(CountTooLarge);
    assert [executable, "--count", s][1..] == ["--count", s];
  }

  /** Twenty nines are reported as too large. */
  lemma ExampleCountTooLarge()
    ensures Parse(["bench", "--count", "99999999999999999999"]) == Err(CountTooLarge)
  {
    TwentyDigitsTooLarge("bench", "99999999999999999999");
  }
}
