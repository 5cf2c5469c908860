/**
 * The compiler driver's small string helpers and flag presets: the
 * recorded compile command with its quote escaping, the `--set name=value`
 * split, the trim of the executable path at `/bin` that guesses CHPL_HOME,
 * the documentation comment label, the program name taken from argv[0],
 * and the flag presets `--fast`, `--baseline` and `--no-checks` together
 * with the dependent-variable fix-up. Global flags are one record value;
 * each setter returns the updated record.
 */
module Driver {
  import opened Wrappers

  // ---------------------------------------------------------------------
  // The recorded compile command
  // ---------------------------------------------------------------------

  const Backslash: char := '\\'
  const Quote: char := '"'

  /** A quote at the start of an argument or after anything but a backslash. */
  predicate BareQuote(s: string, k: int)
    requires 0 <= k < |s|
  {
    s[k] == Quote && (k == 0 || s[k - 1] != Backslash)
  }

  /** What character k of an argument becomes in the recorded command. */
  function Piece(s: string, k: int): (r: string)
    requires 0 <= k < |s|
    ensures |r| >= 1 && r[|r| - 1] == s[k]
  {
    if BareQuote(s, k) then [Backslash, Quote] else [s[k]]
  }

  /** An argument with every bare quote preceded by a backslash. */
  function Escaped(s: string): string
  {
    if s == [] then [] else Escaped(s[..|s| - 1]) + Piece(s, |s| - 1)
  }

  /** The number of bare quotes of an argument. */
  function BareQuotes(s: string): nat
  {
    if s == [] then 0 else BareQuotes(s[..|s| - 1]) + (if BareQuote(s, |s| - 1) then 1 else 0)
  }

  /** The escaped argument ends with the argument's own last character. */
  lemma EscapedLast(s: string)
    requires s != []
    ensures var e := Escaped(s); |e| >= 1 && e[|e| - 1] == s[|s| - 1]
  {
  }

  /**
   * In an escaped argument every quote is preceded by a backslash, so the
   * recorded command never closes the string literal it is stored in.
   */
  lemma {:induction false} EscapedQuotesGuarded(s: string)
    ensures var e := Escaped(s);
            forall k :: 0 <= k < |e| && e[k] == Quote ==> k > 0 && e[k - 1] == Backslash
  {
    if s != [] {
      var init := s[..|s| - 1];
      EscapedQuotesGuarded(init);
      var e := Escaped(s);
      var p := Piece(s, |s| - 1);
      assert e == Escaped(init) + p;
      forall k | 0 <= k < |e| && e[k] == Quote
        ensures k > 0 && e[k - 1] == Backslash
      {
        if k < |Escaped(init)| {
          assert Escaped(init)[k] == Quote;
        } else if !BareQuote(s, |s| - 1) {
          assert k == |Escaped(init)| && s[|s| - 1] == Quote;
          assert |s| >= 2 && s[|s| - 2] == Backslash;
          EscapedLast(init);
          assert e[k - 1] == Escaped(init)[|Escaped(init)| - 1];
        }
      }
    }
  }

  /** Escaping adds exactly one character per bare quote and changes nothing else. */
  lemma {:induction false} EscapedLength(s: string)
    ensures |Escaped(s)| == |s| + BareQuotes(s)
  {
    if s != [] {
      EscapedLength(s[..|s| - 1]);
    }
  }

  /** An argument without quotes is recorded as it is. */
  lemma {:induction false} EscapedQuoteFree(s: string)
    requires forall k :: 0 <= k < |s| ==> s[k] != Quote
    ensures Escaped(s) == s
  {
    if s != [] {
      var init := s[..|s| - 1];
      EscapedQuoteFree(init);
      assert init + [s[|s| - 1]] == s;
    }
  }

  /**
   * The escaping only handles one level: a quote and an already escaped
   * quote are recorded alike.
   */
  lemma EscapingMerges()
    ensures Escaped([Quote]) == Escaped([Backslash, Quote]) == [Backslash, Quote]
  {
    assert [Backslash, Quote][..1] == [Backslash];
    assert Escaped([Backslash]) == [Backslash];
  }

  /** A stretch without quotes is copied as it is. */
  lemma {:induction false} EscapedChunk(s: string, i: int, j: int)
    requires 0 <= i <= j <= |s|
    requires forall k :: i <= k < j ==> s[k] != Quote
    ensures Escaped(s[..j]) == Escaped(s[..i]) + s[i..j]
  {
    if i < j {
      var a, c := Escaped(s[..i]), s[j - 1];
      EscapedChunk(s, i, j - 1);
      EscapedUpTo(s, j);
      assert Piece(s, j - 1) == [c];
      SliceSnoc(a, s, i, j);
    }
  }

  /** Appending the last character of a slice to a text ending with the rest of it. */
  lemma SliceSnoc(a: string, s: string, i: int, j: int)
    requires 0 <= i < j <= |s|
    ensures (a + s[i..j - 1]) + [s[j - 1]] == a + s[i..j]
  {
    assert s[i..j] == s[i..j - 1] + [s[j - 1]];
  }

  /** One turn of the escaping loop: the stretch up to the quote, then the quote's piece. */
  lemma EscapedThroughQuote(s: string, i: int, q: int)
    requires 0 <= i <= q < |s| && s[q] == Quote
    requires forall k :: i <= k < q ==> s[k] != Quote
    ensures Escaped(s[..q + 1])
            == Escaped(s[..i]) + (s[i..q] + if q == 0 || s[q - 1] != Backslash then [Backslash, Quote] else [Quote])
  {
    EscapedChunk(s, i, q);
    EscapedStep(s, q);
    var a := Escaped(s[..i]);
    assert Escaped(s[..q + 1]) == (a + s[i..q]) + Piece(s, q);
    assert Piece(s, q) == if q == 0 || s[q - 1] != Backslash then [Backslash, Quote] else [Quote];
  }

  /** Escaping one more character appends that character's piece. */
  lemma EscapedStep(s: string, k: int)
    requires 0 <= k < |s|
    ensures Escaped(s[..k + 1]) == Escaped(s[..k]) + Piece(s, k)
  {
    var t := s[..k + 1];
    assert t[..k] == s[..k];
    assert Piece(t, k) == Piece(s, k);
  }

  /** The escaped prefix of length j ends with the piece of character j - 1. */
  lemma EscapedUpTo(s: string, j: int)
    requires 0 < j <= |s|
    ensures Escaped(s[..j]) == Escaped(s[..j - 1]) + Piece(s, j - 1)
  {
    EscapedStep(s, j - 1);
  }

  /** The index of the first quote at or after `from`, or |s| when there is none. */
  method FindQuote(s: string, from: int) returns (i: int)
    requires 0 <= from <= |s|
    ensures from <= i <= |s|
    ensures forall k :: from <= k < i ==> s[k] != Quote
    ensures i < |s| ==> s[i] == Quote
  {
    i := from;
    while i < |s| && s[i] != Quote
      invariant from <= i <= |s|
      invariant forall k :: from <= k < i ==> s[k] != Quote
    {
      i := i + 1;
    }
  }

  /**
   * The escaping loop of recordCodeGenStrings for one argument: copy up to
   * the next quote, then emit an escaped quote, or the quote alone when a
   * backslash precedes it; copy the rest after the last quote.
   */
  method EscapeArg(arg: string) returns (out: string)
    ensures out == Escaped(arg)
  {
    out := [];
    var start := 0;
    var dq := FindQuote(arg, 0);
    while dq < |arg|
      invariant 0 <= start <= dq <= |arg|
      invariant out == Escaped(arg[..start])
      invariant forall k :: start <= k < dq ==> arg[k] != Quote
      invariant dq < |arg| ==> arg[dq] == Quote
      decreases |arg| - start
    {
      var targ := arg[start..dq];
      if dq == 0 || arg[dq - 1] != Backslash {
        targ := targ + [Backslash, Quote];
      } else {
        targ := targ + [Quote];
      }
      EscapedThroughQuote(arg, start, dq);
      out := out + targ;
      start := dq + 1;
      dq := FindQuote(arg, start);
    }
    EscapedChunk(arg, start, |arg|);
    assert arg[..|arg|] == arg;
    out := out + arg[start..];
  }

  /** The arguments, each escaped and followed by one space. */
  function ArgsText(args: seq<string>): string
  {
    if args == [] then [] else ArgsText(args[..|args| - 1]) + Escaped(args[|args| - 1]) + " "
  }

  /** The compile command recorded for an argument vector (argv[0] is left out). */
  function CompileCommand(argv: seq<string>): string
  {
    "chpl " + (if |argv| <= 1 then [] else ArgsText(argv[1..]))
  }

  /**
   * recordCodeGenStrings: the command starts with "chpl " and every
   * argument after argv[0] adds its escaped text and one space.
   */
  method RecordCodeGenStrings(argv: seq<string>) returns (cmd: string)
    ensures cmd == CompileCommand(argv)
  {
    if |argv| <= 1 {
      cmd := "chpl ";
      assert cmd == "chpl " + [];
      return;
    }
    var text: string := [];
    var i := 1;
    while i < |argv|
      invariant 1 <= i <= |argv|
      invariant text == ArgsText(argv[1..i])
    {
      var e := EscapeArg(argv[i]);
      ArgsTextNext(argv, i);
      text := text + e + " ";
      i := i + 1;
    }
    assert argv[1..i] == argv[1..];
    cmd := "chpl " + text;
  }

  /** The text of the arguments 1..i+1 extends that of 1..i by argument i. */
  lemma ArgsTextNext(argv: seq<string>, i: int)
    requires 1 <= i < |argv|
    ensures ArgsText(argv[1..i + 1]) == ArgsText(argv[1..i]) + Escaped(argv[i]) + " "
  {
    var args := argv[1..i + 1];
    assert args[..|args| - 1] == argv[1..i];
    assert args[|args| - 1] == argv[i];
  }

  /** The command always begins with "chpl ". */
  lemma CommandStart(argv: seq<string>)
    ensures |CompileCommand(argv)| >= 5 && CompileCommand(argv)[..5] == "chpl "
  {
  }

  /** One more argument adds exactly its escaped text and one space at the end. */
  lemma CommandFraming(argv: seq<string>, a: string)
    requires |argv| >= 1
    ensures CompileCommand(argv + [a]) == CompileCommand(argv) + Escaped(a) + " "
  {
    var prev: seq<string> := if |argv| <= 1 then [] else argv[1..];
    assert (argv + [a])[1..] == prev + [a];
    ArgsTextSnoc(prev, a);
    ConcatAssoc("chpl ", ArgsText(prev), Escaped(a), " ");
  }

  /** Regrouping a text built in three pieces after a prefix. */
  lemma ConcatAssoc(p: string, x: string, e: string, sp: string)
    ensures p + (x + e + sp) == p + x + e + sp
  {
  }

  /** The text of the arguments grows by the escaped last argument and a space. */
  lemma ArgsTextSnoc(args: seq<string>, a: string)
    ensures ArgsText(args + [a]) == ArgsText(args) + Escaped(a) + " "
  {
    assert (args + [a])[..|args|] == args;
  }

  // ---------------------------------------------------------------------
  // --set name[=value]
  // ---------------------------------------------------------------------

  /** A config param setting taken from the command line. */
  datatype ConfigSetting = ConfigSetting(name: string, value: string)

  /** The position of the first c in s, or |s| when there is none. */
  function Find(s: string, c: char): (r: int)
    ensures 0 <= r <= |s|
    ensures forall k :: 0 <= k < r ==> s[k] != c
    ensures r < |s| ==> s[r] == c
  {
    if s == [] then 0 else if s[0] == c then 0 else 1 + Find(s[1..], c)
  }

  /**
   * readConfig: split at the first '='. A bare name sets the value "";
   * "name=" with nothing after the '=' is fatal.
   */
  function ReadConfig(arg: string): (r: Result<ConfigSetting, string>)
    ensures r.Err? <==> |arg| >= 1 && arg[|arg| - 1] == '=' && forall k :: 0 <= k < |arg| - 1 ==> arg[k] != '='
    ensures r.Err? ==> r.error == "Missing config param value"
    ensures r.Ok? ==> '=' !in r.value.name
    ensures r.Ok? && r.value.value != [] ==> arg == r.value.name + "=" + r.value.value
    ensures r.Ok? && r.value.value == [] ==> arg == r.value.name
  {
    var i := Find(arg, '=');
    if i == |arg| then
      Ok(ConfigSetting(arg, ""))
    else if i + 1 == |arg| then
      Err("Missing config param value")
    else
      assert arg == arg[..i] + "=" + arg[i + 1..];
      Ok(ConfigSetting(arg[..i], arg[i + 1..]))
  }

  /** Joining a name and a non-empty value with '=' and reading it back gives both. */
  lemma ReadConfigJoined(name: string, value: string)
    requires '=' !in name && value != []
    ensures ReadConfig(name + "=" + value) == Ok(ConfigSetting(name, value))
  {
    var arg := name + "=" + value;
    assert forall k :: 0 <= k < |name| ==> arg[k] == name[k] && name[k] != '=';
    assert arg[|name|] == '=';
    assert Find(arg, '=') == |name|;
    assert arg[..|name|] == name && arg[|name| + 1..] == value;
  }

  /** A bare name reads back as itself with the empty value. */
  lemma ReadConfigBare(name: string)
    requires '=' !in name
    ensures ReadConfig(name) == Ok(ConfigSetting(name, ""))
  {
    assert Find(name, '=') == |name|;
  }

  // ---------------------------------------------------------------------
  // Guessing CHPL_HOME: trim the executable path at /bin
  // ---------------------------------------------------------------------

  /** "/bin" starts at j and at least one character follows it. */
  predicate BinAt(s: string, j: int)
  {
    0 <= j && j + 4 < |s| && s[j] == '/' && s[j + 1] == 'b' && s[j + 2] == 'i' && s[j + 3] == 'n'
  }

  /** The last j' <= j with BinAt(s, j'), or -1. */
  function LastBinFrom(s: string, j: int): (r: int)
    ensures r == -1 || (BinAt(s, r) && r <= j)
    ensures forall k :: r < k <= j ==> !BinAt(s, k)
    decreases j + 1
  {
    if j < 0 then -1 else if BinAt(s, j) then j else LastBinFrom(s, j - 1)
  }

  /** Where the executable path is cut: the last "/bin" followed by something, or -1. */
  function LastBin(s: string): (r: int)
    ensures r == -1 || BinAt(s, r)
    ensures forall k :: r < k ==> !BinAt(s, k)
  {
    LastBinFrom(s, |s| - 5)
  }

  /**
   * The scan in setupChplHome: from index len-5 down to 0, cut the path
   * at the first "/bin" met; a path without one is left as it is.
   */
  method TrimAtBin(guess: string) returns (r: string)
    ensures var j := LastBin(guess);
            (j == -1 ==> r == guess) && (j != -1 ==> r == guess[..j])
  {
    r := guess;
    if |guess| > 0 {
      var j := |guess| - 5;
      while j >= 0
        invariant LastBinFrom(guess, j) == LastBin(guess)
        invariant r == guess
      {
        if guess[j] == '/' && guess[j + 1] == 'b' && guess[j + 2] == 'i' && guess[j + 3] == 'n' {
          r := guess[..j];
          return;
        }
        j := j - 1;
      }
    }
  }

  /** The trimmed path is a prefix of the guess, cut just before a "/bin". */
  lemma TrimmedPrefix(guess: string, j: int)
    requires j == LastBin(guess) && j != -1
    ensures guess[..j] + guess[j..j + 4] == guess[..j + 4] && guess[j..j + 4] == "/bin"
  {
  }

  // ---------------------------------------------------------------------
  // --docs-comment-style
  // ---------------------------------------------------------------------

  /** The size of the label buffer, terminator included. */
  const LabelBufferSize: nat := 256

  datatype LabelError = LabelTooLarge | NotAComment

  predicate StartsComment(text: string)
  {
    |text| >= 2 && text[0] == '/' && text[1] == '*'
  }

  /**
   * setCommentLabel as written: the length test lets a label of exactly
   * the buffer's size through, whose terminator does not fit.
   */
  function CommentLabelAsWritten(current: string, text: string): (r: Result<string, LabelError>)
    ensures |text| == 0 ==> r == Ok(current)
    ensures r.Err? <==> |text| > 0 && (|text| > LabelBufferSize || !StartsComment(text))
    ensures r.Err? && |text| > LabelBufferSize ==> r.error == LabelTooLarge
    ensures r.Ok? && |text| > 0 ==> r.value == text
  {
    if |text| == 0 then Ok(current)
    else if |text| > LabelBufferSize then Err(LabelTooLarge)
    else if !StartsComment(text) then Err(NotAComment)
    else Ok(text)
  }

  /** A label of 256 characters passes the test but needs 257 bytes with its terminator. */
  lemma LabelOverflow()
    ensures var text := "/*" + seq(254, _ => 'x');
            CommentLabelAsWritten("", text).Ok? && |text| + 1 > LabelBufferSize
  {
    var text := "/*" + seq(254, _ => 'x');
    assert text[0] == '/' && text[1] == '*';
  }

  /**
   * setCommentLabel: an empty label leaves the current one; a label that
   * does not fit the buffer with its terminator is fatal; one that does not
   * start with a comment opener is fatal; any other becomes the label.
   */
  function CommentLabel(current: string, text: string): (r: Result<string, LabelError>)
    ensures |text| == 0 ==> r == Ok(current)
    ensures r.Err? <==> |text| > 0 && (|text| + 1 > LabelBufferSize || !StartsComment(text))
    ensures r.Err? && |text| + 1 > LabelBufferSize ==> r.error == LabelTooLarge
    ensures r.Ok? && |text| > 0 ==> r.value == text
  {
    if |text| == 0 then Ok(current)
    else if |text| >= LabelBufferSize then Err(LabelTooLarge)
    else if !StartsComment(text) then Err(NotAComment)
    else Ok(text)
  }

  /** Every label kept fits the buffer with its terminator. */
  lemma CommentLabelFits(current: string, text: string)
    requires |current| + 1 <= LabelBufferSize
    ensures var r := CommentLabel(current, text);
            r.Ok? ==> |r.value| + 1 <= LabelBufferSize
  {
  }

  // ---------------------------------------------------------------------
  // Program name
  // ---------------------------------------------------------------------

  /** compute_program_name_loc: the text after the last '/' of argv[0]. */
  function ProgramName(argv0: string): (name: string)
    ensures |name| <= |argv0| && name == argv0[|argv0| - |name|..]
    ensures '/' !in name
    ensures |name| < |argv0| ==> argv0[|argv0| - |name| - 1] == '/'
  {
    if argv0 == [] then []
    else if argv0[|argv0| - 1] == '/' then []
    else ProgramName(argv0[..|argv0| - 1]) + [argv0[|argv0| - 1]]
  }

  /** A path with no slash is its own program name. */
  lemma ProgramNameNoSlash(argv0: string)
    requires '/' !in argv0
    ensures ProgramName(argv0) == argv0
  {
  }

  /** The name of a program under a directory is the part after the slash. */
  lemma {:induction false} ProgramNameOfPath(dir: string, name: string)
    requires '/' !in name
    ensures ProgramName(dir + "/" + name) == name
  {
    if name != [] {
      var init := name[..|name| - 1];
      ProgramNameOfPath(dir, init);
      assert (dir + "/" + name)[..|dir + "/" + name| - 1] == dir + "/" + init;
      assert init + [name[|name| - 1]] == name;
    } else {
      assert (dir + "/" + name)[|dir + "/" + name| - 1] == '/';
    }
  }

  // ---------------------------------------------------------------------
  // Flag presets
  // ---------------------------------------------------------------------

  /** The driver's global flags touched by the presets. */
  datatype Flags = Flags(
    baseline: bool,
    ieeeFloat: bool,
    noCopyPropagation: bool,
    noDeadCodeElimination: bool,
    noFastFollowers: bool,
    noInline: bool,
    noInlineIterators: bool,
    noOptimizeLoopIterators: bool,
    noLiveAnalysis: bool,
    noRemoteValueForwarding: bool,
    noRemoveCopyCalls: bool,
    noScalarReplacement: bool,
    noTupleCopyOpt: bool,
    noPrivatization: bool,
    noOptimizeOnClauses: bool,
    noChecks: bool,
    noBoundsChecks: bool,
    noLocalChecks: bool,
    noNilChecks: bool,
    optimizeCCode: bool,
    dynamicDispatchLimit: int,
    developer: bool,
    userSetCppLineno: bool,
    printCppLineno: bool)

  /** The optimisation-disable flags, in the order the presets list them. */
  function OptimizationsDisabled(f: Flags): seq<bool>
  {
    [f.noCopyPropagation, f.noDeadCodeElimination, f.noFastFollowers, f.noInline,
     f.noInlineIterators, f.noOptimizeLoopIterators, f.noLiveAnalysis,
     f.noRemoteValueForwarding, f.noRemoveCopyCalls, f.noScalarReplacement,
     f.noTupleCopyOpt, f.noPrivatization, f.noOptimizeOnClauses]
  }

  /** The flags no preset touches. */
  predicate SameOthers(f: Flags, g: Flags)
  {
    g.developer == f.developer && g.userSetCppLineno == f.userSetCppLineno
    && g.printCppLineno == f.printCppLineno
  }

  /** turnOffChecks: exactly the nil, bounds and local checks are turned off. */
  function TurnOffChecks(f: Flags): (g: Flags)
    ensures g.noNilChecks && g.noBoundsChecks && g.noLocalChecks
    ensures g.(noNilChecks := f.noNilChecks, noBoundsChecks := f.noBoundsChecks, noLocalChecks := f.noLocalChecks) == f
  {
    f.(noNilChecks := true, noBoundsChecks := true, noLocalChecks := true)
  }

  /**
   * setFastFlag: every optimisation is enabled, the baseline and IEEE
   * float modes are off, all runtime checks are off and the C code is
   * optimised; the dispatch limit and the other flags are kept.
   */
  function SetFastFlag(f: Flags): (g: Flags)
    ensures forall k :: 0 <= k < |OptimizationsDisabled(g)| ==> !OptimizationsDisabled(g)[k]
    ensures |OptimizationsDisabled(g)| == 13
    ensures !g.baseline && !g.ieeeFloat && g.optimizeCCode
    ensures g.noChecks && g.noBoundsChecks && g.noLocalChecks && g.noNilChecks
    ensures g.dynamicDispatchLimit == f.dynamicDispatchLimit && SameOthers(f, g)
  {
    f.(baseline := false, ieeeFloat := false, noCopyPropagation := false,
       noDeadCodeElimination := false, noFastFollowers := false, noInline := false,
       noInlineIterators := false, noOptimizeLoopIterators := false, noLiveAnalysis := false,
       noRemoteValueForwarding := false, noRemoveCopyCalls := false, noScalarReplacement := false,
       noTupleCopyOpt := false, noPrivatization := false, noChecks := true, noBoundsChecks := true,
       noLocalChecks := true, noNilChecks := true, noOptimizeOnClauses := false, optimizeCCode := true)
  }

  /**
   * setBaselineFlag: every optimisation is disabled and the dispatch
   * limit is zero; checks, IEEE float mode and C optimisation are kept.
   */
  function SetBaselineFlag(f: Flags): (g: Flags)
    ensures forall k :: 0 <= k < |OptimizationsDisabled(g)| ==> OptimizationsDisabled(g)[k]
    ensures |OptimizationsDisabled(g)| == 13
    ensures g.baseline && g.dynamicDispatchLimit == 0
    ensures g.ieeeFloat == f.ieeeFloat && g.optimizeCCode == f.optimizeCCode
    ensures g.noChecks == f.noChecks && g.noBoundsChecks == f.noBoundsChecks
    ensures g.noLocalChecks == f.noLocalChecks && g.noNilChecks == f.noNilChecks
    ensures SameOthers(f, g)
  {
    f.(baseline := true, noCopyPropagation := true, noDeadCodeElimination := true,
       noFastFollowers := true, noInline := true, noInlineIterators := true,
       noLiveAnalysis := true, noOptimizeLoopIterators := true, noRemoteValueForwarding := true,
       noRemoveCopyCalls := true, noScalarReplacement := true, noTupleCopyOpt := true,
       noPrivatization := true, noOptimizeOnClauses := true, dynamicDispatchLimit := 0)
  }

  /** After --fast, --no-checks changes nothing. */
  lemma ChecksAlreadyOff(f: Flags)
    ensures TurnOffChecks(SetFastFlag(f)) == SetFastFlag(f)
  {
  }

  /** --fast and --baseline each undo the other's optimisation settings: the last one wins. */
  lemma LastPresetWins(f: Flags)
    ensures OptimizationsDisabled(SetFastFlag(SetBaselineFlag(f))) == OptimizationsDisabled(SetFastFlag(f))
    ensures OptimizationsDisabled(SetBaselineFlag(SetFastFlag(f))) == OptimizationsDisabled(SetBaselineFlag(f))
    ensures !SetFastFlag(SetBaselineFlag(f)).baseline && SetBaselineFlag(SetFastFlag(f)).baseline
  {
  }

  /**
   * setupDependentVars: a developer who did not ask for C line numbers
   * gets none; every other flag, and every other case, is unchanged.
   */
  function SetupDependentVars(f: Flags): (g: Flags)
    ensures g.(printCppLineno := f.printCppLineno) == f
    ensures f.developer && !f.userSetCppLineno ==> !g.printCppLineno
    ensures !(f.developer && !f.userSetCppLineno) ==> g == f
  {
    if f.developer && !f.userSetCppLineno then f.(printCppLineno := false) else f
  }

  /** Fixing up the dependent variables twice is the same as once. */
  lemma SetupDependentVarsIdempotent(f: Flags)
    ensures SetupDependentVars(SetupDependentVars(f)) == SetupDependentVars(f)
  {
  }
}
