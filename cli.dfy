/** The command line of the tool: options (`--name=value`, `--name value`,
    or the short names `-?`, `-k`, `-f`, `-h`, `-s`), one command word, and
    a file name for the transfers that need one. */
module Cli {
  import opened Bytes

  const ARG_INFO: int := 1
  const ARG_DOWNLOAD: int := 2
  const ARG_UPLOAD: int := 3
  const ARG_ERASE: int := 4

  /** An entry of `opts_in`: its short name, whether it was given and its
      value. Descriptions are only printed and are not modelled. */
  datatype CmdOpt = CmdOpt(shortName: string, specified: bool, value: string)

  /** The long option names, in `std::map` (byte-wise) order. */
  const OPTION_ORDER: seq<string> := ["--help", "--key-file", "--output-firmware", "--output-header", "--save-size"]

  /** `opts_in` as the program starts. */
  const INITIAL_OPTIONS: map<string, CmdOpt> := map[
    "--help" := CmdOpt("-?", false, ""),
    "--output-header" := CmdOpt("-h", false, ""),
    "--output-firmware" := CmdOpt("-f", false, ""),
    "--key-file" := CmdOpt("-k", false, ""),
    "--save-size" := CmdOpt("-s", false, "")]

  /** Where `main` leaves the parse: go on to the device, show the help
      (and exit with -1), or report an error (and exit with -1). */
  datatype Outcome = Proceed | ShowHelp | Fail

  /** The parse state: the `cmd_set` flag, `arg_passed`, `arg_filename`
      and `opts_in`. */
  datatype Parsed = Parsed(cmdSet: bool, argPassed: int, filename: string, opts: map<string, CmdOpt>)

  datatype ParseResult = ParseResult(outcome: Outcome, state: Parsed)

  /** The position of the first `c` in `s`, or `|s|`. */
  function IndexOf(s: string, c: char): (k: nat)
    ensures k <= |s| && c !in s[..k]
    ensures k < |s| ==> s[k] == c
  {
    if s == [] then 0
    else if s[0] == c then 0
    else
      var k := 1 + IndexOf(s[1..], c);
      assert s[..k] == [s[0]] + s[1..][..k - 1];
      k
  }

  /** The two `getline` calls on an option token: the name runs to the
      first '=', the value from there to the first newline (empty when
      there is no '='). */
  /** `name` and `val` are the split of `arg`: the name is the longest
      prefix without '='; the value is empty when there is no '=', and
      otherwise runs from after the '=' to the first newline or the end. */
  predicate IsSplit(arg: string, name: string, val: string)
  {
    && |name| <= |arg| && name == arg[..|name|] && '=' !in name
    && (|name| < |arg| ==> arg[|name|] == '=')
    && (|name| == |arg| ==> val == "")
    && (|name| < |arg| ==> |name| + 1 + |val| <= |arg| && val == arg[|name| + 1..|name| + 1 + |val|])
    && '\n' !in val
    && (|name| < |arg| && |name| + 1 + |val| < |arg| ==> arg[|name| + 1 + |val|] == '\n')
  }

  function SplitOption(arg: string): (nv: (string, string))
    ensures IsSplit(arg, nv.0, nv.1)
  {
    var e := IndexOf(arg, '=');
    var rest := if e < |arg| then arg[e + 1..] else [];
    (arg[..e], rest[..IndexOf(rest, '\n')])
  }

  /** Splitting is undone by joining at the '=': the name holds no '=', and
      the value is everything after the first '=' when no newline follows. */
  lemma SplitOptionRoundTrip(arg: string)
    ensures '=' !in SplitOption(arg).0
    ensures '=' in arg && '\n' !in arg ==> SplitOption(arg).0 + "=" + SplitOption(arg).1 == arg
    ensures '=' !in arg ==> SplitOption(arg) == (arg, "")
  {
    var e := IndexOf(arg, '=');
    if '=' in arg && '\n' !in arg {
      var rest := arg[e + 1..];
      assert '\n' !in rest;
      assert arg == arg[..e] + "=" + rest;
    }
    if '=' !in arg {
      assert arg[..e] == arg;
    }
  }

  /** The first long option, from index `j` of `OPTION_ORDER` on, whose
      short name is `name`. */
  function ShortMatchFrom(name: string, opts: map<string, CmdOpt>, j: nat): (r: Option<string>)
    decreases |OPTION_ORDER| - j
    ensures r.Some? ==> r.value in opts && opts[r.value].shortName == name
    ensures r.None? ==> forall k :: j <= k < |OPTION_ORDER| && OPTION_ORDER[k] in opts ==>
                                      opts[OPTION_ORDER[k]].shortName != name
  {
    if j >= |OPTION_ORDER| then None
    else if OPTION_ORDER[j] in opts && opts[OPTION_ORDER[j]].shortName == name then Some(OPTION_ORDER[j])
    else ShortMatchFrom(name, opts, j + 1)
  }

  /** The long option a name stands for: itself when it is one, else the
      first in map order with that short name, else none. */
  function Resolve(name: string, opts: map<string, CmdOpt>): (r: Option<string>)
    ensures r.Some? ==> r.value in opts && (r.value == name || opts[r.value].shortName == name)
    ensures r.None? ==> name !in opts && forall k :: k in OPTION_ORDER && k in opts ==> opts[k].shortName != name
  {
    if name in opts then Some(name) else ShortMatchFrom(name, opts, 0)
  }

  /** The command words, in the order of their `ARG_*` values. */
  const COMMAND_WORDS: seq<string> := ["info", "download", "upload", "erase"]

  /** The command a non-option word names, if any: exactly the four command
      words are recognised, each as the command of its position. */
  function CommandOf(arg: string): (c: Option<int>)
    ensures c.Some? <==> arg in COMMAND_WORDS
    ensures c.Some? ==> ARG_INFO <= c.value <= ARG_ERASE && COMMAND_WORDS[c.value - 1] == arg
  {
    if arg == "info" then Some(ARG_INFO)
    else if arg == "download" then Some(ARG_DOWNLOAD)
    else if arg == "upload" then Some(ARG_UPLOAD)
    else if arg == "erase" then Some(ARG_ERASE)
    else None
  }

  predicate IsTransfer(argPassed: int)
  {
    argPassed == ARG_DOWNLOAD || argPassed == ARG_UPLOAD
  }

  /** An option token starts with '-'. */
  predicate IsOption(arg: string)
  {
    |arg| > 0 && arg[0] == '-'
  }

  /** The argument loop of `main` from argument `i` on, then the file name
      check that follows it. */
  function ParseFrom(args: seq<string>, i: nat, p: Parsed): (r: ParseResult)
    decreases |args| - i
    ensures p.cmdSet ==> r.state.cmdSet && r.state.argPassed == p.argPassed
    ensures !p.cmdSet && r.state.cmdSet ==> ARG_INFO <= r.state.argPassed <= ARG_ERASE
  {
    if i >= |args| then
      ParseResult(if IsTransfer(p.argPassed) && p.filename == "" then Fail else Proceed, p)
    else
      var arg := args[i];
      if IsOption(arg) then
        var (name, val) := SplitOption(arg);
        match Resolve(name, p.opts)
        case None => ParseResult(Fail, p)
        case Some(long) =>
          if long == "--help" then ParseResult(ShowHelp, p)
          else
            var o := p.opts[long].(specified := true);
            if val != "" then ParseFrom(args, i + 1, p.(opts := p.opts[long := o.(value := val)]))
            else if i == |args| - 1 then ParseResult(Fail, p.(opts := p.opts[long := o]))
            else ParseFrom(args, i + 2, p.(opts := p.opts[long := o.(value := args[i + 1])]))
      else if !p.cmdSet then
        match CommandOf(arg)
        case None => ParseResult(Fail, p)
        case Some(c) => ParseFrom(args, i + 1, p.(cmdSet := true, argPassed := c))
      else if IsTransfer(p.argPassed) then ParseFrom(args, i + 1, p.(filename := arg))
      else ParseFrom(args, i + 1, p)
  }

  /** The parse of `main`: the help without arguments, else the loop from
      the first argument after the program name. */
  function ParseAll(args: seq<string>, p: Parsed): (r: ParseResult)
    ensures |args| < 2 ==> r == ParseResult(ShowHelp, p)
    ensures !p.cmdSet && r.state.cmdSet ==> ARG_INFO <= r.state.argPassed <= ARG_ERASE
  {
    if |args| < 2 then ParseResult(ShowHelp, p) else ParseFrom(args, 1, p)
  }

  /** Parsing gives values to existing options only: the option names and
      their short names never change. */
  /** `b` has the options of `a`, each with the same short name. */
  predicate SameOptions(a: map<string, CmdOpt>, b: map<string, CmdOpt>)
  {
    a.Keys == b.Keys && forall k :: k in a ==> b[k].shortName == a[k].shortName
  }

  lemma SameOptionsTrans(a: map<string, CmdOpt>, b: map<string, CmdOpt>, c: map<string, CmdOpt>)
    requires SameOptions(a, b) && SameOptions(b, c)
    ensures SameOptions(a, c)
  {
  }

  /** Giving an option a new value or a `specified` mark keeps the options. */
  lemma SameOptionsUpdate(a: map<string, CmdOpt>, long: string, o: CmdOpt)
    requires long in a && o.shortName == a[long].shortName
    ensures SameOptions(a, a[long := o])
  {
  }

  lemma {:induction false} ParseKeepsOptions(args: seq<string>, i: nat, p: Parsed)
    ensures SameOptions(p.opts, ParseFrom(args, i, p).state.opts)
    decreases |args| - i
  {
    if i < |args| {
      var arg := args[i];
      if IsOption(arg) {
        var (name, val) := SplitOption(arg);
        match Resolve(name, p.opts)
        case None =>
        case Some(long) =>
          if long != "--help" {
            var o := p.opts[long].(specified := true);
            if val != "" {
              var q := p.(opts := p.opts[long := o.(value := val)]);
              SameOptionsUpdate(p.opts, long, o.(value := val));
              ParseKeepsOptions(args, i + 1, q);
              SameOptionsTrans(p.opts, q.opts, ParseFrom(args, i + 1, q).state.opts);
            } else if i < |args| - 1 {
              var q := p.(opts := p.opts[long := o.(value := args[i + 1])]);
              SameOptionsUpdate(p.opts, long, o.(value := args[i + 1]));
              ParseKeepsOptions(args, i + 2, q);
              SameOptionsTrans(p.opts, q.opts, ParseFrom(args, i + 2, q).state.opts);
            } else {
              SameOptionsUpdate(p.opts, long, o);
            }
          }
      } else if !p.cmdSet {
        match CommandOf(arg)
        case None =>
        case Some(c) => ParseKeepsOptions(args, i + 1, p.(cmdSet := true, argPassed := c));
      } else if IsTransfer(p.argPassed) {
        ParseKeepsOptions(args, i + 1, p.(filename := arg));
      } else {
        ParseKeepsOptions(args, i + 1, p);
      }
    }
  }


  /** What the loop keeps true of a state that starts without a command and
      without a file name: a file name only ever follows a download or
      upload command, and the command is set at most once. */
  predicate FilenameFollowsTransfer(p: Parsed)
  {
    (p.filename != "" ==> p.cmdSet && IsTransfer(p.argPassed)) && (!p.cmdSet ==> p.filename == "" && p.argPassed == 0)
  }

  lemma {:induction false} ParseKeepsFilenameRule(args: seq<string>, i: nat, p: Parsed)
    requires FilenameFollowsTransfer(p)
    ensures FilenameFollowsTransfer(ParseFrom(args, i, p).state)
    ensures var r := ParseFrom(args, i, p);
            r.outcome == Proceed ==> !(IsTransfer(r.state.argPassed) && r.state.filename == "")
    ensures ParseFrom(args, i, p).state.cmdSet ==> ARG_INFO <= ParseFrom(args, i, p).state.argPassed <= ARG_ERASE
                                                   || (p.cmdSet && ParseFrom(args, i, p).state.argPassed == p.argPassed)
    decreases |args| - i
  {
    if i < |args| {
      var arg := args[i];
      if IsOption(arg) {
        var (name, val) := SplitOption(arg);
        match Resolve(name, p.opts)
        case None =>
        case Some(long) =>
          if long != "--help" {
            var o := p.opts[long].(specified := true);
            if val != "" {
              ParseKeepsFilenameRule(args, i + 1, p.(opts := p.opts[long := o.(value := val)]));
            } else if i < |args| - 1 {
              ParseKeepsFilenameRule(args, i + 2, p.(opts := p.opts[long := o.(value := args[i + 1])]));
            }
          }
      } else if !p.cmdSet {
        match CommandOf(arg)
        case None =>
        case Some(c) => ParseKeepsFilenameRule(args, i + 1, p.(cmdSet := true, argPassed := c));
      } else if IsTransfer(p.argPassed) {
        ParseKeepsFilenameRule(args, i + 1, p.(filename := arg));
      } else {
        ParseKeepsFilenameRule(args, i + 1, p);
      }
    }
  }

  /** The start of `main`'s parse: no command, no file name, the option
      table as declared. */
  const START: Parsed := Parsed(false, 0, "", INITIAL_OPTIONS)

  /** A parse that lets the program go on leaves either no command at all or
      one of the four, a file name exactly for the transfers that need one
      (never empty there, never set for the others), and the five options. */
  lemma ProceedIsWellFormed(args: seq<string>)
    ensures var r := ParseAll(args, START);
            r.outcome == Proceed ==>
              && (r.state.argPassed == 0 || ARG_INFO <= r.state.argPassed <= ARG_ERASE)
              && (IsTransfer(r.state.argPassed) ==> r.state.filename != "")
              && (!IsTransfer(r.state.argPassed) ==> r.state.filename == "")
              && r.state.opts.Keys == INITIAL_OPTIONS.Keys
  {
    if |args| >= 2 {
      ParseKeepsFilenameRule(args, 1, START);
      ParseKeepsOptions(args, 1, START);
    }
  }

  // One step of the loop, for each kind of argument.

  lemma OptionValueStep(args: seq<string>, i: nat, p: Parsed, long: string, val: string)
    requires i < |args| && IsOption(args[i]) && SplitOption(args[i]) == (SplitOption(args[i]).0, val) && val != ""
    requires Resolve(SplitOption(args[i]).0, p.opts) == Some(long) && long != "--help"
    ensures ParseFrom(args, i, p) == ParseFrom(args, i + 1, p.(opts := p.opts[long := p.opts[long].(specified := true, value := val)]))
  {
  }

  lemma OptionNextStep(args: seq<string>, i: nat, p: Parsed, long: string)
    requires i + 1 < |args| && IsOption(args[i]) && SplitOption(args[i]).1 == ""
    requires Resolve(SplitOption(args[i]).0, p.opts) == Some(long) && long != "--help"
    ensures ParseFrom(args, i, p) == ParseFrom(args, i + 2, p.(opts := p.opts[long := p.opts[long].(specified := true, value := args[i + 1])]))
  {
  }

  lemma CommandStep(args: seq<string>, i: nat, p: Parsed, c: int)
    requires i < |args| && !IsOption(args[i]) && !p.cmdSet && CommandOf(args[i]) == Some(c)
    ensures ParseFrom(args, i, p) == ParseFrom(args, i + 1, p.(cmdSet := true, argPassed := c))
  {
  }

  lemma WordStep(args: seq<string>, i: nat, p: Parsed)
    requires i < |args| && !IsOption(args[i]) && p.cmdSet
    ensures ParseFrom(args, i, p) == ParseFrom(args, i + 1, if IsTransfer(p.argPassed) then p.(filename := args[i]) else p)
  {
  }

  lemma ResolveSaveSize()
    ensures Resolve("-s", INITIAL_OPTIONS) == Some("--save-size")
  {
    assert "-s" !in INITIAL_OPTIONS;
    assert ShortMatchFrom("-s", INITIAL_OPTIONS, 4) == Some("--save-size");
  }

  lemma SplitWithValue()
    ensures SplitOption("-s=8192") == ("-s", "8192")
  {
    assert IndexOf("-s=8192", '=') == 2;
    assert "-s=8192"[3..] == "8192";
    assert IndexOf("8192", '\n') == 4;
    assert "-s=8192"[..2] == "-s" && "8192"[..4] == "8192";
  }

  /** A short name is split off whole. */
  lemma SplitShortName(arg: string)
    requires |arg| == 2 && arg[0] == '-' && arg[1] != '='
    ensures SplitOption(arg) == (arg, "")
  {
    SplitOptionRoundTrip(arg);
  }

  lemma ResolveHelp()
    ensures Resolve("-?", INITIAL_OPTIONS) == Some("--help")
  {
    assert "-?" !in INITIAL_OPTIONS;
  }

  lemma ResolveUnknown()
    ensures Resolve("-x", INITIAL_OPTIONS) == None
  {
    assert "-x" !in INITIAL_OPTIONS;
  }

  /** Without arguments, and for `-?`, `main` shows the help. */
  lemma HelpExamples()
    ensures ParseAll(["r4i"], START).outcome == ShowHelp
    ensures ParseAll(["r4i", "-?"], START).outcome == ShowHelp
  {
    SplitShortName("-?");
    ResolveHelp();
  }

  /** A download or upload without a file name is an error. */
  lemma MissingFilenameExample()
    ensures ParseAll(["r4i", "download"], START).outcome == Fail
  {
  }

  /** A first word that is not a command is an error. */
  lemma UnknownCommandExample()
    ensures ParseAll(["r4i", "format"], START).outcome == Fail
  {
  }

  /** A name that is neither a long nor a short option is an error. */
  lemma UnknownOptionExample()
    ensures ParseAll(["r4i", "-x", "info"], START).outcome == Fail
  {
    SplitShortName("-x");
    ResolveUnknown();
  }

  /** An option that needs the next argument is an error in last place. */
  lemma MissingValueExample()
    ensures ParseAll(["r4i", "info", "-s"], START).outcome == Fail
  {
    var args := ["r4i", "info", "-s"];
    SplitShortName("-s");
    ResolveSaveSize();
    CommandStep(args, 1, START, ARG_INFO);
  }

  /** The value after '=' is stored, and the last file name wins. */
  lemma DownloadExample()
    ensures var r := ParseAll(["r4i", "-s=8192", "download", "a.sav", "b.sav"], START);
            r.outcome == Proceed && r.state.argPassed == ARG_DOWNLOAD && r.state.filename == "b.sav"
            && "--save-size" in r.state.opts && r.state.opts["--save-size"] == CmdOpt("-s", true, "8192")
  {
    var args := ["r4i", "-s=8192", "download", "a.sav", "b.sav"];
    SplitWithValue();
    ResolveSaveSize();
    OptionValueStep(args, 1, START, "--save-size", "8192");
    var p1 := START.(opts := INITIAL_OPTIONS["--save-size" := CmdOpt("-s", true, "8192")]);
    CommandStep(args, 2, p1, ARG_DOWNLOAD);
    var p2 := p1.(cmdSet := true, argPassed := ARG_DOWNLOAD);
    WordStep(args, 3, p2);
    WordStep(args, 4, p2.(filename := "a.sav"));
  }

  /** An option without '=' takes the next argument as its value, even a
      command word. */
  lemma ValueTakesNextExample()
    ensures ParseAll(["r4i", "-s", "info"], START)
         == ParseResult(Proceed, START.(opts := INITIAL_OPTIONS["--save-size" := CmdOpt("-s", true, "info")]))
  {
    var args := ["r4i", "-s", "info"];
    SplitShortName("-s");
    ResolveSaveSize();
    OptionNextStep(args, 1, START, "--save-size");
  }

  /** An erase ignores file names. */
  lemma EraseExample()
    ensures var r := ParseAll(["r4i", "erase", "x.sav"], START);
            r.outcome == Proceed && r.state.argPassed == ARG_ERASE && r.state.filename == ""
  {
  }

  /** The globals of `main` that the parse reads and writes. */
  class CommandLine {
    var argPassed: int
    var argFilename: string
    var opts: map<string, CmdOpt>
    /** `override_save_size`: no option writes it, so it stays 0. */
    var overrideSaveSize: int

    constructor ()
      ensures argPassed == 0 && argFilename == "" && opts == INITIAL_OPTIONS && overrideSaveSize == 0
    {
      argPassed := 0;
      argFilename := "";
      opts := INITIAL_OPTIONS;
      overrideSaveSize := 0;
    }

    /** The short-name loop: the first long option in map order whose
        short name is `name`, when `name` is not a long option itself. */
    method ResolveName(name: string) returns (long: Option<string>)
      ensures long == Resolve(name, opts)
    {
      if name in opts {
        return Some(name);
      }
      var j := 0;
      while j < |OPTION_ORDER|
        invariant 0 <= j <= |OPTION_ORDER|
        invariant ShortMatchFrom(name, opts, j) == ShortMatchFrom(name, opts, 0)
      {
        var k := OPTION_ORDER[j];
        if k in opts && opts[k].shortName == name {
          return Some(k);
        }
        j := j + 1;
      }
      return None;
    }

    /** The argument loop of `main` and the file name check after it. The
        fields end as `ParseAll` says, and `override_save_size` is not
        among the fields it may change. */
    /** One round of the argument loop at argument `i`. Either the parse
        stops there with `result`, or it goes on at `next` with the rest of
        the parse unchanged. */
    method ParseStep(args: seq<string>, i: nat, cmdSet: bool)
      returns (stop: bool, result: Outcome, next: nat, nowSet: bool)
      requires 1 <= i < |args|
      modifies this`argPassed, this`argFilename, this`opts
      ensures var r := ParseFrom(args, i, Parsed(cmdSet, old(argPassed), old(argFilename), old(opts)));
              if stop then
                result == r.outcome && argPassed == r.state.argPassed && argFilename == r.state.filename
                && opts == r.state.opts
              else
                i < next <= |args| && ParseFrom(args, next, Parsed(nowSet, argPassed, argFilename, opts)) == r
    {
      if IsOption(args[i]) {
        stop, result, next := OptionStep(args, i, cmdSet);
        nowSet := cmdSet;
      } else {
        stop, next, nowSet := WordRound(args, i, cmdSet);
        result := Fail;
      }
    }

    /** The round of the argument loop for a word: the command when none is
        set yet (failing on an unknown one), later the file name of a
        transfer. */
    method WordRound(args: seq<string>, i: nat, cmdSet: bool) returns (stop: bool, next: nat, nowSet: bool)
      requires 1 <= i < |args| && !IsOption(args[i])
      modifies this`argPassed, this`argFilename
      ensures var r := ParseFrom(args, i, Parsed(cmdSet, old(argPassed), old(argFilename), opts));
              if stop then
                r.outcome == Fail && argPassed == r.state.argPassed && argFilename == r.state.filename
                && opts == r.state.opts
              else
                next == i + 1 && ParseFrom(args, next, Parsed(nowSet, argPassed, argFilename, opts)) == r
    {
      var arg := args[i];
      next, nowSet, stop := i + 1, cmdSet, false;
      if !cmdSet {
        var c := CommandOf(arg);
        if c.None? {
          return true, next, nowSet;
        }
        CommandStep(args, i, Parsed(cmdSet, argPassed, argFilename, opts), c.value);
        argPassed := c.value;
        nowSet := true;
      } else {
        WordStep(args, i, Parsed(cmdSet, argPassed, argFilename, opts));
        if IsTransfer(argPassed) {
          argFilename := arg;
        }
      }
    }

    /** The round of the argument loop for an option token: resolve its
        name, then store its value, from the token or from the next
        argument. */
    method OptionStep(args: seq<string>, i: nat, cmdSet: bool) returns (stop: bool, result: Outcome, next: nat)
      requires 1 <= i < |args| && IsOption(args[i])
      modifies this`opts
      ensures var r := ParseFrom(args, i, Parsed(cmdSet, argPassed, argFilename, old(opts)));
              if stop then
                result == r.outcome && argPassed == r.state.argPassed && argFilename == r.state.filename
                && opts == r.state.opts
              else
                i < next <= |args| && ParseFrom(args, next, Parsed(cmdSet, argPassed, argFilename, opts)) == r
    {
      next, stop, result := i + 1, false, Proceed;
      var (name, val) := SplitOption(args[i]);
      var long := ResolveName(name);
      if long.None? {
        return true, Fail, next;
      }
      if long.value == "--help" {
        return true, ShowHelp, next;
      }
      var o := opts[long.value].(specified := true);
      if val == "" {
        if i == |args| - 1 {
          opts := opts[long.value := o];
          return true, Fail, next;
        }
        OptionNextStep(args, i, Parsed(cmdSet, argPassed, argFilename, opts), long.value);
        next := i + 2;
        opts := opts[long.value := o.(value := args[i + 1])];
      } else {
        OptionValueStep(args, i, Parsed(cmdSet, argPassed, argFilename, opts), long.value, val);
        opts := opts[long.value := o.(value := val)];
      }
    }

    method Parse(args: seq<string>) returns (outcome: Outcome)
      modifies this`argPassed, this`argFilename, this`opts
      ensures var r := ParseAll(args, Parsed(false, old(argPassed), old(argFilename), old(opts)));
              outcome == r.outcome && argPassed == r.state.argPassed && argFilename == r.state.filename
              && opts == r.state.opts
    {
      if |args| < 2 {
        return ShowHelp;
      }
      ghost var whole := ParseAll(args, Parsed(false, argPassed, argFilename, opts));
      var cmdSet := false;
      var i := 1;
      while i < |args|
        invariant 1 <= i <= |args|
        invariant ParseFrom(args, i, Parsed(cmdSet, argPassed, argFilename, opts)) == whole
        decreases |args| - i
      {
        var stop, result, next, nowSet := ParseStep(args, i, cmdSet);
        if stop {
          return result;
        }
        i, cmdSet := next, nowSet;
      }
      if IsTransfer(argPassed) && argFilename == "" {
        return Fail;
      }
      return Proceed;
    }
  }
}
