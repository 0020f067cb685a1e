/** The shell proper: the built-in registry (two parallel arrays of names and
    handlers), the dispatcher `lsh_execute`, the handlers `lsh_cd`, `lsh_help` and
    `lsh_exit`, and the loop `lsh_loop`. The state the loop carries from one command
    to the next is the continuation status and the current working directory. */
module Shell {
  import opened Wrappers
  import Tokenizer
  import Launcher
  import Suggest

  /** The handlers that builtin_func points to. */
  datatype Builtin = Cd | Help | Exit | SuggestCmd

  /** builtin_str and builtin_func, index for index. */
  const BuiltinStr: seq<string> := ["cd", "help", "exit", "suggest"]
  const BuiltinFunc: seq<Builtin> := [Cd, Help, Exit, SuggestCmd]

  /** lsh_num_builtins: the number of entries, the same for both arrays. */
  function NumBuiltins(): (n: nat)
    ensures n == |BuiltinStr| && n == |BuiltinFunc|
  {
    |BuiltinStr|
  }

  /** i is the first registry position whose name is `name`. */
  ghost predicate IsFirstMatch(name: string, i: int) {
    0 <= i < NumBuiltins() && BuiltinStr[i] == name && forall j :: 0 <= j < i ==> BuiltinStr[j] != name
  }

  /** The search loop of lsh_execute: the first entry whose name equals `name`. */
  method FindBuiltin(name: string) returns (found: Option<nat>)
    ensures found.None? <==> name !in BuiltinStr
    ensures found.Some? ==> IsFirstMatch(name, found.value)
  {
    var i := 0;
    while i < NumBuiltins()
      invariant 0 <= i <= NumBuiltins()
      invariant forall j :: 0 <= j < i ==> BuiltinStr[j] != name
    {
      if name == BuiltinStr[i] {
        return Some(i);
      }
      i := i + 1;
    }
    return None;
  }

  /** The names are distinct, so the first match is the only one. */
  lemma RegistryNamesDistinct(i: nat, j: nat)
    requires i < j < NumBuiltins()
    ensures BuiltinStr[i] != BuiltinStr[j]
  {
  }

  /** The builtin that handles `name`, if any (the reference for FindBuiltin). */
  function Lookup(name: string): (r: Option<Builtin>)
    ensures r.None? <==> name !in BuiltinStr
    ensures forall i :: IsFirstMatch(name, i) ==> r == Some(BuiltinFunc[i])
  {
    if name == "cd" then Some(Cd)
    else if name == "help" then Some(Help)
    else if name == "exit" then Some(Exit)
    else if name == "suggest" then Some(SuggestCmd)
    else None
  }

  /** What chdir does with the requested path: it fails with the error text of its
      errno (what strerror gives), or it succeeds and the process's working
      directory becomes `dir`. */
  datatype ChdirReply = ChdirFailed(error: string) | ChdirOk(dir: string)

  /** The oracles one command line may consult. */
  datatype World = World(chdir: ChdirReply, suggest: Suggest.Environment, launch: Launcher.System)

  /** What one command line did, besides its status. */
  datatype Effect =
    | Nothing                                   // empty command line
    | CdMissingOperand
    | CdFailed(error: string)                   // perror("kaiVen: cd"): chdir's error text
    | CdMoved(dir: string)
    | HelpListing(names: seq<string>)
    | ExitRequested
    | Suggested(report: Suggest.Report)
    | Launched(result: Launcher.LaunchResult)

  /** The status of lsh_cd, lsh_help and lsh_exit. */
  function BuiltinStatus(b: Builtin): (status: int)
    ensures status == 0 <==> b == Exit
    ensures b != Exit ==> status == 1
  {
    match b
    case Cd => 1
    case Help => 1
    case Exit => 0
    case SuggestCmd => 1
  }

  /** lsh_cd on its own: no operand, a failing chdir, or a move. */
  function CdSpec(words: seq<string>, cwd: string, reply: ChdirReply): (r: (string, Effect))
    requires |words| >= 1
    ensures |words| < 2 ==> r == (cwd, CdMissingOperand)
    ensures r.0 != cwd ==> |words| >= 2 && reply == ChdirOk(r.0)
    ensures |words| >= 2 && reply.ChdirOk? ==> r == (reply.dir, CdMoved(reply.dir))
    ensures |words| >= 2 && reply.ChdirFailed? ==> r == (cwd, CdFailed(reply.error))
  {
    if |words| < 2 then (cwd, CdMissingOperand)
    else match reply
      case ChdirFailed(error) => (cwd, CdFailed(error))
      case ChdirOk(dir) => (dir, CdMoved(dir))
  }

  /** The outcome of one command line. */
  datatype Outcome = Outcome(status: int, cwd: string, effect: Effect)

  /** Reference definition of lsh_execute over the words of a command line. */
  function ExecuteSpec(words: seq<string>, cwd: string, w: World): (r: Outcome)
    ensures words == [] ==> r == Outcome(1, cwd, Nothing)
    ensures r.status == 0 <==> words != [] && words[0] == "exit"
    ensures r.cwd != cwd ==> |words| >= 2 && words[0] == "cd" && w.chdir == ChdirOk(r.cwd)
    ensures words != [] && words[0] !in BuiltinStr ==> r.effect == Launched(Launcher.LaunchSpec(words, w.launch))
  {
    if words == [] then Outcome(1, cwd, Nothing)
    else match Lookup(words[0])
      case Some(b) =>
        (match b
         case Cd => var (dir, e) := CdSpec(words, cwd, w.chdir); Outcome(BuiltinStatus(b), dir, e)
         case Help => Outcome(BuiltinStatus(b), cwd, HelpListing(BuiltinStr))
         case Exit => Outcome(BuiltinStatus(b), cwd, ExitRequested)
         case SuggestCmd => Outcome(BuiltinStatus(b), cwd, Suggested(Suggest.SuggestSpec(words, w.suggest))))
      case None => Outcome(1, cwd, Launched(Launcher.LaunchSpec(words, w.launch)))
  }

  /** The dispatcher returns the status of the handler it picked, verbatim, and the
      launcher's 1 when no name matches. */
  lemma DispatchReturnsHandlerStatus(words: seq<string>, cwd: string, w: World)
    requires words != []
    ensures ExecuteSpec(words, cwd, w).status ==
              (match Lookup(words[0]) case Some(b) => BuiltinStatus(b) case None => 1)
  {
  }

  /** The shell process: its working directory. */
  class Shell {
    var cwd: string

    constructor (start: string)
      ensures cwd == start
    {
      cwd := start;
    }

    /** lsh_cd: changes the working directory when an operand is given and chdir
        succeeds; always keeps the loop going. */
    method RunCd(args: array<Option<string>>, ghost words: seq<string>, reply: ChdirReply)
        returns (status: int, effect: Effect)
      requires Launcher.IsArgv(args[..], words) && |words| >= 1
      modifies this
      ensures status == 1
      ensures (cwd, effect) == CdSpec(words, old(cwd), reply)
    {
      status := 1;
      if args[1] == None {
        effect := CdMissingOperand;
      } else {
        match reply
        case ChdirFailed(error) =>
          effect := CdFailed(error);
        case ChdirOk(dir) =>
          cwd := dir;
          effect := CdMoved(dir);
      }
    }

    /** lsh_execute: an empty command continues; otherwise the first registry entry
        whose name equals args[0] handles it, and anything else is launched. */
    method Execute(args: array<Option<string>>, ghost words: seq<string>, w: World)
        returns (status: int, effect: Effect)
      requires Launcher.IsArgv(args[..], words)
      modifies this
      ensures Outcome(status, cwd, effect) == ExecuteSpec(words, old(cwd), w)
    {
      if args[0] == None {
        return 1, Nothing;
      }
      var found := FindBuiltin(args[0].value);
      if found.Some? {
        var b := BuiltinFunc[found.value];
        match b
        case Cd =>
          status, effect := RunCd(args, words, w.chdir);
        case Help =>
          status, effect := 1, HelpListing(BuiltinStr);
        case Exit =>
          status, effect := 0, ExitRequested;
        case SuggestCmd =>
          var report;
          status, report := Suggest.RunSuggest(args, words, w.suggest);
          effect := Suggested(report);
      } else {
        var result;
        status, result := Launcher.Launch(args, words, w.launch);
        effect := Launched(result);
      }
    }

    /** A token array read as an argument vector: each token pointer is a C string
        ending where strtok wrote its NUL, and the sentinel stays NULL. */
    static method AsArgv(line: string, tokens: array<Tokenizer.Slot>, n: nat, ghost spans: seq<Tokenizer.Span>)
        returns (args: array<Option<string>>)
      requires forall k :: 0 <= k < |spans| ==> spans[k].start <= spans[k].stop <= |line|
      requires n == |spans| && n < tokens.Length && tokens[n] == Tokenizer.Null
      requires forall k :: 0 <= k < n ==> tokens[k] == Tokenizer.Token(spans[k])
      ensures Launcher.IsArgv(args[..], Tokenizer.Texts(line, spans))
      ensures fresh(args)
    {
      args := new Option<string>[n + 1];
      var k := 0;
      while k < n
        invariant 0 <= k <= n
        invariant forall j :: 0 <= j < k ==> args[j] == Some(line[spans[j].start..spans[j].stop])
      {
        var sp := tokens[k].span;
        args[k] := Some(line[sp.start..sp.stop]);
        k := k + 1;
      }
      args[n] := None;
      ghost var ws := Tokenizer.Texts(line, spans);
      assert forall j :: 0 <= j < n ==> args[..][j] == Some(ws[j]);
    }

    /** One pass of the loop body: split the line as read (its C string), then
        execute it. */
    method RunLine(line: string, w: World) returns (status: int, effect: Effect)
      modifies this
      ensures status == 0 <==> IsExit(line)
      ensures Outcome(status, cwd, effect) == ExecuteSpec(Tokenizer.CommandWords(line), old(cwd), w)
    {
      var text := Tokenizer.CText(line);
      var tokens, n := Tokenizer.SplitLine(text);
      var args := AsArgv(text, tokens, n, Tokenizer.Tokens(text));
      status, effect := Execute(args, Tokenizer.Words(text), w);
    }

    /** Runs line n of the input from the working directory that the first n lines
        leave behind. */
    method Step(input: seq<string>, worlds: seq<World>, n: nat, ghost start: string)
        returns (status: int, effect: Effect)
      requires |worlds| == |input| && n < |input|
      requires cwd == CwdAfter(input[..n], worlds[..n], start)
      modifies this
      ensures status == 0 <==> IsExit(input[n])
      ensures cwd == CwdAfter(input[..n + 1], worlds[..n + 1], start)
      ensures EffectsOf(input[..n + 1], worlds[..n + 1], start) == EffectsOf(input[..n], worlds[..n], start) + [effect]
    {
      status, effect := RunLine(input[n], worlds[n]);
      RunOneMore(input, worlds, n, start);
    }

    /** lsh_loop: read a line, split it, execute it, while the status is non-zero.
        Running out of input ends the loop as end-of-file does. `worlds[i]` answers
        the system calls of line i. Returns how many lines were executed. */
    method Loop(input: seq<string>, worlds: seq<World>) returns (executed: nat, effects: seq<Effect>)
      requires |worlds| == |input|
      modifies this
      ensures executed == LinesRun(input)
      ensures effects == EffectsOf(input[..executed], worlds[..executed], old(cwd))
      ensures cwd == CwdAfter(input[..executed], worlds[..executed], old(cwd))
    {
      ghost var start := cwd;
      var status := 1;
      executed := 0;
      effects := [];
      while status != 0 && executed < |input|
        decreases |input| - executed
        invariant 0 <= executed <= |input|
        invariant status != 0 ==> LinesRun(input) == executed + LinesRun(input[executed..])
        invariant status == 0 ==> executed == LinesRun(input)
        invariant effects == EffectsOf(input[..executed], worlds[..executed], start)
        invariant cwd == CwdAfter(input[..executed], worlds[..executed], start)
      {
        var effect;
        status, effect := Step(input, worlds, executed, start);
        LinesRunSuffix(input, executed);
        effects := effects + [effect];
        executed := executed + 1;
      }
    }
  }

  /** The line makes the shell stop: its first word is `exit`. */
  predicate IsExit(line: string) {
    var ws := Tokenizer.CommandWords(line);
    ws != [] && ws[0] == "exit"
  }

  /** A command line stops the loop exactly when it is an `exit` command, whatever
      the working directory and the world. */
  lemma StatusZeroIffExit(line: string, w: World)
    ensures forall cwd :: ExecuteSpec(Tokenizer.CommandWords(line), cwd, w).status == 0 <==> IsExit(line)
  {
  }

  /** How many lines the loop executes: up to and including the first `exit`, or
      all of them when none says `exit`. */
  function LinesRun(input: seq<string>): (n: nat)
    ensures n <= |input|
    ensures input != [] ==> n >= 1
  {
    if input == [] then 0 else if IsExit(input[0]) then 1 else 1 + LinesRun(input[1..])
  }

  /** From line n on, the loop runs line n and stops there on `exit`, or goes on
      with the lines after it. */
  lemma LinesRunSuffix(input: seq<string>, n: nat)
    requires n < |input|
    ensures LinesRun(input[n..]) == if IsExit(input[n]) then 1 else 1 + LinesRun(input[n + 1..])
  {
    assert input[n..][0] == input[n];
    assert input[n..][1..] == input[n + 1..];
  }

  lemma {:induction false} LinesRunAt(input: seq<string>, i: nat)
    requires i < |input| && IsExit(input[i])
    requires forall k :: 0 <= k < i ==> !IsExit(input[k])
    ensures LinesRun(input) == i + 1
    decreases i
  {
    if i > 0 {
      LinesRunAt(input[1..], i - 1);
    }
  }

  lemma {:induction false} LinesRunNone(input: seq<string>)
    requires forall k :: 0 <= k < |input| ==> !IsExit(input[k])
    ensures LinesRun(input) == |input|
    decreases |input|
  {
    if input != [] {
      LinesRunNone(input[1..]);
    }
  }

  /** Running one more line extends the effects by that line's effect and moves the
      working directory as that line does. */
  lemma RunOneMore(input: seq<string>, worlds: seq<World>, n: nat, cwd: string)
    requires |worlds| == |input| && n < |input|
    ensures var o := ExecuteSpec(Tokenizer.CommandWords(input[n]), CwdAfter(input[..n], worlds[..n], cwd), worlds[n]);
            && CwdAfter(input[..n + 1], worlds[..n + 1], cwd) == o.cwd
            && EffectsOf(input[..n + 1], worlds[..n + 1], cwd) == EffectsOf(input[..n], worlds[..n], cwd) + [o.effect]
  {
    assert input[..n + 1][..n] == input[..n];
    assert worlds[..n + 1][..n] == worlds[..n];
  }

  /** The working directory after running the given lines in order. */
  function CwdAfter(lines: seq<string>, worlds: seq<World>, cwd: string): string
    requires |worlds| == |lines|
  {
    if lines == [] then cwd
    else
      var n := |lines| - 1;
      ExecuteSpec(Tokenizer.CommandWords(lines[n]), CwdAfter(lines[..n], worlds[..n], cwd), worlds[n]).cwd
  }

  /** The effects of running the given lines in order. */
  function EffectsOf(lines: seq<string>, worlds: seq<World>, cwd: string): seq<Effect>
    requires |worlds| == |lines|
  {
    if lines == [] then []
    else
      var n := |lines| - 1;
      EffectsOf(lines[..n], worlds[..n], cwd) +
        [ExecuteSpec(Tokenizer.CommandWords(lines[n]), CwdAfter(lines[..n], worlds[..n], cwd), worlds[n]).effect]
  }
}
