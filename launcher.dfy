/** The process launcher `lsh_launch`: fork, the output-redirection scan the child
    runs over its copy of the argument vector, and exec. Process creation, file
    opening and program loading are oracles; what is modelled is what the child is
    asked to do and the status handed back to the loop. */
module Launcher {
  import opened Wrappers

  /** The redirection marker. */
  const Marker: string := ">"

  /** `args` holds the NULL-terminated argument vector of `words`. */
  ghost predicate IsArgv(args: seq<Option<string>>, words: seq<string>) {
    && |words| < |args|
    && args[|words|] == None
    && forall k :: 0 <= k < |words| ==> args[k] == Some(words[k])
  }

  /** What the redirection clause of a command line asks for. */
  datatype Redirection =
    | SyntaxError                                   // a `>` with nothing after it
    | Plan(argv: seq<string>, target: Option<string>)

  /** The position of the first `>`, or |words| when there is none. */
  function FirstMarker(words: seq<string>): (i: nat)
    ensures i <= |words|
    ensures i < |words| ==> words[i] == Marker
    ensures forall k :: 0 <= k < i ==> words[k] != Marker
  {
    if words == [] || words[0] == Marker then 0 else 1 + FirstMarker(words[1..])
  }

  /** Reference definition of the redirection scan: only the first `>` counts; the
      argument vector stops before it and the word after it is the target. */
  function ParseRedirection(words: seq<string>): (r: Redirection)
    ensures Marker !in words ==> r == Plan(words, None)
    ensures r.Plan? ==> Marker !in r.argv && r.argv <= words
    ensures r.Plan? && r.target.Some? ==>
              |r.argv| + 1 < |words| && words[|r.argv|] == Marker && r.target.value == words[|r.argv| + 1]
  {
    var i := FirstMarker(words);
    if i == |words| then Plan(words, None)
    else if i + 1 == |words| then SyntaxError
    else Plan(words[..i], Some(words[i + 1]))
  }

  /** `prog args > target rest`: the program gets `prog args`, its output goes to
      `target`, and whatever follows the target is dropped. */
  lemma RedirectionDropsTail(pre: seq<string>, target: string, rest: seq<string>)
    requires Marker !in pre
    ensures ParseRedirection(pre + [Marker, target] + rest) == Plan(pre, Some(target))
  {
    var words := pre + [Marker, target] + rest;
    FirstMarkerAt(words, |pre|);
    assert words[..|pre|] == pre;
  }

  /** `prog args >`: a trailing `>` is a syntax error. */
  lemma TrailingMarkerIsError(pre: seq<string>)
    requires Marker !in pre
    ensures ParseRedirection(pre + [Marker]) == SyntaxError
  {
    FirstMarkerAt(pre + [Marker], |pre|);
  }

  lemma FirstMarkerAt(words: seq<string>, i: nat)
    requires i < |words| && words[i] == Marker
    requires Marker !in words[..i]
    ensures FirstMarker(words) == i
  {
  }

  /** The scan of main.c:100-118 over the child's copy of the vector: find the first
      `>`; if nothing follows, fail; otherwise record the target and end the vector
      at the marker by overwriting it with NULL. */
  method ScanRedirection(args: array<Option<string>>, ghost words: seq<string>)
      returns (ok: bool, target: Option<string>)
    requires IsArgv(args[..], words)
    modifies args
    ensures ok == !ParseRedirection(words).SyntaxError?
    ensures !ok ==> args[..] == old(args[..])
    ensures ok ==> target == ParseRedirection(words).target
    ensures ok ==> IsArgv(args[..], ParseRedirection(words).argv)
    ensures ok && target.None? ==> args[..] == old(args[..])
    ensures ok && target.Some? ==> args[..] == old(args[..])[|ParseRedirection(words).argv| := None]
  {
    var i := 0;
    while args[i] != None
      invariant 0 <= i <= |words|
      invariant forall k :: 0 <= k < i ==> words[k] != Marker
      invariant args[..] == old(args[..])
      decreases |words| - i
    {
      if args[i] == Some(Marker) {
        FirstMarkerAt(words, i);
        if args[i + 1] == None {
          return false, None;
        }
        target := args[i + 1];
        args[i] := None;
        return true, target;
      }
      i := i + 1;
    }
    FirstMarkerIsEnd(words);
    ok, target := true, None;
  }

  lemma FirstMarkerIsEnd(words: seq<string>)
    requires forall k :: 0 <= k < |words| ==> words[k] != Marker
    ensures FirstMarker(words) == |words|
  {
  }

  /** The words of a NULL-terminated vector, read up to its NULL (what exec receives). */
  method ArgvUntilNull(args: array<Option<string>>, ghost words: seq<string>) returns (argv: seq<string>)
    requires IsArgv(args[..], words)
    ensures argv == words
  {
    argv := [];
    var i := 0;
    while args[i] != None
      invariant 0 <= i <= |words|
      invariant argv == words[..i]
      decreases |words| - i
    {
      argv := argv + [args[i].value];
      i := i + 1;
    }
  }

  /** What the operating system does with one launch: whether fork succeeds and
      whether the redirection target can be opened. */
  datatype System = System(forkOk: bool, openOk: bool)

  /** What a launch comes to. */
  datatype LaunchResult =
    | ForkFailed                                    // parent reports the failure
    | RedirectSyntaxError                           // child exits before exec
    | OpenFailed(path: string)                      // child exits before exec
    | Exec(argv: seq<string>, stdout: Option<string>) // child execs argv, output to stdout if given

  /** Reference definition of a launch: only a well-formed clause with an openable
      target reaches exec. */
  function LaunchSpec(words: seq<string>, sys: System): (r: LaunchResult)
    ensures r.Exec? <==> sys.forkOk && ParseRedirection(words).Plan? &&
                         (ParseRedirection(words).target.None? || sys.openOk)
  {
    if !sys.forkOk then ForkFailed
    else match ParseRedirection(words)
      case SyntaxError => RedirectSyntaxError
      case Plan(argv, target) =>
        if target.Some? && !sys.openOk then OpenFailed(target.value) else Exec(argv, target)
  }

  /** lsh_launch: forks, lets the child scan its own copy of the vector for a
      redirection and exec, waits for the child, and always keeps the shell going.
      The parent's vector is never changed: the child works on a copy. */
  method Launch(args: array<Option<string>>, ghost words: seq<string>, sys: System)
      returns (status: int, result: LaunchResult)
    requires IsArgv(args[..], words)
    ensures status == 1
    ensures result == LaunchSpec(words, sys)
  {
    status := 1;
    if !sys.forkOk {
      return status, ForkFailed;
    }
    var child := new Option<string>[args.Length](k requires 0 <= k < args.Length reads args => args[k]);
    assert child[..] == args[..];
    var ok, target := ScanRedirection(child, words);
    if !ok {
      return status, RedirectSyntaxError;
    }
    if target.Some? && !sys.openOk {
      return status, OpenFailed(target.value);
    }
    var argv := ArgvUntilNull(child, ParseRedirection(words).argv);
    result := Exec(argv, target);
  }
}
