/** The `suggest` built-in, `lsh_suggest`: its early-return guards, the prompt it
    joins from the remaining words, the request payload, and what it reports about
    the reply. The environment lookup, the allocations, libcurl's exchange and
    cJSON's parser are oracles gathered in an Environment. */
module Suggest {
  import opened Wrappers
  import Tokenizer
  import Launcher
  import ResponsePath

  /** The payload template, `{"contents": [{"parts":[{"text": "%s"}]}]}`, split at its `%s`. */
  const TemplatePrefix: string := "{\"contents\": [{\"parts\":[{\"text\": \""
  const TemplateSuffix: string := "\"}]}]}"

  /** strlen(json_template): the template with its two-character `%s`. */
  function TemplateLength(): (n: nat)
    ensures n == 42
  {
    |TemplatePrefix| + 2 + |TemplateSuffix|
  }

  /** The words separated by single spaces. */
  function JoinWords(ws: seq<string>): string {
    if |ws| == 0 then ""
    else if |ws| == 1 then ws[0]
    else JoinWords(ws[..|ws| - 1]) + " " + ws[|ws| - 1]
  }

  /** prompt_len: the sum over the words of their length plus one. */
  function PromptLen(ws: seq<string>): nat {
    if ws == [] then 0 else PromptLen(ws[..|ws| - 1]) + |ws[|ws| - 1]| + 1
  }

  /** The joined prompt is one byte shorter than prompt_len, so the buffer of
      prompt_len + 1 bytes holds it and its terminator with one byte to spare. */
  lemma {:induction false} JoinLength(ws: seq<string>)
    ensures ws == [] ==> JoinWords(ws) == ""
    ensures ws != [] ==> |JoinWords(ws)| + 1 == PromptLen(ws)
    decreases |ws|
  {
    if |ws| > 1 {
      JoinLength(ws[..|ws| - 1]);
    }
  }

  lemma {:induction false} PromptLenSplit(ws: seq<string>, k: nat)
    requires k <= |ws|
    ensures PromptLen(ws) == PromptLen(ws[..k]) + PromptLen(ws[k..])
    decreases |ws|
  {
    if k < |ws| {
      var init := ws[..|ws| - 1];
      PromptLenSplit(init, k);
      assert init[..k] == ws[..k];
      assert ws[k..][..|ws[k..]| - 1] == init[k..];
    } else {
      assert ws[..k] == ws;
    }
  }

  /** Joining a word in front of a non-empty list puts one space after it. */
  lemma {:induction false} JoinCons(w: string, ws: seq<string>)
    requires ws != []
    ensures JoinWords([w] + ws) == w + " " + JoinWords(ws)
    decreases |ws|
  {
    var l := [w] + ws;
    if |ws| > 1 {
      JoinCons(w, ws[..|ws| - 1]);
      assert l[..|l| - 1] == [w] + ws[..|ws| - 1];
    } else {
      assert l[..|l| - 1] == [w];
    }
  }

  /** The joined prompt, tokenized again, gives back the words it was made of: it
      holds exactly one space between words and none at either end. */
  lemma {:induction false} PromptRetokenizes(ws: seq<string>)
    requires forall k :: 0 <= k < |ws| ==> Tokenizer.IsWord(ws[k])
    ensures Tokenizer.Words(JoinWords(ws)) == ws
    decreases |ws|
  {
    if ws == [] {
      assert Tokenizer.Tokens("") == [];
    } else if |ws| == 1 {
      Tokenizer.WordsSingle(ws[0]);
    } else {
      var w, rest := ws[0], ws[1..];
      assert ws == [w] + rest;
      assert forall k :: 0 <= k < |rest| ==> rest[k] == ws[k + 1];
      PromptRetokenizes(rest);
      var j := JoinWords(rest);
      JoinCons(w, rest);
      assert JoinWords(ws) == w + [' '] + j;
      Tokenizer.WordsCons(w, ' ', j);
    }
  }

  /** The joined prompt starts with a character of the first word and ends with one
      of the last word, so it has no space (or other delimiter) at either end. */
  lemma {:induction false} JoinEnds(ws: seq<string>)
    requires ws != [] && forall k :: 0 <= k < |ws| ==> Tokenizer.IsWord(ws[k])
    ensures var j := JoinWords(ws);
            && |j| > 0 && j[0] in ws[0] && j[|j| - 1] in ws[|ws| - 1]
            && !Tokenizer.IsDelim(j[0]) && !Tokenizer.IsDelim(j[|j| - 1])
    decreases |ws|
  {
    var last := ws[|ws| - 1];
    assert Tokenizer.IsWord(ws[0]) && Tokenizer.IsWord(last);
    assert last[|last| - 1] in last;
    if |ws| == 1 {
      assert ws[0][0] in ws[0];
    } else {
      var init := ws[..|ws| - 1];
      assert forall k :: 0 <= k < |init| ==> init[k] == ws[k];
      JoinEnds(init);
      var j := JoinWords(ws);
      assert j == JoinWords(init) + " " + last;
      assert j[0] == JoinWords(init)[0];
    }
  }

  /** strcat(buf, s) where buf holds a C string of length len. */
  method Strcat(buf: array<char>, len: nat, s: string) returns (len': nat)
    requires len + |s| < buf.Length
    modifies buf
    ensures len' == len + |s|
    ensures buf[..len'] == old(buf[..len]) + s && buf[len'] == Tokenizer.NUL
  {
    var k := 0;
    while k < |s|
      invariant 0 <= k <= |s|
      invariant buf[..len] == old(buf[..len])
      invariant buf[len..len + k] == s[..k]
    {
      buf[len + k] := s[k];
      k := k + 1;
    }
    buf[len + |s|] := Tokenizer.NUL;
    assert buf[..len + |s|] == buf[..len] + buf[len..len + |s|];
    len' := len + |s|;
  }

  /** The first loop of the prompt construction: prompt_len over args[1..]. */
  method PromptLength(args: array<Option<string>>, ghost words: seq<string>) returns (promptLen: nat)
    requires Launcher.IsArgv(args[..], words) && |words| >= 1
    ensures promptLen == PromptLen(words[1..])
  {
    promptLen := 0;
    var i := 1;
    while args[i] != None
      invariant 1 <= i <= |words|
      invariant promptLen == PromptLen(words[1..i])
      decreases |words| - i
    {
      assert words[1..i + 1][..i - 1] == words[1..i];
      promptLen := promptLen + |args[i].value| + 1;
      i := i + 1;
    }
    assert words[1..i] == words[1..];
  }

  /** The prompt after the first j words have been appended: their join, followed by
      a space when another word comes. */
  function Partial(ps: seq<string>, j: nat): string
    requires j <= |ps|
  {
    if j == 0 then "" else JoinWords(ps[..j]) + (if j < |ps| then " " else "")
  }

  lemma {:induction false} PartialStep(ps: seq<string>, j: nat)
    requires j < |ps|
    ensures Partial(ps, j + 1) == Partial(ps, j) + ps[j] + (if j + 1 < |ps| then " " else "")
  {
    assert ps[..j + 1][..j] == ps[..j];
    if j == 0 {
      assert ps[..1] == [ps[0]];
    }
  }

  /** The joined words so far leave room for the next word and its space. */
  lemma PartialFits(ps: seq<string>, j: nat)
    requires j < |ps|
    ensures |Partial(ps, j)| + |ps[j]| + 1 <= PromptLen(ps)
  {
    JoinLength(ps[..j]);
    PromptLenSplit(ps, j);
    PromptLenSplit(ps[j..], 1);
    assert ps[j..][..1] == [ps[j]];
    assert ps[j..][..1][..0] == [];
  }

  /** One pass of the second loop: strcat word j, then a space when another word
      follows. */
  method AppendWord(prompt: array<char>, len: nat, w: string, more: bool, ghost ps: seq<string>, ghost j: nat)
      returns (len': nat)
    requires j < |ps| && w == ps[j] && more == (j + 1 < |ps|)
    requires prompt.Length == PromptLen(ps) + 1
    requires len < prompt.Length && prompt[..len] == Partial(ps, j)
    modifies prompt
    ensures len' < prompt.Length && prompt[len'] == Tokenizer.NUL
    ensures prompt[..len'] == Partial(ps, j + 1)
  {
    PartialFits(ps, j);
    PartialStep(ps, j);
    len' := Strcat(prompt, len, w);
    if more {
      len' := Strcat(prompt, len', " ");
    }
  }

  /** The second loop: strcat each word into a buffer of prompt_len + 1 characters,
      with a space after every word that has a successor. */
  method JoinPrompt(args: array<Option<string>>, ghost words: seq<string>, promptLen: nat)
      returns (prompt: array<char>, len: nat)
    requires Launcher.IsArgv(args[..], words) && |words| >= 1
    requires promptLen == PromptLen(words[1..])
    ensures prompt.Length == promptLen + 1
    ensures len < prompt.Length && prompt[len] == Tokenizer.NUL
    ensures prompt[..len] == JoinWords(words[1..])
  {
    ghost var ps := words[1..];
    prompt := new char[promptLen + 1](_ => Tokenizer.NUL);
    prompt[0] := Tokenizer.NUL;
    len := 0;
    var i := 1;
    while args[i] != None
      invariant 1 <= i <= |words|
      invariant len < prompt.Length && prompt[len] == Tokenizer.NUL
      invariant prompt[..len] == Partial(ps, i - 1)
      decreases |words| - i
    {
      len := AppendWord(prompt, len, args[i].value, args[i + 1] != None, ps, i - 1);
      i := i + 1;
    }
    assert ps[..i - 1] == ps;
  }

  /** snprintf(buf, cap, "%s", text): at most cap - 1 characters are written. */
  function Snprintf(cap: nat, text: string): (r: string)
    ensures r <= text
    ensures |text| < cap ==> r == text
    ensures cap > 0 ==> |r| < cap && (|r| == |text| || |r| == cap - 1)
    ensures cap == 0 ==> r == ""
  {
    if |text| < cap then text else if cap == 0 then "" else text[..cap - 1]
  }

  /** payload_len: strlen(json_template) + prompt_len + 1. */
  function PayloadLen(promptLen: nat): (n: nat)
    ensures n > |TemplatePrefix| + promptLen + |TemplateSuffix|
  {
    TemplateLength() + promptLen + 1
  }

  /** The payload as ai_module.c:74-85 formats it. */
  function Payload(words: seq<string>): string {
    Snprintf(PayloadLen(PromptLen(words)), TemplatePrefix + JoinWords(words) + TemplateSuffix)
  }

  /** payload_len always leaves room for the whole formatted text: nothing is cut. */
  lemma PayloadNotTruncated(ws: seq<string>)
    ensures Payload(ws) == TemplatePrefix + JoinWords(ws) + TemplateSuffix
  {
    JoinLength(ws);
  }

  /** What the service's reply turned out to be. */
  datatype Reply =
    | TransferFailed              // curl_easy_perform did not return CURLE_OK
    | Unparsable                  // cJSON_Parse returned NULL
    | Parsed(json: ResponsePath.Json)

  /** The parts of the outside world that `suggest` consults, in the order it does. */
  datatype Environment = Environment(
    apiKey: Option<string>,       // getenv("GEMINI_API_KEY")
    promptAllocOk: bool,
    curlInitOk: bool,
    payloadAllocOk: bool,
    reply: Reply)

  /** What `suggest` reports. The last four are the paths that send `payload`. */
  datatype Report =
    | ExpectedArgument
    | KeyMissing
    | PromptAllocFailed
    | CurlInitFailed
    | PayloadAllocFailed
    | ApiCallFailed(payload: string)
    | ParseError(payload: string)
    | UnexpectedFormat(payload: string)
    | Answer(payload: string, text: string)
  {
    predicate Sent() {
      ApiCallFailed? || ParseError? || UnexpectedFormat? || Answer?
    }
  }

  /** Reference definition of one `suggest` command; words[0] is "suggest". */
  function SuggestSpec(words: seq<string>, env: Environment): (r: Report)
    ensures |words| < 2 ==> r == ExpectedArgument
    ensures |words| >= 2 && env.apiKey.None? ==> r == KeyMissing
    ensures r.Sent() <==> |words| >= 2 && env.apiKey.Some? && env.promptAllocOk && env.curlInitOk && env.payloadAllocOk
    ensures r.Sent() ==> r.payload == TemplatePrefix + JoinWords(words[1..]) + TemplateSuffix
    ensures r.Answer? <==> r.Sent() && env.reply.Parsed? && ResponsePath.Answer(env.reply.json).Some?
    ensures r.Answer? ==> r.text == ResponsePath.Answer(env.reply.json).value
    ensures r.Sent() && env.reply.TransferFailed? ==> r.ApiCallFailed?
    ensures r.Sent() && env.reply.Unparsable? ==> r.ParseError?
    ensures r.Sent() && env.reply.Parsed? && ResponsePath.Answer(env.reply.json).None? ==> r.UnexpectedFormat?
  {
    if |words| < 2 then ExpectedArgument
    else if env.apiKey.None? then KeyMissing
    else if !env.promptAllocOk then PromptAllocFailed
    else if !env.curlInitOk then CurlInitFailed
    else if !env.payloadAllocOk then PayloadAllocFailed
    else
      var payload := Payload(words[1..]);
      PayloadNotTruncated(words[1..]);
      match env.reply
      case TransferFailed => ApiCallFailed(payload)
      case Unparsable => ParseError(payload)
      case Parsed(json) =>
        match ResponsePath.Answer(json)
        case None => UnexpectedFormat(payload)
        case Some(t) => Answer(payload, t)
  }

  /** lsh_suggest: every path, including the early returns, yields status 1. */
  method RunSuggest(args: array<Option<string>>, ghost words: seq<string>, env: Environment)
      returns (status: int, report: Report)
    requires Launcher.IsArgv(args[..], words) && |words| >= 1
    ensures status == 1
    ensures report == SuggestSpec(words, env)
  {
    status := 1;
    if args[1] == None {
      return status, ExpectedArgument;
    }
    if env.apiKey.None? {
      return status, KeyMissing;
    }
    var promptLen := PromptLength(args, words);
    if !env.promptAllocOk {
      return status, PromptAllocFailed;
    }
    var prompt, len := JoinPrompt(args, words, promptLen);
    if !env.curlInitOk {
      return status, CurlInitFailed;
    }
    if !env.payloadAllocOk {
      return status, PayloadAllocFailed;
    }
    var payload := Snprintf(PayloadLen(promptLen), TemplatePrefix + prompt[..len] + TemplateSuffix);
    match env.reply
    case TransferFailed => report := ApiCallFailed(payload);
    case Unparsable => report := ParseError(payload);
    case Parsed(json) =>
      var text := ResponsePath.Answer(json);
      if text.Some? {
        report := Answer(payload, text.value);
      } else {
        report := UnexpectedFormat(payload);
      }
  }
}
