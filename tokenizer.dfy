/** The shell's tokenizer: `lsh_split_line` and the `strtok` scan that drives it.
    A token is represented by the slice [start, stop) of the line it points into;
    the token array is a growable array of slots closed by a NULL sentinel. */
module Tokenizer {

  /** LSH_TOK_BUFSIZE: the initial number of slots, and the step by which the array grows. */
  const TokBufSize: nat := 64

  /** LSH_TOK_DELIM: space, tab, carriage return, newline and bell. */
  predicate IsDelim(c: char) {
    c == ' ' || c == '\t' || c == '\r' || c == '\n' || c == 7 as char
  }

  /** The C string terminator. */
  const NUL: char := 0 as char

  /** The C string a line buffer holds: its characters up to the first NUL, which is
      where strtok and every other string function stop reading. */
  function CText(line: string): (r: string)
    ensures r <= line && NUL !in r
    ensures |r| < |line| ==> line[|r|] == NUL
    ensures NUL !in line ==> r == line
  {
    if line == [] || line[0] == NUL then []
    else
      var t := CText(line[1..]);
      assert line == [line[0]] + line[1..];
      [line[0]] + t
  }

  /** A token: the characters line[start..stop]. */
  datatype Span = Span(start: nat, stop: nat)

  /** One entry of the token array: a token or the NULL sentinel. */
  datatype Slot = Null | Token(span: Span)

  /** The end of the run of non-delimiters that begins at position i. */
  function RunEnd(line: string, i: nat): (e: nat)
    requires i <= |line|
    ensures i <= e <= |line|
    ensures forall j :: i <= j < e ==> !IsDelim(line[j])
    ensures e == |line| || IsDelim(line[e])
    decreases |line| - i
  {
    if i == |line| || IsDelim(line[i]) then i else RunEnd(line, i + 1)
  }

  /** Reference definition of the tokens of line[i..], from left to right. */
  function TokensFrom(line: string, i: nat): (r: seq<Span>)
    requires i <= |line|
    ensures forall k :: 0 <= k < |r| ==> i <= r[k].start < r[k].stop <= |line|
    decreases |line| - i
  {
    if i == |line| then []
    else if IsDelim(line[i]) then TokensFrom(line, i + 1)
    else [Span(i, RunEnd(line, i))] + TokensFrom(line, RunEnd(line, i))
  }

  /** The tokens of a whole line. */
  function Tokens(line: string): seq<Span> {
    TokensFrom(line, 0)
  }

  /** The text of each span, in order. */
  function Texts(line: string, spans: seq<Span>): (r: seq<string>)
    requires forall k :: 0 <= k < |spans| ==> spans[k].start <= spans[k].stop <= |line|
    ensures |r| == |spans|
    ensures forall k :: 0 <= k < |r| ==> r[k] == line[spans[k].start..spans[k].stop]
  {
    if spans == [] then [] else [line[spans[0].start..spans[0].stop]] + Texts(line, spans[1..])
  }

  /** The words of a line, as the shell hands them to the dispatcher. */
  function Words(line: string): seq<string> {
    Texts(line, Tokens(line))
  }

  /** Whatever follows the first NUL of a line is never seen. */
  lemma CTextStopsAtNul(a: string, b: string)
    requires NUL !in a
    ensures CText(a + [NUL] + b) == a
  {
    var line := a + [NUL] + b;
    assert line[|a|] == NUL && a == line[..|a|];
  }

  /** The words lsh_execute receives for a line as read: those of its C string. */
  function CommandWords(line: string): seq<string> {
    Words(CText(line))
  }

  /** A maximal run of non-delimiters: non-empty, delimiter-free, and bounded on
      both sides by a delimiter or an end of the line. */
  ghost predicate IsMaximalRun(line: string, sp: Span) {
    && sp.start < sp.stop <= |line|
    && (forall j :: sp.start <= j < sp.stop ==> !IsDelim(line[j]))
    && (sp.start == 0 || IsDelim(line[sp.start - 1]))
    && (sp.stop == |line| || IsDelim(line[sp.stop]))
  }

  /** The tokens read from position i are maximal runs, each ending before the next
      begins. Position i must not split a run. */
  lemma {:induction false} TokensFromRuns(line: string, i: nat)
    requires i <= |line|
    requires i == 0 || i == |line| || IsDelim(line[i - 1]) || IsDelim(line[i])
    ensures forall k :: 0 <= k < |TokensFrom(line, i)| ==> IsMaximalRun(line, TokensFrom(line, i)[k])
    ensures forall k :: 0 <= k < |TokensFrom(line, i)| - 1 ==>
              TokensFrom(line, i)[k].stop < TokensFrom(line, i)[k + 1].start
    decreases |line| - i
  {
    if i == |line| {
    } else if IsDelim(line[i]) {
      TokensFromRuns(line, i + 1);
      assert TokensFrom(line, i) == TokensFrom(line, i + 1);
    } else {
      var e := RunEnd(line, i);
      var rest := TokensFrom(line, e);
      TokensFromRuns(line, e);
      var t := TokensFrom(line, i);
      assert t == [Span(i, e)] + rest;
      if e < |line| {
        assert rest == TokensFrom(line, e + 1);
      }
      assert IsMaximalRun(line, t[0]);
    }
  }

  /** Every non-delimiter from position i on lies inside one of the spans. */
  ghost predicate CoversFrom(line: string, i: nat, spans: seq<Span>) {
    forall j :: i <= j < |line| && !IsDelim(line[j]) ==>
      exists k :: 0 <= k < |spans| && spans[k].start <= j < spans[k].stop
  }

  /** Every non-delimiter from position i on lies inside a token read from i. */
  lemma {:induction false} TokensFromCover(line: string, i: nat)
    requires i <= |line|
    ensures CoversFrom(line, i, TokensFrom(line, i))
    decreases |line| - i
  {
    if i == |line| {
    } else if IsDelim(line[i]) {
      TokensFromCover(line, i + 1);
      assert TokensFrom(line, i) == TokensFrom(line, i + 1);
    } else {
      TokensFromCover(line, RunEnd(line, i));
      TokensFromCoverRun(line, i, RunEnd(line, i));
    }
  }

  /** The step of TokensFromCover over the run that starts at i and ends at e. */
  lemma TokensFromCoverRun(line: string, i: nat, e: nat)
    requires i < |line| && !IsDelim(line[i]) && e == RunEnd(line, i)
    requires CoversFrom(line, e, TokensFrom(line, e))
    ensures CoversFrom(line, i, TokensFrom(line, i))
  {
    var rest := TokensFrom(line, e);
    var t := TokensFrom(line, i);
    assert t == [Span(i, e)] + rest;
    forall j | i <= j < |line| && !IsDelim(line[j])
      ensures exists k :: 0 <= k < |t| && t[k].start <= j < t[k].stop
    {
      if j < e {
        assert t[0] == Span(i, e);
      } else {
        var k' :| 0 <= k' < |rest| && rest[k'].start <= j < rest[k'].stop;
        assert t[k' + 1] == rest[k'];
      }
    }
  }

  /** The tokens of a line are exactly its maximal runs of non-delimiters, in
      left-to-right order: each is a maximal run, each ends before the next begins,
      and every non-delimiter character lies inside one of them. */
  lemma TokensAreMaximalRuns(line: string)
    ensures forall k :: 0 <= k < |Tokens(line)| ==> IsMaximalRun(line, Tokens(line)[k])
    ensures forall k :: 0 <= k < |Tokens(line)| - 1 ==> Tokens(line)[k].stop < Tokens(line)[k + 1].start
    ensures forall j :: 0 <= j < |line| && !IsDelim(line[j]) ==>
              exists k :: 0 <= k < |Tokens(line)| && Tokens(line)[k].start <= j < Tokens(line)[k].stop
  {
    TokensFromRuns(line, 0);
    TokensFromCover(line, 0);
    assert Tokens(line) == TokensFrom(line, 0);
  }

  /** A word: non-empty and free of delimiters. */
  predicate IsWord(w: string) {
    |w| > 0 && forall c :: c in w ==> !IsDelim(c)
  }

  /** The text of a maximal run is a word. */
  lemma RunIsWord(line: string, sp: Span)
    requires IsMaximalRun(line, sp)
    ensures IsWord(line[sp.start..sp.stop])
  {
    var w := line[sp.start..sp.stop];
    forall c | c in w ensures !IsDelim(c) {
      var j :| 0 <= j < |w| && w[j] == c;
      assert line[sp.start + j] == c;
    }
  }

  /** No word is empty and no word contains a delimiter. */
  lemma WordsWellFormed(line: string)
    ensures forall k :: 0 <= k < |Words(line)| ==> IsWord(Words(line)[k])
  {
    TokensAreMaximalRuns(line);
    var ts := Tokens(line);
    forall k | 0 <= k < |Words(line)| ensures IsWord(Words(line)[k]) {
      assert Words(line)[k] == line[ts[k].start..ts[k].stop];
      RunIsWord(line, ts[k]);
    }
  }

  /** From a position where only delimiters follow, no token is found. */
  lemma {:induction false} BlankFromHasNoTokens(line: string, i: nat)
    requires i <= |line|
    requires forall j :: i <= j < |line| ==> IsDelim(line[j])
    ensures TokensFrom(line, i) == []
    decreases |line| - i
  {
    if i < |line| {
      BlankFromHasNoTokens(line, i + 1);
    }
  }

  /** A line has no tokens exactly when it is empty or made only of delimiters. */
  lemma NoTokensIffBlank(line: string)
    ensures Tokens(line) == [] <==> forall j :: 0 <= j < |line| ==> IsDelim(line[j])
  {
    TokensFromCover(line, 0);
    if forall j :: 0 <= j < |line| ==> IsDelim(line[j]) {
      BlankFromHasNoTokens(line, 0);
    }
  }

  /** Moves each span right by d positions. */
  function Shift(spans: seq<Span>, d: nat): (r: seq<Span>)
    ensures |r| == |spans|
    ensures forall k :: 0 <= k < |r| ==> r[k] == Span(spans[k].start + d, spans[k].stop + d)
  {
    if spans == [] then [] else [Span(spans[0].start + d, spans[0].stop + d)] + Shift(spans[1..], d)
  }

  lemma ShiftCons(x: Span, rest: seq<Span>, d: nat)
    ensures Shift([x] + rest, d) == [Span(x.start + d, x.stop + d)] + Shift(rest, d)
  {
    assert ([x] + rest)[1..] == rest;
  }

  lemma {:induction false} RunEndShift(p: string, s: string, j: nat)
    requires j <= |s|
    ensures RunEnd(p + s, |p| + j) == |p| + RunEnd(s, j)
    decreases |s| - j
  {
    if j < |s| {
      assert (p + s)[|p| + j] == s[j];
      if !IsDelim(s[j]) {
        RunEndShift(p, s, j + 1);
      }
    }
  }

  /** Tokenizing a line behind a prefix finds the same tokens, shifted. */
  lemma {:induction false} TokensFromShift(p: string, s: string, j: nat)
    requires j <= |s|
    ensures TokensFrom(p + s, |p| + j) == Shift(TokensFrom(s, j), |p|)
    decreases |s| - j
  {
    var line := p + s;
    if j < |s| {
      assert line[|p| + j] == s[j];
      if IsDelim(s[j]) {
        TokensFromShift(p, s, j + 1);
        assert TokensFrom(line, |p| + j) == TokensFrom(line, |p| + j + 1);
      } else {
        var e := RunEnd(s, j);
        RunEndShift(p, s, j);
        TokensFromShift(p, s, e);
        assert TokensFrom(line, |p| + j) == [Span(|p| + j, |p| + e)] + TokensFrom(line, |p| + e);
        var rest := TokensFrom(s, e);
        assert TokensFrom(s, j) == [Span(j, e)] + rest;
        ShiftCons(Span(j, e), rest, |p|);
      }
    }
  }

  /** Tokenizing `w sep rest`, where w is a non-empty word and sep one delimiter,
      yields w followed by the words of rest. */
  lemma WordsCons(w: string, sep: char, rest: string)
    requires IsWord(w)
    requires IsDelim(sep)
    ensures Words(w + [sep] + rest) == [w] + Words(rest)
  {
    var line := w + [sep] + rest;
    var p := w + [sep];
    assert line == p + rest;
    assert forall j :: 0 <= j < |w| ==> line[j] == w[j] && w[j] in w;
    assert RunEnd(line, 0) == |w| by {
      RunEndOfWord(line, w);
    }
    assert TokensFrom(line, |w|) == TokensFrom(line, |p|);
    TokensFromShift(p, rest, 0);
    assert Tokens(line) == [Span(0, |w|)] + Shift(Tokens(rest), |p|);
    TextsShift(p, rest, Tokens(rest));
    assert line[0..|w|] == w;
  }

  lemma {:induction false} RunEndOfWord(line: string, w: string)
    requires |w| < |line| && IsDelim(line[|w|])
    requires forall j :: 0 <= j < |w| ==> line[j] == w[j] && !IsDelim(w[j])
    ensures RunEnd(line, 0) == |w|
  {
    RunEndFrom(line, 0, |w|);
  }

  lemma {:induction false} RunEndFrom(line: string, i: nat, e: nat)
    requires i <= e <= |line| && (e == |line| || IsDelim(line[e]))
    requires forall j :: i <= j < e ==> !IsDelim(line[j])
    ensures RunEnd(line, i) == e
    decreases e - i
  {
    if i < e {
      RunEndFrom(line, i + 1, e);
    }
  }

  /** A single non-empty word with no delimiter is its own only token. */
  lemma WordsSingle(w: string)
    requires IsWord(w)
    ensures Words(w) == [w]
  {
    assert forall j :: 0 <= j < |w| ==> w[j] in w;
    RunEndFrom(w, 0, |w|);
    assert Tokens(w) == [Span(0, |w|)] + TokensFrom(w, |w|);
    assert w[0..|w|] == w;
  }

  lemma {:induction false} TextsShift(p: string, s: string, spans: seq<Span>)
    requires forall k :: 0 <= k < |spans| ==> spans[k].start <= spans[k].stop <= |s|
    ensures Texts(p + s, Shift(spans, |p|)) == Texts(s, spans)
  {
    var l := Texts(p + s, Shift(spans, |p|));
    var r := Texts(s, spans);
    assert |l| == |r|;
    forall k | 0 <= k < |spans| ensures l[k] == r[k] {
      TextsShiftAt(p, s, spans, k);
    }
  }

  lemma TextsShiftAt(p: string, s: string, spans: seq<Span>, k: nat)
    requires forall j :: 0 <= j < |spans| ==> spans[j].start <= spans[j].stop <= |s|
    requires k < |spans|
    ensures Texts(p + s, Shift(spans, |p|))[k] == Texts(s, spans)[k]
  {
    var a, b := spans[k].start, spans[k].stop;
    var shifted := Shift(spans, |p|);
    assert shifted[k] == Span(a + |p|, b + |p|);
    assert Texts(p + s, shifted)[k] == (p + s)[a + |p|..b + |p|];
    assert Texts(s, spans)[k] == s[a..b];
    SliceShift(p, s, a, b);
  }

  lemma SliceShift(p: string, s: string, a: nat, b: nat)
    requires a <= b <= |s|
    ensures (p + s)[a + |p|..b + |p|] == s[a..b]
  {
    assert forall i :: 0 <= i < b - a ==> (p + s)[a + |p|..b + |p|][i] == s[a..b][i];
  }

  /** The tokens still to come once strtok has returned `tok` and will resume at `next`. */
  ghost function Pending(line: string, tok: Slot, next: nat): seq<Span>
    requires next <= |line|
  {
    if tok.Token? then [tok.span] + TokensFrom(line, next) else []
  }

  /** One step of `strtok(..., LSH_TOK_DELIM)` resumed at position `from`: skip
      delimiters, then take the run that follows. `next` is where the following call
      resumes (past the delimiter that strtok overwrites with NUL). */
  method Strtok(line: string, from: nat) returns (tok: Slot, next: nat)
    requires from <= |line|
    ensures from <= next <= |line|
    ensures tok == Null ==> TokensFrom(line, from) == []
    ensures tok.Token? ==> next > from && TokensFrom(line, from) == [tok.span] + TokensFrom(line, next)
    ensures TokensFrom(line, from) == Pending(line, tok, next)
  {
    var i := from;
    while i < |line| && IsDelim(line[i])
      invariant from <= i <= |line|
      invariant TokensFrom(line, i) == TokensFrom(line, from)
    {
      i := i + 1;
    }
    if i == |line| {
      return Null, i;
    }
    var e := i;
    while e < |line| && !IsDelim(line[e])
      invariant i <= e <= |line|
      invariant RunEnd(line, e) == RunEnd(line, i)
    {
      e := e + 1;
    }
    tok := Token(Span(i, e));
    next := if e < |line| then e + 1 else e;
  }

  /** Fresh storage of n slots holding the first a.Length entries of a (realloc). */
  method Grow(a: array<Slot>, n: nat) returns (b: array<Slot>)
    requires a.Length <= n
    ensures fresh(b) && b.Length == n
    ensures b[..a.Length] == a[..]
  {
    b := new Slot[n](_ => Null);
    var k := 0;
    while k < a.Length
      invariant 0 <= k <= a.Length
      invariant b[..k] == a[..k]
    {
      b[k] := a[k];
      k := k + 1;
    }
  }

  /** Stores one token at `position` and, when the buffer is then full, grows it by
      TokBufSize slots, as the body of lsh_split_line's loop does. */
  method Store(tokens: array<Slot>, position: nat, tok: Slot, ghost spans: seq<Span>) returns (r: array<Slot>)
    requires position < tokens.Length && tokens.Length % TokBufSize == 0
    requires tokens.Length - TokBufSize <= position < |spans| && tok == Token(spans[position])
    requires forall k :: 0 <= k < position ==> tokens[k] == Token(spans[k])
    modifies tokens
    ensures r == tokens || fresh(r)
    ensures r.Length % TokBufSize == 0 && r.Length - TokBufSize <= position + 1 < r.Length
    ensures forall k :: 0 <= k <= position ==> r[k] == Token(spans[k])
  {
    tokens[position] := tok;
    r := tokens;
    if position + 1 >= tokens.Length {
      r := Grow(tokens, tokens.Length + TokBufSize);
    }
  }

  /** lsh_split_line: fills a token array that starts with TokBufSize slots and grows
      by TokBufSize whenever it is full, then writes the NULL sentinel. */
  method SplitLine(line: string) returns (tokens: array<Slot>, position: nat)
    requires NUL !in line
    ensures position == |Tokens(line)|
    ensures position < tokens.Length && tokens[position] == Null
    ensures forall k :: 0 <= k < position ==> tokens[k] == Token(Tokens(line)[k])
    ensures tokens.Length % TokBufSize == 0 && tokens.Length - TokBufSize <= position
  {
    position := 0;
    tokens := new Slot[TokBufSize](_ => Null);
    ghost var all := Tokens(line);
    var tok, next := Strtok(line, 0);
    while tok.Token?
      invariant fresh(tokens)
      invariant next <= |line| && position <= |all|
      invariant tokens.Length % TokBufSize == 0
      invariant tokens.Length - TokBufSize <= position < tokens.Length
      invariant forall k :: 0 <= k < position ==> tokens[k] == Token(all[k])
      invariant Pending(line, tok, next) == all[position..]
      decreases |all| - position
    {
      assert all[position] == tok.span && all[position + 1..] == TokensFrom(line, next) by {
        assert all[position..][0] == all[position];
        assert all[position..][1..] == all[position + 1..];
      }
      tokens := Store(tokens, position, tok, all);
      position := position + 1;
      tok, next := Strtok(line, next);
    }
    tokens[position] := Null;
  }
}
