/**
 The shell's two-level tokenizer.  `Lexer` is strtok with its hidden position: it writes
 NULs into the buffer and hands out positions in it.  `ParsePipeline` cuts a line at '|'
 and trims the pieces in place; `ParseCommand` cuts one of the pieces into words.
 */
module Tokenizer {

  const MAX_ARGS := 64
  const NUL: char := '\0'
  const SPACES: set<char> := {' '}
  const BLANKS: set<char> := {' ', '\t'}
  const BAR: set<char> := {'|'}

  // ----- what the tokens of a string are -----

  /** The first position from i on that holds no delimiter. */
  function Skip(s: string, i: nat, delims: set<char>): (k: nat)
    requires i <= |s|
    ensures i <= k <= |s| && (forall j :: i <= j < k ==> s[j] in delims) && (k < |s| ==> s[k] !in delims)
    decreases |s| - i
  {
    if i < |s| && s[i] in delims then Skip(s, i + 1, delims) else i
  }

  /** The first position from i on that holds a delimiter. */
  function Run(s: string, i: nat, delims: set<char>): (k: nat)
    requires i <= |s|
    ensures i <= k <= |s| && (forall j :: i <= j < k ==> s[j] !in delims) && (k < |s| ==> s[k] in delims)
    decreases |s| - i
  {
    if i < |s| && s[i] !in delims then Run(s, i + 1, delims) else i
  }

  function SkipDelims(s: string, delims: set<char>): (t: string)
    ensures |t| <= |s| && (t != [] ==> t[0] !in delims)
  {
    s[Skip(s, 0, delims)..]
  }

  /** The length of the longest prefix without delimiters. */
  function Span(s: string, delims: set<char>): (k: nat)
    ensures k <= |s|
  {
    Run(s, 0, delims)
  }

  /** What is left after the token at the start of `s` and the delimiter that ends it. */
  function AfterToken(s: string, delims: set<char>): string {
    var k := Span(s, delims);
    if k < |s| then s[k + 1..] else ""
  }

  /** The tokens strtok finds one after the other: the maximal runs without delimiters. */
  function Tokens(s: string, delims: set<char>): seq<string>
    decreases |s|
  {
    var t := SkipDelims(s, delims);
    if t == "" then []
    else [t[..Span(t, delims)]] + Tokens(AfterToken(t, delims), delims)
  }

  function TrimLeft(s: string): (t: string) {
    SkipDelims(s, SPACES)
  }

  /** The length of what remains of the first n characters without trailing spaces. */
  function Keep(s: string, n: nat): (k: nat)
    requires n <= |s|
    ensures k <= n && (k > 0 ==> s[k - 1] != ' ') && forall i :: k <= i < n ==> s[i] == ' '
  {
    if n > 0 && s[n - 1] == ' ' then Keep(s, n - 1) else n
  }

  function TrimRight(s: string): (t: string) {
    s[..Keep(s, |s|)]
  }

  function Trim(s: string): string {
    TrimRight(TrimLeft(s))
  }

  function Take<T>(s: seq<T>, n: nat): seq<T> {
    if |s| <= n then s else s[..n]
  }

  /** What parse_pipeline and parse_command should make of a line. */
  function Commands(line: string): seq<string> {
    TrimAll(Take(Tokens(line, BAR), MAX_ARGS))
  }

  function Args(command: string): seq<string> {
    Take(Tokens(command, BLANKS), MAX_ARGS - 1)
  }

  // ----- strings in memory -----

  /** The C string at position `at` of a buffer is `s`. */
  ghost predicate StringAt(buf: seq<char>, at: int, s: string) {
    && 0 <= at && at + |s| < |buf| && buf[at + |s|] == NUL
    && forall i :: 0 <= i < |s| ==> buf[at + i] == s[i] && s[i] != NUL
  }

  lemma SuffixAt(buf: seq<char>, at: int, s: string, k: nat)
    requires StringAt(buf, at, s) && k <= |s|
    ensures StringAt(buf, at + k, s[k..])
  {
    forall i | 0 <= i < |s[k..]|
      ensures buf[at + k + i] == s[k..][i] && s[k..][i] != NUL
    {
      assert s[k..][i] == s[k + i];
    }
  }

  lemma CutAt(buf: seq<char>, at: int, s: string, k: nat)
    requires StringAt(buf, at, s) && k < |s|
    ensures StringAt(buf[at + k := NUL], at, s[..k])
    ensures StringAt(buf[at + k := NUL], at + k + 1, s[k + 1..])
  {
    SuffixAt(buf, at, s, k + 1);
  }

  lemma SkipIs(s: string, delims: set<char>, k: nat)
    requires k <= |s| && (forall i :: 0 <= i < k ==> s[i] in delims) && (k < |s| ==> s[k] !in delims)
    ensures SkipDelims(s, delims) == s[k..]
  {
  }

  /** strspn: the first position from `at` on that holds no delimiter. */
  method Strspn(buf: array<char>, at: int, delims: set<char>, ghost rest: string) returns (s: int)
    requires NUL !in delims && StringAt(buf[..], at, rest)
    ensures at <= s <= at + |rest| && (forall i :: 0 <= i < s - at ==> rest[i] in delims)
    ensures s < at + |rest| ==> rest[s - at] !in delims
    ensures buf[s] == NUL <==> s == at + |rest|
  {
    s := at;
    while buf[s] in delims
      invariant at <= s <= at + |rest|
      invariant forall i :: 0 <= i < s - at ==> rest[i] in delims
      decreases at + |rest| - s
    {
      assert s < at + |rest| ==> buf[s] == rest[s - at];
      s := s + 1;
    }
    assert s < at + |rest| ==> buf[s] == rest[s - at];
  }

  method SkipFrom(buf: array<char>, at: int, delims: set<char>, ghost rest: string) returns (s: int)
    requires NUL !in delims && StringAt(buf[..], at, rest)
    ensures s == at + |rest| - |SkipDelims(rest, delims)|
    ensures s < buf.Length && (buf[s] == NUL <==> SkipDelims(rest, delims) == "")
    ensures StringAt(buf[..], s, SkipDelims(rest, delims))
  {
    s := Strspn(buf, at, delims, rest);
    SkipIs(rest, delims, s - at);
    SuffixAt(buf[..], at, rest, s - at);
  }

  /** strtok and the position it remembers between calls. */
  class Lexer {
    const buf: array<char>
    var saved: int

    constructor (buf: array<char>)
      ensures this.buf == buf
    {
      this.buf := buf;
      saved := 0;
    }

    /** strcspn: the end of the run without delimiters that starts at `at`. */
    method SpanFrom(at: int, delims: set<char>, ghost t: string) returns (s: int)
      requires NUL !in delims && StringAt(buf[..], at, t)
      ensures s == at + Span(t, delims)
      ensures buf[s] == NUL <==> Span(t, delims) == |t|
    {
      s := at;
      while buf[s] != NUL && buf[s] !in delims
        invariant at <= s <= at + |t|
        invariant forall i :: 0 <= i < s - at ==> t[i] !in delims
        decreases at + |t| - s
      {
        assert s < at + |t| ==> buf[s] == t[s - at];
        s := s + 1;
      }
      assert s < at + |t| ==> buf[s] == t[s - at];
    }

    /** The second half of strtok: ends the token that starts at `token`. */
    method CutToken(token: int, delims: set<char>, ghost t: string)
      requires NUL !in delims && StringAt(buf[..], token, t)
      modifies this`saved, buf
      ensures token + Span(t, delims) <= saved <= token + |t|
      ensures StringAt(buf[..], token, t[..Span(t, delims)])
      ensures StringAt(buf[..], saved, AfterToken(t, delims))
      ensures forall i :: 0 <= i < buf.Length && !(token <= i < saved) ==> buf[i] == old(buf[i])
    {
      ghost var was := buf[..];
      var s := SpanFrom(token, delims, t);
      if buf[s] == NUL {
        assert t[..|t|] == t;
        saved := s;
      } else {
        CutAt(was, token, t, s - token);
        buf[s] := NUL;
        assert buf[..] == was[s := NUL];
        saved := s + 1;
      }
    }

    /** strtok(buf + start, delims), or strtok(NULL, delims) when `start` is -1.  `rest` is the
        string it looks at; the next call will look at what follows the token. */
    method Strtok(start: int, delims: set<char>, ghost rest: string) returns (token: int)
      requires NUL !in delims
      requires StringAt(buf[..], if start == -1 then saved else start, rest)
      modifies this`saved, buf
      ensures var from, t := if start == -1 then old(saved) else start, SkipDelims(rest, delims);
        if t == "" then token == -1 && buf[..] == old(buf[..])
        else
          && from <= token == from + |rest| - |t|
          && token + Span(t, delims) <= saved <= from + |rest|
          && StringAt(buf[..], token, t[..Span(t, delims)])
          && StringAt(buf[..], saved, AfterToken(t, delims))
          && forall i :: 0 <= i < buf.Length && !(token <= i < saved) ==> buf[i] == old(buf[i])
    {
      var s := if start == -1 then saved else start;
      ghost var from, t := s, SkipDelims(rest, delims);
      s := SkipFrom(buf, s, delims, rest);
      if buf[s] == NUL {
        saved := s;
        return -1;
      }
      token := s;
      CutToken(token, delims, t);
    }
  }

  // ----- the two parsers -----

  /** What a change outside it leaves of a string. */
  lemma KeptString(before: seq<char>, after: seq<char>, at: int, s: string)
    requires StringAt(before, at, s) && |after| == |before|
    requires forall i :: at <= i <= at + |s| ==> after[i] == before[i]
    ensures StringAt(after, at, s)
  {
  }

  /** The trimming loops in `parse_pipeline`. */
  method TrimInPlace(buf: array<char>, token: int, ghost x: string) returns (trimmed: int)
    requires StringAt(buf[..], token, x)
    modifies buf
    ensures token <= trimmed && trimmed + |Trim(x)| <= token + |x|
    ensures StringAt(buf[..], trimmed, Trim(x))
    ensures forall i :: 0 <= i < buf.Length && !(token <= i < token + |x|) ==> buf[i] == old(buf[i])
  {
    trimmed := SkipFrom(buf, token, SPACES, x);
    TrimEnd(buf, trimmed, TrimLeft(x));
  }

  method Strlen(buf: array<char>, at: int, ghost s: string) returns (n: nat)
    requires StringAt(buf[..], at, s)
    ensures n == |s|
  {
    n := 0;
    while buf[at + n] != NUL
      invariant n <= |s| && (n < |s| ==> buf[at + n] == s[n] != NUL)
      decreases |s| - n
    {
      n := n + 1;
    }
  }

  method TrimEnd(buf: array<char>, token: int, ghost y: string)
    requires StringAt(buf[..], token, y) && (y != "" ==> y[0] != ' ')
    modifies buf
    ensures StringAt(buf[..], token, TrimRight(y))
    ensures forall i :: 0 <= i < buf.Length && !(token <= i < token + |y|) ==> buf[i] == old(buf[i])
  {
    var length := Strlen(buf, token, y);
    var end := token + length - 1;
    while end > token && buf[end] == ' '
      invariant token - 1 <= end < token + |y| && (y != "" ==> token <= end)
      invariant forall i :: end - token < i < |y| ==> y[i] == ' '
    {
      assert buf[end] == y[end - token];
      end := end - 1;
    }
    assert y != "" ==> buf[end] == y[end - token];
    buf[end + 1] := NUL;
  }

  /** The strings handed out so far, all ending before `limit`. */
  ghost predicate HandedOut(buf: seq<char>, at: seq<int>, strings: seq<string>, limit: int) {
    && |at| == |strings|
    && forall k :: 0 <= k < |at| ==> StringAt(buf, at[k], strings[k]) && at[k] + |strings[k]| < limit
  }

  lemma KeptStrings(before: seq<char>, after: seq<char>, at: seq<int>, strings: seq<string>, limit: int)
    requires HandedOut(before, at, strings, limit) && |after| == |before|
    requires forall i :: 0 <= i < |before| && i < limit ==> after[i] == before[i]
    ensures HandedOut(after, at, strings, limit)
  {
    forall k | 0 <= k < |at|
      ensures StringAt(after, at[k], strings[k])
    {
      KeptString(before, after, at[k], strings[k]);
    }
  }

  /** Strings that end at a position where another one begins end before it. */
  lemma EndsBefore(buf: seq<char>, at: seq<int>, strings: seq<string>, saved: int, rest: string)
    requires HandedOut(buf, at, strings, saved + 1) && StringAt(buf, saved, rest) && rest != ""
    ensures HandedOut(buf, at, strings, saved)
  {
    assert buf[saved + 0] == rest[0];
  }

  /** Nothing is left, or a token stands at the start. */
  predicate StartsToken(t: string, delims: set<char>) {
    t != "" ==> t[0] !in delims
  }

  /** The loops of the two parsers between two calls of strtok: `token` is the position of
      the token at the start of `t`, or -1 when nothing is left. */
  ghost predicate AtToken(buf: seq<char>, saved: int, token: int, t: string, delims: set<char>) {
    && (token == -1 <==> t == "") && StartsToken(t, delims)
    && (token != -1 ==>
         && 0 <= token && token + Span(t, delims) <= saved < |buf|
         && StringAt(buf, token, t[..Span(t, delims)])
         && StringAt(buf, saved, AfterToken(t, delims)))
  }

  lemma NothingToSkip(t: string, delims: set<char>)
    requires StartsToken(t, delims)
    ensures SkipDelims(t, delims) == t
  {
  }

  ghost function Limit(buf: seq<char>, token: int): int {
    if token == -1 then |buf| else token
  }

  /** strtok(string, delims). */
  method FirstToken(lexer: Lexer, start: int, delims: set<char>, ghost s: string) returns (token: int)
    requires NUL !in delims && start != -1 && StringAt(lexer.buf[..], start, s)
    modifies lexer`saved, lexer.buf
    ensures AtToken(lexer.buf[..], lexer.saved, token, SkipDelims(s, delims), delims)
  {
    token := lexer.Strtok(start, delims, s);
  }

  /** strtok(NULL, delims) keeps what was handed out before. */
  method NextToken(lexer: Lexer, delims: set<char>, ghost at: seq<int>, ghost strings: seq<string>, ghost rest: string)
    returns (token: int)
    requires NUL !in delims && StringAt(lexer.buf[..], lexer.saved, rest)
    requires HandedOut(lexer.buf[..], at, strings, lexer.saved + 1)
    modifies lexer`saved, lexer.buf
    ensures AtToken(lexer.buf[..], lexer.saved, token, SkipDelims(rest, delims), delims)
    ensures HandedOut(lexer.buf[..], at, strings, Limit(lexer.buf[..], token))
  {
    ghost var before, saved, t := lexer.buf[..], lexer.saved, SkipDelims(rest, delims);
    if rest != "" {
      EndsBefore(before, at, strings, saved, rest);
    }
    token := lexer.Strtok(-1, delims, rest);
    KeptStrings(before, lexer.buf[..], at, strings, if token == -1 then saved + 1 else saved);
  }

  /** The token at the start of `t`, and where the token after it starts. */
  function First(t: string, delims: set<char>): string {
    t[..Span(t, delims)]
  }

  function Later(t: string, delims: set<char>): string {
    SkipDelims(AfterToken(t, delims), delims)
  }

  lemma TokensSkip(s: string, delims: set<char>)
    ensures Tokens(s, delims) == Tokens(SkipDelims(s, delims), delims)
  {
    NothingToSkip(SkipDelims(s, delims), delims);
    hide SkipDelims, Span, AfterToken;
  }

  lemma TokensHead(t: string, delims: set<char>)
    requires t != "" && StartsToken(t, delims)
    ensures Tokens(t, delims) == [First(t, delims)] + Tokens(AfterToken(t, delims), delims)
  {
    NothingToSkip(t, delims);
    hide SkipDelims, AfterToken;
  }

  lemma LaterIsShorter(t: string, delims: set<char>)
    requires t != ""
    ensures |Later(t, delims)| < |t|
  {
  }

  lemma MoveOver<T>(done: seq<T>, x: T, rest: seq<T>)
    ensures done + ([x] + rest) == done + [x] + rest
  {
  }

  lemma TokensFrom(done: seq<string>, t: string, delims: set<char>)
    requires t != "" && StartsToken(t, delims)
    ensures |Later(t, delims)| < |t|
    ensures done + Tokens(t, delims) == done + [First(t, delims)] + Tokens(Later(t, delims), delims)
  {
    LaterIsShorter(t, delims);
    TokensHead(t, delims);
    TokensSkip(AfterToken(t, delims), delims);
    MoveOver(done, First(t, delims), Tokens(Later(t, delims), delims));
  }

  /** Where the loops stop, what they have done is what they should: everything, or as much
      as there is room for. */
  lemma TakenIsDone<T>(done: seq<T>, rest: seq<T>, max: nat)
    requires |done| <= max && (rest == [] || |done| >= max)
    ensures Take(done + rest, max) == done
  {
  }

  /** Trimming the token in place keeps the string after it and what was handed out before. */
  method HandOutTrimmed(lexer: Lexer, token: int, ghost at: seq<int>, ghost names: seq<string>,
                         ghost x: string, ghost rest: string)
    returns (command: int)
    requires StringAt(lexer.buf[..], token, x) && StringAt(lexer.buf[..], lexer.saved, rest)
    requires token + |x| <= lexer.saved && HandedOut(lexer.buf[..], at, names, token)
    modifies lexer.buf
    ensures StringAt(lexer.buf[..], lexer.saved, rest)
    ensures HandedOut(lexer.buf[..], at + [command], names + [Trim(x)], lexer.saved + 1)
  {
    ghost var before := lexer.buf[..];
    command := TrimInPlace(lexer.buf, token, x);
    KeptStrings(before, lexer.buf[..], at, names, token);
    KeptString(before, lexer.buf[..], lexer.saved, rest);
  }

  /** The loop of `parse_pipeline` for the string s: the fields done, and the text t after them. */
  ghost predicate CommandState(buf: seq<char>, saved: int, token: int, s: string, done: seq<string>, t: string,
                               commands: seq<int>)
  {
    && Tokens(s, BAR) == done + Tokens(t, BAR)
    && AtToken(buf, saved, token, t, BAR)
    && HandedOut(buf, commands, TrimAll(done), Limit(buf, token))
  }

  /** One round of the loop of `parse_pipeline`: trim the token, hand it out, find the next. */
  method OneCommand(lexer: Lexer, token: int, commands: seq<int>, ghost s: string,
                    ghost done: seq<string>, ghost t: string)
    returns (more: seq<int>, next: int, ghost done': seq<string>, ghost t': string)
    requires token != -1 && CommandState(lexer.buf[..], lexer.saved, token, s, done, t, commands)
    modifies lexer`saved, lexer.buf
    ensures |more| == |commands| + 1 && |t'| < |t|
    ensures CommandState(lexer.buf[..], lexer.saved, next, s, done', t', more)
  {
    ghost var x, rest := First(t, BAR), AfterToken(t, BAR);
    done', t' := done + [x], Later(t, BAR);
    var command := HandOutTrimmed(lexer, token, commands, TrimAll(done), x, rest);
    more := commands + [command];
    ghost var names := TrimAll(done + [x]);
    assert names == TrimAll(done) + [Trim(x)];
    next := NextToken(lexer, BAR, more, names, rest);
    TokensFrom(done, t, BAR);
  }

  lemma CommandsDone(buf: seq<char>, saved: int, token: int, s: string, done: seq<string>, t: string,
                     commands: seq<int>)
    requires CommandState(buf, saved, token, s, done, t, commands)
    requires |commands| <= MAX_ARGS && (token == -1 || |commands| == MAX_ARGS)
    ensures HandedOut(buf, commands, TrimAll(Take(Tokens(s, BAR), MAX_ARGS)), |buf|)
  {
    TakenIsDone(done, Tokens(t, BAR), MAX_ARGS);
  }

  lemma CommandsStart(buf: seq<char>, saved: int, token: int, line: string)
    requires AtToken(buf, saved, token, SkipDelims(line, BAR), BAR)
    ensures CommandState(buf, saved, token, SkipDelims(line, BAR), [], SkipDelims(line, BAR), [])
    ensures Tokens(SkipDelims(line, BAR), BAR) == Tokens(line, BAR)
  {
    hide AtToken, Tokens, SkipDelims, StringAt;
    TokensSkip(line, BAR);
  }

  /** `parse_pipeline`: the positions of the trimmed commands, all NUL-terminated in place. */
  method ParsePipeline(lexer: Lexer, ghost line: string) returns (commands: seq<int>)
    requires StringAt(lexer.buf[..], 0, line)
    modifies lexer`saved, lexer.buf
    ensures HandedOut(lexer.buf[..], commands, Commands(line), lexer.buf.Length)
  {
    hide AtToken, CommandState, Tokens, SkipDelims, StringAt, HandedOut, TrimAll;
    commands := [];
    var token := FirstToken(lexer, 0, BAR, line);
    ghost var s := SkipDelims(line, BAR);
    ghost var done: seq<string>, t := [], s;
    CommandsStart(lexer.buf[..], lexer.saved, token, line);
    while token != -1 && |commands| < MAX_ARGS
      invariant |commands| <= MAX_ARGS
      invariant CommandState(lexer.buf[..], lexer.saved, token, s, done, t, commands)
      decreases |t|
    {
      commands, token, done, t := OneCommand(lexer, token, commands, s, done, t);
    }
    CommandsDone(lexer.buf[..], lexer.saved, token, s, done, t, commands);
  }

  /** The loop of `parse_command` for the string s: the words done, and the text t after them. */
  ghost predicate WordState(buf: seq<char>, saved: int, token: int, s: string, done: seq<string>, t: string,
                            args: seq<int>)
  {
    && Tokens(s, BLANKS) == done + Tokens(t, BLANKS)
    && AtToken(buf, saved, token, t, BLANKS)
    && HandedOut(buf, args, done, Limit(buf, token))
  }

  lemma HandOutToken(buf: seq<char>, saved: int, token: int, t: string, at: seq<int>, names: seq<string>)
    requires token != -1 && AtToken(buf, saved, token, t, BLANKS) && HandedOut(buf, at, names, token)
    ensures HandedOut(buf, at + [token], names + [First(t, BLANKS)], saved + 1)
  {
    hide SkipDelims, Span, AfterToken;
  }

  /** One round of the loop of `parse_command`: hand out the token, find the next. */
  method OneWord(lexer: Lexer, token: int, args: seq<int>, ghost s: string, ghost done: seq<string>, ghost t: string)
    returns (more: seq<int>, next: int, ghost done': seq<string>, ghost t': string)
    requires token != -1 && WordState(lexer.buf[..], lexer.saved, token, s, done, t, args)
    modifies lexer`saved, lexer.buf
    ensures |more| == |args| + 1 && |t'| < |t|
    ensures WordState(lexer.buf[..], lexer.saved, next, s, done', t', more)
  {
    hide StringAt, HandedOut, Tokens;
    done', t', more := done + [First(t, BLANKS)], Later(t, BLANKS), args + [token];
    HandOutToken(lexer.buf[..], lexer.saved, token, t, args, done);
    next := NextToken(lexer, BLANKS, more, done', AfterToken(t, BLANKS));
    TokensFrom(done, t, BLANKS);
  }

  lemma WordsDone(buf: seq<char>, saved: int, token: int, s: string, done: seq<string>, t: string, args: seq<int>)
    requires WordState(buf, saved, token, s, done, t, args)
    requires |args| <= MAX_ARGS - 1 && (token == -1 || |args| == MAX_ARGS - 1)
    ensures HandedOut(buf, args, Take(Tokens(s, BLANKS), MAX_ARGS - 1), |buf|)
  {
    TakenIsDone(done, Tokens(t, BLANKS), MAX_ARGS - 1);
  }

  lemma WordsStart(buf: seq<char>, saved: int, token: int, s: string)
    requires AtToken(buf, saved, token, SkipDelims(s, BLANKS), BLANKS)
    ensures WordState(buf, saved, token, SkipDelims(s, BLANKS), [], SkipDelims(s, BLANKS), [])
    ensures Tokens(SkipDelims(s, BLANKS), BLANKS) == Tokens(s, BLANKS)
  {
    hide AtToken, Tokens, SkipDelims, StringAt;
    TokensSkip(s, BLANKS);
  }

  /** `parse_command`: the positions of the words, all NUL-terminated in place. */
  method ParseCommand(lexer: Lexer, cmd: int, ghost command: string) returns (args: seq<int>)
    requires cmd != -1 && StringAt(lexer.buf[..], cmd, command)
    modifies lexer`saved, lexer.buf
    ensures HandedOut(lexer.buf[..], args, Args(command), lexer.buf.Length)
  {
    hide AtToken, WordState, Tokens, SkipDelims, StringAt, HandedOut;
    args := [];
    var token := FirstToken(lexer, cmd, BLANKS, command);
    ghost var s := SkipDelims(command, BLANKS);
    ghost var done: seq<string>, t := [], s;
    WordsStart(lexer.buf[..], lexer.saved, token, command);
    while token != -1 && |args| < MAX_ARGS - 1
      invariant |args| <= MAX_ARGS - 1
      invariant WordState(lexer.buf[..], lexer.saved, token, s, done, t, args)
      decreases |t|
    {
      args, token, done, t := OneWord(lexer, token, args, s, done, t);
    }
    WordsDone(lexer.buf[..], lexer.saved, token, s, done, t, args);
  }

  function TrimAll(fields: seq<string>): (r: seq<string>)
    ensures |r| == |fields|
  {
    seq(|fields|, i requires 0 <= i < |fields| => Trim(fields[i]))
  }

  // ----- parsing undoes writing -----

  /** A word as the shell's user can write it. */
  predicate IsWord(w: string) {
    w != "" && forall i :: 0 <= i < |w| ==> w[i] !in BLANKS && w[i] !in BAR && w[i] != NUL
  }

  predicate IsCommand(ws: seq<string>) {
    ws != [] && forall i :: 0 <= i < |ws| ==> IsWord(ws[i])
  }

  predicate IsGap(g: string, delims: set<char>) {
    forall i :: 0 <= i < |g| ==> g[i] in delims
  }

  /** Spaces and tabs before, between and after n words: at least one between any two. */
  predicate AreGaps(gaps: seq<string>, n: nat) {
    && |gaps| == n + 1
    && (forall i :: 0 <= i < |gaps| ==> IsGap(gaps[i], {' ', '\t'}))
    && (forall i :: 0 < i < n ==> gaps[i] != "")
  }

  /** The words of a command with the gaps around them. */
  function Spaced(ws: seq<string>, gaps: seq<string>): string
    requires |gaps| == |ws| + 1
  {
    if ws == [] then gaps[0] else gaps[0] + ws[0] + Spaced(ws[1..], gaps[1..])
  }

  /** The commands of a pipeline with bars between them. */
  function Barred(fields: seq<string>): string {
    if fields == [] then "" else if |fields| == 1 then fields[0] else fields[0] + "|" + Barred(fields[1..])
  }

  lemma SkipGap(g: string, s: string, delims: set<char>)
    requires IsGap(g, delims)
    ensures Tokens(g + s, delims) == Tokens(s, delims)
  {
    hide Tokens;
    var k := |g| + Skip(s, 0, delims);
    assert forall i :: 0 <= i < k ==> (g + s)[i] in delims;
    SkipIs(g + s, delims, k);
    assert (g + s)[k..] == SkipDelims(s, delims);
    TokensSkip(g + s, delims);
    TokensSkip(s, delims);
  }

  lemma SpanIs(s: string, delims: set<char>, k: nat)
    requires 0 < k <= |s| && (forall i :: 0 <= i < k ==> s[i] !in delims) && (k < |s| ==> s[k] in delims)
    ensures Span(s, delims) == k && SkipDelims(s, delims) == s
  {
  }

  /** A word at the start of a string is its first token; what follows gives the others. */
  lemma TokenThen(w: string, rest: string, delims: set<char>)
    requires w != "" && (forall i :: 0 <= i < |w| ==> w[i] !in delims) && (rest != "" ==> rest[0] in delims)
    ensures Tokens(w + rest, delims) == [w] + Tokens(rest, delims)
  {
    hide Tokens, Span, SkipDelims;
    var s := w + rest;
    SpanIs(s, delims, |w|);
    TokensHead(s, delims);
    assert s[..|w|] == w;
    if rest != "" {
      assert s[|w| + 1..] == rest[1..] && rest == [rest[0]] + rest[1..];
      SkipGap([rest[0]], rest[1..], delims);
    }
  }

  lemma NoTokens(g: string, delims: set<char>)
    requires IsGap(g, delims)
    ensures Tokens(g, delims) == []
  {
    SkipGap(g, "", delims);
    assert g + "" == g;
  }

  lemma {:induction false} TokensOfSpaced(ws: seq<string>, gaps: seq<string>)
    requires AreGaps(gaps, |ws|) && forall i :: 0 <= i < |ws| ==> IsWord(ws[i])
    ensures Tokens(Spaced(ws, gaps), BLANKS) == ws
  {
    hide Tokens;
    assert IsGap(gaps[0], BLANKS);
    if ws == [] {
      NoTokens(gaps[0], BLANKS);
    } else {
      var rest := Spaced(ws[1..], gaps[1..]);
      assert IsWord(ws[0]);
      GapFirst(ws[1..], gaps[1..]);
      TokensOfSpaced(ws[1..], gaps[1..]);
      TokenThen(ws[0], rest, BLANKS);
      SkipGap(gaps[0], ws[0] + rest, BLANKS);
      assert gaps[0] + ws[0] + rest == gaps[0] + (ws[0] + rest);
    }
  }

  /** What is written after a word starts with a blank, if there is anything. */
  lemma GapFirst(ws: seq<string>, gaps: seq<string>)
    requires |gaps| == |ws| + 1 && IsGap(gaps[0], BLANKS) && (ws != [] ==> gaps[0] != "")
    ensures Spaced(ws, gaps) != "" ==> Spaced(ws, gaps)[0] in BLANKS
  {
  }

  lemma {:induction false} TokensBeforeGap(s: string, g: string, delims: set<char>)
    requires IsGap(g, delims)
    ensures Tokens(s + g, delims) == Tokens(s, delims)
    decreases |s|
  {
    hide Tokens, Skip, Run;
    var k := Skip(s, 0, delims);
    var t := s[k..];
    assert s == s[..k] + t && s + g == s[..k] + (t + g);
    SkipGap(s[..k], t, delims);
    SkipGap(s[..k], t + g, delims);
    if t == "" {
      NoTokens(g, delims);
      NoTokens("", delims);
      assert t + g == g;
    } else {
      var j := Run(t, 0, delims);
      TokenThen(t[..j], t[j..], delims);
      TokenThen(t[..j], t[j..] + g, delims);
      assert t == t[..j] + t[j..] && t + g == t[..j] + (t[j..] + g);
      TokensBeforeGap(t[j..], g, delims);
    }
  }

  /** Trimming spaces does not change the words. */
  lemma WordsOfTrimmed(x: string)
    ensures Tokens(Trim(x), BLANKS) == Tokens(x, BLANKS)
  {
    hide Tokens, Skip, Keep;
    var k := Skip(x, 0, SPACES);
    var y := TrimLeft(x);
    assert x == x[..k] + y;
    SkipGap(x[..k], y, BLANKS);
    var z := TrimRight(y);
    assert y == z + y[|z|..];
    TokensBeforeGap(z, y[|z|..], BLANKS);
  }

  lemma {:induction false} TokensOfBarred(fields: seq<string>)
    requires forall i :: 0 <= i < |fields| ==>
      fields[i] != "" && forall k :: 0 <= k < |fields[i]| ==> fields[i][k] !in BAR
    ensures Tokens(Barred(fields), BAR) == fields
  {
    hide Tokens;
    if fields == [] {
      NoTokens("", BAR);
    } else if |fields| == 1 {
      TokenThen(fields[0], "", BAR);
      NoTokens("", BAR);
      assert fields[0] + "" == fields[0];
    } else {
      var rest := Barred(fields[1..]);
      TokensOfBarred(fields[1..]);
      SkipGap("|", rest, BAR);
      TokenThen(fields[0], "|" + rest, BAR);
      assert fields[0] + "|" + rest == fields[0] + ("|" + rest);
    }
  }

  lemma {:induction false} SpacedHasNoBar(ws: seq<string>, gaps: seq<string>)
    requires AreGaps(gaps, |ws|) && forall i :: 0 <= i < |ws| ==> IsWord(ws[i])
    ensures forall k :: 0 <= k < |Spaced(ws, gaps)| ==> Spaced(ws, gaps)[k] !in BAR
    ensures ws != [] ==> Spaced(ws, gaps) != ""
  {
    assert IsGap(gaps[0], BLANKS);
    if ws != [] {
      assert IsWord(ws[0]);
      SpacedHasNoBar(ws[1..], gaps[1..]);
    }
  }

  /** The commands of a pipeline as its user has written them. */
  function Fields(cs: seq<seq<string>>, gaps: seq<seq<string>>): (r: seq<string>)
    requires |gaps| == |cs| && forall i :: 0 <= i < |cs| ==> |gaps[i]| == |cs[i]| + 1
    ensures |r| == |cs|
  {
    seq(|cs|, i requires 0 <= i < |cs| => Spaced(cs[i], gaps[i]))
  }

  ghost predicate Writable(cs: seq<seq<string>>, gaps: seq<seq<string>>) {
    && |gaps| == |cs| <= 64
    && forall i :: 0 <= i < |cs| ==> IsCommand(cs[i]) && |cs[i]| <= 63 && AreGaps(gaps[i], |cs[i]|)
  }

  /** The two-level parse gives back exactly the words of every pipeline of at most 64 commands
      of at most 63 words each, however many spaces and tabs stand around the words. */
  lemma ParseUndoesWriting(cs: seq<seq<string>>, gaps: seq<seq<string>>)
    requires Writable(cs, gaps)
    ensures |Commands(Barred(Fields(cs, gaps)))| == |cs|
    ensures forall i :: 0 <= i < |cs| ==> Args(Commands(Barred(Fields(cs, gaps)))[i]) == cs[i]
  {
    hide Tokens, Trim, Spaced;
    var fields := Fields(cs, gaps);
    forall i | 0 <= i < |cs|
      ensures fields[i] != "" && forall k :: 0 <= k < |fields[i]| ==> fields[i][k] !in BAR
      ensures Tokens(Trim(fields[i]), BLANKS) == cs[i]
    {
      SpacedHasNoBar(cs[i], gaps[i]);
      WordsOfTrimmed(fields[i]);
      TokensOfSpaced(cs[i], gaps[i]);
    }
    TokensOfBarred(fields);
  }
}
