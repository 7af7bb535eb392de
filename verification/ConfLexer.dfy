/**
 nginx's configuration tokenizer as a byte machine over a whole file, and the
 unescaping of its words. Windows and buffers come in ConfFile.
 */
module ConfLexer {

  const LF := '\n'

  predicate IsSpace(c: char) { c == ' ' || c == '\t' || c == '\r' || c == '\n' }

  /** How a call ends: the three codes of the caller's loop, end of file, or an error and its kind. */
  datatype Result = Ok | BlockStart | BlockDone | FileDone | Unexpected(ch: char) | UnexpectedEnd | TooLong

  datatype Outcome = More | Done(result: Result)

  /**
   The flags of the scan, the words found, the raw bytes since `start`, the line counter, and the line on which
   `start` lies.
   */
  datatype Lexer = Lexer(
    needSpace: bool, lastSpace: bool, comment: bool, variable: bool, quoted: bool, sQuoted: bool, dQuoted: bool,
    args: seq<seq<char>>, raw: seq<char>, line: nat, startLine: nat)

  function Fresh(line: nat): Lexer { Lexer(false, true, false, false, false, false, false, [], [], line, line) }

  // ---------------------------------------------------------------- unescaping

  predicate IsEscapable(c: char) { c == '"' || c == '\'' || c == '\\' || c == 't' || c == 'r' || c == 'n' }

  function Escaped(c: char): char {
    if c == 't' then '\t' else if c == 'r' then '\r' else if c == 'n' then '\n' else c
  }

  /** The bytes of a word: six escapes are resolved, any other backslash stays. */
  function Unescape(s: seq<char>): seq<char> {
    if s == [] then []
    else if s[0] == '\\' && |s| >= 2 && IsEscapable(s[1]) then [Escaped(s[1])] + Unescape(s[2..])
    else [s[0]] + Unescape(s[1..])
  }

  /** Every backslash has a partner: the raw text of a finished word, as the scan leaves it. */
  predicate Paired(s: seq<char>) {
    s == [] || (if s[0] == '\\' then |s| >= 2 && Paired(s[2..]) else Paired(s[1..]))
  }

  lemma {:induction false} PairedSnoc(s: seq<char>, c: char)
    requires Paired(s)
    ensures c != '\\' ==> Paired(s + [c])
    ensures Paired(s + ['\\', c])
  {
    if s == [] {
      assert ['\\', c][2..] == [];
      assert s + [c] == [c] && s + ['\\', c] == ['\\', c];
    } else {
      var k := if s[0] == '\\' then 2 else 1;
      PairedSnoc(s[k..], c);
      assert (s + [c])[k..] == s[k..] + [c] && (s + ['\\', c])[k..] == s[k..] + ['\\', c];
    }
  }

  // ---------------------------------------------------------------- one byte

  /** A byte at the start of a word. */
  function WordStart(x: Lexer, ch: char): (Lexer, Outcome) {
    var y := x.(raw := [ch], startLine := x.line);
    if IsSpace(ch) then (y, More)
    else if ch == ';' || ch == '{' then
      (y, Done(if x.args == [] then Unexpected(ch) else if ch == '{' then BlockStart else Ok))
    else if ch == '}' then (y, Done(if x.args != [] then Unexpected(ch) else BlockDone))
    else if ch == '#' then (y.(comment := true), More)
    else if ch == '\\' then (y.(quoted := true, lastSpace := false), More)
    else if ch == '"' then (y.(raw := [], dQuoted := true, lastSpace := false), More)
    else if ch == '\'' then (y.(raw := [], sQuoted := true, lastSpace := false), More)
    else if ch == '$' then (y.(variable := true, lastSpace := false), More)
    else (y.(lastSpace := false), More)
  }

  /** A byte inside a word; `x.raw` are the bytes of the word before it. */
  function WordByte(x: Lexer, ch: char): (Lexer, Outcome) {
    var y := x.(raw := x.raw + [ch]);
    if ch == '{' && x.variable then (y, More)
    else if ch == '\\' then (y.(variable := false, quoted := true), More)
    else if ch == '$' then (y.(variable := true), More)
    else
      var z := y.(variable := false);
      var word := x.args + [Unescape(x.raw)];
      if x.dQuoted then (if ch == '"' then z.(dQuoted := false, needSpace := true, args := word) else z, More)
      else if x.sQuoted then (if ch == '\'' then z.(sQuoted := false, needSpace := true, args := word) else z, More)
      else if IsSpace(ch) then (z.(lastSpace := true, args := word), More)
      else if ch == ';' then (z.(lastSpace := true, args := word), Done(Ok))
      else if ch == '{' then (z.(lastSpace := true, args := word), Done(BlockStart))
      else (z, More)
  }

  /** One byte of `ngx_conf_read_token`. */
  function Step(x0: Lexer, ch: char): (Lexer, Outcome) {
    var x := if ch == LF then x0.(line := x0.line + 1, comment := false) else x0;
    var y := x.(raw := x.raw + [ch]);
    if x.comment then (y, More)
    else if x.quoted then (y.(quoted := false), More)
    else if x.needSpace then
      if IsSpace(ch) then (y.(lastSpace := true, needSpace := false), More)
      else if ch == ';' then (y, Done(Ok))
      else if ch == '{' then (y, Done(BlockStart))
      else if ch == ')' then WordStart(x.(lastSpace := true, needSpace := false), ch)
      else (y, Done(Unexpected(ch)))
    else if x.lastSpace then WordStart(x, ch)
    else WordByte(x, ch)
  }

  // ---------------------------------------------------------------- a whole call

  /** Where a call stands: the lexer, how it ended, the next byte of the file. */
  datatype Scan = Scan(x: Lexer, result: Result, pos: nat)

  function AtEnd(x: Lexer): Result { if x.args != [] || !x.lastSpace then UnexpectedEnd else FileDone }

  /** Lexing the file in memory from `pos` on. */
  function Lex(x: Lexer, file: seq<char>, pos: nat): Scan
    requires pos <= |file|
    decreases |file| - pos
  {
    if pos == |file| then Scan(x, AtEnd(x), pos)
    else
      match Step(x, file[pos])
      case (y, More) => Lex(y, file, pos + 1)
      case (y, Done(r)) => Scan(y, r, pos + 1)
  }

  /** The same with room for `cap` raw bytes: a longer run is reported as too long, on the line where it began. */
  function LexIn(cap: nat, x: Lexer, file: seq<char>, pos: nat): Scan
    requires pos <= |file|
    decreases |file| - pos
  {
    if pos == |file| then Scan(x, AtEnd(x), pos)
    else if |x.raw| == cap then Scan(x.(line := x.startLine), TooLong, pos)
    else
      match Step(x, file[pos])
      case (y, More) => LexIn(cap, y, file, pos + 1)
      case (y, Done(r)) => Scan(y, r, pos + 1)
  }

  /** One byte of a bounded call, and its three other endings. */
  lemma LexInOn(cap: nat, x: Lexer, file: seq<char>, pos: nat)
    requires pos <= |file|
    ensures pos == |file| ==> LexIn(cap, x, file, pos) == Scan(x, AtEnd(x), pos)
    ensures pos < |file| && |x.raw| == cap ==> LexIn(cap, x, file, pos) == Scan(x.(line := x.startLine), TooLong, pos)
    ensures pos < |file| && |x.raw| != cap ==>
              var (y, o) := Step(x, file[pos]);
              LexIn(cap, x, file, pos)
              == if o.More? then LexIn(cap, y, file, pos + 1) else Scan(y, o.result, pos + 1)
  {
    hide Step;
  }

  lemma StepNeverTooLong(x: Lexer, ch: char)
    ensures Step(x, ch).1 != Done(TooLong)
  {
  }

  /** Bounded and unbounded lexing agree unless the bound is reported. */
  lemma {:induction false} BoundedAgrees(cap: nat, x: Lexer, file: seq<char>, pos: nat)
    requires pos <= |file|
    ensures LexIn(cap, x, file, pos).result != TooLong ==> LexIn(cap, x, file, pos) == Lex(x, file, pos)
    ensures Lex(x, file, pos).result != TooLong
    decreases |file| - pos
  {
    hide Step;
    if pos < |file| {
      StepNeverTooLong(x, file[pos]);
      var (y, o) := Step(x, file[pos]);
      if o.More? { BoundedAgrees(cap, y, file, pos + 1); }
    }
  }

  /** The lexer after the bytes [pos, n), or where the call ended before that. */
  function After(x: Lexer, file: seq<char>, pos: nat, n: nat): (Lexer, Outcome)
    requires pos <= n <= |file|
    decreases n
  {
    if n == pos then (x, More)
    else
      var (y, o) := After(x, file, pos, n - 1);
      if o.More? then Step(y, file[n - 1]) else (y, o)
  }

  lemma {:induction false} AfterFirst(x: Lexer, file: seq<char>, pos: nat, n: nat)
    requires pos < n <= |file|
    ensures var (y, o) := Step(x, file[pos]);
            After(x, file, pos, n) == if o.More? then After(y, file, pos + 1, n) else (y, o)
    decreases n
  {
    hide Step;
    if n == pos + 1 {
      assert After(x, file, pos, pos) == (x, More);
    } else {
      AfterFirst(x, file, pos, n - 1);
    }
  }

  /** Before some byte of the file the raw bytes since the last start number exactly `cap`. */
  ghost predicate FillsUp(cap: nat, x: Lexer, file: seq<char>, pos: nat)
    requires pos <= |file|
  {
    exists n: nat | pos <= n < |file| :: After(x, file, pos, n).1.More? && |After(x, file, pos, n).0.raw| == cap
  }

  /** The bound is reported exactly when a word, quoted string or comment fills it before the file ends. */
  lemma {:induction false} TooLongIff(cap: nat, x: Lexer, file: seq<char>, pos: nat)
    requires pos <= |file|
    ensures LexIn(cap, x, file, pos).result == TooLong <==> FillsUp(cap, x, file, pos)
    decreases |file| - pos
  {
    hide Step;
    if pos == |file| { return; }
    assert After(x, file, pos, pos) == (x, More);
    if |x.raw| == cap { return; }
    StepNeverTooLong(x, file[pos]);
    var (y, o) := Step(x, file[pos]);
    forall n: nat | pos < n < |file|
      ensures After(x, file, pos, n) == if o.More? then After(y, file, pos + 1, n) else (y, o)
    {
      AfterFirst(x, file, pos, n);
    }
    if o.More? {
      TooLongIff(cap, y, file, pos + 1);
      if FillsUp(cap, y, file, pos + 1) {
        var n: nat :| pos + 1 <= n < |file|
                      && After(y, file, pos + 1, n).1.More? && |After(y, file, pos + 1, n).0.raw| == cap;
        assert After(x, file, pos, n).1.More?;
      }
    }
  }

  lemma StartRaw(x: Lexer, ch: char)
    ensures |WordStart(x, ch).0.raw| <= 1
  {
    hide IsSpace;
  }

  lemma ByteRaw(x: Lexer, ch: char)
    ensures |WordByte(x, ch).0.raw| == |x.raw| + 1
  {
    hide Unescape;
  }

  lemma RawGrows(x: Lexer, ch: char)
    ensures |Step(x, ch).0.raw| <= |x.raw| + 1
  {
    hide WordStart, WordByte;
    var y := if ch == LF then x.(line := x.line + 1, comment := false) else x;
    StartRaw(y, ch);
    StartRaw(y.(lastSpace := true, needSpace := false), ch);
    ByteRaw(y, ch);
  }

  /** A file no longer than the window never fills it. */
  lemma {:induction false} ShortFile(cap: nat, x: Lexer, file: seq<char>, pos: nat)
    requires pos <= |file| && |x.raw| + (|file| - pos) <= cap
    ensures LexIn(cap, x, file, pos).result != TooLong
    decreases |file| - pos
  {
    hide Step;
    if pos < |file| {
      StepNeverTooLong(x, file[pos]);
      RawGrows(x, file[pos]);
      var (y, o) := Step(x, file[pos]);
      if o.More? { ShortFile(cap, y, file, pos + 1); }
    }
  }

  /** A comment in a file of its own is pending from its '#' on. */
  lemma {:induction false} CommentPends(body: seq<char>, line: nat, n: nat)
    requires LF !in body && 1 <= n <= 1 + |body|
    ensures var (x, o) := After(Fresh(line), ['#'] + body, 0, n);
            o.More? && x.comment && x.raw == (['#'] + body)[..n]
    decreases n
  {
    hide Step;
    var file := ['#'] + body;
    assert file[..n] == file[..n - 1] + [file[n - 1]];
    if n == 1 {
      CommentBegins(line);
      assert After(Fresh(line), file, 0, 0) == (Fresh(line), More);
    } else {
      CommentPends(body, line, n - 1);
      assert file[n - 1] == body[n - 2];
      CommentByte(After(Fresh(line), file, 0, n - 1).0, file[n - 1]);
    }
  }

  lemma CommentBegins(line: nat)
    ensures var (x, o) := Step(Fresh(line), '#'); o.More? && x.comment && x.raw == ['#']
  {
  }

  lemma CommentByte(x: Lexer, ch: char)
    requires x.comment && ch != LF
    ensures Step(x, ch) == (x.(raw := x.raw + [ch]), More)
  {
  }

  /** A comment that the end of the file does not end in time is reported as a too long parameter. */
  lemma CommentTooLong(cap: nat, body: seq<char>, line: nat)
    requires LF !in body && cap >= 1
    ensures LexIn(cap, Fresh(line), ['#'] + body, 0).result == TooLong <==> 1 + |body| > cap
  {
    hide Step;
    var file := ['#'] + body;
    if 1 + |body| > cap {
      CommentPends(body, line, cap);
      TooLongIff(cap, Fresh(line), file, 0);
    } else {
      ShortFile(cap, Fresh(line), file, 0);
    }
  }

  // ---------------------------------------------------------------- what the scan keeps

  /** Inside a word the raw bytes pair up: a backslash is never the last byte, unless it waits for its partner. */
  predicate WordOk(x: Lexer) {
    !x.needSpace && !x.lastSpace ==>
      !x.comment
      && if x.quoted then x.raw != [] && x.raw[|x.raw| - 1] == '\\' && Paired(x.raw[..|x.raw| - 1]) else Paired(x.raw)
  }

  predicate LexerOk(x: Lexer) {
    WordOk(x) && (x.quoted ==> !x.needSpace && !x.lastSpace) && !(x.needSpace && x.lastSpace)
    && (x.comment ==> x.lastSpace)
  }

  lemma FreshOk(line: nat)
    ensures LexerOk(Fresh(line))
  {
  }

  lemma StartOk(x: Lexer, ch: char)
    requires LexerOk(x) && x.lastSpace && !x.comment
    ensures LexerOk(WordStart(x, ch).0)
  {
    assert Paired([]);
    PairedSnoc([], ch);
    assert [] + [ch] == [ch] && [ch][..0] == [];
  }

  lemma ByteOk(x: Lexer, ch: char)
    requires LexerOk(x) && !x.needSpace && !x.lastSpace && !x.quoted
    ensures LexerOk(WordByte(x, ch).0)
  {
    hide Unescape;
    PairedSnoc(x.raw, ch);
    assert (x.raw + [ch])[..|x.raw|] == x.raw;
  }

  lemma QuotedOk(x: Lexer, ch: char)
    requires LexerOk(x) && x.quoted
    ensures Paired(x.raw + [ch])
  {
    var p := x.raw[..|x.raw| - 1];
    PairedSnoc(p, ch);
    assert x.raw + [ch] == p + ['\\', ch];
  }

  /** Every byte keeps the pairing. */
  lemma StepOk(x0: Lexer, ch: char)
    requires LexerOk(x0)
    ensures LexerOk(Step(x0, ch).0)
  {
    hide WordStart, WordByte, Paired;
    var x := if ch == LF then x0.(line := x0.line + 1, comment := false) else x0;
    if x.comment {
    } else if x.quoted {
      QuotedOk(x, ch);
    } else if x.needSpace {
      if ch == ')' { StartOk(x.(lastSpace := true, needSpace := false), ch); }
    } else if x.lastSpace {
      StartOk(x, ch);
    } else {
      ByteOk(x, ch);
    }
  }

  // ---------------------------------------------------------------- quoting

  /** A string as an administrator would write it: double quote and backslash get a backslash. */
  function Escape(s: seq<char>): seq<char> { if s == [] then [] else EscapeByte(s[0]) + Escape(s[1..]) }

  function EscapeByte(c: char): seq<char> { if c == '"' || c == '\\' then ['\\', c] else [c] }

  function Quote(s: seq<char>): seq<char> { ['"'] + Escape(s) + ['"'] }

  /** The directive with these words, each quoted. */
  function Directive(words: seq<seq<char>>): seq<char>
    requires words != []
  {
    Quote(words[0]) + (if |words| == 1 then [';'] else [' '] + Directive(words[1..]))
  }

  lemma {:induction false} UnescapeEscape(s: seq<char>)
    ensures Unescape(Escape(s)) == s
  {
    if s != [] {
      UnescapeEscape(s[1..]);
      var e := Escape(s);
      if s[0] == '"' || s[0] == '\\' {
        assert e[0] == '\\' && e[1] == s[0] && e[2..] == Escape(s[1..]);
      } else {
        assert e[0] == s[0] && e[1..] == Escape(s[1..]);
      }
    }
  }

  function Newline(c: char): nat { if c == LF then 1 else 0 }

  function Newlines(s: seq<char>): nat { if s == [] then 0 else Newline(s[0]) + Newlines(s[1..]) }

  predicate InQuotes(x: Lexer) {
    x.dQuoted && !x.sQuoted && !x.quoted && !x.needSpace && !x.lastSpace && !x.comment
  }

  /** The lexer inside double quotes after the raw bytes of `s`. */
  predicate Grown(x: Lexer, y: Lexer, raw: seq<char>, lines: nat) {
    InQuotes(y) && y.args == x.args && y.raw == x.raw + raw && y.line == x.line + lines
  }

  /** One escaped byte inside quotes. */
  lemma QuotedByte(x: Lexer, c: char)
    requires InQuotes(x)
    ensures c != '"' && c != '\\' ==>
              Step(x, c).1.More? && Grown(x, Step(x, c).0, [c], Newline(c))
    ensures c == '"' || c == '\\' ==>
              Step(x, '\\').1.More?
              && var y := Step(x, '\\').0;
                 Step(y, c).1.More? && Grown(x, Step(y, c).0, ['\\', c], Newline(c))
  {
    assert x.raw + ['\\'] + [c] == x.raw + ['\\', c];
  }

  lemma LexOne(x: Lexer, file: seq<char>, pos: nat, ch: char)
    requires pos < |file| && file[pos] == ch && Step(x, ch).1.More?
    ensures Lex(x, file, pos) == Lex(Step(x, ch).0, file, pos + 1)
  {
    hide Step;
  }

  lemma LexEscapedByte(x: Lexer, c: char, file: seq<char>, pos: nat) returns (z: Lexer)
    requires InQuotes(x) && pos + |EscapeByte(c)| <= |file| && file[pos..pos + |EscapeByte(c)|] == EscapeByte(c)
    ensures Grown(x, z, EscapeByte(c), Newline(c)) && Lex(x, file, pos) == Lex(z, file, pos + |EscapeByte(c)|)
  {
    hide Step, Lex;
    QuotedByte(x, c);
    if c == '"' || c == '\\' {
      assert file[pos..pos + 2][0] == '\\' && file[pos..pos + 2][1] == c;
      LexOne(x, file, pos, '\\');
      LexOne(Step(x, '\\').0, file, pos + 1, c);
      z := Step(Step(x, '\\').0, c).0;
    } else {
      assert file[pos..pos + 1][0] == c;
      LexOne(x, file, pos, c);
      z := Step(x, c).0;
    }
  }

  /** The escaped string inside quotes is passed whole, whatever follows it. */
  lemma {:induction false} LexEscaped(x: Lexer, s: seq<char>, file: seq<char>, pos: nat) returns (y: Lexer)
    requires InQuotes(x) && pos + |Escape(s)| <= |file| && file[pos..pos + |Escape(s)|] == Escape(s)
    ensures Grown(x, y, Escape(s), Newlines(s)) && Lex(x, file, pos) == Lex(y, file, pos + |Escape(s)|)
    decreases s
  {
    hide Step, Lex, EscapeByte, InQuotes;
    if s == [] {
      assert x.raw + [] == x.raw;
      return x;
    }
    var e, rest := EscapeByte(s[0]), Escape(s[1..]);
    var k := |e|;
    assert Escape(s) == e + rest;
    assert file[pos..pos + k] == file[pos..pos + |Escape(s)|][..k] == e;
    assert file[pos + k..pos + k + |rest|] == file[pos..pos + |Escape(s)|][k..] == rest;
    var z := LexEscapedByte(x, s[0], file, pos);
    y := LexEscaped(z, s[1..], file, pos + k);
    assert x.raw + e + rest == x.raw + (e + rest);
  }

  /** The lexer at the start of a word after other words. */
  predicate AtWord(x: Lexer) {
    x.lastSpace && !x.needSpace && !x.comment && !x.quoted && !x.sQuoted && !x.dQuoted && !x.variable
  }

  /** The closing quote ends the word. */
  lemma CloseQuote(x: Lexer)
    requires InQuotes(x)
    ensures Step(x, '"').1.More?
    ensures var y := Step(x, '"').0;
            y.needSpace && !y.lastSpace && !y.comment && !y.quoted && !y.sQuoted && !y.dQuoted && !y.variable
            && y.args == x.args + [Unescape(x.raw)] && y.line == x.line
  {
    hide Unescape;
  }

  lemma AfterQuote(y: Lexer)
    requires y.needSpace && !y.lastSpace && !y.comment && !y.quoted && !y.sQuoted && !y.dQuoted && !y.variable
    ensures Step(y, ';').1 == Done(Ok) && Step(y, ';').0.args == y.args && Step(y, ';').0.line == y.line
    ensures Step(y, ' ').1.More? && AtWord(Step(y, ' ').0) && Step(y, ' ').0.args == y.args
    ensures Step(y, ' ').0.line == y.line
  {
  }

  lemma OpenQuote(x: Lexer)
    requires AtWord(x)
    ensures Step(x, '"').1.More?
    ensures var y := Step(x, '"').0; InQuotes(y) && y.raw == [] && y.args == x.args && y.line == x.line
  {
  }

  function AllNewlines(words: seq<seq<char>>): nat {
    if words == [] then 0 else Newlines(words[0]) + AllNewlines(words[1..])
  }

  /** One quoted word. */
  lemma LexQuoted(x: Lexer, s: seq<char>, file: seq<char>, pos: nat) returns (y: Lexer)
    requires AtWord(x) && pos + |Quote(s)| <= |file| && file[pos..pos + |Quote(s)|] == Quote(s)
    ensures y.needSpace && !y.lastSpace && !y.comment && !y.quoted && !y.sQuoted && !y.dQuoted && !y.variable
    ensures y.args == x.args + [s] && y.line == x.line + Newlines(s)
    ensures Lex(x, file, pos) == Lex(y, file, pos + |Quote(s)|)
  {
    hide Step, Lex, Escape, Unescape;
    var e, q := Escape(s), Quote(s);
    assert forall i | 0 <= i < |q| :: file[pos + i] == q[i];
    assert q[1..1 + |e|] == e && file[pos + 1..pos + 1 + |e|] == e;
    OpenQuote(x);
    var a := Step(x, '"').0;
    LexOne(x, file, pos, '"');
    var b := LexEscaped(a, s, file, pos + 1);
    assert [] + e == e;
    UnescapeEscape(s);
    CloseQuote(b);
    y := Step(b, '"').0;
    assert file[pos + 1 + |e|] == q[1 + |e|] == '"';
    LexOne(b, file, pos + 1 + |e|, '"');
  }

  lemma {:induction false} LexDirective(x: Lexer, words: seq<seq<char>>, file: seq<char>, pos: nat)
    requires words != [] && AtWord(x) && pos + |Directive(words)| == |file| && file[pos..] == Directive(words)
    ensures var r := Lex(x, file, pos);
            r.result == Ok && r.x.args == x.args + words && r.pos == |file| && r.x.line == x.line + AllNewlines(words)
    decreases words
  {
    hide Step, Quote;
    var q, d := Quote(words[0]), Directive(words);
    assert d[..|q|] == q;
    assert forall i | 0 <= i < |d| :: file[pos + i] == d[i];
    assert file[pos..pos + |q|] == q;
    var y := LexQuoted(x, words[0], file, pos);
    AfterQuote(y);
    assert file[pos + |q|] == d[|q|];
    assert AllNewlines(words) == Newlines(words[0]) + AllNewlines(words[1..]);
    if |words| == 1 {
      assert words == [words[0]] && words[1..] == [];
    } else {
      var rest := Directive(words[1..]);
      assert d == q + ([' '] + rest) && d[|q| + 1..] == rest;
      assert file[pos + |q| + 1..] == rest;
      LexDirective(Step(y, ' ').0, words[1..], file, pos + |q| + 1);
      assert x.args + [words[0]] + words[1..] == x.args + words by { assert words == [words[0]] + words[1..]; }
    }
  }

  /** Quote round trip: any non-empty list of strings, quoted, comes back as exactly those strings. */
  lemma QuoteRoundTrip(words: seq<seq<char>>, line: nat)
    requires words != []
    ensures var r := Lex(Fresh(line), Directive(words), 0);
            r.result == Ok && r.x.args == words && r.pos == |Directive(words)| && r.x.line == line + AllNewlines(words)
  {
    hide Step;
    var file := Directive(words);
    assert file[0..] == file;
    LexDirective(Fresh(line), words, file, 0);
  }

  /** The same through a window that the directive fits in. */
  lemma QuoteThroughWindow(cap: nat, words: seq<seq<char>>, line: nat)
    requires words != [] && |Directive(words)| <= cap
    ensures var r := LexIn(cap, Fresh(line), Directive(words), 0);
            r.result == Ok && r.x.args == words && r.pos == |Directive(words)|
  {
    hide Step, Lex, LexIn, Directive;
    QuoteRoundTrip(words, line);
    ShortFile(cap, Fresh(line), Directive(words), 0);
    BoundedAgrees(cap, Fresh(line), Directive(words), 0);
  }

  // ---------------------------------------------------------------- all calls on one file

  /** What the caller sees of one call. */
  datatype Token = Token(result: Result, args: seq<seq<char>>, line: nat)

  predicate GoesOn(r: Result) { r.Ok? || r.BlockStart? || r.BlockDone? }

  function TokenOf(s: Scan): Token { Token(s.result, s.x.args, s.x.line) }

  /** A call that ends with a token has consumed at least one byte. */
  lemma {:induction false} LexAdvances(cap: nat, x: Lexer, file: seq<char>, pos: nat)
    requires pos <= |file|
    ensures var r := LexIn(cap, x, file, pos); pos <= r.pos <= |file| && (GoesOn(r.result) ==> pos < r.pos)
    ensures var r := Lex(x, file, pos); pos <= r.pos <= |file| && (GoesOn(r.result) ==> pos < r.pos)
    decreases |file| - pos
  {
    hide Step;
    if pos < |file| {
      var (y, o) := Step(x, file[pos]);
      if o.More? { LexAdvances(cap, y, file, pos + 1); }
    }
  }

  /** The tokens of successive calls through a window of `cap` bytes, up to the end of the file or an error. */
  function TokensIn(cap: nat, file: seq<char>, pos: nat, line: nat): (t: seq<Token>)
    requires pos <= |file|
    ensures t != []
    decreases |file| - pos
  {
    LexAdvances(cap, Fresh(line), file, pos);
    var r := LexIn(cap, Fresh(line), file, pos);
    [TokenOf(r)] + (if GoesOn(r.result) then TokensIn(cap, file, r.pos, r.x.line) else [])
  }

  /** The tokens of the file in memory. */
  function Tokens(file: seq<char>, pos: nat, line: nat): (t: seq<Token>)
    requires pos <= |file|
    ensures t != []
    decreases |file| - pos
  {
    LexAdvances(0, Fresh(line), file, pos);
    var r := Lex(Fresh(line), file, pos);
    [TokenOf(r)] + (if GoesOn(r.result) then Tokens(file, r.pos, r.x.line) else [])
  }

  /**
   Return codes, words and line numbers are those of the file in memory, unless the window is reported too small; then
   they are so up to that report.
   */
  lemma {:induction false} WindowIsInvisible(cap: nat, file: seq<char>, pos: nat, line: nat)
    requires pos <= |file|
    ensures var t := TokensIn(cap, file, pos, line);
            var m := Tokens(file, pos, line);
            (t[|t| - 1].result != TooLong ==> t == m) && t[..|t| - 1] <= m
    decreases |file| - pos
  {
    hide Lex, LexIn;
    BoundedAgrees(cap, Fresh(line), file, pos);
    LexAdvances(cap, Fresh(line), file, pos);
    var r := LexIn(cap, Fresh(line), file, pos);
    if GoesOn(r.result) {
      WindowIsInvisible(cap, file, r.pos, r.x.line);
    }
  }
}
