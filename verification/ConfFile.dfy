/**
 Reading tokens through the sliding window of `ngx_conf_read_token`.
 */
module ConfFile {
  import opened ConfLexer

  const NGX_CONF_BUFFER: nat := 4096

  lemma {:induction false} UnescapeShort(s: seq<char>)
    ensures |Unescape(s)| <= |s|
  {
    if s != [] {
      if s[0] == '\\' && |s| >= 2 && IsEscapable(s[1]) { UnescapeShort(s[2..]); } else { UnescapeShort(s[1..]); }
    }
  }

  /** What one turn of the unescape loop takes from the rest of a word. */
  lemma UnescapeOne(s: seq<char>)
    requires s != [] && Paired(s)
    ensures s[0] == '\\' ==> |s| >= 2
    ensures var k := if s[0] == '\\' && IsEscapable(s[1]) then 2 else 1;
            Paired(s[k..]) && Unescape(s) == [if k == 2 then Escaped(s[1]) else s[0]] + Unescape(s[k..])
  {
    if s[0] == '\\' && !IsEscapable(s[1]) {
      assert s[1..][0] == s[1] && s[1..][1..] == s[2..];
    }
  }

  /** One turn of the unescape loop: the byte to write and where to read on. */
  method UnescapeByte(buf: array<char>, src: nat, end: nat) returns (c: char, next: nat)
    requires src < end <= buf.Length && Paired(buf[src..end])
    ensures src < next <= end && Paired(buf[next..end])
    ensures Unescape(buf[src..end]) == [c] + Unescape(buf[next..end])
  {
    UnescapeOne(buf[src..end]);
    assert buf[src..end][0] == buf[src];
    if buf[src] == '\\' {
      assert buf[src..end][1] == buf[src + 1] && buf[src..end][2..] == buf[src + 2..end];
    }
    assert buf[src..end][1..] == buf[src + 1..end];
    if buf[src] == '\\' {
      if buf[src + 1] == '"' || buf[src + 1] == '\'' || buf[src + 1] == '\\' { return buf[src + 1], src + 2; }
      if buf[src + 1] == 't' { return '\t', src + 2; }
      if buf[src + 1] == 'r' { return '\r', src + 2; }
      if buf[src + 1] == 'n' { return '\n', src + 2; }
    }
    return buf[src], src + 1;
  }

  /**
   The unescape loop on the bytes [start, end) of the buffer: the word is written into a block of one byte more than
   the raw text, with a final zero. The byte after a backslash is always one of the word's own.
   */
  method UnescapeWord(buf: array<char>, start: nat, end: nat) returns (data: array<char>, len: nat)
    requires start <= end <= buf.Length && Paired(buf[start..end])
    ensures fresh(data) && data.Length == end - start + 1 && len < data.Length
    ensures data[..len] == Unescape(buf[start..end]) && data[len] == '\0'
  {
    hide Unescape, Paired;
    data := new char[end - start + 1](_ => '\0');
    len := 0;
    var src := start;
    while src < end
      modifies data
      invariant start <= src <= end && len <= src - start
      invariant Paired(buf[src..end]) && Unescape(buf[start..end]) == data[..len] + Unescape(buf[src..end])
    {
      ghost var done, raw := data[..len], buf[..];
      var c, next := UnescapeByte(buf, src, end);
      ghost var rest := Unescape(buf[next..end]);
      assert done + ([c] + rest) == done + [c] + rest;
      data[len] := c;
      assert buf[..] == raw;
      src := next;
      len := len + 1;
      assert data[..len] == done + [c];
    }
    assert buf[src..end] == [];
    data[len] := '\0';
    NothingLeft();
  }

  lemma NothingLeft()
    ensures Unescape([]) == []
  {
  }

  /** The bytes from `start` on of a window that ends at `offset`. */
  lemma Slices(buf: seq<char>, file: seq<char>, last: nat, offset: nat, start: nat)
    requires start <= last <= |buf| && last <= offset <= |file| && buf[..last] == file[offset - last..offset]
    ensures buf[start..last] == file[offset - (last - start)..offset]
  {
    assert buf[start..last] == buf[..last][start..];
  }

  lemma Joined(file: seq<char>, offset: nat, len: nat, size: nat)
    requires len <= offset && offset + size <= |file|
    ensures file[offset - len..offset + size] == file[offset - len..offset] + file[offset..offset + size]
    ensures file[..offset + size] == file[..offset] + file[offset..offset + size]
  {
  }

  /** The flags of the scan. */
  datatype Flags = Flags(needSpace: bool, lastSpace: bool, comment: bool, variable: bool, quoted: bool, sQuoted: bool,
                         dQuoted: bool)

  /** The lexer that the variables of the scan stand for. */
  function Standing(f: Flags, args: seq<seq<char>>, raw: seq<char>, line: nat, startLine: nat): Lexer {
    Lexer(f.needSpace, f.lastSpace, f.comment, f.variable, f.quoted, f.sQuoted, f.dQuoted, args, raw, line, startLine)
  }

  /** The switch on a byte at the start of a word; `quote` says that the word starts behind it. */
  method Opening(f0: Flags, args: seq<seq<char>>, ch: char, ghost x: Lexer)
    returns (f: Flags, quote: bool, stop: Outcome)
    requires x == Standing(f0, args, x.raw, x.line, x.startLine)
    ensures WordStart(x, ch) == (Standing(f, args, if quote then [] else [ch], x.line, x.line), stop)
  {
    hide IsSpace;
    f, quote, stop := f0, false, More;
    if IsSpace(ch) { return; }
    if ch == ';' || ch == '{' {
      stop := Done(if args == [] then Unexpected(ch) else if ch == '{' then BlockStart else Ok);
    } else if ch == '}' {
      stop := Done(if args != [] then Unexpected(ch) else BlockDone);
    } else {
      f, quote := OpeningWord(f0, args, ch, x);
    }
  }

  /** The part of the switch for a byte that begins a comment or a word. */
  method OpeningWord(f0: Flags, args: seq<seq<char>>, ch: char, ghost x: Lexer) returns (f: Flags, quote: bool)
    requires x == Standing(f0, args, x.raw, x.line, x.startLine)
    requires !IsSpace(ch) && ch != ';' && ch != '{' && ch != '}'
    ensures WordStart(x, ch) == (Standing(f, args, if quote then [] else [ch], x.line, x.line), More)
  {
    hide IsSpace;
    f, quote := f0, false;
    if ch == '#' {
      f := f.(comment := true);
    } else if ch == '\\' {
      f := f.(quoted := true, lastSpace := false);
    } else if ch == '"' {
      quote, f := true, f.(dQuoted := true, lastSpace := false);
    } else if ch == '\'' {
      quote, f := true, f.(sQuoted := true, lastSpace := false);
    } else if ch == '$' {
      f := f.(variable := true, lastSpace := false);
    } else {
      f := f.(lastSpace := false);
    }
  }

  /** The buffer, file and dump of `cf->conf_file`. */
  class Window {
    const file: seq<char>
    const buf: array<char>
    var pos: nat
    var last: nat
    var offset: nat
    var line: nat
    var dump: seq<char>

    /** The buffer holds the bytes of the file up to `offset`; the dump holds all bytes read so far. */
    ghost predicate Held()
      requires last <= buf.Length && last <= offset <= |file|
      reads `last, `offset, `dump, buf
    {
      buf[..last] == file[offset - last..offset] && dump == file[..offset]
    }

    ghost predicate Valid()
      reads `pos, `last, `offset, `dump, buf
    {
      buf.Length == NGX_CONF_BUFFER && pos <= last <= buf.Length && last <= offset <= |file| && Held()
    }

    /** Offset in the file of the next byte to scan. */
    ghost function At(): (r: nat)
      requires last <= offset
      reads `pos, `last, `offset
    {
      offset - last + pos
    }

    constructor (file: seq<char>)
      ensures Valid() && this.file == file && At() == 0 && line == 1 && fresh(buf)
    {
      this.file := file;
      buf := new char[NGX_CONF_BUFFER](_ => '\0');
      pos, last, offset, line, dump := 0, 0, 0, 1, [];
    }

    /** `ngx_memmove` of the pending bytes to the front of the buffer. */
    method MoveDown(start: nat, len: nat)
      requires start + len <= buf.Length
      modifies buf
      ensures buf[..len] == old(buf[start..start + len])
    {
      forall k | 0 <= k < len { buf[k] := buf[start + k]; }
    }

    /** `ngx_read_file`: `size` bytes of the file, from `offset` on, behind the first `len` of the buffer. */
    method ReadFile(len: nat, size: nat)
      requires len + size <= buf.Length && offset + size <= |file|
      modifies buf
      ensures buf[..len] == old(buf[..len]) && buf[len..len + size] == file[offset..offset + size]
    {
      forall k | 0 <= k < size { buf[len + k] := file[offset + k]; }
    }

    /** Both, one after the other. */
    method Load(start: nat, len: nat, size: nat)
      requires start + len <= buf.Length && len + size <= buf.Length && offset + size <= |file|
      modifies buf
      ensures buf[..len] == old(buf[start..start + len]) && buf[len..len + size] == file[offset..offset + size]
    {
      MoveDown(start, len);
      ReadFile(len, size);
    }

    /** Moves the pending bytes to the front and fills the rest of the buffer from the file. */
    method Refill(start: nat)
      requires Valid() && start <= pos == last && offset < |file| && pos - start < NGX_CONF_BUFFER
      modifies this`pos, this`last, this`offset, this`dump, buf
      ensures Valid() && At() == old(At()) && pos == old(pos) - start < last && buf[..pos] == old(buf[start..pos])
    {
      hide Held;
      var len := pos - start;
      PendingBytes(start);
      ghost var pending, from := buf[start..pos], offset - len;
      var size := |file| - offset;
      if size > buf.Length - len { size := buf.Length - len; }
      Load(start, len, size);
      Joined(file, offset, len, size);
      dump := dump + file[offset..offset + size];
      pos, last, offset := len, len + size, offset + size;
      assert offset - last == from;
      Refilled(pending);
    }

    lemma PendingBytes(start: nat)
      requires Valid() && start <= pos == last
      ensures buf[start..pos] == file[offset - (pos - start)..offset] && dump == file[..offset]
    {
      Slices(buf[..], file, last, offset, start);
      assert buf[..][start..last] == buf[start..last];
    }

    lemma Refilled(pending: seq<char>)
      requires buf.Length == NGX_CONF_BUFFER && pos <= last <= buf.Length && last <= offset <= |file|
      requires dump == file[..offset]
      requires buf[..pos] == pending == file[offset - last..offset - last + pos]
      requires buf[pos..last] == file[offset - last + pos..offset]
      ensures Held()
    {
      assert buf[..last] == buf[..pos] + buf[pos..last];
      Joined(file, offset - last + pos, pos, last - pos);
    }

    lemma DumpIsPrefix()
      requires Valid()
      ensures offset <= |file| && dump == file[..offset]
    {
    }

    /** The byte under the cursor is the file's next byte. */
    lemma NextByte()
      requires Valid() && pos < last
      ensures At() < |file| && buf[pos] == file[At()]
    {
      assert buf[..last][pos] == file[offset - last..offset][pos];
    }

    /**
     The part of the loop for a byte at the start of a word; `start` is that byte, or the one after an opening quote.
     */
    method ScanStart(f0: Flags, args: seq<seq<char>>, ch: char, ghost x: Lexer)
      returns (f: Flags, start: nat, stop: Outcome)
      requires 1 <= pos <= buf.Length && buf[pos - 1] == ch && x == Standing(f0, args, x.raw, line, x.startLine)
      ensures start <= pos && WordStart(x, ch) == (Standing(f, args, buf[start..pos], line, line), stop)
    {
      var quote;
      f, quote, stop := Opening(f0, args, ch, x);
      start := if quote then pos else pos - 1;
      assert buf[start..pos] == if quote then [] else [ch];
    }

    /** The part of the loop for a byte inside a word. */
    method ScanWord(f0: Flags, args0: seq<seq<char>>, start: nat, ch: char, ghost x: Lexer)
      returns (f: Flags, args: seq<seq<char>>, stop: Outcome)
      requires start < pos <= buf.Length && buf[pos - 1] == ch
      requires x == Standing(f0, args0, buf[start..pos - 1], line, x.startLine)
      requires !f0.quoted && !f0.needSpace && !f0.lastSpace && Paired(buf[start..pos - 1])
      ensures WordByte(x, ch) == (Standing(f, args, buf[start..pos], line, x.startLine), stop)
    {
      hide Unescape, Paired;
      f, args, stop := f0, args0, More;
      assert buf[start..pos] == buf[start..pos - 1] + [ch];
      if ch == '{' && f.variable { return; }
      f := f.(variable := false);
      if ch == '\\' {
        f := f.(quoted := true);
        return;
      }
      if ch == '$' {
        f := f.(variable := true);
        return;
      }
      var found := false;
      if f.dQuoted {
        if ch == '"' { f, found := f.(dQuoted := false, needSpace := true), true; }
      } else if f.sQuoted {
        if ch == '\'' { f, found := f.(sQuoted := false, needSpace := true), true; }
      } else if IsSpace(ch) || ch == ';' || ch == '{' {
        f, found := f.(lastSpace := true), true;
      }
      if found {
        var data, len := UnescapeWord(buf, start, pos - 1);
        args := args + [data[..len]];
        if ch == ';' { stop := Done(Ok); }
        if ch == '{' { stop := Done(BlockStart); }
      }
    }

    /** One byte of the loop. */
    method ScanByte(f0: Flags, args0: seq<seq<char>>, start0: nat, startLine0: nat, ch: char, ghost x: Lexer)
      returns (f: Flags, args: seq<seq<char>>, start: nat, startLine: nat, stop: Outcome)
      requires start0 < pos <= buf.Length && buf[pos - 1] == ch && LexerOk(x)
      requires x == Standing(f0, args0, buf[start0..pos - 1], line, startLine0)
      modifies this`line
      ensures start <= pos && Step(x, ch) == (Standing(f, args, buf[start..pos], line, startLine), stop)
    {
      hide WordStart, WordByte, Paired, IsSpace;
      f, args, start, startLine, stop := f0, args0, start0, startLine0, More;
      assert buf[start0..pos] == buf[start0..pos - 1] + [ch];
      if ch == LF {
        line := line + 1;
        f := f.(comment := false);
      }
      ghost var y := if ch == LF then x.(line := x.line + 1, comment := false) else x;
      if f.comment { return; }
      if f.quoted {
        f := f.(quoted := false);
        return;
      }
      if f.needSpace {
        if IsSpace(ch) {
          f := f.(lastSpace := true, needSpace := false);
          return;
        }
        if ch == ';' { stop := Done(Ok); return; }
        if ch == '{' { stop := Done(BlockStart); return; }
        if ch == ')' {
          f := f.(lastSpace := true, needSpace := false);
          y := y.(lastSpace := true, needSpace := false);
        } else {
          stop := Done(Unexpected(ch));
          return;
        }
      }
      if f.lastSpace {
        startLine := line;
        f, start, stop := ScanStart(f, args, ch, y);
      } else {
        f, args, stop := ScanWord(f, args, start, ch, y);
      }
    }

    /** `ngx_conf_read_token` through the window: exactly what bounded lexing of the whole file gives. */
    method ReadToken() returns (result: Result, args: seq<seq<char>>)
      requires Valid()
      modifies this`pos, this`last, this`offset, this`dump, this`line, buf
      ensures Valid() && old(At()) <= |file|
      ensures var r := LexIn(NGX_CONF_BUFFER, Fresh(old(line)), file, old(At()));
              result == r.result && args == r.x.args && line == r.x.line && At() == r.pos
    {
      hide Step, LexerOk, Held, LexIn;
      var f := Flags(false, true, false, false, false, false, false);
      args := [];
      var start: nat, startLine: nat := pos, line;
      ghost var x := Fresh(line);
      ghost var at0 := At();
      FreshOk(line);
      assert buf[start..pos] == [];
      var stop := More;
      while stop.More?
        modifies this`pos, this`last, this`offset, this`dump, this`line, buf
        invariant Valid() && start <= pos && At() <= |file| && LexerOk(x)
        invariant x == Standing(f, args, buf[start..pos], line, startLine)
        invariant LexIn(NGX_CONF_BUFFER, Fresh(old(line)), file, at0)
                  == if stop.More? then LexIn(NGX_CONF_BUFFER, x, file, At()) else Scan(x, stop.result, At())
        decreases stop.More?, |file| - At()
      {
        LexInOn(NGX_CONF_BUFFER, x, file, At());
        if pos >= last {
          if offset >= |file| {
            result := if |args| > 0 || !f.lastSpace then UnexpectedEnd else FileDone;
            return;
          }
          if pos - start == NGX_CONF_BUFFER {
            line := startLine;
            return TooLong, args;
          }
          Refill(start);
          assert buf[0..pos] == x.raw;
          start := 0;
        }
        NextByte();
        var ch := buf[pos];
        pos := pos + 1;
        StepOk(x, ch);
        ghost var o := Step(x, ch);
        f, args, start, startLine, stop := ScanByte(f, args, start, startLine, ch, x);
        x := o.0;
      }
      return stop.result, args;
    }
  }

  /** Reading a whole file token by token: the tokens of the window, the dump a prefix of the file. */
  method ReadAll(w: Window) returns (tokens: seq<Token>)
    requires w.Valid() && w.At() == 0 && w.line == 1
    modifies w, w.buf
    ensures w.Valid() && tokens == TokensIn(NGX_CONF_BUFFER, w.file, 0, 1)
    ensures tokens[|tokens| - 1].result != TooLong ==> tokens == Tokens(w.file, 0, 1)
    ensures w.dump == w.file[..w.offset]
  {
    hide LexIn, TokensIn, Tokens, Window.Held;
    WindowIsInvisible(NGX_CONF_BUFFER, w.file, 0, 1);
    tokens := [];
    var going := true;
    while going
      modifies w`pos, w`last, w`offset, w`dump, w`line, w.buf
      invariant w.Valid()
      invariant TokensIn(NGX_CONF_BUFFER, w.file, 0, 1)
                == tokens + (if going then TokensIn(NGX_CONF_BUFFER, w.file, w.At(), w.line) else [])
      decreases going, |w.file| - w.At()
    {
      ghost var at, line := w.At(), w.line;
      LexAdvances(NGX_CONF_BUFFER, Fresh(line), w.file, at);
      var result, args := w.ReadToken();
      TokensUnfold(w.file, at, line, tokens);
      tokens := tokens + [Token(result, args, w.line)];
      going := GoesOn(result);
    }
    w.DumpIsPrefix();
  }

  /** The tokens from a position on: one token, and those from where it ends. */
  lemma TokensUnfold(file: seq<char>, at: nat, line: nat, done: seq<Token>)
    requires at <= |file|
    ensures var r := LexIn(NGX_CONF_BUFFER, Fresh(line), file, at);
            at <= r.pos <= |file| && done + TokensIn(NGX_CONF_BUFFER, file, at, line)
            == done + [Token(r.result, r.x.args, r.x.line)]
               + (if GoesOn(r.result) then TokensIn(NGX_CONF_BUFFER, file, r.pos, r.x.line) else [])
  {
    LexAdvances(NGX_CONF_BUFFER, Fresh(line), file, at);
    hide LexIn;
  }
}
