/** The shell's parser over characters, and what it leaves in its buffer. */
module ShellParser {
  import opened Shell

  // ------------------------------------------------------------------------------------------------------------------
  // Tokens in a string
  // ------------------------------------------------------------------------------------------------------------------

  /** Where a word begins and ends. */
  datatype Span = Span(q: nat, eq: nat)

  predicate IsSpace(c: char) {
    c == ' ' || c == '\t' || c == '\r' || c == '\n' || c == '\U{000B}'
  }

  predicate IsSymbol(c: char) {
    c == '<' || c == '|' || c == '>' || c == '&' || c == ';' || c == '(' || c == ')'
  }

  predicate WordChar(c: char) {
    !IsSpace(c) && !IsSymbol(c)
  }

  /** A C string's characters. */
  predicate NulFree(s: string) {
    forall i :: 0 <= i < |s| ==> s[i] != '\0'
  }

  /** The first place from i on that is not white space. */
  function Skip(s: string, i: nat): (j: nat)
    requires i <= |s|
    ensures i <= j <= |s| && (forall k :: i <= k < j ==> IsSpace(s[k])) && (j < |s| ==> !IsSpace(s[j]))
    decreases |s| - i
  {
    if i < |s| && IsSpace(s[i]) then Skip(s, i + 1) else i
  }

  /** The end of the word at i. */
  function WordEnd(s: string, i: nat): (j: nat)
    requires i <= |s|
    ensures i <= j <= |s| && (forall k :: i <= k < j ==> WordChar(s[k])) && (j < |s| ==> !WordChar(s[j]))
    decreases |s| - i
  {
    if i < |s| && WordChar(s[i]) then WordEnd(s, i + 1) else i
  }

  /** The token at j and where it ends. */
  function Lexeme(s: string, j: nat): (r: (Tok<Span>, nat))
    requires j < |s| && !IsSpace(s[j])
    ensures j < r.1 <= |s|
  {
    if !IsSymbol(s[j]) then (Word(Span(j, WordEnd(s, j))), WordEnd(s, j))
    else if s[j] == '>' && j + 1 < |s| && s[j + 1] == '>' then (Sym('+'), j + 2)
    else (Sym(s[j]), j + 1)
  }

  function Tokens(s: string, i: nat): seq<Tok<Span>>
    requires i <= |s|
    decreases |s| - i
  {
    var j := Skip(s, i);
    if j == |s| then [] else [Lexeme(s, j).0] + Tokens(s, Lexeme(s, j).1)
  }

  lemma {:induction false} SkipTwice(s: string, i: nat)
    requires i <= |s|
    ensures Skip(s, Skip(s, i)) == Skip(s, i) && Tokens(s, Skip(s, i)) == Tokens(s, i)
  {
    assert Skip(s, Skip(s, i)) == Skip(s, i);
  }

  lemma SkipTo(s: string, i: nat, j: nat)
    requires i <= j <= |s| && (forall k :: i <= k < j ==> IsSpace(s[k])) && (j < |s| ==> !IsSpace(s[j]))
    ensures Skip(s, i) == j
  {
  }

  lemma WordEndTo(s: string, i: nat, j: nat)
    requires i <= j <= |s| && (forall k :: i <= k < j ==> WordChar(s[k])) && (j < |s| ==> !WordChar(s[j]))
    ensures WordEnd(s, i) == j
  {
  }

  // ------------------------------------------------------------------------------------------------------------------
  // The parser
  // ------------------------------------------------------------------------------------------------------------------

  /** What gettoken returns for a token. */
  function Kind(t: Tok<Span>): char {
    if t.Word? then 'a' else t.c
  }

  method SkipSpace(s: string, pos: nat) returns (i: nat)
    requires pos <= |s|
    ensures i == Skip(s, pos)
  {
    i := pos;
    while i < |s| && IsSpace(s[i])
      invariant pos <= i <= |s| && forall k :: pos <= k < i ==> IsSpace(s[k])
    {
      i := i + 1;
    }
    SkipTo(s, pos, i);
  }

  method SkipWord(s: string, pos: nat) returns (i: nat)
    requires pos <= |s|
    ensures i == WordEnd(s, pos)
  {
    i := pos;
    while i < |s| && !IsSpace(s[i]) && !IsSymbol(s[i])
      invariant pos <= i <= |s| && forall k :: pos <= k < i ==> WordChar(s[k])
    {
      i := i + 1;
    }
    WordEndTo(s, pos, i);
  }

  lemma TokensAt(s: string, i: nat)
    requires i <= |s|
    ensures Skip(s, i) == |s| ==> Tokens(s, i) == []
    ensures Skip(s, i) < |s| ==> Tokens(s, i) == [Lexeme(s, Skip(s, i)).0] + Tokens(s, Lexeme(s, Skip(s, i)).1)
  {
  }

  lemma NulFreeAt(s: string, i: nat)
    requires NulFree(s)
    ensures i < |s| ==> s[i] != '\0'
  {
  }

  /** gettoken: the next token is taken off. */
  method GetToken(s: string, pos: nat) returns (kind: char, q: nat, eq: nat, pos': nat)
    requires pos <= |s| && NulFree(s)
    ensures pos <= pos' <= |s|
    ensures kind == '\0' <==> Tokens(s, pos) == []
    ensures Tokens(s, pos) == [] ==> Tokens(s, pos') == []
    ensures Tokens(s, pos) != [] ==> kind == Kind(Tokens(s, pos)[0]) && Tokens(s, pos') == Tokens(s, pos)[1..]
    ensures kind == 'a' <==> Tokens(s, pos) != [] && Tokens(s, pos)[0].Word?
    ensures kind == 'a' ==> Tokens(s, pos)[0].w == Span(q, eq)
  {
    hide Tokens, NulFree;
    var i := SkipSpace(s, pos);
    NulFreeAt(s, i);
    q := i;
    kind := if i < |s| then s[i] else '\0';
    if i == |s| {
    } else if kind == '|' || kind == '(' || kind == ')' || kind == ';' || kind == '&' || kind == '<' {
      i := i + 1;
    } else if kind == '>' {
      i := i + 1;
      if i < |s| && s[i] == '>' {
        kind := '+';
        i := i + 1;
      }
    } else {
      kind := 'a';
      i := SkipWord(s, q);
    }
    eq := i;
    pos' := SkipSpace(s, i);
    SkipTwice(s, i);
    TokensAt(s, pos);
    TokensAt(s, i);
  }

  /** The character a token begins with. */
  function FirstChar(c: char): char {
    if c == '+' then '>' else c
  }

  /** peek: is the next token one of these symbols? */
  method Peek(s: string, pos: nat, toks: string) returns (b: bool, pos': nat)
    requires pos <= |s| && NulFree(s) && forall i :: 0 <= i < |toks| ==> IsSymbol(toks[i])
    ensures pos <= pos' <= |s| && Tokens(s, pos') == Tokens(s, pos)
    ensures b <==> Tokens(s, pos) != [] && Tokens(s, pos)[0].Sym? && FirstChar(Tokens(s, pos)[0].c) in toks
    ensures pos' == |s| <==> Tokens(s, pos) == []
  {
    pos' := SkipSpace(s, pos);
    SkipTwice(s, pos);
    b := pos' < |s| && s[pos'] in toks;
  }

  /** Redirections rs, then those that r found. */
  function After<W>(rs: seq<Redirection<W>>, r: Res<seq<Redirection<W>>, W>): Res<seq<Redirection<W>>, W> {
    match r
    case Fail => Fail
    case Ok(more, rest) => Ok(rs + more, rest)
  }

  lemma AfterNone<W>(r: Res<seq<Redirection<W>>, W>)
    ensures After([], r) == r
  {
    match r
    case Fail =>
    case Ok(more, rest) => assert [] + more == more;
  }

  lemma AfterNext<W>(rs: seq<Redirection<W>>, ts: seq<Tok<W>>)
    requires IsRedir(ts)
    ensures |ts| < 2 || !ts[1].Word? ==> After(rs, Redirs(ts)) == Fail
    ensures |ts| >= 2 && ts[1].Word? ==>
            After(rs, Redirs(ts)) == After(rs + [Redirection(ts[1].w, ModeOf(ts[0].c))], Redirs(ts[2..]))
  {
    if |ts| >= 2 && ts[1].Word? {
      var one := [Redirection(ts[1].w, ModeOf(ts[0].c))];
      match Redirs(ts[2..])
      case Fail =>
      case Ok(more, rest) => assert rs + (one + more) == rs + one + more;
    }
  }

  /** parseredirs. */
  method ParseRedirs(s: string, pos: nat) returns (ok: bool, rs: seq<Redirection<Span>>, pos': nat)
    requires pos <= |s| && NulFree(s)
    ensures pos <= pos' <= |s|
    ensures if ok then Redirs(Tokens(s, pos)) == Ok(rs, Tokens(s, pos')) else Redirs(Tokens(s, pos)) == Fail
  {
    hide Tokens, NulFree, Redirs, After;
    rs, pos' := [], pos;
    AfterNone(Redirs(Tokens(s, pos)));
    while true
      invariant pos <= pos' <= |s| && Redirs(Tokens(s, pos)) == After(rs, Redirs(Tokens(s, pos')))
      decreases |Tokens(s, pos')|
    {
      var more, p1 := Peek(s, pos', "<>");
      if !more {
        RedirsNone(rs, Tokens(s, pos'));
        return true, rs, p1;
      }
      AfterNext(rs, Tokens(s, pos'));
      var tok, q, eq, p2 := GetToken(s, p1);
      var kind, q2, eq2, p3 := GetToken(s, p2);
      assert |Tokens(s, pos')| >= 2 ==> Tokens(s, pos')[2..] == Tokens(s, pos')[1..][1..];
      if kind != 'a' {
        return false, rs, p3;
      }
      rs := rs + [Redirection(Span(q2, eq2), ModeOf(tok))];
      pos' := p3;
    }
  }

  lemma RedirsNone<W>(rs: seq<Redirection<W>>, ts: seq<Tok<W>>)
    requires !IsRedir(ts)
    ensures After(rs, Redirs(ts)) == Ok(rs, ts)
  {
    assert rs + [] == rs;
  }

  /** The result of a parsing method is the grammar's. */
  predicate Agrees(r: Res<Cmd<Span>, Span>, ok: bool, c: Cmd<Span>, rest: seq<Tok<Span>>) {
    if ok then r == Ok(c, rest) else r == Fail
  }

  /** The part of parseexec for a simple command. */
  method ParseSimple(s: string, pos: nat) returns (ok: bool, cmd: Cmd<Span>, pos': nat)
    requires pos <= |s| && NulFree(s)
    ensures pos <= pos' <= |s| && Agrees(Simple(Tokens(s, pos)), ok, cmd, Tokens(s, pos'))
  {
    hide Tokens, NulFree, Redirs;
    var argv: seq<Span> := [];
    cmd := Exec(argv);
    var rs;
    ok, rs, pos' := ParseRedirs(s, pos);
    if !ok {
      return;
    }
    while true
      invariant pos <= pos' <= |s| && |argv| < MAXARGS && Simple(Tokens(s, pos)) == Words(argv, rs, Tokens(s, pos'))
      decreases |Tokens(s, pos')|
    {
      var stop, p1 := Peek(s, pos', "|)&;");
      StopsAt(Tokens(s, pos'));
      if stop {
        return true, Wrap(Exec(argv), rs), p1;
      }
      var kind, q, eq, p2 := GetToken(s, p1);
      if kind == '\0' {
        return true, Wrap(Exec(argv), rs), p2;
      }
      if kind != 'a' {
        return false, cmd, p2;
      }
      if |argv| + 1 >= MAXARGS {
        return false, cmd, p2;
      }
      var more, p3;
      ok, more, p3 := ParseRedirs(s, p2);
      if !ok {
        return false, cmd, p3;
      }
      RedirsShrink(Tokens(s, p2));
      argv, rs, pos' := argv + [Span(q, eq)], rs + more, p3;
    }
  }

  lemma RedirsShrink<W>(ts: seq<Tok<W>>)
    ensures Redirs(ts).Ok? ==> |Redirs(ts).rest| <= |ts|
  {
  }

  lemma StopsAt<W>(ts: seq<Tok<W>>)
    ensures Stops(ts) <==> ts == [] || (ts[0].Sym? && FirstChar(ts[0].c) in "|)&;")
  {
  }

  /** parseblock. */
  method ParseBlock(s: string, pos: nat) returns (ok: bool, cmd: Cmd<Span>, pos': nat)
    requires pos <= |s| && NulFree(s) && Next(Tokens(s, pos), '(')
    ensures pos <= pos' <= |s| && Agrees(Block(Tokens(s, pos)), ok, cmd, Tokens(s, pos'))
    decreases |Tokens(s, pos)|, 0
  {
    hide Tokens, NulFree, Redirs, Line;
    var open, p1 := Peek(s, pos, "(");
    var kind, q, eq, p2 := GetToken(s, p1);
    ok, cmd, pos' := ParseLine(s, p2);
    if !ok {
      return;
    }
    var close, p3 := Peek(s, pos', ")");
    if !close {
      return false, cmd, p3;
    }
    var kind', q', eq', p4 := GetToken(s, p3);
    var rs;
    ok, rs, pos' := ParseRedirs(s, p4);
    cmd := Wrap(cmd, rs);
  }

  /** parseexec. */
  method ParseExec(s: string, pos: nat) returns (ok: bool, cmd: Cmd<Span>, pos': nat)
    requires pos <= |s| && NulFree(s)
    ensures pos <= pos' <= |s|
    ensures Next(Tokens(s, pos), '(') ==> Agrees(Block(Tokens(s, pos)), ok, cmd, Tokens(s, pos'))
    ensures !Next(Tokens(s, pos), '(') ==> Agrees(Simple(Tokens(s, pos)), ok, cmd, Tokens(s, pos'))
    decreases |Tokens(s, pos)|, 1
  {
    hide Tokens, NulFree, Block, Simple;
    var open, p1 := Peek(s, pos, "(");
    if open {
      ok, cmd, pos' := ParseBlock(s, p1);
    } else {
      ok, cmd, pos' := ParseSimple(s, p1);
    }
  }

  /** parsepipe. */
  method ParsePipe(s: string, pos: nat) returns (ok: bool, cmd: Cmd<Span>, pos': nat)
    requires pos <= |s| && NulFree(s)
    ensures pos <= pos' <= |s| && Agrees(Pipeline(Tokens(s, pos)), ok, cmd, Tokens(s, pos'))
    decreases |Tokens(s, pos)|, 2
  {
    hide Tokens, NulFree, Block, Simple;
    ok, cmd, pos' := ParseExec(s, pos);
    if !ok {
      return;
    }
    var more, p1 := Peek(s, pos', "|");
    pos' := p1;
    if more {
      var kind, q, eq, p2 := GetToken(s, p1);
      var right;
      ok, right, pos' := ParsePipe(s, p2);
      cmd := Pipe(cmd, right);
    }
  }

  /** parseline. */
  method ParseLine(s: string, pos: nat) returns (ok: bool, cmd: Cmd<Span>, pos': nat)
    requires pos <= |s| && NulFree(s)
    ensures pos <= pos' <= |s| && Agrees(Line(Tokens(s, pos)), ok, cmd, Tokens(s, pos'))
    decreases |Tokens(s, pos)|, 3
  {
    hide Tokens, NulFree, Pipeline;
    ok, cmd, pos' := ParsePipe(s, pos);
    if !ok {
      return;
    }
    ghost var c0, ts0 := cmd, Tokens(s, pos');
    var more, p1 := Peek(s, pos', "&");
    while more
      invariant pos <= p1 <= |s| && Backs(c0, ts0) == Backs(cmd, Tokens(s, p1)) && (more <==> Next(Tokens(s, p1), '&'))
      decreases |Tokens(s, p1)|
    {
      var kind, q, eq, p2 := GetToken(s, p1);
      cmd := Back(cmd);
      more, p1 := Peek(s, p2, "&");
    }
    var semi, p3 := Peek(s, p1, ";");
    pos' := p3;
    if semi {
      var kind, q, eq, p4 := GetToken(s, p3);
      var rest;
      ok, rest, pos' := ParseLine(s, p4);
      cmd := List(cmd, rest);
    }
  }

  // ------------------------------------------------------------------------------------------------------------------
  // The strings left in the buffer
  // ------------------------------------------------------------------------------------------------------------------

  /** The words of a command. */
  function WordsOf<W(==)>(c: Cmd<W>): set<W> {
    match c
    case Exec(argv) => set i | 0 <= i < |argv| :: argv[i]
    case Redir(d, to) => WordsOf(d) + {to.file}
    case Pipe(l, r) => WordsOf(l) + WordsOf(r)
    case List(l, r) => WordsOf(l) + WordsOf(r)
    case Back(d) => WordsOf(d)
  }

  /** A word of a string: word characters, with none after it. */
  predicate IsWord(s: string, w: Span) {
    && w.q < w.eq <= |s| && (forall k :: w.q <= k < w.eq ==> WordChar(s[k])) && (w.eq < |s| ==> !WordChar(s[w.eq]))
  }

  /** Every word token is a word of the string. */
  lemma {:induction false} TokensAreWords(s: string, i: nat, w: Span)
    requires i <= |s| && Word(w) in Tokens(s, i)
    ensures IsWord(s, w)
    decreases |s| - i
  {
    var j := Skip(s, i);
    if Lexeme(s, j).0 != Word(w) {
      TokensAreWords(s, Lexeme(s, j).1, w);
    }
  }

  /** Only words of ts are in c, and what is left is part of ts. */
  ghost predicate From<W(!new)>(c: Cmd<W>, rest: seq<Tok<W>>, ts: seq<Tok<W>>) {
    (forall w :: w in WordsOf(c) ==> Word(w) in ts) && (forall t :: t in rest ==> t in ts)
  }

  lemma {:induction false} RedirsFrom<W(!new)>(ts: seq<Tok<W>>)
    ensures Redirs(ts).Ok? ==> (forall i :: 0 <= i < |Redirs(ts).v| ==> Word(Redirs(ts).v[i].file) in ts) &&
                               forall t :: t in Redirs(ts).rest ==> t in ts
    decreases |ts|
  {
    if IsRedir(ts) && |ts| >= 2 && ts[1].Word? {
      RedirsFrom(ts[2..]);
      assert forall t :: t in ts[2..] ==> t in ts;
      assert ts[1] in ts;
    }
  }

  lemma {:induction false} WrapFrom<W(!new)>(c: Cmd<W>, rs: seq<Redirection<W>>, ts: seq<Tok<W>>)
    requires forall w :: w in WordsOf(c) ==> Word(w) in ts
    requires forall i :: 0 <= i < |rs| ==> Word(rs[i].file) in ts
    ensures forall w :: w in WordsOf(Wrap(c, rs)) ==> Word(w) in ts
    decreases |rs|
  {
    if rs != [] {
      WrapFrom(Redir(c, rs[0]), rs[1..], ts);
    }
  }

  lemma {:induction false} WordsFrom<W(!new)>(argv: seq<W>, rs: seq<Redirection<W>>, ts: seq<Tok<W>>, all: seq<Tok<W>>)
    requires (forall i :: 0 <= i < |argv| ==> Word(argv[i]) in all) &&
             (forall i :: 0 <= i < |rs| ==> Word(rs[i].file) in all)
    requires forall t :: t in ts ==> t in all
    ensures Words(argv, rs, ts).Ok? ==> From(Words(argv, rs, ts).v, Words(argv, rs, ts).rest, all)
    decreases |ts|
  {
    if Stops(ts) {
      WrapFrom(Exec(argv), rs, all);
    } else if ts[0].Word? && |argv| + 1 < MAXARGS && Redirs(ts[1..]).Ok? {
      RedirsFrom(ts[1..]);
      assert ts[0] in ts && forall t :: t in ts[1..] ==> t in ts;
      WordsFrom(argv + [ts[0].w], rs + Redirs(ts[1..]).v, Redirs(ts[1..]).rest, all);
    }
  }

  lemma {:induction false} BlockFrom<W(!new)>(ts: seq<Tok<W>>)
    requires Next(ts, '(')
    ensures Block(ts).Ok? ==> From(Block(ts).v, Block(ts).rest, ts)
    decreases |ts|, 0
  {
    LineFrom(ts[1..]);
    assert forall t :: t in ts[1..] ==> t in ts;
    if Line(ts[1..]).Ok? && Next(Line(ts[1..]).rest, ')') {
      var c, rest := Line(ts[1..]).v, Line(ts[1..]).rest;
      RedirsFrom(rest[1..]);
      assert forall t :: t in rest[1..] ==> t in rest;
      if Redirs(rest[1..]).Ok? {
        WrapFrom(c, Redirs(rest[1..]).v, ts);
      }
    }
  }

  lemma SimpleFrom<W(!new)>(ts: seq<Tok<W>>)
    ensures Simple(ts).Ok? ==> From(Simple(ts).v, Simple(ts).rest, ts)
  {
    RedirsFrom(ts);
    if Redirs(ts).Ok? {
      WordsFrom([], Redirs(ts).v, Redirs(ts).rest, ts);
    }
  }

  lemma {:induction false} PipelineFrom<W(!new)>(ts: seq<Tok<W>>)
    ensures Pipeline(ts).Ok? ==> From(Pipeline(ts).v, Pipeline(ts).rest, ts)
    decreases |ts|, 1
  {
    var r := if Next(ts, '(') then Block(ts) else Simple(ts);
    if Next(ts, '(') {
      BlockFrom(ts);
    } else {
      SimpleFrom(ts);
    }
    if r.Ok? && Next(r.rest, '|') {
      PipelineFrom(r.rest[1..]);
      assert forall t :: t in r.rest[1..] ==> t in r.rest;
    }
  }

  lemma {:induction false} BacksFrom<W(!new)>(c: Cmd<W>, ts: seq<Tok<W>>, all: seq<Tok<W>>)
    requires From(c, ts, all)
    ensures From(Backs(c, ts).0, Backs(c, ts).1, all)
    decreases |ts|
  {
    if Next(ts, '&') {
      assert forall t :: t in ts[1..] ==> t in ts;
      BacksFrom(Back(c), ts[1..], all);
    }
  }

  lemma {:induction false} LineFrom<W(!new)>(ts: seq<Tok<W>>)
    ensures Line(ts).Ok? ==> From(Line(ts).v, Line(ts).rest, ts)
    decreases |ts|, 2
  {
    PipelineFrom(ts);
    if Pipeline(ts).Ok? {
      var (d, rest) := Backs(Pipeline(ts).v, Pipeline(ts).rest);
      BacksFrom(Pipeline(ts).v, Pipeline(ts).rest, ts);
      if Next(rest, ';') {
        LineFrom(rest[1..]);
        assert forall t :: t in rest[1..] ==> t in rest;
      }
    }
  }

  function EndsOf(c: Cmd<Span>): set<nat> {
    set w | w in WordsOf(c) :: w.eq
  }

  /** nulterminate: a NUL after every word, and nothing else changes. */
  method NulTerminate(c: Cmd<Span>, buf: array<char>)
    requires forall w :: w in WordsOf(c) ==> w.eq < buf.Length
    modifies buf
    ensures forall i :: 0 <= i < buf.Length ==> buf[i] == if i in EndsOf(c) then '\0' else old(buf[i])
    decreases c
  {
    match c
    case Exec(argv) =>
      var k := 0;
      while k < |argv|
        invariant 0 <= k <= |argv|
        invariant forall i :: 0 <= i < buf.Length ==>
                  buf[i] == if i in EndsOf(Exec(argv[..k])) then '\0' else old(buf[i])
      {
        assert argv[k] in WordsOf(c);
        ExecEnds(argv, k);
        buf[argv[k].eq] := '\0';
        k := k + 1;
      }
      assert argv[..k] == argv;
    case Redir(d, to) =>
      RedirEnds(d, to);
      NulTerminate(d, buf);
      buf[to.file.eq] := '\0';
    case Pipe(l, r) =>
      JoinEnds(l, r);
      NulTerminate(l, buf);
      NulTerminate(r, buf);
    case List(l, r) =>
      JoinEnds(l, r);
      NulTerminate(l, buf);
      NulTerminate(r, buf);
    case Back(d) =>
      NulTerminate(d, buf);
      assert EndsOf(c) == EndsOf(d);
  }

  lemma ExecEnds(argv: seq<Span>, k: nat)
    requires k < |argv|
    ensures EndsOf(Exec(argv[..k + 1])) == EndsOf(Exec(argv[..k])) + {argv[k].eq}
  {
    assert argv[..k + 1] == argv[..k] + [argv[k]];
    assert WordsOf(Exec(argv[..k + 1])) == WordsOf(Exec(argv[..k])) + {argv[k]};
    EndsUnion(WordsOf(Exec(argv[..k])), {argv[k]});
  }

  lemma RedirEnds(d: Cmd<Span>, to: Redirection<Span>)
    ensures EndsOf(Redir(d, to)) == EndsOf(d) + {to.file.eq}
  {
    EndsUnion(WordsOf(d), {to.file});
  }

  lemma JoinEnds(l: Cmd<Span>, r: Cmd<Span>)
    ensures EndsOf(Pipe(l, r)) == EndsOf(l) + EndsOf(r) && EndsOf(List(l, r)) == EndsOf(l) + EndsOf(r)
  {
    EndsUnion(WordsOf(l), WordsOf(r));
  }

  lemma EndsUnion(a: set<Span>, b: set<Span>)
    ensures (set w | w in a + b :: w.eq) == (set w | w in a :: w.eq) + (set w | w in b :: w.eq)
  {
  }

  /** The C string at q. */
  function CString(b: seq<char>, q: nat): string
    decreases |b| - q
  {
    if q < |b| && b[q] != '\0' then [b[q]] + CString(b, q + 1) else ""
  }

  lemma {:induction false} CStringTo(b: seq<char>, q: nat, e: nat)
    requires q <= e < |b| && b[e] == '\0' && forall k :: q <= k < e ==> b[k] != '\0'
    ensures CString(b, q) == b[q..e]
    decreases e - q
  {
    if q < e {
      CStringTo(b, q + 1, e);
      assert b[q..e] == [b[q]] + b[q + 1..e];
    }
  }

  /** With NULs at ends of words only, a word ended that way reads as itself. */
  lemma WordReads(s: string, b: seq<char>, c: Cmd<Span>, w: Span)
    requires NulFree(s) && |b| == |s| + 1 && w in WordsOf(c) && IsWord(s, w) && forall x :: x in WordsOf(c) ==>
             IsWord(s, x)
    requires forall i :: 0 <= i < |b| ==> b[i] == if i in EndsOf(c) || i == |s| then '\0' else s[i]
    ensures CString(b, w.q) == s[w.q..w.eq]
  {
    assert IsWord(s, w) && w.eq in EndsOf(c);
    forall k | w.q <= k < w.eq ensures k !in EndsOf(c) {
    }
    CStringTo(b, w.q, w.eq);
    assert b[w.q..w.eq] == s[w.q..w.eq];
  }

  /** parsecmd: the whole line is one command of the grammar or there is a panic; and afterwards every argument and file
      name reads, as a C string in the shared buffer, exactly as its token. */
  method ParseCmd(s: string) returns (ok: bool, cmd: Cmd<Span>, buf: array<char>)
    requires NulFree(s)
    ensures ok <==> Line(Tokens(s, 0)).Ok? && Line(Tokens(s, 0)).rest == []
    ensures ok ==> cmd == Line(Tokens(s, 0)).v && forall w :: w in WordsOf(cmd) ==>
            IsWord(s, w) && CString(buf[..], w.q) == s[w.q..w.eq]
  {
    hide Tokens, Line, EndsOf;
    buf := new char[|s| + 1](i requires 0 <= i <= |s| => if i < |s| then s[i] else '\0');
    var pos;
    ok, cmd, pos := ParseLine(s, 0);
    if !ok {
      return;
    }
    var _, end := Peek(s, pos, "");
    if end != |s| {
      return false, cmd, buf;
    }
    LineFrom(Tokens(s, 0));
    forall w | w in WordsOf(cmd) ensures IsWord(s, w) {
      TokensAreWords(s, 0, w);
    }
    NulTerminate(cmd, buf);
    forall w | w in WordsOf(cmd) ensures CString(buf[..], w.q) == s[w.q..w.eq] {
      WordReads(s, buf[..], cmd, w);
    }
  }

  // ------------------------------------------------------------------------------------------------------------------
  // The canonical printing, as text
  // ------------------------------------------------------------------------------------------------------------------

  predicate GoodWord(w: string) {
    w != "" && forall i :: 0 <= i < |w| ==> WordChar(w[i]) && w[i] != '\0'
  }

  /** Commands that can be typed: words the shell takes as words, and not too many to a command. */
  predicate Typable(t: Cmd<string>) {
    match t
    case Exec(argv) => |argv| < MAXARGS && forall i :: 0 <= i < |argv| ==> GoodWord(argv[i])
    case Redir(d, to) => Typable(d) && GoodWord(to.file)
    case Pipe(l, r) => Typable(l) && Typable(r)
    case List(l, r) => Typable(l) && Typable(r)
    case Back(d) => Typable(d)
  }

  function PrintWords(argv: seq<string>): string {
    if argv == [] then "" else argv[0] + " " + PrintWords(argv[1..])
  }

  function PrintMode(m: Mode): string {
    match m case In => "<" case Out => ">" case Append => ">>"
  }

  /** Every part of a command in parentheses, and a space after every word. */
  function Print(t: Cmd<string>): string {
    match t
    case Exec(argv) => PrintWords(argv)
    case Redir(d, to) => "(" + Print(d) + ")" + PrintMode(to.mode) + (to.file + " ")
    case Pipe(l, r) => "(" + Print(l) + ")" + "|" + ("(" + Print(r) + ")")
    case List(l, r) => "(" + Print(l) + ")" + ";" + ("(" + Print(r) + ")")
    case Back(d) => "(" + Print(d) + ")" + "&"
  }

  function PlaceWords(argv: seq<string>, at: nat): seq<Span> {
    if argv == [] then [] else [Span(at, at + |argv[0]|)] + PlaceWords(argv[1..], at + |argv[0]| + 1)
  }

  /** The command with its words at their places in its printing, printed from position at on. */
  function Place(t: Cmd<string>, at: nat): Cmd<Span> {
    match t
    case Exec(argv) => Exec(PlaceWords(argv, at))
    case Redir(d, to) =>
      var q := at + |Print(d)| + 2 + |PrintMode(to.mode)|;
      Redir(Place(d, at + 1), Redirection(Span(q, q + |to.file|), to.mode))
    case Pipe(l, r) => Pipe(Place(l, at + 1), Place(r, at + |Print(l)| + 4))
    case List(l, r) => List(Place(l, at + 1), Place(r, at + |Print(l)| + 4))
    case Back(d) => Back(Place(d, at + 1))
  }

  /** Text is in s at position i. */
  predicate Holds(s: string, i: nat, text: string) {
    i + |text| <= |s| && s[i..i + |text|] == text
  }

  lemma HoldsBoth(s: string, i: nat, a: string, b: string)
    requires Holds(s, i, a + b)
    ensures Holds(s, i, a) && Holds(s, i + |a|, b)
  {
    var t := s[i..i + |a| + |b|];
    assert t[..|a|] == a && t[|a|..] == b;
    assert s[i..i + |a|] == t[..|a|] && s[i + |a|..i + |a| + |b|] == t[|a|..];
  }

  lemma LexSymbol(s: string, i: nat, c: char)
    requires Holds(s, i, [c]) && IsSymbol(c) && (c == '>' && i + 1 < |s| ==> s[i + 1] != '>')
    ensures Tokens(s, i) == [Sym(c)] + Tokens(s, i + 1)
  {
    assert s[i] == [c][0];
  }

  lemma LexAppend(s: string, i: nat)
    requires Holds(s, i, ">>")
    ensures Tokens(s, i) == [Sym('+')] + Tokens(s, i + 2)
  {
    assert s[i] == s[i..i + 2][0] && s[i + 1] == s[i..i + 2][1];
  }

  lemma LexWord(s: string, i: nat, w: string)
    requires Holds(s, i, w + " ") && GoodWord(w)
    ensures Tokens(s, i) == [Word(Span(i, i + |w|))] + Tokens(s, i + |w| + 1)
    ensures s[i] != '>' && s[i..i + |w|] == w
  {
    hide Tokens, Holds, Skip, WordEnd;
    HoldsBoth(s, i, w, " ");
    HoldsEnd(s, i, w);
    HoldsEnd(s, i + |w|, " ");
    assert s[i + |w|] == s[i + |w|..i + |w| + 1][0];
    forall k | i <= k < i + |w| ensures WordChar(s[k]) {
      assert s[k] == s[i..i + |w|][k - i] == w[k - i];
    }
    WordEndTo(s, i, i + |w|);
    SkipTo(s, i, i);
    TokensAt(s, i);
    SpaceSkipped(s, i + |w|);
  }

  lemma SpaceSkipped(s: string, i: nat)
    requires i < |s| && IsSpace(s[i])
    ensures Tokens(s, i) == Tokens(s, i + 1)
  {
    assert Skip(s, i) == Skip(s, i + 1);
  }

  lemma {:induction false} LexWords(argv: seq<string>, s: string, at: nat)
    requires Holds(s, at, PrintWords(argv)) && forall i :: 0 <= i < |argv| ==> GoodWord(argv[i])
    ensures Tokens(s, at) == WordToks(PlaceWords(argv, at)) + Tokens(s, at + |PrintWords(argv)|)
    decreases |argv|
  {
    hide Tokens, Holds, GoodWord;
    HoldsEnd(s, at, PrintWords(argv));
    if argv != [] {
      var n := at + |argv[0]| + 1;
      var first, rest := [Span(at, at + |argv[0]|)], PlaceWords(argv[1..], n);
      assert PrintWords(argv) == (argv[0] + " ") + PrintWords(argv[1..]);
      HoldsBoth(s, at, argv[0] + " ", PrintWords(argv[1..]));
      LexWord(s, at, argv[0]);
      LexWords(argv[1..], s, n);
      assert (first + rest)[1..] == rest;
      assert WordToks(first + rest) == [Word(first[0])] + WordToks(rest);
    }
  }

  /** A command in parentheses, if the command itself lexes as it should. */
  lemma LexParen(t: Cmd<string>, s: string, at: nat)
    requires Holds(s, at, "(" + Print(t) + ")")
    requires Holds(s, at + 1, Print(t)) ==> Tokens(s, at + 1) == Show(Place(t, at + 1)) + Tokens(s, at + 1 + |Print(t)|)
    ensures Holds(s, at + 1, Print(t)) &&
            Tokens(s, at) == Paren(Show(Place(t, at + 1))) + Tokens(s, at + |Print(t)| + 2)
  {
    hide Tokens, Print, Place, Show;
    HoldsBoth(s, at, "(" + Print(t), ")");
    HoldsBoth(s, at, "(", Print(t));
    LexSymbol(s, at, '(');
    LexSymbol(s, at + 1 + |Print(t)|, ')');
  }

  lemma LexMode(s: string, at: nat, m: Mode, file: string)
    requires Holds(s, at, PrintMode(m) + (file + " ")) && GoodWord(file)
    ensures var q := at + |PrintMode(m)|;
            Tokens(s, at) == [Sym(SymOf(m)), Word(Span(q, q + |file|))] + Tokens(s, q + |file| + 1) &&
              s[q..q + |file|] == file
  {
    hide Tokens;
    var q := at + |PrintMode(m)|;
    HoldsBoth(s, at, PrintMode(m), file + " ");
    LexWord(s, q, file);
    if m == Append {
      LexAppend(s, at);
    } else {
      LexSymbol(s, at, SymOf(m));
    }
  }

  /** The printing of a command, split after its first part in parentheses. */
  lemma SplitPrint(s: string, at: nat, d: Cmd<string>, b: string)
    requires Holds(s, at, "(" + Print(d) + ")" + b)
    ensures Holds(s, at, "(" + Print(d) + ")") && Holds(s, at + |Print(d)| + 2, b) && Holds(s, at + 1, Print(d))
  {
    hide Print, Holds;
    HoldsBoth(s, at, "(" + Print(d) + ")", b);
    HoldsBoth(s, at, "(" + Print(d), ")");
    HoldsBoth(s, at, "(", Print(d));
  }

  lemma SplitPair(l: Cmd<string>, c: char, r: Cmd<string>, s: string, at: nat)
    requires Holds(s, at, "(" + Print(l) + ")" + [c] + ("(" + Print(r) + ")"))
    ensures Holds(s, at, "(" + Print(l) + ")") && Holds(s, at + 1, Print(l)) && Holds(s, at + |Print(l)| + 2, [c])
    ensures Holds(s, at + |Print(l)| + 3, "(" + Print(r) + ")") && Holds(s, at + |Print(l)| + 4, Print(r))
  {
    hide Print, Holds;
    var b := [c] + ("(" + Print(r) + ")");
    assert "(" + Print(l) + ")" + [c] + ("(" + Print(r) + ")") == "(" + Print(l) + ")" + b;
    SplitPrint(s, at, l, b);
    var m := at + |Print(l)| + 3;
    HoldsBoth(s, m - 1, [c], "(" + Print(r) + ")");
    HoldsBoth(s, m, "(" + Print(r), ")");
    HoldsBoth(s, m, "(", Print(r));
  }

  /** Two commands in parentheses joined by c. */
  lemma LexJoined(l: Cmd<string>, c: char, r: Cmd<string>, s: string, at: nat)
    requires (c == '|' || c == ';') && Holds(s, at, "(" + Print(l) + ")" + [c] + ("(" + Print(r) + ")"))
    requires at + 1 + |Print(l)| <= |s| && Tokens(s, at + 1) == Show(Place(l, at + 1)) + Tokens(s, at + 1 + |Print(l)|)
    requires var m := at + |Print(l)| + 4;
             m + |Print(r)| <= |s| && Tokens(s, m) == Show(Place(r, m)) + Tokens(s, m + |Print(r)|)
    ensures at + |Print(l)| + |Print(r)| + 5 <= |s|
    ensures Tokens(s, at) == Joined(Place(l, at + 1), c, Place(r, at + |Print(l)| + 4)) +
            Tokens(s, at + |Print(l)| + |Print(r)| + 5)
  {
    hide Tokens, Print, Place, Show, Paren;
    SplitPair(l, c, r, s, at);
    LexParen(l, s, at);
    LexSymbol(s, at + |Print(l)| + 2, c);
    LexParen(r, s, at + |Print(l)| + 3);
    var a, b := Paren(Show(Place(l, at + 1))), Paren(Show(Place(r, at + |Print(l)| + 4)));
    var rest := Tokens(s, at + |Print(l)| + |Print(r)| + 5);
    assert a + ([Sym(c)] + (b + rest)) == a + [Sym(c)] + b + rest;
  }

  lemma LexRedir(d: Cmd<string>, to: Redirection<string>, s: string, at: nat)
    requires GoodWord(to.file) && Holds(s, at, "(" + Print(d) + ")" + PrintMode(to.mode) + (to.file + " "))
    requires at + 1 + |Print(d)| <= |s| && Tokens(s, at + 1) == Show(Place(d, at + 1)) + Tokens(s, at + 1 + |Print(d)|)
    ensures var q := at + |Print(d)| + 2 + |PrintMode(to.mode)|;
            q + |to.file| + 1 <= |s| &&
            Tokens(s, at) == Paren(Show(Place(d, at + 1))) + [Sym(SymOf(to.mode)), Word(Span(q, q + |to.file|))] +
              Tokens(s, q + |to.file| + 1)
  {
    hide Tokens, Print, Place, Show, Paren;
    SplitRedir(d, to, s, at);
    LexParen(d, s, at);
    LexMode(s, at + |Print(d)| + 2, to.mode, to.file);
  }

  lemma SplitRedir(d: Cmd<string>, to: Redirection<string>, s: string, at: nat)
    requires Holds(s, at, "(" + Print(d) + ")" + PrintMode(to.mode) + (to.file + " "))
    ensures Holds(s, at, "(" + Print(d) + ")") && Holds(s, at + 1, Print(d)) &&
            Holds(s, at + |Print(d)| + 2, PrintMode(to.mode) + (to.file + " "))
    ensures Holds(s, at + |Print(d)| + 2 + |PrintMode(to.mode)|, to.file)
  {
    hide Print, PrintMode, Holds;
    var b := PrintMode(to.mode) + (to.file + " ");
    assert "(" + Print(d) + ")" + PrintMode(to.mode) + (to.file + " ") == "(" + Print(d) + ")" + b;
    SplitPrint(s, at, d, b);
    HoldsBoth(s, at + |Print(d)| + 2, PrintMode(to.mode), to.file + " ");
    HoldsBoth(s, at + |Print(d)| + 2 + |PrintMode(to.mode)|, to.file, " ");
  }

  lemma LexBack(d: Cmd<string>, s: string, at: nat)
    requires Holds(s, at, "(" + Print(d) + ")" + "&")
    requires at + 1 + |Print(d)| <= |s| && Tokens(s, at + 1) == Show(Place(d, at + 1)) + Tokens(s, at + 1 + |Print(d)|)
    ensures Tokens(s, at) == Paren(Show(Place(d, at + 1))) + [Sym('&')] + Tokens(s, at + |Print(d)| + 3)
  {
    hide Tokens, Print, Place, Show, Paren;
    SplitPrint(s, at, d, "&");
    LexParen(d, s, at);
    LexSymbol(s, at + |Print(d)| + 2, '&');
  }

  /** The parts of a printing are where Place says. */
  lemma PairParts(t: Cmd<string>, l: Cmd<string>, c: char, r: Cmd<string>, s: string, at: nat)
    requires (t == Pipe(l, r) && c == '|') || (t == List(l, r) && c == ';')
    requires Holds(s, at, Print(t))
    ensures at + |Print(t)| <= |s| && Holds(s, at + 1, Print(l)) && at + 1 + |Print(l)| <= |s|
    ensures Holds(s, at + |Print(l)| + 4, Print(r)) && at + |Print(l)| + 4 + |Print(r)| <= |s|
  {
    hide Holds;
    SplitPair(l, c, r, s, at);
    HoldsEnd(s, at, Print(t));
    HoldsEnd(s, at + 1, Print(l));
    HoldsEnd(s, at + |Print(l)| + 4, Print(r));
  }

  lemma LexPair(t: Cmd<string>, l: Cmd<string>, c: char, r: Cmd<string>, s: string, at: nat)
    requires (t == Pipe(l, r) && c == '|') || (t == List(l, r) && c == ';')
    requires Holds(s, at, Print(t)) && at + |Print(t)| <= |s|
    requires at + 1 + |Print(l)| <= |s| && Tokens(s, at + 1) == Show(Place(l, at + 1)) + Tokens(s, at + 1 + |Print(l)|)
    requires var m := at + |Print(l)| + 4;
             m + |Print(r)| <= |s| && Tokens(s, m) == Show(Place(r, m)) + Tokens(s, m + |Print(r)|)
    ensures Tokens(s, at) == Show(Place(t, at)) + Tokens(s, at + |Print(t)|)
  {
    hide Tokens, Paren, Holds;
    LexJoined(l, c, r, s, at);
  }

  lemma RedirParts(d: Cmd<string>, to: Redirection<string>, s: string, at: nat)
    requires Holds(s, at, Print(Redir(d, to)))
    ensures at + |Print(Redir(d, to))| <= |s| && Holds(s, at + 1, Print(d)) && at + 1 + |Print(d)| <= |s|
  {
    hide Holds;
    SplitRedir(d, to, s, at);
    HoldsEnd(s, at, Print(Redir(d, to)));
    HoldsEnd(s, at + 1, Print(d));
  }

  lemma LexRedirected(d: Cmd<string>, to: Redirection<string>, s: string, at: nat)
    requires Holds(s, at, Print(Redir(d, to))) && at + |Print(Redir(d, to))| <= |s| && GoodWord(to.file)
    requires at + 1 + |Print(d)| <= |s| && Tokens(s, at + 1) == Show(Place(d, at + 1)) + Tokens(s, at + 1 + |Print(d)|)
    ensures Tokens(s, at) == Show(Place(Redir(d, to), at)) + Tokens(s, at + |Print(Redir(d, to))|)
  {
    hide Tokens, Paren, Holds, GoodWord, PrintMode;
    LexRedir(d, to, s, at);
  }

  lemma BackParts(d: Cmd<string>, s: string, at: nat)
    requires Holds(s, at, Print(Back(d)))
    ensures at + |Print(Back(d))| <= |s| && Holds(s, at + 1, Print(d)) && at + 1 + |Print(d)| <= |s|
  {
    hide Holds;
    SplitPrint(s, at, d, "&");
    HoldsEnd(s, at, Print(Back(d)));
    HoldsEnd(s, at + 1, Print(d));
  }

  lemma LexBacked(d: Cmd<string>, s: string, at: nat)
    requires Holds(s, at, Print(Back(d))) && at + |Print(Back(d))| <= |s|
    requires at + 1 + |Print(d)| <= |s| && Tokens(s, at + 1) == Show(Place(d, at + 1)) + Tokens(s, at + 1 + |Print(d)|)
    ensures Tokens(s, at) == Show(Place(Back(d), at)) + Tokens(s, at + |Print(Back(d))|)
  {
    hide Tokens, Paren, Holds;
    LexBack(d, s, at);
  }

  lemma LexExec(argv: seq<string>, s: string, at: nat)
    requires Typable(Exec(argv)) && Holds(s, at, Print(Exec(argv)))
    ensures at + |Print(Exec(argv))| <= |s|
    ensures Tokens(s, at) == Show(Place(Exec(argv), at)) + Tokens(s, at + |Print(Exec(argv))|)
  {
    hide Tokens, GoodWord;
    HoldsEnd(s, at, Print(Exec(argv)));
    LexWords(argv, s, at);
  }

  /** The tokens of the printing are the printing in tokens. */
  lemma {:induction false} LexPrint(t: Cmd<string>, s: string, at: nat)
    requires Typable(t) && Holds(s, at, Print(t))
    ensures at + |Print(t)| <= |s| && Tokens(s, at) == Show(Place(t, at)) + Tokens(s, at + |Print(t)|)
    decreases t
  {
    hide Tokens, Holds, GoodWord, Print, Place, Show;
    match t
    case Exec(argv) =>
      LexExec(argv, s, at);
    case Redir(d, to) =>
      RedirParts(d, to, s, at);
      LexPrint(d, s, at + 1);
      LexRedirected(d, to, s, at);
    case Pipe(l, r) =>
      PairParts(t, l, '|', r, s, at);
      LexPrint(l, s, at + 1);
      LexPrint(r, s, at + |Print(l)| + 4);
      LexPair(t, l, '|', r, s, at);
    case List(l, r) =>
      PairParts(t, l, ';', r, s, at);
      LexPrint(l, s, at + 1);
      LexPrint(r, s, at + |Print(l)| + 4);
      LexPair(t, l, ';', r, s, at);
    case Back(d) =>
      BackParts(d, s, at);
      LexPrint(d, s, at + 1);
      LexBacked(d, s, at);
  }

  lemma HoldsEnd(s: string, i: nat, text: string)
    requires Holds(s, i, text)
    ensures i + |text| <= |s| && s[i..i + |text|] == text
  {
  }

  /** A command with its words read from a string. */
  function TextOf(c: Cmd<Span>, s: string): Cmd<string> {
    match c
    case Exec(argv) => Exec(seq(|argv|, i requires 0 <= i < |argv| => Slice(s, argv[i])))
    case Redir(d, to) => Redir(TextOf(d, s), Redirection(Slice(s, to.file), to.mode))
    case Pipe(l, r) => Pipe(TextOf(l, s), TextOf(r, s))
    case List(l, r) => List(TextOf(l, s), TextOf(r, s))
    case Back(d) => Back(TextOf(d, s))
  }

  function Slice(s: string, w: Span): string {
    if w.q <= w.eq <= |s| then s[w.q..w.eq] else ""
  }

  lemma {:induction false} SliceWords(argv: seq<string>, s: string, at: nat)
    requires Holds(s, at, PrintWords(argv))
    ensures |PlaceWords(argv, at)| == |argv| && forall i :: 0 <= i < |argv| ==>
            Slice(s, PlaceWords(argv, at)[i]) == argv[i]
    decreases |argv|
  {
    hide Holds;
    if argv != [] {
      var n := at + |argv[0]| + 1;
      assert PrintWords(argv) == argv[0] + (" " + PrintWords(argv[1..]));
      HoldsBoth(s, at, argv[0], " " + PrintWords(argv[1..]));
      HoldsEnd(s, at, argv[0]);
      HoldsBoth(s, n - 1, " ", PrintWords(argv[1..]));
      SliceWords(argv[1..], s, n);
      forall i | 0 <= i < |argv| ensures Slice(s, PlaceWords(argv, at)[i]) == argv[i] {
        assert i > 0 ==> PlaceWords(argv, at)[i] == PlaceWords(argv[1..], n)[i - 1];
      }
    }
  }

  /** The words at their places are the words. */
  lemma {:induction false} TextPlaced(t: Cmd<string>, s: string, at: nat)
    requires Holds(s, at, Print(t))
    ensures TextOf(Place(t, at), s) == t
    decreases t
  {
    hide Holds, PrintMode;
    match t
    case Exec(argv) =>
      SliceWords(argv, s, at);
    case Redir(d, to) =>
      SplitRedir(d, to, s, at);
      HoldsEnd(s, at + |Print(d)| + 2 + |PrintMode(to.mode)|, to.file);
      TextPlaced(d, s, at + 1);
    case Pipe(l, r) =>
      SplitPair(l, '|', r, s, at);
      TextPlaced(l, s, at + 1);
      TextPlaced(r, s, at + |Print(l)| + 4);
    case List(l, r) =>
      SplitPair(l, ';', r, s, at);
      TextPlaced(l, s, at + 1);
      TextPlaced(r, s, at + |Print(l)| + 4);
    case Back(d) =>
      SplitPrint(s, at, d, "&");
      TextPlaced(d, s, at + 1);
  }

  lemma {:induction false} PlaceFits(t: Cmd<string>, at: nat)
    requires Typable(t)
    ensures Fits(Place(t, at))
    decreases t
  {
    match t
    case Exec(argv) => PlaceLength(argv, at);
    case Redir(d, to) => PlaceFits(d, at + 1);
    case Pipe(l, r) => PlaceFits(l, at + 1); PlaceFits(r, at + |Print(l)| + 4);
    case List(l, r) => PlaceFits(l, at + 1); PlaceFits(r, at + |Print(l)| + 4);
    case Back(d) => PlaceFits(d, at + 1);
  }

  lemma {:induction false} PlaceLength(argv: seq<string>, at: nat)
    ensures |PlaceWords(argv, at)| == |argv|
    decreases |argv|
  {
    if argv != [] {
      PlaceLength(argv[1..], at + |argv[0]| + 1);
    }
  }

  /** Every command that can be typed comes back from parsing its canonical printing, word for word. */
  lemma RoundTrip(t: Cmd<string>)
    requires Typable(t)
    ensures var s := Print(t);
            Line(Tokens(s, 0)).Ok? && Line(Tokens(s, 0)).rest == [] && TextOf(Line(Tokens(s, 0)).v, s) == t
  {
    hide Print, Place, Line, Show;
    var s := Print(t);
    assert Holds(s, 0, s);
    LexPrint(t, s, 0);
    TextPlaced(t, s, 0);
    PlaceFits(t, 0);
    var none := Tokens(s, |s|);
    LineShown(Place(t, 0), none);
  }
}
