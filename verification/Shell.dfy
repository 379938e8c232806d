/** The shell's parser: tokens and grammar, the parser that reads characters as it goes, and the strings it leaves. */
module Shell {

  const MAXARGS: nat := 10

  /** How a redirection opens its file: '<', '>' or '>>'. */
  datatype Mode = In | Out | Append

  datatype Redirection<W> = Redirection(file: W, mode: Mode)

  /** A command, with words as strings or as places in a buffer. */
  datatype Cmd<W> =
    | Exec(argv: seq<W>)
    | Redir(cmd: Cmd<W>, to: Redirection<W>)
    | Pipe(left: Cmd<W>, right: Cmd<W>)
    | List(first: Cmd<W>, rest: Cmd<W>)
    | Back(job: Cmd<W>)

  datatype Tok<W> = Word(w: W) | Sym(c: char)      // '+' stands for ">>"

  datatype Res<T, W> = Fail | Ok(v: T, rest: seq<Tok<W>>)

  // ------------------------------------------------------------------------------------------------------------------
  // The grammar, over tokens
  // ------------------------------------------------------------------------------------------------------------------

  predicate Next<W>(ts: seq<Tok<W>>, c: char) {
    ts != [] && ts[0].Sym? && ts[0].c == c
  }

  function ModeOf(c: char): Mode {
    if c == '<' then In else if c == '>' then Out else Append
  }

  predicate IsRedir<W>(ts: seq<Tok<W>>) {
    Next(ts, '<') || Next(ts, '>') || Next(ts, '+')
  }

  /** Redirections as long as there are any. */
  function Redirs<W>(ts: seq<Tok<W>>): (r: Res<seq<Redirection<W>>, W>)
    ensures r.Ok? ==> |r.rest| <= |ts|
  {
    if !IsRedir(ts) then Ok([], ts)
    else if |ts| < 2 || !ts[1].Word? then Fail
    else match Redirs(ts[2..])
      case Fail => Fail
      case Ok(rs, rest) => Ok([Redirection(ts[1].w, ModeOf(ts[0].c))] + rs, rest)
  }

  /** Each redirection around what is there already. */
  function Wrap<W>(c: Cmd<W>, rs: seq<Redirection<W>>): Cmd<W>
    decreases |rs|
  {
    if rs == [] then c else Wrap(Redir(c, rs[0]), rs[1..])
  }

  predicate Stops<W>(ts: seq<Tok<W>>) {
    ts == [] || Next(ts, '|') || Next(ts, ')') || Next(ts, '&') || Next(ts, ';')
  }

  /** The words and redirections of a simple command after those in argv and rs. */
  function Words<W>(argv: seq<W>, rs: seq<Redirection<W>>, ts: seq<Tok<W>>): (r: Res<Cmd<W>, W>)
    ensures r.Ok? ==> |r.rest| <= |ts|
    decreases |ts|
  {
    if Stops(ts) then Ok(Wrap(Exec(argv), rs), ts)
    else if !ts[0].Word? || |argv| + 1 >= MAXARGS then Fail
    else match Redirs(ts[1..])
      case Fail => Fail
      case Ok(more, rest) => Words(argv + [ts[0].w], rs + more, rest)
  }

  function Simple<W>(ts: seq<Tok<W>>): (r: Res<Cmd<W>, W>)
    ensures r.Ok? ==> |r.rest| <= |ts|
  {
    match Redirs(ts)
    case Fail => Fail
    case Ok(rs, rest) => Words([], rs, rest)
  }

  function Block<W>(ts: seq<Tok<W>>): (r: Res<Cmd<W>, W>)
    requires Next(ts, '(')
    ensures r.Ok? ==> |r.rest| <= |ts|
    decreases |ts|, 0
  {
    match Line(ts[1..])
    case Fail => Fail
    case Ok(c, rest) =>
      if !Next(rest, ')') then Fail
      else match Redirs(rest[1..])
        case Fail => Fail
        case Ok(rs, rest') => Ok(Wrap(c, rs), rest')
  }

  function Pipeline<W>(ts: seq<Tok<W>>): (r: Res<Cmd<W>, W>)
    ensures r.Ok? ==> |r.rest| <= |ts|
    decreases |ts|, 1
  {
    match (if Next(ts, '(') then Block(ts) else Simple(ts))
    case Fail => Fail
    case Ok(c, rest) =>
      if !Next(rest, '|') then Ok(c, rest)
      else match Pipeline(rest[1..])
        case Fail => Fail
        case Ok(d, rest') => Ok(Pipe(c, d), rest')
  }

  /** As many backgrounds as there are ampersands. */
  function Backs<W>(c: Cmd<W>, ts: seq<Tok<W>>): (r: (Cmd<W>, seq<Tok<W>>))
    ensures |r.1| <= |ts|
    decreases |ts|
  {
    if Next(ts, '&') then Backs(Back(c), ts[1..]) else (c, ts)
  }

  function Line<W>(ts: seq<Tok<W>>): (r: Res<Cmd<W>, W>)
    ensures r.Ok? ==> |r.rest| <= |ts|
    decreases |ts|, 2
  {
    match Pipeline(ts)
    case Fail => Fail
    case Ok(c, rest) =>
      var (d, rest') := Backs(c, rest);
      if !Next(rest', ';') then Ok(d, rest')
      else match Line(rest'[1..])
        case Fail => Fail
        case Ok(e, rest'') => Ok(List(d, e), rest'')
  }

  // ------------------------------------------------------------------------------------------------------------------
  // The canonical printing, as tokens
  // ------------------------------------------------------------------------------------------------------------------

  function SymOf(m: Mode): char {
    match m case In => '<' case Out => '>' case Append => '+'
  }

  function WordToks<W>(argv: seq<W>): seq<Tok<W>> {
    if argv == [] then [] else [Word(argv[0])] + WordToks(argv[1..])
  }

  function Paren<W>(ts: seq<Tok<W>>): seq<Tok<W>> {
    [Sym('(')] + ts + [Sym(')')]
  }

  /** Every part of a command in parentheses. */
  function Show<W>(c: Cmd<W>): seq<Tok<W>> {
    match c
    case Exec(argv) => WordToks(argv)
    case Redir(d, to) => Paren(Show(d)) + [Sym(SymOf(to.mode)), Word(to.file)]
    case Pipe(l, r) => Paren(Show(l)) + [Sym('|')] + Paren(Show(r))
    case List(l, r) => Paren(Show(l)) + [Sym(';')] + Paren(Show(r))
    case Back(d) => Paren(Show(d)) + [Sym('&')]
  }

  /** No simple command has too many words. */
  predicate Fits<W>(c: Cmd<W>) {
    match c
    case Exec(argv) => |argv| < MAXARGS
    case Redir(d, _) => Fits(d)
    case Pipe(l, r) => Fits(l) && Fits(r)
    case List(l, r) => Fits(l) && Fits(r)
    case Back(d) => Fits(d)
  }

  /** Where a block or the input ends. */
  predicate Closed<W>(ts: seq<Tok<W>>) {
    ts == [] || Next(ts, ')')
  }

  lemma WordsStep<W>(argv: seq<W>, w: W, rest: seq<Tok<W>>)
    requires |argv| + 1 < MAXARGS && Redirs(rest) == Ok([], rest)
    ensures Words(argv, [], [Word(w)] + rest) == Words(argv + [w], [], rest)
  {
    hide Redirs;
    var ts := [Word(w)] + rest;
    assert ts[1..] == rest && ts[0] == Word(w);
    var none: seq<Redirection<W>> := [];
    assert none + none == none;
  }

  lemma WordsStop<W>(argv: seq<W>, tail: seq<Tok<W>>)
    requires Closed(tail)
    ensures Words(argv, [], tail) == Ok(Exec(argv), tail)
  {
  }

  lemma {:induction false} WordsShown<W>(argv: seq<W>, more: seq<W>, tail: seq<Tok<W>>)
    requires Closed(tail) && |argv| + |more| < MAXARGS
    ensures Words(argv, [], WordToks(more) + tail) == Ok(Exec(argv + more), tail)
    decreases |more|
  {
    hide Words, Redirs;
    if more == [] {
      assert WordToks(more) + tail == tail && argv + more == argv;
      WordsStop(argv, tail);
    } else {
      var rest := WordToks(more[1..]) + tail;
      NoRedirs(more[1..], tail);
      WordsStep(argv, more[0], rest);
      WordsShown(argv + [more[0]], more[1..], tail);
      assert WordToks(more) + tail == [Word(more[0])] + rest;
      assert argv + [more[0]] + more[1..] == argv + more;
    }
  }

  lemma NoRedirs<W>(words: seq<W>, tail: seq<Tok<W>>)
    requires Closed(tail)
    ensures Redirs(WordToks(words) + tail) == Ok([], WordToks(words) + tail)
  {
    var ts := WordToks(words) + tail;
    assert words != [] ==> ts[0] == Word(words[0]);
    assert words == [] ==> ts == tail;
  }

  lemma ExecShown<W>(argv: seq<W>, tail: seq<Tok<W>>)
    requires Closed(tail) && |argv| < MAXARGS
    ensures Line(WordToks(argv) + tail) == Ok(Exec(argv), tail)
  {
    hide Words, Redirs, Block;
    var ts := WordToks(argv) + tail;
    NoRedirs(argv, tail);
    WordsShown([], argv, tail);
    assert [] + argv == argv;
  }

  /** A block whose inside parses, and the redirections after it. */
  lemma BlockShown<W>(c: Cmd<W>, after: seq<Tok<W>>, rs: seq<Redirection<W>>, rest: seq<Tok<W>>)
    requires Line(Show(c) + ([Sym(')')] + after)) == Ok(c, [Sym(')')] + after) && Redirs(after) == Ok(rs, rest)
    ensures Next(Paren(Show(c)) + after, '(') && Block(Paren(Show(c)) + after) == Ok(Wrap(c, rs), rest)
  {
    hide Show, Redirs, Line, Wrap;
    var ts := Paren(Show(c)) + after;
    assert ts[1..] == Show(c) + ([Sym(')')] + after);
    assert ([Sym(')')] + after)[1..] == after;
  }

  lemma RedirShown<W>(d: Cmd<W>, to: Redirection<W>, tail: seq<Tok<W>>)
    requires Closed(tail) && var after := [Sym(SymOf(to.mode)), Word(to.file)] + tail;
             Line(Show(d) + ([Sym(')')] + after)) == Ok(d, [Sym(')')] + after)
    ensures Line(Show(Redir(d, to)) + tail) == Ok(Redir(d, to), tail)
  {
    var after := [Sym(SymOf(to.mode)), Word(to.file)] + tail;
    assert after[2..] == tail && Redirs(tail) == Ok([], tail);
    assert ModeOf(SymOf(to.mode)) == to.mode && [to] + [] == [to];
    assert Redirs(after) == Ok([to], tail);
    BlockShown(d, after, [to], tail);
    assert Wrap(d, [to]) == Redir(d, to);
    assert Show(Redir(d, to)) + tail == Paren(Show(d)) + after;
  }

  lemma BackShown<W>(d: Cmd<W>, tail: seq<Tok<W>>)
    requires Closed(tail) && var after := [Sym('&')] + tail;
             Line(Show(d) + ([Sym(')')] + after)) == Ok(d, [Sym(')')] + after)
    ensures Line(Show(Back(d)) + tail) == Ok(Back(d), tail)
  {
    var after := [Sym('&')] + tail;
    assert after[1..] == tail;
    BlockShown(d, after, [], after);
    assert Show(Back(d)) + tail == Paren(Show(d)) + after;
    assert Backs(d, after) == (Back(d), tail);
  }

  /** A block alone. */
  lemma OneBlock<W>(c: Cmd<W>, tail: seq<Tok<W>>)
    requires Closed(tail) && Line(Show(c) + ([Sym(')')] + tail)) == Ok(c, [Sym(')')] + tail)
    ensures Pipeline(Paren(Show(c)) + tail) == Ok(c, tail) && Line(Paren(Show(c)) + tail) == Ok(c, tail)
  {
    BlockShown(c, tail, [], tail);
  }

  /** Two blocks joined by c, which is '|' or ';'. */
  function Joined<W>(l: Cmd<W>, c: char, r: Cmd<W>): seq<Tok<W>> {
    Paren(Show(l)) + [Sym(c)] + Paren(Show(r))
  }

  lemma FirstBlock<W>(l: Cmd<W>, c: char, r: Cmd<W>, tail: seq<Tok<W>>)
    requires c == '|' || c == ';'
    requires var after := [Sym(c)] + (Paren(Show(r)) + tail);
             Line(Show(l) + ([Sym(')')] + after)) == Ok(l, [Sym(')')] + after)
    ensures var after := [Sym(c)] + (Paren(Show(r)) + tail); var ts := Joined(l, c, r) + tail;
            Next(ts, '(') && Block(ts) == Ok(l, after) && after[1..] == Paren(Show(r)) + tail
  {
    hide Line, Block, Show;
    var after := [Sym(c)] + (Paren(Show(r)) + tail);
    assert Redirs(after) == Ok([], after);
    BlockShown(l, after, [], after);
    assert Joined(l, c, r) + tail == Paren(Show(l)) + after;
  }

  lemma PipeShown<W>(l: Cmd<W>, r: Cmd<W>, tail: seq<Tok<W>>)
    requires Closed(tail) && Line(Show(r) + ([Sym(')')] + tail)) == Ok(r, [Sym(')')] + tail)
    requires var after := [Sym('|')] + (Paren(Show(r)) + tail);
             Line(Show(l) + ([Sym(')')] + after)) == Ok(l, [Sym(')')] + after)
    ensures Line(Joined(l, '|', r) + tail) == Ok(Pipe(l, r), tail)
  {
    hide Show, Paren, Joined, Block;
    FirstBlock(l, '|', r, tail);
    OneBlock(r, tail);
  }

  lemma ListShown<W>(l: Cmd<W>, r: Cmd<W>, tail: seq<Tok<W>>)
    requires Closed(tail) && Line(Show(r) + ([Sym(')')] + tail)) == Ok(r, [Sym(')')] + tail)
    requires var after := [Sym(';')] + (Paren(Show(r)) + tail);
             Line(Show(l) + ([Sym(')')] + after)) == Ok(l, [Sym(')')] + after)
    ensures Line(Joined(l, ';', r) + tail) == Ok(List(l, r), tail)
  {
    hide Show, Paren, Joined, Block;
    FirstBlock(l, ';', r, tail);
    OneBlock(r, tail);
  }

  /** Parsing the printing of a command gives it back. */
  lemma {:induction false} LineShown<W>(c: Cmd<W>, tail: seq<Tok<W>>)
    requires Fits(c) && Closed(tail)
    ensures Line(Show(c) + tail) == Ok(c, tail)
    decreases c
  {
    hide Line;
    match c
    case Exec(argv) =>
      ExecShown(argv, tail);
    case Redir(d, to) =>
      LineShown(d, [Sym(')')] + ([Sym(SymOf(to.mode)), Word(to.file)] + tail));
      RedirShown(d, to, tail);
    case Pipe(l, r) =>
      LineShown(l, [Sym(')')] + ([Sym('|')] + (Paren(Show(r)) + tail)));
      LineShown(r, [Sym(')')] + tail);
      PipeShown(l, r, tail);
    case List(l, r) =>
      LineShown(l, [Sym(')')] + ([Sym(';')] + (Paren(Show(r)) + tail)));
      LineShown(r, [Sym(')')] + tail);
      ListShown(l, r, tail);
    case Back(d) =>
      LineShown(d, [Sym(')')] + ([Sym('&')] + tail));
      BackShown(d, tail);
  }
}
