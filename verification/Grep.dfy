/** The matcher and the line loop of grep. Strings are what a C string holds, without the final NUL. */
module Grep {

  // ------------------------------------------------------------------------------------------------------------------
  // What a pattern means
  // ------------------------------------------------------------------------------------------------------------------

  /** One character, any character with '.', or any number of them. */
  datatype Token = One(c: char) | Star(c: char)

  /** The tokens of a pattern, and whether it ends in a '$' that stands for the end. */
  datatype Pattern = Pattern(toks: seq<Token>, end: bool)

  function Parse(re: string): Pattern {
    if re == [] then Pattern([], false)
    else if |re| > 1 && re[1] == '*' then Parse(re[2..]).(toks := [Star(re[0])] + Parse(re[2..]).toks)
    else if re == "$" then Pattern([], true)
    else Parse(re[1..]).(toks := [One(re[0])] + Parse(re[1..]).toks)
  }

  predicate Accepts(c: char, x: char) {
    c == '.' || c == x
  }

  /** The first k characters of w are all accepted by c. */
  predicate Run(c: char, w: string, k: nat) {
    k <= |w| && forall i :: 0 <= i < k ==> Accepts(c, w[i])
  }

  /** The string w is one the tokens stand for. */
  ghost predicate InLanguage(toks: seq<Token>, w: string)
    decreases |toks|
  {
    if toks == [] then w == []
    else match toks[0]
      case One(c) => |w| > 0 && Accepts(c, w[0]) && InLanguage(toks[1..], w[1..])
      case Star(c) => exists k: nat {:trigger Run(c, w, k)} :: Run(c, w, k) && InLanguage(toks[1..], w[k..])
  }

  /** The first n characters of text are in the language, and are all of it if the pattern asks for the end. */
  ghost predicate Prefix(re: string, text: string, n: nat) {
    n <= |text| && InLanguage(Parse(re).toks, text[..n]) && (Parse(re).end ==> n == |text|)
  }

  /** The pattern matches at the beginning of text. */
  ghost predicate Here(re: string, text: string) {
    exists n: nat :: Prefix(re, text, n)
  }

  /** The pattern matches somewhere in text; with '^', at its beginning. */
  ghost predicate Matches(re: string, text: string) {
    if re != [] && re[0] == '^' then Here(re[1..], text)
    else exists i: nat {:trigger text[i..]} :: i <= |text| && Here(re, text[i..])
  }

  // ------------------------------------------------------------------------------------------------------------------
  // The meaning, one character of the pattern at a time
  // ------------------------------------------------------------------------------------------------------------------

  lemma HereEmpty(text: string)
    ensures Here("", text)
  {
    assert Prefix("", text, 0);
  }

  lemma HereEnd(text: string)
    ensures Here("$", text) <==> text == ""
  {
    if text == "" {
      assert Prefix("$", text, 0);
    }
  }

  lemma HereOne(re: string, text: string)
    requires re != [] && !(|re| > 1 && re[1] == '*') && re != "$"
    ensures Here(re, text) <==> text != [] && Accepts(re[0], text[0]) && Here(re[1..], text[1..])
  {
    if Here(re, text) {
      var n: nat :| Prefix(re, text, n);
      assert text[..n][1..] == text[1..][..n - 1];
      assert Prefix(re[1..], text[1..], n - 1);
    }
    if text != [] && Accepts(re[0], text[0]) && Here(re[1..], text[1..]) {
      var n: nat :| Prefix(re[1..], text[1..], n);
      assert text[..n + 1][1..] == text[1..][..n];
      assert Prefix(re, text, n + 1);
    }
  }

  /** A character with a star, split off any way that leaves a match of the rest. */
  ghost predicate StarHere(c: char, re: string, text: string) {
    exists k: nat {:trigger Run(c, text, k)} :: Run(c, text, k) && Here(re, text[k..])
  }

  lemma HereStar(re: string, text: string)
    requires |re| > 1 && re[1] == '*'
    ensures Here(re, text) <==> StarHere(re[0], re[2..], text)
  {
    if Here(re, text) {
      var n: nat :| Prefix(re, text, n);
      var w := text[..n];
      var k: nat :| Run(re[0], w, k) && InLanguage(Parse(re[2..]).toks, w[k..]);
      assert w[k..] == text[k..][..n - k];
      assert Prefix(re[2..], text[k..], n - k);
      assert Run(re[0], text, k);
    }
    if StarHere(re[0], re[2..], text) {
      var k: nat :| Run(re[0], text, k) && Here(re[2..], text[k..]);
      var n: nat :| Prefix(re[2..], text[k..], n);
      var w := text[..k + n];
      assert w[k..] == text[k..][..n];
      assert Run(re[0], w, k);
      assert Prefix(re, text, k + n);
    }
  }

  // ------------------------------------------------------------------------------------------------------------------
  // The matcher
  // ------------------------------------------------------------------------------------------------------------------

  /** match. */
  method Match(re: string, text: string) returns (b: bool)
    ensures b <==> Matches(re, text)
  {
    if re != [] && re[0] == '^' {
      b := MatchHere(re[1..], text);
      return;
    }
    var i := 0;
    while true
      invariant 0 <= i <= |text| && forall j: nat {:trigger text[j..]} :: j < i ==> !Here(re, text[j..])
      decreases |text| - i
    {
      b := MatchHere(re, text[i..]);
      if b {
        return;
      }
      if i == |text| {
        break;
      }
      i := i + 1;
    }
    return false;
  }

  /** matchhere. */
  method MatchHere(re: string, text: string) returns (b: bool)
    ensures b <==> Here(re, text)
    decreases |re|, 0
  {
    if re == [] {
      HereEmpty(text);
      return true;
    }
    if |re| > 1 && re[1] == '*' {
      HereStar(re, text);
      b := MatchStar(re[0], re[2..], text);
      return;
    }
    if re[0] == '$' && |re| == 1 {
      HereEnd(text);
      assert re == "$";
      return text == [];
    }
    HereOne(re, text);
    if text != [] && (re[0] == '.' || re[0] == text[0]) {
      b := MatchHere(re[1..], text[1..]);
      return;
    }
    return false;
  }

  /** matchstar: zero or more, tried in increasing number. */
  method MatchStar(c: char, re: string, text: string) returns (b: bool)
    ensures b <==> StarHere(c, re, text)
    decreases |re|, 1
  {
    var i := 0;
    while true
      invariant 0 <= i <= |text| && Run(c, text, i)
      invariant forall k: nat {:trigger text[k..]} :: k < i ==> !Here(re, text[k..])
      decreases |text| - i
    {
      b := MatchHere(re, text[i..]);
      if b {
        return;
      }
      if i == |text| || !(text[i] == c || c == '.') {
        break;
      }
      i := i + 1;
    }
    return false;
  }

  // ------------------------------------------------------------------------------------------------------------------
  // The lines of a file
  // ------------------------------------------------------------------------------------------------------------------

  const SIZE: nat := 1024           // sizeof(buf)

  predicate Ends(x: char) {
    x == '\n' || x == '\0'
  }

  /** The first place strchr stops at. */
  function Scan(s: string): (i: nat)
    ensures i <= |s| && (forall j :: 0 <= j < i ==> !Ends(s[j])) && (i < |s| ==> Ends(s[i]))
  {
    if s == [] || Ends(s[0]) then 0 else 1 + Scan(s[1..])
  }

  /** The lines of s that match, each with its newline, up to the first one that holds a NUL, does not fit the buffer or
      has no newline. */
  ghost function Selected(re: string, s: string): string
    decreases |s|
  {
    var i := Scan(s);
    if i == |s| || s[i] == '\0' || i > SIZE - 2 then ""
    else (if Matches(re, s[..i]) then s[..i + 1] else "") + Selected(re, s[i + 1..])
  }

  /** A string in which strchr finds no newline. */
  predicate Incomplete(b: string) {
    var i := Scan(b); i < |b| ==> b[i] == '\0'
  }

  /** Nothing is selected from a line that is not complete where the file or the buffer ends, or holds a NUL. */
  lemma Stuck(re: string, s: string, m: nat)
    requires m <= |s| && (m == |s| || m == SIZE - 1) && Incomplete(s[..m])
    ensures Selected(re, s) == ""
  {
    ScanMore(s, m);
  }

  lemma ScanMore(s: string, m: nat)
    requires m <= |s|
    ensures var i := Scan(s[..m]); if i < m then Scan(s) == i else Scan(s) >= m
  {
    assert forall j :: 0 <= j < m ==> s[..m][j] == s[j];
  }

  /** A complete line at the beginning of what is buffered. */
  lemma SelectedLine(re: string, s: string, b: string, k: nat)
    requires b <= s && k < |b| < SIZE && b[k] == '\n' && forall j :: 0 <= j < k ==> !Ends(b[j])
    ensures Selected(re, s) == (if Matches(re, b[..k]) then b[..k] + ['\n'] else "") + Selected(re, s[k + 1..])
    ensures b[k + 1..] <= s[k + 1..]
  {
    hide Matches;
    assert forall j :: 0 <= j <= k ==> s[j] == b[j];
    assert Scan(s) == k;
    assert s[..k] == b[..k] && s[..k + 1] == b[..k] + ['\n'];
  }

  /** The file with these lines. */
  function Text(lines: seq<string>): string {
    if lines == [] then "" else lines[0] + ['\n'] + Text(lines[1..])
  }

  /** The lines that match. */
  ghost function Matching(re: string, lines: seq<string>): seq<string> {
    if lines == [] then [] else (if Matches(re, lines[0]) then [lines[0]] else []) + Matching(re, lines[1..])
  }

  /** Of a file of ordinary lines that fit the buffer, exactly the matching lines are selected, in order. */
  lemma {:induction false} SelectedLines(re: string, lines: seq<string>)
    requires forall k :: 0 <= k < |lines| ==> |lines[k]| <= SIZE - 2 && forall j :: 0 <= j < |lines[k]| ==>
             !Ends(lines[k][j])
    ensures Selected(re, Text(lines)) == Text(Matching(re, lines))
    decreases |lines|
  {
    hide Matches;
    if lines != [] {
      var s, line := Text(lines), lines[0];
      SelectedLine(re, s, line + ['\n'], |line|);
      assert (line + ['\n'])[..|line|] == line;
      assert s[|line| + 1..] == Text(lines[1..]);
      SelectedLines(re, lines[1..]);
      TextMatching(re, lines);
    }
  }

  lemma TextMatching(re: string, lines: seq<string>)
    requires lines != []
    ensures Text(Matching(re, lines)) == (if Matches(re, lines[0]) then lines[0] + ['\n'] else "") +
            Text(Matching(re, lines[1..]))
  {
    hide Matches;
    var rest := Matching(re, lines[1..]);
    assert ([lines[0]] + rest)[1..] == rest && [] + rest == rest;
  }

  /** strchr(buf + p, '\n'), where a NUL follows the m characters read. */
  method FindNewline(buf: array<char>, p: nat, m: nat) returns (found: bool, q: nat)
    requires p <= m < buf.Length && buf[m] == '\0'
    ensures p <= q <= m && (forall j :: p <= j < q ==> !Ends(buf[j]))
    ensures if found then q < m && buf[q] == '\n' else buf[q] == '\0'
  {
    q := p;
    while buf[q] != '\0'
      invariant p <= q <= m && forall j :: p <= j < q ==> !Ends(buf[j])
      decreases m - q
    {
      if buf[q] == '\n' {
        return true, q;
      }
      q := q + 1;
    }
    return false, q;
  }

  /** memmove(buf, buf + p, n). */
  method MoveDown(buf: array<char>, p: nat, n: nat)
    requires p + n <= buf.Length
    modifies buf
    ensures buf[..n] == old(buf[p..p + n])
  {
    var i := 0;
    while i < n
      invariant 0 <= i <= n && forall j :: 0 <= j < i ==> buf[j] == old(buf[p + j])
      invariant forall j :: i <= j < buf.Length ==> buf[j] == old(buf[j])
    {
      buf[i] := buf[p + i];
      i := i + 1;
    }
  }

  /** read: some of what is left, as much as the caller has room for; nothing at the end of the file; or an error. */
  method Read(left: nat, room: nat) returns (n: int)
    ensures -1 <= n <= left && n <= room
    ensures n == 0 ==> left == 0 || room == 0
  {
    var error: bool := *;
    if error {
      return -1;
    }
    if left == 0 || room == 0 {
      return 0;
    }
    var k :| 1 <= k <= left && k <= room;
    return k;
  }

  /** The lines in the buffer: those that match are written, and what is left begins at p. */
  method GrepLines(re: string, buf: array<char>, m: nat, ghost s: string) returns (out: string, p: nat)
    requires m < buf.Length == SIZE && buf[m] == '\0' && buf[..m] <= s
    modifies buf
    ensures p <= m && buf[p..m] <= s[p..] && Selected(re, s) == out + Selected(re, s[p..])
    ensures Incomplete(buf[p..m])
  {
    hide Selected, Matches, Scan, Incomplete;
    out, p := "", 0;
    ghost var t := s;
    while true
      invariant 0 <= p <= m && buf[m] == '\0' && t == s[p..] && buf[p..m] <= t
      invariant Selected(re, s) == out + Selected(re, t)
      decreases m - p
    {
      var found, q := FindNewline(buf, p, m);
      ghost var b := buf[p..m];
      assert forall j :: p <= j < m ==> b[j - p] == buf[j];
      if !found {
        ScanAt(b, q - p);
        return;
      }
      SelectedLine(re, t, b, q - p);
      buf[q] := '\0';
      var line := buf[p..q];
      assert line == b[..q - p];
      var hit := Match(re, line);
      if hit {
        buf[q] := '\n';
        assert buf[p..q + 1] == line + ['\n'];
        out := out + buf[p..q + 1];
      }
      assert buf[q + 1..m] == b[q - p + 1..];
      p, t := q + 1, t[q - p + 1..];
    }
  }

  /** Where a search that found no newline stopped. */
  lemma ScanAt(s: string, i: nat)
    requires i <= |s| && (forall j :: 0 <= j < i ==> !Ends(s[j])) && (i < |s| ==> s[i] == '\0')
    ensures Incomplete(s)
  {
    assert Scan(s) == i;
  }

  /** grep: however the file's characters arrive, what is written is the matching lines, up to the first line that holds
      a NUL, does not fit the buffer or has no newline. After a read error it is the beginning of that. */
  method Grep(re: string, input: string) returns (out: string, error: bool)
    ensures !error ==> out == Selected(re, input)
    ensures error ==> out <= Selected(re, input)
  {
    hide Selected, Incomplete, Scan;
    var buf := new char[SIZE];
    var m, rest := 0, input;
    ghost var s := input;
    out := "";
    EmptyIncomplete();
    while true
      invariant 0 <= m <= SIZE - 1 && s == buf[..m] + rest && Incomplete(buf[..m])
      invariant Selected(re, input) == out + Selected(re, s)
      decreases |rest|
    {
      var n := Read(|rest|, SIZE - m - 1);
      if n <= 0 {
        if n == 0 {
          assert s[..m] == buf[..m];
          Stuck(re, s, m);
        }
        return out, n < 0;
      }
      assert rest == rest[..n] + rest[n..];
      Append(buf, m, rest[..n]);
      m, rest := m + n, rest[n..];
      ghost var b := buf[..m];
      buf[m] := '\0';
      assert s == b + rest && buf[..m] == b;
      var more, p := GrepLines(re, buf, m, s);
      assert s[p..] == buf[p..m] + rest;
      b := buf[p..m];
      MoveDown(buf, p, m - p);
      out, m, s := out + more, m - p, s[p..];
      assert buf[..m] == b;
    }
  }

  lemma EmptyIncomplete()
    ensures Incomplete("")
  {
  }

  /** What read returned is put after the m characters already there. */
  method Append(buf: array<char>, m: nat, more: string)
    requires m + |more| <= buf.Length
    modifies buf
    ensures buf[..m + |more|] == old(buf[..m]) + more
  {
    var i := 0;
    while i < |more|
      invariant 0 <= i <= |more| && buf[..m + i] == old(buf[..m]) + more[..i]
    {
      buf[m + i] := more[i];
      i := i + 1;
    }
  }
}
