/** Parsing what was printed gives the command back. */
module ShellRoundTrip {
  import opened ShellLex
  import opened ShellTree
  import opened ShellGrammar

  /** x stands in t at pos. */
  predicate Has(t: string, pos: nat, x: string) {
    pos + |x| <= |t| && t[pos..pos + |x|] == x
  }

  lemma HasParts(t: string, pos: nat, x: string, y: string)
    requires Has(t, pos, x + y)
    ensures Has(t, pos, x) && Has(t, pos + |x|, y)
  {
    var n := pos + |x|;
    assert t[pos..n] == (x + y)[..|x|];
    assert t[n..n + |y|] == (x + y)[|x|..];
  }

  lemma HasChar(t: string, pos: nat, x: string, i: nat)
    requires Has(t, pos, x) && i < |x|
    ensures t[pos + i] == x[i]
  {
    assert t[pos..pos + |x|][i] == t[pos + i];
  }

  /** What may follow a line: its closing parenthesis or the end. */
  predicate Stop(t: string, p: nat) {
    p == |t| || (p < |t| && t[p] == ')')
  }

  /** A result that is command c and leaves the scan at end. */
  predicate Parsed(t: string, r: Result, c: Tree<string>, end: nat) {
    r.Ok? && r.pos == end && Text(t, r.cmd) == c
  }

  // ----- Tokens -----

  lemma {:induction false} WordEndIs(t: string, pos: nat, e: nat)
    requires pos <= e <= |t| && (e == |t| || !WordChar(t[e])) && forall k :: pos <= k < e ==> WordChar(t[k])
    ensures WordEnd(t, pos) == e
    decreases e - pos
  {
    if pos < e {
      WordEndIs(t, pos + 1, e);
    }
  }

  /** A blank and a word. */
  lemma WordToken(t: string, pos: nat, w: string)
    requires Has(t, pos, " " + w) && ValidWord(w)
    requires var e := pos + 1 + |w|; e == |t| || !WordChar(t[e])
    ensures Skip(t, pos) == pos + 1 < |t| && WordChar(t[pos + 1])
    ensures var e := pos + 1 + |w|;
      && TokenAt(t, pos) == TokenAt(t, pos + 1) == Token('a', pos + 1, e, Skip(t, e))
      && Cut(t, Span(pos + 1, e)) == w
  {
    var e := pos + 1 + |w|;
    HasParts(t, pos, " ", w);
    HasChar(t, pos, " ", 0);
    forall k | pos + 1 <= k < e
      ensures WordChar(t[k])
    {
      HasChar(t, pos + 1, w, k - (pos + 1));
    }
    WordEndIs(t, pos + 1, e);
  }

  /** A position where the scan already is after the blanks. */
  lemma SkipTwice(t: string, pos: nat)
    requires pos <= |t|
    ensures Skip(t, Skip(t, pos)) == Skip(t, pos)
  {
  }

  lemma NoRedirs(t: string, rs: seq<Redirection>, pos: nat)
    requires pos <= |t| && (Skip(t, pos) == |t| || (t[Skip(t, pos)] != '<' && t[Skip(t, pos)] != '>'))
    ensures Redirs(t, rs, pos) == Redirected(rs, Skip(t, pos))
  {
  }

  // ----- A simple command -----

  lemma SkipArgs(t: string, args: seq<Span>, rs: seq<Redirection>, pos: nat)
    requires pos <= |t|
    ensures Args(t, args, rs, Skip(t, pos)) == Args(t, args, rs, pos)
  {
    SkipTwice(t, pos);
  }

  /** What stands at the start of the words that are left. */
  lemma WordsAt(t: string, pos: nat, ws: seq<string>, i: nat)
    requires AllWords(ws) && i <= |ws| && Has(t, pos, Words(ws, i)) && Stop(t, pos + |Words(ws, i)|)
    ensures pos <= |t| && (pos == |t| || !WordChar(t[pos]))
    ensures Skip(t, pos) == |t| || (t[Skip(t, pos)] != '<' && t[Skip(t, pos)] != '>' && t[Skip(t, pos)] != '(')
    ensures i == |ws| ==> |Words(ws, i)| == 0
    ensures i < |ws| ==>
      && ValidWord(ws[i]) && Has(t, pos, " " + ws[i]) && Has(t, pos + 1 + |ws[i]|, Words(ws, i + 1))
      && pos + |Words(ws, i)| == pos + 1 + |ws[i]| + |Words(ws, i + 1)|
  {
    if i < |ws| {
      var w, rest := ws[i], Words(ws, i + 1);
      assert Words(ws, i) == (" " + w) + rest;
      hide Words;
      HasParts(t, pos, " " + w, rest);
      HasChar(t, pos, " " + w, 0);
      HasChar(t, pos, " " + w, 1);
    }
  }

  /** The spans are the first words of ws. */
  ghost predicate Sofar(t: string, args: seq<Span>, ws: seq<string>) {
    |args| <= |ws| && forall i :: 0 <= i < |args| ==> Cut(t, args[i]) == ws[i]
  }

  lemma SofarNone(t: string, ws: seq<string>)
    ensures Sofar(t, [], ws)
  {
  }

  lemma SofarMore(t: string, args: seq<Span>, ws: seq<string>)
    requires Sofar(t, args, ws)
    ensures |args| <= |ws|
    ensures forall w :: |args| < |ws| && Cut(t, w) == ws[|args|] ==> Sofar(t, args + [w], ws)
  {
  }

  lemma ArgsEnd(t: string, args: seq<Span>, ws: seq<string>, pos: nat)
    requires Stop(t, pos) && Sofar(t, args, ws) && |args| == |ws|
    ensures Parsed(t, Args(t, args, [], pos), Exec(ws), pos)
  {
    assert Cuts(t, args) == ws;
    hide Cuts, Cut;
  }

  /** One turn of parseexec()'s loop. */
  lemma ArgsTurn(t: string, args: seq<Span>, w: string, pos: nat, e: nat)
    requires Has(t, pos, " " + w) && ValidWord(w) && e == pos + 1 + |w| && |args| < 9 && (e == |t| || !WordChar(t[e]))
    requires Skip(t, e) == |t| || (t[Skip(t, e)] != '<' && t[Skip(t, e)] != '>')
    ensures Args(t, args, [], pos) == Args(t, args + [Span(pos + 1, e)], [], e) && Cut(t, Span(pos + 1, e)) == w
  {
    WordToken(t, pos, w);
    SkipTwice(t, e);
    hide Has, ValidWord, TokenAt, Cut;
    NoRedirs(t, [], Skip(t, e));
    SkipArgs(t, args + [Span(pos + 1, e)], [], e);
  }

  lemma {:induction false} ArgsOf(t: string, args: seq<Span>, ws: seq<string>, pos: nat)
    requires AllWords(ws) && |ws| <= 9 && Sofar(t, args, ws)
    requires Has(t, pos, Words(ws, |args|)) && Stop(t, pos + |Words(ws, |args|)|)
    ensures Parsed(t, Args(t, args, [], pos), Exec(ws), pos + |Words(ws, |args|)|)
    decreases |ws| - |args|
  {
    var i := |args|;
    hide Has, Words, Stop, Parsed, AllWords, Args, ValidWord, Sofar, WordChar, Skip, Cut;
    SofarMore(t, args, ws);
    WordsAt(t, pos, ws, i);
    if i == |ws| {
      ArgsEnd(t, args, ws, pos);
    } else {
      var e := pos + 1 + |ws[i]|;
      WordsAt(t, e, ws, i + 1);
      ArgsTurn(t, args, ws[i], pos, e);
      ArgsOf(t, args + [Span(pos + 1, e)], ws, e);
    }
  }

  /** parseexec() where neither a redirection nor a parenthesis comes first. */
  lemma ExecIsArgs(t: string, pos: nat)
    requires pos <= |t|
    requires Skip(t, pos) == |t| || (t[Skip(t, pos)] != '<' && t[Skip(t, pos)] != '>' && t[Skip(t, pos)] != '(')
    ensures ExecAt(t, pos) == Args(t, [], [], pos)
  {
    hide Args, Redirs;
    SkipTwice(t, pos);
    NoRedirs(t, [], Skip(t, pos));
    SkipArgs(t, [], [], pos);
  }

  lemma ExecWords(t: string, ws: seq<string>, pos: nat)
    requires AllWords(ws) && |ws| <= 9 && Has(t, pos, Words(ws, 0)) && Stop(t, pos + |Words(ws, 0)|)
    ensures Parsed(t, ExecAt(t, pos), Exec(ws), pos + |Words(ws, 0)|)
  {
    hide *;
    SofarNone(t, ws);
    WordsAt(t, pos, ws, 0);
    ExecIsArgs(t, pos);
    ArgsOf(t, [], ws, pos);
  }

  // ----- A command in parentheses -----

  lemma SkipLine(t: string, pos: nat)
    requires pos <= |t|
    ensures LineAt(t, Skip(t, pos)) == LineAt(t, pos)
  {
    SkipTwice(t, pos);
    assert ExecAt(t, Skip(t, pos)) == ExecAt(t, pos);
    assert PipeAt(t, Skip(t, pos)) == PipeAt(t, pos);
  }

  lemma SymbolToken(t: string, p: nat)
    requires p < |t| && Symbol(t[p]) && t[p] != '>'
    ensures Skip(t, p) == p && TokenAt(t, p) == Token(t[p], p, p + 1, Skip(t, p + 1))
  {
  }

  /** The two parentheses. */
  lemma ParenChars(t: string, pos: nat, c: Tree<string>)
    requires Has(t, pos, Paren(c))
    ensures var n := pos + 1 + |Print(c)|; n < |t| && t[pos] == '(' && t[n] == ')' && n + 1 == pos + |Paren(c)|
  {
    hide Print;
    HasChar(t, pos, Paren(c), 0);
    HasChar(t, pos, Paren(c), 1 + |Print(c)|);
  }

  lemma InnerOf(t: string, pos: nat, c: Tree<string>)
    requires Has(t, pos, Paren(c)) && Parsed(t, LineAt(t, pos + 1), c, pos + 1 + |Print(c)|)
    ensures Parsed(t, InnerAt(t, pos), c, Skip(t, pos + |Paren(c)|)) && t[pos] == '('
  {
    hide Has, Paren, Print, LineAt, Text;
    ParenChars(t, pos, c);
    var n := pos + 1 + |Print(c)|;
    SymbolToken(t, pos);
    SymbolToken(t, n);
    SkipLine(t, pos + 1);
    hide TokenAt, Skip;
  }

  /** A parenthesised command that is not redirected. */
  lemma {:induction false} ExecParen(t: string, pos: nat, c: Tree<string>, e: nat)
    requires Has(t, pos, Paren(c)) && Parsed(t, LineAt(t, pos + 1), c, pos + 1 + |Print(c)|) && e == pos + |Paren(c)|
    requires e == |t| || t[e] == '|' || t[e] == ';' || t[e] == '&' || t[e] == ')'
    ensures Parsed(t, ExecAt(t, pos), c, e)
  {
    hide Has, Paren, Print, LineAt, Text, InnerAt;
    InnerOf(t, pos, c);
    SymbolToken(t, pos);
    NoRedirs(t, [], e);
  }

  /** The token of a redirection. */
  lemma ArrowToken(t: string, e: nat, k: Kind)
    requires Has(t, e, Arrow(k)) && e + |Arrow(k)| < |t| && t[e + |Arrow(k)|] == ' '
    ensures Peeks(t, e, "<>") && Skip(t, e) == e && TokenAt(t, e).next == Skip(t, e + |Arrow(k)|)
    ensures KindOf(TokenAt(t, e).kind) == k
  {
    HasChar(t, e, Arrow(k), 0);
    if k.Append? {
      HasChar(t, e, Arrow(k), 1);
    }
  }

  lemma RedirsOne(t: string, e: nat, w: string, k: Kind)
    requires Has(t, e, Arrow(k) + (" " + w)) && ValidWord(w) && Stop(t, e + |Arrow(k) + (" " + w)|)
    ensures var end := e + |Arrow(k) + (" " + w)|; var s := Span(end - |w|, end);
      Redirs(t, [], e) == Redirected([Redirection(s, k)], end) && Cut(t, s) == w
  {
    hide TokenAt, Has, Cut, KindOf, Peeks, Arrow, ValidWord, Skip;
    HasParts(t, e, Arrow(k), " " + w);
    var a := e + |Arrow(k)|;
    HasChar(t, a, " " + w, 0);
    ArrowToken(t, e, k);
    WordToken(t, a, w);
    var end := a + 1 + |w|;
    var rs := [Redirection(Span(a + 1, end), k)];
    NoRedirs(t, rs, end);
    assert [] + rs == rs;
  }

  lemma WrapOne(c: Cmd, s: Span, k: Kind)
    ensures Wrap(c, [Redirection(s, k)]) == Redir(c, s, k)
  {
    assert [Redirection(s, k)][..0] == [];
  }

  lemma ArrowStarts(t: string, e: nat, w: string, k: Kind)
    requires Has(t, e, Arrow(k) + (" " + w))
    ensures Skip(t, e) == e
  {
    HasParts(t, e, Arrow(k), " " + w);
    hide Has;
    HasChar(t, e, Arrow(k), 0);
  }

  lemma BlockRedir(t: string, pos: nat, e: nat, c: Tree<string>, s: Span, w: string, k: Kind, end: nat)
    requires pos < |t| && t[pos] == '(' && e <= |t| && Parsed(t, InnerAt(t, pos), c, e)
    requires Redirs(t, [], e) == Redirected([Redirection(s, k)], end) && Cut(t, s) == w
    ensures Parsed(t, ExecAt(t, pos), Redir(c, w, k), end)
  {
    hide Redirs, Wrap, InnerAt, Cut;
    SymbolToken(t, pos);
    WrapOne(InnerAt(t, pos).cmd, s, k);
  }

  /** A parenthesised command with a redirection. */
  lemma ExecRedir(t: string, pos: nat, c: Tree<string>, w: string, k: Kind)
    requires var e := pos + |Paren(c)|;
      && Has(t, pos, Paren(c)) && Parsed(t, LineAt(t, pos + 1), c, pos + 1 + |Print(c)|)
      && Has(t, e, Arrow(k) + (" " + w)) && ValidWord(w) && Stop(t, e + |Arrow(k) + (" " + w)|)
    ensures Parsed(t, ExecAt(t, pos), Redir(c, w, k), pos + |Paren(c)| + |Arrow(k) + (" " + w)|)
  {
    hide *;
    var e := pos + |Paren(c)|;
    ArrowStarts(t, e, w, k);
    InnerOf(t, pos, c);
    RedirsOne(t, e, w, k);
    var end := e + |Arrow(k) + (" " + w)|;
    BlockRedir(t, pos, e, c, Span(end - |w|, end), w, k, end);
  }

  // ----- Lines -----

  /** The rest of parsepipe() and parseline() finds nothing more. */
  lemma PipeEnds(t: string, pos: nat, c: Tree<string>, e: nat)
    requires pos <= |t| && Parsed(t, ExecAt(t, pos), c, e) && (Stop(t, e) || (e < |t| && (t[e] == '&' || t[e] == ';')))
    ensures Parsed(t, PipeAt(t, pos), c, e)
  {
  }

  lemma LineEnds(t: string, pos: nat, c: Tree<string>, e: nat)
    requires pos <= |t| && Parsed(t, PipeAt(t, pos), c, e) && Stop(t, e)
    ensures Parsed(t, LineAt(t, pos), c, e)
  {
  }

  lemma PipeBar(t: string, pos: nat, l: Tree<string>, r: Tree<string>, e: nat, end: nat)
    requires pos <= |t| && Parsed(t, ExecAt(t, pos), l, e) && e + 1 < |t| && t[e] == '|' && t[e + 1] == '('
    requires Parsed(t, PipeAt(t, e + 1), r, end)
    ensures Parsed(t, PipeAt(t, pos), Pipe(l, r), end)
  {
    SymbolToken(t, e);
  }

  lemma LineSemi(t: string, pos: nat, l: Tree<string>, r: Tree<string>, e: nat, end: nat)
    requires pos <= |t| && Parsed(t, PipeAt(t, pos), l, e) && e + 1 < |t| && t[e] == ';' && t[e + 1] == '('
    requires Parsed(t, LineAt(t, e + 1), r, end)
    ensures Parsed(t, LineAt(t, pos), List(l, r), end)
  {
    SymbolToken(t, e);
  }

  lemma LineAmp(t: string, pos: nat, c: Tree<string>, e: nat)
    requires pos <= |t| && Parsed(t, PipeAt(t, pos), c, e) && e < |t| && t[e] == '&' && Stop(t, e + 1)
    ensures Parsed(t, LineAt(t, pos), Back(c), e + 1)
  {
    SymbolToken(t, e);
    var d := PipeAt(t, pos).cmd;
    assert Skip(t, e + 1) == e + 1;
    assert Backs(t, d, e) == Backs(t, Back(d), e + 1) == Ok(Back(d), e + 1);
  }

  /** What stands after the first of two parts. */
  lemma TwoParts(t: string, pos: nat, l: Tree<string>, sep: string, r: Tree<string>)
    requires |sep| == 1 && Has(t, pos, Paren(l) + (sep + Paren(r)))
    ensures var e := pos + |Paren(l)|;
      && Has(t, pos, Paren(l)) && Has(t, e + 1, Paren(r)) && e + 1 < |t| && t[e] == sep[0] && t[e + 1] == '('
      && e + 1 + |Paren(r)| == pos + |Paren(l) + (sep + Paren(r))|
  {
    var e := pos + |Paren(l)|;
    HasParts(t, pos, Paren(l), sep + Paren(r));
    HasParts(t, e, sep, Paren(r));
    HasChar(t, e, sep, 0);
    HasChar(t, e + 1, Paren(r), 0);
  }

  /** What Has says of the inside of parentheses. */
  lemma InParen(t: string, pos: nat, c: Tree<string>)
    requires Has(t, pos, Paren(c))
    ensures Has(t, pos + 1, Print(c)) && Stop(t, pos + 1 + |Print(c)|)
  {
    var x := Print(c);
    assert Paren(c) == "(" + (x + ")");
    HasParts(t, pos, "(", x + ")");
    HasParts(t, pos + 1, x, ")");
    HasChar(t, pos + 1 + |x|, ")", 0);
  }

  /** Line c stands at pos and is parsed as c. */
  ghost predicate Reads(t: string, pos: nat, c: Tree<string>) {
    pos <= |t| && Parsed(t, LineAt(t, pos), c, pos + |Print(c)|)
  }

  lemma {:induction false} ExecReads(t: string, pos: nat, ws: seq<string>)
    requires pos <= |t| && Parsed(t, LineAt(t, pos), Exec(ws), pos + |Words(ws, 0)|)
    ensures Reads(t, pos, Exec(ws))
  {
    hide Parsed, LineAt, Words;
  }

  lemma {:induction false} ExecFits(t: string, pos: nat, ws: seq<string>)
    requires Valid(Exec(ws)) && Has(t, pos, Words(ws, 0))
    ensures AllWords(ws) && |ws| <= 9 && pos <= pos + |Words(ws, 0)| <= |t|
  {
    hide Words, ValidWord;
  }

  lemma {:induction false} ExecOf(t: string, pos: nat, ws: seq<string>)
    requires Valid(Exec(ws)) && Has(t, pos, Words(ws, 0)) && Stop(t, pos + |Words(ws, 0)|)
    ensures Reads(t, pos, Exec(ws))
  {
    hide *;
    ExecFits(t, pos, ws);
    var end := pos + |Words(ws, 0)|;
    ExecWords(t, ws, pos);
    PipeEnds(t, pos, Exec(ws), end);
    LineEnds(t, pos, Exec(ws), end);
    ExecReads(t, pos, ws);
  }

  lemma RedirOf(t: string, pos: nat, d: Tree<string>, w: string, k: Kind)
    requires var c := Redir(d, w, k); Has(t, pos, Print(c)) && Stop(t, pos + |Print(c)|) && ValidWord(w)
    requires Reads(t, pos + 1, d)
    ensures Reads(t, pos, Redir(d, w, k))
  {
    var c := Redir(d, w, k);
    hide Has, Stop, Parsed, LineAt, PipeAt, ExecAt, Paren, Arrow, ValidWord;
    var end := pos + |Print(c)|;
    assert Print(c) == Paren(d) + (Arrow(k) + (" " + w));
    hide Print;
    HasParts(t, pos, Paren(d), Arrow(k) + (" " + w));
    ExecRedir(t, pos, d, w, k);
    PipeEnds(t, pos, c, end);
    LineEnds(t, pos, c, end);
  }

  lemma PipeOf(t: string, pos: nat, l: Tree<string>, r: Tree<string>)
    requires var c := Pipe(l, r); Has(t, pos, Print(c)) && Stop(t, pos + |Print(c)|)
    requires Reads(t, pos + 1, l) && Reads(t, pos + |Paren(l)| + 2, r)
    ensures Reads(t, pos, Pipe(l, r))
  {
    var c := Pipe(l, r);
    hide Has, Parsed, LineAt, PipeAt, ExecAt, Paren;
    var e, end := pos + |Paren(l)|, pos + |Print(c)|;
    assert Print(c) == Paren(l) + ("|" + Paren(r));
    hide Print;
    TwoParts(t, pos, l, "|", r);
    ExecParen(t, pos, l, e);
    ExecParen(t, e + 1, r, end);
    PipeEnds(t, e + 1, r, end);
    PipeBar(t, pos, l, r, e, end);
    LineEnds(t, pos, c, end);
  }

  lemma ListOf(t: string, pos: nat, l: Tree<string>, r: Tree<string>)
    requires var c := List(l, r); Has(t, pos, Print(c)) && Stop(t, pos + |Print(c)|)
    requires Reads(t, pos + 1, l) && Reads(t, pos + |Paren(l)| + 2, r)
    ensures Reads(t, pos, List(l, r))
  {
    var c := List(l, r);
    hide Has, Parsed, LineAt, PipeAt, ExecAt, Paren;
    var e, end := pos + |Paren(l)|, pos + |Print(c)|;
    assert Print(c) == Paren(l) + (";" + Paren(r));
    hide Print;
    TwoParts(t, pos, l, ";", r);
    ExecParen(t, pos, l, e);
    PipeEnds(t, pos, l, e);
    ExecParen(t, e + 1, r, end);
    PipeEnds(t, e + 1, r, end);
    LineEnds(t, e + 1, r, end);
    LineSemi(t, pos, l, r, e, end);
  }

  lemma BackParts(t: string, pos: nat, d: Tree<string>)
    requires Has(t, pos, Paren(d) + "&")
    ensures Has(t, pos, Paren(d)) && pos + |Paren(d)| < |t| && t[pos + |Paren(d)|] == '&'
  {
    hide Paren;
    HasParts(t, pos, Paren(d), "&");
    HasChar(t, pos + |Paren(d)|, "&", 0);
  }

  lemma BackOf(t: string, pos: nat, d: Tree<string>)
    requires var c := Back(d); Has(t, pos, Print(c)) && Stop(t, pos + |Print(c)|)
    requires Reads(t, pos + 1, d)
    ensures Reads(t, pos, Back(d))
  {
    var c := Back(d);
    var e := pos + |Paren(d)|;
    hide Has, Stop, Parsed, LineAt, PipeAt, ExecAt, Paren;
    assert Print(c) == Paren(d) + "&";
    hide Print;
    BackParts(t, pos, d);
    ExecParen(t, pos, d, e);
    PipeEnds(t, pos, d, e);
    LineAmp(t, pos, d, e);
  }

  lemma {:induction false} LineOf(t: string, pos: nat, c: Tree<string>)
    requires Valid(c) && Has(t, pos, Print(c)) && Stop(t, pos + |Print(c)|)
    ensures Reads(t, pos, c)
    decreases c
  {
    hide Has, Stop, Reads, Paren, Words, Arrow, ValidWord;
    match c {
      case Exec(ws) =>
        ExecOf(t, pos, ws);
      case Redir(d, w, k) =>
        HasParts(t, pos, Paren(d), Arrow(k) + (" " + w));
        InParen(t, pos, d);
        LineOf(t, pos + 1, d);
        RedirOf(t, pos, d, w, k);
      case Pipe(l, r) =>
        TwoParts(t, pos, l, "|", r);
        InParen(t, pos, l);
        LineOf(t, pos + 1, l);
        InParen(t, pos + |Paren(l)| + 1, r);
        LineOf(t, pos + |Paren(l)| + 2, r);
        PipeOf(t, pos, l, r);
      case List(l, r) =>
        TwoParts(t, pos, l, ";", r);
        InParen(t, pos, l);
        LineOf(t, pos + 1, l);
        InParen(t, pos + |Paren(l)| + 1, r);
        LineOf(t, pos + |Paren(l)| + 2, r);
        ListOf(t, pos, l, r);
      case Back(d) =>
        HasParts(t, pos, Paren(d), "&");
        InParen(t, pos, d);
        LineOf(t, pos + 1, d);
        BackOf(t, pos, d);
    }
  }

  lemma {:induction false} WordsNoNul(ws: seq<string>, i: nat)
    requires AllWords(ws) && i <= |ws|
    ensures '\0' !in Words(ws, i)
    decreases |ws| - i
  {
    if i < |ws| {
      WordsNoNul(ws, i + 1);
    }
  }

  lemma {:induction false} PrintNoNul(c: Tree<string>)
    requires Valid(c)
    ensures '\0' !in Print(c)
  {
    match c {
      case Exec(ws) => WordsNoNul(ws, 0);
      case Redir(d, w, k) => PrintNoNul(d);
      case Pipe(l, r) => PrintNoNul(l); PrintNoNul(r);
      case List(l, r) => PrintNoNul(l); PrintNoNul(r);
      case Back(d) => PrintNoNul(d);
    }
  }

  /** The printed form of a command is one line, and parsing it gives the command. */
  lemma RoundTrip(c: Tree<string>)
    requires Valid(c)
    ensures '\0' !in Print(c) && Parsed(Print(c), CmdOf(Print(c)), c, |Print(c)|)
  {
    PrintNoNul(c);
    var t := Print(c);
    assert t[0..|t|] == t;
    LineOf(t, 0, c);
  }
}
