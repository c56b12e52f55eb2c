/**
 The other half of what ShellDerive says: a line that the grammar derives is
 parsed, as the grammar derives it, if no command in it has too many words. So
 the parser accepts exactly those lines, and the grammar gives them one meaning.
 */
module ShellAccepts {
  import opened ShellLex
  import opened ShellTree
  import opened ShellGrammar
  import opened ShellSpans
  import opened ShellDerive

  /** No command has too many words. */
  predicate Fits(c: Cmd) {
    match c
    case Exec(args) => |args| < MAXARGS
    case Redir(d, _, _) => Fits(d)
    case Pipe(l, r) => Fits(l) && Fits(r)
    case List(l, r) => Fits(l) && Fits(r)
    case Back(d) => Fits(d)
  }

  /** The line ends behind pos, or one of these characters comes next. */
  predicate Follows(t: string, pos: nat, toks: string)
    requires pos <= |t|
  {
    Skip(t, pos) == |t| || t[Skip(t, pos)] in toks
  }

  // ----- Blanks do not matter -----

  lemma {:induction false} SkipBlanks(t: string, a: nat, b: nat)
    requires a <= b <= |t| && forall k :: a <= k < b ==> Blank(t[k])
    ensures Skip(t, a) == Skip(t, b)
    decreases b - a
  {
    if a < b {
      SkipBlanks(t, a + 1, b);
    }
  }

  lemma {:induction false} RedirsSkip(t: string, rs: seq<Redirection>, pos: nat)
    requires pos <= |t|
    ensures Redirs(t, rs, Skip(t, pos)) == Redirs(t, rs, pos)
  {
    SkipSame(t, pos);
  }

  lemma {:induction false} ExecSkip(t: string, pos: nat)
    requires pos <= |t|
    ensures ExecAt(t, Skip(t, pos)) == ExecAt(t, pos)
  {
    hide TokenAt, Redirs, Args, BlockAt;
    SkipSame(t, pos);
  }

  lemma {:induction false} PipeSkip(t: string, pos: nat)
    requires pos <= |t|
    ensures PipeAt(t, Skip(t, pos)) == PipeAt(t, pos)
  {
    hide TokenAt, ExecAt;
    ExecSkip(t, pos);
  }

  lemma {:induction false} BacksSkip(t: string, c: Cmd, pos: nat)
    requires pos <= |t|
    ensures Backs(t, c, Skip(t, pos)) == Backs(t, c, pos)
  {
    SkipSame(t, pos);
  }

  lemma {:induction false} LineSkip(t: string, pos: nat)
    requires pos <= |t|
    ensures LineAt(t, Skip(t, pos)) == LineAt(t, pos)
  {
    hide TokenAt, PipeAt, Backs;
    PipeSkip(t, pos);
  }

  // ----- Tokens -----

  lemma {:induction false} OnlySkips(t: string, a: nat, q: nat, e: nat, b: nat)
    requires Only(t, a, q, e, b) && q < |t| && !Blank(t[q])
    ensures Skip(t, a) == q && Skip(t, e) == Skip(t, b)
  {
    SkipBlanks(t, a, q);
    SkipBlanks(t, e, b);
  }

  lemma {:induction false} TokenSkip(t: string, pos: nat)
    requires pos <= |t|
    ensures TokenAt(t, Skip(t, pos)) == TokenAt(t, pos)
  {
    SkipSame(t, pos);
  }

  lemma {:induction false} WordToken(t: string, a: nat, b: nat, w: Span)
    requires AWord(t, a, b, w)
    ensures Skip(t, a) == w.q && TokenAt(t, a) == Token('a', w.q, w.eq, Skip(t, b))
  {
    OnlySkips(t, a, w.q, w.eq, b);
  }

  lemma {:induction false} SymbolToken(t: string, a: nat, b: nat, c: char)
    requires ASymbol(t, a, b, c) && Symbol(c) && c != '>'
    ensures a < b <= |t| && Skip(t, a) < b && t[Skip(t, a)] == c && TokenAt(t, Skip(t, a)).next == Skip(t, b)
  {
    var p: nat :| p < |t| && t[p] == c && Only(t, a, p, p + 1, b);
    OnlySkips(t, a, p, p + 1, b);
  }

  /** The characters of an arrow and the token. */
  lemma {:induction false} ArrowAt(t: string, a: nat, p: nat, b: nat)
    requires p < |t| && t[p] == '>'
    requires Only(t, a, p, if p + 1 < |t| && t[p + 1] == '>' then p + 2 else p + 1, b)
    ensures a < b <= |t| && Skip(t, a) == p < b && TokenAt(t, p).next == Skip(t, b)
    ensures KindOf(TokenAt(t, p).kind) == if p + 1 < |t| && t[p + 1] == '>' then Append else Out
  {
    OnlySkips(t, a, p, if p + 1 < |t| && t[p + 1] == '>' then p + 2 else p + 1, b);
    SkipSame(t, a);
    hide Only;
  }

  lemma LessToken(t: string, p: nat)
    requires p < |t| && t[p] == '<'
    ensures TokenAt(t, p).kind == '<'
  {
  }

  lemma {:induction false} ArrowToken(t: string, a: nat, b: nat, k: Kind)
    requires AnArrow(t, a, b, k)
    ensures a < b <= |t| && Peeks(t, a, "<>") && Skip(t, a) < b
    ensures var tok := TokenAt(t, Skip(t, a)); KindOf(tok.kind) == k && tok.next == Skip(t, b)
  {
    hide TokenAt;
    if k.In? {
      SymbolToken(t, a, b, '<');
      LessToken(t, Skip(t, a));
    } else if k.Out? {
      var p: nat :| p < |t| && t[p] == '>' && (p + 1 == |t| || t[p + 1] != '>') && Only(t, a, p, p + 1, b);
      ArrowAt(t, a, p, b);
    } else {
      var p: nat :| p + 1 < |t| && t[p] == t[p + 1] == '>' && Only(t, a, p, p + 2, b);
      ArrowAt(t, a, p, b);
    }
  }

  /** One turn of parseredirs(). */
  lemma {:induction false} RedirsTurn(t: string, rs: seq<Redirection>, a: nat, b: nat, file: Span, k: Kind)
    requires ARedirection(t, a, b, file, k)
    ensures a < b <= |t| && Peeks(t, a, "<>") && Skip(t, a) < b
    ensures Redirs(t, rs, a) == Redirs(t, rs + [Redirection(file, k)], b)
  {
    var m: nat :| AnArrow(t, a, m, k) && AWord(t, m, b, file);
    ArrowToken(t, a, m, k);
    WordToken(t, m, b, file);
    TokenSkip(t, m);
    RedirsSkip(t, rs + [Redirection(file, k)], b);
    hide TokenAt, AnArrow;
  }

  // ----- Commands -----

  lemma {:induction false} FitsWrap(args: seq<Span>, rs: seq<Redirection>)
    ensures Fits(Wrap(Exec(args), rs)) <==> |args| < MAXARGS
  {
    if rs != [] {
      FitsWrap(args, rs[..|rs| - 1]);
    }
  }

  lemma {:induction false} FitsLess(c: Cmd, w: Span)
    requires Fits(WithArg(c, w))
    ensures Fits(c)
  {
    if c.Redir? {
      FitsLess(c.cmd, w);
    }
  }

  /** The rest of parseexec(), from a call of parseredirs() on. */
  function Go(t: string, args: seq<Span>, rs: seq<Redirection>, pos: nat): (r: Result)
    requires pos <= |t|
  {
    match Redirs(t, rs, pos)
    case NoFile => Panic("missing file for redirection")
    case Redirected(rs', pos') => Args(t, args, rs', pos')
  }

  /** parseexec() takes a word. */
  lemma {:induction false} GoWord(t: string, args: seq<Span>, rs: seq<Redirection>, a: nat, b: nat, w: Span)
    requires AWord(t, a, b, w) && |args| + 1 < MAXARGS
    ensures Go(t, args, rs, a) == Go(t, args + [w], rs, b)
  {
    WordToken(t, a, b, w);
    TokenSkip(t, a);
    SkipSame(t, a);
    RedirsSkip(t, rs, b);
    assert Redirs(t, rs, a) == Redirected(rs, w.q);
    hide TokenAt, AWord;
  }

  /** parseexec() stops. */
  lemma {:induction false} GoStop(t: string, args: seq<Span>, rs: seq<Redirection>, pos: nat)
    requires pos <= |t| && Follows(t, pos, "|)&;")
    ensures Go(t, args, rs, pos) == Ok(Wrap(Exec(args), rs), Skip(t, pos))
  {
    SkipSame(t, pos);
    hide Wrap;
  }

  /** What parseexec() has found of a simple command so far. */
  lemma {:induction false} SimpleGoes(t: string, a: nat, b: nat, c: Cmd) returns (args: seq<Span>, rs: seq<Redirection>)
    requires ASimple(t, a, b, c) && Fits(c) && a <= b <= |t| && !Peeks(t, a, "(")
    ensures c == Wrap(Exec(args), rs) && ExecAt(t, a) == Go(t, args, rs, b)
    decreases b
  {
    hide Redirs, Args, TokenAt, Only, AWord, ARedirection, BlockAt, Wrap, Go, Word;
    if Only(t, a, b, b, b) && c == Exec([]) {
      StartsGo(t, a, b);
      args, rs := [], [];
    } else if m: nat, w: Span, d: Cmd :| a <= m < b && ASimple(t, a, m, d) && AWord(t, m, b, w) && c == WithArg(d, w) {
      FitsLess(d, w);
      args, rs := SimpleGoes(t, a, m, d);
      WrapArg(args, rs, w);
      FitsWrap(args + [w], rs);
      GoWord(t, args, rs, m, b, w);
      args := args + [w];
    } else {
      var m: nat :| a <= m < b && ASimple(t, a, m, c.cmd) && ARedirection(t, m, b, c.file, c.kind);
      args, rs := SimpleGoes(t, a, m, c.cmd);
      var r := Redirection(c.file, c.kind);
      WrapMore(Exec(args), rs, r);
      GoArrow(t, args, rs, m, b, r);
      rs := rs + [r];
    }
  }

  lemma {:induction false} GoArrow(t: string, args: seq<Span>, rs: seq<Redirection>, a: nat, b: nat, r: Redirection)
    requires ARedirection(t, a, b, r.file, r.kind)
    ensures a <= b <= |t| && Go(t, args, rs, a) == Go(t, args, rs + [r], b)
  {
    hide Redirs, Args;
    RedirsTurn(t, rs, a, b, r.file, r.kind);
  }

  lemma {:induction false} StartsGo(t: string, a: nat, b: nat)
    requires Only(t, a, b, b, b) && !Peeks(t, a, "(")
    ensures ExecAt(t, a) == Go(t, [], [], b) && Wrap(Exec([]), []) == Exec([])
  {
    SkipBlanks(t, a, b);
    RedirsSkip(t, [], a);
    RedirsSkip(t, [], b);
    hide Redirs, Args, BlockAt;
  }

  /** A simple command does not start with a parenthesis. */
  lemma {:induction false} SimpleStarts(t: string, a: nat, b: nat, c: Cmd)
    requires ASimple(t, a, b, c)
    ensures a <= b <= |t| && (Skip(t, a) == Skip(t, b) || (Skip(t, a) < |t| && t[Skip(t, a)] != '('))
    decreases b
  {
    if Only(t, a, b, b, b) && c == Exec([]) {
      SkipBlanks(t, a, b);
    } else if m: nat, w: Span, d: Cmd :| a <= m < b && ASimple(t, a, m, d) && AWord(t, m, b, w) && c == WithArg(d, w) {
      SimpleStarts(t, a, m, d);
      WordToken(t, m, b, w);
    } else {
      var m: nat :| a <= m < b && ASimple(t, a, m, c.cmd) && ARedirection(t, m, b, c.file, c.kind);
      SimpleStarts(t, a, m, c.cmd);
      RedirsTurn(t, [], m, b, c.file, c.kind);
    }
  }

  lemma {:induction false} SimpleParsed(t: string, a: nat, b: nat, c: Cmd)
    requires ASimple(t, a, b, c) && Fits(c) && b <= |t| && Follows(t, b, "|)&;")
    ensures a <= |t| && ExecAt(t, a) == Ok(c, Skip(t, b))
  {
    SimpleStarts(t, a, b, c);
    hide ASimple, ExecAt, Go;
    var args, rs := SimpleGoes(t, a, b, c);
    GoStop(t, args, rs, b);
  }

  /** What parseblock() has found of a block so far. */
  lemma {:induction false} BlockGoes(t: string, a: nat, b: nat, c: Cmd)
    returns (inner: Cmd, pos: nat, rs: seq<Redirection>)
    requires ABlock(t, a, b, c) && Fits(c)
    ensures a < b <= |t| && Peeks(t, a, "(") && InnerAt(t, Skip(t, a)) == Ok(inner, pos) && pos <= |t|
    ensures c == Wrap(inner, rs) && Redirs(t, [], pos) == Redirs(t, rs, b)
    decreases if b >= a then b - a else 0, 0
  {
    hide Redirs, TokenAt, LineAt, ARedirection, ALine, ASymbol, Wrap, Fits;
    if m: nat, n: nat :| a < m <= n < b && ASymbol(t, a, m, '(') && ALine(t, m, n, c) && ASymbol(t, n, b, ')') {
      SymbolToken(t, n, b, ')');
      LineParsed(t, m, n, c);
      InnerParsed(t, a, m, n, b, c);
      inner, pos, rs := c, Skip(t, b), [];
      WrapNone(c);
      RedirsSkip(t, [], b);
    } else {
      var m: nat :| a <= m < b && ABlock(t, a, m, c.cmd) && ARedirection(t, m, b, c.file, c.kind);
      FitsInside(c);
      inner, pos, rs := BlockGoes(t, a, m, c.cmd);
      var r := Redirection(c.file, c.kind);
      WrapMore(inner, rs, r);
      RedirsTurn(t, rs, m, b, c.file, c.kind);
      rs := rs + [r];
    }
  }

  lemma FitsInside(c: Cmd)
    requires Fits(c) && c.Redir?
    ensures Fits(c.cmd)
  {
  }

  lemma WrapNone(c: Cmd)
    ensures Wrap(c, []) == c
  {
  }

  lemma {:induction false} InnerParsed(t: string, a: nat, m: nat, n: nat, b: nat, c: Cmd)
    requires ASymbol(t, a, m, '(') && ASymbol(t, n, b, ')') && m <= |t| && LineAt(t, m) == Ok(c, Skip(t, n))
    ensures Peeks(t, a, "(") && InnerAt(t, Skip(t, a)) == Ok(c, Skip(t, b))
  {
    SymbolToken(t, a, m, '(');
    SymbolToken(t, n, b, ')');
    SkipSame(t, a);
    SkipSame(t, n);
    LineSkip(t, m);
    hide LineAt, TokenAt, ASymbol;
  }

  lemma {:induction false} CommandParsed(t: string, a: nat, b: nat, c: Cmd)
    requires ACommand(t, a, b, c) && Fits(c) && b <= |t| && Follows(t, b, "|)&;")
    ensures a <= b && ExecAt(t, a) == Ok(c, Skip(t, b))
    decreases if b >= a then b - a else 0, 1
  {
    hide ASimple, ABlock;
    if ASimple(t, a, b, c) {
      SimpleStarts(t, a, b, c);
      SimpleParsed(t, a, b, c);
    } else {
      var inner, pos, rs := BlockGoes(t, a, b, c);
      RedirsStop(t, rs, b);
      BlockStop(t, a, inner, pos, rs, Skip(t, b));
    }
  }

  lemma {:induction false} RedirsStop(t: string, rs: seq<Redirection>, pos: nat)
    requires pos <= |t| && Follows(t, pos, "|)&;")
    ensures Redirs(t, rs, pos) == Redirected(rs, Skip(t, pos))
  {
  }

  lemma {:induction false} BlockStop(t: string, a: nat, c: Cmd, pos: nat, rs: seq<Redirection>, end: nat)
    requires a <= |t| && Peeks(t, a, "(") && InnerAt(t, Skip(t, a)) == Ok(c, pos) && pos <= |t|
    requires Redirs(t, [], pos) == Redirected(rs, end)
    ensures ExecAt(t, a) == Ok(Wrap(c, rs), end)
  {
    hide InnerAt, Wrap, Redirs, Args, TokenAt, Peeks;
    assert ExecAt(t, a) == BlockAt(t, Skip(t, a));
  }

  lemma {:induction false} PipeParsed(t: string, a: nat, b: nat, c: Cmd)
    requires APipe(t, a, b, c) && Fits(c) && b <= |t| && Follows(t, b, ")&;")
    ensures a <= b && PipeAt(t, a) == Ok(c, Skip(t, b))
    decreases if b >= a then b - a else 0, 2
  {
    hide ACommand, ExecAt, ASymbol;
    if ACommand(t, a, b, c) {
      CommandParsed(t, a, b, c);
      SkipSame(t, b);
    } else {
      var m: nat, n: nat :|
        a <= m < n <= b && ACommand(t, a, m, c.left) && ASymbol(t, m, n, '|') && APipe(t, n, b, c.right);
      SymbolToken(t, m, n, '|');
      CommandParsed(t, a, m, c.left);
      PipeParsed(t, n, b, c.right);
      SkipSame(t, m);
      PipeSkip(t, n);
      hide TokenAt, APipe;
    }
  }

  /** What parseline() has found of a command with ampersands so far. */
  lemma {:induction false} BackGoes(t: string, a: nat, b: nat, c: Cmd) returns (d: Cmd, pos: nat)
    requires ABack(t, a, b, c) && Fits(c) && b <= |t| && Follows(t, b, ")&;")
    ensures a <= b && PipeAt(t, a) == Ok(d, pos) && pos <= |t| && Backs(t, d, pos) == Backs(t, c, b)
    decreases if b >= a then b - a else 0, 3
  {
    hide APipe, PipeAt, ASymbol;
    if APipe(t, a, b, c) {
      PipeParsed(t, a, b, c);
      BacksSkip(t, c, b);
      d, pos := c, Skip(t, b);
    } else {
      var m: nat :| a <= m < b && ABack(t, a, m, c.cmd) && ASymbol(t, m, b, '&');
      SymbolToken(t, m, b, '&');
      d, pos := BackGoes(t, a, m, c.cmd);
      BacksSkip(t, c, b);
      hide TokenAt, ABack;
    }
  }

  lemma {:induction false} LineParsed(t: string, a: nat, b: nat, c: Cmd)
    requires ALine(t, a, b, c) && Fits(c) && b <= |t| && Follows(t, b, ")")
    ensures a <= b && LineAt(t, a) == Ok(c, Skip(t, b))
    decreases if b >= a then b - a else 0, 4
  {
    hide ABack, PipeAt, ASymbol;
    if ABack(t, a, b, c) {
      var d, pos := BackGoes(t, a, b, c);
      LineStop(t, a, b, c, d, pos);
    } else {
      var m: nat, n: nat :|
        a <= m < n <= b && ABack(t, a, m, c.left) && ASymbol(t, m, n, ';') && ALine(t, n, b, c.right);
      SymbolToken(t, m, n, ';');
      var d, pos := BackGoes(t, a, m, c.left);
      LineParsed(t, n, b, c.right);
      LineGoes(t, a, m, n, c.left, d, pos);
    }
  }

  lemma {:induction false} LineStop(t: string, a: nat, b: nat, c: Cmd, d: Cmd, pos: nat)
    requires a <= |t| && b <= |t| && Follows(t, b, ")")
    requires PipeAt(t, a) == Ok(d, pos) && pos <= |t| && Backs(t, d, pos) == Backs(t, c, b)
    ensures LineAt(t, a) == Ok(c, Skip(t, b))
  {
    SkipSame(t, b);
    assert Backs(t, c, b) == Ok(c, Skip(t, b));
    hide PipeAt, Backs;
  }

  lemma {:induction false} LineGoes(t: string, a: nat, m: nat, n: nat, c: Cmd, d: Cmd, pos: nat)
    requires a <= |t| && m < n <= |t| && ASymbol(t, m, n, ';') && LineAt(t, n).Ok?
    requires PipeAt(t, a) == Ok(d, pos) && pos <= |t| && Backs(t, d, pos) == Backs(t, c, m)
    ensures LineAt(t, a) == Ok(List(c, LineAt(t, n).cmd), LineAt(t, n).pos)
  {
    SymbolToken(t, m, n, ';');
    SkipSame(t, m);
    assert Backs(t, c, m) == Ok(c, Skip(t, m));
    hide PipeAt, Backs, TokenAt, ASymbol;
    LineSkip(t, n);
  }

  // ----- What is parsed fits -----

  lemma {:induction false} ArgsFit(t: string, args: seq<Span>, rs: seq<Redirection>, pos: nat)
    requires pos <= |t| && |args| < MAXARGS && Args(t, args, rs, pos).Ok?
    ensures Fits(Args(t, args, rs, pos).cmd)
    decreases |t| - pos
  {
    hide Redirs, TokenAt, Wrap, Fits;
    var tok := TokenAt(t, Skip(t, pos));
    if Peeks(t, pos, "|)&;") || tok.kind == '\0' {
      FitsWrap(args, rs);
    } else {
      var r := Redirs(t, rs, tok.next);
      ArgsFit(t, args + [Span(tok.q, tok.eq)], r.rs, r.pos);
    }
  }

  lemma {:induction false} BacksFit(t: string, c: Cmd, pos: nat)
    requires pos <= |t| && Fits(c)
    ensures Fits(Backs(t, c, pos).cmd)
    decreases |t| - pos
  {
    if Peeks(t, pos, "&") {
      BacksFit(t, Back(c), TokenAt(t, Skip(t, pos)).next);
    }
  }

  lemma {:induction false} WrapFits(c: Cmd, rs: seq<Redirection>)
    requires Fits(c)
    ensures Fits(Wrap(c, rs))
  {
    if rs != [] {
      WrapFits(c, rs[..|rs| - 1]);
    }
  }

  lemma {:induction false} InnerFit(t: string, pos: nat)
    requires pos <= |t| && InnerAt(t, pos).Ok?
    ensures Fits(InnerAt(t, pos).cmd)
    decreases |t| - pos, 0
  {
    hide LineAt, Fits;
    LineFit(t, TokenAt(t, Skip(t, pos)).next);
  }

  lemma {:induction false} ExecFit(t: string, pos: nat)
    requires pos <= |t| && ExecAt(t, pos).Ok?
    ensures Fits(ExecAt(t, pos).cmd)
    decreases |t| - pos, 1
  {
    hide Redirs, TokenAt, Wrap, Fits, Args, LineAt;
    var p := Skip(t, pos);
    if Peeks(t, pos, "(") {
      assert BlockAt(t, p).Ok?;
      InnerFit(t, p);
      hide InnerAt;
      var i := InnerAt(t, p);
      WrapFits(i.cmd, Redirs(t, [], i.pos).rs);
    } else {
      var r := Redirs(t, [], p);
      ArgsFit(t, [], r.rs, r.pos);
    }
  }

  lemma {:induction false} PipeFit(t: string, pos: nat)
    requires pos <= |t| && PipeAt(t, pos).Ok?
    ensures Fits(PipeAt(t, pos).cmd)
    decreases |t| - pos, 2
  {
    hide ExecAt, TokenAt;
    ExecFit(t, pos);
    var l := ExecAt(t, pos);
    if Peeks(t, l.pos, "|") {
      AfterSymbol(t, l.pos, '|');
      PipeFit(t, TokenAt(t, Skip(t, l.pos)).next);
    }
  }

  lemma {:induction false} LineFit(t: string, pos: nat)
    requires pos <= |t| && LineAt(t, pos).Ok?
    ensures Fits(LineAt(t, pos).cmd)
    decreases |t| - pos, 3
  {
    hide PipeAt, TokenAt, Backs;
    PipeFit(t, pos);
    var l := PipeAt(t, pos);
    BacksFit(t, l.cmd, l.pos);
    var b := Backs(t, l.cmd, l.pos);
    if Peeks(t, b.pos, ";") {
      AfterSymbol(t, b.pos, ';');
      LineFit(t, TokenAt(t, Skip(t, b.pos)).next);
    }
  }

  // ----- Theorems -----

  /** parsecmd() gives a line the command c exactly if the grammar does and no command in c has too many words. */
  lemma {:induction false} AcceptsExactly(t: string, c: Cmd)
    ensures CmdOf(t) == Ok(c, |t|) <==> ALine(t, 0, |t|, c) && Fits(c)
  {
    hide ALine, LineAt, Fits;
    if ALine(t, 0, |t|, c) && Fits(c) {
      LineParsed(t, 0, |t|, c);
      SkipSame(t, |t|);
    } else if CmdOf(t) == Ok(c, |t|) {
      ParsedByGrammar(t);
      LineFit(t, 0);
    }
  }

  /** The grammar gives a line at most one meaning. */
  lemma {:induction false} OneMeaning(t: string, c: Cmd, d: Cmd)
    requires ALine(t, 0, |t|, c) && ALine(t, 0, |t|, d) && Fits(c) && Fits(d)
    ensures c == d
  {
    hide ALine, CmdOf, Fits;
    AcceptsExactly(t, c);
    AcceptsExactly(t, d);
  }
}
