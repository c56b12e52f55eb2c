/**
 The grammar of the shell's command lines, stated apart from the parser: which
 stretch of a line is which command. Blanks may stand around every token. Every
 line that parses is parsed as the grammar says.
 */
module ShellDerive {
  import opened ShellLex
  import opened ShellTree
  import opened ShellGrammar
  import opened ShellSpans

  // ----- Tokens -----

  /** Between a and b there is only what stands from q to e, and blanks. */
  ghost predicate Only(t: string, a: nat, q: nat, e: nat, b: nat) {
    && a <= q <= e <= b <= |t|
    && (forall k :: a <= k < q ==> Blank(t[k])) && (forall k :: e <= k < b ==> Blank(t[k]))
  }

  ghost predicate AWord(t: string, a: nat, b: nat, w: Span) {
    Word(t, w) && Only(t, a, w.q, w.eq, b)
  }

  ghost predicate ASymbol(t: string, a: nat, b: nat, c: char) {
    exists p: nat :: p < |t| && t[p] == c && Only(t, a, p, p + 1, b)
  }

  ghost predicate AnArrow(t: string, a: nat, b: nat, k: Kind) {
    match k
    case In => ASymbol(t, a, b, '<')
    case Out => exists p: nat :: p < |t| && t[p] == '>' && (p + 1 == |t| || t[p + 1] != '>') && Only(t, a, p, p + 1, b)
    case Append => exists p: nat :: p + 1 < |t| && t[p] == t[p + 1] == '>' && Only(t, a, p, p + 2, b)
  }

  ghost predicate ARedirection(t: string, a: nat, b: nat, file: Span, k: Kind) {
    exists m: nat :: AnArrow(t, a, m, k) && AWord(t, m, b, file)
  }

  // ----- Commands -----

  /** The command with one more argument, behind all its redirections. */
  function WithArg(c: Cmd, w: Span): (r: Cmd) {
    match c
    case Exec(args) => Exec(args + [w])
    case Redir(d, file, k) => Redir(WithArg(d, w), file, k)
    case _ => c
  }

  /**
   Words and redirections in any order: each word is the next argument, each
   redirection goes around what is there.
   */
  ghost predicate ASimple(t: string, a: nat, b: nat, c: Cmd)
    decreases b
  {
    || (Only(t, a, b, b, b) && c == Exec([]))
    || (exists m: nat, w: Span, d: Cmd {:trigger ASimple(t, a, m, d), AWord(t, m, b, w)} ::
          a <= m < b && ASimple(t, a, m, d) && AWord(t, m, b, w) && c == WithArg(d, w))
    || (c.Redir? && exists m: nat :: a <= m < b && ASimple(t, a, m, c.cmd) && ARedirection(t, m, b, c.file, c.kind))
  }

  /** A line in parentheses, and redirections around it. */
  ghost predicate ABlock(t: string, a: nat, b: nat, c: Cmd)
    decreases if b >= a then b - a else 0, 0
  {
    || (exists m: nat, n: nat ::
          a < m <= n < b && ASymbol(t, a, m, '(') && ALine(t, m, n, c) && ASymbol(t, n, b, ')'))
    || (c.Redir? && exists m: nat :: a <= m < b && ABlock(t, a, m, c.cmd) && ARedirection(t, m, b, c.file, c.kind))
  }

  ghost predicate ACommand(t: string, a: nat, b: nat, c: Cmd)
    decreases if b >= a then b - a else 0, 1
  {
    ASimple(t, a, b, c) || ABlock(t, a, b, c)
  }

  /** Bars group to the right. */
  ghost predicate APipe(t: string, a: nat, b: nat, c: Cmd)
    decreases if b >= a then b - a else 0, 2
  {
    || ACommand(t, a, b, c)
    || (c.Pipe? && exists m: nat, n: nat ::
          a <= m < n <= b && ACommand(t, a, m, c.left) && ASymbol(t, m, n, '|') && APipe(t, n, b, c.right))
  }

  ghost predicate ABack(t: string, a: nat, b: nat, c: Cmd)
    decreases if b >= a then b - a else 0, 3
  {
    APipe(t, a, b, c) || (c.Back? && exists m: nat :: a <= m < b && ABack(t, a, m, c.cmd) && ASymbol(t, m, b, '&'))
  }

  /** So do semicolons, and an ampersand binds tighter. */
  ghost predicate ALine(t: string, a: nat, b: nat, c: Cmd)
    decreases if b >= a then b - a else 0, 4
  {
    || ABack(t, a, b, c)
    || (c.List? && exists m: nat, n: nat ::
          a <= m < n <= b && ABack(t, a, m, c.left) && ASymbol(t, m, n, ';') && ALine(t, n, b, c.right))
  }

  // ----- What the parser does -----

  lemma {:induction false} WordIs(t: string, pos: nat)
    requires pos <= |t| && TokenAt(t, pos).kind == 'a'
    ensures var k := TokenAt(t, pos); pos <= k.q < k.next && AWord(t, pos, k.next, Span(k.q, k.eq))
  {
  }

  lemma {:induction false} SymbolIs(t: string, pos: nat, c: char)
    requires pos <= |t| && Symbol(c) && c != '>' && Peeks(t, pos, [c])
    ensures var k := TokenAt(t, Skip(t, pos)); pos < k.next && ASymbol(t, pos, k.next, c)
  {
    assert Only(t, pos, Skip(t, pos), Skip(t, pos) + 1, TokenAt(t, Skip(t, pos)).next);
  }

  lemma {:induction false} ArrowIs(t: string, pos: nat)
    requires pos <= |t| && Peeks(t, pos, "<>")
    ensures var k := TokenAt(t, Skip(t, pos)); pos < k.next && AnArrow(t, pos, k.next, KindOf(k.kind))
  {
    var k := TokenAt(t, Skip(t, pos));
    assert Only(t, pos, k.q, k.eq, k.next);
  }

  lemma {:induction false} RedirectionIs(t: string, pos: nat)
    requires pos <= |t| && Peeks(t, pos, "<>") && TokenAt(t, TokenAt(t, Skip(t, pos)).next).kind == 'a'
    ensures var k := TokenAt(t, Skip(t, pos)); var f := TokenAt(t, k.next);
      pos < f.next && ARedirection(t, pos, f.next, Span(f.q, f.eq), KindOf(k.kind))
  {
    hide TokenAt, AWord, AnArrow;
    ArrowIs(t, pos);
    WordIs(t, TokenAt(t, Skip(t, pos)).next);
  }

  lemma {:induction false} WrapArg(args: seq<Span>, rs: seq<Redirection>, w: Span)
    ensures Wrap(Exec(args + [w]), rs) == WithArg(Wrap(Exec(args), rs), w)
  {
    if rs != [] {
      WrapArg(args, rs[..|rs| - 1], w);
    }
  }

  lemma {:induction false} WrapMore(c: Cmd, rs: seq<Redirection>, r: Redirection)
    ensures Wrap(c, rs + [r]) == Redir(Wrap(c, rs), r.file, r.kind)
  {
    assert (rs + [r])[..|rs|] == rs;
  }

  /** parseredirs() for a simple command. */
  lemma {:induction false} SimpleRedirs(t: string, a: nat, args: seq<Span>, rs: seq<Redirection>, pos: nat)
    requires a <= pos <= |t| && ASimple(t, a, pos, Wrap(Exec(args), rs))
    ensures var r := Redirs(t, rs, pos); r.Redirected? ==> a <= r.pos && ASimple(t, a, r.pos, Wrap(Exec(args), r.rs))
    decreases |t| - pos
  {
    hide TokenAt, ARedirection, AWord;
    if Peeks(t, pos, "<>") {
      var k := TokenAt(t, Skip(t, pos));
      var f := TokenAt(t, k.next);
      if f.kind == 'a' {
        var r := Redirection(Span(f.q, f.eq), KindOf(k.kind));
        RedirectionIs(t, pos);
        WrapMore(Exec(args), rs, r);
        hide Wrap;
        SimpleRedirs(t, a, args, rs + [r], f.next);
      }
    } else {
      SimpleBlanks(t, a, pos, Skip(t, pos), Wrap(Exec(args), rs));
    }
  }

  /** Blanks may follow. */
  lemma {:induction false} SimpleBlanks(t: string, a: nat, b: nat, e: nat, c: Cmd)
    requires ASimple(t, a, b, c) && b <= e <= |t| && forall k :: b <= k < e ==> Blank(t[k])
    ensures ASimple(t, a, e, c)
  {
    if Only(t, a, b, b, b) && c == Exec([]) {
      assert Only(t, a, e, e, e);
    } else if m: nat, w: Span, d: Cmd :| a <= m < b && ASimple(t, a, m, d) && AWord(t, m, b, w) && c == WithArg(d, w) {
      assert AWord(t, m, e, w);
    } else {
      var m: nat :| a <= m < b && ASimple(t, a, m, c.cmd) && ARedirection(t, m, b, c.file, c.kind);
      RedirectionBlanks(t, m, b, e, c.file, c.kind);
    }
  }

  lemma {:induction false} RedirectionBlanks(t: string, a: nat, b: nat, e: nat, file: Span, k: Kind)
    requires ARedirection(t, a, b, file, k) && b <= e <= |t| && forall i :: b <= i < e ==> Blank(t[i])
    ensures ARedirection(t, a, e, file, k)
  {
    hide AnArrow;
    var m: nat :| AnArrow(t, a, m, k) && AWord(t, m, b, file);
    assert AWord(t, m, e, file);
  }

  lemma {:induction false} SymbolBlanks(t: string, a: nat, b: nat, e: nat, c: char)
    requires ASymbol(t, a, b, c) && b <= e <= |t| && forall k :: b <= k < e ==> Blank(t[k])
    ensures ASymbol(t, a, e, c)
  {
    var p: nat :| p < |t| && t[p] == c && Only(t, a, p, p + 1, b);
    assert Only(t, a, p, p + 1, e);
  }

  lemma {:induction false} BlockBlanks(t: string, a: nat, b: nat, e: nat, c: Cmd)
    requires ABlock(t, a, b, c) && b <= e <= |t| && forall k :: b <= k < e ==> Blank(t[k])
    ensures ABlock(t, a, e, c)
  {
    hide ASymbol, ALine, ARedirection;
    if m: nat, n: nat :| a < m <= n < b && ASymbol(t, a, m, '(') && ALine(t, m, n, c) && ASymbol(t, n, b, ')') {
      SymbolBlanks(t, n, b, e, ')');
    } else {
      var m: nat :| a <= m < b && ABlock(t, a, m, c.cmd) && ARedirection(t, m, b, c.file, c.kind);
      RedirectionBlanks(t, m, b, e, c.file, c.kind);
    }
  }

  lemma {:induction false} PipeBlanks(t: string, a: nat, b: nat, e: nat, c: Cmd)
    requires APipe(t, a, b, c) && b <= e <= |t| && forall k :: b <= k < e ==> Blank(t[k])
    ensures APipe(t, a, e, c)
    decreases c
  {
    hide ASymbol, ASimple, ABlock;
    if ASimple(t, a, b, c) {
      SimpleBlanks(t, a, b, e, c);
    } else if ABlock(t, a, b, c) {
      BlockBlanks(t, a, b, e, c);
    } else {
      var m: nat, n: nat :|
        a <= m < n <= b && ACommand(t, a, m, c.left) && ASymbol(t, m, n, '|') && APipe(t, n, b, c.right);
      PipeBlanks(t, n, b, e, c.right);
    }
  }

  lemma {:induction false} BackBlanks(t: string, a: nat, b: nat, e: nat, c: Cmd)
    requires ABack(t, a, b, c) && b <= e <= |t| && forall k :: b <= k < e ==> Blank(t[k])
    ensures ABack(t, a, e, c)
  {
    hide ASymbol, APipe;
    if APipe(t, a, b, c) {
      PipeBlanks(t, a, b, e, c);
    } else {
      var m: nat :| a <= m < b && ABack(t, a, m, c.cmd) && ASymbol(t, m, b, '&');
      SymbolBlanks(t, m, b, e, '&');
    }
  }

  lemma {:induction false} LineBlanks(t: string, a: nat, b: nat, e: nat, c: Cmd)
    requires ALine(t, a, b, c) && b <= e <= |t| && forall k :: b <= k < e ==> Blank(t[k])
    ensures ALine(t, a, e, c)
    decreases c
  {
    hide ASymbol, ABack;
    if ABack(t, a, b, c) {
      BackBlanks(t, a, b, e, c);
    } else {
      var m: nat, n: nat :|
        a <= m < n <= b && ABack(t, a, m, c.left) && ASymbol(t, m, n, ';') && ALine(t, n, b, c.right);
      LineBlanks(t, n, b, e, c.right);
    }
  }

  /** parseexec()'s loop. */
  lemma {:induction false} ArgsDerived(t: string, a: nat, args: seq<Span>, rs: seq<Redirection>, pos: nat)
    requires a <= pos <= |t| && ASimple(t, a, pos, Wrap(Exec(args), rs))
    ensures var r := Args(t, args, rs, pos); r.Ok? ==> a <= r.pos && ASimple(t, a, r.pos, r.cmd)
    decreases |t| - pos
  {
    hide ASimple, AWord;
    var p := Skip(t, pos);
    SimpleBlanks(t, a, pos, p, Wrap(Exec(args), rs));
    var tok := TokenAt(t, p);
    if !Peeks(t, pos, "|)&;") && tok.kind == 'a' && |args| + 1 < MAXARGS {
      var w := Span(tok.q, tok.eq);
      WordIs(t, p);
      SimpleArg(t, a, p, tok.next, args, rs, w);
      SimpleRedirs(t, a, args + [w], rs, tok.next);
      var r := Redirs(t, rs, tok.next);
      hide Wrap, Redirs, TokenAt;
      if r.Redirected? {
        ArgsDerived(t, a, args + [w], r.rs, r.pos);
      }
    }
  }

  lemma {:induction false} SimpleArg(t: string, a: nat, m: nat, b: nat, args: seq<Span>, rs: seq<Redirection>, w: Span)
    requires a <= m < b && ASimple(t, a, m, Wrap(Exec(args), rs)) && AWord(t, m, b, w)
    ensures ASimple(t, a, b, Wrap(Exec(args + [w]), rs))
  {
    hide Wrap, AWord, ARedirection, Only, WithArg;
    WrapArg(args, rs, w);
  }

  /** parseredirs() for a block. */
  lemma {:induction false} BlockRedirs(t: string, a: nat, c: Cmd, rs: seq<Redirection>, pos: nat)
    requires a <= pos <= |t| && ABlock(t, a, pos, Wrap(c, rs))
    ensures var r := Redirs(t, rs, pos); r.Redirected? ==> a <= r.pos && ABlock(t, a, r.pos, Wrap(c, r.rs))
    decreases |t| - pos
  {
    hide TokenAt, ARedirection, AWord, ASymbol, ALine;
    if Peeks(t, pos, "<>") {
      var k := TokenAt(t, Skip(t, pos));
      var f := TokenAt(t, k.next);
      if f.kind == 'a' {
        var r := Redirection(Span(f.q, f.eq), KindOf(k.kind));
        RedirectionIs(t, pos);
        WrapMore(c, rs, r);
        hide Wrap;
        BlockRedirs(t, a, c, rs + [r], f.next);
      }
    } else {
      BlockBlanks(t, a, pos, Skip(t, pos), Wrap(c, rs));
    }
  }

  lemma {:induction false} InnerDerived(t: string, a: nat, pos: nat)
    requires a <= pos <= |t| && Skip(t, a) == pos
    ensures var r := InnerAt(t, pos); r.Ok? ==> a <= r.pos && ABlock(t, a, r.pos, r.cmd)
    decreases |t| - pos, 0
  {
    if Peeks(t, pos, "(") {
      SkipSame(t, a);
      SymbolIs(t, a, '(');
      var p := TokenAt(t, Skip(t, pos)).next;
      LineDerived(t, p);
      var l := LineAt(t, p);
      if l.Ok? && Peeks(t, l.pos, ")") {
        SymbolIs(t, l.pos, ')');
        hide ASymbol, ALine, LineAt, TokenAt;
      }
    }
  }

  lemma {:induction false} SkipSame(t: string, a: nat)
    requires a <= |t|
    ensures Skip(t, Skip(t, a)) == Skip(t, a)
  {
  }

  lemma {:induction false} ExecDerived(t: string, pos: nat)
    requires pos <= |t|
    ensures var r := ExecAt(t, pos); r.Ok? ==> pos <= r.pos && ACommand(t, pos, r.pos, r.cmd)
    decreases |t| - pos, 1
  {
    var p := Skip(t, pos);
    if Peeks(t, pos, "(") {
      InnerDerived(t, pos, p);
      var i := InnerAt(t, p);
      hide InnerAt, ABlock, ASimple;
      if i.Ok? {
        BlockRedirs(t, pos, i.cmd, [], i.pos);
      }
    } else {
      assert Only(t, pos, p, p, p);
      assert ASimple(t, pos, p, Wrap(Exec([]), []));
      SimpleRedirs(t, pos, [], [], p);
      var r := Redirs(t, [], p);
      hide ABlock, ASimple;
      if r.Redirected? {
        ArgsDerived(t, pos, [], r.rs, r.pos);
      }
    }
  }

  lemma {:induction false} PipeDerived(t: string, pos: nat)
    requires pos <= |t|
    ensures var r := PipeAt(t, pos); r.Ok? ==> pos <= r.pos && APipe(t, pos, r.pos, r.cmd)
    decreases |t| - pos, 2
  {
    ExecDerived(t, pos);
    var l := ExecAt(t, pos);
    hide ExecAt, ACommand;
    if l.Ok? {
      if Peeks(t, l.pos, "|") {
        SymbolIs(t, l.pos, '|');
        PipeDerived(t, TokenAt(t, Skip(t, l.pos)).next);
        hide ASymbol, TokenAt;
      } else {
        PipeBlanks(t, pos, l.pos, Skip(t, l.pos), l.cmd);
      }
    }
  }

  lemma {:induction false} BacksDerived(t: string, a: nat, c: Cmd, pos: nat)
    requires a <= pos <= |t| && ABack(t, a, pos, c)
    ensures var r := Backs(t, c, pos); a <= r.pos && ABack(t, a, r.pos, r.cmd)
    decreases |t| - pos
  {
    hide APipe;
    if Peeks(t, pos, "&") {
      SymbolIs(t, pos, '&');
      BacksDerived(t, a, Back(c), TokenAt(t, Skip(t, pos)).next);
    } else {
      BackBlanks(t, a, pos, Skip(t, pos), c);
    }
  }

  lemma {:induction false} LineDerived(t: string, pos: nat)
    requires pos <= |t|
    ensures var r := LineAt(t, pos); r.Ok? ==> pos <= r.pos && ALine(t, pos, r.pos, r.cmd)
    decreases |t| - pos, 3
  {
    PipeDerived(t, pos);
    var l := PipeAt(t, pos);
    hide PipeAt, APipe;
    if l.Ok? {
      assert ABack(t, pos, l.pos, l.cmd);
      BacksDerived(t, pos, l.cmd, l.pos);
      var b := Backs(t, l.cmd, l.pos);
      hide Backs, ABack;
      if Peeks(t, b.pos, ";") {
        SymbolIs(t, b.pos, ';');
        LineDerived(t, TokenAt(t, Skip(t, b.pos)).next);
        hide ASymbol, TokenAt;
      } else {
        BackBlanks(t, pos, b.pos, Skip(t, b.pos), b.cmd);
      }
    }
  }

  /** Every line that parses is parsed as the grammar says. */
  lemma {:induction false} ParsedByGrammar(t: string)
    requires CmdOf(t).Ok?
    ensures ALine(t, 0, |t|, CmdOf(t).cmd)
  {
    hide ALine, LineAt;
    LineDerived(t, 0);
    LineBlanks(t, 0, LineAt(t, 0).pos, |t|, LineAt(t, 0).cmd);
  }
}
