/**
 No word of a line is dropped or taken twice: for every line that parses, each
 character of a word lies in exactly one argument or file name of the command,
 and no other character lies in any.
 */
module ShellCover {
  import opened ShellLex
  import opened ShellTree
  import opened ShellGrammar
  import opened ShellSpans

  /** How many of the words cover position k. */
  function Covers(ws: seq<Span>, k: int): (n: nat) {
    if ws == [] then 0
    else Covers(ws[..|ws| - 1], k) + (if ws[|ws| - 1].q <= k < ws[|ws| - 1].eq then 1 else 0)
  }

  function FileCovers(rs: seq<Redirection>, k: int): (n: nat) {
    if rs == [] then 0
    else FileCovers(rs[..|rs| - 1], k) + (if rs[|rs| - 1].file.q <= k < rs[|rs| - 1].file.eq then 1 else 0)
  }

  /** 1 if position k is part of a word and lies between a and b. */
  function InWord(t: string, a: nat, b: nat, k: int): (n: nat)
    requires b <= |t|
  {
    if a <= k < b && WordChar(t[k]) then 1 else 0
  }

  lemma {:induction false} CoversBoth(a: seq<Span>, b: seq<Span>, k: int)
    ensures Covers(a + b, k) == Covers(a, k) + Covers(b, k)
  {
    if b == [] {
      assert a + b == a;
    } else {
      CoversBoth(a, b[..|b| - 1], k);
      assert (a + b)[..|a + b| - 1] == a + b[..|b| - 1];
    }
  }

  lemma CoversOneMore(ws: seq<Span>, w: Span, k: int)
    ensures Covers(ws + [w], k) == Covers(ws, k) + (if w.q <= k < w.eq then 1 else 0)
  {
    assert (ws + [w])[..|ws|] == ws;
  }

  lemma FileCoversOneMore(rs: seq<Redirection>, x: Redirection, k: int)
    ensures FileCovers(rs + [x], k) == FileCovers(rs, k) + (if x.file.q <= k < x.file.eq then 1 else 0)
  {
    assert (rs + [x])[..|rs|] == rs;
  }

  lemma {:induction false} WrapCovers(c: Cmd, rs: seq<Redirection>, k: int)
    ensures Covers(Spans(Wrap(c, rs)), k) == Covers(Spans(c), k) + FileCovers(rs, k)
  {
    if rs != [] {
      var n := |rs| - 1;
      WrapCovers(c, rs[..n], k);
      CoversOneMore(Spans(Wrap(c, rs[..n])), rs[n].file, k);
    }
  }

  /** Of what gettoken() passes over, the words are what it returns as such. */
  lemma TokenCovers(t: string, pos: nat, k: int)
    requires pos <= |t|
    ensures var tok := TokenAt(t, pos);
      InWord(t, pos, tok.next, k) == if tok.kind == 'a' && tok.q <= k < tok.eq then 1 else 0
  {
    var tok := TokenAt(t, pos);
    if pos <= k < tok.next && !(tok.q <= k < tok.eq) {
      assert Blank(t[k]);
    }
  }

  lemma SkipCovers(t: string, pos: nat, k: int)
    requires pos <= |t|
    ensures InWord(t, pos, Skip(t, pos), k) == 0
  {
  }

  /** A symbol and the blanks around it. */
  lemma SymbolCovers(t: string, pos: nat, c: char, k: int)
    requires pos <= |t| && Symbol(c) && Peeks(t, pos, [c])
    ensures InWord(t, pos, TokenAt(t, Skip(t, pos)).next, k) == 0
  {
    SkipCovers(t, pos, k);
    TokenCovers(t, Skip(t, pos), k);
  }

  // ----- The parser -----

  lemma {:induction false} RedirsCover(t: string, rs: seq<Redirection>, pos: nat, k: int)
    requires pos <= |t|
    ensures var r := Redirs(t, rs, pos);
      r.Redirected? ==> FileCovers(r.rs, k) == FileCovers(rs, k) + InWord(t, pos, r.pos, k)
    decreases |t| - pos
  {
    hide FileCovers;
    SkipCovers(t, pos, k);
    if Peeks(t, pos, "<>") {
      var tok := TokenAt(t, Skip(t, pos));
      var file := TokenAt(t, tok.next);
      TokenCovers(t, Skip(t, pos), k);
      TokenCovers(t, tok.next, k);
      if file.kind == 'a' {
        var x := Redirection(Span(file.q, file.eq), KindOf(tok.kind));
        FileCoversOneMore(rs, x, k);
        RedirsCover(t, rs + [x], file.next, k);
      }
    }
  }

  lemma {:induction false} ArgsCover(t: string, args: seq<Span>, rs: seq<Redirection>, pos: nat, k: int)
    requires pos <= |t|
    ensures var r := Args(t, args, rs, pos);
      r.Ok? ==> Covers(Spans(r.cmd), k) == Covers(args, k) + FileCovers(rs, k) + InWord(t, pos, r.pos, k)
    decreases |t| - pos
  {
    hide Covers, FileCovers;
    WrapCovers(Exec(args), rs, k);
    SkipCovers(t, pos, k);
    var tok := TokenAt(t, Skip(t, pos));
    TokenCovers(t, Skip(t, pos), k);
    if !Peeks(t, pos, "|)&;") && tok.kind == 'a' && |args| + 1 < MAXARGS {
      RedirsCover(t, rs, tok.next, k);
      var r := Redirs(t, rs, tok.next);
      if r.Redirected? {
        CoversOneMore(args, Span(tok.q, tok.eq), k);
        ArgsCover(t, args + [Span(tok.q, tok.eq)], r.rs, r.pos, k);
      }
    }
  }

  lemma {:induction false} BacksCover(t: string, c: Cmd, pos: nat, k: int)
    requires pos <= |t|
    ensures var r := Backs(t, c, pos); Spans(r.cmd) == Spans(c) && InWord(t, pos, r.pos, k) == 0
    decreases |t| - pos
  {
    SkipCovers(t, pos, k);
    if Peeks(t, pos, "&") {
      SymbolCovers(t, pos, '&', k);
      BacksCover(t, Back(c), TokenAt(t, Skip(t, pos)).next, k);
    }
  }

  lemma NoFiles(k: int)
    ensures Covers([], k) == 0 && FileCovers([], k) == 0
  {
  }

  lemma {:induction false} ExecCover(t: string, pos: nat, k: int)
    requires pos <= |t|
    ensures var r := ExecAt(t, pos); r.Ok? ==> Covers(Spans(r.cmd), k) == InWord(t, pos, r.pos, k)
    decreases |t| - pos, 1
  {
    hide Covers, FileCovers, Spans, Wrap;
    SkipCovers(t, pos, k);
    NoFiles(k);
    var p := Skip(t, pos);
    if Peeks(t, pos, "(") {
      InnerCover(t, p, k);
      var inner := InnerAt(t, p);
      if inner.Ok? {
        RedirsCover(t, [], inner.pos, k);
        if Redirs(t, [], inner.pos).Redirected? {
          WrapCovers(inner.cmd, Redirs(t, [], inner.pos).rs, k);
        }
      }
    } else {
      RedirsCover(t, [], p, k);
      var r := Redirs(t, [], p);
      if r.Redirected? {
        ArgsCover(t, [], r.rs, r.pos, k);
      }
    }
  }

  lemma {:induction false} InnerCover(t: string, pos: nat, k: int)
    requires pos <= |t|
    ensures var r := InnerAt(t, pos); r.Ok? ==> Covers(Spans(r.cmd), k) == InWord(t, pos, r.pos, k)
    decreases |t| - pos, 0
  {
    hide Covers, Spans;
    if Peeks(t, pos, "(") {
      SymbolCovers(t, pos, '(', k);
      var p := TokenAt(t, Skip(t, pos)).next;
      LineCover(t, p, k);
      var l := LineAt(t, p);
      if l.Ok? && Peeks(t, l.pos, ")") {
        SymbolCovers(t, l.pos, ')', k);
      }
    }
  }

  lemma {:induction false} PipeCover(t: string, pos: nat, k: int)
    requires pos <= |t|
    ensures var r := PipeAt(t, pos); r.Ok? ==> Covers(Spans(r.cmd), k) == InWord(t, pos, r.pos, k)
    decreases |t| - pos, 2
  {
    hide Covers, TokenAt, Skip;
    ExecCover(t, pos, k);
    var l := ExecAt(t, pos);
    if l.Ok? {
      SkipCovers(t, l.pos, k);
      if Peeks(t, l.pos, "|") {
        SymbolCovers(t, l.pos, '|', k);
        var p := TokenAt(t, Skip(t, l.pos)).next;
        PipeCover(t, p, k);
        if PipeAt(t, p).Ok? {
          CoversBoth(Spans(l.cmd), Spans(PipeAt(t, p).cmd), k);
        }
      }
    }
  }

  lemma {:induction false} LineCover(t: string, pos: nat, k: int)
    requires pos <= |t|
    ensures var r := LineAt(t, pos); r.Ok? ==> Covers(Spans(r.cmd), k) == InWord(t, pos, r.pos, k)
    decreases |t| - pos, 3
  {
    hide Covers, TokenAt, Skip;
    PipeCover(t, pos, k);
    var p := PipeAt(t, pos);
    if p.Ok? {
      BacksCover(t, p.cmd, p.pos, k);
      var b := Backs(t, p.cmd, p.pos);
      SkipCovers(t, b.pos, k);
      if Peeks(t, b.pos, ";") {
        SymbolCovers(t, b.pos, ';', k);
        var q := TokenAt(t, Skip(t, b.pos)).next;
        LineCover(t, q, k);
        if LineAt(t, q).Ok? {
          CoversBoth(Spans(b.cmd), Spans(LineAt(t, q).cmd), k);
        }
      }
    }
  }

  /** Every character of a word of the line lies in exactly one word of the command, and no other does. */
  lemma EachWordOnce(t: string, k: int)
    requires CmdOf(t).Ok? && 0 <= k < |t|
    ensures Covers(Spans(CmdOf(t).cmd), k) == if WordChar(t[k]) then 1 else 0
  {
    LineCover(t, 0, k);
    SkipCovers(t, LineAt(t, 0).pos, k);
  }
}
