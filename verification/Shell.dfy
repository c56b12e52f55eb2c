/** parsecmd() of user/sh.c with its loops, and nulterminate() on the buffer. */
module Shell {
  import opened ShellLex
  import opened ShellTree
  import opened ShellGrammar
  import opened ShellSpans

  method ParseRedirs(t: string, rs0: seq<Redirection>, ps0: nat) returns (r: Redirected)
    requires ps0 <= |t|
    ensures r == Redirs(t, rs0, ps0)
  {
    var rs, ps := rs0, ps0;
    var found;
    found, ps := Peek(t, ps, "<>");
    while found
      invariant ps <= |t| && Skip(t, ps) == ps && found == Peeks(t, ps, "<>")
      invariant Redirs(t, rs0, ps0) == Redirs(t, rs, ps)
      decreases |t| - ps, found
    {
      var tok := GetToken(t, ps);
      var file := GetToken(t, tok.next);
      if file.kind != 'a' {
        return NoFile;
      }
      rs := rs + [Redirection(Span(file.q, file.eq), KindOf(tok.kind))];
      found, ps := Peek(t, file.next, "<>");
    }
    return Redirected(rs, ps);
  }

  method ParseExec(t: string, ps0: nat) returns (r: Result)
    requires ps0 <= |t|
    ensures r == ExecAt(t, ps0)
    decreases |t| - ps0, 2
  {
    var found, ps := Peek(t, ps0, "(");
    if found {
      r := ParseBlock(t, ps);
      return;
    }
    var args: seq<Span> := [];
    var d := ParseRedirs(t, [], ps);
    if d.NoFile? {
      return Panic("missing file for redirection");
    }
    found, ps := Peek(t, d.pos, "|)&;");
    while !found
      invariant d.Redirected? && d.pos <= ps <= |t| && ps == Skip(t, d.pos) && found == Peeks(t, d.pos, "|)&;")
      invariant |args| < MAXARGS && ExecAt(t, ps0) == Args(t, args, d.rs, d.pos)
      decreases |t| - d.pos
    {
      var tok := GetToken(t, ps);
      if tok.kind == '\0' {
        ps := tok.next;
        break;
      }
      if tok.kind != 'a' {
        return Panic("syntax");
      }
      args := args + [Span(tok.q, tok.eq)];
      if |args| >= MAXARGS {
        return Panic("too many args");
      }
      d := ParseRedirs(t, d.rs, tok.next);
      if d.NoFile? {
        return Panic("missing file for redirection");
      }
      found, ps := Peek(t, d.pos, "|)&;");
    }
    return Ok(Wrap(Exec(args), d.rs), ps);
  }

  method ParseBlock(t: string, ps0: nat) returns (r: Result)
    requires ps0 <= |t|
    ensures r == BlockAt(t, ps0)
    decreases |t| - ps0, 1
  {
    var found, ps := Peek(t, ps0, "(");
    if !found {
      return Panic("parseblock");
    }
    var tok := GetToken(t, ps);
    r := ParseLine(t, tok.next);
    if r.Panic? {
      return;
    }
    var cmd := r.cmd;
    found, ps := Peek(t, r.pos, ")");
    if !found {
      return Panic("syntax - missing )");
    }
    tok := GetToken(t, ps);
    var d := ParseRedirs(t, [], tok.next);
    if d.NoFile? {
      return Panic("missing file for redirection");
    }
    return Ok(Wrap(cmd, d.rs), d.pos);
  }

  method ParsePipe(t: string, ps0: nat) returns (r: Result)
    requires ps0 <= |t|
    ensures r == PipeAt(t, ps0)
    decreases |t| - ps0, 3
  {
    r := ParseExec(t, ps0);
    if r.Panic? {
      return;
    }
    var cmd := r.cmd;
    var found, ps := Peek(t, r.pos, "|");
    if !found {
      return Ok(cmd, ps);
    }
    var tok := GetToken(t, ps);
    r := ParsePipe(t, tok.next);
    if r.Ok? {
      r := Ok(Pipe(cmd, r.cmd), r.pos);
    }
  }

  method ParseLine(t: string, ps0: nat) returns (r: Result)
    requires ps0 <= |t|
    ensures r == LineAt(t, ps0)
    decreases |t| - ps0, 4
  {
    r := ParsePipe(t, ps0);
    if r.Panic? {
      return;
    }
    var cmd := r.cmd;
    ghost var start := r;
    var found, ps := Peek(t, r.pos, "&");
    while found
      invariant start.Ok? && ps0 <= ps <= |t| && Skip(t, ps) == ps && found == Peeks(t, ps, "&")
      invariant Backs(t, start.cmd, start.pos) == Backs(t, cmd, ps)
      decreases |t| - ps
    {
      var tok := GetToken(t, ps);
      cmd := Back(cmd);
      found, ps := Peek(t, tok.next, "&");
    }
    found, ps := Peek(t, ps, ";");
    if !found {
      return Ok(cmd, ps);
    }
    var tok := GetToken(t, ps);
    r := ParseLine(t, tok.next);
    if r.Ok? {
      r := Ok(List(cmd, r.cmd), r.pos);
    }
  }

  /** The loop of nulterminate() over argv. */
  method EndArgs(b: array<char>, args: seq<Span>)
    requires forall i :: 0 <= i < |args| ==> args[i].eq < b.Length
    modifies b
    ensures Ended(old(b[..]), b[..], args)
  {
    var i := 0;
    while i < |args|
      invariant 0 <= i <= |args| && Ended(old(b[..]), b[..], args[..i])
    {
      ghost var was := b[..];
      b[args[i].eq] := '\0';
      EndedOne(was, b[..], args[i]);
      EndedMore(old(b[..]), was, b[..], args[..i], [args[i]]);
      assert args[..i + 1] == args[..i] + [args[i]];
      i := i + 1;
    }
    assert args[..|args|] == args;
  }

  lemma EndedOne(a: seq<char>, b: seq<char>, w: Span)
    requires w.eq < |a| && b == a[w.eq := '\0']
    ensures Ended(a, b, [w])
  {
    assert [w][0].eq == w.eq;
  }

  /** Overwriting the ends of one list of words and then of another. */
  lemma EndedMore(a: seq<char>, b: seq<char>, c: seq<char>, ws: seq<Span>, vs: seq<Span>)
    requires Ended(a, b, ws) && Ended(b, c, vs)
    ensures Ended(a, c, ws + vs)
  {
    forall k | 0 <= k < |a|
      ensures IsEnd(ws + vs, k) <==> IsEnd(ws, k) || IsEnd(vs, k)
    {
      IsEndEither(ws, vs, k);
    }
  }

  lemma IsEndEither(ws: seq<Span>, vs: seq<Span>, k: int)
    ensures IsEnd(ws + vs, k) <==> IsEnd(ws, k) || IsEnd(vs, k)
  {
    if IsEnd(ws, k) {
      var i :| 0 <= i < |ws| && ws[i].eq == k;
      assert (ws + vs)[i].eq == k;
    }
    if IsEnd(vs, k) {
      var i :| 0 <= i < |vs| && vs[i].eq == k;
      assert (ws + vs)[|ws| + i].eq == k;
    }
  }

  /** Every end lies in the buffer. */
  ghost predicate EndsIn(ws: seq<Span>, n: nat) {
    forall i :: 0 <= i < |ws| ==> ws[i].eq < n
  }

  /** nulterminate(): a NUL goes to the end of every word, and nowhere else. */
  method NulTerminate(b: array<char>, c: Cmd)
    requires EndsIn(Spans(c), b.Length)
    modifies b
    ensures Ended(old(b[..]), b[..], Spans(c))
    decreases c
  {
    match c {
      case Exec(args) =>
        EndArgs(b, args);
      case Redir(d, w, k) =>
        EndsParts(Spans(d), [w], b.Length);
        assert [w][0].eq < b.Length;
        NulTerminate(b, d);
        ghost var was := b[..];
        b[w.eq] := '\0';
        EndedOne(was, b[..], w);
        EndedMore(old(b[..]), was, b[..], Spans(d), [w]);
      case Pipe(l, r) =>
        EndsParts(Spans(l), Spans(r), b.Length);
        NulTerminate(b, l);
        ghost var was := b[..];
        NulTerminate(b, r);
        EndedMore(old(b[..]), was, b[..], Spans(l), Spans(r));
      case List(l, r) =>
        EndsParts(Spans(l), Spans(r), b.Length);
        NulTerminate(b, l);
        ghost var was := b[..];
        NulTerminate(b, r);
        EndedMore(old(b[..]), was, b[..], Spans(l), Spans(r));
      case Back(d) =>
        NulTerminate(b, d);
    }
  }

  lemma EndsParts(ws: seq<Span>, vs: seq<Span>, n: nat)
    requires EndsIn(ws + vs, n)
    ensures EndsIn(ws, n) && EndsIn(vs, n)
  {
    forall i | 0 <= i < |ws|
      ensures ws[i].eq < n
    {
      assert (ws + vs)[i] == ws[i];
    }
    forall i | 0 <= i < |vs|
      ensures vs[i].eq < n
    {
      assert (ws + vs)[|ws| + i] == vs[i];
    }
  }

  method Strlen(b: array<char>) returns (n: nat)
    requires '\0' in b[..]
    ensures n < b.Length && b[n] == '\0' && '\0' !in b[..n]
  {
    n := 0;
    while b[n] != '\0'
      invariant n < b.Length && '\0' !in b[..n]
      decreases b.Length - n
    {
      n := n + 1;
      if n == b.Length {
        assert b[..n] == b[..];
      }
    }
  }

  /**
   parsecmd(): the command that the line is, with every argv and file pointer
   reading back its word, or a panic that leaves the buffer alone.
   */
  method ParseCmd(b: array<char>) returns (r: Result, ghost t: string)
    requires '\0' in b[..]
    modifies b
    ensures |t| < b.Length && t == old(b[..|t|]) && '\0' !in t && old(b[..])[|t|] == '\0'
    ensures r == CmdOf(t)
    ensures r.Panic? ==> b[..] == old(b[..])
    ensures r.Ok? ==>
      forall i :: 0 <= i < |Spans(r.cmd)| ==>
        var w := Spans(r.cmd)[i]; w.q <= b.Length && StringAt(b[..], w.q) == Cut(t, w)
  {
    var es := Strlen(b);
    var s := b[..es];
    t := s;
    r := ParseLine(s, 0);
    if r.Panic? {
      return;
    }
    var cmd := r.cmd;
    var _, ps := Peek(s, r.pos, "");
    if ps != es {
      return Panic("syntax"), t;
    }
    CommandSpans(t);
    SpansAreWords(t, cmd);
    ghost var ws := Spans(cmd);
    forall i | 0 <= i < |ws|
      ensures ws[i].eq < b.Length
    {
      assert Word(t, ws[i]);
    }
    NulTerminate(b, cmd);
    forall i | 0 <= i < |ws|
      ensures ws[i].q <= b.Length && StringAt(b[..], ws[i].q) == Cut(t, ws[i])
    {
      ReadsBack(t, old(b[..]), b[..], ws, i);
    }
    return Ok(cmd, ps), t;
  }
}
