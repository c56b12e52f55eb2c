/**
 What the parser's pointers point at, for every line: whole words. So parsing a
 line and printing the command normalises the line, and the ends that
 nulterminate() overwrites never lie inside another word.
 */
module ShellSpans {
  import opened ShellLex
  import opened ShellTree
  import opened ShellGrammar
  import opened ShellRoundTrip

  /** A whole word of t: it is not empty and does not go on. */
  ghost predicate Word(t: string, w: Span) {
    && w.q < w.eq <= |t|
    && (w.eq == |t| || !WordChar(t[w.eq]))
    && forall i :: w.q <= i < w.eq ==> WordChar(t[i])
  }

  ghost predicate WordsOk(t: string, ws: seq<Span>) {
    forall i :: 0 <= i < |ws| ==> Word(t, ws[i])
  }

  /** Back over blanks: the end of what comes before q. */
  function BackOver(t: string, q: nat): (e: nat)
    requires q <= |t|
    ensures e <= q
  {
    if q > 0 && Blank(t[q - 1]) then BackOver(t, q - 1) else q
  }

  /** The file at q is to be opened with the mode and on the descriptor that the arrow before it asks for. */
  predicate Opens(t: string, q: nat, mode: int, fd: int)
    requires q <= |t|
  {
    var e := BackOver(t, q);
    && e > 0
    && if t[e - 1] == '<' then mode == O_RDONLY && fd == 0
       else if e > 1 && t[e - 2] == '>' then t[e - 1] == '>' && mode == O_WRONLY + O_CREATE && fd == 1
       else t[e - 1] == '>' && mode == O_WRONLY + O_CREATE + O_TRUNC && fd == 1
  }

  /** A redirection names a whole word and does what the arrow before that word says. */
  ghost predicate RedirOk(t: string, w: Span, k: Kind) {
    Word(t, w) && Opens(t, w.q, k.Mode(), k.Fd())
  }

  ghost predicate RedirsOk(t: string, rs: seq<Redirection>) {
    forall i :: 0 <= i < |rs| ==> RedirOk(t, rs[i].file, rs[i].kind)
  }

  /** No arrow comes right before the next character that is not blank. */
  predicate NoArrow(t: string, pos: nat)
    requires pos <= |t|
  {
    var p := Skip(t, pos);
    p == 0 || t[p - 1] != '>'
  }

  lemma {:induction false} BackOverIs(t: string, e: nat, q: nat)
    requires e <= q <= |t| && (e == 0 || !Blank(t[e - 1])) && forall k :: e <= k < q ==> Blank(t[k])
    ensures BackOver(t, q) == e
  {
    if e < q {
      BackOverIs(t, e, q - 1);
    }
  }

  /** After a word, a parenthesis, a bar, a semicolon or an ampersand. */
  lemma AfterToken(t: string, pos: nat)
    requires pos <= |t| && TokenAt(t, pos).kind != '>' && TokenAt(t, pos).kind != '+' && TokenAt(t, pos).kind != '\0'
    ensures NoArrow(t, TokenAt(t, pos).next)
  {
    var tok := TokenAt(t, pos);
    assert Skip(t, tok.next) == tok.next;
    assert tok.next > tok.eq ==> Blank(t[tok.next - 1]);
  }

  /** After a symbol that is no arrow. */
  lemma AfterSymbol(t: string, pos: nat, c: char)
    requires pos <= |t| && Symbol(c) && c != '>' && Peeks(t, pos, [c])
    ensures NoArrow(t, TokenAt(t, Skip(t, pos)).next)
  {
    assert TokenAt(t, Skip(t, pos)).kind == c;
    AfterToken(t, Skip(t, pos));
  }

  lemma ArrowToken(t: string, p: nat)
    requires p < |t| && (t[p] == '<' || t[p] == '>')
    ensures var tok := TokenAt(t, p);
      && tok.q == p && tok.next == Skip(t, tok.eq) && Skip(t, tok.next) == tok.next
      && (if tok.kind == '+' then tok.eq == p + 2 <= |t| && t[p] == t[p + 1] == '>'
          else tok.kind == t[p] && tok.eq == p + 1)
  {
  }

  lemma FileFollows(t: string, p: nat)
    requires p <= |t| && Skip(t, p) == p && TokenAt(t, p).kind == 'a'
    ensures TokenAt(t, p).q == p && Word(t, Span(p, TokenAt(t, p).eq))
  {
  }

  /** An arrow and the word after it. */
  lemma ArrowAndFile(t: string, pos: nat)
    requires pos <= |t| && NoArrow(t, pos) && Peeks(t, pos, "<>")
    requires TokenAt(t, TokenAt(t, Skip(t, pos)).next).kind == 'a'
    ensures var tok := TokenAt(t, Skip(t, pos)); var file := TokenAt(t, tok.next);
      RedirOk(t, Span(file.q, file.eq), KindOf(tok.kind))
  {
    var p := Skip(t, pos);
    var tok := TokenAt(t, p);
    var file := TokenAt(t, tok.next);
    ArrowToken(t, p);
    hide TokenAt, BackOver;
    FileFollows(t, tok.next);
    BackOverIs(t, tok.eq, file.q);
  }

  /** Every pointer pair is a whole word, and no argv is full. */
  ghost predicate SpansOk(t: string, c: Cmd) {
    match c
    case Exec(args) => |args| <= 9 && WordsOk(t, args)
    case Redir(d, w, k) => SpansOk(t, d) && RedirOk(t, w, k)
    case Pipe(l, r) => SpansOk(t, l) && SpansOk(t, r)
    case List(l, r) => SpansOk(t, l) && SpansOk(t, r)
    case Back(d) => SpansOk(t, d)
  }

  lemma SkipOnce(t: string, pos: nat)
    requires pos <= |t|
    ensures NoArrow(t, Skip(t, pos)) <==> NoArrow(t, pos)
  {
  }

  lemma {:induction false} RedirsSpans(t: string, rs: seq<Redirection>, pos: nat)
    requires pos <= |t| && RedirsOk(t, rs) && NoArrow(t, pos)
    ensures Redirs(t, rs, pos).Redirected? ==> RedirsOk(t, Redirs(t, rs, pos).rs) && NoArrow(t, Redirs(t, rs, pos).pos)
    decreases |t| - pos
  {
    hide RedirOk, TokenAt;
    SkipOnce(t, pos);
    if Peeks(t, pos, "<>") {
      var tok := TokenAt(t, Skip(t, pos));
      var file := TokenAt(t, tok.next);
      if file.kind == 'a' {
        ArrowAndFile(t, pos);
        AfterToken(t, tok.next);
        RedirsSpans(t, rs + [Redirection(Span(file.q, file.eq), KindOf(tok.kind))], file.next);
      }
    }
  }

  lemma {:induction false} WrapSpans(t: string, c: Cmd, rs: seq<Redirection>)
    requires SpansOk(t, c) && RedirsOk(t, rs)
    ensures SpansOk(t, Wrap(c, rs))
  {
    if rs != [] {
      WrapSpans(t, c, rs[..|rs| - 1]);
    }
  }

  lemma SpansOfExec(t: string, args: seq<Span>)
    requires |args| <= 9 && WordsOk(t, args)
    ensures SpansOk(t, Exec(args))
  {
  }

  lemma WordAdded(t: string, args: seq<Span>, pos: nat)
    requires pos <= |t| && WordsOk(t, args) && TokenAt(t, pos).kind == 'a'
    ensures WordsOk(t, args + [Span(TokenAt(t, pos).q, TokenAt(t, pos).eq)])
  {
  }

  lemma {:induction false} ArgsSpans(t: string, args: seq<Span>, rs: seq<Redirection>, pos: nat)
    requires pos <= |t| && |args| <= 9 && WordsOk(t, args) && RedirsOk(t, rs) && NoArrow(t, pos)
    ensures var r := Args(t, args, rs, pos); r.Ok? ==> SpansOk(t, r.cmd) && NoArrow(t, r.pos)
    decreases |t| - pos
  {
    hide RedirsOk, RedirOk, WordEnd, Word;
    SpansOfExec(t, args);
    hide SpansOk, WordsOk;
    SkipOnce(t, pos);
    WrapSpans(t, Exec(args), rs);
    var tok := TokenAt(t, Skip(t, pos));
    if !Peeks(t, pos, "|)&;") && tok.kind == 'a' && |args| + 1 < MAXARGS {
      AfterToken(t, Skip(t, pos));
      RedirsSpans(t, rs, tok.next);
      var r := Redirs(t, rs, tok.next);
      hide NoArrow;
      if r.Redirected? {
        WordAdded(t, args, Skip(t, pos));
        ArgsSpans(t, args + [Span(tok.q, tok.eq)], r.rs, r.pos);
      }
    }
  }

  lemma {:induction false} BacksSpans(t: string, c: Cmd, pos: nat)
    requires pos <= |t| && SpansOk(t, c) && NoArrow(t, pos)
    ensures SpansOk(t, Backs(t, c, pos).cmd) && NoArrow(t, Backs(t, c, pos).pos)
    decreases |t| - pos
  {
    if Peeks(t, pos, "&") {
      AfterSymbol(t, pos, '&');
      BacksSpans(t, Back(c), TokenAt(t, Skip(t, pos)).next);
    }
  }

  lemma {:induction false} ExecSpans(t: string, pos: nat)
    requires pos <= |t| && NoArrow(t, pos)
    ensures ExecAt(t, pos).Ok? ==> SpansOk(t, ExecAt(t, pos).cmd) && NoArrow(t, ExecAt(t, pos).pos)
    decreases |t| - pos, 1
  {
    if Peeks(t, pos, "(") {
      var p := Skip(t, pos);
      InnerSpans(t, p);
      if InnerAt(t, p).Ok? {
        var q := InnerAt(t, p).pos;
        RedirsSpans(t, [], q);
        if Redirs(t, [], q).Redirected? {
          WrapSpans(t, InnerAt(t, p).cmd, Redirs(t, [], q).rs);
        }
      }
    } else {
      RedirsSpans(t, [], Skip(t, pos));
      var r := Redirs(t, [], Skip(t, pos));
      if r.Redirected? {
        ArgsSpans(t, [], r.rs, r.pos);
      }
    }
  }

  lemma {:induction false} InnerSpans(t: string, pos: nat)
    requires pos <= |t| && NoArrow(t, pos)
    ensures InnerAt(t, pos).Ok? ==> SpansOk(t, InnerAt(t, pos).cmd) && NoArrow(t, InnerAt(t, pos).pos)
    decreases |t| - pos, 0
  {
    hide NoArrow, SpansOk;
    if Peeks(t, pos, "(") {
      AfterSymbol(t, pos, '(');
      var p := TokenAt(t, Skip(t, pos)).next;
      LineSpans(t, p);
      var l := LineAt(t, p);
      if l.Ok? && Peeks(t, l.pos, ")") {
        AfterSymbol(t, l.pos, ')');
      }
    }
  }

  lemma {:induction false} PipeSpans(t: string, pos: nat)
    requires pos <= |t| && NoArrow(t, pos)
    ensures PipeAt(t, pos).Ok? ==> SpansOk(t, PipeAt(t, pos).cmd) && NoArrow(t, PipeAt(t, pos).pos)
    decreases |t| - pos, 2
  {
    ExecSpans(t, pos);
    var l := ExecAt(t, pos);
    if l.Ok? && Peeks(t, l.pos, "|") {
      AfterSymbol(t, l.pos, '|');
      PipeSpans(t, TokenAt(t, Skip(t, l.pos)).next);
    }
  }

  /** Every line that parses gives whole words, and redirections that open each file as the arrow before it says. */
  lemma {:induction false} LineSpans(t: string, pos: nat)
    requires pos <= |t| && NoArrow(t, pos)
    ensures LineAt(t, pos).Ok? ==> SpansOk(t, LineAt(t, pos).cmd) && NoArrow(t, LineAt(t, pos).pos)
    decreases |t| - pos, 3
  {
    PipeSpans(t, pos);
    var p := PipeAt(t, pos);
    if p.Ok? {
      BacksSpans(t, p.cmd, p.pos);
      var b := Backs(t, p.cmd, p.pos);
      if Peeks(t, b.pos, ";") {
        AfterSymbol(t, b.pos, ';');
        LineSpans(t, TokenAt(t, Skip(t, b.pos)).next);
      }
    }
  }

  lemma CutValid(t: string, w: Span)
    requires Word(t, w) && '\0' !in t
    ensures ValidWord(Cut(t, w))
  {
    forall i | 0 <= i < |Cut(t, w)|
      ensures Cut(t, w)[i] == t[w.q + i]
    {
    }
  }

  lemma {:induction false} SpansValid(t: string, c: Cmd)
    requires SpansOk(t, c) && '\0' !in t
    ensures Valid(Text(t, c))
  {
    match c {
      case Exec(args) =>
        forall i | 0 <= i < |args|
          ensures ValidWord(Cut(t, args[i]))
        {
          assert Word(t, args[i]);
          CutValid(t, args[i]);
        }
      case Redir(d, w, k) => SpansValid(t, d); CutValid(t, w);
      case Pipe(l, r) => SpansValid(t, l); SpansValid(t, r);
      case List(l, r) => SpansValid(t, l); SpansValid(t, r);
      case Back(d) => SpansValid(t, d);
    }
  }

  /** The words and redirections of a whole line. */
  lemma CommandSpans(t: string)
    requires CmdOf(t).Ok?
    ensures SpansOk(t, CmdOf(t).cmd)
  {
    assert Skip(t, 0) > 0 ==> Blank(t[Skip(t, 0) - 1]);
    LineSpans(t, 0);
  }

  /** Printing what a line was parsed as, and parsing that, gives the same command. */
  lemma Normalises(t: string)
    requires CmdOf(t).Ok? && '\0' !in t
    ensures var c := Text(t, CmdOf(t).cmd); Parsed(Print(c), CmdOf(Print(c)), c, |Print(c)|)
  {
    CommandSpans(t);
    SpansValid(t, CmdOf(t).cmd);
    RoundTrip(Text(t, CmdOf(t).cmd));
  }

  // ----- nulterminate() -----

  /** The words of a command. */
  function Spans(c: Cmd): (ws: seq<Span>) {
    match c
    case Exec(args) => args
    case Redir(d, w, k) => Spans(d) + [w]
    case Pipe(l, r) => Spans(l) + Spans(r)
    case List(l, r) => Spans(l) + Spans(r)
    case Back(d) => Spans(d)
  }

  /** k is the end of a word of ws. */
  ghost predicate IsEnd(ws: seq<Span>, k: int) {
    exists i :: 0 <= i < |ws| && ws[i].eq == k
  }

  /** b with a NUL at the end of every word of ws, and nothing else changed. */
  ghost predicate Ended(b: seq<char>, r: seq<char>, ws: seq<Span>) {
    |r| == |b| && forall k :: 0 <= k < |b| ==> r[k] == if IsEnd(ws, k) then '\0' else b[k]
  }

  /** The string that a pointer reads: up to the first NUL. */
  function StringAt(b: seq<char>, q: nat): (s: string)
    requires q <= |b|
    decreases |b| - q
  {
    if q == |b| || b[q] == '\0' then "" else [b[q]] + StringAt(b, q + 1)
  }

  lemma {:induction false} StringIs(b: seq<char>, q: nat, e: nat)
    requires q <= e < |b| && b[e] == '\0' && forall k :: q <= k < e ==> b[k] != '\0'
    ensures StringAt(b, q) == b[q..e]
    decreases e - q
  {
    if q < e {
      StringIs(b, q + 1, e);
      assert b[q..e] == [b[q]] + b[q + 1..e];
    }
  }

  lemma {:induction false} SpansAreWords(t: string, c: Cmd)
    requires SpansOk(t, c)
    ensures WordsOk(t, Spans(c))
  {
    match c {
      case Exec(args) =>
      case Redir(d, w, k) => SpansAreWords(t, d);
      case Pipe(l, r) => SpansAreWords(t, l); SpansAreWords(t, r);
      case List(l, r) => SpansAreWords(t, l); SpansAreWords(t, r);
      case Back(d) => SpansAreWords(t, d);
    }
  }

  /** Every argv and file pointer reads exactly its word once all ends are overwritten. */
  lemma ReadsBack(t: string, b: seq<char>, r: seq<char>, ws: seq<Span>, i: nat)
    requires WordsOk(t, ws) && |t| < |b| && b[..|t|] == t && '\0' !in t && Ended(b, r, ws) && i < |ws|
    ensures ws[i].q <= |r| && StringAt(r, ws[i].q) == Cut(t, ws[i])
  {
    var w := ws[i];
    assert Word(t, w);
    forall k | w.q <= k < w.eq
      ensures r[k] == t[k] && r[k] != '\0'
    {
      assert WordChar(t[k]) && b[..|t|][k] == t[k];
    }
    assert IsEnd(ws, w.eq);
    StringIs(r, w.q, w.eq);
    assert r[w.q..w.eq] == t[w.q..w.eq];
  }
}
