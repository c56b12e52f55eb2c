/**
 The parser of user/sh.c as functions of the line and a position: parseline(),
 parsepipe(), parseexec(), parseblock() and parseredirs(). A panic ends the
 parse. The wrappers that parseredirs() puts around a command are collected in
 order, because parseexec() goes on filling in the command inside them.
 */
module ShellGrammar {
  import opened ShellLex
  import opened ShellTree

  const MAXARGS: nat := 10

  type Cmd = Tree<Span>

  datatype Redirection = Redirection(file: Span, kind: Kind)

  datatype Result = Ok(cmd: Cmd, pos: nat) | Panic(why: string)

  datatype Redirected = Redirected(rs: seq<Redirection>, pos: nat) | NoFile

  /** The command inside the redirections, the last one outermost. */
  function Wrap(c: Cmd, rs: seq<Redirection>): (r: Cmd) {
    if rs == [] then c
    else Redir(Wrap(c, rs[..|rs| - 1]), rs[|rs| - 1].file, rs[|rs| - 1].kind)
  }

  function KindOf(tok: char): (k: Kind) {
    if tok == '<' then In else if tok == '>' then Out else Append
  }

  function Redirs(t: string, rs: seq<Redirection>, pos: nat): (r: Redirected)
    requires pos <= |t|
    ensures r.Redirected? ==> pos <= r.pos <= |t|
    decreases |t| - pos
  {
    var p := Skip(t, pos);
    if !Peeks(t, pos, "<>") then Redirected(rs, p)
    else
      var tok := TokenAt(t, p);
      var file := TokenAt(t, tok.next);
      if file.kind != 'a' then NoFile
      else Redirs(t, rs + [Redirection(Span(file.q, file.eq), KindOf(tok.kind))], file.next)
  }

  function Args(t: string, args: seq<Span>, rs: seq<Redirection>, pos: nat): (r: Result)
    requires pos <= |t|
    ensures r.Ok? ==> pos <= r.pos <= |t|
    decreases |t| - pos
  {
    var p := Skip(t, pos);
    var tok := TokenAt(t, p);
    if Peeks(t, pos, "|)&;") then Ok(Wrap(Exec(args), rs), p)
    else if tok.kind == '\0' then Ok(Wrap(Exec(args), rs), tok.next)
    else if tok.kind != 'a' then Panic("syntax")
    else if |args| + 1 >= MAXARGS then Panic("too many args")
    else
      match Redirs(t, rs, tok.next)
      case NoFile => Panic("missing file for redirection")
      case Redirected(rs', pos') => Args(t, args + [Span(tok.q, tok.eq)], rs', pos')
  }

  function ExecAt(t: string, pos: nat): (r: Result)
    requires pos <= |t|
    ensures r.Ok? ==> pos <= r.pos <= |t|
    decreases |t| - pos, 2
  {
    if Peeks(t, pos, "(") then BlockAt(t, Skip(t, pos))
    else
      match Redirs(t, [], Skip(t, pos))
      case NoFile => Panic("missing file for redirection")
      case Redirected(rs, pos') => Args(t, [], rs, pos')
  }

  /** The part of parseblock() up to the closing parenthesis. */
  function InnerAt(t: string, pos: nat): (r: Result)
    requires pos <= |t|
    ensures r.Ok? ==> pos <= r.pos <= |t|
    decreases |t| - pos, 0
  {
    if !Peeks(t, pos, "(") then Panic("parseblock")
    else
      match LineAt(t, TokenAt(t, Skip(t, pos)).next)
      case Panic(why) => Panic(why)
      case Ok(cmd, p) => if Peeks(t, p, ")") then Ok(cmd, TokenAt(t, Skip(t, p)).next) else Panic("syntax - missing )")
  }

  function BlockAt(t: string, pos: nat): (r: Result)
    requires pos <= |t|
    ensures r.Ok? ==> pos <= r.pos <= |t|
    decreases |t| - pos, 1
  {
    match InnerAt(t, pos)
    case Panic(why) => Panic(why)
    case Ok(cmd, p) =>
      match Redirs(t, [], p)
      case NoFile => Panic("missing file for redirection")
      case Redirected(rs, p') => Ok(Wrap(cmd, rs), p')
  }

  function PipeAt(t: string, pos: nat): (r: Result)
    requires pos <= |t|
    ensures r.Ok? ==> pos <= r.pos <= |t|
    decreases |t| - pos, 3
  {
    match ExecAt(t, pos)
    case Panic(why) => Panic(why)
    case Ok(left, p) =>
      if !Peeks(t, p, "|") then Ok(left, Skip(t, p))
      else
        match PipeAt(t, TokenAt(t, Skip(t, p)).next)
        case Panic(why) => Panic(why)
        case Ok(right, p') => Ok(Pipe(left, right), p')
  }

  /** The loop of parseline(). */
  function Backs(t: string, c: Cmd, pos: nat): (r: Result)
    requires pos <= |t|
    ensures r.Ok? && pos <= r.pos <= |t|
    decreases |t| - pos
  {
    if Peeks(t, pos, "&") then Backs(t, Back(c), TokenAt(t, Skip(t, pos)).next) else Ok(c, Skip(t, pos))
  }

  function LineAt(t: string, pos: nat): (r: Result)
    requires pos <= |t|
    ensures r.Ok? ==> pos <= r.pos <= |t|
    decreases |t| - pos, 4
  {
    match PipeAt(t, pos)
    case Panic(why) => Panic(why)
    case Ok(c, p) =>
      var b := Backs(t, c, p);
      if !Peeks(t, b.pos, ";") then Ok(b.cmd, Skip(t, b.pos))
      else
        match LineAt(t, TokenAt(t, Skip(t, b.pos)).next)
        case Panic(why) => Panic(why)
        case Ok(rest, p') => Ok(List(b.cmd, rest), p')
  }

  /** parsecmd(), before nulterminate(). */
  function CmdOf(t: string): (r: Result) {
    match LineAt(t, 0)
    case Panic(why) => Panic(why)
    case Ok(c, p) => if Skip(t, p) == |t| then Ok(c, |t|) else Panic("syntax")
  }
}
