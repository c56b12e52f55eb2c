/**
 The commands of user/sh.c: W is a pair of pointers into the line while the
 shell parses it, and the text of a word when a command is printed.
 */
module ShellTree {
  import opened ShellLex

  const O_RDONLY: nat := 0x000
  const O_WRONLY: nat := 0x001
  const O_CREATE: nat := 0x200
  const O_TRUNC: nat := 0x400

  /** The three redirections, with the mode and the descriptor to open the file with. */
  datatype Kind = In | Out | Append {
    function Mode(): int {
      if In? then O_RDONLY else if Out? then O_WRONLY + O_CREATE + O_TRUNC else O_WRONLY + O_CREATE
    }

    function Fd(): int {
      if In? then 0 else 1
    }
  }

  datatype Tree<W> =
    | Exec(args: seq<W>)
    | Redir(cmd: Tree<W>, file: W, kind: Kind)
    | Pipe(left: Tree<W>, right: Tree<W>)
    | List(left: Tree<W>, right: Tree<W>)
    | Back(cmd: Tree<W>)

  /** A token between two pointers: argv[i] and eargv[i], or file and efile. */
  datatype Span = Span(q: nat, eq: nat)

  function Cut(t: string, w: Span): (r: string) {
    if w.q <= w.eq <= |t| then t[w.q..w.eq] else ""
  }

  function Cuts(t: string, ws: seq<Span>): (r: seq<string>)
    ensures |r| == |ws| && forall i :: 0 <= i < |ws| ==> r[i] == Cut(t, ws[i])
  {
    if ws == [] then [] else Cuts(t, ws[..|ws| - 1]) + [Cut(t, ws[|ws| - 1])]
  }

  /** The command with its words in place of the pointers. */
  function Text(t: string, c: Tree<Span>): (r: Tree<string>) {
    match c
    case Exec(args) => Exec(Cuts(t, args))
    case Redir(d, w, k) => Redir(Text(t, d), Cut(t, w), k)
    case Pipe(l, r) => Pipe(Text(t, l), Text(t, r))
    case List(l, r) => List(Text(t, l), Text(t, r))
    case Back(d) => Back(Text(t, d))
  }

  // ----- Printing -----

  predicate ValidWord(w: string) {
    w != "" && forall i :: 0 <= i < |w| ==> WordChar(w[i]) && w[i] != '\0'
  }

  ghost predicate AllWords(ws: seq<string>) {
    forall i :: 0 <= i < |ws| ==> ValidWord(ws[i])
  }

  /** A command that the shell can represent: words are words, and argv has room for its null. */
  ghost predicate Valid(c: Tree<string>) {
    match c
    case Exec(args) => |args| <= 9 && AllWords(args)
    case Redir(d, w, k) => Valid(d) && ValidWord(w)
    case Pipe(l, r) => Valid(l) && Valid(r)
    case List(l, r) => Valid(l) && Valid(r)
    case Back(d) => Valid(d)
  }

  /** The words from the i-th on, each after a blank. */
  function Words(args: seq<string>, i: nat): (r: string)
    requires i <= |args|
    decreases |args| - i
  {
    if i == |args| then "" else (" " + args[i]) + Words(args, i + 1)
  }

  function Arrow(k: Kind): (r: string) {
    if k.In? then "<" else if k.Out? then ">" else ">>"
  }

  /** Every part of a compound command in parentheses. */
  function Print(c: Tree<string>): (r: string)
    decreases c, 0
  {
    match c
    case Exec(args) => Words(args, 0)
    case Redir(d, w, k) => Paren(d) + (Arrow(k) + (" " + w))
    case Pipe(l, r) => Paren(l) + ("|" + Paren(r))
    case List(l, r) => Paren(l) + (";" + Paren(r))
    case Back(d) => Paren(d) + "&"
  }

  function Paren(c: Tree<string>): (r: string)
    decreases c, 1
  {
    "(" + Print(c) + ")"
  }
}
