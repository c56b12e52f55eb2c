/** gettoken() and peek() of user/sh.c. A position is an offset into the line; es is its length. */
module ShellLex {

  predicate Blank(c: char) {
    c == ' ' || c == '\t' || c == '\r' || c == '\n' || c == '\U{B}'
  }

  predicate Symbol(c: char) {
    c == '<' || c == '|' || c == '>' || c == '&' || c == ';' || c == '(' || c == ')'
  }

  predicate WordChar(c: char) {
    !Blank(c) && !Symbol(c)
  }

  /** The first position from pos on that is not blank. */
  function Skip(t: string, pos: nat): (r: nat)
    requires pos <= |t|
    ensures pos <= r <= |t| && (r == |t| || !Blank(t[r]))
    ensures forall k :: pos <= k < r ==> Blank(t[k])
    ensures pos == |t| || !Blank(t[pos]) ==> r == pos
    decreases |t| - pos
  {
    if pos < |t| && Blank(t[pos]) then Skip(t, pos + 1) else pos
  }

  /** Where the word that covers pos ends. */
  function WordEnd(t: string, pos: nat): (r: nat)
    requires pos <= |t|
    ensures pos <= r <= |t| && (r == |t| || !WordChar(t[r]))
    ensures forall k :: pos <= k < r ==> WordChar(t[k])
    decreases |t| - pos
  {
    if pos < |t| && WordChar(t[pos]) then WordEnd(t, pos + 1) else pos
  }

  /** gettoken()'s result, the two ends of the token, and where the scan goes on. */
  datatype Token = Token(kind: char, q: nat, eq: nat, next: nat)

  function TokenAt(t: string, pos: nat): (k: Token)
    requires pos <= |t|
    ensures pos <= k.q <= k.eq <= k.next <= |t|
    ensures k.kind == '\0' <==> k.q == |t|
    ensures k.kind != '\0' ==> k.q < k.eq
    ensures k.kind == 'a' ==> (k.eq == |t| || !WordChar(t[k.eq])) && forall i :: k.q <= i < k.eq ==> WordChar(t[i])
  {
    var q := Skip(t, pos);
    if q == |t| then Token('\0', q, q, q)
    else if t[q] == '>' && q + 1 < |t| && t[q + 1] == '>' then Token('+', q, q + 2, Skip(t, q + 2))
    else if Symbol(t[q]) then Token(t[q], q, q + 1, Skip(t, q + 1))
    else Token('a', q, WordEnd(t, q), Skip(t, WordEnd(t, q)))
  }

  /** peek(): is the next character that is not blank one of toks? */
  predicate Peeks(t: string, pos: nat, toks: string)
    requires pos <= |t|
  {
    Skip(t, pos) < |t| && t[Skip(t, pos)] in toks
  }

  // ----- The scanning loops -----

  method SkipBlanks(t: string, pos: nat) returns (s: nat)
    requires pos <= |t|
    ensures s == Skip(t, pos)
  {
    s := pos;
    while s < |t| && Blank(t[s])
      invariant pos <= s <= |t| && Skip(t, s) == Skip(t, pos)
    {
      s := s + 1;
    }
  }

  method GetToken(t: string, ps: nat) returns (k: Token)
    requires ps <= |t|
    ensures k == TokenAt(t, ps)
  {
    var s := SkipBlanks(t, ps);
    var q := s;
    var ret := if s == |t| then '\0' else t[s];
    if ret == '>' && s < |t| {
      s := s + 1;
      if s < |t| && t[s] == '>' {
        ret := '+';
        s := s + 1;
      }
    } else if s < |t| {
      if Symbol(ret) {
        s := s + 1;
      } else {
        ret := 'a';
        while s < |t| && WordChar(t[s])
          invariant q <= s <= |t| && WordEnd(t, s) == WordEnd(t, q)
        {
          s := s + 1;
        }
      }
    }
    var eq := s;
    s := SkipBlanks(t, s);
    return Token(ret, q, eq, s);
  }

  method Peek(t: string, ps: nat, toks: string) returns (found: bool, s: nat)
    requires ps <= |t|
    ensures found == Peeks(t, ps, toks) && s == Skip(t, ps)
  {
    s := SkipBlanks(t, ps);
    found := s < |t| && t[s] in toks;
  }
}
