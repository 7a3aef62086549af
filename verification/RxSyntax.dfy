// The patterns of the subset, their concrete text and the language they denote:
// literals, '.', bracket lists, \( \), \|, *, \+ and \? under RE_SYNTAX_POSIX_BASIC.
module RxSyntax {
  import opened RxBytes

  // A literal, written plainly or after a backslash.
  datatype Lit = Lit(c: Byte, esc: bool)

  // An element of a bracket list; Joined(a, b) is a range whose first end is the
  // character that closed the element before it, as in the second range of [a-c-e].
  datatype Item = One(c: Byte) | Range(a: Byte, b: Byte) | Joined(a: Byte, b: Byte)

  datatype Op = Star | Plus | Opt

  datatype Atom =
    | AChar(lit: Lit)
    | ADot
    | ASet(neg: bool, items: seq<Item>)
    | AGroup(reg: nat, inner: nat, alts: seq<Branch>)

  // Run is a stretch of literals compiled to one exactn; ops are the postfix
  // operators that follow an atom, all of them.
  datatype Chunk = Run(lits: seq<Lit>) | Rep(atom: Atom, ops: seq<Op>)

  datatype Branch = Branch(chunks: seq<Chunk>)

  // ---- bracket lists ------------------------------------------------------

  predicate ItemHas(it: Item, c: Byte) {
    match it
    case One(x) => c == x
    case Range(a, b) => a <= c <= b
    case Joined(a, b) => a <= c <= b
  }

  predicate ItemsHave(items: seq<Item>, c: Byte) {
    exists k :: 0 <= k < |items| && ItemHas(items[k], c)
  }

  // What a one-character atom accepts: '.' refuses NUL (RE_DOT_NOT_NULL).
  predicate CharOk(a: Atom, c: Byte)
    requires !a.AGroup?
  {
    match a
    case AChar(l) => c == l.c
    case ADot => c != 0
    case ASet(neg, items) => ItemsHave(items, c) != neg
  }

  // ---- languages as relations between positions of a subject ---------------

  type Lang = (int, int) -> bool

  ghost predicate Pow(R: Lang, n: nat, i: int, j: int) {
    if n == 0 then i == j else exists k :: R(i, k) && Pow(R, n - 1, k, j)
  }

  ghost predicate Apply(R: Lang, op: Op, i: int, j: int) {
    match op
    case Star => exists n: nat :: Pow(R, n, i, j)
    case Plus => exists n: nat :: n > 0 && Pow(R, n, i, j)
    case Opt => i == j || R(i, j)
  }

  // The operators applied one after the other, innermost first.
  ghost predicate Nest(R: Lang, ops: seq<Op>, i: int, j: int) {
    if ops == [] then R(i, j)
    else Apply((x, y) => Nest(R, ops[..|ops| - 1], x, y), ops[|ops| - 1], i, j)
  }

  ghost predicate MatchAtom(a: Atom, s: seq<Byte>, i: int, j: int)
    decreases a, 2
  {
    match a
    case AGroup(_, _, alts) => MatchAlts(alts, s, i, j)
    case _ => 0 <= i < |s| && j == i + 1 && CharOk(a, s[i])
  }

  ghost predicate MatchAlts(alts: seq<Branch>, s: seq<Byte>, i: int, j: int)
    decreases alts, 1
  {
    exists k :: 0 <= k < |alts| && MatchBranch(alts[k].chunks, s, i, j)
  }

  ghost predicate MatchBranch(cs: seq<Chunk>, s: seq<Byte>, i: int, j: int)
    decreases cs, 0
  {
    if cs == [] then i == j
    else exists k :: MatchChunk(cs[0], s, i, k) && MatchBranch(cs[1..], s, k, j)
  }

  ghost predicate MatchChunk(c: Chunk, s: seq<Byte>, i: int, j: int)
    decreases c, 3
  {
    match c
    case Run(lits) => 0 <= i && j == i + |lits| <= |s| && forall t :: 0 <= t < |lits| ==> s[i + t] == lits[t].c
    case Rep(a, ops) => Nest((x, y) => MatchAtom(a, s, x, y), ops, i, j)
  }

  // ---- which patterns can match the empty string ----------------------------

  predicate ZeroOk(ops: seq<Op>) { exists k :: 0 <= k < |ops| && ops[k] != Plus }

  predicate ManyOk(ops: seq<Op>) { exists k :: 0 <= k < |ops| && ops[k] != Opt }

  predicate NullAtom(a: Atom) {
    a.AGroup? && exists k :: 0 <= k < |a.alts| && NullBranch(a.alts[k].chunks)
  }

  predicate NullBranch(cs: seq<Chunk>) {
    forall k :: 0 <= k < |cs| ==> NullChunk(cs[k])
  }

  predicate NullChunk(c: Chunk) {
    match c
    case Run(lits) => lits == []
    case Rep(a, ops) => ZeroOk(ops) || NullAtom(a)
  }

  // No loop has a body that can match the empty string.
  predicate ProperAtom(a: Atom) {
    a.AGroup? ==> ProperAlts(a.alts)
  }

  predicate ProperAlts(alts: seq<Branch>) {
    forall k :: 0 <= k < |alts| ==> ProperBranch(alts[k].chunks)
  }

  predicate ProperBranch(cs: seq<Chunk>) {
    forall k :: 0 <= k < |cs| ==> ProperChunk(cs[k])
  }

  predicate ProperChunk(c: Chunk) {
    c.Rep? ==> ProperAtom(c.atom) && (ManyOk(c.ops) ==> !NullAtom(c.atom))
  }
}
