// Breaking a syllable into several by the sonority of its phones (src/unit.cc:815-850).
module UnitSyllables {
  import opened UnitTree
  import opened UnitWalk
  import opened UnitMirror
  import opened UnitDump
  import opened UnitFrame
  import opened UnitSplit
  import opened Sonority

  const JUNCTURE := 48

  // A unit's contents as an unsigned char; EMPTY's is the juncture.
  function Inside(at: Links, u: Ref): (c: nat)
    requires u == EMPTY || u in at
  {
    (if u == EMPTY then JUNCTURE else at[u].cont) % 256
  }

  // A table of sonorities, one signed char for each character.
  predicate Table(sonor: seq<int>) {
    |sonor| == 256 && forall c :: 0 <= c < 256 ==> -128 <= sonor[c] < 128
  }

  // The sonorities of a row of phones.
  ghost function Sounds(at: Links, l: seq<Ref>, sonor: seq<int>): (s: seq<int>)
    requires Table(sonor) && forall k :: 0 <= k < |l| ==> l[k] in at
    ensures |s| == |l| && forall k :: 0 <= k < |s| ==> s[k] == sonor[Inside(at, l[k])] && -128 <= s[k] < 128
  {
    seq(|l|, k requires 0 <= k < |l| => sonor[Inside(at, l[k])])
  }

  // ---- the walk leftwards ----------------------------------------------------------------------

  // The unit before the k-th of the row.
  function Before(l: seq<Ref>, k: nat): (y: Ref)
    requires k <= |l|
  {
    if k > 0 then l[k - 1] else EMPTY
  }

  // The last unit of the row.
  method Last(at: Links, ghost kids: Kids, r: Ref, d: nat) returns (y: Ref)
    requires Stands(at, kids, r, r, 0) && d <= at[r].depth
    ensures var row := Row(kids, r, at[r].depth - d); y == Before(row, |row|)
  {
    ghost var m, l, row := Mirror(at), MirrorKids(kids), Row(kids, r, at[r].depth - d);
    MirrorAhead(at, kids, r, d);
    y := RightMost(at, m, l, r, r, 0, d);
    assert Reversed(row)[0..] == Reversed(row);
    BeginsAt(m, l, r, y, d, Reversed(row), 0, Left(m, l, r, 0));
    NthBack(row, |row|);
  }

  // A walk leftwards at the k-th unit of the row.
  lemma BackReady(at: Links, m: Links, l: Kids, r: Ref, d: nat, row: seq<Ref>, k: nat)
    requires Mirrors(at, m) && Stands(m, l, r, r, 0) && d <= m[r].depth && k < |row|
    requires Row(l, r, m[r].depth - d) == Reversed(row)
    ensures var u, n := row[k], m[r].depth - d;
            && u in at && u in m && m[u].depth == d && Stands(m, l, r, u, n)
            && After(m, l, u, n, m[u].depth - d) == Reversed(row)[|row| - k..]
  {
    var back, j := Reversed(row), |row| - 1 - k;
    WalkTo(m, l, r, d, j);
    StandsAt(m, l, r, d, j);
    var u := row[k];
    assert back[j] == u && u != EMPTY;
    DropOne(back, u, After(m, l, u, m[r].depth - d, 0), j + 1);
  }

  lemma NthBack(row: seq<Ref>, k: nat)
    requires k <= |row|
    ensures Nth(Reversed(row), |row| - k) == Before(row, k)
  {
  }

  // The unit before the k-th of the row.
  method StepBack(at: Links, ghost kids: Kids, r: Ref, d: nat, u: Ref, ghost k: nat) returns (y: Ref)
    requires Stands(at, kids, r, r, 0) && d <= at[r].depth
    requires k < |Row(kids, r, at[r].depth - d)| && u == Row(kids, r, at[r].depth - d)[k]
    ensures y == Before(Row(kids, r, at[r].depth - d), k)
  {
    ghost var m, l, row := Mirror(at), MirrorKids(kids), Row(kids, r, at[r].depth - d);
    MirrorAhead(at, kids, r, d);
    y := PrevOf(at, m, l, r, d, row, u, k);
  }

  method PrevOf(at: Links, ghost m: Links, ghost l: Kids, ghost r: Ref, d: nat, ghost row: seq<Ref>, u: Ref,
                ghost k: nat)
    returns (y: Ref)
    requires Mirrors(at, m) && Stands(m, l, r, r, 0) && d <= m[r].depth && k < |row| && u == row[k]
    requires Row(l, r, m[r].depth - d) == Reversed(row)
    ensures y == Before(row, k)
  {
    BackReady(at, m, l, r, d, row, k);
    ghost var n := m[r].depth - d;
    y := Prev(at, m, l, r, u, n, d);
    BeginsAt(m, l, r, y, d, Reversed(row), |row| - k, Rest(m, l, u, n));
    NthBack(row, k);
  }

  // ---- one phone ---------------------------------------------------------------------------

  // The phones of the scope r, their sonorities, and the juncture's.
  ghost predicate Phones(at: Links, kids: Kids, r: Ref, d: nat, l: seq<Ref>, sonor: seq<int>, s: seq<int>, e: int) {
    && Stands(at, kids, r, r, 0) && d <= at[r].depth && Row(kids, r, at[r].depth - d) == l
    && Table(sonor) && e == sonor[JUNCTURE]
    && (forall k :: 0 <= k < |l| ==> l[k] in at && l[k] != EMPTY) && s == Sounds(at, l, sonor)
  }

  lemma SoundAt(at: Links, kids: Kids, r: Ref, d: nat, l: seq<Ref>, sonor: seq<int>, s: seq<int>, e: int, i: int)
    requires Phones(at, kids, r, d, l, sonor, s, e) && -1 <= i <= |l|
    ensures var u := if 0 <= i < |l| then l[i] else EMPTY;
            (u == EMPTY || u in at) && sonor[Inside(at, u)] == At(s, e, i) && -128 <= At(s, e, i) < 128
  {
  }

  // Whether the row is to be broken before the i-th phone, or before the next one.
  method Decide(at: Links, ghost kids: Kids, r: Ref, d: nat, u: Ref, ghost i: nat, sonor: seq<int>, pending: int,
                ghost l: seq<Ref>, ghost s: seq<int>, ghost e: int)
    returns (first: bool, second: bool, more: int)
    requires Phones(at, kids, r, d, l, sonor, s, e) && i < |l| && u == l[i]
    requires pending == Char(Pend(s, e, i))
    ensures first == Valley(s, e, i, i) && second == Wide(s, e, i) && !(first && second)
    ensures more == Char(Pend(s, e, i - 1))
  {
    var next := Step(at, kids, r, d, u, i);
    var prev := StepBack(at, kids, r, d, u, i);
    SoundAt(at, kids, r, d, l, sonor, s, e, i);
    SoundAt(at, kids, r, d, l, sonor, s, e, i + 1);
    SoundAt(at, kids, r, d, l, sonor, s, e, i - 1);
    CharCounts(s, e, i);
    FirstExactly(s, e, i);
    SecondExactly(s, e, i, 127);
    var here, right, left := sonor[Inside(at, u)], sonor[Inside(at, next)], sonor[Inside(at, prev)];
    first, second, more := false, false, pending;
    if here < right {
      if here < left {
        first, more := true, 0;
      } else {
        more := Char(pending + if here == left then 1 else 0);
        CharPlus(Pend(s, e, i), if here == left then 1 else 0);
      }
    } else if pending != 0 && here < left {
      second, more := true, 0;
    }
  }

  lemma CharPlus(p: int, k: int)
    ensures Char(Char(p) + k) == Char(p + k)
  {
  }

  // ---- what becomes of the syllable ----------------------------------------------------------

  function CutAt(cuts: seq<nat>, k: nat, n: nat): (c: nat) {
    if k < |cuts| then cuts[k] else n
  }

  predicate Cuts(cuts: seq<nat>, n: nat) {
    && (forall k :: 0 <= k < |cuts| ==> 0 < cuts[k] < n)
    && forall j, k :: 0 <= j < k < |cuts| ==> cuts[j] < cuts[k]
  }

  // The k-th part has the phones from one cut to the next.
  predicate Part(kids: Kids, l: seq<Ref>, cuts: seq<nat>, parts: seq<Ref>, k: nat)
    requires k < |cuts| == |parts| && Cuts(cuts, |l|)
  {
    && parts[k] in kids && cuts[k] <= CutAt(cuts, k + 1, |l|)
    && kids[parts[k]] == l[cuts[k]..CutAt(cuts, k + 1, |l|)]
  }

  // The syllable p, the q-th child of f, has been broken at the cuts; the new syllables follow it.
  ghost predicate Broken(was: Kids, p: Ref, f: Ref, q: nat, kids: Kids, cuts: seq<nat>, parts: seq<Ref>) {
    && p in was && f in was && p != f && q < |was[f]| && was[f][q] == p
    && Cuts(cuts, |was[p]|) && |parts| == |cuts|
    && p in kids && kids[p] == was[p][..CutAt(cuts, 0, |was[p]|)]
    && (forall k :: 0 <= k < |parts| ==> Part(kids, was[p], cuts, parts, k))
    && f in kids && kids[f] == was[f][..q + 1] + parts + was[f][q + 1..]
    && forall z :: z in was && z != p && z != f ==> z in kids && kids[z] == was[z]
  }

  lemma NotBroken(was: Kids, p: Ref, f: Ref, q: nat)
    requires p in was && f in was && p != f && q < |was[f]| && was[f][q] == p
    ensures Broken(was, p, f, q, was, [], [])
  {
    assert was[p][..|was[p]|] == was[p];
    assert was[f][..q + 1] + [] + was[f][q + 1..] == was[f];
  }

  // One more break, before all others.
  lemma BrokenMore(was: Kids, at: Links, kids: Kids, p: Ref, q: nat, cuts: seq<nat>, parts: seq<Ref>, j: nat, c: Ref)
    requires CanSplit(at, kids, p, j, c) && Broken(was, p, at[p].father, q, kids, cuts, parts)
    requires Pos(at, kids, p) == q && c !in was && p !in parts && at[p].father !in parts
    ensures Broken(was, p, at[p].father, q, SplitKids(at, kids, p, j, c), [j] + cuts, [c] + parts)
  {
    var f, l, more := at[p].father, was[p], SplitKids(at, kids, p, j, c);
    var cuts1, parts1 := [j] + cuts, [c] + parts;
    assert j < CutAt(cuts, 0, |l|);
    assert Cuts(cuts1, |l|);
    assert more[p] == l[..j];
    forall k | 0 <= k < |parts1| ensures Part(more, l, cuts1, parts1, k) {
      if k > 0 {
        assert Part(kids, l, cuts, parts, k - 1);
        assert parts1[k] == parts[k - 1];
      }
    }
    BrokenFather(was[f], q, parts, c);
  }

  lemma BrokenFather(fs: seq<Ref>, q: nat, parts: seq<Ref>, c: Ref)
    requires q < |fs|
    ensures var ks := fs[..q + 1] + parts + fs[q + 1..];
            ks[..q + 1] + [c] + ks[q + 1..] == fs[..q + 1] + ([c] + parts) + fs[q + 1..]
  {
  }

  // ---- the walk goes on after a split ---------------------------------------------------------

  lemma SplitPayload(at: Links, kids: Kids, x: Ref, i: nat, c: Ref, now: Links, w: Ref)
    requires CanSplit(at, kids, x, i, c) && IsSplit(at, kids, x, i, c, now) && w in now
    ensures w != c ==>
              w in at && now[w].depth == at[w].depth && now[w].cont == at[w].cont && now[w].scope == at[w].scope
    ensures w == c ==> now[w].depth == at[x].depth && !now[w].scope
    ensures w in at && at[w].father != x ==> now[w].father == at[w].father
  {
    assert Look(w);
    if w == at[x].father {
      Beside(at, kids, x);
    }
  }

  lemma SplitBounds(at: Links, kids: Kids, r: Ref, x: Ref, i: nat, c: Ref, now: Links)
    requires CanSplit(at, kids, x, i, c) && IsSplit(at, kids, x, i, c, now)
    requires Stands(at, kids, r, r, 0) && at[x].depth < at[r].depth
    ensures Stands(now, SplitKids(at, kids, x, i, c), r, r, 0) && now[r].depth == at[r].depth
  {
    SplitLinked(at, kids, x, i, c, now);
    SplitPayload(at, kids, x, i, c, now, r);
    assert Look(r) && Bounds(at, r);
    if at[r].father != NULL {
      Beside(at, kids, r);
    }
    forall w {:trigger Look(w)} | Look(w) && w in now && now[w].depth < now[r].depth ensures !now[w].scope {
      SplitPayload(at, kids, x, i, c, now, w);
    }
    assert Bounds(now, r);
  }

  lemma SplitPhones(at: Links, kids: Kids, r: Ref, d: nat, l: seq<Ref>, sonor: seq<int>, s: seq<int>, e: int,
                    x: Ref, i: nat, c: Ref, now: Links)
    requires CanSplit(at, kids, x, i, c) && IsSplit(at, kids, x, i, c, now)
    requires Phones(at, kids, r, d, l, sonor, s, e) && at[x].depth == d + 1 && d + 1 < at[r].depth
    ensures Phones(now, SplitKids(at, kids, x, i, c), r, d, l, sonor, s, e) && now[r].depth == at[r].depth
  {
    SplitBounds(at, kids, r, x, i, c, now);
    SplitRow(at, kids, x, i, c, r, at[r].depth - d);
    forall k | 0 <= k < |l| ensures l[k] in now && now[l[k]].cont == at[l[k]].cont {
      assert l[k] in at;
      SplitPayload(at, kids, x, i, c, now, l[k]);
    }
    assert s == Sounds(now, l, sonor);
  }

  lemma SplitPlace(at: Links, kids: Kids, x: Ref, i: nat, c: Ref, now: Links)
    requires CanSplit(at, kids, x, i, c) && IsSplit(at, kids, x, i, c, now)
    ensures Linked(now, SplitKids(at, kids, x, i, c)) && x in now
    ensures now[x].father == at[x].father && now[x].depth == at[x].depth
    ensures Pos(now, SplitKids(at, kids, x, i, c), x) == Pos(at, kids, x)
  {
    SplitLinked(at, kids, x, i, c, now);
    Beside(at, kids, x);
    SplitPayload(at, kids, x, i, c, now, x);
    PosIs(now, SplitKids(at, kids, x, i, c), at[x].father, Pos(at, kids, x));
  }

  // The scope's only syllable holds the phones of its row.
  lemma OneSyllable(at: Links, kids: Kids, r: Ref, d: nat, p: Ref)
    requires Stands(at, kids, r, r, 0) && d + 1 < at[r].depth && Row(kids, r, at[r].depth - d - 1) == [p]
    ensures p in at && at[p].depth == d + 1 && at[p].father != NULL && Row(kids, r, at[r].depth - d) == kids[p]
    ensures forall k :: 0 <= k < |kids[p]| ==> kids[p][k] in at && kids[p][k] != EMPTY
  {
    var n := at[r].depth - d - 1;
    StandsAt(at, kids, r, d + 1, 0);
    assert Nth([p], 0) == p;
    assert Look(p) && Under(at, r, p, n);
    RowBelow(kids, r, n, 1);
    RowsOne(kids, p, 1);
    RowsZero(kids, kids[p]);
    KidsLevel(at, kids, p);
  }

  // What is syllabified: the scope r, its syllable p, the q-th child of f, its phones on level d,
  // their sonorities s and the juncture's, and the children all units had.
  datatype Work = Work(was: Kids, r: Ref, d: nat, p: Ref, f: Ref, q: nat, sonor: seq<int>, s: seq<int>, e: int)

  ghost predicate Seen(at: Links, kids: Kids, w: Work, i: nat, cuts: seq<nat>, parts: seq<Ref>)
    requires w.p in w.was
  {
    && Linked(at, kids) && w.was.Keys <= at.Keys && Phones(at, kids, w.r, w.d, w.was[w.p], w.sonor, w.s, w.e)
    && w.p in at && at[w.p].depth == w.d + 1 && w.d + 1 < at[w.r].depth
    && at[w.p].father == w.f && w.f != NULL && Pos(at, kids, w.p) == w.q
    && Broken(w.was, w.p, w.f, w.q, kids, cuts, parts) && w.p !in parts && w.f !in parts
    && forall j: nat :: j in cuts <==> Made(w.s, w.e, i, j)
  }

  // The phones from the i-th on have been seen, and the syllable is broken accordingly. Mentioning Look(w.p)
  // unfolds it.
  ghost predicate Going(at: Links, kids: Kids, w: Work, i: nat, cuts: seq<nat>, parts: seq<Ref>) {
    && w.p in w.was && |w.was[w.p]| == |w.s| && i <= |w.s|
    && forall x: Ref {:trigger Look(x)} :: Look(x) && x == w.p ==> Seen(at, kids, w, i, cuts, parts)
  }

  lemma AtFirst(at: Links, kids: Kids, r: Ref, d: nat, p: Ref, sonor: seq<int>)
    requires Stands(at, kids, r, r, 0) && d + 1 < at[r].depth && Row(kids, r, at[r].depth - d - 1) == [p]
             && Table(sonor)
    ensures var w := WorkOf(at, kids, r, d, p, sonor); Going(at, kids, w, |w.s|, [], [])
  {
    WorkBegins(at, kids, r, d, p, sonor);
  }

  // Where the walk leftwards goes.
  lemma Underway(at: Links, kids: Kids, w: Work, i: nat, cuts: seq<nat>, parts: seq<Ref>)
    requires Going(at, kids, w, i, cuts, parts)
    ensures Phones(at, kids, w.r, w.d, w.was[w.p], w.sonor, w.s, w.e) && w.p in at && at[w.p].father != NULL
  {
    assert Look(w.p);
  }

  lemma Unnamed(at: Links, kids: Kids, w: Work)
    requires Going(at, kids, w, |w.s|, [], [])
    ensures EMPTY !in w.was[w.p]
  {
    assert Look(w.p);
  }

  // The i-th phone is still in the syllable, and so is the next one if a break is to be before it.
  lemma InSyllable(at: Links, kids: Kids, w: Work, i: nat, cuts: seq<nat>, parts: seq<Ref>)
    requires Going(at, kids, w, i + 1, cuts, parts) && i < |w.s|
    ensures var u := w.was[w.p][i];
            && i < CutAt(cuts, 0, |w.s|) <= |w.s| && u in at && at[u].father == w.p
            && w.p in kids && i < |kids[w.p]| && kids[w.p][i] == u
            && (Wide(w.s, w.e, i) ==>
                  && i + 1 < CutAt(cuts, 0, |w.s|) && at[u].next == w.was[w.p][i + 1]
                  && i + 1 < |kids[w.p]| && kids[w.p][i + 1] == w.was[w.p][i + 1])
  {
    assert Look(w.p);
    if cuts != [] {
      assert cuts[0] in cuts;
      assert Made(w.s, w.e, i + 1, cuts[0]);
    }
    PosIs(at, kids, w.p, i);
    if Wide(w.s, w.e, i) {
      MadeNext(w.s, w.e, i, i + 1);
      WideApart(w.s, w.e, i);
    }
  }

  // No break at the i-th phone.
  lemma Unbroken(at: Links, kids: Kids, w: Work, i: nat, cuts: seq<nat>, parts: seq<Ref>)
    requires Going(at, kids, w, i + 1, cuts, parts) && i < |w.s|
    requires !Valley(w.s, w.e, i, i) && !Wide(w.s, w.e, i)
    ensures Going(at, kids, w, i, cuts, parts)
  {
    assert Look(w.p);
    forall h: nat ensures h in cuts <==> Made(w.s, w.e, i, h) {
      MadeNext(w.s, w.e, i, h);
    }
  }

  lemma CutsMore(w: Work, i: nat, j: nat, cuts: seq<nat>)
    requires i < |w.s| && forall h: nat :: h in cuts <==> Made(w.s, w.e, i + 1, h)
    requires (j == i && Valley(w.s, w.e, i, i) && !Wide(w.s, w.e, i)) || (j == i + 1 && Wide(w.s, w.e, i))
    ensures forall h: nat :: h in [j] + cuts <==> Made(w.s, w.e, i, h)
  {
    forall h: nat ensures h in [j] + cuts <==> Made(w.s, w.e, i, h) {
      MadeNext(w.s, w.e, i, h);
    }
  }

  // A break before the j-th phone.
  lemma BreakMade(at: Links, kids: Kids, w: Work, i: nat, j: nat, cuts: seq<nat>, parts: seq<Ref>, c: Ref, now: Links)
    requires Going(at, kids, w, i + 1, cuts, parts) && i < |w.s|
    requires (j == i && Valley(w.s, w.e, i, i) && !Wide(w.s, w.e, i)) || (j == i + 1 && Wide(w.s, w.e, i))
    requires CanSplit(at, kids, w.p, j, c) && IsSplit(at, kids, w.p, j, c, now) && j < CutAt(cuts, 0, |w.s|)
    ensures Going(now, SplitKids(at, kids, w.p, j, c), w, i, [j] + cuts, [c] + parts)
  {
    assert Look(w.p);
    SplitPhones(at, kids, w.r, w.d, w.was[w.p], w.sonor, w.s, w.e, w.p, j, c, now);
    SplitPlace(at, kids, w.p, j, c, now);
    SplitBroken(at, kids, w, j, cuts, parts, c);
    CutsMore(w, i, j, cuts);
  }

  lemma SplitBroken(at: Links, kids: Kids, w: Work, j: nat, cuts: seq<nat>, parts: seq<Ref>, c: Ref)
    requires CanSplit(at, kids, w.p, j, c) && Broken(w.was, w.p, w.f, w.q, kids, cuts, parts) && w.was.Keys <= at.Keys
    requires at[w.p].father == w.f && Pos(at, kids, w.p) == w.q && w.p !in parts && w.f !in parts
    ensures Broken(w.was, w.p, w.f, w.q, SplitKids(at, kids, w.p, j, c), [j] + cuts, [c] + parts)
    ensures w.p !in [c] + parts && w.f !in [c] + parts
  {
    BrokenMore(w.was, at, kids, w.p, w.q, cuts, parts, j, c);
  }

  // What there is to do in a scope of one syllable.
  ghost function WorkOf(at: Links, kids: Kids, r: Ref, d: nat, p: Ref, sonor: seq<int>): (w: Work)
    requires Stands(at, kids, r, r, 0) && d + 1 < at[r].depth && Row(kids, r, at[r].depth - d - 1) == [p]
             && Table(sonor)
    ensures p in at && at[p].father != NULL && forall k :: 0 <= k < |kids[p]| ==> kids[p][k] in at
    ensures w.f == at[p].father && w.q == Pos(at, kids, p)
    ensures w.s == Sounds(at, kids[p], sonor) && w.e == sonor[JUNCTURE]
  {
    OneSyllable(at, kids, r, d, p);
    Work(kids, r, d, p, at[p].father, Pos(at, kids, p), sonor, Sounds(at, kids[p], sonor), sonor[JUNCTURE])
  }

  // At the outset nothing is broken.
  lemma WorkBegins(at: Links, kids: Kids, r: Ref, d: nat, p: Ref, sonor: seq<int>)
    requires Stands(at, kids, r, r, 0) && d + 1 < at[r].depth && Row(kids, r, at[r].depth - d - 1) == [p]
             && Table(sonor)
    ensures var w := WorkOf(at, kids, r, d, p, sonor);
            && p in at && at[p].depth == d + 1 && at[p].father == w.f && w.f != NULL && Pos(at, kids, p) == w.q
            && Phones(at, kids, r, d, kids[p], sonor, w.s, w.e)
            && Broken(kids, p, w.f, w.q, kids, [], [])
            && forall j: nat :: !Made(w.s, w.e, |w.s|, j)
  {
    var w := WorkOf(at, kids, r, d, p, sonor);
    OneSyllable(at, kids, r, d, p);
    Beside(at, kids, p);
    NotBroken(kids, p, w.f, w.q);
    forall j: nat ensures !Made(w.s, w.e, |w.s|, j) {
      MadeLast(w.s, w.e, j);
    }
  }

  // The parts of a broken syllable: none is empty, and together they hold its phones in order.
  lemma {:induction false} PartsTogether(was: Kids, p: Ref, f: Ref, q: nat, kids: Kids, cuts: seq<nat>,
                                         parts: seq<Ref>, k: nat)
    requires Broken(was, p, f, q, kids, cuts, parts) && k <= |parts|
    ensures Rows(kids, parts[k..], 1) == was[p][CutAt(cuts, k, |was[p]|)..]
    ensures forall h :: k <= h < |parts| ==> parts[h] in kids && kids[parts[h]] != []
    decreases |parts| - k
  {
    var l := was[p];
    if k == |parts| {
      assert parts[k..] == [];
    } else {
      PartsTogether(was, p, f, q, kids, cuts, parts, k + 1);
      assert Part(kids, l, cuts, parts, k);
      var c, n := cuts[k], CutAt(cuts, k + 1, |l|);
      assert c < n by {
        if k + 1 < |cuts| {
          assert cuts[k] < cuts[k + 1];
        }
      }
      assert parts[k..] == [parts[k]] + parts[k + 1..];
      RowsCons(kids, parts[k], parts[k + 1..], 1);
      RowsZero(kids, kids[parts[k]]);
      assert l[c..] == l[c..n] + l[n..];
    }
  }

  lemma SyllablesTogether(was: Kids, p: Ref, f: Ref, q: nat, kids: Kids, cuts: seq<nat>, parts: seq<Ref>)
    requires Broken(was, p, f, q, kids, cuts, parts)
    ensures Rows(kids, [p] + parts, 1) == was[p]
    ensures was[p] != [] ==> kids[p] != []
    ensures forall h :: 0 <= h < |parts| ==> parts[h] in kids && kids[parts[h]] != []
  {
    PartsTogether(was, p, f, q, kids, cuts, parts, 0);
    assert parts[0..] == parts;
    RowsCons(kids, p, parts, 1);
    RowsZero(kids, kids[p]);
    var n := CutAt(cuts, 0, |was[p]|);
    assert was[p] == was[p][..n] + was[p][n..];
  }

  // At the end the syllable is broken just before the phones it is to be broken before.
  lemma SyllablesDone(at: Links, kids: Kids, w: Work, cuts: seq<nat>, parts: seq<Ref>)
    requires Going(at, kids, w, 0, cuts, parts)
    ensures !Sonority.Break(w.s, w.e, 0) && forall j: nat :: j in cuts <==> Sonority.Break(w.s, w.e, j)
    ensures w.r in at && w.d <= at[w.r].depth && Broken(w.was, w.p, w.f, w.q, kids, cuts, parts)
    ensures Row(kids, w.r, at[w.r].depth - w.d) == w.was[w.p]
  {
    assert Look(w.p);
    CutsDone(w, cuts);
  }

  lemma CutsDone(w: Work, cuts: seq<nat>)
    requires forall j: nat :: j in cuts <==> Made(w.s, w.e, 0, j)
    requires forall k :: 0 <= k < |cuts| ==> 0 < cuts[k]
    ensures forall j: nat :: j in cuts <==> Sonority.Break(w.s, w.e, j)
    ensures !Sonority.Break(w.s, w.e, 0)
  {
    forall j: nat ensures j in cuts <==> Sonority.Break(w.s, w.e, j) {
      MadeLast(w.s, w.e, j);
    }
  }
}
