// A text: its units, edited in place, and the memory of its last dump (src/unit.cc).
module UnitText {
  import opened UnitTree
  import opened UnitWalk
  import opened UnitDump
  import opened UnitFrame
  import opened UnitSplit
  import opened UnitJoin
  import opened UnitDelete
  import opened Sonority
  import opened UnitSyllables
  import opened Tokens
  import opened UnitGrow
  import opened UnitGather

  class Text {
    var at: Links
    ghost var kids: Kids

    // No unit has had this reference yet.
    var heap: Ref
    const segmLevel: nat

    // Where the last dump stopped: of which unit, after how many segments, at which one.
    var iucache: Ref
    var ifcache: nat
    var ocache: Ref

    // A text without units.
    constructor (segmLevel0: nat)
      ensures Valid() && at == map[] && kids == map[] && segmLevel == segmLevel0 && ifcache == 0
    {
      at, kids, heap, segmLevel := map[], map[], EMPTY + 1, segmLevel0;
      iucache, ifcache, ocache := NULL, 0, NULL;
    }

    ghost predicate Valid()
      reads this
    {
      Linked(at, kids) && heap > EMPTY && forall x: Ref {:trigger Look(x)} :: Look(x) && x in at ==> x < heap
    }

    ghost function Segments(r: Ref): (l: seq<Ref>)
      reads this
      requires r in at && segmLevel <= at[r].depth
    {
      Row(kids, r, at[r].depth - segmLevel)
    }

    // What is remembered of the last dump of r still holds.
    ghost predicate Cached(r: Ref)
      reads this
      requires r in at && segmLevel <= at[r].depth
    {
      iucache == r ==> ocache == Nth(Segments(r), ifcache)
    }

    // The unit the window begins with, found by walking from the first one.
    method Walk(r: Ref, first: nat) returns (u: Ref)
      requires Stands(at, kids, r, r, 0) && segmLevel <= at[r].depth
      ensures u == Nth(Segments(r), first)
    {
      u := First(at, kids, r, segmLevel);
      var m := first;
      while m > 0
        invariant 0 <= m <= first
        invariant u == Nth(Segments(r), first - m)
      {
        u := Step(at, kids, r, segmLevel, u, first - m);
        m := m - 1;
      }
    }

    // Copies the contents of n units from u on, or of all there are.
    method Copy(r: Ref, u0: Ref, whither: array<int>, ghost first: nat, n: nat) returns (m: nat, u: Ref)
      requires Stands(at, kids, r, r, 0) && segmLevel <= at[r].depth && n <= whither.Length
      requires u0 == Nth(Segments(r), first)
      modifies whither
      ensures m == Window(Segments(r), first, n) && u == Nth(Segments(r), first + m)
      ensures m <= whither.Length && Copied(at, Segments(r), first, whither[..m])
      ensures forall i :: m <= i < whither.Length ==> whither[i] == old(whither[i])
    {
      ghost var l := Segments(r);
      u, m := u0, 0;
      CopyEnd(at, kids, r, segmLevel, first);
      while m < n && u != EMPTY
        invariant 0 <= m <= n && u == Nth(l, first + m) && (m > 0 ==> first + m <= |l|)
        invariant Copied(at, l, first, whither[..m])
        invariant forall i :: m <= i < whither.Length ==> whither[i] == old(whither[i])
      {
        ghost var was := whither[..m];
        var y := Step(at, kids, r, segmLevel, u, first + m);
        CopyMore(at, l, first, was, u);
        whither[m] := at[u].cont;
        assert whither[..m + 1] == was + [at[u].cont];
        u := y;
        m := m + 1;
      }
      CopyEnd(at, kids, r, segmLevel, first + m);
    }

    // Begins where the last window ended, or with a walk.
    method WriteFrom(r: Ref, whither: array<int>, first: nat, n: nat) returns (m: nat, u: Ref)
      requires Stands(at, kids, r, r, 0) && segmLevel <= at[r].depth && n <= whither.Length
      requires first > 0 && first == ifcache ==> Cached(r)
      modifies whither
      ensures m == Window(Segments(r), first, n) && u == Nth(Segments(r), first + m)
      ensures m <= whither.Length && Copied(at, Segments(r), first, whither[..m])
      ensures forall i :: m <= i < whither.Length ==> whither[i] == old(whither[i])
    {
      if first > 0 && first == ifcache && iucache == r {
        u := ocache;
      } else {
        u := Walk(r, first);
      }
      m, u := Copy(r, u, whither, first, n);
    }

    // The window of n segments that begins with the given one. A window that begins where the last one
    // ended is not walked to: it goes on from the unit remembered.
    method WriteSegs(r: Ref, whither: array<int>, first: nat, n: nat) returns (m: nat)
      requires Valid() && Whole(at, r) && segmLevel <= at[r].depth && n <= whither.Length
      requires first > 0 && first == ifcache ==> Cached(r)
      modifies `at, `iucache, `ifcache, `ocache, whither
      ensures at == old(at) && kids == old(kids)
      ensures m == Window(Segments(r), first, n)
      ensures m <= whither.Length && Copied(at, Segments(r), first, whither[..m])
      ensures forall i :: m <= i < whither.Length ==> whither[i] == old(whither[i])
      ensures iucache == r && ifcache == first + m && Cached(r)
    {
      var scope := at[r].scope;
      at := at[r := at[r].(scope := true)];
      ScopedStands(old(at), kids, r);
      var u;
      m, u := WriteFrom(r, whither, first, n);
      CopiedScoped(old(at), r, Segments(r), first, whither[..m]);
      at := at[r := at[r].(scope := scope)];
      assert at == old(at);
      iucache, ifcache, ocache := r, first + m, u;
    }

    // Window after window, until one is not full.
    method ShowSegments(r: Ref, size: nat) returns (shown: seq<int>)
      requires Valid() && Whole(at, r) && segmLevel <= at[r].depth && size > 0
      modifies `at, `iucache, `ifcache, `ocache
      ensures at == old(at) && kids == old(kids) && Cached(r)
      ensures |shown| == |Segments(r)|
      ensures Copied(at, Segments(r), 0, shown)
    {
      var d := new int[size];
      var k, i := 0, size;
      shown := [];
      while i == size
        invariant fresh(d) && d.Length == size
        invariant at == old(at) && kids == old(kids)
        invariant i == size ==> |shown| == k <= |Segments(r)|
        invariant i < size ==> |shown| == |Segments(r)|
        invariant i <= size
        invariant k > 0 ==> Cached(r) && (i == size ==> k == ifcache)
        invariant k == 0 ==> i == size
        invariant |shown| <= |Segments(r)|
        invariant Copied(at, Segments(r), 0, shown)
        decreases |Segments(r)| - k, i
      {
        i := WriteSegs(r, d, k, size);
        CopiedOn(at, Segments(r), 0, shown, d[..i]);
        shown := shown + d[..i];
        k := k + size;
      }
    }

    // ---- edits -------------------------------------------------------------------------------

    // Hands a train of brothers to a new father, from its first unit on.
    method SetFather(x: Ref, f: Ref, ghost ks: seq<Ref>)
      requires Train(at, ks) && ks != [] && ks[0] == x
      modifies `at
      ensures Fathered(old(at), ks, f, at)
    {
      var u := x;
      ghost var k := 0;
      while u != NULL
        invariant k <= |ks| && (if k < |ks| then u == ks[k] else u == NULL)
        invariant Fathered(old(at), ks[..k], f, at)
        decreases |ks| - k
      {
        assert Look(u);
        assert ks[k] in at && u !in ks[..k];
        assert at[u].next == if k + 1 == |ks| then NULL else ks[k + 1];
        at := at[u := at[u].(father := f)];
        u := at[u].next;
        k := k + 1;
      }
      assert ks[..k] == ks;
    }

    // Splits x just before one of its children; at its boundary it refuses, and leaves x broken.
    method Split(x: Ref, before: Ref, ghost i: nat) returns (split: bool, c: Ref)
      requires Valid() && x in at && at[x].father != NULL && i < |kids[x]| && kids[x][i] == before
      modifies `at, `kids, `heap
      ensures split == (i > 0)
      ensures !split ==> at == old(at)[c := old(at)[x].(scope := false)][x := old(at)[x].(last := NULL)]
      ensures split ==>
                Valid() && CanSplit(old(at), old(kids), x, i, c)
                && kids == SplitKids(old(at), old(kids), x, i, c)
                && IsSplit(old(at), old(kids), x, i, c, at)
      ensures split ==>
                && at.Keys == old(at).Keys + {c} && at[c].cont == old(at)[x].cont && at[c].depth == old(at)[x].depth
                && kids.Keys == old(kids).Keys + {c} && kids[x] == old(kids)[x][..i] && kids[c] == old(kids)[x][i..]
                && forall w :: w in old(at) ==> at[w].cont == old(at)[w].cont && at[w].depth == old(at)[w].depth
    {
      c := heap;
      assert c !in at by {
        assert Look(c);
      }
      PosIs(at, kids, x, i);
      if i > 0 {
        PosIs(at, kids, x, i - 1);
      }
      heap := heap + 1;
      at := at[c := at[x].(scope := false)];
      var last := at[before].prev;
      at := at[x := at[x].(last := last)];
      split := last != NULL;
      if split {
        assert i > 0;
        UnhookTrain(old(at), kids, x, i, c);
        at := at[before := at[before].(prev := NULL)];
        at := at[last := at[last].(next := NULL)];
        at := at[c := at[c].(first := before)];
        assert at == Unhook(old(at), x, before, c);
        SetFather(before, c, kids[x][i..]);
        HookAll(old(at), x, c, i);
        SplitLinked(old(at), old(kids), x, i, c, at);
        SplitIs(old(at), old(kids), x, i, c, at);
      }
    }

    // The clone linked in.
    method HookAll(ghost was: Links, x: Ref, c: Ref, ghost i: nat)
      requires CanSplit(was, kids, x, i, c) && kids[x][i] in was && was[kids[x][i]].prev in was
      requires Fathered(Unhook(was, x, kids[x][i], c), kids[x][i..], c, at)
      modifies `at, `kids
      ensures IsSplit(was, old(kids), x, i, c, at) && kids == SplitKids(was, old(kids), x, i, c)
    {
      ghost var mid := at;
      HookReady(was, kids, x, i, c, at);
      if at[x].next != NULL {
        at := at[at[x].next := at[at[x].next].(prev := c)];
      }
      at := at[c := at[c].(prev := x)];
      at := at[x := at[x].(next := c)];
      var f := at[x].father;
      if f != NULL && f in at && x == at[f].last {
        at := at[f := at[f].(last := c)];
      }
      StepsSplit(was, kids, x, i, c, mid);
      kids := SplitKids(was, kids, x, i, c);
    }

    // Frees a unit, the brothers to its right, and everything under them.
    method Delete(x: Ref, ghost was: Links, ghost xs: seq<Ref>, ghost h: nat)
      requires Tail(was, kids, xs, h) && xs != [] && xs[0] == x && Same(was, at, Subs(kids, xs, h))
      modifies `at
      ensures at == old(at) - Subs(kids, xs, h)
      decreases h, |xs|
    {
      TailApart(was, kids, xs, h);
      SubSplit(was, kids, x);
      assert Look(x);
      var next, first := at[x].next, at[x].first;
      if next != NULL {
        Delete(next, was, xs[1..], h);
      }
      if first != NULL {
        KidsTail(was, kids, x);
        Delete(first, was, kids[x], h - 1);
      }
      at := at - {x};
    }

    // Takes x out of its brothers' train.
    method Bridge(x: Ref)
      requires Linked(at, kids) && x in at
      modifies `at
      ensures IsBridged(old(at), x, at)
    {
      assert Look(x) && Placed(at, kids, x);
      var u := at[x];
      if u.father != NULL {
        Beside(at, kids, x);
      }
      if u.next != NULL {
        at := at[u.next := at[u.next].(prev := u.prev)];
      } else if u.father != NULL {
        at := at[u.father := at[u.father].(last := u.prev)];
      }
      if u.prev != NULL {
        at := at[u.prev := at[u.prev].(next := u.next)];
      } else if u.father != NULL {
        at := at[u.father := at[u.father].(first := u.next)];
      }
      BridgeSteps(old(at), kids, x, at);
    }

    // Removes x and everything under it.
    method Cut(x: Ref)
      requires Linked(at, kids) && x in at
      modifies `at, `kids
      ensures IsCut(old(at), old(kids), x, at) && kids == CutKids(old(at), old(kids), x)
    {
      ghost var sub := Sub(kids, x, at[x].depth);
      SubSplit(at, kids, x);
      Bridge(x);
      ghost var mid := at;
      BridgedSame(old(at), kids, x, mid, sub);
      var first := at[x].first;
      if first != NULL {
        KidsTail(old(at), kids, x);
        assert Subs(kids, kids[x], old(at)[x].depth - 1) <= sub;
        Delete(first, old(at), kids[x], old(at)[x].depth - 1);
      }
      at := at - {x};
      assert at == mid - sub;
      CutDone(old(at), kids, x, mid, at);
      kids := CutKids(old(at), kids, x);
    }

    // Removes x, everything under it, and then each father left without children.
    method UnlinkDelete(x: Ref, ghost top: nat)
      requires Valid() && x in at && Tall(at, top) && at[x].depth <= top
      modifies `at, `kids
      ensures Valid() && IsDeleted(old(at), old(kids), Gone(old(at), old(kids), x, top), at, kids)
      ensures x !in at
      ensures forall w :: w in old(at) && w !in at ==>
                            || w == x || (old(at)[w].father != NULL && old(at)[w].father !in at)
                            || (w in old(kids) && |old(kids)[w]| == 1 && old(kids)[w][0] !in at)
      ensures forall w :: w in at ==> w in kids && w in old(kids) && (old(kids)[w] != [] ==> kids[w] != [])
      decreases top - at[x].depth
    {
      var f := at[x].father;
      Cut(x);
      ghost var mid, some := at, kids;
      CutDeletes(old(at), old(kids), x, at);
      TallStill(old(at), old(kids), Sub(old(kids), x, old(at)[x].depth), at, kids, top);
      GoneNext(old(at), old(kids), x, at, top);
      if f != NULL && at[f].first == NULL {
        Deeper(old(at), old(kids), x);
        assert Look(f);
        UnlinkDelete(f, top);
        DeletedTwice(old(at), old(kids), Sub(old(kids), x, old(at)[x].depth), mid, some, Gone(mid, some, f, top), at,
                     kids);
      }
      AllDeleted(old(at), old(kids), x, top, at, kids);
    }

    // Links a train in before the children of s; its units, and with them those children, get s as father.
    method InsertBegin(s: Ref, from: Ref, member: Ref, ghost ks: seq<Ref>)
      requires s in at && member in at && (at[s].first != NULL ==> at[s].first in at)
      requires Train(Begun(at, s, from, member), ks) && ks != [] && ks[0] == from
      modifies `at
      ensures Fathered(Begun(old(at), s, from, member), ks, s, at)
    {
      var first := at[s].first;
      if first != NULL {
        at := at[first := at[first].(prev := member)];
        at := at[member := at[member].(next := first)];
      } else {
        at := at[s := at[s].(last := member)];
      }
      at := at[s := at[s].(first := from)];
      SetFather(from, s, ks);
    }

    // Links a train in after the children of s.
    method InsertEnd(s: Ref, member: Ref, to: Ref, ghost ks: seq<Ref>)
      requires s in at && member in at && (at[s].last != NULL ==> at[s].last in at)
      requires Train(Ended(at, s, member, if to == NULL then member else to), ks) && ks != [] && ks[0] == member
      modifies `at
      ensures Fathered(Ended(old(at), s, member, if to == NULL then member else to), ks, s, at)
    {
      var end := if to == NULL then member else to;
      var last := at[s].last;
      if last != NULL {
        at := at[last := at[last].(next := member)];
        at := at[member := at[member].(prev := last)];
      } else {
        at := at[s := at[s].(first := member)];
      }
      at := at[s := at[s].(last := end)];
      SetFather(member, s, ks);
    }

    // Removes x and hands its children to the brother on the given side. It refuses, with x already out of
    // its brothers' train, when there is no such brother, or there are no children.
    method UnlinkJoin(x: Ref, left: bool) returns (done: bool)
      requires Valid() && x in at
      modifies `at, `kids
      ensures done == CanJoin(old(at), old(kids), x, left)
      ensures !done ==> IsBridged(old(at), x, at)
      ensures done ==>
                Valid() && IsJoined(old(at), old(kids), x, left, at) && kids == JoinKids(old(at), old(kids), x, left)
      ensures done ==>
                var s := if left then old(at)[x].prev else old(at)[x].next;
                && at.Keys == old(at).Keys - {x} && s in kids && s in old(kids)
                && kids[s] == (if left then old(kids)[s] + old(kids)[x] else old(kids)[x] + old(kids)[s])
                && forall w :: w in at ==> at[w].cont == old(at)[w].cont && at[w].depth == old(at)[w].depth
    {
      JoinGuard(at, kids, x, left);
      var s := Heir(at, x, left);
      Bridge(x);
      ghost var mid := at;
      assert Look(x) && Bridged(old(at), x, x) == old(at)[x] by {
        BridgedLow(old(at), kids, x, x);
      }
      done := s != NULL && at[x].first != NULL;
      if done {
        GivenReady(old(at), kids, x, left, at);
        MovedTrain(old(at), kids, x, left, at);
        ghost var ks := Moved(old(at), kids, x, left);
        if left {
          InsertEnd(s, at[x].first, at[x].last, ks);
        } else {
          InsertBegin(s, at[x].first, at[x].last, ks);
        }
        StepsJoin(old(at), kids, x, left, mid, at);
        at := at - {x};
        JoinLinked(old(at), kids, x, left, at);
        JoinIs(old(at), kids, x, left, at);
        kids := JoinKids(old(at), kids, x, left);
      }
    }

    // ---- syllables ---------------------------------------------------------------------------

    // Breaks the syllable before its j-th phone.
    method Break(ghost w: Work, p: Ref, before: Ref, ghost i: nat, ghost j: nat, ghost cuts: seq<nat>,
                 ghost parts: seq<Ref>)
      returns (done: bool, ghost c: Ref)
      requires Valid() && Going(at, kids, w, i + 1, cuts, parts) && p == w.p && p in at && at[p].father != NULL
      requires i < |w.s| && j < CutAt(cuts, 0, |w.s|) <= |w.s| && before == w.was[p][j] && j < |kids[p]|
               && kids[p][j] == before
      requires (j == i && Valley(w.s, w.e, i, i) && !Wide(w.s, w.e, i)) || (j == i + 1 && Wide(w.s, w.e, i))
      modifies `at, `kids, `heap
      ensures done == (j > 0)
      ensures done ==> Valid() && Going(at, kids, w, i, [j] + cuts, [c] + parts)
    {
      done, c := Split(p, before, j);
      if done {
        BreakMade(old(at), old(kids), w, i, j, cuts, parts, c, at);
      }
    }

    // Sees the i-th phone: breaks the syllable before it, or before the next one, or leaves it.
    method SyllabifyOne(ghost w: Work, r: Ref, d: nat, u: Ref, sonor: seq<int>, pending: int, ghost i: nat,
                        ghost cuts: seq<nat>, ghost parts: seq<Ref>)
      returns (done: bool, more: int, ghost cuts1: seq<nat>, ghost parts1: seq<Ref>)
      requires Valid() && Going(at, kids, w, i + 1, cuts, parts) && r == w.r && d == w.d && sonor == w.sonor
      requires i < |w.s| && u == w.was[w.p][i] && pending == Char(Pend(w.s, w.e, i))
      modifies `at, `kids, `heap
      ensures done == !(i == 0 && Valley(w.s, w.e, 0, 0))
      ensures done ==> Valid() && Going(at, kids, w, i, cuts1, parts1) && more == Char(Pend(w.s, w.e, i - 1))
    {
      Underway(at, kids, w, i + 1, cuts, parts);
      var first, second;
      first, second, more := Decide(at, kids, r, d, u, i, sonor, pending, w.was[w.p], w.s, w.e);
      done, cuts1, parts1 := true, cuts, parts;
      ghost var c: Ref;
      InSyllable(at, kids, w, i, cuts, parts);
      if first {
        done, c := Break(w, at[u].father, u, i, i, cuts, parts);
        cuts1, parts1 := [i] + cuts, [c] + parts;
      } else if second {
        done, c := Break(w, at[u].father, at[u].next, i, i + 1, cuts, parts);
        cuts1, parts1 := [i + 1] + cuts, [c] + parts;
      } else {
        Unbroken(at, kids, w, i, cuts, parts);
      }
    }

    // Sees a phone, having gone on to the one before it.
    method SyllabifyNext(ghost w: Work, r: Ref, d: nat, u: Ref, sonor: seq<int>, pending: int, ghost i: nat,
                         ghost cuts: seq<nat>, ghost parts: seq<Ref>)
      returns (done: bool, prev: Ref, more: int, ghost cuts1: seq<nat>, ghost parts1: seq<Ref>)
      requires Valid() && Going(at, kids, w, i + 1, cuts, parts) && r == w.r && d == w.d && sonor == w.sonor
      requires i < |w.s| && u == Before(w.was[w.p], i + 1) && pending == Char(Pend(w.s, w.e, i))
      modifies `at, `kids, `heap
      ensures done == !(i == 0 && Valley(w.s, w.e, 0, 0)) && prev == Before(w.was[w.p], i)
      ensures done ==> Valid() && Going(at, kids, w, i, cuts1, parts1) && more == Char(Pend(w.s, w.e, i - 1))
    {
      Underway(at, kids, w, i + 1, cuts, parts);
      prev := StepBack(at, kids, r, d, u, i);
      done, more, cuts1, parts1 := SyllabifyOne(w, r, d, u, sonor, pending, i, cuts, parts);
    }

    // The last phone of the scope.
    method LastPhone(ghost w: Work, r: Ref, d: nat) returns (u: Ref)
      requires Going(at, kids, w, |w.s|, [], []) && r == w.r && d == w.d
      ensures u == Before(w.was[w.p], |w.s|)
    {
      Underway(at, kids, w, |w.s|, [], []);
      u := Last(at, kids, r, d);
    }

    // Sees all phones of the scope, from the last to the first.
    method SyllabifyAll(ghost w: Work, r: Ref, d: nat, sonor: seq<int>)
      returns (done: bool, ghost cuts: seq<nat>, ghost parts: seq<Ref>)
      requires Valid() && Going(at, kids, w, |w.s|, [], []) && r == w.r && d == w.d && sonor == w.sonor
      modifies `at, `kids, `heap
      ensures done == !Valley(w.s, w.e, 0, 0)
      ensures done ==> Valid() && Going(at, kids, w, 0, cuts, parts)
    {
      var pending := 0;
      var u := LastPhone(w, r, d);
      ghost var i := |w.s|;
      done, cuts, parts := true, [], [];
      Unnamed(at, kids, w);
      while u != EMPTY
        invariant 0 <= i <= |w.s| && Valid() && Going(at, kids, w, i, cuts, parts) && u == Before(w.was[w.p], i)
        invariant EMPTY !in w.was[w.p]
        invariant pending == Char(Pend(w.s, w.e, i - 1))
        invariant i == 0 ==> !Valley(w.s, w.e, 0, 0)
        decreases i
      {
        i := i - 1;
        done, u, pending, cuts, parts := SyllabifyNext(w, r, d, u, sonor, pending, i, cuts, parts);
        if !done {
          return;
        }
      }
    }

    // Breaks the one syllable p of the scope r, from its last phone to its first. It fails when a break is
    // asked for before the first phone.
    method Syllabify(r: Ref, d: nat, sonor: seq<int>, ghost p: Ref)
      returns (done: bool, ghost cuts: seq<nat>, ghost parts: seq<Ref>)
      requires Valid() && Stands(at, kids, r, r, 0) && Table(sonor)
      requires d + 1 < at[r].depth && Row(kids, r, at[r].depth - d - 1) == [p]
      modifies `at, `kids, `heap
      ensures var w := WorkOf(old(at), old(kids), r, d, p, sonor);
              && |w.s| == |old(kids)[p]| && w.e == sonor[48]
              && (forall k :: 0 <= k < |w.s| ==>
                    old(kids)[p][k] in old(at) && w.s[k] == sonor[old(at)[old(kids)[p][k]].cont % 256])
              && done == !Sonority.Break(w.s, w.e, 0)
              && (done ==> Valid() && r in at && d <= at[r].depth
                           && Broken(old(kids), p, w.f, w.q, kids, cuts, parts)
                           && (forall j: nat :: j in cuts <==> Sonority.Break(w.s, w.e, j))
                           && Row(kids, r, at[r].depth - d) == old(kids)[p])
    {
      ghost var w := WorkOf(at, kids, r, d, p, sonor);
      AtFirst(at, kids, r, d, p, sonor);
      done, cuts, parts := SyllabifyAll(w, r, d, sonor);
      NoStart(w.s, w.e);
      if done {
        SyllablesDone(at, kids, w, cuts, parts);
      }
    }

    // ---- building ----------------------------------------------------------------------------

    // Links a root in after the children of x.
    method Attach(x: Ref, c: Ref)
      requires CanAttach(at, kids, x, c)
      modifies `at, `kids
      ensures IsAttached(old(at), x, c, at) && kids == AttachKids(old(kids), x, c)
    {
      AttachTrain(at, kids, x, c);
      InsertEnd(x, c, NULL, [c]);
      AttachSteps(old(at), kids, x, c, at);
      kids := AttachKids(kids, x, c);
    }

    // A unit alone.
    method Make(layer: nat) returns (x: Ref)
      requires Valid()
      modifies `at, `kids, `heap
      ensures Valid() && IsGrowing(old(at), old(kids), at, kids, x, layer, [])
    {
      x := heap;
      assert Look(x);
      var u := Unit(NULL, NULL, NULL, NULL, NULL, layer, NO_CONT, false);
      RootAlone(at, kids, x, u);
      at := at[x := u];
      kids := kids[x := []];
      heap := heap + 1;
    }

    // Builds a unit of the given level from the parser's symbols, with everything under it.
    method Construct(layer: nat, ps: Parser) returns (x: Ref, good: bool)
      requires Valid() && ps.Valid() && ps.level <= layer && Fit(ps.tb, layer, ps.Ahead())
      modifies `at, `kids, `heap, ps
      ensures var (n, rest) := Build(ps.tb, layer, old(ps.Ahead()));
              && good == rest[0].Tok?
              && (good ==>
                    Valid() && ps.Valid() && ps.Ahead() == rest && IsBuilt(old(at), old(kids), at, kids, x, layer, n))
      decreases |ps.Ahead()|, layer, 1
    {
      ghost var l, ns := ps.Ahead(), [];
      x := Make(layer);
      good := true;
      DoingFirst(ps.tb, layer, l);
      while ps.level < layer
        invariant Valid() && ps.Valid() && IsGrowing(old(at), old(kids), at, kids, x, layer, ns)
        invariant Doing(ps.tb, layer, l, ns, ps.Ahead())
        decreases |ps.Ahead()|
      {
        ghost var m := ps.Ahead();
        DoingNext(ps.tb, layer, l, ns, m);
        ghost var (n, rest) := Build(ps.tb, layer - 1, m);
        good := ConstructChild(x, layer, ps, ns, old(at), old(kids));
        ns := ns + [n];
        if !good {
          DoingLast(ps.tb, layer, l, ns, rest);
          return;
        }
      }
      DoingLast(ps.tb, layer, l, ns, ps.Ahead());
      good := Name(x, layer, ps, ns, old(at), old(kids));
    }

    // Gives x, whose children are complete, the contents that end it, if it is x that they end.
    method Name(x: Ref, layer: nat, ps: Parser, ghost ns: seq<Node>, ghost was: Links, ghost had: Kids)
      returns (good: bool)
      requires Valid() && ps.Valid() && layer <= ps.level && layer <= ps.tb.top && Ends(ps.tb, ps.Ahead())
      requires IsGrowing(was, had, at, kids, x, layer, ns)
      modifies `at, ps
      ensures var m := old(ps.Ahead());
              var (n, rest) := if m[0].level == layer then (Node(m[0].c, ns), if layer == ps.tb.top then m else m[1..])
                               else (Node(NO_CONT, ns), m);
              && rest != [] && good == rest[0].Tok?
              && (good ==> Valid() && ps.Valid() && ps.Ahead() == rest && IsBuilt(was, had, at, kids, x, layer, n))
    {
      good := true;
      assert Look(x);
      if ps.level == layer {
        var c;
        c, good := ps.Gettoken();
        if good {
          GrownUp(was, had, at, kids, x, layer, ns, c);
          at := at[x := at[x].(cont := c)];
        }
      } else {
        GrownUp(was, had, at, kids, x, layer, ns, NO_CONT);
        assert at[x := at[x].(cont := NO_CONT)] == at;
      }
    }

    // Builds the next child of x and links it in.
    method ConstructChild(x: Ref, layer: nat, ps: Parser, ghost ns: seq<Node>, ghost was: Links, ghost had: Kids)
      returns (good: bool)
      requires Valid() && ps.Valid() && ps.level < layer && Fit(ps.tb, layer, ps.Ahead())
      requires IsGrowing(was, had, at, kids, x, layer, ns)
      modifies `at, `kids, `heap, ps
      ensures var (n, rest) := Build(ps.tb, layer - 1, old(ps.Ahead()));
              && good == rest[0].Tok?
              && (good ==>
                    Valid() && ps.Valid() && ps.Ahead() == rest && IsGrowing(was, had, at, kids, x, layer, ns + [n]))
      decreases |ps.Ahead()|, layer, 0
    {
      ghost var a, k, n := at, kids, Build(ps.tb, layer - 1, ps.Ahead()).0;
      var c;
      c, good := Construct(layer - 1, ps);
      if good {
        GrowsOn(was, had, a, k, x, layer, ns, at, kids, c, n);
        Attach(x, c);
      }
    }
  }
}
