// The hash table of search trees (src/hashtmpl.cc) as a finite map.
module HashTable {
  import opened HashTree

  // ---- hashing ----------------------------------------------------------------

  const TWO32 := 0x1_0000_0000

  // j = 23*j + c on a 32-bit unsigned j, for a signed char c.
  function HashFrom(j: nat, key: Key): nat
    decreases key
  {
    if key == [] then j
    else HashFrom((23 * j + (if key[0] < 128 then key[0] else key[0] + TWO32 - 256)) % TWO32, key[1..])
  }

  // One character more.
  lemma {:induction false} HashMore(j: nat, key: Key, c: Byte)
    ensures HashFrom(j, []) == j
    ensures HashFrom(j, key + [c]) == (23 * HashFrom(j, key) + (if c < 128 then c else c + 0xFFFF_FF00)) % 0x1_0000_0000
    decreases key
  {
    var t := key + [c];
    if key == [] {
      assert t == [c] && t[1..] == [];
    } else {
      assert t[0] == key[0] && t[1..] == key[1..] + [c];
      HashMore((23 * j + (if key[0] < 128 then key[0] else key[0] + TWO32 - 256)) % TWO32, key[1..], c);
    }
  }

  function Slot(key: Key, capacity: nat): (i: nat)
    requires capacity > 0
    ensures i < capacity
  {
    HashFrom(0, key) % capacity
  }

  // ---- a row of buckets as one map ------------------------------------------------

  ghost function KeysOf<V>(ts: seq<Tree<V>>): set<Key> {
    set i, k | 0 <= i < |ts| && k in Elems(ts[i]).Keys :: k
  }

  ghost function All<V>(ts: seq<Tree<V>>): (m: map<Key, V>)
    requires ts != []
    ensures forall k :: k in m <==> k in Elems(ts[Slot(k, |ts|)])
    ensures forall k :: k in m ==> m[k] == Elems(ts[Slot(k, |ts|)])[k]
  {
    map k | k in KeysOf(ts) && k in Elems(ts[Slot(k, |ts|)]) :: Elems(ts[Slot(k, |ts|)])[k]
  }

  // Every tree is ordered and holds only keys that belong in its bucket.
  ghost predicate Sorted<V>(ts: seq<Tree<V>>) {
    ts != [] && forall i :: 0 <= i < |ts| ==> Ordered(ts[i]) && forall k :: k in Elems(ts[i]) ==> Slot(k, |ts|) == i
  }

  ghost predicate Balanced<V>(ts: seq<Tree<V>>) {
    forall i :: 0 <= i < |ts| ==> Avl(ts[i])
  }

  lemma SortedPut<V>(ts: seq<Tree<V>>, i: nat, t: Tree<V>)
    requires Sorted(ts) && i < |ts| && Ordered(t) && forall k :: k in Elems(t) ==> Slot(k, |ts|) == i
    ensures Sorted(ts[i := t])
  {
  }

  lemma AllPut<V>(ts: seq<Tree<V>>, i: nat, t: Tree<V>, key: Key, data: V)
    requires Sorted(ts) && i < |ts| && i == Slot(key, |ts|)
    requires Ordered(t) && Elems(t) == Elems(ts[i])[key := data]
    ensures Sorted(ts[i := t]) && All(ts[i := t]) == All(ts)[key := data]
  {
    SortedPut(ts, i, t);
    var u, m := All(ts[i := t]), All(ts)[key := data];
    forall k ensures (k in u <==> k in m) && (k in u ==> u[k] == m[k]) {
      if Slot(k, |ts|) != i { assert ts[i := t][Slot(k, |ts|)] == ts[Slot(k, |ts|)]; }
    }
  }

  lemma AllDropAt<V>(ts: seq<Tree<V>>, i: nat, t: Tree<V>, key: Key, k: Key)
    requires Sorted(ts) && i < |ts| && i == Slot(key, |ts|)
    requires Ordered(t) && Elems(t) == Elems(ts[i]) - {key}
    ensures k in All(ts[i := t]) <==> k in All(ts) && k != key
    ensures k in All(ts) && k != key ==> All(ts[i := t])[k] == All(ts)[k]
  {
    if Slot(k, |ts|) != i { assert ts[i := t][Slot(k, |ts|)] == ts[Slot(k, |ts|)]; }
  }

  lemma AllDrop<V>(ts: seq<Tree<V>>, i: nat, t: Tree<V>, key: Key)
    requires Sorted(ts) && i < |ts| && i == Slot(key, |ts|)
    requires Ordered(t) && Elems(t) == Elems(ts[i]) - {key}
    ensures Sorted(ts[i := t]) && All(ts[i := t]) == All(ts) - {key}
  {
    SortedPut(ts, i, t);
    var u, m := All(ts[i := t]), All(ts);
    SameButFor(u, m, key) by {
      forall k ensures (k in u <==> k in m && k != key) && (k in m && k != key ==> u[k] == m[k]) {
        AllDropAt(ts, i, t, key, k);
      }
    }
  }

  lemma SameButFor<V>(u: map<Key, V>, m: map<Key, V>, key: Key)
    requires forall k :: (k in u <==> k in m && k != key) && (k in m && k != key ==> u[k] == m[k])
    ensures u == m - {key}
  {
  }

  // ---- depth -----------------------------------------------------------------------

  lemma {:induction false} SizeIsElems<V>(t: Tree<V>)
    requires Ordered(t)
    ensures Size(t) == |Elems(t)|
  {
    if t.Node? {
      OrderedIs(t);
      Apart(t);
      SizeIsElems(t.l);
      SizeIsElems(t.r);
      Count(Elems(t.l), Elems(t.r), t.key, t.data);
    }
  }

  lemma Count<V>(a: map<Key, V>, b: map<Key, V>, k: Key, d: V)
    requires a.Keys !! b.Keys && k !in a && k !in b
    ensures |a + b + map[k := d]| == |a| + |b| + 1
  {
    var m := a + b + map[k := d];
    assert m.Keys == a.Keys + b.Keys + {k};
    assert |m| == |m.Keys| && |a| == |a.Keys| && |b| == |b.Keys|;
  }

  lemma BucketFits<V>(ts: seq<Tree<V>>, i: nat)
    requires Sorted(ts) && i < |ts|
    ensures Size(ts[i]) <= |All(ts)|
  {
    SizeIsElems(ts[i]);
    assert Elems(ts[i]).Keys <= All(ts).Keys;
    Subset(Elems(ts[i]).Keys, All(ts).Keys);
    assert |Elems(ts[i])| == |Elems(ts[i]).Keys| && |All(ts)| == |All(ts).Keys|;
  }

  lemma Subset<T>(a: set<T>, b: set<T>)
    requires a <= b
    ensures |a| <= |b|
  {
    assert b == a + (b - a);
  }

  lemma {:induction false} Exp2Sum(a: nat, b: nat)
    ensures Exp2(a + b) == Exp2(a) * Exp2(b)
  {
    if a > 0 {
      Exp2Sum(a - 1, b);
      Doubled(Exp2(a - 1), Exp2(b));
      assert Exp2(a + b) == 2 * Exp2((a - 1) + b);
    }
  }

  lemma Doubled(x: int, y: int)
    ensures 2 * (x * y) == (2 * x) * y
  {
  }

  lemma TwoTo31()
    ensures Exp2(31) == 0x8000_0000
  {
    assert Exp2(8) == 256;
    Exp2Sum(8, 8);
    Exp2Sum(16, 8);
    Exp2Sum(7, 24);
  }

  // A balanced table of fewer than 2^31 items: no path is longer than 62 links, so with the
  // link to the new node the 65 entries of the path stack are enough.
  lemma PathFits<V>(ts: seq<Tree<V>>, i: nat)
    requires Sorted(ts) && Balanced(ts) && i < |ts| && |All(ts)| < 0x8000_0000
    ensures HeightOf(ts[i]) + 1 <= 62
  {
    var h := HeightOf(ts[i]);
    AvlTall(ts[i]);
    BucketFits(ts, i);
    TwoTo31();
    if h >= 62 { Exp2Mono(31, h / 2); }
  }

  // ---- one bucket changed --------------------------------------------------------

  // The buckets and the two counters that describe them.
  ghost predicate Good<V>(ts: seq<Tree<V>>, items: int, longest: int) {
    Sorted(ts) && items == |All(ts)| && forall k :: k in All(ts) ==> |k| <= longest
  }

  // Mentioning Look unfolds the two predicates below; elsewhere they are carried as they are.
  predicate Look(n: nat) { true }

  // The buckets stand for the map m, and the counters describe it.
  ghost predicate Row<V>(ts: seq<Tree<V>>, items: int, longest: int, m: map<Key, V>) {
    forall n: nat {:trigger Look(n)} :: n == |ts| ==> Good(ts, items, longest) && All(ts) == m
  }

  // Every tree has exact heights and is balanced.
  ghost predicate Even<V>(ts: seq<Tree<V>>) {
    forall n: nat {:trigger Look(n)} :: n == |ts| ==> Balanced(ts)
  }

  lemma RowMade<V>(ts: seq<Tree<V>>, items: int, longest: int, m: map<Key, V>)
    requires Sorted(ts) && All(ts) == m && items == |m| && forall k :: k in m ==> |k| <= longest
    ensures Row(ts, items, longest, m)
  {
    assert Good(ts, items, longest);
  }

  lemma EvenMade<V>(ts: seq<Tree<V>>)
    requires Balanced(ts)
    ensures Even(ts)
  {
  }

  lemma RowIs<V>(ts: seq<Tree<V>>, items: int, longest: int, m: map<Key, V>)
    requires Row(ts, items, longest, m)
    ensures items == |m| && (forall k :: k in m ==> |k| <= longest) && ts != []
  {
    assert Look(|ts|);
  }

  lemma RowAt<V>(ts: seq<Tree<V>>, items: int, longest: int, m: map<Key, V>, key: Key)
    requires Row(ts, items, longest, m) && ts != []
    ensures var t := ts[Slot(key, |ts|)];
            Ordered(t) && (key in Elems(t) <==> key in m) && (key in m ==> Elems(t)[key] == m[key])
  {
    assert Look(|ts|);
  }

  lemma PutReady<V>(was: seq<Tree<V>>, i: nat, key: Key, data: V, items: int, longest: int, m: map<Key, V>)
    requires Row(was, items, longest, m) && i < |was| && i == Slot(key, |was|)
    ensures Row(was[i := Insert(was[i], key, data).0],
              if key in m then items else items + 1, if key in m then longest else Max(longest, |key|), m[key := data])
  {
    assert Look(|was|);
    BucketPut(was, i, key, data);
    OneMore(m, key, data);
    RowMade(was[i := Insert(was[i], key, data).0], if key in m then items else items + 1,
            if key in m then longest else Max(longest, |key|), m[key := data]);
  }

  lemma BucketPut<V>(was: seq<Tree<V>>, i: nat, key: Key, data: V)
    requires Sorted(was) && i < |was| && i == Slot(key, |was|)
    ensures var ts := was[i := Insert(was[i], key, data).0]; Sorted(ts) && All(ts) == All(was)[key := data]
  {
    InsertMap(was[i], key, data);
    AllPut(was, i, Insert(was[i], key, data).0, key, data);
  }

  lemma OneMore<V>(m: map<Key, V>, key: Key, data: V)
    ensures |m[key := data]| == if key in m then |m| else |m| + 1
  {
    var n := m[key := data];
    assert n.Keys == m.Keys + {key};
    assert |n| == |n.Keys| && |m| == |m.Keys|;
    if key in m { assert n.Keys == m.Keys; }
  }

  lemma PutBalanced<V>(was: seq<Tree<V>>, i: nat, key: Key, data: V, items: int, longest: int, m: map<Key, V>)
    requires Row(was, items, longest, m) && Even(was) && i < |was|
    ensures Even(was[i := Insert(was[i], key, data).0]) && Avl(was[i])
    ensures items < 0x8000_0000 ==> HeightOf(was[i]) + 1 <= 62
  {
    assert Look(|was|);
    InsertAvl(was[i], key, data);
    if |All(was)| < 0x8000_0000 { PathFits(was, i); }
  }

  lemma DropReady<V>(was: seq<Tree<V>>, i: nat, key: Key, items: int, longest: int, m: map<Key, V>)
    requires Row(was, items, longest, m) && i < |was| && i == Slot(key, |was|)
    ensures Row(was[i := Remove(was[i], key).0], if key in m then items - 1 else items, longest, m - {key})
  {
    assert Look(|was|);
    RemoveMap(was[i], key);
    AllDrop(was, i, Remove(was[i], key).0, key);
    OneLess(All(was), key);
  }

  lemma DropNothing<V>(was: seq<Tree<V>>, i: nat, key: Key)
    requires i < |was| && was[i].Nil?
    ensures was[i := Remove(was[i], key).0] == was
  {
  }

  lemma OneLess<V>(m: map<Key, V>, key: Key)
    ensures |m - {key}| == if key in m then |m| - 1 else |m|
  {
    var n := m - {key};
    assert n.Keys == m.Keys - {key};
    assert |n| == |n.Keys| && |m| == |m.Keys|;
  }

  // ---- rebuilding ----------------------------------------------------------------------

  // The entries of the first n buckets.
  ghost function Upto<V>(ts: seq<Tree<V>>, n: nat): map<Key, V>
    requires ts != []
  {
    map k | k in All(ts) && Slot(k, |ts|) < n :: All(ts)[k]
  }

  lemma NextBucket<V>(ts: seq<Tree<V>>, n: nat)
    requires Sorted(ts) && n < |ts|
    ensures Upto(ts, n).Keys !! Elems(ts[n]).Keys
    ensures Upto(ts, n) + Elems(ts[n]) == Upto(ts, n + 1)
    ensures |Upto(ts, n)| + |Elems(ts[n])| <= |All(ts)|
  {
    var a, b, c := Upto(ts, n), Elems(ts[n]), Upto(ts, n + 1);
    SameUnion(a, b, c) by {
      forall k
        ensures (k in c <==> k in a || k in b) && (k in b ==> k in c && c[k] == b[k])
                && (k in a && k !in b ==> c[k] == a[k])
      {
        BucketHas(ts, n, k);
      }
    }
    forall k | k in a ensures k !in b { BucketHas(ts, n, k); }
    Sum(a, b);
    Subset(c.Keys, All(ts).Keys);
    assert |c| == |c.Keys| && |All(ts)| == |All(ts).Keys|;
  }

  // What rehash() has added after n buckets, and what the next one adds.
  ghost predicate Done<V>(ts: seq<Tree<V>>, n: nat, m: map<Key, V>)
    requires ts != []
  {
    forall x: nat {:trigger Look(x)} :: x == 0 ==> Upto(ts, n) == m
  }

  lemma DoneStep<V>(ts: seq<Tree<V>>, items: int, longest: int, all: map<Key, V>, n: nat, m: map<Key, V>)
    returns (b: map<Key, V>)
    requires Row(ts, items, longest, all) && n < |ts| && Done(ts, n, m)
    ensures Stands(ts[n], b) && m.Keys !! b.Keys && |m| + |b| <= items && Done(ts, n + 1, m + b)
  {
    assert Look(0);
    assert Look(|ts|);
    NextBucket(ts, n);
    b := Elems(ts[n]);
  }

  lemma DoneStart<V>(ts: seq<Tree<V>>)
    requires ts != []
    ensures Done(ts, 0, map[])
  {
    EveryBucket(ts);
  }

  lemma DoneAll<V>(ts: seq<Tree<V>>, items: int, longest: int, all: map<Key, V>, m: map<Key, V>)
    requires Row(ts, items, longest, all) && ts != [] && Done(ts, |ts|, m)
    ensures m == all
  {
    assert Look(0);
    assert Look(|ts|);
    EveryBucket(ts);
  }

  lemma BucketHas<V>(ts: seq<Tree<V>>, n: nat, k: Key)
    requires Sorted(ts) && n < |ts|
    ensures k in Elems(ts[n]) <==> k in All(ts) && Slot(k, |ts|) == n
    ensures k in Elems(ts[n]) ==> All(ts)[k] == Elems(ts[n])[k]
  {
  }

  lemma SameUnion<V>(a: map<Key, V>, b: map<Key, V>, c: map<Key, V>)
    requires forall k ::
               (k in c <==> k in a || k in b) && (k in b ==> k in c && c[k] == b[k])
               && (k in a && k !in b ==> c[k] == a[k])
    ensures c == a + b
  {
  }

  lemma EveryBucket<V>(ts: seq<Tree<V>>)
    requires ts != []
    ensures Upto(ts, 0) == map[] && Upto(ts, |ts|) == All(ts)
  {
  }

  lemma Cleared<V>(ts: seq<Tree<V>>)
    requires ts != [] && forall i :: 0 <= i < |ts| ==> ts[i] == Nil
    ensures Row(ts, 0, 0, map[]) && Even(ts)
  {
    forall k ensures k !in All(ts) { assert ts[Slot(k, |ts|)] == Nil; }
    assert All(ts) == map[];
    RowMade(ts, 0, 0, map[]);
    EvenMade(ts);
  }

  // The tree is ordered and stands for the map m.
  ghost predicate Stands<V>(t: Tree<V>, m: map<Key, V>) {
    forall n: nat {:trigger Look(n)} :: n == 0 ==> Ordered(t) && Elems(t) == m
  }

  lemma StandsNil<V>(t: Tree<V>, m: map<Key, V>)
    requires Stands(t, m) && t.Nil?
    ensures m == map[]
  {
    assert Look(0);
  }

  // A node stands for what its two subtrees and it hold.
  lemma Parts<V>(t: Tree<V>, m: map<Key, V>) returns (l: map<Key, V>, r: map<Key, V>)
    requires t.Node? && Stands(t, m)
    ensures Stands(t.l, l) && Stands(t.r, r)
    ensures l.Keys !! r.Keys && t.key !in l && t.key !in r && m == l + r + map[t.key := t.data]
  {
    assert Look(0);
    Apart(t);
    l, r := Elems(t.l), Elems(t.r);
  }

  // Adding the two subtrees' items and then the node's to a table adds the tree's.
  lemma Gathered<V>(c: map<Key, V>, l: map<Key, V>, r: map<Key, V>, k: Key, d: V)
    requires l.Keys !! r.Keys && k !in l && k !in r && c.Keys !! (l + r + map[k := d]).Keys
    ensures c.Keys !! l.Keys && (c + l).Keys !! r.Keys && k !in c + l + r
    ensures (c + l + r)[k := d] == c + (l + r + map[k := d])
    ensures |c + l| == |c| + |l| && |c + l + r| == |c| + |l| + |r| && |l + r + map[k := d]| == |l| + |r| + 1
  {
    var m := l + r + map[k := d];
    assert k in m;
    forall x | x in l || x in r ensures x !in c { assert x in m; }
    Count(l, r, k, d);
    Regroup(c, l, r, k, d);
    Sum(c, l);
    Sum(c + l, r);
  }

  lemma Regroup<V>(m: map<Key, V>, a: map<Key, V>, b: map<Key, V>, k: Key, d: V)
    ensures (m + a + b)[k := d] == m + (a + b + map[k := d])
  {
  }

  lemma Sum<V>(a: map<Key, V>, b: map<Key, V>)
    requires a.Keys !! b.Keys
    ensures |a + b| == |a| + |b|
  {
    assert (a + b).Keys == a.Keys + b.Keys;
    assert |a + b| == |(a + b).Keys| && |a| == |a.Keys| && |b| == |b.Keys|;
  }

  // ---- paths -------------------------------------------------------------------------

  ghost predicate Nodes<V>(path: seq<Frame<V>>) {
    forall k :: 0 <= k < |path| ==> path[k].node.Node?
  }

  // The tree with the subtree at the end of a path replaced, balancing on the way up.
  ghost function Up<V>(path: seq<Frame<V>>, c: Tree<V>, go: bool): (Tree<V>, bool)
    requires Nodes(path)
    decreases |path|
  {
    if path == [] then (c, go)
    else
      var (u, g) := Climb(path[|path| - 1], c, go);
      Up(path[..|path| - 1], u, g)
  }

  // The same for a deletion.
  ghost function Down<V>(path: seq<Frame<V>>, c: Tree<V>, go: bool): (Tree<V>, bool)
    requires Nodes(path)
    decreases |path|
  {
    if path == [] then (c, go)
    else
      var (u, g) := Settle(path[|path| - 1], c, go);
      Down(path[..|path| - 1], u, g)
  }

  lemma PushFrame<V>(path: seq<Frame<V>>, f: Frame<V>, c: Tree<V>, go: bool)
    requires Nodes(path) && f.node.Node?
    ensures Nodes(path + [f])
    ensures Up(path + [f], c, go) == Up(path, Climb(f, c, go).0, Climb(f, c, go).1)
    ensures Down(path + [f], c, go) == Down(path, Settle(f, c, go).0, Settle(f, c, go).1)
  {
    assert (path + [f])[..|path|] == path;
  }

  // Descend to the key, or to where it belongs, then climb back: balance() on the way up
  // until it has nothing to do. depth is the length of the path.
  method InsertTree<V>(t: Tree<V>, key: Key, data: V) returns (u: Tree<V>, added: bool, depth: nat)
    requires Ordered(t)
    ensures u == Insert(t, key, data).0 && added == (key !in Elems(t))
    ensures Avl(t) ==> depth <= HeightOf(t) + 1
  {
    var path: seq<Frame<V>> := [];
    var cur := t;
    var go := true;
    while cur.Node? && cur.key != key
      invariant Nodes(path) && Ordered(cur)
      invariant Insert(t, key, data) == Up(path, Insert(cur, key, data).0, Insert(cur, key, data).1)
      invariant key in Elems(t) <==> key in Elems(cur)
      invariant Avl(t) ==> Avl(cur) && HeightOf(cur) + |path| <= HeightOf(t)
      decreases cur
    {
      var left := Less(cur.key, key);
      var next := if left then cur.l else cur.r;
      Found(cur, key);
      PushFrame(path, Frame(cur, left), Insert(next, key, data).0, Insert(next, key, data).1);
      if Avl(t) { AvlKids(cur); }
      path, cur := path + [Frame(cur, left)], next;
    }
    if Avl(t) { AvlKids(cur); }
    added, depth := cur.Nil?, |path|;
    if cur.Nil? {
      u := Node(key, data, Nil, Nil, 0);
    } else {
      u, go := cur.(data := data), false;
    }
    while path != []
      invariant Nodes(path)
      invariant Insert(t, key, data) == Up(path, u, go)
      decreases |path|
    {
      var f := path[|path| - 1];
      path := path[..|path| - 1];
      if go { var b := Balance(Hang(f, u)); u, go := b.0, b.1; } else { u := Hang(f, u); }
    }
  }

  // Descend to the key; take its node out, or the next larger key's node in its stead; then
  // adjust heights on the way up.
  method RemoveTree<V>(t: Tree<V>, key: Key) returns (u: Tree<V>, found: bool, data: V)
    requires Ordered(t) && t.Node?
    ensures u == Remove(t, key).0 && (found <==> key in Elems(t)) && (found ==> data == Elems(t)[key])
  {
    var path: seq<Frame<V>> := [];
    var cur := t;
    var go := true;
    data := t.data;
    while cur.Node? && cur.key != key
      invariant Nodes(path) && Ordered(cur)
      invariant Remove(t, key) == Down(path, Remove(cur, key).0, Remove(cur, key).1)
      invariant key in Elems(t) <==> key in Elems(cur)
      invariant key in Elems(t) ==> Elems(t)[key] == Elems(cur)[key]
      decreases cur
    {
      var left := Less(cur.key, key);
      var next := if left then cur.l else cur.r;
      Found(cur, key);
      PushFrame(path, Frame(cur, left), Remove(next, key).0, Remove(next, key).1);
      path, cur := path + [Frame(cur, left)], next;
    }
    found := cur.Node?;
    if cur.Nil? {
      u, go := Nil, false;
    } else {
      data := cur.data;
      u, go := RemoveNode(cur);
    }
    while path != []
      invariant Nodes(path)
      invariant Remove(t, key) == Down(path, u, go)
      decreases |path|
    {
      var f := path[|path| - 1];
      path := path[..|path| - 1];
      if go { var b := Bump(Hang(f, u)); u, go := b.0, b.1; } else { u := Hang(f, u); }
    }
  }

  // The node itself: with two children it takes over the contents of the rightmost node of
  // its left subtree, whose own place goes to its left child.
  method RemoveNode<V>(here: Tree<V>) returns (u: Tree<V>, go: bool)
    requires here.Node?
    ensures (u, go) == RemoveHere(here)
  {
    if here.l.Node? && here.r.Node? {
      var chain: seq<Frame<V>> := [];
      var there := here.l;
      while there.r.Node?
        invariant Nodes(chain) && there.Node?
        invariant Down(chain, TakeRight(there).rest, TakeRight(there).go)
                  == (TakeRight(here.l).rest, TakeRight(here.l).go)
        invariant TakeRight(there).key == TakeRight(here.l).key && TakeRight(there).data == TakeRight(here.l).data
        decreases there
      {
        PushFrame(chain, Frame(there, false), TakeRight(there.r).rest, TakeRight(there.r).go);
        chain, there := chain + [Frame(there, false)], there.r;
      }
      var c := there.l;
      go := true;
      while chain != []
        invariant Nodes(chain)
        invariant Down(chain, c, go) == (TakeRight(here.l).rest, TakeRight(here.l).go)
        decreases |chain|
      {
        var f := chain[|chain| - 1];
        chain := chain[..|chain| - 1];
        if go { var b := Bump(Hang(f, c)); c, go := b.0, b.1; } else { c := Hang(f, c); }
      }
      u := here.(l := c, key := there.key, data := there.data);
    } else {
      u, go := if here.l.Node? then here.l else here.r, true;
    }
  }

  // ---- thresholds -----------------------------------------------------------------------

  // A 32-bit signed int.
  function Int32(x: int): int {
    (x + 0x8000_0000) % TWO32 - 0x8000_0000
  }

  // x / 100 as C divides.
  function Percent(x: int): int { if x >= 0 then x / 100 else -((-x) / 100) }

  const HASH_DEPTH := 64
  const HESITATE := 8
  const NO_LIMIT := 2147483646   // ((unsigned)-1)/2-1

  // items*100/perc_optimal|1
  function NewCapacity(items: nat, perc: nat): nat
    requires perc > 0
  {
    Odd(items * 100 / perc)
  }

  // c | 1
  function Odd(c: nat): nat { if c % 2 == 0 then c + 1 else c }

  lemma CapacityIs(items: nat, perc: nat)
    requires perc > 0
    ensures NewCapacity(items, perc) % 2 == 1 && NewCapacity(items, perc) <= items * 100 + 1
  {
    QuotientBound(items * 100, perc);
  }

  // The odd number of buckets that the items fill to the percentage, to within one bucket; there is only one.
  predicate RightSize(c: int, perc: int, items: int) {
    c % 2 == 1 && (c - 1) * perc <= 100 * items < (c + 1) * perc
  }

  lemma OneRightSize(c: int, d: int, perc: int, items: int)
    requires perc > 0 && RightSize(c, perc, items) && RightSize(d, perc, items)
    ensures c == d
  {
    if c < d {
      Product(d - 1 - (c + 1), perc);
      assert (d - 1) * perc == (c + 1) * perc + (d - 1 - (c + 1)) * perc;
    } else if d < c {
      Product(c - 1 - (d + 1), perc);
      assert (c - 1) * perc == (d + 1) * perc + (c - 1 - (d + 1)) * perc;
    }
  }

  lemma CapacityFits(items: nat, perc: nat, c: nat)
    requires perc > 0 && c == NewCapacity(items, perc)
    ensures RightSize(c, perc, items)
  {
    Between(items * 100, perc, items * 100 / perc);
  }

  lemma Between(x: nat, p: nat, q: nat)
    requires p > 0 && q == x / p
    ensures (q - 1) * p <= x < (q + 1) * p && q * p <= x < (q + 2) * p
  {
    Beside(q, p);
    assert x == q * p + x % p;
  }

  lemma Beside(q: int, p: int)
    requires p > 0
    ensures (q - 1) * p == q * p - p && (q + 1) * p == q * p + p && (q + 2) * p == q * p + 2 * p
  {
  }

  lemma QuotientBound(x: nat, p: nat)
    requires p > 0
    ensures 0 <= x / p <= x
  {
    var q := x / p;
    assert x == q * p + x % p;
    Product(q, p);
  }

  lemma {:induction false} Product(q: int, p: int)
    requires p > 0
    ensures q >= 0 ==> q * p >= q
    ensures q < 0 ==> q * p <= -p
  {
    if q > 0 { assert q * p == q + q * (p - 1); }
    if q < 0 { assert q * p == -p + (q + 1) * p; }
  }

  // With the limit meant to be infinite, the product with an odd capacity wraps around to a
  // bound that no rebuilding of n items reaches.
  predicate Fits(n: nat, capacity: nat) { 100 * n + 2 * capacity + 200 <= 0x8000_0000 }

  lemma Unlimited(n: nat, capacity: nat)
    requires capacity % 2 == 1 && Fits(n, capacity)
    ensures Percent(Int32(capacity * NO_LIMIT)) > n
  {
    var m := capacity / 2;
    var x := capacity * NO_LIMIT;
    assert x == m * TWO32 + 0x8000_0000 - 2 * capacity by {
      assert capacity == 2 * m + 1;
      assert x == capacity * 0x8000_0000 - 2 * capacity;
    }
    assert (x + 0x8000_0000) == (m + 1) * TWO32 - 2 * capacity;
    assert (x + 0x8000_0000) == m * TWO32 + (TWO32 - 2 * capacity);
    Wraps(m, TWO32 - 2 * capacity);
  }

  lemma Wraps(m: nat, y: nat)
    requires y < TWO32
    ensures (m * TWO32 + y) % TWO32 == y
  {
    if m > 0 { Wraps(m - 1, y); assert m * TWO32 + y == ((m - 1) * TWO32 + y) + TWO32; }
  }

  datatype Option<V> = None | Some(value: V)

  class Table<V(0)> {
    var ht: array<Tree<V>>
    var items: int
    var longest: int
    var maxdep: int
    var perc_optimal: int
    var perc_too_sparse: int
    var perc_too_dense: int
    var min_items: int
    var max_items: int
    var tree_too_deep: int

    // The map the table stands for.
    ghost var contents: map<Key, V>

    // items is the size of the map, and longest bounds the length of its keys.
    ghost predicate Valid()
      reads this, ht
    {
      ht.Length > 0 && Row(ht[..], items, longest, contents) && perc_optimal > 0
    }

    // Every tree has exact heights and is balanced.
    ghost predicate IsBalanced()
      reads this, ht
    {
      Even(ht[..])
    }

    // The table can be rebuilt with one more item without overflowing the thresholds.
    ghost predicate Rebuildable()
      reads this
    {
      0 < perc_optimal < NO_LIMIT && items >= 0 && forall n: nat :: n <= items + 1 ==>
        Fits(n, NewCapacity(n, perc_optimal))
    }

    constructor (size: nat)
      ensures Valid() && IsBalanced() && fresh(ht) && contents == map[]
      ensures ht.Length == (if size == 0 then 1 else size) && perc_optimal == 60
      ensures min_items == -8 && tree_too_deep == 5
      ensures 400 * ht.Length < 0x8000_0000 ==> max_items == 4 * ht.Length
    {
      var n := if size == 0 then 1 else size;
      var t := new Tree<V>[n](i => Nil);
      ht := t;
      items, longest, maxdep := 0, 0, 0;
      perc_optimal, perc_too_sparse, perc_too_dense := 60, 0, 400;
      min_items := -HESITATE;
      max_items := Percent(Int32(n * 400));
      tree_too_deep := 5;
      contents := map[];
      new;
      Cleared(ht[..]);
    }

    // The threshold is a percentage of the capacity, rounded down.
    lemma Threshold(m: int)
      requires 0 <= m < 0x8000_0000
      ensures 100 * Percent(Int32(m)) <= m < 100 * Percent(Int32(m)) + 100
    {
    }

    // cfg_rehash: when the table is rebuilt.
    method Configure(newMinimum: int, newMaximum: int, newMaxDepth: int)
      modifies `perc_too_sparse, `perc_too_dense, `min_items, `max_items, `tree_too_deep
      ensures perc_too_sparse == (if newMinimum >= perc_optimal then perc_optimal - 1 else newMinimum)
      ensures perc_too_dense == (if newMaximum <= perc_optimal then perc_optimal + 1 else newMaximum)
      ensures min_items == Percent(Int32(ht.Length * perc_too_sparse)) - HESITATE
      ensures max_items == Percent(Int32(ht.Length * perc_too_dense))
      ensures tree_too_deep == newMaxDepth
      ensures var m := ht.Length * perc_too_sparse;
              0 <= m < 0x8000_0000 ==> 100 * (min_items + 8) <= m < 100 * (min_items + 8) + 100
      ensures var m := ht.Length * perc_too_dense;
              0 <= m < 0x8000_0000 ==> 100 * max_items <= m < 100 * max_items + 100
    {
      perc_too_sparse := if newMinimum >= perc_optimal then perc_optimal - 1 else newMinimum;
      min_items := Percent(Int32(ht.Length * perc_too_sparse)) - HESITATE;
      perc_too_dense := if newMaximum <= perc_optimal then perc_optimal + 1 else newMaximum;
      max_items := Percent(Int32(ht.Length * perc_too_dense));
      tree_too_deep := newMaxDepth;
      ghost var low, high := ht.Length * perc_too_sparse, ht.Length * perc_too_dense;
      if 0 <= low < 0x8000_0000 { Threshold(low); }
      if 0 <= high < 0x8000_0000 { Threshold(high); }
    }

    // fn: the bucket of a key.
    method Fn(key: Key) returns (i: nat)
      requires ht.Length > 0
      ensures i == Slot(key, ht.Length) == HashFrom(0, key) % ht.Length
    {
      var j: nat, p := 0, 0;
      while p < |key|
        invariant p <= |key| && HashFrom(j, key[p..]) == HashFrom(0, key)
      {
        assert key[p..][1..] == key[p + 1..];
        j := (23 * j + (if key[p] < 128 then key[p] else key[p] + TWO32 - 256)) % TWO32;
        p := p + 1;
      }
      i := j % ht.Length;
    }

    // translate: a read-only walk down one tree.
    method Translate(key: Key) returns (r: Option<V>)
      requires Valid()
      ensures r == if key in contents then Some(contents[key]) else None
    {
      var i := Fn(key);
      var t := ht[i];
      RowAt(ht[..], items, longest, contents, key);
      while t.Node?
        invariant Ordered(t)
        invariant key in contents <==> key in Elems(t)
        invariant key in contents ==> contents[key] == Elems(t)[key]
        decreases t
      {
        if key == t.key { return Some(t.data); }
        Found(t, key);
        t := if Less(t.key, key) then t.l else t.r;
      }
      return None;
    }

    // add without the rebuilding at its end: due says whether it would rebuild.
    method Put(key: Key, data: V) returns (due: bool, ghost depth: nat)
      requires Valid()
      modifies `items, `longest, `maxdep, `contents, ht
      ensures Valid() && contents == old(contents)[key := data]
      ensures old(IsBalanced()) ==> IsBalanced()
      ensures longest >= old(longest)
      ensures due == (key !in old(contents) && (old(items) > max_items || maxdep >= tree_too_deep))
      ensures items == (if key in old(contents) then old(items) else old(items) + 1)
      ensures old(maxdep) <= maxdep && (maxdep == old(maxdep) || maxdep == depth)
      ensures old(IsBalanced()) && old(items) < 0x8000_0000 ==> depth <= 62
    {
      ghost var was := ht[..];
      var i := Fn(key);
      RowAt(was, items, longest, contents, key);
      PutReady(was, i, key, data, items, longest, contents);
      if Even(was) { PutBalanced(was, i, key, data, items, longest, contents); }
      var t, added, dep := InsertTree(ht[i], key, data);
      depth := dep;
      contents := contents[key := data];
      ht[i] := t;
      assert ht[..] == was[i := t];
      due := false;
      if added {
        if longest < |key| { longest := |key|; }
        if dep > maxdep { maxdep := dep; }
        due := items > max_items || maxdep >= tree_too_deep;
        items := items + 1;
      }
    }

    // add: the entry is added, or its data replaced; the table may be rebuilt.
    method Add(key: Key, data: V)
      requires Valid() && Rebuildable()
      modifies this, ht
      ensures Valid() && contents == old(contents)[key := data]
      ensures old(IsBalanced()) ==> IsBalanced()
      ensures ht == old(ht) || (fresh(ht) && IsBalanced())
      ensures perc_optimal == old(perc_optimal)
      ensures key in old(contents) ==> ht == old(ht)
      ensures key !in old(contents) && ht == old(ht) ==> old(items) <= max_items && maxdep < tree_too_deep
      ensures key !in old(contents) && old(items) > old(max_items) ==> ht != old(ht)
      ensures ht != old(ht) ==> RightSize(ht.Length, perc_optimal, items)
    {
      ghost var d;
      var due;
      due, d := Put(key, data);
      RowIs(ht[..], items, longest, contents);
      if due { Rehash(); }
    }

    // remove without the rebuilding at its end: due says whether it would rebuild.
    method Take(key: Key) returns (r: Option<V>, due: bool)
      requires Valid()
      modifies `items, `contents, ht
      ensures Valid() && contents == old(contents) - {key}
      ensures r == if key in old(contents) then Some(old(contents)[key]) else None
      ensures items == (if key in old(contents) then old(items) - 1 else old(items))
      ensures due == (key in old(contents) && old(items) < min_items)
    {
      ghost var was := ht[..];
      var i := Fn(key);
      RowAt(was, items, longest, contents, key);
      DropReady(was, i, key, items, longest, contents);
      contents := contents - {key};
      if ht[i].Nil? { DropNothing(was, i, key); return None, false; }
      var t, found, data := RemoveTree(ht[i], key);
      ht[i] := t;
      assert ht[..] == was[i := t];
      if !found { return None, false; }
      r, due := Some(data), items < min_items;
      items := items - 1;
    }

    // remove: the entry's data, or nothing when there is none; the table may be rebuilt.
    method Remove(key: Key) returns (r: Option<V>)
      requires Valid() && Rebuildable()
      modifies this, ht
      ensures Valid() && contents == old(contents) - {key}
      ensures r == if key in old(contents) then Some(old(contents)[key]) else None
      ensures ht == old(ht) || (fresh(ht) && IsBalanced())
      ensures perc_optimal == old(perc_optimal)
      ensures ht != old(ht) <==> key in old(contents) && old(items) < old(min_items)
      ensures ht != old(ht) ==> RightSize(ht.Length, perc_optimal, items)
    {
      var due;
      r, due := Take(key);
      RowIs(ht[..], items, longest, contents);
      ghost var n: nat := items;
      if due {
        assert Fits(n, NewCapacity(n, perc_optimal));
        Rehash();
      }
    }

    // The state in which rehash() adds items back: no limit can be reached.
    ghost predicate Rebuilding(n: int)
      reads this, ht
    {
      Valid() && IsBalanced() && items <= n < 0x8000_0000 && n < max_items && maxdep <= 62
        && tree_too_deep == HASH_DEPTH
    }

    // rehash_tree: every item of an old tree is added. The adding never asks for another
    // rebuilding and never needs a longer path than the stack has room for.
    method RehashTree(t: Tree<V>, ghost m: map<Key, V>, ghost n: int)
      requires Rebuilding(n) && Stands(t, m) && contents.Keys !! m.Keys && items + |m| <= n
      modifies `items, `longest, `maxdep, `contents, ht
      ensures Rebuilding(n) && contents == old(contents) + m
      decreases t
    {
      RowIs(ht[..], items, longest, contents);
      if t.Nil? { StandsNil(t, m); return; }
      ghost var l, r := Parts(t, m);
      Gathered(contents, l, r, t.key, t.data);
      RehashTree(t.l, l, n);
      RowIs(ht[..], items, longest, contents);
      RehashTree(t.r, r, n);
      AddBack(t.key, t.data, n);
    }

    // One item added back.
    method AddBack(key: Key, data: V, ghost n: int)
      requires Rebuilding(n) && key !in contents && |contents| + 1 <= n
      modifies `items, `longest, `maxdep, `contents, ht
      ensures Rebuilding(n) && contents == old(contents)[key := data]
    {
      RowIs(ht[..], items, longest, contents);
      ghost var depth;
      var due;
      due, depth := Put(key, data);
      assert !due;
    }

    // The loop of rehash(): the trees of the old buckets in turn.
    method Refill(old_ht: array<Tree<V>>, ghost n: int, ghost len: int, ghost all: map<Key, V>)
      requires Rebuilding(n) && contents == map[] && items == 0
      requires ht != old_ht && old_ht.Length > 0 && Row(old_ht[..], n, len, all)
      modifies `items, `longest, `maxdep, `contents, ht
      ensures Rebuilding(n) && contents == all
    {
      ghost var was := old_ht[..];
      DoneStart(was);
      var i := 0;
      while i < old_ht.Length
        invariant 0 <= i <= old_ht.Length && old_ht[..] == was
        invariant Rebuilding(n) && Done(was, i, contents)
      {
        RowIs(ht[..], items, longest, contents);
        ghost var m := DoneStep(was, n, len, all, i, contents);
        RehashTree(old_ht[i], m, n);
        i := i + 1;
      }
      DoneAll(was, n, len, all, contents);
    }

    // A new row of empty buckets, with limits that adding n items cannot reach.
    method Empty(capacity: nat, ghost n: int)
      requires 0 < perc_optimal < NO_LIMIT && capacity > 0
      requires 0 <= n < 0x8000_0000 && n < Percent(Int32(capacity * NO_LIMIT))
      modifies this
      ensures Rebuilding(n) && contents == map[] && items == 0 && fresh(ht) && ht.Length == capacity
      ensures perc_optimal == old(perc_optimal) && perc_too_sparse == 0 && perc_too_dense == NO_LIMIT
    {
      ht := new Tree<V>[capacity](i => Nil);
      Configure(0, NO_LIMIT, HASH_DEPTH);
      longest, items, maxdep, contents := 0, 0, 0, map[];
      Cleared(ht[..]);
    }

    // rehash: a new row of buckets, and every item added to it again. The thresholds given
    // back to cfg_rehash are the ones it has already overwritten: 0 and the limit that was
    // meant to be infinite.
    method Rehash()
      requires Valid() && perc_optimal < NO_LIMIT && 0 <= items && Fits(items, NewCapacity(items, perc_optimal))
      modifies this
      ensures Valid() && contents == old(contents) && items == old(items) && IsBalanced()
      ensures fresh(ht) && ht.Length == NewCapacity(old(items), perc_optimal)
      ensures RightSize(ht.Length, perc_optimal, old(items))
      ensures perc_optimal == old(perc_optimal) && tree_too_deep == old(tree_too_deep)
      ensures perc_too_sparse == 0 && perc_too_dense == 2147483646 && min_items == -8 && max_items > items
    {
      var old_ht, old_depth := ht, tree_too_deep;
      ghost var n, len, all := items, longest, contents;
      var capacity := NewCapacity(items, perc_optimal);
      CapacityIs(items, perc_optimal);
      CapacityFits(items, perc_optimal, capacity);
      Unlimited(n, capacity);
      Empty(capacity, n);
      Refill(old_ht, n, len, all);
      RowIs(ht[..], items, longest, contents);
      RowIs(old_ht[..], n, len, all);
      Configure(perc_too_sparse, perc_too_dense, old_depth);
    }

    // get_random: some key that is in the table, from the first bucket in use at or after the
    // seed, going round once at most.
    method GetRandom(seed: nat) returns (r: Option<Key>, next: nat)
      requires Valid() && (seed < ht.Length ==> items > 0)
      ensures items == 0 ==> r.None? && next == seed
      ensures items > 0 ==> r.Some? && r.value in contents && next < ht.Length
    {
      next := seed;
      RowIs(ht[..], items, longest, contents);
      if next >= ht.Length {
        if items == 0 { return None, next; }
        next := next % ht.Length;
      }
      ghost var start := next;
      ghost var wrapped := false;
      SomeBucket(ht[..], items, longest, contents);
      while ht[next].Nil?
        invariant next < ht.Length && start < ht.Length
        invariant !wrapped ==> start <= next && forall k :: start <= k < next ==> ht[k].Nil?
        invariant wrapped ==>
                    (forall k :: 0 <= k < next ==> ht[k].Nil?)
                    && (forall k :: start <= k < ht.Length ==> ht[k].Nil?) && next <= start
        decreases !wrapped, if wrapped then start - next else ht.Length - next
      {
        next := next + 1;
        if next == ht.Length { next := 0; wrapped := true; }
      }
      RootIn(ht[..], items, longest, contents, next);
      r := Some(ht[next].key);
    }
  }

  lemma SomeBucket<V>(ts: seq<Tree<V>>, items: int, longest: int, m: map<Key, V>)
    requires Row(ts, items, longest, m) && items > 0 && ts != []
    ensures exists i :: 0 <= i < |ts| && ts[i].Node?
  {
    assert Look(|ts|);
    var k :| k in All(ts);
    assert ts[Slot(k, |ts|)].Node?;
  }

  lemma RootIn<V>(ts: seq<Tree<V>>, items: int, longest: int, m: map<Key, V>, i: nat)
    requires Row(ts, items, longest, m) && i < |ts| && ts[i].Node?
    ensures ts[i].key in m
  {
    assert Look(|ts|);
    assert ts[i].key in Elems(ts[i]);
  }
}
