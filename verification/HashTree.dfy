// The search trees inside a hash table bucket (src/hashtmpl.cc): insertion with local
// rebalancing, deletion, and what both do to the map a tree stands for.
module HashTree {

  type Byte = x: int | 0 < x < 256 witness 1

  // A key is a C string; strcmp compares its bytes as unsigned.
  type Key = seq<Byte>

  predicate Less(a: Key, b: Key) {
    b != [] && (a == [] || a[0] < b[0] || (a[0] == b[0] && Less(a[1..], b[1..])))
  }

  // Keys are compared at the first byte in which they differ; a beginning comes before the whole.
  lemma {:induction false} LessIs(a: Key, b: Key)
    ensures Less(a, b) <==> exists k: nat :: k < |b| && k <= |a| && a[..k] == b[..k] && (k == |a| || a[k] < b[k])
    decreases |a|
  {
    if a != [] && b != [] && a[0] == b[0] {
      var s, t := a[1..], b[1..];
      LessIs(s, t);
      if Less(s, t) {
        var k: nat :| k < |t| && k <= |s| && s[..k] == t[..k] && (k == |s| || s[k] < t[k]);
        assert a[..k + 1] == [a[0]] + s[..k] && b[..k + 1] == [b[0]] + t[..k];
        LessAt(a, b, k + 1);
      }
      if k: nat :| k < |b| && k <= |a| && a[..k] == b[..k] && (k == |a| || a[k] < b[k]) {
        assert k > 0 && s[..k - 1] == a[..k][1..] && t[..k - 1] == b[..k][1..];
        LessAt(s, t, k - 1);
      }
    } else if a == [] || (b != [] && a[0] < b[0]) {
      assert a[..0] == b[..0];
    } else if k: nat :| k < |b| && k <= |a| && a[..k] == b[..k] && (k == |a| || a[k] < b[k]) {
      FirstSame(a, b, k);
    }
  }

  lemma FirstSame(a: Key, b: Key, k: nat)
    requires k <= |a| && k <= |b| && a[..k] == b[..k]
    ensures k > 0 ==> a[0] == b[0]
  {
    if k > 0 { assert a[..k][0] == b[..k][0]; }
  }

  lemma LessAt(a: Key, b: Key, k: nat)
    requires k < |b| && k <= |a| && a[..k] == b[..k] && (k == |a| || a[k] < b[k])
    ensures exists k: nat :: k < |b| && k <= |a| && a[..k] == b[..k] && (k == |a| || a[k] < b[k])
  {
  }

  lemma {:induction false} LessTotal(a: Key, b: Key)
    ensures a == b || Less(a, b) || Less(b, a)
    ensures !(Less(a, b) && Less(b, a)) && !Less(a, a)
    decreases |a|
  {
    if a != [] && b != [] {
      LessTotal(a[1..], b[1..]);
      LessTotal(a[1..], a[1..]);
      if a[0] == b[0] && a[1..] == b[1..] { assert a == [a[0]] + a[1..] == [b[0]] + b[1..] == b; }
    } else if a != [] {
      LessTotal(a[1..], a[1..]);
    }
  }

  lemma {:induction false} LessTrans(a: Key, b: Key, c: Key)
    requires Less(a, b) && Less(b, c)
    ensures Less(a, c)
    decreases |a|
  {
    if a != [] && a[0] == b[0] == c[0] { LessTrans(a[1..], b[1..], c[1..]); }
  }

  // h is the stored height field, whatever the true height is.
  datatype Tree<V> = Nil | Node(key: Key, data: V, l: Tree, r: Tree, h: int)

  function HeightOf<V>(t: Tree<V>): int { if t.Nil? then -1 else t.h }

  // ---- what a tree stands for -------------------------------------------------

  function Elems<V>(t: Tree<V>): map<Key, V> {
    if t.Nil? then map[] else Elems(t.l) + Elems(t.r) + map[t.key := t.data]
  }

  // Larger keys are on the left.
  ghost predicate Ordered<V>(t: Tree<V>) {
    t.Node? ==>
      && Ordered(t.l) && Ordered(t.r)
      && (forall k :: k in Elems(t.l) ==> Less(t.key, k))
      && (forall k :: k in Elems(t.r) ==> Less(k, t.key))
  }

  lemma Apart<V>(t: Tree<V>)
    requires Ordered(t) && t.Node?
    ensures t.key !in Elems(t.l) && t.key !in Elems(t.r)
    ensures forall k :: k in Elems(t.l) ==> k !in Elems(t.r)
  {
    forall k | k in Elems(t.l) ensures k !in Elems(t.r) && k != t.key { LessTotal(k, t.key); }
    forall k | k in Elems(t.r) ensures k != t.key { LessTotal(k, t.key); }
  }

  // ---- exact heights and balance ------------------------------------------------

  predicate Avl<V>(t: Tree<V>) {
    t.Node? ==>
      && Avl(t.l) && Avl(t.r)
      && t.h == 1 + Max(HeightOf(t.l), HeightOf(t.r))
      && -1 <= HeightOf(t.l) - HeightOf(t.r) <= 1
  }

  function Max(a: int, b: int): int { if a > b then a else b }

  function Size<V>(t: Tree<V>): nat {
    if t.Nil? then 0 else 1 + Size(t.l) + Size(t.r)
  }

  function Exp2(k: nat): nat { if k == 0 then 1 else 2 * Exp2(k - 1) }

  lemma {:induction false} AvlTall<V>(t: Tree<V>)
    requires Avl(t)
    ensures HeightOf(t) >= -1 && (t.Node? ==> HeightOf(t) >= 0 && Size(t) >= Exp2(HeightOf(t) / 2))
  {
    if t.Node? {
      AvlTall(t.l);
      AvlTall(t.r);
      var h := t.h;
      if h >= 2 {
        assert t.l.Node? && t.r.Node?;
        assert HeightOf(t.l) >= h - 2 && HeightOf(t.r) >= h - 2;
        Exp2Mono((h - 2) / 2, HeightOf(t.l) / 2);
        Exp2Mono((h - 2) / 2, HeightOf(t.r) / 2);
        assert Exp2(h / 2) == 2 * Exp2(h / 2 - 1);
      }
    }
  }

  lemma {:induction false} Exp2Mono(a: nat, b: nat)
    requires a <= b
    ensures Exp2(a) <= Exp2(b)
    decreases b
  {
    if a < b { Exp2Mono(a, b - 1); }
  }

  // ---- insertion ------------------------------------------------------------------

  // A single rotation: the left child p comes up, t goes down; heights as balance() sets them.
  function RotateL<V>(t: Tree<V>): Tree<V>
    requires t.Node? && t.l.Node?
  {
    var p := t.l;
    var t' := t.(l := p.r, h := HeightOf(p.r) + 1);
    p.(r := t', h := t'.h + 1)
  }

  function RotateR<V>(t: Tree<V>): Tree<V>
    requires t.Node? && t.r.Node?
  {
    var p := t.r;
    var t' := t.(r := p.l, h := HeightOf(p.l) + 1);
    p.(l := t', h := t'.h + 1)
  }

  // A double rotation: the inner grandchild q comes up between t and its child.
  function RotateLR<V>(t: Tree<V>): Tree<V>
    requires t.Node? && t.l.Node? && t.l.r.Node?
  {
    var p, q := t.l, t.l.r;
    var t' := t.(l := q.r, h := HeightOf(t.r) + 1);
    var p' := p.(r := q.l, h := HeightOf(p.l) + 1);
    q.(l := p', r := t', h := p'.h + 1)
  }

  function RotateRL<V>(t: Tree<V>): Tree<V>
    requires t.Node? && t.r.Node? && t.r.l.Node?
  {
    var p, q := t.r, t.r.l;
    var t' := t.(r := q.l, h := HeightOf(t.l) + 1);
    var p' := p.(l := q.r, h := HeightOf(p.r) + 1);
    q.(r := p', l := t', h := p'.h + 1)
  }

  // The body of balance() for one node: adjust the height, rotate if need be, and say
  // whether the nodes above must be looked at.
  function Balance<V>(t: Tree<V>): (Tree<V>, bool)
    requires t.Node?
  {
    if t.l.Node? && t.l.h >= t.h then
      var t := t.(h := t.h + 1);
      if HeightOf(t.r) + 1 < t.l.h then
        if t.l.r.Nil? || (t.l.l.Node? && t.l.l.h >= t.l.r.h) then (RotateL(t), true) else (RotateLR(t), true)
      else (t, true)
    else if t.r.Node? && t.r.h >= t.h then
      var t := t.(h := t.h + 1);
      if HeightOf(t.l) + 1 < t.r.h then
        if t.r.l.Nil? || (t.r.r.Node? && t.r.r.h >= t.r.l.h) then (RotateR(t), true) else (RotateRL(t), true)
      else (t, true)
    else (t, false)
  }

  // One link of the path from the root: the node and the side taken.
  datatype Frame<V> = Frame(node: Tree<V>, left: bool)

  function Hang<V>(f: Frame<V>, c: Tree<V>): Tree<V>
    requires f.node.Node?
  {
    if f.left then f.node.(l := c) else f.node.(r := c)
  }

  // The subtree c, changed, put back under its parent; go says whether balancing goes on.
  function Climb<V>(f: Frame<V>, c: Tree<V>, go: bool): (Tree<V>, bool)
    requires f.node.Node?
  {
    if go then Balance(Hang(f, c)) else (Hang(f, c), false)
  }

  function Insert<V>(t: Tree<V>, key: Key, data: V): (Tree<V>, bool) {
    if t.Nil? then (Node(key, data, Nil, Nil, 0), true)
    else if key == t.key then (t.(data := data), false)
    else
      var left := Less(t.key, key);
      var (c, go) := Insert(if left then t.l else t.r, key, data);
      Climb(Frame(t, left), c, go)
  }

  // ---- rotations keep the map and the order -----------------------------------------

  // t and u are ordered alike and stand for the same map.
  ghost predicate Same<V>(t: Tree<V>, u: Tree<V>) {
    Ordered(t) && Ordered(u) && Elems(t) == Elems(u)
  }

  lemma MapRotate<V>(a: map<Key, V>, b: map<Key, V>, c: map<Key, V>, k: Key, d: V, pk: Key, pd: V)
    requires k != pk && k !in a && k !in b && k !in c && pk !in a && pk !in b && pk !in c
    requires a.Keys !! b.Keys && a.Keys !! c.Keys && b.Keys !! c.Keys
    ensures (a + b + map[pk := pd]) + c + map[k := d] == a + (b + c + map[k := d]) + map[pk := pd]
  {
  }

  // Every key of one map is below, or above, a key.
  ghost predicate AllAbove<V>(k: Key, m: map<Key, V>) { forall x :: x in m ==> Less(k, x) }
  ghost predicate AllBelow<V>(m: map<Key, V>, k: Key) { forall x :: x in m ==> Less(x, k) }

  lemma AboveNode<V>(k: Key, t: Tree<V>)
    requires t.Node?
    ensures AllAbove(k, Elems(t)) <==> AllAbove(k, Elems(t.l)) && AllAbove(k, Elems(t.r)) && Less(k, t.key)
  {
    assert t.key in Elems(t);
  }

  lemma BelowNode<V>(t: Tree<V>, k: Key)
    requires t.Node?
    ensures AllBelow(Elems(t), k) <==> AllBelow(Elems(t.l), k) && AllBelow(Elems(t.r), k) && Less(t.key, k)
  {
    assert t.key in Elems(t);
  }

  lemma AboveTrans<V>(j: Key, k: Key, m: map<Key, V>)
    requires Less(j, k) && AllAbove(k, m)
    ensures AllAbove(j, m)
  {
    forall x | x in m ensures Less(j, x) { LessTrans(j, k, x); }
  }

  lemma BelowTrans<V>(m: map<Key, V>, j: Key, k: Key)
    requires AllBelow(m, j) && Less(j, k)
    ensures AllBelow(m, k)
  {
    forall x | x in m ensures Less(x, k) { LessTrans(x, j, k); }
  }

  lemma Disjoint<V>(m: map<Key, V>, k: Key, n: map<Key, V>)
    requires AllBelow(m, k) && AllAbove(k, n)
    ensures m.Keys !! n.Keys && k !in m && k !in n
  {
    forall x | x in m ensures x !in n && x != k { LessTotal(x, k); }
    LessTotal(k, k);
  }

  lemma OrderedIs<V>(t: Tree<V>)
    requires t.Node?
    ensures Ordered(t) <==> Ordered(t.l) && Ordered(t.r) && AllAbove(t.key, Elems(t.l)) && AllBelow(Elems(t.r), t.key)
  {
  }

  // Two nodes, k below pk, with a above both, b between and c below both: the trees with
  // either on top are ordered and stand for the same map.
  lemma Rotated<V>(k: Key, d: V, pk: Key, pd: V, a: Tree<V>, b: Tree<V>, c: Tree<V>, h: int, ph: int, h': int, ph': int)
    requires Ordered(a) && Ordered(b) && Ordered(c) && Less(k, pk)
    requires AllAbove(pk, Elems(a)) && AllAbove(k, Elems(b)) && AllBelow(Elems(b), pk) && AllBelow(Elems(c), k)
    ensures Same(Node(k, d, Node(pk, pd, a, b, ph), c, h), Node(pk, pd, a, Node(k, d, b, c, h'), ph'))
  {
    var p, q := Node(pk, pd, a, b, ph), Node(k, d, b, c, h');
    var t, u := Node(k, d, p, c, h), Node(pk, pd, a, q, ph');
    AboveTrans(k, pk, Elems(a));
    BelowTrans(Elems(c), k, pk);
    AboveNode(k, p);
    BelowNode(q, pk);
    OrderedIs(p); OrderedIs(q); OrderedIs(t); OrderedIs(u);
    Disjoint(Elems(b), pk, Elems(a));
    Disjoint(Elems(c), k, Elems(a));
    Disjoint(Elems(c), k, Elems(b));
    LessTotal(k, pk);
    LessTotal(k, k);
    assert pk !in Elems(c);
    MapRotate(Elems(a), Elems(b), Elems(c), k, d, pk, pd);
  }

  // The left child pk comes up over k.
  lemma Raised<V>(k: Key, d: V, pk: Key, pd: V, a: Tree<V>, b: Tree<V>, c: Tree<V>, h: int, ph: int, h': int, ph': int)
    requires Ordered(Node(k, d, Node(pk, pd, a, b, ph), c, h))
    ensures Same(Node(k, d, Node(pk, pd, a, b, ph), c, h), Node(pk, pd, a, Node(k, d, b, c, h'), ph'))
  {
    var p := Node(pk, pd, a, b, ph);
    OrderedIs(Node(k, d, p, c, h));
    OrderedIs(p);
    AboveNode(k, p);
    Rotated(k, d, pk, pd, a, b, c, h, ph, h', ph');
  }

  // The right child k comes up over pk.
  lemma Lowered<V>(k: Key, d: V, pk: Key, pd: V, a: Tree<V>, b: Tree<V>, c: Tree<V>, h: int, ph: int, h': int, ph': int)
    requires Ordered(Node(pk, pd, a, Node(k, d, b, c, h'), ph'))
    ensures Same(Node(pk, pd, a, Node(k, d, b, c, h'), ph'), Node(k, d, Node(pk, pd, a, b, ph), c, h))
  {
    var q := Node(k, d, b, c, h');
    OrderedIs(Node(pk, pd, a, q, ph'));
    OrderedIs(q);
    BelowNode(q, pk);
    Rotated(k, d, pk, pd, a, b, c, h, ph, h', ph');
  }

  lemma SameChild<V>(t: Tree<V>, l: Tree<V>, r: Tree<V>, h: int)
    requires t.Node? && Ordered(t) && Same(t.l, l) && Same(t.r, r)
    ensures Same(t, t.(l := l, r := r, h := h))
  {
  }

  lemma RotateLSame<V>(t: Tree<V>)
    requires t.Node? && t.l.Node? && Ordered(t)
    ensures Same(t, RotateL(t))
  {
    var p, u := t.l, RotateL(t);
    assert t == Node(t.key, t.data, Node(p.key, p.data, p.l, p.r, p.h), t.r, t.h);
    Raised(t.key, t.data, p.key, p.data, p.l, p.r, t.r, t.h, p.h, u.r.h, u.h);
  }

  lemma RotateRSame<V>(t: Tree<V>)
    requires t.Node? && t.r.Node? && Ordered(t)
    ensures Same(t, RotateR(t))
  {
    var p, u := t.r, RotateR(t);
    assert t == Node(t.key, t.data, t.l, Node(p.key, p.data, p.l, p.r, p.h), t.h);
    Lowered(p.key, p.data, t.key, t.data, t.l, p.l, p.r, u.h, u.l.h, p.h, t.h);
  }

  lemma RotateLRSame<V>(t: Tree<V>)
    requires t.Node? && t.l.Node? && t.l.r.Node? && Ordered(t)
    ensures Same(t, RotateLR(t))
  {
    RotateRSame(t.l);
    var m := t.(l := RotateR(t.l));
    SameChild(t, RotateR(t.l), t.r, t.h);
    RotateLSame(m);
    var u, w := RotateL(m), RotateLR(t);
    SameChild(u.l, u.l.l, u.l.r, w.l.h);
    SameChild(u.r, u.r.l, u.r.r, w.r.h);
    SameChild(u, w.l, w.r, w.h);
  }

  lemma RotateRLSame<V>(t: Tree<V>)
    requires t.Node? && t.r.Node? && t.r.l.Node? && Ordered(t)
    ensures Same(t, RotateRL(t))
  {
    RotateLSame(t.r);
    var m := t.(r := RotateL(t.r));
    SameChild(t, t.l, RotateL(t.r), t.h);
    RotateRSame(m);
    var u, w := RotateR(m), RotateRL(t);
    SameChild(u.l, u.l.l, u.l.r, w.l.h);
    SameChild(u.r, u.r.l, u.r.r, w.r.h);
    SameChild(u, w.l, w.r, w.h);
  }

  lemma BalanceSame<V>(t: Tree<V>)
    requires t.Node? && Ordered(t)
    ensures Same(t, Balance(t).0) && Balance(t).0.Node?
  {
    if t.l.Node? && t.l.h >= t.h {
      TallLSame(t);
    } else if t.r.Node? && t.r.h >= t.h {
      TallRSame(t);
    }
  }

  lemma SameTrans<V>(t: Tree<V>, u: Tree<V>, w: Tree<V>)
    requires Same(t, u) && Same(u, w)
    ensures Same(t, w)
  {
  }

  // What becomes of a tree whose left, or right, subtree has grown as high as it was.
  lemma BalanceL<V>(t: Tree<V>)
    requires t.Node? && t.l.Node? && t.l.h >= t.h
    ensures var m := t.(h := t.h + 1);
            var u := Balance(t).0; u == m || u == RotateL(m) || (m.l.r.Node? && u == RotateLR(m))
  {
  }

  lemma BalanceR<V>(t: Tree<V>)
    requires t.Node? && !(t.l.Node? && t.l.h >= t.h) && t.r.Node? && t.r.h >= t.h
    ensures var m := t.(h := t.h + 1);
            var u := Balance(t).0; u == m || u == RotateR(m) || (m.r.l.Node? && u == RotateRL(m))
  {
  }

  lemma TallLSame<V>(t: Tree<V>)
    requires t.Node? && Ordered(t) && t.l.Node? && t.l.h >= t.h
    ensures Same(t, Balance(t).0) && Balance(t).0.Node?
  {
    var m, u := t.(h := t.h + 1), Balance(t).0;
    SameChild(t, t.l, t.r, t.h + 1);
    BalanceL(t);
    LeanLSame(m);
    if u != m { SameTrans(t, m, u); }
  }

  lemma TallRSame<V>(t: Tree<V>)
    requires t.Node? && Ordered(t) && !(t.l.Node? && t.l.h >= t.h) && t.r.Node? && t.r.h >= t.h
    ensures Same(t, Balance(t).0) && Balance(t).0.Node?
  {
    var m, u := t.(h := t.h + 1), Balance(t).0;
    SameChild(t, t.l, t.r, t.h + 1);
    BalanceR(t);
    LeanRSame(m);
    if u != m { SameTrans(t, m, u); }
  }

  lemma LeanLSame<V>(t: Tree<V>)
    requires t.Node? && t.l.Node? && Ordered(t)
    ensures Same(t, RotateL(t)) && (t.l.r.Node? ==> Same(t, RotateLR(t)))
  {
    RotateLSame(t);
    if t.l.r.Node? { RotateLRSame(t); }
  }

  lemma LeanRSame<V>(t: Tree<V>)
    requires t.Node? && t.r.Node? && Ordered(t)
    ensures Same(t, RotateR(t)) && (t.r.l.Node? ==> Same(t, RotateRL(t)))
  {
    RotateRSame(t);
    if t.r.l.Node? { RotateRLSame(t); }
  }

  // A child whose map gained or changed one entry, put back under its parent.
  lemma HangMap<V>(t: Tree<V>, c: Tree<V>, key: Key, data: V)
    requires t.Node? && Ordered(t) && Ordered(c) && key != t.key
    requires Elems(c) == Elems(if Less(t.key, key) then t.l else t.r)[key := data]
    ensures var u := Hang(Frame(t, Less(t.key, key)), c);
            Ordered(u) && Elems(u) == Elems(t)[key := data]
  {
    LessTotal(t.key, key);
    OrderedIs(t);
    var u := Hang(Frame(t, Less(t.key, key)), c);
    OrderedIs(u);
    if Less(t.key, key) {
      Disjoint(Elems(t.r), t.key, Elems(c));
      MapLeft(Elems(t.l), Elems(t.r), t.key, t.data, key, data);
    } else {
      MapRight(Elems(t.l), Elems(t.r), t.key, t.data, key, data);
    }
  }

  lemma MapLeft<V>(a: map<Key, V>, b: map<Key, V>, k: Key, d: V, key: Key, data: V)
    requires key != k && key !in b
    ensures a[key := data] + b + map[k := d] == (a + b + map[k := d])[key := data]
  {
  }

  lemma MapRight<V>(a: map<Key, V>, b: map<Key, V>, k: Key, d: V, key: Key, data: V)
    requires key != k
    ensures a + b[key := data] + map[k := d] == (a + b + map[k := d])[key := data]
  {
  }

  // Insertion, whatever the stored heights: the map gains or changes one entry.
  lemma {:induction false} InsertMap<V>(t: Tree<V>, key: Key, data: V)
    requires Ordered(t)
    ensures Ordered(Insert(t, key, data).0) && Elems(Insert(t, key, data).0) == Elems(t)[key := data]
  {
    if t.Node? && key != t.key {
      var left := Less(t.key, key);
      var c := if left then t.l else t.r;
      InsertMap(c, key, data);
      var (c', go) := Insert(c, key, data);
      HangMap(t, c', key, data);
      if go { BalanceSame(Hang(Frame(t, left), c')); }
    } else if t.Node? {
      Apart(t);
      assert Elems(t.(data := data)) == Elems(t)[key := data];
    }
  }

  // ---- insertion keeps exact heights and balance ---------------------------------------

  lemma {:induction false} InsertAvl<V>(t: Tree<V>, key: Key, data: V)
    requires Avl(t)
    ensures var (u, go) := Insert(t, key, data);
            Avl(u) && u.Node? && (HeightOf(u) == HeightOf(t) || (go && HeightOf(u) == HeightOf(t) + 1))
  {
    if t.Node? && key != t.key {
      var left := Less(t.key, key);
      var c := if left then t.l else t.r;
      InsertAvl(c, key, data);
      var (c', go) := Insert(c, key, data);
      if left { ClimbL(t, c', go); } else { ClimbR(t, c', go); }
    }
  }

  lemma AvlKids<V>(t: Tree<V>)
    requires Avl(t)
    ensures HeightOf(t) >= -1 && (t.Node? ==> HeightOf(t) >= 0 && HeightOf(t.l) >= -1 && HeightOf(t.r) >= -1)
    ensures HeightOf(t) > -1 ==> t.Node?
  {
    AvlTall(t);
    if t.Node? { AvlTall(t.l); AvlTall(t.r); }
  }

  // A left child at most one higher than before: one step of balance() repairs its parent.
  lemma ClimbL<V>(t: Tree<V>, c: Tree<V>, go: bool)
    requires t.Node? && Avl(t) && Avl(c) && c.Node?
    requires HeightOf(c) == HeightOf(t.l) || (go && HeightOf(c) == HeightOf(t.l) + 1)
    ensures var (u, go') := Climb(Frame(t, true), c, go);
            Avl(u) && u.Node? && (HeightOf(u) == HeightOf(t) || (go' && HeightOf(u) == HeightOf(t) + 1))
  {
    AvlKids(t);
    AvlKids(c);
    if c.r.Node? { AvlKids(c.r); }
  }

  lemma ClimbR<V>(t: Tree<V>, c: Tree<V>, go: bool)
    requires t.Node? && Avl(t) && Avl(c) && c.Node?
    requires HeightOf(c) == HeightOf(t.r) || (go && HeightOf(c) == HeightOf(t.r) + 1)
    ensures var (u, go') := Climb(Frame(t, false), c, go);
            Avl(u) && u.Node? && (HeightOf(u) == HeightOf(t) || (go' && HeightOf(u) == HeightOf(t) + 1))
  {
    AvlKids(t);
    AvlKids(c);
    if c.l.Node? { AvlKids(c.l); }
  }

  // ---- lookup -----------------------------------------------------------------------------

  lemma {:induction false} Found<V>(t: Tree<V>, key: Key)
    requires Ordered(t) && t.Node? && key != t.key
    ensures var c := if Less(t.key, key) then t.l else t.r;
            (key in Elems(t) <==> key in Elems(c)) && (key in Elems(c) ==> Elems(t)[key] == Elems(c)[key])
  {
    LessTotal(t.key, key);
    Apart(t);
  }

  // ---- deletion ---------------------------------------------------------------------------

  // The height adjustment of remove(): it never lowers a height and never rotates.
  function Bump<V>(t: Tree<V>): (Tree<V>, bool)
    requires t.Node?
  {
    if (t.l.Node? && t.l.h >= t.h) || (t.r.Node? && t.r.h >= t.h) then (t.(h := t.h + 1), true) else (t, false)
  }

  function Settle<V>(f: Frame<V>, c: Tree<V>, go: bool): (Tree<V>, bool)
    requires f.node.Node?
  {
    if go then Bump(Hang(f, c)) else (Hang(f, c), false)
  }

  datatype Taken<V> = Taken(rest: Tree<V>, key: Key, data: V, go: bool)

  // The rightmost node, that is the least key, taken out.
  function TakeRight<V>(t: Tree<V>): Taken<V>
    requires t.Node?
  {
    if t.r.Nil? then Taken(t.l, t.key, t.data, true)
    else
      var x := TakeRight(t.r);
      var (u, go) := Settle(Frame(t, false), x.rest, x.go);
      x.(rest := u, go := go)
  }

  // The node with the key taken out: its place goes to its only child, or its contents are
  // replaced by those of the next larger key.
  function Remove<V>(t: Tree<V>, key: Key): (Tree<V>, bool) {
    if t.Nil? then (t, false)
    else if key == t.key then RemoveHere(t)
    else
      var left := Less(t.key, key);
      var (c, go) := Remove(if left then t.l else t.r, key);
      Settle(Frame(t, left), c, go)
  }

  function RemoveHere<V>(t: Tree<V>): (Tree<V>, bool)
    requires t.Node?
  {
    if t.l.Node? && t.r.Node? then
      var x := TakeRight(t.l);
      (t.(l := x.rest, key := x.key, data := x.data), x.go)
    else (if t.l.Node? then t.l else t.r, true)
  }

  lemma SettleSame<V>(f: Frame<V>, c: Tree<V>, go: bool)
    requires f.node.Node?
    ensures Elems(Settle(f, c, go).0) == Elems(Hang(f, c))
    ensures Ordered(Settle(f, c, go).0) <==> Ordered(Hang(f, c))
  {
  }

  lemma {:induction false} TakeRightMap<V>(t: Tree<V>)
    requires t.Node? && Ordered(t)
    ensures var x := TakeRight(t);
            && Ordered(x.rest) && x.key in Elems(t) && Elems(t)[x.key] == x.data
            && Elems(x.rest) == Elems(t) - {x.key} && AllAbove(x.key, Elems(x.rest))
  {
    OrderedIs(t);
    if t.r.Nil? {
      Apart(t);
      assert Elems(t.l) == Elems(t) - {t.key};
    } else {
      TakeRightMap(t.r);
      var x := TakeRight(t.r);
      var u := Hang(Frame(t, false), x.rest);
      SettleSame(Frame(t, false), x.rest, x.go);
      OrderedIs(u);
      Apart(t);
      assert Less(x.key, t.key);
      LessTotal(x.key, t.key);
      AboveTrans(x.key, t.key, Elems(t.l));
      AboveNode(x.key, u);
      Dropped(Elems(t.l), Elems(t.r), t.key, t.data, x.key);
    }
  }

  lemma Dropped<V>(a: map<Key, V>, b: map<Key, V>, k: Key, d: V, x: Key)
    requires x != k && x !in a
    ensures a + (b - {x}) + map[k := d] == (a + b + map[k := d]) - {x}
  {
  }

  lemma DroppedLeft<V>(a: map<Key, V>, b: map<Key, V>, k: Key, d: V, x: Key)
    requires x != k && x !in b
    ensures (a - {x}) + b + map[k := d] == (a + b + map[k := d]) - {x}
  {
  }

  // Deletion, whatever the stored heights: the map loses the key.
  lemma {:induction false} RemoveMap<V>(t: Tree<V>, key: Key)
    requires Ordered(t)
    ensures Ordered(Remove(t, key).0) && Elems(Remove(t, key).0) == Elems(t) - {key}
  {
    if t.Nil? {
    } else if key == t.key {
      RemoveHereMap(t);
    } else {
      LessTotal(t.key, key);
      OrderedIs(t);
      Apart(t);
      var left := Less(t.key, key);
      var c := if left then t.l else t.r;
      RemoveMap(c, key);
      var (c', go) := Remove(c, key);
      var u := Hang(Frame(t, left), c');
      OrderedIs(u);
      SettleSame(Frame(t, left), c', go);
      if left { DroppedLeft(Elems(t.l), Elems(t.r), t.key, t.data, key); }
      else { Dropped(Elems(t.l), Elems(t.r), t.key, t.data, key); }
    }
  }

  lemma RemoveHereMap<V>(t: Tree<V>)
    requires t.Node? && Ordered(t)
    ensures Ordered(RemoveHere(t).0) && Elems(RemoveHere(t).0) == Elems(t) - {t.key}
  {
    OrderedIs(t);
    Apart(t);
    if t.l.Node? && t.r.Node? {
      RemoveBothMap(t);
    } else if t.l.Node? {
      OneSide(Elems(t.l), t.key, t.data);
      assert Elems(t) == Elems(t.l) + map[] + map[t.key := t.data];
    } else {
      OneSide(Elems(t.r), t.key, t.data);
      assert Elems(t) == map[] + Elems(t.r) + map[t.key := t.data];
    }
  }

  lemma OneSide<V>(a: map<Key, V>, k: Key, d: V)
    requires k !in a
    ensures a + map[] + map[k := d] - {k} == a && map[] + a + map[k := d] - {k} == a
  {
  }

  lemma RemoveBothMap<V>(t: Tree<V>)
    requires t.Node? && Ordered(t) && t.l.Node? && t.r.Node?
    ensures Ordered(RemoveHere(t).0) && Elems(RemoveHere(t).0) == Elems(t) - {t.key}
  {
    OrderedIs(t);
    Apart(t);
    TakeRightMap(t.l);
    var x := TakeRight(t.l);
    var u := RemoveHere(t).0;
    BelowTrans(Elems(t.r), t.key, x.key);
    OrderedIs(u);
    Swapped(Elems(t.l), Elems(t.r), t.key, t.data, x.key, x.data);
  }

  lemma Swapped<V>(a: map<Key, V>, b: map<Key, V>, k: Key, d: V, x: Key, e: V)
    requires x in a && a[x] == e && x != k && x !in b && k !in a && k !in b
    ensures (a - {x}) + b + map[x := e] == (a + b + map[k := d]) - {k}
  {
  }
}
