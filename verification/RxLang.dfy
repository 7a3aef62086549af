// Laws of the pattern language: a run of postfix operators collapses to one operator.
module RxLang {
  import opened RxBytes
  import opened RxSyntax

  // The one operator a run of postfix operators is compiled to.
  ghost predicate Collapsed(R: Lang, zero: bool, many: bool, i: int, j: int) {
    (zero && i == j) || R(i, j) || (many && exists n: nat :: n > 0 && Pow(R, n, i, j))
  }

  lemma {:induction false} PowOne(R: Lang, i: int, j: int)
    ensures Pow(R, 1, i, j) <==> R(i, j)
  {
    if R(i, j) { assert Pow(R, 0, j, j); }
  }

  lemma {:induction false} PowAdd(R: Lang, m: nat, n: nat, i: int, k: int, j: int)
    requires Pow(R, m, i, k) && Pow(R, n, k, j)
    ensures Pow(R, m + n, i, j)
  {
    if m > 0 {
      var h :| R(i, h) && Pow(R, m - 1, h, k);
      PowAdd(R, m - 1, n, h, k, j);
    }
  }

  lemma {:induction false} PowMono(R: Lang, Q: Lang, n: nat, i: int, j: int)
    requires Pow(R, n, i, j) && forall x, y :: R(x, y) ==> Q(x, y)
    ensures Pow(Q, n, i, j)
  {
    if n > 0 {
      var h :| R(i, h) && Pow(R, n - 1, h, j);
      PowMono(R, Q, n - 1, h, j);
    }
  }

  // A chain of collapsed repetitions of R is a chain of R.
  lemma {:induction false} PowFlat(R: Lang, Q: Lang, zero: bool, many: bool, n: nat, i: int, j: int)
    requires Pow(Q, n, i, j) && forall x, y :: Q(x, y) ==> Collapsed(R, zero, many, x, y)
    ensures exists m: nat :: Pow(R, m, i, j) && (!zero ==> m >= n)
  {
    if n == 0 {
      assert Pow(R, 0, i, j);
    } else {
      var h :| Q(i, h) && Pow(Q, n - 1, h, j);
      PowFlat(R, Q, zero, many, n - 1, h, j);
      var m: nat :| Pow(R, m, h, j) && (!zero ==> m >= n - 1);
      if R(i, h) {
        PowOne(R, i, h);
        PowAdd(R, 1, m, i, h, j);
      } else if many && exists n: nat :: n > 0 && Pow(R, n, i, h) {
        var e: nat :| e > 0 && Pow(R, e, i, h);
        PowAdd(R, e, m, i, h, j);
      }
    }
  }

  // The compiler reads a run of operators as two flags; they say all there is to say.
  lemma {:induction false} NestIsCollapsed(R: Lang, ops: seq<Op>, i: int, j: int)
    ensures Nest(R, ops, i, j) <==> Collapsed(R, ZeroOk(ops), ManyOk(ops), i, j)
    decreases |ops|
  {
    if ops == [] {
    } else {
      var init, last := ops[..|ops| - 1], ops[|ops| - 1];
      var Q: Lang := (x, y) => Nest(R, init, x, y);
      var z, m := ZeroOk(init), ManyOk(init);
      forall x, y ensures Q(x, y) <==> Collapsed(R, z, m, x, y) { NestIsCollapsed(R, init, x, y); }
      assert ops == init + [last];
      assert forall k :: 0 <= k < |init| ==> ops[k] == init[k];
      assert ops[|init|] == last;
      assert ZeroOk(ops) <==> z || last != Plus by {
        if z { var k :| 0 <= k < |init| && init[k] != Plus; assert ops[k] != Plus; }
        if ZeroOk(ops) { var k :| 0 <= k < |ops| && ops[k] != Plus; assert k == |init| || init[k] != Plus; }
      }
      assert ManyOk(ops) <==> m || last != Opt by {
        if m { var k :| 0 <= k < |init| && init[k] != Opt; assert ops[k] != Opt; }
        if ManyOk(ops) { var k :| 0 <= k < |ops| && ops[k] != Opt; assert k == |init| || init[k] != Opt; }
      }
      if last != Opt {
        if Nest(R, ops, i, j) {
          var n: nat :| Pow(Q, n, i, j) && (last == Plus ==> n > 0);
          PowFlat(R, Q, z, m, n, i, j);
          var e: nat :| Pow(R, e, i, j) && (!z ==> e >= n);
          if e == 0 && !z && last == Star { assert i == j; }
        }
        if Collapsed(R, ZeroOk(ops), ManyOk(ops), i, j) {
          if R(i, j) {
            PowOne(Q, i, j);
          } else if exists n: nat :: n > 0 && Pow(R, n, i, j) {
            var n: nat :| n > 0 && Pow(R, n, i, j);
            PowMono(R, Q, n, i, j);
          } else {
            assert i == j;
            assert Pow(Q, 0, i, j);
            if z { PowOne(Q, i, j); }
          }
        }
      }
    }
  }
}
