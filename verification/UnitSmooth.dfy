// Smoothing a prosodic quantity of the units of one level, along the tree (src/unit.cc:967-991).
module UnitSmooth {
  import opened UnitTree
  import opened UnitWalk
  import opened UnitDump
  import opened Smooth

  // The quantities of a row of units.
  function Along(fit: map<Ref, int>, l: seq<Ref>): (v: seq<int>)
    requires forall i :: 0 <= i < |l| ==> l[i] in fit
    ensures |v| == |l| && forall i :: 0 <= i < |l| ==> v[i] == fit[l[i]]
  {
    seq(|l|, i requires 0 <= i < |l| => fit[l[i]])
  }

  lemma RowKnown(at: Links, kids: Kids, r: Ref, d: nat)
    requires Stands(at, kids, r, r, 0) && d <= at[r].depth
    ensures var l := Row(kids, r, at[r].depth - d);
            Distinct(l) && forall i :: 0 <= i < |l| ==> l[i] in at && l[i] != EMPTY
  {
    var l := Row(kids, r, at[r].depth - d);
    RowOnce(at, kids, r, d);
    forall i | 0 <= i < |l| ensures l[i] in at && l[i] != EMPTY {
      StandsAt(at, kids, r, d, i);
    }
  }

  // Where u is when the i-th unit of the row gets its new value.
  predicate Fore(row: seq<Ref>, reach: nat, i: nat, u: Ref) {
    i < |row| ==> u == row[Clamp(i + reach, |row|)]
  }

  // The queue is filled for the i-th unit. Mentioning Look(wrap) unfolds it.
  ghost predicate Filled(q: seq<int>, vals: seq<int>, len: nat, n: nat, i: nat, wrap: nat) {
    forall x: Ref {:trigger Look(x)} :: Look(x) && x == wrap ==>
      vals != [] && wrap < len <= |q| && Queued(q, vals, len, n, i, wrap)
  }

  predicate Known(row: seq<Ref>, was: map<Ref, int>, want: seq<int>) {
    Distinct(row) && |want| == |row| && forall k :: 0 <= k < |row| ==> row[k] in was
  }

  // The first i units of the row have their new values, and all others their old ones.
  ghost function Put(was: map<Ref, int>, row: seq<Ref>, want: seq<int>, i: nat): (fit: map<Ref, int>)
    requires i <= |row| == |want| && forall k :: 0 <= k < |row| ==> row[k] in was
    ensures fit.Keys == was.Keys
  {
    if i == 0 then was else Put(was, row, want, i - 1)[row[i - 1] := want[i - 1]]
  }

  lemma {:induction false} PutElse(was: map<Ref, int>, row: seq<Ref>, want: seq<int>, i: nat, w: Ref)
    requires Known(row, was, want) && i <= |row| && w in was && forall k :: 0 <= k < i ==> row[k] != w
    ensures Put(was, row, want, i)[w] == was[w]
  {
    if i > 0 {
      PutElse(was, row, want, i - 1, w);
    }
  }

  lemma {:induction false} PutAt(was: map<Ref, int>, row: seq<Ref>, want: seq<int>, i: nat, k: nat)
    requires Known(row, was, want) && k < i <= |row|
    ensures Put(was, row, want, i)[row[k]] == want[k]
  {
    if k < i - 1 {
      PutAt(was, row, want, i - 1, k);
    }
  }

  lemma PutAll(was: map<Ref, int>, row: seq<Ref>, want: seq<int>)
    requires Known(row, was, want)
    ensures var fit := Put(was, row, want, |row|);
            Along(fit, row) == want && forall w :: w in fit && w !in row ==> fit[w] == was[w]
  {
    var fit := Put(was, row, want, |row|);
    forall k | 0 <= k < |row| ensures fit[row[k]] == want[k] {
      PutAt(was, row, want, |row|, k);
    }
    forall w | w in fit && w !in row ensures fit[w] == was[w] {
      PutElse(was, row, want, |row|, w);
    }
  }

  // The unit after u, or u if it is the last of the row.
  method StepOrStay(at: Links, ghost kids: Kids, r: Ref, d: nat, u: Ref, ghost row: seq<Ref>, ghost reach: nat,
                    ghost i: nat)
    returns (y: Ref)
    requires Stands(at, kids, r, r, 0) && d <= at[r].depth && row == Row(kids, r, at[r].depth - d)
    requires i < |row| && Fore(row, reach, i, u)
    ensures Fore(row, reach, i + 1, y)
  {
    RowKnown(at, kids, r, d);
    y := Step(at, kids, r, d, u, Clamp(i + reach, |row|));
    if y == EMPTY {
      y := u;
    }
  }

  method StepBoth(at: Links, ghost kids: Kids, r: Ref, d: nat, v: Ref, u: Ref, ghost row: seq<Ref>, ghost reach: nat,
                  ghost i: nat)
    returns (u': Ref, v': Ref)
    requires Stands(at, kids, r, r, 0) && d <= at[r].depth && row == Row(kids, r, at[r].depth - d)
    requires i < |row| && v == Nth(row, i) && Fore(row, reach, i, u)
    ensures v' == Nth(row, i + 1) && Fore(row, reach, i + 1, u')
  {
    u' := StepOrStay(at, kids, r, d, u, row, reach, i);
    v' := Step(at, kids, r, d, v, i);
  }

  // One of the quantities of the units: frequency, intensity or time.
  class Contour {
    var fit: map<Ref, int>

    // The three loops that fill the queue for the first unit.
    method FillQueue(at: Links, ghost kids: Kids, r: Ref, d: nat, len: nat, n: nat, cq: array<int>,
                     ghost row: seq<Ref>)
      returns (u: Ref)
      requires Stands(at, kids, r, r, 0) && d <= at[r].depth && row == Row(kids, r, at[r].depth - d)
      requires n < len <= cq.Length && EMPTY in fit && forall i :: 0 <= i < |row| ==> row[i] in fit && row[i] != EMPTY
      modifies cq
      ensures row == [] ==> u == EMPTY
      ensures row != [] ==> u == row[Clamp(len - n, |row|)] && Filled(cq[..], Along(fit, row), len, n, 0, 0)
    {
      u := First(at, kids, r, d);
      ghost var vals := Along(fit, row);
      var j := 0;
      while j < n
        invariant j <= n && (row != [] ==> forall i :: 0 <= i < j ==> cq[i] == vals[0])
      {
        cq[j] := fit[u];
        j := j + 1;
      }
      ghost var k := 0;
      var next := Step(at, kids, r, d, u, k);
      while j < len && next != EMPTY
        invariant n <= j <= len && u == Nth(row, k) && next == Nth(row, k + 1)
        invariant row == [] ==> k == 0
        invariant row != [] ==> k == j - n < |row| && forall i :: 0 <= i < j ==> cq[i] == vals[Clamp(i - n, |row|)]
      {
        cq[j] := fit[u];
        j, u, k := j + 1, next, k + 1;
        next := Step(at, kids, r, d, u, k);
      }
      while j < len
        invariant n <= j <= len && u == Nth(row, k) && (row == [] ==> k == 0)
        invariant row != [] ==> k == Clamp(j - n, |row|) && (j < len ==> k == |row| - 1)
        invariant row != [] ==> k == Clamp(len - n, |row|)
        invariant row != [] ==> forall i :: 0 <= i < j ==> cq[i] == vals[Clamp(i - n, |row|)]
      {
        cq[j] := fit[u];
        j := j + 1;
      }
    }

    // One unit gets its new value, and the queue the next old one.
    method SmoothOne(v: Ref, u: Ref, recipe: seq<int>, cq: array<int>, wrap: nat, ghost n: nat, ghost row: seq<Ref>,
                     ghost was: map<Ref, int>, ghost want: seq<int>, ghost i: nat)
      returns (more: nat)
      requires n < |recipe| <= cq.Length && wrap < |recipe| && Known(row, was, want) && i < |row|
      requires fit == Put(was, row, want, i) && want == Smoothed(Along(was, row), recipe, n) && v == row[i]
      requires Fore(row, |recipe| - n, i, u) && Filled(cq[..], Along(was, row), |recipe|, n, i, wrap)
      modifies `fit, cq
      ensures fit == Put(was, row, want, i + 1) && more < |recipe|
      ensures i + 1 < |row| ==> Filled(cq[..], Along(was, row), |recipe|, n, i + 1, more)
    {
      assert Look(wrap);
      var avg := Average(cq, Along(was, row), recipe, n, i, wrap);
      fit := fit[v := Truncated(avg)];
      ghost var q := cq[..];
      QueueOn(row, was, fit, want, |recipe|, n, i, u, q, wrap);
      cq[wrap] := fit[u];
      assert cq[..] == q[wrap := fit[u]];
      more := if wrap + 1 == |recipe| then 0 else wrap + 1;
    }

    // What holds when v is the i-th unit of the row, and u the one ahead.
    ghost predicate Going(row: seq<Ref>, was: map<Ref, int>, want: seq<int>, len: nat, n: nat, i: nat, v: Ref, u: Ref,
                          cq: array<int>, wrap: nat)
      reads this, cq
    {
      && n < len <= cq.Length && wrap < len && v == Nth(row, i) && Known(row, was, want)
      && i <= |row| && fit == Put(was, row, want, i)
      && Fore(row, len - n, i, u) && (i < |row| ==> Filled(cq[..], Along(was, row), len, n, i, wrap))
    }

    method SmoothStep(at: Links, ghost kids: Kids, r: Ref, d: nat, recipe: seq<int>, ghost n: nat, cq: array<int>,
                      v: Ref, u: Ref, wrap: nat, ghost row: seq<Ref>, ghost was: map<Ref, int>, ghost want: seq<int>,
                      ghost i: nat)
      returns (v': Ref, u': Ref, more: nat)
      requires Stands(at, kids, r, r, 0) && d <= at[r].depth && row == Row(kids, r, at[r].depth - d)
      requires Going(row, was, want, |recipe|, n, i, v, u, cq, wrap) && i < |row|
               && want == Smoothed(Along(was, row), recipe, n)
      modifies `fit, cq
      ensures Going(row, was, want, |recipe|, n, i + 1, v', u', cq, more)
    {
      more := SmoothOne(v, u, recipe, cq, wrap, n, row, was, want, i);
      u', v' := StepBoth(at, kids, r, d, v, u, row, |recipe| - n, i);
    }

    // The loop, with the queue filled.
    method SmoothFrom(at: Links, ghost kids: Kids, r: Ref, d: nat, recipe: seq<int>, ghost n: nat, cq: array<int>,
                      ahead: Ref, ghost row: seq<Ref>, ghost was: map<Ref, int>, ghost want: seq<int>)
      requires Stands(at, kids, r, r, 0) && d <= at[r].depth && row == Row(kids, r, at[r].depth - d)
      requires Known(row, was, want) && EMPTY !in row && want == Smoothed(Along(was, row), recipe, n)
      requires Going(row, was, want, |recipe|, n, 0, Nth(row, 0), ahead, cq, 0)
      modifies `fit, cq
      ensures fit == Put(was, row, want, |row|)
    {
      var u := ahead;
      var v := First(at, kids, r, d);
      var wrap: nat := 0;
      ghost var i := 0;
      while v != EMPTY
        invariant Going(row, was, want, |recipe|, n, i, v, u, cq, wrap)
        decreases |row| - i
      {
        v, u, wrap := SmoothStep(at, kids, r, d, recipe, n, cq, v, u, wrap, row, was, want, i);
        i := i + 1;
      }
    }

    // unit::smooth: u and v go along the row, v to the unit that gets its new value, u ahead of it to the one
    // whose old value goes into the queue.
    method SmoothRow(at: Links, ghost kids: Kids, r: Ref, d: nat, recipe: seq<int>, n: nat, cq: array<int>)
      requires Stands(at, kids, r, r, 0) && d <= at[r].depth && n < |recipe| <= cq.Length
      requires EMPTY in fit && forall u :: u in at ==> u in fit
      modifies `fit, cq
      ensures var row := Row(kids, r, at[r].depth - d);
              && (forall i :: 0 <= i < |row| ==> row[i] in old(fit) && row[i] in fit)
              && Along(fit, row) == Smoothed(Along(old(fit), row), recipe, n)
              && fit.Keys == old(fit).Keys && forall u :: u in fit && u !in row ==> fit[u] == old(fit)[u]
    {
      RowKnown(at, kids, r, d);
      ghost var row, was := Row(kids, r, at[r].depth - d), fit;
      ghost var want := Smoothed(Along(was, row), recipe, n);
      var u := FillQueue(at, kids, r, d, |recipe|, n, cq, row);
      SmoothFrom(at, kids, r, d, recipe, n, cq, u, row, was, want);
      PutAll(was, row, want);
    }
  }

  // What the queue gets is the old value of the unit ahead.
  lemma QueueOn(row: seq<Ref>, was: map<Ref, int>, fit: map<Ref, int>, want: seq<int>, len: nat, n: nat, i: nat,
                u: Ref, q: seq<int>, wrap: nat)
    requires Known(row, was, want) && i < |row| && fit == Put(was, row, want, i + 1)
    requires n < len && wrap < len <= |q| && Fore(row, len - n, i, u) && Queued(q, Along(was, row), len, n, i, wrap)
    ensures u in fit
    ensures i + 1 < |row| ==>
              Queued(q[wrap := fit[u]], Along(was, row), len, n, i + 1, if wrap + 1 == len then 0 else wrap + 1)
  {
    var c := Clamp(i + len - n, |row|);
    if i + 1 < |row| {
      PutElse(was, row, want, i + 1, row[c]);
      QueuedNext(q, Along(was, row), len, n, i, wrap, fit[u]);
    }
  }
}
