// regcomp and regexec: a pattern is compiled once, and its buffer is searched with again and again, while the
// matcher rewrites it (src/rx.c:5569-5631, 5647-5710).
module RxPattern {
  import opened RxBytes
  import opened RxSyntax
  import opened RxCode
  import opened RxReading
  import opened RxMatch
  import opened RxPops
  import opened RxFlow
  import opened RxMeaning
  import opened RxRun
  import opened RxTame
  import opened RxRewrite
  import opened RxSearch
  import opened RxCompile
  import opened RxUnique
  import opened RxSize

  // What the bytes of a pattern mean: the language of a reading of them.
  ghost predicate Means(pat: seq<Byte>, s: seq<Byte>, i: int, j: int) {
    exists alts :: ReadsAs(pat, alts) && MatchAlts(alts, s, i, j)
  }

  // It does not matter which reading.
  lemma OneMeaning(pat: seq<Byte>, alts: seq<Branch>, s: seq<Byte>, i: int, j: int)
    requires ReadsAs(pat, alts)
    ensures Means(pat, s, i, j) <==> MatchAlts(alts, s, i, j)
  {
    if Means(pat, s, i, j) {
      var other :| ReadsAs(pat, other) && MatchAlts(other, s, i, j);
      assert TextAlts(alts) + [] == TextAlts(other) + [];
      AltsSame(alts, other, [], []);
    }
  }

  // r is the length of the longest prefix of s[pos..] that the pattern means, or -1 if none is.
  ghost predicate LongestMeant(pat: seq<Byte>, s: seq<Byte>, pos: int, r: int) {
    if r == -1 then forall e :: !Means(pat, s, pos, e)
    else 0 <= r && Means(pat, s, pos, pos + r) && forall e :: Means(pat, s, pos, e) ==> e <= pos + r
  }

  lemma LongestIs(pat: seq<Byte>, alts: seq<Branch>, s: seq<Byte>, pos: int, r: int)
    requires ReadsAs(pat, alts) && LongestPrefix(alts, s, pos, r)
    ensures LongestMeant(pat, s, pos, r)
  {
    forall e ensures Means(pat, s, pos, e) <==> MatchAlts(alts, s, pos, e) {
      OneMeaning(pat, alts, s, pos, e);
    }
  }

  // Some part of s that begins at k is what the pattern means.
  ghost predicate Begins(pat: seq<Byte>, s: seq<Byte>, k: int) {
    exists e :: Means(pat, s, k, e)
  }

  // What the rewriting matcher finds on s at k is what the pattern means there.
  lemma HitMeant(pat: seq<Byte>, alts: seq<Branch>, s: seq<Byte>, k: int)
    requires ReadsAs(pat, alts) && Runnable(alts) && 0 <= k <= |s|
    ensures Hits(CodeAlts(alts), s, k) ==> Begins(pat, s, k)
    ensures Tame(CodeAlts(alts)) ==> (Hits(CodeAlts(alts), s, k) <==> Begins(pat, s, k))
  {
    HitsOccurs(alts, s, k);
    forall e ensures Means(pat, s, k, e) <==> MatchAlts(alts, s, k, e) {
      OneMeaning(pat, alts, s, k, e);
    }
    if Occurs(alts, s, k) {
      var e :| MatchAlts(alts, s, k, e);
      assert Means(pat, s, k, e);
    }
  }

  // What is found in a scan is at the first position of it where one does.
  lemma FirstMeant(pat: seq<Byte>, alts: seq<Branch>, s: seq<Byte>, start: int, scan: int, r: int)
    requires ReadsAs(pat, alts) && Runnable(alts) && Tame(CodeAlts(alts)) && 0 <= start <= |s|
    requires FirstHit(CodeAlts(alts), s, start, scan, r)
    ensures r == -1 ==>
              forall k :: 0 <= k <= |s| && (start <= k <= start + scan || start + scan <= k <= start) ==>
                            !Begins(pat, s, k)
    ensures r != -1 ==>
              && (start <= r <= start + scan || start + scan <= r <= start) && Begins(pat, s, r)
              && forall k :: (start <= k < r || r < k <= start) ==> !Begins(pat, s, k)
  {
    forall k | 0 <= k <= |s| ensures Hits(CodeAlts(alts), s, k) <==> Begins(pat, s, k) {
      HitMeant(pat, alts, s, k);
    }
  }

  // How much is found is meant.
  lemma MuchMeant(pat: seq<Byte>, alts: seq<Branch>, s: seq<Byte>, r: int, m: int)
    requires ReadsAs(pat, alts) && Runnable(alts) && 0 <= r <= |s| && 0 <= m && Yields(CodeAlts(alts), s, r, m)
    ensures Means(pat, s, r, r + m)
    ensures Tame(CodeAlts(alts)) ==> LongestMeant(pat, s, r, m)
  {
    YieldsPrefix(alts, s, r, m);
    OneMeaning(pat, alts, s, r, r + m);
    if Tame(CodeAlts(alts)) {
      YieldsLongest(alts, s, r, m);
      LongestIs(pat, alts, s, r, m);
    }
  }

  class Regex {
    const pat: seq<Byte>
    var status: Result
    var code: array<Byte>
    ghost var alts: seq<Branch>

    // The map, if there is one, and whether it has been made for this code.
    var fastmap: array?<bool>
    var accurate: bool
    var canBeNull: bool

    // The buffer holds the code of the pattern, with some jumps rewritten.
    ghost predicate Valid()
      reads this, code, fastmap
    {
      && (status.Ok? ==> ReadsAs(pat, alts) && Rewritten(CodeAlts(alts), code[..]))
      && (fastmap != null ==> fastmap.Length == 256)
      && (fastmap != null && accurate && Fit() ==> SoundMap(CodeAlts(alts), fastmap[..], canBeNull))
    }

    // The code can be run: see Runnable.
    ghost predicate Fit()
      reads this
    {
      status.Ok? && Runnable(alts)
    }

    // The rewriting loses nothing: see Tame.
    ghost predicate Exact()
      reads this
    {
      Tame(CodeAlts(alts))
    }

    // regcomp, which does not tell a \) too many from one too few, and asks for no map.
    constructor (pattern: seq<Byte>)
      ensures Valid() && fresh(code) && pat == pattern && fastmap == null
      ensures status.Err? ==>
                status.error != Erparen
                && (RefusedFor(pat, status.error) || (status.error == Eparen && RefusedFor(pat, Erparen)))
      ensures status.Ok? && |pattern| <= 511 ==> (Fit() <==> ProperAlts(alts))
      ensures 36 !in pattern && 91 !in pattern && 92 !in pattern && 94 !in pattern && |pattern| <= 511 ==>
                status.Ok? && Fit()
    {
      pat := pattern;
      var r: Outcome;
      ghost var a;
      r, a := RegexCompile(pattern);
      alts := a;
      status := if r.Compiled? then Ok else Err(if r.error == Erparen then Eparen else r.error);
      var c: seq<Byte> := if r.Compiled? then r.prog.code else [];
      code := new Byte[|c|](i requires 0 <= i < |c| => c[i]);
      fastmap, accurate, canBeNull := null, false, false;
      new;
      if r.Compiled? {
        assert code[..] == c;
        FreshCode(c);
        if |pattern| <= 511 { ShortFits(pattern, a); }
      } else if 36 !in pattern && 91 !in pattern && 92 !in pattern && 94 !in pattern && |pattern| <= 511 {
        NotRefused(pattern, r.error);
      }
    }

    // A map for the searches to come.
    method UseMap()
      requires Valid()
      modifies `fastmap, `accurate
      ensures Valid() && fastmap != null && fresh(fastmap)
    {
      fastmap, accurate := new bool[256], false;
    }

    // re_match: in an exact pattern the longest match, and otherwise some match, or none.
    method Match(s: seq<Byte>, pos: int) returns (r: int)
      requires Valid() && Fit()
      modifies code
      ensures Valid()
      ensures !(0 <= pos <= |s|) ==> r == -1
      ensures 0 <= pos <= |s| ==>
                Yields(CodeAlts(alts), s, pos, r) && (r == -1 || (0 <= r && Means(pat, s, pos, pos + r)))
      ensures 0 <= pos <= |s| && Exact() ==> LongestMeant(pat, s, pos, r)
    {
      r := MatchInPlace(alts, code, s, pos);
      if 0 <= pos <= |s| {
        OneMeaning(pat, alts, s, pos, pos + r);
        if Exact() {
          LongestIs(pat, alts, s, pos, r);
        }
      }
    }

    // The map is made once.
    method Prepare()
      requires Valid() && Fit()
      modifies fastmap, `accurate, `canBeNull
      ensures Valid() && (fastmap != null ==> accurate)
    {
      if fastmap != null && !accurate {
        ghost var E, P := WholeFlow(alts);
        WholeCode(alts, [], 0);
        canBeNull := CompileFastmap(code[..], fastmap, CodeAlts(alts), E, P);
        accurate := true;
      }
    }

    // re_search_2: the map is made if need be, and the buffer searched with.
    method Search2(s: seq<Byte>, start: int, scan: int) returns (r: int, m: int)
      requires Valid() && Fit()
      modifies code, fastmap, `accurate, `canBeNull
      ensures Valid()
      ensures !(0 <= start <= |s|) ==> r == -1
      ensures 0 <= start <= |s| ==> FirstHit(CodeAlts(alts), s, start, scan, r)
      ensures r != -1 ==> 0 <= r <= |s| && 0 <= m && Yields(CodeAlts(alts), s, r, m)
    {
      Prepare();
      var fm := if fastmap != null then fastmap[..] else seq(256, _ => true);
      r, m := SearchInPlace(alts, code, fastmap != null, fm, canBeNull, s, start, scan);
    }

    // re_search: the first position of the scan at which the matcher finds something, and how much it finds.
    // Whether there is a map makes no difference, nor what has been rewritten.
    method Search(s: seq<Byte>, start: int, scan: int) returns (r: int, m: int)
      requires Valid() && Fit()
      modifies code, fastmap, `accurate, `canBeNull
      ensures Valid()
      ensures !(0 <= start <= |s|) ==> r == -1
      ensures 0 <= start <= |s| ==> FirstHit(CodeAlts(alts), s, start, scan, r)
      ensures r != -1 ==> 0 <= r <= |s| && 0 <= m && Means(pat, s, r, r + m)
      ensures 0 <= start <= |s| && Exact() && r == -1 ==>
                forall k :: 0 <= k <= |s| && (start <= k <= start + scan || start + scan <= k <= start) ==>
                              !Begins(pat, s, k)
      ensures r != -1 && Exact() ==>
                && (start <= r <= start + scan || start + scan <= r <= start) && Begins(pat, s, r)
                && forall k :: (start <= k < r || r < k <= start) ==> !Begins(pat, s, k)
      ensures r != -1 && Exact() ==> LongestMeant(pat, s, r, m)
    {
      r, m := Search2(s, start, scan);
      if 0 <= start <= |s| && Exact() {
        FirstMeant(pat, alts, s, start, scan, r);
      }
      if r != -1 {
        MuchMeant(pat, alts, s, r, m);
      }
    }

    // regexec goes over the whole subject. In an exact pattern something is found exactly when the pattern means
    // some part of the subject, at the first place where it does, and the longest there.
    method Exec(s: seq<Byte>) returns (found: bool, so: int, eo: int)
      requires Valid() && Fit()
      modifies code, fastmap, `accurate, `canBeNull
      ensures Valid()
      ensures found ==> 0 <= so <= |s| && Means(pat, s, so, eo)
      ensures Exact() ==>
                && (found <==> exists k :: 0 <= k <= |s| && Begins(pat, s, k))
                && (found ==> (forall e :: Means(pat, s, so, e) ==> e <= eo)
                              && forall k :: 0 <= k < so ==> !Begins(pat, s, k))
    {
      var m;
      so, m := Search(s, 0, |s|);
      found, eo := so != -1, so + m;
    }
  }
}
