// The tables of character levels and translations (src/parser.cc:181-227).
module CharLevels {
  import opened Tokens

  predicate Lists(perm: seq<seq<nat>>) {
    forall u, i :: 0 <= u < |perm| && 0 <= i < |perm[u]| ==> 0 < perm[u][i] < 256
  }

  // No character is listed for two levels.
  predicate Unambiguous(perm: seq<seq<nat>>) {
    forall u, v, c :: 0 <= u < v < |perm| && c in perm[u] ==> c !in perm[v]
  }

  // The first k lists are registered: a character has the level of the list it is in.
  ghost predicate Registered(perm: seq<seq<nat>>, phone: nat, k: nat, lev: seq<nat>)
    requires |lev| == 256 && k <= |perm|
  {
    forall c :: 0 < c < 256 ==>
      && (lev[c] == ILL || (phone <= lev[c] < phone + k && c in perm[lev[c] - phone]))
      && (forall u :: 0 <= u < k && c in perm[u] ==> lev[c] == phone + u)
  }

  // A listed character stands for itself; tabs and carriage returns, if not listed, for blanks and newlines.
  ghost predicate Translated(perm: seq<seq<nat>>, root: bool, k: nat, transl: seq<nat>)
    requires |transl| == 256 && k <= |perm|
  {
    forall c :: 0 <= c < 256 ==>
      transl[c] == if (exists u :: 0 <= u < k && c in perm[u]) || !root then c
                   else if c == 9 then 32 else if c == 13 then 10 else c
  }

  // Gives the characters of a list their level. It fails on one that already has another.
  method Regist(perm: seq<seq<nat>>, phone: nat, root: bool, k: nat, lev: array<nat>, transl: array<nat>)
    returns (done: bool)
    requires Lists(perm) && k < |perm| && phone + |perm| < ILL && lev.Length == 256 && transl.Length == 256
             && lev != transl
    requires Registered(perm, phone, k, lev[..]) && Translated(perm, root, k, transl[..])
    modifies lev, transl
    ensures done == forall u, c :: 0 <= u < k && c in perm[u] ==> c !in perm[k]
    ensures done ==> Registered(perm, phone, k + 1, lev[..]) && Translated(perm, root, k + 1, transl[..])
    ensures lev[0] == old(lev[0])
  {
    var list, i := perm[k], 0;
    while i < |list|
      invariant 0 <= i <= |list| && lev[0] == old(lev[0])
      invariant forall c :: 0 < c < 256 ==> lev[c] == if c in list[..i] then phone + k else old(lev[c])
      invariant forall c :: 0 <= c < 256 ==> transl[c] == if c in list[..i] then c else old(transl[c])
      invariant forall u, c :: 0 <= u < k && c in perm[u] ==> c !in list[..i]
    {
      var c := list[i];
      if lev[c] != ILL && lev[c] != phone + k {
        ghost var v := old(lev[..])[c] - phone;
        assert lev[c] == old(lev[..])[c] && 0 <= v < k && c in perm[v] && c in perm[k];
        return false;
      }
      if c !in list[..i] {
        NotBefore(perm, phone, k, old(lev[..]), c);
      }
      lev[c] := phone + k;
      transl[c] := c;
      i := i + 1;
    }
    done := true;
    assert list[..i] == list;
    RegistDone(perm, phone, k, old(lev[..]), lev[..]);
  }

  lemma NotBefore(perm: seq<seq<nat>>, phone: nat, k: nat, was: seq<nat>, c: nat)
    requires |was| == 256 && k <= |perm| && phone + |perm| < ILL && Registered(perm, phone, k, was)
    requires 0 < c < 256 && (was[c] == ILL || was[c] == phone + k)
    ensures forall u :: 0 <= u < k ==> c !in perm[u]
  {
  }

  lemma RegistDone(perm: seq<seq<nat>>, phone: nat, k: nat, was: seq<nat>, now: seq<nat>)
    requires |was| == 256 && |now| == 256 && k < |perm| && Registered(perm, phone, k, was)
    requires forall c :: 0 < c < 256 ==> now[c] == if c in perm[k] then phone + k else was[c]
    requires forall u, c :: 0 <= u < k && c in perm[u] ==> c !in perm[k]
    ensures Registered(perm, phone, k + 1, now)
  {
  }

  // Fills in the tables from the lists of characters of each level, from the phones' up.
  method Initables(perm: seq<seq<nat>>, phone: nat, root: bool)
    returns (done: bool, lev: array<nat>, transl: array<nat>)
    requires Lists(perm) && phone + |perm| < ILL
    ensures fresh(lev) && fresh(transl) && lev.Length == 256 && transl.Length == 256
    ensures done == Unambiguous(perm)
    ensures done ==> Registered(perm, phone, |perm|, lev[..]) && Translated(perm, root, |perm|, transl[..])
    ensures done ==> lev[0] == phone + |perm|
  {
    lev, transl := new nat[256], new nat[256];
    for c := 0 to 256
      invariant forall j :: 0 <= j < c ==> transl[j] == j
    {
      transl[c] := c;
    }
    for c := 0 to 256
      invariant forall j :: 0 <= j < c ==> lev[j] == ILL
      invariant forall j :: 0 <= j < 256 ==> transl[j] == j
    {
      lev[c] := ILL;
    }
    lev[0] := phone + |perm|;
    if root {
      transl[9], transl[13] := 32, 10;
    }
    assert Translated(perm, root, 0, transl[..]) by {
      forall c | 0 <= c < 256
        ensures transl[..][c] == if !root then c else if c == 9 then 32 else if c == 13 then 10 else c
      {
      }
    }
    var k := 0;
    done := true;
    while k < |perm| && done
      invariant 0 <= k <= |perm| && lev[0] == phone + |perm|
      invariant done ==> Registered(perm, phone, k, lev[..]) && Translated(perm, root, k, transl[..])
      invariant done ==> Unambiguous(perm[..k])
      invariant !done ==> !Unambiguous(perm)
    {
      done := Regist(perm, phone, root, k, lev, transl);
      if !done {
        var u, c :| 0 <= u < k && c in perm[u] && c in perm[k];
      }
      k := k + 1;
    }
    assert perm[..|perm|] == perm;
  }

  // Tables filled in are what the parser works with.
  lemma TablesProper(perm: seq<seq<nat>>, phone: nat, lev: seq<nat>, relax: bool, dflt: nat)
    requires |lev| == 256 && perm != [] && phone + |perm| < ILL && 0 < dflt < 256
    requires Registered(perm, phone, |perm|, lev) && lev[0] == phone + |perm|
    ensures Proper(Tables(lev, phone, phone + |perm|, relax, dflt))
  {
  }

  // ---- a parser for a text --------------------------------------------------------------------------

  // A text with every character translated.
  function Retold(transl: seq<nat>, text: seq<nat>): (t: seq<nat>)
    requires |transl| == 256 && forall i :: 0 <= i < |text| ==> text[i] < 256
    ensures |t| == |text| && forall i :: 0 <= i < |text| ==> t[i] == transl[text[i]]
  {
    seq(|text|, i requires 0 <= i < |text| => transl[text[i]])
  }

  lemma RetoldBytes(perm: seq<seq<nat>>, root: bool, transl: seq<nat>, text: seq<nat>)
    requires |transl| == 256 && Translated(perm, root, |perm|, transl) && Bytes(text)
    ensures Bytes(Retold(transl, text))
  {
  }

  // The constructor and init: the tables are filled in, the text is translated where it is, and the first
  // symbol is looked at. It fails on ambiguous lists, and where the first symbol cannot be found.
  method Open(perm: seq<seq<nat>>, phone: nat, root: bool, relax: bool, dflt: nat, source: seq<nat>)
    returns (good: bool, ps: Parser)
    requires Lists(perm) && perm != [] && phone + |perm| < ILL && 0 < dflt < 256 && Bytes(source)
    ensures fresh(ps) && ps.tb.phone == phone && ps.tb.top == phone + |perm| && |ps.tb.lev| == 256
    ensures good ==>
              && Unambiguous(perm)
              && Registered(perm, phone, |perm|, ps.tb.lev) && ps.Valid()
              && (exists transl ::
                    |transl| == 256 && Translated(perm, root, |perm|, transl) && ps.text == Retold(transl, source))
              && var p := Start(ps.tb, ps.text, 0);
                 p.Some? && ps.Ahead() == Symbols(ps.tb, ps.text, p.value, phone)
    ensures !good && Unambiguous(perm) ==>
              && Proper(ps.tb) && Bytes(ps.text)
              && var p := Start(ps.tb, ps.text, 0);
                 p.None? || Symbols(ps.tb, ps.text, p.value, phone)[0].Bad?
  {
    var lev, transl;
    good, lev, transl := Initables(perm, phone, root);
    var tb := Tables(lev[..], phone, phone + |perm|, relax, dflt);
    var text := source;
    if !good {
      ps := new Parser(tb, text);
      return;
    }
    var i := 0;
    while i < |text|
      invariant i <= |text| == |source| && text[i..] == source[i..]
      invariant forall k :: 0 <= k < i ==> text[k] == transl[source[k]]
    {
      assert text[i] == text[i..][0] == source[i];
      text := text[i := transl[text[i]]];
      i := i + 1;
    }
    assert text == Retold(transl[..], source);
    RetoldBytes(perm, root, transl[..], source);
    TablesProper(perm, phone, lev[..], relax, dflt);
    ps := new Parser(tb, text);
    good := ps.Init();
  }
}
