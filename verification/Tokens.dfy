// The symbols a text is parsed into, with their levels (src/parser.cc, src/parser.h).
module Tokens {

  // What the parser knows of characters: the level of each, or ILL; phones and the whole text have the
  // lowest and the highest level. With relaxed input, dflt stands for all characters without a level.
  datatype Tables = Tables(lev: seq<nat>, phone: nat, top: nat, relax: bool, dflt: nat)

  const ILL := 127

  const DOTS := 1
  const DECPOINT := 2
  const URLDOT := 3
  const RANGE := 4
  const MINUS := 5

  ghost predicate Proper(tb: Tables) {
    && |tb.lev| == 256 && tb.phone < tb.top < ILL && tb.lev[0] == tb.top && 0 < tb.dflt < 256
    && forall c :: 0 < c < 256 ==> tb.lev[c] == ILL || tb.phone <= tb.lev[c] < tb.top
  }

  predicate Bytes(text: seq<nat>) {
    forall i :: 0 <= i < |text| ==> 0 < text[i] < 256
  }

  predicate IsDigit(c: nat) { 48 <= c <= 57 }

  predicate IsLower(c: nat) { 97 <= c <= 122 }

  // A byte of the text, or the one that ends it.
  function CharAt(text: seq<nat>, i: nat): (c: nat) {
    if i < |text| then text[i] else 0
  }

  // The place after a row of dashes.
  function Dashes(text: seq<nat>, pos: nat): (end: nat)
    requires pos < |text|
    ensures pos < end <= |text|
    decreases |text| - pos
  {
    if CharAt(text, pos + 1) == 45 then Dashes(text, pos + 1) else pos + 1
  }

  // The symbol at a place of the text, and where the next one begins.
  function Lex(text: seq<nat>, pos: nat): (t: (nat, nat))
    requires pos < |text| && Bytes(text)
    ensures 0 < t.0 < 256 && pos < t.1 <= |text|
  {
    var c, next := text[pos], CharAt(text, pos + 1);
    if c == 46 then
      if IsDigit(next) then (DECPOINT, pos + 1)
      else if IsLower(next) then (URLDOT, pos + 1)
      else if next == 46 && CharAt(text, pos + 2) == 46 then (DOTS, pos + 3)
      else (c, pos + 1)
    else if c == 45 then
      if IsDigit(next) then (if pos > 0 && IsDigit(text[pos - 1]) then RANGE else MINUS, pos + 1)
      else (c, Dashes(text, pos))
    else (c, pos + 1)
  }

  // The symbols by the bytes of the text: the dot of a number, the one of an address, three dots; a dash between
  // digits, the one of a negative number, and any other row of dashes, which is one symbol.
  lemma SymbolAt(text: seq<nat>, pos: nat)
    requires pos < |text| && Bytes(text)
    ensures var c, next, (t, end) := text[pos], CharAt(text, pos + 1), Lex(text, pos);
            && (c != 45 && c != 46 ==> t == c && end == pos + 1)
            && (c == 46 && 48 <= next <= 57 ==> t == 2 && end == pos + 1)
            && (c == 46 && 97 <= next <= 122 ==> t == 3 && end == pos + 1)
            && (c == 46 && next == 46 ==> if CharAt(text, pos + 2) == 46 then t == 1 && end == pos + 3
                                          else t == 46 && end == pos + 1)
            && (c == 46 && !(48 <= next <= 57) && !(97 <= next <= 122) && next != 46 ==> t == 46 && end == pos + 1)
            && (c == 45 && 48 <= next <= 57 ==>
                  t == (if pos > 0 && 48 <= text[pos - 1] <= 57 then 4 else 5) && end == pos + 1)
            && (c == 45 && !(48 <= next <= 57) ==>
                  t == 45 && CharAt(text, end) != 45 && forall k :: pos <= k < end ==> text[k] == 45)
  {
    if text[pos] == 45 && !IsDigit(CharAt(text, pos + 1)) { DashesAre(text, pos); }
  }

  lemma {:induction false} DashesAre(text: seq<nat>, pos: nat)
    requires pos < |text| && text[pos] == 45
    ensures CharAt(text, Dashes(text, pos)) != 45 && forall k :: pos <= k < Dashes(text, pos) ==> text[k] == 45
    decreases |text| - pos
  {
    if CharAt(text, pos + 1) == 45 { DashesAre(text, pos + 1); }
  }

  // A symbol without a level gives way to the default one when input is relaxed.
  function Relaxed(tb: Tables, c: nat): (t: nat)
    requires c < |tb.lev|
  {
    if tb.lev[c] == ILL && tb.relax then tb.dflt else c
  }

  // A symbol and its level, or the failure to find one.
  datatype Tok = Tok(c: nat, level: nat) | Bad

  // The symbols from a place on, when the last one kept was of the given level. A symbol that would end
  // an empty unit is skipped; a text ends with a symbol of the highest level.
  function Symbols(tb: Tables, text: seq<nat>, pos: nat, last: nat): (l: seq<Tok>)
    requires Proper(tb) && Bytes(text) && pos <= |text|
    ensures l != []
    decreases |text| - pos
  {
    if pos == |text| then [Tok(0, tb.top)]
    else
      var (c, next) := Lex(text, pos);
      var t := Relaxed(tb, c);
      if tb.lev[t] == ILL then [Bad]
      else if tb.phone < tb.lev[t] <= last then Symbols(tb, text, next, last)
      else [Tok(t, tb.lev[t])] + Symbols(tb, text, next, tb.lev[t])
  }

  // No unit above the phones is empty: a symbol that ends one comes after a symbol of a lower level.
  predicate Follows(tb: Tables, last: nat, t: Tok) {
    t.Bad? || t.level == tb.phone || (last < t.level <= tb.top)
  }

  // Each symbol may follow the one before it.
  predicate FollowsAt(tb: Tables, l: seq<Tok>, k: nat)
    requires k + 1 < |l|
  {
    l[k].Tok? && Follows(tb, l[k].level, l[k + 1])
  }

  ghost predicate Chain(tb: Tables, l: seq<Tok>) {
    forall k :: 0 <= k < |l| - 1 ==> FollowsAt(tb, l, k)
  }

  // Symbols of proper levels, ended by one of the highest level or by a failure.
  ghost predicate Ends(tb: Tables, l: seq<Tok>) {
    && l != [] && (l[|l| - 1].Bad? || l[|l| - 1].level == tb.top)
    && forall k :: 0 <= k < |l| - 1 ==> l[k].Tok? && tb.phone <= l[k].level < tb.top
  }

  ghost predicate Normal(tb: Tables, l: seq<Tok>, last: nat) {
    Ends(tb, l) && Chain(tb, l) && Follows(tb, last, l[0]) && (l[|l| - 1].Tok? ==> l[|l| - 1].c == 0)
  }

  lemma NormalCons(tb: Tables, t: Tok, l: seq<Tok>, last: nat)
    requires t.Tok? && tb.phone <= t.level < tb.top && Follows(tb, last, t) && Normal(tb, l, t.level)
    ensures Normal(tb, [t] + l, last)
  {
    var m := [t] + l;
    forall k | 0 <= k < |m| - 1 ensures FollowsAt(tb, m, k) {
      if k > 0 {
        assert FollowsAt(tb, l, k - 1);
      }
    }
  }

  lemma {:induction false} SymbolsNormal(tb: Tables, text: seq<nat>, pos: nat, last: nat)
    requires Proper(tb) && Bytes(text) && pos <= |text| && last < tb.top
    ensures Normal(tb, Symbols(tb, text, pos, last), last)
    decreases |text| - pos
  {
    if pos < |text| {
      var (c, next) := Lex(text, pos);
      var t := Relaxed(tb, c);
      if tb.lev[t] != ILL {
        if tb.phone < tb.lev[t] <= last {
          SymbolsNormal(tb, text, next, last);
        } else {
          SymbolsNormal(tb, text, next, tb.lev[t]);
          NormalCons(tb, Tok(t, tb.lev[t]), Symbols(tb, text, next, tb.lev[t]), last);
        }
      }
    }
  }

  // Without dots and dashes, and without a symbol that would end an empty unit, every byte is a symbol.
  lemma {:induction false} NothingSkipped(tb: Tables, text: seq<nat>, pos: nat, last: nat)
    requires Proper(tb) && Bytes(text) && pos <= |text|
    requires forall k :: pos <= k < |text| ==> text[k] != 45 && text[k] != 46 && tb.lev[text[k]] != 127
    requires pos < |text| && tb.lev[text[pos]] != tb.phone ==> tb.lev[text[pos]] > last
    requires forall k :: pos < k < |text| && tb.lev[text[k]] != tb.phone ==> tb.lev[text[k]] > tb.lev[text[k - 1]]
    ensures var l := Symbols(tb, text, pos, last);
            && |l| == |text| - pos + 1 && l[|text| - pos] == Tok(0, tb.top)
            && forall k :: pos <= k < |text| ==> l[k - pos] == Tok(text[k], tb.lev[text[k]])
    decreases |text| - pos
  {
    if pos < |text| {
      SymbolAt(text, pos);
      var c := text[pos];
      NothingSkipped(tb, text, pos + 1, tb.lev[c]);
      var rest := Symbols(tb, text, pos + 1, tb.lev[c]);
      assert Lex(text, pos) == (c, pos + 1) && Relaxed(tb, c) == c;
      assert tb.lev[c] == tb.phone || tb.lev[c] > last;
      assert Symbols(tb, text, pos, last) == [Tok(c, tb.lev[c])] + rest;
      forall k | pos < k < |text| ensures ([Tok(c, tb.lev[c])] + rest)[k - pos] == Tok(text[k], tb.lev[text[k]]) {
        assert rest[k - (pos + 1)] == Tok(text[k], tb.lev[text[k]]);
      }
    }
  }

  // A character's level, or ILL.
  function Chrlevel(tb: Tables, c: nat): (l: nat)
    requires c < |tb.lev| && tb.dflt < |tb.lev|
  {
    if tb.lev[c] == ILL && tb.relax then tb.lev[tb.dflt] else tb.lev[c]
  }

  datatype Option<T> = None | Some(value: T)

  // Where the first character is that is a phone; none, if a character without a level comes before.
  function Start(tb: Tables, text: seq<nat>, pos: nat): (p: Option<nat>)
    requires Proper(tb) && Bytes(text) && pos <= |text|
    ensures p.Some? ==> pos <= p.value <= |text| && (p.value < |text| ==> Chrlevel(tb, text[p.value]) == tb.phone)
    ensures p.Some? ==> forall k :: pos <= k < p.value ==> tb.phone < Chrlevel(tb, text[k]) < tb.top
    decreases |text| - pos
  {
    if pos == |text| then Some(pos)
    else if Chrlevel(tb, text[pos]) == ILL then None
    else if Chrlevel(tb, text[pos]) > tb.phone then Start(tb, text, pos + 1)
    else Some(pos)
  }

  // ---- the parser ------------------------------------------------------------------------------

  class Parser {
    const tb: Tables
    const text: seq<nat>
    var current: nat
    var token: nat
    var level: nat

    ghost predicate Valid()
      reads this
    {
      && Proper(tb) && Bytes(text) && current <= |text| && tb.phone <= level <= tb.top
      && (level == tb.top ==> token == 0 && current == |text|)
    }

    // The symbols still to come, the one looked at first.
    ghost function Ahead(): (l: seq<Tok>)
      reads this
      requires Valid()
      ensures l != [] && l[0] == Tok(token, level)
    {
      if level == tb.top then [Tok(token, level)] else [Tok(token, level)] + Symbols(tb, text, current, level)
    }

    // The level of a character, where it has one.
    method Chrlev(c: nat) returns (good: bool, lev: nat)
      requires Proper(tb) && c < 256
      ensures good == (tb.lev[c] != ILL || (tb.relax && tb.lev[tb.dflt] != ILL))
      ensures good ==> lev == (if tb.lev[c] != ILL then tb.lev[c] else tb.lev[tb.dflt])
    {
      if tb.lev[c] == ILL {
        good, lev := tb.relax && tb.lev[tb.dflt] != ILL, tb.lev[tb.dflt];
      } else {
        good, lev := true, tb.lev[c];
      }
    }

    // The symbol at the current place; it is left current's last character.
    method Recognise() returns (c: nat)
      requires Proper(tb) && Bytes(text) && current <= |text|
      modifies `current
      ensures old(current) == |text| ==> c == 0 && current == |text|
      ensures old(current) < |text| ==> current < |text| && (c, current + 1) == Lex(text, old(current))
    {
      c := CharAt(text, current);
      if c == 46 {
        var next := CharAt(text, current + 1);
        if IsDigit(next) {
          c := DECPOINT;
        } else if IsLower(next) {
          c := URLDOT;
        } else if next == 46 && CharAt(text, current + 2) == 46 {
          current := current + 2;
          c := DOTS;
        }
      } else if c == 45 {
        if IsDigit(CharAt(text, current + 1)) {
          c := if current > 0 && IsDigit(text[current - 1]) then RANGE else MINUS;
        } else {
          while CharAt(text, current + 1) == 45
            invariant current < |text| && Dashes(text, current) == Dashes(text, old(current))
            decreases |text| - current
          {
            current := current + 1;
          }
        }
      }
    }

    // Looks at the next symbol that would not end an empty unit, after one of the level lastlev.
    method Scan(lastlev: nat) returns (good: bool)
      requires Proper(tb) && Bytes(text) && current <= |text|
      modifies this
      ensures good == !Symbols(tb, text, old(current), lastlev)[0].Bad?
      ensures good ==> Valid() && Ahead() == Symbols(tb, text, old(current), lastlev)
    {
      ghost var rest := Symbols(tb, text, current, lastlev);
      var more := true;
      good := true;
      while more
        invariant good && Proper(tb) && current <= |text|
        invariant more ==> Symbols(tb, text, current, lastlev) == rest
        invariant !more ==> Valid() && Ahead() == rest
        decreases more, |text| - current
      {
        token := Recognise();
        if tb.lev[token] == ILL && tb.relax {
          token := tb.dflt;
        }
        good, level := Chrlev(token);
        if !good {
          return;
        }
        if level == tb.top {
          return;
        }
        current := current + 1;
        more := level <= lastlev && level > tb.phone && level < tb.top;
      }
    }

    // Hands over the symbol looked at, and looks at the next one. At the end of the text it stays there.
    method Gettoken() returns (ret: nat, good: bool)
      requires Valid()
      modifies this
      ensures ret == old(token)
      ensures good == (old(level) == tb.top || !old(Ahead())[1].Bad?)
      ensures good ==> Valid() && Ahead() == if old(level) == tb.top then old(Ahead()) else old(Ahead())[1..]
    {
      ret := token;
      good := Scan(level);
    }

    // Skips what comes before the first phone, and looks at the first symbol.
    method Init() returns (good: bool)
      requires Proper(tb) && Bytes(text)
      modifies this
      ensures var p := Start(tb, text, 0);
              && good == (p.Some? && !Symbols(tb, text, p.value, tb.phone)[0].Bad?)
              && (good ==> Valid() && Ahead() == Symbols(tb, text, p.value, tb.phone))
    {
      current := 0;
      good, level := Chrlev(CharAt(text, current));
      while good && level > tb.phone && level < tb.top
        invariant current <= |text|
        invariant good == (current == |text| || Chrlevel(tb, text[current]) != ILL)
        invariant good ==> level == if current == |text| then tb.top else Chrlevel(tb, text[current])
        invariant Start(tb, text, current) == Start(tb, text, 0)
        decreases good, |text| - current
      {
        current := current + 1;
        good, level := Chrlev(CharAt(text, current));
      }
      if good {
        good := Scan(level);
      }
    }

    constructor (tb0: Tables, text0: seq<nat>)
      ensures tb == tb0 && text == text0
    {
      tb, text, current, token, level := tb0, text0, 0, 0, 0;
    }
  }
}
