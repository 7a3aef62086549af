// The one-pass compiler, regex_compile: it writes code as it reads and shifts what it has
// already written to make room for jumps.
module RxCompile {
  import opened RxBytes
  import opened RxSyntax
  import opened RxCode
  import opened RxReading
  import opened RxMeaning
  import opened RxSteps
  import opened RxBuffer

  datatype Error = Eescape | Erparen | Eparen | Ebrack | Erange | Esize | Unsupported

  datatype Result = Ok | Err(error: Error)

  // ---- why a pattern is refused -------------------------------------------------

  // ^ as an operator, just before p.
  predicate AtBegline(pat: seq<Byte>, p: nat) {
    p >= 3 && p <= |pat| && pat[p - 2] in {LPAREN, BAR} && pat[p - 3] == BACKSLASH
  }

  // $ as an operator, just before p.
  predicate AtEndline(pat: seq<Byte>, p: nat) {
    ByteAt(pat, p) == BACKSLASH && ByteAt(pat, p + 1) in {RPAREN, BAR}
  }

  // Escapes that mean something outside the subset: intervals, back-references and the
  // GNU word and buffer operators.
  predicate OtherEscape(c: Byte) {
    c in {LBRACE, 119, 87, 60, 62, 98, 66, 96, 39} || 49 <= c <= 57
  }

  // A construct outside the subset begins at p: an anchor, such an escape, or a list
  // with a character class.
  predicate Foreign(pat: seq<Byte>, p: nat) {
    p < |pat| &&
    match pat[p]
    case 94 => p == 0 || AtBegline(pat, p + 1)
    case 36 => p + 1 == |pat| || AtEndline(pat, p + 1)
    case 92 => OtherEscape(ByteAt(pat, p + 1))
    case 91 => exists q :: p < q && q + 1 < |pat| && pat[q] == 91 && pat[q + 1] == 58
    case _ => false
  }

  // The bytes from p on begin a bracket list with these items.
  predicate ListAt(pat: seq<Byte>, p: nat, q: nat, neg: bool, items: seq<Item>) {
    p < q <= |pat| && pat[p..q] == [LBRACK] + (if neg then [CARET] else []) + TextItems(items)
  }

  // Why compilation stops with error e after reading x up to p.
  ghost predicate Explains(pat: seq<Byte>, p: nat, x: Ctx, e: Error) {
    match e
    case Eescape => p < |pat| && pat[|pat| - 1] == BACKSLASH && exists ops :: pat[p..|pat| - 1] == TextOps(ops)
    case Erparen => x.Top? && p + 2 <= |pat| && pat[p..p + 2] == [BACKSLASH, RPAREN]
    case Eparen => x.Inside? && p == |pat|
    case Ebrack => exists neg, items :: ListAt(pat, p, |pat|, neg, items)
    case Erange => exists q, neg, items :: ListAt(pat, p, q, neg, items) && EndlessRange(pat, p, q)
    case Esize => Slots(x) && |CodeOf(x)| + 40 > MAX_BUF_SIZE
    case Unsupported => Foreign(pat, p)
  }

  // A range after q whose second end is missing or comes before the first.
  predicate EndlessRange(pat: seq<Byte>, p: nat, q: nat) {
    exists h :: p < h && q <= h <= q + 1 && BadRange(pat, h)
  }

  predicate BadRange(pat: seq<Byte>, h: nat) {
    0 < h < |pat| && pat[h] == DASH && (h + 1 == |pat| || pat[h - 1] > pat[h + 1])
  }

  // The bytes up to p read as x, and then compilation stops with error e.
  ghost predicate Blame(pat: seq<Byte>, p: nat, x: Ctx, e: Error) {
    TextIs(pat, p, x) && PlainCtx(x) && Explains(pat, p, x, e)
  }

  // The buffer is full.
  lemma BlameFull(pat: seq<Byte>, p: nat, st: St, x: Ctx)
    requires Known(pat, p, st, x)
    ensures |st.code| + 40 > MAX_BUF_SIZE ==> Blame(pat, p, x, Esize)
  {
    assert Peek(0);
    assert Look(x);
  }

  // Mentioning Look(x) unfolds Known for x; elsewhere the verifier carries it as it is.
  predicate Look(x: Ctx) { true }

  ghost predicate Known(pat: seq<Byte>, p: nat, st: St, x: Ctx) {
    forall w: Ctx {:trigger Look(w)} :: w == x ==> Reads(pat, p, st, w)
  }

  class Compiler {
    const pat: seq<Byte>
    const buf: Buffer
    var p: nat
    var laststart: int
    var begalt: int
    var fixup: int
    var pending: int
    var regnum: nat
    var stack: seq<Elt>
    ghost var x: Ctx       // what has been read
    ghost var at: nat      // where the current token begins

    constructor (pattern: seq<Byte>)
      ensures pat == pattern && fresh(buf) && fresh(buf.mem) && Valid() && at == p == 0
    {
      pat, p := pattern, 0;
      buf := new Buffer();
      laststart, begalt, fixup, pending, regnum, stack := -1, 0, -1, -1, 0, [];
      x, at := Top([], [0, 0, 0], []), 0;
      new;
      NothingRead(pat, State());
    }

    function State(): St
      reads this, buf, buf.mem
      requires buf.used <= buf.mem.Length
    {
      St(buf.Code(), laststart, begalt, fixup, pending, regnum, stack)
    }

    // At the start of a token: the state is the one of the bytes read.
    ghost predicate Valid()
      reads this, buf, buf.mem
    {
      buf.Valid() && Known(pat, p, State(), x) && 2 * regnum <= p
    }

    // Inside a token: the state is the one of the bytes before it.
    ghost predicate Within()
      reads this, buf, buf.mem
    {
      buf.Valid() && Known(pat, at, State(), x) && 2 * regnum <= at <= p <= |pat|
    }

    ghost predicate Stopped(e: Error)
      reads this
    {
      Blame(pat, at, x, e)
    }

    // ---- characters ------------------------------------------------------------------

    // normal_char: a literal joins the exactn being built or begins a new one.
    method CompileChar(l: Lit) returns (r: Result)
      requires Within() && at < p && pat[at..p] == TextLit(l) && PlainLit(l, x.cur == [])
      modifies this, buf, buf.mem
      ensures buf.mem == old(buf.mem) || fresh(buf.mem)
      ensures p == old(p) && at == old(at)
      ensures r.Ok? ==> Valid()
      ensures r.Err? ==> Stopped(r.error)
    {
      PendingBound(pat, at, State(), x);
      if pending == -1 || pending + buf.mem[pending] as int + 1 != buf.used || buf.mem[pending] == 255
         || RepAhead(pat, p) {
        r := NewRun(l);
      } else {
        r := GrowRun(l);
      }
    }

    method NewRun(l: Lit) returns (r: Result)
      requires Within() && at < p && pat[at..p] == TextLit(l) && PlainLit(l, x.cur == [])
      modifies this, buf, buf.mem
      ensures buf.mem == old(buf.mem) || fresh(buf.mem)
      ensures p == old(p) && at == old(at)
      ensures r.Ok? ==> Valid()
      ensures r.Err? ==> Stopped(r.error)
    {
      ghost var st := State();
      ghost var c := Run([l]);
      RunOfOne(l);
      BlameFull(pat, at, st, x);
      ChunkReady(pat, at, p, st, x, c, |st.code| + 1);
      var ok := PushRun(l.c);
      if !ok { return Err(Esize); }
      laststart, pending := buf.used - 3, buf.used - 2;
      x := With(x, x.cur + [c]);
      assert State() == st.(code := st.code + CodeChunk(c), laststart := |st.code|, pending := |st.code| + 1);
      return Ok;
    }

    // An exactn with no character yet, the character, and its count.
    method PushRun(c: Byte) returns (ok: bool)
      requires buf.Valid()
      modifies buf, buf.mem
      ensures buf.Valid() && (buf.mem == old(buf.mem) || fresh(buf.mem))
      ensures ok ==> buf.Code() == old(buf.Code()) + [EXACTN, 1, c]
      ensures !ok ==> old(buf.used) + 3 > MAX_BUF_SIZE
    {
      ok := buf.Push([EXACTN, 0]);
      if ok {
        ok := buf.Push([c]);
        if ok { buf.SetByte(buf.used - 2, 1); }
      }
    }

    method GrowRun(l: Lit) returns (r: Result)
      requires Within() && at < p && pat[at..p] == TextLit(l) && PlainLit(l, x.cur == [])
      requires 0 <= pending < buf.used && pending + buf.Code()[pending] as int + 1 == buf.used
               && buf.Code()[pending] < 255
      requires !RepAhead(pat, p)
      modifies this, buf, buf.mem
      ensures buf.mem == old(buf.mem) || fresh(buf.mem)
      ensures p == old(p) && at == old(at)
      ensures r.Ok? ==> Valid()
      ensures r.Err? ==> Stopped(r.error)
    {
      ghost var st := State();
      BlameFull(pat, at, st, x);
      ghost var y := MoreReady(pat, at, p, st, x, l);
      var ok := PushMore(l.c, pending);
      if !ok { return Err(Esize); }
      x := y;
      assert State() == st.(code := Counted(st.code, st.pending, l.c));
      return Ok;
    }

    // One more character in the exactn that ends the buffer.
    method PushMore(c: Byte, count: nat) returns (ok: bool)
      requires buf.Valid() && count < buf.used && buf.Code()[count] < 255
      modifies buf, buf.mem
      ensures buf.Valid() && (buf.mem == old(buf.mem) || fresh(buf.mem))
      ensures ok ==> buf.Code() == Counted(old(buf.Code()), count, c)
      ensures !ok ==> old(buf.used) + 1 > MAX_BUF_SIZE
    {
      var n := buf.mem[count];
      ok := buf.Push([c]);
      if ok { buf.SetByte(count, n + 1); }
    }

    // '.'
    method CompileDot() returns (r: Result)
      requires Within() && p == at + 1 && pat[at] == DOT
      modifies this, buf, buf.mem
      ensures buf.mem == old(buf.mem) || fresh(buf.mem)
      ensures p == old(p) && at == old(at)
      ensures r.Ok? ==> Valid()
      ensures r.Err? ==> Stopped(r.error)
    {
      ghost var st := State();
      ghost var c := Rep(ADot, []);
      assert TextChunk(c) == [DOT] by { assert TextOps([]) == []; }
      assert pat[at..p] == [DOT];
      BlameFull(pat, at, st, x);
      ChunkReady(pat, at, p, st, x, c, st.pending);
      laststart := buf.used;
      var ok := buf.Push([ANYCHAR]);
      if !ok { return Err(Esize); }
      x := With(x, x.cur + [c]);
      assert State() == st.(code := st.code + CodeChunk(c), laststart := |st.code|, pending := st.pending);
      return Ok;
    }

    // A bracket list: opcode, map length and map, without the zero bytes at the map's end.
    method CompileList() returns (r: Result)
      requires Within() && p == at + 1 && pat[at] == LBRACK
      modifies this, buf, buf.mem
      ensures buf.mem == old(buf.mem) || fresh(buf.mem)
      ensures at == old(at) && at < p <= |pat|
      ensures r.Ok? ==> Valid()
      ensures r.Err? ==> Stopped(r.error)
    {
      ghost var st := State();
      if p == |pat| {
        BlameList(pat, at, st, x, p, false, []);
        return Err(Ebrack);
      }
      var ok := buf.Space(34);
      if !ok {
        BlameSpace(pat, at, st, x);
        return Err(Esize);
      }
      r := CompileItems();
    }

    // The items of the list, and its closing bracket.
    method CompileItems() returns (r: Result)
      requires Within() && p == at + 1 < |pat| && pat[at] == LBRACK
      modifies this, buf, buf.mem
      ensures buf.mem == old(buf.mem) || fresh(buf.mem)
      ensures at == old(at) && at < p <= |pat|
      ensures r.Ok? ==> Valid()
      ensures r.Err? ==> Stopped(r.error)
    {
      ghost var st := State();
      var neg := pat[p] == CARET;
      var from := if neg then p + 1 else p;
      var q, m;
      ghost var items;
      r, q, m, items := ReadList(pat, from);
      p := q;
      if r.Err? {
        BlameRead(pat, at, st, x, from, q, neg, items, r.error);
        return;
      }
      r := FinishList(neg, m, items, from);
    }

    // The opcode, the length of the map and the map, trimmed.
    method FinishList(neg: bool, m: seq<Byte>, ghost items: seq<Item>, ghost from: nat) returns (r: Result)
      requires Within() && at + 1 < p && pat[at] == LBRACK && from == (if neg then at + 2 else at + 1) && from < p
      requires neg == (pat[at + 1] == CARET) && pat[p - 1] == RBRACK && pat[from..p - 1] == TextItems(items)
               && PlainItems(items)
      requires m == BitMap(items)
      modifies this, buf, buf.mem
      ensures buf.mem == old(buf.mem) || fresh(buf.mem)
      ensures p == old(p) && at == old(at)
      ensures r.Ok? ==> Valid()
      ensures r.Err? ==> Stopped(r.error)
    {
      ghost var st := State();
      BlameFull(pat, at, st, x);
      ghost var c := SetReady(pat, at, p, st, x, from, neg, items);
      var t := Trim(m);
      laststart := buf.used;
      var ok := buf.Push([if neg then CHARSET_NOT else CHARSET, |t|] + t);
      if !ok { return Err(Esize); }
      x := With(x, x.cur + [c]);
      assert State() == st.(code := st.code + CodeChunk(c), laststart := |st.code|, pending := st.pending);
      return Ok;
    }

    // ---- repetition -------------------------------------------------------------------

    method CompileOps(first: Op) returns (r: Result)
      requires Within() && at < p && pat[at..p] == TextOp(first) && x.cur != []
      modifies this, buf, buf.mem
      ensures buf.mem == old(buf.mem) || fresh(buf.mem)
      ensures at == old(at) && at < p <= |pat|
      ensures r.Ok? ==> Valid()
      ensures r.Err? ==> Stopped(r.error)
    {
      ghost var ops;
      var zero, many, q;
      r, q, zero, many, ops := ReadOps(pat, at, p, first);
      if r.Err? {
        BlameEscape(pat, at, State(), x, ops);
        p := q;
        return;
      }
      p := q;
      r := ApplyOps(zero, many, ops);
    }

    // The code of the last chunk becomes the code of its repetition.
    method ApplyOps(zero: bool, many: bool, ghost ops: seq<Op>) returns (r: Result)
      requires Within() && at < p && x.cur != [] && ops != [] && pat[at..p] == TextOps(ops) && !OpAt(pat, p)
      requires zero == ZeroOk(ops) && many == ManyOk(ops)
      modifies this, buf, buf.mem
      ensures buf.mem == old(buf.mem) || fresh(buf.mem)
      ensures p == old(p) && at == old(at)
      ensures r.Ok? ==> Valid()
      ensures r.Err? ==> Stopped(r.error)
    {
      ghost var st := State();
      BlameFull(pat, at, st, x);
      ghost var y := OpsReady(pat, at, p, st, x, ops);
      var ok := EmitRep(buf, laststart, zero, many);
      if !ok { return Err(Esize); }
      pending := -1;
      x := y;
      assert State() == st.(code := st.code[..st.laststart]
                            + CodeRep(st.code[st.laststart..], ZeroOk(ops), ManyOk(ops)), pending := -1);
      return Ok;
    }

    // ---- groups and alternatives ----------------------------------------------------------

    // \(
    method CompileOpen() returns (r: Result)
      requires Within() && p == at + 2 && pat[at..p] == [BACKSLASH, LPAREN]
      modifies this, buf, buf.mem
      ensures buf.mem == old(buf.mem) || fresh(buf.mem)
      ensures p == old(p) && at == old(at)
      ensures r.Ok? ==> Valid()
      ensures r.Err? ==> Stopped(r.error)
    {
      ghost var st := State();
      BlameFull(pat, at, st, x);
      OpenReady(pat, at, st, x);
      var elt := Elt(begalt, fixup + 1, if regnum + 1 <= 255 then buf.used + 2 else 0, buf.used, regnum + 1);
      var ok := PushOpen(buf, regnum + 1);
      if !ok { return Err(Esize); }
      regnum, stack := regnum + 1, stack + [elt];
      fixup, laststart, begalt, pending := -1, -1, buf.used, -1;
      x := Inside(x, st.regnum + 1, [], [0, 0, 0], []);
      assert State() == Opened(st);
      return Ok;
    }

    // \|
    method CompileAlt() returns (r: Result)
      requires Within() && p == at + 2 && pat[at..p] == [BACKSLASH, BAR]
      modifies this, buf, buf.mem
      ensures buf.mem == old(buf.mem) || fresh(buf.mem)
      ensures p == old(p) && at == old(at)
      ensures r.Ok? ==> Valid()
      ensures r.Err? ==> Stopped(r.error)
    {
      ghost var st := State();
      AltBounds(pat, at, st, x);
      var ok := EmitAlt(buf, begalt, fixup);
      if !ok { return Err(Esize); }
      ghost var code := buf.Code();
      ghost var slot := code[|code| - 3..];
      AltReady(pat, at, st, x, code, slot);
      pending, laststart, begalt, fixup := -1, -1, buf.used, buf.used - 3;
      x := Following(x, slot);
      assert State() == St(code, -1, |code|, |code| - 3, -1, st.regnum, st.stack);
      return Ok;
    }

    // \)
    method CompileClose() returns (r: Result)
      requires Within() && p == at + 2 && pat[at..p] == [BACKSLASH, RPAREN]
      modifies this, buf, buf.mem
      ensures buf.mem == old(buf.mem) || fresh(buf.mem)
      ensures p == old(p) && at == old(at)
      ensures r.Ok? ==> Valid()
      ensures r.Err? ==> Stopped(r.error)
    {
      ghost var st := State();
      if stack == [] {
        BlameClose(pat, at, st, x);
        return Err(Erparen);
      }
      BlameFull(pat, at, st, x);
      CloseReady(pat, at, st, x);
      var e := stack[|stack| - 1];
      var ok := EmitClose(buf, fixup, e, regnum);
      if !ok { return Err(Esize); }
      stack := stack[..|stack| - 1];
      begalt, fixup, laststart, pending := e.begalt, e.fixup as int - 1, e.laststart, -1;
      x := With(x.outer, x.outer.cur + [GroupOf(x, regnum)]);
      assert State() == ClosedSt(st);
      return Ok;
    }

    // One token.
    method CompileToken() returns (r: Result)
      requires Valid() && at == p < |pat|
      modifies this, buf, buf.mem
      ensures buf.mem == old(buf.mem) || fresh(buf.mem)
      ensures at == old(at) && old(p) < p <= |pat|
      ensures r.Ok? ==> Valid()
      ensures r.Err? ==> Stopped(r.error)
    {
      CurNone(pat, at, State(), x);
      var c := pat[p];
      p := p + 1;
      OneByte(pat, at);
      if (c == CARET && (p == 1 || AtBegline(pat, p))) || (c == DOLLAR && (p == |pat| || AtEndline(pat, p))) {
        BlameForeign(pat, at, State(), x);
        r := Err(Unsupported);
      } else if c == STAR {
        if laststart == -1 { r := CompileChar(Lit(c, false)); } else { r := CompileOps(Star); }
      } else if c == DOT {
        r := CompileDot();
      } else if c == LBRACK {
        r := CompileList();
      } else if c == BACKSLASH {
        if p == |pat| {
          BlameEscape(pat, at, State(), x, []);
          return Err(Eescape);
        }
        r := CompileEscape();
      } else {
        r := CompileChar(Lit(c, false));
      }
    }

    // The byte after a backslash.
    method CompileEscape() returns (r: Result)
      requires Within() && p == at + 1 < |pat| && pat[at] == BACKSLASH
      modifies this, buf, buf.mem
      ensures buf.mem == old(buf.mem) || fresh(buf.mem)
      ensures at == old(at) && at < p <= |pat|
      ensures r.Ok? ==> Valid()
      ensures r.Err? ==> Stopped(r.error)
    {
      CurNone(pat, at, State(), x);
      var c := pat[p];
      assert pat[at..at + 2] == [pat[at], pat[at + 1]];
      p := p + 1;
      if c == LPAREN {
        r := CompileOpen();
      } else if c == RPAREN {
        r := CompileClose();
      } else if c == BAR {
        r := CompileAlt();
      } else if OtherEscape(c) {
        BlameForeign(pat, at, State(), x);
        r := Err(Unsupported);
      } else if (c == PLUS || c == QM) && laststart != -1 {
        r := CompileOps(if c == PLUS then Plus else Opt);
      } else {
        r := CompileChar(Lit(c, true));
      }
    }

    // The end of the pattern: no group may be open; the last jump past the alternatives is
    // filled in.
    method Finish() returns (r: Result)
      requires Valid() && at == p == |pat|
      modifies this, buf, buf.mem
      ensures buf.mem == old(buf.mem) || fresh(buf.mem)
      ensures p == old(p) && at == old(at) && x == old(x) && regnum == old(regnum)
      ensures r.Ok? ==> x.Top? && TextIs(pat, |pat|, x) && ShapeOk(regnum, x)
                        && buf.Valid() && buf.Code() == CodeAlts(x.alts + [Branch(x.cur)])
      ensures r.Err? ==> Stopped(r.error)
    {
      ghost var st := State();
      FinishReady(pat, st, x);
      if fixup != -1 {
        buf.FillJump(JUMP_PAST_ALT, fixup, buf.used);
      }
      if stack != [] { return Err(Eparen); }
      EndedIs(st.code, st.fixup, CodeAlts(x.alts + [Branch(x.cur)]));
      return Ok;
    }
  }

  lemma OneByte(pat: seq<Byte>, at: nat)
    requires at < |pat|
    ensures pat[at..at + 1] == [pat[at]]
  {
  }

  // A literal is followed by a repetition operator (or by something treated like one).
  predicate RepAhead(pat: seq<Byte>, p: nat) {
    OpAt(pat, p) || ByteAt(pat, p) == CARET || (ByteAt(pat, p) == BACKSLASH && ByteAt(pat, p + 1) == LBRACE)
  }

  // The start_memory of group n, if its number fits a byte.
  method PushOpen(buf: Buffer, n: nat) returns (ok: bool)
    requires buf.Valid()
    modifies buf, buf.mem
    ensures buf.Valid() && (buf.mem == old(buf.mem) || fresh(buf.mem))
    ensures ok ==> buf.Code() == old(buf.Code()) + Memory(START_MEMORY, n, 0)
    ensures !ok ==> old(buf.used) + 3 > MAX_BUF_SIZE
  {
    ok := true;
    if n <= 255 { ok := buf.Push([START_MEMORY, n, 0]); }
  }

  // The state after \(
  function Opened(st: St): St
    requires st.begalt >= 0 && st.fixup >= -1
  {
    var code := st.code + Memory(START_MEMORY, st.regnum + 1, 0);
    var elt := Elt(st.begalt, st.fixup + 1, if st.regnum + 1 <= 255 then |st.code| + 2 else 0, |st.code|,
                   st.regnum + 1);
    St(code, -1, |code|, -1, -1, st.regnum + 1, st.stack + [elt])
  }

  lemma OpenReady(pat: seq<Byte>, p: nat, st: St, x: Ctx)
    requires Known(pat, p, st, x) && p + 2 <= |pat| && pat[p..p + 2] == [BACKSLASH, LPAREN]
    ensures st.begalt >= 0 && st.fixup >= -1
    ensures Known(pat, p + 2, Opened(st), Inside(x, st.regnum + 1, [], [0, 0, 0], []))
  {
    assert Look(x);
    FixupBound(st, x);
    OpenGroup(pat, p, st, x, Elt(st.begalt, st.fixup + 1, if st.regnum + 1 <= 255 then |st.code| + 2 else 0, |st.code|,
                                 st.regnum + 1));
  }

  lemma OpsReady(pat: seq<Byte>, p: nat, q: nat, st: St, x: Ctx, ops: seq<Op>) returns (y: Ctx)
    requires Known(pat, p, st, x) && p < q <= |pat| && x.cur != [] && ops != [] && pat[p..q] == TextOps(ops)
             && !OpAt(pat, q)
    ensures 0 <= st.laststart <= |st.code| && (ZeroOk(ops) || ManyOk(ops))
    ensures Known(pat, q,
                  st.(code := st.code[..st.laststart] + CodeRep(st.code[st.laststart..], ZeroOk(ops), ManyOk(ops)),
                      pending := -1), y)
  {
    assert Look(x);
    OpBegins(pat, p, q, ops);
    AddOps(pat, p, q, st, x, ops);
    OpsCount(ops);
    y := With(x, x.cur[..|x.cur| - 1] + [Rep(Operand(x.cur[|x.cur| - 1]), ops)]);
  }

  lemma CloseReady(pat: seq<Byte>, p: nat, st: St, x: Ctx)
    requires Known(pat, p, st, x) && st.stack != [] && p + 2 <= |pat| && pat[p..p + 2] == [BACKSLASH, RPAREN]
    ensures x.Inside? && x.reg <= st.regnum
    ensures var e := st.stack[|st.stack| - 1];
            && (st.fixup == -1 || 0 <= st.fixup <= |st.code| - 3) && e.regnum <= st.regnum
            && (e.regnum <= 255 ==> e.inner < |st.code| && (st.fixup == -1 || e.inner < st.fixup))
            && Known(pat, p + 2, ClosedSt(st), With(x.outer, x.outer.cur + [GroupOf(x, st.regnum)]))
  {
    var e := CloseRoom(pat, p, st, x);
    CloseKnown(pat, p, st, x, e);
  }

  lemma CloseRoom(pat: seq<Byte>, p: nat, st: St, x: Ctx) returns (e: Elt)
    requires Known(pat, p, st, x) && st.stack != [] && p + 2 <= |pat| && pat[p..p + 2] == [BACKSLASH, RPAREN]
    ensures Reads(pat, p, st, x) && x.Inside? && x.reg <= st.regnum && e == st.stack[|st.stack| - 1]
    ensures (st.fixup == -1 || 0 <= st.fixup <= |st.code| - 3) && e.regnum == x.reg
    ensures e.laststart == |CodeOf(x.outer)| && (x.reg <= 255 ==> e.inner == e.laststart + 2)
    ensures e.regnum <= 255 ==> e.inner < |st.code| && (st.fixup == -1 || e.inner < st.fixup)
  {
    assert Look(x);
    e := st.stack[|st.stack| - 1];
    InsideOf(st, x);
    CloseGroup(pat, p, st, x);
    GroupRoom(st, x, e);
  }

  lemma CloseKnown(pat: seq<Byte>, p: nat, st: St, x: Ctx, e: Elt)
    requires Reads(pat, p, st, x) && st.stack != [] && p + 2 <= |pat| && pat[p..p + 2] == [BACKSLASH, RPAREN]
    requires x.Inside? && x.reg <= st.regnum && e == st.stack[|st.stack| - 1] && e.regnum == x.reg
    requires (st.fixup == -1 || 0 <= st.fixup <= |st.code| - 3)
    requires e.laststart == |CodeOf(x.outer)| && (x.reg <= 255 ==> e.inner == e.laststart + 2)
    requires e.regnum <= 255 ==> e.inner < |st.code| && (st.fixup == -1 || e.inner < st.fixup)
    ensures Known(pat, p + 2, ClosedSt(st), With(x.outer, x.outer.cur + [GroupOf(x, st.regnum)]))
  {
    CloseGroup(pat, p, st, x);
    GroupBytes(st, x, e);
    KnownMade(pat, p + 2, ClosedSt(st), With(x.outer, x.outer.cur + [GroupOf(x, st.regnum)]));
  }

  lemma KnownMade(pat: seq<Byte>, p: nat, st: St, x: Ctx)
    requires Reads(pat, p, st, x)
    ensures Known(pat, p, st, x)
  {
  }

  // The state after \)
  function ClosedSt(st: St): St
    requires st.stack != [] && (st.fixup == -1 || 0 <= st.fixup <= |st.code| - 3)
    requires var e := st.stack[|st.stack| - 1]; e.regnum <= st.regnum && (e.regnum <= 255 ==> e.inner < |st.code|)
  {
    var e := st.stack[|st.stack| - 1];
    St(Closed(st.code, st.fixup, e, st.regnum), e.laststart, e.begalt, e.fixup as int - 1, -1, st.regnum,
       st.stack[..|st.stack| - 1])
  }

  // A run of postfix operators, read as two flags.
  lemma OpText(pat: seq<Byte>, q: nat, op: Op)
    requires q + |TextOp(op)| <= |pat| && pat[q] == TextOp(op)[0] && (op != Star ==> pat[q + 1] == TextOp(op)[1])
    ensures pat[q..q + |TextOp(op)|] == TextOp(op)
  {
  }

  lemma MoreText(pat: seq<Byte>, at: nat, q: nat, p: nat, ops: seq<Op>, op: Op)
    requires at <= q <= p <= |pat| && pat[at..q] == TextOps(ops) && pat[q..p] == TextOp(op)
    ensures pat[at..p] == TextOps(ops + [op])
    ensures ZeroOk(ops + [op]) <==> ZeroOk(ops) || op != Plus
    ensures ManyOk(ops + [op]) <==> ManyOk(ops) || op != Opt
  {
    MoreOps(ops, op);
    Abut(pat, at, q, p);
  }

  // The operator that begins at q, if one does.
  method ReadOp(pat: seq<Byte>, q: nat) returns (r: Result, found: bool, op: Op, p: nat)
    requires q < |pat|
    ensures r.Ok? ==> found == OpAt(pat, q) && (if found then q < p <= |pat| && pat[q..p] == TextOp(op) else p == q)
    ensures r.Err? ==> r.error == Eescape && q + 1 == |pat| && pat[q] == BACKSLASH
  {
    r, found, op, p := Ok, true, Star, q + 1;
    if pat[q] == BACKSLASH {
      if q + 1 == |pat| { return Err(Eescape), false, op, q; }
      if pat[q + 1] != PLUS && pat[q + 1] != QM { return Ok, false, op, q; }
      op, p := if pat[q + 1] == PLUS then Plus else Opt, q + 2;
    } else if pat[q] != STAR {
      return Ok, false, op, q;
    }
    OpText(pat, q, op);
  }

  method ReadOps(pat: seq<Byte>, ghost at: nat, start: nat, first: Op)
    returns (r: Result, p: nat, zero: bool, many: bool, ghost ops: seq<Op>)
    requires at < start <= |pat| && pat[at..start] == TextOp(first)
    ensures at < p <= |pat|
    ensures r.Ok? ==>
              ops != [] && pat[at..p] == TextOps(ops) && zero == ZeroOk(ops) && many == ManyOk(ops) && !OpAt(pat, p)
    ensures r.Err? ==> r.error == Eescape && pat[|pat| - 1] == BACKSLASH && pat[at..|pat| - 1] == TextOps(ops)
  {
    var op := first;
    ops := [first];
    zero, many, p := op != Plus, op != Opt, start;
    OneOp(first);
    while true
      invariant at < p <= |pat| && ops != [] && pat[at..p] == TextOps(ops)
      invariant zero == ZeroOk(ops) && many == ManyOk(ops)
      decreases |pat| - p
    {
      if p == |pat| { break; }
      var q, found := p, false;
      r, found, op, p := ReadOp(pat, q);
      if r.Err? { return r, q, zero, many, ops; }
      if !found { break; }
      MoreText(pat, at, q, p, ops, op);
      ops := ops + [op];
      zero, many := zero || op != Plus, many || op != Opt;
    }
    r := Ok;
  }

  // ---- bracket lists --------------------------------------------------------------------

  predicate HyphenIn(items: seq<Item>, k: int)
    requires 0 <= k < |items|
  {
    items[k] == One(DASH) ==> k == 0 || (!items[k - 1].One? && LastByte(items[k - 1]) == LBRACK)
  }

  // The items read so far from the list that begins at `from', the next byte being at p. Mentioning Peek(p)
  // unfolds it.
  ghost predicate ListSoFar(pat: seq<Byte>, from: nat, p: nat, items: seq<Item>) {
    && from <= p <= |pat| && (items == [] ==> p == from)
    && forall n: int {:trigger Peek(n)} :: Peek(n) && n == p ==> ListThere(pat, from, p, items)
  }

  predicate ListThere(pat: seq<Byte>, from: nat, p: nat, items: seq<Item>)
    requires from <= p <= |pat|
  {
    && pat[from..p] == TextItems(items)
    && (items != [] ==> !items[0].Joined? && (items[0].Range? ==> Ends(items[0].a, items[0].b)))
    && (forall k :: 0 < k < |items| ==> ItemAfter(items[k - 1], items[k]))
    && (forall k :: 0 <= k < |items| - 1 ==> HyphenIn(items, k))
    && (items != [] ==>
          var last := items[|items| - 1];
          && (HyphenIn(items, |items| - 1) || ByteAt(pat, p) == RBRACK)
          && (last.One? ==> !(ByteAt(pat, p) == DASH && ByteAt(pat, p + 1) != RBRACK)))
  }

  lemma TextMore(items: seq<Item>, it: Item)
    ensures TextItems(items + [it]) == TextItems(items) + TextItem(it)
  {
    assert (items + [it])[..|items|] == items;
  }

  lemma MapMore(items: seq<Item>, it: Item)
    ensures BitMap(items + [it]) == AddItem(BitMap(items), it)
  {
    assert (items + [it])[..|items|] == items;
  }

  // The last byte read belongs to the last item; the one before it is a hyphen when that
  // item is a range.
  lemma LastRead(pat: seq<Byte>, from: nat, p: nat, items: seq<Item>)
    requires ListSoFar(pat, from, p, items) && items != []
    ensures p > from && pat[p - 1] == LastByte(items[|items| - 1])
    ensures !items[|items| - 1].One? ==> p > from + 1 && pat[p - 2] == DASH
  {
    assert Peek(p);
    var k := |items| - 1;
    var t := TextItems(items[..k]);
    assert pat[from..p] == t + TextItem(items[k]);
    assert pat[p - 1] == pat[from..p][p - from - 1];
    if !items[k].One? { assert pat[p - 2] == pat[from..p][p - from - 2]; }
  }

  lemma ListMore(pat: seq<Byte>, from: nat, q: nat, p: nat, items: seq<Item>, it: Item)
    requires ListSoFar(pat, from, q, items) && q < p <= |pat| && pat[q..p] == TextItem(it)
    requires items != [] ==> ItemAfter(items[|items| - 1], it)
    requires items == [] ==> !it.Joined? && (it.Range? ==> Ends(it.a, it.b))
    requires items != [] && it == One(DASH) ==>
               (!items[|items| - 1].One? && LastByte(items[|items| - 1]) == LBRACK) || ByteAt(pat, p) == RBRACK
    requires it.One? ==> !(ByteAt(pat, p) == DASH && ByteAt(pat, p + 1) != RBRACK)
    requires ByteAt(pat, q) != RBRACK || items == []
    ensures ListSoFar(pat, from, p, items + [it])
  {
    assert Peek(q);
    var t := items + [it];
    ItemText(pat, from, q, p, items, it);
    AfterMore(items, it);
    HyphensMore(items, it);
  }

  lemma AfterMore(items: seq<Item>, it: Item)
    requires forall k :: 0 < k < |items| ==> ItemAfter(items[k - 1], items[k])
    requires items != [] ==> ItemAfter(items[|items| - 1], it)
    ensures var t := items + [it]; forall k :: 0 < k < |t| ==> ItemAfter(t[k - 1], t[k])
  {
    var t := items + [it];
    forall k | 0 < k < |t| ensures ItemAfter(t[k - 1], t[k]) {
      if k < |items| { assert ItemAfter(items[k - 1], items[k]); }
    }
  }

  lemma HyphensMore(items: seq<Item>, it: Item)
    requires forall k :: 0 <= k < |items| ==> HyphenIn(items, k)
    ensures var t := items + [it]; forall k :: 0 <= k < |t| - 1 ==> HyphenIn(t, k)
  {
    var t := items + [it];
    forall k | 0 <= k < |t| - 1 ensures HyphenIn(t, k) {
      assert HyphenIn(items, k);
    }
  }

  lemma ItemText(pat: seq<Byte>, from: nat, q: nat, p: nat, items: seq<Item>, it: Item)
    requires from <= q <= p <= |pat| && pat[from..q] == TextItems(items) && pat[q..p] == TextItem(it)
    ensures pat[from..p] == TextItems(items + [it])
  {
    TextMore(items, it);
    Abut(pat, from, q, p);
  }

  lemma ListDone(pat: seq<Byte>, from: nat, p: nat, items: seq<Item>)
    requires ListSoFar(pat, from, p, items) && items != [] && ByteAt(pat, p) == RBRACK
    ensures PlainItems(items) && pat[from..p] == TextItems(items)
  {
    assert Peek(p);
    forall k | 0 <= k < |items| ensures HyphenOk(items, k) {
      if k < |items| - 1 { assert HyphenIn(items, k); }
    }
  }

  lemma ListIs(pat: seq<Byte>, from: nat, p: nat, items: seq<Item>)
    requires ListSoFar(pat, from, p, items)
    ensures pat[from..p] == TextItems(items)
  {
    assert Peek(p);
  }

  // The contents of a list, from just after its opening to just after its closing bracket.
  method ReadList(pat: seq<Byte>, from: nat) returns (r: Result, p: nat, m: seq<Byte>, ghost items: seq<Item>)
    requires ListStart(pat, from)
    ensures from <= p <= |pat|
    ensures r.Ok? ==>
              from < p && pat[p - 1] == RBRACK && pat[from..p - 1] == TextItems(items) && PlainItems(items)
              && m == BitMap(items)
    ensures r.Err? ==> r.error in {Ebrack, Erange, Unsupported}
    ensures r == Err(Ebrack) ==> p == |pat| && pat[from..p] == TextItems(items)
    ensures r == Err(Erange) ==> pat[from..p] == TextItems(items) && (BadRange(pat, p) || BadRange(pat, p + 1))
    ensures r == Err(Unsupported) ==> p + 1 < |pat| && pat[p] == LBRACK && pat[p + 1] == COLON
  {
    items, p, m := [], from, EmptyMap();
    while true
      invariant ListSoFar(pat, from, p, items) && m == BitMap(items)
      decreases |pat| - p
    {
      ListIs(pat, from, p, items);
      if p == |pat| { return Err(Ebrack), p, m, items; }
      if pat[p] == RBRACK && p != from {
        ListDone(pat, from, p, items);
        return Ok, p + 1, m, items;
      }
      var it;
      r, it := ReadItem(pat, from, p, items);
      if r.Err? { return r, p, m, items; }
      MapMore(items, it);
      items, p, m := items + [it], p + |TextItem(it)|, AddItem(m, it);
    }
  }

  // The list's contents begin at `from'.
  predicate ListStart(pat: seq<Byte>, from: nat) {
    1 <= from <= |pat| && (pat[from - 1] == LBRACK || (2 <= from && pat[from - 1] == CARET && pat[from - 2] == LBRACK))
  }

  // A hyphen at p continues the range before it.
  predicate Joins(pat: seq<Byte>, p: nat)
    requires 1 <= p < |pat|
  {
    pat[p] == DASH && pat[p - 1] != LBRACK && !(p >= 2 && pat[p - 2] == LBRACK && pat[p - 1] == CARET)
    && ByteAt(pat, p + 1) != RBRACK
  }

  predicate Ranges(pat: seq<Byte>, p: nat) {
    ByteAt(pat, p + 1) == DASH && ByteAt(pat, p + 2) != RBRACK
  }

  lemma MoreJoined(pat: seq<Byte>, from: nat, p: nat, items: seq<Item>)
    requires ListStart(pat, from) && from <= p && p + 1 < |pat| && ListSoFar(pat, from, p, items)
    requires Joins(pat, p) && pat[p - 1] <= pat[p + 1]
    ensures ListSoFar(pat, from, p + 2, items + [Joined(pat[p - 1], pat[p + 1])])
  {
    assert Peek(p);
    assert items == [] ==> p == from;
    LastRead(pat, from, p, items);
    assert pat[p..p + 2] == [DASH, pat[p + 1]];
    ListMore(pat, from, p, p + 2, items, Joined(pat[p - 1], pat[p + 1]));
  }

  lemma MoreRange(pat: seq<Byte>, from: nat, p: nat, items: seq<Item>)
    requires ListStart(pat, from) && from <= p && p + 2 < |pat| && ListSoFar(pat, from, p, items)
             && (pat[p] != RBRACK || p == from)
    requires !Joins(pat, p) && Ranges(pat, p) && pat[p] <= pat[p + 2]
    ensures ListSoFar(pat, from, p + 3, items + [Range(pat[p], pat[p + 2])])
  {
    assert Peek(p);
    if items != [] { LastRead(pat, from, p, items); } else { assert p == from; }
    assert pat[p..p + 3] == [pat[p], DASH, pat[p + 2]];
    ListMore(pat, from, p, p + 3, items, Range(pat[p], pat[p + 2]));
  }

  lemma MoreOne(pat: seq<Byte>, from: nat, p: nat, items: seq<Item>)
    requires ListStart(pat, from) && from <= p < |pat| && ListSoFar(pat, from, p, items)
             && (pat[p] != RBRACK || p == from)
    requires !Joins(pat, p) && !Ranges(pat, p)
    ensures ListSoFar(pat, from, p + 1, items + [One(pat[p])])
  {
    assert Peek(p);
    if items != [] { LastRead(pat, from, p, items); } else { assert p == from; }
    assert pat[p..p + 1] == [pat[p]];
    ListMore(pat, from, p, p + 1, items, One(pat[p]));
  }

  // One item: a range that shares its first end with the item before, a range, or a byte.
  method ReadItem(pat: seq<Byte>, from: nat, p: nat, ghost items: seq<Item>) returns (r: Result, it: Item)
    requires ListStart(pat, from)
    requires from <= p < |pat| && ListSoFar(pat, from, p, items) && (pat[p] != RBRACK || p == from)
    ensures r.Ok? ==> p + |TextItem(it)| <= |pat| && ListSoFar(pat, from, p + |TextItem(it)|, items + [it])
    ensures r.Err? ==> r.error in {Erange, Unsupported}
    ensures r == Err(Erange) ==> BadRange(pat, p) || BadRange(pat, p + 1)
    ensures r == Err(Unsupported) ==> p + 1 < |pat| && pat[p] == LBRACK && pat[p + 1] == COLON
  {
    var c := pat[p];
    r, it := Ok, One(c);
    if Joins(pat, p) {
      if p + 1 == |pat| || pat[p - 1] > pat[p + 1] { return Err(Erange), it; }
      MoreJoined(pat, from, p, items);
      it := Joined(pat[p - 1], pat[p + 1]);
    } else if Ranges(pat, p) {
      if p + 2 == |pat| || c > pat[p + 2] { return Err(Erange), it; }
      MoreRange(pat, from, p, items);
      it := Range(c, pat[p + 2]);
    } else if c == LBRACK && ByteAt(pat, p + 1) == COLON {
      r := Err(Unsupported);
    } else {
      MoreOne(pat, from, p, items);
    }
  }

  // The jumps of a repetition around the code from loc on.
  method EmitRep(buf: Buffer, loc: nat, zero: bool, many: bool) returns (ok: bool)
    requires buf.Valid() && loc <= buf.used && (zero || many)
    modifies buf, buf.mem
    ensures buf.Valid() && (buf.mem == old(buf.mem) || fresh(buf.mem))
    ensures ok ==> buf.Code() == old(buf.Code())[..loc] + CodeRep(old(buf.Code())[loc..], zero, many)
    ensures !ok ==> old(buf.used) + 9 > MAX_BUF_SIZE
  {
    ghost var was := buf.Code();
    ghost var body := was[loc..];
    ghost var loop := if many then body + Jmp(MAYBE_POP_JUMP, -(|body| + 6)) else body;
    if many {
      ok := buf.PushJump(MAYBE_POP_JUMP, loc - 3);
      if !ok { return; }
    }
    assert buf.Code() == was[..loc] + loop;
    Splits(buf.Code(), was[..loc], loop);
    ok := buf.InsertJump(ON_FAILURE_JUMP, loc, buf.used + 3);
    if !ok { return; }
    ghost var once := Jmp(ON_FAILURE_JUMP, |loop|) + loop;
    assert buf.Code() == was[..loc] + once;
    if !zero {
      Splits(buf.Code(), was[..loc], once);
      ok := buf.InsertJump(DUMMY_FAILURE_JUMP, loc, loc + 6);
    }
    RepParts(body, zero, many);
  }

  // The code around \|: a failure jump before the alternative, the jump of the alternative
  // before it filled in, and room for the jump after it.
  method EmitAlt(buf: Buffer, begalt: nat, fixup: int) returns (ok: bool)
    requires buf.Valid() && begalt <= buf.used && (fixup == -1 || 0 <= fixup == begalt - 3)
    modifies buf, buf.mem
    ensures buf.Valid() && (buf.mem == old(buf.mem) || fresh(buf.mem))
    ensures ok ==> buf.used >= 3
    ensures ok ==>
              var was, code := old(buf.Code()), buf.Code(); var slot := code[|code| - 3..];
              code == if fixup == -1 then was[..begalt] + (Lead(was[begalt..]) + slot)
                      else was[..fixup] + Switch(was[begalt..], slot)
    ensures !ok ==> old(buf.used) + 6 > MAX_BUF_SIZE
  {
    ok := EmitLead(buf, begalt, fixup);
    if !ok { return; }
    ghost var now := buf.Code();
    ok := buf.Reserve();
    if !ok { return; }
    assert buf.Code()[|now|..] == buf.Code()[|buf.Code()| - 3..];
  }

  // The failure jump before the alternative that ends, and the jump at the end of the
  // alternative before it.
  method EmitLead(buf: Buffer, begalt: nat, fixup: int) returns (ok: bool)
    requires buf.Valid() && begalt <= buf.used && (fixup == -1 || 0 <= fixup == begalt - 3)
    modifies buf, buf.mem
    ensures buf.Valid() && (buf.mem == old(buf.mem) || fresh(buf.mem))
    ensures ok ==>
              var was := old(buf.Code());
              buf.Code() == if fixup == -1 then was[..begalt] + Lead(was[begalt..])
                            else was[..fixup] + (Jmp(JUMP_PAST_ALT, |was[begalt..]| + 3) + Lead(was[begalt..]))
    ensures ok ==> buf.used == old(buf.used) + 3
    ensures !ok ==> old(buf.used) + 6 > MAX_BUF_SIZE
  {
    ghost var was := buf.Code();
    ghost var cb := was[begalt..];
    ok := buf.InsertJump(ON_FAILURE_JUMP, begalt, buf.used + 6);
    if !ok { return; }
    assert buf.Code() == was[..begalt] + Lead(cb);
    Splits(buf.Code(), was[..begalt], Lead(cb));
    if fixup != -1 {
      buf.FillJump(JUMP_PAST_ALT, fixup, buf.used);
      assert buf.Code() == was[..fixup] + (Jmp(JUMP_PAST_ALT, |cb| + 3) + Lead(cb));
    }
  }

  // The end of a group: the dummy failure point and the last jump past the alternatives,
  // the number of inner groups in the start_memory, and the stop_memory.
  method EmitClose(buf: Buffer, fixup: int, e: Elt, regnum: nat) returns (ok: bool)
    requires buf.Valid() && (fixup == -1 || 0 <= fixup <= buf.used - 3) && e.regnum <= regnum
    requires e.regnum <= 255 ==> e.inner < buf.used && (fixup == -1 || e.inner < fixup)
    modifies buf, buf.mem
    ensures buf.Valid() && (buf.mem == old(buf.mem) || fresh(buf.mem))
    ensures ok ==> buf.Code() == Closed(old(buf.Code()), fixup, e, regnum)
    ensures !ok ==> old(buf.used) + 4 > MAX_BUF_SIZE
  {
    if fixup != -1 {
      ok := buf.Push([PUSH_DUMMY_FAILURE]);
      if !ok { return; }
      buf.FillJump(JUMP_PAST_ALT, fixup, buf.used - 1);
    }
    ok := true;
    if e.regnum <= 255 {
      buf.SetByte(e.inner, (regnum - e.regnum) % 256);
      ok := buf.Push([STOP_MEMORY, e.regnum, (regnum - e.regnum) % 256]);
    }
  }

  function Closed(was: seq<Byte>, fixup: int, e: Elt, regnum: nat): seq<Byte>
    requires (fixup == -1 || 0 <= fixup <= |was| - 3) && e.regnum <= regnum
    requires e.regnum <= 255 ==> e.inner < |was|
  {
    var d := was + [PUSH_DUMMY_FAILURE];
    var a := if fixup == -1 then was else d[..fixup] + Jmp(JUMP_PAST_ALT, |was| - fixup - 3) + d[fixup + 3..];
    if e.regnum <= 255 then a[e.inner := (regnum - e.regnum) % 256] + Memory(STOP_MEMORY, e.regnum, regnum - e.regnum)
       else a
  }

  lemma BlameSpace(pat: seq<Byte>, p: nat, st: St, x: Ctx)
    requires Known(pat, p, st, x) && |st.code| + 40 > MAX_BUF_SIZE
    ensures Blame(pat, p, x, Esize)
  {
    assert Look(x);
    BlameFull(pat, p, st, x);
  }

  // What a list's opening and items read so far look like.
  lemma ListText(pat: seq<Byte>, p: nat, from: nat, q: nat, neg: bool, items: seq<Item>)
    requires p < |pat| && pat[p] == LBRACK && from == (if neg then p + 2 else p + 1) && from <= q <= |pat|
    requires (neg ==> pat[p + 1] == CARET) && pat[from..q] == TextItems(items)
    ensures ListAt(pat, p, q, neg, items)
  {
    assert pat[p..q] == pat[p..from] + pat[from..q];
    assert pat[p..from] == [LBRACK] + (if neg then [CARET] else []);
  }

  lemma BlameList(pat: seq<Byte>, p: nat, st: St, x: Ctx, q: nat, neg: bool, items: seq<Item>)
    requires Known(pat, p, st, x) && q == |pat|
    requires p < |pat| && pat[p] == LBRACK && (if neg then p + 2 else p + 1) <= q
    requires (neg ==> pat[p + 1] == CARET) && pat[(if neg then p + 2 else p + 1)..q] == TextItems(items)
    ensures Blame(pat, p, x, Ebrack)
  {
    assert Look(x);
    ListText(pat, p, if neg then p + 2 else p + 1, q, neg, items);
  }

  lemma BlameRead(pat: seq<Byte>, p: nat, st: St, x: Ctx, from: nat, q: nat, neg: bool, items: seq<Item>, e: Error)
    requires Known(pat, p, st, x) && p < |pat| && pat[p] == LBRACK && from == (if neg then p + 2 else p + 1)
             && from <= q <= |pat|
    requires neg ==> pat[p + 1] == CARET
    requires e in {Ebrack, Erange, Unsupported}
    requires e == Ebrack ==> q == |pat| && pat[from..q] == TextItems(items)
    requires e == Erange ==> pat[from..q] == TextItems(items) && (BadRange(pat, q) || BadRange(pat, q + 1))
    requires e == Unsupported ==> q + 1 < |pat| && pat[q] == LBRACK && pat[q + 1] == COLON
    ensures Blame(pat, p, x, e)
  {
    assert Look(x);
    if e != Unsupported {
      ListText(pat, p, from, q, neg, items);
    }
    if e == Erange {
      assert EndlessRange(pat, p, q);
    }
  }

  // The bytes of a whole list are the text of a set.
  lemma SetText(pat: seq<Byte>, p: nat, q: nat, from: nat, neg: bool, items: seq<Item>)
    requires p < |pat| && pat[p] == LBRACK && from == (if neg then p + 2 else p + 1) && from < q <= |pat|
    requires neg == (pat[p + 1] == CARET) && pat[q - 1] == RBRACK && pat[from..q - 1] == TextItems(items)
             && PlainItems(items)
    ensures var c := Rep(ASet(neg, items), []); pat[p..q] == TextChunk(c) && PlainAtom(c.atom, false)
  {
    var head: seq<Byte> := [LBRACK] + (if neg then [CARET] else []);
    ItemsBegin(items);
    assert pat[from] == pat[from..q - 1][0];
    assert pat[p..from] == head;
    OneByte(pat, q - 1);
    Abut(pat, p, from, q - 1);
    Abut(pat, p, q - 1, q);
    SetChunk(neg, items, head);
  }

  lemma SetChunk(neg: bool, items: seq<Item>, head: seq<Byte>)
    requires head == [LBRACK] + if neg then [CARET] else []
    ensures TextChunk(Rep(ASet(neg, items), [])) == head + TextItems(items) + [RBRACK]
  {
    var t := head + TextItems(items) + [RBRACK];
    assert TextOps([]) == [] && t + [] == t;
  }

  lemma SetReady(pat: seq<Byte>, p: nat, q: nat, st: St, x: Ctx, from: nat, neg: bool, items: seq<Item>)
    returns (c: Chunk)
    requires Known(pat, p, st, x) && p < |pat| && pat[p] == LBRACK && from == (if neg then p + 2 else p + 1)
             && from < q <= |pat|
    requires neg == (pat[p + 1] == CARET) && pat[q - 1] == RBRACK && pat[from..q - 1] == TextItems(items)
             && PlainItems(items)
    ensures c == Rep(ASet(neg, items), [])
    ensures Known(pat, q, st.(code := st.code + CodeChunk(c), laststart := |st.code|, pending := st.pending),
                  With(x, x.cur + [c]))
    ensures CodeChunk(c) == [if neg then CHARSET_NOT else CHARSET, |Trim(BitMap(items))|] + Trim(BitMap(items))
  {
    c := Rep(ASet(neg, items), []);
    SetText(pat, p, q, from, neg, items);
    ChunkReady(pat, p, q, st, x, c, st.pending);
  }

  lemma CurNone(pat: seq<Byte>, p: nat, st: St, x: Ctx)
    requires Known(pat, p, st, x)
    ensures st.laststart == -1 <==> x.cur == []
  {
    assert Peek(0);
    assert Look(x);
    if x.cur != [] { CodeInit(st, x); }
  }

  lemma BlameForeign(pat: seq<Byte>, p: nat, st: St, x: Ctx)
    requires Known(pat, p, st, x) && Foreign(pat, p)
    ensures Blame(pat, p, x, Unsupported)
  {
    assert Look(x);
  }

  lemma FinishReady(pat: seq<Byte>, st: St, x: Ctx)
    requires Known(pat, |pat|, st, x)
    ensures st.fixup == -1 || 0 <= st.fixup <= |st.code| - 3
    ensures st.stack != [] ==> Blame(pat, |pat|, x, Eparen)
    ensures st.stack == [] ==> x.Top? && TextIs(pat, |pat|, x) && ShapeOk(st.regnum, x)
    ensures st.stack == [] ==> Ended(st.code, st.fixup, CodeAlts(x.alts + [Branch(x.cur)]))
  {
    assert Peek(0);
    assert Look(x);
    FinishBytes(st, x);
  }

  lemma FinishBytes(st: St, x: Ctx)
    requires CodeIs(st, x)
    ensures st.fixup == -1 || 0 <= st.fixup <= |st.code| - 3
    ensures x.Top? ==> Ended(st.code, st.fixup, CodeAlts(x.alts + [Branch(x.cur)]))
  {
    FinishAlts(st, x);
    if x.Top? {
      assert [] + CodeAlts(x.alts + [Branch(x.cur)]) == CodeAlts(x.alts + [Branch(x.cur)]);
    }
  }

  lemma EndedIs(code: seq<Byte>, f: int, t: seq<Byte>)
    requires Ended(code, f, t)
    ensures f == -1 ==> code == t
    ensures f != -1 ==> 0 <= f <= |code| - 3 && code[..f] + Jmp(JUMP_PAST_ALT, |code| - f - 3) + code[f + 3..] == t
  {
    assert Peek(f);
  }

  lemma ChunkReady(pat: seq<Byte>, p: nat, q: nat, st: St, x: Ctx, c: Chunk, pending: int)
    requires Known(pat, p, st, x) && p <= q <= |pat| && pat[p..q] == TextChunk(c)
    requires PlainChunk(c, x.cur == []) && SoundChunk(c) && CodeChunk(c) != [] && Single(c)
    requires pending == st.pending || (c.Run? && pending == |st.code| + 1)
    ensures Known(pat, q, st.(code := st.code + CodeChunk(c), laststart := |st.code|, pending := pending),
                  With(x, x.cur + [c]))
  {
    assert Look(x);
    AddChunk(pat, p, q, st, x, c, pending);
  }

  lemma MoreReady(pat: seq<Byte>, p: nat, q: nat, st: St, x: Ctx, l: Lit) returns (y: Ctx)
    requires Known(pat, p, st, x) && p <= q <= |pat| && pat[p..q] == TextLit(l) && PlainLit(l, x.cur == [])
             && !OpAt(pat, q)
    requires 0 <= st.pending < |st.code| && st.pending + 1 + st.code[st.pending] == |st.code|
             && st.code[st.pending] < 255
    ensures Known(pat, q, st.(code := Counted(st.code, st.pending, l.c)), y)
  {
    assert Look(x);
    ExtendRun(pat, p, q, st, x, l);
    y := Longer(x, l);
    KnownIs(pat, q, st.(code := Counted(st.code, st.pending, l.c)), y);
  }

  lemma KnownIs(pat: seq<Byte>, p: nat, st: St, x: Ctx)
    requires Reads(pat, p, st, x)
    ensures Known(pat, p, st, x)
  {
  }

  lemma AltBounds(pat: seq<Byte>, p: nat, st: St, x: Ctx)
    requires Known(pat, p, st, x)
    ensures 0 <= st.begalt <= |st.code| && (st.fixup == -1 || 0 <= st.fixup == st.begalt - 3)
    ensures |st.code| + 40 > MAX_BUF_SIZE ==> Blame(pat, p, x, Esize)
  {
    assert Look(x);
    BlameFull(pat, p, st, x);
    FixupBound(st, x);
  }

  lemma AltReady(pat: seq<Byte>, p: nat, st: St, x: Ctx, code: seq<Byte>, slot: seq<Byte>)
    requires Known(pat, p, st, x) && p + 2 <= |pat| && pat[p..p + 2] == [BACKSLASH, BAR] && |slot| == 3
    requires 0 <= st.begalt <= |st.code| && -1 <= st.fixup <= |st.code|
    requires var cb := st.code[st.begalt..];
             code == (if st.fixup == -1 then st.code[..st.begalt] + (Lead(cb) + slot)
                      else st.code[..st.fixup] + Switch(cb, slot))
    ensures Known(pat, p + 2, St(code, -1, |code|, |code| - 3, -1, st.regnum, st.stack), Following(x, slot))
  {
    assert Look(x);
    NextAlt(pat, p, st, x, code, slot);
  }

  lemma InsideOf(st: St, x: Ctx)
    requires CodeIs(st, x) && st.stack != []
    ensures x.Inside?
  {
    assert Peek(0);
  }

  lemma BlameClose(pat: seq<Byte>, p: nat, st: St, x: Ctx)
    requires Known(pat, p, st, x) && st.stack == [] && p + 2 <= |pat| && pat[p..p + 2] == [BACKSLASH, RPAREN]
    ensures Blame(pat, p, x, Erparen)
  {
    assert Peek(0);
    assert Look(x);
  }

  // Where the jump to be filled in and the count of inner groups lie.
  lemma GroupRoom(st: St, x: Ctx, e: Elt)
    requires CodeIs(st, x) && x.Inside? && x.reg <= st.regnum
    requires e.regnum == x.reg && e.laststart == |CodeOf(x.outer)| && (x.reg <= 255 ==> e.inner == e.laststart + 2)
    ensures (st.fixup == -1 || 0 <= st.fixup <= |st.code| - 3)
    ensures e.regnum <= 255 ==> e.inner < |st.code| && (st.fixup == -1 || e.inner < st.fixup)
  {
    assert Peek(0);
    CodeParts(x);
  }

  // The bytes written at the end of a group are the code of the group in place of its
  // unfinished code.
  lemma GroupBytes(st: St, x: Ctx, e: Elt)
    requires CodeIs(st, x) && x.Inside? && x.reg <= st.regnum
    requires e.regnum == x.reg && e.laststart == |CodeOf(x.outer)| && (x.reg <= 255 ==> e.inner == e.laststart + 2)
    requires (st.fixup == -1 || 0 <= st.fixup <= |st.code| - 3)
    requires e.regnum <= 255 ==> e.inner < |st.code| && (st.fixup == -1 || e.inner < st.fixup)
    ensures Closed(st.code, st.fixup, e, st.regnum) == CodeOf(x.outer) + CodeChunk(GroupOf(x, st.regnum))
  {
    FinishInside(st, x);
    GroupCode(x, st.regnum);
    var dummy: seq<Byte> := if st.fixup == -1 then [] else [PUSH_DUMMY_FAILURE];
    GroupSeq(st.code, st.fixup, e, st.regnum, CodeOf(x.outer), Memory(START_MEMORY, x.reg, 0),
             CodeAlts(x.alts + [Branch(x.cur)]), dummy);
  }

  lemma FinishInside(st: St, x: Ctx)
    requires CodeIs(st, x) && x.Inside?
    ensures st.fixup == -1 <==> x.alts == []
    ensures Ended(st.code, st.fixup, CodeOf(x.outer) + Memory(START_MEMORY, x.reg, 0)
                  + CodeAlts(x.alts + [Branch(x.cur)]))
  {
    FinishAlts(st, x);
  }

  lemma GroupCode(x: Ctx, regnum: nat)
    requires x.Inside? && x.reg <= regnum
    ensures var inner := regnum - x.reg;
            var dummy: seq<Byte> := if x.alts == [] then [] else [PUSH_DUMMY_FAILURE];
            CodeChunk(GroupOf(x, regnum)) ==
            Memory(START_MEMORY, x.reg, inner) + CodeAlts(x.alts + [Branch(x.cur)]) + dummy
              + Memory(STOP_MEMORY, x.reg, inner)
  {
    var g := GroupOf(x, regnum);
    assert CodeChunk(g) == CodeRep(CodeAtom(g.atom), false, false);
  }

  lemma GroupSeq(code: seq<Byte>, fixup: int, e: Elt, regnum: nat, base: seq<Byte>, open: seq<Byte>, whole: seq<Byte>,
                 dummy: seq<Byte>)
    requires (fixup == -1 || 0 <= fixup <= |code| - 3) && e.regnum <= regnum
    requires e.regnum <= 255 ==> e.inner < |code| && e.inner == |base| + 2
    requires open == Memory(START_MEMORY, e.regnum, 0)
    requires dummy == if fixup == -1 then [] else [PUSH_DUMMY_FAILURE]
    requires Ended(code, fixup, base + open + whole)
    ensures var inner := regnum - e.regnum;
            Closed(code, fixup, e, regnum) ==
            base + (Memory(START_MEMORY, e.regnum, inner) + whole + dummy + Memory(STOP_MEMORY, e.regnum, inner))
  {
    var inner := regnum - e.regnum;
    GroupFill(code, fixup, base + open + whole);
    var a := base + open + whole + dummy;
    var stop := Memory(STOP_MEMORY, e.regnum, inner);
    if e.regnum <= 255 {
      assert open[2 := inner % 256] == Memory(START_MEMORY, e.regnum, inner);
      SetInner(base, open, whole + dummy, inner % 256);
      assert a == base + open + (whole + dummy);
      assert Closed(code, fixup, e, regnum) == base + open[2 := inner % 256] + (whole + dummy) + stop;
    } else {
      assert open == [] && stop == [];
    }
  }

  lemma SetInner(base: seq<Byte>, open: seq<Byte>, rest: seq<Byte>, c: Byte)
    requires |open| > 2
    ensures (base + open + rest)[|base| + 2 := c] == base + open[2 := c] + rest
  {
  }

  lemma GroupFill(code: seq<Byte>, fixup: int, t: seq<Byte>)
    requires (fixup == -1 || 0 <= fixup <= |code| - 3) && Ended(code, fixup, t)
    ensures var d := code + [PUSH_DUMMY_FAILURE];
            fixup != -1 ==>
              d[..fixup] + Jmp(JUMP_PAST_ALT, |code| - fixup - 3) + d[fixup + 3..] == t + [PUSH_DUMMY_FAILURE]
    ensures fixup == -1 ==> code == t
  {
    assert Peek(fixup);
    if fixup != -1 {
      var d := code + [PUSH_DUMMY_FAILURE];
      assert d[..fixup] == code[..fixup];
      assert d[fixup + 3..] == code[fixup + 3..] + [PUSH_DUMMY_FAILURE];
    }
  }

  lemma RunOfOne(l: Lit)
    ensures CodeChunk(Run([l])) == [EXACTN, 1, l.c] && TextChunk(Run([l])) == TextLit(l)
  {
    assert [l][..0] == [];
    assert TextLits([l]) == TextLits([]) + TextLit(l);
    assert LitBytes([l]) == [l.c];
  }

  lemma OneOp(op: Op)
    ensures TextOps([op]) == TextOp(op) && (ZeroOk([op]) <==> op != Plus) && (ManyOk([op]) <==> op != Opt)
  {
    assert [op][..0] == [];
    assert TextOps([op]) == TextOps([]) + TextOp(op);
    assert [op][0] == op;
  }

  lemma MoreOps(ops: seq<Op>, op: Op)
    ensures TextOps(ops + [op]) == TextOps(ops) + TextOp(op)
    ensures ZeroOk(ops + [op]) <==> ZeroOk(ops) || op != Plus
    ensures ManyOk(ops + [op]) <==> ManyOk(ops) || op != Opt
  {
    var t := ops + [op];
    assert t[..|ops|] == ops && t[|ops|] == op;
    if ZeroOk(ops) { var k :| 0 <= k < |ops| && ops[k] != Plus; assert t[k] != Plus; }
    if ManyOk(ops) { var k :| 0 <= k < |ops| && ops[k] != Opt; assert t[k] != Opt; }
    if ZeroOk(t) { var k :| 0 <= k < |t| && t[k] != Plus; assert k < |ops| ==> ops[k] != Plus; }
    if ManyOk(t) { var k :| 0 <= k < |t| && t[k] != Opt; assert k < |ops| ==> ops[k] != Opt; }
  }

  lemma OpsCount(ops: seq<Op>)
    requires ops != []
    ensures ZeroOk(ops) || ManyOk(ops)
  {
    assert ops[0] != Plus || ops[0] != Opt;
  }

  lemma OpBegins(pat: seq<Byte>, p: nat, q: nat, ops: seq<Op>)
    requires p <= q <= |pat| && ops != [] && pat[p..q] == TextOps(ops)
    ensures OpAt(pat, p)
  {
    var t := pat[p..q];
    OpsBegin(ops);
    assert OpAt(t, 0) && pat[p] == t[0];
    if t[0] == BACKSLASH {
      assert pat[p + 1] == t[1];
    }
  }

  lemma {:induction false} OpsBegin(ops: seq<Op>)
    requires ops != []
    ensures OpAt(TextOps(ops), 0)
  {
    var k := |ops| - 1;
    if k > 0 {
      OpsBegin(ops[..k]);
    } else {
      assert ops == [ops[0]];
      OneOp(ops[0]);
    }
  }

  lemma BlameEscape(pat: seq<Byte>, p: nat, st: St, x: Ctx, ops: seq<Op>)
    requires Known(pat, p, st, x) && p < |pat| && pat[|pat| - 1] == BACKSLASH && pat[p..|pat| - 1] == TextOps(ops)
    ensures Blame(pat, p, x, Eescape)
  {
    assert Look(x);
  }

  lemma Splits(s: seq<Byte>, a: seq<Byte>, b: seq<Byte>)
    requires s == a + b
    ensures s[..|a|] == a && s[|a|..] == b
  {
  }

  lemma RepParts(body: seq<Byte>, zero: bool, many: bool)
    requires zero || many
    ensures var loop := if many then body + Jmp(MAYBE_POP_JUMP, -(|body| + 6)) else body;
            var once := Jmp(ON_FAILURE_JUMP, |loop|) + loop;
            CodeRep(body, zero, many) == if zero then once else Jmp(DUMMY_FAILURE_JUMP, 3) + once
  {
    if many {
      Assoc(Jmp(ON_FAILURE_JUMP, |body| + 3), body, Jmp(MAYBE_POP_JUMP, -(|body| + 6)));
    }
  }

  lemma NothingRead(pat: seq<Byte>, st: St)
    requires st == St([], -1, 0, -1, -1, 0, [])
    ensures Known(pat, 0, st, Top([], [0, 0, 0], []))
  {
    var x := Top([], [0, 0, 0], []);
    assert TextOf(x) == [];
    assert CodeOf(x) == [];
    assert Reads(pat, 0, st, x);
  }

  lemma PendingBound(pat: seq<Byte>, p: nat, st: St, x: Ctx)
    requires Known(pat, p, st, x)
    ensures st.pending == -1 || 0 <= st.pending < |st.code|
  {
    assert Look(x);
  }

  lemma FixupBound(st: St, x: Ctx)
    requires CodeIs(st, x)
    ensures 0 <= st.begalt <= |st.code| && (st.fixup == -1 || 0 <= st.fixup == st.begalt - 3)
  {
    assert Peek(0);
    CodeParts(x);
  }

  // ---- the compiler as a whole ----------------------------------------------------------

  datatype Program = Program(code: seq<Byte>, nsub: nat)

  datatype Outcome = Compiled(prog: Program) | Refused(error: Error)

  // alts is a canonical reading of the whole pattern.
  ghost predicate ReadsAs(pat: seq<Byte>, alts: seq<Branch>) {
    alts != [] && PlainAlts(alts) && TextAlts(alts) == pat
  }

  // The pattern is refused for a reason: some canonical reading of its beginning is followed
  // by what the error says.
  ghost predicate RefusedFor(pat: seq<Byte>, e: Error) {
    exists p: nat, x: Ctx :: Blame(pat, p, x, e)
  }

  // regex_compile: the code written is the code of the pattern read, jumps and all.
  method RegexCompile(pat: seq<Byte>) returns (r: Outcome, ghost alts: seq<Branch>)
    ensures r.Compiled? ==> ReadsAs(pat, alts) && r.prog.code == CodeAlts(alts)
    ensures r.Compiled? ==> 2 * r.prog.nsub <= |pat| && (r.prog.nsub <= 255 ==> SoundAlts(alts))
    ensures r.Refused? ==> RefusedFor(pat, r.error)
  {
    var k := new Compiler(pat);
    alts := [];
    while k.p != |pat|
      invariant k.pat == pat && fresh(k) && fresh(k.buf) && fresh(k.buf.mem)
      invariant k.Valid() && k.at == k.p <= |pat|
      decreases |pat| - k.p
    {
      var t := k.CompileToken();
      if t.Err? { return Refused(t.error), alts; }
      k.at := k.p;
    }
    var t := k.Finish();
    if t.Err? { return Refused(t.error), alts; }
    alts := k.x.alts + [Branch(k.x.cur)];
    WholeReading(pat, k.regnum, k.x);
    r := Compiled(Program(k.buf.Code(), k.regnum));
  }

  lemma WholeReading(pat: seq<Byte>, regnum: nat, x: Ctx)
    requires x.Top? && TextIs(pat, |pat|, x) && ShapeOk(regnum, x)
    ensures ReadsAs(pat, x.alts + [Branch(x.cur)])
    ensures regnum <= 255 ==> SoundAlts(x.alts + [Branch(x.cur)])
  {
    var alts := x.alts + [Branch(x.cur)];
    assert alts[..|alts| - 1] == x.alts && alts[|alts| - 1] == Branch(x.cur);
    assert pat[..|pat|] == pat;
  }
}
