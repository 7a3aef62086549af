// The growing byte buffer that compiled code is written to.
module RxBuffer {
  import opened RxBytes

  const MAX_BUF_SIZE := 65536

  class Buffer {
    var mem: array<Byte>   // its length is `allocated'
    var used: nat          // b, as an offset

    ghost predicate Valid()
      reads this, mem
    {
      0 < mem.Length <= MAX_BUF_SIZE && used <= mem.Length
    }

    function Code(): (c: seq<Byte>)
      reads this, mem
      requires used <= mem.Length
      ensures |c| == used
    {
      mem[..used]
    }

    constructor ()
      ensures Valid() && Code() == [] && fresh(mem)
    {
      mem := new Byte[32];
      used := 0;
    }

    // GET_BUFFER_SPACE: double the buffer until n more bytes fit, up to the limit.
    method Space(n: nat) returns (ok: bool)
      requires Valid()
      modifies `mem
      ensures Valid() && Code() == old(Code()) && (mem == old(mem) || fresh(mem))
      ensures if ok then used + n <= mem.Length else used + n > MAX_BUF_SIZE
    {
      while used + n > mem.Length
        invariant Valid() && Code() == old(Code()) && (mem == old(mem) || fresh(mem))
        decreases MAX_BUF_SIZE - mem.Length
      {
        if mem.Length == MAX_BUF_SIZE { return false; }
        var size := if 2 * mem.Length > MAX_BUF_SIZE then MAX_BUF_SIZE else 2 * mem.Length;
        var bigger := new Byte[size];
        forall i | 0 <= i < mem.Length { bigger[i] := mem[i]; }
        assert bigger[..used] == mem[..used];
        mem := bigger;
      }
      return true;
    }

    // BUF_PUSH, BUF_PUSH_2 and BUF_PUSH_3.
    method Push(bytes: seq<Byte>) returns (ok: bool)
      requires Valid()
      modifies this, mem
      ensures Valid() && (mem == old(mem) || fresh(mem))
      ensures ok ==> Code() == old(Code()) + bytes
      ensures !ok ==> old(used) + |bytes| > MAX_BUF_SIZE
    {
      ok := Space(|bytes|);
      if ok {
        ghost var was := Code();
        forall k | 0 <= k < |bytes| { mem[used + k] := bytes[k]; }
        used := used + |bytes|;
        assert Code() == was + bytes;
      }
    }

    // Room for a jump to be filled in later; the bytes there mean nothing yet.
    method Reserve() returns (ok: bool)
      requires Valid()
      modifies this
      ensures Valid() && (mem == old(mem) || fresh(mem))
      ensures ok ==> used == old(used) + 3 && Code() == old(Code()) + Code()[old(used)..]
      ensures !ok ==> old(used) + 3 > MAX_BUF_SIZE
    {
      ok := Space(3);
      if ok { used := used + 3; }
    }

    method SetByte(k: nat, v: Byte)
      requires Valid() && k < used
      modifies mem
      ensures Valid() && Code() == old(Code())[k := v]
    {
      mem[k] := v;
    }

    // store_op1
    method StoreOp1(op: Byte, loc: nat, arg: int)
      requires loc + 3 <= mem.Length
      modifies mem
      ensures mem[..] == old(mem[..loc]) + Jmp(op, arg) + old(mem[loc + 3..])
    {
      var c := Jmp(op, arg);
      mem[loc], mem[loc + 1], mem[loc + 2] := c[0], c[1], c[2];
    }

    // insert_op1: the bytes from loc on move up by three and the instruction takes their place.
    method InsertOp1(op: Byte, loc: nat, arg: int)
      requires loc <= used && used + 3 <= mem.Length
      modifies mem
      ensures mem[..used + 3] == old(mem[..loc]) + Jmp(op, arg) + old(mem[loc..used])
    {
      var from, to := used, used + 3;
      while from != loc
        invariant loc <= from <= used && to == from + 3
        invariant forall k :: from <= k < used ==> mem[k + 3] == old(mem[k])
        invariant forall k :: 0 <= k < to && k < used ==> mem[k] == old(mem[k])
      {
        to, from := to - 1, from - 1;
        mem[to] := mem[from];
      }
      ghost var moved := mem[..];
      StoreOp1(op, loc, arg);
      Inserted(old(mem[..used]), mem[..used + 3], moved, loc, Jmp(op, arg));
    }

    // STORE_JUMP at the end of the code.
    method PushJump(op: Byte, to: int) returns (ok: bool)
      requires Valid()
      modifies this, mem
      ensures Valid() && (mem == old(mem) || fresh(mem))
      ensures ok ==> Code() == old(Code()) + Jmp(op, to - old(used) - 3)
      ensures !ok ==> old(used) + 3 > MAX_BUF_SIZE
    {
      ok := Space(3);
      if ok {
        ghost var was := Code();
        StoreOp1(op, used, to - used - 3);
        used := used + 3;
        assert Code() == was + Jmp(op, to - old(used) - 3);
      }
    }

    // STORE_JUMP at a place reserved before.
    method FillJump(op: Byte, loc: nat, to: int)
      requires Valid() && loc + 3 <= used
      modifies mem
      ensures Valid() && Code() == old(Code())[..loc] + Jmp(op, to - loc - 3) + old(Code())[loc + 3..]
    {
      ghost var was := Code();
      StoreOp1(op, loc, to - loc - 3);
      assert Code() == was[..loc] + Jmp(op, to - loc - 3) + was[loc + 3..];
    }

    // INSERT_JUMP
    method InsertJump(op: Byte, loc: nat, to: int) returns (ok: bool)
      requires Valid() && loc <= used
      modifies this, mem
      ensures Valid() && (mem == old(mem) || fresh(mem))
      ensures ok ==> Code() == old(Code())[..loc] + Jmp(op, to - loc - 3) + old(Code())[loc..]
      ensures !ok ==> old(used) + 3 > MAX_BUF_SIZE
    {
      ok := Space(3);
      if ok {
        ghost var was := Code();
        assert mem[..loc] == was[..loc] && mem[loc..used] == was[loc..];
        InsertOp1(op, loc, to - loc - 3);
        used := used + 3;
      }
    }
  }

  // Bytes moved up by three around an instruction.
  lemma Inserted(was: seq<Byte>, now: seq<Byte>, moved: seq<Byte>, loc: nat, c: seq<Byte>)
    requires |c| == 3 && loc <= |was| && |now| == |was| + 3 <= |moved|
    requires forall k :: 0 <= k < loc ==> moved[k] == was[k]
    requires forall k :: loc <= k < |was| ==> moved[k + 3] == was[k]
    requires now == (moved[..loc] + c + moved[loc + 3..])[..|now|]
    ensures now == was[..loc] + c + was[loc..]
  {
    var z := was[..loc] + c + was[loc..];
    forall k | 0 <= k < |now| ensures now[k] == z[k] {
      if k >= loc + 3 { assert moved[(k - 3) + 3] == was[k - 3]; }
    }
  }
}
