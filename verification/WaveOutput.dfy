// A waveform written out in phases (src/waveform.cc): whatever part of a write succeeds, the
// file is the same.
module WaveOutput {

  type Byte = x: int | 0 <= x < 256

  const RIFF_HEADER_SIZE := 8
  const NO_MORE := 6

  // The buffers of the table of output phases: the file header and the samples, the header of
  // the cue points and the cue points, the header of the labels and the labels.
  predicate SixParts(parts: seq<seq<Byte>>) { |parts| == 6 }

  // A header is inlined; it is followed by the buffer it describes.
  predicate Inlined(x: nat) { x % 2 == 0 }

  // The phases from y on, without the headers of empty buffers.
  function Later(parts: seq<seq<Byte>>, y: nat): seq<Byte>
    requires SixParts(parts)
    decreases 7 - y
  {
    if y >= 6 then []
    else if Inlined(y) && parts[y + 1] == [] then Later(parts, y + 2)
    else parts[y] + Later(parts, y + 1)
  }

  // The whole file.
  function File(parts: seq<seq<Byte>>): seq<Byte>
    requires SixParts(parts)
  {
    Later(parts, 0)
  }

  // What is still to be written from offset o of phase x on.
  function Rest(parts: seq<seq<Byte>>, x: nat, o: nat): seq<Byte>
    requires SixParts(parts) && (x < 6 ==> o <= |parts[x]|)
  {
    if x >= 6 then [] else parts[x][o..] + Later(parts, x + 1)
  }

  // Asked of an offset to unfold what has been written up to there.
  predicate Peek(o: nat) { true }

  // So far out has been written, and the next byte is at offset o of phase x.
  ghost predicate At(parts: seq<seq<Byte>>, x: nat, o: nat, out: seq<Byte>) {
    && SixParts(parts) && x <= NO_MORE && (x < 6 ==> o <= |parts[x]|) && (x == NO_MORE ==> o == 0)
    && |out| <= |File(parts)|
    && forall k: nat {:trigger Peek(k)} :: Peek(k) && k == o ==> out + Rest(parts, x, o) == File(parts)
  }

  class Wavefm {
    var parts: seq<seq<Byte>>
    var ophase: nat
    var ooffset: nat
    var written: int            // by the last flush
    ghost var out: seq<Byte>    // the file so far

    ghost predicate Valid()
      reads this
    {
      SixParts(parts) && parts[1] != [] && At(parts, ophase, ooffset, out)
    }

    constructor (parts: seq<seq<Byte>>)
      requires SixParts(parts) && parts[1] != []
      ensures Valid() && this.parts == parts && out == []
    {
      this.parts, ophase, ooffset, written, out := parts, 0, 0, 0, [];
    }

    // get_ophase_len
    function PhaseLen(x: nat): nat
      reads this
      requires SixParts(parts) && x <= NO_MORE
    {
      if x == NO_MORE then 0 else |parts[x]|
    }

    // get_total_len: the length of the file.
    method TotalLen() returns (total: nat)
      requires SixParts(parts)
      ensures total == |File(parts)|
    {
      total := 0;
      var x := 0;
      while x != NO_MORE
        invariant x <= NO_MORE && total + |Later(parts, x)| == |File(parts)|
        decreases NO_MORE - x
      {
        if Inlined(x) && PhaseLen(x + 1) == 0 {
          SkipHeader(parts, x);
        } else {
          total := total + PhaseLen(x);
        }
        x := x + 1;
      }
    }

    // update_ophase, with headers and without a sound card: is there more to be written?
    method UpdatePhase() returns (more: bool)
      requires Valid()
      modifies `ophase, `ooffset
      ensures Valid() && more == (out != File(parts))
      ensures more ==> ophase < 6 && ooffset < |parts[ophase]|
      ensures !more ==> ophase == NO_MORE
    {
      while true
        invariant Valid()
        decreases NO_MORE - ophase
      {
        if PhaseLen(ophase) > ooffset {
          MoreToCome(parts, ophase, ooffset, out);
          return true;
        }
        if ophase == NO_MORE {
          AllOut(parts, out);
          return false;
        }
        TurnPhase();
      }
    }

    // The next phase; a header followed by an empty buffer is passed over.
    method TurnPhase()
      requires Valid() && ophase < NO_MORE && ooffset == |parts[ophase]|
      modifies `ophase, `ooffset
      ensures Valid() && ophase > old(ophase) && ophase <= NO_MORE
    {
      TurnAt(parts, ophase, ooffset, out);
      ooffset, ophase := 0, ophase + 1;
      if Inlined(ophase) && ophase != NO_MORE && PhaseLen(ophase + 1) == 0 { ophase := ophase + 1; }
    }

    // flush: at most accepted bytes are taken by the descriptor, none if it is negative.
    method Flush(accepted: int) returns (more: bool)
      requires Valid()
      modifies `ophase, `ooffset, `written, `out
      ensures Valid() && more == (old(out) != File(parts)) && 0 <= written
      ensures old(out) <= out && |out| == |old(out)| + written
      ensures more && accepted >= 1 ==> 1 <= written <= accepted
      ensures !more || accepted < 1 ==> written == 0
    {
      written := 0;
      more := UpdatePhase();
      if !more { return; }
      var left := PhaseLen(ophase) - ooffset;
      written := if accepted > left then left else accepted;
      if 1 > written { written := 0; return; }
      Take(written);
    }

    // n bytes of the phase's buffer have been taken.
    method Take(n: nat)
      requires Valid() && ophase < NO_MORE && ooffset + n <= |parts[ophase]|
      modifies `ooffset, `out
      ensures Valid() && out == old(out) + parts[ophase][old(ooffset)..old(ooffset) + n]
    {
      Written(parts, ophase, ooffset, n, out);
      out := out + parts[ophase][ooffset..ooffset + n];
      ooffset := ooffset + n;
    }

    // write_header: on a descriptor that can seek, the header is written again at the beginning of the file, as
    // much of it as the descriptor takes.
    method WriteHeader(seekable: bool, accepted: nat)
      requires Valid() && out == File(parts)
      modifies `out
      ensures out == old(out)
    {
      if !seekable {
        return;
      }
      ghost var n := if accepted > |parts[0]| then |parts[0]| else accepted;
      HeaderFirst(parts, n);
      out := parts[0][..n] + out[n..];
    }

    // detach: the rest is written, whatever sizes the descriptor takes it in; then the header once more.
    method Detach(sizes: nat -> nat, seekable: bool, accepted: nat)
      requires Valid() && forall k :: sizes(k) >= 1
      modifies `ophase, `ooffset, `written, `out
      ensures Valid() && out == File(parts)
    {
      var k := 0;
      var more := Flush(sizes(k));
      while more
        invariant Valid() && (!more ==> out == File(parts))
        decreases |File(parts)| - |out|, more
      {
        k := k + 1;
        more := Flush(sizes(k));
      }
      WriteHeader(seekable, accepted);
    }
  }

  // The file begins with the header, so writing that there again changes nothing.
  lemma HeaderFirst(parts: seq<seq<Byte>>, n: nat)
    requires SixParts(parts) && parts[1] != [] && n <= |parts[0]|
    ensures n <= |File(parts)| && parts[0][..n] + File(parts)[n..] == File(parts)
  {
    assert File(parts) == parts[0] + Later(parts, 1);
    assert File(parts)[..n] == parts[0][..n];
  }

  // The table alternates headers and buffers, so the phase after a header left out is empty.
  lemma SkipHeader(parts: seq<seq<Byte>>, x: nat)
    requires SixParts(parts) && x < 6 && Inlined(x) && parts[x + 1] == []
    ensures Later(parts, x) == Later(parts, x + 1)
  {
    assert Later(parts, x + 1) == parts[x + 1] + Later(parts, x + 2);
  }

  lemma NextPhase(parts: seq<seq<Byte>>, x: nat, o: nat)
    requires SixParts(parts) && x < 6 && o == |parts[x]|
    ensures var y := if x + 1 < 6 && Inlined(x + 1) && parts[x + 2] == [] then x + 2 else x + 1;
            Rest(parts, x, o) == Rest(parts, y, 0)
  {
    if x + 1 < 6 && Inlined(x + 1) && parts[x + 2] == [] {
      SkipHeader(parts, x + 1);
      assert parts[x + 2] + Later(parts, x + 3) == Later(parts, x + 2);
    }
  }

  lemma TurnAt(parts: seq<seq<Byte>>, x: nat, o: nat, out: seq<Byte>)
    requires At(parts, x, o, out) && x < 6 && o == |parts[x]|
    ensures At(parts, if x + 1 < 6 && Inlined(x + 1) && parts[x + 2] == [] then x + 2 else x + 1, 0, out)
  {
    assert Peek(o);
    NextPhase(parts, x, o);
  }

  lemma MoreToCome(parts: seq<seq<Byte>>, x: nat, o: nat, out: seq<Byte>)
    requires At(parts, x, o, out) && x < 6 && o < |parts[x]|
    ensures out != File(parts)
  {
    assert Peek(o);
    assert |Rest(parts, x, o)| > 0;
  }

  lemma AllOut(parts: seq<seq<Byte>>, out: seq<Byte>)
    requires At(parts, NO_MORE, 0, out)
    ensures out == File(parts)
  {
    assert Peek(0);
  }

  lemma Written(parts: seq<seq<Byte>>, x: nat, o: nat, n: nat, out: seq<Byte>)
    requires At(parts, x, o, out) && x < 6 && o + n <= |parts[x]|
    ensures At(parts, x, o + n, out + parts[x][o..o + n])
  {
    assert Peek(o);
    Split(out, parts[x], o, n, Later(parts, x + 1));
  }

  lemma Split(out: seq<Byte>, b: seq<Byte>, o: nat, n: nat, rest: seq<Byte>)
    requires o + n <= |b|
    ensures (out + b[o..o + n]) + (b[o + n..] + rest) == out + (b[o..] + rest)
  {
    assert b[o..] == b[o..o + n] + b[o + n..];
  }
}
