/** Splitting a byte stream into frames, and the messages a peer extracts from it. */
module Framing {
  import opened Bytes
  import opened Wire

  // The stream starts with a complete frame.
  predicate HasFrame(q: seq<byte>) {
    |q| >= HEADER && |q| >= HEADER + q[8]
  }

  function FrameLength(q: seq<byte>): (n: nat)
    requires |q| >= HEADER
    ensures HEADER <= n <= MAX_MESSAGE
  {
    HEADER + q[8]
  }

  function Frames(q: seq<byte>): (fs: seq<seq<byte>>)
    ensures forall i :: 0 <= i < |fs| ==> IsFrame(fs[i])
  {
    if HasFrame(q) then
      assert IsFrame(q[..FrameLength(q)]);
      [q[..FrameLength(q)]] + Frames(q[FrameLength(q)..])
    else []
  }

  // What is left after the last complete frame.
  function Rest(q: seq<byte>): (r: seq<byte>)
    ensures !HasFrame(r) && |r| < MAX_MESSAGE
  {
    if HasFrame(q) then Rest(q[FrameLength(q)..]) else q
  }

  function Concat(fs: seq<seq<byte>>): seq<byte> {
    if fs == [] then [] else fs[0] + Concat(fs[1..])
  }

  lemma ConcatCons(f: seq<byte>, fs: seq<seq<byte>>)
    ensures Concat([f] + fs) == f + Concat(fs)
  {
    assert ([f] + fs)[1..] == fs;
  }

  lemma Regroup(a: seq<byte>, b: seq<byte>, c: seq<byte>)
    ensures a + (b + c) == (a + b) + c
  {
  }

  // Splitting loses nothing.
  lemma {:induction false} FramesAndRest(q: seq<byte>)
    ensures q == Concat(Frames(q)) + Rest(q)
  {
    if HasFrame(q) {
      var n := FrameLength(q);
      var head, left := q[..n], q[n..];
      FramesAndRest(left);
      ConcatCons(head, Frames(left));
      assert Frames(q) == [head] + Frames(left) && Rest(q) == Rest(left);
      Regroup(head, Concat(Frames(left)), Rest(left));
      hide Concat, Frames, Rest;
      assert q == head + left;
    }
  }

  // Splitting can stop anywhere and resume with the leftover.
  lemma {:induction false} SplitResumes(p: seq<byte>, q: seq<byte>)
    ensures Frames(p + q) == Frames(p) + Frames(Rest(p) + q)
    ensures Rest(p + q) == Rest(Rest(p) + q)
  {
    if HasFrame(p) {
      var n := FrameLength(p);
      SplitResumes(p[n..], q);
      assert (p + q)[..n] == p[..n] && (p + q)[n..] == p[n..] + q;
      assert [p[..n]] + (Frames(p[n..]) + Frames(Rest(p[n..]) + q)) == ([p[..n]] + Frames(p[n..])) + Frames(Rest(p[n..]) + q);
    }
  }

  // A concatenation of frames splits into those frames.
  lemma {:induction false} FramesOfConcat(fs: seq<seq<byte>>, tail: seq<byte>)
    requires forall i :: 0 <= i < |fs| ==> IsFrame(fs[i])
    requires !HasFrame(tail)
    ensures Frames(Concat(fs) + tail) == fs && Rest(Concat(fs) + tail) == tail
  {
    if fs == [] {
      assert Concat(fs) + tail == tail;
    } else {
      var f, q := fs[0], Concat(fs) + tail;
      assert q == f + (Concat(fs[1..]) + tail);
      assert q[..|f|] == f && q[|f|..] == Concat(fs[1..]) + tail;
      assert q[8] == f[8] && FrameLength(q) == |f|;
      FramesOfConcat(fs[1..], tail);
      assert fs == [f] + fs[1..];
    }
  }

  // ---------------------------------------------------------------- messages

  // The messages delivered from a sequence of frames.
  function Messages(c: Crypto, keys: Keys, id: uint32, fs: seq<seq<byte>>): seq<Application>
    requires forall i :: 0 <= i < |fs| ==> IsFrame(fs[i])
  {
    if fs == [] then []
    else (match Decode(c, keys, id, fs[0]) case Delivered(m) => [m] case _ => []) + Messages(c, keys, id, fs[1..])
  }

  lemma {:induction false} MessagesAppend(c: Crypto, keys: Keys, id: uint32, fs: seq<seq<byte>>, gs: seq<seq<byte>>)
    requires forall i :: 0 <= i < |fs| ==> IsFrame(fs[i])
    requires forall i :: 0 <= i < |gs| ==> IsFrame(gs[i])
    ensures Messages(c, keys, id, fs + gs) == Messages(c, keys, id, fs) + Messages(c, keys, id, gs)
  {
    if fs == [] {
      assert fs + gs == gs;
    } else {
      assert (fs + gs)[1..] == fs[1..] + gs;
      MessagesAppend(c, keys, id, fs[1..], gs);
    }
  }

  // The one-shot reading of a whole stream.
  function Received(c: Crypto, keys: Keys, id: uint32, stream: seq<byte>): seq<Application> {
    Messages(c, keys, id, Frames(stream))
  }

  // One more frame completed by the bytes `more`.
  lemma FrameCompleted(c: Crypto, keys: Keys, id: uint32, stream: seq<byte>, more: seq<byte>)
    requires IsFrame(Rest(stream) + more)
    ensures Received(c, keys, id, stream + more)
            == Received(c, keys, id, stream)
               + (match Decode(c, keys, id, Rest(stream) + more) case Delivered(m) => [m] case _ => [])
    ensures Rest(stream + more) == []
  {
    var f := Rest(stream) + more;
    SplitResumes(stream, more);
    assert f[..FrameLength(f)] == f && f[FrameLength(f)..] == [];
    assert Frames(f) == [f] && Rest(f) == [];
    MessagesAppend(c, keys, id, Frames(stream), [f]);
    assert Messages(c, keys, id, [f][1..]) == [];
  }

  // Bytes that complete no frame only extend the leftover.
  lemma FrameContinued(c: Crypto, keys: Keys, id: uint32, stream: seq<byte>, more: seq<byte>)
    requires !HasFrame(Rest(stream) + more)
    ensures Received(c, keys, id, stream + more) == Received(c, keys, id, stream)
    ensures Rest(stream + more) == Rest(stream) + more
  {
    SplitResumes(stream, more);
    assert Frames(stream) + [] == Frames(stream);
  }
}
