/** The operations both programs perform in place on a message buffer. */
module Buffers {
  import opened Bytes
  import opened Wire

  // The n bytes at lo in the opposite order: htonl, ntohl, htonll and ntohll on a field in memory.
  function SwapAt(q: seq<byte>, lo: nat, n: nat): (r: seq<byte>)
    requires lo + n <= |q|
    ensures |r| == |q|
  {
    q[..lo] + Reverse(q[lo..lo + n]) + q[lo + n..]
  }

  function CtrAt(c: Crypto, key: seq<byte>, iv: seq<byte>, q: seq<byte>, lo: nat, n: nat): (r: seq<byte>)
    requires lo + n <= |q|
    ensures |r| == |q|
  {
    q[..lo] + Ctr(c, key, iv, q[lo..lo + n]) + q[lo + n..]
  }

  lemma Patched(q: seq<byte>, lo: nat, mid: seq<byte>)
    requires lo + |mid| <= |q|
    ensures var r := q[..lo] + mid + q[lo + |mid|..];
            r[..lo] == q[..lo] && r[lo..lo + |mid|] == mid && r[lo + |mid|..] == q[lo + |mid|..]
  {
  }

  lemma SwapKeeps(q: seq<byte>, lo: nat, n: nat)
    requires lo + n <= |q|
    ensures forall i :: 0 <= i < |q| && (i < lo || lo + n <= i) ==> SwapAt(q, lo, n)[i] == q[i]
  {
  }

  lemma SwapReverses(q: seq<byte>, lo: nat, n: nat)
    requires lo + n <= |q|
    ensures SwapAt(q, lo, n)[lo..lo + n] == Reverse(q[lo..lo + n])
  {
    Patched(q, lo, Reverse(q[lo..lo + n]));
  }

  // A slice clear of the swapped field.
  lemma SwapSlice(q: seq<byte>, lo: nat, n: nat, a: nat, b: nat)
    requires lo + n <= |q| && a <= b <= |q| && (b <= lo || lo + n <= a)
    ensures SwapAt(q, lo, n)[a..b] == q[a..b]
  {
    SwapKeeps(q, lo, n);
    hide SwapAt;
    assert forall i :: 0 <= i < b - a ==> SwapAt(q, lo, n)[a..b][i] == q[a..b][i];
  }

  lemma SwapTwice(q: seq<byte>, lo: nat, n: nat)
    requires lo + n <= |q|
    ensures SwapAt(SwapAt(q, lo, n), lo, n) == q
  {
    var mid := Reverse(q[lo..lo + n]);
    Patched(q, lo, mid);
    ReverseTwice(q[lo..lo + n]);
    hide Reverse;
    assert q == q[..lo] + q[lo..lo + n] + q[lo + n..];
  }

  method SwapBytes(a: array<byte>, lo: nat, n: nat)
    requires lo + n <= a.Length
    modifies a
    ensures a[..] == SwapAt(old(a[..]), lo, n)
  {
    hide SwapAt;
    ghost var q := a[..];
    var i := 0;
    while i < n / 2
      invariant 0 <= i <= n / 2
      invariant forall k :: 0 <= k < a.Length ==>
        a[k] == if lo <= k < lo + i || lo + n - i <= k < lo + n then old(a[lo + (n - 1 - (k - lo))]) else old(a[k])
    {
      a[lo + i], a[lo + n - 1 - i] := a[lo + n - 1 - i], a[lo + i];
      i := i + 1;
    }
    ghost var was, now := q[lo..lo + n], a[..][lo..lo + n];
    forall k | 0 <= k < n ensures now[k] == was[n - 1 - k] {
      assert a[lo + k] == q[lo + (n - 1 - (lo + k - lo))];
    }
    assert now == Reverse(was);
    SwappedAt(q, a[..], lo, n);
  }

  lemma SwappedAt(q: seq<byte>, r: seq<byte>, lo: nat, n: nat)
    requires lo + n <= |q| == |r|
    requires forall k :: 0 <= k < |q| && (k < lo || lo + n <= k) ==> r[k] == q[k]
    requires r[lo..lo + n] == Reverse(q[lo..lo + n])
    ensures r == SwapAt(q, lo, n)
  {
    hide Reverse;
    assert r == r[..lo] + r[lo..lo + n] + r[lo + n..];
    assert r[..lo] == q[..lo];
    assert r[lo + n..] == q[lo + n..];
  }

  // AES-CTR in place.
  method Cipher(a: array<byte>, c: Crypto, key: seq<byte>, iv: seq<byte>, lo: nat, n: nat)
    requires lo + n <= a.Length
    modifies a
    ensures a[..] == CtrAt(c, key, iv, old(a[..]), lo, n)
  {
    var i := 0;
    while i < n
      invariant 0 <= i <= n
      invariant forall k :: 0 <= k < a.Length ==>
        a[k] == if lo <= k < lo + i then Xor(old(a[k]), c.keystream(key, iv, k - lo)) else old(a[k])
    {
      a[lo + i] := Xor(a[lo + i], c.keystream(key, iv, i));
      i := i + 1;
    }
    assert forall k :: 0 <= k < a.Length ==> a[..][k] == CtrAt(c, key, iv, old(a[..]), lo, n)[k];
  }

  // memcpy from a value
  method Store(a: array<byte>, lo: nat, q: seq<byte>)
    requires lo + |q| <= a.Length
    modifies a
    ensures a[..] == old(a[..lo]) + q + old(a[lo + |q|..])
  {
    var i := 0;
    while i < |q|
      invariant 0 <= i <= |q|
      invariant forall k :: 0 <= k < a.Length ==> a[k] == if lo <= k < lo + i then q[k - lo] else old(a[k])
    {
      a[lo + i] := q[i];
      i := i + 1;
    }
  }
}
