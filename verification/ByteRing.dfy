/** A ring of bytes in a fixed buffer: wrapped contents, and the one- or two-part
    copies with which the socket code fills and drains it. */
module ByteRing {

  type Byte = x: int | 0 <= x < 256

  function Min(a: nat, b: nat): (m: nat)
    ensures m <= a && m <= b && (m == a || m == b)
  {
    if a < b then a else b
  }

  /** Position x of a ring of size n, for positions at most one lap ahead. */
  function Wrap(x: nat, n: nat): (r: nat)
    requires x < 2 * n
    ensures r < n && (r == x || r + n == x)
  {
    if x < n then x else x - n
  }

  /** The `len` elements stored from `start` on, wrapping at the end of the buffer. */
  function Contents<T>(buf: seq<T>, start: nat, len: nat): (c: seq<T>)
    requires start < |buf| && len <= |buf|
    ensures |c| == len
    ensures forall k | 0 <= k < len :: c[k] == buf[Wrap(start + k, |buf|)]
  {
    seq(len, k requires 0 <= k < len => buf[Wrap(start + k, |buf|)])
  }

  /** memcpy of `data` to offset `at`. */
  function Blit(buf: seq<Byte>, at: nat, data: seq<Byte>): (r: seq<Byte>)
    requires at + |data| <= |buf|
    ensures |r| == |buf|
    ensures forall k | 0 <= k < |buf| :: r[k] == if at <= k < at + |data| then data[k - at] else buf[k]
  {
    buf[..at] + data + buf[at + |data|..]
  }

  /** The two copies of the filling side: up to the end of the buffer, then the
      rest at its beginning. */
  function CopyIn(buf: seq<Byte>, head: nat, data: seq<Byte>): (r: seq<Byte>)
    requires head < |buf| && |data| <= |buf|
    ensures |r| == |buf|
  {
    var first := Min(|data|, |buf| - head);
    Blit(Blit(buf, head, data[..first]), 0, data[first..])
  }

  /** The two copies of the draining side. */
  function CopyOut(buf: seq<Byte>, tail: nat, n: nat): (r: seq<Byte>)
    requires tail < |buf| && n <= |buf|
  {
    if n + tail >= |buf| then buf[tail..] + buf[..n - (|buf| - tail)]
    else buf[tail..tail + n]
  }

  /** An index n bytes further on. */
  function Advance(i: nat, n: nat, size: nat): (r: nat)
    requires i < size && n <= size
    ensures r < size
  {
    Wrap(i + n, size)
  }

  lemma RemainderOnce(x: nat, size: nat)
    requires 0 < size <= x < 2 * size
    ensures x % size == x - size
  {
    assert x / size == 1;
  }

  /** The source computes it as a remainder. */
  lemma AdvanceIsRemainder(i: nat, n: nat, size: nat)
    requires i < size && n <= size
    ensures Advance(i, n, size) == (i + n) % size
  {
    if i + n >= size {
      RemainderOnce(i + n, size);
    }
  }

  lemma AdvanceTwice(i: nat, m: nat, n: nat, size: nat)
    requires i < size && m + n <= size
    ensures Advance(Advance(i, m, size), n, size) == Advance(i, m + n, size)
  {
  }

  lemma CopyOutIsContents(buf: seq<Byte>, tail: nat, n: nat)
    requires tail < |buf| && n <= |buf|
    ensures CopyOut(buf, tail, n) == Contents(buf, tail, n)
  {
  }

  lemma ContentsPrefix(buf: seq<Byte>, start: nat, len: nat, n: nat)
    requires start < |buf| && n <= len <= |buf|
    ensures Contents(buf, start, n) == Contents(buf, start, len)[..n]
  {
  }

  lemma ContentsSuffix(buf: seq<Byte>, start: nat, len: nat, n: nat)
    requires start < |buf| && n <= len <= |buf|
    ensures Contents(buf, Advance(start, n, |buf|), len - n) == Contents(buf, start, len)[n..]
  {
    var c := Contents(buf, Advance(start, n, |buf|), len - n);
    var d := Contents(buf, start, len);
    forall k | 0 <= k < len - n
      ensures c[k] == d[n..][k]
    {
      assert d[n..][k] == d[n + k];
    }
  }

  /** The part of the contents up to the end of the buffer. */
  lemma ContentsFirst(buf: seq<Byte>, start: nat, len: nat, n: nat)
    requires start + n <= |buf| && n <= len <= |buf| && start < |buf|
    ensures Contents(buf, start, len)[..n] == buf[start..start + n]
  {
  }

  /** The part of the contents that wrapped around. */
  lemma ContentsSecond(buf: seq<Byte>, start: nat, len: nat, n: nat)
    requires start < |buf| && |buf| - start + n <= len <= |buf|
    ensures var first := |buf| - start;
            Contents(buf, start, len)[first..first + n] == buf[..n]
  {
  }

  /** Bytes written contiguously right behind the contents extend them. */
  lemma BlitExtends(buf: seq<Byte>, start: nat, len: nat, at: nat, data: seq<Byte>)
    requires start < |buf| && len + |data| <= |buf|
    requires at + |data| <= |buf|
    requires at == Advance(start, len, |buf|) || data == []
    ensures Contents(Blit(buf, at, data), start, len + |data|) == Contents(buf, start, len) + data
  {
    var r := Blit(buf, at, data);
    var c := Contents(r, start, len + |data|);
    forall k | 0 <= k < len + |data|
      ensures c[k] == (Contents(buf, start, len) + data)[k]
    {
    }
  }

  lemma CopyInExtends(buf: seq<Byte>, start: nat, len: nat, data: seq<Byte>)
    requires start < |buf| && len + |data| <= |buf|
    ensures Contents(CopyIn(buf, Advance(start, len, |buf|), data), start, len + |data|)
            == Contents(buf, start, len) + data
  {
    var head := Advance(start, len, |buf|);
    var first := Min(|data|, |buf| - head);
    var b1 := Blit(buf, head, data[..first]);
    BlitExtends(buf, start, len, head, data[..first]);
    BlitExtends(b1, start, len + first, 0, data[first..]);
    assert data[..first] + data[first..] == data;
    assert Contents(buf, start, len) + data[..first] + data[first..] == Contents(buf, start, len) + data;
  }
}
