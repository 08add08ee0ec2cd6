/** The Bluetooth UART as the firmware drives it: a receive FIFO that the bounded
    reads pop one byte at a time, and a transmit stream that `uart_puts` appends to.
    A read timeout is the receive FIFO running empty. */
module Uart {
  import opened CTypes

  // ------------------------------------------------------ specification

  /** How many `e` bytes `s` holds. */
  function Occurrences(s: seq<byte>, e: byte): (n: nat)
    ensures n <= |s|
  {
    if s == [] then 0 else Occurrences(s[..|s| - 1], e) + (if s[|s| - 1] == e then 1 else 0)
  }

  /** Popping `q[k]` brings the count of `e` bytes read so far up to `c`. */
  predicate Reached(q: seq<byte>, e: byte, c: int, k: int)
  {
    0 <= k < |q| && Occurrences(q[..k + 1], e) >= c
  }

  /** The first index below `limit` at which the count of `e` bytes reaches `c`, if any. */
  function FirstReach(q: seq<byte>, e: byte, c: int, limit: nat): (r: Option<nat>)
    ensures r.Some? ==> r.value < limit && Reached(q, e, c, r.value)
    ensures r.Some? ==> forall k :: 0 <= k < r.value ==> !Reached(q, e, c, k)
    ensures r.None? ==> forall k :: 0 <= k < limit ==> !Reached(q, e, c, k)
  {
    if limit == 0 then None
    else match FirstReach(q, e, c, limit - 1)
      case Some(k) => Some(k)
      case None => if Reached(q, e, c, limit - 1) then Some(limit - 1) else None
  }

  /** What `uart_read_until_within_us` over the queue `q` returns and how many bytes it
      pops: the index of the byte that completes the `c`-th `e`, or else the number of
      bytes read when the buffer filled or the queue ran out. */
  function ReadUntilOutcome(q: seq<byte>, e: byte, c: int, size: nat): (r: (nat, nat))
    ensures r.0 <= size && r.1 <= |q| && r.1 <= size
  {
    match FirstReach(q, e, c, Min(size, |q|))
      case Some(k) => (k, k + 1)
      case None => (Min(size, |q|), Min(size, |q|))
  }

  /** A buffer of which the first `n` bytes were read from `q` and the rest still holds
      whatever was there before. */
  function Filled(q: seq<byte>, before: seq<byte>, n: nat): (r: seq<byte>)
    requires n <= |q| && n <= |before|
    ensures |r| == |before| && r[..n] == q[..n] && r[n..] == before[n..]
  {
    q[..n] + before[n..]
  }

  /** The bytes `uart_puts` sends for a C string: everything before the first NUL. */
  function CString(s: seq<byte>): (r: seq<byte>)
    ensures r <= s && NUL !in r
    ensures |r| < |s| ==> s[|r|] == NUL
  {
    if s == [] || s[0] == NUL then [] else [s[0]] + CString(s[1..])
  }

  // ---------------------------------------------------------- properties

  /** When at least one end byte is wanted, the read stops on an end byte. */
  lemma {:induction false} FirstReachIsEndByte(q: seq<byte>, e: byte, c: int, k: nat)
    requires c >= 1 && Reached(q, e, c, k)
    requires forall j :: 0 <= j < k ==> !Reached(q, e, c, j)
    ensures q[k] == e
  {
    assert q[..k + 1][..k] == q[..k];
    if k > 0 {
      assert q[..k] == q[..k - 1 + 1];
      assert !Reached(q, e, c, k - 1);
    } else {
      assert q[..0] == [];
    }
  }

  /** Looking for the first end byte finds the first occurrence of that byte. */
  lemma {:induction false} FirstReachOfOne(q: seq<byte>, e: byte, limit: nat)
    ensures var r := FirstReach(q, e, 1, limit);
      (r.Some? ==> q[r.value] == e && e !in q[..r.value]) &&
      (r.None? ==> e !in q[..Min(limit, |q|)])
  {
    var r := FirstReach(q, e, 1, limit);
    if r.Some? {
      FirstReachIsEndByte(q, e, 1, r.value);
      NoEarlierReach(q, e, r.value);
    } else {
      NoEarlierReach(q, e, Min(limit, |q|));
    }
  }

  /** The read for one end byte stops exactly at its first occurrence, if that lies
      below the limit. */
  lemma FirstEndByte(q: seq<byte>, e: byte, k: nat, limit: nat)
    requires k < limit && k < |q| && q[k] == e && e !in q[..k]
    ensures FirstReach(q, e, 1, limit) == Some(k)
  {
    FirstReachOfOne(q, e, limit);
    assert q[..Min(limit, |q|)][k] == e;
  }

  /** Without an end byte among the bytes the buffer and the queue allow, the read
      stops at the smaller of the two. */
  lemma NoEndByteRead(q: seq<byte>, e: byte, size: nat)
    requires e !in q[..Min(size, |q|)]
    ensures ReadUntilOutcome(q, e, 1, size) == (Min(size, |q|), Min(size, |q|))
  {
    var k := Min(size, |q|);
    FirstReachOfOne(q, e, k);
  }

  /** A read for one end byte pops at least the `m` bytes before the first end byte,
      when the buffer and the queue hold that many. */
  lemma ReadsPastEndFree(q: seq<byte>, e: byte, size: nat, m: nat)
    requires m <= size && m <= |q| && e !in q[..m]
    ensures ReadUntilOutcome(q, e, 1, size).1 >= m
  {
    FirstReachOfOne(q, e, Min(size, |q|));
  }

  /** If no index before `n` completes the first end byte, none of those bytes is one. */
  lemma {:induction false} NoEarlierReach(q: seq<byte>, e: byte, n: nat)
    requires n <= |q|
    requires forall j :: 0 <= j < n ==> !Reached(q, e, 1, j)
    ensures e !in q[..n]
  {
    if e in q[..n] {
      var j :| 0 <= j < n && q[j] == e;
      assert q[..j + 1][..j] == q[..j];
      assert Occurrences(q[..j + 1], e) >= 1;
      assert Reached(q, e, 1, j);
    }
  }

  /** A C string without a NUL is sent whole. */
  lemma {:induction false} CStringOfNulFree(s: seq<byte>, tail: seq<byte>)
    requires NUL !in s && |tail| > 0 && tail[0] == NUL
    ensures CString(s + tail) == s
  {
    if s != [] {
      assert (s + tail)[1..] == s[1..] + tail;
      CStringOfNulFree(s[1..], tail);
    }
  }

  // ------------------------------------------------------------ the UART

  class Uart {
    /** Bytes received and not yet popped, oldest first. */
    var rx: seq<byte>
    /** Every byte sent so far. */
    var tx: seq<byte>

    constructor(pending: seq<byte>)
      ensures rx == pending && tx == []
    {
      rx := pending;
      tx := [];
    }

    /** Bytes arriving from the Bluetooth module. */
    method Receive(bytes: seq<byte>)
      modifies this
      ensures rx == old(rx) + bytes && tx == old(tx)
    {
      rx := rx + bytes;
    }

    /** `uart_puts`: sends the C string `s` up to its terminating NUL. */
    method Puts(s: seq<byte>)
      modifies this
      ensures tx == old(tx) + CString(s) && rx == old(rx)
    {
      tx := tx + CString(s);
    }

    /** `uart_clear_rx_fifo`: pops and discards until the FIFO is empty. */
    method ClearRxFifo()
      modifies this
      ensures rx == [] && tx == old(tx)
    {
      while rx != []
        invariant tx == old(tx)
        decreases |rx|
      {
        rx := rx[1..];
      }
    }

    /** `uart_read_blocking_within_us`: stores and pops the first `len` queued bytes, or
        all of them if fewer arrive before the timeout. */
    method ReadBlocking(dst: array<byte>, len: nat)
      requires len <= dst.Length
      modifies this, dst
      ensures var n := Min(len, |old(rx)|);
        dst[..n] == old(rx)[..n] && dst[n..] == old(dst[n..]) && rx == old(rx)[n..] && tx == old(tx)
    {
      var i := 0;
      while i < len
        invariant 0 <= i <= len && i <= |old(rx)|
        invariant rx == old(rx)[i..] && tx == old(tx)
        invariant dst[..i] == old(rx)[..i] && dst[i..] == old(dst[i..])
      {
        if rx == [] {
          return;
        }
        dst[i] := rx[0];
        rx := rx[1..];
        i := i + 1;
      }
    }

    /** `uart_read_until_within_us`: pops bytes into `dst` until the `countTo`-th `endByte`,
        a full buffer or the timeout, and returns the index of the last byte stored (the
        completing end byte) or, when it stopped otherwise, the number of bytes stored. */
    method ReadUntil(dst: array<byte>, endByte: byte, countTo: int, bufferSize: nat)
      returns (last: nat, ghost consumed: nat)
      requires bufferSize <= dst.Length
      modifies this, dst
      ensures (last, consumed) == ReadUntilOutcome(old(rx), endByte, countTo, bufferSize)
      ensures dst[..consumed] == old(rx)[..consumed] && dst[consumed..] == old(dst[consumed..])
      ensures rx == old(rx)[consumed..] && tx == old(tx)
    {
      ghost var q := rx;
      var count := 0;
      var i := 0;
      while i < bufferSize
        invariant 0 <= i <= bufferSize && i <= |q|
        invariant rx == q[i..] && tx == old(tx)
        invariant dst[..i] == q[..i] && dst[i..] == old(dst[i..])
        invariant count == Occurrences(q[..i], endByte)
        invariant forall k :: 0 <= k < i ==> !Reached(q, endByte, countTo, k)
      {
        if rx == [] {
          ReadUntilStops(q, endByte, countTo, bufferSize, i);
          return i, i;
        }
        dst[i] := rx[0];
        rx := rx[1..];
        assert q[..i + 1][..i] == q[..i];
        assert dst[..i + 1] == q[..i + 1];
        assert dst[i + 1..] == old(dst[i + 1..]);
        if dst[i] == endByte {
          count := count + 1;
        }
        if count >= countTo {
          ReadUntilHits(q, endByte, countTo, bufferSize, i);
          return i, i + 1;
        }
        i := i + 1;
      }
      ReadUntilStops(q, endByte, countTo, bufferSize, i);
      return i, i;
    }
  }

  /** The outcome when no byte before `i` completed the count and the read stopped at `i`
      because the queue ran out or the buffer filled. */
  lemma ReadUntilStops(q: seq<byte>, e: byte, c: int, size: nat, i: nat)
    requires i == Min(size, |q|)
    requires forall k :: 0 <= k < i ==> !Reached(q, e, c, k)
    ensures ReadUntilOutcome(q, e, c, size) == (i, i)
  {
  }

  /** The outcome when byte `i` is the first to complete the count. */
  lemma ReadUntilHits(q: seq<byte>, e: byte, c: int, size: nat, i: nat)
    requires i < Min(size, |q|) && Reached(q, e, c, i)
    requires forall k :: 0 <= k < i ==> !Reached(q, e, c, k)
    ensures ReadUntilOutcome(q, e, c, size) == (i, i + 1)
  {
  }
}
