/** Byte-level building blocks of both broadcasters' framing: the `as u32` cast of a
 *  length, `u32::to_le_bytes` / `u32::to_be_bytes`, their inverses on the reading
 *  side, and what the peer of a stream receives from one `write_all`. */
module Wire {
  import opened Basics

  /** One octet on the socket. */
  newtype Byte = b: int | 0 <= b < 256

  /** 2^32: one more than the largest `u32`. */
  const U32_LIMIT: nat := 0x1_0000_0000

  /** `n as u32` on a `usize` length: only the low 32 bits survive. */
  function AsU32(n: nat): (r: nat)
    ensures r < U32_LIMIT
    ensures n < U32_LIMIT ==> r == n
    ensures n >= U32_LIMIT ==> r != n
  {
    n % U32_LIMIT
  }

  function Pow256(n: nat): (r: nat)
    ensures r >= 1
  {
    if n == 0 then 1 else 256 * Pow256(n - 1)
  }

  lemma Pow256Four()
    ensures Pow256(4) == U32_LIMIT
  {
  }

  /** The `n` low-order bytes of `v`, least significant first. */
  function LeBytes(v: nat, n: nat): (r: seq<Byte>)
    ensures |r| == n
  {
    if n == 0 then [] else [(v % 256) as Byte] + LeBytes(v / 256, n - 1)
  }

  /** The number a little-endian byte string stands for. */
  function LeValue(s: seq<Byte>): (r: nat)
    ensures r < Pow256(|s|)
  {
    if s == [] then 0 else s[0] as nat + 256 * LeValue(s[1..])
  }

  /** The `n` low-order bytes of `v`, most significant first. */
  function BeBytes(v: nat, n: nat): (r: seq<Byte>)
    ensures |r| == n
  {
    if n == 0 then [] else BeBytes(v / 256, n - 1) + [(v % 256) as Byte]
  }

  /** The number a big-endian byte string stands for. */
  function BeValue(s: seq<Byte>): (r: nat)
    ensures r < Pow256(|s|)
  {
    if s == [] then 0 else 256 * BeValue(s[..|s| - 1]) + s[|s| - 1] as nat
  }

  /** Decoding the little-endian bytes of a value that fits gives the value back. */
  lemma {:induction false} LeValueOfBytes(v: nat, n: nat)
    requires v < Pow256(n)
    ensures LeValue(LeBytes(v, n)) == v
  {
    if n > 0 {
      LeValueOfBytes(v / 256, n - 1);
      assert LeBytes(v, n)[1..] == LeBytes(v / 256, n - 1);
    }
  }

  /** Every little-endian byte string is the encoding of its value. */
  lemma {:induction false} LeBytesOfValue(s: seq<Byte>)
    ensures LeBytes(LeValue(s), |s|) == s
  {
    if s != [] {
      var v := LeValue(s);
      assert v % 256 == s[0] as int && v / 256 == LeValue(s[1..]);
      LeBytesOfValue(s[1..]);
    }
  }

  /** Decoding the big-endian bytes of a value that fits gives the value back. */
  lemma {:induction false} BeValueOfBytes(v: nat, n: nat)
    requires v < Pow256(n)
    ensures BeValue(BeBytes(v, n)) == v
  {
    if n > 0 {
      BeValueOfBytes(v / 256, n - 1);
      var r := BeBytes(v, n);
      assert r[..n - 1] == BeBytes(v / 256, n - 1);
    }
  }

  /** Every big-endian byte string is the encoding of its value. */
  lemma {:induction false} BeBytesOfValue(s: seq<Byte>)
    ensures BeBytes(BeValue(s), |s|) == s
  {
    if s != [] {
      var v := BeValue(s);
      assert v % 256 == s[|s| - 1] as int && v / 256 == BeValue(s[..|s| - 1]);
      BeBytesOfValue(s[..|s| - 1]);
    }
  }

  /** `(n as u32).to_le_bytes()`: four bytes that decode to `n` mod 2^32. */
  function LeU32(n: nat): (r: seq<Byte>)
    ensures |r| == 4
    ensures LeValue(r) == AsU32(n)
    ensures n < U32_LIMIT ==> LeValue(r) == n
  {
    Pow256Four();
    LeValueOfBytes(AsU32(n), 4);
    LeBytes(AsU32(n), 4)
  }

  /** `(n as u32).to_be_bytes()`: four bytes that decode to `n` mod 2^32. */
  function BeU32(n: nat): (r: seq<Byte>)
    ensures |r| == 4
    ensures BeValue(r) == AsU32(n)
    ensures n < U32_LIMIT ==> BeValue(r) == n
  {
    Pow256Four();
    BeValueOfBytes(AsU32(n), 4);
    BeBytes(AsU32(n), 4)
  }

  /** What the peer receives from `write_all(buf)` on a stream that takes `room` more
   *  bytes before it fails: all of `buf` (and the call returns Ok) or a strict prefix
   *  (and the call returns an error). */
  function Sent(room: nat, buf: seq<Byte>): (r: seq<Byte>)
    ensures r <= buf
    ensures r == buf <==> |buf| <= room
    ensures |r| <= room
  {
    if |buf| <= room then buf else buf[..room]
  }

  /** Two `write_all`s joined by `?` deliver what one `write_all` of the concatenation
   *  would: the second write happens only when the first returned Ok. */
  lemma SentConcat(room: nat, a: seq<Byte>, b: seq<Byte>)
    ensures Sent(room, a + b) == if |a| <= room then a + Sent(room - |a|, b) else Sent(room, a)
  {
    if |a| <= room && |a + b| > room {
      assert (a + b)[..room] == a + b[..room - |a|];
    } else if |a| > room {
      assert (a + b)[..room] == a[..room];
    }
  }

  /** A sequence of `write_all`s that has delivered `done` and then fails on `piece`
   *  leaves the peer with what one `write_all` of any `whole` that starts with
   *  `done + piece` would. */
  lemma SentStops(room: nat, done: seq<Byte>, piece: seq<Byte>, whole: seq<Byte>)
    requires done + piece <= whole
    requires |done| <= room < |done| + |piece|
    ensures Sent(room, whole) == done + Sent(room - |done|, piece)
  {
    assert whole[..room] == (done + piece)[..room];
    assert (done + piece)[..room] == done + piece[..room - |done|];
  }
}
