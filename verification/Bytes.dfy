/** Big-endian numbers as byte sequences: what `put_u16`, `put_u64`, `get_u64` and the 32-byte keys are. */
module Bytes {
  import opened Types

  /** The n bytes of v, most significant byte first. */
  function Put(n: nat, v: nat): (bs: seq<Byte>)
    requires v < Pow256(n)
    ensures |bs| == n
  {
    if n == 0 then [] else Put(n - 1, v / 256) + [v % 256]
  }

  /** The number a byte sequence spells. */
  function Get(bs: seq<Byte>): (v: nat)
    ensures v < Pow256(|bs|)
  {
    if bs == [] then 0 else 256 * Get(bs[..|bs| - 1]) + bs[|bs| - 1]
  }

  lemma {:induction false} GetPut(n: nat, v: nat)
    requires v < Pow256(n)
    ensures Get(Put(n, v)) == v
  {
    if n > 0 {
      GetPut(n - 1, v / 256);
      assert Put(n, v)[..n - 1] == Put(n - 1, v / 256);
    }
  }

  lemma {:induction false} PutGet(bs: seq<Byte>)
    ensures Put(|bs|, Get(bs)) == bs
  {
    if bs != [] {
      var init, last := bs[..|bs| - 1], bs[|bs| - 1];
      PutGet(init);
      assert Get(bs) / 256 == Get(init) && Get(bs) % 256 == last;
      assert bs == init + [last];
    }
  }

  lemma EightMore(n: nat)
    ensures Pow256(n + 8) == U64_BOUND * Pow256(n)
  {
    assert Pow256(n + 2) == 256 * Pow256(n + 1) == 0x1_0000 * Pow256(n);
    assert Pow256(n + 4) == 256 * Pow256(n + 3) == 0x1_0000 * Pow256(n + 2);
    assert Pow256(n + 6) == 256 * Pow256(n + 5) == 0x1_0000 * Pow256(n + 4);
    assert Pow256(n + 8) == 256 * Pow256(n + 7) == 0x1_0000 * Pow256(n + 6);
  }

  /** The literal bounds of the fixed-width integers. */
  lemma WidthBounds()
    ensures Pow256(1) == 256 && Pow256(2) == U16_BOUND && Pow256(8) == U64_BOUND
    ensures Pow256(32) == KEY_BOUND && Pow256(64) == SIGNATURE_BOUND
  {
    EightMore(0); EightMore(8); EightMore(16); EightMore(24);
    EightMore(32); EightMore(40); EightMore(48); EightMore(56);
  }

  function PutU16(v: nat): (bs: seq<Byte>)
    requires v < U16_BOUND
    ensures |bs| == 2
  {
    WidthBounds();
    Put(2, v)
  }

  function PutU64(v: U64): (bs: seq<Byte>)
    ensures |bs| == 8
  {
    WidthBounds();
    Put(8, v)
  }

  function PutKey(k: PublicKey): (bs: seq<Byte>)
    ensures |bs| == 32
  {
    WidthBounds();
    Put(32, k)
  }

  function PutSignature(s: Signature): (bs: seq<Byte>)
    ensures |bs| == 64
  {
    WidthBounds();
    Put(64, s)
  }

  /** Byte arrays of one length compared the way Rust compares `[u8; 32]`. */
  predicate LexLess(a: seq<Byte>, b: seq<Byte>)
    requires |a| == |b|
  {
    a != [] && (a[0] < b[0] || (a[0] == b[0] && LexLess(a[1..], b[1..])))
  }

  /** Comparing all but the last byte first, then the last byte, gives the same order. */
  lemma {:induction false} LexLessFromTheEnd(a: seq<Byte>, x: Byte, b: seq<Byte>, y: Byte)
    requires |a| == |b|
    ensures LexLess(a + [x], b + [y]) <==> LexLess(a, b) || (a == b && x < y)
  {
    if a == [] {
      assert a + [x] == [x] && b + [y] == [y];
      assert !LexLess([x][1..], [y][1..]);
    } else {
      LexLessFromTheEnd(a[1..], x, b[1..], y);
      assert (a + [x])[1..] == a[1..] + [x] && (b + [y])[1..] == b[1..] + [y];
      assert a == [a[0]] + a[1..] && b == [b[0]] + b[1..];
    }
  }

  /** The numeric order on n-byte numbers is the lexicographic order on their bytes. */
  lemma {:induction false} KeyOrderIsByteOrder(n: nat, v: nat, w: nat)
    requires v < Pow256(n) && w < Pow256(n)
    ensures LexLess(Put(n, v), Put(n, w)) <==> v < w
  {
    if n > 0 {
      KeyOrderIsByteOrder(n - 1, v / 256, w / 256);
      LexLessFromTheEnd(Put(n - 1, v / 256), v % 256, Put(n - 1, w / 256), w % 256);
      if Put(n - 1, v / 256) == Put(n - 1, w / 256) {
        GetPut(n - 1, v / 256);
        GetPut(n - 1, w / 256);
      }
    }
  }
}
