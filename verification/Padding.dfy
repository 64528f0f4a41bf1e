/** Power-of-two padding buckets, and the four-byte big-endian length prefix. */
module Padding {
  import opened Basics

  function Pow2(n: nat): nat {
    if n == 0 then 1 else 2 * Pow2(n - 1)
  }

  function BitLength(n: nat): nat {
    if n == 0 then 0 else 1 + BitLength(n / 2)
  }

  /** Bitwise conjunction. */
  function And(a: nat, b: nat): nat {
    if a == 0 || b == 0 then 0 else a % 2 * (b % 2) + 2 * And(a / 2, b / 2)
  }

  ghost predicate IsPowerOfTwo(n: nat) {
    exists k: nat :: n == Pow2(k)
  }

  /** `b` is the least power of two that is at least `n`. */
  ghost predicate IsLeastPower(b: nat, n: int) {
    IsPowerOfTwo(b) && b >= n && forall k: nat :: Pow2(k) >= n ==> b <= Pow2(k)
  }

  lemma {:induction false} BitLengthBounds(n: nat)
    ensures n < Pow2(BitLength(n))
    ensures n > 0 ==> BitLength(n) > 0 && Pow2(BitLength(n) - 1) <= n
  {
    if n == 0 {
    } else {
      BitLengthBounds(n / 2);
    }
  }

  lemma {:induction false} Pow2Monotone(a: nat, b: nat)
    requires a <= b
    ensures Pow2(a) <= Pow2(b)
    decreases b
  {
    if a == b {
    } else {
      Pow2Monotone(a, b - 1);
    }
  }

  /** `1 << (n - 1).bit_length()` rounds `n` up to a power of two. */
  lemma ShiftRoundsUp(n: nat)
    requires n > 0
    ensures IsLeastPower(Pow2(BitLength(n - 1)), n)
  {
    var len := BitLength(n - 1);
    BitLengthBounds(n - 1);
    forall k: nat | Pow2(k) >= n ensures Pow2(len) <= Pow2(k) {
      if k < len {
        Pow2Monotone(k, len - 1);
      } else {
        Pow2Monotone(len, k);
      }
    }
  }

  /** `n & (n - 1)` vanishes exactly at the powers of two. */
  lemma {:induction false} AndTestsPower(n: nat)
    requires n > 0
    ensures And(n, n - 1) == 0 <==> IsPowerOfTwo(n)
  {
    if n == 1 {
      assert Pow2(0) == 1;
    } else if n % 2 == 0 {
      AndTestsPower(n / 2);
      assert (n - 1) / 2 == n / 2 - 1 && (n - 1) % 2 == 1;
      assert And(n, n - 1) == 2 * And(n / 2, n / 2 - 1);
      if IsPowerOfTwo(n / 2) {
        var k: nat :| n / 2 == Pow2(k);
        assert n == Pow2(k + 1);
      }
      if IsPowerOfTwo(n) {
        var k: nat :| n == Pow2(k);
        assert k > 0 && n / 2 == Pow2(k - 1);
      }
    } else {
      var h := n / 2;
      assert (n - 1) / 2 == h && (n - 1) % 2 == 0;
      AndSelf(h);
      assert And(n, n - 1) == 2 * h;
      forall k: nat ensures n != Pow2(k) {
        PowerIsOneOrEven(k);
      }
    }
  }

  lemma PowerIsOneOrEven(k: nat)
    ensures Pow2(k) == 1 || Pow2(k) % 2 == 0
  {
  }

  lemma {:induction false} AndSelf(n: nat)
    ensures And(n, n) == n
  {
    if n == 0 {
    } else {
      AndSelf(n / 2);
      assert n % 2 * (n % 2) == n % 2;
    }
  }

  lemma PowerIsItsOwnBucket(n: nat)
    requires IsPowerOfTwo(n)
    ensures IsLeastPower(n, n)
  {
  }

  /** A bucket that is the least power above `m` stays so while nothing larger is needed. */
  lemma BucketCovers(bucket: nat, m: int, needed: int)
    requires IsLeastPower(bucket, m) && needed <= bucket
    ensures IsLeastPower(bucket, Max(m, needed))
  {
  }

  lemma BucketOutgrown(grown: nat, bucket: nat, m: int, needed: int)
    requires IsLeastPower(bucket, m) && needed > bucket && IsLeastPower(grown, needed)
    ensures IsLeastPower(grown, Max(m, needed))
  {
  }

  /** The plaintext size: a power of two that holds the framed message and meets
      the requested minimum. */
  function Bucket(paddingMin: int, needed: nat): nat {
    var m := Max(256, paddingMin);
    var rounded := if And(m, m - 1) != 0 then Pow2(BitLength(m - 1)) else m;
    if needed > rounded then Pow2(BitLength(needed - 1)) else rounded
  }

  lemma BucketIsLeast(paddingMin: int, needed: nat)
    ensures IsLeastPower(Bucket(paddingMin, needed), Max(Max(256, paddingMin), needed))
  {
    var m := Max(256, paddingMin);
    var rounded := if And(m, m - 1) != 0 then Pow2(BitLength(m - 1)) else m;
    AndTestsPower(m);
    ShiftRoundsUp(m);
    if And(m, m - 1) == 0 {
      PowerIsItsOwnBucket(m);
    }
    if needed > rounded {
      ShiftRoundsUp(needed);
      BucketOutgrown(Pow2(BitLength(needed - 1)), rounded, m, needed);
    } else {
      BucketCovers(rounded, m, needed);
    }
  }

  /** The same computation with the bucket reassigned step by step. */
  method ChooseBucket(paddingMin: int, needed: nat) returns (bucket: nat)
    ensures IsLeastPower(bucket, Max(Max(256, paddingMin), needed))
    ensures bucket == Bucket(paddingMin, needed)
  {
    BucketIsLeast(paddingMin, needed);
    bucket := Max(256, paddingMin);
    if And(bucket, bucket - 1) != 0 {
      bucket := Pow2(BitLength(bucket - 1));
    }
    if needed > bucket {
      bucket := Pow2(BitLength(needed - 1));
    }
  }

  // ----- Length prefix -----

  const PREFIX_LIMIT := 0x1_0000_0000

  function BigEndian4(n: nat): Bytes
    requires n < PREFIX_LIMIT
  {
    [n / 0x100_0000, n / 0x1_0000 % 256, n / 256 % 256, n % 256]
  }

  function FromBigEndian(b: Bytes): nat {
    if b == [] then 0 else FromBigEndian(b[..|b| - 1]) * 256 + b[|b| - 1]
  }

  lemma BigEndianRoundTrip(n: nat)
    requires n < PREFIX_LIMIT
    ensures FromBigEndian(BigEndian4(n)) == n
  {
    var b := BigEndian4(n);
    assert b[..3][..2][..1] == [b[0]] && b[..3][..2] == [b[0], b[1]] && b[..3] == [b[0], b[1], b[2]];
    var b0: int, b1: int, b2: int := b[0], b[1], b[2];
    assert FromBigEndian([b[0]]) == b0 by {
      assert [b[0]][..0] == [];
    }
    assert FromBigEndian([b[0], b[1]]) == b0 * 256 + b1;
    assert FromBigEndian([b[0], b[1], b[2]]) == (b0 * 256 + b1) * 256 + b2;
    assert n == ((b0 * 256 + b1) * 256 + b2) * 256 + n % 256;
  }

  /** A framed message: its length, itself, and padding. */
  function Frame(inner: Bytes, padding: Bytes): Bytes
    requires |inner| < PREFIX_LIMIT
  {
    BigEndian4(|inner|) + inner + padding
  }

  function Unframe(plaintext: Bytes): Option<Bytes> {
    if |plaintext| < 4 then None
    else
      var size := FromBigEndian(plaintext[..4]);
      if size <= 0 || size > |plaintext| - 4 then None else Some(plaintext[4..4 + size])
  }

  /** The padding never reaches the reader. */
  lemma UnframeFrame(inner: Bytes, padding: Bytes)
    requires 0 < |inner| < PREFIX_LIMIT
    ensures Unframe(Frame(inner, padding)) == Some(inner)
  {
    var f := Frame(inner, padding);
    assert f[..4] == BigEndian4(|inner|);
    BigEndianRoundTrip(|inner|);
    assert f[4..4 + |inner|] == inner;
  }
}
