/** Bytes and the fixed-width integers the wire and flash formats are made of. */
module Bytes {
  type byte = x: int | 0 <= x < 256

  type bytes = seq<byte>

  const TWO_8 := 0x100
  const TWO_16 := 0x1_0000
  const TWO_32 := 0x1_0000_0000
  const TWO_64 := 0x1_0000_0000_0000_0000

  lemma Assoc<T>(a: seq<T>, b: seq<T>, c: seq<T>)
    ensures (a + b) + c == a + (b + c)
  {
  }

  /** Byte strings one after the other. */
  function Joined(parts: seq<bytes>): bytes {
    if parts == [] then [] else Joined(parts[..|parts| - 1]) + parts[|parts| - 1]
  }

  lemma JoinedSnoc(parts: seq<bytes>, b: bytes)
    ensures Joined(parts + [b]) == Joined(parts) + b
  {
  }

  lemma {:induction false} JoinedCons(b: bytes, parts: seq<bytes>)
    ensures Joined([b] + parts) == b + Joined(parts)
  {
    if parts == [] {
      assert [b] + parts == [] + [b];
      JoinedSnoc([], b);
    } else {
      var front, last := parts[..|parts| - 1], parts[|parts| - 1];
      JoinedCons(b, front);
      assert [b] + parts == ([b] + front) + [last];
      JoinedSnoc([b] + front, last);
      Assoc(b, Joined(front), last);
    }
  }

  /** Little-endian value of a byte string of any width. */
  function FromLE(b: bytes): nat {
    if b == [] then 0 else b[0] + TWO_8 * FromLE(b[1..])
  }

  function ToLE(n: nat, width: nat): (b: bytes)
    ensures |b| == width
  {
    if width == 0 then [] else [n % TWO_8] + ToLE(n / TWO_8, width - 1)
  }

  function Pow256(width: nat): (p: nat)
    ensures p > 0
  {
    if width == 0 then 1 else TWO_8 * Pow256(width - 1)
  }

  lemma {:induction false} LEInverse(n: nat, width: nat)
    ensures FromLE(ToLE(n, width)) == n % Pow256(width)
  {
    if width > 0 {
      LEInverse(n / TWO_8, width - 1);
      SplitMod(n, Pow256(width - 1));
    }
  }

  /** A number that fits its field is read back from it, whatever follows the field. */
  lemma LEField(n: nat, width: nat, rest: bytes)
    requires n < Pow256(width)
    ensures FromLE((ToLE(n, width) + rest)[..width]) == n
  {
  }

  lemma SplitMod(n: nat, p: nat)
    requires p > 0
    ensures TWO_8 * p > 0
    ensures n % TWO_8 + TWO_8 * ((n / TWO_8) % p) == n % (TWO_8 * p)
  {
    var q, r := n / TWO_8, n % TWO_8;
    var k, m := q / p, q % p;
    assert n == (TWO_8 * p) * k + (TWO_8 * m + r) by {
      assert q == p * k + m;
    }
    assert TWO_8 * m + r < TWO_8 * p;
    ModOf(n, TWO_8 * p, k, TWO_8 * m + r);
  }

  lemma ModOf(n: nat, d: nat, k: nat, r: nat)
    requires d > 0 && r < d && n == d * k + r
    ensures n % d == r && n / d == k
  {
    var q := n / d;
    assert n == d * q + n % d;
    MulStep(d, q, k);
    MulStep(d, k, q);
  }

  lemma {:induction false} MulStep(d: nat, a: nat, b: nat)
    ensures a < b ==> d * a + d <= d * b
  {
    if a + 1 < b {
      MulStep(d, a, b - 1);
      assert d * b == d * (b - 1) + d;
    } else if a + 1 == b {
      assert d * b == d * a + d;
    }
  }

  lemma Pow256Widths()
    ensures Pow256(1) == TWO_8 && Pow256(2) == TWO_16 && Pow256(4) == TWO_32 && Pow256(8) == TWO_64
  {
  }

  /** binary.BigEndian on four bytes. */
  function FromBE32(b: bytes): nat
    requires |b| == 4
  {
    FromLE([b[3], b[2], b[1], b[0]])
  }

  function ToBE32(n: nat): (b: bytes)
    ensures |b| == 4
  {
    var le := ToLE(n, 4);
    [le[3], le[2], le[1], le[0]]
  }

  lemma BE32Inverse(n: nat)
    ensures FromBE32(ToBE32(n)) == n % TWO_32
  {
    var le := ToLE(n, 4);
    assert [le[0], le[1], le[2], le[3]] == le;
    LEInverse(n, 4);
    Pow256Widths();
  }

  /** A byte string up to its first NUL. */
  function TrimNul(b: bytes): (t: bytes)
    ensures t <= b && 0 !in t
    ensures |t| < |b| ==> b[|t|] == 0
  {
    if b == [] || b[0] == 0 then [] else [b[0]] + TrimNul(b[1..])
  }

  lemma {:induction false} TrimPadded(text: bytes, rest: bytes)
    requires 0 !in text && (rest != [] ==> rest[0] == 0)
    ensures TrimNul(text + rest) == text
  {
    if text == [] {
      assert text + rest == rest;
    } else {
      TrimPadded(text[1..], rest);
      assert (text + rest)[1..] == text[1..] + rest;
    }
  }
}
