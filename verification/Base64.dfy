/** Base64 with padding (section 4 of RFC 4648), read as leniently as Go's StdEncoding reads it. */
module Base64 {
  import opened Bytes

  datatype Decoded = Bytes(value: bytes) | Corrupt

  predicate IsLetter(c: char) {
    'A' <= c <= 'Z' || 'a' <= c <= 'z' || '0' <= c <= '9' || c == '+' || c == '/'
  }

  function Sextet(c: char): (n: nat)
    requires IsLetter(c)
    ensures n < 64
  {
    if 'A' <= c <= 'Z' then c as int - 'A' as int
    else if 'a' <= c <= 'z' then 26 + (c as int - 'a' as int)
    else if '0' <= c <= '9' then 52 + (c as int - '0' as int)
    else if c == '+' then 62
    else 63
  }

  function Letter(n: nat): (c: char)
    requires n < 64
    ensures IsLetter(c) && Sextet(c) == n
  {
    if n < 26 then ('A' as int + n) as char
    else if n < 52 then ('a' as int + n - 26) as char
    else if n < 62 then ('0' as int + n - 52) as char
    else if n == 62 then '+'
    else '/'
  }

  /** Three bytes as four letters of six bits. */
  function Group(x: byte, y: byte, z: byte): (t: string)
    ensures |t| == 4 && forall c :: c in t ==> IsLetter(c)
  {
    [Letter(x / 4), Letter(x % 4 * 16 + y / 16), Letter(y % 16 * 4 + z / 64), Letter(z % 64)]
  }

  function Packed(a: nat, b: nat, c: nat, d: nat): (p: bytes)
    requires a < 64 && b < 64 && c < 64 && d < 64
    ensures |p| == 3
  {
    [a * 4 + b / 16, b % 16 * 16 + c / 4, c % 4 * 64 + d]
  }

  function Encode(b: bytes): (t: string)
    ensures b != [] ==> t != ""
    ensures forall c :: c in t ==> IsLetter(c) || c == '='
  {
    if |b| == 0 then ""
    else if |b| == 1 then [Letter(b[0] / 4), Letter(b[0] % 4 * 16)] + "=="
    else if |b| == 2 then [Letter(b[0] / 4), Letter(b[0] % 4 * 16 + b[1] / 16), Letter(b[1] % 16 * 4)] + "="
    else Group(b[0], b[1], b[2]) + Encode(b[3..])
  }

  /** Line breaks are skipped wherever they stand. */
  function Unbroken(t: string): string {
    if t == "" then ""
    else Unbroken(t[..|t| - 1]) + (if t[|t| - 1] == '\r' || t[|t| - 1] == '\n' then "" else [t[|t| - 1]])
  }

  /** Groups of four letters; only the last may be padded, and its spare bits are not looked at. */
  function DecodeGroups(t: string): Decoded {
    if t == "" then Bytes([])
    else if |t| < 4 || !IsLetter(t[0]) || !IsLetter(t[1]) then Corrupt
    else
      var a, b := Sextet(t[0]), Sextet(t[1]);
      if t[2..] == "==" then Bytes([a * 4 + b / 16])
      else if !IsLetter(t[2]) then Corrupt
      else
        var c := Sextet(t[2]);
        if t[3..] == "=" then Bytes([a * 4 + b / 16, b % 16 * 16 + c / 4])
        else if !IsLetter(t[3]) then Corrupt
        else
          var more := DecodeGroups(t[4..]);
          if more.Corrupt? then Corrupt
          else Bytes(Packed(a, b, c, Sextet(t[3])) + more.value)
  }

  function Decode(t: string): Decoded {
    DecodeGroups(Unbroken(t))
  }

  lemma {:induction false} NothingToSkip(t: string)
    requires '\r' !in t && '\n' !in t
    ensures Unbroken(t) == t
  {
    if t != "" {
      NothingToSkip(t[..|t| - 1]);
    }
  }

  lemma LineBreakIsSkipped(t: string, c: char)
    requires c == '\r' || c == '\n'
    ensures Unbroken(t + [c]) == Unbroken(t)
  {
    assert (t + [c])[..|t|] == t;
  }

  lemma FullGroup(t: string, rest: string)
    requires |t| == 4 && IsLetter(t[0]) && IsLetter(t[1]) && IsLetter(t[2]) && IsLetter(t[3])
    ensures DecodeGroups(t + rest) ==
              match DecodeGroups(rest)
              case Corrupt => Corrupt
              case Bytes(more) =>
                Bytes(Packed(Sextet(t[0]), Sextet(t[1]), Sextet(t[2]), Sextet(t[3])) + more)
  {
    var u := t + rest;
    assert u[2..][0] == t[2] && u[3..][0] == t[3];
    assert u[4..] == rest;
  }

  lemma GroupInverse(x: byte, y: byte, z: byte, rest: string)
    requires DecodeGroups(rest).Bytes?
    ensures DecodeGroups(Group(x, y, z) + rest) == Bytes([x, y, z] + DecodeGroups(rest).value)
  {
    var t := Group(x, y, z);
    assert Packed(Sextet(t[0]), Sextet(t[1]), Sextet(t[2]), Sextet(t[3])) == [x, y, z];
    FullGroup(t, rest);
  }

  lemma OneByte(x: byte)
    ensures DecodeGroups(Encode([x])) == Bytes([x])
  {
    assert Encode([x])[2..] == "==";
  }

  lemma PaddedGroup(t: string)
    requires |t| == 4 && IsLetter(t[0]) && IsLetter(t[1]) && IsLetter(t[2]) && t[3] == '='
    ensures DecodeGroups(t) == Bytes(Packed(Sextet(t[0]), Sextet(t[1]), Sextet(t[2]), 0)[..2])
  {
    assert t[3..] == "=" && t[2..][0] == t[2];
  }

  lemma TwoBytes(x: byte, y: byte)
    ensures DecodeGroups(Encode([x, y])) == Bytes([x, y])
  {
    PaddedGroup(Encode([x, y]));
    SplitAndPacked(x, y);
  }

  lemma SplitAndPacked(x: byte, y: byte)
    ensures x / 4 * 4 + (x % 4 * 16 + y / 16) / 16 == x
    ensures (x % 4 * 16 + y / 16) % 16 * 16 + y % 16 * 4 / 4 == y
  {
  }

  lemma {:induction false} GroupsInverse(b: bytes)
    ensures DecodeGroups(Encode(b)) == Bytes(b)
  {
    if |b| == 1 {
      OneByte(b[0]);
      assert b == [b[0]];
    } else if |b| == 2 {
      TwoBytes(b[0], b[1]);
      assert b == [b[0], b[1]];
    } else if |b| >= 3 {
      GroupsInverse(b[3..]);
      GroupInverse(b[0], b[1], b[2], Encode(b[3..]));
      assert b == [b[0], b[1], b[2]] + b[3..];
    }
  }

  /** What Encode writes is read back. */
  lemma DecodeInvertsEncode(b: bytes)
    ensures Decode(Encode(b)) == Bytes(b)
  {
    NothingToSkip(Encode(b));
    GroupsInverse(b);
  }
}
