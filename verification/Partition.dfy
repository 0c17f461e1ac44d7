/** The flash partition table: 32-byte entries, ended by an MD5 entry, erased flash or the data's end. */
module Partition {
  import opened Bytes

  const ENTRY := 32
  const LABEL := 16
  const MAGIC_PART := 0x50AA
  const MAGIC_MD5 := 0xEBEB
  const MAGIC_ERASED := 0xFFFF

  datatype Part = Part(kind: byte, sub: byte, offset: nat, size: nat, name: bytes, flags: nat)

  datatype Outcome = Fine | BadMagic(index: nat, magic: nat)

  function Slot(data: bytes, i: nat): (e: bytes)
    requires ENTRY * i + ENTRY <= |data|
    ensures |e| == ENTRY
  {
    data[ENTRY * i..ENTRY * i + ENTRY]
  }

  function Magic(e: bytes): nat
    requires |e| == ENTRY
  {
    FromLE(e[..2])
  }

  function Decode(e: bytes): Part
    requires |e| == ENTRY
  {
    Part(e[2], e[3], FromLE(e[4..8]), FromLE(e[8..12]), TrimNul(e[12..28]), FromLE(e[28..32]))
  }

  // ---------------------------------------------------------------- the parser

  predicate IsEntry(data: bytes, i: nat, p: Part) {
    ENTRY * i + ENTRY <= |data| && Magic(Slot(data, i)) == MAGIC_PART && Decode(Slot(data, i)) == p
  }

  /** Where reading stops: quietly at the end of the table, or at an entry that is none. */
  predicate StopsAt(data: bytes, n: nat, err: Outcome) {
    if ENTRY * n + ENTRY > |data| then err == Fine
    else
      var m := Magic(Slot(data, n));
      m != MAGIC_PART && err == if m == MAGIC_MD5 || m == MAGIC_ERASED then Fine else BadMagic(n, m)
  }

  /** What a reading of the table has to be: every entry before the stop, and why it stopped. */
  predicate IsParse(data: bytes, out: seq<Part>, err: Outcome) {
    (forall i: nat :: i < |out| ==> IsEntry(data, i, out[i])) && StopsAt(data, |out|, err)
  }

  method ParsePartitions(data: bytes) returns (out: seq<Part>, err: Outcome)
    ensures IsParse(data, out, err)
  {
    out := [];
    var off := 0;
    while off + ENTRY <= |data|
      invariant off == ENTRY * |out|
      invariant forall i: nat :: i < |out| ==> IsEntry(data, i, out[i])
      decreases |data| - off
    {
      var magic := FromLE(data[off..off + 2]);
      assert Slot(data, |out|)[..2] == data[off..off + 2];
      if magic == MAGIC_MD5 || magic == MAGIC_ERASED {
        break;
      }
      if magic != MAGIC_PART {
        return out, BadMagic(off / ENTRY, magic);
      }
      out := out + [Decode(data[off..off + ENTRY])];
      off := off + ENTRY;
    }
    err := Fine;
  }

  /** A byte string has one reading. */
  lemma ParseIsUnique(data: bytes, a: seq<Part>, x: Outcome, b: seq<Part>, y: Outcome)
    requires IsParse(data, a, x) && IsParse(data, b, y)
    ensures a == b && x == y
  {
    assert |a| < |b| ==> IsEntry(data, |a|, b[|a|]);
    assert |b| < |a| ==> IsEntry(data, |b|, a[|b|]);
    forall i: nat | i < |a| ensures a[i] == b[i] {
      assert IsEntry(data, i, a[i]) && IsEntry(data, i, b[i]);
    }
  }

  // ---------------------------------------------------------------- the writer's side

  predicate Proper(p: Part) {
    p.offset < TWO_32 && p.size < TWO_32 && p.flags < TWO_32 && |p.name| <= LABEL && 0 !in p.name
  }

  function Zeros(n: nat): (z: bytes)
    ensures |z| == n && forall i :: 0 <= i < n ==> z[i] == 0
  {
    seq(n, _ => 0)
  }

  function Word(n: nat): (w: bytes)
    ensures |w| == 4
  {
    ToLE(n, 4)
  }

  function Encode(p: Part): (e: bytes)
    requires Proper(p)
    ensures |e| == ENTRY
  {
    [0xAA, 0x50, p.kind, p.sub] + Word(p.offset) + Word(p.size)
    + (p.name + Zeros(LABEL - |p.name|)) + Word(p.flags)
  }

  function EncodeTable(parts: seq<Part>): (b: bytes)
    requires forall p :: p in parts ==> Proper(p)
    ensures |b| == ENTRY * |parts|
  {
    if parts == [] then [] else EncodeTable(parts[..|parts| - 1]) + Encode(parts[|parts| - 1])
  }

  lemma WordInverse(n: nat)
    requires n < TWO_32
    ensures FromLE(Word(n)) == n
  {
    LEInverse(n, 4);
    Pow256Widths();
  }

  lemma PartMagic()
    ensures FromLE([0xAA, 0x50]) == MAGIC_PART
  {
  }

  lemma DecodeEncoded(p: Part)
    requires Proper(p)
    ensures Decode(Encode(p)) == p && Magic(Encode(p)) == MAGIC_PART
  {
    var e := Encode(p);
    PartMagic();
    assert e[..2] == [0xAA, 0x50];
    assert e[4..8] == Word(p.offset) && e[8..12] == Word(p.size) && e[28..32] == Word(p.flags);
    assert e[12..28] == p.name + Zeros(LABEL - |p.name|);
    WordInverse(p.offset);
    WordInverse(p.size);
    WordInverse(p.flags);
    TrimPadded(p.name, Zeros(LABEL - |p.name|));
  }

  lemma {:induction false} WrittenSlot(parts: seq<Part>, rest: bytes, i: nat)
    requires (forall p :: p in parts ==> Proper(p)) && i < |parts|
    ensures Slot(EncodeTable(parts) + rest, i) == Encode(parts[i])
  {
    var front, last := parts[..|parts| - 1], parts[|parts| - 1];
    assert EncodeTable(parts) + rest == EncodeTable(front) + (Encode(last) + rest);
    if i < |front| {
      WrittenSlot(front, Encode(last) + rest, i);
    }
  }

  lemma WrittenEntry(parts: seq<Part>, rest: bytes, i: nat)
    requires (forall p :: p in parts ==> Proper(p)) && i < |parts|
    ensures IsEntry(EncodeTable(parts) + rest, i, parts[i])
  {
    WrittenSlot(parts, rest, i);
    DecodeEncoded(parts[i]);
  }

  lemma SlotBehind(table: bytes, rest: bytes, n: nat)
    requires |table| == ENTRY * n && |rest| >= ENTRY
    ensures Slot(table + rest, n) == rest[..ENTRY]
  {
  }

  /** A table as it is in flash, and what follows it: nothing, an MD5 entry, erased flash, or damage. */
  lemma WrittenIsParsed(parts: seq<Part>, rest: bytes, err: Outcome)
    requires forall p :: p in parts ==> Proper(p)
    requires if |rest| < ENTRY then err == Fine
             else var m := Magic(rest[..ENTRY]);
               m != MAGIC_PART && err == if m == MAGIC_MD5 || m == MAGIC_ERASED then Fine else BadMagic(|parts|, m)
    ensures IsParse(EncodeTable(parts) + rest, parts, err)
  {
    var table := EncodeTable(parts);
    forall i: nat | i < |parts| ensures IsEntry(table + rest, i, parts[i]) {
      WrittenEntry(parts, rest, i);
    }
    if |rest| >= ENTRY {
      SlotBehind(table, rest, |parts|);
    }
  }

  /**
   ParsePartitions inverts the table writer, whatever the table ends with; a damaged entry is
   reported by its index, with the entries before it.
   */
  method ParsesWhatWasWritten(parts: seq<Part>, rest: bytes) returns (out: seq<Part>, err: Outcome)
    requires forall p :: p in parts ==> Proper(p)
    requires |rest| >= ENTRY ==> Magic(rest[..ENTRY]) != MAGIC_PART
    ensures out == parts
    ensures err.Fine? <==> |rest| < ENTRY || Magic(rest[..ENTRY]) == MAGIC_MD5 || Magic(rest[..ENTRY]) == MAGIC_ERASED
    ensures err.BadMagic? ==> err.index == |parts| && err.magic == Magic(rest[..ENTRY])
  {
    out, err := ParsePartitions(EncodeTable(parts) + rest);
    ghost var m := if |rest| < ENTRY then MAGIC_MD5 else Magic(rest[..ENTRY]);
    ghost var expected := if m == MAGIC_MD5 || m == MAGIC_ERASED then Fine else BadMagic(|parts|, m);
    WrittenIsParsed(parts, rest, expected);
    ParseIsUnique(EncodeTable(parts) + rest, out, err, parts, expected);
  }

  // ---------------------------------------------------------------- lookup by label

  method Find(parts: seq<Part>, name: bytes) returns (p: Part, ok: bool)
    ensures ok <==> exists i :: 0 <= i < |parts| && parts[i].name == name
    ensures ok ==> exists i :: 0 <= i < |parts| && parts[i] == p && p.name == name
                               && forall j :: 0 <= j < i ==> parts[j].name != name
    ensures !ok ==> p == Part(0, 0, 0, 0, [], 0)
  {
    for i := 0 to |parts|
      invariant forall j :: 0 <= j < i ==> parts[j].name != name
    {
      if parts[i].name == name {
        return parts[i], true;
      }
    }
    return Part(0, 0, 0, 0, [], 0), false;
  }
}
