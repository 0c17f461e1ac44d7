/**
 The collector's line assembler: bytes arrive in arbitrary chunks, complete lines leave, the
 unfinished line stays in `tail`.  A tail that outgrows MAX_TAIL is spat out whole.
 */
module LineAssembler {
  import opened Bytes

  const NEWLINE: byte := 10
  const RETURN: byte := 13
  const MAX_TAIL := 0x1_0000

  /** strings.TrimSuffix(line, "\r"): one carriage return at most. */
  function TrimReturn(line: bytes): (t: bytes)
    ensures t + [RETURN] == line || (t == line && (line == [] || line[|line| - 1] != RETURN))
  {
    if |line| > 0 && line[|line| - 1] == RETURN then line[..|line| - 1] else line
  }

  function FirstNewline(s: bytes): (i: nat)
    ensures i <= |s| && NEWLINE !in s[..i]
    ensures i < |s| ==> s[i] == NEWLINE
  {
    if s == [] || s[0] == NEWLINE then 0
    else
      var j := FirstNewline(s[1..]);
      assert s[..1 + j] == [s[0]] + s[1..][..j];
      1 + j
  }

  // ---------------------------------------------------------------- the byte-at-a-time splitter

  datatype Split = Split(lines: seq<bytes>, residue: bytes)

  /** The reference: look at one byte at a time, cut at every newline. */
  function SplitBytes(s: bytes): Split {
    if s == [] then Split([], [])
    else
      var before, b := SplitBytes(s[..|s| - 1]), s[|s| - 1];
      if b == NEWLINE then Split(before.lines + [TrimReturn(before.residue)], [])
      else Split(before.lines, before.residue + [b])
  }

  lemma {:induction false} SplitAppend(s: bytes, t: bytes)
    ensures SplitBytes(s + t).lines == SplitBytes(s).lines + SplitBytes(SplitBytes(s).residue + t).lines
    ensures SplitBytes(s + t).residue == SplitBytes(SplitBytes(s).residue + t).residue
  {
    var r := SplitBytes(s).residue;
    if t == [] {
      assert s + t == s && r + t == r;
      ResidueHasNoNewline(s);
      SplitQuiet(r);
    } else {
      var front, b := t[..|t| - 1], t[|t| - 1];
      SplitAppend(s, front);
      assert (s + t)[..|s + t| - 1] == s + front;
      assert (r + t)[..|r + t| - 1] == r + front;
    }
  }

  lemma {:induction false} ResidueHasNoNewline(s: bytes)
    ensures NEWLINE !in SplitBytes(s).residue
  {
    if s != [] {
      ResidueHasNoNewline(s[..|s| - 1]);
    }
  }

  lemma {:induction false} SplitQuiet(s: bytes)
    requires NEWLINE !in s
    ensures SplitBytes(s) == Split([], s)
  {
    if s != [] {
      SplitQuiet(s[..|s| - 1]);
      assert s == s[..|s| - 1] + [s[|s| - 1]];
    }
  }

  lemma SplitOneLine(line: bytes)
    requires NEWLINE !in line
    ensures SplitBytes(line + [NEWLINE]) == Split([TrimReturn(line)], [])
  {
    SplitQuiet(line);
    assert (line + [NEWLINE])[..|line|] == line;
  }

  lemma SplitBehindLine(line: bytes, rest: bytes)
    requires NEWLINE !in line
    ensures SplitBytes((line + [NEWLINE]) + rest).lines == [TrimReturn(line)] + SplitBytes(rest).lines
    ensures SplitBytes((line + [NEWLINE]) + rest).residue == SplitBytes(rest).residue
  {
    var r := SplitBytes(line + [NEWLINE]).residue;
    SplitOneLine(line);
    SplitAppend(line + [NEWLINE], rest);
    assert r + rest == rest;
  }

  lemma CutAt(s: bytes, i: nat)
    requires i < |s|
    ensures (s[..i] + [s[i]]) + s[i + 1..] == s
  {
  }

  lemma SplitFirstLine(s: bytes, i: nat)
    requires i < |s| && s[i] == NEWLINE && NEWLINE !in s[..i]
    ensures SplitBytes(s).lines == [TrimReturn(s[..i])] + SplitBytes(s[i + 1..]).lines
    ensures SplitBytes(s).residue == SplitBytes(s[i + 1..]).residue
  {
    CutAt(s, i);
    SplitBehindLine(s[..i], s[i + 1..]);
  }

  // ---------------------------------------------------------------- one feed

  datatype Fed = Fed(lines: seq<bytes>, tail: bytes)

  function FeedSpec(tail: bytes, data: bytes): Fed {
    var all := tail + data;
    if |all| > MAX_TAIL then Fed([all], [])
    else Fed(SplitBytes(all).lines, SplitBytes(all).residue)
  }

  class Assembler {
    var tail: bytes

    constructor ()
      ensures tail == []
    {
      tail := [];
    }

    method Feed(data: bytes) returns (lines: seq<bytes>)
      modifies this
      ensures Fed(lines, tail) == FeedSpec(old(tail), data)
      ensures |tail| <= MAX_TAIL && NEWLINE !in tail
    {
      tail := tail + data;
      if |tail| > MAX_TAIL {
        lines := [tail];
        tail := [];
        return;
      }
      ghost var all := tail;
      lines := [];
      while true
        invariant |tail| <= |all| <= MAX_TAIL
        invariant SplitBytes(all).lines == lines + SplitBytes(tail).lines
        invariant SplitBytes(all).residue == SplitBytes(tail).residue
        decreases |tail|
      {
        var i := FirstNewline(tail);
        if i == |tail| {
          assert tail[..i] == tail;
          SplitQuiet(tail);
          break;
        }
        SplitFirstLine(tail, i);
        var line := TrimReturn(tail[..i]);
        tail := tail[i + 1..];
        lines := lines + [line];
      }
    }

    method Flush() returns (rest: bytes)
      modifies this
      ensures rest == old(tail) && tail == []
    {
      rest := tail;
      tail := [];
    }
  }

  // ---------------------------------------------------------------- whole streams

  /** Feeding a list of chunks to a fresh assembler. */
  function FeedAll(chunks: seq<bytes>): Fed {
    if chunks == [] then Fed([], [])
    else
      var before := FeedAll(chunks[..|chunks| - 1]);
      var last := FeedSpec(before.tail, chunks[|chunks| - 1]);
      Fed(before.lines + last.lines, last.tail)
  }

  /** No feed pushes the buffer past the limit. */
  predicate NeverOverflows(chunks: seq<bytes>) {
    chunks != [] ==>
      && NeverOverflows(chunks[..|chunks| - 1])
      && |FeedAll(chunks[..|chunks| - 1]).tail + chunks[|chunks| - 1]| <= MAX_TAIL
  }

  /** However the stream is cut, the lines and the residue are those of the reference splitter. */
  lemma {:induction false} ChunkingIsInvisible(chunks: seq<bytes>)
    requires NeverOverflows(chunks)
    ensures FeedAll(chunks).lines == SplitBytes(Joined(chunks)).lines
    ensures FeedAll(chunks).tail == SplitBytes(Joined(chunks)).residue
  {
    if chunks != [] {
      var front, last := chunks[..|chunks| - 1], chunks[|chunks| - 1];
      ChunkingIsInvisible(front);
      SplitAppend(Joined(front), last);
    }
  }

  lemma {:induction false} TailStaysSmall(chunks: seq<bytes>)
    ensures |FeedAll(chunks).tail| <= MAX_TAIL && NEWLINE !in FeedAll(chunks).tail
  {
    if chunks != [] {
      var all := FeedAll(chunks[..|chunks| - 1]).tail + chunks[|chunks| - 1];
      ResidueHasNoNewline(all);
      ResidueIsSuffix(all);
    }
  }

  lemma {:induction false} ResidueIsSuffix(s: bytes)
    ensures |SplitBytes(s).residue| <= |s|
    ensures SplitBytes(s).residue == s[|s| - |SplitBytes(s).residue|..]
  {
    if s != [] {
      ResidueIsSuffix(s[..|s| - 1]);
    }
  }

  // ---------------------------------------------------------------- nothing is lost

  /** The raw bytes a line stands for: with its newline, and with the stripped return if any. */
  datatype Terminator = Bare | Lf | CrLf

  function Raw(line: bytes, t: Terminator): bytes {
    match t
    case Bare => line
    case Lf => line + [NEWLINE]
    case CrLf => line + [RETURN, NEWLINE]
  }

  function RawAll(lines: seq<bytes>, ts: seq<Terminator>): bytes
    requires |lines| == |ts|
  {
    if lines == [] then []
    else RawAll(lines[..|lines| - 1], ts[..|ts| - 1]) + Raw(lines[|lines| - 1], ts[|ts| - 1])
  }

  lemma RawAllSnoc(lines: seq<bytes>, ts: seq<Terminator>, line: bytes, t: Terminator)
    requires |lines| == |ts|
    ensures RawAll(lines + [line], ts + [t]) == RawAll(lines, ts) + Raw(line, t)
  {
  }

  lemma LastOfBoth<T>(a: seq<T>, b: seq<T>)
    requires b != []
    ensures a + b == (a + b[..|b| - 1]) + [b[|b| - 1]]
  {
  }

  lemma {:induction false} RawAllAppend(a: seq<bytes>, ta: seq<Terminator>, b: seq<bytes>, tb: seq<Terminator>)
    requires |a| == |ta| && |b| == |tb|
    ensures RawAll(a + b, ta + tb) == RawAll(a, ta) + RawAll(b, tb)
  {
    if b == [] {
      assert a + b == a && ta + tb == ta;
    } else {
      var n := |b| - 1;
      var front, tFront := b[..n], tb[..n];
      RawAllAppend(a, ta, front, tFront);
      LastOfBoth(a, b);
      LastOfBoth(ta, tb);
      RawAllSnoc(a + front, ta + tFront, b[n], tb[n]);
      Assoc(RawAll(a, ta), RawAll(front, tFront), Raw(b[n], tb[n]));
    }
  }

  lemma {:induction false} SplitLosesNothing(s: bytes) returns (ts: seq<Terminator>)
    ensures |ts| == |SplitBytes(s).lines|
    ensures RawAll(SplitBytes(s).lines, ts) + SplitBytes(s).residue == s
    ensures Bare !in ts && forall i :: 0 <= i < |SplitBytes(s).lines| ==> |SplitBytes(s).lines[i]| <= |s|
  {
    ts := [];
    if s != [] {
      var front, b := s[..|s| - 1], s[|s| - 1];
      var before := SplitBytes(front);
      ts := SplitLosesNothing(front);
      assert s == front + [b];
      if b == NEWLINE {
        ResidueIsSuffix(front);
        var t := if TrimReturn(before.residue) == before.residue then Lf else CrLf;
        assert before.residue + [b] == Raw(TrimReturn(before.residue), t);
        assert (before.lines + [TrimReturn(before.residue)])[..|before.lines|] == before.lines;
        assert (ts + [t])[..|ts|] == ts;
        ts := ts + [t];
      }
    }
  }

  /**
   Conservation, for every chunking and with the overflow guard included: the raw bytes of the
   emitted lines followed by the tail are exactly the input.  Exactly the lines beyond the limit,
   which only an overflowing feed emits, come without a terminator.
   */
  lemma {:induction false} NothingIsLost(chunks: seq<bytes>) returns (ts: seq<Terminator>)
    ensures |ts| == |FeedAll(chunks).lines|
    ensures RawAll(FeedAll(chunks).lines, ts) + FeedAll(chunks).tail == Joined(chunks)
    ensures forall i :: 0 <= i < |ts| ==> (ts[i] == Bare <==> |FeedAll(chunks).lines[i]| > MAX_TAIL)
    ensures NeverOverflows(chunks) ==> Bare !in ts
  {
    ts := [];
    if chunks != [] {
      var front, last := chunks[..|chunks| - 1], chunks[|chunks| - 1];
      var before := FeedAll(front);
      var tb := NothingIsLost(front);
      var all := before.tail + last;
      var tl: seq<Terminator>;
      if |all| > MAX_TAIL {
        tl := [Bare];
        assert RawAll([all], tl) == all;
      } else {
        tl := SplitLosesNothing(all);
      }
      ts := tb + tl;
      var fed := FeedSpec(before.tail, last);
      assert RawAll(fed.lines, tl) + fed.tail == all;
      var raw := RawAll(before.lines, tb);
      calc {
        RawAll(FeedAll(chunks).lines, ts) + FeedAll(chunks).tail;
        { RawAllAppend(before.lines, tb, fed.lines, tl); }
        (raw + RawAll(fed.lines, tl)) + fed.tail;
        { Assoc(raw, RawAll(fed.lines, tl), fed.tail); }
        raw + all;
        { Assoc(raw, before.tail, last); }
        Joined(chunks);
      }
    }
  }

  /** Only an oversized chunk leaves without a terminator, so newlines in a line mean overflow. */
  lemma {:induction false} SplitLinesHaveNoNewline(s: bytes, i: nat)
    requires i < |SplitBytes(s).lines|
    ensures NEWLINE !in SplitBytes(s).lines[i]
  {
    var front := s[..|s| - 1];
    if i < |SplitBytes(front).lines| {
      SplitLinesHaveNoNewline(front, i);
    } else {
      ResidueHasNoNewline(front);
    }
  }
}
