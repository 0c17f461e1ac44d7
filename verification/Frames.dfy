/** The length-prefixed frame codec of a mesh connection, over a stream that arrives in pieces. */
module Frames {
  import opened Bytes

  const MAX_FRAME := 0x80_0000

  datatype Frame = Frame(kind: byte, payload: bytes)

  datatype Outcome = Got(frame: Frame) | Broken(read: nat) | BadLength(n: nat)

  /** The limit the reader enforces on type byte plus payload. */
  predicate Fits(f: Frame) {
    1 + |f.payload| <= MAX_FRAME
  }

  /** writeFrame: the length is truncated to 32 bits as uint32(...) does. */
  function Encode(f: Frame): bytes {
    ToBE32(1 + |f.payload|) + [f.kind] + f.payload
  }

  function EncodeAll(fs: seq<Frame>): bytes {
    if fs == [] then [] else Encode(fs[0]) + EncodeAll(fs[1..])
  }

  /** What readFrame answers on a stream, and what it leaves unread. */
  function Decode(s: bytes): (Outcome, bytes) {
    if |s| < 4 then (Broken(|s|), [])
    else
      var n := FromBE32(s[..4]);
      if n == 0 || n > MAX_FRAME then (BadLength(n), s[4..])
      else if |s| < 4 + n then (Broken(|s|), [])
      else (Got(Frame(s[4], s[5..4 + n])), s[4 + n..])
  }

  datatype Batch = Batch(frames: seq<Frame>, rest: bytes, clean: bool)

  /** Up to n frames read one after the other, stopping at the first failure. */
  function DecodeMany(s: bytes, n: nat): Batch {
    if n == 0 then Batch([], s, true)
    else
      var (r, rest) := Decode(s);
      if !r.Got? then Batch([], rest, false)
      else
        var more := DecodeMany(rest, n - 1);
        more.(frames := [r.frame] + more.frames)
  }

  /** A batch with these frames in front. */
  function Behind(frames: seq<Frame>, b: Batch): Batch {
    b.(frames := frames + b.frames)
  }

  lemma BehindOne(frames: seq<Frame>, f: Frame, b: Batch)
    ensures Behind(frames + [f], b) == Behind(frames, Behind([f], b))
  {
    Assoc(frames, [f], b.frames);
  }

  // ---------------------------------------------------------------- the connection

  /** The unread part of a connection, cut the way the network delivered it. */
  class Conn {
    var chunks: seq<bytes>

    constructor (chunks: seq<bytes>)
      ensures this.chunks == chunks
    {
      this.chunks := chunks;
    }

    function Stream(): bytes
      reads this
    {
      Joined(chunks)
    }

    /** io.ReadFull: keep reading until n bytes are there or the stream ends. */
    method ReadFull(n: nat) returns (ok: bool, data: bytes)
      modifies this
      ensures ok == (|old(Stream())| >= n)
      ensures ok ==> data == old(Stream())[..n] && Stream() == old(Stream())[n..]
      ensures !ok ==> data == old(Stream()) && Stream() == []
    {
      data := [];
      while |data| < n && chunks != []
        invariant |data| <= n
        invariant data + Stream() == old(Stream())
        decreases |chunks|, n - |data|
      {
        var first := chunks[0];
        var want := n - |data|;
        assert chunks == [first] + chunks[1..];
        JoinedCons(first, chunks[1..]);
        Assoc(data, first, Joined(chunks[1..]));
        if |first| <= want {
          data := data + first;
          chunks := chunks[1..];
        } else {
          data := data + first[..want];
          assert first == first[..want] + first[want..];
          JoinedCons(first[want..], chunks[1..]);
          chunks := [first[want..]] + chunks[1..];
        }
      }
      ok := |data| == n;
    }

    method ReadFrame() returns (r: Outcome)
      modifies this
      ensures (r, Stream()) == Decode(old(Stream()))
    {
      ghost var s := Stream();
      var ok, head := ReadFull(4);
      if !ok {
        return Broken(|head|);
      }
      var n := FromBE32(head);
      if n == 0 || n > MAX_FRAME {
        return BadLength(n);
      }
      var body;
      ok, body := ReadFull(n);
      if !ok {
        return Broken(4 + |body|);
      }
      assert body == s[4..4 + n];
      return Got(Frame(body[0], body[1..]));
    }

    /** Frame after frame, up to n or the first failure, however the stream is cut. */
    method ReadMany(n: nat) returns (b: Batch)
      modifies this
      ensures b == DecodeMany(old(Stream()), n)
      ensures Stream() == b.rest
    {
      var frames: seq<Frame> := [];
      for i := 0 to n
        invariant Behind(frames, DecodeMany(Stream(), n - i)) == DecodeMany(old(Stream()), n)
      {
        ghost var more := DecodeMany(Stream(), n - i);
        ghost var was := Stream();
        var r := ReadFrame();
        if !r.Got? {
          assert more == Batch([], Stream(), false) && frames + [] == frames;
          return Batch(frames, Joined(chunks), false);
        }
        BehindOne(frames, r.frame, DecodeMany(Stream(), n - i - 1));
        frames := frames + [r.frame];
      }
      assert frames + [] == frames;
      return Batch(frames, Joined(chunks), true);
    }
  }

  // ---------------------------------------------------------------- round trip

  /**
   A written frame is read back as itself, with everything behind it untouched, exactly when it
   keeps the limit.
   */
  lemma ReadBackIffItFits(f: Frame, rest: bytes)
    ensures Decode(Encode(f) + rest) == (Got(f), rest) <==> Fits(f)
  {
    var n, s := 1 + |f.payload|, Encode(f) + rest;
    BE32Inverse(n);
    assert s[..4] == ToBE32(n);
    if Fits(f) {
      assert s[4] == f.kind && s[5..4 + n] == f.payload && s[4 + n..] == rest;
    } else if Decode(s).0.Got? {
      assert |Decode(s).0.frame.payload| < |f.payload|;
    }
  }

  /** A batch is clean exactly if all its frames came. */
  lemma {:induction false} CleanIffAllCame(s: bytes, n: nat)
    ensures |DecodeMany(s, n).frames| <= n
    ensures DecodeMany(s, n).clean <==> |DecodeMany(s, n).frames| == n
  {
    if n > 0 && Decode(s).0.Got? {
      CleanIffAllCame(Decode(s).1, n - 1);
    }
  }

  /** A length of zero or beyond the limit is refused as soon as it is there, whatever follows. */
  lemma BadLengthIsSeen(s: bytes)
    requires |s| >= 4
    ensures Decode(s).0.BadLength? <==> FromBE32(s[..4]) == 0 || FromBE32(s[..4]) > MAX_FRAME
  {
  }

  /** Back-to-back frames come back as the same list; by Conn.ReadMany in any fragmentation. */
  lemma {:induction false} ListReadsBack(fs: seq<Frame>, rest: bytes)
    requires forall f :: f in fs ==> Fits(f)
    ensures DecodeMany(EncodeAll(fs) + rest, |fs|) == Batch(fs, rest, true)
  {
    if fs == [] {
      assert EncodeAll(fs) + rest == rest;
    } else {
      ListReadsBack(fs[1..], rest);
      ReadBackIffItFits(fs[0], EncodeAll(fs[1..]) + rest);
      assert EncodeAll(fs) + rest == Encode(fs[0]) + (EncodeAll(fs[1..]) + rest);
    }
  }

  /** An encoding says where every frame ends: no two lists of frames share one. */
  lemma {:induction false} EncodingIsInjective(fs: seq<Frame>, gs: seq<Frame>)
    requires (forall f :: f in fs ==> Fits(f)) && (forall g :: g in gs ==> Fits(g))
    requires EncodeAll(fs) == EncodeAll(gs)
    ensures fs == gs
  {
    if fs != [] && gs != [] {
      ReadBackIffItFits(fs[0], EncodeAll(fs[1..]));
      ReadBackIffItFits(gs[0], EncodeAll(gs[1..]));
      EncodingIsInjective(fs[1..], gs[1..]);
      assert fs == [fs[0]] + fs[1..] && gs == [gs[0]] + gs[1..];
    }
  }

  // ---------------------------------------------------------------- data blocks

  const NONCE := 12
  const TAG := 16
  const BLOCK := 0x10_0000

  /** Length of the padded base64 text of n bytes (section 4 of RFC 4648). */
  function Base64Length(n: nat): nat {
    4 * ((n + 2) / 3)
  }

  /** Size of a sealed frame that carries n raw bytes in base64 next to `fields` bytes of JSON. */
  function SealedSize(n: nat, fields: nat): nat {
    1 + NONCE + Base64Length(n) + fields + TAG
  }

  /** Upload and tail blocks carry at most 1 MiB: such a frame fits unless its names are huge. */
  lemma BlocksFit(n: nat, fields: nat)
    requires n <= BLOCK
    ensures fields <= 6990475 ==> SealedSize(n, fields) <= MAX_FRAME
    ensures fields > 6990475 ==> SealedSize(BLOCK, fields) > MAX_FRAME
  {
  }
}
