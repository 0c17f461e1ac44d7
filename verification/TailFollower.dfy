/**
 The remote tail: every poll looks for the latest log file, compares its size with the offset
 reached, and pushes what is new as blocks.
 */
module TailFollower {
  import opened Bytes

  const INIT_MAX := 0x4000
  const BUFFER := 0x10_0000

  datatype Latest = NoLog | Latest(name: string)

  datatype Stat = StatFails | Stat(content: bytes)

  /**
   What the file system shows during one poll: the latest file, its content when its size is asked
   for, whether it opens, and its content at each read (it may grow meanwhile; the last view
   stays).  `sends` is how many blocks the connection still takes.
   */
  datatype Poll = Poll(latest: Latest, stat: Stat, open: bool, views: seq<bytes>, sends: nat)

  /** Within one poll the file only grows. */
  predicate IsGrowing(p: Poll) {
    && |p.views| > 0
    && (p.stat.Stat? ==> forall i :: 0 <= i < |p.views| ==> p.stat.content <= p.views[i])
    && forall i, j :: 0 <= i < j < |p.views| ==> p.views[i] <= p.views[j]
  }

  predicate IsReadable(p: Poll) {
    p.latest.Latest? && p.stat.Stat? && p.open
  }

  predicate IsBlock(b: bytes) {
    0 < |b| <= BUFFER
  }

  /** Where following starts on a file that has this size when it is first read: 16 KB before its end. */
  function StartAt(size: nat): (from: nat)
    ensures from <= size && size - from <= INIT_MAX
    ensures from == 0 || size - from == INIT_MAX
  {
    if size > INIT_MAX then size - INIT_MAX else 0
  }

  /** What a read shows; the last view stays. */
  function ViewAt(views: seq<bytes>, n: nat): (v: bytes)
    requires |views| > 0
    ensures v in views
  {
    views[if n < |views| then n else |views| - 1]
  }

  /** A slice goes on with the bytes right behind it, in the longer file. */
  lemma SliceGoesOn(content: bytes, view: bytes, start: nat, offset: nat, nr: nat)
    requires content <= view && start <= offset <= |content| && offset + nr <= |view|
    ensures content[start..offset] + view[offset..offset + nr] == view[start..offset + nr]
  {
  }

  class Follower {
    var file: string
    var offset: nat
    /** Every block frame sent on this connection, keep-alives included. */
    var sent: seq<bytes>
    /** The followed file as last seen, and its size when it was first read. */
    ghost var content: bytes
    ghost var first: nat
    /** What went out for files followed earlier. */
    ghost var earlier: bytes

    /** What was sent for this file is one slice of it, up to `end`. */
    ghost predicate IsSentUpTo(end: nat)
      reads this
    {
      StartAt(first) <= end <= |content| && Joined(sent) == earlier + content[StartAt(first)..end]
    }

    ghost predicate Valid()
      reads this
    {
      IsSentUpTo(offset) && (first == 0 <==> offset == 0)
    }

    /** After a failed send: still one contiguous slice, without the lost block. */
    ghost predicate Broken()
      reads this
    {
      first > 0 && exists end :: IsSentUpTo(end)
    }

    /** The file is the one followed, something of it was pushed, and it is not shorter than that. */
    predicate Continues(p: Poll)
      reads this
    {
      p.latest == Latest(file) && p.stat.Stat? && offset > 0 && |p.stat.content| >= offset
    }

    constructor ()
      ensures Valid() && file == "" && offset == 0 && content == [] && earlier == [] && sent == []
    {
      file, offset, sent := "", 0, [];
      content, first, earlier := [], 0, [];
    }

    method Restart()
      modifies `offset, `content, `first, `earlier
      ensures Valid() && offset == 0 && content == [] && earlier == Joined(sent)
    {
      offset := 0;
      content, first, earlier := [], 0, Joined(sent);
    }

    /** One read and send: the next bytes of the file as it is now, or its end. */
    method ReadOnce(view: bytes, connected: bool) returns (nr: nat, alive: bool)
      requires IsSentUpTo(offset) && first > 0 && content <= view
      modifies `offset, `sent, `content
      ensures content == view
      ensures nr == if |view| - old(offset) < BUFFER then |view| - old(offset) else BUFFER
      ensures if nr == 0 || connected then alive && IsSentUpTo(offset) else !alive && Broken()
      ensures offset == old(offset) + nr
      ensures if nr > 0 && connected then |sent| == |old(sent)| + 1 && |sent[|old(sent)|]| == nr else sent == old(sent)
      ensures old(sent) <= sent
    {
      var from := offset;
      ghost var was := content;
      nr := if |view| - offset < BUFFER then |view| - offset else BUFFER;
      SliceGoesOn(was, view, StartAt(first), from, 0);
      SliceGoesOn(was, view, StartAt(first), from, nr);
      content := view;
      if nr == 0 {
        return nr, true;
      }
      offset := offset + nr;
      if !connected {
        assert IsSentUpTo(from);
        return nr, false;
      }
      JoinedSnoc(sent, view[from..offset]);
      Assoc(earlier, was[StartAt(first)..from], view[from..offset]);
      sent := sent + [view[from..offset]];
      return nr, true;
    }

    /**
     The read loop of emit: read until the end of the file, as it is by then, one block a read; it
     fails at the first block the connection does not take.
     */
    method ReadOn(views: seq<bytes>, sends: nat) returns (alive: bool)
      requires IsSentUpTo(offset) && first > 0 && |views| > 0
      requires forall i :: 0 <= i < |views| ==> content <= views[i]
      requires forall i, j :: 0 <= i < j < |views| ==> views[i] <= views[j]
      modifies `offset, `sent, `content
      ensures old(sent) <= sent && forall i :: |old(sent)| <= i < |sent| ==> IsBlock(sent[i])
      ensures old(content) <= content && content == ViewAt(views, |sent| - |old(sent)|)
      ensures if alive then IsSentUpTo(offset) && offset == |content| else Broken()
      ensures if alive then |sent| - |old(sent)| <= sends else |sent| - |old(sent)| == sends
    {
      var k, n := 0, 0;
      while true
        invariant k < |views| && IsSentUpTo(offset)
        invariant old(content) <= content <= views[k]
        invariant n == |sent| - |old(sent)| <= sends && views[k] == ViewAt(views, n)
        invariant k == if n < |views| then n else |views| - 1
        invariant old(sent) <= sent && forall i :: |old(sent)| <= i < |sent| ==> IsBlock(sent[i])
        decreases |views| - k, |views[k]| - offset
      {
        var nr;
        nr, alive := ReadOnce(views[k], n < sends);
        if nr == 0 || !alive {
          return;
        }
        n := n + 1;
        k := if k < |views| - 1 then k + 1 else k;
      }
    }

    /** The second half of emit: push what the file has beyond the offset. */
    method Push(p: Poll) returns (alive: bool)
      requires Valid() && IsGrowing(p) && p.stat.Stat? && offset <= |p.stat.content|
      requires offset > 0 ==> content <= p.stat.content
      modifies `offset, `sent, `content, `first
      ensures if alive then Valid() else Broken()
      ensures alive && p.open ==> offset >= |p.stat.content|
      ensures alive ==> old(offset) <= offset
      ensures first == if old(first) == 0 && p.open then |p.stat.content| else old(first)
      ensures content == p.stat.content || content in p.views
      ensures old(sent) <= sent && forall i :: |old(sent)| <= i < |sent| ==> IsBlock(sent[i])
      ensures if alive then |sent| - |old(sent)| <= p.sends else |sent| - |old(sent)| == p.sends
    {
      if offset > 0 {
        SliceGoesOn(content, p.stat.content, StartAt(first), offset, 0);
      }
      content := p.stat.content;
      var size := |p.stat.content|;
      if size > offset {
        if !p.open {
          return true;
        }
        if offset == 0 && size > INIT_MAX {
          offset := size - INIT_MAX;
        }
        if first == 0 {
          first := size;
        }
        alive := ReadOn(p.views, p.sends);
        return;
      }
      return true;
    }

    /** The poll tells nothing: no log yet, or the followed file cannot be looked at. */
    predicate IsBlind(p: Poll)
      reads this
    {
      p.latest.NoLog? || (p.latest.name == file && p.stat.StatFails?)
    }

    /** The first half of emit: a new or shortened file is followed from its beginning. */
    method Locate(p: Poll)
      requires Valid() && !IsBlind(p)
      modifies `file, `offset, `content, `first, `earlier
      ensures Valid() && file == p.latest.name
      ensures p.stat.Stat? ==> offset <= |p.stat.content|
      ensures old(Continues(p)) ==>
                offset == old(offset) && first == old(first) && content == old(content) && earlier == old(earlier)
      ensures !old(Continues(p)) ==> offset == 0 && earlier == Joined(sent)
      ensures !old(Continues(p)) && p.stat.StatFails? ==> content == []
    {
      if p.latest.name != file {
        file := p.latest.name;
        Restart();
      }
      if p.stat.Stat? && |p.stat.content| < offset {
        Restart();
      }
    }

    /**
     One poll.  While the file goes on, the blocks extend one contiguous slice of it without gap or
     repeat; a new or shortened file starts a new slice, at most 16 KB before its end.
     */
    method Emit(p: Poll) returns (alive: bool)
      requires Valid() && IsGrowing(p)
      requires Continues(p) ==> content <= p.stat.content
      modifies this
      ensures if alive then Valid() else Broken()
      ensures old(IsBlind(p)) ==> alive && unchanged(this)
      ensures !old(IsBlind(p)) ==> file == p.latest.name && IsOn(p)
      ensures old(Continues(p)) ==> first == old(first) && earlier == old(earlier)
      ensures !old(IsBlind(p)) && !old(Continues(p)) ==>
                && first == (if IsReadable(p) then |p.stat.content| else 0)
                && earlier == Joined(old(sent))
      ensures alive && IsReadable(p) ==> offset >= |p.stat.content|
      ensures alive && old(Continues(p)) ==> old(offset) <= offset
      ensures old(sent) <= sent && forall i :: |old(sent)| <= i < |sent| ==> IsBlock(sent[i])
      ensures if alive then |sent| - |old(sent)| <= p.sends else |sent| - |old(sent)| == p.sends
    {
      if p.latest.NoLog? {
        return true;
      }
      if IsBlind(p) {
        return true;
      }
      Locate(p);
      if p.stat.StatFails? {
        return true;
      }
      alive := Push(p);
    }

    /** What is remembered of the file is what this poll showed of it. */
    ghost predicate IsOn(p: Poll)
      reads this
    {
      if p.stat.Stat? then content == p.stat.content || content in p.views else content == []
    }

    /** A keep-alive: an empty block. */
    method Ping()
      requires Valid()
      modifies `sent
      ensures Valid() && sent == old(sent) + [[]] && Joined(sent) == Joined(old(sent))
    {
      JoinedSnoc(sent, []);
      sent := sent + [[]];
    }
  }

  // ---------------------------------------------------------------- a whole stream

  datatype Round = Round(poll: Poll, ping: bool, pingSent: bool)

  /** One file stays the latest and only grows; `whole` is all it ever has. */
  predicate IsSteady(rounds: seq<Round>, name: string, whole: bytes) {
    && (forall i :: 0 <= i < |rounds| ==> IsGrowing(rounds[i].poll) && SeesPrefixes(rounds[i].poll, name, whole))
    && (forall i, j :: 0 <= i < j < |rounds| ==> IsBefore(rounds[i].poll, rounds[j].poll))
  }

  predicate SeesPrefixes(p: Poll, name: string, whole: bytes) {
    && (p.latest.Latest? ==> p.latest.name == name)
    && (p.stat.Stat? ==> p.stat.content <= whole)
    && forall v :: v in p.views ==> v <= whole
  }

  predicate IsBefore(p: Poll, q: Poll) {
    q.stat.Stat? ==>
      && (p.stat.Stat? ==> p.stat.content <= q.stat.content)
      && forall v :: v in p.views ==> v <= q.stat.content
  }

  function NextFirst(first: nat, p: Poll): nat {
    if first > 0 then first else if IsReadable(p) then |p.stat.content| else 0
  }

  /** The size of the file when it is first read with something in it. */
  function FirstSize(rounds: seq<Round>): nat {
    if rounds == [] then 0
    else NextFirst(FirstSize(rounds[..|rounds| - 1]), rounds[|rounds| - 1].poll)
  }

  lemma {:induction false} FirstSizeStays(rounds: seq<Round>, n: nat)
    requires n <= |rounds| && FirstSize(rounds[..n]) > 0
    ensures FirstSize(rounds) == FirstSize(rounds[..n])
  {
    if n == |rounds| {
      assert rounds[..n] == rounds;
    } else {
      assert rounds[..|rounds| - 1][..n] == rounds[..n];
      FirstSizeStays(rounds[..|rounds| - 1], n);
    }
  }

  /** On this file, from where its first reading (of `first` bytes) began; `before` went out earlier. */
  ghost predicate IsFollowing(f: Follower, before: bytes, first: nat, name: string, whole: bytes)
    reads f
  {
    f.Valid() && f.file == name && f.earlier == before && f.content <= whole && f.first == first
  }

  /** Still on an earlier file. */
  ghost predicate IsElsewhere(f: Follower, before: bytes, first: nat, name: string)
    reads f
  {
    f.Valid() && f.file != name && Joined(f.sent) == before && first == 0
  }

  ghost predicate Follows(f: Follower, before: bytes, first: nat, name: string, whole: bytes)
    reads f
  {
    IsFollowing(f, before, first, name, whole) || IsElsewhere(f, before, first, name)
  }

  /** The same after a lost connection. */
  ghost predicate Followed(f: Follower, before: bytes, first: nat, whole: bytes)
    reads f
  {
    f.Broken() && f.earlier == before && f.content <= whole && f.first == first
  }

  /** What is known of this file, and how far it has been pushed. */
  ghost function Known(f: Follower, name: string): bytes
    reads f
  {
    if f.file == name then f.content else []
  }

  function Reached(f: Follower, name: string): nat
    reads f
  {
    if f.file == name then f.offset else 0
  }

  predicate IsAhead(content: bytes, p: Poll) {
    p.stat.Stat? ==> content <= p.stat.content
  }

  predicate IsShown(content: bytes, p: Poll) {
    content == [] || content in p.views || (p.stat.Stat? && content == p.stat.content)
  }

  lemma ShownIsPrefix(content: bytes, p: Poll, name: string, whole: bytes)
    requires SeesPrefixes(p, name, whole) && IsShown(content, p)
    ensures content <= whole
  {
  }

  /** One turn of the loop of handleTail. */
  method Turn(f: Follower, p: Poll, ghost before: bytes, ghost first: nat, ghost name: string, ghost whole: bytes)
    returns (alive: bool)
    requires Follows(f, before, first, name, whole)
    requires IsGrowing(p) && SeesPrefixes(p, name, whole) && IsAhead(Known(f, name), p)
    modifies f
    ensures alive ==> Follows(f, before, NextFirst(first, p), name, whole)
    ensures alive && IsReadable(p) ==> |p.stat.content| <= Reached(f, name)
    ensures !alive ==> Followed(f, before, NextFirst(first, p), whole)
    ensures alive ==> old(Reached(f, name)) <= Reached(f, name)
    ensures Known(f, name) == old(Known(f, name)) || IsShown(Known(f, name), p)
    ensures f.file == old(f.file) || f.file == name
  {
    ghost var blind := f.IsBlind(p);
    alive := f.Emit(p);
    if !blind {
      assert IsShown(f.content, p);
      ShownIsPrefix(f.content, p, name, whole);
    }
  }

  /** No later poll shows less than is known already. */
  predicate AllAhead(content: bytes, rounds: seq<Round>, n: nat) {
    forall j :: n <= j < |rounds| ==> IsAhead(content, rounds[j].poll)
  }

  /** Nothing a poll could read is left behind. */
  predicate AllRead(end: nat, rounds: seq<Round>, n: nat)
    requires n <= |rounds|
  {
    forall j :: 0 <= j < n && IsReadable(rounds[j].poll) ==> |rounds[j].poll.stat.content| <= end
  }

  lemma StaysAhead(was: bytes, content: bytes, rounds: seq<Round>, n: nat, name: string, whole: bytes)
    requires n < |rounds| && IsSteady(rounds, name, whole) && AllAhead(was, rounds, n)
    requires content == was || IsShown(content, rounds[n].poll)
    ensures AllAhead(content, rounds, n + 1)
  {
  }

  // ---------------------------------------------------------------- one file after the other

  /** A file while it is the latest: all it ever has, and the rounds of that time. */
  datatype Stage = Stage(name: string, whole: bytes, rounds: seq<Round>)

  /** What is pushed of a file: from where its first reading began up to some end. */
  function Part(st: Stage, end: nat): bytes {
    var from := StartAt(FirstSize(st.rounds));
    if FirstSize(st.rounds) > 0 && from <= end <= |st.whole| then st.whole[from..end] else []
  }

  predicate IsWithin(st: Stage, end: nat) {
    FirstSize(st.rounds) > 0 ==> StartAt(FirstSize(st.rounds)) <= end <= |st.whole|
  }

  /** The stream so far: complete parts of the earlier files, then one of this. */
  ghost predicate IsPushed(sent: seq<bytes>, before: bytes, st: Stage, end: nat) {
    IsWithin(st, end) && Joined(sent) == before + Part(st, end)
  }

  lemma SentIsPushed(f: Follower, end: nat, before: bytes, st: Stage, n: nat)
    requires f.IsSentUpTo(end) && f.earlier == before && f.content <= st.whole
    requires n <= |st.rounds| && f.first == FirstSize(st.rounds[..n]) > 0
    ensures IsPushed(f.sent, before, st, end)
  {
    FirstSizeStays(st.rounds, n);
    var from := StartAt(f.first);
    assert f.content[from..end] == st.whole[from..end];
  }

  /** Turn number n of this file's time. */
  method TurnAt(f: Follower, st: Stage, n: nat, ghost before: bytes) returns (alive: bool, ghost end: nat)
    requires n < |st.rounds| && IsSteady(st.rounds, st.name, st.whole)
    requires Follows(f, before, FirstSize(st.rounds[..n]), st.name, st.whole)
    requires AllAhead(Known(f, st.name), st.rounds, n) && AllRead(Reached(f, st.name), st.rounds, n)
    modifies f
    ensures alive ==> Follows(f, before, FirstSize(st.rounds[..n + 1]), st.name, st.whole)
    ensures alive ==> AllAhead(Known(f, st.name), st.rounds, n + 1)
    ensures alive ==> AllRead(Reached(f, st.name), st.rounds, n + 1)
    ensures !alive ==> IsPushed(f.sent, before, st, end)
    ensures f.file == old(f.file) || f.file == st.name
  {
    var p := st.rounds[n].poll;
    assert st.rounds[..n + 1][..n] == st.rounds[..n];
    assert SeesPrefixes(p, st.name, st.whole) && IsGrowing(p) && IsAhead(Known(f, st.name), p);
    ghost var was := Known(f, st.name);
    alive := Turn(f, p, before, FirstSize(st.rounds[..n]), st.name, st.whole);
    if alive {
      StaysAhead(was, Known(f, st.name), st.rounds, n, st.name, st.whole);
      end := 0;
    } else {
      end :| f.IsSentUpTo(end);
      SentIsPushed(f, end, before, st, n + 1);
    }
  }

  /** Where the file has been pushed to after some of its rounds. */
  function EndOf(f: Follower, st: Stage): nat
    reads f
  {
    if f.file == st.name && f.offset > 0 then f.offset else StartAt(FirstSize(st.rounds))
  }

  lemma {:induction false} FirstSizeFits(st: Stage, n: nat)
    requires IsSteady(st.rounds, st.name, st.whole) && n <= |st.rounds|
    ensures FirstSize(st.rounds[..n]) <= |st.whole|
  {
    if n > 0 {
      FirstSizeFits(st, n - 1);
      assert st.rounds[..n][..n - 1] == st.rounds[..n - 1];
      assert SeesPrefixes(st.rounds[n - 1].poll, st.name, st.whole);
    }
  }

  lemma StopsHere(f: Follower, before: bytes, st: Stage, n: nat)
    requires IsSteady(st.rounds, st.name, st.whole)
    requires n <= |st.rounds| && Follows(f, before, FirstSize(st.rounds[..n]), st.name, st.whole)
    ensures IsPushed(f.sent, before, st, EndOf(f, st))
  {
    if FirstSize(st.rounds[..n]) > 0 {
      SentIsPushed(f, f.offset, before, st, n);
    } else {
      FirstSizeFits(st, |st.rounds|);
      assert st.rounds[..|st.rounds|] == st.rounds;
      assert before + [] == before;
    }
  }

  /** The rounds of one file. */
  method Follow(f: Follower, st: Stage, ghost before: bytes) returns (alive: bool, ghost end: nat)
    requires IsSteady(st.rounds, st.name, st.whole)
    requires IsElsewhere(f, before, 0, st.name)
    modifies f
    ensures IsPushed(f.sent, before, st, end)
    ensures alive ==> f.Valid() && AllRead(end, st.rounds, |st.rounds|)
    ensures f.file == old(f.file) || f.file == st.name
  {
    for i := 0 to |st.rounds|
      invariant Follows(f, before, FirstSize(st.rounds[..i]), st.name, st.whole)
      invariant AllAhead(Known(f, st.name), st.rounds, i) && AllRead(Reached(f, st.name), st.rounds, i)
      invariant f.file == old(f.file) || f.file == st.name
    {
      alive, end := TurnAt(f, st, i, before);
      if !alive {
        return;
      }
      if st.rounds[i].ping {
        if !st.rounds[i].pingSent {
          StopsHere(f, before, st, i + 1);
          return false, EndOf(f, st);
        }
        f.Ping();
      }
    }
    StopsHere(f, before, st, |st.rounds|);
    assert st.rounds[..|st.rounds|] == st.rounds;
    return true, EndOf(f, st);
  }

  /** The parts of the first |ends| files, one after the other. */
  function Parts(stages: seq<Stage>, ends: seq<nat>): bytes
    requires |ends| <= |stages|
  {
    if ends == [] then []
    else Parts(stages, ends[..|ends| - 1]) + Part(stages[|ends| - 1], ends[|ends| - 1])
  }

  lemma PartsSnoc(stages: seq<Stage>, ends: seq<nat>, end: nat)
    requires |ends| < |stages|
    ensures Parts(stages, ends + [end]) == Parts(stages, ends) + Part(stages[|ends|], end)
  {
    assert (ends + [end])[..|ends|] == ends;
  }

  predicate AreStages(stages: seq<Stage>) {
    && (forall i :: 0 <= i < |stages| ==>
          stages[i].name != "" && IsSteady(stages[i].rounds, stages[i].name, stages[i].whole))
    && (forall i, j :: 0 <= i < j < |stages| ==> stages[i].name != stages[j].name)
  }

  /**
   handleTail while the log goes from file to file: everything sent, put together, is one part of
   each file in turn, from where its first reading began up to ends[i].  So across a rotation
   exactly whole[ends[i]..] of the old file is lost, which lies behind every size a readable poll
   found for it, and of the new one exactly what lies before its last 16 KB at its first reading.
   */
  method HandleTail(stages: seq<Stage>) returns (frames: seq<bytes>, alive: bool, ghost ends: seq<nat>)
    requires AreStages(stages)
    ensures |ends| <= |stages| && (alive ==> |ends| == |stages|)
    ensures Joined(frames) == Parts(stages, ends)
    ensures forall i :: 0 <= i < |ends| ==> IsWithin(stages[i], ends[i])
    ensures forall i :: 0 <= i < |ends| && (alive || i < |ends| - 1) ==>
              AllRead(ends[i], stages[i].rounds, |stages[i].rounds|)
  {
    var f := new Follower();
    ends := [];
    for m := 0 to |stages|
      invariant fresh(f) && f.Valid() && |ends| == m
      invariant f.file == "" || exists j :: 0 <= j < m && f.file == stages[j].name
      invariant Joined(f.sent) == Parts(stages, ends)
      invariant forall i :: 0 <= i < m ==>
                  IsWithin(stages[i], ends[i]) && AllRead(ends[i], stages[i].rounds, |stages[i].rounds|)
    {
      ghost var end;
      alive, end := Follow(f, stages[m], Parts(stages, ends));
      PartsSnoc(stages, ends, end);
      ends := ends + [end];
      if !alive {
        return f.sent, false, ends;
      }
    }
    return f.sent, true, ends;
  }
}
