/**
 The two-channel log writer of a device: daily files, size rotation by numeric suffix, restarts.

 The directory is a map from (channel, day, suffix) to bytes.  Next to it the model keeps the
 history of all bytes ever written, and proves that the files never tell another story.
 */
module LogStore {
  import opened Bytes
  import opened Sets

  datatype Kind = Serial | Events

  datatype FileId = FileId(kind: Kind, day: string, suffix: nat)

  /** One successful (or partial) write: which channel, on which day, which bytes. */
  datatype Entry = Entry(kind: Kind, day: string, text: bytes)

  type Files = map<FileId, bytes>

  // ---------------------------------------------------------------- reading a channel back

  /** The first n files of a channel-day, in suffix order. */
  function Chain(files: Files, kind: Kind, day: string, n: nat): bytes {
    if n == 0 then []
    else
      var id := FileId(kind, day, n - 1);
      Chain(files, kind, day, n - 1) + if id in files then files[id] else []
  }

  /** Exactly the suffixes below n exist. */
  ghost predicate Contiguous(files: Files, kind: Kind, day: string, n: nat) {
    forall i: nat :: FileId(kind, day, i) in files <==> i < n
  }

  function Written(history: seq<Entry>, kind: Kind, day: string): bytes {
    if history == [] then []
    else
      var last := history[|history| - 1];
      Written(history[..|history| - 1], kind, day)
      + if last.kind == kind && last.day == day then last.text else []
  }

  /** A channel-day in order: n files without gap, holding what was written, the base one full if rotated. */
  ghost predicate InOrder(files: Files, history: seq<Entry>, kind: Kind, day: string, n: nat, limit: nat) {
    && Contiguous(files, kind, day, n)
    && Chain(files, kind, day, n) == Written(history, kind, day)
    && (n >= 2 ==> limit > 0 && |files[FileId(kind, day, 0)]| >= limit)
  }

  lemma {:induction false} ChainFrame(f: Files, g: Files, kind: Kind, day: string, n: nat)
    requires forall i: nat :: i < n ==>
      var id := FileId(kind, day, i);
      (id in f <==> id in g) && (id in f ==> f[id] == g[id])
    ensures Chain(f, kind, day, n) == Chain(g, kind, day, n)
  {
    if n > 0 {
      ChainFrame(f, g, kind, day, n - 1);
      assert FileId(kind, day, n - 1) in f <==> FileId(kind, day, n - 1) in g;
    }
  }

  /** Creating the next file empty changes nothing that was told. */
  lemma CreateNext(files: Files, history: seq<Entry>, kind: Kind, day: string, n: nat, limit: nat)
    requires InOrder(files, history, kind, day, n, limit)
    requires n >= 1 ==> limit > 0 && |files[FileId(kind, day, 0)]| >= limit
    ensures InOrder(files[FileId(kind, day, n) := []], history, kind, day, n + 1, limit)
  {
    ChainFrame(files, files[FileId(kind, day, n) := []], kind, day, n);
  }

  /** Appending to the last file is appending to the channel. */
  lemma AppendLast(files: Files, history: seq<Entry>, kind: Kind, day: string, n: nat, limit: nat, text: bytes)
    requires n >= 1 && InOrder(files, history, kind, day, n, limit)
    ensures var id := FileId(kind, day, n - 1);
            InOrder(files[id := files[id] + text], history + [Entry(kind, day, text)], kind, day, n, limit)
  {
    var id := FileId(kind, day, n - 1);
    var after := files[id := files[id] + text];
    ChainFrame(files, after, kind, day, n - 1);
    assert (history + [Entry(kind, day, text)])[..|history|] == history;
    var front := Chain(files, kind, day, n - 1);
    assert front + (files[id] + text) == (front + files[id]) + text;
  }

  lemma OtherChannel(files: Files, history: seq<Entry>, kind: Kind, day: string, n: nat, limit: nat,
                     id: FileId, content: bytes, more: seq<Entry>)
    requires InOrder(files, history, kind, day, n, limit)
    requires id.kind != kind || id.day != day
    requires more == history || (|more| > 0 && more[..|more| - 1] == history
                                 && more[|more| - 1].kind == id.kind && more[|more| - 1].day == id.day)
    ensures InOrder(files[id := content], more, kind, day, n, limit)
  {
    ChainFrame(files, files[id := content], kind, day, n);
  }

  // ---------------------------------------------------------------- the directory

  /**
   The files, with two records the model keeps beside them: every byte written so far, and how many
   files each channel-day has.  A limit of zero means no rotation.
   */
  datatype Disk = Disk(
    files: Files, history: seq<Entry>, count: map<(Kind, string), nat>,
    serialLimit: nat, eventsLimit: nat)
  {
    function Limit(kind: Kind): nat {
      if kind.Serial? then serialLimit else eventsLimit
    }

    function Count(kind: Kind, day: string): nat {
      if (kind, day) in count then count[(kind, day)] else 0
    }

    ghost predicate Ordered(kind: Kind, day: string) {
      InOrder(files, history, kind, day, Count(kind, day), Limit(kind))
    }

    /** On every day of a channel: the files in suffix order are what was written, in order. */
    ghost predicate Good(kind: Kind) {
      forall day :: Ordered(kind, day)
    }

    /** Open with O_CREATE: make the file if its name is the next one, else leave it. */
    function Create(kind: Kind, day: string, suffix: nat): Disk {
      var id := FileId(kind, day, suffix);
      if id in files then this
      else this.(files := files[id := []], count := count[(kind, day) := suffix + 1])
    }

    function Append(kind: Kind, day: string, suffix: nat, text: bytes): Disk {
      var id := FileId(kind, day, suffix);
      if id !in files then this
      else this.(files := files[id := files[id] + text], history := history + [Entry(kind, day, text)])
    }

    lemma About(kind: Kind, day: string)
      requires Good(kind)
      ensures forall i: nat :: FileId(kind, day, i) in files <==> i < Count(kind, day)
      ensures Count(kind, day) > 1 ==> Limit(kind) > 0 && |files[FileId(kind, day, 0)]| >= Limit(kind)
    {
      assert Ordered(kind, day);
    }

    lemma CreateIsGood(kind: Kind, day: string, suffix: nat)
      requires Good(kind) && suffix <= Count(kind, day)
      requires suffix == Count(kind, day) && suffix > 0 ==>
        FileId(kind, day, 0) in files && Limit(kind) > 0 && |files[FileId(kind, day, 0)]| >= Limit(kind)
      ensures Create(kind, day, suffix).Good(kind)
    {
      var id, n, after := FileId(kind, day, suffix), Count(kind, day), Create(kind, day, suffix);
      assert Ordered(kind, day);
      if id !in files {
        CreateNext(files, history, kind, day, n, Limit(kind));
        forall d ensures after.Ordered(kind, d) {
          if d != day {
            assert Ordered(kind, d);
            OtherChannel(files, history, kind, d, Count(kind, d), Limit(kind), id, [], history);
          }
        }
      }
    }

    /** What happens on one channel leaves the other as it was. */
    lemma CreateSpares(kind: Kind, day: string, suffix: nat, other: Kind)
      requires kind != other && Good(other)
      ensures Create(kind, day, suffix).Good(other)
    {
      forall d ensures Create(kind, day, suffix).Ordered(other, d) {
        assert Ordered(other, d);
        OtherChannel(files, history, other, d, Count(other, d), Limit(other), FileId(kind, day, suffix), [], history);
      }
    }

    lemma AppendSpares(kind: Kind, day: string, suffix: nat, text: bytes, other: Kind)
      requires kind != other && Good(other)
      ensures Append(kind, day, suffix, text).Good(other)
    {
      var id, after := FileId(kind, day, suffix), Append(kind, day, suffix, text);
      if id in files {
        assert after.history[..|after.history| - 1] == history;
        forall d ensures after.Ordered(other, d) {
          assert Ordered(other, d);
          OtherChannel(files, history, other, d, Count(other, d), Limit(other), id, files[id] + text, after.history);
        }
      }
    }

    lemma AppendIsGood(kind: Kind, day: string, suffix: nat, text: bytes)
      requires Good(kind) && Count(kind, day) == suffix + 1 && FileId(kind, day, suffix) in files
      ensures Append(kind, day, suffix, text).Good(kind)
    {
      var id, after := FileId(kind, day, suffix), Append(kind, day, suffix, text);
      assert Ordered(kind, day);
      AppendLast(files, history, kind, day, suffix + 1, Limit(kind), text);
      assert after.history[..|after.history| - 1] == history;
      forall d ensures after.Ordered(kind, d) {
        if d != day {
          assert Ordered(kind, d);
          OtherChannel(files, history, kind, d, Count(kind, d), Limit(kind), id, files[id] + text, after.history);
        }
      }
    }
  }

  /** Nothing but the highest file of this channel-day gained bytes; new files start empty. */
  ghost predicate OnlyLastGrows(was: Files, files: Files, kind: Kind, day: string) {
    forall id :: id in was ==>
      && id in files
      && (files[id] == was[id] ||
          (id.kind == kind && id.day == day && was[id] <= files[id] && FileId(kind, day, id.suffix + 1) !in files))
  }

  /** Files are only added. */
  ghost predicate SameFiles(was: Files, files: Files) {
    forall id :: id in was ==> id in files && files[id] == was[id]
  }

  lemma GrowthComposes(a: Files, b: Files, c: Files, kind: Kind, day: string)
    requires SameFiles(a, b) && OnlyLastGrows(b, c, kind, day)
    ensures OnlyLastGrows(a, c, kind, day)
  {
  }

  // ---------------------------------------------------------------- one channel of the writer

  /**
   An open channel: the suffix of the file its handle is on, the size it believes that file has,
   and the highest suffix of the day.  After a failed rotation the event channel is lost: its handle
   is nil, its size stands, and the suffix that did not open is already counted.
   */
  datatype Channel = Shut | Open(at: nat, size: nat, suffix: nat) | Lost(kept: nat, counted: nat)
  {
    function Size(): nat {
      match this
      case Shut => 0
      case Open(_, size, _) => size
      case Lost(kept, _) => kept
    }

    function Suffix(): nat {
      match this
      case Shut => 0
      case Open(_, _, suffix) => suffix
      case Lost(_, counted) => counted
    }
  }

  /** The handle may stand on an older file (the base file, after a restart) only if it is full. */
  ghost predicate Stands(disk: Disk, kind: Kind, day: string, ch: Channel) {
    match ch
    case Shut => true
    case Open(at, size, suffix) =>
      && disk.Count(kind, day) == suffix + 1
      && at <= suffix
      && FileId(kind, day, at) in disk.files
      && size == |disk.files[FileId(kind, day, at)]|
      && (at < suffix ==> IsFull(disk, kind, size))
    case Lost(kept, counted) => 1 <= disk.Count(kind, day) <= counted && IsFull(disk, kind, kept)
  }

  predicate IsFull(disk: Disk, kind: Kind, size: nat) {
    disk.Limit(kind) > 0 && size >= disk.Limit(kind)
  }

  /** Rotation: the next suffix becomes the file to write to. */
  lemma RotateIsGood(disk: Disk, kind: Kind, day: string, ch: Channel)
    requires disk.Good(kind) && Stands(disk, kind, day, ch) && ch.Open? && IsFull(disk, kind, ch.size)
    ensures var after := disk.Create(kind, day, ch.suffix + 1);
            && after.Good(kind) && Stands(after, kind, day, Open(ch.suffix + 1, 0, ch.suffix + 1))
            && after.history == disk.history
            && SameFiles(disk.files, after.files)
  {
    disk.About(kind, day);
    disk.CreateIsGood(kind, day, ch.suffix + 1);
  }

  lemma AppendKeeps(disk: Disk, kind: Kind, day: string, ch: Channel, text: bytes)
    requires disk.Good(kind) && Stands(disk, kind, day, ch) && ch.Open? && ch.at == ch.suffix
    ensures var after := disk.Append(kind, day, ch.at, text);
            && after.Good(kind) && Stands(after, kind, day, ch.(size := ch.size + |text|))
            && after.history == disk.history + [Entry(kind, day, text)]
            && OnlyLastGrows(disk.files, after.files, kind, day)
  {
    disk.AppendIsGood(kind, day, ch.at, text);
    disk.Append(kind, day, ch.at, text).About(kind, day);
  }

  /** One write on an open channel: rotate if the current file is full, then append. */
  function Put(disk: Disk, kind: Kind, day: string, ch: Channel, text: bytes): (Disk, Channel)
    requires ch.Open? || (ch.Lost? && IsFull(disk, kind, ch.kept))
  {
    if IsFull(disk, kind, ch.Size()) then
      var next := ch.Suffix() + 1;
      (disk.Create(kind, day, next).Append(kind, day, next, text), Open(next, |text|, next))
    else
      (disk.Append(kind, day, ch.at, text), ch.(size := ch.size + |text|))
  }

  /** What a write of `text` on one channel must leave behind. */
  ghost predicate GoodWrite(disk: Disk, after: Disk, kind: Kind, day: string, c: Channel, text: bytes) {
    && after.Good(kind) && Stands(after, kind, day, c)
    && after.history == disk.history + [Entry(kind, day, text)]
    && OnlyLastGrows(disk.files, after.files, kind, day)
  }

  lemma PutRotates(disk: Disk, kind: Kind, day: string, ch: Channel, text: bytes)
    requires ch.Open? && IsFull(disk, kind, ch.size)
    ensures var next := ch.suffix + 1;
            Put(disk, kind, day, ch, text) ==
            (disk.Create(kind, day, next).Append(kind, day, next, text), Open(next, |text|, next))
  {
  }

  lemma PutRotated(disk: Disk, kind: Kind, day: string, ch: Channel, text: bytes)
    requires disk.Good(kind) && ch.Open? && Stands(disk, kind, day, ch) && IsFull(disk, kind, ch.size)
    ensures var next := ch.suffix + 1;
            var after := disk.Create(kind, day, next).Append(kind, day, next, text);
            GoodWrite(disk, after, kind, day, Open(next, |text|, next), text)
  {
    var next := ch.suffix + 1;
    var mid := disk.Create(kind, day, next);
    RotateIsGood(disk, kind, day, ch);
    GoodOpen(mid, kind, day, next, text);
    GrowthComposes(disk.files, mid.files, mid.Append(kind, day, next, text).files, kind, day);
  }

  lemma GoodOpen(disk: Disk, kind: Kind, day: string, at: nat, text: bytes)
    requires disk.Good(kind) && Stands(disk, kind, day, Open(at, 0, at))
    ensures GoodWrite(disk, disk.Append(kind, day, at, text), kind, day, Open(at, |text|, at), text)
  {
    AppendKeeps(disk, kind, day, Open(at, 0, at), text);
  }

  lemma PutIsGood(disk: Disk, kind: Kind, day: string, ch: Channel, text: bytes)
    requires disk.Good(kind) && ch.Open? && Stands(disk, kind, day, ch)
    ensures var (after, c) := Put(disk, kind, day, ch, text); GoodWrite(disk, after, kind, day, c, text)
  {
    if IsFull(disk, kind, ch.size) {
      PutRotates(disk, kind, day, ch, text);
      PutRotated(disk, kind, day, ch, text);
    } else {
      AppendKeeps(disk, kind, day, ch, text);
    }
  }

  lemma PutSparesOther(disk: Disk, kind: Kind, other: Kind, day: string, ch: Channel, text: bytes, ch': Channel)
    requires ch.Open? || (ch.Lost? && IsFull(disk, kind, ch.kept))
    requires kind != other && disk.Good(other) && Stands(disk, other, day, ch')
    ensures var after := Put(disk, kind, day, ch, text).0; after.Good(other) && Stands(after, other, day, ch')
  {
    if IsFull(disk, kind, ch.Size()) {
      disk.CreateSpares(kind, day, ch.Suffix() + 1, other);
      disk.Create(kind, day, ch.Suffix() + 1).AppendSpares(kind, day, ch.Suffix() + 1, text, other);
    } else {
      disk.AppendSpares(kind, day, ch.at, text, other);
    }
  }

  /** A write goes to a new file exactly if the channel has a limit of its own and the last file has reached it. */
  lemma RotatesIffFull(disk: Disk, kind: Kind, day: string, ch: Channel, text: bytes)
    requires disk.Good(kind) && ch.Open? && Stands(disk, kind, day, ch)
    ensures var limit := if kind == Serial then disk.serialLimit else disk.eventsLimit;
            FileId(kind, day, ch.suffix + 1) in Put(disk, kind, day, ch, text).0.files
            <==> limit > 0 && ch.size >= limit
  {
    disk.About(kind, day);
  }

  /** After a failed rotation: the line channel is opened anew, the event channel only keeps counting. */
  function Failed(kind: Kind, ch: Channel): Channel
    requires !ch.Shut?
  {
    if kind.Serial? then Shut else Lost(ch.Size(), ch.Suffix() + 1)
  }

  /** A rotation that succeeds on a lost channel skips a suffix; no run of consecutive suffixes has all files. */
  lemma LostOpenLeavesGap(disk: Disk, kind: Kind, day: string, ch: Channel, text: bytes, n: nat)
    requires disk.Good(kind) && ch.Lost? && Stands(disk, kind, day, ch)
    ensures !Contiguous(Put(disk, kind, day, ch, text).0.files, kind, day, n)
  {
    disk.About(kind, day);
    var files := Put(disk, kind, day, ch, text).0.files;
    assert FileId(kind, day, ch.counted + 1) in files && FileId(kind, day, disk.Count(kind, day)) !in files;
  }

  // ---------------------------------------------------------------- the writer

  /** What the file system answers during one write. */
  datatype Io = Io(openSerial: bool, openEvents: bool, rotate: bool, accepted: nat)

  datatype WriteResult = Done | Closed | OpenFailed | Partial(n: nat)

  /** The part of the text that reached the file. */
  function Reached(text: bytes, r: WriteResult): bytes {
    if r.Partial? && r.n < |text| then text[..r.n] else text
  }

  /** What the disk takes of a text. */
  function Taken(text: bytes, accepted: nat): (t: bytes)
    ensures t == Reached(text, if accepted < |text| then Partial(accepted) else Done)
  {
    if accepted < |text| then text[..accepted] else text
  }

  // ---------------------------------------------------------------- opening a channel

  /** The first suffix from i on without a file. */
  function FirstMissing(files: Files, kind: Kind, day: string, i: nat): (n: nat)
    ensures n >= i && FileId(kind, day, n) !in files
    ensures forall j :: i <= j < n ==> FileId(kind, day, j) in files
    decreases |From(files, i)|
  {
    if FileId(kind, day, i) !in files then i
    else
      FewerFrom(files, FileId(kind, day, i));
      FirstMissing(files, kind, day, i + 1)
  }

  function From(files: Files, i: nat): set<FileId> {
    set id | id in files && id.suffix >= i
  }

  lemma FewerFrom(files: Files, id: FileId)
    requires id in files
    ensures |From(files, id.suffix + 1)| < |From(files, id.suffix)|
  {
    SubsetIsSmaller(From(files, id.suffix + 1), From(files, id.suffix) - {id});
  }

  /** ensureDay on one channel: the base file is made if need be, and counting goes on from the highest suffix. */
  function Opened(disk: Disk, kind: Kind, day: string): (Disk, Channel) {
    var after := disk.Create(kind, day, 0);
    (after, Open(0, |after.files[FileId(kind, day, 0)]|, FirstMissing(after.files, kind, day, 1) - 1))
  }

  lemma OpenedIsGood(disk: Disk, kind: Kind, day: string)
    requires disk.Good(kind)
    ensures var (after, ch) := Opened(disk, kind, day); after.Good(kind) && Stands(after, kind, day, ch)
  {
    disk.About(kind, day);
    disk.CreateIsGood(kind, day, 0);
    var after := disk.Create(kind, day, 0);
    after.About(kind, day);
    assert FileId(kind, day, after.Count(kind, day)) !in after.files;
    assert FileId(kind, day, FirstMissing(after.files, kind, day, 1)) !in after.files;
  }

  // ---------------------------------------------------------------- the event channel, opens failing or not

  /** What happens to the event channel of a day: ensureDay opens it (again), or a line is written. */
  datatype EventOp = Reopened | Wrote(text: bytes, rotate: bool, accepted: nat)

  function EventStep(day: string, disk: Disk, ch: Channel, op: EventOp): (Disk, Channel) {
    match op
    case Reopened => Opened(disk, Events, day)
    case Wrote(text, rotate, accepted) =>
      if ch.Shut? then (disk, ch)
      else if IsFull(disk, Events, ch.Size()) && !rotate then (disk, Failed(Events, ch))
      else if ch.Lost? && !IsFull(disk, Events, ch.Size()) then (disk, ch)
      else Put(disk, Events, day, ch, Taken(text, accepted))
  }

  function EventRun(day: string, disk: Disk, ops: seq<EventOp>): (Disk, Channel) {
    if ops == [] then (disk, Shut)
    else
      var (before, ch) := EventRun(day, disk, ops[..|ops| - 1]);
      EventStep(day, before, ch, ops[|ops| - 1])
  }

  /** The open succeeds although the last one failed and the channel was not reopened in between. */
  predicate IsCarelessOpen(ch: Channel, op: EventOp) {
    ch.Lost? && op.Wrote? && op.rotate
  }

  predicate IsCarelessAt(day: string, disk: Disk, ops: seq<EventOp>, i: nat)
    requires i < |ops|
  {
    IsCarelessOpen(EventRun(day, disk, ops[..i]).1, ops[i])
  }

  ghost predicate InOneRow(files: Files, day: string) {
    exists n :: Contiguous(files, Events, day, n)
  }

  lemma EventStepIsGood(day: string, disk: Disk, ch: Channel, op: EventOp)
    requires disk.Good(Events) && Stands(disk, Events, day, ch) && !IsCarelessOpen(ch, op)
    ensures var (after, c) := EventStep(day, disk, ch, op); after.Good(Events) && Stands(after, Events, day, c)
  {
    if op.Reopened? {
      OpenedIsGood(disk, Events, day);
    } else if ch.Open? {
      PutIsGood(disk, Events, day, ch, Taken(op.text, op.accepted));
    }
  }

  lemma {:induction false} EventRunIsGood(day: string, disk: Disk, ops: seq<EventOp>, n: nat)
    requires disk.Good(Events) && n <= |ops|
    requires forall i :: 0 <= i < n ==> !IsCarelessAt(day, disk, ops, i)
    ensures var (after, ch) := EventRun(day, disk, ops[..n]); after.Good(Events) && Stands(after, Events, day, ch)
  {
    if n > 0 {
      EventRunIsGood(day, disk, ops, n - 1);
      assert ops[..n][..n - 1] == ops[..n - 1];
      var (before, ch) := EventRun(day, disk, ops[..n - 1]);
      assert !IsCarelessAt(day, disk, ops, n - 1);
      EventStepIsGood(day, before, ch, ops[n - 1]);
    }
  }

  /**
   The exact condition.  From any directory in order, over any opens, writes and failures: the event
   files of a day stay without a gap at all times if and only if no event open succeeds after a
   failed one without a reopening in between.
   */
  lemma ContiguousIffNoCarelessOpen(day: string, disk: Disk, ops: seq<EventOp>)
    requires disk.Good(Events)
    ensures (forall n :: 0 <= n <= |ops| ==> InOneRow(EventRun(day, disk, ops[..n]).0.files, day))
            <==> (forall i :: 0 <= i < |ops| ==> !IsCarelessAt(day, disk, ops, i))
  {
    if forall i :: 0 <= i < |ops| ==> !IsCarelessAt(day, disk, ops, i) {
      forall n | 0 <= n <= |ops| ensures InOneRow(EventRun(day, disk, ops[..n]).0.files, day) {
        EventRunIsGood(day, disk, ops, n);
        assert EventRun(day, disk, ops[..n]).0.Ordered(Events, day);
      }
    } else {
      var k :| 0 <= k < |ops| && IsCarelessAt(day, disk, ops, k);
      var i := FirstCareless(day, disk, ops, k);
      EventRunIsGood(day, disk, ops, i);
      var (before, ch) := EventRun(day, disk, ops[..i]);
      assert ops[..i + 1][..i] == ops[..i];
      var files := EventRun(day, disk, ops[..i + 1]).0.files;
      forall n ensures !Contiguous(files, Events, day, n) {
        LostOpenLeavesGap(before, Events, day, ch, Taken(ops[i].text, ops[i].accepted), n);
      }
    }
  }

  lemma {:induction false} FirstCareless(day: string, disk: Disk, ops: seq<EventOp>, k: nat) returns (i: nat)
    requires k < |ops| && IsCarelessAt(day, disk, ops, k)
    ensures i <= k && IsCarelessAt(day, disk, ops, i)
    ensures forall j :: 0 <= j < i ==> !IsCarelessAt(day, disk, ops, j)
  {
    if j: nat :| j < k && IsCarelessAt(day, disk, ops, j) {
      i := FirstCareless(day, disk, ops, j);
    } else {
      i := k;
    }
  }

  // ---------------------------------------------------------------- a day on which it goes wrong

  const DAY := "20260101"
  const FRESH := Disk(map[], [], map[], 1, 1)

  function EventFile(suffix: nat): FileId {
    FileId(Events, DAY, suffix)
  }

  /** One byte a file: the second rotation fails once, then succeeds; later the writer starts anew. */
  const GAP_OPS := [Reopened, Wrote([1], true, 1), Wrote([2], false, 1), Wrote([2], true, 1),
                    Reopened, Wrote([3], true, 1)]

  function GapState(k: nat): (Disk, Channel) {
    var e1, e2, e3 := Entry(Events, DAY, [1]), Entry(Events, DAY, [2]), Entry(Events, DAY, [3]);
    var n := (Events, DAY);
    match k
    case 0 => (FRESH, Shut)
    case 1 => (FRESH.(files := map[EventFile(0) := []], count := map[n := 1]), Open(0, 0, 0))
    case 2 => (FRESH.(files := map[EventFile(0) := [1]], history := [e1], count := map[n := 1]), Open(0, 1, 0))
    case 3 => (FRESH.(files := map[EventFile(0) := [1]], history := [e1], count := map[n := 1]), Lost(1, 1))
    case 4 =>
      (FRESH.(files := map[EventFile(0) := [1], EventFile(2) := [2]], history := [e1, e2], count := map[n := 3]),
       Open(2, 1, 2))
    case 5 =>
      (FRESH.(files := map[EventFile(0) := [1], EventFile(2) := [2]], history := [e1, e2], count := map[n := 3]),
       Open(0, 1, 0))
    case _ =>
      (FRESH.(files := map[EventFile(0) := [1], EventFile(1) := [3], EventFile(2) := [2]], history := [e1, e2, e3],
              count := map[n := 2]), Open(1, 1, 1))
  }

  /** A write that rotates to a file that is not there yet. */
  lemma PutInNewFile(disk: Disk, kind: Kind, day: string, ch: Channel, text: bytes)
    requires !ch.Shut? && IsFull(disk, kind, ch.Size()) && FileId(kind, day, ch.Suffix() + 1) !in disk.files
    ensures var next := ch.Suffix() + 1;
            Put(disk, kind, day, ch, text) ==
            (disk.(files := disk.files[FileId(kind, day, next) := text],
                   history := disk.history + [Entry(kind, day, text)],
                   count := disk.count[(kind, day) := next + 1]),
             Open(next, |text|, next))
  {
    var id := FileId(kind, day, ch.Suffix() + 1);
    assert [] + text == text;
    assert disk.files[id := []][id := text] == disk.files[id := text];
  }

  lemma SameDisk(a: Disk, b: Disk)
    requires a.files == b.files && a.history == b.history && a.count == b.count
    requires a.serialLimit == b.serialLimit && a.eventsLimit == b.eventsLimit
    ensures a == b
  {
  }

  lemma FirstWrite()
    ensures EventStep(DAY, GapState(1).0, GapState(1).1, Wrote([1], true, 1)) == GapState(2)
  {
    assert [] + [1] == [1] && Taken([1], 1) == [1];
    SameDisk(EventStep(DAY, GapState(1).0, GapState(1).1, Wrote([1], true, 1)).0, GapState(2).0);
  }

  lemma CarelessWrite()
    ensures EventStep(DAY, GapState(3).0, GapState(3).1, Wrote([2], true, 1)) == GapState(4)
  {
    PutInNewFile(GapState(3).0, Events, DAY, GapState(3).1, [2]);
    assert Taken([2], 1) == [2];
    SameDisk(EventStep(DAY, GapState(3).0, GapState(3).1, Wrote([2], true, 1)).0, GapState(4).0);
  }

  lemma LateWrite()
    ensures EventStep(DAY, GapState(5).0, GapState(5).1, Wrote([3], true, 1)) == GapState(6)
  {
    PutInNewFile(GapState(5).0, Events, DAY, GapState(5).1, [3]);
    assert Taken([3], 1) == [3];
    SameDisk(EventStep(DAY, GapState(5).0, GapState(5).1, Wrote([3], true, 1)).0, GapState(6).0);
  }

  lemma GapStep(k: nat)
    requires k < 6
    ensures EventStep(DAY, GapState(k).0, GapState(k).1, GAP_OPS[k]) == GapState(k + 1)
  {
    if k == 0 {
      assert FirstMissing(map[EventFile(0) := []], Events, DAY, 1) == 1;
    } else if k == 4 {
      assert FirstMissing(GapState(4).0.files, Events, DAY, 1) == 1;
    } else if k == 1 {
      FirstWrite();
    } else if k == 3 {
      CarelessWrite();
    } else if k == 5 {
      LateWrite();
    }
  }

  lemma {:induction false} GapRun(k: nat)
    requires k <= 6
    ensures EventRun(DAY, FRESH, GAP_OPS[..k]) == GapState(k)
  {
    if k > 0 {
      GapRun(k - 1);
      GapStep(k - 1);
      assert GAP_OPS[..k][..k - 1] == GAP_OPS[..k - 1];
    }
  }

  /** The open at step 3 is careless; it leaves a gap, and after the next start the files no longer tell the lines. */
  lemma EventGapHappens()
    ensures IsCarelessAt(DAY, FRESH, GAP_OPS, 3) && !InOneRow(EventRun(DAY, FRESH, GAP_OPS[..4]).0.files, DAY)
    ensures var after := EventRun(DAY, FRESH, GAP_OPS).0;
            Chain(after.files, Events, DAY, 3) == [1, 3, 2] && Written(after.history, Events, DAY) == [1, 2, 3]
  {
    GapRun(3);
    GapRun(4);
    GapRun(6);
    assert GAP_OPS[..6] == GAP_OPS;
    var gap := GapState(4).0.files;
    assert EventFile(0) in gap && EventFile(1) !in gap && EventFile(2) in gap;
    GapTold();
  }

  lemma GapTold()
    ensures Chain(GapState(6).0.files, Events, DAY, 3) == [1, 3, 2]
    ensures Written(GapState(6).0.history, Events, DAY) == [1, 2, 3]
  {
    GapChain(GapState(6).0.files);
    ThreeWritten([1], [2], [3]);
  }

  lemma GapChain(files: Files)
    requires EventFile(0) in files && EventFile(1) in files && EventFile(2) in files
    requires files[EventFile(0)] == [1] && files[EventFile(1)] == [3] && files[EventFile(2)] == [2]
    ensures Chain(files, Events, DAY, 3) == [1, 3, 2]
  {
    assert Chain(files, Events, DAY, 1) == [] + [1] == [1];
    assert Chain(files, Events, DAY, 2) == [1] + [3];
    assert Chain(files, Events, DAY, 3) == [1, 3] + [2];
  }

  lemma ThreeWritten(a: bytes, b: bytes, c: bytes)
    ensures Written([Entry(Events, DAY, a), Entry(Events, DAY, b), Entry(Events, DAY, c)], Events, DAY) == a + b + c
  {
    var e1, e2, e3 := Entry(Events, DAY, a), Entry(Events, DAY, b), Entry(Events, DAY, c);
    WrittenSnoc([], e1);
    WrittenSnoc([e1], e2);
    WrittenSnoc([e1, e2], e3);
    assert [] + [e1] == [e1] && [] + a == a;
    assert [e1] + [e2] == [e1, e2];
    assert [e1, e2] + [e3] == [e1, e2, e3];
  }

  lemma WrittenSnoc(history: seq<Entry>, e: Entry)
    ensures Written(history + [e], e.kind, e.day) == Written(history, e.kind, e.day) + e.text
  {
  }

  // ---------------------------------------------------------------- the writer's objects

  class Dir {
    var disk: Disk

    constructor (serialLimit: nat, eventsLimit: nat)
      ensures disk == Disk(map[], [], map[], serialLimit, eventsLimit) && disk.Good(Serial) && disk.Good(Events)
    {
      disk := Disk(map[], [], map[], serialLimit, eventsLimit);
    }
  }

  class DeviceWriter {
    const dir: Dir
    var day: string
    var serial: Channel
    var events: Channel
    var closed: bool

    function Handle(kind: Kind): Channel
      reads this
    {
      if kind.Serial? then serial else events
    }

    /** What always holds of the handles: an open one is on a file, a lost one had a full file. */
    ghost predicate Valid()
      reads this, dir
    {
      !closed ==>
        && (serial.Open? ==> FileId(Serial, day, serial.at) in dir.disk.files)
        && (events.Open? ==> FileId(Events, day, events.at) in dir.disk.files)
        && (events.Lost? ==> IsFull(dir.disk, Events, events.kept))
        && !serial.Lost? && (serial.Open? ==> !events.Shut?)
    }

    /** One channel in order: its files tell its lines, and its handle stands where the next line belongs. */
    ghost predicate KeepsOrder(kind: Kind)
      reads this, dir
    {
      !closed ==> dir.disk.Good(kind) && Stands(dir.disk, kind, day, Handle(kind))
    }

    /** The next event write opens a file although the one before it failed to, and nothing was reopened since. */
    predicate IsCareless(today: string, io: Io)
      reads this
    {
      !closed && day == today && serial.Open? && events.Lost? && io.rotate
    }

    /** A fresh writer over whatever an earlier one left behind. */
    constructor (dir: Dir)
      ensures Valid() && this.dir == dir && !closed
      ensures forall kind :: dir.disk.Good(kind) ==> KeepsOrder(kind)
    {
      this.dir := dir;
      day, serial, events, closed := "", Shut, Shut, false;
    }

    method HighestSuffix(kind: Kind, day: string) returns (best: nat)
      ensures best + 1 == FirstMissing(dir.disk.files, kind, day, 1)
    {
      best := 0;
      var i := 1;
      while FileId(kind, day, i) in dir.disk.files
        invariant i == best + 1
        invariant FirstMissing(dir.disk.files, kind, day, i) == FirstMissing(dir.disk.files, kind, day, 1)
        decreases FirstMissing(dir.disk.files, kind, day, 1) - i
      {
        best := i;
        i := i + 1;
      }
    }

    /** Open a base file and continue from the highest suffix there is. */
    method OpenChannel(kind: Kind, today: string) returns (ch: Channel)
      modifies dir
      ensures (dir.disk, ch) == Opened(old(dir.disk), kind, today)
      ensures ch.Open? && FileId(kind, today, ch.at) in dir.disk.files
      ensures old(dir.disk).Good(kind) ==> dir.disk.Good(kind) && Stands(dir.disk, kind, today, ch)
      ensures forall k :: k != kind && old(dir.disk).Good(k) ==> dir.disk.Good(k)
      ensures forall k, c :: k != kind && old(dir.disk).Good(k) && Stands(old(dir.disk), k, today, c) ==>
                Stands(dir.disk, k, today, c)
    {
      if dir.disk.Good(kind) {
        OpenedIsGood(dir.disk, kind, today);
      }
      forall k | k != kind && dir.disk.Good(k) ensures dir.disk.Create(kind, today, 0).Good(k) {
        dir.disk.CreateSpares(kind, today, 0, k);
      }
      dir.disk := dir.disk.Create(kind, today, 0);
      var size := |dir.disk.files[FileId(kind, today, 0)]|;
      var suffix := HighestSuffix(kind, today);
      ch := Open(0, size, suffix);
    }

    method EnsureDay(today: string, io: Io) returns (r: WriteResult)
      requires Valid()
      modifies this, dir
      ensures Valid() && closed == old(closed)
      ensures forall kind :: old(KeepsOrder(kind)) ==> KeepsOrder(kind)
      ensures dir.disk.history == old(dir.disk).history
      ensures closed <==> r == Closed
      ensures closed || old(day == today && serial.Open?) ==>
                dir.disk == old(dir.disk) && day == old(day) && serial == old(serial) && events == old(events)
      ensures old(!closed && !(day == today && serial.Open?)) ==>
                && (r == Done <==> io.openSerial && io.openEvents)
                && (if r == Done then day == today && serial.Open? && events.Open?
                    else day == old(day) && serial == events == Shut)
                && (forall id :: id in dir.disk.files && id !in old(dir.disk).files ==>
                      id.day == today && id.suffix == 0 && io.openSerial && (id.kind.Events? ==> io.openEvents))
      ensures r == Done || r == Closed || r == OpenFailed
      ensures old(!closed && day == today && serial.Open?) ==> r == Done
      ensures SameFiles(old(dir.disk).files, dir.disk.files)
    {
      if closed {
        return Closed;
      }
      if day == today && serial.Open? {
        return Done;
      }
      serial, events := Shut, Shut;
      if !io.openSerial {
        return OpenFailed;
      }
      var s := OpenChannel(Serial, today);
      if !io.openEvents {
        return OpenFailed;
      }
      var e := OpenChannel(Events, today);
      day, serial, events := today, s, e;
      return Done;
    }

    /** The part of a write after ensureDay: rotate if full, then append what the disk accepts. */
    method PutText(kind: Kind, ch: Channel, text: bytes, rotate: bool, accepted: nat)
      returns (r: WriteResult, ch': Channel)
      requires !ch.Shut? && (ch.Open? ==> FileId(kind, day, ch.at) in dir.disk.files)
      requires ch.Lost? ==> IsFull(dir.disk, kind, ch.kept)
      modifies dir
      ensures r == OpenFailed <==> IsFull(old(dir.disk), kind, ch.Size()) && !rotate
      ensures r == OpenFailed ==> dir.disk == old(dir.disk) && ch' == Failed(kind, ch)
      ensures r != OpenFailed ==>
                && r == (if accepted < |text| then Partial(accepted) else Done)
                && (dir.disk, ch') == Put(old(dir.disk), kind, day, ch, Taken(text, accepted))
    {
      var at := if ch.Open? then ch.at else 0;
      ch' := ch;
      if IsFull(dir.disk, kind, ch.Size()) {
        var next := ch.Suffix() + 1;
        if !rotate {
          return OpenFailed, Failed(kind, ch);
        }
        dir.disk := dir.disk.Create(kind, day, next);
        ch', at := Open(next, 0, next), next;
      }
      dir.disk := dir.disk.Append(kind, day, at, Taken(text, accepted));
      ch' := Open(at, ch'.Size() + |Taken(text, accepted)|, ch'.Suffix());
      r := if accepted < |text| then Partial(accepted) else Done;
    }

    /** A write on one channel leaves the other as it was, and its own in order if the handle was not lost. */
    lemma AfterPut(disk: Disk, kind: Kind, ch: Channel, text: bytes, other: Channel)
      requires (ch.Open? && FileId(kind, day, ch.at) in disk.files) || (ch.Lost? && IsFull(disk, kind, ch.kept))
      ensures var (after, c) := Put(disk, kind, day, ch, text);
              && c.Open? && FileId(kind, day, c.at) in after.files
              && after.history == disk.history + [Entry(kind, day, text)]
              && (forall id :: id in disk.files ==> id in after.files)
              && (ch.Open? && disk.Good(kind) && Stands(disk, kind, day, ch) ==>
                    GoodWrite(disk, after, kind, day, c, text))
              && (forall k :: k != kind && disk.Good(k) && Stands(disk, k, day, other) ==>
                    after.Good(k) && Stands(after, k, day, other))
    {
      if ch.Open? && disk.Good(kind) && Stands(disk, kind, day, ch) {
        PutIsGood(disk, kind, day, ch, text);
      }
      forall k | k != kind && disk.Good(k) && Stands(disk, k, day, other)
        ensures Put(disk, kind, day, ch, text).0.Good(k) && Stands(Put(disk, kind, day, ch, text).0, k, day, other)
      {
        PutSparesOther(disk, kind, k, day, ch, text, other);
      }
    }

    /** The write of a line once the day is open. */
    method PutLine(text: bytes, io: Io) returns (r: WriteResult)
      requires Valid() && !closed && serial.Open?
      modifies this`serial, dir
      ensures Valid() && (old(KeepsOrder(Events)) ==> KeepsOrder(Events))
      ensures r == OpenFailed || r == if io.accepted < |text| then Partial(io.accepted) else Done
      ensures r == OpenFailed ==> !io.rotate && dir.disk == old(dir.disk) && serial == Shut
      ensures r != OpenFailed ==> dir.disk.history == old(dir.disk).history + [Entry(Serial, day, Reached(text, r))]
      ensures old(KeepsOrder(Serial)) ==>
                KeepsOrder(Serial) && OnlyLastGrows(old(dir.disk).files, dir.disk.files, Serial, day)
    {
      AfterPut(dir.disk, Serial, serial, Taken(text, io.accepted), events);
      r, serial := PutText(Serial, serial, text, io.rotate, io.accepted);
    }

    /**
     One line of the full log.  Success, rotation, reopening after a failure and partial writes
     keep its channel in order, whatever became of the event files; the only file that gains bytes
     is the last of its day.
     */
    method WriteLine(today: string, text: bytes, io: Io) returns (r: WriteResult)
      requires Valid()
      modifies this, dir
      ensures Valid() && (old(KeepsOrder(Events)) ==> KeepsOrder(Events))
      ensures closed == old(closed) && (r == Closed <==> closed)
      ensures r.Partial? ==> r.n < |text|
      ensures dir.disk.history == old(dir.disk).history
                + if r == Closed || r == OpenFailed then [] else [Entry(Serial, today, Reached(text, r))]
      ensures !closed && io.openSerial && io.openEvents && io.rotate && |text| <= io.accepted ==> r == Done
      ensures old(KeepsOrder(Serial)) ==>
                KeepsOrder(Serial) && OnlyLastGrows(old(dir.disk).files, dir.disk.files, Serial, today)
    {
      r := EnsureDay(today, io);
      if r != Done {
        return;
      }
      ghost var before := dir.disk;
      r := PutLine(text, io);
      if old(KeepsOrder(Serial)) {
        GrowthComposes(old(dir.disk).files, before.files, dir.disk.files, Serial, today);
      }
    }

    /** The event write once the day is open: careless or not, rotating or failing to. */
    method PutEvent(text: bytes, io: Io) returns (r: WriteResult)
      requires Valid() && !closed && serial.Open?
      modifies this`events, dir
      ensures Valid() && (old(KeepsOrder(Serial)) ==> KeepsOrder(Serial))
      ensures (dir.disk, events) == EventStep(day, old(dir.disk), old(events), Wrote(text, io.rotate, io.accepted))
      ensures r == OpenFailed || r == if io.accepted < |text| then Partial(io.accepted) else Done
      ensures r == OpenFailed ==> !io.rotate && dir.disk == old(dir.disk)
      ensures r != OpenFailed ==> dir.disk.history == old(dir.disk).history + [Entry(Events, day, Reached(text, r))]
      ensures old(KeepsOrder(Events)) ==>
                if IsCarelessOpen(old(events), Wrote(text, io.rotate, io.accepted))
                then forall n :: !Contiguous(dir.disk.files, Events, day, n)
                else KeepsOrder(Events) && OnlyLastGrows(old(dir.disk).files, dir.disk.files, Events, day)
    {
      ghost var before, ch, taken := dir.disk, events, Taken(text, io.accepted);
      AfterPut(before, Events, ch, taken, serial);
      r, events := PutText(Events, events, text, io.rotate, io.accepted);
      if r != OpenFailed && ch.Lost? && old(KeepsOrder(Events)) {
        ghost var files := dir.disk.files;
        forall n ensures !Contiguous(files, Events, day, n) {
          LostOpenLeavesGap(before, Events, day, ch, taken, n);
        }
      }
    }

    /**
     The same for the event stream, except that a failed rotation is not followed by a reopening:
     its channel stays in order if and only if this write is not a careless one.  The full log is
     in order either way.
     */
    method WriteEvent(today: string, text: bytes, io: Io) returns (r: WriteResult)
      requires Valid()
      modifies this, dir
      ensures Valid() && (old(KeepsOrder(Serial)) ==> KeepsOrder(Serial))
      ensures closed == old(closed) && (r == Closed <==> closed)
      ensures r.Partial? ==> r.n < |text|
      ensures dir.disk.history == old(dir.disk).history
                + if r == Closed || r == OpenFailed then [] else [Entry(Events, today, Reached(text, r))]
      ensures !closed && io.openSerial && io.openEvents && io.rotate && |text| <= io.accepted ==> r == Done
      ensures old(KeepsOrder(Events)) ==>
                if old(IsCareless(today, io))
                then forall n :: !Contiguous(dir.disk.files, Events, today, n)
                else KeepsOrder(Events) && OnlyLastGrows(old(dir.disk).files, dir.disk.files, Events, today)
      ensures old(!closed && day == today && serial.Open?) ==>
                (dir.disk, events) == EventStep(today, old(dir.disk), old(events), Wrote(text, io.rotate, io.accepted))
    {
      r := EnsureDay(today, io);
      if r != Done {
        return;
      }
      ghost var before := dir.disk;
      r := PutEvent(text, io);
      if old(KeepsOrder(Events)) && !old(IsCareless(today, io)) {
        GrowthComposes(old(dir.disk).files, before.files, dir.disk.files, Events, today);
      }
    }

    method Close()
      requires Valid()
      modifies this
      ensures Valid() && closed && serial == events == Shut && day == old(day)
    {
      closed := true;
      serial, events := Shut, Shut;
    }
  }

  // ---------------------------------------------------------------- what a reader of the files sees

  /** The lines of one channel-day, one after the other. */
  function Texts(history: seq<Entry>, kind: Kind, day: string): seq<bytes> {
    if history == [] then []
    else
      var last := history[|history| - 1];
      Texts(history[..|history| - 1], kind, day)
      + if last.kind == kind && last.day == day then [last.text] else []
  }

  lemma {:induction false} WrittenIsLines(history: seq<Entry>, kind: Kind, day: string)
    ensures Written(history, kind, day) == Joined(Texts(history, kind, day))
  {
    if history != [] {
      WrittenIsLines(history[..|history| - 1], kind, day);
      var before, last := Texts(history[..|history| - 1], kind, day), history[|history| - 1];
      if last.kind == kind && last.day == day {
        assert (before + [last.text])[..|before|] == before;
      } else {
        assert before + [] == before;
      }
    }
  }

  /** Reading a channel-day in suffix order up to the first missing suffix gives its lines in order. */
  lemma FilesTellTheLines(disk: Disk, kind: Kind, day: string, n: nat)
    requires disk.Good(kind)
    requires FileId(kind, day, n) !in disk.files && forall i: nat :: i < n ==> FileId(kind, day, i) in disk.files
    ensures Chain(disk.files, kind, day, n) == Joined(Texts(disk.history, kind, day))
    ensures forall i: nat :: i > n ==> FileId(kind, day, i) !in disk.files
  {
    var c := disk.Count(kind, day);
    assert disk.Ordered(kind, day);
    assert FileId(kind, day, c) !in disk.files;
    WrittenIsLines(disk.history, kind, day);
  }

  // ---------------------------------------------------------------- retention

  type Ages = map<FileId, int>

  predicate IsOver(ages: Ages, cutoff: int, id: FileId) {
    id in ages && ages[id] < cutoff
  }

  /** What a sweep leaves: the young files, and the old ones whose removal failed. */
  function Kept(files: Files, ages: Ages, cutoff: int, stuck: set<FileId>): Files {
    map id | id in files && (!IsOver(ages, cutoff, id) || id in stuck) :: files[id]
  }

  /** SweepRetention on one directory: exactly the old files go, and the failures are named. */
  method SweepRetention(files: Files, listing: seq<FileId>, ages: Ages, cutoff: int, stuck: set<FileId>)
    returns (left: Files, failed: seq<FileId>)
    requires forall id :: id in files <==> id in listing
    ensures left == Kept(files, ages, cutoff, stuck)
    ensures forall id :: id in left <==> id in files && (id in ages && ages[id] < cutoff ==> id in stuck)
    ensures forall id :: id in left ==> left[id] == files[id]
    ensures forall id :: id in failed <==> id in files && id in ages && ages[id] < cutoff && id in stuck
  {
    left, failed := files, [];
    for i := 0 to |listing|
      invariant left ==
                map id | id in files && (id in listing[..i] ==> id in Kept(files, ages, cutoff, stuck)) :: files[id]
      invariant forall id :: id in failed <==> id in listing[..i] && IsOver(ages, cutoff, id) && id in stuck
    {
      var id := listing[i];
      assert listing[..i + 1] == listing[..i] + [id];
      if !IsOver(ages, cutoff, id) {
        continue;
      }
      if id in stuck {
        failed := failed + [id];
      } else {
        left := left - {id};
      }
    }
    assert listing[..|listing|] == listing;
  }

  /** Only the last file of a day grows, so no file is younger than the one behind it. */
  ghost predicate OldestFirst(ages: Ages, kind: Kind, day: string, n: nat) {
    && (forall i: nat :: i < n ==> FileId(kind, day, i) in ages)
    && (forall i: nat, j: nat :: i < j < n ==> ages[FileId(kind, day, i)] <= ages[FileId(kind, day, j)])
  }

  lemma WritingKeepsOldestFirst(ages: Ages, kind: Kind, day: string, n: nat, at: nat, now: int)
    requires OldestFirst(ages, kind, day, n) && n <= at + 1 && at <= n
    requires forall i: nat :: i < n ==> ages[FileId(kind, day, i)] <= now
    ensures OldestFirst(ages[FileId(kind, day, at) := now], kind, day, if at == n then n + 1 else n)
  {
  }

  /** The first file of a channel-day that is not over age. */
  function FirstYoung(ages: Ages, kind: Kind, day: string, cutoff: int, n: nat): (m: nat)
    ensures m <= n && (m < n ==> !IsOver(ages, cutoff, FileId(kind, day, m)))
    ensures forall i: nat :: i < m ==> IsOver(ages, cutoff, FileId(kind, day, i))
  {
    if n == 0 then 0
    else
      var m := FirstYoung(ages, kind, day, cutoff, n - 1);
      if m < n - 1 || !IsOver(ages, cutoff, FileId(kind, day, m)) then m else n
  }

  lemma {:induction false} ChainSplits(files: Files, left: Files, kind: Kind, day: string, m: nat, n: nat)
    requires m <= n
    requires forall i: nat :: i < m ==> FileId(kind, day, i) !in left
    requires forall i: nat :: m <= i < n ==>
      var id := FileId(kind, day, i); id in left && id in files && left[id] == files[id]
    ensures Chain(files, kind, day, n) == Chain(files, kind, day, m) + Chain(left, kind, day, n)
  {
    if n > m {
      ChainSplits(files, left, kind, day, m, n - 1);
      var id := FileId(kind, day, n - 1);
      Assoc(Chain(files, kind, day, m), Chain(left, kind, day, n - 1), files[id]);
    } else {
      GoneChain(left, kind, day, n);
      assert Chain(files, kind, day, m) + [] == Chain(files, kind, day, m);
    }
  }

  lemma {:induction false} GoneChain(left: Files, kind: Kind, day: string, n: nat)
    requires forall i: nat :: i < n ==> FileId(kind, day, i) !in left
    ensures Chain(left, kind, day, n) == []
  {
    if n > 0 {
      GoneChain(left, kind, day, n - 1);
    }
  }

  /**
   What retention leaves of a day in order, when no removal fails: the last files without a gap among
   them, and they tell exactly the end of what was written.  Only its beginning is gone.
   */
  lemma RetentionLeavesTheEnd(files: Files, history: seq<Entry>, kind: Kind, day: string, n: nat, limit: nat,
                              ages: Ages, cutoff: int, stuck: set<FileId>)
    returns (m: nat)
    requires InOrder(files, history, kind, day, n, limit) && OldestFirst(ages, kind, day, n)
    requires forall id :: id in stuck ==> id.kind != kind || id.day != day
    ensures var left := Kept(files, ages, cutoff, stuck);
            && m <= n && (forall i: nat :: FileId(kind, day, i) in left <==> m <= i < n)
            && Written(history, kind, day) == Chain(files, kind, day, m) + Chain(left, kind, day, n)
  {
    m := FirstYoung(ages, kind, day, cutoff, n);
    var left := Kept(files, ages, cutoff, stuck);
    forall i: nat ensures FileId(kind, day, i) in left <==> m <= i < n {
      assert FileId(kind, day, i) in files <==> i < n;
    }
    ChainSplits(files, left, kind, day, m, n);
  }
}
