/**
 Uploads in chunks: the server's account of every session, and the client that sends its files
 piece by piece and waits for each acknowledgement.
 */
module Upload {
  import opened Bytes

  const CHUNK := 0x10_0000
  const SID_CAP := 0x4000_0000

  type Files = map<string, bytes>

  // ---------------------------------------------------------------- names

  predicate IsSafe(s: string) {
    s != "" && forall c :: c in s ==> 'A' <= c <= 'Z' || 'a' <= c <= 'z' || '0' <= c <= '9' || c in "._-"
  }

  function Stem(name: string): string {
    if name == "" || name[0] == '.' then "" else [name[0]] + Stem(name[1..])
  }

  function Upper(s: string): string {
    if s == "" then ""
    else [if 'a' <= s[0] <= 'z' then (s[0] as int - 'a' as int + 'A' as int) as char else s[0]] + Upper(s[1..])
  }

  predicate IsReserved(name: string) {
    var s := Upper(Stem(name));
    || s in {"CON", "PRN", "AUX", "NUL"}
    || (|s| == 4 && s[..3] in {"COM", "LPT"} && '1' <= s[3] <= '9')
  }

  /** The device names of Windows: four by name, and two kinds of ports numbered from one to nine. */
  predicate IsDevice(s: string) {
    || s == "CON" || s == "PRN" || s == "AUX" || s == "NUL"
    || exists c :: '1' <= c <= '9' && (s == "COM" + [c] || s == "LPT" + [c])
  }

  lemma {:induction false} StemOf(stem: string, rest: string)
    requires '.' !in stem && (rest != "" ==> rest[0] == '.')
    ensures Stem(stem + rest) == stem
  {
    if stem == "" {
      assert stem + rest == rest;
    } else {
      StemOf(stem[1..], rest);
      assert (stem + rest)[1..] == stem[1..] + rest;
    }
  }

  lemma PortName(s: string)
    requires |s| == 4
    ensures s[..3] == "COM" <==> s == "COM" + [s[3]]
    ensures s[..3] == "LPT" <==> s == "LPT" + [s[3]]
  {
    assert s == s[..3] + [s[3]];
  }

  /** A device name is reserved in any case and with any extension, and nothing else is. */
  lemma ReservedIff(stem: string, rest: string)
    requires '.' !in stem && (rest != "" ==> rest[0] == '.')
    ensures IsReserved(stem + rest) <==> IsDevice(Upper(stem))
  {
    StemOf(stem, rest);
    var s := Upper(stem);
    if |s| == 4 {
      PortName(s);
    }
    if c :| '1' <= c <= '9' && (s == "COM" + [c] || s == "LPT" + [c]) {
      assert |s| == 4 && s[3] == c;
    }
  }

  /** Digits, letters, hyphen, full stop and underscore, by their codes. */
  lemma SafeIff(s: string)
    ensures IsSafe(s) <==>
              && s != ""
              && forall c :: c in s ==>
                   var n := c as int;
                   48 <= n < 58 || 65 <= n < 91 || 97 <= n < 123 || n == 45 || n == 46 || n == 95
  {
    assert forall c: char :: c in "._-" <==> c == '.' || c == '_' || c == '-';
  }

  lemma {:induction false} UpperIs(s: string)
    ensures |Upper(s)| == |s|
    ensures forall i :: 0 <= i < |s| ==>
              Upper(s)[i] as int == if 97 <= s[i] as int < 123 then s[i] as int - 32 else s[i] as int
  {
    if s != "" {
      UpperIs(s[1..]);
    }
  }

  predicate IsAllowed(sid: string, name: string) {
    IsSafe(name) && IsSafe(sid) && !IsReserved(name)
  }

  /** What an upload may be called: neither name is a path or a device, whatever its case or extension. */
  lemma AllowedNamesStayPut(sid: string, name: string)
    requires IsAllowed(sid, name)
    ensures forall s :: s == sid || s == name ==>
              s != "" && '/' !in s && '\\' !in s && ':' !in s && ' ' !in s
    ensures forall c :: c in sid || c in name ==> '\U{20}' < c < '\U{7F}'
    ensures !IsReserved(name)
  {
  }

  // ---------------------------------------------------------------- bytes of a session

  /** All bytes of a set of files. */
  ghost function Total<K>(files: map<K, bytes>): nat {
    if files == map[] then 0
    else
      var k :| k in files;
      |files[k]| + Total(files - {k})
  }

  lemma {:induction false} TotalWithout<K>(files: map<K, bytes>, k: K)
    requires k in files
    ensures Total(files) == |files[k]| + Total(files - {k})
    decreases |files|
  {
    var j :| j in files && Total(files) == |files[j]| + Total(files - {j});
    if j != k {
      TotalWithout(files - {j}, k);
      TotalWithout(files - {k}, j);
      assert files - {j} - {k} == files - {k} - {j};
    }
  }

  lemma TotalWith<K>(files: map<K, bytes>, k: K, content: bytes)
    ensures Total(files[k := content]) == |content| + Total(files - {k})
    ensures k !in files ==> Total(files) == Total(files - {k})
  {
    TotalWithout(files[k := content], k);
    assert files[k := content] - {k} == files - {k};
    assert k !in files ==> files - {k} == files;
  }

  lemma {:induction false} TotalOfPart<K>(files: map<K, bytes>, without: set<K>)
    ensures Total(files - without) <= Total(files)
    decreases |files|
  {
    if k :| k in files && k in without {
      var less := files - {k};
      assert less - without == files - without;
      TotalWithout(files, k);
      TotalOfPart(less, without);
    } else {
      assert files - without == files;
    }
  }

  /** A file replaced or extended by at most `n` bytes adds at most n to its session. */
  lemma TotalGrows(files: Files, k: string, content: bytes, n: nat)
    requires |content| <= n + if k in files then |files[k]| else 0
    ensures Total(files[k := content]) <= Total(files) + n
  {
    TotalWith(files, k, content);
    if k in files {
      TotalWithout(files, k);
    }
  }

  // ---------------------------------------------------------------- the server

  datatype Body = Garbled | Data(bytes: bytes)

  datatype Frame = Frame(sid: string, name: string, seqNo: int, body: Body)

  datatype Path = Path(sid: string, name: string)

  datatype Reply = Refused | Acked(seqNo: int, path: Path) | Broken

  /** What the file system answers: can the directory be made, the file be opened, how much fits. */
  datatype Io = Io(mkdir: bool, open: bool, room: nat)

  /** The session files on disk (a key without files is an empty directory) and the account. */
  datatype State = State(sessions: map<string, Files>, upBytes: map<string, nat>)
  {
    function Account(sid: string): nat {
      if sid in upBytes then upBytes[sid] else 0
    }

    function Session(sid: string): Files {
      if sid in sessions then sessions[sid] else map[]
    }

    /** No session has more on disk than its account says, and no account is over the cap. */
    ghost predicate IsCovered() {
      forall sid :: IsCoveredFor(sid)
    }

    ghost predicate IsCoveredFor(sid: string) {
      Total(Session(sid)) <= Account(sid) <= SID_CAP
    }
  }

  /** The file after one chunk of which `n` bytes reached the disk; None if there is nothing to append to. */
  function Chunked(files: Files, name: string, seqNo: int, data: bytes, n: nat): Files
    requires n <= |data|
  {
    if seqNo == 0 then files[name := data[..n]]
    else if name in files then files[name := files[name] + data[..n]]
    else files
  }

  lemma ChunkedGrows(files: Files, name: string, seqNo: int, data: bytes, n: nat)
    requires n <= |data|
    ensures Total(Chunked(files, name, seqNo, data, n)) <= Total(files) + |data|
  {
    TotalGrows(files, name, data[..n], |data|);
    if name in files {
      TotalGrows(files, name, files[name] + data[..n], |data|);
    }
  }

  // ---------------------------------------------------------------- which directories a cleanup takes

  const PREFIX := "mesh-"

  /** strings.TrimPrefix: a directory without the prefix is taken for a session id as it is. */
  function SidOf(leaf: string): string {
    if PREFIX <= leaf then leaf[|PREFIX|..] else leaf
  }

  /** The path test of the cleanup: a direct child of the upload root whose id is a safe name. */
  predicate IsSwept(base: seq<string>, dir: seq<string>) {
    |dir| == |base| + 1 && base <= dir && IsSafe(SidOf(dir[|base|]))
  }

  /** The directories that pass are those right below the upload root. */
  lemma SweptIffBelowRoot(base: seq<string>, dir: seq<string>)
    ensures IsSwept(base, dir) <==> exists leaf :: dir == base + [leaf] && IsSafe(SidOf(leaf))
  {
    if |dir| == |base| + 1 && base <= dir {
      assert dir == base + [dir[|base|]];
    }
  }

  function SweptLeaves(base: seq<string>, dirs: seq<seq<string>>): set<string> {
    set d | d in dirs && IsSwept(base, d) :: d[|base|]
  }

  function Forgotten(leaves: set<string>): set<string> {
    set l | l in leaves :: SidOf(l)
  }

  /** Names below a directory that its removal fails on. */
  type Stuck = map<string, set<string>>

  function StuckIn(stuck: Stuck, leaf: string): set<string> {
    if leaf in stuck then stuck[leaf] else {}
  }

  function Left(files: Files, names: set<string>): Files {
    map n | n in files && n in names :: files[n]
  }

  lemma LeftIsSmaller(files: Files, names: set<string>)
    ensures Total(Left(files, names)) <= Total(files)
    ensures Left(files, {}) == map[] && Total<string>(map[]) == 0
  {
    TotalOfPart(files, files.Keys - names);
    assert Left(files, names) == files - (files.Keys - names);
  }

  /** RemoveAll on a directory under the upload root; sessions live in those that have the prefix. */
  function Swept(s: State, leaf: string, names: set<string>): State {
    var sid := SidOf(leaf);
    if !(PREFIX <= leaf) || sid !in s.sessions then s
    else
      var left := Left(s.sessions[sid], names);
      s.(sessions := if left == map[] then s.sessions - {sid} else s.sessions[sid := left])
  }

  /** What a cleanup of these directories leaves of a session. */
  function Remaining(s: State, leaves: set<string>, stuck: Stuck, sid: string): Files {
    if PREFIX + sid in leaves then Left(s.Session(sid), StuckIn(stuck, PREFIX + sid)) else s.Session(sid)
  }

  /** The state a whole cleanup leaves behind. */
  ghost predicate IsCleaned(s: State, t: State, leaves: set<string>, stuck: Stuck) {
    && (forall sid :: t.Session(sid) == Remaining(s, leaves, stuck, sid))
    && (forall sid :: t.Account(sid) == if sid in Forgotten(leaves) then 0 else s.Account(sid))
  }

  lemma PrefixedLeaf(sid: string)
    ensures PREFIX <= PREFIX + sid && SidOf(PREFIX + sid) == sid
  {
  }

  lemma SweptSession(t: State, leaf: string, names: set<string>, sid: string)
    ensures Swept(t, leaf, names).Session(sid) ==
              if leaf == PREFIX + sid then Left(t.Session(sid), names) else t.Session(sid)
    ensures Swept(t, leaf, names).upBytes == t.upBytes
  {
    PrefixedLeaf(sid);
    assert PREFIX <= leaf ==> leaf == PREFIX + SidOf(leaf);
  }

  /** Handling one more directory: its session is removed if it is one, its id is forgotten. */
  lemma OneMoreLeaf(s: State, t: State, leaves: set<string>, stuck: Stuck, leaf: string)
    requires IsCleaned(s, t, leaves, stuck) && leaf !in leaves
    ensures var u := Swept(t, leaf, StuckIn(stuck, leaf));
            IsCleaned(s, u.(upBytes := u.upBytes - {SidOf(leaf)}), leaves + {leaf}, stuck)
  {
    var u := Swept(t, leaf, StuckIn(stuck, leaf));
    forall sid ensures u.Session(sid) == Remaining(s, leaves + {leaf}, stuck, sid) {
      SweptSession(t, leaf, StuckIn(stuck, leaf), sid);
    }
    SweptSession(t, leaf, StuckIn(stuck, leaf), leaf);
    assert Forgotten(leaves + {leaf}) == Forgotten(leaves) + {SidOf(leaf)};
  }

  function Elements(leaves: seq<string>): set<string> {
    set l | l in leaves
  }

  /** The state a new process starts from: the young directories are still there, the accounts are not. */
  ghost predicate IsRestarted(s: State, t: State, aged: set<string>, stuck: Stuck) {
    t.upBytes == map[] && forall sid :: t.Session(sid) == Remaining(s, aged, stuck, sid)
  }

  lemma LeftTwice(files: Files, names: set<string>)
    ensures Left(Left(files, names), names) == Left(files, names)
  {
  }

  lemma OneMoreAged(s: State, t: State, aged: set<string>, stuck: Stuck, leaf: string)
    requires IsRestarted(s, t, aged, stuck)
    ensures IsRestarted(s, Swept(t, leaf, StuckIn(stuck, leaf)), aged + {leaf}, stuck)
  {
    var u := Swept(t, leaf, StuckIn(stuck, leaf));
    forall sid ensures u.Session(sid) == Remaining(s, aged + {leaf}, stuck, sid) {
      SweptSession(t, leaf, StuckIn(stuck, leaf), sid);
      LeftTwice(s.Session(sid), StuckIn(stuck, leaf));
    }
    SweptSession(t, leaf, StuckIn(stuck, leaf), leaf);
  }

  /** Exactly: after a restart every account covers its session if and only if no session has a byte left. */
  lemma RestartCoversIff(s: State, t: State, aged: set<string>, stuck: Stuck)
    requires IsRestarted(s, t, aged, stuck)
    ensures t.IsCovered() <==> forall sid :: Total(Remaining(s, aged, stuck, sid)) == 0
  {
    forall sid ensures t.IsCoveredFor(sid) <==> Total(Remaining(s, aged, stuck, sid)) == 0 {
      assert t.Account(sid) == 0;
    }
    if t.IsCovered() {
      forall sid ensures Total(Remaining(s, aged, stuck, sid)) == 0 {
        assert t.IsCoveredFor(sid);
      }
    }
  }

  /** A forgotten id is harmless if nothing of its session remains. */
  ghost predicate IsHarmless(s: State, leaves: set<string>, stuck: Stuck, leaf: string) {
    Total(Remaining(s, leaves, stuck, SidOf(leaf))) == 0
  }

  /**
   The exact condition: a cleanup keeps every account covering its session if and only if nothing
   remains of the sessions whose ids it forgets.
   */
  lemma CleanupCoversIff(s: State, t: State, leaves: set<string>, stuck: Stuck)
    requires s.IsCovered() && IsCleaned(s, t, leaves, stuck)
    ensures t.IsCovered() <==> forall l :: l in leaves ==> IsHarmless(s, leaves, stuck, l)
  {
    if t.IsCovered() {
      forall l | l in leaves ensures IsHarmless(s, leaves, stuck, l) {
        assert t.IsCoveredFor(SidOf(l)) && SidOf(l) in Forgotten(leaves);
      }
    } else {
      var sid :| !t.IsCoveredFor(sid);
      assert s.IsCoveredFor(sid);
      LeftIsSmaller(s.Session(sid), StuckIn(stuck, PREFIX + sid));
      assert sid in Forgotten(leaves);
      var l :| l in leaves && SidOf(l) == sid;
      assert !IsHarmless(s, leaves, stuck, l);
    }
  }

  /**
   For one directory whose removal succeeds: the account goes on covering if and only if the
   directory has the prefix, or the session it is mistaken for holds nothing.
   */
  lemma OneDirectoryCoversIff(s: State, t: State, leaf: string)
    requires s.IsCovered() && IsCleaned(s, t, {leaf}, map[])
    ensures t.IsCovered() <==> PREFIX <= leaf || Total(s.Session(leaf)) == 0
  {
    CleanupCoversIff(s, t, {leaf}, map[]);
    LeftIsSmaller(s.Session(SidOf(leaf)), {});
    if PREFIX <= leaf {
      assert PREFIX + SidOf(leaf) == leaf;
    }
    assert IsHarmless(s, {leaf}, map[], leaf) <==> PREFIX <= leaf || Total(s.Session(leaf)) == 0;
  }

  /** The case that fails: a directory named like a session but without the prefix passes the test. */
  lemma UnprefixedDirectoryForgets(base: seq<string>)
    ensures SweptLeaves(base, [base + ["foo"]]) == {"foo"}
    ensures var files: Files := map["b" := [7]];
            var s, t := State(map["foo" := files], map["foo" := 1]), State(map["foo" := files], map[]);
            s.IsCovered() && IsCleaned(s, t, {"foo"}, map[]) && !t.IsCovered()
  {
    var files: Files := map["b" := [7]];
    var s, t := State(map["foo" := files], map["foo" := 1]), State(map["foo" := files], map[]);
    TotalWithout(files, "b");
    assert Total<string>(map[]) == 0 && files - {"b"} == map[];
    assert !(PREFIX <= "foo") && SidOf("foo") == "foo" && Forgotten({"foo"}) == {"foo"};
    assert !t.IsCoveredFor("foo");
    assert IsSwept(base, base + ["foo"]);
  }

  // ---------------------------------------------------------------- one frame

  predicate SameElsewhere(s: State, t: State, sid: string) {
    s.sessions - {sid} == t.sessions - {sid} && s.upBytes - {sid} == t.upBytes - {sid}
  }

  predicate IsOver(s: State, f: Frame)
    requires f.body.Data?
  {
    s.Account(f.sid) + |f.body.bytes| > SID_CAP
  }

  /** A chunk starts its file anew, or there is a file it can be appended to. */
  predicate HasPlace(s: State, f: Frame) {
    f.seqNo == 0 || f.name in s.Session(f.sid)
  }

  /** How much of a chunk reaches the disk. */
  function Fitting(f: Frame, io: Io): nat
    requires f.body.Data?
  {
    if io.room < |f.body.bytes| then io.room else |f.body.bytes|
  }

  function Written(files: Files, f: Frame, io: Io): Files {
    if f.body.Data? && io.open then Chunked(files, f.name, f.seqNo, f.body.bytes, Fitting(f, io)) else files
  }

  /** The named file begins anew or goes on with the bytes that fitted, and no other file is touched. */
  lemma WrittenIsPrefix(files: Files, f: Frame, io: Io)
    ensures Written(files, f, io) - {f.name} == files - {f.name}
    ensures if f.body.Data? && io.open && (f.seqNo == 0 || f.name in files)
            then exists data :: data <= f.body.bytes && (data == f.body.bytes || |data| == io.room)
                   && |data| <= io.room && f.name in Written(files, f, io)
                   && Written(files, f, io)[f.name] == if f.seqNo == 0 then data else files[f.name] + data
            else Written(files, f, io) == files
  {
    if f.body.Data? && io.open && (f.seqNo == 0 || f.name in files) {
      var data := f.body.bytes[..Fitting(f, io)];
      assert data <= f.body.bytes;
      assert Written(files, f, io)[f.name] == if f.seqNo == 0 then data else files[f.name] + data;
    }
  }

  predicate IsFine(f: Frame, io: Io) {
    f.body.Data? && io.mkdir && io.open && io.room >= |f.body.bytes|
  }

  /** An acknowledged chunk is on disk in full, in its place, and on the account. */
  predicate IsAcceptedAs(s: State, t: State, f: Frame, r: Reply) {
    && IsAllowed(f.sid, f.name) && f.body.Data?
    && r == Acked(f.seqNo, Path(f.sid, f.name))
    && HasPlace(s, f)
    && t.Session(f.sid) == Chunked(s.Session(f.sid), f.name, f.seqNo, f.body.bytes, |f.body.bytes|)
    && t.Account(f.sid) == s.Account(f.sid) + |f.body.bytes|
  }

  /**
   What a frame that is not refused leaves: the session holds as much of the chunk as fitted, and
   all of it is on the account, written or not.
   */
  predicate IsTakenAs(s: State, t: State, f: Frame, io: Io) {
    && t.Session(f.sid) == Written(s.Session(f.sid), f, io)
    && t.Account(f.sid) == s.Account(f.sid) + if f.body.Data? then |f.body.bytes| else 0
  }

  class Server {
    /** The upload root, as path components. */
    const base: seq<string>
    var sessions: map<string, Files>
    var upBytes: map<string, nat>

    function View(): State
      reads this
    {
      State(sessions, upBytes)
    }

    /**
     A new process: startupSweep removes the directories of the last one that are over age, and no
     account is known.
     */
    constructor (base: seq<string>, left: map<string, Files>, aged: seq<string>, stuck: Stuck)
      ensures this.base == base
      ensures IsRestarted(State(left, map[]), View(), Elements(aged), stuck)
    {
      this.base := base;
      sessions, upBytes := left, map[];
      new;
      for i := 0 to |aged|
        invariant IsRestarted(State(left, map[]), View(), Elements(aged[..i]), stuck)
      {
        OneMoreAged(State(left, map[]), View(), Elements(aged[..i]), stuck, aged[i]);
        assert aged[..i + 1] == aged[..i] + [aged[i]];
        assert Elements(aged[..i + 1]) == Elements(aged[..i]) + {aged[i]};
        sessions := Swept(View(), aged[i], StuckIn(stuck, aged[i])).sessions;
      }
      assert aged[..|aged|] == aged;
    }

    /** The write itself, already accounted for. */
    method WriteChunk(f: Frame, io: Io) returns (r: Reply)
      requires f.sid in sessions && f.body.Data?
      modifies `sessions
      ensures sessions - {f.sid} == old(sessions) - {f.sid} && f.sid in sessions
      ensures Total(sessions[f.sid]) <= Total(old(sessions)[f.sid]) + |f.body.bytes|
      ensures r == Acked(f.seqNo, Path(f.sid, f.name)) || r == Broken
      ensures r.Acked? <==> io.open && io.room >= |f.body.bytes| && HasPlace(old(View()), f)
      ensures sessions[f.sid] == Written(old(sessions)[f.sid], f, io)
    {
      var files, data := sessions[f.sid], f.body.bytes;
      if !io.open || (f.seqNo != 0 && f.name !in files) {
        return Broken;
      }
      var n := if io.room < |data| then io.room else |data|;
      ChunkedGrows(files, f.name, f.seqNo, data, n);
      assert data[..|data|] == data;
      if f.seqNo == 0 {
        sessions := sessions[f.sid := files[f.name := data[..n]]];
      } else {
        sessions := sessions[f.sid := files[f.name := files[f.name] + data[..n]]];
      }
      r := if n < |data| then Broken else Acked(f.seqNo, Path(f.sid, f.name));
    }

    /** What follows once the session's directory exists: decode, account, write. */
    method TakeChunk(f: Frame, io: Io) returns (r: Reply)
      requires f.sid in sessions && IsAllowed(f.sid, f.name)
      modifies this
      ensures old(View()).IsCoveredFor(f.sid) ==> View().IsCoveredFor(f.sid)
      ensures SameElsewhere(old(View()), View(), f.sid)
      ensures r.Acked? ==> IsAcceptedAs(old(View()), View(), f, r)
      ensures r.Refused? ==> View() == old(View())
      ensures r.Refused? <==> f.body.Data? && IsOver(old(View()), f)
      ensures !r.Refused? ==> IsTakenAs(old(View()), View(), f, io)
      ensures r.Acked? <==>
                !r.Refused? && f.body.Data? && io.open && io.room >= |f.body.bytes| && HasPlace(old(View()), f)
    {
      if f.body.Garbled? {
        return Broken;
      }
      var total := View().Account(f.sid) + |f.body.bytes|;
      if total > SID_CAP {
        return Refused;
      }
      upBytes := upBytes[f.sid := total];
      r := WriteChunk(f, io);
    }

    /**
     One upload frame.  Whatever happens to it, an account that covered its session under the cap
     still does, and no other session is touched.
     */
    method HandleUpload(f: Frame, readOnly: bool, io: Io) returns (r: Reply)
      modifies this
      ensures forall sid :: old(View()).IsCoveredFor(sid) ==> View().IsCoveredFor(sid)
      ensures SameElsewhere(old(View()), View(), f.sid)
      ensures r.Acked? ==> !readOnly && IsAcceptedAs(old(View()), View(), f, r)
      ensures r.Refused? ==> View().Session(f.sid) == old(View()).Session(f.sid) && upBytes == old(upBytes)
      ensures r.Refused? <==>
                readOnly || !IsAllowed(f.sid, f.name) || (io.mkdir && f.body.Data? && IsOver(old(View()), f))
      ensures readOnly || !IsAllowed(f.sid, f.name) || !io.mkdir ==> View() == old(View())
      ensures !r.Refused? && io.mkdir ==> IsTakenAs(old(View()), View(), f, io)
      ensures r.Acked? <==> !r.Refused? && IsFine(f, io) && HasPlace(old(View()), f)
    {
      ghost var before := View();
      if !IsAllowed(f.sid, f.name) {
        return Refused;
      }
      if readOnly {
        return Refused;
      }
      if !io.mkdir {
        return Broken;
      }
      if f.sid !in sessions {
        sessions := sessions[f.sid := map[]];
      }
      r := TakeChunk(f, io);
      CoveredElsewhere(before, View(), f.sid);
    }

    /** cleanupFlashUploads: `dirs` are the directories of the bin paths a peer sent. */
    method Cleanup(dirs: seq<seq<string>>, stuck: Stuck)
      modifies this
      ensures IsCleaned(old(View()), View(), SweptLeaves(base, dirs), stuck)
    {
      var done: set<string> := {};
      for i := 0 to |dirs|
        invariant done == SweptLeaves(base, dirs[..i])
        invariant IsCleaned(old(View()), View(), done, stuck)
      {
        var dir := dirs[i];
        assert dirs[..i + 1] == dirs[..i] + [dir];
        if !IsSwept(base, dir) || dir[|base|] in done {
          continue;
        }
        var leaf := dir[|base|];
        OneMoreLeaf(old(View()), View(), done, stuck, leaf);
        sessions := Swept(View(), leaf, StuckIn(stuck, leaf)).sessions;
        upBytes := upBytes - {SidOf(leaf)};
        done := done + {leaf};
      }
      assert dirs[..|dirs|] == dirs;
    }
  }

  lemma CoveredElsewhere(s: State, t: State, sid: string)
    requires SameElsewhere(s, t, sid) && (s.IsCoveredFor(sid) ==> t.IsCoveredFor(sid))
    ensures forall other :: s.IsCoveredFor(other) ==> t.IsCoveredFor(other)
  {
    forall other | s.IsCoveredFor(other) ensures t.IsCoveredFor(other) {
      if other != sid {
        assert other in s.sessions <==> other in s.sessions - {sid};
        assert other in t.sessions <==> other in t.sessions - {sid};
        assert other in s.upBytes <==> other in s.upBytes - {sid};
        assert other in t.upBytes <==> other in t.upBytes - {sid};
      }
    }
  }

  // ---------------------------------------------------------------- the client

  /** What other connections have the server do meanwhile. */
  datatype Other = Chunk(f: Frame, readOnly: bool, io: Io) | Clean(dirs: seq<seq<string>>, stuck: Stuck)

  predicate Spares(o: Other, base: seq<string>, sid: string) {
    match o
    case Chunk(f, _, _) => f.sid != sid
    case Clean(dirs, _) => sid !in Forgotten(SweptLeaves(base, dirs))
  }

  /** What surrounds one chunk: the others before it, the server's answer to it, the connection. */
  datatype Turn = Turn(others: seq<Other>, readOnly: bool, io: Io, sent: bool, answered: bool)

  predicate IsHealthy(t: Turn) {
    t.sent && t.answered && !t.readOnly && t.io.mkdir && t.io.open && t.io.room >= CHUNK
  }

  predicate SparesAll(t: Turn, base: seq<string>, sid: string) {
    forall o :: o in t.others ==> Spares(o, base, sid)
  }

  lemma ElsewhereKeeps(s: State, t: State, other: string, sid: string)
    requires SameElsewhere(s, t, other) && other != sid
    ensures t.Session(sid) == s.Session(sid) && t.Account(sid) == s.Account(sid)
  {
    assert sid in s.sessions <==> sid in s.sessions - {other};
    assert sid in t.sessions <==> sid in t.sessions - {other};
    assert sid in s.upBytes <==> sid in s.upBytes - {other};
    assert sid in t.upBytes <==> sid in t.upBytes - {other};
  }

  lemma CleaningKeeps(s: State, t: State, leaves: set<string>, stuck: Stuck, sid: string)
    requires IsCleaned(s, t, leaves, stuck) && sid !in Forgotten(leaves)
    ensures t.Session(sid) == s.Session(sid) && t.Account(sid) == s.Account(sid)
  {
    PrefixedLeaf(sid);
    assert PREFIX + sid in leaves ==> SidOf(PREFIX + sid) in Forgotten(leaves);
  }

  method Meanwhile(server: Server, others: seq<Other>, ghost sid: string)
    requires forall o :: o in others ==> Spares(o, server.base, sid)
    modifies server
    ensures server.View().Session(sid) == old(server.View()).Session(sid)
    ensures server.View().Account(sid) == old(server.View()).Account(sid)
  {
    for i := 0 to |others|
      invariant server.View().Session(sid) == old(server.View()).Session(sid)
      invariant server.View().Account(sid) == old(server.View()).Account(sid)
    {
      ghost var before := server.View();
      assert Spares(others[i], server.base, sid);
      match others[i] {
        case Chunk(f, readOnly, io) =>
          var _ := server.HandleUpload(f, readOnly, io);
          ElsewhereKeeps(before, server.View(), f.sid, sid);
        case Clean(dirs, stuck) =>
          server.Cleanup(dirs, stuck);
          CleaningKeeps(before, server.View(), SweptLeaves(server.base, dirs), stuck, sid);
      }
    }
  }

  predicate IsTakeable(s: State, f: Frame)
    requires f.body.Data?
  {
    IsAllowed(f.sid, f.name) && HasPlace(s, f) && !IsOver(s, f)
  }

  ghost predicate AllHealthy(env: nat -> Turn) {
    forall k :: IsHealthy(env(k))
  }

  /** One chunk there and its acknowledgement back. */
  method SendChunk(server: Server, f: Frame, t: Turn) returns (ok: bool)
    requires f.body.Data? && |f.body.bytes| <= CHUNK && SparesAll(t, server.base, f.sid)
    modifies server
    ensures old(server.View()).IsCoveredFor(f.sid) ==> server.View().IsCoveredFor(f.sid)
    ensures !t.sent ==> var was, now := old(server.View()), server.View();
              now.Session(f.sid) == was.Session(f.sid) && now.Account(f.sid) == was.Account(f.sid)
    ensures ok ==> var was, now := old(server.View()), server.View();
              && now.Session(f.sid) == Chunked(was.Session(f.sid), f.name, f.seqNo, f.body.bytes, |f.body.bytes|)
              && now.Account(f.sid) == was.Account(f.sid) + |f.body.bytes|
    ensures ok <==>
              t.sent && t.answered && !t.readOnly && IsFine(f, t.io) && IsTakeable(old(server.View()), f)
  {
    Meanwhile(server, t.others, f.sid);
    if !t.sent {
      return false;
    }
    var r := server.HandleUpload(f, t.readOnly, t.io);
    return t.answered && r.Acked? && r.seqNo == f.seqNo;
  }

  /** How much of a file has been sent after n chunks. */
  function SentAfter(data: bytes, n: nat): nat {
    if n * CHUNK < |data| then n * CHUNK else |data|
  }

  lemma ChunkBounds(data: bytes, n: nat)
    requires n == 0 || n * CHUNK < |data|
    ensures var lo := n * CHUNK;
            var hi := if lo + CHUNK > |data| then |data| else lo + CHUNK;
            && lo <= hi && hi - lo <= CHUNK && lo == SentAfter(data, n) && hi == SentAfter(data, n + 1)
  {
  }

  lemma SliceGrows(data: bytes, lo: nat, hi: nat)
    requires lo <= hi <= |data|
    ensures data[..lo] + data[lo..hi] == data[..hi]
  {
  }

  /** The file holds the first `sent` bytes; none sent yet means it is as it was. */
  predicate HasSent(was: Files, now: Files, name: string, data: bytes, n: nat) {
    now == if n == 0 then was else was[name := data[..SentAfter(data, n)]]
  }

  lemma ChunkWritten(was: Files, now: Files, name: string, data: bytes, n: nat, lo: nat, hi: nat)
    requires lo <= hi <= |data| && (n == 0 ==> lo == 0)
    requires now == if n == 0 then was else was[name := data[..lo]]
    ensures Chunked(now, name, n, data[lo..hi], hi - lo) == was[name := data[..hi]]
  {
    SliceGrows(data, lo, hi);
    assert data[lo..hi][..hi - lo] == data[lo..hi];
  }

  lemma ChunkExtends(was: Files, now: Files, name: string, data: bytes, n: nat)
    requires n == 0 || n * CHUNK < |data|
    requires HasSent(was, now, name, data, n)
    ensures var lo, hi := SentAfter(data, n), SentAfter(data, n + 1);
            lo <= hi && HasSent(was, Chunked(now, name, n, data[lo..hi], hi - lo), name, data, n + 1)
  {
    ChunkBounds(data, n);
    ChunkWritten(was, now, name, data, n, SentAfter(data, n), SentAfter(data, n + 1));
  }

  /** An empty file is one empty chunk. */
  function Chunks(data: bytes): nat {
    if data == [] then 1 else (|data| + CHUNK - 1) / CHUNK
  }

  lemma ChunksNeeded(data: bytes)
    ensures Chunks(data) > 0 && SentAfter(data, Chunks(data)) == |data|
    ensures forall n: nat :: n < Chunks(data) ==> n == 0 || n * CHUNK < |data|
  {
  }

  predicate HasRoom(s: State, sid: string, n: nat) {
    s.Account(sid) + n <= SID_CAP
  }

  /** The n-th turn of the chunk loop. */
  method SendPiece(server: Server, sid: string, name: string, data: bytes, n: nat, t: Turn, ghost was: Files)
    returns (ok: bool)
    requires SparesAll(t, server.base, sid) && (n == 0 || n * CHUNK < |data|)
    requires HasSent(was, server.View().Session(sid), name, data, n)
    modifies server
    ensures old(server.View()).IsCoveredFor(sid) ==> server.View().IsCoveredFor(sid)
    ensures ok ==> HasSent(was, server.View().Session(sid), name, data, n + 1)
    ensures ok ==>
              server.View().Account(sid) + SentAfter(data, n)
              == old(server.View()).Account(sid) + SentAfter(data, n + 1)
    ensures IsHealthy(t) && IsAllowed(sid, name) && HasRoom(old(server.View()), sid, |data| - SentAfter(data, n)) ==> ok
  {
    var lo := n * CHUNK;
    var hi := if lo + CHUNK > |data| then |data| else lo + CHUNK;
    ChunkBounds(data, n);
    ChunkExtends(was, server.View().Session(sid), name, data, n);
    ok := SendChunk(server, Frame(sid, name, n, Data(data[lo..hi])), t);
  }

  /** The chunk loop for one file; an empty file is one empty chunk. */
  method SendFile(server: Server, sid: string, name: string, data: bytes, env: nat -> Turn, first: nat)
    returns (ok: bool, used: nat)
    requires forall k :: SparesAll(env(k), server.base, sid)
    modifies server
    ensures old(server.View()).IsCoveredFor(sid) ==> server.View().IsCoveredFor(sid)
    ensures ok ==> server.View().Session(sid) == old(server.View()).Session(sid)[name := data]
    ensures ok ==> server.View().Account(sid) == old(server.View()).Account(sid) + |data|
    ensures if ok then used == first + Chunks(data) else first < used <= first + Chunks(data)
    ensures AllHealthy(env) && IsAllowed(sid, name) && HasRoom(old(server.View()), sid, |data|) ==> ok
  {
    var total := (|data| + CHUNK - 1) / CHUNK;
    if total == 0 {
      total := 1;
    }
    ChunksNeeded(data);
    used := first;
    ghost var was := server.View();
    for n := 0 to total
      invariant was.IsCoveredFor(sid) ==> server.View().IsCoveredFor(sid)
      invariant HasSent(was.Session(sid), server.View().Session(sid), name, data, n)
      invariant server.View().Account(sid) == was.Account(sid) + SentAfter(data, n)
      invariant used == first + n
    {
      ok := SendPiece(server, sid, name, data, n, env(used), was.Session(sid));
      used := used + 1;
      if !ok {
        return;
      }
    }
    assert data[..|data|] == data;
    ok := true;
  }

  predicate AllAllowed(sid: string, files: Files) {
    forall name :: name in files ==> IsAllowed(sid, name)
  }

  /** Every file but those still to do is on the server byte for byte, and its path is known. */
  predicate AreThere(files: Files, todo: set<string>, there: Files, remote: map<string, Path>, sid: string) {
    forall name :: name in files && name !in todo ==>
      && name in there && there[name] == files[name] && name in remote && remote[name] == Path(sid, name)
  }

  lemma OneMoreThere(files: Files, todo: set<string>, name: string, there: Files, remote: map<string, Path>,
                     sid: string)
    requires AreThere(files, todo, there, remote, sid) && name in files
    ensures AreThere(files, todo - {name}, there[name := files[name]], remote[name := Path(sid, name)], sid)
  {
  }

  /**
   uploadSession.  If it reports success, every file is on the server byte for byte, whatever
   other sessions did meanwhile; and it does succeed when nothing fails and the files fit the cap.
   */
  method UploadSession(server: Server, sid: string, files: Files, env: nat -> Turn)
    returns (ok: bool, remote: map<string, Path>)
    requires forall k :: SparesAll(env(k), server.base, sid)
    modifies server
    ensures old(server.View()).IsCoveredFor(sid) ==> server.View().IsCoveredFor(sid)
    ensures ok ==> AreThere(files, {}, server.View().Session(sid), remote, sid)
    ensures AllHealthy(env) && AllAllowed(sid, files) && HasRoom(old(server.View()), sid, Total(files)) ==> ok
  {
    var todo := files.Keys;
    var used := 0;
    remote := map[];
    assert files - todo == map[];
    while todo != {}
      invariant todo <= files.Keys
      invariant old(server.View()).IsCoveredFor(sid) ==> server.View().IsCoveredFor(sid)
      invariant AreThere(files, todo, server.View().Session(sid), remote, sid)
      invariant server.View().Account(sid) == old(server.View()).Account(sid) + Total(files - todo)
      decreases |todo|
    {
      var name :| name in todo;
      SentSoFar(files, todo, name);
      OneMoreThere(files, todo, name, server.View().Session(sid), remote, sid);
      ok, used := SendFile(server, sid, name, files[name], env, used);
      if !ok {
        return;
      }
      remote := remote[name := Path(sid, name)];
      todo := todo - {name};
    }
    ok := true;
  }

  lemma SentSoFar(files: Files, todo: set<string>, name: string)
    requires name in todo && name in files
    ensures Total(files - (todo - {name})) == Total(files - todo) + |files[name]| <= Total(files)
  {
    var more := files - (todo - {name});
    TotalWithout(more, name);
    assert more - {name} == files - todo;
    TotalOfPart(files, todo - {name});
  }
}
