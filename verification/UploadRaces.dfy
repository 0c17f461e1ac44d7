/**
 Uploads and cleanups step by step: frames of any connections, and the two halves of a cleanup of
 one directory, which removes the directory first and forgets the account later; and restarts of the
 process, which keep young directories and no account.
 */
module UploadRaces {
  import opened Bytes
  import opened Upload

  /** Where a connection is inside handleUpload. */
  datatype Phase = Checked(f: Frame) | Made(f: Frame) | Accounted(f: Frame)

  datatype World = World(disk: State, conns: map<nat, Phase>, cleaning: map<nat, string>)

  datatype Action =
    | Receive(conn: nat, f: Frame)
    | GiveUp(conn: nat)
    | MakeDir(conn: nat)
    | TakeAccount(conn: nat)
    | WriteOut(conn: nat, opens: bool, n: nat)
    | Remove(cleanup: nat, leaf: string, stuck: set<string>)
    | Forget(cleanup: nat)
    | Restart(aged: set<string>, leftovers: Stuck)

  predicate Enabled(w: World, a: Action) {
    match a
    case Receive(c, f) => c !in w.conns && f.body.Data? && IsAllowed(f.sid, f.name)
    case GiveUp(c) => c in w.conns && w.conns[c].Checked?
    case MakeDir(c) => c in w.conns && w.conns[c].Checked?
    case TakeAccount(c) => c in w.conns && w.conns[c].Made? && w.conns[c].f.body.Data?
    case WriteOut(c, _, n) =>
      c in w.conns && w.conns[c].Accounted? && w.conns[c].f.body.Data? && n <= |w.conns[c].f.body.bytes|
    case Remove(k, leaf, _) => k !in w.cleaning && IsSafe(SidOf(leaf))
    case Forget(k) => k in w.cleaning
    case Restart(_, _) => true
  }

  /** What a write does: nothing if the directory or the file to append to is gone or will not open. */
  function Written(disk: State, f: Frame, opens: bool, n: nat): State
    requires f.body.Data? && n <= |f.body.bytes|
  {
    if !opens || f.sid !in disk.sessions then disk
    else disk.(sessions := disk.sessions[f.sid := Chunked(disk.sessions[f.sid], f.name, f.seqNo, f.body.bytes, n)])
  }

  function Apply(w: World, a: Action): World
    requires Enabled(w, a)
  {
    match a
    case Receive(c, f) => w.(conns := w.conns[c := Checked(f)])
    case GiveUp(c) => w.(conns := w.conns - {c})
    case MakeDir(c) =>
      var f := w.conns[c].f;
      w.(conns := w.conns[c := Made(f)], disk := w.disk.(sessions := w.disk.sessions[f.sid := w.disk.Session(f.sid)]))
    case TakeAccount(c) =>
      var f := w.conns[c].f;
      if IsOver(w.disk, f) then w.(conns := w.conns - {c})
      else w.(conns := w.conns[c := Accounted(f)],
              disk := w.disk.(upBytes := w.disk.upBytes[f.sid := w.disk.Account(f.sid) + |f.body.bytes|]))
    case WriteOut(c, opens, n) =>
      w.(conns := w.conns - {c}, disk := Written(w.disk, w.conns[c].f, opens, n))
    case Remove(k, leaf, stuck) =>
      w.(cleaning := w.cleaning[k := leaf], disk := Swept(w.disk, leaf, stuck))
    case Forget(k) =>
      w.(cleaning := w.cleaning - {k}, disk := w.disk.(upBytes := w.disk.upBytes - {SidOf(w.cleaning[k])}))
    case Restart(aged, stuck) =>
      World(State(map sid | sid in w.disk.sessions :: Remaining(w.disk, aged, stuck, sid), map[]), map[], map[])
  }

  ghost predicate IsRun(run: seq<World>, acts: seq<Action>) {
    && |run| == |acts| + 1
    && run[0] == World(State(map[], map[]), map[], map[])
    && forall i :: 0 <= i < |acts| ==> Enabled(run[i], acts[i]) && run[i + 1] == Apply(run[i], acts[i])
  }

  // ---------------------------------------------------------------- the account at every step

  /** Chunks of a session that are on the account but not yet on disk. */
  function InFlight(conns: map<nat, Phase>, sid: string): map<nat, bytes> {
    map c | c in conns && conns[c].Accounted? && conns[c].f.sid == sid && conns[c].f.body.Data? :: conns[c].f.body.bytes
  }

  /** On disk or on its way there. */
  ghost function Load(w: World, sid: string): nat {
    Total(w.disk.Session(sid)) + Total(InFlight(w.conns, sid))
  }

  ghost predicate IsCovered(w: World, sid: string) {
    Load(w, sid) <= w.disk.Account(sid) <= SID_CAP
  }

  /** A restart keeps bytes of a session; the new process has no account for them. */
  ghost predicate KeepsLoad(w: World, a: Action, sid: string) {
    a.Restart? && Total(Remaining(w.disk, a.aged, a.leftovers, sid)) > 0
  }

  /** The dangerous steps: the account goes while its session holds or expects bytes. */
  ghost predicate LosesAccount(w: World, a: Action, sid: string) {
    ForgetsLoad(w, a, sid) || KeepsLoad(w, a, sid)
  }

  /** A cleanup forgets the account of a session that holds or expects bytes. */
  ghost predicate ForgetsLoad(w: World, a: Action, sid: string) {
    a.Forget? && a.cleanup in w.cleaning && SidOf(w.cleaning[a.cleanup]) == sid && Load(w, sid) > 0
  }

  lemma InFlightWithout(conns: map<nat, Phase>, c: nat, sid: string)
    ensures InFlight(conns - {c}, sid) == InFlight(conns, sid) - {c}
    ensures Total(InFlight(conns - {c}, sid)) <= Total(InFlight(conns, sid))
  {
    assert InFlight(conns - {c}, sid) == InFlight(conns, sid) - {c};
    TotalOfPart(InFlight(conns, sid), {c});
  }

  lemma NotInFlight(conns: map<nat, Phase>, c: nat, p: Phase, sid: string)
    requires !p.Accounted? && (c in conns ==> !conns[c].Accounted?)
    ensures InFlight(conns[c := p], sid) == InFlight(conns, sid)
  {
  }

  lemma AccountKeeps(w: World, c: nat, sid: string)
    requires Enabled(w, TakeAccount(c)) && IsCovered(w, sid)
    ensures IsCovered(Apply(w, TakeAccount(c)), sid)
  {
    var f := w.conns[c].f;
    if IsOver(w.disk, f) {
      InFlightWithout(w.conns, c, sid);
    } else {
      var before, after := InFlight(w.conns, sid), InFlight(w.conns[c := Accounted(f)], sid);
      if f.sid == sid {
        assert after == before[c := f.body.bytes];
        TotalWith(before, c, f.body.bytes);
      } else {
        assert after == before;
      }
    }
  }

  lemma WriteKeeps(w: World, c: nat, opens: bool, n: nat, sid: string)
    requires Enabled(w, WriteOut(c, opens, n)) && IsCovered(w, sid)
    ensures IsCovered(Apply(w, WriteOut(c, opens, n)), sid)
  {
    var f := w.conns[c].f;
    InFlightWithout(w.conns, c, sid);
    if f.sid == sid {
      TotalWithout(InFlight(w.conns, sid), c);
      ChunkedGrows(w.disk.Session(sid), f.name, f.seqNo, f.body.bytes, n);
    }
  }

  lemma RemoveKeeps(w: World, leaf: string, stuck: set<string>, sid: string)
    ensures Total(Swept(w.disk, leaf, stuck).Session(sid)) <= Total(w.disk.Session(sid))
    ensures Swept(w.disk, leaf, stuck).Account(sid) == w.disk.Account(sid)
  {
    SweptSession(w.disk, leaf, stuck, sid);
    LeftIsSmaller(w.disk.Session(sid), stuck);
  }

  lemma RestartedSession(w: World, aged: set<string>, stuck: Stuck, sid: string)
    ensures var u := Apply(w, Restart(aged, stuck));
            && u.disk.Session(sid) == Remaining(w.disk, aged, stuck, sid)
            && u.disk.Account(sid) == 0 && Load(u, sid) == Total(Remaining(w.disk, aged, stuck, sid))
  {
    assert InFlight(map[], sid) == map[] && Total<nat>(map[]) == 0;
    assert sid !in w.disk.sessions ==> Remaining(w.disk, aged, stuck, sid) == map[];
  }

  /** Every step that does not lose the account keeps disk and flight within it, and it within the cap. */
  lemma StepKeepsCovered(w: World, a: Action, sid: string)
    requires Enabled(w, a) && IsCovered(w, sid) && !LosesAccount(w, a, sid)
    ensures IsCovered(Apply(w, a), sid)
  {
    match a
    case Receive(c, f) => NotInFlight(w.conns, c, Checked(f), sid);
    case GiveUp(c) => InFlightWithout(w.conns, c, sid);
    case MakeDir(c) => NotInFlight(w.conns, c, Made(w.conns[c].f), sid);
    case TakeAccount(c) => AccountKeeps(w, c, sid);
    case WriteOut(c, opens, n) => WriteKeeps(w, c, opens, n, sid);
    case Remove(_, leaf, stuck) => RemoveKeeps(w, leaf, stuck, sid);
    case Forget(_) =>
    case Restart(aged, stuck) => RestartedSession(w, aged, stuck, sid);
  }

  lemma {:induction false} CoveredUntil(run: seq<World>, acts: seq<Action>, n: nat, sid: string)
    requires IsRun(run, acts) && n < |run|
    requires forall i :: 0 <= i < n ==> !LosesAccount(run[i], acts[i], sid)
    ensures IsCovered(run[n], sid)
  {
    if n == 0 {
      assert InFlight(run[0].conns, sid) == map[];
      assert Total<nat>(map[]) == 0 && Total<string>(map[]) == 0;
    } else {
      CoveredUntil(run, acts, n - 1, sid);
      StepKeepsCovered(run[n - 1], acts[n - 1], sid);
    }
  }

  lemma LostAccount(w: World, a: Action, sid: string)
    requires Enabled(w, a) && LosesAccount(w, a, sid)
    ensures !IsCovered(Apply(w, a), sid)
  {
    if a.Restart? {
      RestartedSession(w, a.aged, a.leftovers, sid);
    }
  }

  /**
   The exact condition, for every run: the account of a session covers it at all times if and only
   if no cleanup forgets it while the session has bytes on disk or on their way, and no restart of
   the process keeps bytes of it.
   */
  lemma CoveredIffAccountKept(run: seq<World>, acts: seq<Action>, sid: string)
    requires IsRun(run, acts)
    ensures (forall n :: 0 <= n < |run| ==> IsCovered(run[n], sid))
            <==> (forall i :: 0 <= i < |acts| ==> !LosesAccount(run[i], acts[i], sid))
  {
    if forall i :: 0 <= i < |acts| ==> !LosesAccount(run[i], acts[i], sid) {
      forall n | 0 <= n < |run| ensures IsCovered(run[n], sid) {
        CoveredUntil(run, acts, n, sid);
      }
    } else {
      var i :| 0 <= i < |acts| && LosesAccount(run[i], acts[i], sid);
      assert run[i + 1] == Apply(run[i], acts[i]);
      LostAccount(run[i], acts[i], sid);
      assert !IsCovered(run[i + 1], sid);
    }
  }

  // ---------------------------------------------------------------- when a cleanup is careless

  predicate TouchesSession(w: World, a: Action, sid: string) {
    && (a.MakeDir? || a.TakeAccount? || a.WriteOut?)
    && a.conn in w.conns && w.conns[a.conn].f.sid == sid
  }

  lemma SweptStaysEmpty(disk: State, leaf: string, stuck: set<string>, sid: string)
    requires disk.Session(sid) == map[]
    ensures Swept(disk, leaf, stuck).Session(sid) == map[]
  {
    SweptSession(disk, leaf, stuck, sid);
  }

  lemma EmptyStays(w: World, a: Action, sid: string)
    requires Enabled(w, a) && !TouchesSession(w, a, sid)
    requires w.disk.Session(sid) == map[] && InFlight(w.conns, sid) == map[]
    ensures Apply(w, a).disk.Session(sid) == map[] && InFlight(Apply(w, a).conns, sid) == map[]
  {
    if a.Remove? {
      SweptStaysEmpty(w.disk, a.leaf, a.stuck, sid);
    } else if a.Restart? {
      RestartedSession(w, a.aged, a.leftovers, sid);
      assert Left(map[], StuckIn(a.leftovers, PREFIX + sid)) == map[];
    }
  }

  lemma {:induction false} EmptyBetween(run: seq<World>, acts: seq<Action>, i: nat, j: nat, sid: string)
    requires IsRun(run, acts) && i <= j < |run|
    requires run[i].disk.Session(sid) == map[] && InFlight(run[i].conns, sid) == map[]
    requires forall k :: i <= k < j ==> !TouchesSession(run[k], acts[k], sid)
    ensures run[j].disk.Session(sid) == map[] && InFlight(run[j].conns, sid) == map[]
  {
    if i < j {
      EmptyBetween(run, acts, i, j - 1, sid);
      EmptyStays(run[j - 1], acts[j - 1], sid);
    }
  }

  /**
   A cleanup is harmless if its directory is the session's own and goes entirely, no frame of the
   session is under way when it goes and none comes before the account is forgotten.
   */
  lemma QuietCleanupIsHarmless(run: seq<World>, acts: seq<Action>, i: nat, j: nat, sid: string)
    requires IsRun(run, acts) && i < j < |acts|
    requires acts[i].Remove? && acts[i].leaf == PREFIX + sid && acts[i].stuck == {}
    requires InFlight(run[i].conns, sid) == map[]
    requires forall k :: i < k < j ==> !TouchesSession(run[k], acts[k], sid)
    ensures !ForgetsLoad(run[j], acts[j], sid)
  {
    assert run[i + 1] == Apply(run[i], acts[i]);
    SweptSession(run[i].disk, acts[i].leaf, {}, sid);
    LeftIsSmaller(run[i].disk.Session(sid), {});
    EmptyBetween(run, acts, i + 1, j, sid);
    assert Total<nat>(map[]) == 0;
  }

  /**
   A cleanup of a directory without the prefix removes nothing: whenever its process ends it, it is harmless
   exactly if the session whose id it forgets has nothing on disk or on its way.
   */
  lemma UnprefixedCleanupIsHarmlessIff(run: seq<World>, acts: seq<Action>, i: nat, j: nat, sid: string)
    requires IsRun(run, acts) && i < j < |acts|
    requires acts[i].Remove? && acts[i].leaf == sid && !(PREFIX <= sid)
    requires acts[j] == Forget(acts[i].cleanup)
    requires forall k :: i < k < j ==> acts[k] != Forget(acts[i].cleanup) && !acts[k].Restart?
    ensures run[i + 1].disk == run[i].disk
    ensures IsCovered(run[j], sid) ==> (IsCovered(run[j + 1], sid) <==> Load(run[j], sid) == 0)
  {
    assert run[i + 1] == Apply(run[i], acts[i]) && run[j + 1] == Apply(run[j], acts[j]);
    CleaningStays(run, acts, i + 1, j, acts[i].cleanup, sid);
  }

  lemma {:induction false} CleaningStays(run: seq<World>, acts: seq<Action>, i: nat, j: nat, cleanup: nat, leaf: string)
    requires IsRun(run, acts) && i <= j < |run|
    requires cleanup in run[i].cleaning && run[i].cleaning[cleanup] == leaf
    requires forall k :: i <= k < j ==> acts[k] != Forget(cleanup) && !acts[k].Restart?
    ensures cleanup in run[j].cleaning && run[j].cleaning[cleanup] == leaf
  {
    if i < j {
      CleaningStays(run, acts, i, j - 1, cleanup, leaf);
    }
  }

  const BYTE := Frame("s", "b", 0, Data([7]))
  const NO_FILES: Files := map[]
  const ONE_FILE: Files := map["b" := [7]]

  /** A frame of one byte arrives between the two halves of a cleanup. */
  function RaceWorld(k: nat): World {
    match k
    case 0 => World(State(map[], map[]), map[], map[])
    case 1 => World(State(map[], map[]), map[], map[0 := "mesh-s"])
    case 2 => World(State(map[], map[]), map[1 := Checked(BYTE)], map[0 := "mesh-s"])
    case 3 => World(State(map["s" := NO_FILES], map[]), map[1 := Made(BYTE)], map[0 := "mesh-s"])
    case 4 => World(State(map["s" := NO_FILES], map["s" := 1]), map[1 := Accounted(BYTE)], map[0 := "mesh-s"])
    case 5 => World(State(map["s" := ONE_FILE], map["s" := 1]), map[], map[0 := "mesh-s"])
    case _ => World(State(map["s" := ONE_FILE], map[]), map[], map[])
  }

  function RaceAct(k: nat): Action {
    match k
    case 0 => Remove(0, "mesh-s", {})
    case 1 => Receive(1, BYTE)
    case 2 => MakeDir(1)
    case 3 => TakeAccount(1)
    case 4 => WriteOut(1, true, 1)
    case _ => Forget(0)
  }

  /** The same frame with no race at all, and then a cleanup of a directory without the prefix. */
  function PlainWorld(k: nat): World {
    match k
    case 0 => World(State(map[], map[]), map[], map[])
    case 1 => World(State(map[], map[]), map[1 := Checked(BYTE)], map[])
    case 2 => World(State(map["s" := NO_FILES], map[]), map[1 := Made(BYTE)], map[])
    case 3 => World(State(map["s" := NO_FILES], map["s" := 1]), map[1 := Accounted(BYTE)], map[])
    case 4 => World(State(map["s" := ONE_FILE], map["s" := 1]), map[], map[])
    case 5 => World(State(map["s" := ONE_FILE], map["s" := 1]), map[], map[0 := "s"])
    case _ => World(State(map["s" := ONE_FILE], map[]), map[], map[])
  }

  function PlainAct(k: nat): Action {
    match k
    case 0 => Receive(1, BYTE)
    case 1 => MakeDir(1)
    case 2 => TakeAccount(1)
    case 3 => WriteOut(1, true, 1)
    case 4 => Remove(0, "s", {})
    case _ => Forget(0)
  }

  lemma ByteArrives()
    ensures IsAllowed("s", "b") && Chunked(NO_FILES, "b", 0, [7], 1) == ONE_FILE
    ensures IsSafe(SidOf("mesh-s")) && SidOf("mesh-s") == "s" && IsSafe(SidOf("s")) && SidOf("s") == "s"
    ensures PREFIX <= "mesh-s" && !(PREFIX <= "s") && map["s" := 1] - {"s"} == map[]
  {
    assert Upper(Stem("b")) == "B";
    assert [7][..1] == [7];
    assert "mesh-s"[5..] == "s";
  }

  lemma RaceStep(k: nat)
    requires k < 6
    ensures Enabled(RaceWorld(k), RaceAct(k)) && RaceWorld(k + 1) == Apply(RaceWorld(k), RaceAct(k))
  {
    ByteArrives();
    if k < 3 {
    } else if k < 5 {
      RaceWrites(k);
    } else {
    }
  }

  lemma RaceWrites(k: nat)
    requires 3 <= k < 5
    ensures Enabled(RaceWorld(k), RaceAct(k)) && RaceWorld(k + 1) == Apply(RaceWorld(k), RaceAct(k))
  {
    ByteArrives();
    if k == 3 {
    } else {
    }
  }

  lemma PlainStep(k: nat)
    requires k < 6
    ensures Enabled(PlainWorld(k), PlainAct(k)) && PlainWorld(k + 1) == Apply(PlainWorld(k), PlainAct(k))
  {
    ByteArrives();
    if k < 2 {
    } else if k == 2 {
    } else if k == 3 {
    } else {
    }
  }

  /** It does happen: in the end a byte is on disk that no account knows of. */
  lemma UploadDuringCleanup() returns (run: seq<World>, acts: seq<Action>)
    ensures IsRun(run, acts) && |acts| == 6 && acts[0] == Remove(0, "mesh-s", {}) && acts[5].Forget?
    ensures run[6].disk.Session("s") == ONE_FILE && run[6].disk.Account("s") == 0
    ensures !IsCovered(run[6], "s")
  {
    run := seq(7, k requires 0 <= k < 7 => RaceWorld(k));
    acts := seq(6, k requires 0 <= k < 6 => RaceAct(k));
    forall k | 0 <= k < 6 ensures Enabled(run[k], acts[k]) && run[k + 1] == Apply(run[k], acts[k]) {
      RaceStep(k);
      assert run[k] == RaceWorld(k) && run[k + 1] == RaceWorld(k + 1) && acts[k] == RaceAct(k);
    }
    TotalWithout(run[6].disk.Session("s"), "b");
  }

  /** Nor does it take a race: the upload is complete before the cleanup of another directory begins. */
  lemma CleanupWithoutPrefix() returns (run: seq<World>, acts: seq<Action>)
    ensures IsRun(run, acts) && |acts| == 6 && acts[4] == Remove(0, "s", {}) && acts[5].Forget?
    ensures InFlight(run[4].conns, "s") == map[]
    ensures run[6].disk.Session("s") == ONE_FILE && run[6].disk.Account("s") == 0
    ensures !IsCovered(run[6], "s")
  {
    run := seq(7, k requires 0 <= k < 7 => PlainWorld(k));
    acts := seq(6, k requires 0 <= k < 6 => PlainAct(k));
    forall k | 0 <= k < 6 ensures Enabled(run[k], acts[k]) && run[k + 1] == Apply(run[k], acts[k]) {
      PlainStep(k);
      assert run[k] == PlainWorld(k) && run[k + 1] == PlainWorld(k + 1) && acts[k] == PlainAct(k);
    }
    TotalWithout(run[6].disk.Session("s"), "b");
  }

  /** Nor a cleanup: an upload is complete, then the process is restarted within the age limit. */
  lemma RestartForgets() returns (run: seq<World>, acts: seq<Action>)
    ensures IsRun(run, acts) && |acts| == 5 && acts[4] == Restart({}, map[])
    ensures forall i, sid :: 0 <= i < 5 ==> !ForgetsLoad(run[i], acts[i], sid)
    ensures InFlight(run[4].conns, "s") == map[] && IsCovered(run[4], "s")
    ensures run[5].disk.Session("s") == ONE_FILE && run[5].disk.Account("s") == 0
    ensures !IsCovered(run[5], "s")
  {
    var restarted := World(State(map["s" := ONE_FILE], map[]), map[], map[]);
    run := seq(5, k requires 0 <= k < 5 => PlainWorld(k)) + [restarted];
    acts := seq(4, k requires 0 <= k < 4 => PlainAct(k)) + [Restart({}, map[])];
    forall k | 0 <= k < 4 ensures Enabled(run[k], acts[k]) && run[k + 1] == Apply(run[k], acts[k]) {
      PlainStep(k);
      assert run[k] == PlainWorld(k) && run[k + 1] == PlainWorld(k + 1) && acts[k] == PlainAct(k);
    }
    assert Apply(run[4], acts[4]) == restarted;
    TotalWithout(ONE_FILE, "b");
    assert Total<nat>(map[]) == 0 && Total<string>(map[]) == 0 && ONE_FILE - {"b"} == map[];
  }

  // ---------------------------------------------------------------- left alone, a step does what Upload says

  /** A frame up to its account. */
  function Entered(w: World, c: nat, f: Frame): World
    requires Enabled(w, Receive(c, f))
  {
    Apply(Apply(Apply(w, Receive(c, f)), MakeDir(c)), TakeAccount(c))
  }

  /** A frame that meets nobody: over the cap it leaves files and account as they were. */
  lemma UndisturbedRefusal(w: World, c: nat, f: Frame)
    requires Enabled(w, Receive(c, f)) && IsOver(w.disk, f)
    ensures var t := Entered(w, c, f);
            && t.conns == w.conns && t.cleaning == w.cleaning && SameElsewhere(w.disk, t.disk, f.sid)
            && t.disk.Session(f.sid) == w.disk.Session(f.sid) && t.disk.Account(f.sid) == w.disk.Account(f.sid)
  {
    assert w.conns[c := Checked(f)][c := Made(f)] - {c} == w.conns;
  }

  /** Within the cap it is written, and accepted if it is written in full. */
  lemma UndisturbedFrame(w: World, c: nat, f: Frame, opens: bool, n: nat)
    requires Enabled(w, Receive(c, f)) && !IsOver(w.disk, f) && n <= |f.body.bytes|
    ensures Enabled(Entered(w, c, f), WriteOut(c, opens, n))
    ensures var t := Apply(Entered(w, c, f), WriteOut(c, opens, n));
            && t.conns == w.conns && t.cleaning == w.cleaning && SameElsewhere(w.disk, t.disk, f.sid)
            && t.disk.Account(f.sid) == w.disk.Account(f.sid) + |f.body.bytes|
            && t.disk.Session(f.sid) == if opens then Chunked(w.disk.Session(f.sid), f.name, f.seqNo, f.body.bytes, n)
                                        else w.disk.Session(f.sid)
  {
    assert w.conns[c := Checked(f)][c := Made(f)][c := Accounted(f)] - {c} == w.conns;
  }

  lemma UndisturbedFrameIsAccepted(w: World, c: nat, f: Frame)
    requires Enabled(w, Receive(c, f)) && !IsOver(w.disk, f)
    requires f.seqNo == 0 || f.name in w.disk.Session(f.sid)
    ensures Enabled(Entered(w, c, f), WriteOut(c, true, |f.body.bytes|))
    ensures IsAcceptedAs(w.disk, Apply(Entered(w, c, f), WriteOut(c, true, |f.body.bytes|)).disk, f,
                         Acked(f.seqNo, Path(f.sid, f.name)))
  {
    UndisturbedFrame(w, c, f, true, |f.body.bytes|);
  }

  /** A cleanup of one directory that meets nobody is that of Upload.Server.Cleanup. */
  lemma UndisturbedCleanup(w: World, k: nat, leaf: string, stuck: set<string>)
    requires Enabled(w, Remove(k, leaf, stuck))
    ensures var w1 := Apply(w, Remove(k, leaf, stuck));
            && Enabled(w1, Forget(k))
            && var t := Apply(w1, Forget(k));
               && t.conns == w.conns && t.cleaning == w.cleaning
               && IsCleaned(w.disk, t.disk, {leaf}, map[leaf := stuck])
  {
    assert w.cleaning[k := leaf] - {k} == w.cleaning;
    assert forall sid :: Remaining(w.disk, {}, map[leaf := stuck], sid) == w.disk.Session(sid);
    assert Forgotten({}) == {};
    OneMoreLeaf(w.disk, w.disk, {}, map[leaf := stuck], leaf);
    assert {} + {leaf} == {leaf};
  }
}
