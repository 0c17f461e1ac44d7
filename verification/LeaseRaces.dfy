/**
 The lease table under concurrency: one operation at a time (the operation lock), any number of
 expiry rounds whose two halves interleave with it, and boards that come and go at any moment.

 Leases decides who is orphaned by a whole undisturbed operation; here all operations run against
 each other, and the question is who is orphaned in any run.
 */
module LeaseRaces {
  import Leases

  /** What matches() captured for one device, possibly a while before the lock was won. */
  datatype Target = Target(key: string, coll: nat)

  /**
   Release keeps the ports and records leases.  The others give them back: Reset drops each lease at
   the turn of its device, Flash and Board drop all of them before the first turn.
   */
  datatype Kind = Release | Reset | Flash | Board {
    predicate DropsAll() {
      Flash? || Board?
    }
  }

  datatype Phase = Start | Turn | LeaseDropped | Asking | Granted

  datatype ResumePhase = Next | Looked(key: string, coll: nat) | Resumed(key: string)

  datatype Op =
    | Idle
    | Working(kind: Kind, todo: seq<Target>, at: Phase)
    | Resuming(keys: set<string>, phase: ResumePhase)

  datatype TickPhase = Select | Dropped(key: string) | Found(key: string, coll: nat)

  /** An expiry round between its two halves, with the leases it still has to end. */
  datatype Tick = Tick(keys: set<string>, at: TickPhase)

  datatype State = State(
    live: map<string, nat>, owner: seq<string>, held: set<nat>, leases: set<string>,
    op: Op, ticks: map<nat, Tick>)

  datatype Action =
    | Plug(key: string)
    | Unplug(key: string)
    | BeginWork(kind: Kind, targets: seq<Target>)
    | BeginResumeAll
    | DropLeases
    | Work(ok: bool)
    | PickLease(key: string)
    | ResumeStep
    | EndOp
    | TickSelect(tick: nat, keys: set<string>)
    | TickDrop(tick: nat, key: string)
    | TickLook(tick: nat)
    | TickResume(tick: nat)
    | TickEnd(tick: nat)

  predicate WasMatched(s: State, t: Target) {
    t.coll < |s.owner| && s.owner[t.coll] == t.key
  }

  /** matches() walks a map, so it names no key twice. */
  predicate OneEach(targets: seq<Target>) {
    forall i, j :: 0 <= i < j < |targets| ==> targets[i].key != targets[j].key
  }

  predicate Enabled(s: State, a: Action) {
    match a
    case Plug(k) => k !in s.live
    case Unplug(k) => k in s.live
    case BeginWork(_, targets) => s.op.Idle? && OneEach(targets) && forall t :: t in targets ==> WasMatched(s, t)
    case BeginResumeAll => s.op.Idle?
    case DropLeases => s.op.Working? && s.op.at.Start?
    case Work(_) => s.op.Working? && !s.op.at.Start? && s.op.todo != []
    case PickLease(k) => s.op.Resuming? && s.op.phase.Next? && k in s.op.keys
    case ResumeStep => s.op.Resuming? && !s.op.phase.Next?
    case EndOp =>
      || (s.op.Working? && s.op.at.Turn? && s.op.todo == [])
      || (s.op.Resuming? && s.op.phase.Next? && s.op.keys == {})
    case TickSelect(t, keys) => t !in s.ticks && keys <= s.leases
    case TickDrop(t, k) => t in s.ticks && s.ticks[t].at.Select? && k in s.ticks[t].keys
    case TickLook(t) => t in s.ticks && s.ticks[t].at.Dropped?
    case TickResume(t) => t in s.ticks && s.ticks[t].at.Found?
    case TickEnd(t) => t in s.ticks && s.ticks[t].at.Select? && s.ticks[t].keys == {}
  }

  function Apply(s: State, a: Action): State
    requires Enabled(s, a)
  {
    match a
    case Plug(k) => s.(live := s.live[k := |s.owner|], owner := s.owner + [k])
    case Unplug(k) => s.(live := s.live - {k})
    case BeginWork(kind, targets) => s.(op := Working(kind, targets, if kind.DropsAll() then Start else Turn))
    case BeginResumeAll => s.(op := Resuming(s.leases, Next))
    case DropLeases => s.(leases := s.leases - Keys(s.op.todo), op := s.op.(at := Turn))
    case Work(ok) => WorkOn(s, ok)
    case PickLease(k) =>
      s.(op := s.op.(phase := if k in s.live then Looked(k, s.live[k]) else Resumed(k)))
    case ResumeStep =>
      if s.op.phase.Looked? then
        s.(held := s.held - {s.op.phase.coll}, op := s.op.(phase := Resumed(s.op.phase.key)))
      else
        var k := s.op.phase.key;
        s.(leases := s.leases - {k}, op := Resuming(s.op.keys - {k}, Next))
    case EndOp => s.(op := Idle)
    case TickSelect(t, keys) => s.(ticks := s.ticks[t := Tick(keys, Select)])
    case TickDrop(t, k) =>
      s.(leases := s.leases - {k}, ticks := s.ticks[t := Tick(s.ticks[t].keys - {k}, Dropped(k))])
    case TickLook(t) =>
      var k := s.ticks[t].at.key;
      s.(ticks := s.ticks[t := s.ticks[t].(at := if k in s.live then Found(k, s.live[k]) else Select)])
    case TickResume(t) =>
      s.(held := s.held - {s.ticks[t].at.coll}, ticks := s.ticks[t := s.ticks[t].(at := Select)])
    case TickEnd(t) => s.(ticks := s.ticks - {t})
  }

  function Keys(targets: seq<Target>): set<string> {
    set t | t in targets :: t.key
  }

  /**
   One step of an operation on its current device.  At a turn `ok` is what is checked before the
   port is touched: Board's plan, or that Reset has an instance to restart.
   */
  function WorkOn(s: State, ok: bool): State
    requires s.op.Working? && !s.op.at.Start? && s.op.todo != []
  {
    var kind, t, rest := s.op.kind, s.op.todo[0], s.op.todo[1..];
    match s.op.at
    case Turn =>
      if !ok && (kind.Board? || kind.Reset?) then s.(op := Idle)
      else if kind.Reset? then s.(leases := s.leases - {t.key}, op := s.op.(at := LeaseDropped))
      else s.(held := s.held + {t.coll}, op := s.op.(at := Asking))
    case LeaseDropped => s.(held := s.held + {t.coll}, op := s.op.(at := Asking))
    case Asking =>
      if ok then s.(op := s.op.(at := Granted))
      else s.(held := s.held - {t.coll}, op := if kind.Release? then Working(Release, rest, Turn) else Idle)
    case Granted =>
      if kind.Release? then s.(leases := s.leases + {t.key}, op := Working(Release, rest, Turn))
      else s.(held := s.held - {t.coll}, op := if ok then Working(kind, rest, Turn) else Idle)
    case Start => assert false; s
  }

  // ---------------------------------------------------------------- who will free a held collector

  predicate TickWillResume(s: State, t: nat, k: string) {
    && t in s.ticks && k in s.live
    && (k in s.ticks[t].keys || s.ticks[t].at == Dropped(k) || s.ticks[t].at == Found(k, s.live[k]))
  }

  ghost predicate TickCovers(s: State, k: string) {
    exists t :: TickWillResume(s, t, k)
  }

  /** The running operation is inside its window on this very collector. */
  predicate OpCovers(s: State, coll: nat) {
    s.op.Working? && s.op.todo != [] && s.op.todo[0].coll == coll && !s.op.at.Turn? && !s.op.at.Start?
  }

  predicate Holds(s: State, k: string) {
    k in s.live && s.live[k] in s.held
  }

  /** Held, no lease, and nobody on the way to free it. */
  ghost predicate Abandoned(s: State, k: string) {
    Holds(s, k) && k !in s.leases && !TickCovers(s, k) && !OpCovers(s, s.live[k])
  }

  /** ResumeAll still has this key ahead of it, on the collector that runs there now. */
  predicate ResumeAhead(s: State, k: string)
    requires s.op.Resuming? && k in s.live
  {
    && k in s.op.keys && s.op.phase != Resumed(k)
    && (s.op.phase.Looked? && s.op.phase.key == k ==> s.op.phase.coll == s.live[k])
  }

  /** Collectors belong to the key they were started for, wherever they are remembered. */
  predicate Basics(s: State) {
    && (forall k :: k in s.live ==> WasMatched(s, Target(k, s.live[k])))
    && (forall c :: c in s.held ==> c < |s.owner|)
    && (s.op.Working? ==> OneEach(s.op.todo) && forall t :: t in s.op.todo ==> WasMatched(s, t))
    && (s.op.Resuming? && s.op.phase.Looked? ==> WasMatched(s, Target(s.op.phase.key, s.op.phase.coll)))
    && (forall t :: t in s.ticks && s.ticks[t].at.Found? ==>
          WasMatched(s, Target(s.ticks[t].at.key, s.ticks[t].at.coll)))
  }

  /** Nobody is left behind under this key, and a ResumeAll that runs will not pass it by. */
  ghost predicate Guarded(s: State, k: string) {
    !Abandoned(s, k) && (s.op.Resuming? && Holds(s, k) ==> TickCovers(s, k) || ResumeAhead(s, k))
  }

  /** The lease of a key is taken, and its live collector, held under it, is not the one being worked on. */
  ghost predicate LosesLease(s: State, a: Action, k: string) {
    && Enabled(s, a)
    && (|| (a.DropLeases? && k in Keys(s.op.todo))
        || (a.Work? && a.ok && s.op.kind.Reset? && s.op.at.Turn? && s.op.todo[0].key == k))
    && Holds(s, k) && k in s.leases && !TickCovers(s, k)
    && (a.Work? ==> s.live[k] != s.op.todo[0].coll)
  }

  /** The operation captured this collector, and its turn may still come. */
  predicate IsAhead(s: State, k: string) {
    s.op.Working? && k in s.live && exists t :: t in s.op.todo && t.coll == s.live[k]
  }

  /** The collector was never captured: the board was replugged before the operation lock was won. */
  ghost predicate StaleDrop(s: State, a: Action, k: string) {
    LosesLease(s, a, k) && !IsAhead(s, k)
  }

  /** The operation ends early, before the turn of a captured collector that has no lease any more. */
  ghost predicate Skips(s: State, a: Action, k: string) {
    && a.Work? && Enabled(s, a) && Apply(s, a).op.Idle?
    && IsAhead(s, k) && Abandoned(s, k)
  }

  /** What ends an abandonment: the board leaves, its collector is worked on or resumed, or a lease is recorded. */
  predicate Frees(s: State, a: Action, k: string)
    requires Enabled(s, a)
  {
    && k in s.live
    && (|| (a.Unplug? && a.key == k)
        || (a.Work? && s.op.todo[0].key == k
            && ((s.op.todo[0].coll == s.live[k] && (s.op.at.Turn? ==> Apply(s, a).op.Working?))
                || (s.op.kind.Release? && s.op.at.Granted?)))
        || (a.ResumeStep? && s.op.phase == Looked(k, s.live[k])))
  }

  ghost predicate IsRun(run: seq<State>, acts: seq<Action>) {
    && |run| == |acts| + 1
    && run[0] == State(map[], [], {}, {}, Idle, map[])
    && forall i :: 0 <= i < |acts| ==> Enabled(run[i], acts[i]) && run[i + 1] == Apply(run[i], acts[i])
  }

  // ---------------------------------------------------------------- preservation

  /** A round that will resume a collector still will, unless this step is its Resume or the board left. */
  lemma TickStillCovers(s: State, a: Action, k: string)
    requires Enabled(s, a) && TickCovers(s, k) && k in Apply(s, a).live && Apply(s, a).live[k] == s.live[k]
    requires !(a.TickResume? && s.ticks[a.tick].at == Found(k, s.live[k]))
    ensures TickCovers(Apply(s, a), k)
  {
    var t :| TickWillResume(s, t, k);
    assert TickWillResume(Apply(s, a), t, k);
  }

  lemma OwnerOnlyGrows(s: State, a: Action)
    requires Enabled(s, a)
    ensures s.owner <= Apply(s, a).owner
    ensures forall t :: WasMatched(s, t) ==> WasMatched(Apply(s, a), t)
  {
  }

  lemma StepKeepsLive(s: State, a: Action)
    requires Basics(s) && Enabled(s, a)
    ensures forall k :: k in Apply(s, a).live ==> WasMatched(Apply(s, a), Target(k, Apply(s, a).live[k]))
    ensures forall c :: c in Apply(s, a).held ==> c < |Apply(s, a).owner|
  {
    OwnerOnlyGrows(s, a);
    assert s.op.Working? && s.op.todo != [] ==> WasMatched(s, s.op.todo[0]);
  }

  lemma StepKeepsTodo(s: State, a: Action)
    requires Basics(s) && Enabled(s, a) && Apply(s, a).op.Working?
    ensures OneEach(Apply(s, a).op.todo) && forall t :: t in Apply(s, a).op.todo ==> WasMatched(Apply(s, a), t)
  {
    OwnerOnlyGrows(s, a);
    if !a.BeginWork? {
      assert Apply(s, a).op.todo == s.op.todo || (s.op.todo != [] && Apply(s, a).op.todo == s.op.todo[1..]);
    }
  }

  lemma StepKeepsBasics(s: State, a: Action)
    requires Basics(s) && Enabled(s, a)
    ensures Basics(Apply(s, a))
  {
    OwnerOnlyGrows(s, a);
    StepKeepsLive(s, a);
    if Apply(s, a).op.Working? {
      StepKeepsTodo(s, a);
    }
  }

  /** A key that is held after a step was held before it by the same collector, or is being asked. */
  lemma HeldWasHeld(s: State, a: Action, k: string)
    requires Basics(s) && Guarded(s, k) && Enabled(s, a) && Holds(Apply(s, a), k)
    ensures k in s.live && s.live[k] == Apply(s, a).live[k]
    ensures Holds(s, k) || OpCovers(Apply(s, a), s.live[k])
  {
  }

  lemma StepKeepsResuming(s: State, a: Action, k: string)
    requires Basics(s) && Guarded(s, k) && Enabled(s, a) && Apply(s, a).op.Resuming? && Holds(Apply(s, a), k)
    ensures TickCovers(Apply(s, a), k) || ResumeAhead(Apply(s, a), k)
  {
    var u := Apply(s, a);
    HeldWasHeld(s, a, k);
    assert Holds(s, k);
    if TickCovers(s, k) {
      TickStillCovers(s, a, k);
    } else {
      assert !Abandoned(s, k);
      if a.BeginResumeAll? {
        assert k in s.leases;
      } else {
        assert ResumeAhead(s, k);
        if a.Unplug? || a.TickSelect? || a.TickDrop? || a.TickLook? || a.TickResume? || a.TickEnd? || a.Plug? {
          assert u.op == s.op;
        }
      }
    }
  }

  lemma StepAbandonsNobody(s: State, a: Action, k: string)
    requires Basics(s) && Guarded(s, k) && Enabled(s, a) && !LosesLease(s, a, k)
    ensures !Abandoned(Apply(s, a), k)
  {
    var u := Apply(s, a);
    if Holds(u, k) && !OpCovers(u, u.live[k]) {
      HeldWasHeld(s, a, k);
      assert !Abandoned(s, k);
      if TickCovers(s, k) {
        TickStillCovers(s, a, k);
      } else if a.TickDrop? && a.key == k {
        assert TickWillResume(u, a.tick, k);
      } else if OpCovers(s, s.live[k]) {
        assert WasMatched(s, s.op.todo[0]);
        assert a.Work? && k in u.leases;
      } else {
        assert s.op.Resuming? ==> ResumeAhead(s, k);
        assert k in u.leases;
      }
    }
  }

  lemma StepKeepsGuarded(s: State, a: Action, k: string)
    requires Basics(s) && Guarded(s, k) && Enabled(s, a) && !LosesLease(s, a, k)
    ensures Guarded(Apply(s, a), k)
  {
    StepAbandonsNobody(s, a, k);
    if Apply(s, a).op.Resuming? && Holds(Apply(s, a), k) {
      StepKeepsResuming(s, a, k);
    }
  }

  lemma {:induction false} BasicsAlways(run: seq<State>, acts: seq<Action>, n: nat)
    requires IsRun(run, acts) && n < |run|
    ensures Basics(run[n])
  {
    if n > 0 {
      BasicsAlways(run, acts, n - 1);
      StepKeepsBasics(run[n - 1], acts[n - 1]);
    }
  }

  // ---------------------------------------------------------------- who is left behind, exactly

  lemma LostLeaseAbandons(s: State, a: Action, k: string)
    requires LosesLease(s, a, k)
    ensures Abandoned(Apply(s, a), k)
  {
    var u := Apply(s, a);
    assert u.ticks == s.ticks && u.live == s.live;
    forall t ensures !TickWillResume(u, t, k) {
      assert !TickWillResume(s, t, k);
    }
  }

  lemma AbandonedStays(s: State, a: Action, k: string)
    requires Basics(s) && Enabled(s, a) && Abandoned(s, k) && !Frees(s, a, k)
    ensures Abandoned(Apply(s, a), k)
  {
    var u := Apply(s, a);
    assert u.live[k] == s.live[k] && WasMatched(s, Target(k, s.live[k]));
    forall t ensures !TickWillResume(u, t, k) {
      assert !TickWillResume(s, t, k);
    }
    assert s.op.Working? && s.op.todo != [] ==> WasMatched(s, s.op.todo[0]);
    if a.TickResume? {
      assert WasMatched(s, Target(s.ticks[a.tick].at.key, s.ticks[a.tick].at.coll));
      assert !TickWillResume(s, a.tick, k);
    }
    if a.ResumeStep? && s.op.phase.Looked? {
      assert WasMatched(s, Target(s.op.phase.key, s.op.phase.coll));
    }
  }

  lemma FreeingGuards(s: State, a: Action, k: string)
    requires Basics(s) && Enabled(s, a) && Abandoned(s, k) && Frees(s, a, k)
    ensures Guarded(Apply(s, a), k)
  {
  }

  /** The lease was lost at step i, and nothing freed the collector since. */
  ghost predicate LeftSince(run: seq<State>, acts: seq<Action>, i: nat, n: nat, k: string)
    requires IsRun(run, acts) && n < |run|
  {
    i < n && LosesLease(run[i], acts[i], k) && forall j :: i < j < n ==> !Frees(run[j], acts[j], k)
  }

  lemma {:induction false} LeftIsAbandoned(run: seq<State>, acts: seq<Action>, i: nat, n: nat, k: string)
    requires IsRun(run, acts) && n < |run| && LeftSince(run, acts, i, n, k)
    ensures Abandoned(run[n], k)
  {
    if n == i + 1 {
      LostLeaseAbandons(run[i], acts[i], k);
    } else {
      LeftIsAbandoned(run, acts, i, n - 1, k);
      BasicsAlways(run, acts, n - 1);
      AbandonedStays(run[n - 1], acts[n - 1], k);
    }
  }

  lemma {:induction false} GuardedUnlessLeft(run: seq<State>, acts: seq<Action>, n: nat, k: string)
    requires IsRun(run, acts) && n < |run|
    ensures Guarded(run[n], k) || exists i :: LeftSince(run, acts, i, n, k)
  {
    if n > 0 {
      var m: nat := n - 1;
      var s, a := run[m], acts[m];
      BasicsAlways(run, acts, m);
      GuardedUnlessLeft(run, acts, m, k);
      if i: nat :| LeftSince(run, acts, i, m, k) {
        LeftIsAbandoned(run, acts, i, m, k);
        if Frees(s, a, k) {
          FreeingGuards(s, a, k);
        } else {
          assert LeftSince(run, acts, i, n, k);
        }
      } else if LosesLease(s, a, k) {
        assert LeftSince(run, acts, m, n, k);
      } else {
        StepKeepsGuarded(s, a, k);
      }
    }
  }

  /** At any moment of any run: a key is abandoned exactly after a lost lease that nothing made good. */
  lemma AbandonedIffLeft(run: seq<State>, acts: seq<Action>, n: nat, k: string)
    requires IsRun(run, acts) && n < |run|
    ensures Abandoned(run[n], k) <==> exists i :: LeftSince(run, acts, i, n, k)
  {
    GuardedUnlessLeft(run, acts, n, k);
    if i: nat :| LeftSince(run, acts, i, n, k) {
      LeftIsAbandoned(run, acts, i, n, k);
    }
  }

  // ---------------------------------------------------------------- which step is to blame

  /** A lost lease whose device still has its turn ahead, until the operation frees it or ends early. */
  lemma AheadStays(s: State, a: Action, k: string)
    requires Basics(s) && Enabled(s, a) && Abandoned(s, k) && IsAhead(s, k)
    requires !Frees(s, a, k) && !Skips(s, a, k)
    ensures IsAhead(Apply(s, a), k)
  {
    var u := Apply(s, a);
    AbandonedStays(s, a, k);
    assert u.live[k] == s.live[k];
    var t :| t in s.op.todo && t.coll == s.live[k];
    assert WasMatched(s, t) && WasMatched(s, Target(k, s.live[k]));
    if a.Work? {
      assert u.op.Working?;
      assert u.op.todo == s.op.todo || (u.op.todo == s.op.todo[1..] && s.op.todo[0].coll != s.live[k]);
      assert t in u.op.todo;
    } else {
      assert u.op.Working? && u.op.todo == s.op.todo;
    }
  }

  /** The step that orphans: a stale drop, or an operation that ends before the turn of the device. */
  ghost predicate Orphans(s: State, a: Action, k: string) {
    StaleDrop(s, a, k) || Skips(s, a, k)
  }

  ghost predicate OrphanedSince(run: seq<State>, acts: seq<Action>, i: nat, n: nat, k: string)
    requires IsRun(run, acts) && n < |run|
  {
    i < n && Orphans(run[i], acts[i], k) && forall j :: i < j < n ==> !Frees(run[j], acts[j], k)
  }

  lemma OrphanedIsAbandoned(s: State, a: Action, k: string)
    requires Basics(s) && Orphans(s, a, k)
    ensures Abandoned(Apply(s, a), k)
  {
    if StaleDrop(s, a, k) {
      LostLeaseAbandons(s, a, k);
    } else {
      AbandonedStays(s, a, k);
    }
  }

  lemma {:induction false} OrphanedStays(run: seq<State>, acts: seq<Action>, i: nat, n: nat, k: string)
    requires IsRun(run, acts) && n < |run| && OrphanedSince(run, acts, i, n, k)
    ensures Abandoned(run[n], k)
  {
    BasicsAlways(run, acts, n - 1);
    if n == i + 1 {
      OrphanedIsAbandoned(run[i], acts[i], k);
    } else {
      OrphanedStays(run, acts, i, n - 1, k);
      AbandonedStays(run[n - 1], acts[n - 1], k);
    }
  }

  /** Whoever is left has its turn ahead, or a step is to blame. */
  lemma {:induction false} LeftIsAheadOrOrphaned(run: seq<State>, acts: seq<Action>, i: nat, n: nat, k: string)
    requires IsRun(run, acts) && n < |run| && LeftSince(run, acts, i, n, k)
    ensures IsAhead(run[n], k) || exists j :: OrphanedSince(run, acts, j, n, k)
  {
    var m: nat := n - 1;
    BasicsAlways(run, acts, m);
    if m == i {
      if IsAhead(run[i], k) {
        assert IsAhead(run[n], k);
      } else {
        assert OrphanedSince(run, acts, i, n, k);
      }
    } else {
      assert LeftSince(run, acts, i, m, k);
      LeftIsAheadOrOrphaned(run, acts, i, m, k);
      if j: nat :| OrphanedSince(run, acts, j, m, k) {
        assert OrphanedSince(run, acts, j, n, k);
      } else {
        LeftIsAbandoned(run, acts, i, m, k);
        if Skips(run[m], acts[m], k) {
          assert OrphanedSince(run, acts, m, n, k);
        } else {
          AheadStays(run[m], acts[m], k);
        }
      }
    }
  }

  /** Once no tool is at work, somebody is abandoned exactly if some step is to blame and nothing made it good. */
  lemma AbandonedIffOrphaned(run: seq<State>, acts: seq<Action>, n: nat, k: string)
    requires IsRun(run, acts) && n < |run| && !run[n].op.Working?
    ensures Abandoned(run[n], k) <==> exists i :: OrphanedSince(run, acts, i, n, k)
  {
    if i: nat :| OrphanedSince(run, acts, i, n, k) {
      OrphanedStays(run, acts, i, n, k);
    } else if Abandoned(run[n], k) {
      AbandonedIffLeft(run, acts, n, k);
      var i: nat :| LeftSince(run, acts, i, n, k);
      LeftIsAheadOrOrphaned(run, acts, i, n, k);
    }
  }

  // ---------------------------------------------------------------- results

  /**
   Orphaned holds, exactly.  In any interleaving of all operations, whenever neither an operation
   nor an expiry round is in progress: a live collector is held without a lease if and only if its
   lease was taken for a collector replugged meanwhile, or the operation that took it ended before
   the turn of the device, and nothing freed it since.
   */
  lemma OrphanIffDropUnmade(run: seq<State>, acts: seq<Action>, n: nat, k: string)
    requires IsRun(run, acts) && n < |run|
    requires run[n].op.Idle? && run[n].ticks == map[]
    ensures Holds(run[n], k) && k !in run[n].leases <==> exists i :: OrphanedSince(run, acts, i, n, k)
  {
    AbandonedIffOrphaned(run, acts, n, k);
    assert !TickCovers(run[n], k);
  }

  /** So where no such step hits a key, its collector is held with a lease at every quiet moment. */
  lemma QuietMeansLeased(run: seq<State>, acts: seq<Action>, n: nat, k: string)
    requires IsRun(run, acts) && n < |run|
    requires forall i :: 0 <= i < n ==> !Orphans(run[i], acts[i], k)
    requires run[n].op.Idle? && run[n].ticks == map[]
    requires Holds(run[n], k)
    ensures k in run[n].leases
  {
    OrphanIffDropUnmade(run, acts, n, k);
  }

  /** When ResumeAll ends and no round is in progress, exactly the orphaned collectors are still held. */
  lemma ResumeAllFreesAllButOrphans(run: seq<State>, acts: seq<Action>, n: nat, k: string)
    requires IsRun(run, acts) && n < |acts|
    requires run[n].op.Resuming? && acts[n].EndOp? && run[n].ticks == map[]
    ensures Holds(run[n + 1], k) <==> exists i :: OrphanedSince(run, acts, i, n, k)
  {
    GuardedUnlessLeft(run, acts, n, k);
    AbandonedIffLeft(run, acts, n, k);
    AbandonedIffOrphaned(run, acts, n, k);
    assert run[n + 1] == Apply(run[n], acts[n]);
    assert !TickCovers(run[n], k);
  }

  /** So where no such step hit a key, its collector is free when ResumeAll ends. */
  lemma ResumeAllFreesEveryone(run: seq<State>, acts: seq<Action>, n: nat, k: string)
    requires IsRun(run, acts) && n < |acts|
    requires forall i :: 0 <= i < n ==> !Orphans(run[i], acts[i], k)
    requires run[n].op.Resuming? && acts[n].EndOp? && run[n].ticks == map[]
    ensures !Holds(run[n + 1], k)
  {
    ResumeAllFreesAllButOrphans(run, acts, n, k);
  }

  ghost predicate NoToolRuns(run: seq<State>, acts: seq<Action>, n: nat)
    requires IsRun(run, acts) && n <= |acts|
  {
    forall i :: 0 <= i < n && acts[i].BeginWork? ==> !acts[i].kind.DropsAll()
  }

  lemma {:induction false} NoToolIsAtWork(run: seq<State>, acts: seq<Action>, n: nat)
    requires IsRun(run, acts) && n <= |acts| && NoToolRuns(run, acts, n)
    ensures run[n].op.Working? ==> !run[n].op.kind.DropsAll() && !run[n].op.at.Start?
  {
    if n > 0 {
      NoToolIsAtWork(run, acts, n - 1);
    }
  }

  /** A lease that Reset takes at a turn is stale unless it belongs to the collector whose turn it is. */
  lemma ResetDropIsStale(s: State, a: Action, k: string)
    requires Basics(s) && LosesLease(s, a, k) && a.Work?
    ensures StaleDrop(s, a, k)
  {
    forall t | t in s.op.todo ensures t.coll != s.live[k] {
      assert WasMatched(s, t) && WasMatched(s, Target(k, s.live[k]));
      assert t.key == k ==> t == s.op.todo[0];
    }
  }

  /**
   In runs without Flash and Board only a replugged board can be orphaned: Release, Reset, ResumeAll
   and expiry rounds take no lease before the turn of its device.
   */
  lemma OnlyFlashAndBoardSkip(run: seq<State>, acts: seq<Action>, n: nat, k: string)
    requires IsRun(run, acts) && n < |acts| && NoToolRuns(run, acts, n)
    requires forall i :: 0 <= i < n ==> !StaleDrop(run[i], acts[i], k)
    ensures !Skips(run[n], acts[n], k)
  {
    forall i | 0 <= i < n ensures !LosesLease(run[i], acts[i], k) {
      NoToolIsAtWork(run, acts, i);
      BasicsAlways(run, acts, i);
      if LosesLease(run[i], acts[i], k) {
        ResetDropIsStale(run[i], acts[i], k);
      }
    }
    AbandonedIffLeft(run, acts, n, k);
  }

  lemma Extended(run: seq<State>, acts: seq<Action>, a: Action)
    requires IsRun(run, acts) && Enabled(run[|acts|], a)
    ensures IsRun(run + [Apply(run[|acts|], a)], acts + [a])
  {
  }

  /** A plugged board released to some tool: reachable in five steps from any quiet moment. */
  lemma ReleasedBoard(run: seq<State>, acts: seq<Action>, k: string) returns (run': seq<State>, acts': seq<Action>)
    requires IsRun(run, acts)
    requires var s := run[|acts|]; k !in s.live && s.op.Idle? && |s.owner| !in s.held
    ensures IsRun(run', acts')
    ensures var s, u := run[|acts|], run'[|acts'|];
            u == s.(live := s.live[k := |s.owner|], owner := s.owner + [k],
                    held := s.held + {|s.owner|}, leases := s.leases + {k})
  {
    var s := run[|acts|];
    var t := Target(k, |s.owner|);
    var s1 := Apply(s, Plug(k));
    Extended(run, acts, Plug(k));
    run', acts' := run + [s1], acts + [Plug(k)];
    assert WasMatched(s1, t);
    Extended(run', acts', BeginWork(Release, [t]));
    run', acts' := run' + [s1.(op := Working(Release, [t], Turn))], acts' + [BeginWork(Release, [t])];
    run', acts' := ReleasedBoardEnds(run', acts', t);
  }

  lemma ReleasedBoardEnds(run: seq<State>, acts: seq<Action>, t: Target) returns (run': seq<State>, acts': seq<Action>)
    requires IsRun(run, acts) && run[|acts|].op == Working(Release, [t], Turn)
    ensures IsRun(run', acts')
    ensures var s := run[|acts|];
            run'[|acts'|] == s.(op := Idle, held := s.held + {t.coll}, leases := s.leases + {t.key})
  {
    var s := run[|acts|];
    var s1 := s.(held := s.held + {t.coll}, op := Working(Release, [t], Asking));
    Extended(run, acts, Work(true));
    run', acts' := run + [s1], acts + [Work(true)];
    var s2 := s1.(op := Working(Release, [t], Granted));
    Extended(run', acts', Work(true));
    run', acts' := run' + [s2], acts' + [Work(true)];
    assert [t][1..] == [];
    var s3 := s2.(op := Working(Release, [], Turn), leases := s2.leases + {t.key});
    Extended(run', acts', Work(true));
    run', acts' := run' + [s3], acts' + [Work(true)];
    Extended(run', acts', EndOp);
    run', acts' := run' + [s3.(op := Idle)], acts' + [EndOp];
  }

  const BOARD := "usb0"

  /**
   Such runs exist: a tool captures a board, the board is replugged and released to someone else,
   then the tool wins the lock and takes the lease of a collector it does not know.
   */
  lemma StaleDropHappens() returns (run: seq<State>, acts: seq<Action>)
    ensures IsRun(run, acts) && |acts| > 0
    ensures StaleDrop(run[|acts| - 1], acts[|acts| - 1], BOARD)
    ensures run[|acts|] == State(map[BOARD := 1], [BOARD, BOARD], {1}, {},
                                 Working(Reset, [Target(BOARD, 0)], LeaseDropped), map[])
  {
    var s0 := State(map[], [], {}, {}, Idle, map[]);
    run, acts := [s0], [];
    var s1 := s0.(live := map[BOARD := 0], owner := [BOARD]);
    Extended(run, acts, Plug(BOARD));
    run, acts := run + [s1], acts + [Plug(BOARD)];
    var s2 := s1.(live := map[]);
    Extended(run, acts, Unplug(BOARD));
    run, acts := run + [s2], acts + [Unplug(BOARD)];
    run, acts := ReleasedBoard(run, acts, BOARD);
    var theirs := Target(BOARD, 0);
    var s := run[|acts|];
    assert WasMatched(s, theirs);
    Extended(run, acts, BeginWork(Reset, [theirs]));
    run, acts := run + [s.(op := Working(Reset, [theirs], Turn))], acts + [BeginWork(Reset, [theirs])];
    var u := run[|acts|];
    Extended(run, acts, Work(true));
    run, acts := run + [Apply(u, Work(true))], acts + [Work(true)];
    assert u.ticks == map[] && u.live == map[BOARD := 1] && u.held == {1} && u.leases == {BOARD};
  }

  /** The tool then runs its course on the collector that is gone. */
  lemma DroppingToolEnds(run: seq<State>, acts: seq<Action>, t: Target) returns (run': seq<State>, acts': seq<Action>)
    requires IsRun(run, acts) && run[|acts|].op == Working(Reset, [t], LeaseDropped)
    ensures IsRun(run', acts')
    ensures run'[|acts'|] == run[|acts|].(op := Idle, held := run[|acts|].held - {t.coll})
  {
    var s := run[|acts|];
    var s1 := s.(held := s.held + {t.coll}, op := Working(Reset, [t], Asking));
    Extended(run, acts, Work(true));
    run', acts' := run + [s1], acts + [Work(true)];
    var s2 := s1.(op := Working(Reset, [t], Granted));
    Extended(run', acts', Work(true));
    run', acts' := run' + [s2], acts' + [Work(true)];
    assert [t][1..] == [];
    var s3 := s2.(op := Working(Reset, [], Turn), held := s2.held - {t.coll});
    Extended(run', acts', Work(true));
    run', acts' := run' + [s3], acts' + [Work(true)];
    Extended(run', acts', EndOp);
    run', acts' := run' + [s3.(op := Idle)], acts' + [EndOp];
    assert s3.held == s.held - {t.coll};
  }

  /** In the end nothing is in progress, and the replugged board is held with no lease to end it. */
  lemma OrphanHappens() returns (run: seq<State>, acts: seq<Action>)
    ensures IsRun(run, acts)
    ensures run[|acts|].op.Idle? && run[|acts|].ticks == map[]
    ensures Holds(run[|acts|], BOARD) && run[|acts|].leases == {}
  {
    run, acts := StaleDropHappens();
    run, acts := DroppingToolEnds(run, acts, Target(BOARD, 0));
  }

  const OTHER := "usb1"

  /** No replugging is needed: Board takes the lease, then refuses the plan, and leaves the board held. */
  lemma RefusedPlanOrphans() returns (run: seq<State>, acts: seq<Action>)
    ensures IsRun(run, acts) && |acts| > 0
    ensures Skips(run[|acts| - 1], acts[|acts| - 1], BOARD)
    ensures run[|acts|] == State(map[BOARD := 0], [BOARD], {0}, {}, Idle, map[])
  {
    run, acts := [State(map[], [], {}, {}, Idle, map[])], [];
    run, acts := ReleasedBoard(run, acts, BOARD);
    var s, t := run[|acts|], Target(BOARD, 0);
    assert WasMatched(s, t);
    Extended(run, acts, BeginWork(Board, [t]));
    var s1 := s.(op := Working(Board, [t], Start));
    run, acts := run + [s1], acts + [BeginWork(Board, [t])];
    Extended(run, acts, DropLeases);
    var s2 := s1.(op := Working(Board, [t], Turn), leases := {});
    assert Keys([t]) == {BOARD};
    run, acts := run + [s2], acts + [DropLeases];
    Extended(run, acts, Work(false));
    run, acts := run + [s2.(op := Idle)], acts + [Work(false)];
    assert t in s2.op.todo && s2.ticks == map[];
  }

  /** Flash on two boards takes both leases; when the first fails, the second stays held. */
  lemma FailedFlashOrphans() returns (run: seq<State>, acts: seq<Action>)
    ensures IsRun(run, acts) && |acts| > 0
    ensures Skips(run[|acts| - 1], acts[|acts| - 1], OTHER)
    ensures run[|acts|] == State(map[BOARD := 0, OTHER := 1], [BOARD, OTHER], {1}, {}, Idle, map[])
  {
    run, acts := [State(map[], [], {}, {}, Idle, map[])], [];
    run, acts := ReleasedBoard(run, acts, BOARD);
    run, acts := ReleasedBoard(run, acts, OTHER);
    var s, todo := run[|acts|], [Target(BOARD, 0), Target(OTHER, 1)];
    assert s == State(map[BOARD := 0, OTHER := 1], [BOARD, OTHER], {0, 1}, {BOARD, OTHER}, Idle, map[]);
    assert forall t :: t in todo ==> WasMatched(s, t);
    Extended(run, acts, BeginWork(Flash, todo));
    var s1 := s.(op := Working(Flash, todo, Start));
    run, acts := run + [s1], acts + [BeginWork(Flash, todo)];
    Extended(run, acts, DropLeases);
    assert todo[0].key in Keys(todo) && todo[1].key in Keys(todo);
    var s2 := s1.(op := Working(Flash, todo, Turn), leases := {});
    run, acts := run + [s2], acts + [DropLeases];
    run, acts := FirstFails(run, acts, todo);
  }

  lemma FirstFails(run: seq<State>, acts: seq<Action>, todo: seq<Target>)
    returns (run': seq<State>, acts': seq<Action>)
    requires IsRun(run, acts) && todo == [Target(BOARD, 0), Target(OTHER, 1)]
    requires run[|acts|] == State(map[BOARD := 0, OTHER := 1], [BOARD, OTHER], {0, 1}, {},
                                  Working(Flash, todo, Turn), map[])
    ensures IsRun(run', acts') && |acts'| > 0
    ensures Skips(run'[|acts'| - 1], acts'[|acts'| - 1], OTHER)
    ensures run'[|acts'|] == run[|acts|].(op := Idle, held := {1})
  {
    var s := run[|acts|];
    Extended(run, acts, Work(true));
    var s1 := s.(op := Working(Flash, todo, Asking));
    assert s.held + {0} == s.held;
    run', acts' := run + [s1], acts + [Work(true)];
    Extended(run', acts', Work(true));
    var s2 := s1.(op := Working(Flash, todo, Granted));
    run', acts' := run' + [s2], acts' + [Work(true)];
    Extended(run', acts', Work(false));
    run', acts' := run' + [s2.(op := Idle, held := {1})], acts' + [Work(false)];
    assert todo[1] in s2.op.todo && s2.ticks == map[];
  }

  // ---------------------------------------------------------------- left alone, operations do what Leases says

  ghost predicate Continues(s: State, run: seq<State>, acts: seq<Action>) {
    && |run| == |acts| + 1 && run[0] == s
    && forall i :: 0 <= i < |acts| ==> Enabled(run[i], acts[i]) && run[i + 1] == Apply(run[i], acts[i])
  }

  /** Steps of the running operation, in a row, lead from s to t. */
  ghost predicate Leads(s: State, t: State) {
    exists run, acts :: Continues(s, run, acts) && run[|acts|] == t && forall a :: a in acts ==> IsOwn(a)
  }

  predicate IsOwn(a: Action) {
    a.DropLeases? || a.Work? || a.PickLease? || a.ResumeStep? || a.EndOp?
  }

  lemma LeadsNowhere(s: State)
    ensures Leads(s, s)
  {
    assert Continues(s, [s], []);
  }

  lemma LeadsOn(s: State, a: Action, t: State)
    requires Enabled(s, a) && IsOwn(a) && Leads(Apply(s, a), t)
    ensures Leads(s, t)
  {
    var rest, more :| Continues(Apply(s, a), rest, more) && rest[|more|] == t && forall b :: b in more ==> IsOwn(b);
    var run, acts := [s] + rest, [a] + more;
    forall i | 0 <= i < |acts| ensures Enabled(run[i], acts[i]) && run[i + 1] == Apply(run[i], acts[i]) {
      if i > 0 {
        assert run[i] == rest[i - 1] && acts[i] == more[i - 1];
      }
    }
    assert Continues(s, run, acts) && run[|acts|] == t;
  }

  function Plain(targets: seq<Target>): seq<Leases.Target> {
    seq(|targets|, i requires 0 <= i < |targets| => Leases.Target(targets[i].key, targets[i].coll))
  }

  /** The same table without operations and rounds. */
  predicate IsView(s: State, l: Leases.State) {
    l.live == s.live && l.held == s.held && l.releases.Keys == s.leases
  }

  lemma PlainCons(targets: seq<Target>)
    requires targets != []
    ensures Plain(targets)[0] == Leases.Target(targets[0].key, targets[0].coll)
    ensures Plain(targets)[1..] == Plain(targets[1..])
  {
  }

  lemma ReleaseCons(l: Leases.State, targets: seq<Leases.Target>, spec: Leases.Spec, ok: seq<bool>)
    requires |ok| == |targets| > 0
    ensures Leases.ReleaseAll(l, targets, spec, ok) ==
            Leases.ReleaseAll(Leases.ReleaseOne(l, targets[0], spec, ok[0]), targets[1..], spec, ok[1..])
  {
    var n := |targets| - 1;
    if n > 0 {
      ReleaseCons(l, targets[..n], spec, ok[..n]);
      assert targets[..n][1..] == targets[1..][..n - 1] && ok[..n][1..] == ok[1..][..n - 1];
    } else {
      assert targets[1..] == [] && targets[..0] == [];
    }
  }

  /** Release, whatever ports are given up: the table it leaves is the one of Leases.Table.Release. */
  lemma {:induction false} UndisturbedRelease(s: State, l: Leases.State, spec: Leases.Spec, ok: seq<bool>)
    returns (t: State)
    requires s.op.Working? && s.op.kind.Release? && s.op.at.Turn? && |ok| == |s.op.todo| && IsView(s, l)
    ensures Leads(s, t) && t.op.Idle? && t.ticks == s.ticks
    ensures IsView(t, Leases.ReleaseAll(l, Plain(s.op.todo), spec, ok))
    decreases |s.op.todo|
  {
    var todo := s.op.todo;
    if todo == [] {
      t := s.(op := Idle);
      LeadsNowhere(t);
      LeadsOn(s, EndOp, t);
    } else {
      var s1 := Apply(s, Work(true));
      var s2 := Apply(s1, Work(ok[0]));
      var s3 := if ok[0] then Apply(s2, Work(true)) else s2;
      PlainCons(todo);
      ReleaseCons(l, Plain(todo), spec, ok);
      var m := Leases.ReleaseOne(l, Plain(todo)[0], spec, ok[0]);
      assert s3.op == Working(Release, todo[1..], Turn) && IsView(s3, m);
      t := UndisturbedRelease(s3, m, spec, ok[1..]);
      if ok[0] {
        LeadsOn(s2, Work(true), t);
      }
      LeadsOn(s1, Work(ok[0]), t);
      LeadsOn(s, Work(true), t);
    }
  }

  lemma AskedCons(outcomes: seq<Leases.Outcome>)
    requires outcomes != []
    ensures Leases.Asked(outcomes) ==
            if outcomes[0] == Leases.ToolDone then 1 + Leases.Asked(outcomes[1..])
            else if outcomes[0] == Leases.NoPlan then 0 else 1
  {
    if outcomes[0] == Leases.ToolDone {
      var n := Leases.Reached(outcomes[1..]);
      assert n > 0 ==> outcomes[1..][n - 1] == outcomes[n];
    }
  }

  function Colls(targets: seq<Target>): set<nat> {
    set t | t in targets :: t.coll
  }

  lemma TakeCons(targets: seq<Target>, n: nat)
    requires 0 < n <= |targets|
    ensures Colls(targets[..n]) == {targets[0].coll} + Colls(targets[1..][..n - 1])
    ensures Keys(targets[..n]) == {targets[0].key} + Keys(targets[1..][..n - 1])
  {
    assert targets[..n] == [targets[0]] + targets[1..][..n - 1];
  }

  /** What the tool run does to one device: refused plan, port not given up, tool failed, done. */
  lemma OneDevice(s: State, outcome: Leases.Outcome) returns (t: State)
    requires s.op.Working? && !s.op.kind.Release? && s.op.at.Turn? && s.op.todo != []
    requires outcome == Leases.NoPlan ==> !s.op.kind.Flash?
    ensures var d, rest := s.op.todo[0], s.op.todo[1..];
            if outcome == Leases.NoPlan then t == s.(op := Idle)
            else t == s.(held := s.held - {d.coll},
                         leases := if s.op.kind.Reset? then s.leases - {d.key} else s.leases,
                         op := if outcome == Leases.ToolDone then Working(s.op.kind, rest, Turn) else Idle)
    ensures forall u :: Leads(t, u) ==> Leads(s, u)
  {
    if outcome == Leases.NoPlan {
      t := Apply(s, Work(false));
      forall u | Leads(t, u) ensures Leads(s, u) { LeadsOn(s, Work(false), u); }
    } else {
      var s0 := if s.op.kind.Reset? then Apply(s, Work(true)) else s;
      var s1 := Apply(s0, Work(true));
      var s2 := Apply(s1, Work(outcome != Leases.PortBusy));
      t := if outcome == Leases.PortBusy then s2 else Apply(s2, Work(outcome == Leases.ToolDone));
      assert s.held + {s.op.todo[0].coll} - {s.op.todo[0].coll} == s.held - {s.op.todo[0].coll};
      forall u | Leads(t, u) ensures Leads(s, u) {
        if outcome != Leases.PortBusy {
          LeadsOn(s2, Work(outcome == Leases.ToolDone), u);
        }
        LeadsOn(s1, Work(outcome != Leases.PortBusy), u);
        LeadsOn(s0, Work(true), u);
        if s.op.kind.Reset? {
          LeadsOn(s, Work(true), u);
        }
      }
    }
  }

  /** The devices in turn until one fails. */
  lemma {:induction false} UndisturbedTurns(s: State, outcomes: seq<Leases.Outcome>) returns (t: State)
    requires s.op.Working? && !s.op.kind.Release? && s.op.at.Turn? && |outcomes| == |s.op.todo|
    requires s.op.kind.Flash? ==> Leases.NoPlan !in outcomes
    ensures Leads(s, t)
    ensures var reached := s.op.todo[..Leases.Asked(outcomes)];
            t == s.(op := Idle, held := s.held - Colls(reached),
                    leases := if s.op.kind.Reset? then s.leases - Keys(reached) else s.leases)
    decreases |s.op.todo|
  {
    var todo := s.op.todo;
    if todo == [] {
      t := s.(op := Idle);
      assert s.held - Colls([]) == s.held && s.leases - Keys([]) == s.leases;
      LeadsNowhere(t);
      LeadsOn(s, EndOp, t);
    } else {
      var u := OneDevice(s, outcomes[0]);
      AskedCons(outcomes);
      var n := Leases.Asked(outcomes);
      if n > 0 {
        TakeCons(todo, n);
      }
      if outcomes[0] == Leases.ToolDone {
        t := UndisturbedTurns(u, outcomes[1..]);
        assert t.held == s.held - Colls(todo[..n]);
        assert s.op.kind.Reset? ==> t.leases == s.leases - Keys(todo[..n]);
      } else {
        t := u;
        LeadsNowhere(t);
        assert todo[1..][..0] == [] && Colls([]) == {} && Keys([]) == {};
        assert t.held == s.held - Colls(todo[..n]);
        assert s.op.kind.Reset? ==> t.leases == s.leases - Keys(todo[..n]);
      }
    }
  }

  lemma PlainSets(targets: seq<Target>, n: nat)
    requires n <= |targets|
    ensures Leases.TargetColls(Plain(targets)[..n]) == Colls(targets[..n])
    ensures Leases.TargetKeys(Plain(targets)[..n]) == Keys(targets[..n])
  {
    forall i | 0 <= i < n
      ensures Plain(targets)[..n][i] == Leases.Target(targets[..n][i].key, targets[..n][i].coll)
    {
    }
    forall c ensures c in Leases.TargetColls(Plain(targets)[..n]) <==> c in Colls(targets[..n]) {
      if c in Colls(targets[..n]) {
        var i :| 0 <= i < n && targets[..n][i].coll == c;
        assert Plain(targets)[..n][i] in Plain(targets)[..n];
      }
    }
    forall k ensures k in Leases.TargetKeys(Plain(targets)[..n]) <==> k in Keys(targets[..n]) {
      if k in Keys(targets[..n]) {
        var i :| 0 <= i < n && targets[..n][i].key == k;
        assert Plain(targets)[..n][i] in Plain(targets)[..n];
      }
    }
  }

  /** Flash, Board and Reset, however their devices fare: the tables they leave are those of Leases. */
  lemma UndisturbedTool(s: State, l: Leases.State, outcomes: seq<Leases.Outcome>) returns (t: State)
    requires s.op.Working? && !s.op.kind.Release? && |outcomes| == |s.op.todo| && IsView(s, l)
    requires s.op.at == if s.op.kind.DropsAll() then Start else Turn
    requires s.op.kind.Flash? ==> Leases.NoPlan !in outcomes
    ensures Leads(s, t) && t.op.Idle? && t.ticks == s.ticks
    ensures IsView(t, if s.op.kind.Reset? then Leases.ResetSpec(l, Plain(s.op.todo), outcomes)
                      else Leases.FlashSpec(l, Plain(s.op.todo), outcomes))
  {
    var todo := s.op.todo;
    PlainSets(todo, Leases.Asked(outcomes));
    PlainSets(todo, |todo|);
    assert todo[..|todo|] == todo && Plain(todo)[..|todo|] == Plain(todo);
    if s.op.kind.DropsAll() {
      t := UndisturbedTurns(Apply(s, DropLeases), outcomes);
      LeadsOn(s, DropLeases, t);
    } else {
      t := UndisturbedTurns(s, outcomes);
    }
  }

  function LiveColls(live: map<string, nat>, keys: set<string>): set<nat> {
    set k | k in keys && k in live :: live[k]
  }

  lemma OneMoreLive(live: map<string, nat>, keys: set<string>, k: string)
    requires k in keys
    ensures LiveColls(live, keys) == LiveColls(live, keys - {k}) + if k in live then {live[k]} else {}
  {
  }

  /** ResumeAll from one lease to the next: those it still has ahead are revoked, their live collectors resumed. */
  lemma {:induction false} ResumesTheRest(s: State) returns (t: State)
    requires s.op.Resuming? && s.op.phase.Next?
    ensures Leads(s, t)
    ensures t == s.(op := Idle, leases := s.leases - s.op.keys,
                    held := s.held - LiveColls(s.live, s.op.keys))
    decreases s.op.keys
  {
    var keys := s.op.keys;
    if keys == {} {
      t := s.(op := Idle);
      assert s.leases - keys == s.leases && LiveColls(s.live, keys) == {};
      LeadsNowhere(t);
      LeadsOn(s, EndOp, t);
    } else {
      var k :| k in keys;
      var s1 := Apply(s, PickLease(k));
      var s2 := if k in s.live then Apply(s1, ResumeStep) else s1;
      var s3 := Apply(s2, ResumeStep);
      t := ResumesTheRest(s3);
      OneMoreLive(s.live, keys, k);
      LeadsOn(s2, ResumeStep, t);
      if k in s.live {
        LeadsOn(s1, ResumeStep, t);
      }
      LeadsOn(s, PickLease(k), t);
    }
  }

  /** ResumeAll, from its start: every lease is revoked, and the live collectors of all of them are free. */
  lemma UndisturbedResumeAll(s: State) returns (t: State)
    requires s.op.Idle?
    ensures Enabled(s, BeginResumeAll) && Leads(Apply(s, BeginResumeAll), t)
    ensures t == s.(leases := {}, held := s.held - LiveColls(s.live, s.leases))
  {
    t := ResumesTheRest(Apply(s, BeginResumeAll));
  }

  /** The second half of an expiry round from one lease to the next. */
  lemma {:induction false} RoundGoesOn(s: State, n: nat) returns (run: seq<State>, acts: seq<Action>)
    requires n in s.ticks && s.ticks[n].at.Select?
    ensures Continues(s, run, acts)
    ensures var keys := s.ticks[n].keys;
            run[|acts|] == s.(ticks := s.ticks - {n}, leases := s.leases - keys,
                              held := s.held - LiveColls(s.live, keys))
    decreases s.ticks[n].keys
  {
    var keys := s.ticks[n].keys;
    if keys == {} {
      var t := Apply(s, TickEnd(n));
      assert s.leases - keys == s.leases && LiveColls(s.live, keys) == {};
      run, acts := [s, t], [TickEnd(n)];
    } else {
      var k :| k in keys;
      var s1 := Apply(s, TickDrop(n, k));
      var s2 := Apply(s1, TickLook(n));
      var s3 := if k in s.live then Apply(s2, TickResume(n)) else s2;
      var rest, more := RoundGoesOn(s3, n);
      OneMoreLive(s.live, keys, k);
      assert s3.ticks - {n} == s.ticks - {n};
      if k in s.live {
        rest, more := Prepended(s2, TickResume(n), rest, more);
      }
      rest, more := Prepended(s1, TickLook(n), rest, more);
      run, acts := Prepended(s, TickDrop(n, k), rest, more);
    }
  }

  /** An expiry round, from its selection: these leases go, and their live collectors are free. */
  lemma UndisturbedRound(s: State, n: nat, keys: set<string>) returns (run: seq<State>, acts: seq<Action>)
    requires n !in s.ticks && keys <= s.leases
    ensures Continues(s, run, acts)
    ensures run[|acts|] == s.(leases := s.leases - keys, held := s.held - LiveColls(s.live, keys))
  {
    var t := Apply(s, TickSelect(n, keys));
    run, acts := RoundGoesOn(t, n);
    assert t.ticks - {n} == s.ticks;
    run, acts := Prepended(s, TickSelect(n, keys), run, acts);
  }

  lemma Prepended(s: State, a: Action, rest: seq<State>, more: seq<Action>)
    returns (run: seq<State>, acts: seq<Action>)
    requires Enabled(s, a) && Continues(Apply(s, a), rest, more)
    ensures Continues(s, run, acts) && run[|acts|] == rest[|more|]
  {
    run, acts := [s] + rest, [a] + more;
    forall i | 0 <= i < |acts| ensures Enabled(run[i], acts[i]) && run[i + 1] == Apply(run[i], acts[i]) {
      if i > 0 {
        assert run[i] == rest[i - 1] && acts[i] == more[i - 1];
      }
    }
  }
}
