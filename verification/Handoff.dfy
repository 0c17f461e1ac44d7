/**
 The port hand-off between Suspend/Resume and the collector goroutine.

 One side stores `held` and then polls `portOpen`; the other stores `portOpen` and then reads
 `held`.  Every access to a shared flag is one action of the state machine below, any number of
 callers may be inside Suspend at once, and the PAUSED file and the port are the environment.
 */
module Handoff {

  /** Where the collector goroutine stands in Run and collectOnce. */
  datatype Point =
    | LoopTop      // Run: about to look at the stop channel
    | HoldCheck    // Run: about to evaluate Held() || pause.Matches
    | Parked       // waitHeldCleared
    | Opening      // collectOnce: about to call OpenPort
    | Opened       // the port is open, portOpen is not stored yet
    | Marked       // portOpen is stored, the hold is about to be re-checked
    | Setup        // the re-check passed: control lines, read timeout
    | Reading      // blocked in port.Read
    | GotData      // Read returned: about to look at the stop channel
    | DataCheck    // about to evaluate Held() || pause.Matches inside the read loop
    | Closing      // deferred: about to close the port
    | Closed       // the port is closed, portOpen is still stored
    | SessionOver  // back in Run after collectOnce
    | BackingOff   // sleeping before the next open
    | Finished

  datatype State = State(
    pc: Point,
    stop: bool,
    held: bool,
    portOpen: bool,
    suspenders: set<nat>)  // callers inside Suspend's polling loop

  datatype Action =
    | SuspendStart(caller: nat)
    | SuspendPoll(caller: nat)
    | SuspendTimeout(caller: nat)
    | Resume
    | Stop
    | Collect(move: Move)

  /**
   One step of the collector goroutine, with what its environment answered; `ticked` is a select
   that took its timer although it may have been stopped as well.
   */
  datatype Move =
    | LookAtStop
    | LookAtHold(paused: bool)
    | WakeUp(paused: bool, ticked: bool)
    | OpenPort(ok: bool)
    | StorePortOpen
    | Recheck(paused: bool)
    | FinishSetup
    | ReadReturns(ok: bool)
    | ReadSeesStop
    | ReadLooksAtHold(paused: bool, silentTooLong: bool)
    | ClosePort
    | ClearPortOpen
    | EndSession(skipBackoff: bool)
    | SleepEnds(ticked: bool)

  predicate Init(s: State) {
    s == State(LoopTop, false, false, false, {})
  }

  predicate Clears(a: Action) {
    a.Resume? || a.SuspendTimeout?
  }

  predicate Enabled(s: State, a: Action) {
    match a
    case SuspendStart(c) => c !in s.suspenders
    case SuspendPoll(c) => c in s.suspenders
    case SuspendTimeout(c) => c in s.suspenders
    case Resume => true
    case Stop => true
    case Collect(m) => CanMove(s.pc, m)
  }

  predicate CanMove(pc: Point, m: Move) {
    match m
    case LookAtStop => pc == LoopTop
    case LookAtHold(_) => pc == HoldCheck
    case WakeUp(_, _) => pc == Parked
    case OpenPort(_) => pc == Opening
    case StorePortOpen => pc == Opened
    case Recheck(_) => pc == Marked
    case FinishSetup => pc == Setup
    case ReadReturns(_) => pc == Reading
    case ReadSeesStop => pc == GotData
    case ReadLooksAtHold(_, _) => pc == DataCheck
    case ClosePort => pc == Closing
    case ClearPortOpen => pc == Closed
    case EndSession(_) => pc == SessionOver
    case SleepEnds(_) => pc == BackingOff
  }

  function Apply(s: State, a: Action): State
    requires Enabled(s, a)
  {
    match a
    case SuspendStart(c) => s.(held := true, suspenders := s.suspenders + {c})
    case SuspendPoll(c) => if s.portOpen then s else s.(suspenders := s.suspenders - {c})
    case SuspendTimeout(c) => s.(held := false, suspenders := s.suspenders - {c})
    case Resume => s.(held := false)
    case Stop => s.(stop := true)
    case Collect(m) => ApplyMove(s, m)
  }

  function ApplyMove(s: State, m: Move): State
    requires CanMove(s.pc, m)
  {
    match m
    case LookAtStop => s.(pc := if s.stop then Finished else HoldCheck)
    case LookAtHold(paused) => s.(pc := if s.held || paused then Parked else Opening)
    case WakeUp(paused, ticked) =>
      s.(pc := if s.stop && !ticked then Finished else if s.held || paused then Parked else LoopTop)
    case OpenPort(ok) => s.(pc := if ok then Opened else SessionOver)
    case StorePortOpen => s.(pc := Marked, portOpen := true)
    case Recheck(paused) => s.(pc := if s.held || paused then Closing else Setup)
    case FinishSetup => s.(pc := Reading)
    case ReadReturns(ok) => s.(pc := if ok then GotData else Closing)
    case ReadSeesStop => s.(pc := if s.stop then Closing else DataCheck)
    case ReadLooksAtHold(paused, silent) =>
      s.(pc := if s.held || paused || silent then Closing else Reading)
    case ClosePort => s.(pc := Closed)
    case ClearPortOpen => s.(pc := SessionOver, portOpen := false)
    case EndSession(skip) => s.(pc := if s.stop then Finished else if skip then LoopTop else BackingOff)
    case SleepEnds(ticked) => s.(pc := if s.stop && !ticked then Finished else LoopTop)
  }

  ghost predicate IsRun(run: seq<State>, acts: seq<Action>) {
    && |run| == |acts| + 1
    && Init(run[0])
    && Steps(run, acts)
  }

  ghost predicate Steps(run: seq<State>, acts: seq<Action>)
    requires |run| == |acts| + 1
  {
    forall i :: 0 <= i < |acts| ==> Enabled(run[i], acts[i]) && run[i + 1] == Apply(run[i], acts[i])
  }

  /** The part of collectOnce that may touch bytes of the port. */
  predicate InReadLoop(pc: Point) {
    pc in {Setup, Reading, GotData, DataCheck}
  }

  predicate AtRest(pc: Point) {
    pc == Parked || pc == Finished
  }

  predicate SuspendReturnsTrue(s: State, a: Action) {
    a.SuspendPoll? && Enabled(s, a) && !s.portOpen
  }

  // ---------------------------------------------------------------- invariant of every run

  predicate FlagMatchesPoint(s: State) {
    s.portOpen == (s.pc == Marked || InReadLoop(s.pc) || s.pc == Closing || s.pc == Closed)
  }

  lemma {:induction false} FlagAlwaysMatches(run: seq<State>, acts: seq<Action>, n: nat)
    requires IsRun(run, acts) && n < |run|
    ensures FlagMatchesPoint(run[n])
  {
    if n > 0 {
      FlagAlwaysMatches(run, acts, n - 1);
      assert run[n] == Apply(run[n - 1], acts[n - 1]);
    }
  }

  /** Once up, the flag stays up until a Resume or a timed-out Suspend. */
  lemma {:induction false} HeldStays(run: seq<State>, acts: seq<Action>, i: nat, n: nat)
    requires IsRun(run, acts) && i <= n < |run|
    requires run[i].held
    requires forall j :: i <= j < n ==> !Clears(acts[j])
    ensures run[n].held
  {
    if i < n {
      HeldStays(run, acts, i, n - 1);
      assert run[n] == Apply(run[n - 1], acts[n - 1]);
    }
  }

  /** A Suspend set the flag at step i, and neither a Resume nor a timed-out Suspend followed. */
  predicate SuspendedSince(acts: seq<Action>, i: nat, n: nat)
    requires n <= |acts|
  {
    i < n && acts[i].SuspendStart? && forall j :: i < j < n ==> !acts[j].Resume? && !acts[j].SuspendTimeout?
  }

  /** `held` tells exactly whether the last store to it was that of a Suspend that began. */
  lemma {:induction false} HeldIffSuspendedSince(run: seq<State>, acts: seq<Action>, n: nat)
    requires IsRun(run, acts) && n < |run|
    ensures run[n].held <==> exists i :: SuspendedSince(acts, i, n)
  {
    if n > 0 {
      var m: nat := n - 1;
      HeldIffSuspendedSince(run, acts, m);
      assert run[n] == Apply(run[m], acts[m]);
      if i: nat :| SuspendedSince(acts, i, m) {
        assert !Clears(acts[m]) ==> SuspendedSince(acts, i, n);
      }
      assert acts[m].SuspendStart? ==> SuspendedSince(acts, m, n);
      if i: nat :| SuspendedSince(acts, i, n) {
        assert i < m ==> SuspendedSince(acts, i, m);
      }
    }
  }

  // ---------------------------------------------------------------- the hold window

  /** What a held window keeps once some poll in it saw the port closed. */
  predicate HandedOver(s: State) {
    s.held && !InReadLoop(s.pc)
  }

  lemma {:induction false} StaysHandedOver(run: seq<State>, acts: seq<Action>, i: nat, n: nat)
    requires IsRun(run, acts) && i <= n < |run|
    requires HandedOver(run[i])
    requires forall j :: i <= j < n ==> !Clears(acts[j])
    ensures HandedOver(run[n])
  {
    if i < n {
      StaysHandedOver(run, acts, i, n - 1);
      assert run[n] == Apply(run[n - 1], acts[n - 1]);
    }
  }

  /**
   Main safety result.  Suspend returned true at step i while the hold was standing; until the
   next Resume or timed-out Suspend the collector is never in its read loop.
   */
  lemma {:induction false} NoReadWhileSuspended(run: seq<State>, acts: seq<Action>, i: nat, n: nat)
    requires IsRun(run, acts) && i < n < |run|
    requires SuspendReturnsTrue(run[i], acts[i]) && run[i].held
    requires forall j :: i < j < n ==> !Clears(acts[j])
    ensures !InReadLoop(run[n].pc) && run[n].held
  {
    FlagAlwaysMatches(run, acts, i);
    assert run[i + 1] == Apply(run[i], acts[i]);
    StaysHandedOver(run, acts, i + 1, n);
  }

  /** A Suspend with no Resume or timeout between its store and its answer answers while held. */
  lemma {:induction false} UndisturbedSuspendHolds(run: seq<State>, acts: seq<Action>, b: nat, i: nat)
    requires IsRun(run, acts) && b < i < |acts|
    requires acts[b].SuspendStart? && SuspendReturnsTrue(run[i], acts[i])
    requires forall j :: b < j < i ==> !Clears(acts[j])
    ensures run[i].held
  {
    assert run[b + 1] == Apply(run[b], acts[b]);
    HeldStays(run, acts, b + 1, i);
  }

  function OpenAttempts(acts: seq<Action>): nat {
    if acts == [] then 0
    else OpenAttempts(acts[..|acts| - 1])
         + if acts[|acts| - 1].Collect? && acts[|acts| - 1].move.OpenPort? then 1 else 0
  }

  /** Only a collector that was already past its hold check can still open the port, once. */
  function OpensLeft(pc: Point): nat {
    if pc == Opening then 1 else 0
  }

  lemma {:induction false} OpensAreSpent(run: seq<State>, acts: seq<Action>, i: nat, n: nat)
    requires IsRun(run, acts) && i <= n < |run|
    requires run[i].held
    requires forall j :: i <= j < n ==> !Clears(acts[j])
    ensures OpenAttempts(acts[i..n]) + OpensLeft(run[n].pc) <= OpensLeft(run[i].pc)
  {
    if i < n {
      OpensAreSpent(run, acts, i, n - 1);
      HeldStays(run, acts, i, n - 1);
      assert run[n] == Apply(run[n - 1], acts[n - 1]);
      assert acts[i..n][..n - 1 - i] == acts[i..n - 1];
    }
  }

  lemma AtMostOneMoreOpen(run: seq<State>, acts: seq<Action>, i: nat, n: nat)
    requires IsRun(run, acts) && i < n < |run|
    requires SuspendReturnsTrue(run[i], acts[i]) && run[i].held
    requires forall j :: i < j < n ==> !Clears(acts[j])
    ensures OpenAttempts(acts[i + 1..n]) <= 1
    ensures OpenAttempts(acts[i + 1..n]) == 1 ==> run[i].pc == Opening
  {
    assert run[i + 1] == Apply(run[i], acts[i]);
    OpensAreSpent(run, acts, i + 1, n);
  }

  // ---------------------------------------------------------------- parking is bounded

  /** How many steps of its own the collector can still take before it rests, while held. */
  function Rank(pc: Point): nat {
    match pc
    case Setup => 10
    case Reading => 9
    case Opening => 9
    case GotData => 8
    case Opened => 8
    case DataCheck => 7
    case Marked => 7
    case Closing => 6
    case Closed => 5
    case SessionOver => 4
    case BackingOff => 3
    case LoopTop => 2
    case HoldCheck => 1
    case Parked => 0
    case Finished => 0
  }

  function OwnSteps(acts: seq<Action>): nat {
    if acts == [] then 0
    else OwnSteps(acts[..|acts| - 1]) + if acts[|acts| - 1].Collect? then 1 else 0
  }

  lemma OneMoreStep(acts: seq<Action>, i: nat, n: nat)
    requires i < n <= |acts|
    ensures OwnSteps(acts[i..n]) == OwnSteps(acts[i..n - 1]) + if acts[n - 1].Collect? then 1 else 0
  {
    assert acts[i..n][..n - 1 - i] == acts[i..n - 1];
  }

  /** If this step looks for a hold, it finds one: the flag of Suspend, or the PAUSED file. */
  predicate FindsHold(s: State, a: Action) {
    a.Collect? ==>
      match a.move
      case LookAtHold(paused) => s.held || paused
      case WakeUp(paused, _) => s.held || paused
      case Recheck(paused) => s.held || paused
      case ReadLooksAtHold(paused, _) => s.held || paused
      case _ => true
  }

  /** Under a hold every step of the collector goes down, and at rest it stays at rest. */
  lemma RankStep(s: State, a: Action)
    requires Enabled(s, a) && FindsHold(s, a)
    ensures AtRest(s.pc) ==> AtRest(Apply(s, a).pc)
    ensures AtRest(Apply(s, a).pc) || Rank(Apply(s, a).pc) + (if a.Collect? then 1 else 0) <= Rank(s.pc)
  {
  }

  lemma {:induction false} RankRunsDown(run: seq<State>, acts: seq<Action>, i: nat, n: nat)
    requires IsRun(run, acts) && i <= n < |run|
    requires forall j :: i <= j < n ==> FindsHold(run[j], acts[j])
    ensures AtRest(run[n].pc) || OwnSteps(acts[i..n]) + Rank(run[n].pc) <= Rank(run[i].pc)
  {
    if i < n {
      RankRunsDown(run, acts, i, n - 1);
      RankStep(run[n - 1], acts[n - 1]);
      OneMoreStep(acts, i, n);
    }
  }

  /**
   From any point, ten of its own steps that find a hold wherever they look, be it Suspend's or the
   PAUSED file's, park the collector with the port closed.
   */
  lemma HoldParksWithinTenSteps(run: seq<State>, acts: seq<Action>, i: nat, n: nat)
    requires IsRun(run, acts) && i <= n < |run|
    requires forall j :: i <= j < n ==> FindsHold(run[j], acts[j])
    requires OwnSteps(acts[i..n]) >= 10
    ensures AtRest(run[n].pc) && !run[n].portOpen
  {
    RankRunsDown(run, acts, i, n);
    FlagAlwaysMatches(run, acts, n);
  }

  /** So an unbroken hold of Suspend parks it for good, whatever its environment answers. */
  lemma ParksWithinTenSteps(run: seq<State>, acts: seq<Action>, i: nat, n: nat)
    requires IsRun(run, acts) && i <= n < |run|
    requires run[i].held
    requires forall j :: i <= j < n ==> !Clears(acts[j])
    requires OwnSteps(acts[i..n]) >= 10
    ensures AtRest(run[n].pc) && !run[n].portOpen
  {
    forall j | i <= j < n ensures FindsHold(run[j], acts[j]) {
      HeldStays(run, acts, i, j);
    }
    HoldParksWithinTenSteps(run, acts, i, n);
  }

  // ---------------------------------------------------------------- sessions, answers and the end

  /** The collector ends only when it was told to. */
  lemma {:induction false} FinishedMeansStopped(run: seq<State>, acts: seq<Action>, n: nat)
    requires IsRun(run, acts) && n < |run|
    ensures run[n].stop <==> exists i :: 0 <= i < n && acts[i].Stop?
    ensures run[n].pc == Finished ==> run[n].stop
  {
    if n > 0 {
      FinishedMeansStopped(run, acts, n - 1);
      assert run[n] == Apply(run[n - 1], acts[n - 1]);
    }
  }

  /** A read failed, or the port was silent for too long. */
  predicate EndsSession(a: Action) {
    a.Collect? && (a.move == ReadReturns(false) || (a.move.ReadLooksAtHold? && a.move.silentTooLong))
  }

  predicate OpensPort(a: Action) {
    a == Collect(OpenPort(true))
  }

  /** No session is under way. */
  predicate IsBetween(pc: Point) {
    !InReadLoop(pc) && pc != Opened && pc != Marked
  }

  lemma StaysBetween(s: State, a: Action)
    requires Enabled(s, a) && (EndsSession(a) || (IsBetween(s.pc) && !OpensPort(a)))
    ensures IsBetween(Apply(s, a).pc)
  {
  }

  /** After that nothing is read before the port was opened anew. */
  lemma {:induction false} NoReadAfterFailure(run: seq<State>, acts: seq<Action>, i: nat, n: nat)
    requires IsRun(run, acts) && i < n < |run| && EndsSession(acts[i])
    requires forall j :: i < j < n ==> !OpensPort(acts[j])
    ensures IsBetween(run[n].pc)
  {
    var m: nat := n - 1;
    if m > i {
      NoReadAfterFailure(run, acts, i, m);
    }
    StaysBetween(run[m], acts[m]);
  }

  /** On the way to the next open, with no sleep ahead. */
  predicate IsAwake(pc: Point) {
    pc in {LoopTop, HoldCheck, Parked, Opening, Finished}
  }

  lemma StaysAwake(s: State, a: Action)
    requires Enabled(s, a)
    requires a == Collect(EndSession(true)) || (IsAwake(s.pc) && !(a.Collect? && a.move.OpenPort?))
    ensures IsAwake(Apply(s, a).pc)
  {
  }

  /** A requested reopen skips the sleep: none comes before the next attempt to open. */
  lemma {:induction false} NoSleepAfterSkip(run: seq<State>, acts: seq<Action>, i: nat, n: nat)
    requires IsRun(run, acts) && i < n < |run| && acts[i] == Collect(EndSession(true))
    requires forall j :: i < j < n ==> !(acts[j].Collect? && acts[j].move.OpenPort?)
    ensures IsAwake(run[n].pc)
  {
    var m: nat := n - 1;
    if m > i {
      NoSleepAfterSkip(run, acts, i, m);
    }
    StaysAwake(run[m], acts[m]);
  }

  /** And any other end of a session sleeps before the next. */
  lemma SleepsUnlessSkipped(run: seq<State>, acts: seq<Action>, i: nat)
    requires IsRun(run, acts) && i < |acts| && acts[i] == Collect(EndSession(false)) && !run[i].stop
    ensures run[i + 1].pc == BackingOff
  {
    assert run[i + 1] == Apply(run[i], acts[i]);
  }

  predicate Answers(s: State, a: Action, caller: nat) {
    a == SuspendTimeout(caller) || (a == SuspendPoll(caller) && SuspendReturnsTrue(s, a))
  }

  /** A Suspend answers once: a caller that answered again has begun again. */
  lemma {:induction false} SuspendAnswersOnce(run: seq<State>, acts: seq<Action>, i: nat, n: nat, caller: nat)
    requires IsRun(run, acts) && i < n < |run| && Answers(run[i], acts[i], caller)
    requires forall j :: i < j < n ==> acts[j] != SuspendStart(caller)
    ensures caller !in run[n].suspenders
    ensures n < |acts| ==> !Answers(run[n], acts[n], caller)
  {
    assert run[n] == Apply(run[n - 1], acts[n - 1]);
    if n > i + 1 {
      SuspendAnswersOnce(run, acts, i, n - 1, caller);
    }
  }

  // ---------------------------------------------------------------- the standing hold is needed

  /** A continuation of a run: the states and actions that follow its last state. */
  ghost predicate Continues(s: State, run: seq<State>, acts: seq<Action>) {
    |run| == |acts| + 1 && run[0] == s && Steps(run, acts)
  }

  /** How far an undisturbed collector is from its read loop. */
  function Distance(pc: Point): nat {
    match pc
    case Closing => 10
    case Closed => 9
    case SessionOver => 8
    case BackingOff => 7
    case Parked => 7
    case LoopTop => 6
    case HoldCheck => 5
    case Opening => 4
    case Opened => 3
    case Marked => 2
    case GotData => 2
    case Setup => 1
    case DataCheck => 1
    case _ => 0
  }

  lemma {:induction false} UnheldCollectorReads(s: State) returns (run: seq<State>, acts: seq<Action>)
    requires !s.held && !s.stop && s.pc != Finished
    ensures Continues(s, run, acts) && run[|acts|].pc == Reading
    ensures forall a :: a in acts ==> a.Collect?
    decreases Distance(s.pc)
  {
    if s.pc == Reading {
      return [s], [];
    }
    var m :=
      match s.pc
      case Closing => ClosePort
      case Closed => ClearPortOpen
      case SessionOver => EndSession(false)
      case BackingOff => SleepEnds(true)
      case Parked => WakeUp(false, true)
      case LoopTop => LookAtStop
      case HoldCheck => LookAtHold(false)
      case Opening => OpenPort(true)
      case Opened => StorePortOpen
      case Marked => Recheck(false)
      case GotData => ReadSeesStop
      case DataCheck => ReadLooksAtHold(false, false)
      case _ => FinishSetup;
    var a := Collect(m);
    var rest, more := UnheldCollectorReads(Apply(s, a));
    run, acts := [s] + rest, [a] + more;
    forall i | 0 <= i < |acts|
      ensures Enabled(run[i], acts[i]) && run[i + 1] == Apply(run[i], acts[i])
    {
      if i > 0 {
        assert run[i] == rest[i - 1] && acts[i] == more[i - 1];
      }
    }
  }

  /**
   A Suspend that gave up gives the port back: with no other Suspend begun since, the collector
   reaches its read loop again by its own steps alone.
   */
  lemma TimedOutSuspendGivesBack(run: seq<State>, acts: seq<Action>, i: nat, n: nat)
    returns (more: seq<State>, next: seq<Action>)
    requires IsRun(run, acts) && i < n < |run| && acts[i].SuspendTimeout?
    requires forall j :: i < j < n ==> !acts[j].SuspendStart?
    requires !run[n].stop && run[n].pc != Finished
    ensures Continues(run[n], more, next) && more[|next|].pc == Reading
    ensures forall a :: a in next ==> a.Collect?
  {
    HeldIffSuspendedSince(run, acts, n);
    more, next := UnheldCollectorReads(run[n]);
  }

  /**
   The exact condition.  A Suspend that answered true keeps the collector out of its read loop in
   every continuation without Resume or timeout if and only if the hold was standing when it
   answered; the caller could see that with Held().
   */
  lemma SuspendIsSafeIffHeld(run: seq<State>, acts: seq<Action>)
    requires IsRun(run, acts) && |acts| > 0
    requires SuspendReturnsTrue(run[|acts| - 1], acts[|acts| - 1])
    requires !run[|acts|].stop && run[|acts|].pc != Finished
    ensures run[|acts|].held <==>
            (forall more: seq<State>, next: seq<Action> ::
               Continues(run[|acts|], more, next) && (forall a :: a in next ==> !Clears(a))
               ==> !InReadLoop(more[|next|].pc))
  {
    var s := run[|acts|];
    assert s == Apply(run[|acts| - 1], acts[|acts| - 1]);
    if s.held {
      forall more: seq<State>, next: seq<Action>
        | Continues(s, more, next) && (forall a :: a in next ==> !Clears(a))
        ensures !InReadLoop(more[|next|].pc)
      {
        Joined(run, acts, more, next);
        var all, allActs := run + more[1..], acts + next;
        if next == [] {
          FlagAlwaysMatches(run, acts, |acts| - 1);
        } else {
          NoReadWhileSuspended(all, allActs, |acts| - 1, |allActs|);
        }
      }
    } else {
      FlagAlwaysMatches(run, acts, |acts|);
      var more, next := UnheldCollectorReads(s);
      assert Continues(s, more, next) && InReadLoop(more[|next|].pc);
    }
  }

  lemma Joined(run: seq<State>, acts: seq<Action>, more: seq<State>, next: seq<Action>)
    requires IsRun(run, acts) && Continues(run[|acts|], more, next)
    ensures IsRun(run + more[1..], acts + next)
  {
    var all, allActs := run + more[1..], acts + next;
    forall i | 0 <= i < |allActs|
      ensures Enabled(all[i], allActs[i]) && all[i + 1] == Apply(all[i], allActs[i])
    {
      if i < |acts| {
        assert all[i] == run[i] && all[i + 1] == run[i + 1];
      } else {
        assert all[i] == more[i - |acts|] && all[i + 1] == more[i - |acts| + 1];
        assert allActs[i] == next[i - |acts|];
      }
    }
  }

  /** The run up to the answer: the Resume falls between the Suspend's store and its poll. */
  lemma ResumeBeforeTheAnswer() returns (run: seq<State>, acts: seq<Action>)
    ensures IsRun(run, acts) && |acts| == 3
    ensures acts[0].SuspendStart? && acts[1].Resume? && SuspendReturnsTrue(run[2], acts[2])
    ensures run[3] == State(LoopTop, false, false, false, {})
  {
    var s0 := State(LoopTop, false, false, false, {});
    run := [s0, s0.(held := true, suspenders := {0}), s0.(suspenders := {0}), s0];
    acts := [SuspendStart(0), Resume, SuspendPoll(0)];
  }

  /**
   The condition is not idle: a Resume (as tickReleases issues outside the operation lock) that
   falls between a Suspend's store and its answer leaves a run that ends with the collector
   reading although Suspend answered true and nothing cleared the hold afterwards.
   */
  lemma ResumeDuringSuspendIsUnsafe() returns (run: seq<State>, acts: seq<Action>)
    ensures IsRun(run, acts) && |acts| > 3
    ensures acts[0].SuspendStart? && acts[1].Resume?
    ensures SuspendReturnsTrue(run[2], acts[2])
    ensures forall j :: 2 < j < |acts| ==> !Clears(acts[j])
    ensures run[|acts|].pc == Reading
  {
    var start, first := ResumeBeforeTheAnswer();
    var more, next := UnheldCollectorReads(start[3]);
    Joined(start, first, more, next);
    run, acts := start + more[1..], first + next;
    assert forall j :: 2 < j < |acts| ==> acts[j] in next;
  }

  // ---------------------------------------------------------------- a stopped collector ends

  /** How many steps of its own a stopped collector can still take. */
  function StopRank(pc: Point): nat {
    match pc
    case HoldCheck => 12
    case Opening => 11
    case Opened => 10
    case Marked => 9
    case Setup => 8
    case DataCheck => 8
    case Reading => 7
    case GotData => 6
    case Closing => 5
    case Closed => 4
    case SessionOver => 3
    case BackingOff => 2
    case Parked => 2
    case LoopTop => 1
    case Finished => 0
  }

  /** A step of its own that is not one more look at a standing hold by the timer of the parked loop. */
  predicate Advances(a: Action) {
    a.Collect? && !(a.move.WakeUp? && a.move.ticked)
  }

  function Advancing(acts: seq<Action>): nat {
    if acts == [] then 0
    else Advancing(acts[..|acts| - 1]) + if Advances(acts[|acts| - 1]) then 1 else 0
  }

  lemma StopStep(s: State, a: Action)
    requires Enabled(s, a) && s.stop
    ensures Apply(s, a).stop
    ensures StopRank(Apply(s, a).pc) + (if Advances(a) then 1 else 0) <= StopRank(s.pc)
  {
  }

  lemma AdvancingSnoc(acts: seq<Action>, i: nat, n: nat)
    requires i < n <= |acts|
    ensures Advancing(acts[i..n]) == Advancing(acts[i..n - 1]) + if Advances(acts[n - 1]) then 1 else 0
  {
    assert acts[i..n][..n - 1 - i] == acts[i..n - 1];
  }

  lemma {:induction false} StopRunsDown(run: seq<State>, acts: seq<Action>, i: nat, n: nat)
    requires IsRun(run, acts) && i <= n < |run| && run[i].stop
    ensures run[n].stop
    ensures Advancing(acts[i..n]) + StopRank(run[n].pc) <= StopRank(run[i].pc)
  {
    if i < n {
      StopRunsDown(run, acts, i, n - 1);
      StopStep(run[n - 1], acts[n - 1]);
      AdvancingSnoc(acts, i, n);
    }
  }

  /**
   Stop ends the collector, held or not: at most twelve such steps of its own remain, until the last
   there is always a next one, and at the end the port is closed.
   */
  lemma StopsWithinTwelveSteps(run: seq<State>, acts: seq<Action>, i: nat, n: nat) returns (next: Move)
    requires IsRun(run, acts) && i < n < |run| && acts[i].Stop?
    ensures Advancing(acts[i + 1..n]) <= 12
    ensures run[n].pc != Finished ==> CanMove(run[n].pc, next) && Advances(Collect(next))
    ensures run[n].pc == Finished ==> !run[n].portOpen
  {
    assert run[i + 1] == Apply(run[i], acts[i]);
    StopRunsDown(run, acts, i + 1, n);
    FlagAlwaysMatches(run, acts, n);
    next := NextMove(run[n].pc);
  }

  /** A step of its own for every point of an unfinished collector. */
  function NextMove(pc: Point): (m: Move)
    ensures pc != Finished ==> CanMove(pc, m) && Advances(Collect(m))
  {
    match pc
    case HoldCheck => LookAtHold(false)
    case Parked => WakeUp(false, false)
    case Opening => OpenPort(true)
    case Opened => StorePortOpen
    case Marked => Recheck(false)
    case Setup => FinishSetup
    case Reading => ReadReturns(true)
    case GotData => ReadSeesStop
    case DataCheck => ReadLooksAtHold(false, false)
    case Closing => ClosePort
    case Closed => ClearPortOpen
    case SessionOver => EndSession(false)
    case BackingOff => SleepEnds(false)
    case _ => LookAtStop
  }
}
