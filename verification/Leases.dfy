/**
 The lease table: Release holds collectors and records leases, ResumeAll and tickReleases end them,
 Flash, Board and Reset borrow a port for one tool run.

 A collector is held when its suspend flag is up.  An orphan is a live collector that is held while
 its key has no lease: resume and expiry walk the table and never find it.
 */
module Leases {

  /** A limited lease ends after `until`; an idle one after IDLE_QUIET seconds without users. */
  datatype Spec = Spec(until: Time, untilIdle: bool, idleSince: Time)

  datatype Time = Never | At(t: int)

  const IDLE_QUIET := 3

  /** One device an operation works on: the key it matched under and its collector. */
  datatype Target = Target(key: string, coll: nat)

  /** How the work on one device ended. */
  datatype Outcome = NoPlan | PortBusy | ToolFailed | ToolDone

  datatype State = State(live: map<string, nat>, held: set<nat>, releases: map<string, Spec>)

  ghost predicate IsOrphan(s: State, key: string) {
    key in s.live && s.live[key] in s.held && key !in s.releases
  }

  ghost predicate NoOrphans(s: State) {
    forall k :: !IsOrphan(s, k)
  }

  /** Every collector runs under one key. */
  predicate OneKeyEach(s: State) {
    forall j, k :: j in s.live && k in s.live && s.live[j] == s.live[k] ==> j == k
  }

  /** What matches() hands to an operation: live collectors under distinct keys. */
  predicate AreTargets(s: State, targets: seq<Target>) {
    && (forall t :: t in targets ==> t.key in s.live && s.live[t.key] == t.coll)
    && (forall i, j :: 0 <= i < j < |targets| ==> targets[i].key != targets[j].key)
  }

  function TargetKeys(targets: seq<Target>): set<string> {
    set t | t in targets :: t.key
  }

  function TargetColls(targets: seq<Target>): set<nat> {
    set t | t in targets :: t.coll
  }

  // ---------------------------------------------------------------- operations on values

  function ReleaseOne(s: State, t: Target, spec: Spec, ok: bool): State {
    if ok then s.(held := s.held + {t.coll}, releases := s.releases[t.key := spec])
    else s.(held := s.held - {t.coll})
  }

  function ReleaseAll(s: State, targets: seq<Target>, spec: Spec, ok: seq<bool>): State
    requires |ok| == |targets|
  {
    if targets == [] then s
    else
      var n := |targets| - 1;
      ReleaseOne(ReleaseAll(s, targets[..n], spec, ok[..n]), targets[n], spec, ok[n])
  }

  /** How many ports were given up. */
  function Granted(ok: seq<bool>): nat {
    if ok == [] then 0 else Granted(ok[..|ok| - 1]) + if ok[|ok| - 1] then 1 else 0
  }

  function LeasedColls(s: State): set<nat> {
    set k | k in s.releases && k in s.live :: s.live[k]
  }

  /** A lease is over: its device is gone, its time is up, or its port was quiet long enough. */
  predicate IsOver(s: State, key: string, now: int, busy: set<string>)
    requires key in s.releases
  {
    var l := s.releases[key];
    || key !in s.live
    || (l.until.At? && now > l.until.t)
    || (l.untilIdle && key !in busy && l.idleSince.At? && now - l.idleSince.t >= IDLE_QUIET)
  }

  /** What one round leaves of a lease that goes on: the start of its current quiet spell. */
  function Observed(l: Spec, now: int, busy: bool): Spec {
    if !l.untilIdle then l
    else if busy then l.(idleSince := Never)
    else if l.idleSince.Never? then l.(idleSince := At(now))
    else l
  }

  function Over(s: State, now: int, busy: set<string>): set<string> {
    set k | k in s.releases && IsOver(s, k, now, busy)
  }

  function CollsOf(s: State, keys: set<string>): set<nat> {
    set k | k in keys && k in s.live :: s.live[k]
  }

  function TickedReleases(s: State, now: int, busy: set<string>): State {
    var over := Over(s, now, busy);
    s.(held := s.held - CollsOf(s, over),
       releases := map k | k in s.releases && k !in over :: Observed(s.releases[k], now, k in busy))
  }

  /** How many devices an operation that stops at its first failure works on. */
  function Reached(outcomes: seq<Outcome>): (n: nat)
    ensures n <= |outcomes|
  {
    if outcomes == [] then 0
    else if outcomes[0] != ToolDone then 1
    else 1 + Reached(outcomes[1..])
  }

  /** The devices whose port was asked for: not the one whose plan was refused. */
  function Asked(outcomes: seq<Outcome>): (n: nat)
    ensures n <= |outcomes|
  {
    var n := Reached(outcomes);
    if n > 0 && outcomes[n - 1] == NoPlan then n - 1 else n
  }

  /** Flash and Board: all leases go first, then the devices in turn until one fails. */
  function FlashSpec(s: State, targets: seq<Target>, outcomes: seq<Outcome>): State
    requires |outcomes| == |targets|
  {
    s.(releases := s.releases - TargetKeys(targets),
       held := s.held - TargetColls(targets[..Asked(outcomes)]))
  }

  /** Reset: each device loses its lease only when its turn comes; no USB path is refused before. */
  function ResetSpec(s: State, targets: seq<Target>, outcomes: seq<Outcome>): State
    requires |outcomes| == |targets|
  {
    s.(releases := s.releases - TargetKeys(targets[..Asked(outcomes)]),
       held := s.held - TargetColls(targets[..Asked(outcomes)]))
  }

  // ---------------------------------------------------------------- the daemon's side of it

  /** Who is still held when all leases but these are dealt with. */
  function FreedBut(s: State, todo: set<string>): set<nat> {
    s.held - CollsOf(s, s.releases.Keys - todo)
  }

  lemma OneMoreFreed(s: State, todo: set<string>, k: string)
    requires k in todo && k in s.releases
    ensures FreedBut(s, todo - {k}) == if k in s.live then FreedBut(s, todo) - {s.live[k]} else FreedBut(s, todo)
  {
    assert s.releases.Keys - (todo - {k}) == s.releases.Keys - todo + {k};
    assert CollsOf(s, s.releases.Keys - todo + {k}) ==
           CollsOf(s, s.releases.Keys - todo) + if k in s.live then {s.live[k]} else {};
  }

  /** How many of these keys are connected. */
  function Connected(live: map<string, nat>, keys: set<string>): nat {
    |set k | k in keys && k in live|
  }

  lemma OneLessConnected(live: map<string, nat>, keys: set<string>, k: string)
    requires k in keys
    ensures Connected(live, keys) == Connected(live, keys - {k}) + if k in live then 1 else 0
  {
    var was, now := set j | j in keys && j in live, set j | j in keys - {k} && j in live;
    assert now == was - {k};
  }

  class Table {
    var live: map<string, nat>
    var held: set<nat>
    var releases: map<string, Spec>

    function View(): State
      reads this
    {
      State(live, held, releases)
    }

    constructor (live: map<string, nat>)
      ensures View() == State(live, {}, map[])
    {
      this.live, held, releases := live, {}, map[];
    }

    /** Suspend: the flag goes up, and comes down again if the port is not given up in time. */
    method Suspend(coll: nat, ok: bool)
      modifies this`held
      ensures held == if ok then old(held) + {coll} else old(held) - {coll}
    {
      held := held + {coll};
      if !ok {
        held := held - {coll};
      }
    }

    method Release(targets: seq<Target>, spec: Spec, ok: seq<bool>) returns (n: nat)
      requires |ok| == |targets|
      modifies this
      ensures View() == ReleaseAll(old(View()), targets, spec, ok)
      ensures n == Granted(ok)
    {
      n := 0;
      for i := 0 to |targets|
        invariant View() == ReleaseAll(old(View()), targets[..i], spec, ok[..i])
        invariant n == Granted(ok[..i])
      {
        assert targets[..i + 1][..i] == targets[..i] && ok[..i + 1][..i] == ok[..i];
        Suspend(targets[i].coll, ok[i]);
        if ok[i] {
          releases := releases[targets[i].key := spec];
          n := n + 1;
        }
      }
      assert targets[..|targets|] == targets && ok[..|ok|] == ok;
    }

    /** Every lease is revoked, whatever the pattern; the count is of what was resumed, the pause file included. */
    method ResumeAll(unpaused: bool) returns (n: nat)
      modifies this
      ensures View() == State(old(live), old(held) - LeasedColls(old(View())), map[])
      ensures n == Connected(old(live), old(releases).Keys) + if unpaused then 1 else 0
    {
      ghost var was := View();
      var todo := releases.Keys;
      n := if unpaused then 1 else 0;
      ghost var start := n;
      while todo != {}
        invariant live == was.live && todo == releases.Keys
        invariant todo <= was.releases.Keys
        invariant held == FreedBut(was, todo)
        invariant n + Connected(live, todo) == start + Connected(was.live, was.releases.Keys)
        decreases todo
      {
        var k :| k in todo;
        OneLessConnected(live, todo, k);
        OneMoreFreed(was, todo, k);
        if k in live {
          held := held - {live[k]};
          n := n + 1;
        }
        releases := releases - {k};
        todo := todo - {k};
      }
      assert was.releases.Keys - todo == was.releases.Keys;
    }

    /** The first half of tickReleases: pick the leases that are over, note quiet spells. */
    method SelectOver(now: int, busy: set<string>) returns (over: set<string>)
      modifies this`releases
      ensures over == Over(old(View()), now, busy)
      ensures releases == map k | k in old(releases)
                            :: if k in over then old(releases)[k] else Observed(old(releases)[k], now, k in busy)
    {
      ghost var was := View();
      over := {};
      var todo := releases.Keys;
      while todo != {}
        invariant releases.Keys == was.releases.Keys && todo <= was.releases.Keys
        invariant over == Over(was, now, busy) - todo
        invariant forall k :: k in was.releases ==>
          releases[k] == if k in todo || k in over then was.releases[k] else Observed(was.releases[k], now, k in busy)
        decreases todo
      {
        var k :| k in todo;
        todo := todo - {k};
        var l := releases[k];
        if k !in live || (l.until.At? && now > l.until.t) {
          over := over + {k};
        } else if l.untilIdle {
          if k in busy {
            releases := releases[k := l.(idleSince := Never)];
          } else if l.idleSince.Never? {
            releases := releases[k := l.(idleSince := At(now))];
          } else if now - l.idleSince.t >= IDLE_QUIET {
            over := over + {k};
          }
        }
      }
    }

    /** The second half: drop each of these leases, then resume its collector if it still runs. */
    method ResumeOver(keys: set<string>)
      modifies this
      ensures View() == State(old(live), old(held) - CollsOf(old(View()), keys), old(releases) - keys)
    {
      ghost var was := View();
      var todo := keys;
      while todo != {}
        invariant live == was.live && todo <= keys
        invariant releases == was.releases - (keys - todo)
        invariant held == was.held - CollsOf(was, keys - todo)
        decreases todo
      {
        var k :| k in todo;
        ghost var done := keys - todo;
        releases := releases - {k};
        if k in live {
          held := held - {live[k]};
        }
        todo := todo - {k};
        assert keys - todo == done + {k};
      }
      assert keys - todo == keys;
    }

    method TickReleases(now: int, busy: set<string>)
      modifies this
      ensures View() == TickedReleases(old(View()), now, busy)
    {
      var over := SelectOver(now, busy);
      ResumeOver(over);
    }

    /** The per-device part that Flash, Board and Reset share: give up the port, run, take it back. */
    method Borrow(t: Target, outcome: Outcome) returns (ok: bool)
      requires outcome != NoPlan
      modifies this`held
      ensures held == old(held) - {t.coll} && ok == (outcome == ToolDone)
    {
      Suspend(t.coll, outcome != PortBusy);
      if outcome == PortBusy {
        return false;
      }
      held := held - {t.coll};
      return outcome == ToolDone;
    }

    /** Flash (where no outcome is NoPlan) and Board. */
    method Flash(targets: seq<Target>, outcomes: seq<Outcome>) returns (ok: bool)
      requires |outcomes| == |targets|
      modifies this
      ensures View() == FlashSpec(old(View()), targets, outcomes)
      ensures ok <==> AllDone(outcomes)
    {
      ghost var was := View();
      releases := releases - TargetKeys(targets);
      for i := 0 to |targets|
        invariant live == was.live && releases == was.releases - TargetKeys(targets)
        invariant held == was.held - TargetColls(targets[..i])
        invariant forall j :: 0 <= j < i ==> outcomes[j] == ToolDone
      {
        ReachedAt(outcomes, i);
        assert targets[..i + 1] == targets[..i] + [targets[i]];
        if outcomes[i] == NoPlan {
          assert Asked(outcomes) == i;
          return false;
        }
        var done := Borrow(targets[i], outcomes[i]);
        if !done {
          return false;
        }
      }
      ReachedAll(outcomes);
      assert targets[..|targets|] == targets;
      return true;
    }

    method Reset(targets: seq<Target>, outcomes: seq<Outcome>) returns (ok: bool)
      requires |outcomes| == |targets|
      modifies this
      ensures View() == ResetSpec(old(View()), targets, outcomes)
      ensures ok <==> AllDone(outcomes)
    {
      ghost var was := View();
      for i := 0 to |targets|
        invariant live == was.live
        invariant held == was.held - TargetColls(targets[..i])
        invariant releases == was.releases - TargetKeys(targets[..i])
        invariant forall j :: 0 <= j < i ==> outcomes[j] == ToolDone
      {
        ReachedAt(outcomes, i);
        assert targets[..i + 1] == targets[..i] + [targets[i]];
        if outcomes[i] == NoPlan {
          return false;
        }
        releases := releases - {targets[i].key};
        var done := Borrow(targets[i], outcomes[i]);
        if !done {
          return false;
        }
      }
      ReachedAll(outcomes);
      assert targets[..|targets|] == targets;
      return true;
    }
  }

  predicate AllDone(outcomes: seq<Outcome>) {
    forall i :: 0 <= i < |outcomes| ==> outcomes[i] == ToolDone
  }

  lemma InPrefix(targets: seq<Target>, n: nat, i: nat)
    requires n <= |targets| && i < |targets|
    ensures i < n ==> targets[i].coll in TargetColls(targets[..n]) && targets[i].key in TargetKeys(targets[..n])
  {
  }

  lemma CollOfKey(s: State, keys: set<string>, k: string)
    requires OneKeyEach(s) && k in s.live
    ensures s.live[k] in CollsOf(s, keys) <==> k in keys
  {
  }

  lemma {:induction false} ReachedAt(outcomes: seq<Outcome>, i: nat)
    requires i < |outcomes| && forall j :: 0 <= j < i ==> outcomes[j] == ToolDone
    ensures outcomes[i] != ToolDone ==> Reached(outcomes) == i + 1
  {
    if i > 0 {
      ReachedAt(outcomes[1..], i - 1);
    }
  }

  lemma {:induction false} ReachedAll(outcomes: seq<Outcome>)
    requires AllDone(outcomes)
    ensures Reached(outcomes) == |outcomes| && Asked(outcomes) == |outcomes|
  {
    if outcomes != [] {
      ReachedAll(outcomes[1..]);
    }
  }

  // ---------------------------------------------------------------- no orphaned hold

  lemma {:induction false} ReleaseKeepsNoOrphans(s: State, targets: seq<Target>, spec: Spec, ok: seq<bool>)
    requires NoOrphans(s) && OneKeyEach(s) && AreTargets(s, targets) && |ok| == |targets|
    ensures NoOrphans(ReleaseAll(s, targets, spec, ok))
    ensures ReleaseAll(s, targets, spec, ok).live == s.live
  {
    if targets != [] {
      var n := |targets| - 1;
      ReleaseKeepsNoOrphans(s, targets[..n], spec, ok[..n]);
      var t, u := ReleaseAll(s, targets[..n], spec, ok[..n]), ReleaseAll(s, targets, spec, ok);
      assert targets[n] in targets;
      forall k ensures !IsOrphan(u, k) {
        assert !IsOrphan(t, k);
      }
    }
  }

  /** What Release leaves of each device: held with exactly this lease, or rolled back with the lease it had. */
  lemma {:induction false} ReleaseDecides(s: State, targets: seq<Target>, spec: Spec, ok: seq<bool>, i: nat)
    requires OneKeyEach(s) && AreTargets(s, targets) && |ok| == |targets| && i < |targets|
    ensures var t, u := targets[i], ReleaseAll(s, targets, spec, ok);
            if ok[i] then t.coll in u.held && t.key in u.releases && u.releases[t.key] == spec
            else t.coll !in u.held && (t.key in u.releases <==> t.key in s.releases)
                 && (t.key in u.releases ==> u.releases[t.key] == s.releases[t.key])
  {
    var n := |targets| - 1;
    ReleaseSpares(s, targets[..n], spec, ok[..n], targets[n]);
    assert targets[i] in targets && targets[n] in targets;
    if i < n {
      ReleaseDecides(s, targets[..n], spec, ok[..n], i);
    }
  }

  lemma {:induction false} ReleaseSpares(s: State, targets: seq<Target>, spec: Spec, ok: seq<bool>, t: Target)
    requires |ok| == |targets| && forall u :: u in targets ==> u.key != t.key && u.coll != t.coll
    ensures var after := ReleaseAll(s, targets, spec, ok);
            && (t.key in after.releases <==> t.key in s.releases)
            && (t.key in after.releases ==> after.releases[t.key] == s.releases[t.key])
            && (t.coll in after.held <==> t.coll in s.held)
  {
    if targets != [] {
      ReleaseSpares(s, targets[..|targets| - 1], spec, ok[..|targets| - 1], t);
    }
  }

  lemma TickKeepsNoOrphans(s: State, now: int, busy: set<string>)
    requires NoOrphans(s)
    ensures NoOrphans(TickedReleases(s, now, busy))
  {
    forall k ensures !IsOrphan(TickedReleases(s, now, busy), k) {
      assert !IsOrphan(s, k);
    }
  }

  /** ResumeAll frees every leased collector, so what stays held is exactly the orphans before it. */
  lemma ResumeAllLeavesOrphans(s: State, k: string)
    requires OneKeyEach(s) && k in s.live
    ensures var u := State(s.live, s.held - LeasedColls(s), map[]);
            (u.live[k] in u.held <==> IsOrphan(s, k)) && (IsOrphan(u, k) <==> IsOrphan(s, k))
  {
  }

  /**
   Exactly who Flash and Board leave behind: a device that was held and whose own turn never came,
   because an earlier one failed or (Board) because its own plan was refused.
   */
  lemma FlashOrphans(s: State, targets: seq<Target>, outcomes: seq<Outcome>, k: string)
    requires NoOrphans(s) && OneKeyEach(s) && AreTargets(s, targets) && |outcomes| == |targets|
    ensures IsOrphan(FlashSpec(s, targets, outcomes), k) <==>
            exists i :: Asked(outcomes) <= i < |targets| && targets[i].key == k && targets[i].coll in s.held
  {
    var u, n := FlashSpec(s, targets, outcomes), Asked(outcomes);
    assert !IsOrphan(s, k);
    if IsOrphan(u, k) {
      assert k in TargetKeys(targets);
      var t :| t in targets && t.key == k;
      var i :| 0 <= i < |targets| && targets[i] == t;
      InPrefix(targets, n, i);
    }
    forall i | n <= i < |targets| && targets[i].key == k && targets[i].coll in s.held
      ensures IsOrphan(u, k)
    {
      assert targets[i] in targets;
      forall t | t in targets[..n] ensures t.coll != targets[i].coll {
        var j :| 0 <= j < n && targets[..n][j] == t;
        assert targets[j] == t && t in targets && t.key != targets[i].key;
      }
    }
  }

  /** On a single device Flash leaves nobody behind; Board does so only by refusing the plan. */
  lemma SingleDeviceOrphans(s: State, t: Target, outcome: Outcome)
    requires NoOrphans(s) && OneKeyEach(s) && AreTargets(s, [t])
    ensures NoOrphans(FlashSpec(s, [t], [outcome])) <==> !(outcome == NoPlan && t.coll in s.held)
  {
    assert Reached([outcome]) == 1 by {
      assert outcome == ToolDone ==> [outcome][1..] == [];
    }
    FlashOrphans(s, [t], [outcome], t.key);
    forall k | k != t.key ensures !IsOrphan(FlashSpec(s, [t], [outcome]), k) {
      FlashOrphans(s, [t], [outcome], k);
    }
    if outcome == NoPlan && t.coll in s.held {
      assert [t][0].key == t.key;
    }
  }

  /** Reset takes leases one at a time and so never orphans anyone, however it ends. */
  lemma ResetKeepsNoOrphans(s: State, targets: seq<Target>, outcomes: seq<Outcome>)
    requires NoOrphans(s) && OneKeyEach(s) && AreTargets(s, targets) && |outcomes| == |targets|
    ensures NoOrphans(ResetSpec(s, targets, outcomes))
  {
    var u, n := ResetSpec(s, targets, outcomes), Asked(outcomes);
    forall k ensures !IsOrphan(u, k) {
      assert !IsOrphan(s, k);
      if k in TargetKeys(targets[..n]) {
        var t :| t in targets[..n] && t.key == k;
        assert t in targets;
      }
    }
  }

  /** Whom Reset reached has no lease and is free; whom it did not is as it was. */
  lemma ResetReaches(s: State, targets: seq<Target>, outcomes: seq<Outcome>, i: nat)
    requires OneKeyEach(s) && AreTargets(s, targets) && |outcomes| == |targets| && i < |targets|
    ensures var t, u := targets[i], ResetSpec(s, targets, outcomes);
            if i < Asked(outcomes) then t.key !in u.releases && t.coll !in u.held
            else (t.key in u.releases <==> t.key in s.releases) && (t.coll in u.held <==> t.coll in s.held)
                 && (t.key in u.releases ==> u.releases[t.key] == s.releases[t.key])
  {
    var n := Asked(outcomes);
    InPrefix(targets, n, i);
    assert targets[i] in targets;
    forall t | t in targets[..n] && i >= n ensures t.key != targets[i].key && t.coll != targets[i].coll {
      var j :| 0 <= j < n && targets[..n][j] == t;
      assert targets[j] == t && t in targets;
    }
  }

  /** The devices an operation works on: all before the first that fails, and that one unless its plan was refused. */
  lemma {:induction false} AskedIff(outcomes: seq<Outcome>, i: nat)
    requires i < |outcomes|
    ensures i < Asked(outcomes) <==>
              (forall j :: 0 <= j < i ==> outcomes[j] == ToolDone) && outcomes[i] != NoPlan
  {
    ReachedIff(outcomes, i);
    var n := Reached(outcomes);
    if n > 0 {
      ReachedIff(outcomes, n - 1);
      if n < |outcomes| {
        ReachedIff(outcomes, n);
      }
    }
  }

  lemma {:induction false} ReachedIff(outcomes: seq<Outcome>, i: nat)
    requires i < |outcomes|
    ensures i < Reached(outcomes) <==> forall j :: 0 <= j < i ==> outcomes[j] == ToolDone
  {
    if i > 0 && outcomes[0] == ToolDone {
      ReachedIff(outcomes[1..], i - 1);
      assert forall j :: 0 <= j < i - 1 ==> outcomes[1..][j] == outcomes[j + 1];
      if forall j :: 0 <= j < i - 1 ==> outcomes[1..][j] == ToolDone {
        forall j | 0 <= j < i ensures outcomes[j] == ToolDone {
          assert j > 0 ==> outcomes[1..][j - 1] == outcomes[j];
        }
      }
    }
  }

  /** A lasting orphan: neither resume nor any number of expiry rounds brings it back. */
  lemma {:induction false} OrphanOutlivesResume(s: State, k: string, rounds: seq<(int, set<string>)>)
    requires OneKeyEach(s) && IsOrphan(s, k)
    ensures IsOrphan(State(s.live, s.held - LeasedColls(s), map[]), k)
    ensures IsOrphan(TickMany(s, rounds), k)
    ensures TickMany(s, rounds).live == s.live
  {
    ResumeAllLeavesOrphans(s, k);
    if rounds != [] {
      var (now, busy) := rounds[|rounds| - 1];
      OrphanOutlivesResume(s, k, rounds[..|rounds| - 1]);
      var t := TickMany(s, rounds[..|rounds| - 1]);
      CollOfKey(t, Over(t, now, busy), k);
    }
  }

  function TickMany(s: State, rounds: seq<(int, set<string>)>): State {
    if rounds == [] then s
    else
      var (now, busy) := rounds[|rounds| - 1];
      TickedReleases(TickMany(s, rounds[..|rounds| - 1]), now, busy)
  }

  /** A lease always ends: a limited one once its time is past, a forgotten device at once. */
  lemma LimitedLeaseEnds(s: State, k: string, now: int, busy: set<string>)
    requires OneKeyEach(s) && k in s.releases
    requires k !in s.live || (s.releases[k].until.At? && now > s.releases[k].until.t)
    ensures k !in TickedReleases(s, now, busy).releases
    ensures k in s.live ==> s.live[k] !in TickedReleases(s, now, busy).held
  {
  }

  /**
   An idle lease ends no later than the first round that finds the port quiet IDLE_QUIET seconds
   after a quiet round, if no busy round came in between; a busy round starts the wait over.
   */
  lemma IdleLeaseEnds(s: State, k: string, now: int, later: int, busy: set<string>, busy': set<string>)
    requires k in s.releases && k in s.live && s.releases[k].untilIdle && s.releases[k].until.Never?
    requires k !in busy && k !in busy' && later - now >= IDLE_QUIET
    requires s.releases[k].idleSince.At? ==> s.releases[k].idleSince.t <= now
    ensures k !in TickedReleases(TickedReleases(s, now, busy), later, busy').releases
    ensures s.releases[k].idleSince.Never? ==> k in TickedReleases(s, now, busy).releases
  {
  }

  // ---------------------------------------------------------------- exactly when a lease ends

  type Rounds = seq<(int, set<string>)>

  /** The rounds from j to i all found the port quiet, and j is the first of them. */
  predicate QuietSpell(rounds: Rounds, key: string, j: nat, i: nat) {
    && j <= i < |rounds|
    && (forall m :: j <= m <= i ==> key !in rounds[m].1)
    && (j > 0 ==> key in rounds[j - 1].1)
  }

  /** Round i finds the time limit past, or the port quiet since a round at least IDLE_QUIET ago. */
  ghost predicate EndsAt(l: Spec, rounds: Rounds, key: string, i: nat)
    requires i < |rounds|
  {
    || (l.until.At? && l.until.t < rounds[i].0)
    || (l.untilIdle && exists j: nat :: QuietSpell(rounds, key, j, i) && rounds[j].0 + IDLE_QUIET <= rounds[i].0)
  }

  ghost predicate Stands(l: Spec, rounds: Rounds, key: string) {
    forall i :: 0 <= i < |rounds| ==> !EndsAt(l, rounds, key, i)
  }

  /** What the rounds have noted of a lease that goes on: since when its port has been quiet. */
  ghost predicate HasNoted(l: Spec, now: Spec, rounds: Rounds, key: string) {
    && now.until == l.until && now.untilIdle == l.untilIdle
    && match now.idleSince
       case Never => !l.untilIdle || rounds == [] || key in rounds[|rounds| - 1].1
       case At(t) =>
        && l.untilIdle && rounds != []
        && exists j: nat :: QuietSpell(rounds, key, j, |rounds| - 1) && rounds[j].0 == t
  }

  lemma SpellIsUnique(rounds: Rounds, key: string, i: nat, j: nat, m: nat)
    requires QuietSpell(rounds, key, j, i) && QuietSpell(rounds, key, m, i)
    ensures j == m
  {
  }

  lemma EarlierSpells(rounds: Rounds, key: string, i: nat, j: nat)
    requires i < |rounds| - 1
    ensures QuietSpell(rounds[..|rounds| - 1], key, j, i) <==> QuietSpell(rounds, key, j, i)
  {
  }

  /** The last round decides about a lease that stood until then. */
  lemma StandsOneMore(l: Spec, rounds: Rounds, key: string)
    requires rounds != []
    ensures Stands(l, rounds, key) <==>
              Stands(l, rounds[..|rounds| - 1], key) && !EndsAt(l, rounds, key, |rounds| - 1)
  {
    var front := rounds[..|rounds| - 1];
    forall i | 0 <= i < |front| ensures EndsAt(l, front, key, i) <==> EndsAt(l, rounds, key, i) {
      forall j: nat ensures QuietSpell(front, key, j, i) <==> QuietSpell(rounds, key, j, i) {
        EarlierSpells(rounds, key, i, j);
      }
    }
  }

  predicate SpellGrows(rounds: Rounds, key: string, j: nat)
    requires rounds != []
  {
    var front := rounds[..|rounds| - 1];
    QuietSpell(rounds, key, j, |rounds| - 1) <==>
      (front != [] && QuietSpell(front, key, j, |front| - 1))
      || (j == |front| && (front == [] || key in front[|front| - 1].1))
  }

  /** A quiet round goes on with the spell before it or starts one. */
  lemma SpellGoesOn(rounds: Rounds, key: string, j: nat)
    requires rounds != [] && key !in rounds[|rounds| - 1].1
    ensures SpellGrows(rounds, key, j)
  {
  }

  /** One round on a lease whose notes are right: over exactly if the round ends it, else noted right again. */
  lemma RoundIsRight(s: State, k: string, l: Spec, rounds: Rounds)
    requires rounds != [] && k in s.live && k in s.releases
    requires HasNoted(l, s.releases[k], rounds[..|rounds| - 1], k)
    ensures var (now, busy) := rounds[|rounds| - 1];
            var t := TickedReleases(s, now, busy);
            && (k in t.releases <==> !EndsAt(l, rounds, k, |rounds| - 1))
            && (k in t.releases ==> HasNoted(l, t.releases[k], rounds, k))
  {
    var n := |rounds| - 1;
    var (now, busy) := rounds[n];
    var front, noted := rounds[..n], s.releases[k];
    if l.untilIdle && k !in busy {
      forall j: nat ensures SpellGrows(rounds, k, j) {
        SpellGoesOn(rounds, k, j);
      }
      if noted.idleSince.At? {
        var j: nat :| QuietSpell(front, k, j, n - 1) && front[j].0 == noted.idleSince.t;
        assert QuietSpell(rounds, k, j, n);
        forall m: nat | QuietSpell(rounds, k, m, n) ensures m == j {
          SpellIsUnique(rounds, k, n, m, j);
        }
      } else {
        assert QuietSpell(rounds, k, n, n);
        forall m: nat | QuietSpell(rounds, k, m, n) ensures m == n {
          SpellIsUnique(rounds, k, n, m, n);
        }
      }
    }
  }

  /**
   Exactly when a lease ends.  Over any rounds, the lease of a connected device goes on if and only
   if no round found its time limit past, and none found its port, under an idle lease, quiet since
   a round at least IDLE_QUIET before without a busy one in between; its collector is left alone as
   long as it goes on and is free once it ended.
   */
  lemma {:induction false} LeaseStandsIff(s: State, k: string, rounds: Rounds)
    requires OneKeyEach(s) && k in s.live && k in s.releases && s.releases[k].idleSince.Never?
    ensures var l, t := s.releases[k], TickMany(s, rounds);
            && t.live == s.live
            && (k in t.releases <==> Stands(l, rounds, k))
            && (k in t.releases ==> HasNoted(l, t.releases[k], rounds, k))
            && (s.live[k] in t.held <==> s.live[k] in s.held && Stands(l, rounds, k))
  {
    if rounds != [] {
      var l, front := s.releases[k], rounds[..|rounds| - 1];
      var (now, busy) := rounds[|rounds| - 1];
      LeaseStandsIff(s, k, front);
      StandsOneMore(l, rounds, k);
      var t := TickMany(s, front);
      CollOfKey(t, Over(t, now, busy), k);
      if k in t.releases {
        RoundIsRight(t, k, l, rounds);
      }
    }
  }

  /** A busy round starts the wait over: an idle lease stands until IDLE_QUIET after the last busy round. */
  lemma BusyRoundStartsOver(s: State, k: string, rounds: Rounds, b: nat)
    requires OneKeyEach(s) && k in s.live && k in s.releases && s.releases[k].idleSince.Never?
    requires s.releases[k].until.Never? && b < |rounds| && k in rounds[b].1
    requires k in TickMany(s, rounds[..b + 1]).releases
    requires forall i, j :: b < i <= j < |rounds| ==> rounds[j].0 - rounds[i].0 < IDLE_QUIET
    ensures k in TickMany(s, rounds).releases
  {
    var l := s.releases[k];
    LeaseStandsIff(s, k, rounds[..b + 1]);
    LeaseStandsIff(s, k, rounds);
    forall i | 0 <= i < |rounds| ensures !EndsAt(l, rounds, k, i) {
      if i <= b {
        assert !EndsAt(l, rounds[..b + 1], k, i);
        forall j: nat | QuietSpell(rounds, k, j, i) ensures QuietSpell(rounds[..b + 1], k, j, i) {
        }
      }
    }
  }
}
