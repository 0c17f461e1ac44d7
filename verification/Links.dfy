/**
 Automatic links: one loop per registry key, started by beacons and static seeds, ending when its
 peer has no address left.  Beacon callbacks, loops and registry updates interleave freely; every
 lock-protected section is one action.
 */
module Links {
  import opened Registry

  /** Where a link loop stands in linkLoop.run. */
  datatype Point =
    | LookKey      // resolvedAddr: about to look its key up in the registry
    | LookAddr     // the key gave nothing: about to look up its own address
    | Linking      // dialling, keeping alive or waiting for the next round
    | SawNothing   // no address: about to remove its own entry
    | ReLookKey    // entry removed: the re-check looks the key up again
    | ReLookAddr
    | Restarting   // the re-check found an address: about to call ensureLink
    | Gone

  datatype Loop = Loop(key: string, addr: string, pc: Point)

  /** A beacon callback between UpsertBeacon and ensureLink. */
  datatype Callback = Callback(key: string, addr: string)

  datatype State = State(
    peers: Peers,
    links: map<string, nat>,
    loops: map<nat, Loop>,
    callbacks: map<nat, Callback>)

  datatype Action =
    | BeaconUpsert(callback: nat, id: string, name: string, addr: string, now: int)
    | BeaconEnsure(callback: nat, spare: nat)
    | SeedEnsure(addr: string, spare: nat)
    | Expire(now: int, ttl: int)
    | Learn(addr: string, id: string, name: string, now: int)
    | Reconfigure(after: Peers, seen: set<string>)
    | Move(loop: nat, spare: nat)

  predicate Active(pc: Point) {
    pc in {LookKey, LookAddr, Linking, SawNothing}
  }

  /** ensureLink: start a loop for the key, or only refresh the address of the one it has. */
  function EnsureLink(s: State, key: string, addr: string, spare: nat): State
    requires key in s.links ==> s.links[key] in s.loops
  {
    if key in s.links then
      var id := s.links[key];
      if addr == "" then s else s.(loops := s.loops[id := s.loops[id].(addr := addr)])
    else
      s.(links := s.links[key := spare], loops := s.loops[spare := Loop(key, addr, LookKey)])
  }

  predicate KeyResolves(s: State, l: Loop) {
    l.key in s.peers && s.peers[l.key].addr != ""
  }

  ghost predicate AddrResolves(s: State, l: Loop) {
    l.addr != "" && (HasAddr(s.peers, l.addr) || IsSeedKey(l.key))
  }

  ghost predicate Enabled(s: State, a: Action) {
    match a
    case BeaconUpsert(c, _, _, addr, _) => c !in s.callbacks && addr != ""
    case BeaconEnsure(c, spare) => c in s.callbacks && spare !in s.loops
    case SeedEnsure(_, spare) => spare !in s.loops
    case Expire(_, _) => true
    case Learn(addr, _, _, _) => addr != ""
    case Reconfigure(after, seen) => StaticIs(s.peers, after, seen) && "" !in seen
    case Move(l, spare) => l in s.loops && spare !in s.loops && s.loops[l].pc != Gone
  }

  ghost function Apply(s: State, a: Action): State
    requires Enabled(s, a) && EntriesAreLoops(s)
  {
    match a
    case BeaconUpsert(c, id, name, addr, now) =>
      s.(peers := Upsert(s.peers, id, name, addr, now), callbacks := s.callbacks[c := Callback(id, addr)])
    case BeaconEnsure(c, spare) =>
      EnsureLink(s, s.callbacks[c].key, s.callbacks[c].addr, spare).(callbacks := s.callbacks - {c})
    case SeedEnsure(addr, spare) => EnsureLink(s, SeedKey(addr), addr, spare)
    case Expire(now, ttl) =>
      s.(peers := map k | k in s.peers && !IsStale(s.peers[k], now, ttl) :: s.peers[k])
    case Learn(addr, id, name, now) => s.(peers := Learned(s.peers, addr, id, name, now))
    case Reconfigure(after, _) => s.(peers := after)
    case Move(l, spare) => MoveLoop(s, l, spare)
  }

  ghost function MoveLoop(s: State, id: nat, spare: nat): State
    requires id in s.loops && EntriesAreLoops(s)
  {
    var l := s.loops[id];
    match l.pc
    case LookKey => At(s, id, if KeyResolves(s, l) then Linking else LookAddr)
    case LookAddr => At(s, id, if AddrResolves(s, l) then Linking else SawNothing)
    case Linking => At(s, id, LookKey)
    case SawNothing =>
      var t := if l.key in s.links && s.links[l.key] == id then s.(links := s.links - {l.key}) else s;
      At(t, id, ReLookKey)
    case ReLookKey => At(s, id, if KeyResolves(s, l) then Restarting else ReLookAddr)
    case ReLookAddr => At(s, id, if AddrResolves(s, l) then Restarting else Gone)
    case Restarting => At(EnsureLink(s, l.key, "", spare), id, Gone)
    case Gone => s
  }

  function At(s: State, id: nat, pc: Point): State
    requires id in s.loops
  {
    s.(loops := s.loops[id := s.loops[id].(pc := pc)])
  }

  predicate EntriesAreLoops(s: State) {
    forall k :: k in s.links ==> s.links[k] in s.loops
  }

  /**
   Entries and loops agree: an entry names an active loop of its key, and an active loop is the
   one its key's entry names, so no key ever has two.
   */
  ghost predicate Inv(s: State) {
    && EntriesAreLoops(s)
    && (forall k :: k in s.links ==> s.loops[s.links[k]].key == k && Active(s.loops[s.links[k]].pc))
    && (forall id :: id in s.loops && Active(s.loops[id].pc) ==> Owns(s, id))
    && (forall k :: k in s.peers ==> s.peers[k].addr != "")
  }

  predicate Owns(s: State, id: nat)
    requires id in s.loops
  {
    s.loops[id].key in s.links && s.links[s.loops[id].key] == id
  }

  ghost predicate IsRun(run: seq<State>, acts: seq<Action>) {
    && |run| == |acts| + 1
    && run[0] == State(map[], map[], map[], map[])
    && forall i :: 0 <= i < |acts| ==> Next(run[i], acts[i], run[i + 1])
  }

  ghost predicate Next(s: State, a: Action, t: State) {
    EntriesAreLoops(s) && Enabled(s, a) && t == Apply(s, a)
  }

  lemma EnsureKeepsInv(s: State, key: string, addr: string, spare: nat)
    requires Inv(s) && spare !in s.loops
    ensures Inv(EnsureLink(s, key, addr, spare))
  {
  }

  lemma RestartKeepsInv(s: State, id: nat, spare: nat)
    requires Inv(s) && id in s.loops && spare !in s.loops && s.loops[id].pc == Restarting
    ensures Inv(MoveLoop(s, id, spare))
  {
    var key, t := s.loops[id].key, MoveLoop(s, id, spare);
    EnsureKeepsInv(s, key, "", spare);
    var u := EnsureLink(s, key, "", spare);
    assert t == At(u, id, Gone) && u.loops[id].pc == Restarting;
    forall j | j in t.loops && Active(t.loops[j].pc) ensures Owns(t, j) {
      assert Owns(u, j);
    }
  }

  lemma MoveKeepsInv(s: State, id: nat, spare: nat)
    requires Inv(s) && id in s.loops && spare !in s.loops && s.loops[id].pc != Gone
    ensures Inv(MoveLoop(s, id, spare))
  {
    if s.loops[id].pc == Restarting {
      RestartKeepsInv(s, id, spare);
    } else {
      var t := MoveLoop(s, id, spare);
      forall j | j in t.loops && Active(t.loops[j].pc) ensures Owns(t, j) {
        assert Owns(s, j);
      }
    }
  }

  lemma RegistryKeepsAddrs(s: State, a: Action)
    requires Inv(s) && Enabled(s, a) && !a.Move? && !a.BeaconEnsure? && !a.SeedEnsure?
    ensures forall k :: k in Apply(s, a).peers ==> Apply(s, a).peers[k].addr != ""
  {
  }

  lemma StepKeepsInv(s: State, a: Action)
    requires Inv(s) && Enabled(s, a)
    ensures Inv(Apply(s, a))
  {
    match a
    case BeaconEnsure(c, spare) =>
      var cb := s.callbacks[c];
      EnsureKeepsInv(s, cb.key, cb.addr, spare);
      var u := EnsureLink(s, cb.key, cb.addr, spare);
      var t := Apply(s, a);
      forall j | j in t.loops && Active(t.loops[j].pc) ensures Owns(t, j) {
        assert Owns(u, j);
      }
    case SeedEnsure(addr, spare) => EnsureKeepsInv(s, SeedKey(addr), addr, spare);
    case Move(l, spare) => MoveKeepsInv(s, l, spare);
    case _ =>
      RegistryKeepsAddrs(s, a);
      var t := Apply(s, a);
      forall j | j in t.loops && Active(t.loops[j].pc) ensures Owns(t, j) {
        assert Owns(s, j);
      }
  }

  lemma {:induction false} InvAlways(run: seq<State>, acts: seq<Action>, n: nat)
    requires IsRun(run, acts) && n < |run|
    ensures Inv(run[n])
  {
    if n > 0 {
      InvAlways(run, acts, n - 1);
      assert Next(run[n - 1], acts[n - 1], run[n]);
      StepKeepsInv(run[n - 1], acts[n - 1]);
    }
  }

  /** Never two active loops for one key, in any interleaving. */
  lemma AtMostOneLoopPerKey(run: seq<State>, acts: seq<Action>, n: nat, i: nat, j: nat)
    requires IsRun(run, acts) && n < |run|
    requires i in run[n].loops && j in run[n].loops
    requires Active(run[n].loops[i].pc) && Active(run[n].loops[j].pc)
    requires run[n].loops[i].key == run[n].loops[j].key
    ensures i == j
  {
    InvAlways(run, acts, n);
    assert Owns(run[n], i) && Owns(run[n], j);
  }

  // ---------------------------------------------------------------- no lost peer

  /** An exiting loop of this key that removed its entry and has not re-checked, or will restart. */
  predicate WillRestart(s: State, id: nat, key: string) {
    id in s.loops && s.loops[id].key == key && s.loops[id].pc in {ReLookKey, Restarting}
  }

  ghost predicate Served(s: State, key: string) {
    key in s.links || exists id :: WillRestart(s, id, key)
  }

  lemma StepKeepsServed(s: State, a: Action, key: string)
    requires Inv(s) && Enabled(s, a)
    requires key in s.peers && Served(s, key)
    ensures Served(Apply(s, a), key)
  {
    var t := Apply(s, a);
    if key in s.links {
      if a.Move? && s.links[key] == a.loop && s.loops[a.loop].pc == SawNothing {
        assert WillRestart(t, a.loop, key);
      } else if a.Move? && s.loops[a.loop].pc == SawNothing {
        assert Owns(s, a.loop);
      }
    } else {
      var id :| WillRestart(s, id, key);
      if a.Move? && a.loop == id {
        if s.loops[id].pc == ReLookKey {
          assert WillRestart(t, id, key);
        } else {
          assert key in t.links;
        }
      } else if key !in t.links {
        assert WillRestart(t, id, key);
      }
    }
  }

  lemma {:induction false} StaysServed(run: seq<State>, acts: seq<Action>, key: string, i: nat, n: nat)
    requires IsRun(run, acts) && i <= n < |run|
    requires Served(run[i], key)
    requires forall m :: i <= m < n ==> key in run[m].peers
    ensures Served(run[n], key)
  {
    if i < n {
      StaysServed(run, acts, key, i, n - 1);
      InvAlways(run, acts, n - 1);
      assert Next(run[n - 1], acts[n - 1], run[n]);
      StepKeepsServed(run[n - 1], acts[n - 1], key);
    }
  }

  /**
   No lost peer.  A beacon callback for this key finished at step i and the key stayed registered
   since: at n the key has an active loop under its entry, or a loop of the key that removed its
   entry is still before its re-check or already past it with an address in hand.
   */
  lemma NoLostPeer(run: seq<State>, acts: seq<Action>, key: string, i: nat, n: nat)
    requires IsRun(run, acts) && i < n < |run|
    requires acts[i].BeaconEnsure? && acts[i].callback in run[i].callbacks
    requires run[i].callbacks[acts[i].callback].key == key
    requires forall m :: i < m <= n ==> key in run[m].peers
    ensures key in run[n].links || exists id :: WillRestart(run[n], id, key)
    ensures key in run[n].links ==>
              var id := run[n].links[key];
              id in run[n].loops && run[n].loops[id].key == key && Active(run[n].loops[id].pc)
  {
    InvAlways(run, acts, i);
    InvAlways(run, acts, n);
    assert Next(run[i], acts[i], run[i + 1]);
    assert key in run[i + 1].links;
    StaysServed(run, acts, key, i + 1, n);
  }

  /** Two steps of its own bring such an exiting loop back to an active loop for the key. */
  lemma ExitingLoopRestarts(s: State, id: nat, key: string, f: nat, g: nat)
    requires Inv(s) && WillRestart(s, id, key) && key in s.peers
    requires f !in s.loops && g !in s.loops
    ensures var t := MoveLoop(s, id, f);
            var u := if s.loops[id].pc == Restarting then t else MoveLoop(t, id, g);
            Inv(u) && key in u.links
  {
    MoveKeepsInv(s, id, f);
    if s.loops[id].pc != Restarting {
      MoveKeepsInv(MoveLoop(s, id, f), id, g);
    }
  }

  /**
   The entry removed by an exiting loop is always its own: without stopLink (shutdown) the
   comparison of the stored loop with itself never fails.
   */
  lemma RemovesOnlyItsOwn(run: seq<State>, acts: seq<Action>, n: nat, id: nat)
    requires IsRun(run, acts) && n < |run|
    requires id in run[n].loops && run[n].loops[id].pc == SawNothing
    ensures Owns(run[n], id)
  {
    InvAlways(run, acts, n);
  }

  // ---------------------------------------------------------------- what a loop goes by

  /** What resolvedAddr looks for: an address under the key, or a dialled address that is still somebody's. */
  ghost predicate IsReachable(peers: Peers, key: string, addr: string) {
    || (key in peers && peers[key].addr != "")
    || (addr != "" && (IsSeedKey(key) || exists k :: k in peers && peers[k].addr == addr))
  }

  /** A round of a loop: it goes on linking exactly if its peer is reachable, else it is on its way out. */
  lemma LinksIffReachable(s: State, id: nat, f: nat, g: nat)
    requires Inv(s) && id in s.loops && s.loops[id].pc == LookKey
    ensures var t := MoveLoop(s, id, f);
            var u := if t.loops[id].pc == LookAddr then MoveLoop(t, id, g) else t;
            && u == At(s, id, u.loops[id].pc)
            && u.loops[id].pc == if IsReachable(s.peers, s.loops[id].key, s.loops[id].addr) then Linking else SawNothing
  {
    var t := MoveLoop(s, id, f);
    assert t.peers == s.peers && t.loops[id] == s.loops[id].(pc := t.loops[id].pc);
  }

  /** The re-check of a loop that removed its entry: it restarts exactly if its peer is reachable after all. */
  lemma RestartsIffReachable(s: State, id: nat, f: nat, g: nat)
    requires Inv(s) && id in s.loops && s.loops[id].pc == ReLookKey
    ensures var t := MoveLoop(s, id, f);
            var u := if t.loops[id].pc == ReLookAddr then MoveLoop(t, id, g) else t;
            && u == At(s, id, u.loops[id].pc)
            && u.loops[id].pc == if IsReachable(s.peers, s.loops[id].key, s.loops[id].addr) then Restarting else Gone
  {
    var t := MoveLoop(s, id, f);
    assert t.peers == s.peers && t.loops[id] == s.loops[id].(pc := t.loops[id].pc);
  }

  /** A beacon brings its address to the loop of its key, or starts one that has it. */
  lemma BeaconReachesTheLoop(s: State, c: nat, spare: nat)
    requires Inv(s) && Enabled(s, BeaconEnsure(c, spare))
    ensures var cb, t := s.callbacks[c], Apply(s, BeaconEnsure(c, spare));
            && c !in t.callbacks && t.callbacks == s.callbacks - {c}
            && cb.key in t.links && t.links[cb.key] in t.loops
            && (cb.key !in s.links ==> t.loops[t.links[cb.key]] == Loop(cb.key, cb.addr, LookKey))
            && (cb.key in s.links && cb.addr != "" ==>
                  && t.links == s.links
                  && t.loops[s.links[cb.key]] == s.loops[s.links[cb.key]].(addr := cb.addr))
            && (forall id :: id in s.loops && (cb.key in s.links ==> id != s.links[cb.key]) ==>
                  id in t.loops && t.loops[id] == s.loops[id])
  {
  }

  /** A callback carries what its beacon said, and its peer was registered with it. */
  lemma BeaconRegisters(s: State, c: nat, id: string, name: string, addr: string, now: int)
    requires Inv(s) && Enabled(s, BeaconUpsert(c, id, name, addr, now))
    ensures var t := Apply(s, BeaconUpsert(c, id, name, addr, now));
            && c in t.callbacks && t.callbacks[c] == Callback(id, addr)
            && IsReachable(t.peers, id, addr)
            && t.links == s.links && t.loops == s.loops
  {
  }

  /** What happens to the registry here is what Registry's histories are made of; loops leave it alone. */
  lemma RegistryActionsAreUpdates(s: State, a: Action)
    requires Inv(s) && Enabled(s, a)
    ensures var t := Apply(s, a).peers;
            match a
            case BeaconUpsert(_, id, name, addr, now) =>
              id != "" ==> Registry.Next(s.peers, Beacon(id, name, addr, now), t)
            case Learn(addr, id, name, now) => id != "" ==> Registry.Next(s.peers, Handshake(addr, id, name, now), t)
            case Expire(now, ttl) => Registry.Next(s.peers, Expiry(now, ttl), t)
            case Reconfigure(_, seen) => Registry.Next(s.peers, Reconfigured(seen), t)
            case _ => t == s.peers
  {
  }

  predicate IsLinking(pc: Point) {
    pc == LookKey || pc == Linking
  }

  lemma EnsureSparesLoops(s: State, key: string, addr: string, spare: nat, id: nat)
    requires EntriesAreLoops(s) && id in s.loops && spare !in s.loops
    ensures var u := EnsureLink(s, key, addr, spare);
            && id in u.loops && u.loops[id].key == s.loops[id].key && u.loops[id].pc == s.loops[id].pc
            && (u.loops[id].addr == s.loops[id].addr || u.loops[id].addr != "")
  {
  }

  lemma MoveStep(s: State, l: nat, spare: nat, id: nat)
    requires EntriesAreLoops(s) && l in s.loops && spare !in s.loops && id in s.loops
    ensures var t := MoveLoop(s, l, spare);
            && id in t.loops && t.loops[id].key == s.loops[id].key
            && (t.loops[id].addr == s.loops[id].addr || t.loops[id].addr != "")
            && (l != id ==> t.loops[id].pc == s.loops[id].pc)
  {
    if s.loops[l].pc == Restarting {
      EnsureSparesLoops(s, s.loops[l].key, "", spare, id);
    }
  }

  /** What one action does to one loop. */
  lemma LoopStep(s: State, a: Action, t: State, id: nat)
    requires Inv(s) && Next(s, a, t) && id in s.loops
    ensures id in t.loops && t.loops[id].key == s.loops[id].key
    ensures t.loops[id].addr == s.loops[id].addr || t.loops[id].addr != ""
    ensures t.loops[id].pc == if a.Move? && a.loop == id then MoveLoop(s, id, a.spare).loops[id].pc else s.loops[id].pc
  {
    match a
    case BeaconEnsure(c, spare) => EnsureSparesLoops(s, s.callbacks[c].key, s.callbacks[c].addr, spare, id);
    case SeedEnsure(addr, spare) => EnsureSparesLoops(s, SeedKey(addr), addr, spare, id);
    case Move(l, spare) => MoveStep(s, l, spare, id);
    case _ =>
  }

  lemma LinkingStep(s: State, a: Action, t: State, id: nat)
    requires Inv(s) && Next(s, a, t) && id in s.loops && IsLinking(s.loops[id].pc) && s.loops[id].key in s.peers
    ensures id in t.loops && t.loops[id].key == s.loops[id].key && IsLinking(t.loops[id].pc)
  {
    LoopStep(s, a, t, id);
  }

  lemma SeekingStep(s: State, a: Action, t: State, id: nat)
    requires Inv(s) && Next(s, a, t) && id in s.loops && IsSeeking(s.loops[id])
    ensures id in t.loops && t.loops[id].key == s.loops[id].key && IsSeeking(t.loops[id])
  {
    LoopStep(s, a, t, id);
  }

  /** As long as its key is registered a linking loop keeps linking, whatever goes on beside it. */
  lemma {:induction false} RegisteredLoopStays(run: seq<State>, acts: seq<Action>, i: nat, n: nat, id: nat)
    requires IsRun(run, acts) && i <= n < |run| && id in run[i].loops && IsLinking(run[i].loops[id].pc)
    requires forall m :: i <= m < n ==> run[i].loops[id].key in run[m].peers
    ensures id in run[n].loops && run[n].loops[id].key == run[i].loops[id].key && IsLinking(run[n].loops[id].pc)
  {
    if i < n {
      RegisteredLoopStays(run, acts, i, n - 1, id);
      InvAlways(run, acts, n - 1);
      LinkingStep(run[n - 1], acts[n - 1], run[n], id);
    }
  }

  predicate IsSeeking(l: Loop) {
    IsSeedKey(l.key) && l.addr != "" && (IsLinking(l.pc) || l.pc == LookAddr)
  }

  /** The loop of a configured seed that knows its address never gives up, registered or not. */
  lemma {:induction false} SeedLoopStays(run: seq<State>, acts: seq<Action>, i: nat, n: nat, id: nat)
    requires IsRun(run, acts) && i <= n < |run| && id in run[i].loops && IsSeeking(run[i].loops[id])
    ensures id in run[n].loops && run[n].loops[id].key == run[i].loops[id].key && IsSeeking(run[n].loops[id])
  {
    if i < n {
      SeedLoopStays(run, acts, i, n - 1, id);
      InvAlways(run, acts, n - 1);
      SeekingStep(run[n - 1], acts[n - 1], run[n], id);
    }
  }
}
