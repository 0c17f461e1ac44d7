/**
 The second door of a mesh node: every operation frame of a connection passes an approval check of
 its own, and revoking a peer closes the connections that already passed one.

 serveConn goroutines, revocations, approvals and knocks interleave; each lock-protected section is
 one action.
 */
module Gate {
  import opened PairStore

  /** What a download token stands for when it is presented. */
  datatype Grant = Live | Expired | Unknown

  /** `dump` marks a board dump without a path of its own, whose product goes to a share directory. */
  datatype Frame =
    | Ping | Pair(id: string)
    | Req(cmd: string, dump: bool) | BadReq | Upload | Download(grant: Grant) | Tail | Dial

  predicate NeedsGate(f: Frame) {
    !f.Ping? && !f.Pair?
  }

  /** Where the goroutine of a connection stands in serveConn. */
  datatype Point =
    | Shaken                 // handshake done
    | Announced              // Knock done, not yet tracked
    | Waiting                // in Recv
    | Received(frame: Frame) // about to look at the frame
    | Admitted(frame: Frame) // the check passed; the handler runs until Dispatch ends it
    | Leaving                // returning: deferred untrack and close ahead
    | Gone

  datatype Conn = Conn(peer: string, at: Point, closed: bool)

  datatype Revoker = Decided(id: string) | Closing(id: string, left: set<nat>)

  /** What a handler did on behalf of a peer; a sweep is the cleanup of the upload sessions a flash names. */
  datatype Effect =
    | Forwarded(cmd: string) | TurnedDown | Stored | Sent | Followed | Tunnelled
    | MadeShare | RemovedShare | GaveToken | SweptUploads

  /**
   What a handler meets: can a directory be made, is there a product, does it open, and are names,
   account and tail slot such that an allowed upload, tail or tunnel is taken.
   */
  datatype Env = Env(mkdir: bool, product: bool, opens: bool, takes: bool)

  /** The decisions of the pairing table; knocks that wait for one do not matter at the door. */
  datatype Decisions = Decisions(approved: set<string>, revoked: set<string>)

  function OnKnock(d: Decisions, id: string, auto: bool): Decisions {
    if id in d.approved || id in d.revoked || !auto then d else d.(approved := d.approved + {id})
  }

  function OnApprove(d: Decisions, id: string): Decisions {
    Decisions(d.approved + {id}, d.revoked - {id})
  }

  function OnRevoke(d: Decisions, id: string): Decisions {
    Decisions(d.approved - {id}, d.revoked + {id})
  }

  function DecisionsOf(t: Table): Decisions {
    Decisions(t.approved.Keys, t.revoked.Keys)
  }

  /** These are the decisions PairStore takes: its operations map onto them one by one. */
  lemma KnockDecides(t: Table, id: string, name: string, addr: string, now: int, auto: bool)
    ensures DecisionsOf(Knocked(t, id, name, addr, now, auto)) == OnKnock(DecisionsOf(t), id, auto)
  {
  }

  lemma ApproveDecides(t: Table, id: string, now: int)
    ensures DecisionsOf(Approved(t, id, now)) == OnApprove(DecisionsOf(t), id)
  {
  }

  lemma RevokeDecides(t: Table, id: string, now: int)
    requires Consistent(t) && CanRevoke(t, id)
    ensures id !in t.revoked && DecisionsOf(Revoked(t, id, now)) == OnRevoke(DecisionsOf(t), id)
  {
  }

  datatype State = State(
    readOnly: bool, auto: bool,
    pairs: Decisions, conns: map<nat, Conn>, tracked: set<(string, nat)>,
    revokers: map<nat, Revoker>, effects: seq<Effect>)

  datatype Action =
    | Accept(conn: nat, peer: string)
    | Knock(conn: nat)
    | Track(conn: nat)
    | Recv(conn: nat, frame: Frame)
    | RecvFails(conn: nat)
    | Check(conn: nat)
    | Serve(conn: nat, sent: bool)
    | Dispatch(conn: nat, sent: bool, env: Env)
    | Untrack(conn: nat)
    | ApprovePeer(id: string)
    | RevokePeer(revoker: nat, id: string)
    | Snapshot(revoker: nat)
    | CloseConn(revoker: nat, conn: nat)
    | RevokeReturns(revoker: nat)

  predicate At(s: State, c: nat, p: Point) {
    c in s.conns && s.conns[c].at == p
  }

  predicate Enabled(s: State, a: Action) {
    match a
    case Accept(c, peer) => c !in s.conns && peer != ""
    case Knock(c) => At(s, c, Shaken)
    case Track(c) => At(s, c, Announced)
    case Recv(c, _) => At(s, c, Waiting) && !s.conns[c].closed
    case RecvFails(c) => At(s, c, Waiting)
    case Check(c) => c in s.conns && s.conns[c].at.Received? && NeedsGate(s.conns[c].at.frame)
    case Serve(c, _) => c in s.conns && s.conns[c].at.Received? && !NeedsGate(s.conns[c].at.frame)
    case Dispatch(c, _, _) => c in s.conns && s.conns[c].at.Admitted? && NeedsGate(s.conns[c].at.frame)
    case Untrack(c) => At(s, c, Leaving)
    case ApprovePeer(id) => id != ""
    case RevokePeer(r, id) => r !in s.revokers && id !in s.pairs.revoked
    case Snapshot(r) => r in s.revokers && s.revokers[r].Decided?
    case CloseConn(r, c) => r in s.revokers && s.revokers[r].Closing? && c in s.revokers[r].left && c in s.conns
    case RevokeReturns(r) => r in s.revokers && s.revokers[r].Closing? && s.revokers[r].left == {}
  }

  function Move(s: State, c: nat, p: Point): State
    requires c in s.conns
  {
    s.(conns := s.conns[c := s.conns[c].(at := p)])
  }

  predicate IsReadCmd(cmd: string) {
    cmd == "status" || cmd == "facts"
  }

  predicate IsDump(f: Frame) {
    f.Req? && f.cmd == "board" && f.dump
  }

  /**
   handleReq in its order: the share directory of a dump is made before the read-only check, the
   sweep of a flash is deferred and happens whatever the check says.
   */
  function HandledReq(readOnly: bool, f: Frame, env: Env): seq<Effect>
    requires f.Req?
  {
    if IsDump(f) && !env.mkdir then [TurnedDown]
    else
      (if IsDump(f) then [MadeShare] else [])
      + (if readOnly && !IsReadCmd(f.cmd) then [TurnedDown]
         else [Forwarded(f.cmd)] + if !IsDump(f) then [] else if env.product then [GaveToken] else [RemovedShare])
      + (if f.cmd == "flash" then [SweptUploads] else [])
  }

  /** Everything one frame behind the gate makes this node do. */
  function Handled(readOnly: bool, f: Frame, env: Env): seq<Effect>
    requires NeedsGate(f)
  {
    match f
    case Req(_, _) => HandledReq(readOnly, f, env)
    case BadReq => [TurnedDown]
    case Upload => [if readOnly || !env.takes then TurnedDown else Stored]
    case Download(grant) =>
      if grant.Unknown? then [TurnedDown]
      else [RemovedShare, if grant.Live? && env.opens then Sent else TurnedDown]
    case Tail => [if env.takes then Followed else TurnedDown]
    case Dial => [if readOnly || !env.takes then TurnedDown else Tunnelled]
    case _ => assert false; []
  }

  function Apply(s: State, a: Action): State
    requires Enabled(s, a)
  {
    match a
    case Accept(c, peer) => s.(conns := s.conns[c := Conn(peer, Shaken, false)])
    case Knock(c) => Move(s, c, Announced).(pairs := OnKnock(s.pairs, s.conns[c].peer, s.auto))
    case Track(c) => Move(s, c, Waiting).(tracked := s.tracked + {(s.conns[c].peer, c)})
    case Recv(c, f) => Move(s, c, Received(f))
    case RecvFails(c) => Move(s, c, Leaving)
    case Check(c) =>
      Move(s, c, if s.conns[c].peer in s.pairs.approved then Admitted(s.conns[c].at.frame) else Leaving)
    case Serve(c, sent) =>
      var f := s.conns[c].at.frame;
      var t := Move(s, c, if sent then Waiting else Leaving);
      if f.Pair? && f.id != "" then t.(pairs := OnKnock(s.pairs, f.id, s.auto)) else t
    case Dispatch(c, sent, env) =>
      var f := s.conns[c].at.frame;
      Move(s, c, if sent && !f.Dial? then Waiting else Leaving).(effects := s.effects + Handled(s.readOnly, f, env))
    case Untrack(c) =>
      s.(tracked := s.tracked - {(s.conns[c].peer, c)}, conns := s.conns[c := s.conns[c].(at := Gone, closed := true)])
    case ApprovePeer(id) => s.(pairs := OnApprove(s.pairs, id))
    case RevokePeer(r, id) =>
      s.(pairs := OnRevoke(s.pairs, id), revokers := s.revokers[r := Decided(id)])
    case Snapshot(r) =>
      var id := s.revokers[r].id;
      s.(revokers := s.revokers[r := Closing(id, set p | p in s.tracked && p.0 == id :: p.1)])
    case CloseConn(r, c) =>
      s.(conns := s.conns[c := s.conns[c].(closed := true)],
         revokers := s.revokers[r := s.revokers[r].(left := s.revokers[r].left - {c})])
    case RevokeReturns(r) => s.(revokers := s.revokers - {r})
  }

  ghost predicate IsRun(run: seq<State>, acts: seq<Action>) {
    && |run| == |acts| + 1
    && run[0].pairs == Decisions({}, {}) && run[0].conns == map[] && run[0].tracked == {} && run[0].revokers == map[]
    && run[0].effects == []
    && forall i :: 0 <= i < |acts| ==> Enabled(run[i], acts[i]) && run[i + 1] == Apply(run[i], acts[i])
  }

  /** Between Track and the return: the part of serveConn in which frames are handled. */
  predicate InLoop(p: Point) {
    p.Waiting? || p.Received? || p.Admitted?
  }

  /** Closed, or its goroutine is on the way out. */
  predicate IsOver(s: State, c: nat) {
    c in s.conns && (s.conns[c].closed || s.conns[c].at.Leaving? || s.conns[c].at.Gone?)
  }

  // ---------------------------------------------------------------- invariants

  predicate DecisionsDisjoint(s: State) {
    s.pairs.approved !! s.pairs.revoked
  }

  /** Whoever handles frames is tracked under its peer, and only connections are tracked. */
  predicate LoopsTracked(s: State) {
    && (forall c :: c in s.conns && InLoop(s.conns[c].at) ==> (s.conns[c].peer, c) in s.tracked)
    && (forall p :: p in s.tracked ==> p.1 in s.conns)
  }

  /** Only frames that need the gate are admitted by it. */
  predicate AdmittedAreGated(s: State) {
    forall c :: c in s.conns && s.conns[c].at.Admitted? ==> NeedsGate(s.conns[c].at.frame)
  }

  /** Only connections in the loop or on the way out are tracked, each under its peer; who is gone is closed. */
  predicate TrackedAreServed(s: State) {
    && (forall p :: p in s.tracked ==>
          && p.1 in s.conns && s.conns[p.1].peer == p.0
          && (InLoop(s.conns[p.1].at) || s.conns[p.1].at.Leaving?))
    && (forall c :: c in s.conns && s.conns[c].at.Gone? ==> s.conns[c].closed)
  }

  /** A revocation under way closes connections of its peer. */
  predicate RevokersKnow(s: State) {
    forall r, c :: r in s.revokers && s.revokers[r].Closing? && c in s.revokers[r].left ==>
      c in s.conns && s.conns[c].peer == s.revokers[r].id
  }

  predicate Inv(s: State) {
    DecisionsDisjoint(s) && LoopsTracked(s) && AdmittedAreGated(s) && TrackedAreServed(s) && RevokersKnow(s)
  }

  lemma StepKeepsServed(s: State, a: Action)
    requires TrackedAreServed(s) && Enabled(s, a)
    ensures TrackedAreServed(Apply(s, a))
  {
    var t := Apply(s, a);
    forall p | p in t.tracked
      ensures p.1 in t.conns && t.conns[p.1].peer == p.0 && (InLoop(t.conns[p.1].at) || t.conns[p.1].at.Leaving?)
    {
      assert p in s.tracked || a == Track(p.1);
    }
  }

  lemma StepKeepsKnown(s: State, a: Action)
    requires TrackedAreServed(s) && RevokersKnow(s) && Enabled(s, a)
    ensures RevokersKnow(Apply(s, a))
  {
    var t := Apply(s, a);
    forall r, c | r in t.revokers && t.revokers[r].Closing? && c in t.revokers[r].left
      ensures c in t.conns && t.conns[c].peer == t.revokers[r].id
    {
      if a == Snapshot(r) {
        assert (s.revokers[r].id, c) in s.tracked;
      } else {
        assert r in s.revokers && s.revokers[r].Closing? && c in s.revokers[r].left;
      }
    }
  }

  lemma StepKeepsGated(s: State, a: Action)
    requires AdmittedAreGated(s) && Enabled(s, a)
    ensures AdmittedAreGated(Apply(s, a))
  {
    var t := Apply(s, a);
    forall c | c in t.conns && t.conns[c].at.Admitted? ensures NeedsGate(t.conns[c].at.frame) {
      assert c in s.conns && (s.conns[c].at == t.conns[c].at || a == Check(c));
    }
  }

  lemma StepKeepsDisjoint(s: State, a: Action)
    requires DecisionsDisjoint(s) && Enabled(s, a)
    ensures DecisionsDisjoint(Apply(s, a))
  {
  }

  lemma StepKeepsTracked(s: State, a: Action)
    requires LoopsTracked(s) && Enabled(s, a)
    ensures LoopsTracked(Apply(s, a))
  {
    var t := Apply(s, a);
    forall c | c in t.conns && InLoop(t.conns[c].at) ensures (t.conns[c].peer, c) in t.tracked {
      assert c in s.conns && t.conns[c].peer == s.conns[c].peer;
      assert InLoop(s.conns[c].at) || a == Track(c);
    }
    assert s.conns.Keys <= t.conns.Keys;
  }

  lemma {:induction false} InvAlways(run: seq<State>, acts: seq<Action>, n: nat)
    requires IsRun(run, acts) && n < |run|
    ensures Inv(run[n])
  {
    if n > 0 {
      InvAlways(run, acts, n - 1);
      StepKeepsDisjoint(run[n - 1], acts[n - 1]);
      StepKeepsTracked(run[n - 1], acts[n - 1]);
      StepKeepsGated(run[n - 1], acts[n - 1]);
      StepKeepsServed(run[n - 1], acts[n - 1]);
      StepKeepsKnown(run[n - 1], acts[n - 1]);
    }
  }

  // ---------------------------------------------------------------- every operation has its own check

  predicate Concerns(a: Action, c: nat) {
    match a
    case Accept(d, _) => c == d
    case Knock(d) => c == d
    case Track(d) => c == d
    case Recv(d, _) => c == d
    case RecvFails(d) => c == d
    case Check(d) => c == d
    case Serve(d, _) => c == d
    case Dispatch(d, _, _) => c == d
    case Untrack(d) => c == d
    case _ => false
  }

  predicate Passes(s: State, a: Action, c: nat) {
    a == Check(c) && Enabled(s, a) && s.conns[c].peer in s.pairs.approved
  }

  /**
   An admitted frame was checked: the last thing its connection did was to pass the gate with this
   very frame, at a moment when the peer was approved.
   */
  lemma {:induction false} AdmittedWasChecked(run: seq<State>, acts: seq<Action>, n: nat, c: nat) returns (g: nat)
    requires IsRun(run, acts) && n < |run|
    requires c in run[n].conns && run[n].conns[c].at.Admitted?
    ensures g < n && Passes(run[g], acts[g], c) && run[g].conns[c].at == Received(run[n].conns[c].at.frame)
    ensures forall j :: g < j < n ==> !Concerns(acts[j], c)
  {
    AdmittedStep(run[n - 1], acts[n - 1], c);
    if acts[n - 1] == Check(c) {
      g := n - 1;
    } else {
      g := AdmittedWasChecked(run, acts, n - 1, c);
    }
  }

  lemma AdmittedStep(s: State, a: Action, c: nat)
    requires Enabled(s, a) && c in Apply(s, a).conns && Apply(s, a).conns[c].at.Admitted?
    ensures var f := Apply(s, a).conns[c].at.frame;
            if a == Check(c) then Passes(s, a, c) && s.conns[c].at == Received(f)
            else !Concerns(a, c) && c in s.conns && s.conns[c].at == Admitted(f)
  {
  }

  /** Each dispatched operation frame had a passed check that no other dispatch can claim. */
  lemma DispatchesHaveOwnChecks(run: seq<State>, acts: seq<Action>, m: nat, n: nat, c: nat) returns (g: nat, h: nat)
    requires IsRun(run, acts) && m < n < |acts|
    requires acts[m].Dispatch? && acts[m].conn == c && acts[n].Dispatch? && acts[n].conn == c
    ensures g < m < h < n && Passes(run[g], acts[g], c) && Passes(run[h], acts[h], c)
  {
    g := AdmittedWasChecked(run, acts, m, c);
    h := AdmittedWasChecked(run, acts, n, c);
    assert Concerns(acts[m], c) && acts[m] != Check(c);
  }

  // ---------------------------------------------------------------- what a peer can bring about

  /** Step i dispatched a frame, and the frame brought e about. */
  predicate BroughtAbout(s: State, a: Action, e: Effect) {
    a.Dispatch? && Enabled(s, a) && e in Handled(s.readOnly, s.conns[a.conn].at.frame, a.env)
  }

  lemma EffectsStep(s: State, a: Action, e: Effect)
    requires Enabled(s, a)
    ensures e in Apply(s, a).effects <==> e in s.effects || BroughtAbout(s, a, e)
  {
  }

  lemma {:induction false} EffectsAreDispatched(run: seq<State>, acts: seq<Action>, n: nat, e: Effect)
    requires IsRun(run, acts) && n < |run|
    ensures e in run[n].effects <==> exists i :: 0 <= i < n && BroughtAbout(run[i], acts[i], e)
  {
    if n > 0 {
      EffectsAreDispatched(run, acts, n - 1, e);
      EffectsStep(run[n - 1], acts[n - 1], e);
    }
  }

  /** Nothing happens on behalf of a peer without a check of its own frame that passed while it was approved. */
  lemma EffectsWereApproved(run: seq<State>, acts: seq<Action>, n: nat, e: Effect) returns (i: nat, g: nat)
    requires IsRun(run, acts) && n < |run| && e in run[n].effects
    ensures g < i < n && BroughtAbout(run[i], acts[i], e)
    ensures Passes(run[g], acts[g], acts[i].conn)
    ensures run[g].conns[acts[i].conn].at == Received(run[i].conns[acts[i].conn].at.frame)
  {
    EffectsAreDispatched(run, acts, n, e);
    i :| i < n && BroughtAbout(run[i], acts[i], e);
    g := AdmittedWasChecked(run, acts, i, acts[i].conn);
  }

  /** The frames that bring an effect about on a read-only node. */
  predicate CausesReadOnly(f: Frame, env: Env, e: Effect) {
    match e
    case Forwarded(cmd) => f.Req? && f.cmd == cmd && (cmd == "status" || cmd == "facts")
    case Sent => f.Download? && f.grant.Live? && env.opens
    case Followed => f.Tail? && env.takes
    case MadeShare => IsDump(f) && env.mkdir
    case RemovedShare => f.Download? && !f.grant.Unknown?
    case SweptUploads => f.Req? && f.cmd == "flash"
    case TurnedDown =>
      || f.BadReq? || f.Upload? || f.Dial?
      || (f.Req? && f.cmd != "status" && f.cmd != "facts")
      || (f.Download? && !(f.grant.Live? && env.opens))
      || (f.Tail? && !env.takes)
    case Stored => false
    case Tunnelled => false
    case GaveToken => false
  }

  /** The frames that bring an effect about on a node with full access. */
  predicate CausesFullAccess(f: Frame, env: Env, e: Effect) {
    match e
    case Forwarded(cmd) => f.Req? && f.cmd == cmd && (IsDump(f) ==> env.mkdir)
    case Stored => f.Upload? && env.takes
    case Tunnelled => f.Dial? && env.takes
    case Followed => f.Tail? && env.takes
    case Sent => f.Download? && f.grant.Live? && env.opens
    case MadeShare => IsDump(f) && env.mkdir
    case GaveToken => IsDump(f) && env.mkdir && env.product
    case RemovedShare => (IsDump(f) && env.mkdir && !env.product) || (f.Download? && !f.grant.Unknown?)
    case SweptUploads => f.Req? && f.cmd == "flash"
    case TurnedDown =>
      || f.BadReq? || (IsDump(f) && !env.mkdir)
      || ((f.Upload? || f.Dial? || f.Tail?) && !env.takes)
      || (f.Download? && !(f.grant.Live? && env.opens))
  }

  predicate Causes(readOnly: bool, f: Frame, env: Env, e: Effect) {
    if readOnly then CausesReadOnly(f, env, e) else CausesFullAccess(f, env, e)
  }

  ghost predicate Caused(s: State, a: Action, e: Effect) {
    && a.Dispatch? && Enabled(s, a)
    && Causes(s.readOnly, s.conns[a.conn].at.frame, a.env, e)
  }

  /** How many of the first n steps brought it about. */
  ghost function CausedCount(run: seq<State>, acts: seq<Action>, n: nat, e: Effect): nat
    requires n <= |acts| < |run|
  {
    if n == 0 then 0
    else CausedCount(run, acts, n - 1, e) + if Caused(run[n - 1], acts[n - 1], e) then 1 else 0
  }

  function Times(effects: seq<Effect>, e: Effect): nat {
    if effects == [] then 0
    else Times(effects[..|effects| - 1], e) + if effects[|effects| - 1] == e then 1 else 0
  }

  lemma {:induction false} TimesAppend(a: seq<Effect>, b: seq<Effect>, e: Effect)
    ensures Times(a + b, e) == Times(a, e) + Times(b, e)
  {
    if b == [] {
      assert a + b == a;
    } else {
      assert (a + b)[..|a + b| - 1] == a + b[..|b| - 1];
      TimesAppend(a, b[..|b| - 1], e);
    }
  }

  lemma {:induction false} InMeansTimes(effects: seq<Effect>, e: Effect)
    ensures e in effects <==> Times(effects, e) > 0
  {
    if effects != [] {
      var front, last := effects[..|effects| - 1], effects[|effects| - 1];
      InMeansTimes(front, e);
      assert effects == front + [last];
    }
  }

  /** What a frame does names each effect once if it causes it, else not at all. */
  predicate IsOnce(effects: seq<Effect>, e: Effect, caused: bool) {
    Times(effects, e) == if caused then 1 else 0
  }

  lemma One(a: Effect, e: Effect)
    ensures IsOnce([a], e, e == a)
  {
  }

  lemma Two(a: Effect, b: Effect, e: Effect)
    requires a != b
    ensures IsOnce([a, b], e, e == a || e == b)
  {
    One(a, e);
    assert [a, b][..1] == [a];
  }

  lemma Three(a: Effect, b: Effect, c: Effect, e: Effect)
    requires a != b && b != c && c != a
    ensures IsOnce([a, b, c], e, e == a || e == b || e == c)
  {
    Two(a, b, e);
    assert [a, b, c][..2] == [a, b];
  }

  lemma DumpOnce(readOnly: bool, f: Frame, env: Env, e: Effect)
    requires IsDump(f)
    ensures IsOnce(HandledReq(readOnly, f, env), e, Causes(readOnly, f, env, e))
  {
    if !env.mkdir {
      One(TurnedDown, e);
      assert HandledReq(readOnly, f, env) == [TurnedDown];
    } else if readOnly {
      Two(MadeShare, TurnedDown, e);
      assert HandledReq(readOnly, f, env) == [MadeShare, TurnedDown];
    } else {
      var product := if env.product then GaveToken else RemovedShare;
      Three(MadeShare, Forwarded(f.cmd), product, e);
      assert HandledReq(readOnly, f, env) == [MadeShare, Forwarded(f.cmd), product];
    }
  }

  function Answer(readOnly: bool, cmd: string): Effect {
    if readOnly && !IsReadCmd(cmd) then TurnedDown else Forwarded(cmd)
  }

  lemma PlainReqCauses(readOnly: bool, f: Frame, env: Env, e: Effect)
    requires f.Req? && !IsDump(f)
    ensures Causes(readOnly, f, env, e) <==> e == Answer(readOnly, f.cmd) || (e.SweptUploads? && f.cmd == "flash")
  {
  }

  lemma PlainReqOnce(readOnly: bool, f: Frame, env: Env, e: Effect)
    requires f.Req? && !IsDump(f)
    ensures IsOnce(HandledReq(readOnly, f, env), e, Causes(readOnly, f, env, e))
  {
    var answer, all := Answer(readOnly, f.cmd), HandledReq(readOnly, f, env);
    assert all == if f.cmd == "flash" then [answer, SweptUploads] else [answer];
    PlainReqCauses(readOnly, f, env, e);
    if f.cmd == "flash" {
      Two(answer, SweptUploads, e);
    } else {
      One(answer, e);
    }
  }

  lemma HandledOnce(readOnly: bool, f: Frame, env: Env, e: Effect)
    requires NeedsGate(f)
    ensures IsOnce(Handled(readOnly, f, env), e, Causes(readOnly, f, env, e))
  {
    if IsDump(f) {
      DumpOnce(readOnly, f, env, e);
    } else if f.Req? {
      PlainReqOnce(readOnly, f, env, e);
    } else if f.Download? && !f.grant.Unknown? {
      Two(RemovedShare, if f.grant.Live? && env.opens then Sent else TurnedDown, e);
    } else {
      One(Handled(readOnly, f, env)[0], e);
    }
  }

  lemma EffectsGrow(s: State, a: Action, e: Effect)
    requires Enabled(s, a)
    ensures Times(Apply(s, a).effects, e) == Times(s.effects, e) + if Caused(s, a, e) then 1 else 0
  {
    if a.Dispatch? {
      var f := s.conns[a.conn].at.frame;
      HandledOnce(s.readOnly, f, a.env, e);
      TimesAppend(s.effects, Handled(s.readOnly, f, a.env), e);
    }
  }

  /**
   Everything a node does for its peers, over every run: each effect happened exactly as often as
   a dispatched frame called for it, whatever its access mode.
   */
  lemma {:induction false} EffectsAreCounted(run: seq<State>, acts: seq<Action>, n: nat, e: Effect)
    requires IsRun(run, acts) && n < |run|
    ensures Times(run[n].effects, e) == CausedCount(run, acts, n, e)
  {
    if n > 0 {
      EffectsAreCounted(run, acts, n - 1, e);
      EffectsGrow(run[n - 1], acts[n - 1], e);
    }
  }

  /** In particular a node with full access forwards every request it dispatches, with its own command. */
  lemma FullAccessEffects(run: seq<State>, acts: seq<Action>, n: nat, e: Effect)
    requires IsRun(run, acts) && n < |run| && !run[0].readOnly
    ensures e in run[n].effects <==>
              exists i :: 0 <= i < n && acts[i].Dispatch? && Enabled(run[i], acts[i])
                          && CausesFullAccess(run[i].conns[acts[i].conn].at.frame, acts[i].env, e)
  {
    EffectsAreCounted(run, acts, n, e);
    InMeansTimes(run[n].effects, e);
    CountedIff(run, acts, n, e);
    forall i | 0 <= i < n ensures !run[i].readOnly {
      ReadOnlyStays(run, acts, i);
    }
  }

  lemma {:induction false} CountedIff(run: seq<State>, acts: seq<Action>, n: nat, e: Effect)
    requires IsRun(run, acts) && n < |run|
    ensures CausedCount(run, acts, n, e) > 0 <==> exists i :: 0 <= i < n && Caused(run[i], acts[i], e)
  {
    if n > 0 {
      CountedIff(run, acts, n - 1, e);
    }
  }

  ghost predicate CausedReadOnly(s: State, a: Action, e: Effect) {
    a.Dispatch? && Enabled(s, a) && CausesReadOnly(s.conns[a.conn].at.frame, a.env, e)
  }

  lemma HandledReadOnly(f: Frame, env: Env, e: Effect)
    requires NeedsGate(f)
    ensures e in Handled(true, f, env) <==> CausesReadOnly(f, env, e)
  {
    match f
    case Req(_, _) => HandledReqReadOnly(f, env, e);
    case _ =>
  }

  lemma HandledReqReadOnly(f: Frame, env: Env, e: Effect)
    requires f.Req?
    ensures e in HandledReq(true, f, env) <==> CausesReadOnly(f, env, e)
  {
    if IsDump(f) {
      assert HandledReq(true, f, env) == if env.mkdir then [MadeShare, TurnedDown] else [TurnedDown];
    } else if f.cmd == "flash" {
      assert HandledReq(true, f, env) == [TurnedDown, SweptUploads];
    } else {
      assert HandledReq(true, f, env) == [if IsReadCmd(f.cmd) then Forwarded(f.cmd) else TurnedDown];
    }
  }

  /**
   Exactly what a read-only node does for its peers, over every run.  It forwards status and facts,
   follows logs and serves downloads; it stores no upload, opens no tunnel and gives out no token.
   But a flash it refuses still sweeps the upload sessions it names, and a board dump it refuses
   still leaves a share directory.
   */
  lemma ReadOnlyEffects(run: seq<State>, acts: seq<Action>, n: nat, e: Effect)
    requires IsRun(run, acts) && n < |run| && run[0].readOnly
    ensures e in run[n].effects <==> exists i :: 0 <= i < n && CausedReadOnly(run[i], acts[i], e)
  {
    EffectsAreDispatched(run, acts, n, e);
    forall i | 0 <= i < n ensures BroughtAbout(run[i], acts[i], e) <==> CausedReadOnly(run[i], acts[i], e) {
      ReadOnlyStays(run, acts, i);
      if acts[i].Dispatch? && Enabled(run[i], acts[i]) {
        HandledReadOnly(run[i].conns[acts[i].conn].at.frame, acts[i].env, e);
      }
    }
  }

  /** In particular no upload is stored, no tunnel opened, no token given, and only status and facts are forwarded. */
  lemma ReadOnlyOnlyReads(run: seq<State>, acts: seq<Action>, n: nat, e: Effect)
    requires IsRun(run, acts) && n < |run| && run[0].readOnly && e in run[n].effects
    ensures !e.Stored? && !e.Tunnelled? && !e.GaveToken? && (e.Forwarded? ==> e.cmd == "status" || e.cmd == "facts")
  {
    ReadOnlyEffects(run, acts, n, e);
  }

  lemma {:induction false} ReadOnlyStays(run: seq<State>, acts: seq<Action>, n: nat)
    requires IsRun(run, acts) && n < |run|
    ensures run[n].readOnly == run[0].readOnly
  {
    if n > 0 {
      ReadOnlyStays(run, acts, n - 1);
    }
  }

  // ---------------------------------------------------------------- revocation

  predicate Approves(a: Action, id: string) {
    a.ApprovePeer? && a.id == id
  }

  lemma RevokingStep(s: State, a: Action)
    requires Enabled(s, a) && a.RevokePeer?
    ensures a.id in Apply(s, a).pairs.revoked && a.id !in Apply(s, a).pairs.approved
  {
  }

  lemma RevokedStep(s: State, a: Action, id: string)
    requires Enabled(s, a) && id in s.pairs.revoked && id !in s.pairs.approved && !Approves(a, id)
    ensures id in Apply(s, a).pairs.revoked && id !in Apply(s, a).pairs.approved
  {
  }

  lemma {:induction false} StaysRevoked(run: seq<State>, acts: seq<Action>, b: nat, m: nat, id: string)
    requires IsRun(run, acts) && b < m < |run|
    requires acts[b].RevokePeer? && acts[b].id == id
    requires forall j :: b < j < m ==> !Approves(acts[j], id)
    ensures id in run[m].pairs.revoked && id !in run[m].pairs.approved
  {
    var n: nat := m - 1;
    var s, a := run[n], acts[n];
    assert run[m] == Apply(s, a);
    if n > b {
      StaysRevoked(run, acts, b, n, id);
      RevokedStep(s, a, id);
    } else {
      RevokingStep(s, a);
    }
  }

  /** What any step means for one connection. */
  predicate ConnStep(s: State, t: State, c: nat) {
    c in s.conns ==>
      && c in t.conns
      && t.conns[c].peer == s.conns[c].peer
      && (IsOver(s, c) ==> IsOver(t, c))
      && (InLoop(s.conns[c].at) ==> InLoop(t.conns[c].at) || IsOver(t, c))
  }

  lemma AnyConnStep(s: State, a: Action, c: nat)
    requires Enabled(s, a)
    ensures ConnStep(s, Apply(s, a), c)
  {
  }

  predicate StepAt(run: seq<State>, i: nat, c: nat) {
    i + 1 < |run| ==> ConnStep(run[i], run[i + 1], c)
  }

  ghost predicate ConnRun(run: seq<State>) {
    forall i: nat, c: nat :: StepAt(run, i, c)
  }

  lemma RunsAreConnRuns(run: seq<State>, acts: seq<Action>)
    requires IsRun(run, acts)
    ensures ConnRun(run)
  {
    forall i: nat, c: nat ensures StepAt(run, i, c) {
      if i + 1 < |run| {
        AnyConnStep(run[i], acts[i], c);
      }
    }
  }

  lemma {:induction false} PeerStays(run: seq<State>, i: nat, n: nat, c: nat)
    requires ConnRun(run) && i <= n < |run| && c in run[i].conns
    ensures c in run[n].conns && run[n].conns[c].peer == run[i].conns[c].peer
  {
    if i < n {
      PeerStays(run, i, n - 1, c);
      assert StepAt(run, n - 1, c);
    }
  }

  /** A connection that is over stays over. */
  lemma {:induction false} StaysOver(run: seq<State>, i: nat, n: nat, c: nat)
    requires ConnRun(run) && i <= n < |run| && IsOver(run[i], c)
    ensures IsOver(run[n], c)
  {
    if i < n {
      StaysOver(run, i, n - 1, c);
      assert StepAt(run, n - 1, c);
    }
  }

  /** Once in the loop, a connection is in the loop or over. */
  lemma {:induction false} StaysInLoop(run: seq<State>, i: nat, n: nat, c: nat)
    requires ConnRun(run) && i <= n < |run| && c in run[i].conns && InLoop(run[i].conns[c].at)
    ensures c in run[n].conns && (InLoop(run[n].conns[c].at) || IsOver(run[n], c))
  {
    if i < n {
      StaysInLoop(run, i, n - 1, c);
      assert StepAt(run, n - 1, c);
    }
  }

  /** The revocation in progress has this connection on its list, will list it, or it is over. */
  predicate OnList(s: State, r: nat, id: string, c: nat) {
    && r in s.revokers && s.revokers[r].id == id
    && (IsOver(s, c) || s.revokers[r].Decided? || c in s.revokers[r].left)
  }

  lemma ListStep(s: State, a: Action, r: nat, id: string, c: nat)
    requires Inv(s) && Enabled(s, a) && a != RevokeReturns(r)
    requires OnList(s, r, id, c) && c in s.conns && s.conns[c].peer == id
    requires InLoop(s.conns[c].at) || IsOver(s, c)
    ensures OnList(Apply(s, a), r, id, c)
  {
    AnyConnStep(s, a, c);
    if a == Snapshot(r) && !IsOver(s, c) {
      assert (id, c) in s.tracked;
    }
  }

  lemma {:induction false} StaysOnList(run: seq<State>, acts: seq<Action>, b: nat, n: nat, r: nat, id: string, c: nat)
    requires IsRun(run, acts) && ConnRun(run) && b < n < |run|
    requires acts[b].RevokePeer? && acts[b].id == id && acts[b].revoker == r
    requires forall j :: b < j < n ==> acts[j] != RevokeReturns(r)
    requires c in run[b].conns && run[b].conns[c].peer == id
    requires InLoop(run[b].conns[c].at) || IsOver(run[b], c)
    ensures OnList(run[n], r, id, c)
  {
    if n > b + 1 {
      StaysOnList(run, acts, b, n - 1, r, id, c);
      InvAlways(run, acts, n - 1);
      PeerStays(run, b, n - 1, c);
      if IsOver(run[b], c) {
        StaysOver(run, b, n - 1, c);
      } else {
        StaysInLoop(run, b, n - 1, c);
      }
      ListStep(run[n - 1], acts[n - 1], r, id, c);
    } else {
      assert run[n] == Apply(run[b], acts[b]);
    }
  }

  /**
   Revocation is final and immediate.  RevokePeer decided at b and returned at n; at any later m,
   as long as the peer was not approved again since b: no check of that peer passed after b, and
   every connection that ever passed one is closed or its goroutine is returning.
   */
  lemma RevokedPeersAreOut(run: seq<State>, acts: seq<Action>, b: nat, n: nat, m: nat, r: nat, id: string, c: nat)
    requires IsRun(run, acts) && b < n < m < |run|
    requires acts[b].RevokePeer? && acts[b].id == id && acts[b].revoker == r && acts[n] == RevokeReturns(r)
    requires forall j :: b < j < n ==> acts[j] != RevokeReturns(r)
    requires forall j :: b < j < m ==> !Approves(acts[j], id)
    requires c in run[m].conns && run[m].conns[c].peer == id
    ensures forall g :: b < g < m ==> !Passes(run[g], acts[g], c)
    ensures (exists g :: 0 <= g < m && Passes(run[g], acts[g], c)) ==> IsOver(run[m], c)
  {
    RunsAreConnRuns(run, acts);
    forall g | b < g < m ensures !Passes(run[g], acts[g], c) {
      StaysRevoked(run, acts, b, g, id);
      if Passes(run[g], acts[g], c) {
        PeerStays(run, g, m, c);
      }
    }
    if g: nat :| g < m && Passes(run[g], acts[g], c) {
      assert g <= b;
      assert g != b && run[g + 1] == Apply(run[g], acts[g]);
      StaysInLoop(run, g + 1, b, c);
      PeerStays(run, b, m, c);
      StaysOnList(run, acts, b, n, r, id, c);
      StaysOver(run, n, m, c);
    }
  }

  /**
   What a revoked peer can still bring about: at most one more frame per connection, one that had
   passed its check before the revocation was decided.
   */
  lemma OneFrameAfterRevocation(run: seq<State>, acts: seq<Action>, b: nat, m: nat, id: string, c: nat) returns (g: nat)
    requires IsRun(run, acts) && b < m < |acts|
    requires acts[b].RevokePeer? && acts[b].id == id
    requires forall j :: b < j < |acts| ==> !Approves(acts[j], id)
    requires acts[m].Dispatch? && acts[m].conn == c && run[m].conns[c].peer == id
    ensures g < b && Passes(run[g], acts[g], c)
    ensures run[g].conns[c].at == Received(run[m].conns[c].at.frame)
    ensures forall n :: b < n < |acts| && acts[n].Dispatch? && acts[n].conn == c ==> n == m
  {
    RunsAreConnRuns(run, acts);
    forall n | b < n < |acts| && acts[n].Dispatch? && acts[n].conn == c ensures n == m {
      if n < m {
        var _, h := DispatchesHaveOwnChecks(run, acts, n, m, c);
        PassedBefore(run, acts, b, h, m, id, c);
      } else if m < n {
        var _, h := DispatchesHaveOwnChecks(run, acts, m, n, c);
        PeerStays(run, m, n, c);
        PassedBefore(run, acts, b, h, n, id, c);
      }
    }
    g := AdmittedWasChecked(run, acts, m, c);
    PassedBefore(run, acts, b, g, m, id, c);
  }

  lemma PassedBefore(run: seq<State>, acts: seq<Action>, b: nat, g: nat, m: nat, id: string, c: nat)
    requires IsRun(run, acts) && ConnRun(run) && b < m < |run| && g < m && Passes(run[g], acts[g], c)
    requires acts[b].RevokePeer? && acts[b].id == id
    requires forall j :: b < j < m ==> !Approves(acts[j], id)
    requires c in run[m].conns && run[m].conns[c].peer == id
    ensures g < b
  {
    PeerStays(run, g, m, c);
    if g > b {
      StaysRevoked(run, acts, b, g, id);
    }
  }

  // ---------------------------------------------------------------- who is approved, and what that lets in

  /** This step lets the peer in: an approval, or with auto-approval a knock of one that is not revoked. */
  predicate LetsIn(s: State, a: Action, id: string) {
    || Approves(a, id)
    || (Enabled(s, a) && s.auto && id !in s.pairs.revoked && KnocksFor(s, a, id))
  }

  /** A connection announces its peer, or a pairing frame names it. */
  predicate KnocksFor(s: State, a: Action, id: string)
    requires Enabled(s, a)
  {
    || (a.Knock? && s.conns[a.conn].peer == id)
    || (a.Serve? && s.conns[a.conn].at.frame.Pair? && s.conns[a.conn].at.frame.id == id != "")
  }

  predicate Revokes(a: Action, id: string) {
    a.RevokePeer? && a.id == id
  }

  ghost predicate LetInSince(run: seq<State>, acts: seq<Action>, i: nat, n: nat, id: string)
    requires IsRun(run, acts) && n < |run|
  {
    i < n && LetsIn(run[i], acts[i], id) && forall j :: i < j < n ==> !Revokes(acts[j], id)
  }

  ghost predicate RevokedSince(acts: seq<Action>, i: nat, n: nat, id: string)
    requires n <= |acts|
  {
    i < n && Revokes(acts[i], id) && forall j :: i < j < n ==> !Approves(acts[j], id)
  }

  lemma DecisionStep(s: State, a: Action, id: string)
    requires Inv(s) && Enabled(s, a)
    ensures id in Apply(s, a).pairs.approved <==> LetsIn(s, a, id) || (id in s.pairs.approved && !Revokes(a, id))
    ensures id in Apply(s, a).pairs.revoked <==> Revokes(a, id) || (id in s.pairs.revoked && !Approves(a, id))
    ensures !(LetsIn(s, a, id) && Revokes(a, id)) && !(Revokes(a, id) && Approves(a, id))
  {
  }

  /** Who is approved, exactly: let in at some step and not revoked since. */
  lemma {:induction false} ApprovedIffLetIn(run: seq<State>, acts: seq<Action>, n: nat, id: string)
    requires IsRun(run, acts) && n < |run|
    ensures id in run[n].pairs.approved <==> exists i :: LetInSince(run, acts, i, n, id)
    ensures id in run[n].pairs.revoked <==> exists i :: RevokedSince(acts, i, n, id)
  {
    if n > 0 {
      var m: nat := n - 1;
      ApprovedIffLetIn(run, acts, m, id);
      InvAlways(run, acts, m);
      DecisionStep(run[m], acts[m], id);
      LetInGrows(run, acts, m, n, id);
      RevokedGrows(acts, m, n, id);
    }
  }

  lemma LetInGrows(run: seq<State>, acts: seq<Action>, m: nat, n: nat, id: string)
    requires IsRun(run, acts) && m < |acts| && n == m + 1 && !(LetsIn(run[m], acts[m], id) && Revokes(acts[m], id))
    ensures (exists i :: LetInSince(run, acts, i, n, id)) <==>
              LetsIn(run[m], acts[m], id) || ((exists i :: LetInSince(run, acts, i, m, id)) && !Revokes(acts[m], id))
  {
    if i: nat :| LetInSince(run, acts, i, n, id) {
      assert i < m ==> LetInSince(run, acts, i, m, id);
    }
    if i: nat :| LetInSince(run, acts, i, m, id) {
      assert !Revokes(acts[m], id) ==> LetInSince(run, acts, i, n, id);
    }
    assert LetsIn(run[m], acts[m], id) ==> LetInSince(run, acts, m, n, id);
  }

  lemma RevokedGrows(acts: seq<Action>, m: nat, n: nat, id: string)
    requires m < |acts| && n == m + 1
    ensures (exists i :: RevokedSince(acts, i, n, id)) <==>
              Revokes(acts[m], id) || ((exists i :: RevokedSince(acts, i, m, id)) && !Approves(acts[m], id))
  {
    if i: nat :| RevokedSince(acts, i, n, id) {
      assert i < m ==> RevokedSince(acts, i, m, id);
    }
    if i: nat :| RevokedSince(acts, i, m, id) {
      assert !Approves(acts[m], id) ==> RevokedSince(acts, i, n, id);
    }
    assert Revokes(acts[m], id) ==> RevokedSince(acts, m, n, id);
  }

  /**
   A frame behind the gate is handled if its peer is approved when it is looked at, and ends the
   connection if not: at every moment at which an open connection waits, for every frame.
   */
  lemma FrameIsDecided(s: State, c: nat, f: Frame, sent: bool, env: Env)
    requires At(s, c, Waiting) && !s.conns[c].closed && NeedsGate(f)
    ensures Enabled(s, Recv(c, f)) && Enabled(Apply(s, Recv(c, f)), Check(c))
    ensures forall a :: Enabled(Apply(s, Recv(c, f)), a) && Concerns(a, c) ==> a == Check(c)
    ensures var t := Apply(Apply(s, Recv(c, f)), Check(c));
            if s.conns[c].peer in s.pairs.approved
            then Enabled(t, Dispatch(c, sent, env))
                 && Apply(t, Dispatch(c, sent, env)).effects == s.effects + Handled(s.readOnly, f, env)
                 && At(Apply(t, Dispatch(c, sent, env)), c, if sent && !f.Dial? then Waiting else Leaving)
            else At(t, c, Leaving) && t.effects == s.effects
  {
  }

  /** A ping or a pairing frame is served without a check, and the connection goes on if the answer went out. */
  lemma OpenFrameIsServed(s: State, c: nat, f: Frame, sent: bool)
    requires At(s, c, Waiting) && !s.conns[c].closed && !NeedsGate(f)
    ensures Enabled(s, Recv(c, f)) && Enabled(Apply(s, Recv(c, f)), Serve(c, sent))
    ensures var t := Apply(Apply(s, Recv(c, f)), Serve(c, sent));
            At(t, c, if sent then Waiting else Leaving) && t.effects == s.effects
  {
  }

  /** Nothing gets stuck: every connection has a next step until it is gone. */
  function NextStep(s: State, c: nat): (a: Action)
    requires c in s.conns && AdmittedAreGated(s)
    ensures s.conns[c].at.Gone? || (Enabled(s, a) && Concerns(a, c))
  {
    match s.conns[c].at
    case Shaken => Knock(c)
    case Announced => Track(c)
    case Waiting => RecvFails(c)
    case Received(f) => if NeedsGate(f) then Check(c) else Serve(c, true)
    case Admitted(_) => Dispatch(c, true, Env(true, true, true, true))
    case Leaving => Untrack(c)
    case Gone => RecvFails(c)
  }

  ghost predicate Continues(s: State, run: seq<State>, acts: seq<Action>) {
    && |run| == |acts| + 1 && run[0] == s
    && forall i :: 0 <= i < |acts| ==> Enabled(run[i], acts[i]) && run[i + 1] == Apply(run[i], acts[i])
  }

  lemma Before(s: State, a: Action, rest: seq<State>, more: seq<Action>)
    requires Enabled(s, a) && Continues(Apply(s, a), rest, more)
    ensures Continues(s, [s] + rest, [a] + more)
  {
    var run, acts := [s] + rest, [a] + more;
    forall i | 0 <= i < |acts| ensures Enabled(run[i], acts[i]) && run[i + 1] == Apply(run[i], acts[i]) {
      if i > 0 {
        assert run[i] == rest[i - 1] && acts[i] == more[i - 1];
      }
    }
  }

  /** A revocation that has its list closes every connection on it and returns, by its own steps. */
  lemma {:induction false} ClosesAll(s: State, r: nat) returns (run: seq<State>, acts: seq<Action>)
    requires RevokersKnow(s) && r in s.revokers && s.revokers[r].Closing?
    ensures Continues(s, run, acts) && r !in run[|acts|].revokers
    ensures forall c :: c in s.conns ==>
              && c in run[|acts|].conns
              && (s.conns[c].closed || c in s.revokers[r].left ==> run[|acts|].conns[c].closed)
    decreases s.revokers[r].left
  {
    if s.revokers[r].left == {} {
      run, acts := [s, Apply(s, RevokeReturns(r))], [RevokeReturns(r)];
    } else {
      var c :| c in s.revokers[r].left;
      var a := CloseConn(r, c);
      var t := Apply(s, a);
      assert t.revokers[r].left < s.revokers[r].left;
      var rest, more := ClosesAll(t, r);
      Before(s, a, rest, more);
      run, acts := [s] + rest, [a] + more;
    }
  }

  /** Who comes in is announced, tracked and waits for frames, and is approved if it was, or on the spot if asked. */
  lemma NewcomerWaits(s: State, c: nat, peer: string) returns (run: seq<State>, acts: seq<Action>)
    requires c !in s.conns && peer != ""
    ensures acts == [Accept(c, peer), Knock(c), Track(c)] && Continues(s, run, acts)
    ensures var t := run[3];
            && At(t, c, Waiting) && t.conns == s.conns[c := Conn(peer, Waiting, false)]
            && t.tracked == s.tracked + {(peer, c)} && t.effects == s.effects
            && (peer in t.pairs.approved <==> peer in s.pairs.approved || (s.auto && peer !in s.pairs.revoked))
  {
    acts := [Accept(c, peer), Knock(c), Track(c)];
    var s1 := Apply(s, acts[0]);
    var s2 := Apply(s1, acts[1]);
    run := [s, s1, s2, Apply(s2, acts[2])];
  }

  /** Anybody can be approved at any time, and revoked unless that is so already; it holds at once. */
  lemma DecisionsTakeEffect(s: State, id: string, r: nat)
    requires id != "" && r !in s.revokers
    ensures Enabled(s, ApprovePeer(id))
    ensures var d := Apply(s, ApprovePeer(id)).pairs; id in d.approved && id !in d.revoked
    ensures id !in s.pairs.revoked ==> Enabled(s, RevokePeer(r, id))
    ensures id !in s.pairs.revoked ==>
              var d := Apply(s, RevokePeer(r, id)).pairs; id !in d.approved && id in d.revoked
  {
  }

  function EndRank(p: Point): nat {
    match p
    case Shaken => 6
    case Announced => 5
    case Received(_) => 4
    case Admitted(_) => 3
    case Waiting => 2
    case Leaving => 1
    case Gone => 0
  }

  /** From everywhere a connection can end by its own steps, six at most, and then it is closed and tracked no more. */
  lemma {:induction false} ConnectionCanEnd(s: State, c: nat) returns (run: seq<State>, acts: seq<Action>)
    requires TrackedAreServed(s) && AdmittedAreGated(s) && c in s.conns
    ensures Continues(s, run, acts) && |acts| <= EndRank(s.conns[c].at) && forall a :: a in acts ==> Concerns(a, c)
    ensures var t := run[|acts|];
            c in t.conns && t.conns[c].closed && (t.conns[c].peer, c) !in t.tracked
    decreases EndRank(s.conns[c].at)
  {
    if s.conns[c].at.Gone? {
      run, acts := [s], [];
    } else {
      var a := NextStep(s, c);
      StepKeepsServed(s, a);
      StepKeepsGated(s, a);
      var rest, more := ConnectionCanEnd(Apply(s, a), c);
      Before(s, a, rest, more);
      run, acts := [s] + rest, [a] + more;
    }
  }

  lemma RevokerStep(s: State, a: Action, r: nat)
    requires Enabled(s, a) && r in Apply(s, a).revokers
    ensures var id := Apply(s, a).revokers[r].id;
            a == RevokePeer(r, id) || (r in s.revokers && s.revokers[r].id == id)
  {
  }

  lemma {:induction false} RevokerBegan(run: seq<State>, acts: seq<Action>, n: nat, r: nat) returns (i: nat)
    requires IsRun(run, acts) && n < |run| && r in run[n].revokers
    ensures i < n && Revokes(acts[i], run[n].revokers[r].id)
  {
    var m: nat := n - 1;
    RevokerStep(run[m], acts[m], r);
    if acts[m].RevokePeer? && acts[m].revoker == r {
      i := m;
    } else {
      i := RevokerBegan(run, acts, m, r);
    }
  }

  /** Nobody else is thrown out: a connection closed before its own goroutine ended belongs to a revoked peer. */
  lemma {:induction false} ClosedWasRevoked(run: seq<State>, acts: seq<Action>, n: nat, c: nat) returns (i: nat)
    requires IsRun(run, acts) && n < |run|
    requires c in run[n].conns && run[n].conns[c].closed && !run[n].conns[c].at.Gone?
    ensures i < n && Revokes(acts[i], run[n].conns[c].peer)
  {
    var m: nat := n - 1;
    var s, a := run[m], acts[m];
    if a.CloseConn? && a.conn == c {
      InvAlways(run, acts, m);
      i := RevokerBegan(run, acts, m, a.revoker);
    } else {
      assert c in s.conns && s.conns[c].closed && !s.conns[c].at.Gone?;
      i := ClosedWasRevoked(run, acts, m, c);
    }
  }

  lemma ClosedStep(s: State, a: Action, c: nat)
    requires Enabled(s, a) && c in s.conns && s.conns[c].closed
    ensures c in Apply(s, a).conns && Apply(s, a).conns[c].closed
  {
  }

  lemma {:induction false} StaysClosed(run: seq<State>, acts: seq<Action>, i: nat, n: nat, c: nat)
    requires IsRun(run, acts) && i <= n < |run| && c in run[i].conns && run[i].conns[c].closed
    ensures c in run[n].conns && run[n].conns[c].closed
  {
    if i < n {
      StaysClosed(run, acts, i, n - 1, c);
      ClosedStep(run[n - 1], acts[n - 1], c);
    }
  }

  /** Once closed, a connection receives nothing more. */
  lemma ClosedReceivesNothing(run: seq<State>, acts: seq<Action>, i: nat, n: nat, c: nat)
    requires IsRun(run, acts) && i <= n < |acts| && c in run[i].conns && run[i].conns[c].closed
    ensures !(acts[n].Recv? && acts[n].conn == c)
  {
    StaysClosed(run, acts, i, n, c);
  }

  /** So every revocation can return, and then every connection of the peer that was tracked when it began is closed. */
  lemma RevocationReturns(s: State, r: nat) returns (run: seq<State>, acts: seq<Action>)
    requires Inv(s) && r in s.revokers && s.revokers[r].Decided?
    ensures Continues(s, run, acts) && r !in run[|acts|].revokers
    ensures forall c :: (s.revokers[r].id, c) in s.tracked ==>
              c in run[|acts|].conns && run[|acts|].conns[c].closed
  {
    var t := Apply(s, Snapshot(r));
    forall c | c in t.revokers[r].left ensures c in t.conns {
      assert (s.revokers[r].id, c) in s.tracked;
    }
    forall c | (s.revokers[r].id, c) in s.tracked ensures c in t.revokers[r].left {
    }
    var rest, more := ClosesAll(t, r);
    Before(s, Snapshot(r), rest, more);
    run, acts := [s] + rest, [Snapshot(r)] + more;
  }
}
