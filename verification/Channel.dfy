/**
 One mesh connection: every frame is sealed under the sender's direction key, with the frame type
 and a per-direction counter as associated data.

 The cipher is an ideal AEAD (NIST SP 800-38D, section 7): Open succeeds only on a box that some
 holder of the key sealed with the same associated data.  The network is an adversary: it drops,
 repeats, reorders, reflects and invents, and it sees the boxes of every other connection.
 */
module Channel {
  import opened Bytes

  datatype Side = Client | Server {
    function Other(): Side {
      if Client? then Server else Client
    }
  }

  /** Direction keys are derived per connection salt; each side seals with its own. */
  datatype Key = Key(salt: string, sealer: Side)

  datatype Box = Box(key: Key, nonce: nat, kind: byte, ctr: nat, plain: bytes)

  /** What follows the type byte of a frame: too little, noise, or a box. */
  datatype Body = TooShort | Noise | Sealed(box: Box)

  datatype Packet = Packet(kind: byte, body: Body)

  datatype Frame = Frame(kind: byte, plain: bytes)

  datatype Received = Plain(frame: Frame) | ShortFrame | NotOpened

  predicate Opens(pool: set<Box>, key: Key, kind: byte, ctr: nat, body: Body) {
    body.Sealed? && body.box in pool && body.box.key == key && body.box.kind == kind && body.box.ctr == ctr
  }

  /** recv after readFrame, at counter rx: the counter advances unless the frame was too short. */
  function Receive(pool: set<Box>, key: Key, rx: nat, p: Packet): (Received, nat) {
    if p.body.TooShort? then (ShortFrame, rx)
    else if Opens(pool, key, p.kind, rx % TWO_64, p.body) then (Plain(Frame(p.kind, p.body.box.plain)), rx + 1)
    else (NotOpened, rx + 1)
  }

  /** A frame sealed under a key at a counter. */
  function SealedAs(key: Key, tx: nat, f: Frame, nonce: nat): Packet {
    Packet(f.kind, Sealed(Box(key, nonce, f.kind, tx % TWO_64, f.plain)))
  }

  /** The Channel object itself; tx and rx are uint64, written here as counts taken modulo 2^64. */
  class Endpoint {
    const salt: string
    const side: Side
    var tx: nat
    var rx: nat

    constructor (salt: string, side: Side)
      ensures this.salt == salt && this.side == side && tx == 0 && rx == 0
    {
      this.salt, this.side, tx, rx := salt, side, 0, 0;
    }

    /** The critical section of send: a peer that has received as much as was sent opens exactly this frame. */
    method Send(f: Frame, nonce: nat) returns (p: Packet)
      modifies this`tx
      ensures p == SealedAs(Key(salt, side), old(tx), f, nonce) && tx == old(tx) + 1
      ensures forall pool :: p.body.box in pool ==>
                Receive(pool, Key(salt, side), old(tx), p) == (Plain(f), old(tx) + 1)
      ensures forall pool, rx: nat :: rx % TWO_64 != old(tx) % TWO_64 ==>
                Receive(pool, Key(salt, side), rx, p).0 == NotOpened
    {
      var ctr := tx % TWO_64;
      tx := tx + 1;
      p := Packet(f.kind, Sealed(Box(Key(salt, side), nonce, f.kind, ctr, f.plain)));
    }

    method Recv(pool: set<Box>, p: Packet) returns (r: Received)
      modifies this`rx
      ensures (r, rx) == Receive(pool, Key(salt, side.Other()), old(rx), p)
    {
      if p.body.TooShort? {
        return ShortFrame;
      }
      var ctr := rx % TWO_64;
      rx := rx + 1;
      if p.body.Sealed? && p.body.box in pool && p.body.box.key == Key(salt, side.Other())
         && p.body.box.kind == p.kind && p.body.box.ctr == ctr {
        return Plain(Frame(p.kind, p.body.box.plain));
      }
      return NotOpened;
    }
  }

  // ---------------------------------------------------------------- the whole connection

  /** A caller of Send: before the lock, inside it, with its counter, done writing. */
  datatype Sender = Waiting(frame: Frame) | Locked(frame: Frame) | Numbered(frame: Frame, ctr: nat) | Written

  /** The k-th accepted frame with the counter it was opened at. */
  datatype Accepted = Accepted(at: nat, frame: Frame)

  datatype Lock = Free | HeldBy(sender: nat)

  datatype End = End(
    tx: nat, lock: Lock, senders: map<nat, Sender>,
    log: seq<Frame>,            // frames in the order they were sealed and written
    rx: nat, accepted: seq<Accepted>,
    failed: bool)               // some recv returned an error

  datatype State = State(salt: string, client: End, server: End, pool: set<Box>) {
    function At(side: Side): End {
      if side.Client? then client else server
    }

    function With(side: Side, e: End): State {
      if side.Client? then this.(client := e) else this.(server := e)
    }
  }

  datatype Action =
    | Ask(side: Side, sender: nat, frame: Frame)
    | Acquire(side: Side, sender: nat)
    | TakeCounter(side: Side, sender: nat)
    | Write(side: Side, sender: nat, nonce: nat)
    | Release(side: Side, sender: nat)
    | Deliver(side: Side, packet: Packet)
    | Elsewhere(box: Box)

  const FRESH := End(0, Free, map[], [], 0, [], false)

  predicate Init(s: State) {
    s.client == FRESH && s.server == FRESH && forall b :: b in s.pool ==> b.key.salt != s.salt
  }

  predicate Enabled(s: State, a: Action) {
    match a
    case Ask(d, t, _) => t !in s.At(d).senders
    case Acquire(d, t) => t in s.At(d).senders && s.At(d).senders[t].Waiting? && s.At(d).lock == Free
    case TakeCounter(d, t) => t in s.At(d).senders && s.At(d).senders[t].Locked?
    case Write(d, t, _) => t in s.At(d).senders && s.At(d).senders[t].Numbered?
    case Release(d, t) => t in s.At(d).senders && s.At(d).senders[t].Written?
    case Deliver(_, _) => true
    case Elsewhere(b) => b.key.salt != s.salt
  }

  function Apply(s: State, a: Action): State
    requires Enabled(s, a)
  {
    match a
    case Ask(d, t, f) =>
      var e := s.At(d);
      s.With(d, e.(senders := e.senders[t := Waiting(f)]))
    case Acquire(d, t) =>
      var e := s.At(d);
      s.With(d, e.(lock := HeldBy(t), senders := e.senders[t := Locked(e.senders[t].frame)]))
    case TakeCounter(d, t) =>
      var e := s.At(d);
      s.With(d, e.(tx := e.tx + 1, senders := e.senders[t := Numbered(e.senders[t].frame, e.tx % TWO_64)]))
    case Write(d, t, nonce) =>
      var e := s.At(d);
      var f, ctr := e.senders[t].frame, e.senders[t].ctr;
      s.(pool := s.pool + {Box(Key(s.salt, d), nonce, f.kind, ctr, f.plain)})
       .With(d, e.(log := e.log + [f], senders := e.senders[t := Written]))
    case Release(d, t) =>
      var e := s.At(d);
      s.With(d, e.(lock := Free, senders := e.senders - {t}))
    case Deliver(d, p) =>
      var e := s.At(d);
      var (r, rx) := Receive(s.pool, Key(s.salt, d.Other()), e.rx, p);
      if r.Plain? then s.With(d, e.(rx := rx, accepted := e.accepted + [Accepted(e.rx, r.frame)]))
      else s.With(d, e.(rx := rx, failed := true))
    case Elsewhere(b) => s.(pool := s.pool + {b})
  }

  ghost predicate IsRun(run: seq<State>, acts: seq<Action>) {
    && |run| == |acts| + 1
    && Init(run[0])
    && forall i :: 0 <= i < |acts| ==> Enabled(run[i], acts[i]) && run[i + 1] == Apply(run[i], acts[i])
  }

  // ---------------------------------------------------------------- invariant

  /** Whoever is past Waiting holds the lock. */
  predicate LockInv(e: End) {
    && (forall t :: t in e.senders && !e.senders[t].Waiting? ==> e.lock == HeldBy(t))
    && (e.lock.HeldBy? ==> e.lock.sender in e.senders && !e.senders[e.lock.sender].Waiting?)
  }

  /** Counters are handed out in the order frames are written. */
  predicate CounterInv(e: End) {
    && (var taken := e.lock.HeldBy? && e.lock.sender in e.senders && e.senders[e.lock.sender].Numbered?;
        e.tx == |e.log| + if taken then 1 else 0)
    && forall t :: t in e.senders && e.senders[t].Numbered? ==> e.senders[t].ctr == |e.log| % TWO_64
  }

  predicate Numbers(e: End, b: Box, i: nat) {
    i < |e.log| && b.ctr == i % TWO_64 && e.log[i] == Frame(b.kind, b.plain)
  }

  /** Every box under a side's key is one of its log, at its place. */
  ghost predicate PoolInv(s: State, d: Side) {
    forall b :: b in s.pool && b.key == Key(s.salt, d) ==> exists i :: Numbers(s.At(d), b, i)
  }

  /** Neither counter has come round: at most 2^64 frames sealed and opened in this direction. */
  predicate NoWrap(s: State, d: Side) {
    |s.At(d.Other()).log| <= TWO_64 && s.At(d).rx <= TWO_64
  }

  predicate IsLogged(log: seq<Frame>, a: Accepted) {
    a.at < |log| && log[a.at] == a.frame
  }

  ghost predicate AcceptInv(s: State, d: Side) {
    var e := s.At(d);
    && (forall i :: 0 <= i < |e.accepted| ==> e.accepted[i].at < e.rx)
    && (forall i, j :: 0 <= i < j < |e.accepted| ==> e.accepted[i].at < e.accepted[j].at)
    && (!e.failed ==> |e.accepted| == e.rx && forall i :: 0 <= i < |e.accepted| ==> e.accepted[i].at == i)
    && (NoWrap(s, d) ==> forall i :: 0 <= i < |e.accepted| ==> IsLogged(s.At(d.Other()).log, e.accepted[i]))
  }

  ghost predicate Inv(s: State) {
    forall d: Side :: LockInv(s.At(d)) && CounterInv(s.At(d)) && PoolInv(s, d) && AcceptInv(s, d)
  }

  lemma StepKeepsSending(s: State, a: Action, d: Side)
    requires Enabled(s, a) && LockInv(s.At(d)) && CounterInv(s.At(d))
    ensures LockInv(Apply(s, a).At(d)) && CounterInv(Apply(s, a).At(d))
  {
    if !a.Elsewhere? && a.side == d {
      match a
      case Ask(_, _, _) =>
      case Acquire(_, _) =>
      case TakeCounter(_, _) =>
      case Write(_, _, _) =>
      case Release(_, _) =>
      case Deliver(_, _) =>
    }
  }

  /**
   Endpoint.Send is the two steps inside the lock: what it seals is what enters the pool, at the
   counter it takes, as the next frame of the log.
   */
  lemma SendIsTakeAndWrite(s: State, d: Side, t: nat, nonce: nat)
    requires Enabled(s, TakeCounter(d, t))
    ensures var mid, f := Apply(s, TakeCounter(d, t)), s.At(d).senders[t].frame;
            && Enabled(mid, Write(d, t, nonce))
            && var u := Apply(mid, Write(d, t, nonce));
               && u.pool == s.pool + {SealedAs(Key(s.salt, d), s.At(d).tx, f, nonce).body.box}
               && u.At(d).tx == s.At(d).tx + 1
               && u.At(d).log == s.At(d).log + [f]
               && u.At(d.Other()) == s.At(d.Other())
  {
  }

  /** And Endpoint.Recv is the step that delivers: the same answer, the same counter. */
  lemma RecvIsDeliver(s: State, d: Side, p: Packet)
    ensures var (r, rx) := Receive(s.pool, Key(s.salt, d.Other()), s.At(d).rx, p);
            var u := Apply(s, Deliver(d, p));
            && u.At(d).rx == rx && u.pool == s.pool
            && (if r.Plain? then Frames(u.At(d).accepted) == Frames(s.At(d).accepted) + [r.frame]
                else u.At(d).failed && u.At(d).accepted == s.At(d).accepted)
  {
  }

  lemma LogOnlyGrows(s: State, a: Action, d: Side)
    requires Enabled(s, a)
    ensures s.At(d).log <= Apply(s, a).At(d).log
    ensures s.At(d).rx <= Apply(s, a).At(d).rx
  {
  }

  lemma StepKeepsPool(s: State, a: Action, d: Side)
    requires Enabled(s, a) && PoolInv(s, d) && CounterInv(s.At(d))
    ensures PoolInv(Apply(s, a), d)
  {
    var t := Apply(s, a);
    LogOnlyGrows(s, a, d);
    forall b | b in t.pool && b.key == Key(t.salt, d) ensures exists i :: Numbers(t.At(d), b, i) {
      if b in s.pool {
        var i: nat :| Numbers(s.At(d), b, i);
        assert Numbers(t.At(d), b, i);
      } else {
        assert Numbers(t.At(d), b, |s.At(d).log|);
      }
    }
  }

  /** A box that opens at counter rx is the rx-th frame its side wrote. */
  lemma OpenedIsNext(s: State, d: Side, p: Packet)
    requires PoolInv(s, d.Other()) && Opens(s.pool, Key(s.salt, d.Other()), p.kind, s.At(d).rx % TWO_64, p.body)
    requires |s.At(d.Other()).log| <= TWO_64 && s.At(d).rx < TWO_64
    ensures IsLogged(s.At(d.Other()).log, Accepted(s.At(d).rx, Frame(p.kind, p.body.box.plain)))
  {
  }

  lemma StepKeepsAccepted(s: State, a: Action, d: Side)
    requires Enabled(s, a) && AcceptInv(s, d) && PoolInv(s, d.Other())
    ensures AcceptInv(Apply(s, a), d)
  {
    if a.Deliver? && a.side == d {
      DeliverKeepsAccepted(s, d, a.packet);
    } else {
      OnlyDeliverAccepts(s, a, d);
      LogOnlyGrows(s, a, d.Other());
      LongerLogKeepsAccepted(s, Apply(s, a), d);
    }
  }

  lemma OnlyDeliverAccepts(s: State, a: Action, d: Side)
    requires Enabled(s, a) && !(a.Deliver? && a.side == d)
    ensures var e, u := s.At(d), Apply(s, a).At(d);
            u.accepted == e.accepted && u.rx == e.rx && u.failed == e.failed
  {
  }

  lemma LongerLogKeepsAccepted(s: State, t: State, d: Side)
    requires AcceptInv(s, d) && s.At(d.Other()).log <= t.At(d.Other()).log
    requires t.At(d).accepted == s.At(d).accepted && t.At(d).rx == s.At(d).rx && t.At(d).failed == s.At(d).failed
    ensures AcceptInv(t, d)
  {
  }

  lemma DeliverKeepsAccepted(s: State, d: Side, p: Packet)
    requires AcceptInv(s, d) && PoolInv(s, d.Other())
    ensures AcceptInv(Apply(s, Deliver(d, p)), d)
  {
    var e, t := s.At(d), Apply(s, Deliver(d, p));
    var (r, rx) := Receive(s.pool, Key(s.salt, d.Other()), e.rx, p);
    assert t.At(d.Other()) == s.At(d.Other()) && t.At(d).rx == rx >= e.rx;
    if r.Plain? {
      assert t.At(d).accepted == e.accepted + [Accepted(e.rx, r.frame)];
      if NoWrap(t, d) {
        OpenedIsNext(s, d, p);
      }
    } else {
      assert t.At(d).accepted == e.accepted && t.At(d).failed;
    }
  }

  lemma {:induction false} InvAlways(run: seq<State>, acts: seq<Action>, n: nat)
    requires IsRun(run, acts) && n < |run|
    ensures Inv(run[n])
  {
    if n > 0 {
      InvAlways(run, acts, n - 1);
      forall d: Side
        ensures LockInv(run[n].At(d)) && CounterInv(run[n].At(d)) && PoolInv(run[n], d) && AcceptInv(run[n], d)
      {
        StepKeepsSending(run[n - 1], acts[n - 1], d);
        StepKeepsPool(run[n - 1], acts[n - 1], d);
        StepKeepsAccepted(run[n - 1], acts[n - 1], d);
      }
    }
  }

  // ---------------------------------------------------------------- what a peer can rely on

  function Frames(accepted: seq<Accepted>): seq<Frame> {
    seq(|accepted|, i requires 0 <= i < |accepted| => accepted[i].frame)
  }

  /**
   Main result.  Whatever the network does and however many goroutines send at once, until the
   first error the accepted frames are a prefix of the frames the other side wrote.
   */
  lemma AcceptedIsPrefixOfSent(run: seq<State>, acts: seq<Action>, n: nat, d: Side)
    requires IsRun(run, acts) && n < |run|
    requires !run[n].At(d).failed && NoWrap(run[n], d)
    ensures Frames(run[n].At(d).accepted) <= run[n].At(d.Other()).log
  {
    InvAlways(run, acts, n);
    var e, log := run[n].At(d), run[n].At(d.Other()).log;
    assert AcceptInv(run[n], d);
    assert forall i :: 0 <= i < |e.accepted| ==> IsLogged(log, e.accepted[i]);
    if |e.accepted| > 0 {
      assert IsLogged(log, e.accepted[|e.accepted| - 1]);
    }
  }

  /** Even a reader that carries on after errors gets frames only in order and never twice. */
  lemma AcceptedIsSubsequenceOfSent(run: seq<State>, acts: seq<Action>, n: nat, d: Side, i: nat, j: nat)
    requires IsRun(run, acts) && n < |run| && NoWrap(run[n], d)
    requires i < j < |run[n].At(d).accepted|
    ensures var e, log := run[n].At(d), run[n].At(d.Other()).log;
            && e.accepted[i].at < e.accepted[j].at < |log|
            && log[e.accepted[i].at] == e.accepted[i].frame
            && log[e.accepted[j].at] == e.accepted[j].frame
  {
    InvAlways(run, acts, n);
    assert AcceptInv(run[n], d);
    assert IsLogged(run[n].At(d.Other()).log, run[n].At(d).accepted[i]);
    assert IsLogged(run[n].At(d.Other()).log, run[n].At(d).accepted[j]);
  }

  /** A frame sent back to its own sender is refused, at any counter and under any type byte. */
  lemma ReflectionIsRefused(s: State, d: Side, p: Packet)
    requires p.body.Sealed? && p.body.box.key == Key(s.salt, d)
    ensures Enabled(s, Deliver(d, p)) && Apply(s, Deliver(d, p)).At(d).failed
    ensures Apply(s, Deliver(d, p)).At(d).accepted == s.At(d).accepted
  {
  }

  /** Changing the clear type byte of a frame makes it unreadable. */
  lemma RelabelledIsRefused(s: State, d: Side, box: Box, kind: byte)
    requires kind != box.kind
    ensures Apply(s, Deliver(d, Packet(kind, Sealed(box)))).At(d).failed
  {
  }

  /**
   The network can only hurt itself: the next frame, delivered intact, is always accepted, and
   on an unbroken channel it is the only box of the sender that is.
   */
  lemma NextFrameIsAccepted(run: seq<State>, acts: seq<Action>, n: nat, d: Side, b: Box)
    requires IsRun(run, acts) && n < |run|
    requires |run[n].At(d.Other()).log| <= TWO_64 && run[n].At(d).rx < TWO_64
    requires b in run[n].pool && b.key == Key(run[n].salt, d.Other())
    ensures var r := Receive(run[n].pool, b.key, run[n].At(d).rx, Packet(b.kind, Sealed(b))).0;
            r == (if b.ctr == run[n].At(d).rx then Plain(Frame(b.kind, b.plain)) else NotOpened)
    ensures b.ctr == run[n].At(d).rx ==>
              IsLogged(run[n].At(d.Other()).log, Accepted(b.ctr, Frame(b.kind, b.plain)))
  {
    InvAlways(run, acts, n);
    assert run[n].At(d).rx % TWO_64 == run[n].At(d).rx;
    if b.ctr == run[n].At(d).rx {
      OpenedIsNext(run[n], d, Packet(b.kind, Sealed(b)));
    }
  }

  /**
   The bound is the code's own: past 2^64 frames the counter repeats, and the first box of the
   connection opens again.
   */
  lemma CounterComesRound(s: State, d: Side, b: Box)
    requires b in s.pool && b.key == Key(s.salt, d.Other()) && b.ctr == 0
    requires s.At(d).rx == TWO_64
    ensures Apply(s, Deliver(d, Packet(b.kind, Sealed(b)))).At(d).accepted
         == s.At(d).accepted + [Accepted(TWO_64, Frame(b.kind, b.plain))]
  {
  }

  /** A sender that finds the lock free gets its frame out in five steps, as the next one of its end. */
  lemma UndisturbedSend(s: State, d: Side, t: nat, f: Frame, nonce: nat)
    requires s.At(d).lock == Free && t !in s.At(d).senders
    ensures Enabled(s, Ask(d, t, f))
    ensures var s1 := Apply(s, Ask(d, t, f));
            && Enabled(s1, Acquire(d, t))
            && var s2 := Apply(s1, Acquire(d, t));
               && Enabled(s2, TakeCounter(d, t))
               && var s3 := Apply(s2, TakeCounter(d, t));
                  && Enabled(s3, Write(d, t, nonce))
                  && var s4 := Apply(s3, Write(d, t, nonce));
                     && Enabled(s4, Release(d, t))
                     && Apply(s4, Release(d, t)) ==
                        s.(pool := s.pool + {SealedAs(Key(s.salt, d), s.At(d).tx, f, nonce).body.box})
                         .With(d, s.At(d).(tx := s.At(d).tx + 1, log := s.At(d).log + [f]))
  {
    var senders := s.At(d).senders;
    var there: map<nat, Sender> :=
      senders[t := Waiting(f)][t := Locked(f)][t := Numbered(f, s.At(d).tx % TWO_64)][t := Written];
    assert there - {t} == senders;
  }

  /** A refused frame costs its number: the box that carried it is refused too from then on. */
  lemma RefusalCostsTheNumber(pool: set<Box>, key: Key, rx: nat, p: Packet, q: Packet)
    requires Receive(pool, key, rx, p).0 == NotOpened && q.body.Sealed? && q.body.box.ctr == rx % TWO_64
    ensures Receive(pool, key, rx, p).1 == rx + 1
    ensures Receive(pool, key, Receive(pool, key, rx, p).1, q).0 == NotOpened
  {
  }

  /** What other connections put on the wire reaches this one too, and never opens here. */
  lemma ForeignBoxIsRefused(s: State, b: Box, d: Side, kind: byte)
    requires b.key.salt != s.salt
    ensures Enabled(s, Elsewhere(b))
    ensures var t := Apply(s, Elsewhere(b));
            && b in t.pool && t.client == s.client && t.server == s.server
            && Receive(t.pool, Key(s.salt, d.Other()), s.At(d).rx, Packet(kind, Sealed(b))).0 == NotOpened
  {
  }
}
