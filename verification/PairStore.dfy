/** The pairing table: who may operate this node, who knocked, who was turned away; and its file. */
module PairStore {
  import opened Sets

  datatype Entry = Entry(id: string, name: string, addr: string, at: int)

  datatype Table = Table(approved: map<string, Entry>, pending: map<string, Entry>, revoked: map<string, Entry>)

  const EMPTY := Table(map[], map[], map[])

  /** Knocks are forgotten after a day. */
  const PENDING_TTL := 86400

  function Pruned(t: Table, now: int): Table {
    t.(pending := map id | id in t.pending && now - t.pending[id].at <= PENDING_TTL :: t.pending[id])
  }

  predicate IsKnown(t: Table, id: string) {
    id in t.approved || id in t.revoked
  }

  /** Knock: a decision already taken stands and only shows fresh data; anyone else is noted down. */
  function Knocked(t: Table, id: string, name: string, addr: string, now: int, auto: bool): Table {
    if id in t.approved then t.(approved := t.approved[id := t.approved[id].(name := name, addr := addr, at := now)])
    else if id in t.revoked then t.(revoked := t.revoked[id := t.revoked[id].(name := name, addr := addr, at := now)])
    else if auto then Pruned(t.(approved := t.approved[id := Entry(id, name, addr, now)]), now)
    else Pruned(t.(pending := t.pending[id := Entry(id, name, addr, now)]), now)
  }

  /** Approve under the lock; the entry of a revoked id is replaced by a bare one, as in the code. */
  function Approved(t: Table, id: string, now: int): Table {
    var e := if id in t.pending then t.pending[id].(at := now) else Entry(id, "", "", now);
    Pruned(Table(t.approved[id := e], t.pending - {id}, t.revoked - {id}), now)
  }

  /** The entry Revoke acts on: pending first, then approved; none for anybody else. */
  predicate CanRevoke(t: Table, id: string) {
    (id in t.pending && t.pending[id].id != "") || (id in t.approved && t.approved[id].id != "")
  }

  function Revoked(t: Table, id: string, now: int): Table
    requires CanRevoke(t, id)
  {
    var e := if id in t.pending && t.pending[id].id != "" then t.pending[id] else t.approved[id];
    Pruned(Table(t.approved - {id}, t.pending - {id}, t.revoked[id := e.(at := now)]), now)
  }

  // ---------------------------------------------------------------- selectors

  /** All known entries; a later group hides an earlier one. */
  function All(t: Table): map<string, Entry> {
    t.approved + t.pending + t.revoked
  }

  predicate Selects(selector: string, id: string, e: Entry) {
    id == selector || e.name == selector || selector <= id || selector <= e.name
  }

  function Hits(t: Table, selector: string): set<string> {
    set id | id in All(t) && Selects(selector, id, All(t)[id])
  }

  /** The selector means this entry and no other. */
  predicate Picks(t: Table, selector: string, id: string) {
    selector != "" && Hits(t, selector) == {id}
  }

  datatype Resolution = Resolved(id: string) | NoSelector | Ambiguous | Unknown

  datatype Answer = Done(id: string) | Refused(why: Resolution) | NotSaved

  /** The store: the table in memory and the table in its file. */
  class Store {
    var approved: map<string, Entry>
    var pending: map<string, Entry>
    var revoked: map<string, Entry>
    var file: Table

    function View(): Table
      reads this
    {
      Table(approved, pending, revoked)
    }

    /** Load: read the file and drop what went stale. */
    constructor (file: Table, now: int)
      ensures View() == Pruned(file, now) && this.file == file
    {
      this.file := file;
      approved, pending, revoked := file.approved, file.pending, file.revoked;
      new;
      Prune(now);
    }

    method Prune(now: int)
      modifies this`pending
      ensures View() == Pruned(old(View()), now)
    {
      ghost var was := pending;
      var todo := pending.Keys;
      while todo != {}
        invariant todo <= pending.Keys <= was.Keys
        invariant forall id :: id in was ==>
          (id in pending <==> id in todo || now - was[id].at <= PENDING_TTL)
        invariant forall id :: id in pending ==> pending[id] == was[id]
        decreases todo
      {
        var id :| id in todo;
        todo := todo - {id};
        if now - pending[id].at > PENDING_TTL {
          pending := pending - {id};
        }
      }
    }

    /** Write the pruned table to its file, or fail and leave the file as it was. */
    method Save(now: int, ok: bool)
      modifies this`pending, this`file
      ensures View() == Pruned(old(View()), now)
      ensures file == if ok then View() else old(file)
    {
      Prune(now);
      if ok {
        file := View();
      }
    }

    method Knock(id: string, name: string, addr: string, now: int, auto: bool, saveOk: bool) returns (in_: bool)
      modifies this
      ensures View() == Knocked(old(View()), id, name, addr, now, auto)
      ensures in_ <==> id in View().approved
      ensures file == if !IsKnown(old(View()), id) && saveOk then View() else old(file)
    {
      if id in approved {
        approved := approved[id := approved[id].(name := name, addr := addr, at := now)];
        return true;
      }
      if id in revoked {
        revoked := revoked[id := revoked[id].(name := name, addr := addr, at := now)];
        return false;
      }
      if auto {
        approved := approved[id := Entry(id, name, addr, now)];
        Save(now, saveOk);
        return true;
      }
      pending := pending[id := Entry(id, name, addr, now)];
      Save(now, saveOk);
      return false;
    }

    method FindHits(selector: string) returns (hits: set<string>)
      ensures hits == Hits(View(), selector)
    {
      var all := All(View());
      hits := {};
      var todo := all.Keys;
      while todo != {}
        invariant todo <= all.Keys
        invariant hits == Hits(View(), selector) - todo
        decreases todo
      {
        var id :| id in todo;
        todo := todo - {id};
        if Selects(selector, id, all[id]) {
          hits := hits + {id};
        }
      }
    }

    method Resolve(selector: string) returns (r: Resolution)
      ensures r == NoSelector <==> selector == ""
      ensures if r.Resolved? then Picks(View(), selector, r.id) else forall id :: !Picks(View(), selector, id)
      ensures r == Unknown <==> selector != "" && Hits(View(), selector) == {}
      ensures r == Ambiguous <==> selector != "" && |Hits(View(), selector)| > 1
    {
      if selector == "" {
        return NoSelector;
      }
      var hits := FindHits(selector);
      if |hits| == 1 {
        var id :| id in hits;
        assert hits == {id} by {
          OnlyMember(hits, id);
        }
        return Resolved(id);
      }
      return if |hits| > 1 then Ambiguous else Unknown;
    }

    method Approve(selector: string, now: int, saveOk: bool) returns (a: Answer)
      modifies this
      ensures a.Refused? ==> View() == old(View()) && file == old(file)
      ensures a.Refused? <==> forall id :: !Picks(old(View()), selector, id)
      ensures forall id :: Picks(old(View()), selector, id) ==>
                View() == Approved(old(View()), id, now) && (a.Done? ==> a.id == id)
      ensures file == if a.Done? then View() else old(file)
      ensures !a.Refused? ==> (a.Done? <==> saveOk)
    {
      var r := Resolve(selector);
      if !r.Resolved? {
        return Refused(r);
      }
      var id := r.id;
      var e := if id in pending then pending[id] else Entry(id, "", "", now);
      e := e.(at := now);
      approved := approved[id := e];
      pending := pending - {id};
      revoked := revoked - {id};
      Save(now, saveOk);
      a := if saveOk then Done(id) else NotSaved;
    }

    method Revoke(selector: string, now: int, saveOk: bool) returns (a: Answer)
      modifies this
      ensures a.Refused? ==> View() == old(View()) && file == old(file)
      ensures a.Refused? <==> forall id :: Picks(old(View()), selector, id) ==> !CanRevoke(old(View()), id)
      ensures forall id :: Picks(old(View()), selector, id) && CanRevoke(old(View()), id) ==>
                View() == Revoked(old(View()), id, now) && (a.Done? ==> a.id == id)
      ensures file == if a.Done? then View() else old(file)
      ensures !a.Refused? ==> (a.Done? <==> saveOk)
    {
      var r := Resolve(selector);
      if !r.Resolved? {
        return Refused(r);
      }
      var id := r.id;
      var e := Entry("", "", "", 0);
      if id in pending {
        e := pending[id];
      }
      if e.id == "" && id in approved {
        e := approved[id];
      }
      if e.id == "" {
        return Refused(Unknown);
      }
      revoked := revoked[id := e.(at := now)];
      approved := approved - {id};
      pending := pending - {id};
      Save(now, saveOk);
      a := if saveOk then Done(id) else NotSaved;
    }
  }

  // ---------------------------------------------------------------- whole histories

  datatype Op =
    | KnockOp(id: string, name: string, addr: string, now: int, auto: bool, saveOk: bool)
    | ApproveOp(id: string, now: int, saveOk: bool)
    | RevokeOp(id: string, now: int, saveOk: bool)
    | Restart(now: int)

  datatype World = World(mem: Table, file: Table)

  predicate WantsSave(t: Table, op: Op) {
    match op
    case KnockOp(id, _, _, _, _, _) => !IsKnown(t, id)
    case ApproveOp(_, _, _) => true
    case RevokeOp(id, _, _) => CanRevoke(t, id)
    case Restart(_) => false
  }

  function Mem(w: World, op: Op): Table {
    match op
    case KnockOp(id, name, addr, now, auto, _) => Knocked(w.mem, id, name, addr, now, auto)
    case ApproveOp(id, now, _) => Approved(w.mem, id, now)
    case RevokeOp(id, now, _) => if CanRevoke(w.mem, id) then Revoked(w.mem, id, now) else w.mem
    case Restart(now) => Pruned(w.file, now)
  }

  function Step(w: World, op: Op): World {
    var mem := Mem(w, op);
    World(mem, if WantsSave(w.mem, op) && op.saveOk then mem else w.file)
  }

  function Run(ops: seq<Op>): World {
    if ops == [] then World(EMPTY, EMPTY) else Step(Run(ops[..|ops| - 1]), ops[|ops| - 1])
  }

  /** Revoked ids are neither approved nor pending, and entries carry their own non-empty id. */
  predicate Consistent(t: Table) {
    && t.revoked.Keys !! t.approved.Keys
    && t.revoked.Keys !! t.pending.Keys
    && (forall id :: id in t.approved ==> t.approved[id].id == id != "")
    && (forall id :: id in t.pending ==> t.pending[id].id == id != "")
    && (forall id :: id in t.revoked ==> t.revoked[id].id == id != "")
  }

  /** Ids come from handshakes and selectors, which refuse empty ones. */
  predicate ProperOp(op: Op) {
    !op.Restart? ==> op.id != ""
  }

  lemma KnockKeepsConsistent(t: Table, id: string, name: string, addr: string, now: int, auto: bool)
    requires Consistent(t) && id != ""
    ensures Consistent(Knocked(t, id, name, addr, now, auto))
  {
  }

  lemma StepKeepsConsistent(w: World, op: Op)
    requires Consistent(w.mem) && Consistent(w.file) && ProperOp(op)
    ensures Consistent(Step(w, op).mem) && Consistent(Step(w, op).file)
  {
    match op
    case KnockOp(id, name, addr, now, auto, _) => KnockKeepsConsistent(w.mem, id, name, addr, now, auto);
    case ApproveOp(id, now, _) => assert Consistent(Approved(w.mem, id, now));
    case RevokeOp(id, now, _) =>
      if CanRevoke(w.mem, id) {
        assert Consistent(Revoked(w.mem, id, now));
      }
    case Restart(now) => assert Consistent(Pruned(w.file, now));
  }

  lemma {:induction false} AlwaysConsistent(ops: seq<Op>)
    requires forall op :: op in ops ==> ProperOp(op)
    ensures Consistent(Run(ops).mem) && Consistent(Run(ops).file)
  {
    if ops != [] {
      AlwaysConsistent(ops[..|ops| - 1]);
      assert ProperOp(ops[|ops| - 1]);
      StepKeepsConsistent(Run(ops[..|ops| - 1]), ops[|ops| - 1]);
    }
  }

  /** No knock, auto-approving or not, lets a revoked id in; only Approve does. */
  lemma {:induction false} KnocksNeverReadmit(ops: seq<Op>, more: seq<Op>, id: string)
    requires forall op :: op in ops ==> ProperOp(op)
    requires id in Run(ops).mem.revoked
    requires forall op :: op in more ==> (op.KnockOp? && op.id != "") || (op.RevokeOp? && op.id != "")
                                         || (op.ApproveOp? && op.id != id && op.id != "")
    ensures id in Run(ops + more).mem.revoked && id !in Run(ops + more).mem.approved
    ensures forall op :: op in ops + more ==> ProperOp(op)
  {
    if more == [] {
      assert ops + more == ops;
      AlwaysConsistent(ops);
    } else {
      var front := more[..|more| - 1];
      KnocksNeverReadmit(ops, front, id);
      assert (ops + more)[..|ops + more| - 1] == ops + front;
      AlwaysConsistent(ops + more);
    }
  }

  // ---------------------------------------------------------------- persistence

  predicate SameDecisions(a: Table, b: Table) {
    a.approved.Keys == b.approved.Keys && a.revoked.Keys == b.revoked.Keys
  }

  /** With every save succeeding, the file always holds the decisions and the knocks of memory. */
  lemma {:induction false} FileKeepsUp(ops: seq<Op>)
    requires forall op :: op in ops ==> !op.Restart? ==> op.saveOk
    ensures SameDecisions(Run(ops).file, Run(ops).mem)
    ensures forall id :: id in Run(ops).mem.pending ==>
              id in Run(ops).file.pending && Run(ops).file.pending[id] == Run(ops).mem.pending[id]
  {
    if ops != [] {
      FileKeepsUp(ops[..|ops| - 1]);
    }
  }

  /** A restart then gives the same approved and revoked sets and drops only stale knocks. */
  lemma RestartKeepsDecisions(ops: seq<Op>, now: int)
    requires forall op :: op in ops ==> !op.Restart? ==> op.saveOk
    ensures var was, after := Run(ops).mem, Run(ops + [Restart(now)]).mem;
            && SameDecisions(after, was)
            && forall id :: id in was.pending && now - was.pending[id].at <= PENDING_TTL ==>
                 id in after.pending && after.pending[id] == was.pending[id]
    ensures forall id :: id in Run(ops + [Restart(now)]).mem.pending ==>
              now - Run(ops + [Restart(now)]).mem.pending[id].at <= PENDING_TTL
  {
    FileKeepsUp(ops);
    assert (ops + [Restart(now)])[..|ops|] == ops;
  }

  /** Some operation among `more`, after `ops`, wrote the file. */
  predicate WasSaved(ops: seq<Op>, more: seq<Op>)
  {
    more != []
    && var front, last := more[..|more| - 1], more[|more| - 1];
       WasSaved(ops, front) || (WantsSave(Run(ops + front).mem, last) && last.saveOk)
  }

  /** Anything the node does in one process, but an approval of this id. */
  predicate LeavesRevoked(op: Op, id: string) {
    !op.Restart? && op.id != "" && !(op.ApproveOp? && op.id == id)
  }

  lemma {:induction false} FileFollowsRevocation(ops: seq<Op>, more: seq<Op>, id: string)
    requires forall op :: op in ops ==> ProperOp(op)
    requires id in Run(ops).mem.revoked
    requires forall op :: op in more ==> LeavesRevoked(op, id)
    ensures id in Run(ops + more).file.revoked <==> id in Run(ops).file.revoked || WasSaved(ops, more)
  {
    if more == [] {
      assert ops + more == ops;
    } else {
      var front, last := more[..|more| - 1], more[|more| - 1];
      FileFollowsRevocation(ops, front, id);
      KnocksNeverReadmit(ops, more, id);
      assert (ops + more)[..|ops + more| - 1] == ops + front;
      assert Run(ops + more) == Step(Run(ops + front), last);
    }
  }

  lemma Snoc(ops: seq<Op>, op: Op)
    ensures Run(ops + [op]) == Step(Run(ops), op)
  {
    assert (ops + [op])[..|ops|] == ops;
  }

  /**
   The save is what counts, exactly: after any history and whatever follows but an approval of the
   id, a revocation survives a restart if and only if it was saved, the file already held the id
   revoked, or some later operation saved the table.
   */
  lemma RevocationSurvivesIff(ops: seq<Op>, id: string, now: int, ok: bool, more: seq<Op>, later: int)
    requires (forall op :: op in ops ==> ProperOp(op)) && CanRevoke(Run(ops).mem, id)
    requires forall op :: op in more ==> LeavesRevoked(op, id)
    ensures var revoked := ops + [RevokeOp(id, now, ok)];
            var after := Run(revoked + more + [Restart(later)]).mem;
            && (id in after.revoked <==> ok || id in Run(ops).file.revoked || WasSaved(revoked, more))
            && (id in after.revoked ==> id !in after.approved)
  {
    var revoked := ops + [RevokeOp(id, now, ok)];
    AlwaysConsistent(ops);
    assert id != "";
    Snoc(ops, RevokeOp(id, now, ok));
    FileFollowsRevocation(revoked, more, id);
    AlwaysConsistent(revoked + more);
    Snoc(revoked + more, Restart(later));
  }

  /** Such a history: the revocation of an approved peer is not saved, and a restart lets the peer back in. */
  lemma UnsavedRevocationIsUndone(id: string, now: int)
    requires id != ""
    ensures var ops := [KnockOp(id, "n", "a", now, false, true), ApproveOp(id, now, true), RevokeOp(id, now, false)];
            && id in Run(ops).mem.revoked && id !in Run(ops).mem.approved
            && id in Run(ops + [Restart(now)]).mem.approved
  {
    var k, a, r := KnockOp(id, "n", "a", now, false, true), ApproveOp(id, now, true), RevokeOp(id, now, false);
    assert [k][..0] == [] && [k, a][..1] == [k] && [k, a, r][..2] == [k, a];
    assert ([k, a, r] + [Restart(now)])[..3] == [k, a, r];
    assert Run([k]) == Step(Run([]), k) && Run([k, a]) == Step(Run([k]), a);
    assert Run([k, a, r]) == Step(Run([k, a]), r);
  }

  /**
   What a knock leaves: a decision stands, an unknown id is approved or noted as asked, its entry
   shows the fresh data, and nobody else is touched but stale knocks.
   */
  lemma KnockShows(t: Table, id: string, name: string, addr: string, now: int, auto: bool)
    requires Consistent(t) && id != ""
    ensures var after, asked := Knocked(t, id, name, addr, now, auto), Entry(id, name, addr, now);
            && (if id in t.approved || (id !in t.revoked && auto)
                then id in after.approved && after.approved[id] == asked
                else if id in t.revoked then id in after.revoked && after.revoked[id] == asked
                else id in after.pending && after.pending[id] == asked)
            && (id in after.approved ==> id in t.approved || (id !in t.revoked && auto))
            && after.revoked.Keys == t.revoked.Keys
            && after.approved - {id} == t.approved - {id} && after.revoked - {id} == t.revoked - {id}
            && (forall other :: other in after.pending - {id} ==>
                  other in t.pending && after.pending[other] == t.pending[other])
            && (forall other :: other in t.pending - {id} && now - t.pending[other].at <= PENDING_TTL ==>
                  other in after.pending)
  {
  }

  /** What a revocation leaves: the entry as pending or approved showed it, under the new date, and nobody else. */
  lemma RevokeShows(t: Table, id: string, now: int)
    requires Consistent(t) && CanRevoke(t, id)
    ensures var after := Revoked(t, id, now);
            && id !in after.approved && id !in after.pending && id in after.revoked
            && after.revoked[id] == (if id in t.pending then t.pending[id] else t.approved[id]).(at := now)
            && after.approved == t.approved - {id} && after.revoked - {id} == t.revoked - {id}
            && (forall other :: other in after.pending ==>
                  other in t.pending && after.pending[other] == t.pending[other])
            && (forall other :: other in t.pending - {id} && now - t.pending[other].at <= PENDING_TTL ==>
                  other in after.pending)
  {
  }

  /** Exactly the knock of an unknown peer is saved: one of a known peer never touches the file. */
  lemma KnockSavesIffNew(w: World, id: string, name: string, addr: string, now: int, auto: bool, ok: bool)
    ensures var after := Step(w, KnockOp(id, name, addr, now, auto, ok));
            after.file == if id !in w.mem.approved && id !in w.mem.revoked && ok then after.mem else w.file
  {
  }

  /** A selector hits an entry if it begins its id or its name. */
  lemma SelectsIffPrefix(selector: string, id: string, e: Entry)
    ensures Selects(selector, id, e) <==> exists rest :: id == selector + rest || e.name == selector + rest
  {
    if selector <= id {
      assert id == selector + id[|selector|..];
    }
    if selector <= e.name {
      assert e.name == selector + e.name[|selector|..];
    }
  }

  /** Revoke finds whoever asked or was approved, and nobody else. */
  lemma CanRevokeIff(t: Table, id: string)
    requires Consistent(t)
    ensures CanRevoke(t, id) <==> id in t.pending || id in t.approved
  {
  }

  /** Approving keeps what a pending entry showed, and loses what a revoked one did. */
  lemma ApproveShows(t: Table, id: string, now: int)
    requires Consistent(t)
    ensures var after := Approved(t, id, now);
            && id in after.approved && id !in after.pending && id !in after.revoked
            && after.approved[id].name == (if id in t.pending then t.pending[id].name else "")
            && after.approved[id].addr == (if id in t.pending then t.pending[id].addr else "")
            && after.approved[id].id == id && after.approved[id].at == now
            && after.approved - {id} == t.approved - {id} && after.revoked == t.revoked - {id}
    ensures id in t.revoked ==> Approved(t, id, now).approved[id].name == ""
  {
  }
}
