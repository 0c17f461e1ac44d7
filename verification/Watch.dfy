/**
 The hot-plug watcher: one Tick compares an enumeration with the running collectors, debounces
 removals, closes fast swaps and keeps names unique.
 */
module Watch {
  import opened Sets
  import opened Text

  datatype Device = Device(key: string, name: string, byId: string)

  /** A device of one enumeration, and whether its log directory can be made. */
  datatype Found = Found(dev: Device, dirOk: bool)

  /** A running collector: which start it is, and the name it goes by. */
  datatype Coll = Coll(id: nat, name: string)

  /** A board-swap event: the name passed from one key to another. */
  datatype Swap = Swap(name: string, was: string, now: string)

  const REMOVE_MISS_TICKS := 3

  datatype State = State(
    collectors: map<string, Coll>,
    namesUsed: set<string>,
    misses: map<string, nat>,
    prevInst: map<string, string>,
    starts: nat,
    swaps: seq<Swap>)

  const EMPTY := State(map[], {}, map[], map[], 0, [])

  // ---------------------------------------------------------------- unique names

  function Candidate(base: string, token: string, i: nat): string {
    if i <= 1 then base + "-" + token else base + "-" + token + "-" + Decimal(i)
  }

  lemma CandidatesDiffer(base: string, token: string, i: nat, j: nat)
    requires 1 <= i < j
    ensures Candidate(base, token, i) != Candidate(base, token, j)
  {
    var stem := base + "-" + token + "-";
    assert Candidate(base, token, j)[|stem|..] == Decimal(j);
    if i > 1 {
      assert Candidate(base, token, i)[|stem|..] == Decimal(i);
      if Decimal(i) == Decimal(j) {
        DecimalIsInjective(i, j);
      }
    } else {
      assert |Candidate(base, token, j)| > |base + "-" + token|;
    }
  }

  ghost function Tried(base: string, token: string, i: nat): set<string> {
    set j | 1 <= j < i :: Candidate(base, token, j)
  }

  /** Pigeonhole: with i - 1 candidates all taken, the taken names still shrink by the next. */
  lemma TriedShrinks(base: string, token: string, used: set<string>, i: nat)
    requires i >= 1 && Candidate(base, token, i) in used
    ensures |used - Tried(base, token, i + 1)| < |used - Tried(base, token, i)|
  {
    var c := Candidate(base, token, i);
    assert c !in Tried(base, token, i) by {
      forall j | 1 <= j < i ensures Candidate(base, token, j) != c {
        CandidatesDiffer(base, token, j, i);
      }
    }
    assert c in Tried(base, token, i + 1);
    assert used - Tried(base, token, i + 1) <= (used - Tried(base, token, i)) - {c};
    SubsetIsSmaller(used - Tried(base, token, i + 1), (used - Tried(base, token, i)) - {c});
  }

  /** The first free numbered name from i on. */
  ghost function FirstFree(base: string, token: string, used: set<string>, i: nat): (n: nat)
    requires i >= 1
    ensures n >= i && Candidate(base, token, n) !in used
    ensures forall j :: i <= j < n ==> Candidate(base, token, j) in used
    decreases |used - Tried(base, token, i)|
  {
    if Candidate(base, token, i) !in used then i
    else
      TriedShrinks(base, token, used, i);
      FirstFree(base, token, used, i + 1)
  }

  ghost function DedupeName(base: string, token: string, used: set<string>): (name: string)
    ensures name !in used
    ensures name == base <==> base !in used
  {
    if base !in used then base
    else
      var name := Candidate(base, token, FirstFree(base, token, used, 1));
      assert |name| > |base|;
      name
  }

  // ---------------------------------------------------------------- one tick on values

  function Keys(found: seq<Found>): set<string> {
    set i | 0 <= i < |found| :: found[i].dev.key
  }

  /** The collectors a newcomer of this name displaces: same name, not seen in this enumeration. */
  function Displaced(s: State, name: string, seen: set<string>): set<string> {
    set k | k in s.collectors && s.collectors[k].name == name && k !in seen
  }

  function Names(s: State, keys: set<string>): set<string> {
    set k | k in keys && k in s.collectors :: s.collectors[k].name
  }

  function Remove(s: State, keys: set<string>): State {
    s.(collectors := s.collectors - keys, namesUsed := s.namesUsed - Names(s, keys), misses := s.misses - keys)
  }

  ghost function Start(s: State, dev: Device, token: string): State {
    var name := DedupeName(dev.name, token, s.namesUsed);
    var swapped := name in s.prevInst && s.prevInst[name] != dev.key;
    s.(collectors := s.collectors[dev.key := Coll(s.starts, name)],
       namesUsed := s.namesUsed + {name},
       prevInst := s.prevInst[name := dev.key],
       starts := s.starts + 1,
       swaps := if swapped then s.swaps + [Swap(name, s.prevInst[name], dev.key)] else s.swaps)
  }

  ghost function Admit(s: State, f: Found, seen: set<string>, token: (string, string) -> string): State {
    var t := s.(misses := s.misses - {f.dev.key});
    if f.dev.key in t.collectors then t
    else
      var u := Remove(t, Displaced(t, f.dev.name, seen));
      if f.dirOk then Start(u, f.dev, token(f.dev.key, f.dev.byId)) else u
  }

  ghost function AdmitAll(s: State, found: seq<Found>, seen: set<string>,
                          token: (string, string) -> string, n: nat): State
    requires n <= |found|
  {
    if n == 0 then s else Admit(AdmitAll(s, found, seen, token, n - 1), found[n - 1], seen, token)
  }

  function Missed(s: State, key: string): nat {
    if key in s.misses then s.misses[key] else 0
  }

  function Expired(s: State, seen: set<string>): set<string> {
    set k | k in s.collectors && k !in seen && Missed(s, k) + 1 >= REMOVE_MISS_TICKS
  }

  function Counted(s: State, seen: set<string>): State {
    s.(misses := map k | k in s.misses.Keys + (s.collectors.Keys - seen)
                   :: if k in s.collectors && k !in seen then Missed(s, k) + 1 else s.misses[k])
  }

  /** The removal pass: count a miss for everyone unseen, drop whoever reaches the limit. */
  function Sweep(s: State, seen: set<string>): State {
    Remove(Counted(s, seen), Expired(s, seen))
  }

  ghost function Ticked(s: State, found: seq<Found>, token: (string, string) -> string): State {
    Sweep(AdmitAll(s, found, Keys(found), token, |found|), Keys(found))
  }

  // ---------------------------------------------------------------- the watcher

  class Watcher {
    var collectors: map<string, Coll>
    var namesUsed: set<string>
    var misses: map<string, nat>
    var prevInst: map<string, string>
    var starts: nat
    var swaps: seq<Swap>
    /** nameToken: four characters derived from the stable identity of a board. */
    const token: (string, string) -> string

    function View(): State
      reads this
    {
      State(collectors, namesUsed, misses, prevInst, starts, swaps)
    }

    constructor (token: (string, string) -> string)
      ensures View() == EMPTY && this.token == token
    {
      this.token := token;
      collectors, namesUsed, misses, prevInst, starts, swaps := map[], {}, map[], map[], 0, [];
    }

    method Dedupe(base: string, key: string, byId: string) returns (name: string)
      ensures name == DedupeName(base, token(key, byId), namesUsed)
    {
      if base !in namesUsed {
        return base;
      }
      var tok := token(key, byId);
      var i := 1;
      ghost var n := FirstFree(base, tok, namesUsed, 1);
      while true
        invariant 1 <= i <= n
        decreases n - i
      {
        name := Candidate(base, tok, i);
        if name !in namesUsed {
          return;
        }
        i := i + 1;
      }
    }

    /** removeCollectorLocked, as far as the maps go. */
    method RemoveCollector(key: string)
      requires key in collectors
      modifies this
      ensures View() == Remove(old(View()), {key})
    {
      assert Names(View(), {key}) == {collectors[key].name};
      namesUsed := namesUsed - {collectors[key].name};
      collectors := collectors - {key};
      misses := misses - {key};
    }

    /** The scan for predecessors of the same name; the map may be walked in any order. */
    method CloseFastSwap(name: string, seen: set<string>)
      modifies this
      ensures View() == Remove(old(View()), Displaced(old(View()), name, seen))
    {
      var todo := collectors.Keys;
      ghost var was := View();
      ghost var gone: set<string> := {};
      assert Names(was, {}) == {};
      while todo != {}
        invariant todo <= collectors.Keys
        invariant gone == set k | k in Displaced(was, name, seen) && k !in todo
        invariant View() == Remove(was, gone)
        decreases todo
      {
        var k :| k in todo;
        todo := todo - {k};
        if collectors[k].name == name && k !in seen {
          RemoveTwice(was, gone, {k});
          RemoveCollector(k);
          gone := gone + {k};
        }
      }
      assert gone == Displaced(was, name, seen);
    }

    method AdmitOne(f: Found, seen: set<string>)
      modifies this
      ensures View() == Admit(old(View()), f, seen, token)
    {
      misses := misses - {f.dev.key};
      if f.dev.key in collectors {
        return;
      }
      CloseFastSwap(f.dev.name, seen);
      var name := Dedupe(f.dev.name, f.dev.key, f.dev.byId);
      namesUsed := namesUsed + {name};
      if !f.dirOk {
        namesUsed := namesUsed - {name};
        return;
      }
      collectors := collectors[f.dev.key := Coll(starts, name)];
      starts := starts + 1;
      if name in prevInst && prevInst[name] != f.dev.key {
        swaps := swaps + [Swap(name, prevInst[name], f.dev.key)];
      }
      prevInst := prevInst[name := f.dev.key];
    }

    method CountMiss(key: string)
      requires key in collectors
      modifies this
      ensures View() == MissOnce(old(View()), key)
    {
      misses := misses[key := (if key in misses then misses[key] else 0) + 1];
      if misses[key] >= REMOVE_MISS_TICKS {
        RemoveCollector(key);
      }
    }

    method SweepUnseen(seen: set<string>)
      modifies this
      ensures View() == Sweep(old(View()), seen)
    {
      var todo := collectors.Keys;
      ghost var was := View();
      ghost var done: set<string> := {};
      NothingSwept(was, seen);
      while todo != {}
        invariant todo <= was.collectors.Keys && done == was.collectors.Keys - todo
        invariant View() == SweptIn(was, seen, done)
        decreases todo
      {
        var key :| key in todo;
        todo := todo - {key};
        if key !in seen {
          OneSwept(was, seen, done, key);
          CountMiss(key);
        } else {
          OnePassed(was, seen, done, key);
        }
        done := done + {key};
      }
      AllSwept(was, seen);
      assert done == was.collectors.Keys;
    }

    /** A failed enumeration leaves everything alone. */
    method Tick(enumerated: bool, found: seq<Found>)
      modifies this
      ensures View() == if enumerated then Ticked(old(View()), found, token) else old(View())
    {
      if !enumerated {
        return;
      }
      var seen := Keys(found);
      ghost var was := View();
      for i := 0 to |found|
        invariant View() == AdmitAll(was, found, seen, token, i)
      {
        AdmitOne(found[i], seen);
      }
      SweepUnseen(seen);
    }
  }

  function CountedIn(s: State, seen: set<string>, done: set<string>): State {
    s.(misses := map k | k in s.misses.Keys + (s.collectors.Keys * done - seen)
                   :: if k in s.collectors && k in done && k !in seen then Missed(s, k) + 1 else s.misses[k])
  }

  /** The removal pass after the collectors in `done` were looked at. */
  function SweptIn(s: State, seen: set<string>, done: set<string>): State {
    Remove(CountedIn(s, seen, done), Expired(s, seen) * done)
  }

  lemma NothingSwept(s: State, seen: set<string>)
    ensures SweptIn(s, seen, {}) == s
  {
  }

  lemma AllSwept(s: State, seen: set<string>)
    ensures SweptIn(s, seen, s.collectors.Keys) == Sweep(s, seen)
  {
    assert CountedIn(s, seen, s.collectors.Keys) == Counted(s, seen);
    assert Expired(s, seen) * s.collectors.Keys == Expired(s, seen);
  }

  function Missing(s: State, key: string, n: nat): State {
    s.(misses := s.misses[key := n])
  }

  function MissOnce(s: State, key: string): State {
    var n := Missed(s, key) + 1;
    if n >= REMOVE_MISS_TICKS then Remove(Missing(s, key, n), {key}) else Missing(s, key, n)
  }

  lemma CountOne(s: State, seen: set<string>, done: set<string>, key: string)
    requires key in s.collectors && key !in done && key !in seen
    ensures CountedIn(s, seen, done + {key}) == Missing(CountedIn(s, seen, done), key, Missed(s, key) + 1)
    ensures Missed(CountedIn(s, seen, done), key) == Missed(s, key)
  {
  }

  lemma RemoveCommutes(s: State, keys: set<string>, key: string, n: nat)
    requires key !in keys
    ensures Remove(Missing(s, key, n), keys) == Missing(Remove(s, keys), key, n)
    ensures Missed(Remove(s, keys), key) == Missed(s, key)
  {
  }

  lemma RemoveOneMore(s: State, keys: set<string>, key: string)
    requires key !in keys && key in s.collectors
    ensures var n := Missed(s, key) + 1;
            Remove(Missing(s, key, n), if n >= REMOVE_MISS_TICKS then keys + {key} else keys)
            == MissOnce(Remove(s, keys), key)
  {
    var n := Missed(s, key) + 1;
    RemoveCommutes(s, keys, key, n);
    RemoveTwice(Missing(s, key, n), keys, {key});
  }

  /** Looking at one more unseen collector counts its miss and drops it at the limit. */
  lemma OneSwept(s: State, seen: set<string>, done: set<string>, key: string)
    requires key in s.collectors && key !in done && key !in seen
    ensures key in SweptIn(s, seen, done).collectors
    ensures SweptIn(s, seen, done + {key}) == MissOnce(SweptIn(s, seen, done), key)
  {
    CountOne(s, seen, done, key);
    ExpiredGrows(s, seen, done, key);
    RemoveOneMore(CountedIn(s, seen, done), Expired(s, seen) * done, key);
  }

  lemma ExpiredGrows(s: State, seen: set<string>, done: set<string>, key: string)
    requires key in s.collectors && key !in done && key !in seen
    ensures Expired(s, seen) * (done + {key}) ==
            if Missed(s, key) + 1 >= REMOVE_MISS_TICKS then Expired(s, seen) * done + {key} else Expired(s, seen) * done
  {
  }

  lemma OnePassed(s: State, seen: set<string>, done: set<string>, key: string)
    requires key in seen
    ensures SweptIn(s, seen, done + {key}) == SweptIn(s, seen, done)
  {
    assert CountedIn(s, seen, done + {key}) == CountedIn(s, seen, done);
    assert Expired(s, seen) * (done + {key}) == Expired(s, seen) * done;
  }

  lemma RemoveTwice(s: State, a: set<string>, b: set<string>)
    requires Injective(s) || a !! b
    ensures Remove(Remove(s, a), b) == Remove(s, a + b)
  {
  }

  predicate Injective(s: State) {
    forall j, k :: j in s.collectors && k in s.collectors && s.collectors[j].name == s.collectors[k].name ==> j == k
  }

  // ---------------------------------------------------------------- what every tick keeps

  /**
   Names in use are exactly the names of the running collectors, no two share one, misses belong
   to running collectors and stand at 1 or 2, and the last holder of a live name is its collector.
   */
  ghost predicate Inv(s: State) {
    && s.namesUsed == Names(s, s.collectors.Keys)
    && Injective(s)
    && s.misses.Keys <= s.collectors.Keys
    && (forall k :: k in s.misses ==> 1 <= s.misses[k] < REMOVE_MISS_TICKS)
    && (forall k :: k in s.collectors ==> Holds(s, k))
  }

  predicate Holds(s: State, k: string)
    requires k in s.collectors
  {
    s.collectors[k].name in s.prevInst && s.prevInst[s.collectors[k].name] == k
  }

  lemma RemoveKeepsInv(s: State, keys: set<string>)
    requires Inv(s)
    ensures Inv(Remove(s, keys))
  {
    var t := Remove(s, keys);
    forall k | k in t.collectors ensures s.collectors[k].name !in Names(s, keys) {
      assert Holds(s, k);
    }
    forall k | k in t.collectors ensures Holds(t, k) {
      assert Holds(s, k);
    }
    forall n | n in t.namesUsed ensures n in Names(t, t.collectors.Keys) {
      var k :| k in s.collectors && s.collectors[k].name == n;
      assert k !in keys && k in t.collectors && t.collectors[k].name == n;
    }
    forall n | n in Names(t, t.collectors.Keys) ensures n in t.namesUsed {
      var k :| k in t.collectors && t.collectors[k].name == n;
      assert n in Names(s, s.collectors.Keys);
    }
  }

  lemma StartKeepsInv(s: State, dev: Device, token: string)
    requires Inv(s) && dev.key !in s.collectors
    ensures Inv(Start(s, dev, token))
  {
    var t, name := Start(s, dev, token), DedupeName(dev.name, token, s.namesUsed);
    forall k | k in s.collectors ensures s.collectors[k].name != name {
      assert s.collectors[k].name in Names(s, s.collectors.Keys);
    }
    forall n | n in t.namesUsed ensures n in Names(t, t.collectors.Keys) {
      if n == name {
        assert t.collectors[dev.key].name == n;
      } else {
        var k :| k in s.collectors && s.collectors[k].name == n;
        assert k in t.collectors && t.collectors[k].name == n;
      }
    }
    forall n | n in Names(t, t.collectors.Keys) ensures n in t.namesUsed {
      var k :| k in t.collectors && t.collectors[k].name == n;
      assert k != dev.key ==> n in Names(s, s.collectors.Keys);
    }
    forall k | k in t.collectors ensures Holds(t, k) {
      assert k in s.collectors ==> Holds(s, k);
    }
  }

  lemma ForgetMissesKeepsInv(s: State, key: string)
    requires Inv(s)
    ensures Inv(s.(misses := s.misses - {key}))
  {
  }

  lemma AdmitKeepsInv(s: State, f: Found, seen: set<string>, token: (string, string) -> string)
    requires Inv(s)
    ensures Inv(Admit(s, f, seen, token))
  {
    var t := s.(misses := s.misses - {f.dev.key});
    ForgetMissesKeepsInv(s, f.dev.key);
    if f.dev.key !in t.collectors {
      RemoveKeepsInv(t, Displaced(t, f.dev.name, seen));
      if f.dirOk {
        StartKeepsInv(Remove(t, Displaced(t, f.dev.name, seen)), f.dev, token(f.dev.key, f.dev.byId));
      }
    }
  }

  lemma {:induction false} AdmitAllKeepsInv(s: State, found: seq<Found>, seen: set<string>,
                                            token: (string, string) -> string, n: nat)
    requires Inv(s) && n <= |found|
    ensures Inv(AdmitAll(s, found, seen, token, n))
  {
    if n > 0 {
      AdmitAllKeepsInv(s, found, seen, token, n - 1);
      AdmitKeepsInv(AdmitAll(s, found, seen, token, n - 1), found[n - 1], seen, token);
    }
  }

  /** Counting may bring a key to the bound; the sweep removes exactly those keys again. */
  lemma SweepKeepsInv(s: State, seen: set<string>)
    requires Inv(s)
    ensures Inv(Sweep(s, seen))
  {
    var c, e := Counted(s, seen), Expired(s, seen);
    var t := Remove(s, e);
    RemoveKeepsInv(s, e);
    var u := Sweep(s, seen);
    assert Names(c, e) == Names(s, e);
    assert u == t.(misses := u.misses);
    assert Names(u, u.collectors.Keys) == Names(t, t.collectors.Keys);
    forall k | k in u.collectors ensures Holds(u, k) { assert Holds(t, k); }
    forall k | k in u.misses ensures k in u.collectors && 1 <= u.misses[k] < REMOVE_MISS_TICKS {
      assert k in c.misses && k !in e;
    }
  }

  /** Since names are unique, the fast-swap scan removes at most one collector in any order. */
  lemma FastSwapRemovesAtMostOne(s: State, name: string, seen: set<string>)
    requires Inv(s)
    ensures |Displaced(s, name, seen)| <= 1
  {
    var d := Displaced(s, name, seen);
    if d != {} {
      var k :| k in d;
      assert d == {k};
    }
  }

  // ---------------------------------------------------------------- misses count history

  /** How many enumerations in a row, up to the latest, did not contain the key. */
  function Trailing(history: seq<set<string>>, key: string): nat {
    if history == [] || key in history[|history| - 1] then 0
    else 1 + Trailing(history[..|history| - 1], key)
  }

  ghost predicate CountsHistory(s: State, history: seq<set<string>>) {
    forall k :: k in s.collectors ==> Missed(s, k) == Trailing(history, k)
  }

  predicate Occurs(found: seq<Found>, n: nat, key: string)
    requires n <= |found|
  {
    exists i :: 0 <= i < n && found[i].dev.key == key
  }

  lemma MissedAfterAdmit(t: State, f: Found, seen: set<string>, token: (string, string) -> string, k: string)
    requires k in Admit(t, f, seen, token).collectors
    requires t.misses.Keys <= t.collectors.Keys
    ensures Missed(Admit(t, f, seen, token), k) == if k == f.dev.key then 0 else Missed(t, k)
    ensures k in t.collectors || k == f.dev.key
  {
  }

  lemma OccursStep(found: seq<Found>, n: nat, key: string)
    requires 0 < n <= |found|
    ensures Occurs(found, n, key) <==> Occurs(found, n - 1, key) || found[n - 1].dev.key == key
  {
  }

  /** After admitting n devices: seen ones have no misses, the others theirs; starts are seen ones. */
  lemma {:induction false} AdmittedMisses(s: State, found: seq<Found>, seen: set<string>,
                                          token: (string, string) -> string, n: nat, k: string)
    requires Inv(s) && n <= |found|
    requires k in AdmitAll(s, found, seen, token, n).collectors
    ensures Missed(AdmitAll(s, found, seen, token, n), k) == if Occurs(found, n, k) then 0 else Missed(s, k)
    ensures k in s.collectors || Occurs(found, n, k)
  {
    if n > 0 {
      var before := AdmitAll(s, found, seen, token, n - 1);
      AdmitAllKeepsInv(s, found, seen, token, n - 1);
      OccursStep(found, n, k);
      MissedAfterAdmit(before, found[n - 1], seen, token, k);
      if k in before.collectors {
        AdmittedMisses(s, found, seen, token, n - 1, k);
      }
    }
  }

  lemma TickCountsHistory(s: State, history: seq<set<string>>, found: seq<Found>, token: (string, string) -> string)
    requires Inv(s) && CountsHistory(s, history)
    ensures Inv(Ticked(s, found, token)) && CountsHistory(Ticked(s, found, token), history + [Keys(found)])
  {
    var seen, t := Keys(found), AdmitAll(s, found, Keys(found), token, |found|);
    AdmitAllKeepsInv(s, found, seen, token, |found|);
    SweepKeepsInv(t, seen);
    var u := Ticked(s, found, token);
    forall k | k in u.collectors ensures Missed(u, k) == Trailing(history + [seen], k) {
      AdmittedMisses(s, found, seen, token, |found|, k);
      assert Occurs(found, |found|, k) <==> k in seen;
      assert (history + [seen])[..|history|] == history;
    }
  }

  // ---------------------------------------------------------------- whole histories

  datatype Enumeration = Failed | Listed(found: seq<Found>)

  ghost function After(ticks: seq<Enumeration>, token: (string, string) -> string): State {
    if ticks == [] then EMPTY
    else
      var s, e := After(ticks[..|ticks| - 1], token), ticks[|ticks| - 1];
      if e.Failed? then s else Ticked(s, e.found, token)
  }

  /** The key sets of the successful enumerations. */
  function History(ticks: seq<Enumeration>): seq<set<string>> {
    if ticks == [] then []
    else
      var h, e := History(ticks[..|ticks| - 1]), ticks[|ticks| - 1];
      if e.Failed? then h else h + [Keys(e.found)]
  }

  /** Over all tick histories: the invariant, and misses equal to the unseen run of each collector. */
  lemma {:induction false} MissesCountUnseen(ticks: seq<Enumeration>, token: (string, string) -> string)
    ensures Inv(After(ticks, token)) && CountsHistory(After(ticks, token), History(ticks))
    ensures forall k :: k in After(ticks, token).collectors ==> Trailing(History(ticks), k) < REMOVE_MISS_TICKS
  {
    if ticks == [] {
      assert Names(EMPTY, EMPTY.collectors.Keys) == {};
    } else {
      var front, e := ticks[..|ticks| - 1], ticks[|ticks| - 1];
      MissesCountUnseen(front, token);
      if e.Listed? {
        TickCountsHistory(After(front, token), History(front), e.found, token);
      }
    }
    var s := After(ticks, token);
    assert forall k :: k in s.collectors ==> Missed(s, k) < REMOVE_MISS_TICKS;
  }

  // ---------------------------------------------------------------- who is removed, exactly

  /** The i-th device of the enumeration has no collector when its turn comes. */
  ghost predicate Arrives(s: State, found: seq<Found>, token: (string, string) -> string, i: nat) {
    i < |found| && found[i].dev.key !in AdmitAll(s, found, Keys(found), token, i).collectors
  }

  ghost predicate DisplacedBy(s: State, found: seq<Found>, token: (string, string) -> string, n: nat, k: string)
    requires k in s.collectors
  {
    exists i :: 0 <= i < n && Arrives(s, found, token, i) && found[i].dev.name == s.collectors[k].name
  }

  /** What became of an old collector: untouched, or gone. */
  predicate Fate(s: State, t: State, k: string, gone: bool)
    requires k in s.collectors
  {
    if gone then k !in t.collectors else k in t.collectors && t.collectors[k] == s.collectors[k]
  }

  lemma FateStep(s: State, found: seq<Found>, token: (string, string) -> string, n: nat, k: string, gone: bool)
    requires 0 < n <= |found| && k in s.collectors && (gone ==> k !in Keys(found))
    requires Fate(s, AdmitAll(s, found, Keys(found), token, n - 1), k, gone)
    ensures var displaced := Arrives(s, found, token, n - 1) && found[n - 1].dev.name == s.collectors[k].name;
            Fate(s, AdmitAll(s, found, Keys(found), token, n), k, gone || (k !in Keys(found) && displaced))
  {
  }

  lemma DisplacedByStep(s: State, found: seq<Found>, token: (string, string) -> string, n: nat, k: string)
    requires 0 < n <= |found| && k in s.collectors
    ensures DisplacedBy(s, found, token, n, k) <==>
              DisplacedBy(s, found, token, n - 1, k)
              || (Arrives(s, found, token, n - 1) && found[n - 1].dev.name == s.collectors[k].name)
  {
  }

  /** After n admissions an old collector is untouched, or gone if it is unseen and displaced. */
  ghost predicate FateIs(s: State, found: seq<Found>, token: (string, string) -> string, n: nat, k: string)
    requires n <= |found| && k in s.collectors
  {
    Fate(s, AdmitAll(s, found, Keys(found), token, n), k, k !in Keys(found) && DisplacedBy(s, found, token, n, k))
  }

  lemma FateGoesOn(s: State, found: seq<Found>, token: (string, string) -> string, n: nat, k: string)
    requires 0 < n <= |found| && k in s.collectors && FateIs(s, found, token, n - 1, k)
    ensures FateIs(s, found, token, n, k)
  {
    DisplacedByStep(s, found, token, n, k);
    FateStep(s, found, token, n, k, k !in Keys(found) && DisplacedBy(s, found, token, n - 1, k));
  }

  lemma {:induction false} SurvivesAdmission(s: State, found: seq<Found>, token: (string, string) -> string,
                                             n: nat, k: string)
    requires n <= |found| && k in s.collectors
    ensures FateIs(s, found, token, n, k)
  {
    if n == 0 {
      assert !DisplacedBy(s, found, token, 0, k);
    } else {
      SurvivesAdmission(s, found, token, n - 1, k);
      FateGoesOn(s, found, token, n, k);
    }
  }

  /**
   Open once.  A running collector is the same one after the tick unless it went unseen and either
   that was its third unseen enumeration in a row or a newcomer of exactly its name arrived; then
   it is gone.  A key that is seen keeps its collector whatever happens.
   */
  lemma RemovedIffThirdMissOrReplaced(ticks: seq<Enumeration>, found: seq<Found>,
                                      token: (string, string) -> string, k: string)
    requires k in After(ticks, token).collectors
    ensures var s, u := After(ticks, token), After(ticks + [Listed(found)], token);
            var unseen := Trailing(History(ticks + [Listed(found)]), k);
            if unseen > 0 && (unseen == REMOVE_MISS_TICKS || DisplacedBy(s, found, token, |found|, k))
            then k !in u.collectors
            else k in u.collectors && u.collectors[k] == s.collectors[k]
  {
    var all := ticks + [Listed(found)];
    assert all[..|all| - 1] == ticks;
    var s, seen := After(ticks, token), Keys(found);
    var t := AdmitAll(s, found, seen, token, |found|);
    MissesCountUnseen(ticks, token);
    SurvivesAdmission(s, found, token, |found|, k);
    assert (History(ticks) + [seen])[..|History(ticks)|] == History(ticks);
    if k in t.collectors {
      AdmittedMisses(s, found, seen, token, |found|, k);
      assert Occurs(found, |found|, k) <==> k in seen;
    }
  }

  /** The history as if no enumeration had ever failed. */
  function Succeeded(ticks: seq<Enumeration>): seq<Enumeration> {
    if ticks == [] then []
    else
      var front, e := Succeeded(ticks[..|ticks| - 1]), ticks[|ticks| - 1];
      if e.Listed? then front + [e] else front
  }

  /** Failed enumerations, wherever they fall, leave no trace: no miss counted, no board removed. */
  lemma {:induction false} FailedEnumerationsAreInvisible(ticks: seq<Enumeration>,
                                                          token: (string, string) -> string)
    ensures After(ticks, token) == After(Succeeded(ticks), token)
    ensures History(ticks) == History(Succeeded(ticks))
  {
    if ticks != [] {
      var front, e := ticks[..|ticks| - 1], ticks[|ticks| - 1];
      FailedEnumerationsAreInvisible(front, token);
      if e.Listed? {
        assert (Succeeded(front) + [e])[..|Succeeded(front)|] == Succeeded(front);
      }
    }
  }

  // ---------------------------------------------------------------- who gets which name

  /**
   A newcomer gets its bare name exactly when no board of that name is present in the enumeration;
   an unseen predecessor is removed for it and the swap is reported.
   */
  lemma NewcomerName(s: State, f: Found, seen: set<string>, token: (string, string) -> string)
    requires Inv(s) && f.dev.key !in s.collectors && f.dirOk
    ensures var u := Admit(s, f, seen, token);
            && f.dev.key in u.collectors
            && (u.collectors[f.dev.key].name == f.dev.name <==>
                  !exists k :: k in s.collectors && k in seen && s.collectors[k].name == f.dev.name)
    ensures forall k :: k in Displaced(s, f.dev.name, seen) ==>
              var u := Admit(s, f, seen, token);
              && k !in u.collectors
              && u.collectors[f.dev.key].name == f.dev.name
              && u.swaps == s.swaps + [Swap(f.dev.name, k, f.dev.key)]
  {
  }

  /** A swap is reported exactly if the name was last given to another key, and the newcomer holds it from then on. */
  lemma SwapIffOtherHolder(s: State, f: Found, seen: set<string>, token: (string, string) -> string)
    requires Inv(s) && f.dev.key !in s.collectors && f.dirOk
    ensures var u := Admit(s, f, seen, token);
            && f.dev.key in u.collectors
            && var name := u.collectors[f.dev.key].name;
               && name in u.prevInst && u.prevInst[name] == f.dev.key
               && u.prevInst - {name} == s.prevInst - {name}
               && (if name in s.prevInst && s.prevInst[name] != f.dev.key
                   then u.swaps == s.swaps + [Swap(name, s.prevInst[name], f.dev.key)]
                   else u.swaps == s.swaps)
  {
  }

  /** Every collector is a start of its own, and later starts have greater numbers. */
  predicate FreshIds(s: State) {
    && (forall k :: k in s.collectors ==> s.collectors[k].id < s.starts)
    && (forall j, k :: j in s.collectors && k in s.collectors && s.collectors[j].id == s.collectors[k].id ==> j == k)
  }

  lemma AdmitKeepsFresh(s: State, f: Found, seen: set<string>, token: (string, string) -> string)
    requires FreshIds(s)
    ensures FreshIds(Admit(s, f, seen, token)) && s.starts <= Admit(s, f, seen, token).starts
    ensures forall k :: k in Admit(s, f, seen, token).collectors ==>
              (k in s.collectors && Admit(s, f, seen, token).collectors[k] == s.collectors[k])
              || Admit(s, f, seen, token).collectors[k].id >= s.starts
  {
  }

  lemma {:induction false} AdmitAllKeepsFresh(s: State, found: seq<Found>, seen: set<string>,
                                             token: (string, string) -> string, n: nat)
    requires FreshIds(s) && n <= |found|
    ensures FreshIds(AdmitAll(s, found, seen, token, n))
  {
    if n > 0 {
      AdmitAllKeepsFresh(s, found, seen, token, n - 1);
      AdmitKeepsFresh(AdmitAll(s, found, seen, token, n - 1), found[n - 1], seen, token);
    }
  }

  /** So two collectors with one number are one and the same, in every history. */
  lemma {:induction false} CollectorsAreFresh(ticks: seq<Enumeration>, token: (string, string) -> string)
    ensures FreshIds(After(ticks, token))
  {
    if ticks != [] {
      var front, e := ticks[..|ticks| - 1], ticks[|ticks| - 1];
      CollectorsAreFresh(front, token);
      if e.Listed? {
        AdmitAllKeepsFresh(After(front, token), e.found, Keys(e.found), token, |e.found|);
      }
    }
  }
}
