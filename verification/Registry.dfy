/** The peer registry of the mesh: beacons, static seeds, learned identities, expiry. */
module Registry {

  /** `id` is empty for a static seed that has not shaken hands yet. */
  datatype Peer = Peer(id: string, name: string, addr: string, isStatic: bool, lastSeen: int)

  type Peers = map<string, Peer>

  const SEED_PREFIX := "static:"

  predicate IsSeedKey(key: string) {
    SEED_PREFIX <= key
  }

  function SeedKey(addr: string): string {
    SEED_PREFIX + addr
  }

  // ---------------------------------------------------------------- single updates

  function Upsert(peers: Peers, id: string, name: string, addr: string, now: int): Peers {
    if id in peers then peers[id := peers[id].(name := name, addr := addr, lastSeen := now)]
    else peers[id := Peer(id, name, addr, false, now)]
  }

  function Learned(peers: Peers, addr: string, id: string, name: string, now: int): Peers {
    var key := SeedKey(addr);
    if key in peers then
      (peers - {key})[id := peers[key].(id := id, name := name, lastSeen := now)]
    else if id in peers then
      peers[id := peers[id].(name := name, addr := addr, lastSeen := now)]
    else
      peers[id := Peer(id, name, addr, true, now)]
  }

  predicate IsStale(p: Peer, now: int, ttl: int) {
    !p.isStatic && now - p.lastSeen >= ttl
  }

  ghost predicate HasAddr(peers: Peers, addr: string) {
    exists k :: k in peers && peers[k].addr == addr
  }

  ghost predicate HasStatic(peers: Peers, addr: string) {
    exists k :: k in peers && peers[k].addr == addr && peers[k].isStatic
  }

  function Touched(peers: Peers, id: string, now: int): Peers {
    if id in peers then peers[id := peers[id].(lastSeen := now)] else peers
  }

  // ---------------------------------------------------------------- configured seeds

  /** unicode.IsSpace: the characters with the property White_Space. */
  predicate IsSpace(c: char) {
    || c in {' ', '\t', '\n', '\r', '\U{000B}', '\U{000C}', '\U{0085}', '\U{00A0}', '\U{1680}'}
    || '\U{2000}' <= c <= '\U{200A}'
    || c in {'\U{2028}', '\U{2029}', '\U{202F}', '\U{205F}', '\U{3000}'}
  }

  function Trim(s: string): string {
    if s == "" then s
    else if IsSpace(s[0]) then Trim(s[1..])
    else if IsSpace(s[|s| - 1]) then Trim(s[..|s| - 1])
    else s
  }

  function Configured(addrs: seq<string>): set<string> {
    if addrs == [] then {}
    else
      var before, a := Configured(addrs[..|addrs| - 1]), Trim(addrs[|addrs| - 1]);
      if a == "" then before else before + {a}
  }

  /** What SetStatic may change about a peer that is not a placeholder: the static flag. */
  ghost predicate SameButFlag(p: Peer, q: Peer) {
    q == p.(isStatic := q.isStatic)
  }

  /** The placeholder key of an unknown address is taken by a peer at another address. */
  ghost predicate Misplaced(peers: Peers, addr: string) {
    !HasAddr(peers, addr) && SeedKey(addr) in peers
  }

  /**
   An entry sits under its own id; a placeholder is static, has no id and sits under its own address.
   So no id is registered twice, and no placeholder key is taken by a peer at another address.
   */
  predicate IsKeyed(peers: Peers) {
    forall k :: k in peers ==> IsKeyOf(k, peers[k])
  }

  predicate IsKeyOf(key: string, p: Peer) {
    if IsSeedKey(key) then p.id == "" && key == SeedKey(p.addr) && p.isStatic else p.id == key
  }

  lemma KeyedIsPlaced(peers: Peers, addr: string)
    requires IsKeyed(peers)
    ensures !Misplaced(peers, addr)
  {
    if SeedKey(addr) in peers {
      assert IsSeedKey(SeedKey(addr));
      SameSeed(addr, peers[SeedKey(addr)].addr);
    }
  }

  lemma SameSeed(a: string, b: string)
    requires SeedKey(a) == SeedKey(b)
    ensures a == b
  {
    assert SeedKey(a)[|SEED_PREFIX|..] == a && SeedKey(b)[|SEED_PREFIX|..] == b;
  }

  lemma StaticKeepsKeys(was: Peers, peers: Peers, seen: set<string>)
    requires IsKeyed(was) && StaticIs(was, peers, seen)
    ensures IsKeyed(peers) && forall a :: a in seen ==> HasStatic(peers, a)
  {
    forall k | k in peers ensures IsKeyOf(k, peers[k]) {
      if k in was {
        assert SameButFlag(was[k], peers[k]);
      } else {
        var a :| a in seen && IsSeedOf(k, peers[k], a);
        assert IsSeedKey(k);
      }
    }
    forall a | a in seen ensures HasStatic(peers, a) {
      KeyedIsPlaced(was, a);
    }
  }

  /** Everything SetStatic promises about the table it leaves behind. */
  ghost predicate StaticIs(was: Peers, peers: Peers, seen: set<string>) {
    // static peers are at configured addresses, and every configured address has one
    // unless its placeholder key was taken
    && (forall k :: k in peers && peers[k].isStatic ==> peers[k].addr in seen)
    && (forall a :: a in seen ==> (HasStatic(peers, a) <==> !Misplaced(was, a)))
    // learned peers are never dropped and only their flag moves
    && (forall k :: k in was && !IsSeedKey(k) ==> k in peers && SameButFlag(was[k], peers[k]))
    && (forall k :: k in peers && k in was ==> SameButFlag(was[k], peers[k]))
    && (forall k :: k in peers && k in was && was[k].isStatic && was[k].addr in seen ==> peers[k].isStatic)
    // placeholders go exactly if their address is not configured any more
    && (forall k :: k in was && IsSeedKey(k) && was[k].isStatic ==> (k in peers <==> was[k].addr in seen))
    && (forall k :: k in was && IsSeedKey(k) && !was[k].isStatic && !IsSeedOfAny(k, seen) ==> k in peers)
    // nothing appears but placeholders of configured addresses
    && (forall k :: k in peers && k !in was ==> exists a :: a in seen && IsSeedOf(k, peers[k], a))
  }

  ghost predicate IsSeedOfAny(key: string, all: set<string>) {
    exists a :: a in all && key == SeedKey(a)
  }

  ghost predicate IsSeedOf(key: string, p: Peer, a: string) {
    key == SeedKey(a) && p == Peer("", "", a, true, p.lastSeen)
  }

  /** The table while SetStatic walks the configuration: flags raised, placeholders added. */
  ghost predicate Raising(was: Peers, peers: Peers, all: set<string>, done: set<string>) {
    && done <= all
    && (forall a :: a in done ==> HasStatic(peers, a) || Misplaced(was, a))
    && (forall k :: k in was ==> k in peers && SameButFlag(was[k], peers[k]))
    && (forall k :: k in was && was[k].isStatic ==> peers[k].isStatic)
    && (forall k :: k in was && peers[k].isStatic ==> was[k].isStatic || was[k].addr in all || IsSeedOfAny(k, all))
    && (forall k :: k in peers && k !in was ==> exists a :: a in all && IsSeedOf(k, peers[k], a))
  }

  lemma RaisedFlag(was: Peers, peers: Peers, all: set<string>, done: set<string>, key: string, a: string)
    requires Raising(was, peers, all, done) && a in all
    requires key in peers && (peers[key].addr == a || (key == SeedKey(a) && Misplaced(was, a)))
    ensures Raising(was, peers[key := peers[key].(isStatic := true)], all, done + {a})
  {
    var after := peers[key := peers[key].(isStatic := true)];
    assert key in after && after[key].addr == peers[key].addr && after[key].isStatic;
    forall b | b in done && !Misplaced(was, b) ensures HasStatic(after, b) {
      var k :| k in peers && peers[k].addr == b && peers[k].isStatic;
      assert k in after && after[k].addr == b && after[k].isStatic;
    }
  }

  lemma AddedSeed(was: Peers, peers: Peers, all: set<string>, done: set<string>, a: string)
    requires Raising(was, peers, all, done) && a in all && SeedKey(a) !in peers
    ensures Raising(was, peers[SeedKey(a) := Peer("", "", a, true, 0)], all, done + {a})
  {
    var after := peers[SeedKey(a) := Peer("", "", a, true, 0)];
    assert SeedKey(a) in after && after[SeedKey(a)].isStatic;
    assert IsSeedOf(SeedKey(a), after[SeedKey(a)], a);
    forall b | b in done && !Misplaced(was, b) ensures HasStatic(after, b) {
      var k :| k in peers && peers[k].addr == b && peers[k].isStatic;
      assert k in after && after[k].addr == b && after[k].isStatic;
    }
  }

  lemma NewKeyHasItsAddr(was: Peers, peers: Peers, all: set<string>, done: set<string>, a: string)
    requires Raising(was, peers, all, done) && SeedKey(a) in peers && SeedKey(a) !in was
    ensures peers[SeedKey(a)].addr == a
  {
    var b :| b in all && IsSeedOf(SeedKey(a), peers[SeedKey(a)], b);
    SameSeed(a, b);
  }

  lemma TakenKeyWasTaken(was: Peers, peers: Peers, all: set<string>, done: set<string>, a: string)
    requires Raising(was, peers, all, done) && SeedKey(a) in peers && !HasAddr(peers, a)
    ensures Misplaced(was, a)
  {
    if SeedKey(a) !in was {
      NewKeyHasItsAddr(was, peers, all, done, a);
    }
  }

  /** The second pass drops unconfigured placeholders and lowers the flag of everyone else. */
  function Lowered(peers: Peers, seen: set<string>): Peers {
    map k | k in peers && !(peers[k].isStatic && IsSeedKey(k) && peers[k].addr !in seen)
      :: if peers[k].isStatic && peers[k].addr !in seen then peers[k].(isStatic := false) else peers[k]
  }

  lemma LoweredKeepsStatic(peers: Peers, seen: set<string>, a: string)
    requires HasStatic(peers, a) && a in seen
    ensures HasStatic(Lowered(peers, seen), a)
  {
    var k :| k in peers && peers[k].addr == a && peers[k].isStatic;
    assert k in Lowered(peers, seen) && Lowered(peers, seen)[k] == peers[k];
  }

  lemma LoweredFrom(peers: Peers, seen: set<string>, a: string)
    ensures HasStatic(Lowered(peers, seen), a) ==> HasStatic(peers, a)
  {
    if k :| k in Lowered(peers, seen) && Lowered(peers, seen)[k].addr == a && Lowered(peers, seen)[k].isStatic {
      assert k in peers && peers[k].addr == a && peers[k].isStatic;
    }
  }

  lemma MisplacedIsNotRaised(was: Peers, peers: Peers, all: set<string>, a: string)
    requires Raising(was, peers, all, all) && Misplaced(was, a)
    ensures !HasStatic(peers, a)
  {
    forall k | k in peers ensures peers[k].addr != a {
      if k in was {
        assert SameButFlag(was[k], peers[k]);
      } else {
        var b :| b in all && IsSeedOf(k, peers[k], b);
      }
    }
  }

  lemma LoweredIsStatic(was: Peers, peers: Peers, seen: set<string>)
    requires Raising(was, peers, seen, seen)
    ensures StaticIs(was, Lowered(peers, seen), seen)
  {
    var after := Lowered(peers, seen);
    forall a | a in seen ensures HasStatic(after, a) <==> !Misplaced(was, a) {
      if Misplaced(was, a) {
        MisplacedIsNotRaised(was, peers, seen, a);
        LoweredFrom(peers, seen, a);
      } else {
        LoweredKeepsStatic(peers, seen, a);
      }
    }
  }

  // ---------------------------------------------------------------- the registry

  class Table {
    var peers: Peers
    const ttl: int

    constructor (ttl: int)
      ensures peers == map[] && this.ttl == ttl
    {
      this.ttl := ttl;
      peers := map[];
    }

    /** The peer of a beacon is fresh, reachable where the beacon came from, and nobody else changed. */
    method UpsertBeacon(id: string, name: string, addr: string, now: int)
      modifies this
      ensures peers == Upsert(old(peers), id, name, addr, now)
      ensures id in peers && peers[id].name == name && HasAddr(peers, addr)
      ensures ttl > 0 ==> !IsStale(peers[id], now, ttl)
      ensures peers[id].isStatic <==> id in old(peers) && old(peers)[id].isStatic
      ensures peers - {id} == old(peers) - {id}
      ensures IsKeyed(old(peers)) && !IsSeedKey(id) ==> IsKeyed(peers)
    {
      if id in peers {
        var p := peers[id];
        peers := peers[id := p.(name := name, addr := addr, lastSeen := now)];
        return;
      }
      peers := peers[id := Peer(id, name, addr, false, now)];
    }

    /** A handshake leaves its peer fresh under its id and no placeholder of its address. */
    method LearnedIdent(addr: string, id: string, name: string, now: int)
      modifies this
      ensures peers == Learned(old(peers), addr, id, name, now)
      ensures id in peers && peers[id].name == name && (ttl > 0 ==> !IsStale(peers[id], now, ttl))
      ensures SeedKey(addr) in peers ==> id == SeedKey(addr)
      ensures peers[id].isStatic <==>
                if SeedKey(addr) in old(peers) then old(peers)[SeedKey(addr)].isStatic
                else id in old(peers) ==> old(peers)[id].isStatic
      ensures IsKeyed(old(peers)) ==> peers[id].addr == addr && HasAddr(peers, addr)
      ensures peers - {id, SeedKey(addr)} == old(peers) - {id, SeedKey(addr)}
      ensures IsKeyed(old(peers)) && !IsSeedKey(id) ==> IsKeyed(peers)
    {
      var key := SeedKey(addr);
      if key in peers {
        var p := peers[key];
        if IsKeyed(peers) {
          SameSeed(addr, p.addr);
        }
        peers := peers - {key};
        peers := peers[id := p.(id := id, name := name, lastSeen := now)];
        return;
      }
      if id in peers {
        peers := peers[id := peers[id].(name := name, addr := addr, lastSeen := now)];
        return;
      }
      peers := peers[id := Peer(id, name, addr, true, now)];
    }

    /** A successful dial: a known peer is fresh again, an unknown one stays unknown. */
    method Touch(id: string, now: int)
      modifies this
      ensures peers == Touched(old(peers), id, now)
      ensures peers.Keys == old(peers).Keys && peers - {id} == old(peers) - {id}
      ensures id in peers && ttl > 0 ==> !IsStale(peers[id], now, ttl)
      ensures IsKeyed(old(peers)) ==> IsKeyed(peers)
    {
      if id in peers {
        peers := peers[id := peers[id].(lastSeen := now)];
      }
    }

    /** Exactly the stale beacon peers go; the result names them. */
    method Expire(now: int) returns (removed: seq<string>)
      modifies this
      ensures peers == map k | k in old(peers) && !IsStale(old(peers)[k], now, ttl) :: old(peers)[k]
      ensures forall k :: k in removed <==> k in old(peers) && IsStale(old(peers)[k], now, ttl)
    {
      removed := [];
      var todo := peers.Keys;
      while todo != {}
        invariant todo <= peers.Keys
        invariant peers == map k | k in old(peers) && (k in todo || !IsStale(old(peers)[k], now, ttl)) :: old(peers)[k]
        invariant forall k :: k in removed <==> k in old(peers) && k !in todo && IsStale(old(peers)[k], now, ttl)
        decreases todo
      {
        var id :| id in todo;
        todo := todo - {id};
        if IsStale(peers[id], now, ttl) {
          peers := peers - {id};
          removed := removed + [id];
        }
      }
    }

    method ByKey(key: string) returns (found: bool, p: Peer)
      ensures found == (key in peers) && (found ==> p == peers[key])
    {
      found := key in peers;
      p := if found then peers[key] else Peer("", "", "", false, 0);
    }

    method ByAddr(addr: string) returns (found: bool, p: Peer)
      ensures found == HasAddr(peers, addr)
      ensures found ==> p.addr == addr && exists k :: k in peers && peers[k] == p
    {
      var k;
      found, k := KeyAt(addr);
      p := if found then peers[k] else Peer("", "", "", false, 0);
    }

    /** The scan over the map that ByAddr and SetStatic share. */
    method KeyAt(addr: string) returns (found: bool, key: string)
      ensures found == HasAddr(peers, addr)
      ensures found ==> key in peers && peers[key].addr == addr
    {
      var todo := peers.Keys;
      while todo != {}
        invariant todo <= peers.Keys
        invariant forall k :: k in peers && k !in todo ==> peers[k].addr != addr
        decreases todo
      {
        var k :| k in todo;
        todo := todo - {k};
        if peers[k].addr == addr {
          return true, k;
        }
      }
      return false, "";
    }

    method SetStatic(addrs: seq<string>)
      modifies this
      ensures StaticIs(old(peers), peers, Configured(addrs))
      ensures IsKeyed(old(peers)) ==>
                IsKeyed(peers) && forall a :: a in Configured(addrs) ==> HasStatic(peers, a)
    {
      ghost var all := Configured(addrs);
      var seen: set<string> := {};
      for i := 0 to |addrs|
        invariant seen == Configured(addrs[..i])
        invariant Raising(old(peers), peers, all, seen)
      {
        assert addrs[..i + 1][..i] == addrs[..i];
        ConfiguredGrows(addrs, i + 1);
        var a := Trim(addrs[i]);
        if a == "" {
          continue;
        }
        ghost var done := seen;
        seen := seen + {a};
        var found, k := KeyAt(a);
        if found {
          RaisedFlag(old(peers), peers, all, done, k, a);
          peers := peers[k := peers[k].(isStatic := true)];
          continue;
        }
        var key := SeedKey(a);
        if key in peers {
          TakenKeyWasTaken(old(peers), peers, all, done, a);
          RaisedFlag(old(peers), peers, all, done, key, a);
          peers := peers[key := peers[key].(isStatic := true)];
        } else {
          AddedSeed(old(peers), peers, all, done, a);
          peers := peers[key := Peer("", "", a, true, 0)];
        }
      }
      assert addrs[..|addrs|] == addrs;
      LoweredIsStatic(old(peers), peers, seen);
      Lower(seen);
      if IsKeyed(old(peers)) {
        StaticKeepsKeys(old(peers), peers, seen);
      }
    }

    method Lower(seen: set<string>)
      modifies this
      ensures peers == Lowered(old(peers), seen)
    {
      var todo := peers.Keys;
      ghost var goal := Lowered(peers, seen);
      while todo != {}
        invariant todo <= peers.Keys
        invariant forall k :: k in todo ==> k in old(peers) && peers[k] == old(peers)[k]
        invariant forall k :: k in old(peers) && k !in todo ==>
          (k in peers <==> k in goal) && (k in goal ==> peers[k] == goal[k])
        invariant peers.Keys <= old(peers).Keys
        decreases todo
      {
        var key :| key in todo;
        todo := todo - {key};
        var p := peers[key];
        if !p.isStatic {
          continue;
        }
        if IsSeedKey(key) {
          if p.addr !in seen {
            peers := peers - {key};
          }
        } else if p.addr !in seen {
          peers := peers[key := p.(isStatic := false)];
        }
      }
      assert peers.Keys == goal.Keys;
    }
  }

  lemma {:induction false} ConfiguredGrows(addrs: seq<string>, n: nat)
    requires n <= |addrs|
    ensures Configured(addrs[..n]) <= Configured(addrs)
    decreases |addrs| - n
  {
    if n == |addrs| {
      assert addrs[..n] == addrs;
    } else {
      ConfiguredGrows(addrs, n + 1);
      assert addrs[..n + 1][..n] == addrs[..n];
    }
  }

  // ---------------------------------------------------------------- laws

  /** The configured addresses are the entries without the blanks around them, blank ones left out. */
  lemma {:induction false} ConfiguredIff(addrs: seq<string>, a: string)
    ensures a in Configured(addrs) <==> a != "" && exists i :: 0 <= i < |addrs| && Trim(addrs[i]) == a
  {
    if addrs != [] {
      var front := addrs[..|addrs| - 1];
      ConfiguredIff(front, a);
      assert forall i :: 0 <= i < |front| ==> front[i] == addrs[i];
      if i :| 0 <= i < |front| && Trim(front[i]) == a {
        assert Trim(addrs[i]) == a;
      }
    }
  }

  predicate IsBlank(s: string) {
    forall c :: c in s ==> IsSpace(c)
  }

  lemma BlankInFront(s: string, before: string, core: string, after: string)
    requires s != "" && IsSpace(s[0]) && s[1..] == before + core + after && IsBlank(before)
    ensures s == ([s[0]] + before) + core + after && IsBlank([s[0]] + before)
  {
    assert s == [s[0]] + s[1..];
  }

  lemma BlankBehind(s: string, before: string, core: string, after: string)
    requires s != "" && IsSpace(s[|s| - 1]) && s[..|s| - 1] == before + core + after && IsBlank(after)
    ensures s == before + core + (after + [s[|s| - 1]]) && IsBlank(after + [s[|s| - 1]])
  {
    assert s == s[..|s| - 1] + [s[|s| - 1]];
  }

  /** Trimming takes blanks from both ends, all of them, and nothing else. */
  lemma {:induction false} TrimIsExact(s: string) returns (before: string, after: string)
    ensures s == before + Trim(s) + after && IsBlank(before) && IsBlank(after)
    ensures Trim(s) != "" ==> !IsSpace(Trim(s)[0]) && !IsSpace(Trim(s)[|Trim(s)| - 1])
  {
    before, after := "", "";
    if s != "" && IsSpace(s[0]) {
      before, after := TrimIsExact(s[1..]);
      BlankInFront(s, before, Trim(s[1..]), after);
      before := [s[0]] + before;
    } else if s != "" && IsSpace(s[|s| - 1]) {
      before, after := TrimIsExact(s[..|s| - 1]);
      BlankBehind(s, before, Trim(s[..|s| - 1]), after);
      after := after + [s[|s| - 1]];
    }
  }

  /** By code point: the blank and the controls from tab to carriage return are space, of all else 19 characters. */
  lemma SpacesByCode(c: char)
    ensures IsSpace(c) <==>
              var n := c as int;
              || n == 32 || 9 <= n < 14 || n == 133 || n == 160 || n == 5760 || 8192 <= n < 8203
              || n == 8232 || n == 8233 || n == 8239 || n == 8287 || n == 12288
  {
  }

  /** A handshake with a static seed moves the seed to its real id and keeps it static. */
  lemma SeedMigrates(peers: Peers, addr: string, id: string, name: string, now: int)
    requires SeedKey(addr) in peers && peers[SeedKey(addr)].isStatic && !IsSeedKey(id)
    ensures var after := Learned(peers, addr, id, name, now);
            && SeedKey(addr) !in after && id in after
            && after[id].isStatic && after[id].addr == peers[SeedKey(addr)].addr
            && !IsStale(after[id], now, 1)
            && after.Keys == peers.Keys - {SeedKey(addr)} + {id}
  {
  }

  // ---------------------------------------------------------------- whole histories

  datatype Update =
    | Beacon(id: string, name: string, addr: string, now: int)
    | Handshake(addr: string, id: string, name: string, now: int)
    | Refresh(id: string, now: int)
    | Expiry(now: int, ttl: int)
    | Reconfigured(seen: set<string>)

  ghost predicate Next(peers: Peers, u: Update, after: Peers) {
    match u
    case Beacon(id, name, addr, now) => id != "" && after == Upsert(peers, id, name, addr, now)
    case Handshake(addr, id, name, now) => id != "" && after == Learned(peers, addr, id, name, now)
    case Refresh(id, now) => after == Touched(peers, id, now)
    case Expiry(now, ttl) => after == map k | k in peers && !IsStale(peers[k], now, ttl) :: peers[k]
    case Reconfigured(seen) => StaticIs(peers, after, seen)
  }

  /** Ids are drawn in hexadecimal; nobody checks that a received one does not look like a placeholder key. */
  predicate HasOrdinaryId(u: Update) {
    u.Beacon? || u.Handshake? ==> !IsSeedKey(u.id)
  }

  ghost predicate IsHistory(run: seq<Peers>, updates: seq<Update>) {
    && |run| == |updates| + 1 && run[0] == map[]
    && forall i :: 0 <= i < |updates| ==> Next(run[i], updates[i], run[i + 1])
  }

  lemma StepKeepsKeys(peers: Peers, u: Update, after: Peers)
    requires IsKeyed(peers) && Next(peers, u, after) && HasOrdinaryId(u)
    ensures IsKeyed(after)
  {
    if u.Reconfigured? {
      StaticKeepsKeys(peers, after, u.seen);
    }
  }

  /** Over all histories of updates entries stay under their own keys. */
  lemma {:induction false} AlwaysKeyed(run: seq<Peers>, updates: seq<Update>, n: nat)
    requires IsHistory(run, updates) && n < |run|
    requires forall i :: 0 <= i < n ==> HasOrdinaryId(updates[i])
    ensures IsKeyed(run[n])
  {
    if n > 0 {
      AlwaysKeyed(run, updates, n - 1);
      StepKeepsKeys(run[n - 1], updates[n - 1], run[n]);
    }
  }

  /** After every configuration, in every such history, exactly the configured addresses have a static peer. */
  lemma ConfiguredHaveStaticPeers(run: seq<Peers>, updates: seq<Update>, n: nat, addr: string)
    requires IsHistory(run, updates) && n < |updates| && updates[n].Reconfigured?
    requires forall i :: 0 <= i < n ==> HasOrdinaryId(updates[i])
    ensures HasStatic(run[n + 1], addr) <==> addr in updates[n].seen
  {
    AlwaysKeyed(run, updates, n);
    assert Next(run[n], updates[n], run[n + 1]);
    StaticKeepsKeys(run[n], run[n + 1], updates[n].seen);
  }

  // ---------------------------------------------------------------- static peers stay

  /** A beacon or handshake of a peer that was at this address, from another one. */
  predicate MovesAway(peers: Peers, u: Update, addr: string) {
    (u.Beacon? || u.Handshake?) && u.id in peers && peers[u.id].addr == addr && u.addr != addr
  }

  ghost predicate StaticAt(peers: Peers, k: string, addr: string) {
    k in peers && peers[k].isStatic && peers[k].addr == addr
  }

  lemma SeedIsAtItsAddr(peers: Peers, addr: string)
    requires IsKeyed(peers) && SeedKey(addr) in peers
    ensures StaticAt(peers, SeedKey(addr), addr)
  {
    assert IsKeyOf(SeedKey(addr), peers[SeedKey(addr)]) && IsSeedKey(SeedKey(addr));
    SameSeed(addr, peers[SeedKey(addr)].addr);
  }

  lemma HandshakeKeepsStatic(peers: Peers, u: Update, addr: string, k: string)
    requires IsKeyed(peers) && u.Handshake? && HasOrdinaryId(u) && !MovesAway(peers, u, addr)
    requires StaticAt(peers, k, addr)
    ensures var after := Learned(peers, u.addr, u.id, u.name, u.now);
            StaticAt(after, k, addr) || StaticAt(after, u.id, addr)
  {
    if SeedKey(u.addr) in peers {
      SeedIsAtItsAddr(peers, u.addr);
    }
  }

  lemma StepKeepsStatic(peers: Peers, u: Update, after: Peers, addr: string)
    requires IsKeyed(peers) && Next(peers, u, after) && HasOrdinaryId(u)
    requires !u.Reconfigured? && !MovesAway(peers, u, addr) && HasStatic(peers, addr)
    ensures HasStatic(after, addr)
  {
    var k :| k in peers && peers[k].addr == addr && peers[k].isStatic;
    if u.Handshake? {
      HandshakeKeepsStatic(peers, u, addr, k);
    } else {
      assert k in after && after[k].addr == addr && after[k].isStatic;
    }
  }

  /**
   A configured address keeps its static peer until the next configuration, through any beacons,
   handshakes, dials and expiries that do not move its peer elsewhere.
   */
  lemma {:induction false} ConfiguredStaysStatic(run: seq<Peers>, updates: seq<Update>, n: nat, m: nat, addr: string)
    requires IsHistory(run, updates) && n < m < |run| && updates[n].Reconfigured? && addr in updates[n].seen
    requires forall i :: 0 <= i < m ==> HasOrdinaryId(updates[i])
    requires forall i :: n < i < m ==> !updates[i].Reconfigured? && !MovesAway(run[i], updates[i], addr)
    ensures HasStatic(run[m], addr)
  {
    if m == n + 1 {
      ConfiguredHaveStaticPeers(run, updates, n, addr);
    } else {
      ConfiguredStaysStatic(run, updates, n, m - 1, addr);
      AlwaysKeyed(run, updates, m - 1);
      StepKeepsStatic(run[m - 1], updates[m - 1], run[m], addr);
    }
  }

  /** A peer that moves takes its flag along: only another static peer keeps the address static. */
  lemma MoverLeaves(peers: Peers, u: Update, after: Peers, addr: string)
    requires IsKeyed(peers) && Next(peers, u, after) && HasOrdinaryId(u) && MovesAway(peers, u, addr)
    ensures HasStatic(after, addr) <==> exists k :: k != u.id && StaticAt(peers, k, addr)
  {
    if SeedKey(u.addr) in peers {
      SeedIsAtItsAddr(peers, u.addr);
    }
    assert after[u.id].addr == u.addr;
    forall k | k != u.id ensures StaticAt(after, k, addr) <==> StaticAt(peers, k, addr) {
    }
    if k :| k != u.id && StaticAt(peers, k, addr) {
      assert StaticAt(after, k, addr);
      assert k in after && after[k].addr == addr && after[k].isStatic;
    }
    if HasStatic(after, addr) {
      var k :| k in after && after[k].addr == addr && after[k].isStatic;
      assert StaticAt(after, k, addr);
    }
  }

  // ---------------------------------------------------------------- who expires

  predicate HearsOf(u: Update, id: string) {
    (u.Beacon? || u.Handshake? || u.Refresh?) && u.id == id
  }

  /** Among the first n updates, the j-th is the last sign of life of this id. */
  predicate IsLatestWord(updates: seq<Update>, j: nat, n: nat, id: string)
    requires n <= |updates|
  {
    j < n && HearsOf(updates[j], id) && forall m :: j < m < n ==> !HearsOf(updates[m], id)
  }

  lemma {:induction false} SeenAtLatestWord(run: seq<Peers>, updates: seq<Update>, n: nat, id: string)
    returns (j: nat)
    requires IsHistory(run, updates) && n < |run| && id in run[n] && !IsSeedKey(id)
    ensures IsLatestWord(updates, j, n, id) && run[n][id].lastSeen == updates[j].now
  {
    var m: nat := n - 1;
    assert Next(run[m], updates[m], run[n]);
    if HearsOf(updates[m], id) {
      j := m;
    } else {
      KeepsLastSeen(run[m], updates[m], run[n], id);
      j := SeenAtLatestWord(run, updates, m, id);
    }
  }

  lemma KeepsLastSeen(peers: Peers, u: Update, after: Peers, id: string)
    requires Next(peers, u, after) && id in after && !IsSeedKey(id) && !HearsOf(u, id)
    ensures id in peers && after[id].lastSeen == peers[id].lastSeen
  {
    if u.Reconfigured? {
      assert id in peers ==> SameButFlag(peers[id], after[id]);
    }
  }

  /**
   Exactly who expires, over all histories: a static entry never; any other exactly if its last
   beacon, handshake or dial lies at least ttl back.
   */
  lemma ExpiryIsExact(run: seq<Peers>, updates: seq<Update>, n: nat, id: string)
    requires IsHistory(run, updates) && n < |updates| && updates[n].Expiry? && id in run[n]
    ensures run[n][id].isStatic ==> id in run[n + 1]
    ensures !run[n][id].isStatic && !IsSeedKey(id) ==>
              (id in run[n + 1] <==>
                 exists j: nat :: IsLatestWord(updates, j, n, id) && updates[n].now - updates[j].now < updates[n].ttl)
    ensures id in run[n + 1] ==> run[n + 1][id] == run[n][id]
  {
    assert Next(run[n], updates[n], run[n + 1]);
    if !IsSeedKey(id) {
      var j := SeenAtLatestWord(run, updates, n, id);
      assert forall i: nat :: IsLatestWord(updates, i, n, id) ==> i == j;
    }
  }

  /** A peer whose id is the placeholder key of another address keeps that address from being registered. */
  lemma SeedLikeIdTakesTheKey(addr: string, elsewhere: string, name: string, now: int, after: Peers)
    requires addr != elsewhere
    requires Next(Upsert(map[], SeedKey(addr), name, elsewhere, now), Reconfigured({addr}), after)
    ensures Next(map[], Beacon(SeedKey(addr), name, elsewhere, now), Upsert(map[], SeedKey(addr), name, elsewhere, now))
    ensures !HasStatic(after, addr)
  {
    var peers := Upsert(map[], SeedKey(addr), name, elsewhere, now);
    assert Misplaced(peers, addr);
  }
}
