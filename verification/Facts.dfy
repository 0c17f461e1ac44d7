/**
 The identity facts of a device: which source may overwrite which, and how far the store can grow
 when the device names the keys.
 */
module Facts {
  import opened Sets

  const MAX_DEV_KEYS := 32
  const MAX_VALUE := 256
  const MAX_SOURCE := 160

  /** U+2026 in UTF-8; a character stands for a byte. */
  const ELLIPSIS := "\U{E2}\U{80}\U{A6}"

  datatype Origin = Dev | Probe | Log

  datatype Fact = Fact(value: string, source: string, at: int, origin: Origin)

  type Facts = map<string, Fact>

  /** The arguments of one call of set. */
  datatype Call = Call(key: string, value: string, source: string, at: int, origin: Origin)

  const LOG_KEYS := {"chip", "rom", "reset", "psram", "wifi_ch", "ip", "ssid"}
  const PROBE_KEYS := {"chip", "chip_rev", "mac", "flash", "flash_id"}

  function Rank(o: Origin): nat {
    match o
    case Dev => 3
    case Probe => 2
    case Log => 1
  }

  function Truncate(s: string, n: nat): string {
    if |s| <= n then s else s[..n] + ELLIPSIS
  }

  function TrimLeft(s: string): string {
    if s != "" && s[0] == '"' then TrimLeft(s[1..]) else s
  }

  function TrimRight(s: string): string {
    if s != "" && s[|s| - 1] == '"' then TrimRight(s[..|s| - 1]) else s
  }

  /** The value of a key=value pair: quotes stripped, then cut. */
  function Cleaned(v: string): string {
    Truncate(TrimRight(TrimLeft(v)), MAX_VALUE)
  }

  // ---------------------------------------------------------------- set

  function FactOf(c: Call): Fact {
    Fact(c.value, Truncate(c.source, MAX_SOURCE), c.at, c.origin)
  }

  predicate Writes(facts: Facts, c: Call) {
    && c.value != ""
    && (c.key in facts ==>
          && Rank(c.origin) >= Rank(facts[c.key].origin)
          && !(facts[c.key].value == c.value && facts[c.key].origin == c.origin))
  }

  function Put(facts: Facts, c: Call): Facts {
    if Writes(facts, c) then facts[c.key := FactOf(c)] else facts
  }

  function After(calls: seq<Call>): Facts {
    if calls == [] then map[] else Put(After(calls[..|calls| - 1]), calls[|calls| - 1])
  }

  // ---------------------------------------------------------------- one line

  /** What the patterns found in a line: the pairs of a #DEV line, or the hits of the rule tables. */
  datatype Line =
    | Announced(pairs: seq<(string, string)>, source: string, at: int)
    | Matched(origin: Origin, hits: seq<(string, string)>, source: string, at: int)

  predicate WellFormed(l: Line) {
    l.Matched? ==>
      && (l.origin == Log || l.origin == Probe)
      && forall h :: h in l.hits ==> h.0 in if l.origin == Log then LOG_KEYS else PROBE_KEYS
  }

  function DevCall(p: (string, string), source: string, at: int): Call {
    Call(p.0, Cleaned(p.1), source, at, Dev)
  }

  predicate Admits(facts: Facts, key: string) {
    key in facts || |facts| < MAX_DEV_KEYS
  }

  /** The calls of set that one line makes; a #DEV key is passed on only while there is room. */
  function CallsOf(facts: Facts, l: Line): seq<Call>
    decreases if l.Announced? then |l.pairs| else |l.hits|
  {
    match l
    case Announced(pairs, source, at) =>
      if pairs == [] then []
      else
        var front, p := Announced(pairs[..|pairs| - 1], source, at), pairs[|pairs| - 1];
        CallsOf(facts, front) + if Admits(Fed(facts, front), p.0) then [DevCall(p, source, at)] else []
    case Matched(origin, hits, source, at) =>
      if hits == [] then []
      else
        var front, h := Matched(origin, hits[..|hits| - 1], source, at), hits[|hits| - 1];
        CallsOf(facts, front) + [Call(h.0, h.1, source, at, origin)]
  }

  /** The facts after one line. */
  function Fed(facts: Facts, l: Line): Facts
    decreases if l.Announced? then |l.pairs| else |l.hits|
  {
    match l
    case Announced(pairs, source, at) =>
      if pairs == [] then facts
      else
        var before, p := Fed(facts, Announced(pairs[..|pairs| - 1], source, at)), pairs[|pairs| - 1];
        if Admits(before, p.0) then Put(before, DevCall(p, source, at)) else before
    case Matched(origin, hits, source, at) =>
      if hits == [] then facts
      else
        var before, h := Fed(facts, Matched(origin, hits[..|hits| - 1], source, at)), hits[|hits| - 1];
        Put(before, Call(h.0, h.1, source, at, origin))
  }

  function Hits(l: Line): nat {
    if l.Announced? then |l.pairs| else |l.hits|
  }

  /** The line as far as its first n hits. */
  function Cut(l: Line, n: nat): Line
    requires n <= Hits(l)
  {
    if l.Announced? then l.(pairs := l.pairs[..n]) else l.(hits := l.hits[..n])
  }

  /** One of the hits changed something, if only until the next one. */
  predicate Stirs(facts: Facts, l: Line, n: nat)
    requires n <= Hits(l)
  {
    exists i :: 0 <= i < n && Fed(facts, Cut(l, i)) != Fed(facts, Cut(l, i + 1))
  }

  lemma StirsMore(facts: Facts, l: Line, n: nat)
    requires n < Hits(l)
    ensures Stirs(facts, l, n + 1) <==> Stirs(facts, l, n) || Fed(facts, Cut(l, n)) != Fed(facts, Cut(l, n + 1))
  {
  }

  class Store {
    var facts: Facts
    /** The content of info.json; writing it is taken to succeed. */
    var saved: Facts

    ghost predicate Valid()
      reads this
    {
      saved == facts
    }

    /** Open: an unreadable or missing file is an empty store. */
    constructor (file: Facts)
      ensures Valid() && facts == file
    {
      facts, saved := file, file;
    }

    method Set(c: Call) returns (changed: bool)
      modifies `facts
      ensures facts == Put(old(facts), c)
      ensures changed <==> facts != old(facts)
    {
      if c.value == "" {
        return false;
      }
      if c.key in facts {
        var was := facts[c.key];
        if Rank(c.origin) < Rank(was.origin) {
          return false;
        }
        if was.value == c.value && was.origin == c.origin {
          return false;
        }
      }
      facts := facts[c.key := Fact(c.value, Truncate(c.source, MAX_SOURCE), c.at, c.origin)];
      assert facts[c.key] == FactOf(c);
      return true;
    }

    /** Feed and FeedProbe: what the patterns found, in order; the file follows every change. */
    method Feed(l: Line) returns (changed: bool)
      requires Valid()
      modifies this
      ensures Valid() && facts == Fed(old(facts), l)
      ensures changed <==> Stirs(old(facts), l, Hits(l))
    {
      if l.Announced? {
        changed := FeedDev(l.pairs, l.source, l.at);
      } else {
        changed := FeedHits(l.origin, l.hits, l.source, l.at);
      }
      if changed {
        saved := facts;
      }
    }

    method FeedDev(pairs: seq<(string, string)>, source: string, at: int) returns (changed: bool)
      modifies `facts
      ensures facts == Fed(old(facts), Announced(pairs, source, at))
      ensures changed <==> Stirs(old(facts), Announced(pairs, source, at), |pairs|)
      ensures facts != old(facts) ==> changed
    {
      changed := false;
      for i := 0 to |pairs|
        invariant facts == Fed(old(facts), Announced(pairs[..i], source, at))
        invariant changed <==> Stirs(old(facts), Announced(pairs, source, at), i)
        invariant facts != old(facts) ==> changed
      {
        assert pairs[..i + 1][..i] == pairs[..i];
        StirsMore(old(facts), Announced(pairs, source, at), i);
        var p := pairs[i];
        if p.0 !in facts && |facts| >= MAX_DEV_KEYS {
          continue;
        }
        var wrote := Set(DevCall(p, source, at));
        changed := changed || wrote;
      }
      assert pairs[..|pairs|] == pairs;
    }

    method FeedHits(origin: Origin, hits: seq<(string, string)>, source: string, at: int) returns (changed: bool)
      modifies `facts
      ensures facts == Fed(old(facts), Matched(origin, hits, source, at))
      ensures changed <==> Stirs(old(facts), Matched(origin, hits, source, at), |hits|)
      ensures facts != old(facts) ==> changed
    {
      changed := false;
      for i := 0 to |hits|
        invariant facts == Fed(old(facts), Matched(origin, hits[..i], source, at))
        invariant changed <==> Stirs(old(facts), Matched(origin, hits, source, at), i)
        invariant facts != old(facts) ==> changed
      {
        assert hits[..i + 1][..i] == hits[..i];
        StirsMore(old(facts), Matched(origin, hits, source, at), i);
        var wrote := Set(Call(hits[i].0, hits[i].1, source, at, origin));
        changed := changed || wrote;
      }
      assert hits[..|hits|] == hits;
    }
  }

  // ---------------------------------------------------------------- any sequence of lines

  function Stored(lines: seq<Line>): Facts {
    if lines == [] then map[] else Fed(Stored(lines[..|lines| - 1]), lines[|lines| - 1])
  }

  /** Everything that was passed to set on the way. */
  function Passed(lines: seq<Line>): seq<Call> {
    if lines == [] then []
    else Passed(lines[..|lines| - 1]) + CallsOf(Stored(lines[..|lines| - 1]), lines[|lines| - 1])
  }

  lemma AfterOne(calls: seq<Call>, c: Call)
    ensures After(calls + [c]) == Put(After(calls), c)
  {
  }

  lemma AfterMore(calls: seq<Call>, made: seq<Call>, c: Call)
    ensures After(calls + (made + [c])) == Put(After(calls + made), c)
  {
    assert calls + (made + [c]) == (calls + made) + [c];
    AfterOne(calls + made, c);
  }

  lemma {:induction false} AnnouncedIsAfter(calls: seq<Call>, pairs: seq<(string, string)>, source: string, at: int)
    ensures var l := Announced(pairs, source, at); Fed(After(calls), l) == After(calls + CallsOf(After(calls), l))
  {
    if pairs == [] {
      assert calls + [] == calls;
    } else {
      var front := pairs[..|pairs| - 1];
      var made := CallsOf(After(calls), Announced(front, source, at));
      AnnouncedIsAfter(calls, front, source, at);
      AfterMore(calls, made, DevCall(pairs[|pairs| - 1], source, at));
      assert made + [] == made;
    }
  }

  lemma {:induction false} MatchedIsAfter(calls: seq<Call>, origin: Origin, hits: seq<(string, string)>,
                                          source: string, at: int)
    ensures var l := Matched(origin, hits, source, at);
            Fed(After(calls), l) == After(calls + CallsOf(After(calls), l))
  {
    if hits == [] {
      assert calls + [] == calls;
    } else {
      var front, h := hits[..|hits| - 1], hits[|hits| - 1];
      var made := CallsOf(After(calls), Matched(origin, front, source, at));
      MatchedIsAfter(calls, origin, front, source, at);
      AfterMore(calls, made, Call(h.0, h.1, source, at, origin));
    }
  }

  /** One line does to the facts what its calls of set do. */
  lemma FedIsAfter(calls: seq<Call>, l: Line)
    ensures Fed(After(calls), l) == After(calls + CallsOf(After(calls), l))
  {
    match l
    case Announced(pairs, source, at) => AnnouncedIsAfter(calls, pairs, source, at);
    case Matched(origin, hits, source, at) => MatchedIsAfter(calls, origin, hits, source, at);
  }

  lemma {:induction false} StoredIsAfter(lines: seq<Line>)
    ensures Stored(lines) == After(Passed(lines))
  {
    if lines != [] {
      StoredIsAfter(lines[..|lines| - 1]);
      FedIsAfter(Passed(lines[..|lines| - 1]), lines[|lines| - 1]);
    }
  }

  // ---------------------------------------------------------------- which value wins

  /** What the device says of itself beats what a probe found, and that beats what a log line hinted at. */
  predicate Outranks(a: Origin, b: Origin) {
    (a.Dev? && !b.Dev?) || (a.Probe? && b.Log?)
  }

  predicate Tells(c: Call, key: string) {
    c.key == key && c.value != ""
  }

  /** Call i is the last one with something to say among those of the highest rank. */
  predicate IsTop(calls: seq<Call>, key: string, i: nat) {
    && i < |calls| && Tells(calls[i], key)
    && forall j :: 0 <= j < |calls| && Tells(calls[j], key) ==>
         Outranks(calls[i].origin, calls[j].origin) || (calls[i].origin == calls[j].origin && j <= i)
  }

  /** A key has a fact exactly if it was ever told, and then one call is its top. */
  lemma {:induction false} TopExists(calls: seq<Call>, key: string) returns (i: nat)
    requires exists j :: 0 <= j < |calls| && Tells(calls[j], key)
    ensures IsTop(calls, key, i)
  {
    var front, last := calls[..|calls| - 1], calls[|calls| - 1];
    if exists j :: 0 <= j < |front| && Tells(front[j], key) {
      i := TopExists(front, key);
      if Tells(last, key) && !Outranks(front[i].origin, last.origin) {
        i := |front|;
      }
      assert forall j :: 0 <= j < |front| ==> front[j] == calls[j];
    } else {
      assert forall j :: 0 <= j < |front| ==> front[j] == calls[j];
      i := |front|;
    }
  }

  lemma {:induction false} ToldIsKnown(calls: seq<Call>, key: string)
    ensures key in After(calls) <==> exists j :: 0 <= j < |calls| && Tells(calls[j], key)
  {
    if calls != [] {
      var front := calls[..|calls| - 1];
      ToldIsKnown(front, key);
      assert forall j :: 0 <= j < |front| ==> front[j] == calls[j];
      if j :| 0 <= j < |front| && Tells(front[j], key) {
        assert Tells(calls[j], key);
      }
    }
  }

  /** The stored value and origin are those of the top call. */
  lemma {:induction false} LastOfHighestWins(calls: seq<Call>, key: string, i: nat)
    requires IsTop(calls, key, i)
    ensures key in After(calls)
    ensures After(calls)[key].value == calls[i].value && After(calls)[key].origin == calls[i].origin
  {
    var front, last := calls[..|calls| - 1], calls[|calls| - 1];
    assert forall j :: 0 <= j < |front| ==> front[j] == calls[j];
    ToldIsKnown(front, key);
    if i < |front| {
      LastOfHighestWins(front, key, i);
    } else if exists j :: 0 <= j < |front| && Tells(front[j], key) {
      var k := TopExists(front, key);
      LastOfHighestWins(front, key, k);
    }
  }

  /** Call j said it first: the top call i and all told in between by the same origin only repeat it. */
  predicate SaidFirst(calls: seq<Call>, key: string, j: nat, i: nat) {
    && j <= i < |calls| && Tells(calls[j], key)
    && calls[j].origin == calls[i].origin
    && forall m :: j <= m <= i && Tells(calls[m], key) && calls[m].origin == calls[i].origin ==>
         calls[m].value == calls[i].value
  }

  /** Source and time of a fact are those of the call that said it first; repeating it refreshes nothing. */
  lemma {:induction false} FactIsOfFirstSaying(calls: seq<Call>, key: string, i: nat) returns (j: nat)
    requires IsTop(calls, key, i)
    ensures SaidFirst(calls, key, j, i) && key in After(calls) && After(calls)[key] == FactOf(calls[j])
    ensures forall m: nat :: SaidFirst(calls, key, m, i) ==> j <= m
    decreases |calls|, 1
  {
    var front := calls[..|calls| - 1];
    FrontTells(calls, key);
    ToldIsKnown(front, key);
    if i < |front| {
      j := FactIsOfFirstSaying(front, key, i);
      forall m: nat | SaidFirst(calls, key, m, i) ensures j <= m {
        assert SaidFirst(front, key, m, i);
      }
    } else if m :| 0 <= m < |front| && Tells(front[m], key) {
      assert Tells(calls[m], key);
      j := LastSays(calls, key, i);
    } else {
      j := i;
    }
  }

  lemma FrontTells(calls: seq<Call>, key: string)
    requires calls != []
    ensures forall m :: 0 <= m < |calls| - 1 ==> calls[..|calls| - 1][m] == calls[m]
  {
  }

  /** The last call is the top: it repeats the fact there is, or starts a new one. */
  lemma {:induction false} LastSays(calls: seq<Call>, key: string, i: nat) returns (j: nat)
    requires IsTop(calls, key, i) && i == |calls| - 1
    requires exists m :: 0 <= m < i && Tells(calls[m], key)
    ensures SaidFirst(calls, key, j, i) && key in After(calls) && After(calls)[key] == FactOf(calls[j])
    ensures forall m: nat :: SaidFirst(calls, key, m, i) ==> j <= m
    decreases |calls|, 0
  {
    var front, last := calls[..i], calls[i];
    FrontTells(calls, key);
    var k := TopExists(front, key);
    var was := FactIsOfFirstSaying(front, key, k);
    if front[k].origin == last.origin && front[k].value == last.value {
      j := was;
      forall m: nat | SaidFirst(calls, key, m, i) ensures j <= m {
        if m <= k {
          assert SaidFirst(front, key, m, k);
        }
      }
    } else {
      j := i;
      forall m: nat | m < i && Tells(calls[m], key) && calls[m].origin == last.origin
        ensures !SaidFirst(calls, key, m, i)
      {
        assert Tells(front[m], key) && m <= k && Tells(calls[k], key);
      }
    }
  }

  // ---------------------------------------------------------------- what the device says is cleaned

  /**
   One pair of a #DEV line: it becomes the fact of its key, whoever told that before, if the key is
   known or there is room for it and something is left of the value; otherwise nothing changes.
   */
  lemma DevPairDecides(facts: Facts, key: string, value: string, source: string, at: int)
    ensures var after := Fed(facts, Announced([(key, value)], source, at));
            if Cleaned(value) != "" && (key in facts || |facts| < MAX_DEV_KEYS)
            then key in after && after[key].value == Cleaned(value) && after[key].origin == Dev
                 && after - {key} == facts - {key}
            else after == facts
  {
    var pairs := [(key, value)];
    assert pairs[..|pairs| - 1] == [];
  }

  function Quotes(n: nat): string {
    if n == 0 then "" else Quotes(n - 1) + "\""
  }

  lemma {:induction false} TrimQuotesLeft(n: nat, s: string)
    ensures TrimLeft(Quotes(n) + s) == TrimLeft(s)
  {
    if n == 0 {
      assert Quotes(n) + s == s;
    } else {
      assert Quotes(n) + s == Quotes(n - 1) + ("\"" + s);
      TrimQuotesLeft(n - 1, "\"" + s);
      assert ("\"" + s)[1..] == s;
    }
  }

  lemma {:induction false} TrimQuotesRight(s: string, n: nat)
    ensures TrimRight(s + Quotes(n)) == TrimRight(s)
  {
    if n == 0 {
      assert s + Quotes(n) == s;
    } else {
      assert (s + Quotes(n))[..|s + Quotes(n)| - 1] == s + Quotes(n - 1);
      TrimQuotesRight(s, n - 1);
    }
  }

  /** However many quotes stand around a value, it is kept without them, and its first 256 bytes if it is longer. */
  lemma CleanedValue(before: nat, core: string, after: nat)
    requires core != "" && core[0] != '"' && core[|core| - 1] != '"'
    ensures Cleaned(Quotes(before) + core + Quotes(after)) ==
              if |core| <= MAX_VALUE then core else core[..MAX_VALUE] + ELLIPSIS
  {
    var s := core + Quotes(after);
    assert Quotes(before) + core + Quotes(after) == Quotes(before) + s;
    TrimQuotesLeft(before, s);
    assert TrimLeft(s) == s;
    TrimQuotesRight(core, after);
  }

  /** What the store holds after any lines: per key the last word of its most trusted source. */
  lemma StoreKeepsTheTop(lines: seq<Line>, key: string, i: nat)
    requires IsTop(Passed(lines), key, i)
    ensures key in Stored(lines)
    ensures Stored(lines)[key].value == Passed(lines)[i].value
    ensures Stored(lines)[key].origin == Passed(lines)[i].origin
  {
    StoredIsAfter(lines);
    LastOfHighestWins(Passed(lines), key, i);
  }

  // ---------------------------------------------------------------- ranks and size

  predicate NoneFalls(a: Facts, b: Facts) {
    forall k :: k in a ==> k in b && !Outranks(a[k].origin, b[k].origin)
  }

  lemma {:induction false} LineLowersNothing(facts: Facts, l: Line)
    ensures NoneFalls(facts, Fed(facts, l))
    decreases if l.Announced? then |l.pairs| else |l.hits|
  {
    match l
    case Announced(pairs, source, at) =>
      if pairs != [] {
        LineLowersNothing(facts, Announced(pairs[..|pairs| - 1], source, at));
      }
    case Matched(origin, hits, source, at) =>
      if hits != [] {
        LineLowersNothing(facts, Matched(origin, hits[..|hits| - 1], source, at));
      }
  }

  /** No fact ever disappears or falls back to a less trusted source. */
  lemma {:induction false} RankNeverFalls(lines: seq<Line>, n: nat)
    requires n <= |lines|
    ensures NoneFalls(Stored(lines[..n]), Stored(lines))
  {
    if n == |lines| {
      assert lines[..n] == lines;
    } else {
      var front := lines[..|lines| - 1];
      assert front[..n] == lines[..n];
      RankNeverFalls(front, n);
      LineLowersNothing(Stored(front), lines[|lines| - 1]);
    }
  }

  const RULE_KEYS := LOG_KEYS + PROBE_KEYS

  /** Keys only the device can have named. */
  predicate IsBounded(facts: Facts) {
    |facts.Keys - RULE_KEYS| <= MAX_DEV_KEYS
  }

  lemma AddedKey(keys: set<string>, key: string, rules: set<string>)
    requires key in keys || |keys| < MAX_DEV_KEYS || key in rules
    requires |keys - rules| <= MAX_DEV_KEYS
    ensures |keys + {key} - rules| <= MAX_DEV_KEYS
  {
    if key in keys || key in rules {
      assert keys + {key} - rules == keys - rules;
    } else {
      assert keys + {key} - rules == (keys - rules) + {key};
      SubsetIsSmaller(keys - rules, keys);
    }
  }

  lemma PutIsBounded(facts: Facts, c: Call)
    requires IsBounded(facts) && (c.key in facts || |facts| < MAX_DEV_KEYS || c.key in RULE_KEYS)
    ensures IsBounded(Put(facts, c))
  {
    AddedKey(facts.Keys, c.key, RULE_KEYS);
    assert |facts| == |facts.Keys|;
    assert Writes(facts, c) ==> Put(facts, c).Keys == facts.Keys + {c.key};
  }

  lemma {:induction false} LineIsBounded(facts: Facts, l: Line)
    requires IsBounded(facts) && WellFormed(l)
    ensures IsBounded(Fed(facts, l))
    decreases if l.Announced? then |l.pairs| else |l.hits|
  {
    match l
    case Announced(pairs, source, at) =>
      if pairs != [] {
        var front := Announced(pairs[..|pairs| - 1], source, at);
        LineIsBounded(facts, front);
        if Admits(Fed(facts, front), pairs[|pairs| - 1].0) {
          PutIsBounded(Fed(facts, front), DevCall(pairs[|pairs| - 1], source, at));
        }
      }
    case Matched(origin, hits, source, at) =>
      if hits != [] {
        var front, h := Matched(origin, hits[..|hits| - 1], source, at), hits[|hits| - 1];
        LineIsBounded(facts, front);
        PutIsBounded(Fed(facts, front), Call(h.0, h.1, source, at, origin));
      }
  }

  lemma RuleKeyCount()
    ensures |RULE_KEYS| == 11
  {
    assert RULE_KEYS ==
           {"chip", "rom", "reset", "psram", "wifi_ch", "ip", "ssid", "chip_rev", "mac", "flash", "flash_id"};
  }

  lemma {:induction false} LinesAreBounded(lines: seq<Line>)
    requires forall l :: l in lines ==> WellFormed(l)
    ensures IsBounded(Stored(lines))
  {
    if lines == [] {
      assert Stored(lines).Keys - RULE_KEYS == {};
    } else {
      LinesAreBounded(lines[..|lines| - 1]);
      LineIsBounded(Stored(lines[..|lines| - 1]), lines[|lines| - 1]);
    }
  }

  /** Whatever a device prints: at most 32 keys of its own and one per rule key. */
  lemma StoreStaysSmall(lines: seq<Line>)
    requires forall l :: l in lines ==> WellFormed(l)
    ensures |Stored(lines)| <= MAX_DEV_KEYS + |RULE_KEYS| == 43
  {
    LinesAreBounded(lines);
    RuleKeyCount();
    var keys := Stored(lines).Keys;
    assert keys == (keys - RULE_KEYS) + (keys * RULE_KEYS);
    SubsetIsSmaller(keys * RULE_KEYS, RULE_KEYS);
  }
}
