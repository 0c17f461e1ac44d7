/**
 Names of log files, and the four places that pick the latest one of a directory: the remote
 tail, the web panel, the tray and the fact seeding.
 */
module LogFiles {
  import opened Text
  import LogStore

  // ---------------------------------------------------------------- names

  function Prefix(kind: LogStore.Kind): string {
    if kind.Serial? then "serial-" else "events-"
  }

  function Core(day: string, suffix: nat): string {
    if suffix == 0 then day else day + "." + Padded3(suffix)
  }

  function FileName(id: LogStore.FileId): string {
    Prefix(id.kind) + Core(id.day, id.suffix) + ".log"
  }

  /** A day as time.Format("20060102") writes it. */
  predicate IsDay(day: string) {
    |day| == 8 && forall c :: c in day ==> IsDigit(c)
  }

  predicate Names(id: LogStore.FileId, name: string) {
    IsDay(id.day) && name == FileName(id)
  }

  ghost predicate IsMade(name: string) {
    exists id :: Names(id, name)
  }

  // ---------------------------------------------------------------- pieces of Go's strings package

  predicate HasPrefix(s: string, p: string) {
    |p| <= |s| && s[..|p|] == p
  }

  predicate HasSuffix(s: string, p: string) {
    |p| <= |s| && s[|s| - |p|..] == p
  }

  function TrimPrefix(s: string, p: string): string {
    if HasPrefix(s, p) then s[|p|..] else s
  }

  function TrimSuffix(s: string, p: string): string {
    if HasSuffix(s, p) then s[..|s| - |p|] else s
  }

  /** strings.IndexByte, with the length for "none". */
  function IndexOf(s: string, c: char): (i: nat)
    ensures i <= |s| && (i < |s| ==> s[i] == c)
    ensures c !in s[..i]
  {
    if s == "" || s[0] == c then 0
    else
      var j := IndexOf(s[1..], c);
      assert s[..1 + j] == [s[0]] + s[1..][..j];
      1 + j
  }

  // ---------------------------------------------------------------- four readings of a name

  datatype Key = Key(day: string, suffix: int) | NoKey

  /** What web and tray make of the part between prefix and extension. */
  function StrictKey(core: string): Key {
    var i := IndexOf(core, '.');
    if i == |core| then Key(core, 0)
    else
      match Atoi(core[i + 1..])
      case Number(v) => if v < 0 then NoKey else Key(core[..i], v)
      case NotANumber => NoKey
  }

  function WebKey(kind: LogStore.Kind, name: string): Key {
    var n := TrimPrefix(name, Prefix(kind));
    if HasSuffix(n, ".log") then StrictKey(TrimSuffix(n, ".log")) else NoKey
  }

  function TrayKey(name: string): Key {
    StrictKey(TrimSuffix(TrimPrefix(name, "serial-"), ".log"))
  }

  /** A suffix that is no number leaves the whole core as the day. */
  function FactsKey(name: string): Key {
    var core := TrimSuffix(TrimPrefix(name, "serial-"), ".log");
    var i := IndexOf(core, '.');
    if i == |core| then Key(core, 0)
    else
      match Atoi(core[i + 1..])
      case Number(v) => Key(core[..i], v)
      case NotANumber => Key(core, 0)
  }

  /** A suffix that is no number counts as zero. */
  function TailKey(kind: LogStore.Kind, name: string): (k: Key)
    ensures k.Key?
  {
    var core := TrimSuffix(TrimPrefix(name, Prefix(kind)), ".log");
    var i := IndexOf(core, '.');
    if i == |core| then Key(core, 0)
    else
      match Atoi(core[i + 1..])
      case Number(v) => Key(core[..i], v)
      case NotANumber => Key(core[..i], 0)
  }

  lemma CutName(prefix: string, core: string)
    ensures var name := prefix + core + ".log";
            && HasPrefix(name, prefix) && HasSuffix(name, ".log") && |name| >= |prefix| + 4
            && HasSuffix(TrimPrefix(name, prefix), ".log")
            && TrimSuffix(TrimPrefix(name, prefix), ".log") == core
  {
  }

  lemma FirstIndex(s: string, c: char, k: nat)
    requires k <= |s| && c !in s[..k] && (k < |s| ==> s[k] == c)
    ensures IndexOf(s, c) == k
  {
  }

  lemma DotOfCore(day: string, suffix: nat)
    requires IsDay(day)
    ensures var core := Core(day, suffix);
            if suffix == 0 then IndexOf(core, '.') == |core| && core == day
            else IndexOf(core, '.') == 8 && |core| > 8 && core[..8] == day && core[9..] == Padded3(suffix)
  {
    var core := Core(day, suffix);
    assert core[..8] == day;
    FirstIndex(core, '.', 8);
  }

  /** On a name made by FileName the four readings are the same: its day and its number. */
  lemma ReadingsAgree(id: LogStore.FileId)
    requires IsDay(id.day)
    ensures WebKey(id.kind, FileName(id)) == TailKey(id.kind, FileName(id)) == Key(id.day, id.suffix)
    ensures id.kind.Serial? ==> TrayKey(FileName(id)) == FactsKey(FileName(id)) == Key(id.day, id.suffix)
  {
    CutName(Prefix(id.kind), Core(id.day, id.suffix));
    DotOfCore(id.day, id.suffix);
    AtoiOfPadded(id.suffix);
  }

  /** Panel and tray read any number behind the day, zero included, and refuse a negative one. */
  lemma StrictKeyReads(day: string, n: nat)
    requires '.' !in day
    ensures StrictKey(day) == Key(day, 0)
    ensures StrictKey(day + "." + Padded3(n)) == Key(day, n)
    ensures n > 0 ==> StrictKey(day + ".-" + Decimal(n)) == NoKey
  {
    var core, minus := day + "." + Padded3(n), day + ".-" + Decimal(n);
    IndexAt(day, "." + Padded3(n));
    IndexAt(day, ".-" + Decimal(n));
    IndexAt(day, "");
    assert day + "" == day;
    assert core == day + ("." + Padded3(n)) && core[|day| + 1..] == Padded3(n) && core[..|day|] == day;
    assert minus == day + (".-" + Decimal(n)) && minus[|day| + 1..] == "-" + Decimal(n);
    AtoiOfPadded(n);
    AtoiOfSigned(n);
  }

  /** The first dot behind a part without one. */
  lemma {:induction false} IndexAt(s: string, rest: string)
    requires '.' !in s && (rest != "" ==> rest[0] == '.')
    ensures IndexOf(s + rest, '.') == |s|
  {
    if s == "" {
      assert s + rest == rest;
    } else {
      IndexAt(s[1..], rest);
      assert (s + rest)[1..] == s[1..] + rest;
    }
  }

  lemma PrefixTellsKind(id: LogStore.FileId, kind: LogStore.Kind)
    ensures HasPrefix(FileName(id), Prefix(kind)) <==> id.kind == kind
  {
    CutName(Prefix(id.kind), Core(id.day, id.suffix));
    assert FileName(id)[0] == Prefix(id.kind)[0];
  }

  lemma FileNameIsInjective(a: LogStore.FileId, b: LogStore.FileId)
    requires IsDay(a.day) && IsDay(b.day) && FileName(a) == FileName(b)
    ensures a == b
  {
    PrefixTellsKind(a, a.kind);
    PrefixTellsKind(b, a.kind);
    ReadingsAgree(a);
    ReadingsAgree(b);
  }

  // ---------------------------------------------------------------- order

  predicate KeyLess(a: Key, b: Key) {
    a.Key? && b.Key? && (Less(a.day, b.day) || (a.day == b.day && a.suffix < b.suffix))
  }

  lemma KeyOrder(a: Key, b: Key, c: Key)
    requires a.Key? && b.Key? && c.Key?
    ensures KeyLess(a, b) && KeyLess(b, c) ==> KeyLess(a, c)
    ensures !KeyLess(a, b) && !KeyLess(b, a) ==> a == b
    ensures !(KeyLess(a, b) && KeyLess(b, a)) && !KeyLess(a, a)
  {
    LessIsTotal(a.day, b.day);
    LessIsIrreflexive(a.day);
    if Less(a.day, b.day) && Less(b.day, c.day) {
      LessIsTransitive(a.day, b.day, c.day);
    }
  }

  lemma NotLessChains(a: Key, b: Key, c: Key)
    requires a.Key? && b.Key? && c.Key?
    requires !KeyLess(a, b) && !KeyLess(b, c)
    ensures !KeyLess(a, c)
  {
    KeyOrder(a, b, a);
    KeyOrder(b, c, b);
    KeyOrder(c, b, a);
    KeyOrder(a, c, a);
  }

  // ---------------------------------------------------------------- the selectors

  const NOTHING := Key("", -1)

  predicate IsCandidate(name: string, prefix: string, key: string -> Key) {
    HasPrefix(name, prefix) && HasSuffix(name, ".log") && key(name).Key?
  }

  /** `best` is a candidate no other one is later than; "" if none is later than nothing. */
  predicate Picks(names: seq<string>, prefix: string, key: string -> Key, best: string) {
    if best == "" then
      forall n :: n in names && IsCandidate(n, prefix, key) ==> !KeyLess(NOTHING, key(n))
    else
      && best in names && IsCandidate(best, prefix, key)
      && forall n :: n in names && IsCandidate(n, prefix, key) ==> !KeyLess(key(best), key(n))
  }

  lemma PicksOneMore(names: seq<string>, prefix: string, key: string -> Key, best: string, n: string)
    requires Picks(names, prefix, key, best) && prefix != ""
    ensures var bestKey := if best == "" then NOTHING else key(best);
            Picks(names + [n], prefix, key,
                  if IsCandidate(n, prefix, key) && KeyLess(bestKey, key(n)) then n else best)
  {
    var bestKey := if best == "" then NOTHING else key(best);
    if IsCandidate(n, prefix, key) && KeyLess(bestKey, key(n)) {
      KeyOrder(key(n), bestKey, key(n));
      forall m | m in names + [n] && IsCandidate(m, prefix, key) ensures !KeyLess(key(n), key(m)) {
        if m in names {
          NotLessChains(key(n), bestKey, key(m));
        }
      }
    }
  }

  /** The running-best loop that the panel, the tray and the fact seeding each carry. */
  method RunningBest(names: seq<string>, prefix: string, key: string -> Key) returns (best: string)
    requires prefix != ""
    ensures Picks(names, prefix, key, best)
  {
    best := "";
    var bestKey := NOTHING;
    for i := 0 to |names|
      invariant Picks(names[..i], prefix, key, best)
      invariant bestKey == if best == "" then NOTHING else key(best)
    {
      var n := names[i];
      assert names[..i + 1] == names[..i] + [n];
      PicksOneMore(names[..i], prefix, key, best, n);
      if !HasPrefix(n, prefix) || !HasSuffix(n, ".log") {
        continue;
      }
      var k := key(n);
      if k.Key? && KeyLess(bestKey, k) {
        best, bestKey := n, k;
      }
    }
    assert names[..|names|] == names;
  }

  method LatestFile(names: seq<string>, kind: LogStore.Kind) returns (best: string)
    ensures Picks(names, Prefix(kind), n => WebKey(kind, n), best)
  {
    best := RunningBest(names, Prefix(kind), n => WebKey(kind, n));
  }

  method LatestSerialLog(names: seq<string>) returns (best: string)
    ensures Picks(names, "serial-", TrayKey, best)
  {
    best := RunningBest(names, "serial-", TrayKey);
  }

  method LatestSerial(names: seq<string>) returns (best: string)
    ensures Picks(names, "serial-", FactsKey, best)
  {
    best := RunningBest(names, "serial-", FactsKey);
  }

  /** filepath.Glob with kind-*.log; the two ends cannot overlap. */
  predicate Globbed(kind: LogStore.Kind, name: string) {
    HasPrefix(name, Prefix(kind)) && HasSuffix(name, ".log")
  }

  ghost predicate IsTotal(key: string -> Key) {
    forall n :: key(n).Key?
  }

  predicate NotAfter(key: string -> Key, a: string, b: string) {
    !KeyLess(key(b), key(a))
  }

  predicate InKeyOrder(key: string -> Key, s: seq<string>) {
    forall i, j :: 0 <= i < j < |s| ==> NotAfter(key, s[i], s[j])
  }

  function Insert(key: string -> Key, s: seq<string>, x: string): seq<string> {
    if s == [] || NotAfter(key, s[|s| - 1], x) then s + [x]
    else Insert(key, s[..|s| - 1], x) + [s[|s| - 1]]
  }

  lemma {:induction false} InsertAdds(key: string -> Key, s: seq<string>, x: string)
    ensures multiset(Insert(key, s, x)) == multiset(s) + multiset{x}
  {
    if s != [] {
      assert s == s[..|s| - 1] + [s[|s| - 1]];
      InsertAdds(key, s[..|s| - 1], x);
    }
  }

  lemma AppendKeepsOrder(key: string -> Key, s: seq<string>, x: string)
    requires InKeyOrder(key, s) && forall y :: y in multiset(s) ==> NotAfter(key, y, x)
    ensures InKeyOrder(key, s + [x])
  {
  }

  lemma {:induction false} InsertKeepsOrder(key: string -> Key, s: seq<string>, x: string)
    requires IsTotal(key) && InKeyOrder(key, s)
    ensures InKeyOrder(key, Insert(key, s, x))
  {
    if s == [] {
    } else if NotAfter(key, s[|s| - 1], x) {
      forall y | y in multiset(s) ensures NotAfter(key, y, x) {
        NotAfterChains(key, y, s[|s| - 1], x);
      }
      AppendKeepsOrder(key, s, x);
    } else {
      var front, last := s[..|s| - 1], s[|s| - 1];
      InsertKeepsOrder(key, front, x);
      InsertAdds(key, front, x);
      KeyOrder(key(last), key(x), key(last));
      AppendKeepsOrder(key, Insert(key, front, x), last);
    }
  }

  lemma NotAfterChains(key: string -> Key, a: string, b: string, c: string)
    requires IsTotal(key)
    requires (a == b || NotAfter(key, a, b)) && NotAfter(key, b, c)
    ensures NotAfter(key, a, c)
  {
    if a != b {
      NotLessChains(key(c), key(b), key(a));
    }
  }

  /** The sort.Slice call: an ordered list of the same names. */
  method SortByKey(key: string -> Key, names: seq<string>) returns (s: seq<string>)
    requires IsTotal(key)
    ensures multiset(s) == multiset(names) && InKeyOrder(key, s)
  {
    s := [];
    for i := 0 to |names|
      invariant multiset(s) == multiset(names[..i]) && InKeyOrder(key, s)
    {
      assert names[..i + 1] == names[..i] + [names[i]];
      InsertAdds(key, s, names[i]);
      InsertKeepsOrder(key, s, names[i]);
      s := Insert(key, s, names[i]);
    }
    assert names[..|names|] == names;
  }

  method LatestTailFile(names: seq<string>, kind: LogStore.Kind) returns (best: string)
    ensures Picks(names, Prefix(kind), n => TailKey(kind, n), best)
  {
    var matches: seq<string> := [];
    for i := 0 to |names|
      invariant forall n :: n in matches <==> n in names[..i] && Globbed(kind, n)
    {
      if Globbed(kind, names[i]) {
        matches := matches + [names[i]];
      }
    }
    assert names[..|names|] == names;
    if |matches| == 0 {
      return "";
    }
    var key := n => TailKey(kind, n);
    var sorted := SortByKey(key, matches);
    best := sorted[|sorted| - 1];
    SortedLastIsGreatest(key, matches, sorted);
  }

  lemma SortedLastIsGreatest(key: string -> Key, matches: seq<string>, sorted: seq<string>)
    requires IsTotal(key) && |matches| > 0 && multiset(sorted) == multiset(matches) && InKeyOrder(key, sorted)
    ensures |sorted| > 0 && sorted[|sorted| - 1] in matches
    ensures forall n :: n in matches ==> NotAfter(key, n, sorted[|sorted| - 1])
  {
    assert |multiset(sorted)| == |multiset(matches)|;
    var best := sorted[|sorted| - 1];
    assert best in multiset(sorted);
    KeyOrder(key(best), key(best), key(best));
    forall n | n in matches ensures NotAfter(key, n, best) {
      assert n in multiset(sorted);
    }
  }

  // ---------------------------------------------------------------- what all four choose

  /** A later calendar day (as the number YYYYMMDD), or a greater suffix on the same day. */
  predicate Later(a: LogStore.FileId, b: LogStore.FileId)
    requires IsDay(a.day) && IsDay(b.day)
  {
    Value(a.day) > Value(b.day) || (Value(a.day) == Value(b.day) && a.suffix > b.suffix)
  }

  /** The selectors compare days as strings; on days that is the calendar. */
  lemma DaysCompare(a: string, b: string)
    requires IsDay(a) && IsDay(b)
    ensures Less(a, b) <==> Value(a) < Value(b)
    ensures a == b <==> Value(a) == Value(b)
  {
    LessIsNumeric(a, b);
  }

  predicate NamesOneOf(id: LogStore.FileId, kind: LogStore.Kind, names: seq<string>) {
    id.kind == kind && IsDay(id.day) && FileName(id) in names
  }

  ghost predicate IsLastId(names: seq<string>, kind: LogStore.Kind, id: LogStore.FileId) {
    && NamesOneOf(id, kind, names)
    && forall other :: NamesOneOf(other, kind, names) ==> !Later(other, id)
  }

  /** The file of this kind with the greatest (day, number), or none. */
  ghost predicate IsLatest(names: seq<string>, kind: LogStore.Kind, best: string) {
    if best == "" then forall id :: !NamesOneOf(id, kind, names)
    else exists id :: IsLastId(names, kind, id) && FileName(id) == best
  }

  /** Whatever else the directory holds, its log files of this channel are FileName's. */
  ghost predicate AllMade(names: seq<string>, kind: LogStore.Kind) {
    forall n :: n in names && HasPrefix(n, Prefix(kind)) && HasSuffix(n, ".log") ==> IsMade(n)
  }

  predicate ReadsAs(key: string -> Key, id: LogStore.FileId) {
    key(FileName(id)) == Key(id.day, id.suffix)
  }

  lemma MadeIsCandidate(id: LogStore.FileId, key: string -> Key)
    requires IsDay(id.day) && ReadsAs(key, id)
    ensures IsCandidate(FileName(id), Prefix(id.kind), key) && FileName(id) != ""
    ensures KeyLess(NOTHING, key(FileName(id)))
  {
  }

  /** Any reading that agrees with FileName on this kind selects the latest file. */
  lemma PickIsLatest(names: seq<string>, kind: LogStore.Kind, key: string -> Key, best: string)
    requires AllMade(names, kind) && Picks(names, Prefix(kind), key, best)
    requires forall id: LogStore.FileId :: id.kind == kind && IsDay(id.day) ==> ReadsAs(key, id)
    ensures IsLatest(names, kind, best)
  {
    forall id: LogStore.FileId | id.kind == kind && IsDay(id.day)
      ensures IsCandidate(FileName(id), Prefix(kind), key) && KeyLess(NOTHING, key(FileName(id)))
    {
      MadeIsCandidate(id, key);
    }
    if best != "" {
      assert IsMade(best);
      var id :| Names(id, best);
      PrefixTellsKind(id, kind);
      forall other | NamesOneOf(other, kind, names) ensures !Later(other, id) {
        assert ReadsAs(key, other) && ReadsAs(key, id);
        DaysCompare(id.day, other.day);
      }
      assert IsLastId(names, kind, id);
    }
  }

  lemma LatestIsUnique(names: seq<string>, kind: LogStore.Kind, a: string, b: string)
    requires IsLatest(names, kind, a) && IsLatest(names, kind, b)
    ensures a == b
  {
    if a != "" && b != "" {
      var i :| IsLastId(names, kind, i) && FileName(i) == a;
      var j :| IsLastId(names, kind, j) && FileName(j) == b;
      assert !Later(i, j) && !Later(j, i);
      DaysCompare(i.day, j.day);
    }
  }

  /** On a directory of log files the panel and the remote tail follow the same one, the greatest. */
  method PanelAndTailAgree(names: seq<string>, kind: LogStore.Kind) returns (web: string, tail: string)
    requires AllMade(names, kind)
    ensures web == tail && IsLatest(names, kind, web)
  {
    web := LatestFile(names, kind);
    tail := LatestTailFile(names, kind);
    forall id: LogStore.FileId | id.kind == kind && IsDay(id.day)
      ensures ReadsAs(n => WebKey(kind, n), id) && ReadsAs(n => TailKey(kind, n), id)
    {
      ReadingsAgree(id);
    }
    PickIsLatest(names, kind, n => WebKey(kind, n), web);
    PickIsLatest(names, kind, n => TailKey(kind, n), tail);
    LatestIsUnique(names, kind, web, tail);
  }

  /** For the serial log all four selectors agree. */
  method SelectorsAgree(names: seq<string>) returns (web: string, tail: string, tray: string, facts: string)
    requires AllMade(names, LogStore.Serial)
    ensures web == tail == tray == facts && IsLatest(names, LogStore.Serial, web)
  {
    web, tail := PanelAndTailAgree(names, LogStore.Serial);
    tray := LatestSerialLog(names);
    facts := LatestSerial(names);
    forall id: LogStore.FileId | id.kind == LogStore.Serial && IsDay(id.day)
      ensures ReadsAs(TrayKey, id) && ReadsAs(FactsKey, id)
    {
      ReadingsAgree(id);
    }
    PickIsLatest(names, LogStore.Serial, TrayKey, tray);
    PickIsLatest(names, LogStore.Serial, FactsKey, facts);
    LatestIsUnique(names, LogStore.Serial, web, tray);
    LatestIsUnique(names, LogStore.Serial, web, facts);
  }

  /** A list of names is what a listing of the channel's directory gives. */
  ghost predicate Lists(names: seq<string>, disk: LogStore.Disk, kind: LogStore.Kind) {
    forall id: LogStore.FileId :: id.kind == kind && IsDay(id.day) ==> (FileName(id) in names <==> id in disk.files)
  }

  lemma ActiveIsLast(disk: LogStore.Disk, names: seq<string>, kind: LogStore.Kind, id: LogStore.FileId)
    requires disk.Good(kind) && Lists(names, disk, kind) && IsLastId(names, kind, id)
    ensures id.suffix + 1 == disk.Count(kind, id.day)
  {
    disk.About(kind, id.day);
    assert LogStore.FileId(kind, id.day, id.suffix) in disk.files;
    var top := LogStore.FileId(kind, id.day, disk.Count(kind, id.day) - 1);
    assert top in disk.files;
    assert NamesOneOf(top, kind, names);
  }

  lemma ActiveDayIsLast(disk: LogStore.Disk, names: seq<string>, kind: LogStore.Kind, id: LogStore.FileId, day: string)
    requires disk.Good(kind) && Lists(names, disk, kind) && IsLastId(names, kind, id)
    requires IsDay(day) && disk.Count(kind, day) > 0
    ensures Value(day) <= Value(id.day)
  {
    disk.About(kind, day);
    assert LogStore.FileId(kind, day, 0) in disk.files;
    assert NamesOneOf(LogStore.FileId(kind, day, 0), kind, names);
  }

  /** The latest file is the one the writer appends to: the highest suffix of the last day. */
  lemma LatestIsTheActiveFile(disk: LogStore.Disk, names: seq<string>, kind: LogStore.Kind, best: string)
    returns (day: string)
    requires disk.Good(kind) && Lists(names, disk, kind) && IsLatest(names, kind, best) && best != ""
    ensures IsDay(day) && disk.Count(kind, day) > 0
    ensures best == FileName(LogStore.FileId(kind, day, disk.Count(kind, day) - 1))
    ensures forall d :: IsDay(d) && disk.Count(kind, d) > 0 ==> Value(d) <= Value(day)
  {
    var id :| IsLastId(names, kind, id) && FileName(id) == best;
    day := id.day;
    ActiveIsLast(disk, names, kind, id);
    forall d | IsDay(d) && disk.Count(kind, d) > 0 ensures Value(d) <= Value(day) {
      ActiveDayIsLast(disk, names, kind, id, d);
    }
  }
}
