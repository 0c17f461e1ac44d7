/**
 The NVS partition parser: 4096-byte pages of 126 slots, entries with variable-length data in the
 slots behind them, namespace definitions that may sit anywhere.
 */
module Nvs {
  import opened Bytes

  const PAGE := 4096
  const FIRST_SLOT := 64
  const SLOT := 32
  const MAX_SLOTS := 126

  const U8: byte := 0x01
  const I8: byte := 0x11
  const U16: byte := 0x02
  const I16: byte := 0x12
  const U32: byte := 0x03
  const I32: byte := 0x13
  const U64: byte := 0x05
  const I64: byte := 0x15
  const STRING: byte := 0x21
  const BLOB_INDEX: byte := 0x42
  const BLOB_DATA: byte := 0x48

  /** A decoded value, before it is printed. */
  datatype Value = Number(n: int) | Text(text: bytes) | Blob(size: nat) | Chunk(size: nat) | Opaque(kind: byte) | Masked

  datatype Raw = Raw(ns: byte, kind: byte, key: bytes, value: Value)

  /** What one slot contributes: a namespace definition or a data entry. */
  datatype Fact = Def(index: byte, name: bytes) | Data(raw: Raw)

  datatype Namespace = Named(name: bytes) | Numbered(index: byte)

  datatype Entry = Entry(ns: Namespace, key: bytes, kind: byte, value: Value)

  // ---------------------------------------------------------------- one slot

  predicate AllFF(b: bytes) {
    forall i :: 0 <= i < |b| ==> b[i] == 0xFF
  }

  function Key(e: bytes): bytes
    requires |e| == SLOT
  {
    TrimNul(e[8..23])
  }

  /** Two's complement of the given width. */
  function Signed(n: nat, width: nat): int {
    if 2 * n >= Pow256(width) then n - Pow256(width) else n
  }

  /** readVarLen: the length is in the entry, the content in what follows it, cut at the page end. */
  function VarLen(e: bytes, rest: bytes): bytes
    requires |e| == SLOT
  {
    var size := FromLE(e[24..26]);
    TrimNul(if size <= |rest| then rest[..size] else rest)
  }

  function ValueOf(e: bytes, rest: bytes): Value
    requires |e| == SLOT
  {
    var kind := e[1];
    if kind == STRING then Text(VarLen(e, rest))
    else if kind == U8 then Number(FromLE(e[24..25]))
    else if kind == I8 then Number(Signed(FromLE(e[24..25]), 1))
    else if kind == U16 then Number(FromLE(e[24..26]))
    else if kind == I16 then Number(Signed(FromLE(e[24..26]), 2))
    else if kind == U32 then Number(FromLE(e[24..28]))
    else if kind == I32 then Number(Signed(FromLE(e[24..28]), 4))
    else if kind == U64 then Number(FromLE(e[24..32]))
    else if kind == I64 then Number(Signed(FromLE(e[24..32]), 8))
    else if kind == BLOB_INDEX then Blob(FromLE(e[24..28]))
    else if kind == BLOB_DATA then Chunk(8)
    else Opaque(kind)
  }

  function Skip(span: byte): nat {
    if 1 < span < 0x7F then span - 1 else 0
  }

  function Drop(s: bytes, n: nat): bytes {
    if n <= |s| then s[n..] else []
  }

  predicate IsDefinition(e: bytes)
    requires |e| == SLOT
  {
    e[0] == 0 && e[1] == U8
  }

  /** What one slot contributes: nothing if it is erased or has no key. */
  function FactAt(e: bytes, rest: bytes): seq<Fact>
    requires |e| == SLOT
  {
    if AllFF(e) || Key(e) == [] then []
    else if IsDefinition(e) then [Def(e[24], Key(e))]
    else [Data(Raw(e[0], e[1], Key(e), ValueOf(e, rest)))]
  }

  /** How many slots behind an entry are its data and not entries. */
  function Advance(e: bytes): nat
    requires |e| == SLOT
  {
    if AllFF(e) || Key(e) == [] || IsDefinition(e) then 0 else Skip(e[2])
  }

  /** The slots of a page from some slot on. */
  function ScanSlots(s: bytes): seq<Fact>
    decreases |s|
  {
    if |s| < SLOT then []
    else
      var e, rest := s[..SLOT], s[SLOT..];
      FactAt(e, rest) + ScanSlots(Drop(rest, SLOT * Advance(e)))
  }

  function ScanPage(pg: bytes): seq<Fact>
    requires |pg| == PAGE
  {
    if FromLE(pg[..4]) == TWO_32 - 1 then [] else ScanSlots(pg[FIRST_SLOT..])
  }

  function ScanImage(data: bytes): seq<Fact> {
    if |data| < PAGE then [] else ScanPage(data[..PAGE]) + ScanImage(data[PAGE..])
  }

  // ---------------------------------------------------------------- facts to entries

  function NamesOf(facts: seq<Fact>): map<byte, bytes> {
    if facts == [] then map[]
    else
      var before, f := NamesOf(facts[..|facts| - 1]), facts[|facts| - 1];
      if f.Def? then before[f.index := f.name] else before
  }

  function RawsOf(facts: seq<Fact>): seq<Raw> {
    if facts == [] then []
    else
      var before, f := RawsOf(facts[..|facts| - 1]), facts[|facts| - 1];
      if f.Data? then before + [f.raw] else before
  }

  function Shown(r: Raw, names: map<byte, bytes>, show: bool, secret: bytes -> bool): Entry {
    Entry(if r.ns in names then Named(names[r.ns]) else Numbered(r.ns), r.key, r.kind,
          if !show && secret(r.key) then Masked else r.value)
  }

  function ShownAll(rs: seq<Raw>, names: map<byte, bytes>, show: bool, secret: bytes -> bool): seq<Entry> {
    seq(|rs|, i requires 0 <= i < |rs| => Shown(rs[i], names, show, secret))
  }

  function Entries(facts: seq<Fact>, show: bool, secret: bytes -> bool): seq<Entry> {
    ShownAll(RawsOf(facts), NamesOf(facts), show, secret)
  }

  // ---------------------------------------------------------------- the parser

  /** The slots of a page from slot `i` on; a span may point past the end. */
  function SlotsFrom(pg: bytes, i: nat): bytes {
    Drop(pg, FIRST_SLOT + i * SLOT)
  }

  function SlotAt(pg: bytes, i: nat): (e: bytes)
    requires |pg| == PAGE && i < MAX_SLOTS
    ensures |e| == SLOT
  {
    pg[FIRST_SLOT + i * SLOT..FIRST_SLOT + i * SLOT + SLOT]
  }

  /** One unfolding of the scan, on a slot and what follows it. */
  lemma ScanStep(e: bytes, rest: bytes)
    requires |e| == SLOT
    ensures ScanSlots(e + rest) == FactAt(e, rest) + ScanSlots(Drop(rest, SLOT * Advance(e)))
  {
  }

  lemma SlotStep(pg: bytes, i: nat)
    requires |pg| == PAGE && i < MAX_SLOTS
    ensures var e, rest := SlotAt(pg, i), SlotsFrom(pg, i + 1);
            ScanSlots(SlotsFrom(pg, i)) == FactAt(e, rest) + ScanSlots(SlotsFrom(pg, i + 1 + Advance(e)))
  {
    var e, rest := SlotAt(pg, i), SlotsFrom(pg, i + 1);
    assert SlotsFrom(pg, i) == e + rest;
    ScanStep(e, rest);
    assert Drop(rest, SLOT * Advance(e)) == SlotsFrom(pg, i + 1 + Advance(e));
  }

  /** The same with the facts found before. */
  lemma ScanGoesOn(pg: bytes, i: nat, facts: seq<Fact>)
    requires |pg| == PAGE && i < MAX_SLOTS
    ensures var e, rest := SlotAt(pg, i), SlotsFrom(pg, i + 1);
            facts + ScanSlots(SlotsFrom(pg, i))
            == facts + FactAt(e, rest) + ScanSlots(SlotsFrom(pg, i + 1 + Advance(e)))
  {
    var e, rest := SlotAt(pg, i), SlotsFrom(pg, i + 1);
    SlotStep(pg, i);
    Assoc(facts, FactAt(e, rest), ScanSlots(SlotsFrom(pg, i + 1 + Advance(e))));
  }

  lemma NoSlotLeft(pg: bytes, i: nat, facts: seq<Fact>)
    requires |pg| == PAGE && i >= MAX_SLOTS
    ensures facts + ScanSlots(SlotsFrom(pg, i)) == facts
  {
    assert |SlotsFrom(pg, i)| < SLOT;
  }

  lemma FactsGrow(facts: seq<Fact>, f: Fact)
    ensures NamesOf(facts + [f]) == if f.Def? then NamesOf(facts)[f.index := f.name] else NamesOf(facts)
    ensures RawsOf(facts + [f]) == if f.Data? then RawsOf(facts) + [f.raw] else RawsOf(facts)
  {
  }

  /** The body of the slot loop of ParseNVS. */
  method ParseSlot(e: bytes, rest: bytes, names0: map<byte, bytes>, raws0: seq<Raw>, ghost facts: seq<Fact>)
    returns (names: map<byte, bytes>, raws: seq<Raw>, skip: nat)
    requires |e| == SLOT
    requires names0 == NamesOf(facts) && raws0 == RawsOf(facts)
    ensures names == NamesOf(facts + FactAt(e, rest)) && raws == RawsOf(facts + FactAt(e, rest))
    ensures skip == Advance(e)
  {
    names, raws, skip := names0, raws0, 0;
    assert facts + [] == facts;
    if AllFF(e) {
      return;
    }
    var key := Key(e);
    if key == [] {
      return;
    }
    if e[0] == 0 && e[1] == U8 {
      FactsGrow(facts, Def(e[24], key));
      names := names[e[24] := key];
      return;
    }
    if e[2] > 1 && e[2] < 0x7F {
      skip := e[2] - 1;
    }
    var r := Raw(e[0], e[1], key, ValueOf(e, rest));
    FactsGrow(facts, Data(r));
    raws := raws + [r];
  }

  /** What was found so far and what the slots from `i` on will give make up the whole. */
  ghost predicate IsAt(pg: bytes, i: nat, facts: seq<Fact>, whole: seq<Fact>) {
    facts + ScanSlots(SlotsFrom(pg, i)) == whole
  }

  /** One turn of the slot loop: the slot at `i`, and where the loop goes on. */
  method ParseSlotAt(pg: bytes, i: nat, names0: map<byte, bytes>, raws0: seq<Raw>, ghost facts: seq<Fact>,
                     ghost whole: seq<Fact>)
    returns (names: map<byte, bytes>, raws: seq<Raw>, next: nat, ghost found: seq<Fact>)
    requires |pg| == PAGE && i < MAX_SLOTS && IsAt(pg, i, facts, whole)
    requires names0 == NamesOf(facts) && raws0 == RawsOf(facts)
    ensures names == NamesOf(found) && raws == RawsOf(found)
    ensures next > i && IsAt(pg, next, found, whole)
  {
    var e, rest := SlotAt(pg, i), SlotsFrom(pg, i + 1);
    ScanGoesOn(pg, i, facts);
    var skip;
    names, raws, skip := ParseSlot(e, rest, names0, raws0, facts);
    found := facts + FactAt(e, rest);
    next := i + 1 + skip;
  }

  /** The slot loop of ParseNVS over one page. */
  method ParsePage(pg: bytes, names0: map<byte, bytes>, raws0: seq<Raw>, ghost before: seq<Fact>)
    returns (names: map<byte, bytes>, raws: seq<Raw>)
    requires |pg| == PAGE
    requires names0 == NamesOf(before) && raws0 == RawsOf(before)
    ensures names == NamesOf(before + ScanPage(pg)) && raws == RawsOf(before + ScanPage(pg))
  {
    names, raws := names0, raws0;
    if FromLE(pg[..4]) == TWO_32 - 1 {
      assert before + [] == before;
      return;
    }
    var i := 0;
    ghost var facts := before;
    assert pg[FIRST_SLOT..] == SlotsFrom(pg, 0);
    while i < MAX_SLOTS
      invariant names == NamesOf(facts) && raws == RawsOf(facts)
      invariant IsAt(pg, i, facts, before + ScanPage(pg))
      decreases MAX_SLOTS - i
    {
      names, raws, i, facts := ParseSlotAt(pg, i, names, raws, facts, before + ScanPage(pg));
    }
    NoSlotLeft(pg, i, facts);
  }

  /** ParseNVS on arbitrary bytes; `secret` is the credential-key pattern. */
  method ParseNvs(data: bytes, show: bool, secret: bytes -> bool) returns (out: seq<Entry>)
    ensures out == Entries(ScanImage(data), show, secret)
  {
    var names: map<byte, bytes> := map[];
    var raws: seq<Raw> := [];
    ghost var facts: seq<Fact> := [];
    var page := 0;
    while page + PAGE <= |data|
      invariant page <= |data|
      invariant names == NamesOf(facts) && raws == RawsOf(facts)
      invariant facts + ScanImage(data[page..]) == ScanImage(data)
    {
      var pg := data[page..][..PAGE];
      assert data[page..][PAGE..] == data[page + PAGE..];
      Assoc(facts, ScanPage(pg), ScanImage(data[page + PAGE..]));
      names, raws := ParsePage(pg, names, raws, facts);
      facts := facts + ScanPage(pg);
      page := page + PAGE;
    }
    assert facts + [] == facts;
    out := ShowAll(raws, names, show, secret);
  }

  method ShowAll(raws: seq<Raw>, names: map<byte, bytes>, show: bool, secret: bytes -> bool) returns (out: seq<Entry>)
    ensures out == ShownAll(raws, names, show, secret)
  {
    out := [];
    for j := 0 to |raws|
      invariant out == ShownAll(raws[..j], names, show, secret)
    {
      var r := raws[j];
      var ns := if r.ns in names then Named(names[r.ns]) else Numbered(r.ns);
      var v := r.value;
      if !show && secret(r.key) {
        v := Masked;
      }
      out := out + [Entry(ns, r.key, r.kind, v)];
    }
    assert raws[..|raws|] == raws;
  }

  // ---------------------------------------------------------------- the writer's side

  /**
   What a page holds: a definition, an entry with its data slots, or an erased slot.  `misc` stands
   for the chunk number and the checksum, which the parser does not look at.
   */
  datatype Item =
    | Definition(index: byte, name: bytes, misc: bytes, fill: bytes)
    | Stored(ns: byte, kind: byte, key: bytes, misc: bytes, data: bytes, body: bytes)
    | Erased

  datatype Page = Blank(content: bytes) | Filled(head: bytes, items: seq<Item>)

  predicate ProperKey(key: bytes) {
    0 < |key| <= 15 && 0 !in key
  }

  predicate ProperItem(it: Item) {
    match it
    case Definition(_, name, misc, fill) => ProperKey(name) && |misc| == 5 && |fill| == 7
    case Stored(ns, kind, key, misc, data, body) =>
      && ProperKey(key) && |misc| == 5 && |data| == 8
      && |body| % SLOT == 0 && |body| <= 125 * SLOT
      && !(ns == 0 && kind == U8)
      && (kind == STRING ==> FromLE(data[..2]) <= |body|)
    case Erased => true
  }

  function Repeat(b: byte, n: nat): (s: bytes)
    ensures |s| == n && forall i :: 0 <= i < n ==> s[i] == b
  {
    seq(n, _ => b)
  }

  function Header(ns: byte, kind: byte, span: byte, key: bytes, misc: bytes, data: bytes): (h: bytes)
    requires |key| <= 15 && |misc| == 5 && |data| == 8
    ensures |h| == SLOT
  {
    [ns, kind, span] + misc + key + Repeat(0, 16 - |key|) + data
  }

  function Slots(it: Item): nat {
    if it.Stored? then 1 + |it.body| / SLOT else 1
  }

  function Encode(it: Item): (b: bytes)
    requires ProperItem(it)
    ensures |b| == SLOT * Slots(it)
  {
    match it
    case Definition(index, name, misc, fill) => Header(0, U8, 1, name, misc, [index] + fill)
    case Stored(ns, kind, key, misc, data, body) =>
      Header(ns, kind, 1 + |body| / SLOT, key, misc, data) + body
    case Erased => Repeat(0xFF, SLOT)
  }

  function EncodeItems(items: seq<Item>): (b: bytes)
    requires forall it :: it in items ==> ProperItem(it)
    ensures |b| == SLOT * SlotCount(items)
  {
    if items == [] then [] else Encode(items[0]) + EncodeItems(items[1..])
  }

  function SlotCount(items: seq<Item>): nat {
    if items == [] then 0 else Slots(items[0]) + SlotCount(items[1..])
  }

  predicate ProperPage(p: Page) {
    match p
    case Blank(content) => |content| == PAGE && FromLE(content[..4]) == TWO_32 - 1
    case Filled(head, items) =>
      && |head| == FIRST_SLOT && FromLE(head[..4]) != TWO_32 - 1
      && (forall it :: it in items ==> ProperItem(it)) && SlotCount(items) <= MAX_SLOTS
  }

  function EncodePage(p: Page): (b: bytes)
    requires ProperPage(p)
    ensures |b| == PAGE
  {
    match p
    case Blank(content) => content
    case Filled(head, items) => head + EncodeItems(items) + Repeat(0xFF, SLOT * (MAX_SLOTS - SlotCount(items)))
  }

  function EncodeImage(pages: seq<Page>): bytes
    requires forall p :: p in pages ==> ProperPage(p)
  {
    if pages == [] then [] else EncodePage(pages[0]) + EncodeImage(pages[1..])
  }

  /** The value a stored item stands for. */
  function Meaning(kind: byte, data: bytes, body: bytes): Value
    requires |data| == 8
  {
    if kind == STRING then
      var size := FromLE(data[..2]);
      Text(TrimNul(if size <= |body| then body[..size] else body))
    else if kind == U8 then Number(FromLE(data[..1]))
    else if kind == I8 then Number(Signed(FromLE(data[..1]), 1))
    else if kind == U16 then Number(FromLE(data[..2]))
    else if kind == I16 then Number(Signed(FromLE(data[..2]), 2))
    else if kind == U32 then Number(FromLE(data[..4]))
    else if kind == I32 then Number(Signed(FromLE(data[..4]), 4))
    else if kind == U64 then Number(FromLE(data))
    else if kind == I64 then Number(Signed(FromLE(data), 8))
    else if kind == BLOB_INDEX then Blob(FromLE(data[..4]))
    else if kind == BLOB_DATA then Chunk(8)
    else Opaque(kind)
  }

  function FactsOfItem(it: Item): seq<Fact>
    requires ProperItem(it)
  {
    match it
    case Definition(index, name, _, _) => [Def(index, name)]
    case Stored(ns, kind, key, _, data, body) => [Data(Raw(ns, kind, key, Meaning(kind, data, body)))]
    case Erased => []
  }

  function FactsOfItems(items: seq<Item>): seq<Fact>
    requires forall it :: it in items ==> ProperItem(it)
  {
    if items == [] then [] else FactsOfItem(items[0]) + FactsOfItems(items[1..])
  }

  function FactsOfPage(p: Page): seq<Fact>
    requires ProperPage(p)
  {
    if p.Filled? then FactsOfItems(p.items) else []
  }

  function FactsOfPages(pages: seq<Page>): seq<Fact>
    requires forall p :: p in pages ==> ProperPage(p)
  {
    if pages == [] then [] else FactsOfPage(pages[0]) + FactsOfPages(pages[1..])
  }

  // ---------------------------------------------------------------- reading back what was written

  lemma HeaderFields(ns: byte, kind: byte, span: byte, key: bytes, misc: bytes, data: bytes)
    requires ProperKey(key) && |misc| == 5 && |data| == 8
    ensures var h := Header(ns, kind, span, key, misc, data);
            h[0] == ns && h[1] == kind && h[2] == span && Key(h) == key && h[24..] == data
  {
    var h, zeros := Header(ns, kind, span, key, misc, data), Repeat(0, 16 - |key|);
    assert h[8..23] == key + zeros[..15 - |key|];
    TrimPadded(key, zeros[..15 - |key|]);
  }

  lemma SameValue(e: bytes, data: bytes, body: bytes, rest: bytes)
    requires |e| == SLOT && |data| == 8 && e[24..] == data
    requires e[1] == STRING ==> FromLE(data[..2]) <= |body|
    ensures ValueOf(e, body + rest) == Meaning(e[1], data, body)
  {
    assert e[24..25] == data[..1] && e[24..26] == data[..2] && e[24..28] == data[..4] && e[24..32] == data;
    if e[1] == STRING {
      var size := FromLE(data[..2]);
      assert (body + rest)[..size] == body[..size];
    }
  }

  /** A definition takes one slot whatever its span says: the scan goes on right behind it. */
  lemma DefinitionIsOneSlot(e: bytes, rest: bytes)
    requires |e| == SLOT && IsDefinition(e) && Key(e) != []
    ensures ScanSlots(e + rest) == [Def(e[24], Key(e))] + ScanSlots(rest)
  {
    ScanStep(e, rest);
    assert e[1] != 0xFF;
    assert Drop(rest, 0) == rest;
  }

  /** Any other entry takes the slots its span says, from one to a full page; no other span skips anything. */
  lemma EntryTakesItsSpan(e: bytes, rest: bytes)
    requires |e| == SLOT && !IsDefinition(e) && !AllFF(e) && Key(e) != []
    ensures var more := if 2 <= e[2] <= MAX_SLOTS then e[2] - 1 else 0;
            ScanSlots(e + rest)
            == [Data(Raw(e[0], e[1], Key(e), ValueOf(e, rest)))] + ScanSlots(Drop(rest, SLOT * more))
  {
    ScanStep(e, rest);
  }

  lemma ScanDefinition(it: Item, rest: bytes)
    requires it.Definition? && ProperItem(it)
    ensures ScanSlots(Encode(it) + rest) == FactsOfItem(it) + ScanSlots(rest)
  {
    var e := Encode(it);
    HeaderFields(0, U8, 1, it.name, it.misc, [it.index] + it.fill);
    assert e[24] == e[24..][0];
    assert !AllFF(e);
    ScanStep(e, rest);
  }

  function StoredHeader(it: Item): (e: bytes)
    requires it.Stored? && ProperItem(it)
    ensures |e| == SLOT
  {
    Header(it.ns, it.kind, 1 + |it.body| / SLOT, it.key, it.misc, it.data)
  }

  lemma StoredFact(it: Item, rest: bytes)
    requires it.Stored? && ProperItem(it)
    ensures FactAt(StoredHeader(it), it.body + rest) == FactsOfItem(it)
    ensures SLOT * Advance(StoredHeader(it)) == |it.body|
  {
    var e := StoredHeader(it);
    HeaderFields(it.ns, it.kind, 1 + |it.body| / SLOT, it.key, it.misc, it.data);
    assert !AllFF(e);
    SameValue(e, it.data, it.body, rest);
  }

  lemma ScanStored(it: Item, rest: bytes)
    requires it.Stored? && ProperItem(it)
    ensures ScanSlots(Encode(it) + rest) == FactsOfItem(it) + ScanSlots(rest)
  {
    var e := StoredHeader(it);
    StoredFact(it, rest);
    ScanStep(e, it.body + rest);
    Assoc(e, it.body, rest);
    assert (it.body + rest)[|it.body|..] == rest;
  }

  /** One item in front of anything: its facts, then the scan goes on right behind its data slots. */
  lemma ScanItem(it: Item, rest: bytes)
    requires ProperItem(it)
    ensures ScanSlots(Encode(it) + rest) == FactsOfItem(it) + ScanSlots(rest)
  {
    match it
    case Erased => ScanStep(Repeat(0xFF, SLOT), rest);
    case Definition(_, _, _, _) => ScanDefinition(it, rest);
    case Stored(_, _, _, _, _, _) => ScanStored(it, rest);
  }

  lemma {:induction false} ScanErased(n: nat)
    ensures ScanSlots(Repeat(0xFF, SLOT * n)) == []
  {
    if n > 0 {
      var s := Repeat(0xFF, SLOT * n);
      ScanErased(n - 1);
      assert AllFF(s[..SLOT]) && s[SLOT..] == Repeat(0xFF, SLOT * (n - 1));
    }
  }

  lemma {:induction false} ScanItems(items: seq<Item>, rest: bytes)
    requires forall it :: it in items ==> ProperItem(it)
    ensures ScanSlots(EncodeItems(items) + rest) == FactsOfItems(items) + ScanSlots(rest)
  {
    if items == [] {
      assert EncodeItems(items) + rest == rest;
    } else {
      var first, more := Encode(items[0]), EncodeItems(items[1..]);
      ScanItem(items[0], more + rest);
      ScanItems(items[1..], rest);
      Assoc(first, more, rest);
      Assoc(FactsOfItem(items[0]), FactsOfItems(items[1..]), ScanSlots(rest));
    }
  }

  lemma ScanWrittenPage(p: Page)
    requires ProperPage(p)
    ensures ScanPage(EncodePage(p)) == FactsOfPage(p)
  {
    if p.Filled? {
      var free := MAX_SLOTS - SlotCount(p.items);
      var b := EncodePage(p);
      assert b[..4] == p.head[..4];
      assert b[FIRST_SLOT..] == EncodeItems(p.items) + Repeat(0xFF, SLOT * free);
      ScanItems(p.items, Repeat(0xFF, SLOT * free));
      ScanErased(free);
      assert FactsOfItems(p.items) + [] == FactsOfItems(p.items);
    }
  }

  lemma ScanFirstPage(pg: bytes, rest: bytes)
    requires |pg| == PAGE
    ensures ScanImage(pg + rest) == ScanPage(pg) + ScanImage(rest)
  {
  }

  lemma {:induction false} ScanWrittenImage(pages: seq<Page>, rest: bytes)
    requires forall p :: p in pages ==> ProperPage(p)
    requires |rest| < PAGE
    ensures ScanImage(EncodeImage(pages) + rest) == FactsOfPages(pages)
  {
    if pages == [] {
      assert EncodeImage(pages) + rest == rest;
    } else {
      var first, more := EncodePage(pages[0]), EncodeImage(pages[1..]);
      Assoc(first, more, rest);
      ScanFirstPage(first, more + rest);
      ScanWrittenPage(pages[0]);
      ScanWrittenImage(pages[1..], rest);
    }
  }

  /**
   ParseNVS inverts the page writer: on any well-formed image it returns exactly the stored entries
   in order, each with the name its index is given anywhere in the image, and never an entry made
   of another entry's data.
   */
  method ParsesWhatWasWritten(pages: seq<Page>, rest: bytes, show: bool, secret: bytes -> bool)
    returns (out: seq<Entry>)
    requires forall p :: p in pages ==> ProperPage(p)
    requires |rest| < PAGE
    ensures out == Entries(FactsOfPages(pages), show, secret)
  {
    ScanWrittenImage(pages, rest);
    out := ParseNvs(EncodeImage(pages) + rest, show, secret);
  }

  // ---------------------------------------------------------------- names and values

  /** The definition that counts for an index is its last one, wherever it is. */
  lemma {:induction false} LastDefinitionNames(facts: seq<Fact>, i: nat)
    requires i < |facts| && facts[i].Def?
    requires forall j :: i < j < |facts| && facts[j].Def? ==> facts[j].index != facts[i].index
    ensures facts[i].index in NamesOf(facts) && NamesOf(facts)[facts[i].index] == facts[i].name
  {
    if i < |facts| - 1 {
      LastDefinitionNames(facts[..|facts| - 1], i);
    }
  }

  /** An entry carries the name its namespace index is given, before or after the entry. */
  lemma NamedByTheLastDefinition(facts: seq<Fact>, show: bool, secret: bytes -> bool, k: nat, i: nat)
    requires k < |RawsOf(facts)|
    requires i < |facts| && facts[i].Def? && facts[i].index == RawsOf(facts)[k].ns
    requires forall j :: i < j < |facts| && facts[j].Def? ==> facts[j].index != facts[i].index
    ensures Entries(facts, show, secret)[k].ns == Named(facts[i].name)
  {
    LastDefinitionNames(facts, i);
  }

  lemma {:induction false} NamedMeansDefined(facts: seq<Fact>, index: byte)
    ensures index in NamesOf(facts) <==> exists i :: 0 <= i < |facts| && facts[i].Def? && facts[i].index == index
  {
    if facts != [] {
      var front := facts[..|facts| - 1];
      NamedMeansDefined(front, index);
      if i :| 0 <= i < |front| && front[i].Def? && front[i].index == index {
        assert facts[i] == front[i];
      }
      if i :| 0 <= i < |facts| && facts[i].Def? && facts[i].index == index {
        assert i < |front| ==> front[i] == facts[i];
      }
    }
  }

  /** A secret key is never shown with its value unless asked for, and nothing else is hidden. */
  lemma SecretsAreMasked(facts: seq<Fact>, show: bool, secret: bytes -> bool, i: nat)
    requires i < |Entries(facts, show, secret)|
    ensures var e, r := Entries(facts, show, secret)[i], RawsOf(facts)[i];
            e.key == r.key && e.kind == r.kind && e.value == (if secret(r.key) && !show then Masked else r.value)
  {
  }

  function Width(kind: byte): nat {
    if kind == U8 || kind == I8 then 1
    else if kind == U16 || kind == I16 then 2
    else if kind == U32 || kind == I32 then 4
    else 8
  }

  predicate IsSigned(kind: byte) {
    kind == I8 || kind == I16 || kind == I32 || kind == I64
  }

  predicate IsInteger(kind: byte) {
    IsSigned(kind) || kind == U8 || kind == U16 || kind == U32 || kind == U64
  }

  predicate InRange(kind: byte, v: int) {
    if IsSigned(kind) then 0 <= 2 * v + Pow256(Width(kind)) < 2 * Pow256(Width(kind))
    else 0 <= v < Pow256(Width(kind))
  }

  /** The data field of an integer: little-endian two's complement, the rest filled up. */
  function IntegerData(kind: byte, v: int, fill: bytes): (d: bytes)
    requires IsInteger(kind) && InRange(kind, v) && |fill| == 8 - Width(kind)
    ensures |d| == 8
  {
    ToLE(if v < 0 then v + Pow256(Width(kind)) else v, Width(kind)) + fill
  }

  lemma IntegerDataReads(kind: byte, v: int, fill: bytes)
    requires IsInteger(kind) && InRange(kind, v) && |fill| == 8 - Width(kind)
    ensures var d := IntegerData(kind, v, fill);
            FromLE(d[..Width(kind)]) == if v < 0 then v + Pow256(Width(kind)) else v
  {
    var w := Width(kind);
    LEField(if v < 0 then v + Pow256(w) else v, w, fill);
  }

  lemma SignedInverse(v: int, width: nat)
    requires 0 <= 2 * v + Pow256(width) < 2 * Pow256(width)
    ensures Signed(if v < 0 then v + Pow256(width) else v, width) == v
  {
  }

  /** Every integer of every width and sign comes back as itself. */
  lemma IntegersComeBack(kind: byte, v: int, fill: bytes, body: bytes)
    requires IsInteger(kind) && InRange(kind, v) && |fill| == 8 - Width(kind)
    ensures Meaning(kind, IntegerData(kind, v, fill), body) == Number(v)
  {
    var w, d := Width(kind), IntegerData(kind, v, fill);
    IntegerDataReads(kind, v, fill);
    assert w == 8 ==> d[..8] == d;
    if IsSigned(kind) {
      SignedInverse(v, w);
    }
  }

  /** A blob index tells the size it was given. */
  lemma BlobSizesComeBack(size: nat, fill: bytes, body: bytes)
    requires size < TWO_32 && |fill| == 4
    ensures Meaning(BLOB_INDEX, ToLE(size, 4) + fill, body) == Blob(size)
  {
    Pow256Widths();
    LEField(size, 4, fill);
  }

  /** A string comes back without its terminating NUL and padding. */
  lemma StringsComeBack(text: bytes, data: bytes, padding: bytes)
    requires 0 !in text && |data| == 8 && FromLE(data[..2]) == |text| + 1
    ensures Meaning(STRING, data, text + [0] + padding) == Text(text)
  {
    var body := text + [0] + padding;
    assert body[..|text| + 1] == text + [0];
    TrimPadded(text, [0]);
  }

  // ---------------------------------------------------------------- what the device stored, end to end

  /** A value as the device means it, with the bytes the parser does not look at. */
  datatype Content =
    | OfInteger(kind: byte, v: int, fill: bytes)
    | OfString(text: bytes, check: bytes, padding: bytes)
    | OfBlob(size: nat, fill: bytes)

  datatype Record =
    | Defines(index: byte, name: bytes, misc: bytes, fill: bytes)
    | Keeps(ns: byte, key: bytes, misc: bytes, content: Content)
    | Unused

  datatype Sheet = Untouched(content: bytes) | Sheet(head: bytes, records: seq<Record>)

  predicate ProperContent(c: Content) {
    match c
    case OfInteger(kind, v, fill) => IsInteger(kind) && InRange(kind, v) && |fill| == 8 - Width(kind)
    case OfString(text, check, padding) =>
      && 0 !in text && |check| == 6
      && (|text| + 1 + |padding|) % SLOT == 0 && |text| + 1 + |padding| <= 125 * SLOT
    case OfBlob(size, fill) => size < TWO_32 && |fill| == 4
  }

  function KindOf(c: Content): byte {
    match c
    case OfInteger(kind, _, _) => kind
    case OfString(_, _, _) => STRING
    case OfBlob(_, _) => BLOB_INDEX
  }

  predicate ProperRecord(r: Record) {
    match r
    case Defines(_, name, misc, fill) => ProperKey(name) && |misc| == 5 && |fill| == 7
    case Keeps(ns, key, misc, content) =>
      ProperKey(key) && |misc| == 5 && ProperContent(content) && !(ns == 0 && KindOf(content) == U8)
    case Unused => true
  }

  function DataOf(c: Content): (d: bytes)
    requires ProperContent(c)
    ensures |d| == 8
  {
    match c
    case OfInteger(kind, v, fill) => IntegerData(kind, v, fill)
    case OfString(text, check, _) => ToLE(|text| + 1, 2) + check
    case OfBlob(size, fill) => ToLE(size, 4) + fill
  }

  function BodyOf(c: Content): bytes {
    if c.OfString? then c.text + [0] + c.padding else []
  }

  /** The value to be shown. */
  function ValueIn(c: Content): Value {
    match c
    case OfInteger(_, v, _) => Number(v)
    case OfString(text, _, _) => Text(text)
    case OfBlob(size, _) => Blob(size)
  }

  lemma StringSize(text: bytes, check: bytes)
    requires |text| < 125 * SLOT
    ensures FromLE((ToLE(|text| + 1, 2) + check)[..2]) == |text| + 1
  {
    Pow256Widths();
    LEField(|text| + 1, 2, check);
  }

  lemma ContentComesBack(c: Content)
    requires ProperContent(c)
    ensures Meaning(KindOf(c), DataOf(c), BodyOf(c)) == ValueIn(c)
    ensures c.OfString? ==> FromLE(DataOf(c)[..2]) <= |BodyOf(c)|
  {
    match c
    case OfInteger(kind, v, fill) => IntegersComeBack(kind, v, fill, []);
    case OfString(text, check, padding) =>
      StringSize(text, check);
      StringsComeBack(text, DataOf(c), padding);
    case OfBlob(size, fill) => BlobSizesComeBack(size, fill, []);
  }

  function ItemOf(r: Record): (it: Item)
    requires ProperRecord(r)
    ensures ProperItem(it)
    ensures FactsOfItem(it) == FactsOfRecord(r)
  {
    match r
    case Defines(index, name, misc, fill) => Definition(index, name, misc, fill)
    case Keeps(ns, key, misc, c) =>
      ContentComesBack(c);
      Stored(ns, KindOf(c), key, misc, DataOf(c), BodyOf(c))
    case Unused => Erased
  }

  function FactsOfRecord(r: Record): seq<Fact> {
    match r
    case Defines(index, name, _, _) => [Def(index, name)]
    case Keeps(ns, key, _, c) => [Data(Raw(ns, KindOf(c), key, ValueIn(c)))]
    case Unused => []
  }

  function FactsOfRecords(rs: seq<Record>): seq<Fact> {
    if rs == [] then [] else FactsOfRecord(rs[0]) + FactsOfRecords(rs[1..])
  }

  function ItemsOf(rs: seq<Record>): (items: seq<Item>)
    requires forall r :: r in rs ==> ProperRecord(r)
    ensures forall it :: it in items ==> ProperItem(it)
    ensures FactsOfItems(items) == FactsOfRecords(rs)
  {
    if rs == [] then [] else [ItemOf(rs[0])] + ItemsOf(rs[1..])
  }

  predicate ProperSheet(s: Sheet) {
    match s
    case Untouched(content) => |content| == PAGE && FromLE(content[..4]) == TWO_32 - 1
    case Sheet(head, records) =>
      && |head| == FIRST_SLOT && FromLE(head[..4]) != TWO_32 - 1
      && (forall r :: r in records ==> ProperRecord(r)) && SlotCount(ItemsOf(records)) <= MAX_SLOTS
  }

  function PageOf(s: Sheet): (p: Page)
    requires ProperSheet(s)
    ensures ProperPage(p) && FactsOfPage(p) == FactsOfSheet(s)
  {
    match s
    case Untouched(content) => Blank(content)
    case Sheet(head, records) => Filled(head, ItemsOf(records))
  }

  function FactsOfSheet(s: Sheet): seq<Fact> {
    if s.Sheet? then FactsOfRecords(s.records) else []
  }

  function FactsOfSheets(sheets: seq<Sheet>): seq<Fact> {
    if sheets == [] then [] else FactsOfSheet(sheets[0]) + FactsOfSheets(sheets[1..])
  }

  function PagesOf(sheets: seq<Sheet>): (pages: seq<Page>)
    requires forall s :: s in sheets ==> ProperSheet(s)
    ensures forall p :: p in pages ==> ProperPage(p)
    ensures FactsOfPages(pages) == FactsOfSheets(sheets)
  {
    if sheets == [] then [] else [PageOf(sheets[0])] + PagesOf(sheets[1..])
  }

  /**
   End to end: from the integers, strings and blob sizes a device stored, through the flash image,
   to the entries shown: each with its own value, its key, its kind and its namespace's name.
   */
  method ShowsWhatWasStored(sheets: seq<Sheet>, rest: bytes, show: bool, secret: bytes -> bool)
    returns (out: seq<Entry>)
    requires forall s :: s in sheets ==> ProperSheet(s)
    requires |rest| < PAGE
    ensures out == Entries(FactsOfSheets(sheets), show, secret)
  {
    out := ParsesWhatWasWritten(PagesOf(sheets), rest, show, secret);
  }
}
