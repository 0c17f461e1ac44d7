/**
 The bounded memory of hello salts.  It remembers the base64 texts of the last 64 accepted hellos
 and refuses a text it remembers; the keys come from the decoded salt, which other texts spell too.
 */
module SaltCache {
  import opened Base64
  import opened Bytes

  const CAPACITY := 64

  function Newest(history: seq<string>): seq<string> {
    if |history| <= CAPACITY then history else history[|history| - CAPACITY..]
  }

  predicate Distinct(s: seq<string>) {
    forall i, j :: 0 <= i < j < |s| ==> s[i] != s[j]
  }

  function Elements(s: seq<string>): set<string> {
    set x | x in s
  }

  class Cache {
    var order: seq<string>
    var has: set<string>
    /** Every salt dup ever accepted as new, oldest first. */
    ghost var history: seq<string>

    ghost predicate Valid()
      reads this
    {
      && order == Newest(history)
      && Distinct(order)
      && has == Elements(order)
    }

    constructor ()
      ensures Valid() && history == []
    {
      order, has, history := [], {}, [];
    }

    /** "Seen" exactly when the salt is among the last 64 newly accepted ones. */
    method Dup(salt: string) returns (seen: bool)
      requires Valid()
      modifies this
      ensures Valid()
      ensures seen <==> salt in Newest(old(history))
      ensures history == if seen then old(history) else old(history) + [salt]
      ensures |has| == |order| <= CAPACITY
    {
      DistinctCount(order);
      if salt in has {
        return true;
      }
      AddNewest(history, order, salt);
      has := has + {salt};
      order := order + [salt];
      history := history + [salt];
      if |order| > CAPACITY {
        DropOldest(order);
        has := has - {order[0]};
        order := order[1..];
      }
      DistinctCount(order);
      return false;
    }
  }

  lemma AddNewest(history: seq<string>, order: seq<string>, salt: string)
    requires order == Newest(history) && Distinct(order) && salt !in order
    ensures Distinct(order + [salt]) && Elements(order + [salt]) == Elements(order) + {salt}
    ensures Newest(history + [salt]) == if |order| < CAPACITY then order + [salt] else (order + [salt])[1..]
  {
  }

  lemma DropOldest(order: seq<string>)
    requires Distinct(order) && |order| > 0
    ensures Distinct(order[1..]) && Elements(order[1..]) == Elements(order) - {order[0]}
  {
  }

  lemma InWindow(history: seq<string>, k: nat)
    requires k < |history| && |history| - k <= CAPACITY
    ensures history[k] in Newest(history)
  {
  }

  lemma {:induction false} DistinctCount(s: seq<string>)
    requires Distinct(s)
    ensures |Elements(s)| == |s|
  {
    if s != [] {
      var front, last := s[..|s| - 1], s[|s| - 1];
      DistinctCount(front);
      assert s == front + [last];
      assert Elements(s) == Elements(front) + {last};
    }
  }

  // ---------------------------------------------------------------- the plain history

  /** The reference: a list of all accepted salts, looked at through a window of 64. */
  function Accept(history: seq<string>, salt: string): seq<string> {
    if salt in Newest(history) then history else history + [salt]
  }

  function AcceptAll(salts: seq<string>): seq<string> {
    if salts == [] then [] else Accept(AcceptAll(salts[..|salts| - 1]), salts[|salts| - 1])
  }

  /** A salt accepted at step i is refused for as long as fewer than 64 acceptances followed it. */
  lemma ReplayIsRefused(salts: seq<string>, i: nat)
    requires i < |salts| && salts[i] !in Newest(AcceptAll(salts[..i]))
    requires |AcceptAll(salts)| - |AcceptAll(salts[..i + 1])| < CAPACITY
    ensures Accept(AcceptAll(salts), salts[i]) == AcceptAll(salts)
  {
    var before := AcceptAll(salts[..i]);
    AcceptedAt(salts, i);
    HistoryGrows(salts, i + 1);
    InWindow(AcceptAll(salts), |before|);
  }

  lemma AcceptSnoc(salts: seq<string>, salt: string)
    ensures AcceptAll(salts + [salt]) == Accept(AcceptAll(salts), salt)
  {
  }

  lemma AcceptedAt(salts: seq<string>, i: nat)
    requires i < |salts| && salts[i] !in Newest(AcceptAll(salts[..i]))
    ensures AcceptAll(salts[..i + 1]) == AcceptAll(salts[..i]) + [salts[i]]
  {
    AcceptSnoc(salts[..i], salts[i]);
    assert salts[..i + 1] == salts[..i] + [salts[i]];
  }

  lemma {:induction false} HistoryGrows(salts: seq<string>, n: nat)
    requires n <= |salts|
    ensures AcceptAll(salts[..n]) <= AcceptAll(salts)
    decreases |salts|
  {
    if n == |salts| {
      assert salts[..n] == salts;
    } else {
      HistoryGrows(salts[..|salts| - 1], n);
      assert salts[..|salts| - 1][..n] == salts[..n];
    }
  }

  /** No accepted salt repeats within any window of 64 acceptances. */
  lemma {:induction false} WindowIsDistinct(salts: seq<string>, i: nat, j: nat)
    requires i < j < |AcceptAll(salts)| && j - i <= CAPACITY
    ensures AcceptAll(salts)[i] != AcceptAll(salts)[j]
  {
    var front := AcceptAll(salts[..|salts| - 1]);
    if j < |front| {
      WindowIsDistinct(salts[..|salts| - 1], i, j);
    } else {
      assert AcceptAll(salts) == front + [salts[|salts| - 1]];
      InWindow(front, i);
    }
  }

  // ---------------------------------------------------------------- hellos and the salts they spell

  /** The salt a hello text spells; [] if the text is corrupt. */
  function Salt(text: string): bytes {
    match Decode(text)
    case Bytes(salt) => salt
    case Corrupt => []
  }

  /** AcceptChannel's two checks: a hello without a salt never reaches the memory. */
  function Hello(history: seq<string>, text: string): seq<string> {
    if Salt(text) == [] then history else Accept(history, text)
  }

  function Hellos(texts: seq<string>): seq<string> {
    if texts == [] then [] else Hello(Hellos(texts[..|texts| - 1]), texts[|texts| - 1])
  }

  datatype Greeting = NoSalt | Replayed | Keyed(salt: bytes)

  /** The server's side of a hello up to the key derivation. */
  method Greet(cache: Cache, text: string) returns (g: Greeting)
    requires cache.Valid()
    modifies cache
    ensures cache.Valid() && cache.history == Hello(old(cache.history), text)
    ensures g.Keyed? <==> cache.history != old(cache.history)
    ensures g.Keyed? ==> g.salt == Salt(text) != []
    ensures g.Replayed? ==> text in Newest(cache.history)
    ensures g.NoSalt? <==> Decode(text) == Corrupt || Decode(text) == Bytes([])
  {
    var d := Decode(text);
    if d.Corrupt? || d.value == [] {
      return NoSalt;
    }
    var seen := cache.Dup(text);
    return if seen then Replayed else Keyed(d.value);
  }

  /** What b64 makes of a salt: the texts the program itself sends. */
  predicate IsCanonical(text: string) {
    text == Encode(Salt(text))
  }

  /** Another spelling of the same salt. */
  predicate Respells(text: string, other: string) {
    text != other && Salt(text) == Salt(other)
  }

  /** The texts that reached the memory. */
  function WithSalt(texts: seq<string>): seq<string> {
    if texts == [] then []
    else
      var front, last := WithSalt(texts[..|texts| - 1]), texts[|texts| - 1];
      if Salt(last) == [] then front else front + [last]
  }

  lemma {:induction false} HellosAreAcceptances(texts: seq<string>)
    ensures Hellos(texts) == AcceptAll(WithSalt(texts))
  {
    if texts != [] {
      HellosAreAcceptances(texts[..|texts| - 1]);
      AcceptSnoc(WithSalt(texts[..|texts| - 1]), texts[|texts| - 1]);
    }
  }

  // ---------------------------------------------------------------- which texts are safe to let in

  /**
   No sequence of hellos with texts of one kind, accepted or not, ever gives two hellos within 64
   acceptances the same key; `key` says what of a salt the keys depend on.
   */
  ghost predicate NeverTwice(kind: string -> bool, key: bytes -> bytes) {
    forall texts: seq<string>, i: nat, j: nat ::
      (forall t :: t in texts ==> kind(t)) && i < j < |Hellos(texts)| && j - i <= CAPACITY ==>
        key(Salt(Hellos(texts)[i])) != key(Salt(Hellos(texts)[j]))
  }

  /** Different texts of the kind that spell a salt lead to different keys. */
  ghost predicate TellsApart(kind: string -> bool, key: bytes -> bytes) {
    forall a, b :: kind(a) && kind(b) && Salt(a) != [] && Salt(b) != [] && key(Salt(a)) == key(Salt(b)) ==> a == b
  }

  lemma {:induction false} HellosAreOfKind(texts: seq<string>, kind: string -> bool)
    requires forall t :: t in texts ==> kind(t)
    ensures forall t :: t in Hellos(texts) ==> kind(t) && Salt(t) != []
  {
    if texts != [] {
      HellosAreOfKind(texts[..|texts| - 1], kind);
    }
  }

  lemma TwoHellos(a: string, b: string)
    requires a != b && Salt(a) != [] && Salt(b) != []
    ensures Hellos([a, b]) == [a, b]
  {
    assert [a, b][..1] == [a] && [a][..0] == [];
    assert Hellos([a]) == Hello(Hellos([]), a) == [a];
  }

  /**
   The exact condition.  Whatever part of a salt decides the keys, a kind of hello text is safe (no
   keys come twice within the window, over all sequences of such hellos) if and only if no two
   texts of the kind lead to the same keys; the memory of texts then does the rest.
   */
  lemma NeverTwiceIffToldApart(kind: string -> bool, key: bytes -> bytes)
    ensures NeverTwice(kind, key) <==> TellsApart(kind, key)
  {
    if TellsApart(kind, key) {
      forall texts: seq<string>, i: nat, j: nat
        | (forall t :: t in texts ==> kind(t)) && i < j < |Hellos(texts)| && j - i <= CAPACITY
        ensures key(Salt(Hellos(texts)[i])) != key(Salt(Hellos(texts)[j]))
      {
        HellosAreOfKind(texts, kind);
        HellosAreAcceptances(texts);
        WindowIsDistinct(WithSalt(texts), i, j);
        assert Hellos(texts)[i] in Hellos(texts) && Hellos(texts)[j] in Hellos(texts);
      }
    } else {
      var a, b :|
        kind(a) && kind(b) && Salt(a) != [] && Salt(b) != [] && key(Salt(a)) == key(Salt(b)) && a != b;
      TwoHellos(a, b);
      var i: nat, j: nat := 0, 1;
      assert i < j < |Hellos([a, b])| && key(Salt(Hellos([a, b])[i])) == key(Salt(Hellos([a, b])[j]));
    }
  }

  /** Among hellos spelt canonically no salt comes twice. */
  lemma CanonicalSaltsAreFresh(texts: seq<string>, i: nat, j: nat)
    requires i < j < |Hellos(texts)| && j - i <= CAPACITY
    requires IsCanonical(Hellos(texts)[i]) && IsCanonical(Hellos(texts)[j])
    ensures Salt(Hellos(texts)[i]) != Salt(Hellos(texts)[j])
  {
    HellosAreAcceptances(texts);
    WindowIsDistinct(WithSalt(texts), i, j);
  }

  // ---------------------------------------------------------------- from salts to keys

  const BLOCK := 64

  function Zeros(n: nat): (z: bytes)
    ensures |z| == n
  {
    seq(n, _ => 0)
  }

  /**
   What HKDF-Extract sees of a salt (section 2.2 of RFC 5869): the key block of HMAC, filled up with
   zeros, with a long key hashed first (section 2 of RFC 2104).
   */
  function KeyBlock(hash: bytes -> bytes, salt: bytes): bytes {
    var k := if |salt| <= BLOCK then salt else hash(salt);
    if |k| < BLOCK then k + Zeros(BLOCK - |k|) else k
  }

  /** The hellos DialChannel sends: sixteen random bytes, spelt by b64. */
  predicate IsOwn(text: string) {
    IsCanonical(text) && |Salt(text)| == 16
  }

  /** Between such hellos no keys come twice within 64 acceptances. */
  lemma OwnHellosGetFreshKeys(hash: bytes -> bytes)
    ensures NeverTwice(IsOwn, salt => KeyBlock(hash, salt))
  {
    var key := salt => KeyBlock(hash, salt);
    forall a, b | IsOwn(a) && IsOwn(b) && Salt(a) != [] && Salt(b) != [] && key(Salt(a)) == key(Salt(b))
      ensures a == b
    {
      assert KeyBlock(hash, Salt(a))[..16] == Salt(a) && KeyBlock(hash, Salt(b))[..16] == Salt(b);
    }
    NeverTwiceIffToldApart(IsOwn, key);
  }

  lemma ZeroMoreSameBlock(hash: bytes -> bytes, salt: bytes)
    requires |salt| < BLOCK
    ensures KeyBlock(hash, salt) == KeyBlock(hash, salt + [0])
  {
    assert [0] + Zeros(BLOCK - |salt| - 1) == Zeros(BLOCK - |salt|);
    Assoc(salt, [0], Zeros(BLOCK - |salt| - 1));
  }

  /** AcceptChannel takes salts of any length, and a zero byte more at the end of one changes no key. */
  lemma ZeroMoreSameKeys(hash: bytes -> bytes, salt: bytes)
    requires 0 < |salt| < BLOCK
    ensures KeyBlock(hash, salt) == KeyBlock(hash, salt + [0])
    ensures IsCanonical(Encode(salt)) && IsCanonical(Encode(salt + [0]))
    ensures Hellos([Encode(salt), Encode(salt + [0])]) == [Encode(salt), Encode(salt + [0])]
    ensures !NeverTwice(IsCanonical, s => KeyBlock(hash, s))
  {
    var a, b := Encode(salt), Encode(salt + [0]);
    DecodeInvertsEncode(salt);
    DecodeInvertsEncode(salt + [0]);
    assert salt + [0] != salt;
    TwoHellos(a, b);
    ZeroMoreSameBlock(hash, salt);
    var key := s => KeyBlock(hash, s);
    NeverTwiceIffToldApart(IsCanonical, key);
    assert key(Salt(a)) == key(Salt(b));
  }

  /** Every salt has exactly one canonical text. */
  lemma OneCanonicalText(salt: bytes, text: string)
    ensures Salt(Encode(salt)) == salt
    ensures Salt(text) == salt && IsCanonical(text) <==> text == Encode(salt)
  {
    DecodeInvertsEncode(salt);
  }

  /** And every text has another spelling, which the memory takes for a new salt unless it holds that too. */
  lemma EverySaltIsRespelled(history: seq<string>, text: string)
    requires Salt(text) != []
    ensures var other := text + "\n";
            && Respells(text, other)
            && (Hello(history, other) == history + [other] <==> other !in Newest(history))
  {
    LineBreakIsSkipped(text, '\n');
    assert text + ['\n'] == text + "\n";
  }
}
