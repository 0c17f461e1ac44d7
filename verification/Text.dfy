/** Decimal numerals and the byte-wise order of strings. */
module Text {

  predicate IsDigit(c: char) {
    '0' <= c <= '9'
  }

  function Digit(n: nat): (c: char)
    requires n < 10
    ensures IsDigit(c) && c as int - '0' as int == n
  {
    ('0' as int + n) as char
  }

  function DigitValue(c: char): nat
    requires IsDigit(c)
  {
    c as int - '0' as int
  }

  function Decimal(n: nat): (s: string)
    ensures s != "" && forall c :: c in s ==> IsDigit(c)
  {
    if n < 10 then [Digit(n)] else Decimal(n / 10) + [Digit(n % 10)]
  }

  /** fmt's %03d. */
  function Padded3(n: nat): (s: string)
    ensures |s| >= 3 && forall c :: c in s ==> IsDigit(c)
  {
    var d := Decimal(n);
    if |d| == 1 then "00" + d else if |d| == 2 then "0" + d else d
  }

  function Value(s: string): nat
    requires forall c :: c in s ==> IsDigit(c)
  {
    if s == "" then 0
    else 10 * Value(s[..|s| - 1]) + DigitValue(s[|s| - 1])
  }

  lemma {:induction false} ValueOfDecimal(n: nat)
    ensures Value(Decimal(n)) == n
  {
    if n < 10 {
      assert Value([Digit(n)]) == 10 * Value([]) + n;
    } else {
      ValueOfDecimal(n / 10);
      assert Decimal(n)[..|Decimal(n)| - 1] == Decimal(n / 10);
    }
  }

  lemma {:induction false} LeadingZero(s: string)
    requires forall c :: c in s ==> IsDigit(c)
    ensures Value("0" + s) == Value(s)
  {
    if s == "" {
      assert Value("0") == 10 * Value("") + 0;
    } else {
      LeadingZero(s[..|s| - 1]);
      assert ("0" + s)[..|s|] == "0" + s[..|s| - 1];
    }
  }

  lemma ValueOfPadded(n: nat)
    ensures Value(Padded3(n)) == n
  {
    ValueOfDecimal(n);
    var d := Decimal(n);
    LeadingZero(d);
    LeadingZero("0" + d);
    assert "0" + ("0" + d) == "00" + d;
  }

  lemma DecimalIsInjective(m: nat, n: nat)
    requires Decimal(m) == Decimal(n)
    ensures m == n
  {
    ValueOfDecimal(m);
    ValueOfDecimal(n);
  }

  datatype Parsed = Number(value: int) | NotANumber

  /** strconv.Atoi as far as its sign and digits go; overflow of the machine int is not modelled. */
  function Atoi(s: string): Parsed {
    var body := if |s| > 0 && (s[0] == '-' || s[0] == '+') then s[1..] else s;
    if body == "" || exists c :: c in body && !IsDigit(c) then NotANumber
    else if s[0] == '-' then Number(0 - (Value(body) as int))
    else Number(Value(body))
  }

  lemma AtoiOfPadded(n: nat)
    ensures Atoi(Padded3(n)) == Number(n)
  {
    ValueOfPadded(n);
    assert Padded3(n)[0] in Padded3(n);
  }

  /** A sign in front of a numeral counts. */
  lemma AtoiOfSigned(n: nat)
    ensures Atoi(Decimal(n)) == Number(n) && Atoi("+" + Decimal(n)) == Number(n)
    ensures Atoi("-" + Decimal(n)) == Number(0 - (n as int))
  {
    var d := Decimal(n);
    ValueOfDecimal(n);
    assert d[0] in d;
    assert Atoi("+" + d) == Number(n) by {
      assert ("+" + d)[1..] == d;
    }
    assert Atoi("-" + d) == Number(0 - (n as int)) by {
      assert ("-" + d)[1..] == d;
    }
  }

  // ---------------------------------------------------------------- Go's string comparison

  predicate Less(a: string, b: string) {
    if b == "" then false
    else if a == "" then true
    else a[0] < b[0] || (a[0] == b[0] && Less(a[1..], b[1..]))
  }

  lemma {:induction false} LessIsTotal(a: string, b: string)
    ensures Less(a, b) || a == b || Less(b, a)
    ensures !(Less(a, b) && Less(b, a))
    ensures !Less(a, a)
  {
    if a != "" && b != "" {
      LessIsTotal(a[1..], b[1..]);
      assert a == [a[0]] + a[1..] && b == [b[0]] + b[1..];
    }
    LessIsIrreflexive(a);
  }

  lemma {:induction false} LessIsIrreflexive(a: string)
    ensures !Less(a, a)
  {
    if a != "" {
      LessIsIrreflexive(a[1..]);
    }
  }

  lemma {:induction false} LessIsTransitive(a: string, b: string, c: string)
    requires Less(a, b) && Less(b, c)
    ensures Less(a, c)
  {
    if a != "" && a[0] == b[0] == c[0] {
      LessIsTransitive(a[1..], b[1..], c[1..]);
    }
  }

  /** Two strings compare like the bytes at the first place where they differ; a proper prefix comes first. */
  predicate FirstDifference(a: string, b: string, i: nat) {
    i <= |a| && i < |b| && a[..i] == b[..i] && (i == |a| || a[i] < b[i])
  }

  lemma {:induction false} LessAtFirstDifference(a: string, b: string)
    ensures Less(a, b) <==> exists i :: FirstDifference(a, b, i)
  {
    if b == "" {
    } else if a == "" {
      assert FirstDifference(a, b, 0);
    } else {
      LessAtFirstDifference(a[1..], b[1..]);
      if i: nat :| FirstDifference(a[1..], b[1..], i) {
        assert a[..i + 1] == [a[0]] + a[1..][..i] && b[..i + 1] == [b[0]] + b[1..][..i];
        assert a[0] == b[0] ==> FirstDifference(a, b, i + 1);
      }
      assert a[0] < b[0] ==> FirstDifference(a, b, 0);
      if i: nat :| FirstDifference(a, b, i) {
        if i > 0 {
          assert a[0] == a[..i][0] == b[..i][0] == b[0];
          assert a[..i][1..] == a[1..][..i - 1] && b[..i][1..] == b[1..][..i - 1];
          assert FirstDifference(a[1..], b[1..], i - 1);
        }
      }
    }
  }

  lemma {:induction false} LessSnoc(a: string, b: string, x: char, y: char)
    requires |a| == |b|
    ensures Less(a + [x], b + [y]) <==> Less(a, b) || (a == b && x < y)
  {
    if a == "" {
      assert a + [x] == [x] && b + [y] == [y];
    } else {
      LessSnoc(a[1..], b[1..], x, y);
      assert (a + [x])[1..] == a[1..] + [x] && (b + [y])[1..] == b[1..] + [y];
      assert a == [a[0]] + a[1..] && b == [b[0]] + b[1..];
    }
  }

  /** Numerals of one length compare like their values. */
  lemma {:induction false} LessIsNumeric(a: string, b: string)
    requires |a| == |b| && (forall c :: c in a ==> IsDigit(c)) && (forall c :: c in b ==> IsDigit(c))
    ensures Less(a, b) <==> Value(a) < Value(b)
    ensures a == b <==> Value(a) == Value(b)
  {
    if a != "" {
      var n := |a| - 1;
      LessIsNumeric(a[..n], b[..n]);
      LessSnoc(a[..n], b[..n], a[n], b[n]);
      assert a == a[..n] + [a[n]] && b == b[..n] + [b[n]];
      DigitOrder(a[n], b[n]);
    }
  }

  lemma DigitOrder(x: char, y: char)
    requires IsDigit(x) && IsDigit(y)
    ensures x < y <==> DigitValue(x) < DigitValue(y)
    ensures x == y <==> DigitValue(x) == DigitValue(y)
    ensures DigitValue(x) < 10 && DigitValue(y) < 10
  {
  }
}
