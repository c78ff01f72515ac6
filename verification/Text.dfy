/** The text operations that the manifest uses: decimal numbers, splitting, joining, trimming. */
module Text {
  import opened Ops
  import opened Codec

  function Digit(n: nat): char
    requires n < 10
  {
    "0123456789"[n]
  }

  /** `strconv.FormatUint(n, 10)`. */
  function Decimal(n: nat): (s: string)
    ensures s != ""
  {
    if n < 10 then [Digit(n)] else Decimal(n / 10) + [Digit(n % 10)]
  }

  predicate IsDigit(c: char) { '0' <= c <= '9' }

  function Number(s: string): nat
    requires forall i :: 0 <= i < |s| ==> IsDigit(s[i])
  {
    if s == "" then 0
    else
      var last := s[|s| - 1];
      assert IsDigit(last);
      10 * Number(s[..|s| - 1]) + (last as int - '0' as int)
  }

  /** `strconv.ParseUint(s, 10, 64)`: digits only, at least one, below 2^64. */
  function ParseUint(s: string): Option<nat> {
    if s == "" || exists i :: 0 <= i < |s| && !IsDigit(s[i]) then None
    else if Number(s) < U64 then Some(Number(s)) else None
  }

  lemma {:induction false} DecimalPlain(n: nat)
    ensures forall i :: 0 <= i < |Decimal(n)| ==> IsDigit(Decimal(n)[i])
  {
    if n >= 10 {
      DecimalPlain(n / 10);
    }
  }

  lemma {:induction false} NumberBack(n: nat)
    ensures forall i :: 0 <= i < |Decimal(n)| ==> IsDigit(Decimal(n)[i])
    ensures Number(Decimal(n)) == n
  {
    DecimalPlain(n);
    if n < 10 {
      assert Decimal(n)[..0] == "";
    } else {
      NumberBack(n / 10);
      LastDigit(Decimal(n / 10), n % 10);
    }
  }

  function Pow10(i: nat): (p: nat)
    ensures p > 0
  {
    if i == 0 then 1 else 10 * Pow10(i - 1)
  }

  /** The digits, from the right: the ASCII character 48 + d for the digit d, no zero in front. */
  lemma {:induction false} DecimalDigits(n: nat, i: nat)
    requires i < |Decimal(n)|
    ensures Decimal(n)[|Decimal(n)| - 1 - i] as int == 48 + n / Pow10(i) % 10
    ensures |Decimal(n)| > 1 ==> Decimal(n)[0] as int != 48
  {
    if n >= 10 {
      var m := n / 10;
      DecimalDigits(m, if i > 0 then i - 1 else 0);
      if i > 0 {
        DivTwice(n, Pow10(i - 1));
      }
      assert Decimal(n)[0] == Decimal(m)[0];
      if |Decimal(m)| == 1 {
        assert Pow10(0) == 1 && m / 1 % 10 == m % 10;
        ShortIsSmall(m);
      }
    }
  }

  lemma ShortIsSmall(n: nat)
    ensures |Decimal(n)| == 1 <==> n < 10
  {
  }

  lemma DivTwice(n: nat, p: nat)
    requires p > 0
    ensures n / (10 * p) == n / 10 / p
  {
    var a := n / 10;
    var q := a / p;
    assert n == 10 * a + n % 10 && a == p * q + a % p;
    var r := 10 * (a % p) + n % 10;
    assert 0 <= r < 10 * p;
    assert n == (10 * p) * q + r;
    DivUnique(n, 10 * p, q, r);
  }

  lemma DivUnique(n: nat, d: nat, q: nat, r: nat)
    requires d > 0 && n == d * q + r && r < d
    ensures n / d == q
  {
    var k := n / d - q;
    assert n == d * (n / d) + n % d;
    assert d * k == r - n % d;
    Multiples(d, k);
  }

  lemma Multiples(d: nat, k: int)
    ensures (k >= 1 ==> d * k >= d) && (k <= -1 ==> d * k <= -(d as int))
  {
  }

  lemma LastDigit(s: string, d: nat)
    requires d < 10 && forall i :: 0 <= i < |s| ==> IsDigit(s[i])
    ensures forall i :: 0 <= i < |s| + 1 ==> IsDigit((s + [Digit(d)])[i])
    ensures Number(s + [Digit(d)]) == 10 * Number(s) + d
  {
    assert (s + [Digit(d)])[..|s|] == s;
  }

  lemma ParseBack(n: nat)
    requires n < U64
    ensures ParseUint(Decimal(n)) == Some(n)
  {
    NumberBack(n);
  }

  /** The parts of a text after one more character in front. */
  function Grow(c: char, parts: seq<string>, sep: char): (grown: seq<string>)
    requires |parts| >= 1
    ensures |grown| >= 1
  {
    if c == sep then [""] + parts else [[c] + parts[0]] + parts[1..]
  }

  /** `strings.Split` on a one-character separator. */
  function Split(s: string, sep: char): (parts: seq<string>)
    ensures |parts| >= 1
  {
    if s == "" then [""] else Grow(s[0], Split(s[1..], sep), sep)
  }

  /** `strings.Join`. */
  function Join(parts: seq<string>, sep: char): string {
    if parts == [] then ""
    else if |parts| == 1 then parts[0]
    else parts[0] + [sep] + Join(parts[1..], sep)
  }

  lemma GrowApart(c: char, x: seq<string>, y: seq<string>, sep: char)
    requires |x| >= 1
    ensures Grow(c, x + y, sep) == Grow(c, x, sep) + y
  {
    assert (x + y)[0] == x[0] && (x + y)[1..] == x[1..] + y;
  }

  lemma SplitCons(c: char, s: string, sep: char)
    ensures Split([c] + s, sep) == Grow(c, Split(s, sep), sep) && Split("", sep) == [""]
  {
    assert ([c] + s)[1..] == s;
  }

  /** Splitting distributes over a separator. */
  lemma {:induction false} SplitAt(a: string, b: string, sep: char)
    ensures Split(a + [sep] + b, sep) == Split(a, sep) + Split(b, sep)
  {
    hide Split;
    if a == "" {
      assert a + [sep] + b == [sep] + b;
      SplitCons(sep, b, sep);
    } else {
      hide Grow;
      var t := a[1..] + [sep] + b;
      SplitAt(a[1..], b, sep);
      assert a + [sep] + b == [a[0]] + t && a == [a[0]] + a[1..];
      SplitCons(a[0], t, sep);
      SplitCons(a[0], a[1..], sep);
      GrowApart(a[0], Split(a[1..], sep), Split(b, sep), sep);
    }
  }

  lemma {:induction false} SplitPlain(s: string, sep: char)
    requires sep !in s
    ensures Split(s, sep) == [s]
  {
    if s != "" {
      SplitPlain(s[1..], sep);
      assert s[0] != sep && s == [s[0]] + s[1..];
    }
  }

  lemma {:induction false} SplitJoin(parts: seq<string>, sep: char)
    requires parts != [] && forall i :: 0 <= i < |parts| ==> sep !in parts[i]
    ensures Split(Join(parts, sep), sep) == parts
  {
    SplitPlain(parts[0], sep);
    if |parts| > 1 {
      SplitJoin(parts[1..], sep);
      SplitAt(parts[0], Join(parts[1..], sep), sep);
    }
  }

  /** The white space of `strings.TrimSpace` within ASCII. */
  predicate IsSpace(c: char) { c == ' ' || '\t' <= c <= '\r' }

  function TrimLeft(s: string): string {
    if s != "" && IsSpace(s[0]) then TrimLeft(s[1..]) else s
  }

  function TrimRight(s: string): string {
    if s != "" && IsSpace(s[|s| - 1]) then TrimRight(s[..|s| - 1]) else s
  }

  function TrimSpace(s: string): string { TrimRight(TrimLeft(s)) }

  lemma TrimNothing(s: string)
    requires forall i :: 0 <= i < |s| ==> !IsSpace(s[i])
    ensures TrimSpace(s) == s
  {
  }
}
