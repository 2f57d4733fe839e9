/** Bucket keys: the byte order in which bbolt keeps and visits them, and the
    decimal text that `strconv.Itoa` and `fmt.Sprintf("%d", …)` produce. */
module Keys {

  /** Strict lexicographic order on keys. bbolt compares keys as byte strings;
      for UTF-8 text, byte order is the same as code-point order, which is what
      comparing `char`s gives. A proper prefix comes first. */
  predicate Below(a: string, b: string)
    decreases |a|
  {
    |b| > 0 && (|a| == 0 || a[0] < b[0] || (a[0] == b[0] && Below(a[1..], b[1..])))
  }

  lemma {:induction false} BelowIrreflexive(a: string)
    ensures !Below(a, a)
  {
    if |a| > 0 {
      BelowIrreflexive(a[1..]);
    }
  }

  lemma {:induction false} BelowTransitive(a: string, b: string, c: string)
    requires Below(a, b) && Below(b, c)
    ensures Below(a, c)
  {
    if |a| > 0 && a[0] == b[0] && b[0] == c[0] {
      BelowTransitive(a[1..], b[1..], c[1..]);
    }
  }

  /** Any two distinct keys are ordered one way or the other. */
  lemma {:induction false} BelowTotal(a: string, b: string)
    requires a != b
    ensures Below(a, b) || Below(b, a)
  {
    if |a| > 0 && |b| > 0 && a[0] == b[0] {
      assert a == [a[0]] + a[1..] && b == [b[0]] + b[1..];
      BelowTotal(a[1..], b[1..]);
    }
  }

  function DigitChar(d: nat): (c: char)
    requires d < 10
    ensures '0' <= c <= '9'
  {
    (48 + d) as char
  }

  /** Decimal digits of a natural number, most significant first, no leading zeros. */
  function Digits(n: nat): (s: string)
    ensures |s| > 0
    ensures forall i :: 0 <= i < |s| ==> '0' <= s[i] <= '9'
    ensures n >= 10 ==> |s| >= 2
  {
    if n < 10 then [DigitChar(n)] else Digits(n / 10) + [DigitChar(n % 10)]
  }

  /** `strconv.Itoa(n)`, equally `fmt.Sprintf("%d", n)`: a minus sign for
      negative numbers, then the decimal digits. */
  function Itoa(n: int): (s: string)
    ensures |s| > 0
    ensures (s[0] == '-') <==> n < 0
  {
    if n < 0 then "-" + Digits(-n) else Digits(n)
  }

  lemma {:induction false} DigitsInjective(m: nat, n: nat)
    requires Digits(m) == Digits(n)
    ensures m == n
  {
    if m >= 10 && n >= 10 {
      var dm, dn := Digits(m), Digits(n);
      assert dm[|dm| - 1] == DigitChar(m % 10) && dn[|dn| - 1] == DigitChar(n % 10);
      assert dm[..|dm| - 1] == Digits(m / 10) && dn[..|dn| - 1] == Digits(n / 10);
      DigitsInjective(m / 10, n / 10);
    }
  }

  /** Distinct numbers have distinct decimal texts, so distinct ids give distinct keys. */
  lemma {:induction false} ItoaInjective(m: int, n: int)
    requires Itoa(m) == Itoa(n)
    ensures m == n
  {
    if m < 0 && n < 0 {
      assert Itoa(m)[1..] == Digits(-m) && Itoa(n)[1..] == Digits(-n);
      DigitsInjective(-m, -n);
    } else if m >= 0 && n >= 0 {
      DigitsInjective(m, n);
    }
  }

  /** The value of a decimal digit character. */
  function DigitValue(c: char): (d: nat)
    requires '0' <= c <= '9'
    ensures d < 10 && DigitChar(d) == c
  {
    c as int - 48
  }

  predicate IsDigits(s: string)
  {
    forall i :: 0 <= i < |s| ==> '0' <= s[i] <= '9'
  }

  /** Reads a string of decimal digits back as a number. */
  function ReadDigits(s: string): (n: nat)
    requires IsDigits(s)
    ensures |s| == 1 ==> n < 10 && DigitChar(n) == s[0]
  {
    if s == [] then 0 else ReadDigits(s[..|s| - 1]) * 10 + DigitValue(s[|s| - 1])
  }

  /** Reads a key written by `Itoa` back as the number it was written from,
      as `strconv.Atoi` would: an optional minus sign, then digits. */
  function ReadInt(s: string): (n: int)
    requires |s| > 0
    requires if s[0] == '-' then |s| > 1 && IsDigits(s[1..]) else IsDigits(s)
    ensures n < 0 ==> s[0] == '-'
  {
    if s[0] == '-' then -(ReadDigits(s[1..]) as int) else ReadDigits(s)
  }

  lemma {:induction false} ReadDigitsOfDigits(n: nat)
    ensures ReadDigits(Digits(n)) == n
  {
    if n >= 10 {
      var s := Digits(n);
      assert s[..|s| - 1] == Digits(n / 10);
      ReadDigitsOfDigits(n / 10);
    }
  }

  /** The decimal text of an id reads back as that id: `Itoa` loses nothing. */
  lemma ReadItoa(n: int)
    ensures ReadInt(Itoa(n)) == n
  {
    var s := Itoa(n);
    if n < 0 {
      var d := Digits(-n);
      assert s[1..] == d by {
        assert s == "-" + d;
      }
      ReadDigitsOfDigits(-n);
    } else {
      ReadDigitsOfDigits(n);
    }
  }
}
