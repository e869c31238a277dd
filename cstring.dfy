/**
 * The C-string helpers of RLNode.cpp: `strncmp` as the router and the
 * exchange use it, `strLow`, and `intTochar`.
 *
 * A C string is modelled as the `string` of its characters before the
 * terminating NUL; `CStr(s)` is the NUL-terminated form.
 */
module CString {

  const NUL: char := '\0'

  /** A string that can live in a C buffer: no NUL before its end. */
  predicate NoNul(s: string) {
    forall i :: 0 <= i < |s| ==> s[i] != NUL
  }

  /** The sign of C `strncmp(a, b, n)`: compare at most `n` characters of the
      NUL-terminated forms of `a` and `b`, stopping after a common NUL. */
  function StrNCmp(a: string, b: string, n: nat): (r: int)
    ensures -1 <= r <= 1
    decreases n
  {
    if n == 0 then 0
    else
      var ca := if a == [] then NUL else a[0];
      var cb := if b == [] then NUL else b[0];
      if ca != cb then (if ca < cb then -1 else 1)
      else if ca == NUL then 0
      else StrNCmp(a[1..], b[1..], n - 1)
  }

  /** C's `!` on an int. */
  function Not(x: int): (r: int)
    ensures r == 0 || r == 1
    ensures (r == 1) <==> (x == 0)
  {
    if x == 0 then 1 else 0
  }

  /** Comparing `strlen(b) + 1` characters includes b's NUL, so the test
      is exact equality of the two C strings. */
  lemma {:induction false} StrNCmpIncludingNul(a: string, b: string)
    requires NoNul(a) && NoNul(b)
    ensures StrNCmp(a, b, |b| + 1) == 0 <==> a == b
    decreases |b|
  {
    if a != [] && b != [] && a[0] == b[0] {
      StrNCmpIncludingNul(a[1..], b[1..]);
      assert a == [a[0]] + a[1..];
      assert b == [b[0]] + b[1..];
    } else if a != [] && b == [] {
      assert a[0] != NUL;
    } else if a == [] && b != [] {
      assert b[0] != NUL;
    }
  }

  /** Comparing only `strlen(b)` characters tests that b is a prefix of a. */
  lemma {:induction false} StrNCmpPrefix(a: string, b: string)
    requires NoNul(a) && NoNul(b)
    ensures StrNCmp(a, b, |b|) == 0 <==> b <= a
    decreases |b|
  {
    if a != [] && b != [] && a[0] == b[0] {
      StrNCmpPrefix(a[1..], b[1..]);
      assert a == [a[0]] + a[1..];
      assert b == [b[0]] + b[1..];
    } else if a == [] && b != [] {
      assert b[0] != NUL;
    }
  }

  // ---------------------------------------------------------------------
  // strLow (RLNode.cpp:53-60)

  /** C `tolower` in the "C" locale: only 'A'..'Z' change. */
  function ToLower(c: char): (r: char)
    ensures 'A' <= c <= 'Z' ==> r as int == c as int + 32
    ensures !('A' <= c <= 'Z') ==> r == c
  {
    if 'A' <= c <= 'Z' then (c as int + 32) as char else c
  }

  function Lower(s: string): (r: string)
    ensures |r| == |s|
    ensures forall i :: 0 <= i < |s| ==> r[i] == ToLower(s[i])
  {
    seq(|s|, i requires 0 <= i < |s| => ToLower(s[i]))
  }

  predicate HasNoUpper(s: string) {
    forall i :: 0 <= i < |s| ==> !('A' <= s[i] <= 'Z')
  }

  /** Lowercasing leaves no upper-case letter, and doing it twice is the same
      as doing it once. */
  lemma LowerIdempotent(s: string)
    ensures HasNoUpper(Lower(s))
    ensures Lower(Lower(s)) == Lower(s)
  {
  }

  /** Lowercasing maps NUL only to NUL, so it keeps a C string's length. */
  lemma LowerKeepsNoNul(s: string)
    ensures NoNul(s) <==> NoNul(Lower(s))
  {
    if !NoNul(s) {
      var i :| 0 <= i < |s| && s[i] == NUL;
      assert Lower(s)[i] == NUL;
    }
  }

  /** Index of the first NUL in a buffer: the C string's length. */
  function CLen(s: seq<char>): (n: nat)
    requires NUL in s
    ensures n < |s| && s[n] == NUL && NoNul(s[..n])
  {
    if s[0] == NUL then 0 else 1 + CLen(s[1..])
  }

  /** A buffer holding the characters of a C string s followed by a NUL
      has C length |s|. */
  lemma {:induction false} CLenOf(buf: seq<char>, s: string)
    requires NoNul(s) && |s| < |buf| && buf[..|s|] == s && buf[|s|] == NUL
    ensures NUL in buf && CLen(buf) == |s|
    decreases |s|
  {
    if s != [] {
      assert buf[0] == s[0] != NUL;
      assert buf[1..][..|s[1..]|] == s[1..];
      CLenOf(buf[1..], s[1..]);
    }
  }

  /** strLow: lowercase a NUL-terminated buffer in place, up to its NUL. */
  method StrLow(buf: array<char>)
    requires NUL in buf[..]
    modifies buf
    ensures NUL in old(buf[..])
    ensures buf[..CLen(old(buf[..]))] == Lower(old(buf[..])[..CLen(old(buf[..]))])
    ensures forall k :: CLen(old(buf[..])) <= k < buf.Length ==> buf[k] == old(buf[k])
  {
    ghost var n := CLen(buf[..]);
    var i := 0;
    while buf[i] != NUL
      invariant 0 <= i <= n
      invariant forall k :: 0 <= k < i ==> buf[k] == ToLower(old(buf[k]))
      invariant forall k :: i <= k < buf.Length ==> buf[k] == old(buf[k])
      decreases n - i
    {
      buf[i] := ToLower(buf[i]);
      i := i + 1;
    }
  }

  // ---------------------------------------------------------------------
  // intTochar (RLNode.cpp:26-51)

  const INT_MIN: int := -0x8000_0000
  const INT_MAX: int := 0x7fff_ffff

  function DigitChar(d: nat): (c: char)
    requires d < 10
    ensures '0' <= c <= '9'
  {
    ('0' as int + d) as char
  }

  function DigitValue(c: char): (d: nat)
    requires '0' <= c <= '9'
    ensures d < 10 && DigitChar(d) == c
  {
    c as int - '0' as int
  }

  /** Number of decimal digits of n (0 has one). */
  function NumDigits(n: nat): (k: nat)
    ensures k >= 1
  {
    if n < 10 then 1 else 1 + NumDigits(n / 10)
  }

  /** Decimal digits of n, most significant first. */
  function Digits(n: nat): (s: string)
    ensures |s| == NumDigits(n)
    ensures forall i :: 0 <= i < |s| ==> '0' <= s[i] <= '9'
  {
    if n < 10 then [DigitChar(n)] else Digits(n / 10) + [DigitChar(n % 10)]
  }

  function Abs(v: int): nat {
    if v < 0 then -v else v
  }

  /** The text intTochar writes before its NUL: a C string of digits,
      led by '-' exactly when v is negative. */
  function Decimal(v: int): (r: string)
    ensures |r| == NumDigits(Abs(v)) + (if v < 0 then 1 else 0)
    ensures r[0] == '-' <==> v < 0
    ensures NoNul(r)
  {
    (if v < 0 then "-" else "") + Digits(Abs(v))
  }

  /** The last digit of n is n % 10 and the ones before it are those of n / 10. */
  lemma LastDigit(n: nat)
    ensures Digits(n)[|Digits(n)| - 1] == DigitChar(n % 10)
    ensures n >= 10 ==> Digits(n / 10) == Digits(n)[..|Digits(n)| - 1]
  {
    if n >= 10 {
      assert Digits(n) == Digits(n / 10) + [DigitChar(n % 10)];
    }
  }

  /** One step of writing the digits backwards: if the digits of a are the
      first m digits of ds, the m-th is a's last digit and the ones before it
      are the digits of a / 10. */
  lemma DigitStep(a: nat, ds: string, m: nat)
    requires 1 <= m <= |ds| && Digits(a) == ds[..m]
    ensures ds[m - 1] == DigitChar(a % 10)
    ensures m > 1 ==> Digits(a / 10) == ds[..m - 1]
  {
    LastDigit(a);
  }

  /** Value of a digit string read most significant first. */
  function DigitsValue(s: string): nat
    requires forall i :: 0 <= i < |s| ==> '0' <= s[i] <= '9'
  {
    if s == [] then 0 else 10 * DigitsValue(s[..|s| - 1]) + DigitValue(s[|s| - 1])
  }

  /** Parses the text produced by Decimal. */
  function ParseDecimal(s: string): int
    requires s != [] && (s[0] == '-' ==> |s| > 1)
    requires forall i :: (if s[0] == '-' then 1 else 0) <= i < |s| ==> '0' <= s[i] <= '9'
  {
    if s[0] == '-' then -(DigitsValue(s[1..]) as int) else DigitsValue(s)
  }

  /** Digits are written most significant first: reading them back gives n,
      and a number above zero has no leading zero. */
  lemma {:induction false} DigitsRoundTrip(n: nat)
    ensures DigitsValue(Digits(n)) == n
    ensures n > 0 ==> Digits(n)[0] != '0'
  {
    if n >= 10 {
      DigitsRoundTrip(n / 10);
      var s := Digits(n);
      assert s[..|s| - 1] == Digits(n / 10);
      assert s[|s| - 1] == DigitChar(n % 10);
    }
  }

  /** The shape of intTochar's output: a '-' exactly for negative values,
      then the digits of |v|; 0 is "0"; and the text reads back as v. */
  lemma DecimalShape(v: int)
    ensures |Decimal(v)| == NumDigits(Abs(v)) + (if v < 0 then 1 else 0)
    ensures Decimal(v)[0] == '-' <==> v < 0
    ensures v == 0 ==> Decimal(v) == "0"
    ensures ParseDecimal(Decimal(v)) == v
  {
    DigitsRoundTrip(Abs(v));
    var s := Decimal(v);
    if v < 0 {
      assert s[1..] == Digits(Abs(v));
    } else {
      assert s == Digits(Abs(v));
    }
  }

  /** Two values with the same decimal text are equal. */
  lemma DecimalInjective(v: int, w: int)
    requires Decimal(v) == Decimal(w)
    ensures v == w
  {
    DecimalShape(v);
    DecimalShape(w);
  }

  /** The second loop of intTochar: write the nDigits digits of n backwards
      into buf[sign..sign + nDigits], leaving the rest of buf alone. */
  method WriteDigits(n: nat, nDigits: nat, sign: nat, buf: array<char>)
    requires nDigits == NumDigits(n) && sign + nDigits <= buf.Length
    modifies buf
    ensures buf[sign..sign + nDigits] == Digits(n)
    ensures forall k :: 0 <= k < buf.Length && !(sign <= k < sign + nDigits) ==> buf[k] == old(buf[k])
  {
    ghost var ds := Digits(n);
    var a := n;
    var i := nDigits - 1 + sign;
    while i >= sign
      invariant sign - 1 <= i <= nDigits - 1 + sign
      invariant i >= sign ==> Digits(a) == ds[..i - sign + 1]
      invariant forall k :: i < k < nDigits + sign ==> buf[k] == ds[k - sign]
      invariant forall k :: 0 <= k < buf.Length && !(i < k < sign + nDigits) ==> buf[k] == old(buf[k])
    {
      DigitStep(a, ds, i - sign + 1);
      buf[i] := DigitChar(a % 10);
      a := a / 10;
      i := i - 1;
    }
    assert buf[sign..sign + nDigits] == ds;
  }

  /** intTochar: write the decimal form of v and a NUL into buf. INT_MIN is
      excluded because `abs` overflows on it. */
  method IntToChar(v: int, buf: array<char>)
    requires INT_MIN < v <= INT_MAX
    requires |Decimal(v)| < buf.Length
    modifies buf
    ensures buf[..|Decimal(v)|] == Decimal(v)
    ensures buf[|Decimal(v)|] == NUL
    ensures forall k :: |Decimal(v)| < k < buf.Length ==> buf[k] == old(buf[k])
  {
    var sign := 0;
    if v < 0 {
      sign := 1;
      buf[0] := '-';
    }
    // Count how many digits
    var nDigits := 0;
    var a := Abs(v);
    nDigits := nDigits + 1;
    a := a / 10;
    while a > 0
      invariant a > 0 ==> nDigits + NumDigits(a) == NumDigits(Abs(v))
      invariant a == 0 ==> nDigits == NumDigits(Abs(v))
    {
      nDigits := nDigits + 1;
      a := a / 10;
    }
    // Write the number backwards
    WriteDigits(Abs(v), nDigits, sign, buf);
    assert buf[..nDigits + sign] == Decimal(v) by {
      assert buf[..nDigits + sign] == buf[..sign] + buf[sign..sign + nDigits];
    }
    buf[nDigits + sign] := NUL;
  }
}
