/** `itoa` and `reverse`: the integer-to-text conversion `printscore` uses
    for the score display. Digits are produced least significant first into
    the buffer, a `-` is appended for a negative decimal number, and the
    buffer prefix is then reversed in place. */
module Itoa {

  const IntMin: int := -0x8000_0000
  const IntMax: int := 0x7fff_ffff

  /** The range of a C `int`. */
  predicate IsInt(n: int) { IntMin <= n <= IntMax }

  /** `s` backwards. */
  function Reversed(s: seq<char>): (r: seq<char>)
    ensures |r| == |s|
  {
    if s == [] then [] else Reversed(s[1..]) + [s[0]]
  }

  /** Position `i` of the reversal holds position `|s| - 1 - i` of `s`. */
  lemma {:induction false} ReversedIndex(s: seq<char>)
    ensures forall i :: 0 <= i < |s| ==> Reversed(s)[i] == s[|s| - 1 - i]
  {
    if s != [] {
      ReversedIndex(s[1..]);
    }
  }

  /** Reversing a concatenation reverses the order of the parts. */
  lemma ReversedAppend(a: seq<char>, b: seq<char>)
    ensures Reversed(a + b) == Reversed(b) + Reversed(a)
  {
    ReversedIndex(a);
    ReversedIndex(b);
    ReversedIndex(a + b);
  }

  /** `s` with the characters from position `at` on replaced by `w`. */
  function Overwrite(s: seq<char>, at: nat, w: seq<char>): (r: seq<char>)
    requires at + |w| <= |s|
    ensures |r| == |s|
  {
    s[..at] + w + s[at + |w|..]
  }

  /** Writing `d` and then `e` right after it writes `d + e`. */
  lemma OverwriteAppend(s: seq<char>, d: seq<char>, e: seq<char>)
    requires |d| + |e| <= |s|
    ensures Overwrite(Overwrite(s, 0, d), |d|, e) == Overwrite(s, 0, d + e)
  {
    var s1 := Overwrite(s, 0, d);
    assert s1[..|d|] == d && s1[|d| + |e|..] == s[|d| + |e|..];
  }

  /** Writing `w + e` and then `v`, as long as `w`, over the front leaves
      `v + e`. */
  lemma OverwriteFront(s: seq<char>, w: seq<char>, e: seq<char>, v: seq<char>)
    requires |v| == |w| && |w| + |e| <= |s|
    ensures Overwrite(s, 0, w + e)[..|w|] == w
    ensures Overwrite(Overwrite(s, 0, w + e), 0, v) == Overwrite(s, 0, v + e)
  {
    var s1 := Overwrite(s, 0, w + e);
    assert s1[..|w|] == w;
    assert s1[|v|..] == e + s[|w| + |e|..];
  }

  /** `reverse`: the first `length` characters are reversed in place, two at
      a time from the ends inwards, and the rest of the buffer is untouched.
      A `length` of zero or less changes nothing. */
  method Reverse(str: array<char>, length: int)
    requires length <= str.Length
    modifies str
    ensures length <= 0 ==> str[..] == old(str[..])
    ensures 0 <= length ==> str[..] == Overwrite(old(str[..]), 0, Reversed(old(str[..length])))
  {
    ghost var n := if length < 0 then 0 else length;
    var start := 0;
    var end := length - 1;
    while start < end
      invariant 0 <= start && end == length - 1 - start && start <= n - start
      invariant forall k :: 0 <= k < start ==> str[k] == old(str[n - 1 - k]) && str[n - 1 - k] == old(str[k])
      invariant forall k :: start <= k < n - start ==> str[k] == old(str[k])
      invariant forall k :: n <= k < str.Length ==> str[k] == old(str[k])
    {
      str[start], str[end] := str[end], str[start];
      start := start + 1;
      end := end - 1;
    }
    ReversedPrefix(old(str[..]), str[..], n);
  }

  /** A sequence holding the first `n` characters of `s0` backwards, and
      the rest of `s0` as it was, is `s0` with its prefix reversed. */
  lemma ReversedPrefix(s0: seq<char>, s: seq<char>, n: nat)
    requires |s| == |s0| && n <= |s|
    requires forall k :: 0 <= k < n ==> s[k] == s0[n - 1 - k]
    requires forall k :: n <= k < |s| ==> s[k] == s0[k]
    ensures s == Overwrite(s0, 0, Reversed(s0[..n]))
  {
    ReversedIndex(s0[..n]);
  }

  /** C's `/` on `int`: the quotient truncated toward zero. */
  function Quot(n: int, base: int): (q: int)
    requires 2 <= base
    ensures n != 0 ==> (if q < 0 then -q else q) < (if n < 0 then -n else n)
    ensures 0 <= n ==> 0 <= q
    ensures n <= 0 ==> q <= 0
  {
    if 0 < n then DivSmaller(n, base); n / base
    else if n < 0 then DivSmaller(-n, base); -((-n) / base)
    else 0
  }

  /** Dividing a positive number by at least 2 makes it smaller. */
  lemma DivSmaller(k: int, base: int)
    requires 0 < k && 2 <= base
    ensures 0 <= k / base < k
  {
    var q := k / base;
    assert k == q * base + k % base;
  }

  /** C's `%` on `int`: the remainder has the sign of `n`. */
  function Rem(n: int, base: int): (r: int)
    requires 2 <= base
    ensures 0 <= n ==> 0 <= r < base
    ensures n < 0 ==> -base < r <= 0
  {
    if 0 <= n then n % base else -((-n) % base)
  }

  /** C's quotient and remainder recombine to the number, and on a
      non-negative number they are Dafny's. */
  lemma QuotRem(n: int, base: int)
    requires 2 <= base
    ensures n == Quot(n, base) * base + Rem(n, base)
    ensures 0 <= n ==> Quot(n, base) == n / base && Rem(n, base) == n % base
  {
    if 0 < n {
      assert n == (n / base) * base + n % base;
    } else if n < 0 {
      var m := -n;
      assert m == (m / base) * base + m % base;
    } else {
      assert 0 / base == 0 && 0 % base == 0;
    }
  }

  /** The character the loop of `itoa` writes for a remainder. */
  function DigitChar(rem: int): (c: char)
    requires -36 < rem < 36
    ensures 0 <= rem < 36 ==> DigitValue(c) == rem
    ensures 0 <= rem < 10 ==> '0' <= c <= '9'
    ensures 10 <= rem < 36 ==> 'a' <= c <= 'z'
  {
    if rem > 9 then (rem - 10 + 'a' as int) as char else (rem + '0' as int) as char
  }

  /** The value of a digit character; the inverse of `DigitChar` on
      `0..35`. */
  function DigitValue(c: char): int {
    if 'a' <= c then c as int - 'a' as int + 10 else c as int - '0' as int
  }

  /** The characters the `while (num != 0)` loop writes for `num`, in the
      order it writes them: least significant first. */
  function LowDigits(num: int, base: int): (d: seq<char>)
    requires 2 <= base <= 36
    ensures d == [] <==> num == 0
    decreases if num < 0 then -num else num
  {
    if num == 0 then [] else [DigitChar(Rem(num, base))] + LowDigits(Quot(num, base), base)
  }

  /** The text `itoa` leaves in the buffer, without the terminating NUL. */
  function ItoaText(num: int, base: int): seq<char>
    requires 2 <= base <= 36
  {
    if num == 0 then "0"
    else if num < 0 && base == 10 then Reversed(LowDigits(-num, base) + "-")
    else Reversed(LowDigits(num, base))
  }

  /** `itoa`: the text of `num` in `base`, terminated by a NUL, at the start
      of `str`; the rest of the buffer is untouched and the buffer is
      returned. The source writes past the buffer when it is too short and
      overflows on `-num` for the least `int`; both are excluded here. */
  method Itoa(num: int, str: array<char>, base: int) returns (out: array<char>)
    requires IsInt(num) && 2 <= base <= 36 && !(base == 10 && num == IntMin)
    requires |ItoaText(num, base)| < str.Length
    modifies str
    ensures out == str
    ensures str[..] == Overwrite(old(str[..]), 0, ItoaText(num, base) + ['\0'])
  {
    var i := 0;
    var isNegative := false;
    if num == 0 {
      str[i] := '0';
      i := i + 1;
      str[i] := '\0';
      assert str[..] == Overwrite(old(str[..]), 0, "0" + ['\0']);
      return str;
    }
    var n := num;
    if n < 0 && base == 10 {
      isNegative := true;
      n := -n;
    }
    ghost var s0 := str[..];
    ghost var digits := LowDigits(n, base);
    ghost var sign := if isNegative then "-" else "";
    if isNegative {
      assert ItoaText(num, base) == Reversed(digits + sign);
    } else {
      assert digits + sign == digits;
      assert ItoaText(num, base) == Reversed(digits + sign);
    }
    i := PutDigits(n, base, str);
    i := Terminate(str, i, isNegative);
    OverwriteAppend(s0, digits, sign + ['\0']);
    assert digits + (sign + ['\0']) == (digits + sign) + ['\0'];
    OverwriteFront(s0, digits + sign, ['\0'], Reversed(digits + sign));
    Reverse(str, i);
    out := str;
  }

  /** The end of `itoa` before the reversal: a `-` after the digits of a
      negative decimal number, then the NUL. */
  method Terminate(str: array<char>, i: int, isNegative: bool) returns (j: int)
    requires 0 <= i && i + (if isNegative then 1 else 0) < str.Length
    modifies str
    ensures j == i + (if isNegative then 1 else 0)
    ensures str[..] == Overwrite(old(str[..]), i, (if isNegative then "-" else "") + ['\0'])
  {
    j := i;
    if isNegative {
      str[j] := '-';
      j := j + 1;
    }
    str[j] := '\0';
  }

  /** The `while (num != 0)` loop of `itoa`: the digits of `num`, least
      significant first, at the start of `str`. */
  method PutDigits(num: int, base: int, str: array<char>) returns (i: int)
    requires 2 <= base <= 36 && |LowDigits(num, base)| <= str.Length
    modifies str
    ensures i == |LowDigits(num, base)|
    ensures str[..] == Overwrite(old(str[..]), 0, LowDigits(num, base))
  {
    var n := num;
    i := 0;
    ghost var s0 := str[..];
    while n != 0
      invariant 0 <= i <= str.Length
      invariant LowDigits(num, base) == str[..i] + LowDigits(n, base)
      invariant str[i..] == s0[i..]
      decreases if n < 0 then -n else n
    {
      var c := DigitChar(Rem(n, base));
      ghost var done := str[..i];
      LowDigitsStep(n, base);
      str[i] := c;
      assert str[..i + 1] == done + [c];
      assert str[i + 1..] == s0[i + 1..];
      i := i + 1;
      n := Quot(n, base);
    }
    assert str[..] == str[..i] + s0[i..];
  }

  /** One turn of the loop: the next character written is the remainder's
      digit, and the loop goes on with the quotient. */
  lemma LowDigitsStep(n: int, base: int)
    requires 2 <= base <= 36 && n != 0
    ensures LowDigits(n, base) == [DigitChar(Rem(n, base))] + LowDigits(Quot(n, base), base)
  {
  }

  /** A digit of `base`: `'0'..'9'` or `'a'..'z'`, of value below `base`. */
  predicate IsDigitChar(c: char, base: int) {
    ('0' <= c <= '9' || 'a' <= c <= 'z') && 0 <= DigitValue(c) < base
  }

  /** Every character `itoa` writes for a non-negative number is a digit of
      the base, with `'a'..` standing for the digits above 9. */
  lemma {:induction false} DigitsInBase(n: nat, base: int)
    requires 2 <= base <= 36
    ensures forall i :: 0 <= i < |LowDigits(n, base)| ==> IsDigitChar(LowDigits(n, base)[i], base)
    decreases n
  {
    if n != 0 {
      DigitsInBase(Quot(n, base), base);
      var r := Rem(n, base);
      assert DigitValue(DigitChar(r)) == r;
    }
  }

  /** Reading back a digit string, most significant digit first. */
  function ParseDigits(s: seq<char>, base: int): int {
    if s == [] then 0 else ParseDigits(s[..|s| - 1], base) * base + DigitValue(s[|s| - 1])
  }

  /** Reading back `itoa`'s text, with an optional leading `-`. */
  function ParseSigned(s: seq<char>, base: int): int {
    if 0 < |s| && s[0] == '-' then -ParseDigits(s[1..], base) else ParseDigits(s, base)
  }

  /** The digits of a non-negative number, most significant first, read back
      to the number. */
  lemma {:induction false} DigitsRoundTrip(n: nat, base: int)
    requires 2 <= base <= 36
    ensures ParseDigits(Reversed(LowDigits(n, base)), base) == n
    decreases n
  {
    if n != 0 {
      var q, r := Quot(n, base), Rem(n, base);
      QuotRem(n, base);
      DigitsRoundTrip(q, base);
      ReversedAppend([DigitChar(r)], LowDigits(q, base));
      var s := Reversed(LowDigits(q, base)) + [DigitChar(r)];
      assert s[..|s| - 1] == Reversed(LowDigits(q, base));
      assert DigitValue(DigitChar(r)) == r;
    }
  }

  /** Each step of the conversion adds the next digit at the least
      significant end: the digits of `n` are those of `n / base` followed by
      the digit for `n % base`. */
  lemma DigitsMostSignificantFirst(n: nat, base: int)
    requires 2 <= base <= 36 && 0 < n
    ensures Reversed(LowDigits(n, base)) ==
              Reversed(LowDigits(n / base, base)) + [DigitChar(n % base)]
  {
    QuotRem(n, base);
    ReversedAppend([DigitChar(Rem(n, base))], LowDigits(Quot(n, base), base));
  }

  /** The last digit the loop writes for a non-zero number, the most
      significant one, is not `'0'`. */
  lemma {:induction false} LastWrittenNotZero(n: nat, base: int)
    requires 2 <= base <= 36 && 0 < n
    ensures var l := LowDigits(n, base); 0 < |l| && l[|l| - 1] != '0'
    decreases n
  {
    var q, r := Quot(n, base), Rem(n, base);
    var rest := LowDigits(q, base);
    assert LowDigits(n, base) == [DigitChar(r)] + rest;
    if q != 0 {
      LastWrittenNotZero(q, base);
    } else {
      SingleDigit(n, base);
      assert rest == [];
    }
  }

  /** A positive number whose quotient is zero is its own remainder. */
  lemma SingleDigit(n: nat, base: int)
    requires 2 <= base && 0 < n && Quot(n, base) == 0
    ensures Rem(n, base) == n
  {
    QuotRem(n, base);
  }

  /** A non-zero number has no leading zero digit. */
  lemma NoLeadingZero(n: nat, base: int)
    requires 2 <= base <= 36 && 0 < n
    ensures var d := Reversed(LowDigits(n, base)); 0 < |d| && d[0] != '0'
  {
    LastWrittenNotZero(n, base);
    ReversedIndex(LowDigits(n, base));
  }

  /** A negative decimal number gets a leading `-` followed by the digits of
      its absolute value. */
  lemma ItoaSign(num: int)
    requires num < 0
    ensures ItoaText(num, 10) == "-" + Reversed(LowDigits(-num, 10))
  {
    ReversedAppend(LowDigits(-num, 10), "-");
    assert Reversed("-") == "-";
  }

  /** Text after a leading `-` reads back negated. */
  lemma ParseAfterMinus(d: seq<char>, base: int)
    ensures ParseSigned("-" + d, base) == -ParseDigits(d, base)
  {
    assert ("-" + d)[1..] == d;
  }

  /** The text of a positive number reads back to it. */
  lemma {:induction false} PositiveRoundTrip(num: int, base: int)
    requires 2 <= base <= 36 && 0 < num
    ensures ParseSigned(ItoaText(num, base), base) == num
  {
    var d := LowDigits(num, base);
    var t := Reversed(d);
    assert ItoaText(num, base) == t;
    DigitsRoundTrip(num, base);
    DigitsInBase(num, base);
    ReversedIndex(d);
    assert t[0] == d[|d| - 1] && IsDigitChar(d[|d| - 1], base);
    assert ParseSigned(t, base) == ParseDigits(t, base);
  }

  /** The text of a negative decimal number reads back to it. */
  lemma {:induction false} NegativeRoundTrip(num: int)
    requires num < 0
    ensures ParseSigned(ItoaText(num, 10), 10) == num
  {
    ItoaSign(num);
    ParseAfterMinus(Reversed(LowDigits(-num, 10)), 10);
    DigitsRoundTrip(-num, 10);
  }

  /** `itoa` round-trips: reading its text back, with a leading `-` for a
      negative decimal number, gives the number, for every decimal number
      and every non-negative one in any base. */
  lemma ItoaRoundTrip(num: int, base: int)
    requires 2 <= base <= 36 && (0 <= num || base == 10)
    ensures ParseSigned(ItoaText(num, base), base) == num
  {
    if num > 0 {
      PositiveRoundTrip(num, base);
    } else if num < 0 {
      NegativeRoundTrip(num);
    } else {
      assert ParseDigits("0", base) == ParseDigits([], base) * base + DigitValue('0');
    }
  }

  /** Ten to the power `k`. */
  function Pow10(k: nat): nat {
    if k == 0 then 1 else 10 * Pow10(k - 1)
  }

  /** A number below `10^k` has at most `k` decimal digits. */
  lemma {:induction false} DecimalDigitCount(n: nat, k: nat)
    requires n < Pow10(k)
    ensures |LowDigits(n, 10)| <= k
    decreases k
  {
    if n != 0 {
      QuotRem(n, 10);
      assert Quot(n, 10) == n / 10 < Pow10(k - 1);
      DecimalDigitCount(n / 10, k - 1);
    }
  }

  /** `printscore` converts each score into a buffer of five characters: a
      score of up to 9999 fits with its NUL, so `Itoa` may be called on it. */
  lemma ScoreFitsBuffer(score: int)
    requires 0 <= score <= 9999
    ensures |ItoaText(score, 10)| < 5
  {
    if score != 0 {
      assert Pow10(4) == 10000;
      DecimalDigitCount(score, 4);
    }
  }

  /** As written, a negative number in a base other than 10 is converted
      with C's signed remainder, so its "digits" fall below `'0'`: -1 in
      base 16 becomes "/". */
  lemma NegativeHexAsWritten()
    ensures ItoaText(-1, 16) == "/"
  {
    assert Rem(-1, 16) == -1 && Quot(-1, 16) == 0;
    assert LowDigits(-1, 16) == ['/'];
  }

  /** The conversion the source's own comment describes: a negative number
      in a base other than 10 is taken as the unsigned value of the same
      32-bit pattern. */
  function ItoaTextIntended(num: int, base: int): (t: seq<char>)
    requires 2 <= base <= 36 && IsInt(num)
  {
    if num < 0 && base != 10 then ItoaText(Unsigned(num), base) else ItoaText(num, base)
  }

  /** The intended conversion reads back, in a base other than 10, to the
      number modulo 2^32. */
  lemma IntendedReadsBackUnsigned(num: int, base: int)
    requires 2 <= base <= 36 && base != 10 && IsInt(num)
    ensures ParseDigits(ItoaTextIntended(num, base), base) == num % 0x1_0000_0000
  {
    var u := Unsigned(num);
    assert ItoaTextIntended(num, base) == ItoaText(u, base);
    if u == 0 {
      assert ParseDigits("0", base) == ParseDigits([], base) * base + DigitValue('0');
    } else {
      assert ItoaText(u, base) == Reversed(LowDigits(u, base));
      DigitsRoundTrip(u, base);
    }
  }

  /** The unsigned value of the 32-bit pattern of an `int`. */
  function Unsigned(num: int): (u: nat)
    requires IsInt(num)
    ensures u == num % 0x1_0000_0000
  {
    if num < 0 then num + 0x1_0000_0000 else num
  }
}
