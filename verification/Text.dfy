/**
 Byte strings as the server, the Worker and the client see them: a Go or C
 string is a sequence of bytes, and a byte is written as the `char` with that
 code. Everything here treats codes from 128 up as opaque.
 */
module Text {

  datatype Option<+T> = None | Some(value: T)

  predicate IsDigit(c: char) { '0' <= c <= '9' }

  predicate IsLower(c: char) { 'a' <= c <= 'z' }

  predicate IsUpper(c: char) { 'A' <= c <= 'Z' }

  predicate IsLetter(c: char) { IsLower(c) || IsUpper(c) }

  function LowerChar(c: char): char {
    if IsUpper(c) then (c as int + 32) as char else c
  }

  /** `strings.ToLower` and `String.toLowerCase`, on ASCII. */
  function Lower(s: string): (r: string)
    ensures |r| == |s|
    ensures forall i :: 0 <= i < |s| ==> r[i] == LowerChar(s[i])
  {
    seq(|s|, i requires 0 <= i < |s| => LowerChar(s[i]))
  }

  lemma LowerIdempotent(s: string)
    ensures Lower(Lower(s)) == Lower(s)
  {
  }

  /** Position of the first `c` in `s`, or `|s|`. */
  function IndexOf(s: string, c: char): (k: nat)
    ensures k <= |s|
    ensures forall i :: 0 <= i < k ==> s[i] != c
    ensures k < |s| ==> s[k] == c
  {
    if s == [] || s[0] == c then 0 else 1 + IndexOf(s[1..], c)
  }

  /** `strings.Cut` at a one-byte separator. */
  function Cut(s: string, c: char): (r: (string, string, bool))
    ensures r.2 <==> c in s
    ensures c !in r.0
    ensures r.2 ==> s == r.0 + [c] + r.1
    ensures !r.2 ==> r.0 == s && r.1 == ""
  {
    var k := IndexOf(s, c);
    if k < |s| then (s[..k], s[k + 1..], true) else (s, "", false)
  }

  /** A cut is determined by the text: the part before holds no separator. */
  lemma CutOf(a: string, c: char, b: string)
    requires c !in a
    ensures Cut(a + [c] + b, c) == (a, b, true)
  {
    var s := a + [c] + b;
    var k := IndexOf(s, c);
    assert s[|a|] == c;
    assert forall i :: 0 <= i < |a| ==> s[i] == a[i];
    assert k == |a|;
    assert s[..k] == a && s[k + 1..] == b;
  }

  /** `strings.Split` at a one-byte separator. */
  function Split(s: string, c: char): (parts: seq<string>)
    ensures |parts| >= 1
    ensures forall p :: p in parts ==> c !in p
    decreases |s|
  {
    var (before, after, found) := Cut(s, c);
    if found then [before] + Split(after, c) else [s]
  }

  /** `strings.Join` with a one-byte separator. */
  function Join(parts: seq<string>, c: char): string {
    if parts == [] then "" else if |parts| == 1 then parts[0]
    else parts[0] + [c] + Join(parts[1..], c)
  }

  lemma {:induction false} JoinSplit(s: string, c: char)
    ensures Join(Split(s, c), c) == s
    decreases |s|
  {
    var (before, after, found) := Cut(s, c);
    if found {
      JoinSplit(after, c);
      assert ([before] + Split(after, c))[1..] == Split(after, c);
    }
  }

  lemma {:induction false} SplitJoin(parts: seq<string>, c: char)
    requires parts != [] && forall p :: p in parts ==> c !in p
    ensures Split(Join(parts, c), c) == parts
  {
    assert parts[0] in parts;
    if |parts| == 1 {
      SplitNone(parts[0], c);
    } else {
      SplitJoin(parts[1..], c);
      SplitCons(parts[0], c, Join(parts[1..], c));
      assert [parts[0]] + parts[1..] == parts;
    }
  }

  lemma Assoc<T>(a: seq<T>, b: seq<T>, c: seq<T>)
    ensures (a + b) + c == a + (b + c)
  {
  }

  /** The first separator peels off the first part. */
  lemma SplitCons(a: string, c: char, b: string)
    requires c !in a
    ensures Split(a + [c] + b, c) == [a] + Split(b, c)
  {
    CutOf(a, c, b);
  }

  /** Splitting distributes over a separator. */
  lemma {:induction false} SplitConcat(a: string, c: char, b: string)
    ensures Split(a + [c] + b, c) == Split(a, c) + Split(b, c)
    decreases |a|
  {
    var (before, after, found) := Cut(a, c);
    if found {
      var rest := after + [c] + b;
      assert Split(a, c) == [before] + Split(after, c);
      hide Split, Cut;
      Assoc(before + [c], after, [c]);
      Assoc(before + [c], after + [c], b);
      assert a + [c] + b == before + [c] + rest;
      SplitCons(before, c, rest);
      SplitConcat(after, c, b);
      Assoc([before], Split(after, c), Split(b, c));
    } else {
      SplitCons(a, c, b);
    }
  }

  lemma SplitNone(s: string, c: char)
    requires c !in s
    ensures Split(s, c) == [s]
  {
  }

  /** The last separator splits a text in only one way. */
  lemma LastCutUnique(a: string, b: string, a': string, b': string, c: char)
    requires c !in b && c !in b'
    requires a + [c] + b == a' + [c] + b'
    ensures a == a' && b == b'
  {
    var s := a + [c] + b;
    var s' := a' + [c] + b';
    assert s[|a|] == c && s'[|a'|] == c;
    assert forall i :: |a| < i < |s| ==> s[i] == b[i - |a| - 1];
    assert forall i :: |a'| < i < |s| ==> s'[i] == b'[i - |a'| - 1];
    assert |a| == |a'|;
    assert a == s[..|a|] && a' == s'[..|a'|];
    assert b == s[|a| + 1..] && b' == s'[|a'| + 1..];
  }

  function DigitChar(d: nat): (c: char)
    requires d < 10
    ensures IsDigit(c)
    ensures c as int - '0' as int == d
  {
    (d + '0' as int) as char
  }

  function DigitOf(c: char): (d: nat)
    requires IsDigit(c)
    ensures d < 10 && DigitChar(d) == c
  {
    c as int - '0' as int
  }

  /** Decimal digits of a natural number. */
  function Digits(n: nat): (s: string)
    ensures |s| >= 1
    ensures forall i :: 0 <= i < |s| ==> IsDigit(s[i])
  {
    if n < 10 then [DigitChar(n)] else Digits(n / 10) + [DigitChar(n % 10)]
  }

  /** Value of a run of decimal digits. */
  function DigitsValue(s: string): nat
    requires forall i :: 0 <= i < |s| ==> IsDigit(s[i])
  {
    if s == "" then 0
    else DigitsValue(s[..|s| - 1]) * 10 + DigitOf(s[|s| - 1])
  }

  lemma {:induction false} DigitsValueOf(n: nat)
    ensures DigitsValue(Digits(n)) == n
  {
    if n < 10 {
      assert Digits(n)[..0] == "";
    } else {
      DigitsValueOf(n / 10);
      assert Digits(n)[..|Digits(n)| - 1] == Digits(n / 10);
    }
  }

  /** `strconv.AppendInt(_, v, 10)` */
  function Itoa(v: int): string {
    if v < 0 then "-" + Digits(-v) else Digits(v)
  }

  predicate AllDigits(s: string) {
    forall i :: 0 <= i < |s| ==> IsDigit(s[i])
  }

  const MAX_INT64: int := 0x7fff_ffff_ffff_ffff

  /** `strconv.ParseInt(s, 10, 64)`: an optional sign, then digits, in range. */
  function ParseInt(s: string): (r: Option<int>)
    ensures r.Some? ==> forall i :: 0 <= i < |s| ==> IsDigit(s[i]) || s[i] == '-' || s[i] == '+'
    ensures r.Some? ==> -MAX_INT64 - 1 <= r.value <= MAX_INT64
  {
    var negative := s != "" && s[0] == '-';
    var digits := if s != "" && (s[0] == '-' || s[0] == '+') then s[1..] else s;
    if digits == "" || !AllDigits(digits) then None
    else
      var n: int := DigitsValue(digits);
      var v: int := if negative then -n else n;
      if -MAX_INT64 - 1 <= v <= MAX_INT64 then Some(v) else None
  }

  lemma ParseIntItoa(v: int)
    requires -MAX_INT64 - 1 <= v <= MAX_INT64
    ensures ParseInt(Itoa(v)) == Some(v)
  {
    hide Digits, DigitsValue;
    var digits := Digits(if v < 0 then -v else v);
    DigitsValueOf(if v < 0 then -v else v);
    if v < 0 {
      assert Itoa(v)[1..] == digits;
    } else {
      assert IsDigit(digits[0]);
    }
  }

  /******* What the integers read and written are *******/

  /** Decimal digits have no leading zero. */
  lemma {:induction false} NoLeadingZero(n: nat)
    ensures Digits(n)[0] == '0' ==> n == 0 && Digits(n) == "0"
  {
    if n >= 10 {
      NoLeadingZero(n / 10);
      assert Digits(n)[0] == Digits(n / 10)[0];
    }
  }

  function Zeros(k: nat): (z: string)
    ensures AllDigits(z) && |z| == k
  {
    seq(k, _ => '0')
  }

  lemma ValueSnoc(init: string, last: char)
    requires AllDigits(init) && IsDigit(last)
    ensures AllDigits(init + [last]) && DigitsValue(init + [last]) == 10 * DigitsValue(init) + DigitOf(last)
    ensures DigitsValue("") == 0
  {
    assert (init + [last])[..|init|] == init;
  }

  /** Digits are some zeros and the decimal digits of their value. */
  lemma {:induction false} ZerosAndDigits(d: string)
    requires AllDigits(d) && d != ""
    ensures exists k: nat :: k < |d| && d == Zeros(k) + Digits(DigitsValue(d))
  {
    hide DigitsValue, Digits, Zeros;
    var init, last := d[..|d| - 1], d[|d| - 1];
    assert d == init + [last];
    ValueSnoc(init, last);
    DigitAfter(DigitsValue(init), last);
    if init == "" {
      assert d == Zeros(0) + [last];
    } else {
      ZerosAndDigits(init);
      var k: nat :| k < |init| && init == Zeros(k) + Digits(DigitsValue(init));
      OneMoreDigit(k, DigitsValue(init), d, last);
    }
  }

  lemma OneMoreDigit(k: nat, n: nat, d: string, last: char)
    requires d == Zeros(k) + Digits(n) + [last] && IsDigit(last)
    ensures exists k': nat :: k' <= k + 1 && d == Zeros(k') + (if n == 0 then [last] else Digits(n) + [last])
  {
    OneDigit('0');
    hide Digits;
    if n == 0 {
      assert d == Zeros(k + 1) + [last];
    } else {
      assert d == Zeros(k) + (Digits(n) + [last]);
    }
  }

  lemma OneDigit(c: char)
    requires IsDigit(c)
    ensures Digits(DigitOf(c)) == [c]
  {
  }

  lemma DigitAfter(n: nat, c: char)
    requires IsDigit(c)
    ensures Digits(10 * n + DigitOf(c)) == if n == 0 then [c] else Digits(n) + [c]
  {
  }

  lemma {:induction false} ValueOfZeros(k: nat, n: nat)
    ensures AllDigits(Zeros(k) + Digits(n)) && DigitsValue(Zeros(k) + Digits(n)) == n
  {
    var d := Zeros(k) + Digits(n);
    if n < 10 {
      assert d[..|d| - 1] == Zeros(k);
      OnlyZeros(k);
    } else {
      ValueOfZeros(k, n / 10);
      assert d[..|d| - 1] == Zeros(k) + Digits(n / 10);
    }
  }

  lemma {:induction false} OnlyZeros(k: nat)
    ensures DigitsValue(Zeros(k)) == 0
  {
    if k > 0 {
      OnlyZeros(k - 1);
      assert Zeros(k)[..k - 1] == Zeros(k - 1);
    }
  }

  /** An optional sign, some zeros, and the decimal digits of the number without its sign. */
  predicate Writes(s: string, sign: string, k: nat, v: int) {
    && s == sign + (Zeros(k) + Digits(if v < 0 then -v else v))
    && (if sign == "-" then v <= 0 else v >= 0 && (sign == "" || sign == "+"))
  }

  /** `ParseInt` takes exactly the 64-bit integers in decimal, with or without a sign and
      leading zeros. */
  lemma ParseIntExact(s: string, v: int)
    ensures ParseInt(s) == Some(v) <==>
              && -0x8000_0000_0000_0000 <= v <= 0x7fff_ffff_ffff_ffff
              && exists sign: string, k: nat :: Writes(s, sign, k, v)
  {
    hide ParseInt, Writes;
    if ParseInt(s) == Some(v) {
      ParsedIsWritten(s, v);
    }
    if sign: string, k: nat :| Writes(s, sign, k, v) {
      if -0x8000_0000_0000_0000 <= v <= 0x7fff_ffff_ffff_ffff {
        WrittenIsParsed(s, sign, k, v);
      }
    }
  }

  lemma ParsedIsWritten(s: string, v: int)
    requires ParseInt(s) == Some(v)
    ensures -0x8000_0000_0000_0000 <= v <= 0x7fff_ffff_ffff_ffff
    ensures exists sign: string, k: nat :: Writes(s, sign, k, v)
  {
    hide DigitsValue, Digits, Zeros;
    var signed := s[0] == '-' || s[0] == '+';
    var sign, digits := if signed then s[..1] else "", if signed then s[1..] else s;
    assert s == sign + digits;
    ZerosAndDigits(digits);
    var k: nat :| k < |digits| && digits == Zeros(k) + Digits(DigitsValue(digits));
    assert Writes(s, sign, k, v);
  }

  lemma WrittenIsParsed(s: string, sign: string, k: nat, v: int)
    requires Writes(s, sign, k, v) && -0x8000_0000_0000_0000 <= v <= 0x7fff_ffff_ffff_ffff
    ensures ParseInt(s) == Some(v)
  {
    hide DigitsValue, Digits, Zeros;
    var digits := Zeros(k) + Digits(if v < 0 then -v else v);
    ValueOfZeros(k, if v < 0 then -v else v);
    assert IsDigit(digits[0]) && s[|sign|..] == digits;
  }

  const UPPER := "ABCDEFGHIJKLMNOPQRSTUVWXYZ"
  const LOWER := "abcdefghijklmnopqrstuvwxyz"

  /** The same character, or the same letter in two cases. */
  ghost predicate SameLetter(c: char, d: char) {
    c == d || exists k :: 0 <= k < 26 && {c, d} == {UPPER[k], LOWER[k]}
  }

  /** Texts that are the same in lower case are the same up to the case of letters. */
  lemma LowerFolds(s: string, t: string)
    ensures Lower(s) == Lower(t) <==> |s| == |t| && forall i :: 0 <= i < |s| ==> SameLetter(s[i], t[i])
  {
    forall c, d ensures LowerChar(c) == LowerChar(d) <==> SameLetter(c, d) {
      LetterFolds(c, d);
    }
    if Lower(s) == Lower(t) {
      forall i | 0 <= i < |s| ensures SameLetter(s[i], t[i]) {
        assert Lower(s)[i] == Lower(t)[i];
      }
    }
  }

  lemma LetterFolds(c: char, d: char)
    ensures LowerChar(c) == LowerChar(d) <==> SameLetter(c, d)
  {
    Alphabets();
    if LowerChar(c) == LowerChar(d) && c != d {
      var k := (if IsUpper(c) then c else d) as int - 'A' as int;
      assert {c, d} == {UPPER[k], LOWER[k]};
    }
  }

  lemma Alphabets()
    ensures forall k :: 0 <= k < 26 ==> UPPER[k] as int == 'A' as int + k && LOWER[k] as int == 'a' as int + k
  {
  }
}
