/**
 Proof of work: the Hashcash tokens the client mints (client/src/lib/libshyake.c)
 and the two servers verify (server/go/internal/protocol/pow.go and
 server/cf/src/utils.ts). SHA-1 is a parameter.
 */
module Pow {
  import opened Text
  import Utf8

  /******* Leading zero bits *******/

  type Byte = n: nat | n < 256

  const HASH_SIZE := 20

  type Hash = h: seq<Byte> | |h| == HASH_SIZE witness seq(HASH_SIZE, _ => 0)

  function Pow2(n: nat): (p: nat)
    ensures p >= 1
  {
    if n == 0 then 1 else 2 * Pow2(n - 1)
  }

  /** The bytes as one big-endian number. */
  function Value(h: seq<Byte>): nat {
    if h == [] then 0 else h[0] * Pow2(8 * (|h| - 1)) + Value(h[1..])
  }

  /** The first `bits` bits of the hash are zero, told of its value. */
  predicate Small(h: seq<Byte>, bits: nat)
    requires bits <= 8 * |h|
  {
    Value(h) < Pow2(8 * |h| - bits)
  }

  lemma {:induction false} Pow2Adds(a: nat, b: nat)
    ensures Pow2(a + b) == Pow2(a) * Pow2(b)
  {
    if a > 0 {
      Pow2Adds(a - 1, b);
    }
  }

  lemma {:induction false} Pow2Grows(a: nat, b: nat)
    requires a <= b
    ensures Pow2(a) <= Pow2(b)
  {
    if a < b {
      Pow2Grows(a, b - 1);
    }
  }

  lemma Pow2Of8()
    ensures Pow2(8) == 256
  {
    assert Pow2(4) == 16;
    Pow2Adds(4, 4);
  }

  lemma {:induction false} ValueBound(h: seq<Byte>)
    ensures Value(h) < Pow2(8 * |h|)
  {
    if h != [] {
      ValueBound(h[1..]);
      Pow2Of8();
      Pow2Adds(8, 8 * (|h| - 1));
      Below(h[0], 256, Pow2(8 * (|h| - 1)), Value(h[1..]));
    }
  }

  /** A digit and a remainder stay below a multiple exactly as the digit does. */
  lemma Below(digit: nat, bound: nat, unit: nat, rest: nat)
    requires rest < unit
    ensures digit * unit + rest < bound * unit <==> digit < bound
  {
    if digit < bound {
      assert (digit + 1) * unit <= bound * unit;
    } else {
      assert bound * unit <= digit * unit;
    }
  }

  /** One byte at a time: eight zero bits are a zero byte. */
  lemma SmallSkip(h: seq<Byte>, bits: nat)
    requires 8 <= bits <= 8 * |h|
    ensures Small(h, bits) <==> h[0] == 0 && Small(h[1..], bits - 8)
  {
    var unit, bound := Pow2(8 * (|h| - 1)), Pow2(8 * |h| - bits);
    assert 8 * |h| - bits == 8 * |h[1..]| - (bits - 8);
    Pow2Grows(8 * |h| - bits, 8 * (|h| - 1));
    hide Pow2;
    ZeroDigit(h[0], unit, Value(h[1..]), bound);
  }

  lemma ZeroDigit(digit: nat, unit: nat, rest: nat, bound: nat)
    requires 0 < bound <= unit
    ensures digit * unit + rest < bound <==> digit == 0 && rest < bound
  {
    if digit > 0 {
      assert digit * unit >= unit;
    }
  }

  /** Fewer than eight zero bits bound the first byte. */
  lemma SmallRest(h: seq<Byte>, bits: nat)
    requires bits < 8 && h != []
    ensures Small(h, bits) <==> h[0] < Pow2(8 - bits)
  {
    ValueBound(h[1..]);
    Pow2Adds(8 - bits, 8 * (|h| - 1));
    Below(h[0], Pow2(8 - bits), Pow2(8 * (|h| - 1)), Value(h[1..]));
  }

  lemma {:induction false} SmallByBytes(h: seq<Byte>, full: nat, rem: nat)
    requires rem < 8 && 8 * full + rem <= 8 * |h|
    ensures Small(h, 8 * full + rem)
       <==> (forall i :: 0 <= i < full ==> h[i] == 0) && (rem == 0 || h[full] < Pow2(8 - rem))
    decreases full
  {
    if full > 0 {
      SmallSkip(h, 8 * full + rem);
      SmallByBytes(h[1..], full - 1, rem);
      assert forall i :: 0 <= i < full - 1 ==> h[1..][i] == h[i + 1];
      assert forall i :: 1 <= i < full ==> h[i] == h[1..][i - 1];
      assert rem > 0 ==> h[full] == h[1..][full - 1];
    } else if rem > 0 {
      SmallRest(h, rem);
    } else {
      ValueBound(h);
    }
  }

  /** `b >> k` */
  function ShiftRight(b: Byte, k: nat): nat { Quotient(b, Pow2(k)) }

  function Quotient(n: nat, d: nat): nat
    requires d > 0
  {
    n / d
  }

  lemma ShiftedAway(b: Byte, k: nat)
    ensures ShiftRight(b, k) == 0 <==> b < Pow2(k)
  {
    hide Pow2;
    QuotientZero(b, Pow2(k));
  }

  lemma QuotientZero(n: nat, d: nat)
    requires d > 0
    ensures Quotient(n, d) == 0 <==> n < d
  {
    assert n == (n / d) * d + n % d;
    if n / d > 0 {
      assert (n / d) * d >= d;
    }
  }

  /** The Go server's test. */
  method LeadingZeroBits(h: Hash, bits: nat) returns (ok: bool)
    requires bits <= 8 * HASH_SIZE
    ensures ok <==> Small(h, bits)
  {
    var full, rem := bits / 8, bits % 8;
    SmallByBytes(h, full, rem);
    for i := 0 to full
      invariant forall j :: 0 <= j < i ==> h[j] == 0
    {
      if h[i] != 0 {
        return false;
      }
    }
    if rem != 0 {
      ShiftedAway(h[full], 8 - rem);
    }
    return rem == 0 || ShiftRight(h[full], 8 - rem) == 0;
  }

  /** The client's test in its minting loop. */
  method MintMatch(h: Hash, bits: nat) returns (ok: bool)
    requires bits <= 8 * HASH_SIZE
    ensures ok <==> Small(h, bits)
  {
    var bytesToCheck, remainingBits := bits / 8, bits % 8;
    SmallByBytes(h, bytesToCheck, remainingBits);
    ok := true;
    for i := 0 to bytesToCheck
      invariant ok
      invariant forall j :: 0 <= j < i ==> h[j] == 0
    {
      if h[i] != 0 {
        ok := false;
        break;
      }
    }
    if ok && remainingBits > 0 {
      ShiftedAway(h[bytesToCheck], 8 - remainingBits);
      if ShiftRight(h[bytesToCheck], 8 - remainingBits) != 0 {
        ok := false;
      }
    }
  }

  /******* The Worker's bit string *******/

  /** `n.toString(2)` */
  function Binary(n: nat): (s: string)
    ensures |s| >= 1
  {
    if n < 2 then [DigitChar(n)] else Binary(n / 2) + [DigitChar(n % 2)]
  }

  function Zeros(n: nat): (s: string)
    ensures |s| == n && forall i :: 0 <= i < n ==> s[i] == '0'
  {
    if n == 0 then "" else "0" + Zeros(n - 1)
  }

  /** `s.padStart(8, '0')` */
  function PadStart8(s: string): string {
    if |s| >= 8 then s else Zeros(8 - |s|) + s
  }

  /** `s.startsWith('0'.repeat(n))` */
  predicate StartsWithZeros(s: string, n: nat) {
    n <= |s| && forall i :: 0 <= i < n ==> s[i] == '0'
  }

  /** A positive number's binary form starts with 1 and is as long as the number
      is large. */
  lemma {:induction false} BinaryLength(n: nat, k: nat)
    requires n > 0
    ensures Binary(n)[0] == '1'
    ensures |Binary(n)| <= k <==> n < Pow2(k)
  {
    if n >= 2 {
      if k > 0 {
        BinaryLength(n / 2, k - 1);
      } else {
        BinaryLength(n / 2, 0);
      }
    } else if k > 0 {
      Pow2Grows(1, k);
    }
  }

  lemma ByteText(b: Byte, bits: nat)
    requires bits <= 8
    ensures |PadStart8(Binary(b))| == 8
    ensures StartsWithZeros(PadStart8(Binary(b)), bits) <==> b < Pow2(8 - bits)
  {
    var s := PadStart8(Binary(b));
    if b == 0 {
      assert Binary(0) == "0";
    } else {
      Pow2Of8();
      BinaryLength(b, 8);
      BinaryLength(b, 8 - bits);
      assert s[8 - |Binary(b)|] == '1';
    }
  }

  function BitText(h: seq<Byte>): string {
    if h == [] then "" else PadStart8(Binary(h[0])) + BitText(h[1..])
  }

  lemma {:induction false} BitTextSnoc(h: seq<Byte>, b: Byte)
    ensures BitText(h + [b]) == BitText(h) + PadStart8(Binary(b))
  {
    hide PadStart8;
    if h == [] {
      assert [] + [b] == [b];
      assert BitText([b]) == PadStart8(Binary(b)) + BitText([b][1..]);
    } else {
      BitTextSnoc(h[1..], b);
      assert (h + [b])[1..] == h[1..] + [b];
      Assoc(PadStart8(Binary(h[0])), BitText(h[1..]), PadStart8(Binary(b)));
    }
  }

  lemma {:induction false} BitTextZeros(h: seq<Byte>, bits: nat)
    requires bits <= 8 * |h|
    ensures |BitText(h)| == 8 * |h|
    ensures StartsWithZeros(BitText(h), bits) <==> Small(h, bits)
    decreases |h|
  {
    if h != [] {
      var first, rest := PadStart8(Binary(h[0])), BitText(h[1..]);
      ByteText(h[0], if bits < 8 then bits else 8);
      assert |first| == 8;
      assert BitText(h) == first + rest;
      hide PadStart8, Small, BitText, Pow2;
      if bits < 8 {
        BitTextZeros(h[1..], 0);
        SmallRest(h, bits);
        ZerosOfConcat(first, rest, bits);
      } else {
        BitTextZeros(h[1..], bits - 8);
        SmallSkip(h, bits);
        ZerosOfConcat(first, rest, bits);
        NoByte(h[0]);
      }
    }
  }

  lemma NoByte(b: Byte)
    ensures b < Pow2(8 - 8) <==> b == 0
  {
  }

  lemma ZerosOfConcat(a: string, b: string, n: nat)
    requires n <= |a| + |b|
    ensures StartsWithZeros(a + b, n)
       <==> if n <= |a| then StartsWithZeros(a, n) else StartsWithZeros(a, |a|) && StartsWithZeros(b, n - |a|)
  {
    var s := a + b;
    assert forall i :: 0 <= i < |a| ==> s[i] == a[i];
    assert forall i :: 0 <= i < |b| ==> s[i + |a|] == b[i];
    if n > |a| && StartsWithZeros(a, |a|) && StartsWithZeros(b, n - |a|) {
      forall i | 0 <= i < n ensures s[i] == '0' {
        assert i >= |a| ==> s[i] == b[i - |a|];
      }
    }
  }

  lemma NoBits()
    ensures BitText([]) == ""
  {
  }

  /** Only the first bytes matter for the first bits. */
  lemma {:induction false} SmallPrefix(h: seq<Byte>, n: nat, bits: nat)
    requires bits <= 8 * n <= 8 * |h|
    ensures Small(h[..n], bits) <==> Small(h, bits)
  {
    var full, rem := bits / 8, bits % 8;
    SmallByBytes(h, full, rem);
    SmallByBytes(h[..n], full, rem);
  }

  /** The Worker's test: bytes printed in binary, one more than needed. */
  method WorkerMatch(h: Hash, requiredBits: nat) returns (ok: bool)
    requires requiredBits <= 8 * HASH_SIZE
    ensures ok <==> Small(h, requiredBits)
  {
    hide Binary, PadStart8, BitText, Small;
    assert h[..0] == [] && BitText(h[..0]) == "" by { NoBits(); }
    var binaryStr := "";
    var n := (requiredBits + 7) / 8 + 1;
    var i := 0;
    while i < n
      invariant 0 <= i <= n
      invariant binaryStr == BitText(if i <= HASH_SIZE then h[..i] else h)
    {
      if i < HASH_SIZE {
        BitTextSnoc(h[..i], h[i]);
        assert h[..i + 1] == h[..i] + [h[i]];
        binaryStr := binaryStr + PadStart8(Binary(h[i]));
      } else {
        assert h[..HASH_SIZE] == h;
      }
      i := i + 1;
    }
    ghost var used := if n <= HASH_SIZE then n else HASH_SIZE;
    assert h[..HASH_SIZE] == h;
    BitTextZeros(h[..used], requiredBits);
    SmallPrefix(h, used, requiredBits);
    return StartsWithZeros(binaryStr, requiredBits);
  }

  /** More zero bits include fewer. */
  lemma SmallWeakens(h: seq<Byte>, bits: nat, fewer: nat)
    requires fewer <= bits <= 8 * |h| && Small(h, bits)
    ensures Small(h, fewer)
  {
    Pow2Grows(8 * |h| - bits, 8 * |h| - fewer);
  }

  /******* Tokens *******/

  const POW_BITS := 20
  const MAX_POW_LEN := 256

  /** SHA-1, and the reading of a yymmdd date as a day number. */
  datatype Env = Env(sha1: string -> Hash, dayOf: string -> Option<int>)

  /** Yesterday, today or tomorrow. */
  predicate FreshDate(env: Env, yymmdd: string, today: int) {
    match env.dayOf(yymmdd)
    case Some(d) => -1 <= d - today <= 1
    case None => false
  }

  /** Everything between the three leading and the three trailing fields. */
  function Middle(parts: seq<string>): string
    requires |parts| >= 7
  {
    Join(parts[3..|parts| - 3], ':')
  }

  /** The Go server's `VerifyPoW` */
  predicate VerifyPoW(env: Env, token: string, resource: string, today: int) {
    && |token| <= MAX_POW_LEN
    && var parts := Split(token, ':');
       && |parts| >= 7 && parts[0] == "1"
       && ParseInt(parts[1]).Some? && ParseInt(parts[1]).value >= POW_BITS
       && Middle(parts) == resource
       && FreshDate(env, parts[2], today)
       && Small(env.sha1(token), POW_BITS)
  }

  /** The seven fields of a token, put together. */
  function TokenText(bits: string, date: string, resource: string, ext: string, rand: string, counter: string): string {
    "1" + ":" + (bits + ":" + (date + ":" + (resource + ":" + (ext + ":" + (rand + ":" + counter)))))
  }

  lemma {:induction false} JoinConcat(a: seq<string>, b: seq<string>, c: char)
    requires a != [] && b != []
    ensures Join(a + b, c) == Join(a, c) + [c] + Join(b, c)
  {
    if |a| == 1 {
      assert (a + b)[1..] == b;
    } else {
      JoinConcat(a[1..], b, c);
      assert (a + b)[1..] == a[1..] + b;
      Assoc(a[0] + [c], Join(a[1..], c), [c]);
      Assoc(a[0] + [c], Join(a[1..], c) + [c], Join(b, c));
    }
  }

  predicate Plain(s: string) { ':' !in s }

  /** A token splits into its six plain fields and whatever the resource holds. */
  lemma TokenSplits(bits: string, date: string, resource: string, ext: string, rand: string, counter: string)
    requires Plain(bits) && Plain(date) && Plain(ext) && Plain(rand) && Plain(counter)
    ensures Split(TokenText(bits, date, resource, ext, rand, counter), ':')
         == ["1", bits, date] + Split(resource, ':') + [ext, rand, counter]
  {
    var t5 := rand + ":" + counter;
    var t4 := ext + ":" + t5;
    var t3 := resource + ":" + t4;
    var t2 := date + ":" + t3;
    var t1 := bits + ":" + t2;
    var r := Split(resource, ':');
    SplitNone(counter, ':');
    hide Split;
    SplitCons(rand, ':', counter);
    SplitCons(ext, ':', t5);
    var tail := [ext] + ([rand] + [counter]);
    assert Split(t4, ':') == tail;
    SplitConcat(resource, ':', t4);
    assert Split(t3, ':') == r + tail;
    SplitCons(date, ':', t3);
    SplitCons(bits, ':', t2);
    SplitCons("1", ':', t1);
    assert TokenText(bits, date, resource, ext, rand, counter) == "1" + ":" + t1;
    hide TokenText;
    SevenParts("1", bits, date, r, ext, rand, counter);
  }

  lemma SevenParts(a: string, b: string, c: string, r: seq<string>, x: string, y: string, z: string)
    ensures [a] + ([b] + ([c] + (r + ([x] + ([y] + [z]))))) == [a, b, c] + r + [x, y, z]
  {
    Assoc([a, b, c], r, [x, y, z]);
  }

  lemma JoinThree(x: string, y: string, z: string)
    ensures Join([x, y, z], ':') == x + ":" + (y + ":" + z)
  {
    assert [x, y, z][1..] == [y, z] && [y, z][1..] == [z];
    assert Join([z], ':') == z;
    assert Join([y, z], ':') == y + [':'] + Join([z], ':');
  }

  /** A text with seven parts or more is such a token, around its middle. */
  lemma PartsMakeToken(token: string)
    requires |Split(token, ':')| >= 7 && Split(token, ':')[0] == "1"
    ensures var parts := Split(token, ':'); var n := |parts|;
            token == TokenText(parts[1], parts[2], Middle(parts), parts[n - 3], parts[n - 2], parts[n - 1])
  {
    JoinSplit(token, ':');
    var parts := Split(token, ':');
    hide Split;
    var n := |parts|;
    var mid, last := parts[3..n - 3], parts[n - 3..];
    JoinConcat(mid, last, ':');
    assert parts[3..] == mid + last;
    JoinThree(last[0], last[1], last[2]);
    assert last == [last[0], last[1], last[2]];
    assert parts[1..][1..] == parts[2..] && parts[2..][1..] == parts[3..];
    assert Join(parts, ':') == "1" + ":" + Join(parts[1..], ':');
    assert Join(parts[1..], ':') == parts[1] + ":" + Join(parts[2..], ':');
    assert Join(parts[2..], ':') == parts[2] + ":" + Join(parts[3..], ':');
    Assoc(Middle(parts), ":", Join(last, ':'));
  }

  /** What a token the server accepts is, read without the splitting: at most 256 bytes
      that hash below 2^140, made of a difficulty of 20 or more, a date of yesterday, today
      or tomorrow, and the resource between six plain fields. */
  ghost predicate IsToken(env: Env, token: string, resource: string, today: int) {
    && |token| <= 256
    && Value(env.sha1(token)) < Pow2(140)
    && exists bits: string, date: string, ext: string, rand: string, counter: string ::
         && Plain(bits) && Plain(date) && Plain(ext) && Plain(rand) && Plain(counter)
         && token == TokenText(bits, date, resource, ext, rand, counter)
         && ParseInt(bits).Some? && ParseInt(bits).value >= 20
         && env.dayOf(date).Some? && -1 <= env.dayOf(date).value - today <= 1
  }

  lemma TokenMiddle(bits: string, date: string, resource: string, ext: string, rand: string, counter: string)
    requires Plain(bits) && Plain(date) && Plain(ext) && Plain(rand) && Plain(counter)
    ensures var parts := Split(TokenText(bits, date, resource, ext, rand, counter), ':');
            |parts| >= 7 && parts[0] == "1" && parts[1] == bits && parts[2] == date && Middle(parts) == resource
  {
    TokenSplits(bits, date, resource, ext, rand, counter);
    JoinSplit(resource, ':');
    var parts := Split(TokenText(bits, date, resource, ext, rand, counter), ':');
    assert |Split(resource, ':')| >= 1;
    hide Split, TokenText;
    assert parts[3..|parts| - 3] == Split(resource, ':');
  }

  lemma TwentyBits(h: Hash)
    ensures Small(h, POW_BITS) <==> Value(h) < Pow2(140)
  {
    hide Value, Pow2;
  }

  lemma TakenIsToken(env: Env, token: string, resource: string, today: int)
    requires VerifyPoW(env, token, resource, today)
    ensures IsToken(env, token, resource, today)
  {
    PartsMakeToken(token);
    PartsPlain(token);
    TwentyBits(env.sha1(token));
    hide Split, TokenText, Value, Pow2, Small, ParseInt, Middle;
  }

  lemma TokenIsTaken(env: Env, token: string, resource: string, today: int)
    requires IsToken(env, token, resource, today)
    ensures VerifyPoW(env, token, resource, today)
  {
    TwentyBits(env.sha1(token));
    hide TokenText, Split, Value, Pow2, Small, ParseInt, Middle;
    var bits: string, date: string, ext: string, rand: string, counter: string :|
      && Plain(bits) && Plain(date) && Plain(ext) && Plain(rand) && Plain(counter)
      && token == TokenText(bits, date, resource, ext, rand, counter)
      && ParseInt(bits).Some? && ParseInt(bits).value >= 20
      && env.dayOf(date).Some? && -1 <= env.dayOf(date).value - today <= 1;
    TokenMiddle(bits, date, resource, ext, rand, counter);
  }

  lemma VerifyExact(env: Env, token: string, resource: string, today: int)
    ensures VerifyPoW(env, token, resource, today) <==> IsToken(env, token, resource, today)
  {
    hide VerifyPoW, IsToken;
    if VerifyPoW(env, token, resource, today) {
      TakenIsToken(env, token, resource, today);
    }
    if IsToken(env, token, resource, today) {
      TokenIsTaken(env, token, resource, today);
    }
  }

  lemma PartsPlain(token: string)
    ensures forall i :: 0 <= i < |Split(token, ':')| ==> Plain(Split(token, ':')[i])
  {
    var parts := Split(token, ':');
    forall i | 0 <= i < |parts| ensures Plain(parts[i]) {
      assert parts[i] in parts;
    }
  }

  /** No token pays for two accounts, on any two days. */
  lemma OneResource(env: Env, token: string, r: string, r': string, today: int, today': int)
    requires VerifyPoW(env, token, r, today) && VerifyPoW(env, token, r', today')
    ensures r == r'
  {
  }

  /******* Minting *******/

  function HexDigit(d: nat): (c: char)
    requires d < 16
    ensures c != ':'
  {
    if d < 10 then DigitChar(d) else (d - 10 + 'a' as int) as char
  }

  /** `%lx` */
  function Hex(n: nat): (s: string)
    ensures Plain(s)
  {
    if n < 16 then [HexDigit(n)] else Hex(n / 16) + [HexDigit(n % 16)]
  }

  const HEADER_SIZE := 256
  const COUNTER_END := 0xFFFF_FFFF

  /** `snprintf` into the header buffer: at most 255 characters and the NUL. */
  function Truncated(s: string): string {
    if |s| < HEADER_SIZE then s else s[..HEADER_SIZE - 1]
  }

  function FullToken(bits: nat, date: string, resource: string, rand: string, counter: nat): string {
    TokenText(Itoa(bits), date, resource, "", rand, Hex(counter))
  }

  /** The minting loop: the first counter whose hash has the zero bits, or
      nothing when all fail. */
  method MintPow(sha1: string -> Hash, date: string, resource: string, rand: string, bits: nat)
    returns (r: Option<string>)
    requires bits <= 8 * HASH_SIZE
    ensures match r
            case Some(header) =>
              exists n: nat :: n < 0xFFFF_FFFF
                && header == Truncated(FullToken(bits, date, resource, rand, n)) && Small(sha1(header), bits)
                && forall m: nat :: m < n ==> !Small(sha1(Truncated(FullToken(bits, date, resource, rand, m))), bits)
            case None =>
              forall m: nat :: m < 0xFFFF_FFFF ==>
                !Small(sha1(Truncated(FullToken(bits, date, resource, rand, m))), bits)
  {
    hide FullToken, Small, Truncated;
    var counter: nat := 0;
    while true
      invariant counter < COUNTER_END
      invariant forall m: nat :: m < counter ==>
                  !Small(sha1(Truncated(FullToken(bits, date, resource, rand, m))), bits)
      decreases COUNTER_END - counter
    {
      var header := Truncated(FullToken(bits, date, resource, rand, counter));
      var match_ := MintMatch(sha1(header), bits);
      if match_ {
        return Some(header);
      }
      counter := counter + 1;
      if counter == COUNTER_END {
        break;
      }
    }
    return None;
  }

  predicate LowerHex(c: char) { '0' <= c <= '9' || 'a' <= c <= 'f' }

  /** The number a run of lower-case hexadecimal digits stands for. */
  function HexReads(s: string): nat
    requires forall i :: 0 <= i < |s| ==> LowerHex(s[i])
  {
    if s == "" then 0
    else
      var c := s[|s| - 1];
      assert LowerHex(c);
      16 * HexReads(s[..|s| - 1]) + if c <= '9' then c as int - '0' as int else c as int - 'a' as int + 10
  }

  /** The counter is printed in lower-case hexadecimal, with no leading zero. */
  lemma {:induction false} HexIsRead(n: nat)
    ensures Hex(n) != "" && (forall i :: 0 <= i < |Hex(n)| ==> LowerHex(Hex(n)[i]))
    ensures HexReads(Hex(n)) == n
    ensures Hex(n)[0] == '0' ==> n == 0 && Hex(n) == "0"
  {
    if n < 16 {
      assert Hex(n)[..0] == "";
    } else {
      HexIsRead(n / 16);
      assert Hex(n)[..|Hex(n)| - 1] == Hex(n / 16);
    }
  }

  function Pow16(k: nat): nat { if k == 0 then 1 else 16 * Pow16(k - 1) }

  lemma {:induction false} HexLength(n: nat, k: nat)
    requires k > 0
    ensures |Hex(n)| <= k <==> n < Pow16(k)
  {
    if n < 16 {
      Pow16Grows(k);
    } else if k > 1 {
      HexLength(n / 16, k - 1);
      assert n < 16 * Pow16(k - 1) <==> n / 16 < Pow16(k - 1);
    }
  }

  lemma {:induction false} Pow16Grows(k: nat)
    requires k > 0
    ensures Pow16(k) >= 16
  {
    if k > 1 {
      Pow16Grows(k - 1);
    }
  }

  /** What all headers of one minting have before the counter. */
  function BeforeCounter(bits: nat, date: string, resource: string, rand: string): string {
    "1:" + Itoa(bits) + ":" + date + ":" + resource + "::" + rand + ":"
  }

  lemma TokenByParts(bits: nat, date: string, resource: string, rand: string, counter: nat)
    ensures FullToken(bits, date, resource, rand, counter) == BeforeCounter(bits, date, resource, rand) + Hex(counter)
  {
    hide Itoa, Hex;
    var b, c := Itoa(bits), Hex(counter);
    assert "1" + ":" + (b + ":" + (date + ":" + (resource + ":" + ("" + ":" + (rand + ":" + c)))))
        == "1:" + b + ":" + date + ":" + resource + "::" + rand + ":" + c;
  }

  function Header(bits: nat, date: string, resource: string, rand: string, counter: nat): string {
    Truncated(FullToken(bits, date, resource, rand, counter))
  }

  ghost predicate AllDiffer(bits: nat, date: string, resource: string, rand: string) {
    forall m: nat, n: nat | m < n < 0xFFFF_FFFF :: Header(bits, date, resource, rand, m) != Header(bits, date, resource, rand, n)
  }

  /** Every round of the loop tries another header, if and only if all counters fit the
      buffer of 256: what stands before the counter has at most 247 characters. */
  lemma RoundsDiffer(bits: nat, date: string, resource: string, rand: string)
    ensures AllDiffer(bits, date, resource, rand) <==> |BeforeCounter(bits, date, resource, rand)| <= 247
  {
    hide BeforeCounter, FullToken, Hex, Truncated;
    var before := BeforeCounter(bits, date, resource, rand);
    if |before| <= 247 {
      forall m: nat, n: nat | m < n < 0xFFFF_FFFF
        ensures Header(bits, date, resource, rand, m) != Header(bits, date, resource, rand, n)
      {
        TokenByParts(bits, date, resource, rand, m);
        TokenByParts(bits, date, resource, rand, n);
        FittingDiffer(before, m, n);
      }
    } else {
      TokenByParts(bits, date, resource, rand, 0x1000_0000);
      TokenByParts(bits, date, resource, rand, 0x1000_0001);
      LongSame(before);
      assert Header(bits, date, resource, rand, 0x1000_0000) == Header(bits, date, resource, rand, 0x1000_0001);
    }
  }

  lemma FittingDiffer(before: string, m: nat, n: nat)
    requires |before| <= 247 && m < n < 0xFFFF_FFFF
    ensures Truncated(before + Hex(m)) != Truncated(before + Hex(n))
  {
    SixteenToEight();
    HexLength(m, 8);
    HexLength(n, 8);
    HexIsRead(m);
    HexIsRead(n);
    hide Hex, Pow16;
    assert (before + Hex(m))[|before|..] == Hex(m) && (before + Hex(n))[|before|..] == Hex(n);
  }

  lemma SixteenToEight()
    ensures Pow16(8) == 0x1_0000_0000
  {
    assert Pow16(4) == 0x1_0000;
  }

  lemma LongSame(before: string)
    requires |before| > 247
    ensures Truncated(before + Hex(0x1000_0000)) == Truncated(before + Hex(0x1000_0001))
  {
    HexTens(0x100_0000);
    hide Hex;
    var tens := Hex(0x100_0000);
    assert Hex(0x1000_0000) == tens + "0" && Hex(0x1000_0001) == tens + "1";
    Assoc(before, tens, "0");
    Assoc(before, tens, "1");
    CutBoth(before + tens, "0", "1");
  }

  lemma HexTens(n: nat)
    requires n == 0x100_0000
    ensures Hex(16 * n) == Hex(n) + "0" && Hex(16 * n + 1) == Hex(n) + "1" && |Hex(n)| == 7
  {
    assert Pow16(3) == 0x1000;
    assert Pow16(6) == 0x100_0000 && Pow16(7) == 0x1000_0000;
    HexLength(n, 6);
    HexLength(n, 7);
  }

  lemma CutBoth(text: string, a: string, b: string)
    requires |text| >= 255 && |a| == 1 && |b| == 1
    ensures Truncated(text + a) == Truncated(text + b)
  {
  }

  lemma ItoaPlain(n: nat)
    ensures Plain(Itoa(n))
  {
  }

  /** Every token that fits the header and was minted with at least the required
      bits verifies for its resource, colons included, within a day. */
  lemma MintedVerifies(env: Env, bits: nat, date: string, minted: int, resource: string, rand: string,
                       counter: nat, today: int)
    requires 20 <= bits <= 160
    requires Plain(date) && Plain(rand) && env.dayOf(date) == Some(minted)
    requires var token := FullToken(bits, date, resource, rand, counter);
             |token| < 256 && Small(env.sha1(token), bits)
    requires -1 <= minted - today <= 1
    ensures Truncated(FullToken(bits, date, resource, rand, counter)) == FullToken(bits, date, resource, rand, counter)
    ensures VerifyPoW(env, FullToken(bits, date, resource, rand, counter), resource, today)
  {
    var token := FullToken(bits, date, resource, rand, counter);
    hide Itoa, Hex, Small, ParseInt, VerifyPoW, TokenText;
    ItoaPlain(bits);
    ParseIntItoa(bits);
    SmallWeakens(env.sha1(token), bits, POW_BITS);
    FieldsVerify(env, Itoa(bits), date, resource, rand, Hex(counter), today);
  }

  lemma FieldsVerify(env: Env, bits: string, date: string, resource: string, rand: string, counter: string, today: int)
    requires Plain(bits) && Plain(date) && Plain(rand) && Plain(counter)
    requires ParseInt(bits).Some? && ParseInt(bits).value >= 20
    requires env.dayOf(date).Some? && -1 <= env.dayOf(date).value - today <= 1
    requires var token := TokenText(bits, date, resource, "", rand, counter); |token| <= 256 && Small(env.sha1(token), POW_BITS)
    ensures VerifyPoW(env, TokenText(bits, date, resource, "", rand, counter), resource, today)
  {
    hide TokenText, Small, ParseInt, Split, Middle;
    TokenMiddle(bits, date, resource, "", rand, counter);
  }

  /******* The Worker's verifier *******/

  /** Do these bytes come next? */
  predicate Heads(s: string, bytes: seq<int>) {
    |bytes| <= |s| && forall i :: 0 <= i < |bytes| ==> s[i] as int == bytes[i]
  }

  /** Bytes of the white space JavaScript skips, when a text starts with one: the
      ASCII ones, then the ones Unicode adds, in UTF-8. */
  function White(s: string): (n: nat)
    ensures n <= |s|
    ensures n > 0 ==> s[0] in " \t\n\r" || s[0] as int in {0x0B, 0x0C, 0xC2, 0xE1, 0xE2, 0xE3, 0xEF}
  {
    if s == "" then 0
    else if s[0] in " \t\n\r" || s[0] as int in {0x0B, 0x0C} then 1
    else if Heads(s, [0xC2, 0xA0]) then 2
    else if Heads(s, [0xE1, 0x9A, 0x80]) || Heads(s, [0xE2, 0x81, 0x9F]) || Heads(s, [0xE3, 0x80, 0x80])
         || Heads(s, [0xEF, 0xBB, 0xBF]) then 3
    else if Heads(s, [0xE2, 0x80]) && |s| >= 3
         && (0x80 <= s[2] as int <= 0x8A || s[2] as int in {0xA8, 0xA9, 0xAF}) then 3
    else 0
  }

  /** The code points JavaScript takes for white space. */
  predicate JsSpace(cp: int) {
    9 <= cp <= 13 || cp == 0x20 || cp == 0xA0 || cp == 0x1680 || 0x2000 <= cp <= 0x200A || cp == 0x2028 || cp == 0x2029
    || cp == 0x202F || cp == 0x205F || cp == 0x3000 || cp == 0xFEFF
  }

  lemma WhiteIsSpace(cp: int, rest: string)
    requires Utf8.Scalar(cp)
    ensures White(Utf8.Encoded(cp) + rest) == if JsSpace(cp) then |Utf8.Encode(cp)| else 0
  {
    var e, s := Utf8.Encode(cp), Utf8.Encoded(cp) + rest;
    assert forall i :: 0 <= i < |e| ==> s[i] as int == e[i];
    hide Utf8.Encoded;
    if cp < 0x80 {
      assert s[0] as int == cp;
    } else if cp < 0x800 {
      assert s[0] as int == 0xC0 + cp / 64 && s[1] as int == 0x80 + cp % 64;
    } else if cp < 0x1_0000 {
      assert s[0] as int == 0xE0 + cp / 4096 && s[1] as int == 0x80 + cp / 64 % 64 && s[2] as int == 0x80 + cp % 64;
    } else {
      assert s[0] as int >= 0xF0;
    }
  }

  function SkipSpaces(s: string): string
    decreases |s|
  {
    if White(s) == 0 then s else SkipSpaces(s[White(s)..])
  }

  function DigitRun(s: string): (n: nat)
    ensures n <= |s| && AllDigits(s[..n])
    ensures n < |s| ==> !IsDigit(s[n])
  {
    if s == "" || !IsDigit(s[0]) then 0
    else
      var n := DigitRun(s[1..]);
      assert s[..1 + n] == [s[0]] + s[1..][..n];
      1 + n
  }

  /** JavaScript's `parseInt(s, 10)`, `None` for NaN: leading spaces and any text
      after the digits are ignored. */
  function JsParseInt(s: string): Option<int> {
    var s := SkipSpaces(s);
    var negative := s != "" && s[0] == '-';
    var s := if s != "" && (s[0] == '-' || s[0] == '+') then s[1..] else s;
    var n := DigitRun(s);
    if n == 0 then None
    else
      var v: int := DigitsValue(s[..n]);
      Some(if negative then -v else v)
  }

  predicate Follows(c: char) { 0x80 <= c as int < 0xC0 }

  /** Length of a UTF-8 text as JavaScript counts it, in UTF-16 code units: one for
      most characters, two for one of four bytes. A byte that fits nowhere counts
      as one. */
  function Units(s: string): (n: nat)
    ensures n <= |s|
    decreases |s|
  {
    if s == "" then 0
    else if 0xF0 <= s[0] as int < 0xF8 && |s| >= 4 && Follows(s[1]) && Follows(s[2]) && Follows(s[3]) then
      2 + Units(s[4..])
    else if 0xE0 <= s[0] as int < 0xF0 && |s| >= 3 && Follows(s[1]) && Follows(s[2]) then 1 + Units(s[3..])
    else if 0xC2 <= s[0] as int < 0xE0 && |s| >= 2 && Follows(s[1]) then 1 + Units(s[2..])
    else 1 + Units(s[1..])
  }

  /** Code points from 2^16 up take two units, all others one. */
  lemma UnitsOfCodePoint(cp: int, rest: string)
    requires Utf8.Scalar(cp)
    ensures Units(Utf8.Encoded(cp) + rest) == (if cp >= 0x1_0000 then 2 else 1) + Units(rest)
  {
    var e, s := Utf8.Encoded(cp), Utf8.Encoded(cp) + rest;
    assert forall i :: 0 <= i < |e| ==> s[i] as int == Utf8.Encode(cp)[i];
    assert s[|e|..] == rest;
  }

  /** The Worker's `verifyPoW`. It measures the token in code units. */
  predicate WorkerVerifyPoW(env: Env, token: string, resource: string, today: int) {
    && Units(token) <= MAX_POW_LEN
    && var parts := Split(token, ':');
       && |parts| >= 7 && parts[0] == "1"
       && JsParseInt(parts[1]).Some? && JsParseInt(parts[1]).value >= POW_BITS
       && Middle(parts) == resource
       && FreshDate(env, parts[2], today)
       && Small(env.sha1(token), POW_BITS)
  }

  lemma JsReadsWhatGoReads(s: string)
    requires ParseInt(s).Some?
    ensures JsParseInt(s) == ParseInt(s)
  {
    assert IsDigit(s[0]) || s[0] == '-' || s[0] == '+';
    assert SkipSpaces(s) == s;
    hide White, SkipSpaces;
    var digits := if s[0] == '-' || s[0] == '+' then s[1..] else s;
    var n := DigitRun(digits);
    assert AllDigits(digits) && n == |digits|;
    assert digits[..n] == digits;
  }

  /** The Go server accepts what the Worker accepts, save for a difficulty field
      only JavaScript reads and for a token of more bytes than code units. */
  lemma ServersAgree(env: Env, token: string, resource: string, today: int)
    ensures VerifyPoW(env, token, resource, today)
       <==> && WorkerVerifyPoW(env, token, resource, today)
            && ParseInt(Split(token, ':')[1]).Some? && |token| <= MAX_POW_LEN
  {
    var parts := Split(token, ':');
    hide JsParseInt;
    if |parts| >= 7 && ParseInt(parts[1]).Some? {
      JsReadsWhatGoReads(parts[1]);
    }
  }

  /** The first exception is real: a difficulty of "20x". */
  lemma ServersDiffer(env: Env, today: int)
    requires var token := TokenText("20x", "260101", "alice", "", "r", "0");
             Small(env.sha1(token), POW_BITS) && FreshDate(env, "260101", today)
    ensures var token := TokenText("20x", "260101", "alice", "", "r", "0");
            WorkerVerifyPoW(env, token, "alice", today) && !VerifyPoW(env, token, "alice", today)
  {
    hide TokenText, Small, FreshDate, Split, Units, DigitsValue;
    TokenMiddle("20x", "260101", "alice", "", "r", "0");
    TokenLength("20x", "260101", "alice", "", "r", "0");
    TwentyXReads();
    WorkerTakes(env, "20x", "260101", "alice", "", "r", "0", today);
  }

  lemma TwentyXReads()
    ensures JsParseInt("20x") == Some(20) && ParseInt("20x").None?
  {
    assert "20x"[0] == '2' && "20x"[1] == '0' && "20x"[2] == 'x';
    TwentyXDigits();
    TwentyIsDigits();
    hide DigitRun, White, DigitsValue;
    assert SkipSpaces("20x") == "20x";
    hide SkipSpaces;
  }

  lemma TwentyXDigits()
    ensures DigitRun("20x") == 2 && "20x"[..2] == "20" && White("20x") == 0
  {
    assert "20x"[1..] == "0x" && "0x"[1..] == "x";
    assert DigitRun("x") == 0;
    assert DigitRun("0x") == 1;
  }

  /** The Worker takes a token it can measure and read. */
  lemma WorkerTakes(env: Env, bits: string, date: string, resource: string, ext: string, rand: string, counter: string,
                    today: int)
    requires Plain(bits) && Plain(date) && Plain(ext) && Plain(rand) && Plain(counter)
    requires JsParseInt(bits).Some? && JsParseInt(bits).value >= POW_BITS && FreshDate(env, date, today)
    requires var token := TokenText(bits, date, resource, ext, rand, counter);
             Units(token) <= MAX_POW_LEN && Small(env.sha1(token), POW_BITS)
    ensures WorkerVerifyPoW(env, TokenText(bits, date, resource, ext, rand, counter), resource, today)
  {
    hide TokenText, Small, FreshDate, Split, Units, JsParseInt, Middle;
    TokenMiddle(bits, date, resource, ext, rand, counter);
  }

  lemma TwentyIsDigits()
    ensures AllDigits("20") && DigitsValue("20") == 20
  {
    assert "20"[..1] == "2" && "2"[..0] == "";
  }

  /** `n` times the letter e with an acute accent, two bytes and one code unit each. */
  function Accents(n: nat): string {
    if n == 0 then "" else [0xC3 as char, 0xA9 as char] + Accents(n - 1)
  }

  lemma {:induction false} AccentUnits(n: nat, rest: string)
    ensures Units(Accents(n) + rest) == n + Units(rest) && |Accents(n)| == 2 * n && ':' !in Accents(n)
  {
    if n == 0 {
      assert Accents(0) + rest == rest;
    } else {
      AccentUnits(n - 1, rest);
      Assoc([0xC3 as char, 0xA9 as char], Accents(n - 1), rest);
      OneAccent(Accents(n - 1) + rest);
    }
  }

  lemma OneAccent(rest: string)
    ensures Units([0xC3 as char, 0xA9 as char] + rest) == 1 + Units(rest)
  {
    var s := [0xC3 as char, 0xA9 as char] + rest;
    assert s[0] as int == 0xC3 && s[1] as int == 0xA9 && s[2..] == rest;
  }

  /** In front of anything, ASCII text counts its bytes. */
  lemma {:induction false} AsciiUnits(a: string, rest: string)
    requires forall i :: 0 <= i < |a| ==> a[i] as int < 0x80
    ensures Units(a + rest) == |a| + Units(rest)
  {
    if a == "" {
      assert a + rest == rest;
    } else {
      AsciiUnits(a[1..], rest);
      assert (a + rest)[1..] == a[1..] + rest;
    }
  }

  /** And the second: with 200 accents in its random part, a token of 20 bits has
      under 256 code units and over 400 bytes. */
  lemma LongTokenDiffers(env: Env, today: int)
    requires var token := TokenText("20", "260101", "alice", "", Accents(200), "0");
             Small(env.sha1(token), POW_BITS) && FreshDate(env, "260101", today)
    ensures var token := TokenText("20", "260101", "alice", "", Accents(200), "0");
            WorkerVerifyPoW(env, token, "alice", today) && !VerifyPoW(env, token, "alice", today)
  {
    hide TokenText, Small, FreshDate, Split, Units, Accents, JsParseInt;
    AccentUnits(200, ":0");
    LongTokenUnits(Accents(200));
    TokenLength("20", "260101", "alice", "", Accents(200), "0");
    TwentyReads();
    WorkerTakes(env, "20", "260101", "alice", "", Accents(200), "0", today);
  }

  lemma TwentyReads()
    ensures JsParseInt("20") == Some(20)
  {
    TwentyIsDigits();
    hide DigitsValue;
    JsReadsWhatGoReads("20");
  }

  lemma LongTokenUnits(rand: string)
    ensures Units(TokenText("20", "260101", "alice", "", rand, "0")) == 19 + Units(rand + ":0")
  {
    var rest := rand + ":0";
    assert TokenText("20", "260101", "alice", "", rand, "0")
        == "1:20:" + ("260101:" + ("alice::" + rest));
    hide TokenText, Units;
    AsciiUnits("1:20:", "260101:" + ("alice::" + rest));
    AsciiUnits("260101:", "alice::" + rest);
    AsciiUnits("alice::", rest);
  }

  lemma TokenLength(bits: string, date: string, resource: string, ext: string, rand: string, counter: string)
    ensures |TokenText(bits, date, resource, ext, rand, counter)|
         == 7 + |bits| + |date| + |resource| + |ext| + |rand| + |counter|
  {
  }
}
