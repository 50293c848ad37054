/**
 Word wrap of UTF-8 text for the terminal (`utf8_next`, `cp_width` and
 `cli_print_word_wrap` in client/src/cli/display.c), on every byte string.
 */
module WordWrap {
  import Text
  import Utf8

  /** Text of a C string: any bytes but NUL. */
  type Byte = b: int | 0 < b < 256 witness 32

  type CText = seq<Byte>

  const SPACE: Byte := 32
  const NEWLINE: Byte := 10

  /** The byte at `p`; the terminator past the end. */
  function At(t: CText, p: nat): int { if p < |t| then t[p] else 0 }

  predicate Continuation(b: int) { 0x80 <= b < 0xC0 }

  /******* Decoding *******/

  /** Bytes the lead byte announces, and the bits it carries; none for a byte that
      cannot lead. */
  function Lead(b: Byte): (r: (nat, int))
    ensures r.0 <= 4 && (b < 0x80 <==> r.0 == 1) && r.1 >= 0
  {
    if b < 0x80 then (1, b)
    else if b < 0xC2 then (0, 0)
    else if b < 0xE0 then (2, b % 32)
    else if b < 0xF0 then (3, b % 16)
    else if b < 0xF8 then (4, b % 8)
    else (0, 0)
  }

  /** Continuation bytes `i` to `n - 1` after `p`, folded into `cp`; -1 when one is
      missing. */
  function Fold(t: CText, p: nat, i: nat, n: nat, cp: int): (r: int)
    ensures r >= 0 && i < n ==> p + n <= |t| && forall k :: p + i <= k < p + n ==> Continuation(At(t, k))
    ensures cp >= 0 ==> r >= -1
    decreases n - i
  {
    if i >= n then cp
    else if !Continuation(At(t, p + i)) then -1
    else Fold(t, p, i + 1, n, cp * 64 + At(t, p + i) % 64)
  }

  /** One code point at `p`: its value and where the next one starts. Malformed
      input is a code point 0 of one byte. */
  function Next(t: CText, p: nat): (r: (int, nat))
    requires p < |t|
    ensures p < r.1 <= |t|
    ensures r.0 >= 0
  {
    var (n, bits) := Lead(t[p]);
    var cp := Fold(t, p, 1, n, bits);
    if n == 0 || cp < 0 then (0, p + 1) else (cp, p + n)
  }

  /** `utf8_next` */
  method Utf8Next(t: CText, p: nat) returns (cp: int, next: nat)
    requires p < |t|
    ensures (cp, next) == Next(t, p)
  {
    hide Fold, Continuation;
    var b: int := t[p];
    var n: nat;
    if b < 0x80 {
      cp := b;
      n := 1;
    } else if b < 0xC2 {
      return 0, p + 1;
    } else if b < 0xE0 {
      cp := b % 32;
      n := 2;
    } else if b < 0xF0 {
      cp := b % 16;
      n := 3;
    } else if b < 0xF8 {
      cp := b % 8;
      n := 4;
    } else {
      return 0, p + 1;
    }
    assert Lead(t[p]) == (n, cp);
    hide Lead;
    var i := 1;
    while i < n
      invariant 1 <= i <= n && cp >= 0
      invariant Fold(t, p, 1, n, Lead(t[p]).1) == Fold(t, p, i, n, cp)
    {
      FoldStep(t, p, i, n, cp);
      if !Continuation(At(t, p + i)) {
        return 0, p + 1;
      }
      cp := cp * 64 + At(t, p + i) % 64;
      i := i + 1;
    }
    FoldStep(t, p, i, n, cp);
    next := p + n;
  }

  lemma FoldStep(t: CText, p: nat, i: nat, n: nat, cp: int)
    ensures Fold(t, p, i, n, cp) ==
            if i >= n then cp
            else if !Continuation(At(t, p + i)) then -1
            else Fold(t, p, i + 1, n, cp * 64 + At(t, p + i) % 64)
  {
  }

  /** How many bytes the first one announces; none for a byte that cannot be first. */
  function Announced(b: int): nat {
    if b < 0x80 then 1
    else if 0xC2 <= b <= 0xDF then 2
    else if 0xE0 <= b <= 0xEF then 3
    else if 0xF0 <= b <= 0xF7 then 4
    else 0
  }

  /** These bytes are one announced sequence. */
  predicate Sequence(e: seq<int>) {
    e != [] && |e| == Announced(e[0]) && forall i :: 1 <= i < |e| ==> 0x80 <= e[i] <= 0xBF
  }

  /** Whatever the bytes, what is read is a whole sequence, overlong or not, with the value
      of its bits, or one unreadable byte. */
  lemma ReadsBytes(t: CText, p: nat)
    requires p < |t|
    ensures var n := Announced(t[p]);
            if p + n <= |t| && n > 0 && Sequence(t[p..p + n]) then
              Next(t, p) == (Utf8.Folded(t[p..p + n], Utf8.LeadBits(t[p..p + n])), p + n)
            else Next(t, p) == (0, p + 1)
  {
    var n := Announced(t[p]);
    assert Lead(t[p]).0 == n;
    if p + n <= |t| && n > 0 {
      var e := t[p..p + n];
      assert forall i {:trigger e[i]} :: 0 <= i < n ==> e[i] == t[p + i] == At(t, p + i);
      if Sequence(e) {
        FoldFour(t, p, e, Lead(t[p]).1);
      } else {
        var i :| 1 <= i < n && !(0x80 <= e[i] <= 0xBF);
        assert !Continuation(At(t, p + i));
        BrokenSequence(t, p, n, Lead(t[p]).1);
      }
    }
  }

  lemma BrokenSequence(t: CText, p: nat, n: nat, bits: int)
    requires 0 < n <= 4 && p + n <= |t| && bits >= 0 && exists k :: p < k < p + n && !Continuation(At(t, k))
    ensures Fold(t, p, 1, n, bits) == -1
  {
    FoldStep(t, p, 1, n, bits);
    if n > 2 {
      FoldStep(t, p, 2, n, bits * 64 + At(t, p + 1) % 64);
    }
    if n > 3 {
      FoldStep(t, p, 3, n, (bits * 64 + At(t, p + 1) % 64) * 64 + At(t, p + 2) % 64);
    }
    hide Fold;
  }

  /** Well-formed text is read code point by code point. */
  lemma ReadsUtf8(t: CText, p: nat, cp: int)
    requires Utf8.Scalar(cp) && cp > 0 && p + |Utf8.Encode(cp)| <= |t|
    requires t[p..p + |Utf8.Encode(cp)|] == Utf8.Encode(cp)
    ensures Next(t, p) == (cp, p + |Utf8.Encode(cp)|)
  {
    Utf8.Reassembled(cp);
    var e := Utf8.Encode(cp);
    LeadOf(cp);
    assert forall i {:trigger e[i]} :: 0 <= i < |e| ==> t[p..p + |e|][i] == e[i];
    hide Lead, Utf8.Encode;
    assert |e| > 1 ==> t[p + 1] == e[1];
    assert |e| > 2 ==> t[p + 2] == e[2];
    assert |e| > 3 ==> t[p + 3] == e[3];
    FoldFour(t, p, e, Lead(t[p]).1);
  }

  lemma LeadOf(cp: int)
    requires Utf8.Scalar(cp) && cp > 0
    ensures var e := Utf8.Encode(cp);
            Lead(e[0]) == (|e|, Utf8.LeadBits(e)) && forall i :: 1 <= i < |e| ==> Continuation(e[i])
  {
  }

  lemma FoldFour(t: CText, p: nat, e: seq<Utf8.Byte>, bits: int)
    requires 1 <= |e| <= 4 && p + |e| <= |t| && forall i :: 1 <= i < |e| ==> Continuation(e[i]) && At(t, p + i) == e[i]
    ensures Fold(t, p, 1, |e|, bits) == Utf8.Folded(e, bits)
  {
    var n := |e|;
    FoldStep(t, p, 1, n, bits);
    if n > 1 {
      var c2 := bits * 64 + e[1] % 64;
      FoldStep(t, p, 2, n, c2);
      if n > 2 {
        var c3 := c2 * 64 + e[2] % 64;
        FoldStep(t, p, 3, n, c3);
        if n > 3 {
          FoldStep(t, p, 4, n, c3 * 64 + e[3] % 64);
        }
      }
    }
    hide Fold, At, Continuation;
  }

  predicate In(cp: int, lo: int, hi: int) { lo <= cp <= hi }

  predicate Wide(cp: int) {
    In(cp, 0x1100, 0x115F) || In(cp, 0x2329, 0x232A) || In(cp, 0x2E80, 0x303E) ||
    In(cp, 0x3040, 0x33FF) || In(cp, 0x3400, 0x4DBF) || In(cp, 0x4E00, 0xA4CF) ||
    In(cp, 0xA960, 0xA97F) || In(cp, 0xAC00, 0xD7FF) || In(cp, 0xF900, 0xFAFF) ||
    In(cp, 0xFE10, 0xFE1F) || In(cp, 0xFE30, 0xFE6F) || In(cp, 0xFF00, 0xFF60) ||
    In(cp, 0xFFE0, 0xFFE6) || In(cp, 0x1B000, 0x1B0FF) || In(cp, 0x1F004, 0x1F0CF) ||
    In(cp, 0x1F300, 0x1F9FF) || In(cp, 0x20000, 0x2FFFD) || In(cp, 0x30000, 0x3FFFD)
  }

  function CpWidth(cp: int): (w: nat)
    ensures w <= 2
  {
    if cp <= 0 then 0 else if Wide(cp) then 2 else 1
  }

  /******* Display width *******/

  /** Does decoding from `a` stop at `b`? */
  predicate OnStep(t: CText, a: nat, b: nat)
    requires a <= b <= |t|
    decreases b - a
  {
    a == b || (Next(t, a).1 <= b && OnStep(t, Next(t, a).1, b))
  }

  /** Width of the code points from `a` to `b`. */
  function Width(t: CText, a: nat, b: nat): nat
    requires a <= b <= |t|
    decreases b - a
  {
    if a == b || Next(t, a).1 > b then 0
    else CpWidth(Next(t, a).0) + Width(t, Next(t, a).1, b)
  }

  /** `utf8_display_width` of a whole string */
  function DisplayWidth(t: CText): nat { Width(t, 0, |t|) }

  lemma {:induction false} WidthSnoc(t: CText, a: nat, b: nat)
    requires a <= b < |t| && OnStep(t, a, b)
    ensures var (cp, next) := Next(t, b);
            OnStep(t, a, next) && Width(t, a, next) == Width(t, a, b) + CpWidth(cp)
    decreases b - a
  {
    var (cp, next) := Next(t, b);
    if a == b {
      assert OnStep(t, next, next) && Width(t, next, next) == 0;
    } else {
      WidthSnoc(t, Next(t, a).1, b);
    }
  }

  /** Decoding visits positions in order: the earlier of two is on the way to the
      later. */
  lemma {:induction false} StepsInOrder(t: CText, a: nat, q: nat, b: nat)
    requires a <= q <= b <= |t| && OnStep(t, a, b) && OnStep(t, a, q)
    ensures Width(t, a, q) <= Width(t, a, b)
    decreases b - a
  {
    if a < q {
      StepsInOrder(t, Next(t, a).1, q, b);
    }
  }

  /** No code point starts inside another. */
  lemma {:induction false} NoStepInside(t: CText, start: nat, a: nat, j: nat)
    requires start <= a < j && a < |t| && OnStep(t, start, a) && j < Next(t, a).1
    ensures !OnStep(t, start, j)
    decreases a - start
  {
    if start < a {
      NoStepInside(t, Next(t, start).1, a, j);
    }
  }

  lemma {:induction false} FoldInSlice(t: CText, a: nat, b: nat, k: nat, i: nat, n: nat, cp: int)
    requires a + k <= b <= |t| && 1 <= i && cp >= 0
    ensures var whole, part := Fold(t, a + k, i, n, cp), Fold(t[a..b], k, i, n, cp);
            if whole < 0 || (i < n && a + k + n > b) then part < 0 else part == whole
    decreases n - i
  {
    if i < n {
      var s := t[a..b];
      if Continuation(At(s, k + i)) {
        assert At(t, a + k + i) == At(s, k + i);
        FoldInSlice(t, a, b, k, i + 1, n, cp * 64 + At(s, k + i) % 64);
      }
    }
  }

  /** A code point that ends inside a segment reads the same in the segment alone. */
  lemma NextInSlice(t: CText, a: nat, b: nat, k: nat)
    requires a + k < b <= |t| && Next(t, a + k).1 <= b
    ensures Next(t[a..b], k) == (Next(t, a + k).0, Next(t, a + k).1 - a)
  {
    var (n, bits) := Lead(t[a + k]);
    assert t[a..b][k] == t[a + k];
    if n > 0 {
      FoldInSlice(t, a, b, k, 1, n, bits);
    }
  }

  lemma {:induction false} WidthInSlice(t: CText, a: nat, b: nat, k: nat)
    requires a + k <= b <= |t| && OnStep(t, a + k, b)
    ensures Width(t[a..b], k, b - a) == Width(t, a + k, b)
    decreases b - a - k
  {
    hide Next, CpWidth;
    if a + k < b {
      var next := Next(t, a + k).1;
      NextInSlice(t, a, b, k);
      WidthInSlice(t, a, b, next - a);
    }
  }

  /** A printed segment is as wide on its own as it is in the text. */
  lemma SegmentWidth(t: CText, a: nat, b: nat)
    requires a <= b <= |t| && OnStep(t, a, b)
    ensures DisplayWidth(t[a..b]) == Width(t, a, b)
  {
    hide Width, OnStep, Next, CpWidth;
    WidthInSlice(t, a, b, 0);
  }

  /******* Breaking lines *******/

  /** Where the first code point starts that no longer fits, from `p` with `used`
      columns taken; the end when all fit. */
  function Fit(t: CText, p: nat, used: nat, avail: nat): (q: nat)
    requires p <= |t|
    ensures p <= q <= |t|
    decreases |t| - p
  {
    if p == |t| then p
    else
      var (cp, next) := Next(t, p);
      if used + CpWidth(cp) > avail then p else Fit(t, next, used + CpWidth(cp), avail)
  }

  /** Does a space start at `j`, decoding from `start`? It need not be the byte
      32: `utf8_next` takes overlong forms too. */
  predicate SpaceStep(t: CText, start: nat, j: nat)
    requires start <= j <= |t|
  {
    j < |t| && OnStep(t, start, j) && Next(t, j).0 == SPACE
  }

  /** The last space up to and including `limit`, decoding on from `a`; `last` when
      there is none. */
  function LastSpace(t: CText, a: nat, limit: nat, last: nat): (q: nat)
    requires a <= |t|
    decreases |t| - a
  {
    if a > limit || a == |t| then last
    else
      var (cp, next) := Next(t, a);
      LastSpace(t, next, limit, if cp == SPACE then a else last)
  }

  /** `start` stands for no space at all, as a space there counts for none. */
  ghost predicate IsLastSpace(t: CText, start: nat, limit: nat, q: nat)
    requires start <= limit <= |t|
  {
    && start <= q <= limit
    && (q > start ==> SpaceStep(t, start, q))
    && forall j :: q < j <= limit ==> !SpaceStep(t, start, j)
  }

  lemma {:induction false} LastSpaceIs(t: CText, start: nat, a: nat, limit: nat, last: nat)
    requires start <= a <= |t| && limit <= |t| && OnStep(t, start, a) && start <= limit
    requires last == start || (start < last < a && last <= limit && SpaceStep(t, start, last))
    requires forall j :: last < j < a ==> !SpaceStep(t, start, j)
    ensures IsLastSpace(t, start, limit, LastSpace(t, a, limit, last))
    decreases |t| - a
  {
    hide Next, CpWidth, OnStep, Width;
    if a <= limit && a < |t| {
      var (cp, next) := Next(t, a);
      WidthSnoc(t, start, a);
      forall j | a < j < next ensures !SpaceStep(t, start, j) {
        NoStepInside(t, start, a, j);
      }
      LastSpaceIs(t, start, next, limit, if cp == SPACE then a else last);
    }
  }

  function SkipSpaces(t: CText, p: nat): (q: nat)
    requires p <= |t|
    ensures p <= q <= |t|
    ensures forall j :: p <= j < q ==> t[j] == SPACE
    ensures q < |t| ==> t[q] != SPACE
    decreases |t| - p
  {
    if p < |t| && t[p] == SPACE then SkipSpaces(t, p + 1) else p
  }

  /** A printed line, and where the next one starts. */
  datatype Line = Line(start: nat, end: nat, next: nat)

  /** The line that starts at `start`. */
  function Break(t: CText, start: nat, avail: nat): Line
    requires start < |t|
  {
    var p := Fit(t, start, 0, avail);
    if p == |t| then Line(start, p, p)
    else
      var q := LastSpace(t, start, p, start);
      if start < q <= |t| then Line(start, q, SkipSpaces(t, q)) else Line(start, p, p)
  }

  lemma FitAdvances(t: CText, start: nat, avail: nat)
    requires start < |t| && avail >= 2
    ensures Fit(t, start, 0, avail) > start
  {
    var (cp, next) := Next(t, start);
    assert Fit(t, start, 0, avail) == Fit(t, next, CpWidth(cp), avail);
  }

  /** Every line makes progress, so wrapping ends. */
  lemma BreakAdvances(t: CText, start: nat, avail: nat)
    requires start < |t| && avail >= 2
    ensures var l := Break(t, start, avail); start == l.start < l.end <= l.next <= |t|
  {
    FitAdvances(t, start, avail);
  }

  function Lines(t: CText, start: nat, avail: nat): seq<Line>
    requires start <= |t| && avail >= 2
    decreases |t| - start
  {
    if start == |t| then []
    else
      BreakAdvances(t, start, avail);
      var l := Break(t, start, avail);
      [l] + Lines(t, l.next, avail)
  }

  /******* What wrapping promises *******/

  lemma {:induction false} FitFits(t: CText, start: nat, p: nat, used: nat, avail: nat)
    requires start <= p <= |t| && OnStep(t, start, p) && Width(t, start, p) == used <= avail
    ensures var q := Fit(t, p, used, avail);
            && OnStep(t, start, q) && Width(t, start, q) <= avail
            && (q < |t| ==> Width(t, start, q) + CpWidth(Next(t, q).0) > avail)
    decreases |t| - p
  {
    hide Next, CpWidth, OnStep, Width;
    if p < |t| {
      var (cp, next) := Next(t, p);
      if used + CpWidth(cp) <= avail {
        WidthSnoc(t, start, p);
        FitFits(t, start, next, used + CpWidth(cp), avail);
      }
    }
  }

  /** A line is as long as it may be: it ends at the end of the text, or at the
      last space before the first code point that does not fit (that one
      included), or, in a word longer than a line, right before that code point. */
  ghost predicate Greedy(t: CText, l: Line, avail: nat)
    requires l.start <= l.end <= l.next <= |t|
  {
    exists p :: l.start < p <= |t| && l.end <= p && OnStep(t, l.start, p) && Width(t, l.start, p) <= avail
      && (p < |t| ==> Width(t, l.start, p) + CpWidth(Next(t, p).0) > avail)
      && (if p == |t| then l.end == l.next == p
          else if exists j :: l.start < j <= p && SpaceStep(t, l.start, j) then
            && IsLastSpace(t, l.start, p, l.end) && (l.next < |t| ==> t[l.next] != SPACE)
          else l.end == l.next == p)
  }

  /** One line: not empty, not wider than the room, followed by spaces only, and
      broken where it has to be. */
  ghost predicate GoodLine(t: CText, l: Line, avail: nat) {
    && l.start < l.end <= l.next <= |t|
    && DisplayWidth(t[l.start..l.end]) <= avail
    && (forall j :: l.end <= j < l.next ==> t[j] == SPACE)
    && Greedy(t, l, avail)
  }

  lemma BreakIsGood(t: CText, start: nat, avail: nat)
    requires start < |t| && avail >= 2
    ensures GoodLine(t, Break(t, start, avail), avail)
  {
    var l, p := Break(t, start, avail), Fit(t, start, 0, avail);
    BreakAdvances(t, start, avail);
    FitAdvances(t, start, avail);
    FitFits(t, start, start, 0, avail);
    LastSpaceIs(t, start, start, p, start);
    StepsInOrder(t, start, l.end, p);
    SegmentWidth(t, start, l.end);
    hide Fit, LastSpace, OnStep, Width, Next, DisplayWidth, CpWidth;
    assert Greedy(t, l, avail);
  }

  predicate InText(t: CText, lines: seq<Line>) {
    forall l :: l in lines ==> l.start <= l.end <= l.next <= |t|
  }

  /** The lines cover the text: each starts where the one before left off. */
  predicate Covers(t: CText, from: nat, lines: seq<Line>)
    decreases |lines|
  {
    if lines == [] then from == |t|
    else lines[0].start == from && Covers(t, lines[0].next, lines[1..])
  }

  lemma {:induction false} LinesAreGood(t: CText, start: nat, avail: nat)
    requires start <= |t| && avail >= 2
    ensures Covers(t, start, Lines(t, start, avail))
    ensures forall l :: l in Lines(t, start, avail) ==> GoodLine(t, l, avail)
    decreases |t| - start
  {
    if start < |t| {
      var l := Break(t, start, avail);
      BreakAdvances(t, start, avail);
      BreakIsGood(t, start, avail);
      LinesAreGood(t, l.next, avail);
      assert Lines(t, start, avail) == [l] + Lines(t, l.next, avail);
      hide Break, GoodLine, Lines;
    }
  }

  lemma {:induction false} LinesInText(t: CText, start: nat, avail: nat)
    requires start <= |t| && avail >= 2
    ensures InText(t, Lines(t, start, avail))
    decreases |t| - start
  {
    if start < |t| {
      BreakAdvances(t, start, avail);
      LinesInText(t, Break(t, start, avail).next, avail);
      hide Break;
    }
  }

  /** The text put together again from the lines and the spaces after each. */
  function Rejoined(t: CText, lines: seq<Line>): CText
    requires InText(t, lines)
  {
    if lines == [] then []
    else t[lines[0].start..lines[0].end] + t[lines[0].end..lines[0].next] + Rejoined(t, lines[1..])
  }

  lemma {:induction false} CoversRejoins(t: CText, from: nat, lines: seq<Line>)
    requires from <= |t| && Covers(t, from, lines) && InText(t, lines)
    ensures Rejoined(t, lines) == t[from..]
    decreases |lines|
  {
    if lines != [] {
      var l := lines[0];
      assert l in lines;
      CoversRejoins(t, l.next, lines[1..]);
      assert t[from..] == t[l.start..l.end] + t[l.end..l.next] + t[l.next..];
    }
  }

  /** Nothing but runs of spaces at the breaks is lost, on any byte string. */
  lemma WrapKeepsText(t: CText, avail: nat)
    requires avail >= 2
    ensures forall l :: l in Lines(t, 0, avail) ==> GoodLine(t, l, avail)
    ensures InText(t, Lines(t, 0, avail)) && Rejoined(t, Lines(t, 0, avail)) == t
  {
    LinesAreGood(t, 0, avail);
    LinesInText(t, 0, avail);
    hide GoodLine, Lines;
    CoversRejoins(t, 0, Lines(t, 0, avail));
    assert t[0..] == t;
  }

  /******* Printing *******/

  function Spaces(n: nat): (s: CText)
    ensures |s| == n
  {
    seq(n, _ => SPACE)
  }

  /** What is printed between these lines and the next. */
  function Gap(lines: seq<Line>, indent: nat): CText {
    if lines == [] then [] else [NEWLINE] + Spaces(indent)
  }

  /** Lines with a newline and the indent between them. */
  function Layout(t: CText, indent: nat, lines: seq<Line>): CText
    requires InText(t, lines)
  {
    if lines == [] then []
    else if |lines| == 1 then t[lines[0].start..lines[0].end]
    else t[lines[0].start..lines[0].end] + [NEWLINE] + Spaces(indent) + Layout(t, indent, lines[1..])
  }

  lemma {:induction false} LayoutSnoc(t: CText, indent: nat, lines: seq<Line>, l: Line)
    requires InText(t, lines) && l.start <= l.end <= l.next <= |t|
    ensures InText(t, lines + [l])
    ensures Layout(t, indent, lines + [l])
         == Layout(t, indent, lines) + Gap(lines, indent) + t[l.start..l.end]
  {
    if lines == [] {
      assert [] + [l] == [l];
    } else if |lines| == 1 {
      assert (lines + [l])[1..] == [l];
    } else {
      assert (lines + [l])[1..] == lines[1..] + [l];
      LayoutSnoc(t, indent, lines[1..], l);
      hide Spaces, Gap;
    }
  }

  /******* Overlong spaces *******/

  const LETTER: Byte := 97

  function Letters(n: nat): CText { seq(n, _ => LETTER) }

  /** A word, the space in three bytes where one would do, and two letters more. */
  function OverlongText(n: nat): CText { Letters(n) + [0xE0, 0x80, 0xA0] + Letters(2) }

  lemma LetterNext(t: CText, p: nat)
    requires p < |t| && t[p] == LETTER
    ensures Next(t, p) == (LETTER, p + 1) && CpWidth(LETTER) == 1
  {
  }

  lemma OverlongNext(t: CText, p: nat)
    requires p + 3 <= |t| && t[p] == 0xE0 && t[p + 1] == 0x80 && t[p + 2] == 0xA0
    ensures Next(t, p) == (SPACE, p + 3) && CpWidth(SPACE) == 1
  {
    FoldStep(t, p, 1, 3, 0);
    FoldStep(t, p, 2, 3, 0);
    FoldStep(t, p, 3, 3, 32);
  }

  lemma {:induction false} FitLetters(t: CText, k: nat, n: nat, used: nat, avail: nat)
    requires k <= n <= |t| && (forall j :: k <= j < n ==> t[j] == LETTER) && used + (n - k) <= avail
    ensures Fit(t, k, used, avail) == Fit(t, n, used + (n - k), avail)
    decreases n - k
  {
    if k < n {
      LetterNext(t, k);
      FitLetters(t, k + 1, n, used + 1, avail);
    }
  }

  lemma {:induction false} NoSpaceInLetters(t: CText, k: nat, n: nat, limit: nat, last: nat)
    requires k <= n <= limit && n <= |t| && forall j :: k <= j < n ==> t[j] == LETTER
    ensures LastSpace(t, k, limit, last) == LastSpace(t, n, limit, last)
    decreases n - k
  {
    if k < n {
      LetterNext(t, k);
      NoSpaceInLetters(t, k + 1, n, limit, last);
    }
  }

  /** `utf8_next` reads the overlong form as a space and the line breaks there; it
      is not dropped as a space would be, so the next line starts with it. */
  lemma BreaksAtOverlong(n: nat)
    requires n >= 1
    ensures var t := OverlongText(n);
            && Next(t, n) == (SPACE, n + 3) && t[n] != SPACE
            && Break(t, 0, n + 1) == Line(0, n, n)
  {
    var t, avail := OverlongText(n), n + 1;
    assert t[n] == 0xE0 && t[n + 1] == 0x80 && t[n + 2] == 0xA0 && t[n + 3] == LETTER && |t| == n + 5;
    assert forall j :: 0 <= j < n ==> t[j] == LETTER;
    hide OverlongText, Letters;
    OverlongNext(t, n);
    LetterNext(t, n + 3);
    FitLetters(t, 0, n, 0, avail);
    hide Next, CpWidth;
    FitStep(t, n, n, avail);
    FitStep(t, n + 3, n + 1, avail);
    NoSpaceInLetters(t, 0, n, n + 3, 0);
    LastSpaceStep(t, n, n + 3, 0);
    LastSpaceStep(t, n + 3, n + 3, n);
    hide Fit, LastSpace;
  }

  function Abs(n: int): nat { if n < 0 then -n else n }

  lemma FitStep(t: CText, p: nat, used: nat, avail: nat)
    requires p < |t|
    ensures var (cp, next) := Next(t, p);
            Fit(t, p, used, avail) == if used + CpWidth(cp) > avail then p else Fit(t, next, used + CpWidth(cp), avail)
  {
  }

  lemma FitEnd(t: CText, used: nat, avail: nat)
    ensures Fit(t, |t|, used, avail) == |t|
  {
  }

  lemma NoWidth()
    ensures CpWidth(0) == 0
  {
  }

  /** Past the limit nothing counts. */
  lemma LastSpaceStep(t: CText, p: nat, limit: nat, last: nat)
    requires p < |t| && p <= limit
    ensures var (cp, next) := Next(t, p);
            LastSpace(t, p, limit, last)
            == if p == limit then (if cp == SPACE then p else last)
               else LastSpace(t, next, limit, if cp == SPACE then p else last)
  {
  }

  lemma LastSpaceEnd(t: CText, limit: nat, last: nat)
    ensures LastSpace(t, |t|, limit, last) == last
  {
  }

  lemma SkipStep(t: CText, p: nat)
    requires p <= |t|
    ensures SkipSpaces(t, p) == if p < |t| && t[p] == SPACE then SkipSpaces(t, p + 1) else p
  {
  }

  /** One line of the loop: scans up to the first code point that does not fit and
      chooses the break. */
  method ScanLine(t: CText, lineStart: nat, avail: nat) returns (l: Line)
    requires lineStart < |t| && avail >= 2
    ensures l == Break(t, lineStart, avail)
  {
    hide Fit, LastSpace, Next, SkipSpaces, CpWidth;
    var p, safeCut := lineStart, lineStart;
    var accum: nat := 0;
    var haveSpace, lastSpace := false, lineStart;
    ghost var limit := Fit(t, lineStart, 0, avail);
    ghost var q := LastSpace(t, lineStart, limit, lineStart);
    var full := false;
    while p < |t| && !full
      invariant lineStart <= p == safeCut <= limit <= |t| && lineStart <= lastSpace <= p
      invariant limit == if full then p else Fit(t, p, accum, avail)
      invariant !haveSpace ==> lastSpace == lineStart
      invariant q == if full then lastSpace else LastSpace(t, p, limit, lastSpace)
      decreases |t| - p, !full
    {
      var before := p;
      FitStep(t, p, accum, avail);
      LastSpaceStep(t, p, limit, lastSpace);
      var cp, next := Utf8Next(t, p);
      if cp == SPACE {
        haveSpace, lastSpace := true, before;
      }
      var cw := if cp > 0 then CpWidth(cp) else 0;
      NoWidth();
      if accum + cw > avail {
        full := true;
      } else {
        p := next;
        accum := accum + cw;
        safeCut := p;
      }
    }
    FitEnd(t, accum, avail);
    LastSpaceEnd(t, limit, lastSpace);
    if p == |t| {
      return Line(lineStart, safeCut, p);
    }
    if haveSpace && lastSpace > lineStart {
      var skip := lastSpace;
      while skip < |t| && t[skip] == SPACE
        invariant lastSpace <= skip <= |t|
        invariant SkipSpaces(t, lastSpace) == SkipSpaces(t, skip)
      {
        SkipStep(t, skip);
        skip := skip + 1;
      }
      SkipStep(t, skip);
      return Line(lineStart, lastSpace, skip);
    }
    return Line(lineStart, safeCut, safeCut);
  }

  /** `cli_print_word_wrap`: the bytes it prints. */
  method PrintWordWrap(t: CText, indent: int, width: int) returns (out: CText)
    ensures var lines := Lines(t, 0, if width - indent < 20 then 20 else width - indent);
            InText(t, lines) && out == Layout(t, Abs(indent), lines) + [NEWLINE]
  {
    var avail := width - indent;
    if avail < 20 {
      avail := 20;
    }
    LinesInText(t, 0, avail);
    ghost var all := Lines(t, 0, avail);
    hide Break, Layout, Lines, InText, Gap, Spaces;
    out := [];
    ghost var done: seq<Line> := [];
    assert out == Layout(t, Abs(indent), done) by { LayoutNothing(t, Abs(indent)); }
    var first, p := true, 0;
    while p < |t|
      invariant 0 <= p <= |t|
      invariant done + Lines(t, p, avail) == all && InText(t, done)
      invariant first <==> done == []
      invariant out == Layout(t, Abs(indent), done)
      decreases |t| - p
    {
      ghost var before := out;
      GapIs(done, Abs(indent));
      if !first {
        out := out + ([NEWLINE] + Spaces(Abs(indent)));
      }
      first := false;
      assert out == before + Gap(done, Abs(indent));
      PrintStep(t, Abs(indent), done, p, avail);
      var l := ScanLine(t, p, avail);
      out := out + t[l.start..l.end];
      done := done + [l];
      p := l.next;
    }
    LinesEnd(t, avail);
    assert done + [] == done;
    out := out + [NEWLINE];
  }

  /******* What is on the terminal *******/

  /** The rows of a text, split at its newlines. */
  function Rows(s: CText): (rows: seq<CText>)
    ensures |rows| >= 1
  {
    if s == [] then [[]]
    else
      var more := Rows(s[1..]);
      if s[0] == NEWLINE then [[]] + more else [[s[0]] + more[0]] + more[1..]
  }

  lemma {:induction false} RowsPrefix(a: CText, b: CText)
    requires NEWLINE !in a
    ensures Rows(a + b) == [a + Rows(b)[0]] + Rows(b)[1..]
  {
    if a == [] {
      assert a + b == b && a + Rows(b)[0] == Rows(b)[0];
    } else {
      RowsPrefix(a[1..], b);
      assert (a + b)[0] == a[0] && (a + b)[1..] == a[1..] + b;
      assert [a[0]] + (a[1..] + Rows(b)[0]) == a + Rows(b)[0];
    }
  }

  lemma RowsNewline(b: CText)
    ensures Rows([NEWLINE] + b) == [[]] + Rows(b)
  {
    assert ([NEWLINE] + b)[1..] == b;
  }

  lemma RowsNext(first: CText, indent: nat, rest: CText)
    requires NEWLINE !in first
    ensures Rows(first + ([NEWLINE] + (Spaces(indent) + rest))) == [first] + ([Spaces(indent) + Rows(rest)[0]] + Rows(rest)[1..])
  {
    assert NEWLINE !in Spaces(indent);
    hide Rows, Spaces;
    RowsPrefix(Spaces(indent), rest);
    RowsNewline(Spaces(indent) + rest);
    RowsPrefix(first, [NEWLINE] + (Spaces(indent) + rest));
    assert first + [] == first;
  }

  lemma LastRow(first: CText)
    requires NEWLINE !in first
    ensures Rows(first + [NEWLINE]) == [first] + [[]]
  {
    RowsPrefix(first, [NEWLINE]);
    RowsNewline([]);
    assert [NEWLINE] + [] == [NEWLINE] && first + [] == first;
  }

  /** The row a line is printed in: all but the first come after the indent. */
  function RowOf(t: CText, indent: nat, l: Line, first: bool): CText
    requires l.start <= l.end <= |t|
  {
    (if first then [] else seq(indent, _ => 32)) + t[l.start..l.end]
  }

  /** One row for each line, and an empty one after the last newline. */
  function RowsFor(t: CText, indent: nat, lines: seq<Line>, first: bool): seq<CText>
    requires InText(t, lines)
  {
    if lines == [] then [[]]
    else
      assert lines[0] in lines;
      [RowOf(t, indent, lines[0], first)] + RowsFor(t, indent, lines[1..], false)
  }

  lemma {:induction false} RowsPrinted(t: CText, indent: nat, lines: seq<Line>)
    requires InText(t, lines) && lines != [] && NEWLINE !in t
    ensures Rows(Layout(t, indent, lines) + [NEWLINE]) == RowsFor(t, indent, lines, true)
  {
    assert lines[0] in lines;
    var first := t[lines[0].start..lines[0].end];
    assert NEWLINE !in first && RowOf(t, indent, lines[0], true) == first;
    if |lines| == 1 {
      LastRow(first);
      assert Layout(t, indent, lines) == first && RowsFor(t, indent, lines[1..], false) == [[]];
      hide Rows, Layout, RowOf;
    } else {
      LayoutCons(t, indent, lines);
      SecondRow(t, indent, lines[1]);
      hide Layout, Rows, RowOf, Spaces;
      var rest := Layout(t, indent, lines[1..]) + [NEWLINE];
      RowsPrinted(t, indent, lines[1..]);
      RowsNext(first, indent, rest);
      assert Rows(rest)[0] == RowOf(t, indent, lines[1], true) && Rows(rest)[1..] == RowsFor(t, indent, lines[1..][1..], false);
    }
  }

  lemma LayoutCons(t: CText, indent: nat, lines: seq<Line>)
    requires InText(t, lines) && |lines| > 1
    ensures lines[0].start <= lines[0].end <= |t|
    ensures Layout(t, indent, lines) + [NEWLINE]
         == t[lines[0].start..lines[0].end] + ([NEWLINE] + (Spaces(indent) + (Layout(t, indent, lines[1..]) + [NEWLINE])))
  {
    assert lines[0] in lines;
    var a, b, c := t[lines[0].start..lines[0].end], Spaces(indent), Layout(t, indent, lines[1..]);
    hide Spaces, InText;
    assert Layout(t, indent, lines) == a + [NEWLINE] + b + c;
    hide Layout;
    Text.Assoc(a + [NEWLINE] + b, c, [NEWLINE]);
    Text.Assoc(a + [NEWLINE], b, c + [NEWLINE]);
    Text.Assoc(a, [NEWLINE], b + (c + [NEWLINE]));
  }

  lemma {:induction false} RowsForAt(t: CText, indent: nat, lines: seq<Line>, first: bool)
    requires InText(t, lines)
    ensures |RowsFor(t, indent, lines, first)| == |lines| + 1 && RowsFor(t, indent, lines, first)[|lines|] == []
    ensures forall i :: 0 <= i < |lines| ==>
              lines[i].start <= lines[i].end <= |t|
              && RowsFor(t, indent, lines, first)[i] == RowOf(t, indent, lines[i], first && i == 0)
  {
    hide RowOf;
    if lines != [] {
      RowsForAt(t, indent, lines[1..], false);
      assert lines[0] in lines;
      forall i | 0 < i < |lines|
        ensures lines[i].start <= lines[i].end <= |t|
                && RowsFor(t, indent, lines, first)[i] == RowOf(t, indent, lines[i], false)
      {
        assert lines[1..][i - 1] == lines[i];
      }
    }
  }

  /** Text without newlines of its own is printed a row for each line, and a newline
      after the last. */
  lemma PrintedRows(t: CText, indent: nat, lines: seq<Line>)
    requires InText(t, lines) && lines != [] && NEWLINE !in t
    ensures var rows := Rows(Layout(t, indent, lines) + [NEWLINE]);
            && |rows| == |lines| + 1 && rows[|lines|] == []
            && forall i :: 0 <= i < |lines| ==>
                 lines[i].start <= lines[i].end <= |t|
                 && rows[i] == (if i == 0 then [] else seq(indent, _ => 32)) + t[lines[i].start..lines[i].end]
  {
    RowsPrinted(t, indent, lines);
    RowsForAt(t, indent, lines, true);
    hide Rows, Layout, RowsFor;
  }

  lemma SecondRow(t: CText, indent: nat, l: Line)
    requires l.start <= l.end <= |t|
    ensures Spaces(indent) + RowOf(t, indent, l, true) == RowOf(t, indent, l, false)
  {
  }

  /** Columns on the terminal: none for what cannot be read, two for most East Asian text
      and emoji, one for the rest. */
  lemma WidthOf(cp: int)
    ensures cp <= 0 ==> CpWidth(cp) == 0
    ensures 0 < cp < 0x1100 ==> CpWidth(cp) == 1
    ensures 0xFF61 <= cp <= 0xFFDF ==> CpWidth(cp) == 1
    ensures 0x3041 <= cp <= 0x30FF ==> CpWidth(cp) == 2
    ensures 0x4E00 <= cp <= 0x9FFF ==> CpWidth(cp) == 2
    ensures 0xAC00 <= cp <= 0xD7A3 ==> CpWidth(cp) == 2
    ensures 0xFF01 <= cp <= 0xFF60 ==> CpWidth(cp) == 2
    ensures 0x1F300 <= cp <= 0x1F9FF ==> CpWidth(cp) == 2
    ensures 0x20000 <= cp <= 0x2FFFD ==> CpWidth(cp) == 2
  {
  }

  lemma LinesCons(t: CText, start: nat, avail: nat)
    requires start < |t| && avail >= 2
    ensures Break(t, start, avail).next <= |t|
    ensures Lines(t, start, avail) == [Break(t, start, avail)] + Lines(t, Break(t, start, avail).next, avail)
  {
    BreakAdvances(t, start, avail);
  }

  lemma GapIs(done: seq<Line>, indent: nat)
    ensures Gap(done, indent) == if done == [] then [] else [NEWLINE] + Spaces(indent)
  {
  }

  /** Printing one more line. */
  lemma PrintStep(t: CText, indent: nat, done: seq<Line>, p: nat, avail: nat)
    requires p < |t| && avail >= 2 && InText(t, done)
    ensures var l := Break(t, p, avail);
            && p < l.next <= |t| && l.start <= l.end <= |t| && InText(t, done + [l])
            && done + Lines(t, p, avail) == (done + [l]) + Lines(t, l.next, avail)
            && Layout(t, indent, done + [l]) == Layout(t, indent, done) + Gap(done, indent) + t[l.start..l.end]
  {
    hide Break, Layout, Lines, InText, Gap;
    var l := Break(t, p, avail);
    BreakAdvances(t, p, avail);
    LinesCons(t, p, avail);
    LayoutSnoc(t, indent, done, l);
    Text.Assoc(done, [l], Lines(t, l.next, avail));
  }

  lemma LinesEnd(t: CText, avail: nat)
    requires avail >= 2
    ensures Lines(t, |t|, avail) == []
  {
  }

  lemma LayoutNothing(t: CText, indent: nat)
    ensures Layout(t, indent, []) == []
  {
  }
}
