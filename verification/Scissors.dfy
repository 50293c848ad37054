/**
 The reply editor's scissors line (`with_scissors` and `after_scissors` in
 client/src/cli/main.c): the answered mail and the draft share one buffer, and
 everything above the line is dropped again.
 */
module Scissors {
  import Text

  const DASHES := "------------------------"
  const SCISSORS := "# " + DASHES + " >8 " + DASHES
  const NOTE_LINE1 := "# Do not modify or remove the scissors line."
  const NOTE_LINE2 := "# Everything above it will be ignored."
  const NOTE := NOTE_LINE1 + "\n" + NOTE_LINE2 + "\n"

  const NUL: char := 0 as char

  /** A C string's text: no NUL inside. */
  predicate CString(s: string) { NUL !in s }

  /** `strncmp(line, SCISSORS, strlen(SCISSORS)) == 0` */
  predicate StartsWithScissors(line: string) {
    |SCISSORS| <= |line| && line[..|SCISSORS|] == SCISSORS
  }

  /** Position of the first newline, or the end (`strchr`). */
  function LineEnd(s: string): (n: nat)
    ensures n <= |s|
    ensures forall i :: 0 <= i < n ==> s[i] != '\n'
    ensures n < |s| ==> s[n] == '\n'
  {
    if s == "" || s[0] == '\n' then 0 else 1 + LineEnd(s[1..])
  }

  /** What follows the first line of a text. */
  function Rest(s: string): (r: string)
    ensures |r| <= |s| && (s != "" ==> |r| < |s|)
  {
    var n := LineEnd(s);
    if n < |s| then s[n + 1..] else ""
  }

  /** The answered mail as it is quoted: every line ends in a newline, and one
      that looks like the scissors line is pushed aside. */
  function Quoted(orig: string): string
    decreases |orig|
  {
    if orig == "" then "" else QuotedLine(orig) + "\n" + Quoted(Rest(orig))
  }

  /** The first line of a text, with its mark if it needs one. */
  function QuotedLine(orig: string): string {
    (if StartsWithScissors(orig) then " " else "") + orig[..LineEnd(orig)]
  }

  function Tail(initial: string): string { "\n" + NOTE + SCISSORS + "\n" + initial }

  /** The text the editor gets. */
  function WithText(initial: string, orig: string): string { Quoted(orig) + Tail(initial) }

  /** The text after the first scissors line, if there is one. */
  function AfterText(s: string): (r: (bool, string))
    decreases |s|
  {
    if s == "" then (false, "")
    else if StartsWithScissors(s) then (true, Rest(s))
    else AfterText(Rest(s))
  }

  /******* Round trip *******/

  lemma LineEndOf(line: string, rest: string)
    requires '\n' !in line
    ensures LineEnd(line + "\n" + rest) == |line| && Rest(line + "\n" + rest) == rest
  {
    var s := line + "\n" + rest;
    assert s[|line|] == '\n';
    assert forall i :: 0 <= i < |line| ==> s[i] == line[i];
    assert s[|line| + 1..] == rest;
  }

  /** A line that is not a scissors line is skipped. */
  lemma SkipLine(line: string, rest: string)
    requires '\n' !in line && !StartsWithScissors(line)
    ensures AfterText(line + "\n" + rest) == AfterText(rest)
  {
    LineEndOf(line, rest);
    NoScissorsAcross(line, rest);
  }

  /** The scissors line has no newline in it, so only the line itself matters. */
  lemma NoScissorsAcross(line: string, rest: string)
    requires '\n' !in line
    ensures StartsWithScissors(line + "\n" + rest) <==> StartsWithScissors(line)
  {
    var s := line + "\n" + rest;
    assert '\n' !in SCISSORS;
    if |line| < |SCISSORS| {
      assert |SCISSORS| <= |s| ==> s[..|SCISSORS|][|line|] == '\n';
    } else {
      assert s[..|SCISSORS|] == line[..|SCISSORS|];
    }
  }

  lemma ScissorsLine(rest: string)
    ensures AfterText(SCISSORS + "\n" + rest) == (true, rest)
  {
    var s := SCISSORS + "\n" + rest;
    LineEndOf(SCISSORS, rest);
    assert s[..|SCISSORS|] == SCISSORS;
  }

  lemma TailRoundTrip(initial: string)
    ensures AfterText(Tail(initial)) == (true, initial)
  {
    var t1 := SCISSORS + "\n" + initial;
    var t2 := NOTE_LINE2 + "\n" + t1;
    var t3 := NOTE_LINE1 + "\n" + t2;
    TailLines(initial);
    NoteIsNoScissors();
    hide AfterText, StartsWithScissors;
    SkipLine("", t3);
    SkipLine(NOTE_LINE1, t2);
    SkipLine(NOTE_LINE2, t1);
    ScissorsLine(initial);
  }

  lemma NoteIsNoScissors()
    ensures '\n' !in NOTE_LINE1 && !StartsWithScissors(NOTE_LINE1)
    ensures '\n' !in NOTE_LINE2 && !StartsWithScissors(NOTE_LINE2)
    ensures !StartsWithScissors("")
  {
    NoteLine1Chars();
    NoteLine2Chars();
    NoDashNoScissors(NOTE_LINE1);
    NoDashNoScissors(NOTE_LINE2);
    hide StartsWithScissors;
    NoDashNoScissors("");
  }

  lemma NoteLine1Chars()
    ensures |NOTE_LINE1| > 2 && NOTE_LINE1[2] == 'D' && '\n' !in NOTE_LINE1 && NUL !in NOTE_LINE1
  {
    assert forall i :: 0 <= i < |NOTE_LINE1| ==> NOTE_LINE1[i] >= ' ';
  }

  lemma NoteLine2Chars()
    ensures |NOTE_LINE2| > 2 && NOTE_LINE2[2] == 'E' && '\n' !in NOTE_LINE2 && NUL !in NOTE_LINE2
  {
    assert forall i :: 0 <= i < |NOTE_LINE2| ==> NOTE_LINE2[i] >= ' ';
  }

  lemma NoDashNoScissors(line: string)
    requires |line| > 2 ==> line[2] != '-'
    ensures !StartsWithScissors(line)
  {
    assert SCISSORS[2] == '-';
    assert |SCISSORS| <= |line| ==> line[..|SCISSORS|][2] == line[2];
  }

  lemma TailLines(initial: string)
    ensures Tail(initial)
         == "" + "\n" + (NOTE_LINE1 + "\n" + (NOTE_LINE2 + "\n" + (SCISSORS + "\n" + initial)))
  {
    Regroup(NOTE_LINE1, NOTE_LINE2, SCISSORS, initial);
  }

  lemma Regroup(a: string, b: string, c: string, d: string)
    ensures "\n" + (a + "\n" + b + "\n") + c + "\n" + d == "" + "\n" + (a + "\n" + (b + "\n" + (c + "\n" + d)))
  {
  }

  lemma {:induction false} QuotedSkipped(orig: string, tail: string)
    ensures AfterText(Quoted(orig) + tail) == AfterText(tail)
    decreases |orig|
  {
    if orig == "" {
      assert Quoted(orig) + tail == tail;
    } else {
      var rest := Rest(orig);
      var line, more := QuotedLine(orig), Quoted(rest);
      assert Quoted(orig) == line + "\n" + more;
      hide Quoted, QuotedLine, AfterText, StartsWithScissors, Rest;
      QuotedSkipped(rest, tail);
      LineMarked(orig);
      Text.Assoc(line + "\n", more, tail);
      SkipLine(line, more + tail);
    }
  }

  /** A quoted line never starts like the scissors line. */
  lemma LineMarked(orig: string)
    requires orig != ""
    ensures '\n' !in QuotedLine(orig) && !StartsWithScissors(QuotedLine(orig))
  {
    var n, line := LineEnd(orig), QuotedLine(orig);
    assert SCISSORS[0] == '#';
    if StartsWithScissors(orig) {
      assert line[0] == ' ';
      assert |SCISSORS| <= |line| ==> line[..|SCISSORS|][0] == ' ';
    } else {
      assert line == orig[..n];
      assert |SCISSORS| <= |line| ==> line[..|SCISSORS|] == orig[..|SCISSORS|];
    }
  }

  /** Whatever the answered mail holds, scissors lines included, cutting gives the
      draft back. */
  lemma RoundTrip(initial: string, orig: string)
    ensures AfterText(WithText(initial, orig)) == (true, initial)
  {
    QuotedSkipped(orig, Tail(initial));
    TailRoundTrip(initial);
  }

  /******* What is kept of the answered mail *******/

  /** Without the empty part after the last newline. */
  function Ended(parts: seq<string>): seq<string>
    requires parts != []
  {
    if parts[|parts| - 1] == "" then parts[..|parts| - 1] else parts
  }

  /** The lines of a text; the last may lack its newline. */
  function TextLines(s: string): seq<string> { Ended(Text.Split(s, '\n')) }

  predicate StartsWith(line: string, prefix: string) { |prefix| <= |line| && line[..|prefix|] == prefix }

  /** A line as the editor shows it: with a space in front exactly when it would cut. */
  function Shown(line: string): string {
    (if StartsWith(line, "# " + "------------------------" + " >8 " + "------------------------") then " " else "") + line
  }

  /** The same lines in the same order, each as it is shown, and each ended. */
  ghost predicate Shows(orig: string, above: string) {
    && (above != "" ==> above[|above| - 1] == '\n')
    && |TextLines(above)| == |TextLines(orig)|
    && forall i :: 0 <= i < |TextLines(orig)| ==> TextLines(above)[i] == Shown(TextLines(orig)[i])
  }

  lemma EndedCons(line: string, parts: seq<string>)
    requires parts != []
    ensures Ended([line] + parts) == [line] + Ended(parts)
  {
    assert ([line] + parts)[..|parts|] == [line] + parts[..|parts| - 1];
  }

  lemma FirstLine(line: string, rest: string)
    requires '\n' !in line
    ensures TextLines(line + "\n" + rest) == [line] + TextLines(rest)
  {
    Text.SplitCons(line, '\n', rest);
    hide Text.Split, Ended;
    EndedCons(line, Text.Split(rest, '\n'));
  }

  lemma LastLine(line: string)
    requires '\n' !in line
    ensures TextLines(line) == if line == "" then [] else [line]
  {
    Text.SplitNone(line, '\n');
    hide Text.Split;
  }

  lemma CutAt(s: string, n: nat)
    requires n < |s| && s[n] == '\n'
    ensures s == s[..n] + "\n" + s[n + 1..]
  {
  }

  /** A text is its first line and the rest. */
  lemma LineAndRest(s: string)
    requires s != ""
    ensures '\n' !in s[..LineEnd(s)]
    ensures if LineEnd(s) < |s| then s == s[..LineEnd(s)] + "\n" + Rest(s) else s == s[..LineEnd(s)] && Rest(s) == ""
  {
    if LineEnd(s) < |s| {
      CutAt(s, LineEnd(s));
    }
    hide LineEnd;
  }

  /** So its lines are that line and the lines of the rest. */
  lemma LinesOf(s: string)
    requires s != ""
    ensures TextLines(s) == [s[..LineEnd(s)]] + TextLines(Rest(s))
  {
    LineAndRest(s);
    hide LineEnd, Rest, TextLines;
    if LineEnd(s) < |s| {
      FirstLine(s[..LineEnd(s)], Rest(s));
    } else {
      LastLine(s);
      LastLine("");
    }
  }

  lemma ScissorsIsLine()
    ensures '\n' !in SCISSORS
  {
  }

  lemma ShownIsQuoted(orig: string)
    requires orig != ""
    ensures QuotedLine(orig) == Shown(orig[..LineEnd(orig)]) && '\n' !in QuotedLine(orig)
  {
    ScissorsIsLine();
    PrefixOfLine(orig, SCISSORS);
    hide LineEnd;
  }

  /** A prefix without newlines is one of the first line. */
  lemma PrefixOfLine(s: string, prefix: string)
    requires '\n' !in prefix
    ensures StartsWith(s, prefix) <==> StartsWith(s[..LineEnd(s)], prefix)
  {
    var n := LineEnd(s);
    if n < |prefix| <= |s| {
      assert s[..|prefix|][n] == '\n';
    } else if |prefix| <= n {
      assert s[..n][..|prefix|] == s[..|prefix|];
    }
  }

  lemma NextShows(orig: string, above: string, line: string, rest: string, first: string, more: string)
    requires TextLines(orig) == [first] + TextLines(rest) && line == Shown(first) && '\n' !in line
    requires Shows(rest, more) && above == line + "\n" + more
    ensures Shows(orig, above)
  {
    hide Shown;
    FirstLine(line, more);
    hide TextLines;
  }

  lemma {:induction false} QuotedShows(orig: string)
    ensures Shows(orig, Quoted(orig))
    decreases |orig|
  {
    if orig == "" {
      NothingShown();
    } else {
      assert Quoted(orig) == QuotedLine(orig) + "\n" + Quoted(Rest(orig));
      hide Quoted, QuotedLine, TextLines, Shown, Rest, LineEnd, Shows;
      QuotedShows(Rest(orig));
      LinesOf(orig);
      ShownIsQuoted(orig);
      NextShows(orig, Quoted(orig), QuotedLine(orig), Rest(orig), orig[..LineEnd(orig)], Quoted(Rest(orig)));
    }
  }

  lemma NothingShown()
    ensures Shows("", Quoted(""))
  {
    QuotedNothing();
    LastLine("");
    hide TextLines;
  }

  /** What stands between the answered mail and the draft. */
  lemma TailText(initial: string)
    ensures Tail(initial)
         == "\n" + "# Do not modify or remove the scissors line." + "\n" + "# Everything above it will be ignored." + "\n"
            + ("# " + "------------------------" + " >8 " + "------------------------") + "\n" + initial
  {
    FlatTail("# Do not modify or remove the scissors line.", "# Everything above it will be ignored.",
             "# " + "------------------------" + " >8 " + "------------------------", initial);
  }

  lemma FlatTail(a: string, b: string, c: string, d: string)
    ensures "\n" + (a + "\n" + b + "\n") + c + "\n" + d == "\n" + a + "\n" + b + "\n" + c + "\n" + d
  {
  }

  /** The editor gets the answered mail line by line, then a blank line, the note, the
      scissors line and the draft. */
  lemma EditorText(initial: string, orig: string)
    ensures exists above: string :: Shows(orig, above)
              && WithText(initial, orig)
                 == above
                    + ("\n" + "# Do not modify or remove the scissors line." + "\n" + "# Everything above it will be ignored."
                       + "\n" + ("# " + "------------------------" + " >8 " + "------------------------") + "\n" + initial)
  {
    QuotedShows(orig);
    TailText(initial);
    hide Quoted, Tail, Shows;
    assert WithText(initial, orig) == Quoted(orig) + Tail(initial);
  }

  /** No line of this text would cut. */
  predicate Uncut(lines: seq<string>) { forall i :: 0 <= i < |lines| ==> Shown(lines[i]) == lines[i] }

  lemma UncutRest(line: string, lines: seq<string>)
    requires Uncut([line] + lines)
    ensures Shown(line) == line && Uncut(lines)
  {
    hide Shown;
    assert ([line] + lines)[0] == line;
    forall i | 0 <= i < |lines| ensures Shown(lines[i]) == lines[i] {
      assert ([line] + lines)[i + 1] == lines[i];
    }
  }

  lemma {:induction false} UncutUnchanged(orig: string)
    requires orig != "" ==> orig[|orig| - 1] == '\n'
    requires Uncut(TextLines(orig))
    ensures Quoted(orig) == orig
    decreases |orig|
  {
    hide TextLines, LineEnd, Rest, Quoted, QuotedLine, Shown, Uncut;
    if orig == "" {
      QuotedNothing();
    } else {
      QuotedCons(orig);
      EndsInNewline(orig);
      LinesOf(orig);
      ShownIsQuoted(orig);
      UncutRest(orig[..LineEnd(orig)], TextLines(Rest(orig)));
      UncutUnchanged(Rest(orig));
    }
  }

  /** A mail of whole lines, none of which starts like the scissors line, is there byte
      for byte. */
  lemma PlainMailUnchanged(initial: string, orig: string)
    requires orig != "" ==> orig[|orig| - 1] == '\n'
    requires forall line :: line in TextLines(orig) ==>
               !StartsWith(line, "# " + "------------------------" + " >8 " + "------------------------")
    ensures |orig| <= |WithText(initial, orig)| && WithText(initial, orig)[..|orig|] == orig
    ensures WithText(initial, orig)[|orig|..] == WithText(initial, "")
  {
    hide TextLines, StartsWith, Tail;
    UncutUnchanged(orig);
    QuotedNothing();
    hide Quoted;
  }

  lemma QuotedCons(orig: string)
    requires orig != ""
    ensures Quoted(orig) == QuotedLine(orig) + "\n" + Quoted(Rest(orig))
  {
    hide QuotedLine, Rest;
  }

  lemma EndsInNewline(s: string)
    requires s != "" && s[|s| - 1] == '\n'
    ensures s == s[..LineEnd(s)] + "\n" + Rest(s) && (Rest(s) != "" ==> Rest(s)[|Rest(s)| - 1] == '\n')
  {
    assert LineEnd(s) < |s|;
    CutAt(s, LineEnd(s));
    hide LineEnd;
  }

  /******* The buffer *******/

  function Newlines(s: string): nat {
    if s == "" then 0 else (if s[0] == '\n' then 1 else 0) + Newlines(s[1..])
  }

  /** Bytes `with_scissors` allocates. */
  function Allocated(initial: string, orig: string): nat {
    |orig| + |NOTE| + |SCISSORS| + |initial| + 8 + Newlines(orig)
  }

  lemma {:induction false} NewlinesSplit(s: string)
    requires s != ""
    ensures Newlines(s) == (if LineEnd(s) < |s| then 1 else 0) + Newlines(Rest(s))
    decreases |s|
  {
    if s[0] != '\n' && |s| > 1 {
      NewlinesSplit(s[1..]);
      assert LineEnd(s) < |s| ==> s[LineEnd(s) + 1..] == s[1..][LineEnd(s[1..]) + 1..];
    }
  }

  /** The quoted mail is longer by at most a mark per line and a final newline. */
  lemma {:induction false} QuotedLength(orig: string)
    ensures |Quoted(orig)| <= |orig| + Newlines(orig) + 2
    ensures orig != "" && LineEnd(orig) == |orig| ==> |Quoted(orig)| <= |orig| + 2
    ensures orig == "" ==> |Quoted(orig)| == 0
    decreases |orig|
  {
    if orig != "" {
      NewlinesSplit(orig);
      QuotedLength(Rest(orig));
    }
  }

  /** Nothing is cut off: the text and its NUL fit what was allocated. */
  lemma Fits(initial: string, orig: string)
    ensures |WithText(initial, orig)| + 1 <= Allocated(initial, orig)
  {
    QuotedLength(orig);
  }

  lemma {:induction false} QuotedIsCString(orig: string)
    requires CString(orig)
    ensures CString(Quoted(orig))
    decreases |orig|
  {
    if orig != "" {
      QuotedIsCString(Rest(orig));
      hide StartsWithScissors, LineEnd;
    }
  }

  lemma TextIsCString(initial: string, orig: string)
    requires CString(initial) && CString(orig)
    ensures CString(WithText(initial, orig))
  {
    NoteIsCString();
    QuotedIsCString(orig);
    hide Quoted;
    CStringConcat("\n", NOTE);
    CStringConcat("\n" + NOTE, SCISSORS);
    CStringConcat("\n" + NOTE + SCISSORS, "\n");
    CStringConcat("\n" + NOTE + SCISSORS + "\n", initial);
    CStringConcat(Quoted(orig), Tail(initial));
  }

  lemma NoteIsCString()
    ensures CString(NOTE) && CString(SCISSORS) && CString("\n")
  {
    NoteLine1Chars();
    NoteLine2Chars();
    CStringConcat(NOTE_LINE1, "\n");
    CStringConcat(NOTE_LINE1 + "\n", NOTE_LINE2);
    CStringConcat(NOTE_LINE1 + "\n" + NOTE_LINE2, "\n");
  }

  lemma CStringConcat(a: string, b: string)
    requires CString(a) && CString(b)
    ensures CString(a + b)
  {
  }

  lemma {:induction false} NewlinesSnoc(s: string, p: nat)
    requires p < |s|
    ensures Newlines(s[..p + 1]) == Newlines(s[..p]) + if s[p] == '\n' then 1 else 0
  {
    if p > 0 {
      NewlinesSnoc(s[1..], p - 1);
      assert s[..p + 1][1..] == s[1..][..p] && s[..p][1..] == s[1..][..p - 1];
    } else {
      assert s[..1] == [s[0]] && s[..0] == "";
      assert Newlines([s[0]]) == (if s[0] == '\n' then 1 else 0) + Newlines([s[0]][1..]);
    }
  }

  lemma QuotedNothing()
    ensures Quoted("") == ""
  {
  }

  /** One line of the answered mail, behind the moving pointer. */
  method CopyLine(s: array<char>, w: nat, rest: string, len: nat) returns (w': nat)
    requires len == LineEnd(rest) && w + |QuotedLine(rest)| + 1 < s.Length
    modifies s
    ensures w' == w + |QuotedLine(rest)| + 1
    ensures s[..w'] == old(s[..w]) + (QuotedLine(rest) + "\n")
  {
    w' := w;
    ghost var before, mark := s[..w], if StartsWithScissors(rest) then " " else "";
    assert QuotedLine(rest) == mark + rest[..len];
    hide StartsWithScissors, LineEnd, QuotedLine;
    if StartsWithScissors(rest) {
      s[w'] := ' ';
      w' := w' + 1;
    }
    assert s[..w'] == before + mark;
    w' := Copy(s, w', rest[..len]);
    s[w'] := '\n';
    w' := w' + 1;
    assert s[..w'] == before + mark + rest[..len] + "\n";
    Text.Assoc(before, mark, rest[..len]);
    Text.Assoc(before, mark + rest[..len], "\n");
  }

  /** The size to allocate: one more byte for each newline, which may start a
      line that needs a mark. */
  method CountSize(initial: string, orig: string) returns (n: nat)
    ensures n == Allocated(initial, orig)
  {
    n := |orig| + |NOTE| + |SCISSORS| + |initial| + 8;
    ghost var fixed := n;
    assert fixed == |orig| + |NOTE| + |SCISSORS| + |initial| + 8;
    for p := 0 to |orig|
      invariant n == fixed + Newlines(orig[..p])
    {
      NewlinesSnoc(orig, p);
      n := n + if orig[p] == '\n' then 1 else 0;
    }
    assert orig[..|orig|] == orig;
  }

  /** Copies the answered mail line by line through a moving pointer. */
  method CopyQuoted(s: array<char>, orig: string) returns (w: nat)
    requires |Quoted(orig)| < s.Length
    modifies s
    ensures w == |Quoted(orig)| && s[..w] == Quoted(orig)
  {
    hide Quoted, QuotedLine, StartsWithScissors, NextLine;
    ghost var whole := Quoted(orig);
    assert orig[0..] == orig && s[..0] + whole == whole;
    w := 0;
    var line := 0;
    while line < |orig|
      invariant 0 <= line <= |orig| && 0 <= w <= s.Length
      invariant s[..w] + Quoted(orig[line..]) == whole
      decreases |orig| - line
    {
      ghost var before, rest := s[..w], orig[line..];
      var len := LineEnd(orig[line..]);
      QuotedAt(orig, line);
      assert w + |Quoted(rest)| == |whole|;
      w := CopyLine(s, w, orig[line..], len);
      line := NextLine(orig, line);
      Text.Assoc(before, QuotedLine(rest) + "\n", Quoted(orig[line..]));
    }
    QuotedNothing();
    assert orig[line..] == "" && s[..w] + "" == s[..w];
  }

  /** `with_scissors`: the answered mail, then the note, the scissors line and the
      draft, printed into the space that is left. */
  method WithScissors(initial: string, orig: string) returns (s: array<char>)
    requires CString(initial) && CString(orig)
    ensures fresh(s) && s.Length == Allocated(initial, orig)
    ensures var text := WithText(initial, orig);
            CString(text) && |text| < s.Length && s[..|text|] == text && s[|text|] == NUL
    ensures exists n: nat :: n <= s.Length && Shows(orig, s[..n])
  {
    hide Quoted, Tail, Allocated, CString;
    Fits(initial, orig);
    TextIsCString(initial, orig);
    var n := CountSize(initial, orig);
    s := new char[n];
    var w := CopyQuoted(s, orig);
    PrintTail(s, w, initial);
    QuotedShows(orig);
    hide Shows;
    assert s[..w] == Quoted(orig);
  }

  /** Start of the line after the one at `line`. */
  function NextLine(s: string, line: nat): (next: nat)
    requires line < |s|
    ensures line < next <= |s|
  {
    var len := LineEnd(s[line..]);
    line + len + if line + len < |s| then 1 else 0
  }

  lemma RestAt(s: string, line: nat)
    requires line < |s|
    ensures Rest(s[line..]) == s[NextLine(s, line)..]
  {
    var n := LineEnd(s[line..]);
    assert line + n < |s| ==> s[line..][n + 1..] == s[line + n + 1..];
  }

  lemma QuotedAt(orig: string, line: nat)
    requires line < |orig|
    ensures Quoted(orig[line..]) == QuotedLine(orig[line..]) + "\n" + Quoted(orig[NextLine(orig, line)..])
  {
    RestAt(orig, line);
    hide NextLine, QuotedLine, Rest, LineEnd;
    assert orig[line..] != "";
  }

  lemma AfterTextAt(buf: string, line: nat)
    requires line < |buf|
    ensures AfterText(buf[line..]) ==
            if StartsWithScissors(buf[line..]) then (true, buf[NextLine(buf, line)..])
            else AfterText(buf[NextLine(buf, line)..])
  {
    RestAt(buf, line);
    hide NextLine, StartsWithScissors, Rest, LineEnd;
    assert buf[line..] != "";
  }

  lemma AfterNothing()
    ensures AfterText("") == (false, "")
  {
  }

  /** `memcpy` at a moving pointer. */
  method Copy(s: array<char>, w: nat, text: string) returns (w': nat)
    requires w + |text| <= s.Length
    modifies s
    ensures w' == w + |text|
    ensures s[..w'] == old(s[..w]) + text
  {
    for i := 0 to |text|
      invariant s[..w] == old(s[..w])
      invariant forall j :: 0 <= j < i ==> s[w + j] == text[j]
    {
      s[w + i] := text[i];
    }
    w' := w + |text|;
  }

  /** The closing `snprintf`. */
  method PrintTail(s: array<char>, w: nat, initial: string)
    requires w + |Tail(initial)| < s.Length
    modifies s
    ensures s[..w + |Tail(initial)|] == old(s[..w]) + Tail(initial)
    ensures s[w + |Tail(initial)|] == NUL
  {
    var end := Copy(s, w, Tail(initial));
    s[end] := NUL;
  }

  /** `after_scissors`: walks the lines; `None` when the line is gone. The position
      is where the kept text starts. */
  method AfterScissors(buf: string) returns (found: bool, at: nat)
    ensures at <= |buf|
    ensures (found, if found then buf[at..] else "") == AfterText(buf)
  {
    hide StartsWithScissors, AfterText;
    AfterNothing();
    assert buf[0..] == buf;
    var line := 0;
    while line < |buf|
      invariant 0 <= line <= |buf|
      invariant AfterText(buf[line..]) == AfterText(buf)
      decreases |buf| - line
    {
      var nl := LineEnd(buf[line..]);
      AfterTextAt(buf, line);
      if StartsWithScissors(buf[line..]) {
        return true, if line + nl < |buf| then line + nl + 1 else |buf|;
      }
      if line + nl == |buf| {
        assert buf[|buf|..] == "";
        return false, 0;
      }
      line := line + nl + 1;
    }
    assert buf[line..] == "";
    return false, 0;
  }
}
