/**
 Signed messages (server/go/internal/protocol/signed.go): the compact JSON
 rebuild of body-signed requests, and the colon-separated strings of
 header-signed ones. A decoder written from section 7 of RFC 8259 reads the
 rebuild back, so no two field lists share signed bytes.
 */
module Signed {
  import opened Text
  import Addresses
  import Utf8

  /******* Quoting, byte by byte *******/

  function HexChar(d: nat): (c: char)
    requires d < 16
  {
    if d < 10 then DigitChar(d) else (d - 10 + 'a' as int) as char
  }

  function EscapeByte(c: char): (r: string)
    ensures |r| >= 1
  {
    if c == '"' then "\\\""
    else if c == '\\' then "\\\\"
    else if c as int == 8 then "\\b"
    else if c as int == 12 then "\\f"
    else if c == '\n' then "\\n"
    else if c == '\r' then "\\r"
    else if c == '\t' then "\\t"
    else if c as int < 0x20 then "\\u00" + [HexChar(c as int / 16), HexChar(c as int % 16)]
    else [c]
  }

  function EscapeAll(s: string): string {
    if s == "" then "" else EscapeByte(s[0]) + EscapeAll(s[1..])
  }

  function Quote(s: string): string { "\"" + EscapeAll(s) + "\"" }

  lemma {:induction false} EscapeAllConcat(s: string, t: string)
    ensures EscapeAll(s + t) == EscapeAll(s) + EscapeAll(t)
  {
    if s == "" {
      assert s + t == t;
    } else {
      assert (s + t)[1..] == s[1..] + t;
      EscapeAllConcat(s[1..], t);
    }
  }

  lemma {:induction false} EscapeHighBytes(s: string)
    requires forall i :: 0 <= i < |s| ==> s[i] as int >= 0x80
    ensures EscapeAll(s) == s
  {
    if s != "" {
      EscapeHighBytes(s[1..]);
      assert [s[0]] + s[1..] == s;
    }
  }

  /******* What quoting writes, in literals *******/

  /** Neither a quote, nor a backslash, nor a control character. */
  predicate Verbatim(c: char) { c != '"' && c != '\\' && c as int >= 0x20 }

  /** Most text stands between quotes as it is, slashes and bytes from 128 up included. */
  lemma QuoteVerbatim(s: string)
    requires forall i :: 0 <= i < |s| ==> Verbatim(s[i])
    ensures Quote(s) == "\"" + s + "\""
  {
    EscapeVerbatim(s);
  }

  lemma {:induction false} EscapeVerbatim(s: string)
    requires forall i :: 0 <= i < |s| ==> Verbatim(s[i])
    ensures EscapeAll(s) == s
  {
    if s != "" {
      assert Verbatim(s[0]);
      EscapeVerbatim(s[1..]);
      assert [s[0]] + s[1..] == s;
    }
  }

  /** The seven short escapes, and lower-case hexadecimal for the other control
      characters. */
  lemma QuoteOne(c: char)
    requires !Verbatim(c)
    ensures c == '"' ==> Quote([c]) == "\"\\\"\""
    ensures c == '\\' ==> Quote([c]) == "\"\\\\\""
    ensures c as int == 8 ==> Quote([c]) == "\"\\b\""
    ensures c as int == 9 ==> Quote([c]) == "\"\\t\""
    ensures c as int == 10 ==> Quote([c]) == "\"\\n\""
    ensures c as int == 12 ==> Quote([c]) == "\"\\f\""
    ensures c as int == 13 ==> Quote([c]) == "\"\\r\""
    ensures c as int < 0x20 && c as int !in {8, 9, 10, 12, 13} ==>
              Quote([c]) == "\"\\u00" + ["0123456789abcdef"[c as int / 16]] + ["0123456789abcdef"[c as int % 16]] + "\""
  {
    EscapeOne(c);
    hide EscapeAll;
    if c as int < 0x20 && c as int !in {8, 9, 10, 12, 13} {
      HexCharIs(c as int / 16);
      HexCharIs(c as int % 16);
    }
  }

  lemma HexCharIs(d: nat)
    requires d < 16
    ensures HexChar(d) == "0123456789abcdef"[d]
  {
  }

  /** Longer text is quoted piece by piece. */
  lemma QuotePieces(s: string, t: string)
    ensures |Quote(s)| >= 2 && |Quote(t)| >= 2
    ensures Quote(s + t) == Quote(s)[..|Quote(s)| - 1] + Quote(t)[1..]
  {
    EscapeAllConcat(s, t);
    hide EscapeAll;
    assert Quote(s)[..|Quote(s)| - 1] == "\"" + EscapeAll(s);
    assert Quote(t)[1..] == EscapeAll(t) + "\"";
  }

  /******* The rune-stepping loop *******/

  predicate Between(s: string, i: nat, lo: int, hi: int) {
    i < |s| && lo <= s[i] as int <= hi
  }

  /** Bytes `utf8.DecodeRuneInString` consumes at `i`; an invalid sequence
      consumes one. */
  function RuneLen(s: string, i: nat): (n: nat)
    requires i < |s| && s[i] as int >= 0x80
    ensures 1 <= n <= 4 && i + n <= |s|
    ensures forall j :: i <= j < i + n ==> s[j] as int >= 0x80
  {
    var c := s[i] as int;
    if 0xC2 <= c <= 0xDF then
      if Between(s, i + 1, 0x80, 0xBF) then 2 else 1
    else if 0xE0 <= c <= 0xEF then
      var lo := if c == 0xE0 then 0xA0 else 0x80;
      var hi := if c == 0xED then 0x9F else 0xBF;
      if Between(s, i + 1, lo, hi) && Between(s, i + 2, 0x80, 0xBF) then 3 else 1
    else if 0xF0 <= c <= 0xF4 then
      var lo := if c == 0xF0 then 0x90 else 0x80;
      var hi := if c == 0xF4 then 0x8F else 0xBF;
      if Between(s, i + 1, lo, hi) && Between(s, i + 2, 0x80, 0xBF) && Between(s, i + 3, 0x80, 0xBF)
      then 4 else 1
    else 1
  }

  /** Over well-formed text it steps by whole code points. */
  lemma StepsByRunes(s: string, i: nat, cp: int)
    requires Utf8.Scalar(cp) && cp >= 0x80 && i + |Utf8.Encode(cp)| <= |s|
    requires s[i..i + |Utf8.Encode(cp)|] == Utf8.Encoded(cp)
    ensures s[i] as int >= 0x80 && RuneLen(s, i) == |Utf8.Encode(cp)|
  {
    var e := Utf8.Encoded(cp);
    forall j {:trigger e[j]} | 0 <= j < |e| ensures s[i + j] as int == Utf8.Encode(cp)[j] {
      assert s[i..i + |e|][j] == s[i + j];
    }
    hide Utf8.Encoded;
    var b := Utf8.Encode(cp);
    assert s[i] as int == b[0] && s[i + 1] as int == b[1];
    assert |b| > 2 ==> s[i + 2] as int == b[2];
    assert |b| > 3 ==> s[i + 3] as int == b[3];
  }

  method AppendASCII(b: string, c: char) returns (r: string)
    requires c as int < 0x80
    ensures r == b + EscapeByte(c)
  {
    if c == '"' {
      r := b + "\\\"";
    } else if c == '\\' {
      r := b + "\\\\";
    } else if c as int == 8 {
      r := b + "\\b";
    } else if c as int == 12 {
      r := b + "\\f";
    } else if c == '\n' {
      r := b + "\\n";
    } else if c == '\r' {
      r := b + "\\r";
    } else if c == '\t' {
      r := b + "\\t";
    } else if c as int < 0x20 {
      r := b + ("\\u00" + [HexChar(c as int / 16), HexChar(c as int % 16)]);
    } else {
      r := b + [c];
    }
  }

  lemma EscapeStep(s: string, i: nat, n: nat)
    requires i + n <= |s|
    ensures EscapeAll(s[..i + n]) == EscapeAll(s[..i]) + EscapeAll(s[i..i + n])
  {
    EscapeAllConcat(s[..i], s[i..i + n]);
    assert s[..i] + s[i..i + n] == s[..i + n];
  }

  lemma EscapeNothing()
    ensures EscapeAll("") == ""
  {
  }

  lemma EscapeOne(c: char)
    ensures EscapeAll([c]) == EscapeByte(c)
  {
    assert [c][1..] == "";
    assert EscapeByte(c) + "" == EscapeByte(c);
  }

  /** The loop of `appendJSString` steps by runes, switches on ASCII bytes, and
      still quotes byte by byte, on every byte string. */
  method AppendJSString(b: string, s: string) returns (r: string)
    ensures r == b + Quote(s)
  {
    hide EscapeAll, EscapeByte;
    r := b + "\"";
    ghost var start := r;
    assert EscapeAll(s[..0]) == "" by { EscapeNothing(); }
    var i := 0;
    while i < |s|
      invariant 0 <= i <= |s|
      invariant r == start + EscapeAll(s[..i])
    {
      if s[i] as int >= 0x80 {
        var n := RuneLen(s, i);
        EscapeHighBytes(s[i..i + n]);
        EscapeStep(s, i, n);
        r := r + s[i..i + n];
        i := i + n;
      } else {
        EscapeOne(s[i]);
        EscapeStep(s, i, 1);
        assert s[i..i + 1] == [s[i]];
        r := AppendASCII(r, s[i]);
        i := i + 1;
      }
    }
    assert s[..i] == s;
    r := r + "\"";
  }

  /******* Objects *******/

  datatype Value = Str(text: string) | Num(number: int)

  datatype Field = Field(key: string, value: Value)

  function ValueText(v: Value): string {
    match v
    case Str(text) => Quote(text)
    case Num(n) => Itoa(n)
  }

  function FieldText(f: Field): string { Quote(f.key) + ":" + ValueText(f.value) }

  function FieldsText(fields: seq<Field>): string {
    if fields == [] then ""
    else if |fields| == 1 then FieldText(fields[0])
    else FieldText(fields[0]) + "," + FieldsText(fields[1..])
  }

  /** The object with these fields, in this order. */
  function ObjectText(fields: seq<Field>): string { "{" + FieldsText(fields) + "}" }

  /** The buffer of a builder holding these fields, not yet closed. */
  function OpenText(fields: seq<Field>): string {
    if fields == [] then "" else "{" + FieldsText(fields)
  }

  /** What `key` puts before the next quoted name. */
  function Separator(buf: string): string { if buf == "" then "{" else "," }

  lemma {:induction false} FieldsTextSnoc(fields: seq<Field>, f: Field)
    requires fields != []
    ensures FieldsText(fields + [f]) == FieldsText(fields) + "," + FieldText(f)
  {
    hide FieldText;
    if |fields| > 1 {
      FieldsTextSnoc(fields[1..], f);
      assert (fields + [f])[1..] == fields[1..] + [f];
    } else {
      assert (fields + [f])[1..] == [f];
    }
  }

  lemma OpenTextSnoc(fields: seq<Field>, f: Field)
    ensures OpenText(fields + [f]) == OpenText(fields) + Separator(OpenText(fields)) + FieldText(f)
  {
    hide FieldText;
    if fields != [] {
      FieldsTextSnoc(fields, f);
      hide FieldsText;
      var a, b := FieldsText(fields), FieldText(f);
      assert "{" + (a + "," + b) == ("{" + a) + "," + b;
    } else {
      assert [] + [f] == [f];
    }
  }

  /** `jsonObj`: a buffer that fields are appended to. */
  class JsonObj {
    var buf: string
    ghost var fields: seq<Field>

    ghost predicate Valid()
      reads this
    {
      buf == OpenText(fields)
    }

    constructor ()
      ensures Valid() && fields == []
    {
      buf := "";
      fields := [];
    }

    method Key(k: string)
      modifies this`buf
      ensures buf == old(buf) + Separator(old(buf)) + Quote(k) + ":"
    {
      hide Quote;
      if |buf| == 0 {
        buf := buf + "{";
      } else {
        buf := buf + ",";
      }
      buf := AppendJSString(buf, k);
      buf := buf + ":";
    }

    method AddStr(k: string, v: string)
      requires Valid()
      modifies this
      ensures Valid() && fields == old(fields) + [Field(k, Str(v))]
    {
      hide OpenText, Quote;
      OpenTextSnoc(fields, Field(k, Str(v)));
      Key(k);
      buf := AppendJSString(buf, v);
      fields := fields + [Field(k, Str(v))];
    }

    method AddNum(k: string, v: int)
      requires Valid()
      modifies this
      ensures Valid() && fields == old(fields) + [Field(k, Num(v))]
    {
      hide OpenText, Quote, Itoa;
      OpenTextSnoc(fields, Field(k, Num(v)));
      Key(k);
      buf := buf + Itoa(v);
      fields := fields + [Field(k, Num(v))];
    }

    method Done() returns (r: string)
      requires Valid() && fields != []
      ensures r == ObjectText(fields)
    {
      r := buf + "}";
    }
  }

  /******* The two messages *******/

  function RegisterFields(username: string, kemPub: string, sigPub: string, timestamp: string): seq<Field> {
    [Field("username", Str(username)), Field("kem_pubkey", Str(kemPub)),
     Field("sig_pubkey", Str(sigPub)), Field("timestamp", Str(timestamp))]
  }

  function RegisterMessage(username: string, kemPub: string, sigPub: string, timestamp: string): string {
    ObjectText(RegisterFields(username, kemPub, sigPub, timestamp))
  }

  method BuildRegisterMessage(username: string, kemPub: string, sigPub: string, timestamp: string)
    returns (r: string)
    ensures r == RegisterMessage(username, kemPub, sigPub, timestamp)
  {
    hide OpenText, ObjectText;
    var b := new JsonObj();
    b.AddStr("username", username);
    b.AddStr("kem_pubkey", kemPub);
    b.AddStr("sig_pubkey", sigPub);
    b.AddStr("timestamp", timestamp);
    assert b.fields == RegisterFields(username, kemPub, sigPub, timestamp);
    r := b.Done();
  }

  /** What a mail submission signs. `encReplyTo` is empty for any other mail. */
  datatype MailFields = MailFields(sender: string, recipient: string, fingerprint: string,
                                   encSubject: string, encBody: string, encReplyTo: string,
                                   timestamp: string, size: int)

  function MailFieldList(m: MailFields): seq<Field> {
    [Field("sender", Str(m.sender)), Field("recipient", Str(m.recipient)),
     Field("recipient_kem_fingerprint", Str(m.fingerprint)),
     Field("enc_subject", Str(m.encSubject)), Field("enc_body", Str(m.encBody))]
    + (if m.encReplyTo != "" then [Field("enc_reply_to", Str(m.encReplyTo))] else [])
    + [Field("timestamp", Str(m.timestamp)), Field("size", Num(m.size))]
  }

  function MailMessage(m: MailFields): string { ObjectText(MailFieldList(m)) }

  method BuildMailMessage(m: MailFields) returns (r: string)
    ensures r == MailMessage(m)
  {
    hide OpenText, ObjectText;
    var b := new JsonObj();
    b.AddStr("sender", m.sender);
    b.AddStr("recipient", m.recipient);
    b.AddStr("recipient_kem_fingerprint", m.fingerprint);
    b.AddStr("enc_subject", m.encSubject);
    b.AddStr("enc_body", m.encBody);
    if m.encReplyTo != "" {
      b.AddStr("enc_reply_to", m.encReplyTo);
    }
    b.AddStr("timestamp", m.timestamp);
    b.AddNum("size", m.size);
    assert b.fields == MailFieldList(m);
    r := b.Done();
  }

  /******* Decoding (section 7 of RFC 8259) *******/

  function HexValue(c: char): Option<nat> {
    if IsDigit(c) then Some(DigitOf(c))
    else if 'a' <= c <= 'f' then Some(c as int - 'a' as int + 10)
    else if 'A' <= c <= 'F' then Some(c as int - 'A' as int + 10)
    else None
  }

  /** One escape after the backslash: the byte it stands for and what follows.
      Code units from 128 up would take several bytes and are not decoded. */
  function UnescapeByte(s: string): Option<(char, string)> {
    if s == "" then None
    else if s[0] == '"' || s[0] == '\\' || s[0] == '/' then Some((s[0], s[1..]))
    else if s[0] == 'b' then Some((8 as char, s[1..]))
    else if s[0] == 'f' then Some((12 as char, s[1..]))
    else if s[0] == 'n' then Some(('\n', s[1..]))
    else if s[0] == 'r' then Some(('\r', s[1..]))
    else if s[0] == 't' then Some(('\t', s[1..]))
    else if s[0] == 'u' && |s| >= 5 && s[1] == '0' && s[2] == '0' then
      match (HexValue(s[3]), HexValue(s[4]))
      case (Some(hi), Some(lo)) =>
        if hi < 8 then Some(((hi * 16 + lo) as char, s[5..])) else None
      case _ => None
    else None
  }

  /** A string's content up to its closing quote, and what follows the quote. */
  function Unquote(s: string): Option<(string, string)>
    decreases |s|
  {
    if s == "" || s[0] as int < 0x20 then None
    else if s[0] == '"' then Some(("", s[1..]))
    else
      var step := if s[0] == '\\' then UnescapeByte(s[1..]) else Some((s[0], s[1..]));
      if step.None? || |step.value.1| >= |s| then None
      else
        match Unquote(step.value.1)
        case Some((text, rest)) => Some(([step.value.0] + text, rest))
        case None => None
  }

  lemma UnescapeByteOf(c: char, rest: string)
    requires EscapeByte(c) != [c]
    ensures EscapeByte(c)[0] == '\\'
    ensures UnescapeByte(EscapeByte(c)[1..] + rest) == Some((c, rest))
  {
    var e := EscapeByte(c)[1..];
    if |EscapeByte(c)| == 2 {
      assert (e + rest)[1..] == rest;
    } else {
      var hi, lo := c as int / 16, c as int % 16;
      assert e == "u00" + [HexChar(hi), HexChar(lo)];
      assert HexValue(HexChar(hi)) == Some(hi) && HexValue(HexChar(lo)) == Some(lo);
      assert (e + rest)[5..] == rest;
    }
  }

  /** One quoted byte in front of any text decodes to that byte. */
  lemma UnquoteStep(c: char, after: string)
    ensures Unquote(EscapeByte(c) + after) ==
            match Unquote(after)
            case Some((text, rest)) => Some(([c] + text, rest))
            case None => None
  {
    var whole := EscapeByte(c) + after;
    if EscapeByte(c) == [c] {
      assert whole[1..] == after;
    } else {
      UnescapeByteOf(c, after);
      assert whole[1..] == EscapeByte(c)[1..] + after;
    }
  }

  /** Decoding undoes quoting, whatever bytes the field holds. */
  lemma {:induction false} UnquoteQuote(s: string, rest: string)
    ensures Unquote(EscapeAll(s) + "\"" + rest) == Some((s, rest))
  {
    if s == "" {
      assert EscapeAll(s) + "\"" + rest == "\"" + rest;
      assert ("\"" + rest)[1..] == rest;
    } else {
      var after := EscapeAll(s[1..]) + "\"" + rest;
      UnquoteQuote(s[1..], rest);
      UnquoteStep(s[0], after);
      EscapeCons(s, rest);
      assert [s[0]] + s[1..] == s;
    }
  }

  lemma EscapeCons(s: string, rest: string)
    requires s != ""
    ensures EscapeAll(s) + "\"" + rest == EscapeByte(s[0]) + (EscapeAll(s[1..]) + "\"" + rest)
  {
    hide EscapeByte;
    var a, b := EscapeByte(s[0]), EscapeAll(s[1..]);
    assert EscapeAll(s) == a + b;
    hide EscapeAll;
    Assoc(a, b, "\"");
    Assoc(a, b + "\"", rest);
  }

  function LeadingDigits(s: string): (n: nat)
    ensures n <= |s| && AllDigits(s[..n])
    ensures n < |s| ==> !IsDigit(s[n])
  {
    if s == "" || !IsDigit(s[0]) then 0
    else
      var n := LeadingDigits(s[1..]);
      assert s[..1 + n] == [s[0]] + s[1..][..n];
      1 + n
  }

  function ReadNumber(s: string): Option<(int, string)> {
    var negative := s != "" && s[0] == '-';
    var body := if negative then s[1..] else s;
    var n := LeadingDigits(body);
    if n == 0 then None
    else
      var v: int := DigitsValue(body[..n]);
      Some((if negative then -v else v, body[n..]))
  }

  lemma DigitsThenText(d: string, rest: string)
    requires AllDigits(d) && (rest != "" ==> !IsDigit(rest[0]))
    ensures LeadingDigits(d + rest) == |d|
  {
    var n := LeadingDigits(d + rest);
    var s := d + rest;
    assert forall i :: 0 <= i < |d| ==> s[i] == d[i];
    assert rest != "" ==> s[|d|] == rest[0];
    assert forall i :: 0 <= i < n ==> IsDigit(s[..n][i]);
  }

  lemma ReadNumberOf(v: int, rest: string)
    requires rest != "" ==> !IsDigit(rest[0])
    ensures ReadNumber(Itoa(v) + rest) == Some((v, rest))
  {
    hide LeadingDigits, DigitsValue, Digits;
    var d := if v < 0 then Digits(-v) else Digits(v);
    DigitsValueOf(if v < 0 then -v else v);
    DigitsThenText(d, rest);
    var s := d + rest;
    assert s[..|d|] == d && s[|d|..] == rest && IsDigit(s[0]);
    if v < 0 {
      assert (Itoa(v) + rest)[1..] == s;
    }
  }

  function ReadValue(s: string): Option<(Value, string)> {
    if s != "" && s[0] == '"' then
      match Unquote(s[1..])
      case Some((text, rest)) => Some((Str(text), rest))
      case None => None
    else
      match ReadNumber(s)
      case Some((n, rest)) => Some((Num(n), rest))
      case None => None
  }

  function ReadField(s: string): Option<(Field, string)> {
    if s == "" || s[0] != '"' then None
    else
      match Unquote(s[1..])
      case None => None
      case Some((key, rest)) =>
        if rest == "" || rest[0] != ':' then None
        else
          match ReadValue(rest[1..])
          case Some((v, rest')) => Some((Field(key, v), rest'))
          case None => None
  }

  /** Fields separated by commas, up to the closing brace that ends the text. */
  function ReadFields(s: string): Option<seq<Field>>
    decreases |s|
  {
    match ReadField(s)
    case None => None
    case Some((f, rest)) =>
      if rest == "}" then Some([f])
      else if rest == "" || rest[0] != ',' || |rest| > |s| then None
      else
        match ReadFields(rest[1..])
        case Some(fs) => Some([f] + fs)
        case None => None
  }

  function ReadObject(s: string): Option<seq<Field>> {
    if s == "" || s[0] != '{' then None else ReadFields(s[1..])
  }

  lemma ReadValueOf(v: Value, rest: string)
    requires rest != "" && !IsDigit(rest[0])
    ensures ReadValue(ValueText(v) + rest) == Some((v, rest))
  {
    hide EscapeAll, Unquote, ReadNumber, Digits;
    match v
    case Str(text) =>
      UnquoteQuote(text, rest);
      assert (ValueText(v) + rest)[1..] == EscapeAll(text) + "\"" + rest;
    case Num(n) =>
      ReadNumberOf(n, rest);
      assert Itoa(n)[0] == '-' || IsDigit(Itoa(n)[0]);
      assert (ValueText(v) + rest)[0] == Itoa(n)[0];
  }

  lemma ReadFieldOf(f: Field, rest: string)
    requires rest != "" && !IsDigit(rest[0])
    ensures ReadField(FieldText(f) + rest) == Some((f, rest))
  {
    hide EscapeAll, Unquote, ReadValue, ValueText;
    var tail := ":" + ValueText(f.value) + rest;
    UnquoteQuote(f.key, tail);
    assert FieldText(f) + rest == "\"" + (EscapeAll(f.key) + "\"" + tail);
    assert (FieldText(f) + rest)[1..] == EscapeAll(f.key) + "\"" + tail;
    assert tail[1..] == ValueText(f.value) + rest;
    ReadValueOf(f.value, rest);
  }

  lemma ReadFieldsCons(f: Field, text: string)
    requires text != ""
    ensures ReadFields(FieldText(f) + ("," + text)) ==
            match ReadFields(text)
            case Some(fs) => Some([f] + fs)
            case None => None
  {
    hide FieldText, ReadField;
    var rest := "," + text;
    ReadFieldOf(f, rest);
    assert rest[1..] == text && rest != "}";
  }

  lemma ReadFieldsLast(f: Field)
    ensures ReadFields(FieldText(f) + "}") == Some([f])
  {
    hide FieldText, ReadField;
    ReadFieldOf(f, "}");
  }

  lemma FieldsTextCons(fields: seq<Field>)
    requires |fields| > 1
    ensures FieldsText(fields) + "}" == FieldText(fields[0]) + ("," + (FieldsText(fields[1..]) + "}"))
  {
    hide FieldText;
    var a, b := FieldText(fields[0]), FieldsText(fields[1..]);
    assert FieldsText(fields) == a + "," + b;
    hide FieldsText;
    Assoc(a + ",", b, "}");
    Assoc(a, ",", b + "}");
  }

  lemma {:induction false} ReadFieldsOf(fields: seq<Field>)
    requires fields != []
    ensures ReadFields(FieldsText(fields) + "}") == Some(fields)
  {
    hide ReadFields, FieldText;
    if |fields| == 1 {
      ReadFieldsLast(fields[0]);
      assert [fields[0]] == fields;
    } else {
      ReadFieldsOf(fields[1..]);
      ReadFieldsMore(fields);
    }
  }

  lemma ReadFieldsMore(fields: seq<Field>)
    requires |fields| > 1 && ReadFields(FieldsText(fields[1..]) + "}") == Some(fields[1..])
    ensures ReadFields(FieldsText(fields) + "}") == Some(fields)
  {
    hide ReadFields, FieldsText, FieldText;
    FieldsTextCons(fields);
    ReadFieldsCons(fields[0], FieldsText(fields[1..]) + "}");
    assert [fields[0]] + fields[1..] == fields;
  }

  /** The signed JSON can be decoded: every field comes back. */
  lemma ReadObjectOf(fields: seq<Field>)
    requires fields != []
    ensures ReadObject(ObjectText(fields)) == Some(fields)
  {
    hide ReadFields, FieldsText;
    ReadFieldsOf(fields);
    Assoc("{", FieldsText(fields), "}");
    assert ObjectText(fields)[1..] == FieldsText(fields) + "}";
  }

  /** The member of this name, if the object has one. */
  function Member(fields: seq<Field>, key: string): Option<Value> {
    if fields == [] then None
    else if fields[0].key == key then Some(fields[0].value)
    else Member(fields[1..], key)
  }

  /** Decoding a signed mail and looking its members up by name gives every field,
      and tells a reply from any other mail. */
  lemma MailMembers(m: MailFields)
    ensures var o := ReadObject(MailMessage(m));
            && o.Some?
            && Member(o.value, "sender") == Some(Str(m.sender))
            && Member(o.value, "recipient") == Some(Str(m.recipient))
            && Member(o.value, "recipient_kem_fingerprint") == Some(Str(m.fingerprint))
            && Member(o.value, "enc_subject") == Some(Str(m.encSubject))
            && Member(o.value, "enc_body") == Some(Str(m.encBody))
            && Member(o.value, "enc_reply_to") == (if m.encReplyTo == "" then None else Some(Str(m.encReplyTo)))
            && Member(o.value, "timestamp") == Some(Str(m.timestamp))
            && Member(o.value, "size") == Some(Num(m.size))
  {
    ReadObjectOf(MailFieldList(m));
    MailKeysDiffer(m);
    var fields := MailFieldList(m);
    var n := |fields|;
    assert n == if m.encReplyTo == "" then 7 else 8;
    assert fields[n - 2] == Field("timestamp", Str(m.timestamp)) && fields[n - 1] == Field("size", Num(m.size));
    assert n == 8 ==> fields[5] == Field("enc_reply_to", Str(m.encReplyTo));
    hide ReadObject, ObjectText, Member, KeysDiffer;
    MemberAt(fields, 0);
    MemberAt(fields, 1);
    MemberAt(fields, 2);
    MemberAt(fields, 3);
    MemberAt(fields, 4);
    MemberAt(fields, n - 2);
    MemberAt(fields, n - 1);
    if n == 8 {
      MemberAt(fields, 5);
    } else {
      NoReplyKey(m);
    }
  }

  ghost predicate KeysDiffer(fields: seq<Field>) {
    forall i, j :: 0 <= i < j < |fields| ==> fields[i].key != fields[j].key
  }

  lemma MailKeysDiffer(m: MailFields)
    ensures KeysDiffer(MailFieldList(m))
  {
    var fields := MailFieldList(m);
    var tail := if m.encReplyTo == "" then [9, 4] else [12, 9, 4];
    var lengths := [6, 9, 25, 11, 8] + tail;
    assert |fields| == |lengths| && forall i :: 0 <= i < |fields| ==> |fields[i].key| == lengths[i];
    assert fields[1].key[0] == 'r' && fields[|fields| - 2].key[0] == 't';
    hide MailFieldList;
    forall i, j | 0 <= i < j < |fields| ensures fields[i].key != fields[j].key {
      assert lengths[i] != lengths[j] || (i == 1 && j == |fields| - 2);
    }
  }

  lemma NoReplyKey(m: MailFields)
    requires m.encReplyTo == ""
    ensures Member(MailFieldList(m), "enc_reply_to") == None
  {
    var fields := MailFieldList(m);
    assert |"enc_reply_to"| == 12;
    assert forall i :: 0 <= i < |fields| ==> |fields[i].key| != 12;
    hide MailFieldList;
    NoMember(fields, "enc_reply_to");
  }

  /** With distinct names, every member is found. */
  lemma {:induction false} MemberAt(fields: seq<Field>, n: nat)
    requires n < |fields| && KeysDiffer(fields)
    ensures Member(fields, fields[n].key) == Some(fields[n].value)
  {
    if n > 0 {
      MemberAt(fields[1..], n - 1);
    }
  }

  lemma {:induction false} NoMember(fields: seq<Field>, key: string)
    requires forall i :: 0 <= i < |fields| ==> fields[i].key != key
    ensures Member(fields, key) == None
  {
    if fields != [] {
      NoMember(fields[1..], key);
    }
  }

  /** Decoded, the signed JSON has exactly these members, in this order. */
  lemma MailMemberList(m: MailFields)
    ensures ReadObject(MailMessage(m)) == Some(
              [Field("sender", Str(m.sender)), Field("recipient", Str(m.recipient)),
               Field("recipient_kem_fingerprint", Str(m.fingerprint)), Field("enc_subject", Str(m.encSubject)),
               Field("enc_body", Str(m.encBody))]
              + (if m.encReplyTo == "" then [] else [Field("enc_reply_to", Str(m.encReplyTo))])
              + [Field("timestamp", Str(m.timestamp)), Field("size", Num(m.size))])
  {
    ReadObjectOf(MailFieldList(m));
    hide ReadObject, ObjectText;
  }

  lemma RegisterMemberList(u: string, k: string, s: string, t: string)
    ensures ReadObject(RegisterMessage(u, k, s, t)) == Some(
              [Field("username", Str(u)), Field("kem_pubkey", Str(k)), Field("sig_pubkey", Str(s)), Field("timestamp", Str(t))])
  {
    ReadObjectOf(RegisterFields(u, k, s, t));
    hide ReadObject, ObjectText;
  }

  lemma {:induction false} FieldsJoined(fields: seq<Field>, texts: seq<string>)
    requires |fields| == |texts| && forall i :: 0 <= i < |fields| ==> FieldText(fields[i]) == texts[i]
    ensures FieldsText(fields) == Join(texts, ',')
  {
    hide FieldText;
    if |fields| > 1 {
      FieldsJoined(fields[1..], texts[1..]);
    }
  }

  lemma MemberText(f: Field)
    requires forall i :: 0 <= i < |f.key| ==> Verbatim(f.key[i])
    ensures FieldText(f) == "\"" + f.key + "\":" + ValueText(f.value)
  {
    QuoteVerbatim(f.key);
    hide Quote, ValueText;
    assert "\"" + f.key + "\"" + ":" == "\"" + f.key + "\":";
  }

  /** The member names of the two messages, and what stands before each value. */
  predicate NameAndPrefix(key: string, prefix: string) {
    || PartyName(key, prefix)
    || FingerprintName(key, prefix)
    || SealedName(key, prefix)
    || ReplyName(key, prefix)
    || AccountName(key, prefix)
  }

  predicate PartyName(key: string, prefix: string) {
    || (key == "sender" && prefix == "\"sender\":")
    || (key == "recipient" && prefix == "\"recipient\":")
    || (key == "timestamp" && prefix == "\"timestamp\":")
  }

  predicate FingerprintName(key: string, prefix: string) {
    key == "recipient_kem_fingerprint" && prefix == "\"recipient_kem_fingerprint\":"
  }

  predicate SealedName(key: string, prefix: string) {
    || (key == "enc_subject" && prefix == "\"enc_subject\":")
    || (key == "enc_body" && prefix == "\"enc_body\":")
  }

  predicate ReplyName(key: string, prefix: string) {
    || (key == "enc_reply_to" && prefix == "\"enc_reply_to\":")
    || (key == "size" && prefix == "\"size\":")
  }

  predicate AccountName(key: string, prefix: string) {
    || (key == "username" && prefix == "\"username\":")
    || (key == "kem_pubkey" && prefix == "\"kem_pubkey\":")
    || (key == "sig_pubkey" && prefix == "\"sig_pubkey\":")
  }

  predicate Prefixes(key: string, prefix: string) {
    prefix == "\"" + key + "\":" && forall i :: 0 <= i < |key| ==> Verbatim(key[i])
  }

  lemma PartyPrefixes(key: string, prefix: string)
    requires PartyName(key, prefix)
    ensures Prefixes(key, prefix)
  {
    assert |prefix| == |key| + 3 && prefix[0] == '"' && prefix[|key| + 1] == '"' && prefix[|key| + 2] == ':';
    assert forall i :: 0 <= i < |key| ==> prefix[i + 1] == key[i];
    assert forall i :: 0 <= i < |key| ==> 'a' <= key[i] <= 'z' || key[i] == '_';
    hide PartyName;
  }

  lemma FingerprintPrefixes(key: string, prefix: string)
    requires FingerprintName(key, prefix)
    ensures Prefixes(key, prefix)
  {
    assert |prefix| == |key| + 3 && prefix[0] == '"' && prefix[|key| + 1] == '"' && prefix[|key| + 2] == ':';
    assert forall i :: 0 <= i < |key| ==> prefix[i + 1] == key[i];
    assert forall i :: 0 <= i < |key| ==> 'a' <= key[i] <= 'z' || key[i] == '_';
    hide FingerprintName;
  }

  lemma SealedPrefixes(key: string, prefix: string)
    requires SealedName(key, prefix)
    ensures Prefixes(key, prefix)
  {
    assert |prefix| == |key| + 3 && prefix[0] == '"' && prefix[|key| + 1] == '"' && prefix[|key| + 2] == ':';
    assert forall i :: 0 <= i < |key| ==> prefix[i + 1] == key[i];
    assert forall i :: 0 <= i < |key| ==> 'a' <= key[i] <= 'z' || key[i] == '_';
    hide SealedName;
  }

  lemma ReplyPrefixes(key: string, prefix: string)
    requires ReplyName(key, prefix)
    ensures Prefixes(key, prefix)
  {
    assert |prefix| == |key| + 3 && prefix[0] == '"' && prefix[|key| + 1] == '"' && prefix[|key| + 2] == ':';
    assert forall i :: 0 <= i < |key| ==> prefix[i + 1] == key[i];
    assert forall i :: 0 <= i < |key| ==> 'a' <= key[i] <= 'z' || key[i] == '_';
    hide ReplyName;
  }

  lemma AccountPrefixes(key: string, prefix: string)
    requires AccountName(key, prefix)
    ensures Prefixes(key, prefix)
  {
    assert |prefix| == |key| + 3 && prefix[0] == '"' && prefix[|key| + 1] == '"' && prefix[|key| + 2] == ':';
    assert forall i :: 0 <= i < |key| ==> prefix[i + 1] == key[i];
    assert forall i :: 0 <= i < |key| ==> 'a' <= key[i] <= 'z' || key[i] == '_';
    hide AccountName;
  }

  lemma PrefixQuotes(key: string, prefix: string)
    requires NameAndPrefix(key, prefix)
    ensures Prefixes(key, prefix)
  {
    hide PartyName, FingerprintName, SealedName, ReplyName, AccountName, Prefixes;
    if PartyName(key, prefix) { PartyPrefixes(key, prefix); }
    if FingerprintName(key, prefix) { FingerprintPrefixes(key, prefix); }
    if SealedName(key, prefix) { SealedPrefixes(key, prefix); }
    if ReplyName(key, prefix) { ReplyPrefixes(key, prefix); }
    if AccountName(key, prefix) { AccountPrefixes(key, prefix); }
  }

  /** Members by their texts. */
  lemma MembersJoined(fields: seq<Field>, prefixes: seq<string>, texts: seq<string>)
    requires |fields| == |prefixes| == |texts|
    requires forall i :: 0 <= i < |fields| ==>
               NameAndPrefix(fields[i].key, prefixes[i]) && texts[i] == prefixes[i] + ValueText(fields[i].value)
    ensures FieldsText(fields) == Join(texts, ',')
  {
    hide NameAndPrefix, Verbatim, FieldText, ValueText;
    forall i | 0 <= i < |fields| ensures FieldText(fields[i]) == texts[i] {
      PrefixQuotes(fields[i].key, prefixes[i]);
      MemberText(fields[i]);
    }
    FieldsJoined(fields, texts);
  }

  /** Byte for byte: no blanks, and the size in plain digits. */
  lemma MailText(m: MailFields)
    ensures MailMessage(m)
         == "{" + Join(["\"sender\":" + Quote(m.sender), "\"recipient\":" + Quote(m.recipient),
                        "\"recipient_kem_fingerprint\":" + Quote(m.fingerprint), "\"enc_subject\":" + Quote(m.encSubject),
                        "\"enc_body\":" + Quote(m.encBody)]
                       + (if m.encReplyTo == "" then [] else ["\"enc_reply_to\":" + Quote(m.encReplyTo)])
                       + ["\"timestamp\":" + Quote(m.timestamp), "\"size\":" + Itoa(m.size)], ',') + "}"
  {
    hide Quote, Itoa, Join, FieldsText;
    var reply := if m.encReplyTo == "" then [] else ["\"enc_reply_to\":"];
    var prefixes := ["\"sender\":", "\"recipient\":", "\"recipient_kem_fingerprint\":", "\"enc_subject\":", "\"enc_body\":"]
                    + reply + ["\"timestamp\":", "\"size\":"];
    var texts := ["\"sender\":" + Quote(m.sender), "\"recipient\":" + Quote(m.recipient),
                  "\"recipient_kem_fingerprint\":" + Quote(m.fingerprint), "\"enc_subject\":" + Quote(m.encSubject),
                  "\"enc_body\":" + Quote(m.encBody)]
                 + (if m.encReplyTo == "" then [] else ["\"enc_reply_to\":" + Quote(m.encReplyTo)])
                 + ["\"timestamp\":" + Quote(m.timestamp), "\"size\":" + Itoa(m.size)];
    MembersJoined(MailFieldList(m), prefixes, texts);
  }

  lemma RegisterText(u: string, k: string, s: string, t: string)
    ensures RegisterMessage(u, k, s, t)
         == "{" + Join(["\"username\":" + Quote(u), "\"kem_pubkey\":" + Quote(k), "\"sig_pubkey\":" + Quote(s),
                        "\"timestamp\":" + Quote(t)], ',') + "}"
  {
    hide Quote, Join, FieldsText;
    MembersJoined(RegisterFields(u, k, s, t), ["\"username\":", "\"kem_pubkey\":", "\"sig_pubkey\":", "\"timestamp\":"],
                  ["\"username\":" + Quote(u), "\"kem_pubkey\":" + Quote(k), "\"sig_pubkey\":" + Quote(s),
                   "\"timestamp\":" + Quote(t)]);
  }

  lemma RegisterMembers(u: string, k: string, s: string, t: string)
    ensures var o := ReadObject(RegisterMessage(u, k, s, t));
            && o.Some?
            && Member(o.value, "username") == Some(Str(u))
            && Member(o.value, "kem_pubkey") == Some(Str(k))
            && Member(o.value, "sig_pubkey") == Some(Str(s))
            && Member(o.value, "timestamp") == Some(Str(t))
  {
    ReadObjectOf(RegisterFields(u, k, s, t));
    RegisterKeysDiffer(u, k, s, t);
    var fields := RegisterFields(u, k, s, t);
    hide ReadObject, ObjectText, Member, KeysDiffer;
    MemberAt(fields, 0);
    MemberAt(fields, 1);
    MemberAt(fields, 2);
    MemberAt(fields, 3);
  }

  lemma RegisterKeysDiffer(u: string, k: string, s: string, t: string)
    ensures KeysDiffer(RegisterFields(u, k, s, t))
  {
    var fields := RegisterFields(u, k, s, t);
    assert fields[0].key[0] == 'u' && fields[1].key[0] == 'k' && fields[2].key[0] == 's' && fields[3].key[0] == 't';
    hide RegisterFields;
    forall i, j | 0 <= i < j < |fields| ensures fields[i].key != fields[j].key {
      assert fields[i].key[0] != fields[j].key[0];
    }
  }

  /** Equal signed bytes mean equal fields, presence of `enc_reply_to` included. */
  lemma MailMessageInjective(m: MailFields, n: MailFields)
    ensures MailMessage(m) == MailMessage(n) <==> m == n
  {
    hide MailMessage, ReadObject, Member;
    MailMembers(m);
    MailMembers(n);
  }

  lemma RegisterMessageInjective(u: string, k: string, s: string, t: string,
                                 u': string, k': string, s': string, t': string)
    ensures RegisterMessage(u, k, s, t) == RegisterMessage(u', k', s', t')
       <==> u == u' && k == k' && s == s' && t == t'
  {
    hide RegisterMessage, ReadObject, Member;
    RegisterMembers(u, k, s, t);
    RegisterMembers(u', k', s', t');
  }

  /******* Header messages *******/

  function HeaderMessage(method_: string, path: string, username: string, timestamp: string): string {
    method_ + ":" + path + ":" + username + ":" + timestamp
  }

  /** `digest` is the lowercase hex SHA-256 of the body. */
  function HeaderBodyMessage(method_: string, path: string, username: string, timestamp: string,
                             digest: string): string {
    HeaderMessage(method_, path, username, timestamp) + ":" + digest
  }

  predicate HexDigest(d: string) {
    |d| == 64 && forall i :: 0 <= i < |d| ==> IsDigit(d[i]) || 'a' <= d[i] <= 'f'
  }

  /** What an accepted header request has: an HTTP method (a token, so neither
      ":" nor "{"), a registered name, and a timestamp that parses. */
  predicate AcceptedHeader(method_: string, username: string, timestamp: string) {
    && method_ != "" && ':' !in method_ && '{' !in method_
    && Addresses.ValidUsername(username)
    && ParseInt(timestamp).Some?
  }

  lemma TimestampChars(t: string)
    requires ParseInt(t).Some?
    ensures ':' !in t && forall i :: 0 <= i < |t| ==> !IsLetter(t[i])
  {
  }

  /** Cut at its colons, a header message has the method first, the name and the
      timestamp last, and the path, colons and all, between. */
  lemma HeaderParts(m: string, p: string, u: string, t: string)
    requires AcceptedHeader(m, u, t)
    ensures var parts := Split(HeaderMessage(m, p, u, t), ':');
            var n := |parts|;
            && n >= 4 && parts[0] == m && parts[n - 2] == u && parts[n - 1] == t
            && Join(parts[1..n - 2], ':') == p
  {
    TimestampChars(t);
    Addresses.ValidUsernameChars(u);
    HeaderCut(m, p, u, t);
    hide Split, Join, HeaderMessage;
  }

  lemma HeaderCut(m: string, p: string, u: string, t: string)
    requires ':' !in m && ':' !in u && ':' !in t
    ensures var parts := Split(HeaderMessage(m, p, u, t), ':');
            var n := |parts|;
            && n >= 4 && parts[0] == m && parts[n - 2] == u && parts[n - 1] == t
            && Join(parts[1..n - 2], ':') == p
  {
    hide Split, Join;
    JoinSplit(p, ':');
    SplitFirst(m, p);
    SplitLast(m + ":" + p, u);
    SplitLast(m + ":" + p + ":" + u, t);
    FourParts(m, Split(p, ':'), u, t);
  }

  lemma SplitFirst(a: string, b: string)
    requires ':' !in a
    ensures Split(a + ":" + b, ':') == [a] + Split(b, ':')
  {
    SplitCons(a, ':', b);
  }

  lemma SplitLast(a: string, b: string)
    requires ':' !in b
    ensures Split(a + ":" + b, ':') == Split(a, ':') + [b]
  {
    SplitConcat(a, ':', b);
    SplitNone(b, ':');
  }

  lemma FourParts(m: string, path: seq<string>, u: string, t: string)
    requires |path| >= 1
    ensures var parts := [m] + path + [u] + [t];
            var n := |parts|;
            n >= 4 && parts[0] == m && parts[n - 2] == u && parts[n - 1] == t && parts[1..n - 2] == path
  {
  }

  /** Header messages are injective, although the path may hold colons. */
  lemma HeaderMessageInjective(m: string, p: string, u: string, t: string,
                               m': string, p': string, u': string, t': string)
    requires AcceptedHeader(m, u, t) && AcceptedHeader(m', u', t')
    ensures HeaderMessage(m, p, u, t) == HeaderMessage(m', p', u', t')
       <==> m == m' && p == p' && u == u' && t == t'
  {
    TimestampChars(t);
    TimestampChars(t');
    Addresses.ValidUsernameChars(u);
    Addresses.ValidUsernameChars(u');
    if HeaderMessage(m, p, u, t) == HeaderMessage(m', p', u', t') {
      LastCutUnique(m + ":" + p + ":" + u, t, m' + ":" + p' + ":" + u', t', ':');
      LastCutUnique(m + ":" + p, u, m' + ":" + p', u', ':');
      CutOf(m, ':', p);
      CutOf(m', ':', p');
    }
  }

  /** The form with a body binds the digest as well. */
  lemma HeaderBodyMessageInjective(m: string, p: string, u: string, t: string, d: string,
                                   m': string, p': string, u': string, t': string, d': string)
    requires AcceptedHeader(m, u, t) && AcceptedHeader(m', u', t')
    requires HexDigest(d) && HexDigest(d')
    ensures HeaderBodyMessage(m, p, u, t, d) == HeaderBodyMessage(m', p', u', t', d')
       <==> m == m' && p == p' && u == u' && t == t' && d == d'
  {
    if HeaderBodyMessage(m, p, u, t, d) == HeaderBodyMessage(m', p', u', t', d') {
      LastCutUnique(HeaderMessage(m, p, u, t), d, HeaderMessage(m', p', u', t'), d', ':');
      HeaderMessageInjective(m, p, u, t, m', p', u', t');
    }
  }

  /** No header message is a header-with-body message: the field before the
      last colon is a name in one and a timestamp in the other. */
  lemma HeaderKindsDisjoint(m: string, p: string, u: string, t: string,
                            m': string, p': string, u': string, t': string, d': string)
    requires AcceptedHeader(m, u, t) && AcceptedHeader(m', u', t') && HexDigest(d')
    ensures HeaderMessage(m, p, u, t) != HeaderBodyMessage(m', p', u', t', d')
  {
    TimestampChars(t);
    TimestampChars(t');
    Addresses.ValidUsernameChars(u);
    if HeaderMessage(m, p, u, t) == HeaderBodyMessage(m', p', u', t', d') {
      LastCutUnique(m + ":" + p + ":" + u, t, HeaderMessage(m', p', u', t'), d', ':');
      LastCutUnique(m + ":" + p, u, m' + ":" + p' + ":" + u', t', ':');
      assert false;
    }
  }

  /** Domain separation: the four kinds of signed message never coincide. */
  lemma KindsDisjoint(reg: (string, string, string, string), mail: MailFields,
                      m: string, p: string, u: string, t: string,
                      m': string, p': string, u': string, t': string, d': string)
    requires AcceptedHeader(m, u, t) && AcceptedHeader(m', u', t') && HexDigest(d')
    ensures RegisterMessage(reg.0, reg.1, reg.2, reg.3) != MailMessage(mail)
    ensures RegisterMessage(reg.0, reg.1, reg.2, reg.3) != HeaderMessage(m, p, u, t)
    ensures RegisterMessage(reg.0, reg.1, reg.2, reg.3) != HeaderBodyMessage(m', p', u', t', d')
    ensures MailMessage(mail) != HeaderMessage(m, p, u, t)
    ensures MailMessage(mail) != HeaderBodyMessage(m', p', u', t', d')
    ensures HeaderMessage(m, p, u, t) != HeaderBodyMessage(m', p', u', t', d')
  {
    var a, b := RegisterFields(reg.0, reg.1, reg.2, reg.3), MailFieldList(mail);
    ReadObjectOf(a);
    ReadObjectOf(b);
    assert a[0].key != b[0].key;
    assert HeaderMessage(m, p, u, t)[0] == m[0];
    assert HeaderBodyMessage(m', p', u', t', d')[0] == m'[0];
    HeaderKindsDisjoint(m, p, u, t, m', p', u', t', d');
  }
}
