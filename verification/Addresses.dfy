/**
 Addresses (server/go/internal/protocol/address.go) and the Worker's
 normalization of them (server/cf/src/utils.ts).
 */
module Addresses {
  import opened Text

  /******* Names and domains *******/

  predicate WordChar(c: char) { IsLetter(c) || IsDigit(c) || c == '_' }

  /** The documented rule `^(?=.*[a-zA-Z])[a-zA-Z0-9_]{4,16}$`. */
  predicate ValidUsername(s: string) {
    && 4 <= |s| <= 16
    && (forall i :: 0 <= i < |s| ==> WordChar(s[i]))
    && (exists i :: 0 <= i < |s| && IsLetter(s[i]))
  }

  /** The scanning loop decides the documented rule. */
  method ScanUsername(s: string) returns (ok: bool)
    ensures ok <==> ValidUsername(s)
  {
    if |s| < 4 || |s| > 16 {
      return false;
    }
    var letter := false;
    for i := 0 to |s|
      invariant forall j :: 0 <= j < i ==> WordChar(s[j])
      invariant letter <==> exists j :: 0 <= j < i && IsLetter(s[j])
    {
      var c := s[i];
      if IsLetter(c) {
        letter := true;
      } else if IsDigit(c) || c == '_' {
      } else {
        return false;
      }
    }
    return letter;
  }

  predicate LabelChar(c: char) { IsLower(c) || IsDigit(c) || c == '-' }

  predicate ValidLabel(l: string) {
    && 1 <= |l| <= 63
    && l[0] != '-' && l[|l| - 1] != '-'
    && (forall i :: 0 <= i < |l| ==> LabelChar(l[i]))
  }

  predicate ValidHost(h: string) {
    1 <= |h| <= 253 && forall l :: l in Split(h, '.') ==> ValidLabel(l)
  }

  predicate ValidPort(p: string) { 1 <= |p| <= 5 && AllDigits(p) }

  /** A lowercase host name with an optional port. */
  predicate ValidDomain(d: string) {
    var (host, port, hasPort) := Cut(d, ':');
    (hasPort ==> ValidPort(port)) && ValidHost(host)
  }

  method ScanDomain(d: string) returns (ok: bool)
    ensures ok <==> ValidDomain(d)
  {
    var (host, port, hasPort) := Cut(d, ':');
    if hasPort {
      if |port| == 0 || |port| > 5 {
        return false;
      }
      for i := 0 to |port|
        invariant forall j :: 0 <= j < i ==> IsDigit(port[j])
      {
        if port[i] < '0' || port[i] > '9' {
          return false;
        }
      }
    }
    if |host| == 0 || |host| > 253 {
      return false;
    }
    var labels := Split(host, '.');
    for n := 0 to |labels|
      invariant forall j :: 0 <= j < n ==> ValidLabel(labels[j])
    {
      var part := labels[n];
      if |part| == 0 || |part| > 63 || part[0] == '-' || part[|part| - 1] == '-' {
        assert !ValidLabel(part) && part in labels;
        return false;
      }
      for i := 0 to |part|
        invariant forall j :: 0 <= j < i ==> LabelChar(part[j])
      {
        var c := part[i];
        if !(IsLower(c) || IsDigit(c) || c == '-') {
          assert !ValidLabel(part) && part in labels;
          return false;
        }
      }
    }
    return true;
  }

  predicate DomainChar(c: char) { LabelChar(c) || c == '.' || c == ':' }

  lemma {:induction false} LabelsGiveChars(h: string)
    requires forall l :: l in Split(h, '.') ==> ValidLabel(l)
    ensures forall i :: 0 <= i < |h| ==> LabelChar(h[i]) || h[i] == '.'
    decreases |h|
  {
    var (before, after, found) := Cut(h, '.');
    if found {
      var parts := Split(h, '.');
      assert parts == [before] + Split(after, '.');
      assert before in parts;
      forall l | l in Split(after, '.') ensures ValidLabel(l) {
        assert l in parts;
      }
      LabelsGiveChars(after);
      assert h == before + ['.'] + after;
    } else {
      assert h in Split(h, '.');
    }
  }

  /** A valid domain holds no "@" and is its own lowercase form. */
  lemma DomainChars(d: string)
    requires ValidDomain(d)
    ensures d != ""
    ensures forall i :: 0 <= i < |d| ==> DomainChar(d[i])
    ensures '@' !in d && Lower(d) == d
  {
    var (host, port, hasPort) := Cut(d, ':');
    LabelsGiveChars(host);
    hide Lower, DomainChar, ValidLabel, ValidPort;
    if hasPort { assert d == host + [':'] + port; }
    CharsStay(d);
  }

  lemma CharsStay(d: string)
    requires forall i :: 0 <= i < |d| ==> DomainChar(d[i])
    ensures '@' !in d && Lower(d) == d
  {
  }

  /******* The documented forms, written out *******/

  predicate AsciiLetter(c: char) { 'a' <= c <= 'z' || 'A' <= c <= 'Z' }

  /** 4 to 16 letters, digits and underscores, one of them a letter. */
  predicate IsName(s: string) {
    && 4 <= |s| <= 16
    && (forall i :: 0 <= i < |s| ==> AsciiLetter(s[i]) || '0' <= s[i] <= '9' || s[i] == '_')
    && (exists i :: 0 <= i < |s| && AsciiLetter(s[i]))
  }

  /** 1 to 63 lower-case letters, digits and inner hyphens. */
  predicate IsHostLabel(l: string) {
    && 1 <= |l| <= 63 && l[0] != '-' && l[|l| - 1] != '-'
    && forall i :: 0 <= i < |l| ==> 'a' <= l[i] <= 'z' || '0' <= l[i] <= '9' || l[i] == '-'
  }

  /** Labels with dots between them, at most 253 characters. */
  ghost predicate IsHostOf(host: string, labels: seq<string>) {
    && labels != [] && (forall l :: l in labels ==> IsHostLabel(l)) && host == Join(labels, '.') && |host| <= 253
  }

  /** Nothing, or a colon and 1 to 5 digits. */
  predicate IsPortPart(p: string) {
    p == "" || (2 <= |p| <= 6 && p[0] == ':' && forall i :: 1 <= i < |p| ==> '0' <= p[i] <= '9')
  }

  /** A host name with an optional port. */
  ghost predicate IsDomain(d: string) {
    exists host: string, labels: seq<string>, port: string ::
      IsHostOf(host, labels) && IsPortPart(port) && d == host + port
  }

  lemma NameForm(s: string)
    ensures ValidUsername(s) <==> IsName(s)
  {
  }

  lemma LabelForm(l: string)
    ensures ValidLabel(l) <==> IsHostLabel(l)
    ensures IsHostLabel(l) ==> '.' !in l && ':' !in l && l != ""
  {
  }

  lemma {:induction false} JoinedChars(labels: seq<string>)
    requires labels != [] && forall l :: l in labels ==> IsHostLabel(l)
    ensures ':' !in Join(labels, '.') && Join(labels, '.') != ""
  {
    assert labels[0] in labels;
    LabelForm(labels[0]);
    if |labels| > 1 {
      JoinedChars(labels[1..]);
    }
    hide IsHostLabel;
  }

  lemma HostForm(h: string)
    ensures ValidHost(h) <==> exists labels: seq<string> :: IsHostOf(h, labels)
  {
    hide ValidLabel, IsHostLabel;
    if ValidHost(h) {
      var labels := Split(h, '.');
      JoinSplit(h, '.');
      forall l | l in labels ensures IsHostLabel(l) {
        LabelForm(l);
      }
      assert IsHostOf(h, labels);
    }
    if labels: seq<string> :| IsHostOf(h, labels) {
      forall l | l in labels ensures '.' !in l && ValidLabel(l) {
        LabelForm(l);
      }
      SplitJoin(labels, '.');
      JoinedChars(labels);
    }
  }

  lemma PortForm(p: string)
    ensures ValidPort(p) <==> IsPortPart(":" + p)
  {
    if IsPortPart(":" + p) {
      forall i | 0 <= i < |p| ensures IsDigit(p[i]) {
        assert (":" + p)[i + 1] == p[i];
      }
    }
  }

  lemma DomainForm(d: string)
    ensures ValidDomain(d) <==> IsDomain(d)
  {
    hide ValidHost, ValidPort, IsHostOf, IsPortPart;
    if ValidDomain(d) {
      var (host, port, hasPort) := Cut(d, ':');
      HostForm(host);
      var labels: seq<string> :| IsHostOf(host, labels);
      PortForm(port);
      NoPort();
      assert d == host + if hasPort then ":" + port else "";
    }
    if host: string, labels: seq<string>, port: string :|
      IsHostOf(host, labels) && IsPortPart(port) && d == host + port
    {
      HostForm(host);
      DomainCut(host, labels, port);
      PortForm(if port == "" then "" else port[1..]);
    }
  }

  lemma NoPort()
    ensures IsPortPart("")
  {
  }

  lemma DomainCut(host: string, labels: seq<string>, port: string)
    requires IsHostOf(host, labels) && IsPortPart(port)
    ensures Cut(host + port, ':') == if port == "" then (host, "", false) else (host, port[1..], true)
    ensures port != "" ==> port == ":" + port[1..]
  {
    JoinedChars(labels);
    hide IsHostLabel;
    if port == "" {
      assert host + port == host;
    } else {
      assert host + port == host + [':'] + port[1..];
      CutOf(host, ':', port[1..]);
    }
  }

  /******* Parsed addresses *******/

  /** A user on some instance, or a whole instance (`local` empty). */
  datatype Address = Address(local: string, domain: string, own: bool)

  datatype ParseError = BadUsername | BadDomain

  datatype Parsed = Ok(address: Address) | Err(error: ParseError)

  /** Parses "user" (this instance) or "user@domain". */
  function ParseAddress(s: string, instanceDomain: string): Parsed {
    var (local, domain, qualified) := Cut(s, '@');
    if !ValidUsername(local) then Err(BadUsername)
    else
      var own := Lower(instanceDomain);
      if !qualified then Ok(Address(local, own, true))
      else
        var domain := Lower(domain);
        if !ValidDomain(domain) then Err(BadDomain)
        else Ok(Address(local, domain, domain == own))
  }

  /** Also accepts a bare domain: a dotted string without "@". */
  function ParseBlockTarget(s: string, instanceDomain: string): Parsed {
    if '@' !in s && '.' in s then
      var domain := Lower(s);
      if !ValidDomain(domain) then Err(BadDomain)
      else Ok(Address("", domain, domain == Lower(instanceDomain)))
    else ParseAddress(s, instanceDomain)
  }

  /** What the parser takes: a name alone, for a user of this instance, or a name, an at
      sign and a domain in any case. */
  lemma AddressForm(s: string, instanceDomain: string, a: Address)
    ensures ParseAddress(s, instanceDomain) == Ok(a) <==>
              || (IsName(s) && a == Address(s, Lower(instanceDomain), true))
              || exists d: string :: IsName(a.local) && s == a.local + "@" + d && IsDomain(Lower(d))
                   && a == Address(a.local, Lower(d), Lower(d) == Lower(instanceDomain))
  {
    hide IsName, IsDomain, ValidUsername, ValidDomain, Lower;
    var (local, domain, qualified) := Cut(s, '@');
    NameForm(local);
    DomainForm(Lower(domain));
    if IsName(s) {
      NameForm(s);
      ValidUsernameChars(s);
    }
    if d: string :| IsName(a.local) && s == a.local + "@" + d && IsDomain(Lower(d)) {
      NameForm(a.local);
      ValidUsernameChars(a.local);
      CutOf(a.local, '@', d);
    }
  }

  /** A target to block may also be a domain, if it has a dot in it. */
  lemma TargetForm(s: string, instanceDomain: string, a: Address)
    ensures ParseBlockTarget(s, instanceDomain) == Ok(a) <==>
              || ParseAddress(s, instanceDomain) == Ok(a)
              || ('@' !in s && '.' in s && IsDomain(Lower(s)) && a == Address("", Lower(s), Lower(s) == Lower(instanceDomain)))
  {
    hide IsDomain, ValidUsername, ValidDomain, Lower;
    DomainForm(Lower(s));
    if ParseAddress(s, instanceDomain).Ok? {
      AddressIsTarget(s, instanceDomain);
    }
  }

  /** The database form of an address. */
  function Stored(a: Address): string {
    if a.local == "" then a.domain
    else if a.own then a.local
    else a.local + "@" + a.domain
  }

  /** What a parse on an instance can produce, told without the parser. */
  predicate Canonical(a: Address, instanceDomain: string) {
    && a.own == (a.domain == Lower(instanceDomain))
    && (a.local == "" ==> '.' in a.domain)
    && (a.local != "" ==> ValidUsername(a.local))
    && (!a.own || a.local == "" ==> ValidDomain(a.domain))
  }

  lemma ValidUsernameChars(s: string)
    requires ValidUsername(s)
    ensures '@' !in s && '.' !in s && ':' !in s && s != ""
  {
  }

  /** Parsing yields canonical addresses only. */
  lemma ParsedIsCanonical(s: string, instanceDomain: string)
    requires ParseBlockTarget(s, instanceDomain).Ok?
    ensures Canonical(ParseBlockTarget(s, instanceDomain).address, instanceDomain)
  {
    LowerIdempotent(instanceDomain);
    if '@' !in s && '.' in s {
      var k :| 0 <= k < |s| && s[k] == '.';
      assert Lower(s)[k] == '.';
    } else {
      ValidUsernameChars(Cut(s, '@').0);
    }
  }

  /** A mail address is a block target that names a user. */
  lemma AddressIsTarget(s: string, instanceDomain: string)
    requires ParseAddress(s, instanceDomain).Ok?
    ensures ParseBlockTarget(s, instanceDomain) == ParseAddress(s, instanceDomain)
    ensures ParseAddress(s, instanceDomain).address.local != ""
  {
    ValidUsernameChars(Cut(s, '@').0);
  }

  /** Re-parsing the stored form of any canonical address gives it back. */
  lemma ReparseCanonical(a: Address, instanceDomain: string)
    requires Canonical(a, instanceDomain)
    ensures ParseBlockTarget(Stored(a), instanceDomain) == Ok(a)
    ensures a.local != "" ==> ParseAddress(Stored(a), instanceDomain) == Ok(a)
  {
    if a.local == "" {
      DomainChars(a.domain);
    } else {
      ValidUsernameChars(a.local);
      if !a.own {
        DomainChars(a.domain);
        assert Stored(a) == a.local + ['@'] + a.domain;
        CutOf(a.local, '@', a.domain);
        assert '@' in Stored(a);
      }
    }
  }

  /** Normal form: storing and parsing again changes nothing. */
  lemma StoredReparses(s: string, instanceDomain: string)
    requires ParseBlockTarget(s, instanceDomain).Ok?
    ensures var a := ParseBlockTarget(s, instanceDomain).address;
            ParseBlockTarget(Stored(a), instanceDomain) == Ok(a)
  {
    ParsedIsCanonical(s, instanceDomain);
    ReparseCanonical(ParseBlockTarget(s, instanceDomain).address, instanceDomain);
  }

  /** No two targets share a stored form. */
  lemma StoredInjective(a: Address, b: Address, instanceDomain: string)
    requires Canonical(a, instanceDomain) && Canonical(b, instanceDomain)
    ensures Stored(a) == Stored(b) <==> a == b
  {
    ReparseCanonical(a, instanceDomain);
    ReparseCanonical(b, instanceDomain);
  }

  /** Two accepted spellings store alike exactly when they name the same user
      (to the letter) on the same domain (up to case). */
  lemma OneStoredForm(s: string, t: string, instanceDomain: string)
    requires ParseAddress(s, instanceDomain).Ok? && ParseAddress(t, instanceDomain).Ok?
    ensures var (ls, ds, qs), (lt, dt, qt) := Cut(s, '@'), Cut(t, '@');
            Stored(ParseAddress(s, instanceDomain).address) == Stored(ParseAddress(t, instanceDomain).address)
            <==>
            && ls == lt
            && Lower(if qs then ds else instanceDomain) == Lower(if qt then dt else instanceDomain)
  {
    AddressIsTarget(s, instanceDomain);
    AddressIsTarget(t, instanceDomain);
    ParsedIsCanonical(s, instanceDomain);
    ParsedIsCanonical(t, instanceDomain);
    StoredInjective(ParseAddress(s, instanceDomain).address, ParseAddress(t, instanceDomain).address, instanceDomain);
  }

  /** The stored form tells a local user from everything else. */
  lemma StoredIsBareName(a: Address, name: string, instanceDomain: string)
    requires Canonical(a, instanceDomain) && ValidUsername(name)
    ensures Stored(a) == name <==> a == Address(name, Lower(instanceDomain), true)
  {
    LowerIdempotent(instanceDomain);
    var b := Address(name, Lower(instanceDomain), true);
    ValidUsernameChars(name);
    StoredInjective(a, b, instanceDomain);
  }

  /** The view another instance takes of a qualified address: only the
      ownership changes, so each side stores what the other calls remote. */
  lemma OtherInstanceView(s: string, here: string, there: string)
    requires ParseAddress(s, here).Ok? && '@' in s
    ensures var a := ParseAddress(s, here).address;
            ParseAddress(s, there) == Ok(Address(a.local, a.domain, a.domain == Lower(there)))
  {
  }

  /******* The Worker *******/

  /** utils.ts, `normalizeAddress` */
  function WorkerNormalize(addr: string, instanceDomain: string): string {
    var at := IndexOf(addr, '@');
    if at == |addr| then (if '.' in addr then Lower(addr) else addr)
    else
      var domain := Lower(addr[at + 1..]);
      if domain == Lower(instanceDomain) then addr[..at] else addr[..at] + "@" + domain
  }

  /** utils.ts, `addressDomain` */
  function WorkerDomain(addr: string, instanceDomain: string): string {
    var at := IndexOf(addr, '@');
    if at == |addr| then (if '.' in addr then Lower(addr) else Lower(instanceDomain))
    else Lower(addr[at + 1..])
  }

  /** Both servers keep the same string for every target the Go parser takes. */
  lemma WorkerAgrees(s: string, instanceDomain: string)
    requires ParseBlockTarget(s, instanceDomain).Ok?
    ensures var a := ParseBlockTarget(s, instanceDomain).address;
            && WorkerNormalize(s, instanceDomain) == Stored(a)
            && WorkerDomain(s, instanceDomain) == a.domain
  {
    var at := IndexOf(s, '@');
    if at == |s| {
      assert '@' !in s;
    } else {
      ValidUsernameChars(s[..at]);
    }
  }

  /** The one kind of text whose Worker form is not in normal form: an own address
      whose local part, alone, looks like a domain in upper case. */
  predicate LooksLikeDomain(s: string, instanceDomain: string) {
    var (local, domain, qualified) := Cut(s, '@');
    qualified && Lower(domain) == Lower(instanceDomain) && '.' in local && Lower(local) != local
  }

  /** On any text, also those the Go parser refuses: normalizing twice is
      normalizing once exactly for the others. */
  lemma WorkerNormalizeIdempotent(s: string, instanceDomain: string)
    ensures WorkerNormalize(WorkerNormalize(s, instanceDomain), instanceDomain) == WorkerNormalize(s, instanceDomain)
       <==> !LooksLikeDomain(s, instanceDomain)
  {
    hide Lower;
    var (local, domain, qualified) := Cut(s, '@');
    if !qualified {
      PlainNormalized(s, instanceDomain);
      PlainNormalized(if '.' in s then Lower(s) else s, instanceDomain);
      LowerKeepsMarks(s);
      LowerIdempotent(s);
    } else if Lower(domain) == Lower(instanceDomain) {
      assert WorkerNormalize(s, instanceDomain) == local;
      PlainNormalized(local, instanceDomain);
    } else {
      var t := local + ['@'] + Lower(domain);
      assert WorkerNormalize(s, instanceDomain) == t;
      CutOf(local, '@', Lower(domain));
      LowerIdempotent(domain);
      assert Cut(t, '@') == (local, Lower(domain), true);
    }
  }

  lemma PlainNormalized(s: string, instanceDomain: string)
    requires '@' !in s
    ensures WorkerNormalize(s, instanceDomain) == if '.' in s then Lower(s) else s
  {
  }

  lemma LowerKeepsMarks(s: string)
    ensures '@' in Lower(s) <==> '@' in s
    ensures '.' in Lower(s) <==> '.' in s
  {
    forall i | 0 <= i < |s| ensures (Lower(s)[i] == '@' <==> s[i] == '@') && (Lower(s)[i] == '.' <==> s[i] == '.') {
    }
    if '@' in s {
      var i :| 0 <= i < |s| && s[i] == '@';
      assert Lower(s)[i] == '@';
    }
    if '.' in s {
      var i :| 0 <= i < |s| && s[i] == '.';
      assert Lower(s)[i] == '.';
    }
  }

  /** Such a text exists: "Bob.x@own" becomes "Bob.x", and that becomes "bob.x". */
  lemma NotNormal()
    ensures LooksLikeDomain("Bob.x@own", "own")
    ensures WorkerNormalize("Bob.x@own", "own") == "Bob.x" && WorkerNormalize("Bob.x", "own") == "bob.x"
  {
    assert "Bob.x@own" == "Bob.x" + ['@'] + "own";
    CutOf("Bob.x", '@', "own");
    assert "Bob.x"[0] == 'B' && "Bob.x"[3] == '.';
    assert Lower("Bob.x")[0] == 'b';
    PlainNormalized("Bob.x", "own");
    assert Lower("Bob.x") == "bob.x";
  }
}
