/**
 Signatures have many spellings (`decodeB64` in server/go/internal/protocol/sig.go),
 and the set of seen signatures is keyed by the spelling.
 */
module Respelling {
  import opened Text
  import opened Handlers
  import opened Invariants
  import Store
  import TtlSet

  predicate Blank(c: char) { c in " \t\n\r" }

  function Standard(c: char): char { if c == '-' then '+' else if c == '_' then '/' else c }

  /** Without blanks, in the standard alphabet. */
  function Mapped(s: string): string {
    if s == "" then "" else (if Blank(s[0]) then [] else [Standard(s[0])]) + Mapped(s[1..])
  }

  function Unpadded(s: string): string {
    if s != "" && s[|s| - 1] == '=' then Unpadded(s[..|s| - 1]) else s
  }

  /** What `decodeB64` hands to the base64 decoder. */
  function Decoded64(s: string): string { Unpadded(Mapped(s)) }

  lemma {:induction false} MappedConcat(s: string, t: string)
    ensures Mapped(s + t) == Mapped(s) + Mapped(t)
  {
    if s == "" {
      assert s + t == t;
    } else {
      assert (s + t)[1..] == s[1..] + t;
      MappedConcat(s[1..], t);
      Assoc(if Blank(s[0]) then [] else [Standard(s[0])], Mapped(s[1..]), Mapped(t));
    }
  }

  /** One more "=" is another string for the same bytes. */
  lemma PaddedIsSame(s: string)
    ensures Decoded64(s + "=") == Decoded64(s) && s + "=" != s
  {
    assert Mapped("=") == "=" by { assert Mapped("") == ""; }
    hide Mapped, Unpadded;
    MappedConcat(s, "=");
    UnpaddedOnce(Mapped(s));
    assert |s + "="| == |s| + 1;
  }

  lemma UnpaddedOnce(t: string)
    ensures Unpadded(t + "=") == Unpadded(t)
  {
    assert (t + "=")[..|t + "="| - 1] == t;
  }

  /** So is one with a blank more, anywhere. */
  lemma BlankIsNothing(a: string, c: char, b: string)
    requires c == ' ' || c == '\t' || c == '\n' || c == '\r'
    ensures Decoded64(a + [c] + b) == Decoded64(a + b)
  {
    OneMapped(c);
    hide Mapped, Unpadded;
    Insert(a, [c], b);
    MappedConcat(a, b);
    assert Mapped(a) + "" == Mapped(a);
  }

  /** Or with "-" and "_" for "+" and "/". */
  lemma UrlIsStandard(a: string, b: string)
    ensures Decoded64(a + "-" + b) == Decoded64(a + "+" + b) && Decoded64(a + "_" + b) == Decoded64(a + "/" + b)
  {
    MappedOne('-');
    MappedOne('+');
    MappedOne('_');
    MappedOne('/');
    hide Mapped, Unpadded;
    Insert(a, "-", b);
    Insert(a, "+", b);
    Insert(a, "_", b);
    Insert(a, "/", b);
  }

  lemma Insert(a: string, c: string, b: string)
    ensures Mapped(a + c + b) == Mapped(a) + Mapped(c) + Mapped(b)
  {
    MappedConcat(a + c, b);
    MappedConcat(a, c);
    hide Mapped;
  }

  lemma OneMapped(c: char)
    ensures c == ' ' || c == '\t' || c == '\n' || c == '\r' ==> Mapped([c]) == ""
  {
    assert [c][1..] == "" && Mapped("") == "";
  }

  lemma MappedOne(c: char)
    requires c == '-' || c == '+' || c == '_' || c == '/'
    ensures Mapped([c]) == if c == '-' || c == '+' then "+" else "/"
  {
    assert [c][1..] == "" && Mapped("") == "";
  }

  /** Verification reads a signature only through that decoder. */
  ghost predicate Lenient(env: Env) {
    forall k, msg, sig, sig' | Decoded64(sig) == Decoded64(sig') :: Verifies(env, k, msg, sig) == Verifies(env, k, msg, sig')
  }

  /** A key that was never added. */
  predicate Unknown(s: TtlSet.State, key: string) { key !in s.cur && key !in s.prev }

  lemma UnknownIsNew(c: TtlSet.Config, s: TtlSet.State, key: string, other: string, now: nat)
    requires Unknown(s, key) && key != other
    ensures TtlSet.AddTo(c, s, key, now).1
    ensures Unknown(TtlSet.AddTo(c, s, other, now).0, key)
  {
  }

  /** So a request that was accepted is accepted again at once, in another spelling
      and for another token, however long signatures are remembered. */
  lemma RespelledPasses(env: Env, s: Instance, method_: string, path: string, h: Header, body: Option<string>, now: nat,
                        pow: string)
    requires Lenient(env) && Authenticate(env, s, method_, path, h, body, now).1.User?
    requires pow != "" && PowOk(env, pow, h.username, now)
    requires Unknown(s.seen, env.sha256(h.signature + "=")) && env.sha256(h.signature + "=") != env.sha256(h.signature)
    requires Unknown(s.spent, env.sha256(pow)) && env.sha256(pow) != env.sha256(h.pow)
    ensures var s1 := Authenticate(env, s, method_, path, h, body, now).0;
            var again := h.(signature := h.signature + "=", pow := pow);
            Authenticate(env, s1, method_, path, again, body, now).1 == User(h.username)
  {
    PaddedIsSame(h.signature);
    var sig := h.signature + "=";
    AuthenticateFrame(env, s, method_, path, h, body, now);
    SameChecks(env, s.tables.users, method_, path, h, body, now, pow);
    var s1 := Authenticate(env, s, method_, path, h, body, now).0;
    AuthenticatedSets(env, s, method_, path, h, body, now);
    UnknownIsNew(SEEN, s.seen, env.sha256(sig), env.sha256(h.signature), now);
    UnknownIsNew(SEEN, s1.seen, env.sha256(sig), env.sha256(h.signature), now);
    UnknownIsNew(SPENT, s.spent, env.sha256(pow), env.sha256(h.pow), now);
    UnknownIsNew(SPENT, s1.spent, env.sha256(pow), env.sha256(h.pow), now);
    hide AuthChecks, TtlSet.AddTo, Unknown, Decoded64, Lenient;
  }

  lemma AuthenticatedSets(env: Env, s: Instance, method_: string, path: string, h: Header, body: Option<string>, now: nat)
    requires Authenticate(env, s, method_, path, h, body, now).1.User?
    ensures AuthChecks(env, s.tables.users, method_, path, h, body, now) == User(h.username)
    ensures var s' := Authenticate(env, s, method_, path, h, body, now).0;
            && s'.seen == TtlSet.AddTo(SEEN, s.seen, env.sha256(h.signature), now).0
            && s'.spent == TtlSet.AddTo(SPENT, s.spent, env.sha256(h.pow), now).0
  {
    hide TtlSet.AddTo, PowOk, InWindow, Verifies, HeaderText;
  }

  lemma SameChecks(env: Env, users: Store.Users, method_: string, path: string, h: Header, body: Option<string>, now: nat,
                   pow: string)
    requires Lenient(env) && AuthChecks(env, users, method_, path, h, body, now).User?
    requires pow != "" && PowOk(env, pow, h.username, now)
    ensures var again := h.(signature := h.signature + "=", pow := pow);
            AuthChecks(env, users, method_, path, again, body, now) == User(h.username)
  {
    PaddedIsSame(h.signature);
    var again := h.(signature := h.signature + "=", pow := pow);
    assert HeaderText(env, method_, path, again, body) == HeaderText(env, method_, path, h, body);
    assert |again.signature| > 0;
    hide PowOk, InWindow, HeaderText, Decoded64, Verifies;
  }
}
