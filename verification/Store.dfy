/**
 The database (server/go/internal/store/sqlite/sqlite.go and its first
 migration) as tables with unique keys. Each operation is one transaction.
 */
module Store {
  import opened Text

  /** A registered account. Empty keys mean a destroyed one, whose row stays to
      lock the name. */
  datatype User = User(kem: string, sig: string, createdAt: int)

  /** A stored message. The parties are in stored form. */
  datatype Mail = Mail(id: string, sender: string, recipient: string,
                       encKeySender: string, encKeyRecipient: string,
                       encSubject: string, encBody: string, size: int,
                       signature: string, timestamp: int, encReplyTo: string)

  type Users = map<string, User>

  /** Mail rows by `sig_hash`, a column the schema declares UNIQUE. */
  type MailTable = map<string, Mail>

  /** Creation time by (blocker, blocked), the primary key. */
  type Blocks = map<(string, string), int>

  datatype Tables = Tables(users: Users, mail: MailTable, blocks: Blocks)

  const EMPTY := Tables(map[], map[], map[])

  predicate PartyTo(m: Mail, name: string) { m.sender == name || m.recipient == name }

  /** Is a name equal to this one up to ASCII case taken? */
  predicate Taken(users: Users, name: string) {
    exists u :: u in users && Lower(u) == Lower(name)
  }

  function UserCreated(t: Tables, name: string, u: User): (Tables, bool) {
    if Taken(t.users, name) then (t, false)
    else (t.(users := t.users[name := u]), true)
  }

  function WithoutParty(mail: MailTable, name: string): MailTable {
    map h | h in mail && !PartyTo(mail[h], name) :: mail[h]
  }

  function KeysRotated(t: Tables, name: string, kem: string, sig: string): (Tables, bool) {
    if name !in t.users then (t, false)
    else
      (t.(users := t.users[name := t.users[name].(kem := kem, sig := sig)],
          mail := WithoutParty(t.mail, name)), true)
  }

  function UserDestroyed(t: Tables, name: string): (Tables, bool) {
    if name !in t.users then (t, false)
    else
      (Tables(t.users[name := t.users[name].(kem := "", sig := "")],
              WithoutParty(t.mail, name),
              map k | k in t.blocks && k.0 != name && k.1 != name :: t.blocks[k]), true)
  }

  predicate IdTaken(mail: MailTable, id: string) {
    exists h :: h in mail && mail[h].id == id
  }

  /** What `InsertMail` answers: the row's id and whether it was there before, or
      no free id in three draws. */
  datatype Inserted = Stored(id: string, dup: bool) | NoId

  /** `InsertMail` from its `attempt`-th draw on. */
  function InsertFrom(mail: MailTable, h: string, m: Mail, ids: seq<string>): (MailTable, Inserted)
    decreases |ids|
  {
    if ids == [] then (mail, NoId)
    else if h !in mail && !IdTaken(mail, ids[0]) then
      (mail[h := m.(id := ids[0])], Stored(ids[0], false))
    else if h in mail then (mail, Stored(mail[h].id, true))
    else InsertFrom(mail, h, m, ids[1..])
  }

  function MailDeleted(mail: MailTable, id: string, name: string): (MailTable, bool) {
    if exists h :: h in mail && mail[h].id == id && PartyTo(mail[h], name) then
      (map h | h in mail && !(mail[h].id == id && PartyTo(mail[h], name)) :: mail[h], true)
    else (mail, false)
  }

  /** References of the mail a user received, or sent. The order of a list is left out. */
  function MailListed(mail: MailTable, name: string, sent: bool): set<string> {
    set h | h in mail && (if sent then mail[h].sender else mail[h].recipient) == name
  }

  /** References of the mail with this identifier that a user is party to. */
  function MailFound(mail: MailTable, id: string, name: string): set<string> {
    set h | h in mail && mail[h].id == id && PartyTo(mail[h], name)
  }

  function BlocksListed(blocks: Blocks, blocker: string): set<(string, int)> {
    set k | k in blocks && k.0 == blocker :: (k.1, blocks[k])
  }

  predicate AnyBlocked(blocks: Blocks, blocker: string, candidates: seq<string>) {
    exists c :: c in candidates && (blocker, c) in blocks
  }

  /** The database, updated in place. `sha256` makes the signature hashes. */
  class DB {
    const sha256: string -> string
    var users: Users
    var mail: MailTable
    var blocks: Blocks

    ghost function Abs(): Tables
      reads this
    {
      Tables(users, mail, blocks)
    }

    constructor (sha256: string -> string)
      ensures this.sha256 == sha256 && Abs() == EMPTY
    {
      this.sha256 := sha256;
      users, mail, blocks := map[], map[], map[];
    }

    method CreateUser(name: string, u: User) returns (ok: bool)
      modifies this
      ensures (Abs(), ok) == UserCreated(old(Abs()), name, u)
    {
      if Taken(users, name) {
        return false;
      }
      users := users[name := u];
      return true;
    }

    method GetUser(name: string) returns (u: Option<User>)
      ensures u == if name in users then Some(users[name]) else None
    {
      if name in users {
        return Some(users[name]);
      }
      return None;
    }

    method DeleteParty(name: string)
      modifies this`mail
      ensures mail == WithoutParty(old(mail), name)
    {
      mail := map h | h in mail && !PartyTo(mail[h], name) :: mail[h];
    }

    method RotateKeys(name: string, kem: string, sig: string) returns (ok: bool)
      modifies this
      ensures (Abs(), ok) == KeysRotated(old(Abs()), name, kem, sig)
    {
      if name !in users {
        return false;
      }
      users := users[name := users[name].(kem := kem, sig := sig)];
      DeleteParty(name);
      return true;
    }

    method DestroyUser(name: string) returns (ok: bool)
      modifies this
      ensures (Abs(), ok) == UserDestroyed(old(Abs()), name)
    {
      if name !in users {
        return false;
      }
      users := users[name := users[name].(kem := "", sig := "")];
      DeleteParty(name);
      blocks := map k | k in blocks && k.0 != name && k.1 != name :: blocks[k];
      return true;
    }

    method MailIDBySignature(signature: string) returns (id: Option<string>)
      ensures id == if sha256(signature) in mail then Some(mail[sha256(signature)].id) else None
    {
      var h := sha256(signature);
      if h in mail {
        return Some(mail[h].id);
      }
      return None;
    }

    /** `ids` are the identifiers `NewMailID` draws, one an attempt. */
    method InsertMail(m: Mail, ids: seq<string>) returns (r: Inserted)
      modifies this`mail
      ensures (mail, r) == InsertFrom(old(mail), sha256(m.signature), m, ids)
    {
      var h := sha256(m.signature);
      var attempt := 0;
      while attempt < |ids|
        invariant 0 <= attempt <= |ids|
        invariant mail == old(mail)
        invariant InsertFrom(old(mail), h, m, ids) == InsertFrom(old(mail), h, m, ids[attempt..])
      {
        var id := ids[attempt];
        if h !in mail && !IdTaken(mail, id) {
          mail := mail[h := m.(id := id)];
          return Stored(id, false);
        }
        var known := MailIDBySignature(m.signature);
        if known.Some? {
          return Stored(known.value, true);
        }
        assert ids[attempt..][1..] == ids[attempt + 1..];
        attempt := attempt + 1;
      }
      return NoId;
    }

    method DeleteMail(id: string, name: string) returns (ok: bool)
      modifies this`mail
      ensures (mail, ok) == MailDeleted(old(mail), id, name)
    {
      var kept := map h | h in mail && !(mail[h].id == id && PartyTo(mail[h], name)) :: mail[h];
      ok := exists h :: h in mail && mail[h].id == id && PartyTo(mail[h], name);
      if ok {
        mail := kept;
      }
    }

    method ListMail(name: string, sent: bool) returns (refs: set<string>)
      ensures refs == MailListed(mail, name, sent)
    {
      if sent {
        refs := set h | h in mail && mail[h].sender == name;
      } else {
        refs := set h | h in mail && mail[h].recipient == name;
      }
    }

    method GetMail(id: string, name: string) returns (refs: set<string>)
      ensures refs == MailFound(mail, id, name)
    {
      refs := set h | h in mail && mail[h].id == id && (mail[h].sender == name || mail[h].recipient == name);
    }

    method ListBlocks(blocker: string) returns (rows: set<(string, int)>)
      ensures rows == BlocksListed(blocks, blocker)
    {
      rows := set k | k in blocks && k.0 == blocker :: (k.1, blocks[k]);
    }

    method Blocked(blocker: string, candidates: seq<string>) returns (blocked: bool)
      ensures blocked <==> AnyBlocked(blocks, blocker, candidates)
    {
      for i := 0 to |candidates|
        invariant forall j :: 0 <= j < i ==> (blocker, candidates[j]) !in blocks
      {
        if (blocker, candidates[i]) in blocks {
          return true;
        }
      }
      return false;
    }

    method AddBlock(blocker: string, target: string, at: int)
      modifies this`blocks
      ensures blocks == old(blocks)[(blocker, target) := at]
    {
      blocks := blocks[(blocker, target) := at];
    }

    method RemoveBlock(blocker: string, targets: seq<string>)
      modifies this`blocks
      ensures blocks == map k | k in old(blocks) && !(k.0 == blocker && k.1 in targets) :: old(blocks)[k]
    {
      for i := 0 to |targets|
        invariant blocks == map k | k in old(blocks) && !(k.0 == blocker && k.1 in targets[..i]) :: old(blocks)[k]
      {
        assert targets[..i + 1] == targets[..i] + [targets[i]];
        blocks := blocks - {(blocker, targets[i])};
      }
      assert targets[..|targets|] == targets;
    }
  }
}
