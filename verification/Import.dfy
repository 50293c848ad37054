/**
 Import of a Worker database into an empty one
 (server/go/internal/store/sqlite/import.go). The source tables come as rows in
 the order the import reads them.
 */
module Import {
  import opened Text
  import opened Addresses
  import Store

  /******* Users *******/

  datatype UserRow = UserRow(name: string, kem: string, sig: string, at: int)

  /** The binary collation of SQLite. */
  predicate LexLess(a: string, b: string) {
    if b == "" then false
    else if a == "" then true
    else a[0] < b[0] || (a[0] == b[0] && LexLess(a[1..], b[1..]))
  }

  /** `ORDER BY created_at, username` */
  predicate Before(x: UserRow, y: UserRow) {
    x.at < y.at || (x.at == y.at && LexLess(x.name, y.name))
  }

  ghost predicate Ordered(rows: seq<UserRow>) {
    forall i, j :: 0 <= i < j < |rows| ==> Before(rows[i], rows[j])
  }

  predicate SameName(x: UserRow, y: UserRow) { Lower(x.name) == Lower(y.name) }

  /** No earlier row has this name in another spelling. */
  predicate FirstOfName(rows: seq<UserRow>, i: nat)
    requires i < |rows|
  {
    forall j :: 0 <= j < i ==> !SameName(rows[j], rows[i])
  }

  function Account(r: UserRow): Store.User { Store.User(r.kem, r.sig, r.at) }

  /** Names of the rows up to `n` that came too late. */
  function Late(rows: seq<UserRow>, n: nat): seq<string>
    requires n <= |rows|
  {
    if n == 0 then []
    else Late(rows, n - 1) + if FirstOfName(rows, n - 1) then [] else [rows[n - 1].name]
  }

  /** These are, in order, the rows that came too late, by number. */
  ghost predicate LateRows(rows: seq<UserRow>, n: nat, late: seq<nat>)
    requires n <= |rows|
  {
    && (forall k :: 0 <= k < |late| ==> late[k] < n && !FirstOfName(rows, late[k]))
    && (forall k, l :: 0 <= k < l < |late| ==> late[k] < late[l])
    && (forall i :: 0 <= i < n && !FirstOfName(rows, i) ==> i in late)
  }

  predicate NamesOf(rows: seq<UserRow>, late: seq<nat>, names: seq<string>) {
    |names| == |late| && forall k :: 0 <= k < |late| ==> late[k] < |rows| && names[k] == rows[late[k]].name
  }

  lemma NextLate(rows: seq<UserRow>, n: nat, late: seq<nat>)
    requires n < |rows| && LateRows(rows, n, late)
    ensures LateRows(rows, n + 1, if FirstOfName(rows, n) then late else late + [n])
  {
    hide FirstOfName;
    var late' := if FirstOfName(rows, n) then late else late + [n];
    forall i | 0 <= i < n + 1 && !FirstOfName(rows, i) ensures i in late' {
      if i == n {
        assert late'[|late|] == n;
      }
    }
  }

  lemma NoneLate(rows: seq<UserRow>)
    ensures LateRows(rows, 0, []) && NamesOf(rows, [], Late(rows, 0))
  {
  }

  lemma NextName(rows: seq<UserRow>, n: nat, late: seq<nat>)
    requires n < |rows| && NamesOf(rows, late, Late(rows, n))
    ensures NamesOf(rows, if FirstOfName(rows, n) then late else late + [n], Late(rows, n + 1))
  {
    hide FirstOfName;
  }

  /** The names reported as skipped are those of these rows, as they were spelled. */
  lemma {:induction false} SkippedNames(rows: seq<UserRow>, n: nat)
    requires n <= |rows|
    ensures exists late: seq<nat> :: LateRows(rows, n, late) && NamesOf(rows, late, Late(rows, n))
  {
    hide FirstOfName, LateRows, NamesOf, Late;
    if n == 0 {
      NoneLate(rows);
    } else {
      SkippedNames(rows, n - 1);
      var late: seq<nat> :| LateRows(rows, n - 1, late) && NamesOf(rows, late, Late(rows, n - 1));
      NextLate(rows, n - 1, late);
      NextName(rows, n - 1, late);
    }
  }

  /** Every name class has a first row. */
  lemma {:induction false} ClassHasFirst(rows: seq<UserRow>, i: nat)
    requires i < |rows|
    ensures exists j :: 0 <= j <= i && SameName(rows[j], rows[i]) && FirstOfName(rows, j)
  {
    if FirstOfName(rows, i) {
      assert SameName(rows[i], rows[i]);
    } else {
      var j :| 0 <= j < i && SameName(rows[j], rows[i]);
      ClassHasFirst(rows, j);
      var k :| 0 <= k <= j && SameName(rows[k], rows[j]) && FirstOfName(rows, k);
      assert SameName(rows[k], rows[i]);
    }
  }

  ghost predicate UsersFrom(rows: seq<UserRow>, n: nat, users: Store.Users)
    requires n <= |rows|
  {
    && (forall i :: 0 <= i < n && FirstOfName(rows, i) ==>
          rows[i].name in users && users[rows[i].name] == Store.User(rows[i].kem, rows[i].sig, rows[i].at))
    && (forall u :: u in users ==> exists i :: 0 <= i < n && FirstOfName(rows, i) && rows[i].name == u)
  }

  /** A name is taken exactly when an earlier row has it in some spelling. */
  lemma TakenByEarlier(rows: seq<UserRow>, n: nat, users: Store.Users)
    requires n < |rows| && UsersFrom(rows, n, users)
    ensures Store.Taken(users, rows[n].name) <==> !FirstOfName(rows, n)
  {
    if Store.Taken(users, rows[n].name) {
      var u :| u in users && Lower(u) == Lower(rows[n].name);
      var i :| 0 <= i < n && FirstOfName(rows, i) && rows[i].name == u;
      assert SameName(rows[i], rows[n]);
    }
    if !FirstOfName(rows, n) {
      var j :| 0 <= j < n && SameName(rows[j], rows[n]);
      ClassHasFirst(rows, j);
      var k :| 0 <= k <= j && SameName(rows[k], rows[j]) && FirstOfName(rows, k);
      assert rows[k].name in users && Lower(rows[k].name) == Lower(rows[n].name);
    }
  }

  lemma UsersFromNext(rows: seq<UserRow>, n: nat, users: Store.Users)
    requires n < |rows| && UsersFrom(rows, n, users)
    ensures UsersFrom(rows, n + 1, Store.UserCreated(Store.Tables(users, map[], map[]), rows[n].name, Account(rows[n])).0.users)
  {
    TakenByEarlier(rows, n, users);
    hide Lower, SameName, Store.Taken, FirstOfName, UsersFrom, Account;
    if FirstOfName(rows, n) {
      UsersFromNew(rows, n, users);
    } else {
      UsersFromLate(rows, n, users);
    }
  }

  lemma UsersFromNew(rows: seq<UserRow>, n: nat, users: Store.Users)
    requires n < |rows| && UsersFrom(rows, n, users) && FirstOfName(rows, n)
    ensures UsersFrom(rows, n + 1, users[rows[n].name := Account(rows[n])])
  {
    var users' := users[rows[n].name := Account(rows[n])];
    forall i | 0 <= i < n && FirstOfName(rows, i) ensures rows[i].name != rows[n].name {
      assert !SameName(rows[i], rows[n]);
    }
    hide FirstOfName, Account;
    forall u | u in users' ensures exists i :: 0 <= i < n + 1 && FirstOfName(rows, i) && rows[i].name == u {
      if u in users {
        var i :| 0 <= i < n && FirstOfName(rows, i) && rows[i].name == u;
      } else {
        assert rows[n].name == u;
      }
    }
  }

  lemma UsersFromLate(rows: seq<UserRow>, n: nat, users: Store.Users)
    requires n < |rows| && UsersFrom(rows, n, users) && !FirstOfName(rows, n)
    ensures UsersFrom(rows, n + 1, users)
  {
    hide FirstOfName, Account;
  }

  /** One row of the loop. */
  lemma UserRead(t: Store.Tables, rows: seq<UserRow>, n: nat)
    requires n < |rows| && UsersFrom(rows, n, t.users)
    ensures var (t', ok) := Store.UserCreated(t, rows[n].name, Account(rows[n]));
            && t' == t.(users := t'.users) && UsersFrom(rows, n + 1, t'.users)
            && Late(rows, n + 1) == Late(rows, n) + if ok then [] else [rows[n].name]
  {
    TakenByEarlier(rows, n, t.users);
    UsersFromNext(rows, n, t.users);
    hide UsersFrom, Store.Taken, FirstOfName;
  }

  /** `importUsers` into an empty table: imported plus skipped is everything read,
      and the first spelling of a name to be read keeps it. */
  method ImportUsers(db: Store.DB, rows: seq<UserRow>) returns (imported: nat, skipped: seq<string>)
    requires db.users == map[]
    modifies db
    ensures imported + |skipped| == |rows| && skipped == Late(rows, |rows|)
    ensures UsersFrom(rows, |rows|, db.users)
    ensures db.mail == old(db.mail) && db.blocks == old(db.blocks)
  {
    hide Late, Store.UserCreated, UsersFrom, Account;
    NobodyRead(rows);
    imported, skipped := 0, [];
    for n := 0 to |rows|
      invariant imported + |skipped| == n && skipped == Late(rows, n)
      invariant UsersFrom(rows, n, db.users)
      invariant db.mail == old(db.mail) && db.blocks == old(db.blocks)
    {
      UserRead(db.Abs(), rows, n);
      var ok := db.CreateUser(rows[n].name, Account(rows[n]));
      if !ok {
        skipped := skipped + [rows[n].name];
      } else {
        imported := imported + 1;
      }
    }
  }

  lemma NobodyRead(rows: seq<UserRow>)
    ensures UsersFrom(rows, 0, map[]) && Late(rows, 0) == []
  {
  }

  lemma {:induction false} LexOrder(a: string, b: string)
    ensures !(LexLess(a, b) && LexLess(b, a))
  {
    if a != "" && b != "" && a[0] == b[0] {
      LexOrder(a[1..], b[1..]);
    }
  }

  /** Read in order of registration, the first spelling is the earliest one: each
      class of names keeps its minimum by time and name. */
  lemma EarliestKeepsName(rows: seq<UserRow>, users: Store.Users, i: nat)
    requires Ordered(rows) && UsersFrom(rows, |rows|, users) && i < |rows|
    requires forall j, k :: 0 <= j < k < |rows| ==> rows[j].name != rows[k].name
    ensures rows[i].name in users
       <==> forall j :: 0 <= j < |rows| && j != i && SameName(rows[j], rows[i]) ==> Before(rows[i], rows[j])
  {
    if rows[i].name in users {
      var k :| 0 <= k < |rows| && FirstOfName(rows, k) && rows[k].name == rows[i].name;
      assert k == i;
      forall j | 0 <= j < |rows| && j != i && SameName(rows[j], rows[i]) ensures Before(rows[i], rows[j]) {
        assert j > i;
      }
    } else {
      var j :| 0 <= j < i && SameName(rows[j], rows[i]);
      assert Before(rows[j], rows[i]);
      LexOrder(rows[i].name, rows[j].name);
      assert !Before(rows[i], rows[j]);
    }
  }

  /******* Mail *******/

  /** No earlier row has this signature hash. */
  predicate FirstOfHash(hash: string -> string, rows: seq<Store.Mail>, i: nat)
    requires i < |rows|
  {
    forall j :: 0 <= j < i ==> hash(rows[j].signature) != hash(rows[i].signature)
  }

  /** Row `i` is the first with this hash. */
  predicate FirstRowOf(hash: string -> string, rows: seq<Store.Mail>, i: nat, h: string)
    requires i < |rows|
  {
    FirstOfHash(hash, rows, i) && hash(rows[i].signature) == h
  }

  ghost predicate MailFrom(hash: string -> string, rows: seq<Store.Mail>, n: nat, mail: Store.MailTable)
    requires n <= |rows|
  {
    && (forall i :: 0 <= i < n && FirstOfHash(hash, rows, i) ==>
          hash(rows[i].signature) in mail && mail[hash(rows[i].signature)] == rows[i])
    && (forall h :: h in mail ==>
          exists i :: 0 <= i < n && FirstRowOf(hash, rows, i, h) && mail[h] == rows[i])
  }

  function Copies(hash: string -> string, rows: seq<Store.Mail>, n: nat): nat
    requires n <= |rows|
  {
    if n == 0 then 0 else Copies(hash, rows, n - 1) + if FirstOfHash(hash, rows, n - 1) then 0 else 1
  }

  lemma {:induction false} HashHasFirst(hash: string -> string, rows: seq<Store.Mail>, i: nat)
    requires i < |rows|
    ensures exists j :: 0 <= j <= i && hash(rows[j].signature) == hash(rows[i].signature) && FirstOfHash(hash, rows, j)
  {
    if !FirstOfHash(hash, rows, i) {
      var j :| 0 <= j < i && hash(rows[j].signature) == hash(rows[i].signature);
      HashHasFirst(hash, rows, j);
    }
  }

  ghost predicate DistinctIds(rows: seq<Store.Mail>) {
    forall j, k :: 0 <= j < k < |rows| ==> rows[j].id != rows[k].id
  }

  lemma HashKnown(hash: string -> string, rows: seq<Store.Mail>, n: nat, mail: Store.MailTable)
    requires n < |rows| && MailFrom(hash, rows, n, mail)
    requires DistinctIds(rows)
    ensures hash(rows[n].signature) in mail <==> !FirstOfHash(hash, rows, n)
    ensures !Store.IdTaken(mail, rows[n].id)
  {
    if !FirstOfHash(hash, rows, n) {
      var j :| 0 <= j < n && hash(rows[j].signature) == hash(rows[n].signature);
      HashHasFirst(hash, rows, j);
    }
  }

  lemma MailFromNext(hash: string -> string, rows: seq<Store.Mail>, n: nat, mail: Store.MailTable)
    requires n < |rows| && MailFrom(hash, rows, n, mail)
    ensures FirstOfHash(hash, rows, n) ==> MailFrom(hash, rows, n + 1, mail[hash(rows[n].signature) := rows[n]])
    ensures !FirstOfHash(hash, rows, n) ==> MailFrom(hash, rows, n + 1, mail)
  {
    hide FirstOfHash;
    if FirstOfHash(hash, rows, n) {
      MailFromNew(hash, rows, n, mail);
    }
  }

  lemma MailFromNew(hash: string -> string, rows: seq<Store.Mail>, n: nat, mail: Store.MailTable)
    requires n < |rows| && MailFrom(hash, rows, n, mail) && FirstOfHash(hash, rows, n)
    ensures MailFrom(hash, rows, n + 1, mail[hash(rows[n].signature) := rows[n]])
  {
    var mail' := mail[hash(rows[n].signature) := rows[n]];
    assert forall i :: 0 <= i < n ==> hash(rows[i].signature) != hash(rows[n].signature);
    assert FirstRowOf(hash, rows, n, hash(rows[n].signature));
    hide FirstOfHash, FirstRowOf;
    forall h | h in mail' ensures exists i :: 0 <= i < n + 1 && FirstRowOf(hash, rows, i, h) && mail'[h] == rows[i] {
      if h != hash(rows[n].signature) {
        var i :| 0 <= i < n && FirstRowOf(hash, rows, i, h) && mail[h] == rows[i];
        assert mail'[h] == rows[i];
      }
    }
  }

  lemma NothingRead(hash: string -> string, rows: seq<Store.Mail>)
    ensures MailFrom(hash, rows, 0, map[]) && Copies(hash, rows, 0) == 0
  {
  }

  /** One row of the loop. */
  lemma MailRead(hash: string -> string, rows: seq<Store.Mail>, n: nat, mail: Store.MailTable)
    requires n < |rows| && MailFrom(hash, rows, n, mail)
    requires DistinctIds(rows)
    ensures var (mail', r) := Store.InsertFrom(mail, hash(rows[n].signature), rows[n], [rows[n].id]);
            && MailFrom(hash, rows, n + 1, mail')
            && Copies(hash, rows, n + 1) == Copies(hash, rows, n) + if r.Stored? && !r.dup then 0 else 1
  {
    HashKnown(hash, rows, n, mail);
    MailFromNext(hash, rows, n, mail);
    hide MailFrom, FirstOfHash, Store.IdTaken, DistinctIds;
    assert rows[n].(id := rows[n].id) == rows[n];
  }

  /** `importMail`: imported plus duplicate is everything read, and the first copy
      of a signature is the one kept, as it was. */
  method ImportMail(db: Store.DB, rows: seq<Store.Mail>) returns (imported: nat, duplicates: nat)
    requires db.mail == map[]
    requires DistinctIds(rows)
    modifies db`mail
    ensures imported + duplicates == |rows| && duplicates == Copies(db.sha256, rows, |rows|)
    ensures MailFrom(db.sha256, rows, |rows|, db.mail)
  {
    hide *;
    NothingRead(db.sha256, rows);
    imported, duplicates := 0, 0;
    for n := 0 to |rows|
      invariant imported + duplicates == n && duplicates == Copies(db.sha256, rows, n)
      invariant MailFrom(db.sha256, rows, n, db.mail)
    {
      MailRead(db.sha256, rows, n, db.mail);
      var r := db.InsertMail(rows[n], [rows[n].id]);
      if r.Stored? && !r.dup {
        imported := imported + 1;
      } else {
        duplicates := duplicates + 1;
      }
    }
  }

  /******* Blocks *******/

  datatype BlockRow = BlockRow(blocker: string, blocked: string, at: int)

  /** The stored form of a target that parses; any other text as it is. */
  function Normalized(text: string, domain: string): string {
    match ParseBlockTarget(text, domain)
    case Ok(a) => Stored(a)
    case Err(_) => text
  }

  /** Normal form: a target that parses is its own stored form. */
  predicate IsNormal(text: string, domain: string) {
    ParseBlockTarget(text, domain).Ok? ==> Stored(ParseBlockTarget(text, domain).address) == text
  }

  lemma NormalizedIsNormal(text: string, domain: string)
    ensures IsNormal(Normalized(text, domain), domain)
    ensures ParseBlockTarget(text, domain).Ok? ==>
              ParseBlockTarget(Normalized(text, domain), domain) == ParseBlockTarget(text, domain)
  {
    if ParseBlockTarget(text, domain).Ok? {
      StoredReparses(text, domain);
    }
    hide ParseBlockTarget, Stored;
  }

  /** The block rows read, in normal form; of rows that normalize to one
      target the last one read stays, whatever its time. */
  function BlocksFrom(rows: seq<BlockRow>, domain: string, n: nat): Store.Blocks
    requires n <= |rows|
  {
    if n == 0 then map[]
    else
      var r := rows[n - 1];
      BlocksFrom(rows, domain, n - 1)[(r.blocker, Normalized(r.blocked, domain)) := r.at]
  }

  method ImportBlocks(db: Store.DB, rows: seq<BlockRow>, domain: string) returns (count: nat)
    requires db.blocks == map[]
    modifies db`blocks
    ensures count == |rows| && db.blocks == BlocksFrom(rows, domain, |rows|)
  {
    hide ParseBlockTarget, Stored;
    count := 0;
    for n := 0 to |rows|
      invariant count == n && db.blocks == BlocksFrom(rows, domain, n)
    {
      var blocked := rows[n].blocked;
      var t := ParseBlockTarget(blocked, domain);
      if t.Ok? {
        blocked := Stored(t.address);
      }
      assert blocked == Normalized(rows[n].blocked, domain);
      hide Normalized;
      db.AddBlock(rows[n].blocker, blocked, rows[n].at);
      count := count + 1;
    }
  }

  /** Every imported target is in normal form and means what it meant. */
  lemma {:induction false} ImportedTargetsNormal(rows: seq<BlockRow>, domain: string, n: nat)
    requires n <= |rows|
    ensures forall k :: k in BlocksFrom(rows, domain, n) ==> IsNormal(k.1, domain)
    ensures forall k :: k in BlocksFrom(rows, domain, n) <==>
              exists i :: 0 <= i < n && k == (rows[i].blocker, Normalized(rows[i].blocked, domain))
  {
    hide Normalized, IsNormal;
    if n > 0 {
      ImportedTargetsNormal(rows, domain, n - 1);
      NormalizedIsNormal(rows[n - 1].blocked, domain);
      forall k ensures k in BlocksFrom(rows, domain, n) <==>
        exists i :: 0 <= i < n && k == (rows[i].blocker, Normalized(rows[i].blocked, domain))
      {
        var last := (rows[n - 1].blocker, Normalized(rows[n - 1].blocked, domain));
        assert k in BlocksFrom(rows, domain, n) <==> k in BlocksFrom(rows, domain, n - 1) || k == last;
      }
    }
  }

  /** Of the rows that normalize to one target, the last one read leaves its time. */
  lemma {:induction false} LastTimeStays(rows: seq<BlockRow>, domain: string, n: nat, i: nat)
    requires i < n <= |rows|
    requires forall j :: i < j < n ==> rows[j].blocker != rows[i].blocker
                                       || Normalized(rows[j].blocked, domain) != Normalized(rows[i].blocked, domain)
    ensures var k := (rows[i].blocker, Normalized(rows[i].blocked, domain));
            k in BlocksFrom(rows, domain, n) && BlocksFrom(rows, domain, n)[k] == rows[i].at
  {
    hide Normalized;
    if i < n - 1 {
      LastTimeStays(rows, domain, n - 1, i);
    }
  }
}
