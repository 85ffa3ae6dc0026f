/**
 * xs-authserver: the users table with its keys, the read-only idmgr
 * registry, the `User` record with `_load` and `save`, `sync_idmgr`,
 * `User.by_pkey_hash` and the identity part of the `/` page.
 */
module XsAuthserver {
  import opened Wrappers
  import opened Users
  import Idmgr
  import UserAgent
  import Xoid

  /** The registry entries a sync pass walks: each device's nickname and `pkey_hash`, in query order. */
  function RegistryEntries(laptops: seq<Idmgr.LaptopRow>, sha1: string -> string): (es: seq<Entry>)
    ensures |es| == |laptops|
    ensures forall i :: 0 <= i < |es| ==>
              Idmgr.GetAttr(Idmgr.All(laptops)[i], "nickname") == Ok(Some(es[i].nickname)) &&
              Idmgr.PkeyHash(Idmgr.All(laptops)[i], sha1) == Ok(es[i].pkeyHash)
  {
    var es := seq(|laptops|, i requires 0 <= i < |laptops| => Entry(laptops[i].nickname, sha1(laptops[i].pubkey)));
    assert forall i :: 0 <= i < |es| ==>
              Idmgr.GetAttr(Idmgr.All(laptops)[i], "nickname") == Ok(Some(es[i].nickname)) &&
              Idmgr.PkeyHash(Idmgr.All(laptops)[i], sha1) == Ok(es[i].pkeyHash) by {
      forall i | 0 <= i < |es| {
        Idmgr.AllDevice(laptops, i, sha1);
      }
    }
    es
  }

  /** The idmgr database behind `get_olpc_xs_db()`. This code only ever reads its `laptops` table. */
  class IdmgrDb {
    /** The `laptops` rows; None when the database cannot be queried. */
    const laptops: Option<seq<Idmgr.LaptopRow>>
    /** How many times the table has been queried. */
    ghost var fetches: nat

    constructor (laptops: Option<seq<Idmgr.LaptopRow>>)
      ensures this.laptops == laptops && fetches == 0
    {
      this.laptops := laptops;
      fetches := 0;
    }

    /** `Idmgr.all()`: one query, every device in query order, or the database error. */
    method All() returns (r: Result<seq<Idmgr.Device>>)
      modifies this`fetches
      ensures fetches == old(fetches) + 1
      ensures laptops.Some? ==> r == Ok(Idmgr.All(laptops.value))
      ensures laptops.None? ==> r == Err(OperationalError)
    {
      fetches := fetches + 1;
      if laptops.None? {
        return Err(OperationalError);
      }
      return Ok(Idmgr.All(laptops.value));
    }
  }

  /** The `users` table behind `get_db()`, with the checks of its PRIMARY KEY and UNIQUE constraints. */
  class UsersTable {
    var rows: seq<UserRow>

    ghost predicate Valid()
      reads this
    {
      Keyed(rows)
    }

    constructor (rows: seq<UserRow>)
      requires Keyed(rows)
      ensures Valid() && this.rows == rows
    {
      this.rows := rows;
    }

    /** `User._get_users_by_pkey_hash`: the uuids of the rows with this fingerprint, at most one. */
    method SelectUuids(h: string) returns (uuids: seq<string>)
      requires Valid()
      ensures uuids == UuidsWithPkeyHash(rows, h)
      ensures h in Hashes(rows) ==> exists k :: 0 <= k < |rows| && rows[k].pkeyHash == h && uuids == [rows[k].uuid]
      ensures h !in Hashes(rows) ==> uuids == []
    {
      uuids := UuidsWithPkeyHash(rows, h);
      if h in Hashes(rows) {
        var k :| 0 <= k < |rows| && rows[k].pkeyHash == h;
        SelectsOnlyMatch(rows, k);
      }
    }

    /** The query of `User._load`: the rows with this uuid. */
    method SelectByUuid(u: Option<string>) returns (found: seq<UserRow>)
      ensures found == RowsWithUuid(rows, u)
      ensures found == [] <==> u.None? || u.value !in Uuids(rows)
    {
      found := RowsWithUuid(rows, u);
    }

    /** `INSERT INTO users VALUES (?, ?, ?)`: refused with IntegrityError when the uuid or the fingerprint is taken. */
    method Insert(row: UserRow) returns (r: Outcome)
      requires Valid()
      modifies this
      ensures Valid()
      ensures r.Pass? <==> row.uuid !in Uuids(old(rows)) && row.pkeyHash !in Hashes(old(rows))
      ensures r.Fail? ==> r.error == IntegrityError
      ensures rows == if r.Pass? then old(rows) + [row] else old(rows)
    {
      if row.uuid in Uuids(rows) || row.pkeyHash in Hashes(rows) {
        return Fail(IntegrityError);
      }
      rows := rows + [row];
      r := Pass;
    }

    /** `str(uuid.uuid4())`: any identifier the table does not use yet. */
    method Uuid4() returns (u: string)
      ensures u !in Uuids(rows) && u != ""
    {
      var longer := seq(LongestUuid(rows) + 1, _ => '0');
      assert longer !in Uuids(rows) && longer != "";
      u :| u !in Uuids(rows) && u != "";
    }
  }

  /**
   * A `User` object. For `nickname` and `pkeyHash`, None stands for an
   * attribute that was never set; `__init__` always sets `uuid`, and its None
   * is Python's None value.
   */
  class User {
    var uuid: Option<string>
    var nickname: Option<string>
    var pkeyHash: Option<string>

    constructor Blank(uuid: Option<string>)
      ensures this.uuid == uuid && nickname.None? && pkeyHash.None?
    {
      this.uuid := uuid;
      nickname := None;
      pkeyHash := None;
    }

    /**
     * `User(**kwargs)`: with a `uuid` keyword the row is loaded (LookupError
     * if there is none); otherwise uuid is None and only `nickname` and
     * `pkey_hash` are kept.
     */
    static method Init(db: UsersTable, kwargs: map<string, string>) returns (r: Result<User>)
      ensures r.Ok? ==> fresh(r.value)
      ensures "uuid" in kwargs ==>
                var found := RowsWithUuid(db.rows, Some(kwargs["uuid"]));
                if found == [] then r == Err(LookupError)
                else r.Ok? && r.value.uuid == Some(kwargs["uuid"]) &&
                     r.value.nickname == Some(found[0].nickname) && r.value.pkeyHash == Some(found[0].pkeyHash)
      ensures "uuid" !in kwargs ==>
                r.Ok? && r.value.uuid.None? &&
                r.value.nickname == (if "nickname" in kwargs then Some(kwargs["nickname"]) else None) &&
                r.value.pkeyHash == (if "pkey_hash" in kwargs then Some(kwargs["pkey_hash"]) else None)
    {
      if "uuid" in kwargs {
        var u := new User.Blank(Some(kwargs["uuid"]));
        var loaded := u.Load(db);
        if loaded.Fail? {
          return Err(loaded.error);
        }
        return Ok(u);
      }
      var u := new User.Blank(None);
      if "nickname" in kwargs {
        u.nickname := Some(kwargs["nickname"]);
      }
      if "pkey_hash" in kwargs {
        u.pkeyHash := Some(kwargs["pkey_hash"]);
      }
      return Ok(u);
    }

    /** `_load`: copies nickname and pkey_hash from the first row with this uuid, or raises LookupError. */
    method Load(db: UsersTable) returns (r: Outcome)
      modifies this`nickname, this`pkeyHash
      ensures var found := RowsWithUuid(db.rows, uuid);
              if found == [] then
                r == Fail(LookupError) && nickname == old(nickname) && pkeyHash == old(pkeyHash)
              else
                r == Pass && nickname == Some(found[0].nickname) && pkeyHash == Some(found[0].pkeyHash)
    {
      var found := db.SelectByUuid(uuid);
      if found == [] {
        return Fail(LookupError);
      }
      nickname := Some(found[0].nickname);
      pkeyHash := Some(found[0].pkeyHash);
      r := Pass;
    }

    /**
     * `save`. A truthy uuid takes the `REPLACE users VALUES` branch, which
     * SQLite rejects as malformed (INTO is missing). Otherwise a fresh uuid is
     * drawn and the row inserted; only then is `uuid` set. An unset nickname
     * or pkey_hash raises AttributeError before anything is executed.
     */
    method Save(db: UsersTable) returns (r: Outcome)
      requires db.Valid()
      modifies db, this`uuid
      ensures db.Valid()
      ensures nickname.None? || pkeyHash.None? ==>
                r == Fail(AttributeError) && db.rows == old(db.rows) && uuid == old(uuid)
      ensures nickname.Some? && pkeyHash.Some? && old(uuid).Some? && old(uuid).value != "" ==>
                r == Fail(OperationalError) && db.rows == old(db.rows) && uuid == old(uuid)
      ensures nickname.Some? && pkeyHash.Some? && (old(uuid).None? || old(uuid).value == "") ==>
                (r.Pass? <==> pkeyHash.value !in Hashes(old(db.rows))) &&
                (r.Fail? ==> r == Fail(IntegrityError) && db.rows == old(db.rows) && uuid == old(uuid)) &&
                (r.Pass? ==> uuid.Some? && uuid.value !in Uuids(old(db.rows)) &&
                             db.rows == old(db.rows) + [UserRow(uuid.value, nickname.value, pkeyHash.value)])
    {
      if uuid.Some? && uuid.value != "" {
        if nickname.None? || pkeyHash.None? {
          return Fail(AttributeError);
        }
        return Fail(OperationalError);
      }
      var newUuid := db.Uuid4();
      if nickname.None? || pkeyHash.None? {
        return Fail(AttributeError);
      }
      r := db.Insert(UserRow(newUuid, nickname.value, pkeyHash.value));
      if r.Pass? {
        uuid := Some(newUuid);
      }
    }

    /**
     * `User.by_pkey_hash`. A fingerprint the table holds is answered from the
     * table alone. On a miss the registry is synced once and the table asked
     * again: the answer is a user exactly when some registry device has the
     * fingerprint, named after the first such device. A registry that cannot
     * be read makes the miss path raise.
     */
    static method ByPkeyHash(db: UsersTable, idmgr: IdmgrDb, sha1: string -> string, h: string)
      returns (r: Result<Option<User>>)
      requires db.Valid()
      modifies db, idmgr
      ensures db.Valid()
      ensures r.Ok? ==> (r.value.Some? <==> h in Hashes(db.rows))
      ensures r.Ok? && r.value.Some? ==>
                fresh(r.value.value) && r.value.value.pkeyHash == Some(h) &&
                r.value.value.uuid.Some? && r.value.value.nickname.Some? &&
                UserRow(r.value.value.uuid.value, r.value.value.nickname.value, h) in db.rows
      ensures h in Hashes(old(db.rows)) ==>
                db.rows == old(db.rows) && idmgr.fetches == old(idmgr.fetches) && r.Ok? && r.value.Some?
      ensures h !in Hashes(old(db.rows)) ==> idmgr.fetches == old(idmgr.fetches) + 1
      ensures h !in Hashes(old(db.rows)) && idmgr.laptops.None? ==>
                r == Err(OperationalError) && db.rows == old(db.rows)
      ensures h !in Hashes(old(db.rows)) && idmgr.laptops.Some? ==>
                var es := RegistryEntries(idmgr.laptops.value, sha1);
                Synced(old(db.rows), db.rows, es) && r.Ok? &&
                (r.value.Some? <==> h in HashesOf(es)) &&
                (r.value.Some? ==> r.value.value.nickname == Some(es[FirstIndex(es, h)].nickname))
    {
      var uuids := db.SelectUuids(h);
      if uuids == [] {
        var synced := SyncIdmgr(db, idmgr, sha1);
        if synced.Fail? {
          return Err(synced.error);
        }
        uuids := db.SelectUuids(h);
      }
      if uuids == [] {
        return Ok(None);
      }
      var k :| 0 <= k < |db.rows| && db.rows[k].pkeyHash == h && uuids == [db.rows[k].uuid];
      SelectsOnlyMatch(db.rows, k);
      var made := Init(db, map["uuid" := uuids[0]]);
      assert made.Ok?;
      if h !in Hashes(old(db.rows)) {
        SyncedNewRow(old(db.rows), db.rows, RegistryEntries(idmgr.laptops.value, sha1), k);
      }
      return Ok(Some(made.value));
    }
  }

  /**
   * `sync_idmgr`: one insert attempt per registry device, in registry order,
   * each refused insert (the fingerprint is taken) passed over. Rows already
   * in the table are never touched; the only exception that escapes is the
   * registry's own.
   */
  method SyncIdmgr(db: UsersTable, idmgr: IdmgrDb, sha1: string -> string) returns (r: Outcome)
    requires db.Valid()
    modifies db, idmgr
    ensures db.Valid()
    ensures idmgr.fetches == old(idmgr.fetches) + 1
    ensures idmgr.laptops.None? ==> r == Fail(OperationalError) && db.rows == old(db.rows)
    ensures idmgr.laptops.Some? ==>
              var es := RegistryEntries(idmgr.laptops.value, sha1);
              r == Pass && Synced(old(db.rows), db.rows, es) &&
              Hashes(db.rows) == Hashes(old(db.rows)) + HashesOf(es)
  {
    var all := idmgr.All();
    if all.Err? {
      return Fail(all.error);
    }
    var devices := all.value;
    ghost var es := RegistryEntries(idmgr.laptops.value, sha1);
    ghost var before := db.rows;
    for i := 0 to |devices|
      invariant db.Valid()
      invariant idmgr.fetches == old(idmgr.fetches) + 1
      invariant Synced(before, db.rows, es[..i])
    {
      var nickname := Idmgr.GetAttr(devices[i], "nickname");
      var hash := Idmgr.PkeyHash(devices[i], sha1);
      var made := User.Init(db, map["nickname" := nickname.value.value, "pkey_hash" := hash.value]);
      var u := made.value;
      ghost var cur := db.rows;
      var saved := u.Save(db);
      // IntegrityError: the fingerprint already has a row
      assert saved.Pass? || saved.error == IntegrityError;
      SyncStep(before, cur, es, i, if saved.Pass? then u.uuid.value else "");
    }
    assert es[..|devices|] == es;
    SyncedHashes(before, db.rows, es);
    r := Pass;
  }

  /** Two passes against an unchanged registry leave the table as one pass does; neither raises. */
  method SyncTwice(db: UsersTable, idmgr: IdmgrDb, sha1: string -> string) returns (first: Outcome, second: Outcome)
    requires db.Valid()
    modifies db, idmgr
    ensures db.Valid()
    ensures idmgr.laptops.Some? ==>
              first == Pass && second == Pass &&
              Synced(old(db.rows), db.rows, RegistryEntries(idmgr.laptops.value, sha1))
  {
    first := SyncIdmgr(db, idmgr, sha1);
    ghost var mid := db.rows;
    second := SyncIdmgr(db, idmgr, sha1);
    if idmgr.laptops.Some? {
      SyncIdempotent(old(db.rows), mid, db.rows, RegistryEntries(idmgr.laptops.value, sha1));
    }
  }

  /** What the `/` page is rendered with. */
  datatype Context = Context(
    platform: UserAgent.Platform,
    pkeyHash: Option<string>,
    user: Option<User>,
    registeredUsers: seq<Idmgr.Device>)

  /**
   * `index`: the user-agent check, then the cookie (a lookup only for a
   * truthy `pkey_hash` in a truthy decoded dict), then the registry listing.
   * `loads` stands for `json.loads`; neither its exceptions nor the registry's
   * are caught.
   */
  method Index(db: UsersTable, idmgr: IdmgrDb, sha1: string -> string,
               cookie: Option<string>, loads: string -> Option<Xoid.Decoded>, userAgent: string)
    returns (r: Result<Context>)
    requires db.Valid()
    modifies db, idmgr
    ensures db.Valid()
    ensures var claim := Xoid.Claim(cookie, loads);
            claim.Err? ==> r == Err(claim.error) && db.rows == old(db.rows) && idmgr.fetches == old(idmgr.fetches)
    ensures Xoid.Claim(cookie, loads) == Ok(None) ==>
              db.rows == old(db.rows) && idmgr.fetches == old(idmgr.fetches) + 1 &&
              r == if idmgr.laptops.Some?
                   then Ok(Context(UserAgent.IdentifyUserAgent(userAgent), None, None, Idmgr.All(idmgr.laptops.value)))
                   else Err(OperationalError)
    ensures var claim := Xoid.Claim(cookie, loads);
            claim.Ok? && claim.value.Some? && r.Ok? ==>
              r.value.platform == UserAgent.IdentifyUserAgent(userAgent) &&
              r.value.pkeyHash == claim.value &&
              (r.value.user.Some? <==> claim.value.value in Hashes(db.rows)) &&
              (r.value.user.Some? ==> r.value.user.value.pkeyHash == claim.value)
    ensures Xoid.Claim(cookie, loads).Ok? && idmgr.laptops.Some? ==>
              r.Ok? && r.value.registeredUsers == Idmgr.All(idmgr.laptops.value)
    ensures var claim := Xoid.Claim(cookie, loads);
            claim.Ok? && claim.value.Some? && claim.value.value in Hashes(old(db.rows)) ==>
              db.rows == old(db.rows) && idmgr.fetches == old(idmgr.fetches) + 1
    ensures var claim := Xoid.Claim(cookie, loads);
            claim.Ok? && claim.value.Some? && claim.value.value !in Hashes(old(db.rows)) && idmgr.laptops.Some? ==>
              var es := RegistryEntries(idmgr.laptops.value, sha1);
              idmgr.fetches == old(idmgr.fetches) + 2 && Synced(old(db.rows), db.rows, es) &&
              (r.value.user.Some? <==> claim.value.value in HashesOf(es)) &&
              (r.value.user.Some? ==> r.value.user.value.nickname == Some(es[FirstIndex(es, claim.value.value)].nickname))
    ensures idmgr.laptops.None? && Xoid.Claim(cookie, loads).Ok? ==> r == Err(OperationalError)
    ensures idmgr.laptops.None? ==> db.rows == old(db.rows)
    ensures idmgr.laptops.None? && Xoid.Claim(cookie, loads).Ok? ==> idmgr.fetches == old(idmgr.fetches) + 1
  {
    var platform := UserAgent.IdentifyUserAgent(userAgent);
    var claim := Xoid.Claim(cookie, loads);
    if claim.Err? {
      return Err(claim.error);
    }
    var user: Option<User> := None;
    if claim.value.Some? {
      var found := User.ByPkeyHash(db, idmgr, sha1, claim.value.value);
      if found.Err? {
        return Err(found.error);
      }
      user := found.value;
    }
    var registered := idmgr.All();
    if registered.Err? {
      return Err(registered.error);
    }
    return Ok(Context(platform, claim.value, user, registered.value));
  }

  const FulanoHash := "bc040eb5294c5fe63f5cfd28d6961c7db6b9a2bc"
  const MiguelHash := "195ed98f4975ebccb1e699d8636278b64e9276b3"
  /** The public key stored for miguel's laptop in the test suite's registry. */
  const MiguelPubkey := "AAAAB3NzaC1kc3MAAACBALLTqNsDS7t1/GRI6V9hrltCESM7c7Isw+OMieeL6tbCOb/hFlfnuWpreXwaN+IEp9kLbH/pH0U6fpqBbTxFkQ7sKTEm52fIBFIQinqayRqspP4MZp/+IVUZ4F/1N/E2jXpygpwciK+RaYt0T9f7aN1wp0RA7moVGwZ+W6wn6T6zAAAAFQCfuMPxCBN0cs5octiKcYDdIurRuQAAAIAU+K12HJ9p8ua3laen8rVSfSyYL5LMSWALflK6BEcZE7SiMMa1P3wOBFC21HBTZt28CyVhPOFt/6ptVsuzZeVP12141gcBSDPDE0zgGYW2ev7koL5GhiSUCn+Ag3ISjYJ3GHO3bmvQUXDV/vz9ADVX/k9xRdKaHpSx9Gmo5I5MkwAAAIAIT5Pg//ye+Bv23lMo24O2Axz5y2IlpZGKYy+pfOrwjInuPNhtLOAHn1Woq1CEwEqHEvHBxPHKB1P38rmZgajsVNu0OBEQjGwWfCMZa4IZh2+5FxpYFQnOuwDn44cexruLOH2vYHIb9FabTnRGn3XgNVSX86x3gVc7nN/Z1dBS8w=="

  /** The test suite's tables: fulano has an account, miguel's laptop (key `MiguelPubkey`) is only enrolled. */
  method Fixture() returns (db: UsersTable, idmgr: IdmgrDb)
    ensures fresh(db) && fresh(idmgr) && db.Valid() && idmgr.fetches == 0
    ensures db.rows == [UserRow("09c131b2-25dd-11e3-89c5-e89a8f08bf39", "fulano", FulanoHash)]
    ensures idmgr.laptops == Some([Idmgr.LaptopRow("SHC23800059", "miguel", "", MiguelPubkey)])
  {
    db := new UsersTable([UserRow("09c131b2-25dd-11e3-89c5-e89a8f08bf39", "fulano", FulanoHash)]);
    idmgr := new IdmgrDb(Some([Idmgr.LaptopRow("SHC23800059", "miguel", "", MiguelPubkey)]));
  }

  /** A fingerprint with an account is answered from the table; the registry is not read. */
  method RegisteredWithAccount(sha1: string -> string)
  {
    var db, idmgr := Fixture();
    assert db.rows[0].pkeyHash == FulanoHash;
    var fulano := User.ByPkeyHash(db, idmgr, sha1, FulanoHash);
    assert fulano.Ok? && fulano.value.Some?;
    assert fulano.value.value.nickname == Some("fulano");
    assert idmgr.fetches == 0;
  }

  /** An enrolled device without an account gets one on its first request, and the fast path on the next. */
  method RegisteredWithoutAccount(sha1: string -> string)
    requires sha1(MiguelPubkey) == MiguelHash
  {
    var db, idmgr := Fixture();
    var es := RegistryEntries(idmgr.laptops.value, sha1);
    assert es == [Entry("miguel", MiguelHash)];
    assert es[0].pkeyHash == MiguelHash;
    assert MiguelHash in HashesOf(es);
    assert MiguelHash !in Hashes(db.rows);
    var miguel := User.ByPkeyHash(db, idmgr, sha1, MiguelHash);
    assert FirstIndex(es, MiguelHash) == 0;
    assert miguel.Ok? && miguel.value.Some? && miguel.value.value.nickname == Some("miguel");
    assert idmgr.fetches == 1;
    var again := User.ByPkeyHash(db, idmgr, sha1, MiguelHash);
    assert again.Ok? && again.value.Some? && idmgr.fetches == 1;
  }

  /** A fingerprint unknown to table and registry gives None, after one sync. */
  method Unregistered(sha1: string -> string)
    requires sha1(MiguelPubkey) == MiguelHash
  {
    var db, idmgr := Fixture();
    var h := "0000000000000000000000000000000000000000";
    var es := RegistryEntries(idmgr.laptops.value, sha1);
    assert es == [Entry("miguel", MiguelHash)];
    assert h !in HashesOf(es);
    assert h !in Hashes(db.rows);
    var nobody := User.ByPkeyHash(db, idmgr, sha1, h);
    assert nobody == Ok(None) && idmgr.fetches == 1;
  }
}
