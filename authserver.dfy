/**
 * The earlier authserver: the same registry record, user-agent check and
 * cookie branch, but the lookup only reads its `users (username, pkey_hash)`
 * table and never consults the registry.
 */
module Authserver {
  import opened Wrappers
  import Idmgr
  import UserAgent
  import Xoid

  /** A row of `users (username, pkey_hash)`; the table has no key, so a fingerprint may repeat. */
  datatype UserRow = UserRow(username: string, pkeyHash: string)

  /** What `query_db` returns: with `one`, the first row or None; otherwise every row. */
  datatype Fetched<R> = One(row: Option<R>) | Many(rows: seq<R>)

  /** `query_db` over the rows `fetchall` returned. */
  function QueryDb<R>(rv: seq<R>, one: bool): (r: Fetched<R>)
    ensures one ==> r.One? && (r.row.Some? <==> rv != []) && (r.row.Some? ==> r.row.value == rv[0])
    ensures !one ==> r == Many(rv)
  {
    if one then One(if rv != [] then Some(rv[0]) else None) else Many(rv)
  }

  /** `SELECT username FROM users WHERE pkey_hash = ?`, in table order. */
  function UsernamesWithPkeyHash(users: seq<UserRow>, h: string): (r: seq<string>)
    ensures r == [] <==> forall i :: 0 <= i < |users| ==> users[i].pkeyHash != h
    ensures r != [] ==> exists i :: 0 <= i < |users| && users[i].pkeyHash == h && users[i].username == r[0] &&
                                    forall j :: 0 <= j < i ==> users[j].pkeyHash != h
  {
    if users == [] then []
    else
      var rest := UsernamesWithPkeyHash(users[1..], h);
      assert forall i :: 1 <= i < |users| ==> users[i] == users[1..][i - 1];
      if users[0].pkeyHash == h then [users[0].username] + rest
      else
        assert rest != [] ==> exists i :: 1 <= i < |users| && users[i].pkeyHash == h && users[i].username == rest[0] &&
                                           forall j :: 0 <= j < i ==> users[j].pkeyHash != h by {
          if rest != [] {
            var i :| 0 <= i < |users[1..]| && users[1..][i].pkeyHash == h && users[1..][i].username == rest[0] &&
                     forall j :: 0 <= j < i ==> users[1..][j].pkeyHash != h;
            assert forall j :: 1 <= j < i + 1 ==> users[j] == users[1..][j - 1];
          }
        }
        rest
  }

  /** `User.get_by_pkey_hash`: the username of the first row with the fingerprint, or None. */
  function GetByPkeyHash(users: seq<UserRow>, h: string): (r: Option<string>)
    ensures r.Some? <==> exists i :: 0 <= i < |users| && users[i].pkeyHash == h
    ensures r.Some? ==> exists i :: 0 <= i < |users| && users[i].pkeyHash == h && users[i].username == r.value &&
                                    forall j :: 0 <= j < i ==> users[j].pkeyHash != h
  {
    QueryDb(UsernamesWithPkeyHash(users, h), true).row
  }

  /** What the `/` page is rendered with; `user` is the matched username. */
  datatype Context = Context(
    platform: UserAgent.Platform,
    pkeyHash: Option<string>,
    user: Option<string>,
    registeredUsers: seq<Idmgr.Device>)

  /**
   * `index`: the user-agent check, the cookie branch with a table lookup for
   * a truthy `pkey_hash`, then the registry listing (`laptops` None: the
   * registry cannot be read and the page raises).
   */
  function Index(users: seq<UserRow>, laptops: Option<seq<Idmgr.LaptopRow>>,
                 cookie: Option<string>, loads: string -> Option<Xoid.Decoded>, userAgent: string): (r: Result<Context>)
    ensures var claim := Xoid.Claim(cookie, loads);
            claim.Err? ==> r == Err(claim.error)
    ensures Xoid.Claim(cookie, loads).Ok? ==> (r.Ok? <==> laptops.Some?)
    ensures r.Ok? ==>
              var claim := Xoid.Claim(cookie, loads);
              r.value.platform == UserAgent.IdentifyUserAgent(userAgent) &&
              r.value.pkeyHash == claim.value &&
              r.value.user == (if claim.value.Some? then GetByPkeyHash(users, claim.value.value) else None) &&
              r.value.registeredUsers == Idmgr.All(laptops.value)
  {
    var platform := UserAgent.IdentifyUserAgent(userAgent);
    match Xoid.Claim(cookie, loads)
    case Err(e) => Err(e)
    case Ok(pk) =>
      var user := if pk.Some? then GetByPkeyHash(users, pk.value) else None;
      if laptops.None? then Err(OperationalError)
      else Ok(Context(platform, pk, user, Idmgr.All(laptops.value)))
  }

  /** The lookup never reads the registry: two registries give the same user. */
  lemma UserIgnoresRegistry(users: seq<UserRow>, l1: Option<seq<Idmgr.LaptopRow>>, l2: Option<seq<Idmgr.LaptopRow>>,
                            cookie: Option<string>, loads: string -> Option<Xoid.Decoded>, userAgent: string)
    requires Index(users, l1, cookie, loads, userAgent).Ok? && Index(users, l2, cookie, loads, userAgent).Ok?
    ensures Index(users, l1, cookie, loads, userAgent).value.user == Index(users, l2, cookie, loads, userAgent).value.user
  {
  }

  /**
   * A device enrolled in the registry but absent from `users` stays anonymous:
   * the page finds no user for a well-formed cookie carrying its fingerprint.
   */
  lemma EnrolledDeviceWithoutRowIsAnonymous(users: seq<UserRow>, laptops: seq<Idmgr.LaptopRow>, sha1: string -> string,
                                            i: nat, cookie: string, loads: string -> Option<Xoid.Decoded>, userAgent: string)
    requires i < |laptops| && sha1(laptops[i].pubkey) != ""
    requires loads(cookie) == Some(Xoid.Dict(Some(sha1(laptops[i].pubkey))))
    requires forall k :: 0 <= k < |users| ==> users[k].pkeyHash != sha1(laptops[i].pubkey)
    ensures Idmgr.PkeyHash(Idmgr.All(laptops)[i], sha1) == Ok(sha1(laptops[i].pubkey))
    ensures Index(users, Some(laptops), Some(cookie), loads, userAgent).Ok?
    ensures Index(users, Some(laptops), Some(cookie), loads, userAgent).value.user == None
  {
    Idmgr.AllDevice(laptops, i, sha1);
  }
}
