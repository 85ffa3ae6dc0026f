# xs-authserver identity reconciliation, modelled in Dafny

xs-authserver shows a school-server page to XO laptops. A laptop presents its
public-key fingerprint (`pkey_hash`, the SHA-1 hex digest of its key) in the
`xoid` cookie. The server looks the fingerprint up in its own `users` table
(uuid, nickname, pkey_hash; uuid is the primary key and pkey_hash is unique).
On a miss it copies the idmgr `laptops` registry into that table, one insert
per enrolled device, skipping fingerprints the table already holds. Then it
asks the table again.

The model covers:

- `Idmgr`: the registry record. It keeps four fields, answers attribute reads
  for them and derives `pkey_hash`. Both server variants define it
  identically, so one module serves both.
- `UserAgent`: `identify_user_agent`, the first `SugarLabs/<digits and dots>`
  token. It is shared by both variants.
- `Xoid`: the cookie branch of `index`, which decides whether a lookup
  happens. It is shared by both variants.
- `Users`: the users table as a value, its two queries, and what one
  `sync_idmgr` pass inserts (`Pending`). It also holds the lemmas about
  syncing: coverage, only-new fingerprints, first device names the account,
  idempotence.
- `XsAuthserver`: the later server (`xs_authserver/__init__.py`), with state.
  `UsersTable` is the users table with its key checks and the fresh-uuid
  oracle. `IdmgrDb` is the read-only registry with a count of queries.
  `User` has `__init__`, `_load`, `save` and `by_pkey_hash`. Beside them are
  `SyncIdmgr` and `Index`, and scenario methods that replay the test suite's
  situations.
- `Authserver`: the earlier server (`authserver/authserver.py`). It is pure:
  `query_db`, a lookup-only `get_by_pkey_hash`, and `index`.

SHA-1 (`hashlib.sha1(...).hexdigest()`) is a parameter `sha1: string -> string`.
`json.loads` is a parameter `loads: string -> Option<Decoded>`: None means it
raised, and a decoded value is reduced to falsy, a truthy non-dict, or a dict
with its `pkey_hash`. `uuid.uuid4()` is a nondeterministic choice of an
identifier the table does not use yet. The registry is an `IdmgrDb` whose
`laptops` is None when the database cannot be read.

The model follows what the code actually does in these points:

- A cookie that is not JSON raises ValueError; it is not read as anonymous.
- A truthy non-dict cookie raises AttributeError.
- A registry that cannot be read raises out of `by_pkey_hash` and `index`.
  Nothing logs the failure or falls back to "not found".
- Syncing is insert-or-skip: an existing row, nickname included, is never
  overwritten. The `REPLACE` branch of `save` is malformed SQL (it has no
  `INTO`), so SQLite rejects it with OperationalError.
- The fingerprint is the hash of the `pubkey` text column as stored, not of
  decoded key bytes.

## Model

| member | source | states |
|---|---|---|
| `Idmgr.New` | authserver/authserver.py:70-71 | the record keeps exactly the keyword arguments named serial, nickname, full_name, pubkey, with their values |
| `Idmgr.GetAttr` | authserver/authserver.py:73-77 | a listed field reads as its value or None when unset; any other name raises AttributeError |
| `Idmgr.GetAttrOfNew` | authserver/authserver.py:70-77 | reading a listed field back from a constructed record gives the argument passed or None; an unlisted name raises |
| `Idmgr.PkeyHash` | xs_authserver/__init__.py:104-106 | pkey_hash is sha1 of pubkey when pubkey is set, TypeError otherwise |
| `Idmgr.PkeyHashDeterministic` | authserver/authserver.py:79-81 | equal public keys give equal fingerprints |
| `Idmgr.All` | xs_authserver/__init__.py:87-93 | one record per registry row, in query order: record i holds exactly row i's serial, nickname, full_name and pubkey |
| `Idmgr.AllDevice` | xs_authserver/__init__.py:87-106 | each record from all() answers nickname, serial and full_name from its row, and its pkey_hash is sha1 of the row's pubkey |
| `UserAgent.FindFrom` | xs_authserver/__init__.py:211 | the position found is the leftmost one where `SugarLabs/` is followed by a digit or dot; None means there is none |
| `UserAgent.RunEnd` | xs_authserver/__init__.py:211 | the greedy `[\d\.]+` stops at the first character that is neither a digit nor a dot |
| `UserAgent.TokenSplits` | xs_authserver/__init__.py:211-213 | the matched token splits on '/' into exactly two pieces, "SugarLabs" and the whole non-empty version run |
| `UserAgent.IdentifyUserAgent` | xs_authserver/__init__.py:210-217 | detected iff the pattern matches somewhere; the version is then the maximal digit-and-dot run after the leftmost match, contains no '/', and is None when not detected |
| `UserAgent.SugarScenario` | test_xs_authserver.py:93-97 | `SugarLabs/0.98` is detected with version 0.98 |
| `UserAgent.BrowserScenario` | authserver/authserver.py:113-120 | a browser User-Agent without the token gives (False, None) |
| `Xoid.Claim` | xs_authserver/__init__.py:225-233 | a lookup key exists iff the cookie is present and non-empty, decodes to a dict, and its pkey_hash is truthy; undecodable text raises ValueError and a truthy non-dict raises AttributeError |
| `Xoid.BadCookieRaises` | xs_authserver/__init__.py:227-229 | a non-empty cookie the decoder rejects raises ValueError |
| `Xoid.TolerantClaim` | test_xs_authserver.py:99-103 | a lookup key exists iff the cookie decodes to a dict with a truthy pkey_hash; wherever the code does not raise, it agrees with `Xoid.Claim` |
| `Xoid.BadCookieIsAnonymous` | test_xs_authserver.py:99-103 | with the tolerant reading an undecodable or non-dict cookie gives no lookup |
| `Xoid.AnonymousWithoutCookie` | test_xs_authserver.py:74-77 | no cookie means no lookup |
| `Users.UuidsWithPkeyHash` | xs_authserver/__init__.py:130-136 | the query is empty iff no row has the fingerprint, and returns only uuids of rows that have it |
| `Users.RowsWithUuid` | xs_authserver/__init__.py:160-163 | the query is empty iff no row has the uuid (a None uuid matches nothing), and returns only rows with it |
| `Users.SelectsOnlyMatch` | xs_authserver/__init__.py:119-125 | with uuid and pkey_hash unique, both queries return exactly the one row holding the key |
| `Users.FirstIndex` | xs_authserver/__init__.py:184 | the index found is the first registry entry with the fingerprint |
| `Users.PendingHashes` | xs_authserver/__init__.py:182-190 | one pass inserts exactly the registry fingerprints the table did not hold |
| `Users.PendingDistinct` | xs_authserver/__init__.py:182-190 | one pass inserts each fingerprint at most once, even when devices share it |
| `Users.PendingFirst` | xs_authserver/__init__.py:184-190 | each inserted entry is the first registry entry with its fingerprint, so that device names the account |
| `Users.PendingEmpty` | xs_authserver/__init__.py:186-190 | when every registry fingerprint is already held, a pass inserts nothing |
| `Users.SyncStep` | xs_authserver/__init__.py:184-190 | one loop iteration either skips a held fingerprint or appends exactly one row for it, and the pass relation still holds |
| `Users.SyncedHashes` | xs_authserver/__init__.py:182-190 | after a pass the table's fingerprints are the old ones plus every registry fingerprint, and no others |
| `Users.SyncedNewRow` | xs_authserver/__init__.py:174-190 | every added row has a fingerprint that was absent and the nickname of the first device with it |
| `Users.SyncIdempotent` | xs_authserver/__init__.py:182-190 | a second pass over an unchanged registry adds no row |
| `XsAuthserver.RegistryEntries` | xs_authserver/__init__.py:184-185 | entry i is the nickname attribute and the pkey_hash of the i-th record all() returns |
| `XsAuthserver.IdmgrDb.All` | xs_authserver/__init__.py:87-93 | one registry query; the records of all rows, or OperationalError when the database cannot be read |
| `XsAuthserver.UsersTable.SelectUuids` | xs_authserver/__init__.py:130-136 | the uuid of the one row with the fingerprint, or nothing when no row has it |
| `XsAuthserver.UsersTable.SelectByUuid` | xs_authserver/__init__.py:160-163 | the rows with the uuid; empty iff the uuid is None or unused |
| `XsAuthserver.UsersTable.Insert` | xs_authserver/__init__.py:176-178 | the insert succeeds iff both uuid and pkey_hash are unused, and then appends exactly that row; otherwise IntegrityError and no change; uniqueness is kept |
| `XsAuthserver.UsersTable.Uuid4` | xs_authserver/__init__.py:175 | the drawn uuid is non-empty (so a later `save` takes the REPLACE branch) and not used by any row |
| `XsAuthserver.User.Init` | xs_authserver/__init__.py:149-157 | with a uuid keyword the row is loaded or LookupError is raised; otherwise uuid is None and only nickname and pkey_hash are kept |
| `XsAuthserver.User.Load` | xs_authserver/__init__.py:159-168 | nickname and pkey_hash come from the first row with the uuid; LookupError exactly when there is none, with the fields unchanged |
| `XsAuthserver.User.Save` | xs_authserver/__init__.py:170-179 | without a uuid, exactly one row with a fresh uuid is appended and then uuid is set; a duplicate fingerprint raises IntegrityError with table and uuid unchanged; the REPLACE branch raises OperationalError |
| `XsAuthserver.User.ByPkeyHash` | xs_authserver/__init__.py:138-147 | a held fingerprint is answered without a registry query or table change; a miss syncs once, and the answer is a user iff a registry device has the fingerprint, named after the first such device; a returned user carries the queried fingerprint and its row's nickname |
| `XsAuthserver.SyncIdmgr` | xs_authserver/__init__.py:182-190 | one registry query; old rows stay as they were, the added rows are exactly the pass's insert-or-skip list, every registry fingerprint then has a row, and both keys stay unique; an unreadable registry raises before any insert |
| `XsAuthserver.SyncTwice` | xs_authserver/__init__.py:182-190 | two passes against an unchanged registry raise nothing and leave the table as one pass does |
| `XsAuthserver.Index` | xs_authserver/__init__.py:220-237 | without a truthy claimed pkey_hash there is no lookup and no table change, and pkey_hash and user stay None; with one, pkey_hash is set and a user is found iff the table then holds the fingerprint; with a readable registry the page always renders with `all()` as registered_users, a known fingerprint leaves the table alone and reads the registry once, and an unknown one syncs (two reads) and finds a user iff a device has the fingerprint, named after the first such device; with an unreadable registry any well-formed cookie gives OperationalError after one registry read, and the table is unchanged |
| `XsAuthserver.Fixture` | test_xs_authserver.py:12-41 | the test tables: fulano's account, and miguel's laptop, with its public key as the test stores it, enrolled without an account |
| `Authserver.QueryDb` | authserver/authserver.py:34-38 | with `one`, the first row or None; otherwise every row in order |
| `Authserver.UsernamesWithPkeyHash` | authserver/authserver.py:92-96 | empty iff no row has the fingerprint; otherwise it starts with the username of the first row that has it |
| `Authserver.GetByPkeyHash` | authserver/authserver.py:89-97 | the username of the first row with the fingerprint, and None iff no row has it |
| `Authserver.Index` | authserver/authserver.py:123-139 | pkey_hash and user are set only for a truthy claimed pkey_hash, and user is then the table lookup; an unreadable registry raises |
| `Authserver.UserIgnoresRegistry` | authserver/authserver.py:128-136 | the user found does not depend on the registry |
| `Authserver.EnrolledDeviceWithoutRowIsAnonymous` | authserver/authserver.py:89-97 | a device enrolled in the registry but absent from the table gets no user |

## Findings

| source | as written | input that shows it | evidently intended | confidence | as-written member | corrected member |
|---|---|---|---|---|---|---|
| authserver/authserver.py:89-97 | `get_by_pkey_hash` only reads the users table, so an enrolled device with no row stays anonymous | users holds fulano only; the registry holds miguel's laptop with fingerprint 195ed98f…; the cookie carries that fingerprint | test_authserver.py:88-94 expects "Hello miguel": a miss should provision the account from the registry | medium, not executed | `Authserver.EnrolledDeviceWithoutRowIsAnonymous` | `XsAuthserver.User.ByPkeyHash` |
| xs_authserver/__init__.py:227-229 | `json.loads` runs on the raw cookie and its ValueError is not caught, so the page fails | the cookie `xoid=badcookie` | test_xs_authserver.py:99-103 expects the anonymous page with pkey_hash None: an unreadable cookie should count as no cookie | high, not executed | `Xoid.BadCookieRaises` | `Xoid.TolerantClaim` |

## Left out

- The Flask app: routing, `render_template`, reading cookies and headers, and environment configuration. These are I/O and framework glue. The page's inputs are parameters of `Index`.
- The `g`-cached connections and their teardown, and `init_db` with `schema.sql`. These are connection management. `schema.sql` is not part of this model; the table definitions in the docstrings are used instead.
- The SQLite engine, transactions and commits. Each table is a sequence with its key checks. Durability across requests is not modelled.
- SQLite's type affinity. A decoded `pkey_hash` that is a number, a list or an object (the engine would convert or refuse it) is not modelled; the decoded dict carries it as text.
- Concurrent requests. Racing syncs are not modelled; one insert refused by the uniqueness check is the sequential picture of such a race.
- SHA-1 itself (FIPS 180-4), `uuid.uuid4` and `json.loads`. They are parameters or a nondeterministic choice, as described above. The chance that uuid4 repeats is ignored.
- `Idmgr.__repr__`, `setup.py` and the test modules. The tests serve only as scenarios.
- `Idmgr.GetAttr`: it models `__getattr__` for attribute names only. The class's own members (`values`, `fields`, `all`, `pkey_hash`) are found before `__getattr__` runs.
- `Idmgr.New`: keyword values are strings, the only kind the code passes. A None value, which would violate a NOT NULL column on insert, is not modelled.
- `XsAuthserver.User.Init`: keyword values are strings, as for `Idmgr.New`.
- `XsAuthserver.Index`: for a user found by a known fingerprint it states the fingerprint but not the stored nickname; `XsAuthserver.User.ByPkeyHash` states that the user is read from the table row.
- `XsAuthserver.Index`: it uses `Xoid.Claim`, the cookie handling as written, not `Xoid.TolerantClaim`, because it models the code's page.
- `Authserver.GetByPkeyHash`: it returns the username column instead of the SQLite row object.
- `Authserver.QueryDb`: the SQL text and its arguments are not interpreted. The function works on the rows `fetchall` returned.
