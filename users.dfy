/**
 * The `users` table of the authserver database as a value, the two queries
 * `User` makes of it, and what one `sync_idmgr` pass inserts: every
 * registry device whose fingerprint the table does not hold yet, the first
 * such device in registry order for each fingerprint.
 */
module Users {
  import opened Wrappers

  /** A row of `users (uuid, nickname, pkey_hash)`. */
  datatype UserRow = UserRow(uuid: string, nickname: string, pkeyHash: string)

  /** The (nickname, pkey_hash) pair a sync pass tries to insert for one registry device. */
  datatype Entry = Entry(nickname: string, pkeyHash: string)

  /** PRIMARY KEY (uuid) and UNIQUE (pkey_hash). */
  ghost predicate Keyed(rows: seq<UserRow>)
  {
    forall i, j :: 0 <= i < j < |rows| ==> rows[i].uuid != rows[j].uuid && rows[i].pkeyHash != rows[j].pkeyHash
  }

  function Uuids(rows: seq<UserRow>): set<string>
  {
    set i | 0 <= i < |rows| :: rows[i].uuid
  }

  function Hashes(rows: seq<UserRow>): set<string>
  {
    set i | 0 <= i < |rows| :: rows[i].pkeyHash
  }

  function HashesOf(es: seq<Entry>): set<string>
  {
    set i | 0 <= i < |es| :: es[i].pkeyHash
  }

  function Entries(rows: seq<UserRow>): seq<Entry>
  {
    seq(|rows|, i requires 0 <= i < |rows| => Entry(rows[i].nickname, rows[i].pkeyHash))
  }

  /** `SELECT uuid FROM users WHERE pkey_hash = ?`, in table order. */
  function UuidsWithPkeyHash(rows: seq<UserRow>, h: string): (r: seq<string>)
    ensures r == [] <==> h !in Hashes(rows)
    ensures forall k :: 0 <= k < |r| ==> exists i :: 0 <= i < |rows| && rows[i].pkeyHash == h && rows[i].uuid == r[k]
  {
    if rows == [] then []
    else
      var rest := UuidsWithPkeyHash(rows[1..], h);
      assert Hashes(rows) == {rows[0].pkeyHash} + Hashes(rows[1..]) by {
        assert forall i :: 1 <= i < |rows| ==> rows[i] == rows[1..][i - 1];
      }
      assert forall k :: 0 <= k < |rest| ==> exists i :: 1 <= i < |rows| && rows[i].pkeyHash == h && rows[i].uuid == rest[k] by {
        forall k | 0 <= k < |rest|
          ensures exists i :: 1 <= i < |rows| && rows[i].pkeyHash == h && rows[i].uuid == rest[k]
        {
          var i :| 0 <= i < |rows[1..]| && rows[1..][i].pkeyHash == h && rows[1..][i].uuid == rest[k];
          assert rows[i + 1] == rows[1..][i];
        }
      }
      (if rows[0].pkeyHash == h then [rows[0].uuid] else []) + rest
  }

  /** `SELECT nickname, pkey_hash FROM users WHERE uuid = ?`; a NULL uuid matches nothing. */
  function RowsWithUuid(rows: seq<UserRow>, u: Option<string>): (r: seq<UserRow>)
    ensures r == [] <==> u.None? || u.value !in Uuids(rows)
    ensures forall k :: 0 <= k < |r| ==> r[k] in rows && Some(r[k].uuid) == u
  {
    if rows == [] then []
    else
      var rest := RowsWithUuid(rows[1..], u);
      assert Uuids(rows) == {rows[0].uuid} + Uuids(rows[1..]) by {
        assert forall i :: 1 <= i < |rows| ==> rows[i] == rows[1..][i - 1];
      }
      (if Some(rows[0].uuid) == u then [rows[0]] else []) + rest
  }

  /** On a keyed table both queries find exactly the one row that holds the key. */
  lemma {:induction false} SelectsOnlyMatch(rows: seq<UserRow>, k: nat)
    requires Keyed(rows) && k < |rows|
    ensures UuidsWithPkeyHash(rows, rows[k].pkeyHash) == [rows[k].uuid]
    ensures RowsWithUuid(rows, Some(rows[k].uuid)) == [rows[k]]
  {
    var tail := rows[1..];
    if k == 0 {
      assert rows[0].pkeyHash !in Hashes(tail) && rows[0].uuid !in Uuids(tail) by {
        forall i | 0 <= i < |tail|
          ensures tail[i].pkeyHash != rows[0].pkeyHash && tail[i].uuid != rows[0].uuid
        {
          assert tail[i] == rows[i + 1];
        }
      }
    } else {
      assert Keyed(tail) by {
        forall i, j | 0 <= i < j < |tail|
          ensures tail[i].uuid != tail[j].uuid && tail[i].pkeyHash != tail[j].pkeyHash
        {
          assert tail[i] == rows[i + 1] && tail[j] == rows[j + 1];
        }
      }
      SelectsOnlyMatch(tail, k - 1);
      assert tail[k - 1] == rows[k];
    }
  }

  /** The longest uuid in the table: any longer string is a fresh uuid. */
  function LongestUuid(rows: seq<UserRow>): (m: nat)
    ensures forall i :: 0 <= i < |rows| ==> |rows[i].uuid| <= m
  {
    if rows == [] then 0
    else
      var m := LongestUuid(rows[1..]);
      assert forall i :: 1 <= i < |rows| ==> rows[i] == rows[1..][i - 1];
      if |rows[0].uuid| > m then |rows[0].uuid| else m
  }

  /** Index of the first entry carrying fingerprint `h`. */
  function FirstIndex(es: seq<Entry>, h: string): (k: nat)
    requires h in HashesOf(es)
    ensures k < |es| && es[k].pkeyHash == h
    ensures forall j :: 0 <= j < k ==> es[j].pkeyHash != h
  {
    if es[0].pkeyHash == h then 0
    else
      assert h in HashesOf(es[1..]) by {
        var i :| 0 <= i < |es| && es[i].pkeyHash == h;
        assert es[1..][i - 1] == es[i];
      }
      1 + FirstIndex(es[1..], h)
  }

  /**
   * The entries one sync pass inserts, in registry order: an entry is inserted
   * unless its fingerprint is already `known` or was inserted earlier in the pass.
   */
  function Pending(known: set<string>, es: seq<Entry>): seq<Entry>
    decreases |es|
  {
    if es == [] then []
    else
      var p := Pending(known, es[..|es| - 1]);
      var e := es[|es| - 1];
      if e.pkeyHash in known || e.pkeyHash in HashesOf(p) then p else p + [e]
  }

  /** `after` is `before` with the rows of one sync pass over `es` appended; nothing in `before` changed. */
  ghost predicate Synced(before: seq<UserRow>, after: seq<UserRow>, es: seq<Entry>)
  {
    before <= after && Entries(after[|before|..]) == Pending(Hashes(before), es)
  }

  lemma HashesOfSnoc(es: seq<Entry>, e: Entry)
    ensures HashesOf(es + [e]) == HashesOf(es) + {e.pkeyHash}
  {
    var s := es + [e];
    assert forall i :: 0 <= i < |es| ==> s[i] == es[i];
    assert s[|es|] == e;
  }

  /** Rows appended to a table add exactly their own fingerprints. */
  lemma HashesSplit(before: seq<UserRow>, after: seq<UserRow>)
    requires before <= after
    ensures Hashes(after) == Hashes(before) + HashesOf(Entries(after[|before|..]))
  {
    var tail := after[|before|..];
    var es := Entries(tail);
    forall h | h in Hashes(after)
      ensures h in Hashes(before) + HashesOf(es)
    {
      var i :| 0 <= i < |after| && after[i].pkeyHash == h;
      if i < |before| {
        assert before[i] == after[i];
      } else {
        assert es[i - |before|].pkeyHash == h;
      }
    }
    forall h | h in Hashes(before) + HashesOf(es)
      ensures h in Hashes(after)
    {
      if h in Hashes(before) {
        var i :| 0 <= i < |before| && before[i].pkeyHash == h;
        assert after[i] == before[i];
      } else {
        var i :| 0 <= i < |es| && es[i].pkeyHash == h;
        assert after[|before| + i] == tail[i];
      }
    }
  }

  /** A pass inserts exactly the fingerprints of the registry that were not known. */
  lemma {:induction false} PendingHashes(known: set<string>, es: seq<Entry>)
    ensures HashesOf(Pending(known, es)) == HashesOf(es) - known
    decreases |es|
  {
    if es != [] {
      var init, e := es[..|es| - 1], es[|es| - 1];
      assert es == init + [e];
      PendingHashes(known, init);
      HashesOfSnoc(init, e);
      var p := Pending(known, init);
      if !(e.pkeyHash in known || e.pkeyHash in HashesOf(p)) {
        HashesOfSnoc(p, e);
      }
    }
  }

  ghost predicate DistinctHashes(es: seq<Entry>)
  {
    forall i, j :: 0 <= i < j < |es| ==> es[i].pkeyHash != es[j].pkeyHash
  }

  /** A pass inserts each fingerprint at most once. */
  lemma {:induction false} PendingDistinct(known: set<string>, es: seq<Entry>)
    ensures DistinctHashes(Pending(known, es))
    decreases |es|
  {
    if es != [] {
      var init, e := es[..|es| - 1], es[|es| - 1];
      PendingDistinct(known, init);
      var p := Pending(known, init);
      if !(e.pkeyHash in known || e.pkeyHash in HashesOf(p)) {
        var q := p + [e];
        assert Pending(known, es) == q;
        forall i, j | 0 <= i < j < |q|
          ensures q[i].pkeyHash != q[j].pkeyHash
        {
          if j == |p| {
            assert q[i] == p[i] && q[j] == e;
            assert p[i].pkeyHash in HashesOf(p);
          } else {
            assert q[i] == p[i] && q[j] == p[j];
          }
        }
      }
    }
  }

  /** `k` is the first index carrying `h` exactly when `FirstIndex` says so. */
  lemma FirstIndexIs(es: seq<Entry>, h: string, k: nat)
    requires k < |es| && es[k].pkeyHash == h
    requires forall j :: 0 <= j < k ==> es[j].pkeyHash != h
    ensures h in HashesOf(es) && FirstIndex(es, h) == k
  {
    assert h in HashesOf(es);
  }

  /** Each inserted entry is the first registry entry with its fingerprint: the first device names the account. */
  lemma {:induction false} PendingFirst(known: set<string>, es: seq<Entry>)
    ensures forall x :: x in Pending(known, es) ==> x.pkeyHash in HashesOf(es) && x == es[FirstIndex(es, x.pkeyHash)]
    decreases |es|
  {
    if es != [] {
      var init, e := es[..|es| - 1], es[|es| - 1];
      assert es == init + [e];
      PendingFirst(known, init);
      PendingHashes(known, init);
      var p := Pending(known, init);
      forall x | x in Pending(known, es)
        ensures x.pkeyHash in HashesOf(es) && x == es[FirstIndex(es, x.pkeyHash)]
      {
        HashesOfSnoc(init, e);
        if x in p {
          var k := FirstIndex(init, x.pkeyHash);
          FirstIndexIs(es, x.pkeyHash, k);
        } else {
          assert x == e && e.pkeyHash !in known && e.pkeyHash !in HashesOf(p);
          assert e.pkeyHash !in HashesOf(init);
          FirstIndexIs(es, e.pkeyHash, |es| - 1);
        }
      }
    }
  }

  /** Nothing is inserted when every registry fingerprint is already known. */
  lemma PendingEmpty(known: set<string>, es: seq<Entry>)
    requires HashesOf(es) <= known
    ensures Pending(known, es) == []
  {
    var p := Pending(known, es);
    PendingHashes(known, es);
  }

  /** One more registry entry: the step of a sync pass, whether the insert is refused or succeeds. */
  lemma SyncStep(before: seq<UserRow>, cur: seq<UserRow>, es: seq<Entry>, i: nat, u: string)
    requires i < |es| && Synced(before, cur, es[..i])
    ensures es[i].pkeyHash in Hashes(cur) ==> Synced(before, cur, es[..i + 1])
    ensures es[i].pkeyHash !in Hashes(cur) ==>
              Synced(before, cur + [UserRow(u, es[i].nickname, es[i].pkeyHash)], es[..i + 1])
  {
    var known := Hashes(before);
    var p := Pending(known, es[..i]);
    assert es[..i + 1][..i] == es[..i];
    HashesSplit(before, cur);
    assert Hashes(cur) == known + HashesOf(p);
    var row := UserRow(u, es[i].nickname, es[i].pkeyHash);
    var cur' := cur + [row];
    assert cur'[|before|..] == cur[|before|..] + [row];
    assert Entries(cur'[|before|..]) == Entries(cur[|before|..]) + [es[i]];
  }

  /** After a pass the table holds every registry fingerprint, and no other fingerprint besides those it held before. */
  lemma SyncedHashes(before: seq<UserRow>, after: seq<UserRow>, es: seq<Entry>)
    requires Synced(before, after, es)
    ensures Hashes(after) == Hashes(before) + HashesOf(es)
  {
    HashesSplit(before, after);
    PendingHashes(Hashes(before), es);
  }

  /** Each row a pass adds carries a fingerprint that was absent, and the nickname of the first device with it. */
  lemma SyncedNewRow(before: seq<UserRow>, after: seq<UserRow>, es: seq<Entry>, i: nat)
    requires Synced(before, after, es) && |before| <= i < |after|
    ensures after[i].pkeyHash !in Hashes(before) && after[i].pkeyHash in HashesOf(es)
    ensures after[i].nickname == es[FirstIndex(es, after[i].pkeyHash)].nickname
  {
    var known := Hashes(before);
    var p := Pending(known, es);
    var x := p[i - |before|];
    assert x == Entries(after[|before|..])[i - |before|];
    assert x == Entry(after[i].nickname, after[i].pkeyHash);
    PendingHashes(known, es);
    assert x.pkeyHash in HashesOf(p);
    PendingFirst(known, es);
    assert x in p;
  }

  /** A second pass over an unchanged registry inserts nothing. */
  lemma SyncIdempotent(before: seq<UserRow>, mid: seq<UserRow>, after: seq<UserRow>, es: seq<Entry>)
    requires Synced(before, mid, es) && Synced(mid, after, es)
    ensures after == mid
  {
    SyncedHashes(before, mid, es);
    PendingEmpty(Hashes(mid), es);
    assert |Entries(after[|mid|..])| == 0;
    assert after == mid + after[|mid|..];
  }
}
