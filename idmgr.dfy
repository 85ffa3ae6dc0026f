/**
 * The `Idmgr` record: one device of the idmgr `laptops` registry. Both server
 * variants define it identically.
 */
module Idmgr {
  import opened Wrappers

  /** The columns `Idmgr.all` selects; the only names the record keeps and answers to. */
  const Fields: set<string> := {"serial", "nickname", "full_name", "pubkey"}

  /** One row of `SELECT serial, nickname, full_name, pubkey FROM laptops` (all four are NOT NULL). */
  datatype LaptopRow = LaptopRow(serial: string, nickname: string, fullName: string, pubkey: string)

  /** An `Idmgr` object: its `values` dict. */
  datatype Device = Device(values: map<string, string>)

  /** `Idmgr(**kwargs)`: keeps the keyword arguments named in `Fields` and drops the rest. */
  function New(kwargs: map<string, string>): (d: Device)
    ensures d.values.Keys == kwargs.Keys * Fields
    ensures forall k :: k in d.values ==> d.values[k] == kwargs[k]
  {
    Device(map k | k in kwargs && k in Fields :: kwargs[k])
  }

  /**
   * `Idmgr.__getattr__`, reached for every name that is not a member of the
   * class: a listed field gives its value or None, any other name raises.
   */
  function GetAttr(d: Device, name: string): (r: Result<Option<string>>)
    ensures r.Err? <==> name !in Fields
    ensures r.Err? ==> r.error == AttributeError
    ensures r == Ok(None) <==> name in Fields && name !in d.values
    ensures name in Fields && name in d.values ==> r == Ok(Some(d.values[name]))
  {
    if name in Fields then
      Ok(if name in d.values then Some(d.values[name]) else None)
    else
      Err(AttributeError)
  }

  /**
   * The `pkey_hash` property: the SHA-1 hex digest of `pubkey`. `sha1` stands
   * for `hashlib.sha1(...).hexdigest()`. Without a `pubkey` the attribute is
   * None and hashing it raises TypeError.
   */
  function PkeyHash(d: Device, sha1: string -> string): (r: Result<string>)
    ensures r.Ok? <==> "pubkey" in d.values
    ensures r.Ok? ==> r.value == sha1(d.values["pubkey"])
    ensures r.Err? ==> r.error == TypeError
  {
    match GetAttr(d, "pubkey")
    case Ok(Some(key)) => Ok(sha1(key))
    case _ => Err(TypeError)
  }

  /** The keyword arguments `dict(zip(r.keys(), r))` builds from one registry row. */
  function RowKwargs(l: LaptopRow): map<string, string>
  {
    map["serial" := l.serial, "nickname" := l.nickname, "full_name" := l.fullName, "pubkey" := l.pubkey]
  }

  /** `Idmgr.all()` applied to the rows the query returned, in query order. */
  function All(rows: seq<LaptopRow>): (ds: seq<Device>)
    ensures |ds| == |rows|
    ensures forall i :: 0 <= i < |ds| ==> ds[i].values == RowKwargs(rows[i])
  {
    seq(|rows|, i requires 0 <= i < |rows| => New(RowKwargs(rows[i])))
  }

  /** Reading a field back from a constructed record gives what was passed, or None; any other name raises. */
  lemma GetAttrOfNew(kwargs: map<string, string>, name: string)
    ensures name in Fields && name in kwargs ==> GetAttr(New(kwargs), name) == Ok(Some(kwargs[name]))
    ensures name in Fields && name !in kwargs ==> GetAttr(New(kwargs), name) == Ok(None)
    ensures name !in Fields ==> GetAttr(New(kwargs), name) == Err(AttributeError)
  {
  }

  /** The fingerprint depends on the public key only. */
  lemma PkeyHashDeterministic(d1: Device, d2: Device, sha1: string -> string)
    requires "pubkey" in d1.values && "pubkey" in d2.values
    requires d1.values["pubkey"] == d2.values["pubkey"]
    ensures PkeyHash(d1, sha1) == PkeyHash(d2, sha1)
  {
  }

  /** Every device `all()` returns answers `nickname` and `pkey_hash` from its row; hashing cannot fail. */
  lemma AllDevice(rows: seq<LaptopRow>, i: nat, sha1: string -> string)
    requires i < |rows|
    ensures GetAttr(All(rows)[i], "nickname") == Ok(Some(rows[i].nickname))
    ensures GetAttr(All(rows)[i], "serial") == Ok(Some(rows[i].serial))
    ensures GetAttr(All(rows)[i], "full_name") == Ok(Some(rows[i].fullName))
    ensures PkeyHash(All(rows)[i], sha1) == Ok(sha1(rows[i].pubkey))
  {
    GetAttrOfNew(RowKwargs(rows[i]), "nickname");
    GetAttrOfNew(RowKwargs(rows[i]), "serial");
    GetAttrOfNew(RowKwargs(rows[i]), "full_name");
    GetAttrOfNew(RowKwargs(rows[i]), "pubkey");
  }
}
