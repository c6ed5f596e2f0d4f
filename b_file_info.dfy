/**
 * `BFileInfo`, the (owner, file name, serial number) record sent over IPC,
 * and its parcel round trip. Its implementation file is not part of this
 * model: the three fields are written in declaration order and read back in
 * the same order, stopping at the first failure, which is the behaviour its
 * unit tests pin down.
 */
module FileInfo {
  import opened Base
  import opened Parcels

  /** The capacity, in items, of a default-constructed `Parcel`. */
  const DEFAULT_CAPACITY: nat := 204800

  datatype FileInfoValue = FileInfoValue(owner: string, fileName: string, sn: int32)

  /** The items `Marshalling` writes. */
  function Fields(v: FileInfoValue): seq<Item>
  {
    [Str(v.owner), Str(v.fileName), I32(v.sn)]
  }

  /** `Marshalling` on parcel values: three writes, stopping at the first that fails. */
  function Marshal(p: Parcel, v: FileInfoValue): (r: (bool, Parcel))
    ensures r.0 <==> |p.items| + 3 <= p.capacity
    ensures r.0 ==> r.1 == p.(items := p.items + Fields(v))
    ensures !r.0 ==> r.1.items <= p.items + Fields(v) && r.1.readPos == p.readPos
  {
    var (ok1, p1) := Write(p, Str(v.owner));
    if !ok1 then (false, p1) else
    var (ok2, p2) := Write(p1, Str(v.fileName));
    if !ok2 then (false, p2) else
    Write(p2, I32(v.sn))
  }

  /** `ReadFromParcel` on parcel values: three reads, stopping at the first that fails. */
  function Unmarshal(p: Parcel): (Option<FileInfoValue>, Parcel)
  {
    var (owner, p1) := TakeString(p);
    if owner.None? then (None, p1) else
    var (fileName, p2) := TakeString(p1);
    if fileName.None? then (None, p2) else
    var (ok, sn, p3) := TakeInt32(p2);
    if !ok then (None, p3) else (Some(FileInfoValue(owner.value, fileName.value, sn)), p3)
  }

  /**
   * Round trip: whatever is marshalled into a parcel with room for it is
   * what a reader positioned at the write reads back, and the reader then
   * stands after the record.
   */
  lemma MarshalRoundTrip(p: Parcel, v: FileInfoValue)
    requires p.readPos == |p.items| && |p.items| + 3 <= p.capacity
    ensures Marshal(p, v).0
    ensures Unmarshal(Marshal(p, v).1) == (Some(v), Marshal(p, v).1.(readPos := |p.items| + 3))
  {
    var q := Marshal(p, v).1;
    assert q.items[|p.items|] == Str(v.owner);
    assert q.items[|p.items| + 1] == Str(v.fileName);
    assert q.items[|p.items| + 2] == I32(v.sn);
  }

  class BFileInfo {
    var owner: string
    var fileName: string
    var sn: int32

    constructor (owner: string, fileName: string, sn: int32)
      ensures this.owner == owner && this.fileName == fileName && this.sn == sn
    {
      this.owner, this.fileName, this.sn := owner, fileName, sn;
    }

    function Value(): FileInfoValue
      reads this
    {
      FileInfoValue(owner, fileName, sn)
    }

    method Marshalling(parcel: MessageParcel) returns (ok: bool)
      modifies parcel
      ensures (ok, parcel.state) == Marshal(old(parcel.state), Value())
    {
      ok := parcel.WriteString(owner);
      if !ok {
        return;
      }
      ok := parcel.WriteString(fileName);
      if !ok {
        return;
      }
      ok := parcel.WriteInt32(sn);
    }

    /** Reads the three fields straight into the receiver, as `ReadString(owner)` does. */
    method ReadFromParcel(parcel: MessageParcel) returns (ok: bool)
      modifies this, parcel
      ensures ok == Unmarshal(old(parcel.state)).0.Some?
      ensures ok ==> Value() == Unmarshal(old(parcel.state)).0.value
      ensures parcel.state == Unmarshal(old(parcel.state)).1
      ensures TakeString(old(parcel.state)).0.Some? ==> owner == TakeString(old(parcel.state)).0.value
      ensures TakeString(old(parcel.state)).0.None? ==> Value() == old(Value())
    {
      var s: string;
      ok, s := parcel.ReadString();
      if !ok {
        return;
      }
      owner := s;
      ok, s := parcel.ReadString();
      if !ok {
        return;
      }
      fileName := s;
      var before := parcel.state;
      var v := parcel.ReadInt32();
      ok := TakeInt32(before).0;
      if !ok {
        return;
      }
      sn := v;
    }

    /** `Unmarshalling` is static: its result never depends on a receiver's fields. */
    static method Unmarshalling(parcel: MessageParcel) returns (info: BFileInfo?)
      modifies parcel
      ensures info != null <==> Unmarshal(old(parcel.state)).0.Some?
      ensures info != null ==> fresh(info) && info.Value() == Unmarshal(old(parcel.state)).0.value
      ensures parcel.state == Unmarshal(old(parcel.state)).1
    {
      var result := new BFileInfo("", "", 0);
      var ok := result.ReadFromParcel(parcel);
      info := if ok then result else null;
    }
  }

  /**
   * The marshalling test: a record marshalled into a fresh parcel is
   * accepted, and unmarshalling that parcel yields a record with the same
   * owner, file name and serial number (the tests use sn = -1).
   */
  method MarshallingTest(owner: string, fileName: string, sn: int32) returns (marshalled: bool, restored: Option<FileInfoValue>)
    ensures marshalled
    ensures restored == Some(FileInfoValue(owner, fileName, sn))
  {
    var info := new BFileInfo(owner, fileName, sn);
    var parcel := new MessageParcel(DEFAULT_CAPACITY);
    marshalled := info.Marshalling(parcel);
    MarshalRoundTrip(Empty(DEFAULT_CAPACITY), info.Value());
    var back := BFileInfo.Unmarshalling(parcel);
    restored := if back == null then None else Some(back.Value());
  }

  /**
   * The `ReadFromParcel` test: a blank receiver ("", "", -1) reading a
   * marshalled parcel ends up with all three marshalled fields.
   */
  method ReadFromParcelTest(owner: string, fileName: string, sn: int32) returns (read: bool, receiver: FileInfoValue)
    ensures read
    ensures receiver == FileInfoValue(owner, fileName, sn)
  {
    var info := new BFileInfo(owner, fileName, sn);
    var parcel := new MessageParcel(DEFAULT_CAPACITY);
    var marshalled := info.Marshalling(parcel);
    MarshalRoundTrip(Empty(DEFAULT_CAPACITY), info.Value());
    var temp := new BFileInfo("", "", -1);
    read := temp.ReadFromParcel(parcel);
    receiver := temp.Value();
  }
}
