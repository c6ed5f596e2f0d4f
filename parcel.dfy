/**
 * IPC parcels as value sequences with a read cursor. A parcel holds at most
 * `capacity` items: a write fails, leaving the parcel unchanged, once it is
 * full, which is how the model lets any write of a marshalling sequence fail.
 * A read yields the next item when it has the requested kind and advances the
 * cursor; otherwise it fails, yields the reader's default and moves nothing.
 */
module Parcels {
  import opened Base

  datatype Item =
    | Token(descriptor: string)
    | Str(s: string)
    | I32(v: int32)
    | Fd(fd: int32)
    | RemoteObject(handle: nat)
    | StrVec(strings: seq<string>)

  datatype Parcel = Parcel(items: seq<Item>, readPos: nat, capacity: nat)

  function Empty(capacity: nat): Parcel
  {
    Parcel([], 0, capacity)
  }

  /** A parcel that holds exactly `items` and is read from the start. */
  function Filled(items: seq<Item>): Parcel
  {
    Parcel(items, 0, |items|)
  }

  function Write(p: Parcel, it: Item): (bool, Parcel)
  {
    if |p.items| < p.capacity then (true, p.(items := p.items + [it])) else (false, p)
  }

  function Next(p: Parcel): Option<Item>
  {
    if p.readPos < |p.items| then Some(p.items[p.readPos]) else None
  }

  function Advance(p: Parcel): Parcel
  {
    p.(readPos := p.readPos + 1)
  }

  function TakeString(p: Parcel): (Option<string>, Parcel)
  {
    match Next(p)
    case Some(Str(s)) => (Some(s), Advance(p))
    case _ => (None, p)
  }

  /** `ReadInt32()` yields 0 when there is no int32 to read. */
  function TakeInt32(p: Parcel): (bool, int32, Parcel)
  {
    match Next(p)
    case Some(I32(v)) => (true, v, Advance(p))
    case _ => (false, 0, p)
  }

  /** `ReadFileDescriptor()` yields -1 when there is no descriptor to read. */
  function TakeFd(p: Parcel): (int32, Parcel)
  {
    match Next(p)
    case Some(Fd(fd)) => (fd, Advance(p))
    case _ => (-1, p)
  }

  /** `ReadInterfaceToken()` yields the empty string when there is no token. */
  function TakeToken(p: Parcel): (string, Parcel)
  {
    match Next(p)
    case Some(Token(d)) => (d, Advance(p))
    case _ => ("", p)
  }

  /** The first int32 of a reply, or 0: what a proxy returns after a successful call. */
  function ReplyInt32(reply: seq<Item>): int32
  {
    TakeInt32(Filled(reply)).1
  }

  /** Whatever was written can be read back by a reader positioned at the write. */
  lemma WriteThenRead(p: Parcel, it: Item)
    requires p.readPos == |p.items| < p.capacity
    ensures Next(Write(p, it).1) == Some(it)
    ensures Write(p, it).0
  {
  }

  /** An IPC buffer that callers fill and drain in place. */
  class MessageParcel {
    var state: Parcel

    constructor (capacity: nat)
      ensures state == Empty(capacity)
    {
      state := Empty(capacity);
    }

    method WriteItem(it: Item) returns (ok: bool)
      modifies this
      ensures ok <==> |old(state.items)| < old(state.capacity)
      ensures (ok, state) == Write(old(state), it)
    {
      ok, state := Write(state, it).0, Write(state, it).1;
    }

    method WriteInterfaceToken(descriptor: string) returns (ok: bool)
      modifies this
      ensures (ok, state) == Write(old(state), Token(descriptor))
    {
      ok := WriteItem(Token(descriptor));
    }

    method WriteString(s: string) returns (ok: bool)
      modifies this
      ensures (ok, state) == Write(old(state), Str(s))
    {
      ok := WriteItem(Str(s));
    }

    method WriteInt32(v: int32) returns (ok: bool)
      modifies this
      ensures (ok, state) == Write(old(state), I32(v))
    {
      ok := WriteItem(I32(v));
    }

    method WriteFileDescriptor(fd: int32) returns (ok: bool)
      modifies this
      ensures (ok, state) == Write(old(state), Fd(fd))
    {
      ok := WriteItem(Fd(fd));
    }

    method WriteRemoteObject(handle: nat) returns (ok: bool)
      modifies this
      ensures (ok, state) == Write(old(state), RemoteObject(handle))
    {
      ok := WriteItem(RemoteObject(handle));
    }

    method WriteStringVector(strings: seq<string>) returns (ok: bool)
      modifies this
      ensures (ok, state) == Write(old(state), StrVec(strings))
    {
      ok := WriteItem(StrVec(strings));
    }

    method ReadString() returns (ok: bool, s: string)
      modifies this
      ensures ok == TakeString(old(state)).0.Some?
      ensures ok ==> s == TakeString(old(state)).0.value
      ensures state == TakeString(old(state)).1
    {
      var r := TakeString(state);
      ok, state := r.0.Some?, r.1;
      s := if ok then r.0.value else "";
    }

    method ReadInt32() returns (v: int32)
      modifies this
      ensures v == TakeInt32(old(state)).1 && state == TakeInt32(old(state)).2
    {
      var r := TakeInt32(state);
      v, state := r.1, r.2;
    }

    method ReadFileDescriptor() returns (fd: int32)
      modifies this
      ensures (fd, state) == TakeFd(old(state))
    {
      fd, state := TakeFd(state).0, TakeFd(state).1;
    }

    method ReadInterfaceToken() returns (descriptor: string)
      modifies this
      ensures (descriptor, state) == TakeToken(old(state))
    {
      descriptor, state := TakeToken(state).0, TakeToken(state).1;
    }
  }
}
