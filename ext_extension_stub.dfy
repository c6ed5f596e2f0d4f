/**
 * The extension's IPC stub: an opcode table built at construction, a request
 * router that checks the opcode and then the interface descriptor, and four
 * handlers that read their argument from the request parcel, call the
 * extension and append one result to the reply parcel.
 */
module ExtensionStub {
  import opened Base
  import opened BErrors
  import opened Parcels

  /** The four handlers the constructor registers. */
  datatype Procedure = CmdGetFileHandle | CmdHandleClear | CmdHandleBackup | CmdPublishFile

  // Opcodes of the extension interface. Their numeric values are declared in
  // a header that is not part of this model; these are placeholders.
  const CMD_GET_FILE_HANDLE: uint32 := 1
  const CMD_HANDLE_CLAER: uint32 := 2
  const CMD_HANDLE_BACKUP: uint32 := 3
  const CMD_PUBLISH_FILE: uint32 := 4

  /** The interface descriptor every request must start with. */
  const DESCRIPTOR: string := "OHOS.FileManagement.Backup.IExtension"

  /**
   * The extension operations behind the stub, as results they produce:
   * `GetFileHandle` and `PublishFile` depend on the file name.
   */
  datatype Extension = Extension(
    getFileHandle: string -> int32,
    handleClear: ErrCode,
    handleBackup: ErrCode,
    publishFile: string -> ErrCode)

  /** One call into the extension, with its argument. */
  datatype Invocation =
    | GetFileHandle(fileName: string)
    | HandleClear
    | HandleBackup
    | PublishFile(fileName: string)

  /** What a request did: the code returned, both parcels after it, and the extension call it made. */
  datatype Outcome = Outcome(ret: ErrCode, data: Parcel, reply: Parcel, invoked: Option<Invocation>)

  /** The handlers that take a file name from the request. */
  predicate ReadsFileName(proc: Procedure)
  {
    proc == CmdGetFileHandle || proc == CmdPublishFile
  }

  /** The item a handler sends back for an extension call: a descriptor for a file handle, an int32 otherwise. */
  function ResultItem(ext: Extension, inv: Invocation): Item
  {
    match inv
    case GetFileHandle(f) => Fd(ext.getFileHandle(f))
    case HandleClear => I32(ext.handleClear)
    case HandleBackup => I32(ext.handleBackup)
    case PublishFile(f) => I32(ext.publishFile(f))
  }

  /** The table the constructor builds. */
  function InitialTable(): map<uint32, Option<Procedure>>
  {
    map[CMD_GET_FILE_HANDLE := Some(CmdGetFileHandle),
        CMD_HANDLE_CLAER := Some(CmdHandleClear),
        CMD_HANDLE_BACKUP := Some(CmdHandleBackup),
        CMD_PUBLISH_FILE := Some(CmdPublishFile)]
  }

  /** The file name a handler reads from the request, "" when it needs none. */
  function ArgumentOf(proc: Procedure, data: Parcel): string
  {
    if ReadsFileName(proc) && TakeString(data).0.Some? then TakeString(data).0.value else ""
  }

  /** The call a handler makes, given the file name it read (if it needs one). */
  function InvocationOf(proc: Procedure, fileName: string): Invocation
  {
    match proc
    case CmdGetFileHandle => GetFileHandle(fileName)
    case CmdHandleClear => HandleClear
    case CmdHandleBackup => HandleBackup
    case CmdPublishFile => PublishFile(fileName)
  }

  /**
   * One handler run on the request `data` and the reply `reply`. A handler
   * that needs a file name and cannot read one returns EXT_INVAL_ARG without
   * calling the extension or touching the reply. Otherwise the extension is
   * called once; a failing reply write gives EXT_BROKEN_IPC, and a successful
   * one gives OK whatever the extension returned, its result travelling only
   * as the single item appended to the reply.
   */
  function RunProcedure(proc: Procedure, data: Parcel, reply: Parcel, ext: Extension): (o: Outcome)
    ensures o.ret in {CodeOf(OK), CodeOf(EXT_INVAL_ARG), CodeOf(EXT_BROKEN_IPC)}
    ensures o.ret == CodeOf(EXT_INVAL_ARG) <==> ReadsFileName(proc) && TakeString(data).0.None?
    ensures o.ret == CodeOf(EXT_INVAL_ARG) ==> o.invoked.None? && o.reply == reply && o.data == data
    ensures o.ret != CodeOf(EXT_INVAL_ARG) ==>
              o.invoked.Some? && o.invoked.value == InvocationOf(proc, ArgumentOf(proc, data))
              && o.data == (if ReadsFileName(proc) then Advance(data) else data)
    ensures o.ret == CodeOf(EXT_BROKEN_IPC) <==>
              o.invoked.Some? && |reply.items| >= reply.capacity
    ensures o.ret == CodeOf(EXT_BROKEN_IPC) ==> o.reply == reply
    ensures o.ret == CodeOf(OK) ==>
              o.reply == reply.(items := reply.items + [ResultItem(ext, o.invoked.value)])
  {
    var (name, data') := if ReadsFileName(proc) then TakeString(data) else (Some(""), data);
    if name.None? then
      Outcome(CodeOf(EXT_INVAL_ARG), data, reply, None)
    else
      var inv := InvocationOf(proc, name.value);
      var (ok, reply') := Write(reply, ResultItem(ext, inv));
      Outcome(if ok then CodeOf(OK) else CodeOf(EXT_BROKEN_IPC), data', reply', Some(inv))
  }

  /**
   * `OnRemoteRequest` on a given table: an opcode that is not in the table or
   * has no handler gives EXT_INVAL_ARG before the descriptor is read; a
   * descriptor other than DESCRIPTOR gives EXT_INVAL_ARG with no handler run;
   * otherwise the result is exactly the handler's, after the descriptor.
   */
  function Dispatch(table: map<uint32, Option<Procedure>>, code: uint32, data: Parcel, reply: Parcel, ext: Extension): (o: Outcome)
    ensures (code !in table || table[code].None?) ==> o == Outcome(CodeOf(EXT_INVAL_ARG), data, reply, None)
    ensures code in table && table[code].Some? && TakeToken(data).0 != DESCRIPTOR ==>
              o == Outcome(CodeOf(EXT_INVAL_ARG), TakeToken(data).1, reply, None)
    ensures code in table && table[code].Some? && TakeToken(data).0 == DESCRIPTOR ==>
              o == RunProcedure(table[code].value, TakeToken(data).1, reply, ext)
    ensures o.invoked.Some? ==> code in table && table[code].Some? && TakeToken(data).0 == DESCRIPTOR
  {
    if code !in table || table[code].None? then
      Outcome(CodeOf(EXT_INVAL_ARG), data, reply, None)
    else
      var (remote, data') := TakeToken(data);
      if DESCRIPTOR != remote then
        Outcome(CodeOf(EXT_INVAL_ARG), data', reply, None)
      else
        RunProcedure(table[code].value, data', reply, ext)
  }

  /** Only the four registered opcodes reach the extension, each its own handler. */
  lemma OnlyRegisteredOpcodesDispatch(code: uint32, data: Parcel, reply: Parcel, ext: Extension)
    ensures Dispatch(InitialTable(), code, data, reply, ext).invoked.Some? ==>
              code in {CMD_GET_FILE_HANDLE, CMD_HANDLE_CLAER, CMD_HANDLE_BACKUP, CMD_PUBLISH_FILE}
    ensures code !in {CMD_GET_FILE_HANDLE, CMD_HANDLE_CLAER, CMD_HANDLE_BACKUP, CMD_PUBLISH_FILE} ==>
              Dispatch(InitialTable(), code, data, reply, ext) == Outcome(CodeOf(EXT_INVAL_ARG), data, reply, None)
  {
  }

  /** Through the constructor's table, a well-formed request for the clear handler always reports OK when the reply has room, whatever `HandleClear` returned. */
  lemma ClearReportsOkWheneverReplyFits(data: Parcel, reply: Parcel, ext: Extension)
    requires TakeToken(data).0 == DESCRIPTOR && |reply.items| < reply.capacity
    ensures Dispatch(InitialTable(), CMD_HANDLE_CLAER, data, reply, ext).ret == 0
    ensures Dispatch(InitialTable(), CMD_HANDLE_CLAER, data, reply, ext).reply.items == reply.items + [I32(ext.handleClear)]
  {
    assert InitialTable()[CMD_HANDLE_CLAER] == Some(CmdHandleClear);
  }

  /** A well-formed file-handle request sends back the extension's descriptor for the named file. */
  lemma GetFileHandleSendsDescriptor(fileName: string, reply: Parcel, ext: Extension)
    requires |reply.items| < reply.capacity
    ensures Dispatch(InitialTable(), CMD_GET_FILE_HANDLE, Filled([Token(DESCRIPTOR), Str(fileName)]), reply, ext)
              == Outcome(0, Parcel([Token(DESCRIPTOR), Str(fileName)], 2, 2),
                         reply.(items := reply.items + [Fd(ext.getFileHandle(fileName))]),
                         Some(GetFileHandle(fileName)))
  {
    var data := Filled([Token(DESCRIPTOR), Str(fileName)]);
    assert InitialTable()[CMD_GET_FILE_HANDLE] == Some(CmdGetFileHandle);
    assert TakeToken(data) == (DESCRIPTOR, data.(readPos := 1));
    assert TakeString(data.(readPos := 1)) == (Some(fileName), data.(readPos := 2));
  }

  /** The stub: its opcode table and the extension it serves. */
  class ExtExtensionStub {
    var opToInterfaceMap: map<uint32, Option<Procedure>>
    const ext: Extension
    /** Every call the stub has made into the extension, in order. */
    ghost var invoked: seq<Invocation>

    constructor (ext: Extension)
      ensures opToInterfaceMap == InitialTable() && this.ext == ext && invoked == []
    {
      this.ext := ext;
      invoked := [];
      var table: map<uint32, Option<Procedure>> := map[];
      table := table[CMD_GET_FILE_HANDLE := Some(CmdGetFileHandle)];
      table := table[CMD_HANDLE_CLAER := Some(CmdHandleClear)];
      table := table[CMD_HANDLE_BACKUP := Some(CmdHandleBackup)];
      table := table[CMD_PUBLISH_FILE := Some(CmdPublishFile)];
      opToInterfaceMap := table;
    }

    /** Runs one extension operation and records the call. */
    method Invoke(inv: Invocation) returns (result: Item)
      modifies this
      ensures result == ResultItem(ext, inv)
      ensures invoked == old(invoked) + [inv] && opToInterfaceMap == old(opToInterfaceMap)
    {
      invoked := invoked + [inv];
      result := ResultItem(ext, inv);
    }

    method OnRemoteRequest(code: uint32, data: MessageParcel, reply: MessageParcel) returns (ret: ErrCode)
      requires data != reply
      modifies this, data, reply
      ensures var o := Dispatch(old(opToInterfaceMap), code, old(data.state), old(reply.state), ext);
              ret == o.ret && data.state == o.data && reply.state == o.reply
              && invoked == old(invoked) + (if o.invoked.Some? then [o.invoked.value] else [])
      ensures opToInterfaceMap == old(opToInterfaceMap)
    {
      if code !in opToInterfaceMap || opToInterfaceMap[code].None? {
        return CodeOf(EXT_INVAL_ARG);
      }
      var remoteDescriptor := data.ReadInterfaceToken();
      if DESCRIPTOR != remoteDescriptor {
        return CodeOf(EXT_INVAL_ARG);
      }
      match opToInterfaceMap[code].value {
        case CmdGetFileHandle => ret := DoGetFileHandle(data, reply);
        case CmdHandleClear => ret := DoHandleClear(reply);
        case CmdHandleBackup => ret := DoHandleBackup(reply);
        case CmdPublishFile => ret := DoPublishFile(data, reply);
      }
    }

    method DoGetFileHandle(data: MessageParcel, reply: MessageParcel) returns (ret: ErrCode)
      requires data != reply
      modifies this, data, reply
      ensures var o := RunProcedure(CmdGetFileHandle, old(data.state), old(reply.state), ext);
              ret == o.ret && data.state == o.data && reply.state == o.reply
              && invoked == old(invoked) + (if o.invoked.Some? then [o.invoked.value] else [])
      ensures opToInterfaceMap == old(opToInterfaceMap)
    {
      var ok, fileName := data.ReadString();
      if !ok {
        return CodeOf(EXT_INVAL_ARG);
      }
      var fd := Invoke(GetFileHandle(fileName));
      var written := reply.WriteFileDescriptor(fd.fd);
      if !written {
        return CodeOf(EXT_BROKEN_IPC);
      }
      return CodeOf(OK);
    }

    method DoHandleClear(reply: MessageParcel) returns (ret: ErrCode)
      modifies this, reply
      ensures var o := RunProcedure(CmdHandleClear, Empty(0), old(reply.state), ext);
              ret == o.ret && reply.state == o.reply && invoked == old(invoked) + [HandleClear]
      ensures opToInterfaceMap == old(opToInterfaceMap)
    {
      var res := Invoke(HandleClear);
      var written := reply.WriteInt32(res.v);
      if !written {
        return CodeOf(EXT_BROKEN_IPC);
      }
      return CodeOf(OK);
    }

    method DoHandleBackup(reply: MessageParcel) returns (ret: ErrCode)
      modifies this, reply
      ensures var o := RunProcedure(CmdHandleBackup, Empty(0), old(reply.state), ext);
              ret == o.ret && reply.state == o.reply && invoked == old(invoked) + [HandleBackup]
      ensures opToInterfaceMap == old(opToInterfaceMap)
    {
      var res := Invoke(HandleBackup);
      var written := reply.WriteInt32(res.v);
      if !written {
        return CodeOf(EXT_BROKEN_IPC);
      }
      return CodeOf(OK);
    }

    method DoPublishFile(data: MessageParcel, reply: MessageParcel) returns (ret: ErrCode)
      requires data != reply
      modifies this, data, reply
      ensures var o := RunProcedure(CmdPublishFile, old(data.state), old(reply.state), ext);
              ret == o.ret && data.state == o.data && reply.state == o.reply
              && invoked == old(invoked) + (if o.invoked.Some? then [o.invoked.value] else [])
      ensures opToInterfaceMap == old(opToInterfaceMap)
    {
      var ok, fileName := data.ReadString();
      if !ok {
        return CodeOf(EXT_INVAL_ARG);
      }
      var res := Invoke(PublishFile(fileName));
      var written := reply.WriteInt32(res.v);
      if !written {
        return CodeOf(EXT_BROKEN_IPC);
      }
      return CodeOf(OK);
    }
  }
}
