/**
 * The client side of the backup service's IPC interface, `ServiceProxy`.
 * Every call fills a fresh request parcel with the interface token and its
 * arguments, in order, and sends it; the request that reaches the service is
 * returned as `sent` (None when the call gave up before sending). The data
 * parcel's capacity stands for the parcel library's ability to accept writes,
 * and a `Remote` for the transport: the code `SendRequest` returns and the
 * reply the service fills in. `GetInstance` is the cached service handle,
 * with the registry's load callbacks as sequential events.
 */
module ServiceChannel {
  import opened Base
  import opened BErrors
  import opened Parcels
  import opened FileInfo

  /** The backup service's interface descriptor. */
  const SERVICE_DESCRIPTOR := "OHOS.FileManagement.Backup.IService"

  // Request codes of the service interface. Their numeric values are declared
  // in a header that is not part of this model; these are placeholders.
  const SERVICE_CMD_INIT_RESTORE_SESSION: uint32 := 1
  const SERVICE_CMD_INIT_BACKUP_SESSION: uint32 := 2
  const SERVICE_CMD_GET_LOCAL_CAPABILITIES: uint32 := 3
  const SERVICE_CMD_PUBLISH_FILE: uint32 := 4
  const SERVICE_CMD_APP_FILE_READY: uint32 := 5
  const SERVICE_CMD_APP_DONE: uint32 := 6
  const SERVICE_CMD_START: uint32 := 7
  const SERVICE_CMD_GET_EXT_FILE_NAME: uint32 := 8

  /** A request as it reaches the service: its code, the parcel's items, and whether it is one-way (`TF_ASYNC`). */
  datatype Request = Request(code: uint32, data: seq<Item>, async: bool)

  /** The transport: what `SendRequest` returns and the reply it delivers on success. */
  datatype Remote = Remote(transport: int32, reply: seq<Item>)

  /** What a synchronous call returns once its request is sent: the transport failure, or the service's answer. */
  function Answer(server: Remote): ErrCode
  {
    if server.transport != NO_ERROR then CodeOf(SDK_INVAL_ARG) else ReplyInt32(server.reply)
  }

  /** `-ret` on a 32-bit integer; the one value whose negation does not fit is left as it is. */
  function Negate32(x: int32): (r: int32)
    ensures x != -0x8000_0000 ==> r as int == -(x as int)
    ensures x == -0x8000_0000 ==> r == x
  {
    if x == -0x8000_0000 then x else -x
  }

  /** The header every request starts with, which the proxy writes without checking. */
  function Header(capacity: nat): seq<Item>
  {
    if capacity >= 1 then [Token(SERVICE_DESCRIPTOR)] else []
  }

  /** `Remote()->SendRequest`: hands the request over and, on success, fills the reply. */
  method SendRequest(server: Remote, code: uint32, data: MessageParcel, reply: MessageParcel, async: bool)
    returns (ret: int32, sent: Request)
    requires data != reply
    modifies reply
    ensures ret == server.transport && sent == Request(code, data.state.items, async)
    ensures reply.state == if ret == NO_ERROR then Filled(server.reply) else old(reply.state)
  {
    ret := server.transport;
    sent := Request(code, data.state.items, async);
    if ret == NO_ERROR {
      reply.state := Filled(server.reply);
    }
  }

  method InitRestoreSession(remote: Option<nat>, bundleNames: seq<string>, capacity: nat, server: Remote)
    returns (ret: ErrCode, sent: Option<Request>)
    ensures remote.None? || capacity < 3 ==> ret == CodeOf(SDK_INVAL_ARG) && sent.None?
    ensures remote.Some? && capacity >= 3 ==>
              sent == Some(Request(SERVICE_CMD_INIT_RESTORE_SESSION,
                                   [Token(SERVICE_DESCRIPTOR), RemoteObject(remote.value), StrVec(bundleNames)], false))
              && ret == Answer(server)
  {
    var data := new MessageParcel(capacity);
    var _ := data.WriteInterfaceToken(SERVICE_DESCRIPTOR);
    var reply := new MessageParcel(0);
    if remote.None? {
      return CodeOf(SDK_INVAL_ARG), None;
    }
    var ok := data.WriteRemoteObject(remote.value);
    if !ok {
      return CodeOf(SDK_INVAL_ARG), None;
    }
    ok := data.WriteStringVector(bundleNames);
    if !ok {
      return CodeOf(SDK_INVAL_ARG), None;
    }
    assert data.state.items == [Token(SERVICE_DESCRIPTOR), RemoteObject(remote.value), StrVec(bundleNames)];
    var r, request := SendRequest(server, SERVICE_CMD_INIT_RESTORE_SESSION, data, reply, false);
    sent := Some(request);
    if r != NO_ERROR {
      return CodeOf(SDK_INVAL_ARG), sent;
    }
    ret := reply.ReadInt32();
  }

  method InitBackupSession(remote: Option<nat>, fd: int32, bundleNames: seq<string>, capacity: nat, server: Remote)
    returns (ret: ErrCode, sent: Option<Request>)
    ensures remote.None? || capacity < 4 ==> ret == CodeOf(SDK_INVAL_ARG) && sent.None?
    ensures remote.Some? && capacity >= 4 ==>
              sent == Some(Request(SERVICE_CMD_INIT_BACKUP_SESSION,
                                   [Token(SERVICE_DESCRIPTOR), RemoteObject(remote.value), Fd(fd), StrVec(bundleNames)], false))
              && ret == Answer(server)
  {
    var data := new MessageParcel(capacity);
    var _ := data.WriteInterfaceToken(SERVICE_DESCRIPTOR);
    var reply := new MessageParcel(0);
    if remote.None? {
      return CodeOf(SDK_INVAL_ARG), None;
    }
    var ok := data.WriteRemoteObject(remote.value);
    if !ok {
      return CodeOf(SDK_INVAL_ARG), None;
    }
    ok := data.WriteFileDescriptor(fd);
    if !ok {
      return CodeOf(SDK_INVAL_ARG), None;
    }
    ok := data.WriteStringVector(bundleNames);
    if !ok {
      return CodeOf(SDK_INVAL_ARG), None;
    }
    assert data.state.items == [Token(SERVICE_DESCRIPTOR), RemoteObject(remote.value), Fd(fd), StrVec(bundleNames)];
    var r, request := SendRequest(server, SERVICE_CMD_INIT_BACKUP_SESSION, data, reply, false);
    sent := Some(request);
    if r != NO_ERROR {
      return CodeOf(SDK_INVAL_ARG), sent;
    }
    ret := reply.ReadInt32();
  }

  method Start(capacity: nat, server: Remote) returns (ret: ErrCode, sent: Request)
    ensures sent == Request(SERVICE_CMD_START, Header(capacity), false)
    ensures ret == Answer(server)
  {
    var data := new MessageParcel(capacity);
    var _ := data.WriteInterfaceToken(SERVICE_DESCRIPTOR);
    var reply := new MessageParcel(0);
    var r;
    r, sent := SendRequest(server, SERVICE_CMD_START, data, reply, false);
    if r != NO_ERROR {
      return CodeOf(SDK_INVAL_ARG), sent;
    }
    ret := reply.ReadInt32();
  }

  /**
   * `GetLocalCapabilities`: a transport failure comes back as the descriptor
   * `-ret`; otherwise the descriptor in the reply, or -1 when it holds none.
   */
  method GetLocalCapabilities(capacity: nat, server: Remote) returns (fd: int32, sent: Request)
    ensures sent == Request(SERVICE_CMD_GET_LOCAL_CAPABILITIES, Header(capacity), false)
    ensures server.transport != NO_ERROR ==> fd == Negate32(server.transport)
    ensures server.transport == NO_ERROR ==>
              fd == (if server.reply != [] && server.reply[0].Fd? then server.reply[0].fd else -1)
  {
    var data := new MessageParcel(capacity);
    var _ := data.WriteInterfaceToken(SERVICE_DESCRIPTOR);
    var reply := new MessageParcel(0);
    var r;
    r, sent := SendRequest(server, SERVICE_CMD_GET_LOCAL_CAPABILITIES, data, reply, false);
    if r != NO_ERROR {
      return Negate32(r), sent;
    }
    fd := reply.ReadFileDescriptor();
  }

  /** The request `PublishFile` sends for a record. */
  function PublishFileRequest(fileInfo: FileInfoValue): seq<Item>
  {
    [Token(SERVICE_DESCRIPTOR)] + Fields(fileInfo)
  }

  /** `PublishFile`: a record that cannot be written gives -EPIPE, not SDK_INVAL_ARG. */
  method PublishFile(fileInfo: FileInfoValue, capacity: nat, server: Remote) returns (ret: ErrCode, sent: Option<Request>)
    ensures capacity < 4 ==> ret == -EPIPE && sent.None?
    ensures capacity >= 4 ==>
              sent == Some(Request(SERVICE_CMD_PUBLISH_FILE, PublishFileRequest(fileInfo), false)) && ret == Answer(server)
  {
    var data := new MessageParcel(capacity);
    var _ := data.WriteInterfaceToken(SERVICE_DESCRIPTOR);
    var info := new BFileInfo(fileInfo.owner, fileInfo.fileName, fileInfo.sn);
    var ok := info.Marshalling(data);
    if !ok {
      return -EPIPE, None;
    }
    assert data.state.items == PublishFileRequest(fileInfo);
    var reply := new MessageParcel(0);
    var r, request := SendRequest(server, SERVICE_CMD_PUBLISH_FILE, data, reply, false);
    sent := Some(request);
    if r != NO_ERROR {
      return CodeOf(SDK_INVAL_ARG), sent;
    }
    ret := reply.ReadInt32();
  }

  method AppFileReady(fileName: string, fd: int32, capacity: nat, server: Remote) returns (ret: ErrCode, sent: Option<Request>)
    ensures capacity < 3 ==> ret == CodeOf(SDK_INVAL_ARG) && sent.None?
    ensures capacity >= 3 ==>
              sent == Some(Request(SERVICE_CMD_APP_FILE_READY, [Token(SERVICE_DESCRIPTOR), Str(fileName), Fd(fd)], false))
              && ret == Answer(server)
  {
    var data := new MessageParcel(capacity);
    var _ := data.WriteInterfaceToken(SERVICE_DESCRIPTOR);
    var ok := data.WriteString(fileName);
    if !ok {
      return CodeOf(SDK_INVAL_ARG), None;
    }
    ok := data.WriteFileDescriptor(fd);
    if !ok {
      return CodeOf(SDK_INVAL_ARG), None;
    }
    var reply := new MessageParcel(0);
    assert data.state.items == [Token(SERVICE_DESCRIPTOR), Str(fileName), Fd(fd)];
    var r, request := SendRequest(server, SERVICE_CMD_APP_FILE_READY, data, reply, false);
    sent := Some(request);
    if r != NO_ERROR {
      return CodeOf(SDK_INVAL_ARG), sent;
    }
    ret := reply.ReadInt32();
  }

  method AppDone(errCode: ErrCode, capacity: nat, server: Remote) returns (ret: ErrCode, sent: Option<Request>)
    ensures capacity < 2 ==> ret == CodeOf(SDK_INVAL_ARG) && sent.None?
    ensures capacity >= 2 ==>
              sent == Some(Request(SERVICE_CMD_APP_DONE, [Token(SERVICE_DESCRIPTOR), I32(errCode)], false))
              && ret == Answer(server)
  {
    var data := new MessageParcel(capacity);
    var _ := data.WriteInterfaceToken(SERVICE_DESCRIPTOR);
    var ok := data.WriteInt32(errCode);
    if !ok {
      return CodeOf(SDK_INVAL_ARG), None;
    }
    var reply := new MessageParcel(0);
    assert data.state.items == [Token(SERVICE_DESCRIPTOR), I32(errCode)];
    var r, request := SendRequest(server, SERVICE_CMD_APP_DONE, data, reply, false);
    sent := Some(request);
    if r != NO_ERROR {
      return CodeOf(SDK_INVAL_ARG), sent;
    }
    ret := reply.ReadInt32();
  }

  /**
   * `GetExtFileName` as written: a one-way request whose transport result is
   * returned as it is; the SDK_INVAL_ARG error built on failure is dropped.
   */
  method GetExtFileName(bundleName: string, fileName: string, capacity: nat, server: Remote)
    returns (ret: ErrCode, sent: Option<Request>)
    ensures capacity < 3 ==> ret == CodeOf(SDK_INVAL_ARG) && sent.None?
    ensures capacity >= 3 ==>
              sent == Some(Request(SERVICE_CMD_GET_EXT_FILE_NAME,
                                   [Token(SERVICE_DESCRIPTOR), Str(bundleName), Str(fileName)], true))
              && ret == server.transport
  {
    var data := new MessageParcel(capacity);
    var _ := data.WriteInterfaceToken(SERVICE_DESCRIPTOR);
    var ok := data.WriteString(bundleName);
    if !ok {
      return CodeOf(SDK_INVAL_ARG), None;
    }
    ok := data.WriteString(fileName);
    if !ok {
      return CodeOf(SDK_INVAL_ARG), None;
    }
    var reply := new MessageParcel(0);
    assert data.state.items == [Token(SERVICE_DESCRIPTOR), Str(bundleName), Str(fileName)];
    var r, request := SendRequest(server, SERVICE_CMD_GET_EXT_FILE_NAME, data, reply, true);
    sent := Some(request);
    ret := r;
  }

  /**
   * `GetExtFileName` as evidently intended: a transport failure is reported as
   * SDK_INVAL_ARG like every other call, and success as ERR_OK (a one-way
   * request has no reply to read).
   */
  method GetExtFileNameCorrected(bundleName: string, fileName: string, capacity: nat, server: Remote)
    returns (ret: ErrCode, sent: Option<Request>)
    ensures capacity < 3 ==> ret == CodeOf(SDK_INVAL_ARG) && sent.None?
    ensures capacity >= 3 ==>
              sent == Some(Request(SERVICE_CMD_GET_EXT_FILE_NAME,
                                   [Token(SERVICE_DESCRIPTOR), Str(bundleName), Str(fileName)], true))
    ensures capacity >= 3 ==> (ret == ERR_OK <==> server.transport == NO_ERROR)
    ensures capacity >= 3 && server.transport != NO_ERROR ==> ret == CodeOf(SDK_INVAL_ARG)
  {
    var data := new MessageParcel(capacity);
    var _ := data.WriteInterfaceToken(SERVICE_DESCRIPTOR);
    var ok := data.WriteString(bundleName);
    if !ok {
      return CodeOf(SDK_INVAL_ARG), None;
    }
    ok := data.WriteString(fileName);
    if !ok {
      return CodeOf(SDK_INVAL_ARG), None;
    }
    var reply := new MessageParcel(0);
    assert data.state.items == [Token(SERVICE_DESCRIPTOR), Str(bundleName), Str(fileName)];
    var r, request := SendRequest(server, SERVICE_CMD_GET_EXT_FILE_NAME, data, reply, true);
    sent := Some(request);
    if r != NO_ERROR {
      return CodeOf(SDK_INVAL_ARG), sent;
    }
    ret := ERR_OK;
  }

  /**
   * A transport failure (code 5) that `GetExtFileName` passes to its caller
   * as a raw number, where every other call, and the corrected version,
   * report SDK_INVAL_ARG.
   */
  method GetExtFileNameDiscrepancy() returns (asWritten: ErrCode, intended: ErrCode)
    ensures asWritten == 5 && intended == CodeOf(SDK_INVAL_ARG) && asWritten != intended
  {
    var server := Remote(5, []);
    var sent1, sent2;
    asWritten, sent1 := GetExtFileName("com.example.app", "1.tar", DEFAULT_CAPACITY, server);
    intended, sent2 := GetExtFileNameCorrected("com.example.app", "1.tar", DEFAULT_CAPACITY, server);
  }

  /** The service side reads back exactly the record `PublishFile` sent, after a matching token. */
  lemma PublishFileRequestDecodes(fileInfo: FileInfoValue)
    ensures TakeToken(Filled(PublishFileRequest(fileInfo))).0 == SERVICE_DESCRIPTOR
    ensures Unmarshal(TakeToken(Filled(PublishFileRequest(fileInfo))).1).0 == Some(fileInfo)
  {
    var p := Filled(PublishFileRequest(fileInfo));
    assert p.items[0] == Token(SERVICE_DESCRIPTOR);
    var q := TakeToken(p).1;
    assert q.readPos == 1;
    assert q.items[1] == Str(fileInfo.owner) && q.items[2] == Str(fileInfo.fileName) && q.items[3] == I32(fileInfo.sn);
  }

  // ---------------------------------------------------------------------
  // The service handle

  /**
   * What happens after a load request was accepted: the success callback
   * with the remote object (None for a null object), the failure callback,
   * or neither before the wait times out.
   */
  datatype LoadEvent = LoadSucceeded(remoteObject: Option<nat>) | LoadFailed | NoCallback

  /** The system ability registry as `GetInstance` meets it. */
  datatype Registry = Registry(available: bool, loadRet: int32, event: LoadEvent)

  /** The shared handle `serviceProxy_`. */
  class ProxyCache {
    var serviceProxy: Option<nat>

    constructor ()
      ensures serviceProxy.None?
    {
      serviceProxy := None;
    }

    /**
     * `GetInstance`: a cached handle is returned with no lookup. Otherwise a
     * missing registry or a refused load request gives no handle; an
     * accepted request waits for the callbacks: success stores and returns
     * the handle, failure clears it, and a wait without success times out
     * with no handle.
     */
    method GetInstance(registry: Registry) returns (proxy: Option<nat>, lookedUp: bool)
      modifies this
      ensures old(serviceProxy).Some? ==> proxy == old(serviceProxy) && serviceProxy == old(serviceProxy) && !lookedUp
      ensures old(serviceProxy).None? ==> lookedUp == registry.available
      ensures old(serviceProxy).None? && (!registry.available || registry.loadRet != ERR_OK) ==>
                proxy.None? && serviceProxy.None?
      ensures old(serviceProxy).None? && registry.available && registry.loadRet == ERR_OK ==>
                match registry.event
                case LoadSucceeded(obj) => proxy == obj && serviceProxy == obj
                case LoadFailed => proxy.None? && serviceProxy.None?
                case NoCallback => proxy.None? && serviceProxy.None?
    {
      if serviceProxy.Some? {
        return serviceProxy, false;
      }
      lookedUp := registry.available;
      if !registry.available {
        return None, lookedUp;
      }
      var loadCallback := new LoadCallback(this);
      if registry.loadRet != ERR_OK {
        return None, lookedUp;
      }
      match registry.event {
        case LoadSucceeded(obj) => loadCallback.OnLoadSystemAbilitySuccess(obj);
        case LoadFailed => loadCallback.OnLoadSystemAbilityFail();
        case NoCallback =>
      }
      var waitStatus := loadCallback.isLoadSuccess;
      if !waitStatus {
        return None, lookedUp;
      }
      proxy := serviceProxy;
    }
  }

  /** The callback handed to the registry with one load request. */
  class LoadCallback {
    var isLoadSuccess: bool
    const cache: ProxyCache

    constructor (cache: ProxyCache)
      ensures this.cache == cache && !isLoadSuccess
    {
      this.cache := cache;
      isLoadSuccess := false;
    }

    method OnLoadSystemAbilitySuccess(remoteObject: Option<nat>)
      modifies this, cache
      ensures cache.serviceProxy == remoteObject && isLoadSuccess
    {
      cache.serviceProxy := remoteObject;
      isLoadSuccess := true;
    }

    method OnLoadSystemAbilityFail()
      modifies this, cache
      ensures cache.serviceProxy.None? && !isLoadSuccess
    {
      cache.serviceProxy := None;
      isLoadSuccess := false;
    }
  }

  /**
   * Two calls in a row: once a load succeeded with a handle, the next call
   * returns the same handle without a lookup; after a failed load the next
   * call looks the service up again.
   */
  method GetInstanceTwice(first: Registry, second: Registry)
    returns (p1: Option<nat>, p2: Option<nat>, lookedUp2: bool)
    ensures first.available && first.loadRet == ERR_OK && first.event.LoadSucceeded? && first.event.remoteObject.Some? ==>
              p1 == p2 == first.event.remoteObject && !lookedUp2
    ensures first.available && first.loadRet == ERR_OK && first.event.LoadFailed? ==>
              p1.None? && lookedUp2 == second.available
  {
    var cache := new ProxyCache();
    var lookedUp1;
    p1, lookedUp1 := cache.GetInstance(first);
    p2, lookedUp2 := cache.GetInstance(second);
  }
}
