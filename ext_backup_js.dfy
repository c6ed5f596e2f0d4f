/**
 * The backup extension controller, `ExtBackupJs`: it checks who sent a
 * command, decodes the action, reads the application's backup configuration,
 * packs or unpacks the application's data and reports the outcome to the
 * backup service exactly once. The services it relies on (the tar engine, the
 * bundle resource lookup, the configuration file loader, the JS runtime and
 * the service handle) are oracles given in a `World`; what the controller asks
 * of them is recorded as a trace of effects.
 */
module ExtBackup {
  import opened Base
  import opened BErrors
  import opened JsonConfig

  /** The parts of the ability description the controller reads. */
  datatype AbilityInfo = AbilityInfo(bundleName: string, moduleName: string, name: string, srcEntrance: string)

  /** A command's parameters; only integer parameters are read. */
  datatype Want = Want(intParams: map<string, int32>)

  /** `Want::GetIntParam`: the parameter, or `default` when it is absent. */
  function GetIntParam(want: Want, key: string, default: int32): int32
  {
    if key in want.intParams then want.intParams[key] else default
  }

  // Parameter names and the backup home. Their values are declared in
  // headers that are not part of this model; these are placeholders.
  const PARAM_RESV_CALLER_UID := "ohos.aafwk.param.callerUid"
  const EXTENSION_ACTION_PARA := "extensionAction"
  const PATH_BUNDLE_BACKUP_HOME := "/data/storage/el2/backup"

  /** The two callers allowed to command the extension: the backup service and the system. */
  const BACKUP_SA_UID: int32 := 1089
  const SYSTEM_UID: int32 := 1000

  // `ExtensionAction` enumerators (placeholders: the enumeration is not part of this model).
  const ACTION_INVALID: int32 := 0
  const ACTION_BACKUP: int32 := 1
  const ACTION_RESTORE: int32 := 2

  /** The single package every backup produces. */
  const PKG_NAME := "1.tar"
  const BACKUP_DIR := PATH_BUNDLE_BACKUP_HOME + "/backup"
  const TAR_NAME := BACKUP_DIR + "/" + PKG_NAME
  /** The resource that holds the application's backup configuration. */
  const CONFIG_RESOURCE := "ohos.extension.backup"

  /** What a call can throw: a `BError`, another standard exception, or anything else. */
  datatype Exception = Thrown(code: Code) | StdException | UnknownException

  /** The outcome of a call that may throw. */
  datatype Status = Done | Raised(ex: Exception)

  /** The code a `Handle*` routine returns for an exception it caught. */
  function ExceptionCode(ex: Exception): (r: ErrCode)
    ensures ex.Thrown? ==> r == CodeOf(ex.code)
    ensures !ex.Thrown? ==> r == EPERM
  {
    match ex
    case Thrown(c) => CodeOf(c)
    case _ => EPERM
  }

  // ---------------------------------------------------------------------
  // The module path of the custom extension

  /** The position of the last '.' of `s`, if any. */
  function LastDot(s: string): (r: Option<nat>)
    ensures r.Some? ==> r.value < |s| && s[r.value] == '.'
                        && forall j :: r.value < j < |s| ==> s[j] != '.'
    ensures r.None? ==> forall j :: 0 <= j < |s| ==> s[j] != '.'
  {
    if s == [] then None
    else if s[|s| - 1] == '.' then Some(|s| - 1)
    else LastDot(s[..|s| - 1])
  }

  /** `srcEntrance` cut before its last '.', or whole when it has none. */
  function Stem(src: string): string
  {
    match LastDot(src)
    case None => src
    case Some(k) => src[..k]
  }

  /**
   * `GetSrcPath`: "" for an empty entrance; otherwise the module name, '/',
   * the entrance without its extension and ".abc".
   */
  function GetSrcPath(info: AbilityInfo): string
  {
    if info.srcEntrance != [] then info.moduleName + "/" + Stem(info.srcEntrance) + ".abc" else ""
  }

  /** The stem drops exactly the last extension: it is a prefix that keeps every '.' but the last. */
  lemma StemDropsLastExtension(src: string)
    ensures Stem(src) <= src
    ensures (forall j :: 0 <= j < |src| ==> src[j] != '.') ==> Stem(src) == src
    ensures Stem(src) != src ==>
              src[|Stem(src)|] == '.' && forall j :: |Stem(src)| < j < |src| ==> src[j] != '.'
  {
  }

  /** An empty entrance gives the empty path; any other gives "<module>/...abc". */
  lemma GetSrcPathShape(info: AbilityInfo)
    ensures info.srcEntrance == [] <==> GetSrcPath(info) == ""
    ensures info.srcEntrance != [] ==>
              var r := GetSrcPath(info);
              info.moduleName + "/" <= r && |r| >= 4 && r[|r| - 4..] == ".abc"
  {
  }

  /** A typical stage-model entrance loses its ".ts" extension. */
  lemma GetSrcPathExample()
    ensures GetSrcPath(AbilityInfo("b", "entry", "Ext", "./ets/Backup.ts")) == "entry/./ets/Backup.abc"
  {
    assert LastDot("./ets/Backup.ts") == Some(12) by {
      assert "./ets/Backup.ts"[..14][..13] == "./ets/Backup.";
    }
    assert "./ets/Backup.ts"[..12] == "./ets/Backup";
  }

  /** With several dots only the last extension goes. */
  lemma GetSrcPathSeveralDots()
    ensures GetSrcPath(AbilityInfo("b", "m", "Ext", "a.b.c")) == "m/a.b.abc"
  {
    assert LastDot("a.b.c") == Some(3) by {
      assert "a.b.c"[..4] == "a.b.";
    }
  }

  /** Without a dot the whole entrance is kept. */
  lemma GetSrcPathNoDot()
    ensures GetSrcPath(AbilityInfo("b", "m", "Ext", "plain")) == "m/plain.abc"
  {
    assert LastDot("plain") == None by {
      assert "plain"[..4] == "plai";
      assert "plai"[..3] == "pla";
      assert "pla"[..2] == "pl";
      assert "pl"[..1] == "p";
      assert "p"[..0] == "";
    }
  }

  // ---------------------------------------------------------------------
  // Checking the command and calling into JavaScript

  /**
   * `Verify`: the ability must be initialised and the caller uid (read as -1
   * when absent) must be the backup service's or the system's.
   */
  function Verify(want: Want, abilityInfo: Option<AbilityInfo>): (s: Status)
    ensures s == Done <==>
              abilityInfo.Some? && GetIntParam(want, PARAM_RESV_CALLER_UID, -1) in {BACKUP_SA_UID, SYSTEM_UID}
    ensures s != Done ==> s == Raised(Thrown(EXT_INVAL_ARG))
  {
    if abilityInfo.None? then
      Raised(Thrown(EXT_INVAL_ARG))
    else
      var uid := GetIntParam(want, PARAM_RESV_CALLER_UID, -1);
      if uid == -1 || (uid != BACKUP_SA_UID && uid != SYSTEM_UID) then Raised(Thrown(EXT_INVAL_ARG))
      else Done
  }

  /** A property of a JS object: a function (which may raise when called) or any other value. */
  datatype JsProperty = NonFunction | Function(raises: bool)

  /** The loaded custom extension, as far as the controller inspects it. */
  datatype JsValue = JsValue(isObject: bool, properties: map<string, JsProperty>)

  /** The loaded object has a method `name` that returns normally. */
  predicate HookRuns(jsObj: Option<JsValue>, name: string)
  {
    jsObj.Some? && jsObj.value.isObject && name in jsObj.value.properties
    && jsObj.value.properties[name] == Function(false)
  }

  /** `CallFunction` is reached: the loaded value is an object with a function `name` (which may still raise). */
  predicate HookCalled(jsObj: Option<JsValue>, name: string)
  {
    jsObj.Some? && jsObj.value.isObject && name in jsObj.value.properties
    && jsObj.value.properties[name].Function?
  }

  /**
   * `CallObjectMethod`: no loaded object gives EXT_BROKEN_FRAMEWORK; a
   * loaded value that is not an object, a missing or non-function property,
   * or a call that raises gives EXT_INVAL_ARG.
   */
  function CallObjectMethod(jsObj: Option<JsValue>, name: string): (s: Status)
    ensures s == Done <==> HookRuns(jsObj, name)
    ensures jsObj.None? ==> s == Raised(Thrown(EXT_BROKEN_FRAMEWORK))
    ensures jsObj.Some? && s != Done ==> s == Raised(Thrown(EXT_INVAL_ARG))
  {
    if jsObj.None? then Raised(Thrown(EXT_BROKEN_FRAMEWORK))
    else if !jsObj.value.isObject then Raised(Thrown(EXT_INVAL_ARG))
    else if name !in jsObj.value.properties || !jsObj.value.properties[name].Function? then Raised(Thrown(EXT_INVAL_ARG))
    else if jsObj.value.properties[name].raises then Raised(Thrown(EXT_INVAL_ARG))
    else Done
  }

  // ---------------------------------------------------------------------
  // The outside world

  /** What loading the configuration file gives: a parse result, or an exception. */
  datatype ConfigLoad = Loaded(parsed: Option<JsonObject>) | LoadRaised(ex: Exception)

  /**
   * The outcomes of the foreign calls one command makes. `resConfig` is the
   * bundle resource lookup (None when the lookup itself fails).
   * `loadAtFileReady` and `loadAtDone` are the outcomes of a load of the
   * backup service, should `ServiceProxy::GetInstance` have to load it before
   * the announcement or before the final report; a handle already cached is
   * returned without a load (see `HandleAtFileReady`, `HandleAtDone`).
   */
  datatype World = World(
    backupDirExists: bool,
    mkdirSucceeds: bool,
    tarRaises: Option<Exception>,
    untarRaises: Option<Exception>,
    resConfig: Option<seq<string>>,
    loadConfig: string -> ConfigLoad,
    loadAtFileReady: bool,
    fileReadyResult: ErrCode,
    loadAtDone: bool)

  /** A request the controller makes of the outside world. */
  datatype Effect =
    | Mkdir(path: string)
    | Tar(tarName: string, root: string, includes: seq<string>, excludes: seq<string>)
    | CallHook(name: string)
    | AppFileReady(fileName: string)
    | Untar(tarName: string, root: string)
    | ResolveConfig(resource: string)
    | LoadConfig(file: string)
    | AppDone(code: ErrCode)

  /** A routine's result together with the effects it had, in order. */
  datatype Run = Run(ret: ErrCode, effects: seq<Effect>)

  predicate NoAppDone(effects: seq<Effect>)
  {
    forall k :: 0 <= k < |effects| ==> !effects[k].AppDone?
  }

  predicate NoArchive(effects: seq<Effect>)
  {
    forall k :: 0 <= k < |effects| ==> !effects[k].Tar? && !effects[k].Untar?
  }

  // ---------------------------------------------------------------------
  // Backup and restore

  /** The include list `HandleBackup` packs: the configured one, or the defaults when it is empty. */
  function ResolveIncludes(inc: seq<string>): (r: seq<string>)
    ensures r != []
    ensures inc != [] ==> r == inc
    ensures inc == [] ==> r == PATHES_TO_BACKUP
  {
    if |inc| == 0 then [] + PATHES_TO_BACKUP else inc
  }

  /**
   * Whether `GetInstance` yields a handle before the announcement: the
   * process-wide cached one (`cached`), or else the one a load delivers.
   */
  predicate HandleAtFileReady(cached: bool, w: World)
  {
    cached || w.loadAtFileReady
  }

  /** `HandleBackup` gets as far as looking up the service: the directory is there, packing and the hook succeeded. */
  predicate AnnouncementReached(jsObj: Option<JsValue>, w: World)
  {
    (w.backupDirExists || w.mkdirSucceeds) && w.tarRaises.None? && HookRuns(jsObj, "onBackup")
  }

  /** The hook call `CallObjectMethod` records: one when `CallFunction` is reached. */
  function HookTrace(jsObj: Option<JsValue>, name: string): seq<Effect>
  {
    if HookCalled(jsObj, name) then [CallHook(name)] else []
  }

  /** The effects of preparing the staging directory. */
  function DirSetup(w: World): seq<Effect>
  {
    if w.backupDirExists then [] else [Mkdir(BACKUP_DIR)]
  }

  /** The effects up to packing: the staging directory's setup, then archiving the configured lists from "/". */
  function Packed(cache: JsonObject, w: World): seq<Effect>
  {
    DirSetup(w) + [Tar(TAR_NAME, "/", GetIncludeDirs(cache), GetExcludeDirs(cache))]
  }

  /**
   * `HandleBackup`: the staging directory is created when missing (failure
   * gives SA_BROKEN_ROOT_DIR before packing); the configured lists are packed
   * from "/" into the fixed archive; then the `onBackup` hook is called (no
   * hook gives EXT_BROKEN_FRAMEWORK, a hook that is not a function or raises
   * EXT_INVAL_ARG); then, with a service handle (the cached one when
   * `cached`), the package is announced and the announcement's result
   * returned (no handle gives EXT_BROKEN_BACKUP_SA). A caught `BError` gives
   * its code, anything else EPERM. The outcome is never reported from here.
   */
  function BackupFlow(cache: JsonObject, jsObj: Option<JsValue>, cached: bool, w: World): (r: Run)
    ensures NoAppDone(r.effects)
    ensures !w.backupDirExists && !w.mkdirSucceeds ==> r == Run(CodeOf(SA_BROKEN_ROOT_DIR), [Mkdir(BACKUP_DIR)])
    ensures (w.backupDirExists || w.mkdirSucceeds) ==>
              |r.effects| > |DirSetup(w)| && r.effects[..|DirSetup(w)| + 1] == Packed(cache, w)
    ensures (w.backupDirExists || w.mkdirSucceeds) && w.tarRaises.Some? ==>
              r == Run(ExceptionCode(w.tarRaises.value), Packed(cache, w))
    ensures (w.backupDirExists || w.mkdirSucceeds) && w.tarRaises.None? && !HookRuns(jsObj, "onBackup") ==>
              r == Run(CodeOf(if jsObj.None? then EXT_BROKEN_FRAMEWORK else EXT_INVAL_ARG),
                       Packed(cache, w) + HookTrace(jsObj, "onBackup"))
    ensures AppFileReady(PKG_NAME) in r.effects <==> AnnouncementReached(jsObj, w) && HandleAtFileReady(cached, w)
    ensures AppFileReady(PKG_NAME) in r.effects ==>
              r.ret == w.fileReadyResult &&
              r.effects == Packed(cache, w) + [CallHook("onBackup"), AppFileReady(PKG_NAME)]
    ensures AnnouncementReached(jsObj, w) && !HandleAtFileReady(cached, w) ==>
              r == Run(CodeOf(EXT_BROKEN_BACKUP_SA), Packed(cache, w) + [CallHook("onBackup")])
  {
    ConfiguredIncludesNeedNoDefault(cache);
    var setup := DirSetup(w);
    if !w.backupDirExists && !w.mkdirSucceeds then
      Run(CodeOf(SA_BROKEN_ROOT_DIR), setup)
    else
      var packed := setup + [Tar(TAR_NAME, "/", ResolveIncludes(GetIncludeDirs(cache)), GetExcludeDirs(cache))];
      if w.tarRaises.Some? then
        Run(ExceptionCode(w.tarRaises.value), packed)
      else
        var a := AnnounceFlow(jsObj, cached, w);
        Run(a.ret, packed + a.effects)
  }

  /**
   * The part of `HandleBackup` after packing: the `onBackup` hook, then, with
   * a service handle, the announcement of the package.
   */
  function AnnounceFlow(jsObj: Option<JsValue>, cached: bool, w: World): (r: Run)
    ensures NoAppDone(r.effects)
    ensures !HookRuns(jsObj, "onBackup") ==>
              r == Run(CodeOf(if jsObj.None? then EXT_BROKEN_FRAMEWORK else EXT_INVAL_ARG), HookTrace(jsObj, "onBackup"))
    ensures AppFileReady(PKG_NAME) in r.effects <==> HookRuns(jsObj, "onBackup") && HandleAtFileReady(cached, w)
    ensures AppFileReady(PKG_NAME) in r.effects ==>
              r == Run(w.fileReadyResult, [CallHook("onBackup"), AppFileReady(PKG_NAME)])
    ensures HookRuns(jsObj, "onBackup") && !HandleAtFileReady(cached, w) ==>
              r == Run(CodeOf(EXT_BROKEN_BACKUP_SA), [CallHook("onBackup")])
  {
    var hooked := HookTrace(jsObj, "onBackup");
    match CallObjectMethod(jsObj, "onBackup")
    case Raised(ex) => Run(ExceptionCode(ex), hooked)
    case Done =>
      if !HandleAtFileReady(cached, w) then Run(CodeOf(EXT_BROKEN_BACKUP_SA), hooked)
      else Run(w.fileReadyResult, hooked + [AppFileReady(PKG_NAME)])
  }

  /**
   * The configured include list is never empty, so `HandleBackup`'s
   * substitution of the defaults never changes it.
   */
  lemma ConfiguredIncludesNeedNoDefault(cache: JsonObject)
    ensures ResolveIncludes(GetIncludeDirs(cache)) == GetIncludeDirs(cache)
  {
  }

  /**
   * `HandleRestore`: unpacks the fixed archive into the backup home and
   * returns ERR_OK; a caught `BError` gives its code, anything else EPERM.
   */
  function RestoreFlow(w: World): (r: Run)
    ensures r.effects == [Untar(PATH_BUNDLE_BACKUP_HOME + "/backup/" + PKG_NAME, PATH_BUNDLE_BACKUP_HOME)]
    ensures w.untarRaises.None? ==> r.ret == ERR_OK
    ensures w.untarRaises.Some? ==> r.ret == ExceptionCode(w.untarRaises.value)
  {
    var tarName := PATH_BUNDLE_BACKUP_HOME + "/backup/" + PKG_NAME;
    Run(if w.untarRaises.None? then ERR_OK else ExceptionCode(w.untarRaises.value),
        [Untar(tarName, PATH_BUNDLE_BACKUP_HOME)])
  }

  /** Restore unpacks the very archive backup packs. */
  lemma RestoreReadsBackupArchive(cache: JsonObject, jsObj: Option<JsValue>, cached: bool, w: World)
    requires w.backupDirExists || w.mkdirSucceeds
    ensures BackupFlow(cache, jsObj, cached, w).effects[|DirSetup(w)|].tarName == RestoreFlow(w).effects[0].tarName
  {
    assert BackupFlow(cache, jsObj, cached, w).effects[..|DirSetup(w)| + 1][|DirSetup(w)|]
        == BackupFlow(cache, jsObj, cached, w).effects[|DirSetup(w)|];
  }

  // ---------------------------------------------------------------------
  // A command

  /**
   * The body of `OnCommand` up to the final report: `ret` starts at EPERM.
   * A rejected sender or an INVALID action gives EXT_INVAL_ARG before any
   * lookup; a failing resource lookup gives EXT_INVAL_ARG; no configuration
   * entry, a configuration that does not allow backup, or an action that is
   * neither BACKUP nor RESTORE leaves EPERM; otherwise the result is that of
   * backup or restore. `cached` says whether the service handle is cached
   * when the command arrives.
   */
  function CommandRet(want: Want, abilityInfo: Option<AbilityInfo>, jsObj: Option<JsValue>, cached: bool, w: World): (r: Run)
    ensures NoAppDone(r.effects)
    ensures Verify(want, abilityInfo) != Done ==> r == Run(CodeOf(EXT_INVAL_ARG), [])
    ensures GetIntParam(want, EXTENSION_ACTION_PARA, ACTION_INVALID) == ACTION_INVALID ==>
              r == Run(CodeOf(EXT_INVAL_ARG), [])
    ensures r.effects != [] ==> r.effects[0] == ResolveConfig(CONFIG_RESOURCE)
    ensures Verify(want, abilityInfo) == Done && GetIntParam(want, EXTENSION_ACTION_PARA, ACTION_INVALID) != ACTION_INVALID ==>
              w.resConfig.None? ==> r == Run(CodeOf(EXT_INVAL_ARG), [ResolveConfig(CONFIG_RESOURCE)])
    ensures Verify(want, abilityInfo) == Done && GetIntParam(want, EXTENSION_ACTION_PARA, ACTION_INVALID) != ACTION_INVALID
            && w.resConfig.Some? && w.resConfig.value == [] ==>
              r == Run(EPERM, [ResolveConfig(CONFIG_RESOURCE)])
  {
    if Verify(want, abilityInfo) != Done then
      Run(ExceptionCode(Verify(want, abilityInfo).ex), [])
    else
      var action := GetIntParam(want, EXTENSION_ACTION_PARA, ACTION_INVALID);
      if action == ACTION_INVALID then
        Run(CodeOf(EXT_INVAL_ARG), [])
      else
        ActionRun(action, jsObj, cached, w)
  }

  /**
   * The part of a command after its checks: resolve the configuration
   * resource, load the first file it names and, with backup allowed, run the
   * action.
   */
  function ActionRun(action: int32, jsObj: Option<JsValue>, cached: bool, w: World): Run
  {
    if w.resConfig.None? then
      Run(CodeOf(EXT_INVAL_ARG), [ResolveConfig(CONFIG_RESOURCE)])
    else if |w.resConfig.value| == 0 then
      Run(EPERM, [ResolveConfig(CONFIG_RESOURCE)])
    else
      var c := ConfiguredRun(action, w.resConfig.value[0], jsObj, cached, w);
      Run(c.ret, [ResolveConfig(CONFIG_RESOURCE)] + c.effects)
  }

  /** Loading the configuration file `file` and, if it allows backup, running the action. */
  function ConfiguredRun(action: int32, file: string, jsObj: Option<JsValue>, cached: bool, w: World): Run
  {
    match w.loadConfig(file)
    case LoadRaised(ex) => Run(if ex.Thrown? then CodeOf(ex.code) else EPERM, [LoadConfig(file)])
    case Loaded(parsed) =>
      var cache := Structuralize(parsed);
      if !GetAllowToBackup(cache) then Run(EPERM, [LoadConfig(file)])
      else if action == ACTION_BACKUP then
        var b := BackupFlow(cache, jsObj, cached, w);
        Run(b.ret, [LoadConfig(file)] + b.effects)
      else if action == ACTION_RESTORE then
        Run(RestoreFlow(w).ret, [LoadConfig(file)] + RestoreFlow(w).effects)
      else Run(EPERM, [LoadConfig(file)])
  }

  /**
   * With a configuration that allows backup and restore, the action decides:
   * BACKUP gives exactly what `HandleBackup` gives, RESTORE exactly what
   * `HandleRestore` gives, and any other action leaves EPERM with nothing
   * archived or extracted; each after resolving and loading the configuration.
   */
  lemma AllowedCommandDispatch(want: Want, abilityInfo: Option<AbilityInfo>, jsObj: Option<JsValue>, cached: bool, w: World)
    requires Verify(want, abilityInfo) == Done
    requires w.resConfig.Some? && w.resConfig.value != []
    requires w.loadConfig(w.resConfig.value[0]).Loaded?
    requires GetAllowToBackup(Structuralize(w.loadConfig(w.resConfig.value[0]).parsed))
    ensures var action := GetIntParam(want, EXTENSION_ACTION_PARA, ACTION_INVALID);
            var cache := Structuralize(w.loadConfig(w.resConfig.value[0]).parsed);
            var pre := [ResolveConfig(CONFIG_RESOURCE), LoadConfig(w.resConfig.value[0])];
            var r := CommandRet(want, abilityInfo, jsObj, cached, w);
            (action == ACTION_BACKUP ==>
               r == Run(BackupFlow(cache, jsObj, cached, w).ret, pre + BackupFlow(cache, jsObj, cached, w).effects))
            && (action == ACTION_RESTORE ==> r == Run(RestoreFlow(w).ret, pre + RestoreFlow(w).effects))
            && (action != ACTION_INVALID && action != ACTION_BACKUP && action != ACTION_RESTORE ==>
                  r == Run(EPERM, pre) && NoArchive(r.effects))
  {
  }

  /**
   * A configuration that does not allow backup and restore leaves EPERM,
   * after resolving and loading it, whatever the action: nothing is archived
   * or extracted.
   */
  lemma DisallowedConfigurationDoesNothing(want: Want, abilityInfo: Option<AbilityInfo>, jsObj: Option<JsValue>, cached: bool, w: World)
    requires Verify(want, abilityInfo) == Done && GetIntParam(want, EXTENSION_ACTION_PARA, ACTION_INVALID) != ACTION_INVALID
    requires w.resConfig.Some? && w.resConfig.value != []
    requires w.loadConfig(w.resConfig.value[0]).Loaded?
    requires !GetAllowToBackup(Structuralize(w.loadConfig(w.resConfig.value[0]).parsed))
    ensures CommandRet(want, abilityInfo, jsObj, cached, w) ==
              Run(EPERM, [ResolveConfig(CONFIG_RESOURCE), LoadConfig(w.resConfig.value[0])])
    ensures NoArchive(CommandRet(want, abilityInfo, jsObj, cached, w).effects)
  {
  }

  /**
   * A configuration file that cannot be read reports the thrown code, or
   * EPERM for any other exception, and nothing is archived or extracted.
   */
  lemma ConfigLoadFailureReported(want: Want, abilityInfo: Option<AbilityInfo>, jsObj: Option<JsValue>, cached: bool, w: World)
    requires Verify(want, abilityInfo) == Done && GetIntParam(want, EXTENSION_ACTION_PARA, ACTION_INVALID) != ACTION_INVALID
    requires w.resConfig.Some? && w.resConfig.value != []
    requires w.loadConfig(w.resConfig.value[0]).LoadRaised?
    ensures var ex := w.loadConfig(w.resConfig.value[0]).ex;
            CommandRet(want, abilityInfo, jsObj, cached, w).ret == (if ex.Thrown? then CodeOf(ex.code) else EPERM)
    ensures NoArchive(CommandRet(want, abilityInfo, jsObj, cached, w).effects)
  {
  }

  /** Appending effects in two steps is appending them at once. */
  lemma AppendAssoc(a: seq<Effect>, b: seq<Effect>, c: seq<Effect>)
    ensures (a + b) + c == a + (b + c)
  {
  }

  /** How many reports an effect sequence contains. */
  function CountAppDone(effects: seq<Effect>): nat
  {
    if effects == [] then 0
    else (if effects[0].AppDone? then 1 else 0) + CountAppDone(effects[1..])
  }

  lemma {:induction false} CountAppDoneAppend(a: seq<Effect>, b: seq<Effect>)
    ensures CountAppDone(a + b) == CountAppDone(a) + CountAppDone(b)
  {
    if a == [] {
      assert a + b == b;
    } else {
      assert (a + b)[1..] == a[1..] + b;
      CountAppDoneAppend(a[1..], b);
    }
  }

  lemma {:induction false} NoAppDoneCountsZero(effects: seq<Effect>)
    requires NoAppDone(effects)
    ensures CountAppDone(effects) == 0
  {
    if effects != [] {
      NoAppDoneCountsZero(effects[1..]);
    }
  }

  /**
   * After the checks, the action is BACKUP, the configuration resource names
   * a file that loads and allows backup, and `HandleBackup` gets to load the
   * service.
   */
  predicate ActionLoadsService(action: int32, jsObj: Option<JsValue>, w: World)
  {
    w.resConfig.Some? && w.resConfig.value != [] && ConfiguredLoadsService(action, w.resConfig.value[0], jsObj, w)
  }

  /** The action is BACKUP, `file` loads and allows backup, and `HandleBackup` gets to load the service. */
  predicate ConfiguredLoadsService(action: int32, file: string, jsObj: Option<JsValue>, w: World)
  {
    action == ACTION_BACKUP && w.loadConfig(file).Loaded? && GetAllowToBackup(Structuralize(w.loadConfig(file).parsed))
    && AnnouncementReached(jsObj, w) && w.loadAtFileReady
  }

  /**
   * Whether the service handle is cached once the command's handling is
   * over: it was cached when the command arrived, or the announcement's
   * lookup loaded it.
   */
  predicate CachedAfter(want: Want, abilityInfo: Option<AbilityInfo>, jsObj: Option<JsValue>, cached: bool, w: World)
  {
    cached ||
    (Verify(want, abilityInfo) == Done
     && ActionLoadsService(GetIntParam(want, EXTENSION_ACTION_PARA, ACTION_INVALID), jsObj, w))
  }

  /** Whether `GetInstance` yields a handle for the final report: the cached one, or else the one a load delivers. */
  predicate HandleAtDone(want: Want, abilityInfo: Option<AbilityInfo>, jsObj: Option<JsValue>, cached: bool, w: World)
  {
    CachedAfter(want, abilityInfo, jsObj, cached, w) || w.loadAtDone
  }

  /** After loading `file`, the handle ends up cached exactly when it was before or the package was announced. */
  lemma ConfiguredAnnouncement(action: int32, file: string, jsObj: Option<JsValue>, cached: bool, w: World)
    ensures cached || ConfiguredLoadsService(action, file, jsObj, w) <==>
              cached || AppFileReady(PKG_NAME) in ConfiguredRun(action, file, jsObj, cached, w).effects
  {
    var r := ConfiguredRun(action, file, jsObj, cached, w);
    if action == ACTION_BACKUP && w.loadConfig(file).Loaded? && GetAllowToBackup(Structuralize(w.loadConfig(file).parsed)) {
      var b := BackupFlow(Structuralize(w.loadConfig(file).parsed), jsObj, cached, w);
      assert r.effects == [LoadConfig(file)] + b.effects;
      assert AppFileReady(PKG_NAME) in r.effects <==> AppFileReady(PKG_NAME) in b.effects;
    } else {
      assert AppFileReady(PKG_NAME) !in r.effects;
    }
  }

  /** After the checks, the handle ends up cached exactly when it was before or the package was announced. */
  lemma ActionAnnouncement(action: int32, jsObj: Option<JsValue>, cached: bool, w: World)
    ensures cached || ActionLoadsService(action, jsObj, w) <==>
              cached || AppFileReady(PKG_NAME) in ActionRun(action, jsObj, cached, w).effects
  {
    if w.resConfig.Some? && w.resConfig.value != [] {
      var c := ConfiguredRun(action, w.resConfig.value[0], jsObj, cached, w);
      ConfiguredAnnouncement(action, w.resConfig.value[0], jsObj, cached, w);
      assert ActionRun(action, jsObj, cached, w).effects == [ResolveConfig(CONFIG_RESOURCE)] + c.effects;
    }
  }

  /** The handle is cached after the handling exactly when it was before or the package was announced. */
  lemma CachedAfterAnnouncement(want: Want, abilityInfo: Option<AbilityInfo>, jsObj: Option<JsValue>, cached: bool, w: World)
    ensures CachedAfter(want, abilityInfo, jsObj, cached, w) <==>
              cached || AppFileReady(PKG_NAME) in CommandRet(want, abilityInfo, jsObj, cached, w).effects
  {
    var action := GetIntParam(want, EXTENSION_ACTION_PARA, ACTION_INVALID);
    if Verify(want, abilityInfo) == Done && action != ACTION_INVALID {
      ActionAnnouncement(action, jsObj, cached, w);
    }
  }

  /**
   * Everything `OnCommand` does: the command's effects followed by one report
   * of its result, or, with no service handle, the command's effects and an
   * escaping EXT_BROKEN_BACKUP_SA.
   */
  function CommandEffects(want: Want, abilityInfo: Option<AbilityInfo>, jsObj: Option<JsValue>, cached: bool, w: World): seq<Effect>
  {
    var r := CommandRet(want, abilityInfo, jsObj, cached, w);
    if HandleAtDone(want, abilityInfo, jsObj, cached, w) then r.effects + [AppDone(r.ret)] else r.effects
  }

  /**
   * With a service handle, a command reports exactly once, last, and with the
   * result of all the handling before it; without one it never reports.
   */
  lemma AppDoneExactlyOnce(want: Want, abilityInfo: Option<AbilityInfo>, jsObj: Option<JsValue>, cached: bool, w: World)
    ensures HandleAtDone(want, abilityInfo, jsObj, cached, w) ==>
              CountAppDone(CommandEffects(want, abilityInfo, jsObj, cached, w)) == 1 &&
              CommandEffects(want, abilityInfo, jsObj, cached, w)[|CommandEffects(want, abilityInfo, jsObj, cached, w)| - 1]
                == AppDone(CommandRet(want, abilityInfo, jsObj, cached, w).ret)
    ensures !HandleAtDone(want, abilityInfo, jsObj, cached, w) ==>
              CountAppDone(CommandEffects(want, abilityInfo, jsObj, cached, w)) == 0
  {
    var r := CommandRet(want, abilityInfo, jsObj, cached, w);
    NoAppDoneCountsZero(r.effects);
    if HandleAtDone(want, abilityInfo, jsObj, cached, w) {
      CountAppDoneAppend(r.effects, [AppDone(r.ret)]);
      assert CountAppDone([AppDone(r.ret)]) == 1 by {
        assert [AppDone(r.ret)][1..] == [];
      }
    }
  }

  /**
   * A command that announced its package is always reported: the handle the
   * announcement used stays cached, so the final report cannot miss it.
   */
  lemma AnnouncedBackupIsReported(want: Want, abilityInfo: Option<AbilityInfo>, jsObj: Option<JsValue>, cached: bool, w: World)
    requires AppFileReady(PKG_NAME) in CommandEffects(want, abilityInfo, jsObj, cached, w)
    ensures CountAppDone(CommandEffects(want, abilityInfo, jsObj, cached, w)) == 1
    ensures var e := CommandEffects(want, abilityInfo, jsObj, cached, w);
            e[|e| - 1] == AppDone(CommandRet(want, abilityInfo, jsObj, cached, w).ret)
  {
    var r := CommandRet(want, abilityInfo, jsObj, cached, w);
    assert AppFileReady(PKG_NAME) in r.effects;
    CachedAfterAnnouncement(want, abilityInfo, jsObj, cached, w);
    AppDoneExactlyOnce(want, abilityInfo, jsObj, cached, w);
  }

  /** A command with an INVALID action is rejected before any lookup or I/O and reports EXT_INVAL_ARG. */
  lemma InvalidActionReportsInvalArg(want: Want, abilityInfo: Option<AbilityInfo>, jsObj: Option<JsValue>, cached: bool, w: World)
    requires GetIntParam(want, EXTENSION_ACTION_PARA, ACTION_INVALID) == ACTION_INVALID && (cached || w.loadAtDone)
    ensures CommandEffects(want, abilityInfo, jsObj, cached, w) == [AppDone(CodeOf(EXT_INVAL_ARG))]
  {
  }

  /**
   * An allowed backup command whose work succeeds reports the announcement's
   * result, after packing, the hook and the announcement, in that order; the
   * handle the announcement loaded serves the report.
   */
  lemma BackupCommandOrder(want: Want, abilityInfo: Option<AbilityInfo>, jsObj: Option<JsValue>, w: World, file: string, cfg: JsonObject)
    requires Verify(want, abilityInfo) == Done && GetIntParam(want, EXTENSION_ACTION_PARA, ACTION_INVALID) == ACTION_BACKUP
    requires w.resConfig == Some([file]) && w.loadConfig(file) == Loaded(Some(cfg)) && GetAllowToBackup(cfg)
    requires w.backupDirExists && w.tarRaises.None? && HookRuns(jsObj, "onBackup") && w.loadAtFileReady
    ensures CommandEffects(want, abilityInfo, jsObj, false, w) ==
              [ResolveConfig(CONFIG_RESOURCE), LoadConfig(file),
               Tar(TAR_NAME, "/", GetIncludeDirs(cfg), GetExcludeDirs(cfg)),
               CallHook("onBackup"), AppFileReady(PKG_NAME), AppDone(w.fileReadyResult)]
  {
    var b := BackupFlow(Structuralize(Some(cfg)), jsObj, false, w);
    assert AppFileReady(PKG_NAME) in b.effects;
  }

  /** The extension ability: its description and the custom JS extension it loaded. */
  class ExtBackupJs {
    var abilityInfo: Option<AbilityInfo>
    var jsObj: Option<JsValue>
    /**
     * Whether the process-wide backup service handle that
     * `ServiceProxy::GetInstance` caches is present.
     */
    var handleCached: bool
    /** Every request made of the outside world, in order. */
    ghost var trace: seq<Effect>

    /** The ability is created at process start, when no service handle is cached yet. */
    constructor ()
      ensures abilityInfo.None? && jsObj.None? && !handleCached && trace == []
    {
      abilityInfo, jsObj, handleCached, trace := None, None, false, [];
    }

    /**
     * `Init`: records the ability description and loads the custom extension
     * from the module "<module>::<name>" at `GetSrcPath`. With no description
     * nothing is loaded; a failed load leaves no object.
     */
    method Init(record: Option<AbilityInfo>, loadModule: (string, string) -> Option<JsValue>)
      modifies this`abilityInfo, this`jsObj
      ensures abilityInfo == record
      ensures record.None? ==> jsObj == old(jsObj)
      ensures record.Some? ==>
                jsObj == loadModule(record.value.moduleName + "::" + record.value.name, GetSrcPath(record.value))
    {
      abilityInfo := record;
      if abilityInfo.None? {
        return;
      }
      var info := abilityInfo.value;
      var moduleName := info.moduleName + "::" + info.name;
      var modulePath := GetSrcPath(info);
      jsObj := loadModule(moduleName, modulePath);
    }

    /**
     * `ServiceProxy::GetInstance` as the extension sees it: the cached
     * handle, or else a load (`load` says whether it delivers one) whose
     * handle is cached. `ServiceChannel.ProxyCache.GetInstance` models the
     * load itself.
     */
    method GetInstance(load: bool) returns (proxy: bool)
      modifies this`handleCached
      ensures proxy == (old(handleCached) || load) && handleCached == proxy
    {
      if !handleCached {
        handleCached := load;
      }
      proxy := handleCached;
    }

    method HandleBackup(cache: JsonObject, w: World) returns (ret: ErrCode)
      modifies this`trace, this`handleCached
      ensures ret == BackupFlow(cache, jsObj, old(handleCached), w).ret
      ensures trace == old(trace) + BackupFlow(cache, jsObj, old(handleCached), w).effects
      ensures handleCached == (old(handleCached) || (AnnouncementReached(jsObj, w) && w.loadAtFileReady))
    {
      ghost var packed := Packed(cache, w);
      if !w.backupDirExists {
        trace := trace + [Mkdir(BACKUP_DIR)];
        if !w.mkdirSucceeds {
          return CodeOf(SA_BROKEN_ROOT_DIR);
        }
      }
      ConfiguredIncludesNeedNoDefault(cache);
      var incDirs := GetIncludeDirs(cache);
      var excDirs := GetExcludeDirs(cache);
      if |incDirs| == 0 {
        incDirs := incDirs + PATHES_TO_BACKUP;
      }
      trace := trace + [Tar(TAR_NAME, "/", incDirs, excDirs)];
      assert trace == old(trace) + packed;
      if w.tarRaises.Some? {
        return ExceptionCode(w.tarRaises.value);
      }
      ret := AnnounceBackup(w);
      AppendAssoc(old(trace), packed, AnnounceFlow(jsObj, old(handleCached), w).effects);
    }

    /** The hook and the announcement, as `AnnounceFlow` says. */
    method AnnounceBackup(w: World) returns (ret: ErrCode)
      modifies this`trace, this`handleCached
      ensures ret == AnnounceFlow(jsObj, old(handleCached), w).ret
      ensures trace == old(trace) + AnnounceFlow(jsObj, old(handleCached), w).effects
      ensures handleCached == (old(handleCached) || (HookRuns(jsObj, "onBackup") && w.loadAtFileReady))
    {
      var hook := CallObjectMethod(jsObj, "onBackup");
      if HookCalled(jsObj, "onBackup") {
        trace := trace + [CallHook("onBackup")];
      }
      if hook.Raised? {
        return ExceptionCode(hook.ex);
      }
      var proxy := GetInstance(w.loadAtFileReady);
      if !proxy {
        return CodeOf(EXT_BROKEN_BACKUP_SA);
      }
      trace := trace + [AppFileReady(PKG_NAME)];
      ret := w.fileReadyResult;
    }

    method HandleRestore(w: World) returns (ret: ErrCode)
      modifies this`trace
      ensures ret == RestoreFlow(w).ret && trace == old(trace) + RestoreFlow(w).effects
    {
      var tarName := PATH_BUNDLE_BACKUP_HOME + "/backup/" + PKG_NAME;
      trace := trace + [Untar(tarName, PATH_BUNDLE_BACKUP_HOME)];
      if w.untarRaises.Some? {
        return ExceptionCode(w.untarRaises.value);
      }
      return ERR_OK;
    }

    /**
     * `OnCommand`: `ret` starts at EPERM and is replaced by a caught error's
     * code or a handler's result; then the result is reported once, unless
     * there is no service handle, in which case EXT_BROKEN_BACKUP_SA escapes
     * (`escaped`) and nothing is reported.
     */
    method OnCommand(want: Want, w: World) returns (escaped: bool)
      modifies this`trace, this`handleCached
      ensures escaped <==> !HandleAtDone(want, abilityInfo, jsObj, old(handleCached), w)
      ensures handleCached == HandleAtDone(want, abilityInfo, jsObj, old(handleCached), w)
      ensures trace == old(trace) + CommandEffects(want, abilityInfo, jsObj, old(handleCached), w)
    {
      ghost var before := trace;
      ghost var cached0 := handleCached;
      var ret := OnCommandBody(want, w);
      assert trace == before + CommandRet(want, abilityInfo, jsObj, cached0, w).effects;
      var proxy := GetInstance(w.loadAtDone);
      if !proxy {
        return true;
      }
      trace := trace + [AppDone(ret)];
      escaped := false;
    }

    /** The guarded part of `OnCommand`, with its exceptions caught into the result. */
    method OnCommandBody(want: Want, w: World) returns (ret: ErrCode)
      modifies this`trace, this`handleCached
      ensures ret == CommandRet(want, abilityInfo, jsObj, old(handleCached), w).ret
      ensures trace == old(trace) + CommandRet(want, abilityInfo, jsObj, old(handleCached), w).effects
      ensures handleCached == CachedAfter(want, abilityInfo, jsObj, old(handleCached), w)
    {
      ret := EPERM;
      var verified := Verify(want, abilityInfo);
      if verified.Raised? {
        return ExceptionCode(verified.ex);
      }
      var extAction := GetIntParam(want, EXTENSION_ACTION_PARA, ACTION_INVALID);
      if extAction == ACTION_INVALID {
        return CodeOf(EXT_INVAL_ARG);
      }
      ret := RunAction(extAction, w);
    }

    /**
     * The rest of the guarded part of `OnCommand`: resolve the configuration,
     * load it and, if it allows, back up or restore.
     */
    method RunAction(extAction: int32, w: World) returns (ret: ErrCode)
      modifies this`trace, this`handleCached
      ensures ret == ActionRun(extAction, jsObj, old(handleCached), w).ret
      ensures trace == old(trace) + ActionRun(extAction, jsObj, old(handleCached), w).effects
      ensures handleCached == (old(handleCached) || ActionLoadsService(extAction, jsObj, w))
    {
      ret := EPERM;
      trace := trace + [ResolveConfig(CONFIG_RESOURCE)];
      if w.resConfig.None? {
        return CodeOf(EXT_INVAL_ARG);
      }
      var out := w.resConfig.value;
      if |out| > 0 {
        ghost var t := old(trace);
        ret := RunConfigured(extAction, out[0], w);
        AppendAssoc(t, [ResolveConfig(CONFIG_RESOURCE)], ConfiguredRun(extAction, out[0], jsObj, old(handleCached), w).effects);
      }
    }

    /** The `out.size()` branch of `OnCommand`: load the configuration and, if it allows, back up or restore. */
    method RunConfigured(extAction: int32, file: string, w: World) returns (ret: ErrCode)
      modifies this`trace, this`handleCached
      ensures ret == ConfiguredRun(extAction, file, jsObj, old(handleCached), w).ret
      ensures trace == old(trace) + ConfiguredRun(extAction, file, jsObj, old(handleCached), w).effects
      ensures handleCached == (old(handleCached) || ConfiguredLoadsService(extAction, file, jsObj, w))
    {
      ret := EPERM;
      trace := trace + [LoadConfig(file)];
      var load := w.loadConfig(file);
      if load.LoadRaised? {
        if load.ex.Thrown? {
          ret := CodeOf(load.ex.code);
        }
        return;
      }
      var cache := Structuralize(load.parsed);
      if GetAllowToBackup(cache) {
        if extAction == ACTION_BACKUP {
          ret := HandleBackup(cache, w);
          AppendAssoc(old(trace), [LoadConfig(file)], BackupFlow(cache, jsObj, old(handleCached), w).effects);
        } else if extAction == ACTION_RESTORE {
          ret := HandleRestore(w);
          AppendAssoc(old(trace), [LoadConfig(file)], RestoreFlow(w).effects);
        }
      }
    }
  }
}
