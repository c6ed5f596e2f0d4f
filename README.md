# Backup extension, service proxy and file sharing — a Dafny model

This project models the core of the application file service: the backup
extension, the client side of the backup service, and file sharing between
applications.

- **Extension IPC stub** (`ExtExtensionStub`). It maps four request codes to
  the extension's operations. It checks the interface token, reads the
  arguments, invokes the operation and writes the result into the reply.
- **JavaScript backup extension** (`ExtBackupJs`).
  - `OnCommand` checks the caller, resolves and loads the application's
    backup configuration, then runs backup (archive, call the `onBackup`
    hook, announce the archive) or restore (extract the archive).
  - It reports the outcome to the backup service exactly once.
- **Backup service proxy** (`ServiceProxy`).
  - Each call writes its request into a parcel, sends it and reads the
    answer.
  - `GetInstance` caches the loaded service handle.
- **Backup configuration accessors**: the application configuration
  (`includeDirs`, `excludeDirs`, `allowToBackupRestore`) and the extension
  configuration (`includes`, `excludes`). Their behaviour is as the
  extension-configuration unit tests pin it down.
- **`BError`**: its code and conversion rules, as its unit tests state them.
- **`BFileInfo`**: the `BFileInfo` parcel round trip, as its unit tests state
  it.
- **File sharing**:
  - `CreateShareFile` derives the share paths from the URI, the caller
    token and the permission flag. It prepares their parent directories,
    creates the share files or directories and bind-mounts the provider's
    lower path onto them.
  - `DeleteShareFile` detaches and removes them.

Files:

| file | module | what it holds |
|---|---|---|
| `base.dfy` | `Base` | sized integers and errno constants |
| `b_error.dfy` | `BErrors` | the error value |
| `parcel.dfy` | `Parcels` | IPC parcels, as values and as a `MessageParcel` class |
| `b_file_info.dfy` | `FileInfo` | the file record |
| `b_json_config.dfy` | `JsonConfig` | the configuration accessors |
| `ext_extension_stub.dfy` | `ExtensionStub` | the extension stub |
| `ext_backup_js.dfy` | `ExtBackup` | the JavaScript extension |
| `service_proxy.dfy` | `ServiceChannel` | the proxy |
| `file_share.dfy` | `FileShare` | file sharing |

Stateful code is modelled imperatively and proved against a pure
specification function:

- `ExtExtensionStub`, `MessageParcel`, `BFileInfo`, `ExtBackupJs`,
  `ProxyCache`, `LoadCallback` and `FileShareInfo` are classes whose methods
  update their fields.
- The loops of `MakeDir`, `GetProviderPath`, `PreparePreShareDir`,
  `CreateShareFile` and `UmountDelUris` are `while` loops with invariants.

Effects that cross the process boundary are modelled as follows:

- **Outside world**: passed in as an oracle value. This covers the token
  service, the file system (`Fs`), the tar engine, the resource manager and
  the remote service.
- **Extension's effects**: recorded as a trace of events.

## Model

| member | source | states |
|---|---|---|
| `BErrors.GetCode` | tests/unittests/backup_utils/b_error/b_error_test.cpp:136-142 | the reported number is 0 exactly for `OK`, and (for the placeholder values) differs from EPERM, ENOENT, EINVAL and EPIPE |
| `BErrors.ToBool` | tests/unittests/backup_utils/b_error/b_error_test.cpp:190-195 | conversion to bool is true exactly when the reported number is non-zero |
| `BErrors.Default` | tests/unittests/backup_utils/b_error/b_error_test.cpp:190-212 | a default-constructed error converts to false and to 0 |
| `BErrors.CodeIdentity` | tests/unittests/backup_utils/b_error/b_error_test.cpp:136-159 | two errors report the same number exactly when they carry the same code (for the placeholder values) |
| `BErrors.OkCodeIsZero` | tests/unittests/backup_utils/b_error/b_error_test.cpp:136-142 | `BError(OK).GetCode()` is 0 |
| `BErrors.RawCodeIsConstructionCode` | tests/unittests/backup_utils/b_error/b_error_test.cpp:154-160 | `GetRawCode` returns the code the error was built with |
| `BErrors.MessageIrrelevant` | tests/unittests/backup_utils/b_error/b_error_test.cpp:28-135 | the extra message never changes the reported number |
| `FileInfo.Marshal` | tests/unittests/backup_api/backup_impl/b_file_info_test.cpp:35-51 | marshalling succeeds exactly when the parcel has room for the three fields, and then appends owner, file name and serial number in order |
| `FileInfo.MarshalRoundTrip` | tests/unittests/backup_api/backup_impl/b_file_info_test.cpp:35-51 | what is marshalled into a parcel with room is read back unchanged, and the reader then stands after the record |
| `FileInfo.BFileInfo.Marshalling` | tests/unittests/backup_api/backup_impl/b_file_info_test.cpp:38-41 | writes the receiver's fields into the parcel as `Marshal` does |
| `FileInfo.BFileInfo.ReadFromParcel` | tests/unittests/backup_api/backup_impl/b_file_info_test.cpp:62-80 | succeeds exactly when the parcel decodes, and then holds the decoded owner, file name and serial number; a parcel whose first item is not a string leaves the receiver unchanged |
| `FileInfo.BFileInfo.Unmarshalling` | tests/unittests/backup_api/backup_impl/b_file_info_test.cpp:91-108 | returns a fresh record exactly when the parcel decodes, independently of any receiver |
| `FileInfo.MarshallingTest` | tests/unittests/backup_api/backup_impl/b_file_info_test.cpp:35-51 | marshalling into a fresh parcel succeeds and unmarshalling yields the same three fields |
| `FileInfo.ReadFromParcelTest` | tests/unittests/backup_api/backup_impl/b_file_info_test.cpp:62-80 | a blank receiver ("", "", -1) reading a marshalled parcel ends up with all three fields |
| `JsonConfig.IncludeList` | utils/include/b_json/b_json_entity_usr_config.h:24-31 | the include list is never empty: an unconfigured key gives the six defaults, an empty array gives [""], any other array comes back verbatim |
| `JsonConfig.ExcludeList` | utils/include/b_json/b_json_entity_usr_config.h:33-38 | the exclude list is the configured array, or empty when unconfigured |
| `JsonConfig.GetAllowToBackup` | utils/include/b_json/b_json_entity_usr_config.h:40-45 | backup is allowed exactly when the flag is configured as `true` |
| `JsonConfig.ConfiguredEmptyIncludesMeanEmptyPackage` | utils/include/b_json/b_json_entity_usr_config.h:24-31 | an explicitly empty `includeDirs` reads as [""] |
| `JsonConfig.EmptyConfigGivesDefaults` | tests/unittests/backup_utils/b_json/b_json_entity_extension_config_test.cpp:63-84 | an empty file gives the six default includes and no excludes |
| `JsonConfig.OnlyIncludesVerbatim` | tests/unittests/backup_utils/b_json/b_json_entity_extension_config_test.cpp:95-115 | configured includes, empty strings among them, come back verbatim |
| `JsonConfig.OnlyExcludesVerbatim` | tests/unittests/backup_utils/b_json/b_json_entity_extension_config_test.cpp:126-146 | configured excludes come back verbatim, with the default includes |
| `JsonConfig.BothListsIndependent` | tests/unittests/backup_utils/b_json/b_json_entity_extension_config_test.cpp:157-180 | with both keys each list comes back verbatim |
| `JsonConfig.UnrecognisedKeysGiveDefaults` | tests/unittests/backup_utils/b_json/b_json_entity_extension_config_test.cpp:191-278 | other keys (special characters, non-ASCII, empty) are ignored: both defaults |
| `JsonConfig.MalformedGivesDefaults` | tests/unittests/backup_utils/b_json/b_json_entity_extension_config_test.cpp:289-312 | text that does not parse gives both defaults even if it mentions the keys |
| `JsonConfig.AllowToBackupDefaultsFalse` | utils/include/b_json/b_json_entity_usr_config.h:40-45 | without the flag, backup is not allowed |
| `ExtensionStub.RunProcedure` | frameworks/native/backup_ext/src/ext_extension_stub.cpp:44-99 | a handler fails with EXT_INVAL_ARG exactly when it needs a file name and cannot read one, and then invokes nothing; otherwise it invokes the operation once, with the file name read; it fails with EXT_BROKEN_IPC exactly when the reply is full; on success the result is appended to the reply |
| `ExtensionStub.Dispatch` | frameworks/native/backup_ext/src/ext_extension_stub.cpp:22-42 | an unknown code or a wrong interface token gives EXT_INVAL_ARG and invokes nothing; otherwise the code's handler runs on the data after the token |
| `ExtensionStub.OnlyRegisteredOpcodesDispatch` | frameworks/native/backup_ext/src/ext_extension_stub.cpp:14-42 | only the four registered codes ever reach the extension |
| `ExtensionStub.ClearReportsOkWheneverReplyFits` | frameworks/native/backup_ext/src/ext_extension_stub.cpp:60-70 | a clear request with the right token succeeds whenever the reply has room, and the reply carries the extension's result |
| `ExtensionStub.GetFileHandleSendsDescriptor` | frameworks/native/backup_ext/src/ext_extension_stub.cpp:44-58 | a well-formed file-handle request invokes `GetFileHandle` with the sent name and replies with its descriptor |
| `ExtensionStub.ExtExtensionStub.constructor` | frameworks/native/backup_ext/src/ext_extension_stub.cpp:14-20 | the table holds exactly the four handlers |
| `ExtensionStub.ExtExtensionStub.OnRemoteRequest` | frameworks/native/backup_ext/src/ext_extension_stub.cpp:22-42 | the new parcels, the result and the invoked operation are those of `Dispatch`; the table is unchanged |
| `ExtensionStub.ExtExtensionStub.DoGetFileHandle` | frameworks/native/backup_ext/src/ext_extension_stub.cpp:44-58 | behaves as `RunProcedure` for the file-handle handler |
| `ExtensionStub.ExtExtensionStub.DoHandleClear` | frameworks/native/backup_ext/src/ext_extension_stub.cpp:60-70 | behaves as `RunProcedure` for the clear handler |
| `ExtensionStub.ExtExtensionStub.DoHandleBackup` | frameworks/native/backup_ext/src/ext_extension_stub.cpp:72-82 | behaves as `RunProcedure` for the backup handler |
| `ExtensionStub.ExtExtensionStub.DoPublishFile` | frameworks/native/backup_ext/src/ext_extension_stub.cpp:84-99 | behaves as `RunProcedure` for the publish handler |
| `ExtBackup.StemDropsLastExtension` | frameworks/native/backup_ext/src/ext_backup_js.cpp:28-41 | the module path keeps the entrance up to its last '.', all of it when it has none |
| `ExtBackup.GetSrcPathShape` | frameworks/native/backup_ext/src/ext_backup_js.cpp:28-41 | an empty entrance gives ""; any other starts with "<module>/" and ends in ".abc" |
| `ExtBackup.GetSrcPathExample` | frameworks/native/backup_ext/src/ext_backup_js.cpp:28-41 | "./ets/Backup.ts" in module "entry" gives "entry/./ets/Backup.abc" |
| `ExtBackup.GetSrcPathSeveralDots` | frameworks/native/backup_ext/src/ext_backup_js.cpp:28-41 | only the last extension is dropped |
| `ExtBackup.GetSrcPathNoDot` | frameworks/native/backup_ext/src/ext_backup_js.cpp:28-41 | an entrance without a dot is kept whole |
| `ExtBackup.LastDot` | frameworks/native/backup_ext/src/ext_backup_js.cpp:35 | finds the position of the last '.', or none when there is no '.' |
| `ExtBackup.ExtBackupJs.Init` | frameworks/native/backup_ext/src/ext_backup_js.cpp:43-77 | records the ability; with an ability the JS object is loaded from "<module>::<name>" at the source path |
| `ExtBackup.CallObjectMethod` | frameworks/native/backup_ext/src/ext_backup_js.cpp:80-106 | a hook runs exactly when the object exists and has a function of that name; no object is EXT_BROKEN_FRAMEWORK, no function is EXT_INVAL_ARG |
| `ExtBackup.ResolveIncludes` | frameworks/native/backup_ext/src/ext_backup_js.cpp:122-126 | an empty include list is replaced by the defaults, any other is kept |
| `ExtBackup.ConfiguredIncludesNeedNoDefault` | frameworks/native/backup_ext/src/ext_backup_js.cpp:122-126 | the configured list is never empty, so the substitution never changes it |
| `ExtBackup.BackupFlow` | frameworks/native/backup_ext/src/ext_backup_js.cpp:108-157 | a missing backup directory that cannot be made is SA_BROKEN_ROOT_DIR; otherwise the configured lists are archived first; a raising tar gives the exception's code and stops there; a missing object is EXT_BROKEN_FRAMEWORK and a missing or raising `onBackup` is EXT_INVAL_ARG (the exception's code), with the call recorded whenever the hook exists, and nothing announced; the archive is announced exactly when archiving, the hook and the service lookup (a cached handle or a successful load) all succeed, and then the result is the service's answer; no service is EXT_BROKEN_BACKUP_SA |
| `ExtBackup.AnnounceFlow` | frameworks/native/backup_ext/src/ext_backup_js.cpp:131-156 | after packing: a missing object is EXT_BROKEN_FRAMEWORK and a missing or raising hook EXT_INVAL_ARG (the exception's code), with the call recorded whenever the hook exists; the package is announced exactly when the hook runs and a handle is found, and the result is then the announcement's; no handle is EXT_BROKEN_BACKUP_SA; it never reports |
| `ExtBackup.ExtBackupJs.AnnounceBackup` | frameworks/native/backup_ext/src/ext_backup_js.cpp:131-147 | result and recorded effects are those of `AnnounceFlow`; the handle is cached afterwards exactly when it was before or the hook ran and the load delivered one |
| `ExtBackup.ExtBackupJs.HandleBackup` | frameworks/native/backup_ext/src/ext_backup_js.cpp:108-157 | result and recorded effects are those of `BackupFlow`; the service handle is cached exactly when it was cached before or the announcement's lookup loaded it |
| `ExtBackup.RestoreFlow` | frameworks/native/backup_ext/src/ext_backup_js.cpp:159-186 | the backup archive is extracted into the backup home; the result is OK or the exception's code |
| `ExtBackup.RestoreReadsBackupArchive` | frameworks/native/backup_ext/src/ext_backup_js.cpp:108-186 | restore extracts the very archive that backup writes |
| `ExtBackup.ExtBackupJs.HandleRestore` | frameworks/native/backup_ext/src/ext_backup_js.cpp:159-186 | result and recorded effects are those of `RestoreFlow` |
| `ExtBackup.Verify` | frameworks/native/backup_ext/src/ext_backup_js.cpp:188-204 | a command passes exactly when the ability is initialised and the caller is the backup service or the system; otherwise EXT_INVAL_ARG is thrown |
| `ExtBackup.ExceptionCode` | frameworks/native/backup_ext/src/ext_backup_js.cpp:239-245 | a thrown `BError` gives its code, any other exception gives EPERM |
| `ExtBackup.CommandRet` | frameworks/native/backup_ext/src/ext_backup_js.cpp:206-253 | the body never reports by itself; a rejected caller or an INVALID action gives EXT_INVAL_ARG with no effect; a failed resource lookup gives EXT_INVAL_ARG; no configuration entry leaves EPERM |
| `ExtBackup.AllowedCommandDispatch` | frameworks/native/backup_ext/src/ext_backup_js.cpp:222-238 | under a configuration that allows backup, BACKUP runs `BackupFlow` and RESTORE runs `RestoreFlow` after the configuration is resolved and loaded, with their results; any other action leaves EPERM and archives or extracts nothing |
| `ExtBackup.DisallowedConfigurationDoesNothing` | frameworks/native/backup_ext/src/ext_backup_js.cpp:222-238 | a configuration that does not allow backup leaves EPERM and archives or extracts nothing |
| `ExtBackup.ConfigLoadFailureReported` | frameworks/native/backup_ext/src/ext_backup_js.cpp:222-245 | a configuration that cannot be loaded reports the thrown code, or EPERM, and archives nothing |
| `ExtBackup.CountAppDoneAppend` | frameworks/native/backup_ext/src/ext_backup_js.cpp:206-253 | the number of reports in a trace is additive |
| `ExtBackup.NoAppDoneCountsZero` | frameworks/native/backup_ext/src/ext_backup_js.cpp:206-253 | a trace without reports counts zero |
| `ExtBackup.AppDoneExactlyOnce` | frameworks/native/backup_ext/src/ext_backup_js.cpp:206-253 | with a service handle (the one cached by the announcement, or a successful load), every command reports exactly once, last, with the body's result; without one it reports nothing |
| `ExtBackup.ConfiguredAnnouncement` | frameworks/native/backup_ext/src/ext_backup_js.cpp:226-237 | once the configuration file is loaded, the handle ends up cached exactly when it was before or the package was announced |
| `ExtBackup.ActionAnnouncement` | frameworks/native/backup_ext/src/ext_backup_js.cpp:222-237 | after the checks, the handle ends up cached exactly when it was before or the package was announced |
| `ExtBackup.CachedAfterAnnouncement` | frameworks/native/backup_ext/src/ext_backup_js.cpp:108-247 | after the body the service handle is cached exactly when it was before or the body announced an archive |
| `ExtBackup.AnnouncedBackupIsReported` | frameworks/native/backup_ext/src/ext_backup_js.cpp:108-251 | a command that announced its archive always makes its final report: exactly one, last, with the body's result |
| `ExtBackup.InvalidActionReportsInvalArg` | frameworks/native/backup_ext/src/ext_backup_js.cpp:215-251 | an INVALID action does nothing but report EXT_INVAL_ARG |
| `ExtBackup.BackupCommandOrder` | frameworks/native/backup_ext/src/ext_backup_js.cpp:108-253 | a successful backup command resolves and loads the configuration, archives, calls `onBackup`, announces the archive and reports the announcement's result, in that order, the report reusing the handle the announcement loaded |
| `ExtBackup.ExtBackupJs.OnCommand` | frameworks/native/backup_ext/src/ext_backup_js.cpp:206-253 | records the command's effects, and the final report fails (the error escapes) exactly when no handle is cached and the final load fails; afterwards a handle is cached exactly when one was found |
| `ExtBackup.ExtBackupJs.OnCommandBody` | frameworks/native/backup_ext/src/ext_backup_js.cpp:209-245 | result and recorded effects are those of `CommandRet`; the handle is cached afterwards exactly when it was before or the body announced an archive |
| `ExtBackup.ExtBackupJs.RunAction` | frameworks/native/backup_ext/src/ext_backup_js.cpp:222-237 | result and recorded effects are those of `ActionRun`: the resource lookup, then the first configuration entry's run |
| `ExtBackup.ExtBackupJs.RunConfigured` | frameworks/native/backup_ext/src/ext_backup_js.cpp:226-237 | result and recorded effects are those of `ConfiguredRun`: the configuration is loaded, then backup or restore runs only when it allows backup |
| `ExtBackup.ExtBackupJs.GetInstance` | frameworks/native/backup_kit_inner/src/service_proxy.cpp:228-260 | returns a handle exactly when one is cached or the load delivers one, and caches it |
| `ServiceChannel.InitRestoreSession` | frameworks/native/backup_kit_inner/src/service_proxy.cpp:30-57 | a null callback or a failed write is SDK_INVAL_ARG and sends nothing; otherwise it sends the token, the callback and the bundle names, and returns the service's answer |
| `ServiceChannel.InitBackupSession` | frameworks/native/backup_kit_inner/src/service_proxy.cpp:59-91 | the same, with the archive descriptor between the callback and the bundle names |
| `ServiceChannel.Start` | frameworks/native/backup_kit_inner/src/service_proxy.cpp:93-110 | sends the token alone and returns the service's answer |
| `ServiceChannel.GetLocalCapabilities` | frameworks/native/backup_kit_inner/src/service_proxy.cpp:112-129 | a transport failure gives the negated transport code; otherwise the reply's descriptor, or -1 |
| `ServiceChannel.Negate32` | frameworks/native/backup_kit_inner/src/service_proxy.cpp:122-124 | 32-bit negation, with INT_MIN mapped to itself |
| `ServiceChannel.PublishFile` | frameworks/native/backup_kit_inner/src/service_proxy.cpp:131-153 | a record that cannot be written is -EPIPE; otherwise the token and the marshalled record are sent |
| `ServiceChannel.PublishFileRequestDecodes` | frameworks/native/backup_kit_inner/src/service_proxy.cpp:131-153 | the service reads back the matching token and exactly the published record |
| `ServiceChannel.AppFileReady` | frameworks/native/backup_kit_inner/src/service_proxy.cpp:155-178 | a failed write is SDK_INVAL_ARG; otherwise the token, the file name and the descriptor are sent |
| `ServiceChannel.AppDone` | frameworks/native/backup_kit_inner/src/service_proxy.cpp:180-200 | a failed write is SDK_INVAL_ARG; otherwise the token and the result code are sent |
| `ServiceChannel.GetExtFileName` | frameworks/native/backup_kit_inner/src/service_proxy.cpp:202-226 | as written: a one-way request whose raw transport code is returned |
| `ServiceChannel.GetExtFileNameCorrected` | frameworks/native/backup_kit_inner/src/service_proxy.cpp:202-226 | a transport failure is SDK_INVAL_ARG, and success is OK exactly when the transport succeeded |
| `ServiceChannel.GetExtFileNameDiscrepancy` | frameworks/native/backup_kit_inner/src/service_proxy.cpp:218-225 | transport code 5 comes back as 5 where SDK_INVAL_ARG is meant |
| `ServiceChannel.ProxyCache.GetInstance` | frameworks/native/backup_kit_inner/src/service_proxy.cpp:228-260 | a cached handle is returned without a lookup; otherwise the handle is only the one a successful load delivers, and every failure leaves the cache empty |
| `ServiceChannel.LoadCallback.OnLoadSystemAbilitySuccess` | frameworks/native/backup_kit_inner/src/service_proxy.cpp:262-271 | caches the delivered handle and marks the load successful |
| `ServiceChannel.LoadCallback.OnLoadSystemAbilityFail` | frameworks/native/backup_kit_inner/src/service_proxy.cpp:273-280 | empties the cache and marks the load failed |
| `ServiceChannel.GetInstanceTwice` | frameworks/native/backup_kit_inner/src/service_proxy.cpp:228-260 | after one successful load a second call returns the same handle without a lookup; after a failed load the second call looks up again |
| `FileShare.FindFrom` | interfaces/innerkits/native/file_share/src/file_share.cpp:102-119 | `find` returns the first occurrence at or after the start, or none |
| `FileShare.ReplaceFirstEffect` | interfaces/innerkits/native/file_share/src/file_share.cpp:102-124 | replacing at the first occurrence keeps the text before it, puts the replacement in place of the pattern and keeps the rest; without an occurrence nothing changes |
| `FileShare.FindChar` | interfaces/innerkits/native/file_share/src/file_share.cpp:216 | the first '/' at or after the start, or none |
| `FileShare.ParentOf` | interfaces/innerkits/native/file_share/src/file_share.cpp:238-240 | everything before the last '/', a prefix of the path |
| `FileShare.NatToString` | interfaces/innerkits/native/file_share/src/file_share.cpp:53 | the user id in decimal: non-empty digits, no leading zero, denoting exactly the number |
| `FileShare.TargetInfo` | interfaces/innerkits/native/file_share/src/file_share.cpp:44-55 | a failed token lookup returns its code; otherwise the caller's bundle name and user id |
| `FileShare.LowerPath` | interfaces/innerkits/native/file_share/src/file_share.cpp:96-127 | an empty head is -EINVAL; the user-id and package placeholders are replaced; for the DLP manager a missing pid is -EINVAL, and otherwise the pid without its last character replaces the pid placeholder |
| `FileShare.GetLowerPath` | interfaces/innerkits/native/file_share/src/file_share.cpp:96-127 | on success sets exactly the lower path, as `LowerPath`; on failure changes nothing |
| `FileShare.FirstSandboxFrom` | interfaces/innerkits/native/file_share/src/file_share.cpp:135-145 | the first sandbox prefix of the URI path in table order, or none |
| `FileShare.ProviderPath` | interfaces/innerkits/native/file_share/src/file_share.cpp:129-155 | no sandbox prefix is -EINVAL; otherwise the lower path of the first prefix with the rest of the URI path |
| `FileShare.GetProviderPath` | interfaces/innerkits/native/file_share/src/file_share.cpp:129-155 | on success sets the lower and the sandbox path as `ProviderPath`; on failure changes nothing |
| `FileShare.SharePaths` | interfaces/innerkits/native/file_share/src/file_share.cpp:157-172 | write permission gives the read-write then the read path; read permission alone the read path; neither gives no path |
| `FileShare.ReadAndReadWritePathsDiffer` | interfaces/innerkits/native/file_share/src/file_share.cpp:159-162 | the read and the read-write share path of one URI never coincide |
| `FileShare.GetSharePath` | interfaces/innerkits/native/file_share/src/file_share.cpp:157-172 | appends the selected share paths, each marked as not existing |
| `FileShare.GetShareFileType` | interfaces/innerkits/native/file_share/src/file_share.cpp:174-184 | a regular file or a directory is recorded as such; anything else is -ENOENT and changes nothing |
| `FileShare.ShareInfoOf` | interfaces/innerkits/native/file_share/src/file_share.cpp:186-209 | a failed token lookup returns its code unchanged; otherwise the result is 0 exactly when the lower path resolves and exists, and then the info holds target, user, provider, paths and type |
| `FileShare.GetFileShareInfo` | interfaces/innerkits/native/file_share/src/file_share.cpp:186-209 | fills the share information as `ShareInfoOf` |
| `FileShare.MakeDir` | interfaces/innerkits/native/file_share/src/file_share.cpp:211-232 | walks the prefixes of the path, creating each missing one, as `MkdirAll` over `DirPrefixes` |
| `FileShare.MkdirAllEffect` | interfaces/innerkits/native/file_share/src/file_share.cpp:211-232 | only directories are added, and only visited ones that could be created; on success every prefix exists |
| `FileShare.MkdirAllFailure` | interfaces/innerkits/native/file_share/src/file_share.cpp:223-227 | a failure names a prefix that was missing and could not be created at its first visit |
| `FileShare.MkdirAllBlocked` | interfaces/innerkits/native/file_share/src/file_share.cpp:223-227 | conversely, such a prefix makes the walk fail |
| `FileShare.PrefixesFrom` | interfaces/innerkits/native/file_share/src/file_share.cpp:215-229 | the walk visits, in strictly increasing length, the prefix ending before every '/' at or after the start position, each visit but the last ending just before such a '/', and ends with the whole path |
| `FileShare.PrefixesArePrefixes` | interfaces/innerkits/native/file_share/src/file_share.cpp:215-221 | every directory visited is a prefix of the path |
| `FileShare.DirPrefixesExample` | interfaces/innerkits/native/file_share/src/file_share.cpp:211-232 | "/a/b/c" visits "/a", "/a/b", "/a/b/c" |
| `FileShare.Prepare` | interfaces/innerkits/native/file_share/src/file_share.cpp:234-251 | every path is handled exactly when the preparation succeeds |
| `FileShare.PrepareEffect` | interfaces/innerkits/native/file_share/src/file_share.cpp:234-251 | the preparation returns 0 or -errno and only adds directories, each of them creatable |
| `FileShare.PrepareSucceeds` | interfaces/innerkits/native/file_share/src/file_share.cpp:234-251 | the preparation succeeds whenever every directory above every share path exists or can be created |
| `FileShare.PrepareMarks` | interfaces/innerkits/native/file_share/src/file_share.cpp:236-248 | a path that existed is marked, and a marked path exists afterwards |
| `FileShare.PrepareParents` | interfaces/innerkits/native/file_share/src/file_share.cpp:236-244 | for each unmarked path every directory above it exists afterwards |
| `FileShare.PreparePreShareDir` | interfaces/innerkits/native/file_share/src/file_share.cpp:234-251 | result and new file system are those of `Prepare`; each existence flag ends up set exactly when it was set before or `Prepare` marks its path; nothing else in the info changes |
| `FileShare.CreateAll` | interfaces/innerkits/native/file_share/src/file_share.cpp:265-287 | the creation loop returns 0 or -errno, and 0 exactly when every unmarked path can be created and mounted on |
| `FileShare.CreateAllEffect` | interfaces/innerkits/native/file_share/src/file_share.cpp:265-287 | nothing is removed; every new mount is an unmarked share path mounted from the lower path; on success every unmarked path is a file or a directory as the type says, and is so mounted |
| `FileShare.CreateSharePaths` | interfaces/innerkits/native/file_share/src/file_share.cpp:265-287 | the loop computes `CreateAll` |
| `FileShare.PrepareAndCreateEffect` | interfaces/innerkits/native/file_share/src/file_share.cpp:260-290 | preparation then creation returns 0 or -errno; new mounts are share paths from the lower path; it succeeds when the directories above the share paths and the share paths themselves can be made (and mounted on); success means every share path existed or was creatable, and leaves every share path existing, those created as a file or a directory by type |
| `FileShare.CreateShare` | interfaces/innerkits/native/file_share/src/file_share.cpp:253-263 | a failed lookup returns its code and touches nothing |
| `FileShare.CreateShareEffect` | interfaces/innerkits/native/file_share/src/file_share.cpp:253-291 | after a successful lookup: 0 or -errno, nothing removed, new mounts only on the selected share paths from the provider's lower path; it succeeds when their parent directories and the paths themselves can be made and mounted on; success means each share path existed or was creatable, leaves all of them existing, and creates each one as a file or a directory according to the URI's type |
| `FileShare.CreateShareFile` | interfaces/innerkits/native/file_share/src/file_share.cpp:253-291 | result and new file system are those of `CreateShare` |
| `FileShare.UmountDel` | interfaces/innerkits/native/file_share/src/file_share.cpp:293-316 | nothing is created; every share path of every URI is afterwards unmounted or gone unless its detaching is refused, and gone unless its removal is refused; every other path keeps its file, directory and mount |
| `FileShare.UmountRemoveEffect` | interfaces/innerkits/native/file_share/src/file_share.cpp:303-314 | detaching and removing one path releases it, removes it unless refused, and leaves every other path as it was |
| `FileShare.ReleasedStays` | interfaces/innerkits/native/file_share/src/file_share.cpp:293-316 | a released and removed path stays so through later deletions |
| `FileShare.UmountDelUris` | interfaces/innerkits/native/file_share/src/file_share.cpp:293-316 | the loop computes `UmountDel` |
| `FileShare.DeleteShareFile` | interfaces/innerkits/native/file_share/src/file_share.cpp:318-330 | an unknown caller token is -EINVAL and touches nothing; otherwise 0, whatever detaching and removal did |

## Left out

- **`BError` numeric values.** The enumeration's header is not part of this
  model, so the values of `BError::Codes` are placeholders. The proofs use
  only that OK is 0 and that all values are distinct from one another and
  from the errno values.
- **`BError::what()` text** (b_error_test.cpp:172-177): the message text is
  not modelled.
- **`BFileInfo` parcel framing.** The implementation of
  `Marshalling`/`ReadFromParcel` is not part of this model. Its three
  fields are written and read in declaration order, as the unit tests
  require.
- **Parcel write failures.** The IPC parcel library is not part of this
  model. A parcel is a sequence of typed items with a read cursor, and a
  write fails exactly when a fixed capacity is reached. That capacity is
  each call's oracle for write failure.
- **Extension stub opcodes and descriptor.** `IExtension`'s request-code
  values and its descriptor string are placeholders, because the interface
  header is not part of this model.
- **Service request codes and descriptor.** The service's request codes and
  its descriptor string are likewise placeholders.
- **JSON parsing and `GetJSonSource`.** The parser is not modelled: a
  document is given as its parse result. The two `GetJSonSource` tests
  (b_json_entity_extension_config_test.cpp:323-379) read files through the
  process runner; file I/O and `BProcess` are not part of this model.
- **JSON arrays of non-strings**: they are read as non-arrays.
- **The JavaScript runtime.** Module loading is an oracle function. A hook
  either runs or raises, and its JS return value is not modelled.
- **Outside services.** The tar engine, the resource manager and
  `GetPidFromProcessName` (which runs a shell command) are oracles. In
  `ExtBackupJs` the outcome of each service load is an oracle; a handle
  loaded once is cached for the rest of the process and reused.
- **Load timing in `ServiceProxy::GetInstance`.** The threading, the mutex,
  the condition variable and the load timeout are not modelled. The
  callback's outcome is an input: success with a handle, failure, or no
  callback before the timeout.
- **Abilities not inherited by `ExtBackupJs`.** `OnStart` and `Create` only
  log or delegate to the ability framework.
- **File system.** `access`, `stat`, `mkdir`, `creat`, `mount`, `umount2`
  and `remove` act on a value `Fs` of files, directories and mounts.
  - Paths are compared as strings, with no normalisation.
  - Creation is refused for the paths in `denied`, and mounting for those
    in `mountDenied`.
  - Every failure reports the same `errno`.
- FileShare.CreateSharePaths: models `creat`/`mkdir` of a share path as
  always creating it. Creating over an entry that appeared after the
  preparation step is not modelled; the paths it creates did not exist
  when `PreparePreShareDir` checked them.
- FileShare.UmountDel: `remove` of a non-empty directory is not modelled
  separately. It fails only through `denied`.
- FileShare.DeleteShareFile: `GetAuthority`/`GetPath` of the URI class
  are not modelled. A URI is given already split into authority and path.
- JsonConfig.GetIncludes: the extension configuration's `includes` key
  follows the same rule as `includeDirs`: an explicitly empty array reads
  as [""]. The source's documentation and tests do not settle this case
  for `includes`, so the model chooses it.
- ExtBackup.ExtBackupJs.GetInstance: keeps only whether a handle is
  delivered, from the cache or from a load whose outcome is an input. The
  load protocol itself is `ServiceChannel.ProxyCache.GetInstance`; the two
  are separate abstractions of `ServiceProxy::GetInstance`, and no lemma
  connects them.
- ServiceChannel.Negate32: the source negates an `int32_t`, which
  overflows for INT_MIN. The model keeps INT_MIN.

Where the source and its own documentation differ, the model follows the
source:

- `OnRemoteRequest` checks the request code before the interface token.
- A missing ability in `Verify` throws EXT_INVAL_ARG.
- An action other than BACKUP or RESTORE leaves the result at EPERM.

One rule comes from the documentation alone, because the parsing code is
not part of this model: an explicitly empty `includeDirs` array reads as
[""] (an empty package), as the doc comment of
b_json_entity_usr_config.h:29 says. So the default substitution in
`HandleBackup` (ext_backup_js.cpp:122-126) never applies to a configured
list (`ExtBackup.ConfiguredIncludesNeedNoDefault`).

## Findings

| source | as written | input that shows it | evidently intended | confidence | as-written member | corrected member |
|---|---|---|---|---|---|---|
| frameworks/native/backup_kit_inner/src/service_proxy.cpp:218-225 | on a transport failure `GetExtFileName` builds `BError(SDK_INVAL_ARG, …)` and discards it, then returns the raw transport code | `SendRequest` returning 5 makes the call return 5 | report SDK_INVAL_ARG as every other proxy call does | not executed | `ServiceChannel.GetExtFileName`, `ServiceChannel.GetExtFileNameDiscrepancy` | `ServiceChannel.GetExtFileNameCorrected` |
