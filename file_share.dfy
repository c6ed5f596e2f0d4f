/**
 * The file-share path logic: a URI in a provider application's sandbox is
 * mapped to the provider's lower path, share paths for the target
 * application are derived from the permission flags, the missing parent
 * directories are created, and each share path is created and bind-mounted
 * from the lower path. The file system is a value: the paths that exist as
 * files or directories, the bind mounts, and the paths at which creating a
 * file or directory, or mounting, fails (all failures report one `errno`).
 */
module FileShare {
  import opened Base

  // ---------------------------------------------------------------------
  // Constants. The header that declares them is not part of this model:
  // the values below are placeholders, and the proofs do not depend on them.

  const CURRENT_USER_ID_FLAG := "<currentUserId>"
  const PACKAGE_NAME_FLAG := "<PackageName>"
  const PID_FLAG := "<PID>"
  const DLP_MANAGER_BUNDLE_NAME := "com.ohos.dlpmanager"

  /** Sandbox prefixes and, at the same index, the lower path each maps to. */
  const SANDBOX_PATH: seq<string> := ["/data/storage/el2/base", "/data/storage/el2/database"]
  const LOWER_PATH: seq<string> := [
    "/mnt/hmdfs/<currentUserId>/account/merge_view/data/<PackageName>",
    "/mnt/hmdfs/<currentUserId>/account/merge_view/database/<PackageName>"
  ]

  const DATA_APP_EL2_PATH := "/data/service/el2/"
  const SHARE_PATH := "/share/"
  const SHARE_R_PATH := "/r/"
  const SHARE_RW_PATH := "/rw/"

  /** The URI permission bits of the share request. */
  const READ_URI_PERMISSION: bv32 := 0x1
  const WRITE_URI_PERMISSION: bv32 := 0x2

  // ---------------------------------------------------------------------
  // String search

  predicate MatchesAt(s: string, pat: string, k: nat)
  {
    k + |pat| <= |s| && s[k..k + |pat|] == pat
  }

  /** `s.find(pat, from)`: the first occurrence of `pat` at or after `from`. */
  function FindFrom(s: string, pat: string, from: nat): (r: Option<nat>)
    decreases |s| - from
    ensures r.Some? ==> from <= r.value && MatchesAt(s, pat, r.value)
                        && forall j :: from <= j < r.value ==> !MatchesAt(s, pat, j)
    ensures r.None? ==> forall j :: from <= j ==> !MatchesAt(s, pat, j)
  {
    if from + |pat| > |s| then None
    else if s[from..from + |pat|] == pat then Some(from)
    else FindFrom(s, pat, from + 1)
  }

  /** `s.find(pat)`. */
  function Find(s: string, pat: string): Option<nat>
  {
    FindFrom(s, pat, 0)
  }

  /** `s.replace(s.find(pat), |pat|, rep)` when `pat` occurs; `s` otherwise. */
  function ReplaceFirst(s: string, pat: string, rep: string): string
  {
    match Find(s, pat)
    case None => s
    case Some(k) => s[..k] + rep + s[k + |pat|..]
  }

  /**
   * Without an occurrence nothing changes; otherwise the text before the
   * first occurrence is kept, `rep` takes the place of `pat` and the rest
   * follows unchanged.
   */
  lemma ReplaceFirstEffect(s: string, pat: string, rep: string)
    ensures var r := ReplaceFirst(s, pat, rep);
            (Find(s, pat).None? ==> r == s)
            && (Find(s, pat).Some? ==>
                  var k := Find(s, pat).value;
                  |r| == |s| - |pat| + |rep|
                  && r[..k] == s[..k] && r[k..k + |rep|] == rep && r[k + |rep|..] == s[k + |pat|..])
  {
    match Find(s, pat)
    case None =>
    case Some(k) =>
      var r := s[..k] + rep + s[k + |pat|..];
      assert r[..k] == s[..k] && r[k..k + |rep|] == rep && r[k + |rep|..] == s[k + |pat|..];
  }

  /** `s.find(c, from)` for one character. */
  function FindChar(s: string, c: char, from: nat): (r: Option<nat>)
    decreases |s| - from
    ensures r.Some? ==> from <= r.value < |s| && s[r.value] == c
                        && forall j :: from <= j < r.value ==> s[j] != c
    ensures r.None? ==> forall j :: from <= j < |s| ==> s[j] != c
  {
    if from >= |s| then None
    else if s[from] == c then Some(from)
    else FindChar(s, c, from + 1)
  }

  /** `s.substr(0, s.find_last_of("/"))`: everything before the last '/', or `s` when it has none. */
  function ParentOf(s: string): (r: string)
    ensures r <= s
    ensures r != s ==> s[|r|] == '/' && forall j :: |r| < j < |s| ==> s[j] != '/'
    ensures r == s ==> forall j :: 0 <= j < |s| ==> s[j] != '/'
  {
    if s == [] then s
    else if s[|s| - 1] == '/' then s[..|s| - 1]
    else
      var p := ParentOf(s[..|s| - 1]);
      if p == s[..|s| - 1] then s else p
  }

  /** The number a string of decimal digits denotes, most significant first. */
  function DigitsValue(s: string): nat
  {
    if s == [] then 0
    else
      var d := s[|s| - 1] as int - '0' as int;
      DigitsValue(s[..|s| - 1]) * 10 + (if 0 <= d then d else 0)
  }

  /** The decimal text of a natural number: digits without a leading zero that denote `n`. */
  function NatToString(n: nat): (r: string)
    ensures r != [] && forall j :: 0 <= j < |r| ==> '0' <= r[j] <= '9'
    ensures DigitsValue(r) == n
    ensures |r| > 1 ==> r[0] != '0'
  {
    var d := ['0' + (n % 10) as char];
    if n < 10 then d
    else
      var r := NatToString(n / 10) + d;
      assert r[..|r| - 1] == NatToString(n / 10);
      r
  }

  /** `std::to_string` of an int. */
  function IntToString(n: int32): string
  {
    if n < 0 then "-" + NatToString(-(n as int)) else NatToString(n as nat)
  }

  // ---------------------------------------------------------------------
  // The file system

  /** An `errno` value reported by a failing call; never 0. */
  type Errno = e: int32 | 0 < e witness 1

  datatype Fs = Fs(
    files: set<string>,
    dirs: set<string>,
    mounts: map<string, string>,
    denied: set<string>,
    mountDenied: set<string>,
    errno: Errno)

  /** `access(path, F_OK) == 0`. */
  predicate Exists(fs: Fs, path: string)
  {
    path in fs.files || path in fs.dirs
  }

  /** Whether `mkdir` or `creat` succeeds on a missing path. */
  predicate CanCreate(fs: Fs, path: string)
  {
    path != "" && path !in fs.denied
  }

  /** `fs2` has everything `fs1` has, with the same failure oracles. */
  predicate Grows(fs1: Fs, fs2: Fs)
  {
    fs1.files <= fs2.files && fs1.dirs <= fs2.dirs && fs1.mounts.Keys <= fs2.mounts.Keys
    && (forall t :: t in fs1.mounts ==> fs2.mounts[t] == fs1.mounts[t])
    && fs2.denied == fs1.denied && fs2.mountDenied == fs1.mountDenied && fs2.errno == fs1.errno
  }

  // ---------------------------------------------------------------------
  // MakeDir

  /** The paths `MakeDir` visits from `from`: each prefix ending before a '/' found at or after `from`, then the whole path. */
  function PrefixesFrom(path: string, from: nat): (r: seq<string>)
    decreases |path| - from
    ensures r != [] && r[|r| - 1] == path
    ensures forall k :: 0 <= k < |r| - 1 ==> from <= |r[k]| < |path| && path[|r[k]|] == '/'
    ensures forall a, b :: 0 <= a < b < |r| ==> |r[a]| < |r[b]|
    ensures forall i {:trigger path[..i]} :: from <= i < |path| && path[i] == '/' ==> path[..i] in r
  {
    match FindChar(path, '/', from)
    case None => [path]
    case Some(i) => [path[..i]] + PrefixesFrom(path, i + 1)
  }

  /** The paths `MakeDir` visits: every prefix ending just before a '/' at position 1 or later, then the whole path. */
  function DirPrefixes(path: string): seq<string>
  {
    PrefixesFrom(path, 1)
  }

  /** Creates each missing path in turn, stopping with false at the first that cannot be created. */
  function MkdirAll(paths: seq<string>, fs: Fs): (r: (bool, Fs))
  {
    if paths == [] then (true, fs)
    else if Exists(fs, paths[0]) then MkdirAll(paths[1..], fs)
    else if CanCreate(fs, paths[0]) then MkdirAll(paths[1..], fs.(dirs := fs.dirs + {paths[0]}))
    else (false, fs)
  }

  /** `MkdirAll` only adds directories, only visited ones, and on success every visited path exists. */
  lemma {:induction false} MkdirAllEffect(paths: seq<string>, fs: Fs)
    ensures Grows(fs, MkdirAll(paths, fs).1)
    ensures MkdirAll(paths, fs).1.files == fs.files && MkdirAll(paths, fs).1.mounts == fs.mounts
    ensures forall d :: d in MkdirAll(paths, fs).1.dirs ==> d in fs.dirs || (d in paths && CanCreate(fs, d))
    ensures MkdirAll(paths, fs).0 ==> forall k :: 0 <= k < |paths| ==> Exists(MkdirAll(paths, fs).1, paths[k])
  {
    if paths != [] && (Exists(fs, paths[0]) || CanCreate(fs, paths[0])) {
      var fs' := if Exists(fs, paths[0]) then fs else fs.(dirs := fs.dirs + {paths[0]});
      MkdirAllEffect(paths[1..], fs');
      var r := MkdirAll(paths[1..], fs').1;
      forall k | 0 <= k < |paths| && MkdirAll(paths, fs).0
        ensures Exists(r, paths[k])
      {
        if k > 0 { assert paths[k] == paths[1..][k - 1]; }
      }
    }
  }

  /** A failing `MkdirAll` names the visited path, at its first visit, that was missing and could not be created. */
  lemma {:induction false} MkdirAllFailure(paths: seq<string>, fs: Fs) returns (k: nat)
    requires !MkdirAll(paths, fs).0
    ensures k < |paths| && !Exists(fs, paths[k]) && !CanCreate(fs, paths[k])
    ensures forall j :: 0 <= j < k ==> paths[j] != paths[k]
  {
    if Exists(fs, paths[0]) || CanCreate(fs, paths[0]) {
      var fs' := if Exists(fs, paths[0]) then fs else fs.(dirs := fs.dirs + {paths[0]});
      var k' := MkdirAllFailure(paths[1..], fs');
      k := k' + 1;
      assert paths[k] == paths[1..][k'];
      forall j | 0 <= j < k ensures paths[j] != paths[k] {
        if j > 0 { assert paths[j] == paths[1..][j - 1]; }
      }
    } else {
      k := 0;
    }
  }

  /** Conversely, a visited path that is missing and cannot be created at its first visit makes `MkdirAll` fail. */
  lemma {:induction false} MkdirAllBlocked(paths: seq<string>, fs: Fs, k: nat)
    requires k < |paths| && !Exists(fs, paths[k]) && !CanCreate(fs, paths[k])
    requires forall j :: 0 <= j < k ==> paths[j] != paths[k]
    ensures !MkdirAll(paths, fs).0
  {
    if k > 0 && (Exists(fs, paths[0]) || CanCreate(fs, paths[0])) {
      var fs' := if Exists(fs, paths[0]) then fs else fs.(dirs := fs.dirs + {paths[0]});
      assert paths[1..][k - 1] == paths[k];
      forall j | 0 <= j < k - 1 ensures paths[1..][j] != paths[1..][k - 1] {
        assert paths[1..][j] == paths[j + 1];
      }
      MkdirAllBlocked(paths[1..], fs', k - 1);
    }
  }



  /**
   * `MakeDir`: walks the prefixes of `path` in increasing length, creating
   * each missing one, and stops with false at the first that cannot be
   * created.
   */
  method MakeDir(path: string, fs0: Fs) returns (ok: bool, fs: Fs)
    ensures (ok, fs) == MkdirAll(DirPrefixes(path), fs0)
  {
    var index: nat := 0;
    fs := fs0;
    while true
      invariant index <= |path|
      invariant MkdirAll(PrefixesFrom(path, index + 1), fs) == MkdirAll(DirPrefixes(path), fs0)
      decreases |path| - index
    {
      var found := FindChar(path, '/', index + 1);
      var subPath := if found.None? then path else path[..found.value];
      MakeDirStep(path, index + 1, fs);
      if !Exists(fs, subPath) {
        if !CanCreate(fs, subPath) {
          return false, fs;
        }
        fs := fs.(dirs := fs.dirs + {subPath});
      }
      if found.None? {
        return true, fs;
      }
      index := found.value;
    }
  }

  /** One step of `MakeDir`: the next prefix is handled, then the walk continues after the '/' that ended it. */
  lemma MakeDirStep(path: string, from: nat, fs: Fs)
    ensures var found := FindChar(path, '/', from);
            var sub := if found.None? then path else path[..found.value];
            var fs1 := if Exists(fs, sub) then fs else fs.(dirs := fs.dirs + {sub});
            MkdirAll(PrefixesFrom(path, from), fs) ==
              if !Exists(fs, sub) && !CanCreate(fs, sub) then (false, fs)
              else if found.None? then (true, fs1)
              else MkdirAll(PrefixesFrom(path, found.value + 1), fs1)
  {
    var found := FindChar(path, '/', from);
    var sub := if found.None? then path else path[..found.value];
    var rest := if found.None? then [] else PrefixesFrom(path, found.value + 1);
    assert PrefixesFrom(path, from) == [sub] + rest;
    MkdirAllCons(sub, rest, fs);
  }

  /** `MkdirAll` handles the first path, then the rest. */
  lemma MkdirAllCons(p: string, rest: seq<string>, fs: Fs)
    ensures MkdirAll([p] + rest, fs) ==
              if !Exists(fs, p) && !CanCreate(fs, p) then (false, fs)
              else MkdirAll(rest, if Exists(fs, p) then fs else fs.(dirs := fs.dirs + {p}))
  {
    assert ([p] + rest)[1..] == rest;
  }

  /** Every directory `MakeDir` visits is a prefix of the path, the last being the path itself. */
  lemma {:induction false} PrefixesArePrefixes(path: string, from: nat)
    decreases |path| - from
    ensures forall k :: 0 <= k < |PrefixesFrom(path, from)| ==> PrefixesFrom(path, from)[k] <= path
  {
    match FindChar(path, '/', from)
    case None =>
    case Some(i) =>
      PrefixesArePrefixes(path, i + 1);
      var rest := PrefixesFrom(path, i + 1);
      assert PrefixesFrom(path, from) == [path[..i]] + rest;
  }

  /** The prefixes of "/a/b/c" that `MakeDir` creates, in order. */
  lemma DirPrefixesExample()
    ensures DirPrefixes("/a/b/c") == ["/a", "/a/b", "/a/b/c"]
  {
    assert FindChar("/a/b/c", '/', 1) == Some(2);
    assert FindChar("/a/b/c", '/', 3) == Some(4);
    assert FindChar("/a/b/c", '/', 5) == None;
    assert "/a/b/c"[..2] == "/a" && "/a/b/c"[..4] == "/a/b";
  }

  // ---------------------------------------------------------------------
  // The share request

  /** A URI as (authority, path); the authority is the provider's bundle name. */
  datatype Uri = Uri(authority: string, path: string)

  /** What the access-token service says about a token. */
  datatype HapInfo = HapInfo(result: int32, bundleName: string, userID: int32)

  /**
   * The services the share logic consults: the access-token lookup, and the
   * first line the process lookup prints for the DLP manager (with its line
   * end), "" when it prints nothing.
   */
  datatype Env = Env(hapInfo: uint32 -> HapInfo, dlpPid: string)

  datatype ShareFileType = FILE_TYPE | DIR_TYPE

  /** A path, or the negative errno that stopped its computation. */
  datatype PathResult = PathOk(path: string) | PathErr(code: int32)

  /** The fields of `FileShareInfo` as a value. */
  datatype ShareInfo = ShareInfo(
    providerBundleName: string,
    targetBundleName: string,
    providerLowerPath: string,
    providerSandboxPath: string,
    sharePath: seq<string>,
    isExist: seq<bool>,
    currentUid: string,
    fileType: Option<ShareFileType>)

  function BlankInfo(): ShareInfo
  {
    ShareInfo("", "", "", "", [], [], "", None)
  }

  /** `GetTargetInfo`: the target's bundle name and user id as text, or the lookup's failure. */
  function TargetInfo(tokenId: uint32, env: Env): (r: (int32, string, string))
    ensures r.0 == env.hapInfo(tokenId).result
    ensures r.0 == 0 ==> r.1 == env.hapInfo(tokenId).bundleName && r.2 == IntToString(env.hapInfo(tokenId).userID)
  {
    var hap := env.hapInfo(tokenId);
    if hap.result != 0 then (hap.result, "", "") else (0, hap.bundleName, IntToString(hap.userID))
  }

  /** The lower path head with the user id and the package name put in for their first placeholders. */
  function Substituted(head: string, uid: string, bundle: string): string
  {
    ReplaceFirst(ReplaceFirst(head, CURRENT_USER_ID_FLAG, uid), PACKAGE_NAME_FLAG, bundle)
  }

  /**
   * `GetLowerPath` on values: an empty head is -EINVAL; the first user-id and
   * package placeholders are replaced; for the DLP manager only, a missing pid
   * is -EINVAL and otherwise the pid without its last character replaces the
   * first pid placeholder; the tail is appended.
   */
  function LowerPath(head: string, tail: string, uid: string, bundle: string, pid: string): (r: PathResult)
    ensures head == [] ==> r == PathErr(-EINVAL)
    ensures head != [] && bundle == DLP_MANAGER_BUNDLE_NAME && pid == [] ==> r == PathErr(-EINVAL)
    ensures head != [] && bundle != DLP_MANAGER_BUNDLE_NAME ==> r == PathOk(Substituted(head, uid, bundle) + tail)
    ensures head != [] && bundle == DLP_MANAGER_BUNDLE_NAME && pid != [] ==>
              r == PathOk(ReplaceFirst(Substituted(head, uid, bundle), PID_FLAG, pid[..|pid| - 1]) + tail)
  {
    if head == [] then PathErr(-EINVAL)
    else
      var h := Substituted(head, uid, bundle);
      if bundle == DLP_MANAGER_BUNDLE_NAME then
        if pid == [] then PathErr(-EINVAL)
        else if Find(h, PID_FLAG).Some? then PathOk(ReplaceFirst(h, PID_FLAG, pid[..|pid| - 1]) + tail)
        else PathOk(h + tail)
      else PathOk(h + tail)
  }

  /** The first sandbox prefix of `path` at index `i` or later. */
  function FirstSandboxFrom(path: string, i: nat): (r: Option<nat>)
    decreases |SANDBOX_PATH| - i
    ensures r.Some? ==> i <= r.value < |SANDBOX_PATH| && SANDBOX_PATH[r.value] <= path
                        && forall j :: i <= j < r.value ==> !(SANDBOX_PATH[j] <= path)
    ensures r.None? ==> forall j :: i <= j < |SANDBOX_PATH| ==> !(SANDBOX_PATH[j] <= path)
  {
    if i >= |SANDBOX_PATH| then None
    else if SANDBOX_PATH[i] <= path then Some(i)
    else FirstSandboxFrom(path, i + 1)
  }

  /**
   * `GetProviderPath` on values: the lower path built from the first sandbox
   * prefix's lower path and the rest of the URI path; no prefix is -EINVAL.
   */
  function ProviderPath(path: string, uid: string, bundle: string, pid: string): (r: PathResult)
    ensures FirstSandboxFrom(path, 0).None? ==> r == PathErr(-EINVAL)
    ensures FirstSandboxFrom(path, 0).Some? ==>
              var k := FirstSandboxFrom(path, 0).value;
              r == LowerPath(LOWER_PATH[k], path[|SANDBOX_PATH[k]|..], uid, bundle, pid)
  {
    match FirstSandboxFrom(path, 0)
    case None => LowerPath("", "", uid, bundle, pid)
    case Some(k) => LowerPath(LOWER_PATH[k], path[|SANDBOX_PATH[k]|..], uid, bundle, pid)
  }

  /** One share path of the target for a provider's sandbox path; `mode` is SHARE_R_PATH or SHARE_RW_PATH. */
  function SharePathOf(uid: string, target: string, mode: string, provider: string, sandbox: string): string
  {
    DATA_APP_EL2_PATH + uid + SHARE_PATH + target + mode + provider + sandbox
  }

  /**
   * `GetSharePath` on values: the write bit gives the read-write path and
   * then the read path, the read bit alone the read path, neither nothing.
   */
  function SharePaths(uid: string, target: string, provider: string, sandbox: string, flag: bv32): (r: seq<string>)
    ensures flag & WRITE_URI_PERMISSION == WRITE_URI_PERMISSION ==>
              r == [SharePathOf(uid, target, SHARE_RW_PATH, provider, sandbox), SharePathOf(uid, target, SHARE_R_PATH, provider, sandbox)]
    ensures flag & WRITE_URI_PERMISSION != WRITE_URI_PERMISSION && flag & READ_URI_PERMISSION == READ_URI_PERMISSION ==>
              r == [SharePathOf(uid, target, SHARE_R_PATH, provider, sandbox)]
    ensures flag & (WRITE_URI_PERMISSION | READ_URI_PERMISSION) == 0 ==> r == []
  {
    var shareRPath := SharePathOf(uid, target, SHARE_R_PATH, provider, sandbox);
    var shareRWPath := SharePathOf(uid, target, SHARE_RW_PATH, provider, sandbox);
    if flag & WRITE_URI_PERMISSION == WRITE_URI_PERMISSION then [shareRWPath, shareRPath]
    else if flag & READ_URI_PERMISSION == READ_URI_PERMISSION then [shareRPath]
    else []
  }

  /** The read and the read-write share path of one file are different paths. */
  lemma ReadAndReadWritePathsDiffer(uid: string, target: string, provider: string, sandbox: string)
    ensures SharePathOf(uid, target, SHARE_R_PATH, provider, sandbox) != SharePathOf(uid, target, SHARE_RW_PATH, provider, sandbox)
  {
    var pre := DATA_APP_EL2_PATH + uid + SHARE_PATH + target;
    assert SharePathOf(uid, target, SHARE_R_PATH, provider, sandbox) == pre + (SHARE_R_PATH + provider + sandbox);
    assert SharePathOf(uid, target, SHARE_RW_PATH, provider, sandbox) == pre + (SHARE_RW_PATH + provider + sandbox);
    assert (pre + (SHARE_R_PATH + provider + sandbox))[|pre| + 2] == '/';
    assert (pre + (SHARE_RW_PATH + provider + sandbox))[|pre| + 2] == 'w';
  }

  /** `GetShareFileType`: a regular file first, then a directory, otherwise -ENOENT. */
  function FileTypeOf(path: string, fs: Fs): Option<ShareFileType>
  {
    if path in fs.files then Some(FILE_TYPE) else if path in fs.dirs then Some(DIR_TYPE) else None
  }

  function Falses(n: nat): (r: seq<bool>)
    ensures |r| == n && forall k :: 0 <= k < n ==> !r[k]
  {
    seq(n, _ => false)
  }

  /**
   * `GetFileShareInfo` on values, from `info`: the target lookup's failure,
   * then the provider path's, then -ENOENT for a lower path that is neither
   * a file nor a directory; on success the lower and sandbox paths, the file
   * type, and the share paths with their "already exists" marks all false.
   */
  function ShareInfoOf(uri: Uri, tokenId: uint32, flag: bv32, env: Env, fs: Fs, info: ShareInfo): (r: (int32, ShareInfo))
    ensures TargetInfo(tokenId, env).0 != 0 ==> r == (TargetInfo(tokenId, env).0, info)
    ensures TargetInfo(tokenId, env).0 == 0 ==>
              var t := TargetInfo(tokenId, env);
              var lower := ProviderPath(uri.path, t.2, uri.authority, env.dlpPid);
              (lower.PathErr? ==> r.0 == lower.code) &&
              (lower.PathOk? && FileTypeOf(lower.path, fs).None? ==> r.0 == -ENOENT) &&
              (r.0 == 0 <==> lower.PathOk? && FileTypeOf(lower.path, fs).Some?) &&
              (r.0 == 0 ==>
                 var paths := SharePaths(t.2, t.1, uri.authority, uri.path, flag);
                 r.1 == info.(targetBundleName := t.1, currentUid := t.2, providerBundleName := uri.authority,
                              providerLowerPath := lower.path, providerSandboxPath := uri.path,
                              fileType := FileTypeOf(lower.path, fs),
                              sharePath := info.sharePath + paths, isExist := info.isExist + Falses(|paths|)))
  {
    var (ret, target, uid) := TargetInfo(tokenId, env);
    if ret != 0 then (ret, info)
    else
      var info1 := info.(targetBundleName := target, currentUid := uid, providerBundleName := uri.authority);
      match ProviderPath(uri.path, uid, uri.authority, env.dlpPid)
      case PathErr(code) => (code, info1)
      case PathOk(lower) =>
        var info2 := info1.(providerLowerPath := lower, providerSandboxPath := uri.path);
        match FileTypeOf(lower, fs)
        case None => (-ENOENT, info2)
        case Some(ft) =>
          var paths := SharePaths(uid, target, uri.authority, uri.path, flag);
          (0, info2.(fileType := Some(ft), sharePath := info2.sharePath + paths,
                     isExist := info2.isExist + Falses(|paths|)))
  }

  // ---------------------------------------------------------------------
  // Preparing and creating the share paths

  datatype Prepared = Prepared(ret: int32, marks: seq<bool>, fs: Fs)

  /** `fs2` has every file and directory of `fs1`, the same mounts and the same failure oracles. */
  predicate OnlyDirsAdded(fs1: Fs, fs2: Fs)
  {
    Grows(fs1, fs2) && fs2.files == fs1.files && fs2.mounts == fs1.mounts
  }

  /**
   * `PreparePreShareDir` on values: each share path that already exists is
   * marked; for each other one the directories above it are created, and the
   * first failure stops with -errno. `marks` covers the paths handled.
   */
  function Prepare(paths: seq<string>, fs: Fs): (r: Prepared)
    ensures |r.marks| <= |paths| && (r.ret == 0 <==> |r.marks| == |paths|)
  {
    if paths == [] then Prepared(0, [], fs)
    else if Exists(fs, paths[0]) then
      var rest := Prepare(paths[1..], fs);
      Prepared(rest.ret, [true] + rest.marks, rest.fs)
    else
      var made := MkdirAll(DirPrefixes(ParentOf(paths[0])), fs);
      if !made.0 then Prepared(-(fs.errno as int32), [], made.1)
      else
        var rest := Prepare(paths[1..], made.1);
        Prepared(rest.ret, [false] + rest.marks, rest.fs)
  }

  /** The preparation returns 0 or -errno and only adds directories, each of them creatable. */
  lemma {:induction false} PrepareEffect(paths: seq<string>, fs: Fs)
    ensures var r := Prepare(paths, fs);
            (r.ret == 0 || r.ret == -(fs.errno as int32)) && OnlyDirsAdded(fs, r.fs)
            && forall d :: d in r.fs.dirs ==> d in fs.dirs || CanCreate(fs, d)
  {
    if paths == [] {
    } else if Exists(fs, paths[0]) {
      PrepareEffect(paths[1..], fs);
    } else {
      var made := MkdirAll(DirPrefixes(ParentOf(paths[0])), fs);
      MkdirAllEffect(DirPrefixes(ParentOf(paths[0])), fs);
      if made.0 {
        PrepareEffect(paths[1..], made.1);
      }
    }
  }

  /** Every directory above every path exists or can be created. */
  predicate ParentsCreatable(paths: seq<string>, fs: Fs)
  {
    forall k, q :: 0 <= k < |paths| && q in DirPrefixes(ParentOf(paths[k])) ==> Exists(fs, q) || CanCreate(fs, q)
  }

  /**
   * The preparation succeeds when every directory above every share path
   * exists or can be created; so when it fails, one of them is missing and
   * cannot be created.
   */
  lemma {:induction false} PrepareSucceeds(paths: seq<string>, fs: Fs)
    ensures ParentsCreatable(paths, fs) ==> Prepare(paths, fs).ret == 0
  {
    if paths != [] && ParentsCreatable(paths, fs) {
      assert ParentsCreatable(paths[1..], fs) by {
        forall k, q | 0 <= k < |paths[1..]| && q in DirPrefixes(ParentOf(paths[1..][k]))
          ensures Exists(fs, q) || CanCreate(fs, q)
        {
          assert paths[1..][k] == paths[k + 1];
        }
      }
      if Exists(fs, paths[0]) {
        PrepareSucceeds(paths[1..], fs);
      } else {
        var ds := DirPrefixes(ParentOf(paths[0]));
        var made := MkdirAll(ds, fs);
        if !made.0 {
          var k := MkdirAllFailure(ds, fs);
          assert false;
        }
        MkdirAllEffect(ds, fs);
        assert ParentsCreatable(paths[1..], made.1) by {
          forall k, q | 0 <= k < |paths[1..]| && q in DirPrefixes(ParentOf(paths[1..][k]))
            ensures Exists(made.1, q) || CanCreate(made.1, q)
          {
            assert Exists(fs, q) || CanCreate(fs, q);
          }
        }
        PrepareSucceeds(paths[1..], made.1);
      }
    }
  }

  /**
   * A handled path is marked exactly when it existed at its turn: one that
   * existed beforehand is marked, and a marked one exists afterwards.
   */
  lemma {:induction false} PrepareMarks(paths: seq<string>, fs: Fs)
    ensures var r := Prepare(paths, fs);
            (forall k :: 0 <= k < |r.marks| ==> (Exists(fs, paths[k]) ==> r.marks[k]))
            && (forall k :: 0 <= k < |r.marks| ==> (r.marks[k] ==> Exists(r.fs, paths[k])))
  {
    if paths == [] {
    } else if Exists(fs, paths[0]) {
      PrepareMarks(paths[1..], fs);
      PrepareEffect(paths[1..], fs);
      var r := Prepare(paths, fs);
      forall k | 0 <= k < |r.marks| ensures (Exists(fs, paths[k]) ==> r.marks[k]) && (r.marks[k] ==> Exists(r.fs, paths[k])) {
        if k > 0 { assert paths[k] == paths[1..][k - 1]; }
      }
    } else {
      var made := MkdirAll(DirPrefixes(ParentOf(paths[0])), fs);
      MkdirAllEffect(DirPrefixes(ParentOf(paths[0])), fs);
      if made.0 {
        PrepareMarks(paths[1..], made.1);
        var r := Prepare(paths, fs);
        forall k | 0 <= k < |r.marks| ensures (Exists(fs, paths[k]) ==> r.marks[k]) && (r.marks[k] ==> Exists(r.fs, paths[k])) {
          if k > 0 { assert paths[k] == paths[1..][k - 1]; }
        }
      }
    }
  }

  /** For a handled path that was not marked, every directory above it exists afterwards. */
  lemma {:induction false} PrepareParents(paths: seq<string>, fs: Fs)
    ensures var r := Prepare(paths, fs);
            forall k :: 0 <= k < |r.marks| && !r.marks[k] ==>
              forall q :: q in DirPrefixes(ParentOf(paths[k])) ==> Exists(r.fs, q)
  {
    if paths == [] {
    } else if Exists(fs, paths[0]) {
      PrepareParents(paths[1..], fs);
      var r := Prepare(paths, fs);
      forall k | 0 <= k < |r.marks| && !r.marks[k] ensures forall q :: q in DirPrefixes(ParentOf(paths[k])) ==> Exists(r.fs, q) {
        assert paths[k] == paths[1..][k - 1];
      }
    } else {
      var made := MkdirAll(DirPrefixes(ParentOf(paths[0])), fs);
      MkdirAllEffect(DirPrefixes(ParentOf(paths[0])), fs);
      if made.0 {
        PrepareParents(paths[1..], made.1);
        PrepareEffect(paths[1..], made.1);
        var r := Prepare(paths, fs);
        var rest := Prepare(paths[1..], made.1);
        assert r.fs == rest.fs && r.marks == [false] + rest.marks;
        forall k | 0 <= k < |r.marks| && !r.marks[k] ensures forall q :: q in DirPrefixes(ParentOf(paths[k])) ==> Exists(r.fs, q) {
          if k == 0 {
            forall q | q in DirPrefixes(ParentOf(paths[0])) ensures Exists(r.fs, q) {
              assert Exists(made.1, q);
            }
          } else {
            assert paths[k] == paths[1..][k - 1] && !rest.marks[k - 1];
          }
        }
      }
    }
  }


  /** Files and directories may be added and mounts may change; the failure oracles stay. */
  predicate Extends(fs1: Fs, fs2: Fs)
  {
    fs1.files <= fs2.files && fs1.dirs <= fs2.dirs && fs1.mounts.Keys <= fs2.mounts.Keys
    && fs2.denied == fs1.denied && fs2.mountDenied == fs1.mountDenied && fs2.errno == fs1.errno
  }

  /** The paths that are created and mounted: those not marked as existing. */
  function Unmarked(paths: seq<string>, marks: seq<bool>): set<string>
    requires |marks| == |paths|
  {
    set k | 0 <= k < |paths| && !marks[k] :: paths[k]
  }

  /** Creating and mounting `p` can succeed: it is creatable and mounting on it is not refused. */
  predicate CanShare(fs: Fs, p: string)
  {
    CanCreate(fs, p) && p !in fs.mountDenied
  }

  /**
   * The creation loop of `CreateShareFile` on values: each unmarked path is
   * created as a file or a directory and then bind-mounted from `lower`; the
   * first failure stops with -errno, so the loop succeeds exactly when every
   * unmarked path can be created and mounted on.
   */
  function CreateAll(paths: seq<string>, marks: seq<bool>, ft: ShareFileType, lower: string, fs: Fs): (r: (int32, Fs))
    requires |marks| == |paths|
    ensures r.0 == 0 || r.0 == -(fs.errno as int32)
    ensures r.0 == 0 <==> forall k :: 0 <= k < |paths| && !marks[k] ==> CanShare(fs, paths[k])
  {
    if paths == [] then (0, fs)
    else if marks[0] then CreateAll(paths[1..], marks[1..], ft, lower, fs)
    else
      var p := paths[0];
      if !CanCreate(fs, p) then (-(fs.errno as int32), fs)
      else
        var fs1 := if ft == FILE_TYPE then fs.(files := fs.files + {p}) else fs.(dirs := fs.dirs + {p});
        if p in fs.mountDenied then (-(fs.errno as int32), fs1)
        else CreateAll(paths[1..], marks[1..], ft, lower, fs1.(mounts := fs1.mounts[p := lower]))
  }

  lemma UnmarkedTail(paths: seq<string>, marks: seq<bool>)
    requires |marks| == |paths| && paths != []
    ensures Unmarked(paths[1..], marks[1..]) <= Unmarked(paths, marks)
  {
    forall t | t in Unmarked(paths[1..], marks[1..]) ensures t in Unmarked(paths, marks) {
      var k :| 0 <= k < |paths[1..]| && !marks[1..][k] && paths[1..][k] == t;
      assert paths[k + 1] == t && !marks[k + 1];
    }
  }

  /** Where a share path of type `ft` is created: among the files or among the directories. */
  function OfType(fs: Fs, ft: ShareFileType): set<string>
  {
    if ft == FILE_TYPE then fs.files else fs.dirs
  }

  /**
   * What the creation loop guarantees: paths are only added and the failure
   * oracles stay; a mount is either an old one or an unmarked path mounted
   * from `lower`; on success every unmarked path is a file or a directory
   * as `ft` says and is mounted from `lower`.
   */
  lemma {:induction false} CreateAllEffect(paths: seq<string>, marks: seq<bool>, ft: ShareFileType, lower: string, fs: Fs)
    requires |marks| == |paths|
    ensures var r := CreateAll(paths, marks, ft, lower, fs);
            Extends(fs, r.1)
            && (forall t :: t in r.1.mounts ==>
                  (t in fs.mounts && r.1.mounts[t] == fs.mounts[t]) || (t in Unmarked(paths, marks) && r.1.mounts[t] == lower))
            && (r.0 == 0 ==> forall k :: 0 <= k < |paths| && !marks[k] ==>
                  paths[k] in OfType(r.1, ft) && paths[k] in r.1.mounts && r.1.mounts[paths[k]] == lower)
  {
    if paths == [] {
    } else if marks[0] {
      var r := CreateAll(paths[1..], marks[1..], ft, lower, fs);
      CreateAllEffect(paths[1..], marks[1..], ft, lower, fs);
      UnmarkedTail(paths, marks);
      assert r.0 == 0 ==> forall k :: 1 <= k < |paths| && !marks[k] ==> paths[k] == paths[1..][k - 1] && !marks[1..][k - 1];
    } else {
      var p := paths[0];
      if CanCreate(fs, p) {
        var fs1 := if ft == FILE_TYPE then fs.(files := fs.files + {p}) else fs.(dirs := fs.dirs + {p});
        if p !in fs.mountDenied {
          var fs2 := fs1.(mounts := fs1.mounts[p := lower]);
          var r := CreateAll(paths[1..], marks[1..], ft, lower, fs2);
          CreateAllEffect(paths[1..], marks[1..], ft, lower, fs2);
          assert p in Unmarked(paths, marks);
          UnmarkedTail(paths, marks);
          assert r.0 == 0 ==> forall k :: 1 <= k < |paths| && !marks[k] ==> paths[k] == paths[1..][k - 1] && !marks[1..][k - 1];
        }
      }
    }
  }

  /** The preparation followed by the creation loop, for any share paths. */
  function PrepareAndCreate(paths: seq<string>, ft: ShareFileType, lower: string, fs: Fs): (int32, Fs)
  {
    var p := Prepare(paths, fs);
    if p.ret != 0 then (p.ret, p.fs) else CreateAll(paths, p.marks, ft, lower, p.fs)
  }

  /** Every path exists or can be created and mounted on. */
  predicate PathsShareable(paths: seq<string>, fs: Fs)
  {
    forall k :: 0 <= k < |paths| ==> Exists(fs, paths[k]) || CanShare(fs, paths[k])
  }

  /**
   * Preparation and creation together: the result is 0 or -errno; files and
   * directories are only added; every mount that is new or changed is one of
   * the share paths, mounted from the lower path. It succeeds when every
   * directory above a share path exists or can be created and every share
   * path exists or can be created and mounted on; a success means every
   * share path existed or could be created, and leaves every share path
   * existing, the ones the preparation did not find as a file or a directory
   * as `ft` says.
   */
  lemma PrepareAndCreateEffect(paths: seq<string>, ft: ShareFileType, lower: string, fs: Fs)
    ensures var r := PrepareAndCreate(paths, ft, lower, fs);
            (r.0 == 0 || r.0 == -(fs.errno as int32)) && Extends(fs, r.1)
            && (forall t :: t in r.1.mounts ==> (t in fs.mounts && r.1.mounts[t] == fs.mounts[t]) || (t in paths && r.1.mounts[t] == lower))
            && (ParentsCreatable(paths, fs) && PathsShareable(paths, fs) ==> r.0 == 0)
            && (r.0 == 0 ==> forall k :: 0 <= k < |paths| ==> Exists(fs, paths[k]) || CanCreate(fs, paths[k]))
            && (r.0 == 0 ==> forall k :: 0 <= k < |paths| ==> Exists(r.1, paths[k]))
            && (r.0 == 0 ==> forall k :: 0 <= k < |paths| && !Prepare(paths, fs).marks[k] ==> paths[k] in OfType(r.1, ft))
  {
    var p := Prepare(paths, fs);
    PrepareEffect(paths, fs);
    PrepareMarks(paths, fs);
    PrepareSucceeds(paths, fs);
    if p.ret == 0 {
      var c := CreateAll(paths, p.marks, ft, lower, p.fs);
      CreateAllEffect(paths, p.marks, ft, lower, p.fs);
      forall t | t in Unmarked(paths, p.marks) ensures t in paths {
        var k :| 0 <= k < |paths| && !p.marks[k] && paths[k] == t;
      }
      if PathsShareable(paths, fs) {
        forall k | 0 <= k < |paths| && !p.marks[k] ensures CanShare(p.fs, paths[k]) {
          assert Exists(fs, paths[k]) || CanShare(fs, paths[k]);
        }
      }
      if c.0 == 0 {
        forall k | 0 <= k < |paths| ensures Exists(c.1, paths[k]) && (Exists(fs, paths[k]) || CanCreate(fs, paths[k])) {
          if p.marks[k] {
            assert Exists(p.fs, paths[k]);
          } else {
            assert CanShare(p.fs, paths[k]);
          }
        }
      }
    }
  }

  /**
   * `CreateShareFile` on values: the share information, then preparation
   * and creation; a failed lookup changes nothing.
   */
  function CreateShare(uri: Uri, tokenId: uint32, flag: bv32, env: Env, fs: Fs): (r: (int32, Fs))
    ensures ShareInfoOf(uri, tokenId, flag, env, fs, BlankInfo()).0 != 0 ==>
              r == (ShareInfoOf(uri, tokenId, flag, env, fs, BlankInfo()).0, fs)
  {
    var s := ShareInfoOf(uri, tokenId, flag, env, fs, BlankInfo());
    if s.0 != 0 then (s.0, fs)
    else PrepareAndCreate(s.1.sharePath, s.1.fileType.value, s.1.providerLowerPath, fs)
  }

  /**
   * `CreateShareFile` end to end: after a successful lookup the result is 0
   * or -errno, nothing is removed, and every new or changed mount is one of
   * the share paths the flag selects, mounted from the provider's lower
   * path. The call succeeds when the directories above those paths exist or
   * can be created and the paths themselves exist or can be created and
   * mounted on; a success means each share path existed or could be
   * created, and leaves all of them existing, each one the preparation did
   * not find created as a file or a directory according to the URI's type.
   */
  lemma CreateShareEffect(uri: Uri, tokenId: uint32, flag: bv32, env: Env, fs: Fs)
    requires ShareInfoOf(uri, tokenId, flag, env, fs, BlankInfo()).0 == 0
    ensures var info := ShareInfoOf(uri, tokenId, flag, env, fs, BlankInfo()).1;
            var r := CreateShare(uri, tokenId, flag, env, fs);
            (r.0 == 0 || r.0 == -(fs.errno as int32)) && Extends(fs, r.1)
            && (forall t :: t in r.1.mounts ==>
                  (t in fs.mounts && r.1.mounts[t] == fs.mounts[t])
                  || (t in info.sharePath && r.1.mounts[t] == info.providerLowerPath))
            && (ParentsCreatable(info.sharePath, fs) && PathsShareable(info.sharePath, fs) ==> r.0 == 0)
            && (r.0 == 0 ==> forall k :: 0 <= k < |info.sharePath| ==>
                  Exists(fs, info.sharePath[k]) || CanCreate(fs, info.sharePath[k]))
            && (r.0 == 0 ==> forall k :: 0 <= k < |info.sharePath| ==> Exists(r.1, info.sharePath[k]))
            && (r.0 == 0 ==> forall k :: 0 <= k < |info.sharePath| && !Prepare(info.sharePath, fs).marks[k] ==>
                  info.sharePath[k] in OfType(r.1, info.fileType.value))
  {
    var info := ShareInfoOf(uri, tokenId, flag, env, fs, BlankInfo()).1;
    PrepareAndCreateEffect(info.sharePath, info.fileType.value, info.providerLowerPath, fs);
  }

  // ---------------------------------------------------------------------
  // Deleting shares

  /** The read and the read-write share path `UmountDelUris` derives from one share URI. */
  function DelPaths(uri: Uri, uid: string, self: string): seq<string>
  {
    [SharePathOf(uid, self, SHARE_R_PATH, uri.authority, uri.path),
     SharePathOf(uid, self, SHARE_RW_PATH, uri.authority, uri.path)]
  }

  /** Detaching and removing one path: only an existing path is touched; either step may fail. */
  function UmountRemove(fs: Fs, p: string): Fs
  {
    if !Exists(fs, p) then fs
    else
      var fs1 := if p in fs.mountDenied then fs else fs.(mounts := fs.mounts - {p});
      if p in fs.denied then fs1 else fs1.(files := fs1.files - {p}, dirs := fs1.dirs - {p})
  }

  /** A path whose removal can succeed is gone. */
  predicate Gone(fs: Fs, p: string)
  {
    p in fs.denied || !Exists(fs, p)
  }

  /** `q` is neither share path of any of the URIs. */
  predicate NotShareOf(uris: seq<Uri>, uid: string, self: string, q: string)
  {
    forall k :: 0 <= k < |uris| ==> q !in DelPaths(uris[k], uid, self)
  }

  /** A path whose detaching can succeed is no longer mounted, unless it has gone. */
  ghost predicate Released(fs: Fs, p: string)
  {
    p in fs.mountDenied || p !in fs.mounts || !Exists(fs, p)
  }

  /** `fs2` has at most the paths and mounts of `fs1`, with the same failure oracles. */
  predicate Shrinks(fs1: Fs, fs2: Fs)
  {
    fs2.files <= fs1.files && fs2.dirs <= fs1.dirs && fs2.mounts.Keys <= fs1.mounts.Keys
    && fs2.denied == fs1.denied && fs2.mountDenied == fs1.mountDenied && fs2.errno == fs1.errno
  }

  /**
   * `UmountDelUris` on values: both share paths of every URI, in order.
   * Nothing is created; every such path is released, and removed unless
   * removal is refused; every other path keeps its file, directory and
   * mount.
   */
  function UmountDel(uris: seq<Uri>, uid: string, self: string, fs: Fs): (r: Fs)
    ensures Shrinks(fs, r)
    ensures forall k, p :: 0 <= k < |uris| && p in DelPaths(uris[k], uid, self) ==> Released(r, p) && Gone(r, p)
    ensures forall q :: NotShareOf(uris, uid, self, q) ==> SameAt(fs, r, q)
  {
    if uris == [] then fs
    else
      var ps := DelPaths(uris[0], uid, self);
      var fs0 := UmountRemove(fs, ps[0]);
      var fs1 := UmountRemove(fs0, ps[1]);
      var r := UmountDel(uris[1..], uid, self, fs1);
      UmountRemoveEffect(fs, ps[0]);
      UmountRemoveEffect(fs0, ps[1]);
      ReleasedStays(fs0, fs1, ps[0]);
      assert forall k :: 1 <= k < |uris| ==> uris[k] == uris[1..][k - 1];
      ReleasedStays(fs1, r, ps[0]);
      ReleasedStays(fs1, r, ps[1]);
      forall q | NotShareOf(uris, uid, self, q) ensures SameAt(fs, r, q) {
        assert q !in DelPaths(uris[0], uid, self);
        assert NotShareOf(uris[1..], uid, self, q);
      }
      r
  }

  /** `q` has the same kind and the same mount in both file systems. */
  predicate SameAt(fs1: Fs, fs2: Fs, q: string)
  {
    (q in fs2.files <==> q in fs1.files) && (q in fs2.dirs <==> q in fs1.dirs)
    && (q in fs2.mounts <==> q in fs1.mounts) && (q in fs1.mounts ==> fs2.mounts[q] == fs1.mounts[q])
  }

  /** Detaching and removing `p` releases it, removes it unless refused, and leaves every other path as it was. */
  lemma UmountRemoveEffect(fs: Fs, p: string)
    ensures Shrinks(fs, UmountRemove(fs, p))
    ensures Released(UmountRemove(fs, p), p) && Gone(UmountRemove(fs, p), p)
    ensures forall q :: q != p ==> SameAt(fs, UmountRemove(fs, p), q)
  {
  }

  /** Releasing and removal, once achieved, survive any further shrinking. */
  lemma ReleasedStays(fs1: Fs, fs2: Fs, p: string)
    requires Shrinks(fs1, fs2) && Released(fs1, p) && Gone(fs1, p)
    ensures Released(fs2, p) && Gone(fs2, p)
  {
  }

  // ---------------------------------------------------------------------
  // The imperative operations

  /** The share information that the operations fill in place. */
  class FileShareInfo {
    var providerBundleName: string
    var targetBundleName: string
    var providerLowerPath: string
    var providerSandboxPath: string
    var sharePath: seq<string>
    var isExist: seq<bool>
    var currentUid: string
    var fileType: Option<ShareFileType>

    constructor ()
      ensures Value() == BlankInfo()
    {
      providerBundleName, targetBundleName, providerLowerPath, providerSandboxPath := "", "", "", "";
      sharePath, isExist, currentUid, fileType := [], [], "", None;
    }

    function Value(): ShareInfo
      reads this
    {
      ShareInfo(providerBundleName, targetBundleName, providerLowerPath, providerSandboxPath,
                sharePath, isExist, currentUid, fileType)
    }
  }

  /** `GetLowerPath`: on success sets the provider's lower path and nothing else; on failure changes nothing. */
  method GetLowerPath(head: string, tail: string, info: FileShareInfo, env: Env) returns (ret: int32)
    modifies info
    ensures var r := LowerPath(head, tail, old(info.currentUid), old(info.providerBundleName), env.dlpPid);
            ret == (if r.PathErr? then r.code else 0)
            && info.Value() == if r.PathErr? then old(info.Value()) else old(info.Value()).(providerLowerPath := r.path)
  {
    if head == [] {
      return -EINVAL;
    }
    var lowerPathHead := head;
    if Find(lowerPathHead, CURRENT_USER_ID_FLAG).Some? {
      lowerPathHead := ReplaceFirst(lowerPathHead, CURRENT_USER_ID_FLAG, info.currentUid);
    }
    if Find(lowerPathHead, PACKAGE_NAME_FLAG).Some? {
      lowerPathHead := ReplaceFirst(lowerPathHead, PACKAGE_NAME_FLAG, info.providerBundleName);
    }
    assert lowerPathHead == Substituted(head, info.currentUid, info.providerBundleName);
    ghost var r := LowerPath(head, tail, info.currentUid, info.providerBundleName, env.dlpPid);
    if info.providerBundleName == DLP_MANAGER_BUNDLE_NAME {
      var pid := env.dlpPid;
      if pid == [] {
        return -EINVAL;
      }
      if Find(lowerPathHead, PID_FLAG).Some? {
        pid := pid[..|pid| - 1];
        lowerPathHead := ReplaceFirst(lowerPathHead, PID_FLAG, pid);
      }
    }
    assert r == PathOk(lowerPathHead + tail);
    info.providerLowerPath := lowerPathHead + tail;
    ret := 0;
  }

  /**
   * `GetProviderPath`: scans the sandbox table for the first prefix of the
   * URI path; on success sets the lower path and the sandbox path.
   */
  method GetProviderPath(uri: Uri, info: FileShareInfo, env: Env) returns (ret: int32)
    modifies info
    ensures var r := ProviderPath(uri.path, old(info.currentUid), old(info.providerBundleName), env.dlpPid);
            ret == (if r.PathErr? then r.code else 0)
            && info.Value() == if r.PathErr? then old(info.Value())
                               else old(info.Value()).(providerLowerPath := r.path, providerSandboxPath := uri.path)
  {
    var pathInProvider := uri.path;
    var lowerPathTail, lowerPathHead := "", "";
    var i := 0;
    while i < |SANDBOX_PATH|
      invariant 0 <= i <= |SANDBOX_PATH|
      invariant FirstSandboxFrom(pathInProvider, 0) == FirstSandboxFrom(pathInProvider, i)
      invariant lowerPathHead == "" && lowerPathTail == ""
    {
      if |pathInProvider| >= |SANDBOX_PATH[i]| {
        var sandboxPathTemp := pathInProvider[..|SANDBOX_PATH[i]|];
        if sandboxPathTemp == SANDBOX_PATH[i] {
          lowerPathHead := LOWER_PATH[i];
          lowerPathTail := pathInProvider[|SANDBOX_PATH[i]|..];
          break;
        }
      }
      i := i + 1;
    }
    ret := GetLowerPath(lowerPathHead, lowerPathTail, info, env);
    if ret != 0 {
      return;
    }
    info.providerSandboxPath := pathInProvider;
  }

  /** `GetSharePath`: appends the share paths the flag selects, each marked as not existing. */
  method GetSharePath(info: FileShareInfo, flag: bv32)
    modifies info
    ensures var paths := SharePaths(old(info.currentUid), old(info.targetBundleName), old(info.providerBundleName),
                                    old(info.providerSandboxPath), flag);
            info.Value() == old(info.Value()).(sharePath := old(info.sharePath) + paths,
                                                isExist := old(info.isExist) + Falses(|paths|))
  {
    var shareRPath := SharePathOf(info.currentUid, info.targetBundleName, SHARE_R_PATH, info.providerBundleName, info.providerSandboxPath);
    var shareRWPath := SharePathOf(info.currentUid, info.targetBundleName, SHARE_RW_PATH, info.providerBundleName, info.providerSandboxPath);
    if flag & WRITE_URI_PERMISSION == WRITE_URI_PERMISSION {
      info.sharePath := info.sharePath + [shareRWPath];
      info.sharePath := info.sharePath + [shareRPath];
      info.isExist := info.isExist + [false];
      info.isExist := info.isExist + [false];
    } else if flag & READ_URI_PERMISSION == READ_URI_PERMISSION {
      info.sharePath := info.sharePath + [shareRPath];
      info.isExist := info.isExist + [false];
    }
  }

  /** `GetShareFileType`: records whether the lower path is a file or a directory; -ENOENT when it is neither. */
  method GetShareFileType(info: FileShareInfo, fs: Fs) returns (ret: int32)
    modifies info
    ensures var ft := FileTypeOf(old(info.providerLowerPath), fs);
            ret == (if ft.None? then -ENOENT else 0)
            && info.Value() == if ft.None? then old(info.Value()) else old(info.Value()).(fileType := ft)
  {
    if info.providerLowerPath in fs.files {
      info.fileType := Some(FILE_TYPE);
      return 0;
    } else if info.providerLowerPath in fs.dirs {
      info.fileType := Some(DIR_TYPE);
      return 0;
    }
    return -ENOENT;
  }

  /** `GetFileShareInfo`: the target, the provider, its path and file type, then the share paths. */
  method GetFileShareInfo(uri: Uri, tokenId: uint32, flag: bv32, info: FileShareInfo, env: Env, fs: Fs) returns (ret: int32)
    modifies info
    ensures (ret, info.Value()) == ShareInfoOf(uri, tokenId, flag, env, fs, old(info.Value()))
  {
    var target := TargetInfo(tokenId, env);
    ret := target.0;
    if ret != 0 {
      return;
    }
    info.targetBundleName, info.currentUid := target.1, target.2;
    info.providerBundleName := uri.authority;
    ret := GetProviderPath(uri, info, env);
    if ret != 0 {
      return;
    }
    ret := GetShareFileType(info, fs);
    if ret != 0 {
      return;
    }
    GetSharePath(info, flag);
  }

  /**
   * `PreparePreShareDir`: marks each share path that exists and creates the
   * directories above each other one, stopping with -errno at the first
   * failure; the share paths themselves are left as they are.
   */
  method PreparePreShareDir(info: FileShareInfo, fs0: Fs) returns (ret: int32, fs: Fs)
    requires |info.isExist| == |info.sharePath|
    modifies info
    ensures var r := Prepare(old(info.sharePath), fs0);
            ret == r.ret && fs == r.fs && |info.isExist| == |old(info.isExist)|
            && info.Value() == old(info.Value()).(isExist := info.isExist)
            && forall k :: 0 <= k < |info.isExist| ==>
                 info.isExist[k] == (old(info.isExist[k]) || (k < |r.marks| && r.marks[k]))
  {
    var sharePath := info.sharePath;
    var isExist := info.isExist;
    fs := fs0;
    ghost var marks: seq<bool> := [];
    var i := 0;
    while i < |sharePath|
      invariant 0 <= i <= |sharePath| && |marks| == i && |isExist| == |sharePath|
      invariant info.Value() == old(info.Value())
      invariant Prepare(sharePath, fs0) == Prepare(sharePath[i..], fs).(marks := marks + Prepare(sharePath[i..], fs).marks)
      invariant forall k :: 0 <= k < |isExist| ==> isExist[k] == (old(info.isExist[k]) || (k < i && marks[k]))
    {
      PrepareUnfold(sharePath[i..], fs);
      assert sharePath[i..][0] == sharePath[i] && sharePath[i..][1..] == sharePath[i + 1..];
      if !Exists(fs, sharePath[i]) {
        var sharePathDir := ParentOf(sharePath[i]);
        var made, fs1 := MakeDir(sharePathDir, fs);
        if !made {
          ret := -(fs.errno as int32);
          fs := fs1;
          info.isExist := isExist;
          return;
        }
        ghost var rest := Prepare(sharePath[i + 1..], fs1);
        assert (marks + [false]) + rest.marks == marks + ([false] + rest.marks);
        fs := fs1;
        marks := marks + [false];
      } else {
        ghost var rest := Prepare(sharePath[i + 1..], fs);
        assert (marks + [true]) + rest.marks == marks + ([true] + rest.marks);
        isExist := isExist[i := true];
        marks := marks + [true];
      }
      i := i + 1;
    }
    info.isExist := isExist;
    ret := 0;
  }

  /** One step of `Prepare`. */
  lemma PrepareUnfold(paths: seq<string>, fs: Fs)
    requires paths != []
    ensures var made := MkdirAll(DirPrefixes(ParentOf(paths[0])), fs);
            Prepare(paths, fs) ==
              if Exists(fs, paths[0]) then Prepare(paths[1..], fs).(marks := [true] + Prepare(paths[1..], fs).marks)
              else if !made.0 then Prepared(-(fs.errno as int32), [], made.1)
              else Prepare(paths[1..], made.1).(marks := [false] + Prepare(paths[1..], made.1).marks)
  {
  }

  /**
   * `CreateShareFile`: fills a fresh share information, prepares the
   * directories, then creates and bind-mounts every share path not marked
   * as existing, returning the first failure.
   */
  method CreateShareFile(uri: Uri, tokenId: uint32, flag: bv32, env: Env, fs0: Fs) returns (ret: int32, fs: Fs)
    ensures (ret, fs) == CreateShare(uri, tokenId, flag, env, fs0)
  {
    var info := new FileShareInfo();
    ret := GetFileShareInfo(uri, tokenId, flag, info, env, fs0);
    if ret != 0 {
      return ret, fs0;
    }
    var sharePath, lower, fileType := info.sharePath, info.providerLowerPath, info.fileType;
    ghost var blank := info.isExist;
    CreateShareFound(uri, tokenId, flag, env, fs0, info.Value());
    ret, fs := PreparePreShareDir(info, fs0);
    ghost var p := Prepare(sharePath, fs0);
    if ret != 0 {
      return;
    }
    var isExist := info.isExist;
    assert isExist == p.marks by {
      assert forall k :: 0 <= k < |isExist| ==> isExist[k] == (blank[k] || p.marks[k]);
    }
    ret, fs := CreateSharePaths(sharePath, isExist, fileType.value, lower, fs);
  }

  /** The creation loop of `CreateShareFile`: each unmarked share path is created, then bind-mounted from `lower`. */
  method CreateSharePaths(sharePath: seq<string>, isExist: seq<bool>, ft: ShareFileType, lower: string, fs0: Fs)
    returns (ret: int32, fs: Fs)
    requires |isExist| == |sharePath|
    ensures (ret, fs) == CreateAll(sharePath, isExist, ft, lower, fs0)
  {
    fs := fs0;
    var i := 0;
    while i < |sharePath|
      invariant 0 <= i <= |sharePath|
      invariant CreateAll(sharePath, isExist, ft, lower, fs0) == CreateAll(sharePath[i..], isExist[i..], ft, lower, fs)
    {
      CreateAllUnfold(sharePath[i..], isExist[i..], ft, lower, fs);
      assert sharePath[i..][0] == sharePath[i] && isExist[i..][0] == isExist[i];
      assert sharePath[i..][1..] == sharePath[i + 1..] && isExist[i..][1..] == isExist[i + 1..];
      if isExist[i] {
        i := i + 1;
        continue;
      }
      var target := sharePath[i];
      if !CanCreate(fs, target) {
        return -(fs.errno as int32), fs;
      }
      if ft == FILE_TYPE {
        fs := fs.(files := fs.files + {target});
      } else {
        fs := fs.(dirs := fs.dirs + {target});
      }
      if target in fs.mountDenied {
        return -(fs.errno as int32), fs;
      }
      fs := fs.(mounts := fs.mounts[target := lower]);
      i := i + 1;
    }
    ret := 0;
  }

  /** A successful lookup yields a file type and unmarked share paths, and `CreateShare` continues with them. */
  lemma CreateShareFound(uri: Uri, tokenId: uint32, flag: bv32, env: Env, fs: Fs, info: ShareInfo)
    requires ShareInfoOf(uri, tokenId, flag, env, fs, BlankInfo()) == (0, info)
    ensures info.fileType.Some? && info.isExist == Falses(|info.sharePath|)
    ensures CreateShare(uri, tokenId, flag, env, fs)
              == PrepareAndCreate(info.sharePath, info.fileType.value, info.providerLowerPath, fs)
  {
  }

  /** One step of `CreateAll`. */
  lemma CreateAllUnfold(paths: seq<string>, marks: seq<bool>, ft: ShareFileType, lower: string, fs: Fs)
    requires |marks| == |paths| && paths != []
    ensures var p := paths[0];
            var fs1 := if ft == FILE_TYPE then fs.(files := fs.files + {p}) else fs.(dirs := fs.dirs + {p});
            CreateAll(paths, marks, ft, lower, fs) ==
              if marks[0] then CreateAll(paths[1..], marks[1..], ft, lower, fs)
              else if !CanCreate(fs, p) then (-(fs.errno as int32), fs)
              else if p in fs.mountDenied then (-(fs.errno as int32), fs1)
              else CreateAll(paths[1..], marks[1..], ft, lower, fs1.(mounts := fs1.mounts[p := lower]))
  {
  }

  /** `DeleteShareFile`: -EINVAL when the caller's token is unknown, otherwise 0 whatever detaching and removing did. */
  method DeleteShareFile(tokenId: uint32, sharePathList: seq<Uri>, env: Env, fs0: Fs) returns (ret: int32, fs: Fs)
    ensures TargetInfo(tokenId, env).0 != 0 ==> ret == -EINVAL && fs == fs0
    ensures TargetInfo(tokenId, env).0 == 0 ==>
              ret == 0 && fs == UmountDel(sharePathList, TargetInfo(tokenId, env).2, TargetInfo(tokenId, env).1, fs0)
  {
    var target := TargetInfo(tokenId, env);
    if target.0 != 0 {
      return -EINVAL, fs0;
    }
    fs := UmountDelUris(sharePathList, target.2, target.1, fs0);
    ret := 0;
  }

  /** `UmountDelUris`: for each share URI, detaches and removes its read and its read-write path. */
  method UmountDelUris(sharePathList: seq<Uri>, currentUid: string, bundleNameSelf: string, fs0: Fs) returns (fs: Fs)
    ensures fs == UmountDel(sharePathList, currentUid, bundleNameSelf, fs0)
  {
    fs := fs0;
    var i := 0;
    while i < |sharePathList|
      invariant 0 <= i <= |sharePathList|
      invariant UmountDel(sharePathList, currentUid, bundleNameSelf, fs0)
                  == UmountDel(sharePathList[i..], currentUid, bundleNameSelf, fs)
    {
      assert sharePathList[i..][1..] == sharePathList[i + 1..];
      var uri := sharePathList[i];
      var delRPath := SharePathOf(currentUid, bundleNameSelf, SHARE_R_PATH, uri.authority, uri.path);
      var delRWPath := SharePathOf(currentUid, bundleNameSelf, SHARE_RW_PATH, uri.authority, uri.path);
      if Exists(fs, delRPath) {
        if delRPath !in fs.mountDenied {
          fs := fs.(mounts := fs.mounts - {delRPath});
        }
        if delRPath !in fs.denied {
          fs := fs.(files := fs.files - {delRPath}, dirs := fs.dirs - {delRPath});
        }
      }
      if Exists(fs, delRWPath) {
        if delRWPath !in fs.mountDenied {
          fs := fs.(mounts := fs.mounts - {delRWPath});
        }
        if delRWPath !in fs.denied {
          fs := fs.(files := fs.files - {delRWPath}, dirs := fs.dirs - {delRWPath});
        }
      }
      i := i + 1;
    }
  }
}
