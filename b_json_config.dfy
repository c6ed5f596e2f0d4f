/**
 * The per-application backup configuration and its read-only accessors.
 * The JSON parser is not part of this model: a document is given as the
 * parser's result, `None` for text that does not parse, and an object as a
 * map from key to value. Accessors are functions of the object, so querying
 * never changes it.
 */
module JsonConfig {
  import opened Base

  /** The JSON values the accessors distinguish. */
  datatype JsonValue =
    | JString(s: string)
    | JBool(b: bool)
    | JStringArray(items: seq<string>)
    | JOther

  type JsonObject = map<string, JsonValue>

  /** The default include patterns (`PATHES_TO_BACKUP`), in order. */
  const PATHES_TO_BACKUP: seq<string> := [
    "data/storage/el2/database/",
    "data/storage/el2/base/files/",
    "data/storage/el2/base/preferences/",
    "data/storage/el2/base/haps/*/database/",
    "data/storage/el2/base/haps/*/base/files/",
    "data/storage/el2/base/haps/*/base/preferences/"
  ]

  // Keys of the application's backup configuration (`BJsonEntityUsrConfig`).
  const INCLUDE_DIRS_KEY := "includeDirs"
  const EXCLUDE_DIRS_KEY := "excludeDirs"
  const ALLOW_TO_BACKUP_KEY := "allowToBackupRestore"

  // Keys of the extension configuration (`BJsonEntityExtensionConfig`).
  const INCLUDES_KEY := "includes"
  const EXCLUDES_KEY := "excludes"

  /** `Structuralize`: a document that does not parse behaves as a null object with no members. */
  function Structuralize(parsed: Option<JsonObject>): JsonObject
  {
    if parsed.Some? then parsed.value else map[]
  }

  /**
   * The include-list rule: an unconfigured (or non-array) field gives the
   * default patterns, an explicitly empty array gives [""] (an empty
   * package), any other array is returned verbatim. The result is never
   * empty.
   */
  function IncludeList(obj: JsonObject, key: string): (r: seq<string>)
    ensures r != []
    ensures (key !in obj || !obj[key].JStringArray?) ==> r == PATHES_TO_BACKUP
    ensures key in obj && obj[key] == JStringArray([]) ==> r == [""]
    ensures key in obj && obj[key].JStringArray? && obj[key].items != [] ==> r == obj[key].items
  {
    if key in obj && obj[key].JStringArray? then
      if obj[key].items == [] then [""] else obj[key].items
    else
      PATHES_TO_BACKUP
  }

  /** The exclude-list rule: the configured array verbatim, nothing when unconfigured. */
  function ExcludeList(obj: JsonObject, key: string): (r: seq<string>)
    ensures key in obj && obj[key].JStringArray? ==> r == obj[key].items
    ensures (key !in obj || !obj[key].JStringArray?) ==> r == []
  {
    if key in obj && obj[key].JStringArray? then obj[key].items else []
  }

  /** `GetIncludeDirs` of the application configuration. */
  function GetIncludeDirs(obj: JsonObject): seq<string>
  {
    IncludeList(obj, INCLUDE_DIRS_KEY)
  }

  /** `GetExcludeDirs` of the application configuration. */
  function GetExcludeDirs(obj: JsonObject): seq<string>
  {
    ExcludeList(obj, EXCLUDE_DIRS_KEY)
  }

  /** `GetAllowToBackup`: the configured flag, false when absent or not a boolean. */
  function GetAllowToBackup(obj: JsonObject): (r: bool)
    ensures r <==> ALLOW_TO_BACKUP_KEY in obj && obj[ALLOW_TO_BACKUP_KEY] == JBool(true)
  {
    ALLOW_TO_BACKUP_KEY in obj && obj[ALLOW_TO_BACKUP_KEY].JBool? && obj[ALLOW_TO_BACKUP_KEY].b
  }

  /** `GetIncludes` of the extension configuration. */
  function GetIncludes(obj: JsonObject): seq<string>
  {
    IncludeList(obj, INCLUDES_KEY)
  }

  /** `GetExcludes` of the extension configuration. */
  function GetExcludes(obj: JsonObject): seq<string>
  {
    ExcludeList(obj, EXCLUDES_KEY)
  }

  /** An explicitly empty include array is not empty once read, so no caller sees []. */
  lemma ConfiguredEmptyIncludesMeanEmptyPackage(obj: JsonObject)
    requires INCLUDE_DIRS_KEY in obj && obj[INCLUDE_DIRS_KEY] == JStringArray([])
    ensures GetIncludeDirs(obj) == [""] && GetIncludeDirs(obj) != []
  {
  }

  /** An empty (unparsable) configuration gives the six default includes and no excludes. */
  lemma EmptyConfigGivesDefaults()
    ensures GetIncludes(Structuralize(None)) == PATHES_TO_BACKUP && |PATHES_TO_BACKUP| == 6
    ensures GetExcludes(Structuralize(None)) == []
  {
  }

  /** A configuration with only `includes` returns that list verbatim, empty strings included. */
  lemma OnlyIncludesVerbatim(items: seq<string>)
    requires items != []
    ensures GetIncludes(map[INCLUDES_KEY := JStringArray(items)]) == items
    ensures GetExcludes(map[INCLUDES_KEY := JStringArray(items)]) == []
  {
  }

  /** A configuration with only `excludes` returns that list verbatim and the default includes. */
  lemma OnlyExcludesVerbatim(items: seq<string>)
    ensures GetExcludes(map[EXCLUDES_KEY := JStringArray(items)]) == items
    ensures GetIncludes(map[EXCLUDES_KEY := JStringArray(items)]) == PATHES_TO_BACKUP
  {
  }

  /** With both keys present, each list is returned verbatim, independently of the other. */
  lemma BothListsIndependent(inc: seq<string>, exc: seq<string>)
    requires inc != []
    ensures GetIncludes(map[INCLUDES_KEY := JStringArray(inc), EXCLUDES_KEY := JStringArray(exc)]) == inc
    ensures GetExcludes(map[INCLUDES_KEY := JStringArray(inc), EXCLUDES_KEY := JStringArray(exc)]) == exc
  {
  }

  /** Keys other than `includes` and `excludes` (special characters, non-ASCII, empty) are ignored. */
  lemma UnrecognisedKeysGiveDefaults(obj: JsonObject)
    requires INCLUDES_KEY !in obj && EXCLUDES_KEY !in obj
    ensures GetIncludes(obj) == PATHES_TO_BACKUP && GetExcludes(obj) == []
  {
  }

  /** Malformed text gives both defaults even if `includes`/`excludes` appear in it. */
  lemma MalformedGivesDefaults(parsed: Option<JsonObject>)
    requires parsed.None?
    ensures GetIncludes(Structuralize(parsed)) == PATHES_TO_BACKUP
    ensures GetExcludes(Structuralize(parsed)) == []
  {
  }

  /** Backup permission is off unless explicitly configured as `true`. */
  lemma AllowToBackupDefaultsFalse(parsed: Option<JsonObject>)
    requires parsed.None? || ALLOW_TO_BACKUP_KEY !in parsed.value
    ensures !GetAllowToBackup(Structuralize(parsed))
  {
  }
}
