/** The organizer's settings object: the category lookup as a method on the object,
    the attribute dictionary that `update_setting` changes and `to_dict` exports, the
    custom watch directories read from the environment, and the organized-file layout. */
module Config {
  import opened Wrappers
  import opened Strings
  import opened Paths
  import opened Categories

  /** An attribute value of the settings object. */
  datatype Value =
    | PathValue(path: Path)
    | StrValue(text: string)
    | IntValue(number: int)
    | BoolValue(flag: bool)
    | ListValue(items: seq<Value>)
    | TableValue(table: CategoryTable)

  /** `_get_custom_watch_dirs`, given the value of `CUSTOM_WATCH_DIRS` (empty when unset):
      one path per comma-separated piece, stripped, blank pieces kept (they parse to "."). */
  function CustomWatchDirs(customDirs: string): (dirs: seq<Path>)
    ensures customDirs == "" ==> dirs == []
    ensures customDirs != "" ==> |dirs| == Occurrences(customDirs, ',') + 1
    ensures customDirs != "" ==> forall k :: 0 <= k < |dirs| ==>
              dirs[k] == Parse(Strip(Split(customDirs, ',')[k]))
  {
    if customDirs == "" then []
    else
      var pieces := Split(customDirs, ',');
      seq(|pieces|, k requires 0 <= k < |pieces| => Parse(Strip(pieces[k])))
  }

  /** The pieces the custom directories are read from are the whole variable again when
      joined with commas, so no text is lost or reordered. */
  lemma CustomWatchDirsCoverInput(customDirs: string)
    requires customDirs != ""
    ensures JoinWith(Split(customDirs, ','), ',') == customDirs
    ensures |CustomWatchDirs(customDirs)| == |Split(customDirs, ',')|
  {
    JoinSplit(customDirs, ',');
  }

  /** The class-level names `hasattr` also finds on a settings object: the methods defined in
      the class body. */
  const ClassAttributes: set<string> :=
    { "__init__", "_create_directories", "_get_custom_watch_dirs", "get_category_for_extension",
      "get_organized_path", "update_setting", "to_dict" }

  /** What `to_dict` stores for an attribute value: `str(value)` for a path, the value itself
      otherwise. */
  function Exported(v: Value): (r: Value)
    ensures !r.PathValue?
    ensures !v.PathValue? ==> r == v
  {
    if v.PathValue? then StrValue(Str(v.path)) else v
  }

  /** The string `to_dict` gives for a path parses back to that path. */
  lemma ExportedPathParsesBack(p: Path)
    requires WellFormed(p)
    ensures Exported(PathValue(p)).StrValue? && Parse(Exported(PathValue(p)).text) == p
  {
    ParseStr(p);
  }

  function PathValues(paths: seq<Path>): (vs: seq<Value>)
    ensures |vs| == |paths| && forall k :: 0 <= k < |vs| ==> vs[k] == PathValue(paths[k])
  {
    seq(|paths|, k requires 0 <= k < |paths| => PathValue(paths[k]))
  }

  /** The settings object. Its attributes live in `attrs`, the instance dictionary. */
  class Settings {
    var attrs: map<string, Value>

    /** `__init__`: the path settings below `projectRoot`, the watch list below `home` plus
        the custom directories, the default category table and the application name, beside
        the settings read from the environment; `environment` holds those, already
        converted, under exactly the names `__init__` reads. */
    constructor (projectRoot: Path, home: Path, customDirs: string, environment: map<string, Value>)
      requires environment.Keys == EnvironmentNames
      ensures attrs.Keys == OwnAttributes + EnvironmentNames
      ensures forall k :: k in environment ==> attrs[k] == environment[k]
      ensures attrs["PROJECT_ROOT"] == PathValue(projectRoot)
      ensures attrs["DATA_DIR"] == PathValue(Child(projectRoot, "data"))
      ensures attrs["SCREENSHOTS_DIR"] == PathValue(Child(Child(projectRoot, "data"), "screenshots"))
      ensures attrs["ORGANIZED_FILES_DIR"] == PathValue(Child(Child(projectRoot, "data"), "organized_files"))
      ensures attrs["LOGS_DIR"] == PathValue(Child(Child(projectRoot, "data"), "logs"))
      ensures attrs["WATCH_DIRECTORIES"] == ListValue([PathValue(Child(home, "Downloads")), PathValue(Child(home, "Desktop"))]
                                                      + PathValues(CustomWatchDirs(customDirs)))
      ensures attrs["FILE_CATEGORIES"] == TableValue(DefaultCategories())
      ensures attrs["APP_NAME"] == StrValue("DesktopSmartOrganizer")
    {
      LiteralNamesAreComponents();
      var data := JoinName(projectRoot, "data");
      var screenshots := JoinName(data, "screenshots");
      var organized := JoinName(data, "organized_files");
      var logs := JoinName(data, "logs");
      var downloads := JoinName(home, "Downloads");
      var desktop := JoinName(home, "Desktop");
      var watch := [PathValue(downloads), PathValue(desktop)]
                   + PathValues(CustomWatchDirs(customDirs));
      var own := OwnSettings(projectRoot, data, screenshots, organized, logs, watch);
      OwnSettingsEntries(projectRoot, data, screenshots, organized, logs, watch);
      MergedSettings(environment, own);
      attrs := environment + own;
    }

    /** The category table, when `FILE_CATEGORIES` still holds one. */
    function FileCategories(): Option<CategoryTable>
      reads this
    {
      if "FILE_CATEGORIES" in attrs && attrs["FILE_CATEGORIES"].TableValue?
      then Some(attrs["FILE_CATEGORIES"].table) else None
    }

    /** `get_category_for_extension`: lower-case, then walk the table in order and stop at
        the first list holding the extension. `None` where Python raises because
        `FILE_CATEGORIES` was replaced by a value that is not a table. */
    method GetCategoryForExtension(extension: string) returns (category: Option<string>)
      ensures FileCategories().None? ==> category.None?
      ensures FileCategories().Some? ==>
                category == Some(FirstCategory(FileCategories().value, Lower(extension)))
    {
      var categories := FileCategories();
      if categories.None? {
        return None;
      }
      var table := categories.value;
      var e := Lower(extension);
      var i := 0;
      while i < |table|
        invariant 0 <= i <= |table|
        invariant FirstCategory(table[i..], e) == FirstCategory(table, e)
      {
        assert table[i..][1..] == table[i + 1..];
        if e in table[i].extensions {
          return Some(table[i].name);
        }
        i := i + 1;
      }
      return Some(Others);
    }

    /** `get_organized_path`: `ORGANIZED_FILES_DIR / category / filename`, `None` where
        Python raises because that attribute no longer holds a path. */
    function GetOrganizedPath(category: string, filename: string): (r: Option<Path>)
      reads this
      ensures r.Some? <==> "ORGANIZED_FILES_DIR" in attrs && attrs["ORGANIZED_FILES_DIR"].PathValue?
    {
      if "ORGANIZED_FILES_DIR" in attrs && attrs["ORGANIZED_FILES_DIR"].PathValue?
      then Some(Join(Join(attrs["ORGANIZED_FILES_DIR"].path, category), filename))
      else None
    }

    /** `update_setting`: `hasattr` decides; on success the attribute is set in the instance
        dictionary. Only a class-level name can add a key. */
    method UpdateSetting(key: string, value: Value) returns (updated: bool)
      modifies this
      ensures updated <==> key in old(attrs) || key in ClassAttributes
      ensures updated ==> attrs == old(attrs)[key := value]
      ensures !updated ==> attrs == old(attrs)
      ensures key !in ClassAttributes ==> attrs.Keys == old(attrs).Keys
      ensures ToDict() == if updated && !IsPrivateName(key) then old(ToDict())[key := Exported(value)]
                          else old(ToDict())
    {
      if key in attrs || key in ClassAttributes {
        attrs := attrs[key := value];
        return true;
      }
      return false;
    }

    /** `to_dict`: every attribute whose name does not start with '_', paths as strings. */
    function ToDict(): (d: map<string, Value>)
      reads this
      ensures d.Keys == set k | k in attrs && !IsPrivateName(k)
      ensures forall k :: k in d ==> !d[k].PathValue?
      ensures forall k :: k in d && attrs[k].PathValue? ==> d[k] == StrValue(Str(attrs[k].path))
      ensures forall k :: k in d && !attrs[k].PathValue? ==> d[k] == attrs[k]
    {
      map k | k in attrs && !IsPrivateName(k) :: Exported(attrs[k])
    }
  }

  /** `to_dict` converts only values that are themselves paths: the watch list of a new
      settings object is exported as it is, still holding paths. */
  lemma WatchListExportedWithPaths(s: Settings, home: Path, customDirs: string)
    requires "WATCH_DIRECTORIES" in s.attrs
    requires s.attrs["WATCH_DIRECTORIES"]
             == ListValue([PathValue(Child(home, "Downloads")), PathValue(Child(home, "Desktop"))]
                          + PathValues(CustomWatchDirs(customDirs)))
    ensures "WATCH_DIRECTORIES" in s.ToDict()
    ensures s.ToDict()["WATCH_DIRECTORIES"].ListValue?
    ensures forall v :: v in s.ToDict()["WATCH_DIRECTORIES"].items ==> v.PathValue?
    ensures s.ToDict()["WATCH_DIRECTORIES"].items[0] == PathValue(Child(home, "Downloads"))
  {
    assert !IsPrivateName("WATCH_DIRECTORIES");
  }

  /** The names `__init__` reads from the environment, with a default for each. */
  const EnvironmentNames: set<string> :=
    { "SCREENSHOT_FORMAT", "SCREENSHOT_QUALITY", "AUTO_SCREENSHOT_INTERVAL",
      "OCR_LANGUAGE", "OCR_MIN_CONFIDENCE", "OCR_ENABLED",
      "MONITOR_INTERVAL", "CPU_THRESHOLD", "MEMORY_THRESHOLD", "DISK_THRESHOLD",
      "AUTO_ORGANIZE_ENABLED", "AUTO_ORGANIZE_INTERVAL", "BACKUP_BEFORE_ORGANIZE",
      "WINDOW_WIDTH", "WINDOW_HEIGHT", "THEME",
      "LOG_LEVEL", "LOG_MAX_SIZE", "LOG_BACKUP_COUNT", "USE_KEYRING" }

  /** The names `__init__` sets itself, those it reads from the environment and the methods
      of the class are three separate groups. */
  lemma NamesDisjoint()
    ensures OwnAttributes !! EnvironmentNames
    ensures OwnAttributes !! ClassAttributes
    ensures EnvironmentNames !! ClassAttributes
  {
    FingerprintsApart(OwnAttributes, EnvironmentNames);
    FingerprintsApart(OwnAttributes, ClassAttributes);
    FingerprintsApart(EnvironmentNames, ClassAttributes);
  }

  /** The attributes `__init__` sets itself, from the paths it has built. */
  function OwnSettings(projectRoot: Path, data: Path, screenshots: Path, organized: Path, logs: Path,
                       watch: seq<Value>): (own: map<string, Value>)
    ensures own.Keys == OwnAttributes
  {
    map[
      "PROJECT_ROOT" := PathValue(projectRoot),
      "DATA_DIR" := PathValue(data),
      "SCREENSHOTS_DIR" := PathValue(screenshots),
      "ORGANIZED_FILES_DIR" := PathValue(organized),
      "LOGS_DIR" := PathValue(logs),
      "WATCH_DIRECTORIES" := ListValue(watch),
      "FILE_CATEGORIES" := TableValue(DefaultCategories()),
      "APP_NAME" := StrValue("DesktopSmartOrganizer")]
  }

  /** What each of those attributes holds. */
  lemma OwnSettingsEntries(projectRoot: Path, data: Path, screenshots: Path, organized: Path, logs: Path,
                           watch: seq<Value>)
    ensures var own := OwnSettings(projectRoot, data, screenshots, organized, logs, watch);
            && own["PROJECT_ROOT"] == PathValue(projectRoot)
            && own["DATA_DIR"] == PathValue(data)
            && own["SCREENSHOTS_DIR"] == PathValue(screenshots)
            && own["ORGANIZED_FILES_DIR"] == PathValue(organized)
            && own["LOGS_DIR"] == PathValue(logs)
            && own["WATCH_DIRECTORIES"] == ListValue(watch)
            && own["FILE_CATEGORIES"] == TableValue(DefaultCategories())
            && own["APP_NAME"] == StrValue("DesktopSmartOrganizer")
  {
  }

  /** Merging the environment settings with the ones `__init__` sets itself keeps both,
      since their names differ. */
  lemma MergedSettings(environment: map<string, Value>, own: map<string, Value>)
    requires environment.Keys == EnvironmentNames && own.Keys == OwnAttributes
    ensures (environment + own).Keys == OwnAttributes + EnvironmentNames
    ensures forall k :: k in environment ==> (environment + own)[k] == environment[k]
    ensures forall k :: k in own ==> (environment + own)[k] == own[k]
  {
    NamesDisjoint();
  }

  /** The names `__init__` joins onto paths are single path components. */
  lemma LiteralNamesAreComponents()
    ensures IsComponent("data") && IsComponent("screenshots") && IsComponent("organized_files")
    ensures IsComponent("logs") && IsComponent("Downloads") && IsComponent("Desktop")
  {
  }

  /** Two groups of names without a fingerprint in common share no name. */
  lemma FingerprintsApart(a: set<string>, b: set<string>)
    requires forall x, y :: x in a && y in b ==> Fingerprint(x) != Fingerprint(y)
    ensures a !! b
  {
  }

  /** The names the constructor sets itself rather than take from the environment. */
  const OwnAttributes: set<string> :=
    { "PROJECT_ROOT", "DATA_DIR", "SCREENSHOTS_DIR", "ORGANIZED_FILES_DIR", "LOGS_DIR",
      "WATCH_DIRECTORIES", "FILE_CATEGORIES", "APP_NAME" }

  /** For plain names, the organized path is two levels below `ORGANIZED_FILES_DIR`: named
      `filename`, inside the directory named `category`. */
  lemma OrganizedPathLayout(s: Settings, category: string, filename: string)
    requires "ORGANIZED_FILES_DIR" in s.attrs && s.attrs["ORGANIZED_FILES_DIR"].PathValue?
    requires IsComponent(category) && IsComponent(filename)
    ensures var root := s.attrs["ORGANIZED_FILES_DIR"].path;
            && s.GetOrganizedPath(category, filename) == Some(Child(Child(root, category), filename))
            && Name(s.GetOrganizedPath(category, filename).value) == filename
            && Parent(s.GetOrganizedPath(category, filename).value) == Child(root, category)
            && Parent(Parent(s.GetOrganizedPath(category, filename).value)) == root
  {
    var root := s.attrs["ORGANIZED_FILES_DIR"].path;
    JoinComponent(root, category);
    JoinComponent(Child(root, category), filename);
    ChildNameParent(Child(root, category), filename);
    ChildNameParent(root, category);
  }
}
