# Desktop Smart Organizer: settings, directory scan and directory prompt

A Dafny model of the logic in the organizer's source code:

- **Settings** (`config/settings.py`). The extension-to-category table `FILE_CATEGORIES` and
  the lookup `get_category_for_extension`, which lower-cases the extension, walks the table
  in order and falls back to `others`. The settings object's attributes are held as a map
  from attribute name to value, standing for the instance dictionary. `update_setting`
  changes one entry of that map; `to_dict` exports it with paths turned into strings. Also
  modelled: the custom watch directories parsed from `CUSTOM_WATCH_DIRS`, and
  `get_organized_path`.
- **File organizer** (`core/file_organizer.py`). The organizer's two counters, and
  `scan_directories`. The scan walks the watched directories (only `~/Downloads`) and
  collects the regular files directly inside each one. A directory that does not exist is
  reported and skipped.
- **Directory prompt** (`main.py`). `get_user_directories` becomes a function of the two
  answers typed at its prompts.

The table and the lookup over it live in `categories.dfy`, the settings object in
`settings.dfy`. Python's `str.strip`, `str.lower` and `str.split` are modelled in `strings.dfy`. `pathlib`'s
parsing, `/` and `str()` are modelled in `paths.dfy`: a path is an absolute flag plus a list
of components. The file system is a value: the set of paths that exist, and for each
directory that can be listed, its entries in `iterdir` order, each with a name and an
`is_file` flag. A path that exists but has no listing is one that `iterdir` raises on.
`Path.home()` is a parameter, and the answers to `input()` are string parameters.

Four behaviours of the code a reader may not expect. The model follows the code in each,
except for the one consequence of the third listed under "Left out":

- The scan keeps entries whose names start with `.`: nothing filters the listing
  (core/file_organizer.py:24-26).
- A directory that exists but cannot be listed makes `iterdir` raise out of
  `scan_directories`, since nothing catches it (core/file_organizer.py:24). The model returns
  `ScanFailed` with that directory.
- `hasattr` also finds the methods defined in the class body (config/settings.py:114). So
  `update_setting("to_dict", v)` succeeds and adds an instance attribute, which shadows the
  method. The model's methods keep running the class's code after such a call, which Python
  does not.
- `to_dict` promises a dictionary for easy serialization (config/settings.py:120), but it
  converts only values that are themselves paths (line 122). `WATCH_DIRECTORIES`, a list of
  paths, is exported still holding paths (`Config.WatchListExportedWithPaths`).

## Model

| member | source | states |
|---|---|---|
| `Categories.DefaultCategoriesWellFormed` | config/settings.py:30-40 | the default table has distinct category names, pairwise disjoint extension lists, and only lower-case extensions |
| `Config.Settings.GetCategoryForExtension` | config/settings.py:100-106 | the loop returns the table-order first match for the lower-cased extension, falling back to `others`; it gives `None` when `FILE_CATEGORIES` no longer holds a table (Python raises) |
| `Categories.FirstCategory` | config/settings.py:103-106 | the answer is always `others` or the name of some table entry |
| `Categories.FirstCategoryFound` | config/settings.py:103-105 | an extension listed by entry i and by no earlier entry gets entry i's category |
| `Categories.FirstCategoryNotFound` | config/settings.py:106 | an extension that no entry lists gets `others` |
| `Categories.FirstCategoryCases` | config/settings.py:103-106 | conversely, every answer is either the first listing entry's name or `others` with no entry listing the extension |
| `Categories.ClaimedExtension` | config/settings.py:103-105 | with disjoint lists, a listed extension maps to the entry that lists it, whatever the entry order |
| `Categories.LookupIgnoresCase` | config/settings.py:102 | an extension and its lower-cased form get the same category |
| `Categories.DefaultCategoryOf` | config/settings.py:100-106 | with the default table, any letter-case variant of a listed extension gets that entry's category |
| `Categories.DefaultListedExtension` | config/settings.py:30-40 | every extension of the default table, exactly as listed, is categorised by its own entry |
| `Categories.UpperCaseJpgIsImage` | config/settings.py:102-105 | `.JPG` is categorised as `images` |
| `Config.CustomWatchDirs` | config/settings.py:93-98 | an empty variable gives no directories; otherwise one path per comma-separated piece (commas + 1 of them), each piece stripped, in order, blank pieces kept |
| `Config.CustomWatchDirsCoverInput` | config/settings.py:97 | the pieces joined back with commas are the whole variable, so nothing is lost or reordered |
| `Config.Settings.constructor` | config/settings.py:11-75 | the attributes are exactly the 8 names `__init__` sets itself plus the 20 it reads from the environment, each environment setting kept as read; `PROJECT_ROOT` is the root, `DATA_DIR` is `<root>/data`, and `SCREENSHOTS_DIR`, `ORGANIZED_FILES_DIR` and `LOGS_DIR` lie below it; the watch list is `~/Downloads`, `~/Desktop` and then the custom directories; `FILE_CATEGORIES` is the default table; `APP_NAME` is `DesktopSmartOrganizer` |
| `Config.OwnSettings` | config/settings.py:13-30 | the attributes `__init__` sets without the environment are exactly the eight named ones |
| `Config.NamesDisjoint` | config/settings.py:11-75 | the names `__init__` sets itself, the names it reads from the environment and the class's method names are three disjoint groups, so no environment setting overrides or is overridden |
| `Config.Settings.UpdateSetting` | config/settings.py:112-117 | succeeds iff the name is an attribute (instance or class-level). On success exactly that entry of the attribute map is set, and the exported map (the class's `to_dict` applied to the new attributes) changes only at that key, unless the key is private. On failure nothing changes. Only a class-level name can add a key |
| `Config.Settings.ToDict` | config/settings.py:119-125 | the keys are exactly the attribute names that do not start with `_`; top-level path values become their string form, so no top-level value is a path; every other value is exported unchanged, so paths inside lists stay paths |
| `Config.WatchListExportedWithPaths` | config/settings.py:119-125 | the watch list of a new settings object is exported still holding paths, `~/Downloads` first |
| `Config.Exported` | config/settings.py:122 | the exported value is never a path; a value that is not a path is exported unchanged |
| `Config.ExportedPathParsesBack` | config/settings.py:122 | the string `to_dict` gives for a path parses back to the same path |
| `Config.Settings.GetOrganizedPath` | config/settings.py:108-110 | defined iff `ORGANIZED_FILES_DIR` holds a path |
| `Config.OrganizedPathLayout` | config/settings.py:108-110 | for plain names, the result is `ORGANIZED_FILES_DIR/category/filename`: named `filename`, its parent is the category directory, and that directory's parent is the organized root |
| `Paths.Parse` | config/settings.py:97 | `Path(s)` gives a path whose components are all proper (non-empty, not `.`, no `/`), absolute iff `s` starts with `/`; POSIX only, see Left out |
| `Paths.Join` | config/settings.py:14-17 | `p / s` keeps components proper, and an absolute `s` replaces `p` altogether |
| `Paths.Str` | config/settings.py:122 | `str(p)` of an absolute path starts with `/`, that of a proper relative one is non-empty and does not |
| `Paths.JoinComponent` | config/settings.py:110 | `p / name` for a single component goes exactly one level down |
| `Paths.ParseStr` | config/settings.py:122 | `Path(str(p)) == p` for every parsed path |
| `Strings.JoinSplit` | config/settings.py:97 | `','.join(s.split(','))` gives back `s` |
| `Strings.SplitJoin` | main.py:15 | splitting a join of comma-free pieces gives back the pieces |
| `Strings.Split` | main.py:15 | `split` returns occurrences + 1 pieces, none containing the separator |
| `Strings.Lower` | config/settings.py:102 | `lower()` keeps the length and lower-cases each character on its own; ASCII letters only, see Left out |
| `Strings.Strip` | main.py:9 | `strip` returns the slice left after removing whitespace at both ends; the result neither starts nor ends with whitespace |
| `Strings.StripEmpty` | main.py:15 | a piece strips to empty iff it is all whitespace |
| `Organizer.FileOrganizer.constructor` | core/file_organizer.py:13-15 | a new organizer has `organized_count == 0` and `error_count == 0` |
| `Organizer.FileOrganizer.ScanDirectories` | core/file_organizer.py:17-30 | the nested loops compute the scan of the watch list `[~/Downloads]`; the method modifies nothing, so the counters are unchanged |
| `Organizer.WatchDirectories` | core/file_organizer.py:20 | the watch list is the one directory named `Downloads` directly below the home directory |
| `Organizer.FilesIn` | core/file_organizer.py:24-26 | at most one path per listing entry, each directly inside the scanned directory |
| `Organizer.Scan` | core/file_organizer.py:22-28 | a failing scan names a watched directory that exists but has no listing; every warning names a watched directory that does not exist |
| `Organizer.ScanOfDownloads` | core/file_organizer.py:20-28 | for `~/Downloads`: missing gives a warning and no files; listed gives its regular files in listing order, each once when names are unique; unlistable raises |
| `Organizer.FilesInMember` | core/file_organizer.py:24-26 | a directory's contribution is exactly the paths of its `is_file` entries; nothing deeper, and no name filter, so dot-files stay |
| `Organizer.FilesInAppend` | core/file_organizer.py:24-26 | files are collected in enumeration order |
| `Organizer.FilesInNoDuplicates` | core/file_organizer.py:24-26 | a listing with unique names yields each file once |
| `Organizer.ScanAppend` | core/file_organizer.py:22-28 | scanning a watch list is scanning its parts in watch-list order, the first failure winning |
| `Organizer.ScanFilesMember` | core/file_organizer.py:22-26 | a path is returned iff it is an `is_file` entry directly inside an existing watched directory |
| `Organizer.ScanMissingMember` | core/file_organizer.py:23-28 | the warnings name exactly the watched directories that do not exist |
| `Organizer.MissingDirectorySkipped` | core/file_organizer.py:23-28 | a missing directory adds only a warning; it does not stop the scan or change the files found |
| `Organizer.ScanFailure` | core/file_organizer.py:23-24 | the scan fails iff some watched directory exists but cannot be listed, and it reports the first such directory |
| `Organizer.ScanNoDuplicates` | core/file_organizer.py:22-26 | with distinct watched directories and unique names per listing, no file is returned twice |
| `Cli.AcceptsDefaults` | main.py:9-11 | the first answer accepts the defaults iff, stripped, it is empty, `y` or `yes` with each letter in either case |
| `Cli.UserDirectories` | main.py:7-21 | a default answer (`""`, `y`, `yes` after strip and lower) gives `None`. Otherwise the result is `None` iff every comma piece of the second answer is blank. A result is a non-empty list of parsed paths |
| `Cli.NonBlankPieces` | main.py:15 | the comprehension keeps at most one string per piece, and never an empty one |
| `Cli.NonBlankPiecesMembers` | main.py:15 | a string is kept iff it is non-empty and is the stripped form of some piece |
| `Cli.NonBlankPiecesAppend` | main.py:15 | the kept pieces keep their original order |
| `Cli.NonBlankPiecesEmpty` | main.py:15-19 | nothing is kept iff every piece is blank, which is when the prompt falls back to the defaults |
| `Cli.UserDirectoriesPieces` | main.py:14-21 | the result has one path per kept non-blank piece, in order; no path comes from an empty string |
| `Cli.DefaultsIgnoreSecondAnswer` | main.py:9-12 | after a default answer the result does not depend on the second input |

## Left out

- `Config.Settings.constructor`: the environment reading (`load_dotenv`, `os.getenv`, the defaults, `int()` parsing and its `ValueError`, the `.lower() == 'true'` tests) is not modelled. The 20 converted values come in as the `environment` map, under exactly the names `__init__` reads, and the `CUSTOM_WATCH_DIRS` value comes in as a string. `PROJECT_ROOT` (from `__file__`) and the home directory are parameters.
- `_create_directories` is not modelled; it only creates directories.
- Construction order is not modelled. As written, `_create_directories` runs at config/settings.py:20 and reads `FILE_CATEGORIES`, which is only assigned at line 30, so building `Settings` raises `AttributeError`. The model's constructor builds the object as if the table existed first.
- `Config.Settings.UpdateSetting`: the model's methods stand for the functions in the class body. So after an update that stores an instance attribute under a method's name (`to_dict`, `get_category_for_extension`, `get_organized_path`, `update_setting`), later calls in the model still run the class's code. In Python they find the instance attribute first, and calling it raises `TypeError` unless the new value is callable.
- `Config.Settings.UpdateSetting`: `hasattr` is modelled over instance attributes and the methods defined in the class body. Attributes every Python object inherits (`__class__`, `__dict__`, ...) are not modelled, and neither is assigning them: setting `__dict__` replaces the whole attribute map, and setting `__class__` changes which methods exist.
- `Config.Settings.ToDict`: returns a map, so the dictionary's key order is not modelled. Attribute values are limited to paths, strings, integers, booleans, lists and the category table.
- `Config.Settings.ToDict`: values are immutable in the model, so sharing is not captured. In Python the exported dictionary holds the settings object's own list and dict objects, and `update_setting` stores the caller's object itself. So a change made through either one shows in the settings: appending `.webp` to `to_dict()["FILE_CATEGORIES"]["images"]` makes `get_category_for_extension(".webp")` return `images` from then on.
- `Strings.Lower` lower-cases ASCII letters only. Python's full Unicode case mapping (for example the Kelvin sign becoming `k`) is not modelled.
- `Paths.Parse`: only POSIX path semantics (`PurePosixPath`) are modelled. On Windows `Path` is `WindowsPath`: `\` also separates components, a drive anchors a path (`Path("C:/a") / "/b"` is `C:/b`), `str()` uses backslashes, and comparison ignores case. So a Windows `CUSTOM_WATCH_DIRS` value such as `C:\Users\me\Work` is one relative component in the model.
- `Paths.Parse` does not model POSIX's special two-slash root (`//a`).
- In `scan_directories`, the warning log is returned as the `missing` list. Symbolic links, errors inside `is_file` and listing errors part-way through a directory are folded into the abstract listing.
- `Cli.UserDirectories`: the warning logged when every piece is blank (main.py:18) is not modelled, and neither is `input()` raising `EOFError` or `KeyboardInterrupt` at either prompt (main.py:9, 14).
- `main.main()` is not modelled: console and log output, and calls to `scan_directories_from_list` and `organize_files`, which the `FileOrganizer` class does not define.
- `FileOrganizer` has no method that moves files, and no code changes `organized_count` or `error_count`, so no organizing step is modelled beyond the counters' initial values.
- `core/ocr_processor.py` (screenshots and OCR through foreign libraries) is not part of this model.
- `core/system_monitor.py` (psutil sampling) is not part of this model.
- `gui/interface.py` (tkinter wiring, importing functions that do not exist) is not part of this model.
- `utils/logger.py` (logging setup) is not part of this model.
