/** `FILE_CATEGORIES` and `get_category_for_extension`: the ordered extension-to-category
    table the settings object is built with, and the first-match lookup over it. */
module Categories {
  import opened Strings

  /** One entry of `FILE_CATEGORIES`: a category and the extensions it claims. */
  datatype Category = Category(name: string, extensions: seq<string>)

  /** `FILE_CATEGORIES`: a dictionary, so ordered by insertion and with unique keys. */
  type CategoryTable = seq<Category>

  /** The category of every extension that no table entry claims. */
  const Others: string := "others"

  /** The table the settings object is built with. */
  function DefaultCategories(): CategoryTable
  {
    [ Category("images", [".jpg", ".jpeg", ".png", ".gif", ".bmp", ".tiff", ".svg"]),
      Category("documents", [".pdf", ".doc", ".docx", ".txt", ".rtf", ".odt"]),
      Category("spreadsheets", [".xls", ".xlsx", ".csv", ".ods"]),
      Category("presentations", [".ppt", ".pptx", ".odp"]),
      Category("archives", [".zip", ".rar", ".7z", ".tar", ".gz"]),
      Category("executables", [".exe", ".msi", ".dmg", ".pkg", ".deb", ".rpm"]),
      Category("videos", [".mp4", ".avi", ".mkv", ".mov", ".wmv", ".flv"]),
      Category("audio", [".mp3", ".wav", ".flac", ".aac", ".ogg"]),
      Category("code", [".py", ".js", ".html", ".css", ".cpp", ".java", ".c"]) ]
  }

  /** No two entries share a category name. */
  predicate DistinctNames(table: CategoryTable)
  {
    forall i, j :: 0 <= i < j < |table| ==> table[i].name != table[j].name
  }

  /** No extension is claimed by two entries. */
  predicate DisjointExtensions(table: CategoryTable)
  {
    forall i, j, k :: 0 <= i < j < |table| && 0 <= k < |table[i].extensions| ==>
      table[i].extensions[k] !in table[j].extensions
  }

  /** The category of an already lower-cased extension: the first entry, in table order,
      whose list holds it, and `Others` when none does. */
  function FirstCategory(table: CategoryTable, extension: string): (category: string)
    ensures category == Others || exists i :: 0 <= i < |table| && category == table[i].name
  {
    if table == [] then Others
    else if extension in table[0].extensions then table[0].name
    else FirstCategory(table[1..], extension)
  }

  /** An extension claimed by an entry and by no earlier one gets that entry's category. */
  lemma {:induction false} FirstCategoryFound(table: CategoryTable, extension: string, i: nat)
    requires i < |table| && extension in table[i].extensions
    requires forall j :: 0 <= j < i ==> extension !in table[j].extensions
    ensures FirstCategory(table, extension) == table[i].name
  {
    if i > 0 {
      FirstCategoryFound(table[1..], extension, i - 1);
    }
  }

  /** An extension no entry claims gets `Others`. */
  lemma {:induction false} FirstCategoryNotFound(table: CategoryTable, extension: string)
    requires forall j :: 0 <= j < |table| ==> extension !in table[j].extensions
    ensures FirstCategory(table, extension) == Others
  {
    if table != [] {
      FirstCategoryNotFound(table[1..], extension);
    }
  }

  /** Conversely, every answer comes from one of the two cases above. */
  lemma {:induction false} FirstCategoryCases(table: CategoryTable, extension: string)
    ensures || (exists i :: 0 <= i < |table| && extension in table[i].extensions
                  && (forall j :: 0 <= j < i ==> extension !in table[j].extensions)
                  && FirstCategory(table, extension) == table[i].name)
            || ((forall j :: 0 <= j < |table| ==> extension !in table[j].extensions)
                  && FirstCategory(table, extension) == Others)
  {
    if table != [] && extension !in table[0].extensions {
      FirstCategoryCases(table[1..], extension);
      if i :| 0 <= i < |table| - 1 && extension in table[1..][i].extensions
              && (forall j :: 0 <= j < i ==> extension !in table[1..][j].extensions)
              && FirstCategory(table[1..], extension) == table[1..][i].name {
        assert forall j :: 0 <= j < i + 1 ==> extension !in table[j].extensions by {
          forall j | 0 <= j < i + 1 ensures extension !in table[j].extensions {
            if j > 0 { assert table[j] == table[1..][j - 1]; }
          }
        }
      } else {
        assert forall j :: 0 <= j < |table| ==> extension !in table[j].extensions by {
          forall j | 0 <= j < |table| ensures extension !in table[j].extensions {
            if j > 0 { assert table[j] == table[1..][j - 1]; }
          }
        }
      }
    } else if table != [] {
      assert extension in table[0].extensions;
    }
  }

  /** When the lists are disjoint, an extension's category is the one entry claiming it,
      whatever the order of the entries. */
  lemma ClaimedExtension(table: CategoryTable, i: nat, k: nat)
    requires DisjointExtensions(table)
    requires i < |table| && k < |table[i].extensions|
    ensures FirstCategory(table, table[i].extensions[k]) == table[i].name
  {
    var e := table[i].extensions[k];
    forall j | 0 <= j < i ensures e !in table[j].extensions {
      assert forall m :: 0 <= m < |table[j].extensions| ==> table[j].extensions[m] !in table[i].extensions;
    }
    FirstCategoryFound(table, e, i);
  }

  /** The default table has unique names, disjoint lists and only lower-case extensions. */
  lemma DefaultCategoriesWellFormed()
    ensures DistinctNames(DefaultCategories())
    ensures DisjointExtensions(DefaultCategories())
    ensures forall i, k :: 0 <= i < |DefaultCategories()| && 0 <= k < |DefaultCategories()[i].extensions| ==>
              NoUpperCase(DefaultCategories()[i].extensions[k])
  {
    DefaultNamesDistinct();
    DefaultExtensionsDisjoint();
    DefaultExtensionsLowerCase();
  }

  lemma DefaultNamesDistinct()
    ensures DistinctNames(DefaultCategories())
  {
  }

  /** A key that tells the default extensions, and the attribute names of the settings
      object, apart without comparing whole strings: the length, the second and third
      characters and the last one. */
  function Fingerprint(s: string): (int, char, char, char)
  {
    (|s|, if |s| > 1 then s[1] else ' ', if |s| > 2 then s[2] else ' ', if |s| > 0 then s[|s| - 1] else ' ')
  }

  /** Entry `i` shares no fingerprint with any later entry. */
  predicate SeparatedFromLater(table: CategoryTable, i: nat)
    requires i < |table|
  {
    forall j, k, m :: i < j < |table| && 0 <= k < |table[i].extensions| && 0 <= m < |table[j].extensions| ==>
      Fingerprint(table[i].extensions[k]) != Fingerprint(table[j].extensions[m])
  }

  /** Entries with distinct fingerprints share no extension. */
  lemma SeparatedDisjoint(table: CategoryTable)
    requires forall i :: 0 <= i < |table| ==> SeparatedFromLater(table, i)
    ensures DisjointExtensions(table)
  {
    forall i, j, k | 0 <= i < j < |table| && 0 <= k < |table[i].extensions|
      ensures table[i].extensions[k] !in table[j].extensions
    {
      assert SeparatedFromLater(table, i);
      forall m | 0 <= m < |table[j].extensions| ensures table[j].extensions[m] != table[i].extensions[k] {
        assert Fingerprint(table[i].extensions[k]) != Fingerprint(table[j].extensions[m]);
      }
    }
  }

  lemma DefaultExtensionsDisjoint()
    ensures DisjointExtensions(DefaultCategories())
  {
    DefaultImagesSeparated();
    DefaultDocumentsSeparated();
    DefaultSpreadsheetsSeparated();
    DefaultPresentationsSeparated();
    DefaultArchivesSeparated();
    DefaultExecutablesSeparated();
    DefaultVideosSeparated();
    DefaultAudioAndCodeSeparated();
    SeparatedDisjoint(DefaultCategories());
  }

  lemma DefaultImagesSeparated()
    ensures SeparatedFromLater(DefaultCategories(), 0)
  {
  }

  lemma DefaultDocumentsSeparated()
    ensures SeparatedFromLater(DefaultCategories(), 1)
  {
  }

  lemma DefaultSpreadsheetsSeparated()
    ensures SeparatedFromLater(DefaultCategories(), 2)
  {
  }

  lemma DefaultPresentationsSeparated()
    ensures SeparatedFromLater(DefaultCategories(), 3)
  {
  }

  lemma DefaultArchivesSeparated()
    ensures SeparatedFromLater(DefaultCategories(), 4)
  {
  }

  lemma DefaultExecutablesSeparated()
    ensures SeparatedFromLater(DefaultCategories(), 5)
  {
  }

  lemma DefaultVideosSeparated()
    ensures SeparatedFromLater(DefaultCategories(), 6)
  {
  }

  lemma DefaultAudioAndCodeSeparated()
    ensures SeparatedFromLater(DefaultCategories(), 7)
    ensures SeparatedFromLater(DefaultCategories(), 8)
  {
  }

  lemma DefaultExtensionsLowerCase()
    ensures forall i, k :: 0 <= i < |DefaultCategories()| && 0 <= k < |DefaultCategories()[i].extensions| ==>
              NoUpperCase(DefaultCategories()[i].extensions[k])
  {
  }

  /** An extension gets the same category as its lower-cased form, since the lookup
      lower-cases first: `.JPG` and `.jpg` are alike. */
  lemma LookupIgnoresCase(table: CategoryTable, extension: string)
    ensures FirstCategory(table, Lower(extension)) == FirstCategory(table, Lower(Lower(extension)))
  {
    LowerIdempotent(extension);
  }

  /** With the default table, an extension whose lower-cased form some entry lists gets
      that entry's category, in any letter case. */
  lemma DefaultCategoryOf(extension: string, i: nat)
    requires i < |DefaultCategories()| && Lower(extension) in DefaultCategories()[i].extensions
    ensures FirstCategory(DefaultCategories(), Lower(extension)) == DefaultCategories()[i].name
  {
    DefaultCategoriesWellFormed();
    var table := DefaultCategories();
    var k :| 0 <= k < |table[i].extensions| && table[i].extensions[k] == Lower(extension);
    ClaimedExtension(table, i, k);
  }

  /** Every default extension, as listed, is categorised by its own entry: lower-casing
      leaves it unchanged, and no other entry lists it. */
  lemma DefaultListedExtension(i: nat, k: nat)
    requires i < |DefaultCategories()| && k < |DefaultCategories()[i].extensions|
    ensures FirstCategory(DefaultCategories(), Lower(DefaultCategories()[i].extensions[k]))
            == DefaultCategories()[i].name
  {
    var table := DefaultCategories();
    DefaultCategoriesWellFormed();
    LowerNoUpperCase(table[i].extensions[k]);
    ClaimedExtension(table, i, k);
  }

  /** `.JPG` is an image. */
  lemma UpperCaseJpgIsImage()
    ensures FirstCategory(DefaultCategories(), Lower(".JPG")) == "images"
  {
    assert Lower(".JPG") == ".jpg";
    DefaultCategoryOf(".JPG", 0);
  }
}
