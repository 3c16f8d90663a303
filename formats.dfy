/** The sorter's fixed tables and the pure decisions taken on a single
    name: whether it is protected, and where each pass sends it. */
module Formats {
  import opened Paths

  /** What `is_dir()` / `is_file()` tell apart: a directory or a regular file. */
  datatype Kind = File | Dir

  /** Where a pass sends an entry: nowhere, into a folder under the
      extensionless resolver, or into a folder under the resolver that keeps
      the (lower-cased) extension. */
  datatype Route = Stay | Plain(folder: string) | Extended(folder: string, ext: string)

  const DirectoryFolder: string := "Directory"
  const MiscFolder: string := "Miscellaneous"
  const FixtureScript: string := "generate_testing_files.py"

  /** The extension table, category by category in insertion order. */
  const Table: seq<(string, set<string>)> := [
    ("Music", {".aac", ".alac", ".flac", ".m4a", ".mp3", ".ogg", ".wma"}),
    ("Video", {".avi", ".flv", ".m4v", ".mkv", ".mov", ".mp4", ".webm"}),
    ("Picture", {".ai", ".bmp", ".gif", ".heic", ".heif", ".jpeg", ".jpg", ".png", ".psd",
                 ".raw", ".svg", ".tiff", ".webp", ".xcf"}),
    ("Spreadsheet", {".csv", ".ods", ".xls", ".xlsm", ".xlsx"}),
    ("PowerPoint", {".key", ".odp", ".ppt", ".pptx"}),
    ("Document", {".docx", ".fb2", ".md", ".odt", ".pages", ".pdf", ".rtf", ".rtfd", ".tex", ".txt"}),
    ("Archive", {".7z", ".bz2", ".gz", ".rar", ".tar", ".zip"}),
    ("Ebook", {".azw3", ".epub", ".mobi", ".prc"}),
    ("Development", {".c", ".cpp", ".cs", ".css", ".go", ".h", ".html", ".ipynb", ".java", ".js",
                     ".json", ".php", ".py", ".rs", ".sh", ".ts", ".tsx", ".xml", ".yaml", ".yml"}),
    ("Application", {".appimage", ".bat", ".deb", ".dmg", ".exe", ".img", ".iso", ".msi", ".snap", ".vbs"})
  ]

  /** Every folder the sorter can create: the two implicit ones, then the
      table's keys in order. */
  const FolderList: seq<string> := [
    DirectoryFolder, MiscFolder, "Music", "Video", "Picture", "Spreadsheet", "PowerPoint",
    "Document", "Archive", "Ebook", "Development", "Application"
  ]

  const FolderNames: set<string> := set c | c in FolderList

  function Keys(table: seq<(string, set<string>)>): set<string> {
    set i | 0 <= i < |table| :: table[i].0
  }

  /** `WHITE_LIST`; `script` is the name the program was started under. */
  function WhiteList(script: string): set<string> {
    {DirectoryFolder, MiscFolder, script, FixtureScript}
  }

  /** `white_list`: listed, hidden, or the name of a table category. */
  predicate IsWhiteListed(name: string, script: string) {
    name in WhiteList(script) || (|name| > 0 && name[0] == '.') || name in Keys(Table)
  }

  /** A name is protected exactly when it is one of the two implicit
      folders, the running script or the fixture generator, starts with a
      dot, or names one of the ten categories. */
  lemma WhiteListMeans(name: string, script: string)
    ensures IsWhiteListed(name, script) <==>
      name in {DirectoryFolder, MiscFolder, script, FixtureScript}
      || (|name| > 0 && name[0] == '.')
      || name in {"Music", "Video", "Picture", "Spreadsheet", "PowerPoint",
                  "Document", "Archive", "Ebook", "Development", "Application"}
  {
    KeysOfTable();
  }

  /** The table's categories, in a set. */
  lemma KeysOfTable()
    ensures Keys(Table) == {"Music", "Video", "Picture", "Spreadsheet", "PowerPoint",
                            "Document", "Archive", "Ebook", "Development", "Application"}
  {
    assert Table[0].0 == "Music" && Table[1].0 == "Video" && Table[2].0 == "Picture";
    assert Table[3].0 == "Spreadsheet" && Table[4].0 == "PowerPoint" && Table[5].0 == "Document";
    assert Table[6].0 == "Archive" && Table[7].0 == "Ebook" && Table[8].0 == "Development";
    assert Table[9].0 == "Application";
  }

  /** The scan of the table from row `i` on: the index of the first row whose
      set holds `ext`, or -1. */
  function FirstMatchFrom(table: seq<(string, set<string>)>, ext: string, i: nat): (r: int)
    requires i <= |table|
    ensures r == -1 || i <= r < |table|
    ensures r == -1 <==> forall j :: i <= j < |table| ==> ext !in table[j].1
    ensures r >= 0 ==> ext in table[r].1 && forall j :: i <= j < r ==> ext !in table[j].1
    decreases |table| - i
  {
    if i == |table| then -1
    else if ext in table[i].1 then i
    else FirstMatchFrom(table, ext, i + 1)
  }

  /** The scan of the table in pass 1 (smart_file_sorter.py, lines
      283-293): the first category, in order, whose set holds `ext`, or -1. */
  method FindCategory(ext: string) returns (i: int)
    ensures i == FirstMatchFrom(Table, ext, 0)
  {
    i := 0;
    while i < |Table|
      invariant 0 <= i <= |Table|
      invariant FirstMatchFrom(Table, ext, 0) == FirstMatchFrom(Table, ext, i)
    {
      if ext in Table[i].1 {
        return;
      }
      i := i + 1;
    }
    i := -1;
  }

  /** Where pass 1 sends an entry that is not white-listed. */
  function FirstPassRoute(name: string, kind: Kind): (r: Route)
    ensures r.Plain? || r.Extended? ==> r.folder in FolderNames
    ensures r.Extended? ==> IsExtension(r.ext)
  {
    var ext := Lower(Suffix(name));
    StemAndSuffix(name);
    LowerKeepsForm(Suffix(name));
    if ext == "" then Plain(if kind == Dir then DirectoryFolder else MiscFolder)
    else
      var i := FirstMatchFrom(Table, ext, 0);
      if i < 0 then Stay else KeyIsFolder(i); Extended(Table[i].0, ext)
  }

  lemma KeyIsFolder(i: nat)
    requires i < |Table|
    ensures Table[i].0 in FolderNames
  {
    FolderNamesProtected("");
    assert Table[i].0 in Keys(Table);
  }

  /** Where pass 2 sends an entry that is not white-listed. */
  function SecondPassRoute(name: string, kind: Kind): (r: Route)
    ensures r.Stay? <==> kind == Dir
    ensures kind == File ==> r.Extended?
    ensures r.Extended? ==> r.folder == MiscFolder && IsSuffixForm(r.ext) && r.ext == Lower(Suffix(name))
  {
    StemAndSuffix(name);
    LowerKeepsForm(Suffix(name));
    if kind == Dir then Stay else Extended(MiscFolder, Lower(Suffix(name)))
  }

  /** The folders the sorter creates are exactly the table's keys and the two
      implicit folders, and all of them are white-listed, so a later run never
      moves or re-sorts them. */
  lemma FolderNamesProtected(script: string)
    ensures FolderNames == Keys(Table) + {DirectoryFolder, MiscFolder}
    ensures forall c :: c in FolderNames ==> IsWhiteListed(c, script)
  {
    KeysOfTable();
  }

  /** An extensionless entry goes to Directory when it is a directory and to
      Miscellaneous otherwise; an entry with an extension goes to the first
      row of the table, in order, whose set holds the lower-cased extension,
      and stays where it is when no row does. */
  lemma FirstPassRouteSpec(name: string, kind: Kind)
    ensures Suffix(name) == "" ==>
      FirstPassRoute(name, kind) == Plain(if kind == Dir then DirectoryFolder else MiscFolder)
    ensures Suffix(name) != "" ==>
      (FirstPassRoute(name, kind).Stay? <==> forall j :: 0 <= j < |Table| ==> Lower(Suffix(name)) !in Table[j].1)
    ensures Suffix(name) != "" && !FirstPassRoute(name, kind).Stay? ==>
      exists i :: 0 <= i < |Table| && FirstPassRoute(name, kind) == Extended(Table[i].0, Lower(Suffix(name)))
        && Lower(Suffix(name)) in Table[i].1
        && forall j :: 0 <= j < i ==> Lower(Suffix(name)) !in Table[j].1
  {
    StemAndSuffix(name);
    LowerKeepsForm(Suffix(name));
    var i := FirstMatchFrom(Table, Lower(Suffix(name)), 0);
  }

  /** A directory never lands in Miscellaneous: pass 1 sends it to Directory
      or to a table category, and pass 2 leaves it alone. */
  lemma DirectoriesNeverMiscellaneous(name: string)
    ensures FirstPassRoute(name, Dir) != Plain(MiscFolder)
    ensures !(FirstPassRoute(name, Dir).Extended? && FirstPassRoute(name, Dir).folder == MiscFolder)
    ensures SecondPassRoute(name, Dir) == Stay
  {
    var ext := Lower(Suffix(name));
    if ext != "" {
      var i := FirstMatchFrom(Table, ext, 0);
      if i >= 0 {
        KeyIsNotMiscellaneous(i);
      }
    }
  }

  lemma KeyIsNotMiscellaneous(i: nat)
    requires i < |Table|
    ensures Table[i].0 != MiscFolder
  {
    assert Table[i].0 in FolderList[2..];
  }

  /** Names that differ only in letter case are routed alike in pass 1,
      because the suffix is lower-cased before the lookup. */
  lemma RouteIgnoresCase(a: string, b: string, kind: Kind)
    requires Lower(a) == Lower(b)
    ensures FirstPassRoute(a, kind) == FirstPassRoute(b, kind)
  {
    LowerCommutes(a);
    LowerCommutes(b);
  }

  /** Upper-case and lower-case spellings of a picture both go to Picture. */
  lemma PictureExample()
    ensures FirstPassRoute("IMAGE.PNG", File) == Extended("Picture", ".png")
    ensures FirstPassRoute("image.png", File) == Extended("Picture", ".png")
  {
    SplitAtExtension("IMAGE", ".PNG");
    assert "IMAGE" + ".PNG" == "IMAGE.PNG";
    assert Lower(".PNG") == ".png";
    assert ".png" !in Table[0].1;
    assert ".png" !in Table[1].1;
    assert ".png" in Table[2].1;
    var i := FirstMatchFrom(Table, ".png", 0);
    assert i == 2;
    RouteIgnoresCase("IMAGE.PNG", "image.png", File);
  }

  /** A file whose extension is in no category stays put in pass 1 and goes
      to Miscellaneous, extension kept, in pass 2. */
  lemma DeferredExample()
    ensures FirstPassRoute("data.xyz123", File) == Stay
    ensures SecondPassRoute("data.xyz123", File) == Extended(MiscFolder, ".xyz123")
  {
    SplitAtExtension("data", ".xyz123");
    assert "data" + ".xyz123" == "data.xyz123";
    assert Lower(".xyz123") == ".xyz123";
    UnknownInEarlyRows();
    UnknownInLateRows();
  }

  lemma UnknownInEarlyRows()
    ensures forall j :: 0 <= j < 5 ==> ".xyz123" !in Table[j].1
  {
    forall j | 0 <= j < 5
      ensures ".xyz123" !in Table[j].1
    {
      assert j == 0 || j == 1 || j == 2 || j == 3 || j == 4;
    }
  }

  lemma UnknownInLateRows()
    ensures forall j :: 5 <= j < |Table| ==> ".xyz123" !in Table[j].1
  {
    forall j | 5 <= j < |Table|
      ensures ".xyz123" !in Table[j].1
    {
      assert j == 5 || j == 6 || j == 7 || j == 8 || j == 9;
    }
  }

  /** Only the last extension counts: `fake image.png.pdf` is a document,
      not a picture. */
  lemma FakeImageExample()
    ensures FirstPassRoute("fake image.png.pdf", File) == Extended("Document", ".pdf")
  {
    SplitAtExtension("fake image.png", ".pdf");
    assert "fake image.png" + ".pdf" == "fake image.png.pdf";
    assert Lower(".pdf") == ".pdf";
    assert ".pdf" !in Table[0].1 && ".pdf" !in Table[1].1 && ".pdf" !in Table[2].1;
    assert ".pdf" !in Table[3].1 && ".pdf" !in Table[4].1;
    assert ".pdf" in Table[5].1;
    assert FirstMatchFrom(Table, ".pdf", 0) == 5;
  }

  /** Hidden entries are never touched. */
  lemma HiddenExample(script: string)
    ensures IsWhiteListed(".env", script)
  {
  }
}
