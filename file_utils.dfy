/**
  File-type recognition and path helpers shared by the analyzers: the
  keyword predicates that classify a data file by the first 1000
  characters of its text, the type dispatch that filters a folder
  listing, and the folder-basename / output-directory computation.

  A file's content is an `Option<string>`: `None` stands for a file that
  could not be opened or read, which every predicate answers with false.
  Paths follow the Windows conventions of the program: both `\` and `/`
  separate components and a join inserts `\`.
 */
module FileUtils {
  import opened Common
  import opened Text

  /** Number of characters the predicates read from the start of a file. */
  const HeaderLength: nat := 1000

  function Header(content: string): (h: string)
    ensures |h| <= HeaderLength && |h| <= |content| && h == content[..|h|]
    ensures |content| >= HeaderLength ==> |h| == HeaderLength
  {
    Prefix(content, HeaderLength)
  }

  /** Python's any(k in h for k in keys). */
  predicate ContainsAny(h: string, keys: seq<string>)
    decreases |keys|
  {
    |keys| > 0 && (Contains(h, keys[0]) || ContainsAny(h, keys[1..]))
  }

  lemma {:induction false} ContainsAnyMeaning(h: string, keys: seq<string>)
    ensures ContainsAny(h, keys) <==> exists k :: 0 <= k < |keys| && Contains(h, keys[k])
    decreases |keys|
  {
    if |keys| > 0 {
      ContainsAnyMeaning(h, keys[1..]);
      assert forall k :: 1 <= k < |keys| ==> keys[k] == keys[1..][k - 1];
    }
  }

  const CvKeywords: seq<string> := ["Cyclic Voltammetry", "CYCLIC VOLTAMMETRY"]
  const CvExclusions: seq<string> := [
    "Linear Sweep Voltammetry", "A.C. Impedance", "LSV", "Chronoamperometry",
    "Open Circuit", "EIS", "Tafel"
  ]
  const LsvKeywords: seq<string> := ["Linear Sweep Voltammetry", "LINEAR SWEEP VOLTAMMETRY", "LSV"]
  const EisKeywords: seq<string> := ["A.C. Impedance", "Electrochemical Impedance", "EIS"]

  /** A cyclic-voltammetry file names the technique in its header and
      none of the seven keywords of other techniques. */
  function IsCvFile(content: Option<string>): (b: bool)
    ensures b <==> (content.Some? &&
      (exists k :: 0 <= k < |CvKeywords| && Contains(Header(content.value), CvKeywords[k])) &&
      !(exists k :: 0 <= k < |CvExclusions| && Contains(Header(content.value), CvExclusions[k])))
  {
    match content
    case None => false
    case Some(s) =>
      ContainsAnyMeaning(Header(s), CvKeywords);
      ContainsAnyMeaning(Header(s), CvExclusions);
      ContainsAny(Header(s), CvKeywords) && !ContainsAny(Header(s), CvExclusions)
  }

  /** A linear-sweep file names the technique or "LSV"; there is no exclusion list. */
  function IsLsvFile(content: Option<string>): (b: bool)
    ensures b <==> (content.Some? &&
      exists k :: 0 <= k < |LsvKeywords| && Contains(Header(content.value), LsvKeywords[k]))
  {
    match content
    case None => false
    case Some(s) =>
      ContainsAnyMeaning(Header(s), LsvKeywords);
      ContainsAny(Header(s), LsvKeywords)
  }

  /** An impedance file names one of its three keywords. */
  function IsEisFile(content: Option<string>): (b: bool)
    ensures b <==> (content.Some? &&
      exists k :: 0 <= k < |EisKeywords| && Contains(Header(content.value), EisKeywords[k]))
  {
    match content
    case None => false
    case Some(s) =>
      ContainsAnyMeaning(Header(s), EisKeywords);
      ContainsAny(Header(s), EisKeywords)
  }

  /** Appending text to a file that already has 1000 characters changes no
      classification. */
  lemma TailIrrelevant(s: string, tail: string)
    requires |s| >= HeaderLength
    ensures IsCvFile(Some(s + tail)) == IsCvFile(Some(s))
    ensures IsLsvFile(Some(s + tail)) == IsLsvFile(Some(s))
    ensures IsEisFile(Some(s + tail)) == IsEisFile(Some(s))
  {
    assert Header(s + tail) == Header(s) by {
      assert (s + tail)[..HeaderLength] == s[..HeaderLength];
    }
  }

  /** Python's f.lower().endswith('.txt'). */
  predicate IsTxt(name: string)
  {
    EndsWith(Lower(name), ".txt")
  }

  datatype FileKind = CvKind | LsvKind | EisKind

  /** The detector chosen for a type name, compared after lower-casing. */
  function KindOf(fileType: string): (k: Option<FileKind>)
  {
    var t := Lower(fileType);
    if t == "cv" then Some(CvKind)
    else if t == "lsv" then Some(LsvKind)
    else if t == "eis" then Some(EisKind)
    else None
  }

  lemma {:induction false} LowerIdempotent(s: string)
    ensures Lower(Lower(s)) == Lower(s)
  {
    assert forall i :: 0 <= i < |s| ==> LowerChar(LowerChar(s[i])) == LowerChar(s[i]);
  }

  /** The dispatch ignores case: "CV", "Cv" and "cv" choose the same detector,
      and exactly the three names select one. */
  lemma KindOfCaseInsensitive(fileType: string)
    ensures KindOf(Lower(fileType)) == KindOf(fileType)
    ensures KindOf(fileType).Some? <==> Lower(fileType) in {"cv", "lsv", "eis"}
  {
    LowerIdempotent(fileType);
  }

  /** The detector chosen for a kind. */
  function Detector(kind: FileKind): Option<string> -> bool
  {
    match kind
    case CvKind => IsCvFile
    case LsvKind => IsLsvFile
    case EisKind => IsEisFile
  }

  /** One directory entry: its name and its text (None when unreadable). */
  datatype Entry = Entry(name: string, content: Option<string>)

  predicate IsSep(c: char) { c == '\\' || c == '/' }

  /** Windows os.path.join(a, b) for a relative b without a drive. */
  function PathJoin(a: string, b: string): (r: string)
    ensures r == a + b || r == a + "\\" + b
    ensures a == [] || IsSep(a[|a| - 1]) ==> r == a + b
  {
    if a == [] || IsSep(a[|a| - 1]) then a + b else a + "\\" + b
  }

  /** The `.txt` entries of a listing, in listing order. */
  function TxtEntries(listing: seq<Entry>): (r: seq<Entry>)
    ensures forall k :: 0 <= k < |r| ==> IsTxt(r[k].name)
  {
    if listing == [] then []
    else (if IsTxt(listing[0].name) then [listing[0]] else []) + TxtEntries(listing[1..])
  }

  lemma {:induction false} TxtEntriesMembers(listing: seq<Entry>, e: Entry)
    ensures e in TxtEntries(listing) <==> e in listing && IsTxt(e.name)
  {
    if listing != [] {
      TxtEntriesMembers(listing[1..], e);
      assert listing == [listing[0]] + listing[1..];
    }
  }

  /** The joined path of an entry whose text passes a test. */
  function PathIf(test: Option<string> -> bool, folder: string, e: Entry): Option<string>
  {
    if test(e.content) then Some(PathJoin(folder, e.name)) else None
  }

  function PathsIf(test: Option<string> -> bool, folder: string): Entry -> Option<string>
  {
    e => PathIf(test, folder, e)
  }

  /** The selection every file search performs: the joined paths of the
      entries whose text passes the test, in order. */
  function Selected(test: Option<string> -> bool, folder: string, entries: seq<Entry>): seq<string>
  {
    Collect(PathsIf(test, folder), entries)
  }

  /** The selection loop shared by the file searches. */
  method SelectPaths(test: Option<string> -> bool, folder: string, entries: seq<Entry>)
    returns (paths: seq<string>)
    ensures paths == Selected(test, folder, entries)
  {
    paths := [];
    var i := 0;
    while i < |entries|
      invariant 0 <= i <= |entries|
      invariant paths == Collect(PathsIf(test, folder), entries[..i])
    {
      var hit := None;
      if test(entries[i].content) {
        hit := Some(PathJoin(folder, entries[i].name));
      }
      paths := CollectStep(PathsIf(test, folder), entries, i, paths, hit);
      i := i + 1;
    }
    assert entries[..i] == entries;
  }

  /** A path is selected exactly when an entry of that name passes the test. */
  lemma SelectedMembers(test: Option<string> -> bool, folder: string, entries: seq<Entry>, p: string)
    ensures p in Selected(test, folder, entries) <==>
      exists e :: e in entries && test(e.content) && p == PathJoin(folder, e.name)
  {
    CollectMembers(PathsIf(test, folder), entries, p);
    if p in Collect(PathsIf(test, folder), entries) {
      var j :| 0 <= j < |entries| && PathsIf(test, folder)(entries[j]) == Some(p);
      assert entries[j] in entries;
    }
    if exists e :: e in entries && test(e.content) && p == PathJoin(folder, e.name) {
      var e :| e in entries && test(e.content) && p == PathJoin(folder, e.name);
      var j :| 0 <= j < |entries| && entries[j] == e;
      assert PathsIf(test, folder)(entries[j]) == Some(p);
    }
  }

  /** Selecting from a listing's `.txt` entries: a path is selected exactly
      when a `.txt` entry of that name passes the test. */
  lemma SelectedFromListing(test: Option<string> -> bool, folder: string, listing: seq<Entry>, p: string)
    ensures p in Selected(test, folder, TxtEntries(listing)) <==>
      exists e :: e in listing && IsTxt(e.name) && test(e.content) && p == PathJoin(folder, e.name)
  {
    SelectedMembers(test, folder, TxtEntries(listing), p);
    forall e | e in listing && IsTxt(e.name)
      ensures e in TxtEntries(listing)
    {
      TxtEntriesMembers(listing, e);
    }
    forall e | e in TxtEntries(listing)
      ensures e in listing && IsTxt(e.name)
    {
      TxtEntriesMembers(listing, e);
    }
  }

  function TxtPaths(folder: string, entries: seq<Entry>): seq<string>
  {
    if entries == [] then [] else [PathJoin(folder, entries[0].name)] + TxtPaths(folder, entries[1..])
  }

  /** The selection keeps listing order: it is a subsequence of all the joined paths. */
  lemma {:induction false} SelectedIsSubsequence(test: Option<string> -> bool, folder: string, entries: seq<Entry>)
    ensures IsSubsequence(Selected(test, folder, entries), TxtPaths(folder, entries))
  {
    if entries != [] {
      SelectedIsSubsequence(test, folder, entries[1..]);
      var rest := Selected(test, folder, entries[1..]);
      var p := PathJoin(folder, entries[0].name);
      assert TxtPaths(folder, entries) == [p] + TxtPaths(folder, entries[1..]);
      if test(entries[0].content) {
        assert Selected(test, folder, entries) == [p] + rest;
        assert ([p] + rest)[1..] == rest;
        assert ([p] + TxtPaths(folder, entries[1..]))[1..] == TxtPaths(folder, entries[1..]);
      } else {
        assert Selected(test, folder, entries) == rest;
        SubsequenceCons(rest, p, TxtPaths(folder, entries[1..]));
      }
    }
  }

  /** The file list find_files_by_type returns. */
  function FilesByType(folderExists: bool, folder: string, listing: seq<Entry>, fileType: string): seq<string>
  {
    if !folderExists then []
    else
      var txt := TxtEntries(listing);
      if txt == [] then []
      else match KindOf(fileType)
        case None => []
        case Some(kind) => Selected(Detector(kind), folder, txt)
  }

  method FindFilesByType(folderExists: bool, folder: string, listing: seq<Entry>, fileType: string)
    returns (matching: seq<string>)
    ensures matching == FilesByType(folderExists, folder, listing, fileType)
  {
    matching := [];
    if !folderExists {
      return;
    }
    var txt := TxtEntries(listing);
    var kind := KindOf(fileType);
    if txt == [] || kind.None? {
      return;
    }
    matching := SelectPaths(Detector(kind.value), folder, txt);
  }

  /** The files returned are, in listing order, the `.txt` paths whose
      detector answers true; an unknown type or a missing folder gives []. */
  lemma FilesByTypeProperties(folderExists: bool, folder: string, listing: seq<Entry>, fileType: string, p: string)
    ensures KindOf(fileType).None? || !folderExists ==> FilesByType(folderExists, folder, listing, fileType) == []
    ensures IsSubsequence(FilesByType(folderExists, folder, listing, fileType), TxtPaths(folder, TxtEntries(listing)))
    ensures p in FilesByType(folderExists, folder, listing, fileType) <==>
      folderExists && KindOf(fileType).Some? &&
      exists e :: e in listing && IsTxt(e.name) && Detector(KindOf(fileType).value)(e.content) && p == PathJoin(folder, e.name)
  {
    var txt := TxtEntries(listing);
    var r := FilesByType(folderExists, folder, listing, fileType);
    if folderExists && KindOf(fileType).Some? {
      var kind := KindOf(fileType).value;
      SelectedFromListing(Detector(kind), folder, listing, p);
      SelectedIsSubsequence(Detector(kind), folder, txt);
      if txt == [] {
        assert r == [] && Selected(Detector(kind), folder, txt) == [];
      }
    } else {
      assert r == [] && IsSubsequence(r, TxtPaths(folder, txt));
    }
  }

  /** The position of the last separator, if any. */
  function LastSep(s: string): (r: Option<nat>)
    ensures r.Some? ==> r.value < |s| && IsSep(s[r.value])
    ensures r.Some? ==> forall j :: r.value < j < |s| ==> !IsSep(s[j])
    ensures r.None? ==> forall j :: 0 <= j < |s| ==> !IsSep(s[j])
  {
    if s == [] then None
    else if IsSep(s[|s| - 1]) then Some(|s| - 1)
    else LastSep(s[..|s| - 1])
  }

  /** The final component of a path: the text after the last separator. */
  function LastComponent(s: string): (r: string)
    ensures |r| <= |s| && r == s[|s| - |r|..]
    ensures forall i :: 0 <= i < |r| ==> !IsSep(r[i])
    ensures |r| < |s| ==> IsSep(s[|s| - |r| - 1])
  {
    match LastSep(s)
    case None => s
    case Some(k) => s[k + 1..]
  }

  /** The two path separators, as a set for rstrip. */
  const Seps: set<char> := {'\\', '/'}

  /** os.path.basename(folder.rstrip("\\/")). */
  function FolderBasename(folder: string): string
  {
    LastComponent(RStripChars(folder, Seps))
  }

  /** The basename is the last separator-free run of the folder path, and only
      separators follow it. */
  lemma FolderBasenameShape(folder: string)
    ensures var b := FolderBasename(folder);
      forall i :: 0 <= i < |b| ==> !IsSep(b[i])
    ensures var t := RStripChars(folder, Seps);
      var b := FolderBasename(folder);
      t == t[..|t| - |b|] + b && (|b| < |t| ==> IsSep(t[|t| - |b| - 1]))
    ensures var t := RStripChars(folder, Seps);
      forall i :: |t| <= i < |folder| ==> IsSep(folder[i])
  {
    var t := RStripChars(folder, Seps);
    var b := LastComponent(t);
    assert FolderBasename(folder) == b;
    BasenameSplits(t, b);
    TrailingSeps(folder, t);
  }

  lemma BasenameSplits(t: string, b: string)
    requires |b| <= |t| && b == t[|t| - |b|..]
    ensures t == t[..|t| - |b|] + b
  {
  }

  lemma TrailingSeps(folder: string, t: string)
    requires |t| <= |folder| && forall i :: |t| <= i < |folder| ==> folder[i] in Seps
    ensures forall i :: |t| <= i < |folder| ==> IsSep(folder[i])
  {
    forall i | |t| <= i < |folder|
      ensures IsSep(folder[i])
    {
      assert folder[i] in Seps;
    }
  }

  /** Trailing separators do not change the basename. */
  lemma {:induction false} FolderBasenameTrailing(folder: string)
    ensures FolderBasename(folder + "\\") == FolderBasename(folder)
    ensures FolderBasename(folder + "/") == FolderBasename(folder)
  {
    assert (folder + "\\")[..|folder|] == folder;
    assert (folder + "/")[..|folder|] == folder;
  }

  /** ensure_output_dir's result: the output folder and the folder basename. */
  function OutputDir(folder: string): (r: (string, string))
    ensures r.0 == folder + OutputFolderName || r.0 == folder + "\\" + OutputFolderName
    ensures folder == [] || IsSep(folder[|folder| - 1]) ==> r.0 == folder + OutputFolderName
  {
    (PathJoin(folder, OutputFolderName), FolderBasename(folder))
  }

  /** The sub-folder every analyzer writes its results into. */
  const OutputFolderName: string := "processed_data"

  /** os.path.splitext(os.path.basename(path))[0]: the file name without its
      extension. A leading run of dots is not an extension. */
  function Stem(path: string): (r: string)
  {
    var b := LastComponent(path);
    match LastDot(b)
    case None => b
    case Some(d) => if AllDots(b[..d]) then b else b[..d]
  }

  predicate AllDots(s: string)
  {
    forall i :: 0 <= i < |s| ==> s[i] == '.'
  }

  function LastDot(s: string): (r: Option<nat>)
    ensures r.Some? ==> r.value < |s| && s[r.value] == '.'
    ensures r.Some? ==> forall j :: r.value < j < |s| ==> s[j] != '.'
    ensures r.None? ==> forall j :: 0 <= j < |s| ==> s[j] != '.'
  {
    if s == [] then None
    else if s[|s| - 1] == '.' then Some(|s| - 1)
    else LastDot(s[..|s| - 1])
  }

  /** The stem is a prefix of the file name; when something was removed it is
      the last dot and what follows it, with no separator or dot after the cut. */
  lemma StemShape(path: string)
    ensures var b := LastComponent(path);
      var r := Stem(path);
      |r| <= |b| && r == b[..|r|] &&
      (|r| < |b| ==> b[|r|] == '.' && !AllDots(r) && forall j :: |r| < j < |b| ==> b[j] != '.')
  {
    var b := LastComponent(path);
    match LastDot(b)
    case None =>
      assert Stem(path) == b;
    case Some(d) =>
      if !AllDots(b[..d]) {
        assert Stem(path) == b[..d];
        assert |b[..d]| == d;
      } else {
        assert Stem(path) == b;
      }
  }

  /** The last component of a path ending in a separator-free name is that name. */
  lemma {:induction false} LastComponentSuffix(dir: string, name: string)
    requires dir == [] || IsSep(dir[|dir| - 1])
    requires forall i :: 0 <= i < |name| ==> !IsSep(name[i])
    ensures LastComponent(dir + name) == name
    decreases |name|
  {
    if name == [] {
      assert dir + name == dir;
    } else {
      var init := name[..|name| - 1];
      assert (dir + name)[..|dir + name| - 1] == dir + init;
      LastComponentSuffix(dir, init);
      assert name == init + [name[|name| - 1]];
    }
  }

  /** No character of s is a path separator. */
  predicate SepFree(s: string)
  {
    forall i :: 0 <= i < |s| ==> !IsSep(s[i])
  }

  lemma SepFreeConcat(a: string, b: string)
    requires SepFree(a) && SepFree(b)
    ensures SepFree(a + b)
  {
    forall i | 0 <= i < |a + b|
      ensures !IsSep((a + b)[i])
    {
      if i >= |a| {
        assert (a + b)[i] == b[i - |a|];
      }
    }
  }

  /** A stem holds no separator. */
  lemma StemSepFree(path: string)
    ensures SepFree(Stem(path))
  {
    var b := LastComponent(path);
    match LastDot(b)
    case None =>
    case Some(d) =>
      assert forall i :: 0 <= i < d ==> b[..d][i] == b[i];
  }

  /** Joining a separator-free name onto a folder keeps the folder as the
      prefix, and the name is the last component. */
  lemma JoinLastComponent(folder: string, name: string)
    requires SepFree(name)
    ensures LastComponent(PathJoin(folder, name)) == name
    ensures PathJoin(folder, name)[..|folder|] == folder
  {
    if folder == [] || IsSep(folder[|folder| - 1]) {
      LastComponentSuffix(folder, name);
    } else {
      var dir := folder + "\\";
      assert PathJoin(folder, name) == dir + name;
      LastComponentSuffix(dir, name);
    }
  }

  /** The stem of `dir\base.ext` is `base` when base does not start with a dot
      and the extension holds no dot. */
  lemma StemOfName(dir: string, base: string, ext: string)
    requires dir == [] || IsSep(dir[|dir| - 1])
    requires base != [] && base[0] != '.'
    requires forall i :: 0 <= i < |base| ==> !IsSep(base[i])
    requires forall i :: 0 <= i < |ext| ==> !IsSep(ext[i]) && ext[i] != '.'
    ensures Stem(dir + (base + ['.'] + ext)) == base
  {
    var name := base + ['.'] + ext;
    assert forall i :: 0 <= i < |name| ==> !IsSep(name[i]) by {
      assert forall i :: |base| < i < |name| ==> name[i] == ext[i - |base| - 1];
    }
    LastComponentSuffix(dir, name);
    LastDotOf(base, ext);
    assert name[..|base|] == base;
    assert !AllDots(base);
  }

  lemma LastDotOf(base: string, ext: string)
    requires forall i :: 0 <= i < |ext| ==> ext[i] != '.'
    ensures LastDot(base + ['.'] + ext) == Some(|base|)
  {
    var name := base + ['.'] + ext;
    var d := LastDot(name);
    assert name[|base|] == '.';
    assert d.Some?;
  }

  lemma {:induction false} RStripTrailing(t: string, trail: string, chars: set<char>)
    requires t == [] || t[|t| - 1] !in chars
    requires forall i :: 0 <= i < |trail| ==> trail[i] in chars
    ensures RStripChars(t + trail, chars) == t
    decreases |trail|
  {
    if trail == [] {
      assert t + trail == t;
    } else {
      var init := trail[..|trail| - 1];
      assert (t + trail)[..|t + trail| - 1] == t + init;
      RStripTrailing(t, init, chars);
    }
  }

  /** A folder path `dir\name` followed by any run of separators has
      basename `name`. */
  lemma FolderBasenameOf(dir: string, name: string, trail: string)
    requires dir == [] || IsSep(dir[|dir| - 1])
    requires name != [] && forall i :: 0 <= i < |name| ==> !IsSep(name[i])
    requires forall i :: 0 <= i < |trail| ==> IsSep(trail[i])
    ensures FolderBasename(dir + name + trail) == name
  {
    assert dir + name + trail == (dir + name) + trail;
    assert (dir + name)[|dir + name| - 1] == name[|name| - 1];
    RStripTrailing(dir + name, trail, Seps);
    LastComponentSuffix(dir, name);
  }
}
