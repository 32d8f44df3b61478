/** The naming, manifest and copy policy of the renderer.  Two layouts exist:
    `render_pdf_to_images` in src/utils.py and `render` in scripts/render.py
    put the pictures into a folder named after the document and copy the
    document in beside them; `render` in dev_scripts/render.py puts them next
    to the document.  Rasterising a page is a given function from page
    number to bytes. */
module Raster {
  import opened Results
  import opened PyText
  import opened PageRanges
  import opened Paths
  import opened Files

  datatype Layout =
    | InFolder       // <folder>/<name>.png, plus <folder>/<name>.pdf
    | BesideSource   // <base>.png next to the document

  /** What rendering raises, beyond what the rasteriser itself may raise. */
  datatype RenderError =
    | SourceNotFound(path: string)     // FileNotFoundError before anything else
    | BadPages(error: PageError)       // the resolver's ValueError
    | NotADirectory(folder: string)    // the output folder is a regular file
    | IsADirectory(path: string)       // an output path names a directory

  /** The output folder, and the stem of every output name: the document's
      path with its extension removed. */
  function Folder(pdfPath: string): string
  {
    SplitExt(pdfPath).0
  }

  /** `<stem>.png` for a single selected page, else `<stem>_pNN.png`. */
  function PngName(stem: string, page: int, single: bool): string
  {
    if single then stem + ".png" else stem + "_p" + Pad2(page) + ".png"
  }

  function OutputPath(layout: Layout, pdfPath: string, page: int, single: bool): string
  {
    var base := Folder(pdfPath);
    match layout
    case InFolder => PathJoin(base, PngName(Basename(base), page, single))
    case BesideSource => PngName(base, page, single)
  }

  /** The manifest: one name per selected page, in the order of the pages. */
  function OutputPaths(layout: Layout, pdfPath: string, pages: seq<int>): (r: seq<string>)
    ensures |r| == |pages|
    ensures forall i :: 0 <= i < |pages| ==> r[i] == OutputPath(layout, pdfPath, pages[i], |pages| == 1)
  {
    seq(|pages|, i requires 0 <= i < |pages| => OutputPath(layout, pdfPath, pages[i], |pages| == 1))
  }

  /** Where the document is copied: `<folder>/<name>.pdf`. */
  function CopyPath(pdfPath: string): string
  {
    var base := Folder(pdfPath);
    PathJoin(base, Basename(base) + ".pdf")
  }

  /** The files after writing `raster(pages[i])` to `paths[i]`, in order. */
  function Written(files: map<string, Bytes>, paths: seq<string>, pages: seq<int>, raster: int -> Bytes): (r: map<string, Bytes>)
    requires |paths| == |pages|
    ensures forall k :: k in r <==> k in files || k in paths
    ensures forall k :: k in files && k !in paths ==> r[k] == files[k]
  {
    if paths == [] then files
    else
      var n := |paths| - 1;
      Written(files, paths[..n], pages[..n], raster)[paths[n] := raster(pages[n])]
  }

  /** The position of the first path that is a directory, or the number of
      paths when there is none. */
  function FirstBlocked(paths: seq<string>, dirs: set<string>): (k: nat)
    ensures k <= |paths|
    ensures forall i :: 0 <= i < k ==> paths[i] !in dirs
    ensures k < |paths| ==> paths[k] in dirs
  {
    if paths == [] then 0
    else if paths[0] in dirs then 0
    else 1 + FirstBlocked(paths[1..], dirs)
  }

  /** What a call returns or raises, and the file system it leaves. */
  datatype Outcome = Outcome(result: Result<seq<string>, RenderError>, files: map<string, Bytes>, dirs: set<string>)

  /** The saving loop: each picture is written in turn; the first path that
      is a directory raises, and the pictures saved before it stay. */
  function SaveAll(files: map<string, Bytes>, dirs: set<string>, paths: seq<string>, pages: seq<int>, raster: int -> Bytes): Outcome
    requires |paths| == |pages|
  {
    var k := FirstBlocked(paths, dirs);
    var written := Written(files, paths[..k], pages[..k], raster);
    if k < |paths| then Outcome(Err(IsADirectory(paths[k])), written, dirs)
    else Outcome(Ok(paths), written, dirs)
  }

  /** Copies `src` to `dst` unless something already exists at `dst`. */
  function CopyIfAbsent(files: map<string, Bytes>, dirs: set<string>, src: string, dst: string): map<string, Bytes>
    requires src in files
  {
    if dst in files || dst in dirs then files else files[dst := files[src]]
  }

  /** The reference definition of a render call. */
  function RenderSpec(layout: Layout, files: map<string, Bytes>, dirs: set<string>, pdfPath: string,
                      pageCount: nat, pagesArg: Option<string>, raster: int -> Bytes): Outcome
  {
    if pdfPath !in files then Outcome(Err(SourceNotFound(pdfPath)), files, dirs)
    else
      match Resolve(pagesArg, pageCount)
      case Err(e) => Outcome(Err(BadPages(e)), files, dirs)
      case Ok(pageList) => LayoutSpec(layout, files, dirs, pdfPath, pageList, raster)
  }

  /** The folder layout once the pages are known: create the folder if it
      is absent, save the pictures into it, then copy the document in. */
  function FolderSpec(files: map<string, Bytes>, dirs: set<string>, pdfPath: string, pageList: seq<int>, raster: int -> Bytes): Outcome
    requires pdfPath in files
  {
    var folder := Folder(pdfPath);
    if folder in files then Outcome(Err(NotADirectory(folder)), files, dirs)
    else
      var dirs1 := dirs + {folder};
      var saved := SaveAll(files, dirs1, OutputPaths(InFolder, pdfPath, pageList), pageList, raster);
      if saved.result.Err? then saved
      else Outcome(saved.result, CopyIfAbsent(saved.files, dirs1, pdfPath, CopyPath(pdfPath)), dirs1)
  }

  // ---------------------------------------------------------------------
  // The renderers

  /** The saving loop of both renderers: one name per page, the picture of
      the page written under it, the name appended to the manifest. */
  method SavePages(fs: FileSystem, layout: Layout, pdfPath: string, pageList: seq<int>, raster: int -> Bytes)
    returns (r: Result<seq<string>, RenderError>)
    requires fs.Valid()
    modifies fs
    ensures fs.Valid()
    ensures Outcome(r, fs.files, fs.dirs) ==
      SaveAll(old(fs.files), old(fs.dirs), OutputPaths(layout, pdfPath, pageList), pageList, raster)
  {
    ghost var paths := OutputPaths(layout, pdfPath, pageList);
    ghost var files0, dirs0 := fs.files, fs.dirs;
    var single := |pageList| == 1;
    var saved: seq<string> := [];
    SavedStart(files0, dirs0, paths, pageList, raster);
    for i := 0 to |pageList|
      invariant fs.Valid() && fs.dirs == dirs0
      invariant Saved(files0, dirs0, paths, pageList, raster, i, fs.files, saved)
    {
      var outPath := OutputPath(layout, pdfPath, pageList[i], single);
      assert outPath == paths[i];
      if outPath in fs.dirs {
        SavedBlocked(files0, dirs0, paths, pageList, raster, i, fs.files, saved);
        return Err(IsADirectory(outPath));
      }
      ghost var before := fs.files;
      fs.WriteFile(outPath, raster(pageList[i]));
      SavedNext(files0, dirs0, paths, pageList, raster, i, before, saved);
      saved := saved + [outPath];
    }
    SavedDone(files0, dirs0, paths, pageList, raster, fs.files, saved);
    r := Ok(saved);
  }

  /** The state after the first `i` rounds of the saving loop. */
  predicate Saved(files0: map<string, Bytes>, dirs0: set<string>, paths: seq<string>, pages: seq<int>, raster: int -> Bytes,
                  i: nat, files: map<string, Bytes>, saved: seq<string>)
  {
    && |paths| == |pages| && i <= |paths|
    && saved == paths[..i]
    && (forall j :: 0 <= j < i ==> paths[j] !in dirs0)
    && files == Written(files0, paths[..i], pages[..i], raster)
  }

  lemma SavedStart(files0: map<string, Bytes>, dirs0: set<string>, paths: seq<string>, pages: seq<int>, raster: int -> Bytes)
    requires |paths| == |pages|
    ensures Saved(files0, dirs0, paths, pages, raster, 0, files0, [])
  {
  }

  lemma SavedNext(files0: map<string, Bytes>, dirs0: set<string>, paths: seq<string>, pages: seq<int>, raster: int -> Bytes,
                  i: nat, files: map<string, Bytes>, saved: seq<string>)
    requires Saved(files0, dirs0, paths, pages, raster, i, files, saved)
    requires i < |paths| && paths[i] !in dirs0
    ensures Saved(files0, dirs0, paths, pages, raster, i + 1, files[paths[i] := raster(pages[i])], saved + [paths[i]])
  {
    WrittenNext(files0, paths, pages, raster, i);
    assert paths[..i + 1] == paths[..i] + [paths[i]];
  }

  lemma SavedBlocked(files0: map<string, Bytes>, dirs0: set<string>, paths: seq<string>, pages: seq<int>, raster: int -> Bytes,
                     i: nat, files: map<string, Bytes>, saved: seq<string>)
    requires Saved(files0, dirs0, paths, pages, raster, i, files, saved)
    requires i < |paths| && paths[i] in dirs0
    ensures SaveAll(files0, dirs0, paths, pages, raster) == Outcome(Err(IsADirectory(paths[i])), files, dirs0)
  {
    SaveAllBlocked(files0, dirs0, paths, pages, raster, i);
  }

  lemma SavedDone(files0: map<string, Bytes>, dirs0: set<string>, paths: seq<string>, pages: seq<int>, raster: int -> Bytes,
                  files: map<string, Bytes>, saved: seq<string>)
    requires Saved(files0, dirs0, paths, pages, raster, |paths|, files, saved)
    ensures SaveAll(files0, dirs0, paths, pages, raster) == Outcome(Ok(saved), files, dirs0)
  {
    assert paths[..|paths|] == paths && pages[..|paths|] == pages;
    SaveAllDone(files0, dirs0, paths, pages, raster);
  }

  lemma WrittenNext(files: map<string, Bytes>, paths: seq<string>, pages: seq<int>, raster: int -> Bytes, i: nat)
    requires |paths| == |pages| && i < |paths|
    ensures Written(files, paths[..i + 1], pages[..i + 1], raster) ==
      Written(files, paths[..i], pages[..i], raster)[paths[i] := raster(pages[i])]
  {
    assert paths[..i + 1][..i] == paths[..i] && pages[..i + 1][..i] == pages[..i];
  }

  lemma SaveAllBlocked(files: map<string, Bytes>, dirs: set<string>, paths: seq<string>, pages: seq<int>, raster: int -> Bytes, i: nat)
    requires |paths| == |pages| && i < |paths|
    requires forall j :: 0 <= j < i ==> paths[j] !in dirs
    requires paths[i] in dirs
    ensures SaveAll(files, dirs, paths, pages, raster) ==
      Outcome(Err(IsADirectory(paths[i])), Written(files, paths[..i], pages[..i], raster), dirs)
  {
    var k := FirstBlocked(paths, dirs);
    assert k == i;
  }

  lemma SaveAllDone(files: map<string, Bytes>, dirs: set<string>, paths: seq<string>, pages: seq<int>, raster: int -> Bytes)
    requires |paths| == |pages|
    requires forall j :: 0 <= j < |paths| ==> paths[j] !in dirs
    ensures SaveAll(files, dirs, paths, pages, raster) == Outcome(Ok(paths), Written(files, paths, pages, raster), dirs)
  {
    assert paths[..|paths|] == paths && pages[..|paths|] == pages;
  }

  /** `render_pdf_to_images` (src/utils.py) and `render` (scripts/render.py). */
  method RenderIntoFolder(fs: FileSystem, pdfPath: string, pageCount: nat, pagesArg: Option<string>, raster: int -> Bytes)
    returns (r: Result<seq<string>, RenderError>)
    requires fs.Valid()
    modifies fs
    ensures fs.Valid()
    ensures Outcome(r, fs.files, fs.dirs) ==
      RenderSpec(InFolder, old(fs.files), old(fs.dirs), pdfPath, pageCount, pagesArg, raster)
  {
    if !fs.IsFile(pdfPath) {
      return Err(SourceNotFound(pdfPath));
    }
    var resolved := ParsePageRanges(pagesArg, pageCount);
    if resolved.Err? {
      return Err(BadPages(resolved.error));
    }
    r := RenderIntoFolderPages(fs, pdfPath, resolved.value, raster);
  }

  /** The folder layout once the pages are resolved. */
  method RenderIntoFolderPages(fs: FileSystem, pdfPath: string, pageList: seq<int>, raster: int -> Bytes)
    returns (r: Result<seq<string>, RenderError>)
    requires fs.Valid() && pdfPath in fs.files
    modifies fs
    ensures fs.Valid()
    ensures Outcome(r, fs.files, fs.dirs) == FolderSpec(old(fs.files), old(fs.dirs), pdfPath, pageList, raster)
  {
    var folder := SplitExt(pdfPath).0;
    if !fs.Exists(folder) {
      fs.MakeDirs(folder);
    }
    if fs.IsFile(folder) {
      // The folder exists as a regular file, so the first write into it fails.
      return Err(NotADirectory(folder));
    }
    ghost var dirs1 := old(fs.dirs) + {folder};
    assert fs.dirs == dirs1 && fs.files == old(fs.files);
    r := SavePages(fs, InFolder, pdfPath, pageList, raster);
    ghost var saved := SaveAll(old(fs.files), dirs1, OutputPaths(InFolder, pdfPath, pageList), pageList, raster);
    assert Outcome(r, fs.files, fs.dirs) == saved;
    if r.Err? {
      return;
    }
    assert pdfPath in fs.files;
    var copyPath := PathJoin(folder, Basename(folder) + ".pdf");
    assert copyPath == CopyPath(pdfPath);
    CopyIfMissing(fs, pdfPath, copyPath);
  }

  /** Copies the document to `dst` unless something exists there already. */
  method CopyIfMissing(fs: FileSystem, src: string, dst: string)
    requires fs.Valid() && src in fs.files
    modifies fs
    ensures fs.Valid() && fs.dirs == old(fs.dirs)
    ensures fs.files == CopyIfAbsent(old(fs.files), old(fs.dirs), src, dst)
  {
    if !fs.Exists(dst) {
      var data := fs.ReadFile(src);
      fs.WriteFile(dst, data);
    }
  }

  /** `render` in dev_scripts/render.py: the pictures go next to the
      document; no folder is made and nothing is copied. */
  method RenderBesideSource(fs: FileSystem, pdfPath: string, pageCount: nat, pagesArg: Option<string>, raster: int -> Bytes)
    returns (r: Result<seq<string>, RenderError>)
    requires fs.Valid()
    modifies fs
    ensures fs.Valid()
    ensures Outcome(r, fs.files, fs.dirs) ==
      RenderSpec(BesideSource, old(fs.files), old(fs.dirs), pdfPath, pageCount, pagesArg, raster)
  {
    if !fs.IsFile(pdfPath) {
      return Err(SourceNotFound(pdfPath));
    }
    var resolved := ParsePageRanges(pagesArg, pageCount);
    if resolved.Err? {
      return Err(BadPages(resolved.error));
    }
    r := SavePages(fs, BesideSource, pdfPath, resolved.value, raster);
  }

  // ---------------------------------------------------------------------
  // Names

  lemma MiddleCancel(a: string, x: string, y: string, b: string)
    requires a + x + b == a + y + b
    ensures x == y
  {
    var s := a + x + b;
    assert |x| == |y|;
    assert s[|a|..|a| + |x|] == x;
    assert (a + y + b)[|a|..|a| + |y|] == y;
  }

  /** A multi-page name carries the page number, zero-filled to at least two
      digits, and reading that number back gives the page. */
  lemma PageNumberInName(stem: string, page: int)
    ensures var d := Pad2(page);
      && PngName(stem, page, false) == stem + "_p" + d + ".png"
      && |d| >= 2 && ParseInt(d) == Some(page)
  {
    ParseIntPad2(page);
  }

  /** Different pages get different multi-page names. */
  lemma PngNamesDistinct(stem: string, p: int, q: int)
    requires p != q
    ensures PngName(stem, p, false) != PngName(stem, q, false)
  {
    if PngName(stem, p, false) == PngName(stem, q, false) {
      MiddleCancel(stem + "_p", Pad2(p), Pad2(q), ".png");
      Pad2Injective(p, q);
    }
  }

  /** Every picture name ends in ".png". */
  lemma PngSuffix(stem: string, page: int, single: bool)
    ensures var n := PngName(stem, page, single); |n| >= 4 && n[|n| - 4..] == ".png"
  {
    var n := PngName(stem, page, single);
    if single {
      assert n == stem + ".png";
    } else {
      assert n == (stem + "_p" + Pad2(page)) + ".png";
    }
  }

  /** Picture names in a folder are relative names. */
  lemma PngNameRelative(stem: string, page: int, single: bool)
    requires '/' !in stem
    ensures var n := PngName(stem, page, single); n != "" && n[0] != '/'
  {
    var n := PngName(stem, page, single);
    if stem != "" {
      assert n[0] == stem[0];
    }
  }

  /** Every output path ends in ".png". */
  lemma OutputPathPng(layout: Layout, pdfPath: string, page: int, single: bool)
    ensures var p := OutputPath(layout, pdfPath, page, single); |p| >= 4 && p[|p| - 4..] == ".png"
  {
    var base := Folder(pdfPath);
    match layout
    case InFolder =>
      var n := PngName(Basename(base), page, single);
      PngSuffix(Basename(base), page, single);
      JoinEndsWith(base, n);
      var p := PathJoin(base, n);
      assert p[|p| - 4..] == p[|p| - |n|..][|n| - 4..];
    case BesideSource =>
      PngSuffix(base, page, single);
  }

  /** Distinct pages get distinct output paths. */
  lemma OutputPathsDistinct(layout: Layout, pdfPath: string, pages: seq<int>)
    requires StrictlyAscending(pages)
    ensures Distinct(OutputPaths(layout, pdfPath, pages))
  {
    var paths := OutputPaths(layout, pdfPath, pages);
    forall i, j | 0 <= i < j < |paths| ensures paths[i] != paths[j] {
      var base := Folder(pdfPath);
      assert |pages| != 1 && pages[i] != pages[j];
      match layout
      case InFolder =>
        var stem := Basename(base);
        PngNamesDistinct(stem, pages[i], pages[j]);
        PngNameRelative(stem, pages[i], false);
        PngNameRelative(stem, pages[j], false);
        if paths[i] == paths[j] {
          JoinInjective(base, PngName(stem, pages[i], false), PngName(stem, pages[j], false));
        }
      case BesideSource =>
        PngNamesDistinct(base, pages[i], pages[j]);
    }
  }

  /** The copy of the document is never one of the pictures. */
  lemma CopyNotPicture(pdfPath: string, page: int, single: bool)
    ensures CopyPath(pdfPath) != OutputPath(InFolder, pdfPath, page, single)
  {
    var base := Folder(pdfPath);
    var stem := Basename(base);
    var c, n := stem + ".pdf", PngName(stem, page, single);
    PngSuffix(stem, page, single);
    PngNameRelative(stem, page, single);
    assert c != n by {
      assert c[|c| - 2] == 'd';
      assert n[|n| - 2] == n[|n| - 4..][2];
    }
    if stem != "" {
      assert c[0] == stem[0];
    }
    if PathJoin(base, c) == PathJoin(base, n) {
      JoinInjective(base, c, n);
    }
  }

  /** A relative name joined to the folder of `p` is never `p` itself. */
  lemma JoinedNotSource(p: string, name: string)
    requires name != "" && name[0] != '/'
    ensures PathJoin(Folder(p), name) != p
  {
    var root, ext := SplitExt(p).0, SplitExt(p).1;
    var r := PathJoin(root, name);
    if root == "" || root[|root| - 1] == '/' {
      assert ext == "";
      assert r == root + name;
      assert |r| > |p|;
    } else {
      assert r == root + "/" + name;
      if ext != "" {
        assert r[|root|] == '/' && p[|root|] == ext[0];
      }
    }
  }

  /** In the folder layout no picture and not the copy replaces the
      document itself. */
  lemma FolderOutputsNotSource(pdfPath: string, page: int, single: bool)
    ensures OutputPath(InFolder, pdfPath, page, single) != pdfPath
    ensures CopyPath(pdfPath) != pdfPath
  {
    var base := Folder(pdfPath);
    var stem := Basename(base);
    PngNameRelative(stem, page, single);
    JoinedNotSource(pdfPath, PngName(stem, page, single));
    if stem != "" {
      assert (stem + ".pdf")[0] == stem[0];
    }
    JoinedNotSource(pdfPath, stem + ".pdf");
  }

  /** Next to the document, a picture replaces the document exactly when a
      single page is selected and the document's extension is ".png". */
  lemma BesideOverwritesSource(pdfPath: string, page: int, single: bool)
    ensures OutputPath(BesideSource, pdfPath, page, single) == pdfPath <==> single && SplitExt(pdfPath).1 == ".png"
  {
    var root, ext := SplitExt(pdfPath).0, SplitExt(pdfPath).1;
    assert OutputPath(BesideSource, pdfPath, page, single) == PngName(root, page, single);
    if single {
      SameStem(root, ".png", ext);
    } else {
      OtherSuffix(root, "_p" + Pad2(page) + ".png", ext);
    }
  }

  lemma SameStem(root: string, x: string, y: string)
    ensures root + x == root + y <==> x == y
  {
    if root + x == root + y {
      assert (root + x)[|root|..] == x && (root + y)[|root|..] == y;
    }
  }

  /** A suffix that starts with '_' is never an extension. */
  lemma OtherSuffix(root: string, tail: string, ext: string)
    requires tail != "" && tail[0] == '_'
    requires ext == "" || ext[0] == '.'
    ensures root + tail != root + ext
  {
    assert (root + tail)[|root|] == '_';
    if ext != "" {
      assert (root + ext)[|root|] == '.';
    }
  }

  /** The folder of the document and all output paths in it are distinct. */
  lemma FolderNotOutput(pdfPath: string, page: int, single: bool)
    ensures Folder(pdfPath) != OutputPath(InFolder, pdfPath, page, single)
    ensures Folder(pdfPath) != CopyPath(pdfPath)
  {
    var base := Folder(pdfPath);
    var stem := Basename(base);
    PngNameRelative(stem, page, single);
    JoinNotFolder(base, PngName(stem, page, single));
    if stem != "" {
      assert (stem + ".pdf")[0] == stem[0];
    }
    JoinNotFolder(base, stem + ".pdf");
  }

  /** A document whose name has no extension is its own output folder. */
  lemma NoExtensionFolder(pdfPath: string)
    requires SplitExt(pdfPath).1 == ""
    ensures Folder(pdfPath) == pdfPath
  {
  }

  // ---------------------------------------------------------------------
  // The saving loop

  predicate Distinct(paths: seq<string>)
  {
    forall i, j :: 0 <= i < j < |paths| ==> paths[i] != paths[j]
  }

  /** Updating one key of a map leaves every other key as it was. */
  lemma UpdateElsewhere(m: map<string, Bytes>, k: string, v: Bytes, x: string)
    requires x != k && x in m
    ensures x in m[k := v] && m[k := v][x] == m[x]
  {
  }

  /** With distinct paths, each path holds the picture written under it. */
  lemma {:induction false} WrittenAt(files: map<string, Bytes>, paths: seq<string>, pages: seq<int>, raster: int -> Bytes, i: nat)
    requires |paths| == |pages| && i < |paths|
    requires forall j :: i < j < |paths| ==> paths[j] != paths[i]
    ensures paths[i] in Written(files, paths, pages, raster)
    ensures Written(files, paths, pages, raster)[paths[i]] == raster(pages[i])
    decreases |paths|
  {
    var n := |paths| - 1;
    var p, q := paths[..n], pages[..n];
    assert Written(files, paths, pages, raster) == Written(files, p, q, raster)[paths[n] := raster(pages[n])];
    if i < n {
      forall j | i < j < |p| ensures p[j] != p[i] {
        assert p[j] == paths[j] && p[i] == paths[i];
      }
      WrittenAt(files, p, q, raster, i);
      UpdateElsewhere(Written(files, p, q, raster), paths[n], raster(pages[n]), paths[i]);
    }
  }

  /** Writing pictures that are already in place changes nothing. */
  lemma {:induction false} WrittenNoop(files: map<string, Bytes>, paths: seq<string>, pages: seq<int>, raster: int -> Bytes)
    requires |paths| == |pages|
    requires forall i :: 0 <= i < |paths| ==> paths[i] in files && files[paths[i]] == raster(pages[i])
    ensures Written(files, paths, pages, raster) == files
    decreases |paths|
  {
    if paths != [] {
      var n := |paths| - 1;
      WrittenNoop(files, paths[..n], pages[..n], raster);
    }
  }

  /** The saving loop succeeds exactly when no output path is a directory;
      it then returns the paths, each holding its page's picture, and it
      never touches anything but the output paths. */
  lemma SaveAllFacts(files: map<string, Bytes>, dirs: set<string>, paths: seq<string>, pages: seq<int>, raster: int -> Bytes)
    requires |paths| == |pages| && Distinct(paths)
    ensures var o := SaveAll(files, dirs, paths, pages, raster);
      && o.dirs == dirs
      && (o.result.Ok? <==> forall i :: 0 <= i < |paths| ==> paths[i] !in dirs)
      && (o.result.Ok? ==> o.result.value == paths)
      && (o.result.Err? ==> o.result.error.IsADirectory? && o.result.error.path in paths && o.result.error.path in dirs)
      && (forall k :: k in o.files ==> k in files || k in paths)
      && (forall k :: k in files && k !in paths ==> k in o.files && o.files[k] == files[k])
      && (o.result.Ok? ==> forall i :: 0 <= i < |paths| ==> paths[i] in o.files && o.files[paths[i]] == raster(pages[i]))
  {
    var k := FirstBlocked(paths, dirs);
    var o := SaveAll(files, dirs, paths, pages, raster);
    assert forall x :: x in paths[..k] ==> x in paths;
    if k < |paths| {
      assert paths[k] in paths;
    } else {
      assert paths[..k] == paths && pages[..k] == pages;
      forall i | 0 <= i < |paths| ensures o.files[paths[i]] == raster(pages[i]) {
        WrittenAt(files, paths, pages, raster, i);
      }
    }
  }

  // ---------------------------------------------------------------------
  // The folder layout

  /** No output path in the folder is the folder itself, so creating the
      folder does not block any of them. */
  lemma FolderFree(pdfPath: string, pageList: seq<int>, dirs: set<string>)
    ensures var paths := OutputPaths(InFolder, pdfPath, pageList);
      && (forall i :: 0 <= i < |paths| ==> (paths[i] in dirs + {Folder(pdfPath)} <==> paths[i] in dirs))
      && (CopyPath(pdfPath) in dirs + {Folder(pdfPath)} <==> CopyPath(pdfPath) in dirs)
      && CopyPath(pdfPath) !in paths
      && pdfPath !in paths
  {
    PicturesApart(pdfPath, pageList);
    FolderNotOutput(pdfPath, 0, true);
    ApartFromAll(OutputPaths(InFolder, pdfPath, pageList), Folder(pdfPath), CopyPath(pdfPath), pdfPath, dirs);
  }

  /** Names that differ from the folder are in `dirs + {folder}` only when
      they are in `dirs`. */
  lemma ApartFromAll(paths: seq<string>, folder: string, copy: string, source: string, dirs: set<string>)
    requires forall i :: 0 <= i < |paths| ==> paths[i] != folder && paths[i] != copy && paths[i] != source
    requires folder != copy
    ensures forall i :: 0 <= i < |paths| ==> (paths[i] in dirs + {folder} <==> paths[i] in dirs)
    ensures (copy in dirs + {folder} <==> copy in dirs) && copy !in paths && source !in paths
  {
  }

  lemma PicturesApart(pdfPath: string, pageList: seq<int>)
    ensures var paths := OutputPaths(InFolder, pdfPath, pageList);
      forall i :: 0 <= i < |paths| ==> paths[i] != Folder(pdfPath) && paths[i] != CopyPath(pdfPath) && paths[i] != pdfPath
  {
    var paths := OutputPaths(InFolder, pdfPath, pageList);
    forall i | 0 <= i < |paths|
      ensures paths[i] != Folder(pdfPath) && paths[i] != CopyPath(pdfPath) && paths[i] != pdfPath
    {
      PictureApart(pdfPath, pageList[i], |pageList| == 1);
    }
  }

  /** A picture in the folder is neither the folder, nor the copy, nor the
      document. */
  lemma PictureApart(pdfPath: string, page: int, single: bool)
    ensures var path := OutputPath(InFolder, pdfPath, page, single);
      path != Folder(pdfPath) && path != CopyPath(pdfPath) && path != pdfPath
  {
    FolderNotOutput(pdfPath, page, single);
    CopyNotPicture(pdfPath, page, single);
    FolderOutputsNotSource(pdfPath, page, single);
  }

  /** What the folder layout does once the pages are known. */
  lemma FolderFacts(files: map<string, Bytes>, dirs: set<string>, pdfPath: string, pageList: seq<int>, raster: int -> Bytes)
    requires pdfPath in files && StrictlyAscending(pageList)
    ensures var o := FolderSpec(files, dirs, pdfPath, pageList, raster);
      var folder, paths, copy := Folder(pdfPath), OutputPaths(InFolder, pdfPath, pageList), CopyPath(pdfPath);
      && (folder in files ==> o == Outcome(Err(NotADirectory(folder)), files, dirs))
      && (folder !in files ==> o.dirs == dirs + {folder})
      && (o.result.Ok? <==> folder !in files && forall i :: 0 <= i < |paths| ==> paths[i] !in dirs)
      && (o.result.Ok? ==> o.result.value == paths)
      && (o.result.Err? && folder !in files ==> o.result.error.IsADirectory? && o.result.error.path in paths)
      && (forall k :: k in o.files ==> k in files || k in paths || k == copy)
      && (forall k :: k in files && k !in paths && k != copy ==> k in o.files && o.files[k] == files[k])
      && (o.result.Ok? ==> forall i :: 0 <= i < |paths| ==> paths[i] in o.files && o.files[paths[i]] == raster(pageList[i]))
      && (o.result.Ok? && copy in files ==> o.files[copy] == files[copy])
      && (o.result.Ok? && copy !in files && copy !in dirs ==> copy in o.files && o.files[copy] == files[pdfPath])
      && (copy !in files && copy in dirs ==> copy !in o.files)
      && pdfPath in o.files && o.files[pdfPath] == files[pdfPath]
  {
    var folder, paths, copy := Folder(pdfPath), OutputPaths(InFolder, pdfPath, pageList), CopyPath(pdfPath);
    OutputPathsDistinct(InFolder, pdfPath, pageList);
    FolderFree(pdfPath, pageList, dirs);
    FolderOutputsNotSource(pdfPath, 0, true);
    FolderNotOutput(pdfPath, 0, true);
    if folder !in files {
      FolderSteps(files, dirs, folder, paths, pageList, raster, pdfPath, copy);
    }
  }

  /** `FolderSpec` past the folder check, over any names that keep apart as
      the folder layout's names do. */
  lemma FolderSteps(files: map<string, Bytes>, dirs: set<string>, folder: string, paths: seq<string>, pages: seq<int>,
                    raster: int -> Bytes, src: string, copy: string)
    requires |paths| == |pages| && Distinct(paths) && src in files
    requires folder !in paths && copy !in paths && src !in paths && copy != folder && src != copy
    ensures var dirs1 := dirs + {folder};
      var saved := SaveAll(files, dirs1, paths, pages, raster);
      var o := if saved.result.Err? then saved else Outcome(saved.result, CopyIfAbsent(saved.files, dirs1, src, copy), dirs1);
      && o.dirs == dirs1
      && (o.result.Ok? <==> forall i :: 0 <= i < |paths| ==> paths[i] !in dirs)
      && (o.result.Ok? ==> o.result.value == paths)
      && (o.result.Err? ==> o.result.error.IsADirectory? && o.result.error.path in paths)
      && (forall k :: k in o.files ==> k in files || k in paths || k == copy)
      && (forall k :: k in files && k !in paths && k != copy ==> k in o.files && o.files[k] == files[k])
      && (o.result.Ok? ==> forall i :: 0 <= i < |paths| ==> paths[i] in o.files && o.files[paths[i]] == raster(pages[i]))
      && (o.result.Ok? && copy in files ==> o.files[copy] == files[copy])
      && (o.result.Ok? && copy !in files && copy !in dirs ==> copy in o.files && o.files[copy] == files[src])
      && (copy !in files && copy in dirs ==> copy !in o.files)
      && src in o.files && o.files[src] == files[src]
  {
    var dirs1 := dirs + {folder};
    SaveAllFacts(files, dirs1, paths, pages, raster);
    assert forall i :: 0 <= i < |paths| ==> (paths[i] in dirs1 <==> paths[i] in dirs) by {
      forall i | 0 <= i < |paths| ensures paths[i] != folder {
        assert paths[i] in paths;
      }
    }
  }

  // ---------------------------------------------------------------------
  // Whole calls

  /** The names a call returns when it succeeds: one per resolved page. */
  function Manifest(layout: Layout, pdfPath: string, pageCount: nat, pagesArg: Option<string>): seq<string>
  {
    match Resolve(pagesArg, pageCount)
    case Ok(pageList) => OutputPaths(layout, pdfPath, pageList)
    case Err(_) => []
  }

  /** When a call succeeds: the document exists, the page specification is
      accepted, the output folder (if any) is not a regular file, and no
      output name is a directory. */
  predicate CanRender(layout: Layout, files: map<string, Bytes>, dirs: set<string>, pdfPath: string,
                      pageCount: nat, pagesArg: Option<string>)
  {
    && pdfPath in files
    && Resolve(pagesArg, pageCount).Ok?
    && (layout == InFolder ==> Folder(pdfPath) !in files)
    && var paths := Manifest(layout, pdfPath, pageCount, pagesArg);
       forall i :: 0 <= i < |paths| ==> paths[i] !in dirs
  }

  /** Either layout once the pages are known. */
  function LayoutSpec(layout: Layout, files: map<string, Bytes>, dirs: set<string>, pdfPath: string,
                      pageList: seq<int>, raster: int -> Bytes): Outcome
    requires pdfPath in files
  {
    match layout
    case BesideSource => SaveAll(files, dirs, OutputPaths(BesideSource, pdfPath, pageList), pageList, raster)
    case InFolder => FolderSpec(files, dirs, pdfPath, pageList, raster)
  }

  lemma LayoutFacts(layout: Layout, files: map<string, Bytes>, dirs: set<string>, pdfPath: string,
                    pageList: seq<int>, raster: int -> Bytes)
    requires pdfPath in files && StrictlyAscending(pageList)
    ensures var o := LayoutSpec(layout, files, dirs, pdfPath, pageList, raster);
      var paths, copy := OutputPaths(layout, pdfPath, pageList), layout == InFolder;
      && (o.result.Ok? <==> (layout == InFolder ==> Folder(pdfPath) !in files) && forall i :: 0 <= i < |paths| ==> paths[i] !in dirs)
      && (o.result.Ok? ==> o.result.value == paths)
      && (forall k :: k in o.files ==> k in files || k in paths || (copy && k == CopyPath(pdfPath)))
      && (forall k :: k in files && k !in paths && !(copy && k == CopyPath(pdfPath)) ==> k in o.files && o.files[k] == files[k])
      && (o.result.Ok? ==> forall i :: 0 <= i < |paths| ==> paths[i] in o.files && o.files[paths[i]] == raster(pageList[i]))
  {
    match layout
    case InFolder => FolderFacts(files, dirs, pdfPath, pageList, raster);
    case BesideSource =>
      OutputPathsDistinct(BesideSource, pdfPath, pageList);
      SaveAllFacts(files, dirs, OutputPaths(BesideSource, pdfPath, pageList), pageList, raster);
  }

  /** Everything a successful resolution leads to, in one place; the lemmas
      below pick out one property each. */
  lemma RenderFacts(layout: Layout, files: map<string, Bytes>, dirs: set<string>, pdfPath: string,
                    pageCount: nat, pagesArg: Option<string>, raster: int -> Bytes)
    requires pdfPath in files && Resolve(pagesArg, pageCount).Ok?
    ensures var o := RenderSpec(layout, files, dirs, pdfPath, pageCount, pagesArg, raster);
      var pageList, paths := Resolve(pagesArg, pageCount).value, Manifest(layout, pdfPath, pageCount, pagesArg);
      && (o.result.Ok? <==> CanRender(layout, files, dirs, pdfPath, pageCount, pagesArg))
      && (o.result.Ok? ==> o.result.value == paths)
      && (forall k :: k in o.files ==> k in files || k in paths || (layout == InFolder && k == CopyPath(pdfPath)))
      && (forall k :: k in files && k !in paths && !(layout == InFolder && k == CopyPath(pdfPath)) ==> k in o.files && o.files[k] == files[k])
      && (o.result.Ok? ==> forall i :: 0 <= i < |paths| ==> paths[i] in o.files && o.files[paths[i]] == raster(pageList[i]))
  {
    var pageList := Resolve(pagesArg, pageCount).value;
    ResolveSound(pagesArg, pageCount);
    assert Manifest(layout, pdfPath, pageCount, pagesArg) == OutputPaths(layout, pdfPath, pageList);
    LayoutFacts(layout, files, dirs, pdfPath, pageList, raster);
  }

  /** The checks before anything is written, in the source's order: a
      missing document, then a rejected page specification, then (in the
      folder layout) an output folder that is a regular file.  None of them
      changes the file system. */
  lemma RenderEarlyErrors(layout: Layout, files: map<string, Bytes>, dirs: set<string>, pdfPath: string,
                          pageCount: nat, pagesArg: Option<string>, raster: int -> Bytes)
    ensures var o := RenderSpec(layout, files, dirs, pdfPath, pageCount, pagesArg, raster);
      var pages := Resolve(pagesArg, pageCount);
      && (pdfPath !in files ==> o == Outcome(Err(SourceNotFound(pdfPath)), files, dirs))
      && (pdfPath in files && pages.Err? ==> o == Outcome(Err(BadPages(pages.error)), files, dirs))
      && (pdfPath in files && pages.Ok? && layout == InFolder && Folder(pdfPath) in files ==>
            o == Outcome(Err(NotADirectory(Folder(pdfPath))), files, dirs))
  {
  }

  /** A call succeeds exactly when `CanRender` holds, and then returns the
      manifest. */
  lemma RenderSucceeds(layout: Layout, files: map<string, Bytes>, dirs: set<string>, pdfPath: string,
                       pageCount: nat, pagesArg: Option<string>, raster: int -> Bytes)
    ensures var o := RenderSpec(layout, files, dirs, pdfPath, pageCount, pagesArg, raster);
      && (o.result.Ok? <==> CanRender(layout, files, dirs, pdfPath, pageCount, pagesArg))
      && (o.result.Ok? ==> o.result.value == Manifest(layout, pdfPath, pageCount, pagesArg))
  {
    if pdfPath in files && Resolve(pagesArg, pageCount).Ok? {
      RenderFacts(layout, files, dirs, pdfPath, pageCount, pagesArg, raster);
    }
  }

  /** The manifest has one name per resolved page, in ascending page order:
      `<stem>.png` for a lone page, `<stem>_pNN.png` otherwise, in the
      folder or next to the document. */
  lemma ManifestShape(layout: Layout, pdfPath: string, pageCount: nat, pagesArg: Option<string>)
    requires Resolve(pagesArg, pageCount).Ok?
    ensures var pageList, paths := Resolve(pagesArg, pageCount).value, Manifest(layout, pdfPath, pageCount, pagesArg);
      var base := Folder(pdfPath);
      && StrictlyAscending(pageList) && InBounds(pageList, pageCount)
      && |paths| == |pageList|
      && Distinct(paths)
      && (forall i :: 0 <= i < |paths| ==>
            paths[i] == (if layout == InFolder then PathJoin(base, PngName(Basename(base), pageList[i], |pageList| == 1))
                         else PngName(base, pageList[i], |pageList| == 1)))
  {
    ResolveSound(pagesArg, pageCount);
    OutputPathsDistinct(layout, pdfPath, Resolve(pagesArg, pageCount).value);
  }

  /** After a successful call each name of the manifest holds the picture
      of its page. */
  lemma RenderPictures(layout: Layout, files: map<string, Bytes>, dirs: set<string>, pdfPath: string,
                       pageCount: nat, pagesArg: Option<string>, raster: int -> Bytes)
    ensures var o := RenderSpec(layout, files, dirs, pdfPath, pageCount, pagesArg, raster);
      var paths := Manifest(layout, pdfPath, pageCount, pagesArg);
      o.result.Ok? ==> forall i :: 0 <= i < |paths| ==>
        paths[i] in o.files && o.files[paths[i]] == raster(Resolve(pagesArg, pageCount).value[i])
  {
    if pdfPath in files && Resolve(pagesArg, pageCount).Ok? {
      RenderFacts(layout, files, dirs, pdfPath, pageCount, pagesArg, raster);
    }
  }

  /** Whatever the outcome, only the names of the manifest and, in the
      folder layout, the copy of the document can be new or different. */
  lemma RenderTouchesOnly(layout: Layout, files: map<string, Bytes>, dirs: set<string>, pdfPath: string,
                          pageCount: nat, pagesArg: Option<string>, raster: int -> Bytes)
    ensures var o := RenderSpec(layout, files, dirs, pdfPath, pageCount, pagesArg, raster);
      var paths := Manifest(layout, pdfPath, pageCount, pagesArg);
      && (forall k :: k in o.files ==> k in files || k in paths || (layout == InFolder && k == CopyPath(pdfPath)))
      && (forall k :: k in files && k !in paths && !(layout == InFolder && k == CopyPath(pdfPath)) ==>
            k in o.files && o.files[k] == files[k])
  {
    if pdfPath in files && Resolve(pagesArg, pageCount).Ok? {
      RenderFacts(layout, files, dirs, pdfPath, pageCount, pagesArg, raster);
    }
  }

  /** The folder layout creates the output folder when it gets past the
      checks; next to the document no directory is ever created. */
  lemma RenderDirs(layout: Layout, files: map<string, Bytes>, dirs: set<string>, pdfPath: string,
                   pageCount: nat, pagesArg: Option<string>, raster: int -> Bytes)
    ensures var o := RenderSpec(layout, files, dirs, pdfPath, pageCount, pagesArg, raster);
      o.dirs == if layout == InFolder && pdfPath in files && Resolve(pagesArg, pageCount).Ok? && Folder(pdfPath) !in files
                then dirs + {Folder(pdfPath)} else dirs
  {
    if pdfPath in files && Resolve(pagesArg, pageCount).Ok? {
      var pageList := Resolve(pagesArg, pageCount).value;
      ResolveSound(pagesArg, pageCount);
      match layout
      case InFolder => FolderFacts(files, dirs, pdfPath, pageList, raster);
      case BesideSource =>
        OutputPathsDistinct(BesideSource, pdfPath, pageList);
        SaveAllFacts(files, dirs, OutputPaths(BesideSource, pdfPath, pageList), pageList, raster);
    }
  }

  /** The folder layout never changes the document itself. */
  lemma FolderKeepsSource(files: map<string, Bytes>, dirs: set<string>, pdfPath: string,
                          pageCount: nat, pagesArg: Option<string>, raster: int -> Bytes)
    requires pdfPath in files
    ensures var o := RenderSpec(InFolder, files, dirs, pdfPath, pageCount, pagesArg, raster);
      pdfPath in o.files && o.files[pdfPath] == files[pdfPath]
  {
    if Resolve(pagesArg, pageCount).Ok? {
      ResolveSound(pagesArg, pageCount);
      FolderFacts(files, dirs, pdfPath, Resolve(pagesArg, pageCount).value, raster);
    }
  }

  /** Next to the document, the document survives unless a single page is
      selected and its own extension is ".png". */
  lemma BesideKeepsSource(files: map<string, Bytes>, dirs: set<string>, pdfPath: string,
                          pageCount: nat, pagesArg: Option<string>, raster: int -> Bytes)
    requires pdfPath in files
    requires !(Resolve(pagesArg, pageCount).Ok? && |Resolve(pagesArg, pageCount).value| == 1 && SplitExt(pdfPath).1 == ".png")
    ensures var o := RenderSpec(BesideSource, files, dirs, pdfPath, pageCount, pagesArg, raster);
      pdfPath in o.files && o.files[pdfPath] == files[pdfPath]
  {
    if Resolve(pagesArg, pageCount).Ok? {
      var pageList := Resolve(pagesArg, pageCount).value;
      var paths := OutputPaths(BesideSource, pdfPath, pageList);
      forall i | 0 <= i < |paths| ensures paths[i] != pdfPath {
        BesideOverwritesSource(pdfPath, pageList[i], |pageList| == 1);
      }
      RenderFacts(BesideSource, files, dirs, pdfPath, pageCount, pagesArg, raster);
    }
  }

  /** Next to the document nothing but pictures is written: every name
      that is new or holds new bytes ends in ".png", and no directory
      appears. */
  lemma BesideOnlyPictures(files: map<string, Bytes>, dirs: set<string>, pdfPath: string,
                           pageCount: nat, pagesArg: Option<string>, raster: int -> Bytes)
    ensures var o := RenderSpec(BesideSource, files, dirs, pdfPath, pageCount, pagesArg, raster);
      && o.dirs == dirs
      && forall k :: k in o.files && (k !in files || o.files[k] != files[k]) ==> |k| >= 4 && k[|k| - 4..] == ".png"
  {
    RenderDirs(BesideSource, files, dirs, pdfPath, pageCount, pagesArg, raster);
    RenderTouchesOnly(BesideSource, files, dirs, pdfPath, pageCount, pagesArg, raster);
    var paths := Manifest(BesideSource, pdfPath, pageCount, pagesArg);
    if Resolve(pagesArg, pageCount).Ok? {
      var pageList := Resolve(pagesArg, pageCount).value;
      forall i | 0 <= i < |paths| ensures |paths[i]| >= 4 && paths[i][|paths[i]| - 4..] == ".png" {
        OutputPathPng(BesideSource, pdfPath, pageList[i], |pageList| == 1);
      }
    }
    assert forall k :: k in paths ==> exists i :: 0 <= i < |paths| && paths[i] == k;
  }

  /** The copy of the document in the folder: an existing file there is
      left as it is, a missing one receives the document's bytes, and a
      directory in its place stays a directory. */
  lemma FolderCopy(files: map<string, Bytes>, dirs: set<string>, pdfPath: string,
                   pageCount: nat, pagesArg: Option<string>, raster: int -> Bytes)
    requires files.Keys !! dirs
    ensures var o := RenderSpec(InFolder, files, dirs, pdfPath, pageCount, pagesArg, raster);
      var copy := CopyPath(pdfPath);
      && (copy in files ==> copy in o.files && o.files[copy] == files[copy])
      && (o.result.Ok? && copy !in files && copy !in dirs ==> copy in o.files && o.files[copy] == files[pdfPath])
      && (copy in dirs ==> copy !in o.files && copy in o.dirs)
  {
    if pdfPath in files && Resolve(pagesArg, pageCount).Ok? {
      var pageList := Resolve(pagesArg, pageCount).value;
      ResolveSound(pagesArg, pageCount);
      FolderCopyPages(files, dirs, pdfPath, pageList, raster);
    }
  }

  /** `FolderCopy` once the pages are known. */
  lemma FolderCopyPages(files: map<string, Bytes>, dirs: set<string>, pdfPath: string, pageList: seq<int>, raster: int -> Bytes)
    requires files.Keys !! dirs && pdfPath in files && StrictlyAscending(pageList)
    ensures var o := FolderSpec(files, dirs, pdfPath, pageList, raster);
      var copy := CopyPath(pdfPath);
      && (copy in files ==> copy in o.files && o.files[copy] == files[copy])
      && (o.result.Ok? && copy !in files && copy !in dirs ==> copy in o.files && o.files[copy] == files[pdfPath])
      && (copy in dirs ==> copy !in o.files && copy in o.dirs)
  {
    FolderFacts(files, dirs, pdfPath, pageList, raster);
    FolderFree(pdfPath, pageList, dirs);
    var o := FolderSpec(files, dirs, pdfPath, pageList, raster);
    var copy := CopyPath(pdfPath);
    assert dirs <= o.dirs;
    assert copy in dirs ==> copy !in files;
  }

  /** A document without an extension is its own output folder, so the
      folder layout always stops at the folder check for it. */
  lemma NoExtensionFails(files: map<string, Bytes>, dirs: set<string>, pdfPath: string,
                         pageCount: nat, pagesArg: Option<string>, raster: int -> Bytes)
    requires pdfPath in files && Resolve(pagesArg, pageCount).Ok? && SplitExt(pdfPath).1 == ""
    ensures RenderSpec(InFolder, files, dirs, pdfPath, pageCount, pagesArg, raster).result == Err(NotADirectory(pdfPath))
  {
    NoExtensionFolder(pdfPath);
  }

  /** Rendering into the folder a second time, with the same document and
      pages, finds everything in place and changes nothing. */
  lemma FolderRenderTwice(files: map<string, Bytes>, dirs: set<string>, pdfPath: string,
                          pageCount: nat, pagesArg: Option<string>, raster: int -> Bytes)
    requires files.Keys !! dirs
    requires RenderSpec(InFolder, files, dirs, pdfPath, pageCount, pagesArg, raster).result.Ok?
    ensures var o := RenderSpec(InFolder, files, dirs, pdfPath, pageCount, pagesArg, raster);
      RenderSpec(InFolder, o.files, o.dirs, pdfPath, pageCount, pagesArg, raster) == o
  {
    var pageList := Resolve(pagesArg, pageCount).value;
    ResolveSound(pagesArg, pageCount);
    FolderTwice(files, dirs, pdfPath, pageList, raster);
    FolderFacts(files, dirs, pdfPath, pageList, raster);
  }

  lemma FolderTwice(files: map<string, Bytes>, dirs: set<string>, pdfPath: string, pageList: seq<int>, raster: int -> Bytes)
    requires pdfPath in files && StrictlyAscending(pageList) && files.Keys !! dirs
    requires FolderSpec(files, dirs, pdfPath, pageList, raster).result.Ok?
    ensures var o := FolderSpec(files, dirs, pdfPath, pageList, raster);
      pdfPath in o.files && FolderSpec(o.files, o.dirs, pdfPath, pageList, raster) == o
  {
    var o := FolderSpec(files, dirs, pdfPath, pageList, raster);
    FolderFacts(files, dirs, pdfPath, pageList, raster);
    FolderFree(pdfPath, pageList, dirs);
    FolderNotOutput(pdfPath, 0, true);
    var folder, paths, copy := Folder(pdfPath), OutputPaths(InFolder, pdfPath, pageList), CopyPath(pdfPath);
    assert folder !in o.files;
    assert o.dirs + {folder} == o.dirs;
    forall i | 0 <= i < |paths| ensures paths[i] !in o.dirs {
      assert paths[i] !in dirs;
    }
    SaveAllAgain(o.files, o.dirs, paths, pageList, raster);
    assert copy in o.files || copy in o.dirs;
  }

  /** Saving pictures that are already in place changes nothing. */
  lemma SaveAllAgain(files: map<string, Bytes>, dirs: set<string>, paths: seq<string>, pages: seq<int>, raster: int -> Bytes)
    requires |paths| == |pages|
    requires forall i :: 0 <= i < |paths| ==> paths[i] !in dirs
    requires forall i :: 0 <= i < |paths| ==> paths[i] in files && files[paths[i]] == raster(pages[i])
    ensures SaveAll(files, dirs, paths, pages, raster) == Outcome(Ok(paths), files, dirs)
  {
    SaveAllDone(files, dirs, paths, pages, raster);
    WrittenNoop(files, paths, pages, raster);
  }
}
