/** `ImageManagementService.AddImagesToItem`: copy photo files into an item's folder
    without overwriting anything, then record the new names in the item's Photos field.

    The image folder is an `ImageService.ImageRoot` value held by the service and
    replaced as folders are created and files copied. Source files live outside it;
    which source paths exist is a parameter. */
module ImageManagement {
  import opened Util
  import opened Text
  import opened Decimal
  import opened Items
  import Paths
  import ImageService
  import Repository

  type ImageRoot = ImageService.ImageRoot

  // ---------------------------------------------------------------- unique names

  /** `$"{nameWithoutExt}_{counter}{ext}"`. */
  function Candidate(stem: string, k: nat, ext: string): string {
    stem + "_" + NatToString(k) + ext
  }

  /** Different counters give different candidates. */
  lemma CandidateInjective(stem: string, ext: string, j: nat, k: nat)
    requires Candidate(stem, j, ext) == Candidate(stem, k, ext)
    ensures j == k
  {
    var a, b := Candidate(stem, j, ext), Candidate(stem, k, ext);
    var n := |stem| + 1;
    var dj, dk := NatToString(j), NatToString(k);
    assert |dj| == |dk|;
    assert a == (stem + "_") + dj + ext && b == (stem + "_") + dk + ext;
    assert a[n..n + |dj|] == dj;
    assert b[n..n + |dk|] == dk;
    NatToStringInjective(j, k);
  }

  /** The candidates with a counter of `counter` or more that the folder already holds:
      a finite set that shrinks at every step of the `while` loop. */
  ghost function LaterCandidates(listing: seq<string>, stem: string, ext: string, counter: nat): set<string> {
    set x | x in listing && exists k: nat :: counter <= k && x == Candidate(stem, k, ext)
  }

  lemma LaterCandidatesShrink(listing: seq<string>, stem: string, ext: string, counter: nat)
    requires Candidate(stem, counter, ext) in listing
    ensures LaterCandidates(listing, stem, ext, counter + 1) < LaterCandidates(listing, stem, ext, counter)
  {
    var c := Candidate(stem, counter, ext);
    assert c in LaterCandidates(listing, stem, ext, counter);
    if c in LaterCandidates(listing, stem, ext, counter + 1) {
      var k: nat :| counter + 1 <= k && c == Candidate(stem, k, ext);
      CandidateInjective(stem, ext, counter, k);
    }
  }

  /** The counter the renaming loop stops at when started at `counter`: the smallest
      `k >= counter` whose candidate the folder does not hold. */
  function FreeSuffix(listing: seq<string>, stem: string, ext: string, counter: nat): (k: nat)
    ensures counter <= k && Candidate(stem, k, ext) !in listing
    ensures forall j :: counter <= j < k ==> Candidate(stem, j, ext) in listing
    decreases LaterCandidates(listing, stem, ext, counter)
  {
    if Candidate(stem, counter, ext) !in listing then counter
    else
      LaterCandidatesShrink(listing, stem, ext, counter);
      FreeSuffix(listing, stem, ext, counter + 1)
  }

  /** The name a file called `fileName` is copied under into a folder holding `listing`:
      its own name when free, otherwise `stem_k.ext` with the smallest free `k >= 1`. */
  function DestinationName(listing: seq<string>, fileName: string): (dest: string)
    ensures dest !in listing
    ensures fileName !in listing ==> dest == fileName
    ensures fileName in listing ==>
              var stem, ext := Paths.FileNameWithoutExtension(fileName), Paths.Extension(fileName);
              exists k: nat :: 1 <= k && dest == Candidate(stem, k, ext) &&
                (forall j :: 1 <= j < k ==> Candidate(stem, j, ext) in listing)
  {
    if fileName !in listing then fileName
    else
      var stem, ext := Paths.FileNameWithoutExtension(fileName), Paths.Extension(fileName);
      Candidate(stem, FreeSuffix(listing, stem, ext, 1), ext)
  }

  /** The entry recorded in Photos for that copy: the destination without its extension. */
  function PhotoName(listing: seq<string>, fileName: string): string {
    var stem, ext := Paths.FileNameWithoutExtension(fileName), Paths.Extension(fileName);
    if fileName !in listing then stem
    else stem + "_" + NatToString(FreeSuffix(listing, stem, ext, 1))
  }

  /** The recorded entry plus the extension is the file written, whenever the source
      name does not end in '.'. */
  lemma PhotoNameIsDestinationStem(listing: seq<string>, p: string)
    requires var f := Paths.FileName(p); f == [] || f[|f| - 1] != '.'
    ensures PhotoName(listing, Paths.FileName(p)) + Paths.Extension(Paths.FileName(p))
            == DestinationName(listing, Paths.FileName(p))
  {
    Paths.FileNameIsLastPart(p);
    Paths.NameIsStemPlusExtension(Paths.FileName(p));
  }

  // ---------------------------------------------------------------- the copy loop

  /** The folder's files and the recorded names after the copy loop. */
  datatype Copies = Copies(listing: seq<string>, names: seq<string>)

  /** `File.Exists(sourcePath)` for the source files. */
  function SourceExists(sourceFiles: set<string>): string -> bool {
    p => p in sourceFiles
  }

  /** One pass of the `foreach`: a missing source is skipped, an existing one is copied
      to a free name and its photo name recorded. */
  function CopyOne(c: Copies, p: string, sourceFiles: set<string>): Copies {
    if p !in sourceFiles then c
    else
      var fileName := Paths.FileName(p);
      Copies(c.listing + [DestinationName(c.listing, fileName)], c.names + [PhotoName(c.listing, fileName)])
  }

  /** The `foreach` over the sources: every source that exists is copied under its
      destination name and its Photos entry recorded; the others are skipped. */
  function CopyAll(listing: seq<string>, sources: seq<string>, sourceFiles: set<string>): Copies
    decreases |sources|
  {
    if sources == [] then Copies(listing, [])
    else CopyOne(CopyAll(listing, sources[..|sources| - 1], sourceFiles), sources[|sources| - 1], sourceFiles)
  }

  lemma CopyAllPrefix(listing: seq<string>, sources: seq<string>, i: nat, sourceFiles: set<string>)
    requires i < |sources|
    ensures CopyAll(listing, sources[..i + 1], sourceFiles)
            == CopyOne(CopyAll(listing, sources[..i], sourceFiles), sources[i], sourceFiles)
  {
    assert sources[..i + 1][..i] == sources[..i];
  }

  /** Nothing is overwritten: the folder keeps its files in place and gains exactly one
      new file per existing source, each absent from the folder when it was written. */
  lemma {:induction false} CopyAllShape(listing: seq<string>, sources: seq<string>, sourceFiles: set<string>)
    ensures var c := CopyAll(listing, sources, sourceFiles);
      && |c.listing| == |listing| + |c.names|
      && c.listing[..|listing|] == listing
      && |c.names| == |Filter(sources, SourceExists(sourceFiles))|
      && (forall i :: |listing| <= i < |c.listing| ==> c.listing[i] !in c.listing[..i])
    decreases |sources|
  {
    if sources != [] {
      var init, p := sources[..|sources| - 1], sources[|sources| - 1];
      CopyAllShape(listing, init, sourceFiles);
      assert sources == init + [p];
      FilterAppend(init, [p], SourceExists(sourceFiles));
      var c := CopyAll(listing, init, sourceFiles);
      if p in sourceFiles {
        var l := c.listing + [DestinationName(c.listing, Paths.FileName(p))];
        assert l[..|c.listing|] == c.listing;
        assert l[..|listing|] == c.listing[..|listing|];
        forall i | |listing| <= i < |l| ensures l[i] !in l[..i] {
          if i < |c.listing| {
            assert l[..i] == c.listing[..i];
          }
        }
      }
    }
  }

  /** Something is copied exactly when some source exists. */
  lemma CopiesSomething(listing: seq<string>, sources: seq<string>, sourceFiles: set<string>)
    ensures CopyAll(listing, sources, sourceFiles).names != [] <==> exists p :: p in sources && p in sourceFiles
  {
    var e := Filter(sources, SourceExists(sourceFiles));
    CopyAllShape(listing, sources, sourceFiles);
    if exists p :: p in sources && p in sourceFiles {
      var p :| p in sources && p in sourceFiles;
      FilterComplete(sources, SourceExists(sourceFiles), p);
    }
    if e != [] {
      assert e[0] in e;
    }
  }

  // ---------------------------------------------------------------- Photos

  /** The trimmed entries of the old Photos text, when it is not null or empty. */
  function OldEntries(photos: Option<string>): seq<string> {
    if photos.None? || photos.value == "" then [] else Map(Split(photos.value, ','), Trim)
  }

  /** The merged entries: the distinct old entries and new names, first occurrence first. */
  function MergedPhotoList(photos: Option<string>, copied: seq<string>): seq<string> {
    Distinct(OldEntries(photos) + copied)
  }

  /** The new Photos text: the merged entries joined with ", ". */
  function MergedPhotos(photos: Option<string>, copied: seq<string>): string {
    Join(", ", MergedPhotoList(photos, copied))
  }

  /** The merge keeps the distinct old entries in front, in their order, holds every new
      name, holds nothing else, and repeats nothing. */
  lemma MergedPhotoListShape(photos: Option<string>, copied: seq<string>, x: string)
    ensures var merged, kept := MergedPhotoList(photos, copied), Distinct(OldEntries(photos));
      && |kept| <= |merged| && merged[..|kept|] == kept
      && NoDuplicates(merged)
      && (x in merged <==> x in OldEntries(photos) || x in copied)
  {
    var all := OldEntries(photos) + copied;
    DistinctPrefix(OldEntries(photos), copied);
    var merged := MergedPhotoList(photos, copied);
    if x in all {
      var i :| 0 <= i < |all| && all[i] == x;
    }
    if x in merged {
      var i :| 0 <= i < |merged| && merged[i] == x;
    }
  }

  lemma JoinNonEmpty(sep: string, xs: seq<string>)
    requires xs != [] && xs[0] != ""
    ensures Join(sep, xs) != ""
  {
    if |xs| > 1 {
      assert Join(sep, xs) == xs[0] + sep + Join(sep, xs[1..]);
    }
  }

  lemma TrimPieces(pieces: seq<string>, xs: seq<string>)
    requires |pieces| == |xs| >= 1 && pieces[0] == xs[0]
    requires forall k :: 1 <= k < |xs| ==> pieces[k] == " " + xs[k]
    requires forall k :: 0 <= k < |xs| ==> IsTrimmed(xs[k])
    ensures forall k :: 0 <= k < |xs| ==> Trim(pieces[k]) == xs[k]
  {
    forall k | 0 <= k < |xs| ensures Trim(pieces[k]) == xs[k] {
      if k == 0 {
        TrimOfTrimmed(xs[0]);
      } else {
        TrimPadded(" ", xs[k]);
      }
    }
  }

  /** The pieces of a ", "-joined text, trimmed, are the joined entries. */
  lemma TrimmedPiecesOfJoin(xs: seq<string>)
    requires xs != []
    requires forall k :: 0 <= k < |xs| ==> IsTrimmed(xs[k]) && ',' !in xs[k]
    ensures |Split(Join(", ", xs), ',')| == |xs|
    ensures forall k :: 0 <= k < |xs| ==> Trim(Split(Join(", ", xs), ',')[k]) == xs[k]
  {
    assert [','] + " " == ", ";
    assert "" + Join(", ", xs) == Join(", ", xs);
    SplitJoinPadded("", xs, ',', " ");
    assert "" + xs[0] == xs[0];
    TrimPieces(Split(Join(", ", xs), ','), xs);
  }

  /** Photos text written by the merge reads back, through `ParsePhotoFileNames`, as the
      merged entries, provided every entry is non-empty, has no surrounding white space
      and no ','. */
  lemma {:induction false} PhotosReadBack(xs: seq<string>)
    requires forall k :: 0 <= k < |xs| ==> xs[k] != "" && IsTrimmed(xs[k]) && ',' !in xs[k]
    ensures ImageService.ParsePhotoFileNames(Some(Join(", ", xs))) == xs
  {
    if xs != [] {
      JoinNonEmpty(", ", xs);
      TrimmedPiecesOfJoin(xs);
      var pieces := Split(Join(", ", xs), ',');
      var trimmed := seq(|pieces|, i requires 0 <= i < |pieces| => Trim(pieces[i]));
      assert trimmed == xs;
      FilterAll(trimmed, ImageService.NonEmpty);
    } else {
      assert Join(", ", xs) == "";
    }
  }

  // ---------------------------------------------------------------- the operation

  /** `$"{item.Number} {item.Name}"`: a null part prints as nothing. */
  function NewFolderName(item: Item): string {
    (if item.number.Some? then IntToString(item.number.value) else "") + " " + item.name.GetOr("")
  }

  /** `item.Number?.ToString()`. */
  function NumberText(item: Item): Option<string> {
    if item.number.Some? then Some(IntToString(item.number.value)) else None
  }

  /** `Directory.CreateDirectory` for a folder directly under the image root; an existing
      folder is left alone. */
  function WithFolder(root: ImageRoot, folder: string): (r: ImageRoot)
    ensures folder in r.dirs
    ensures ImageService.Listing(r, folder) == if folder in root.dirs then ImageService.Listing(root, folder) else []
    ensures forall d :: d != folder ==> ImageService.Listing(r, d) == ImageService.Listing(root, d)
  {
    if folder in root.dirs then root
    else ImageService.ImageRoot(root.dirs + [folder], root.files[folder := []])
  }

  /** The image root with the files of `folder` replaced. */
  function WithListing(root: ImageRoot, folder: string, listing: seq<string>): ImageRoot {
    root.(files := root.files[folder := listing])
  }

  /** Everything `AddImagesToItem` affects: its result, the image folder, the worksheet
      and the item. */
  datatype Outcome = Outcome(added: bool, root: ImageRoot, sheet: Option<Repository.Sheet>, item: Option<Item>)

  /** The folder the files go to: the located one, else `"{Number} {Name}"`. */
  function TargetFolder(findItemFolder: Option<string> -> Option<string>, item: Item): string {
    var found := findItemFolder(NumberText(item));
    if found.Some? then found.value else NewFolderName(item)
  }

  /** After the copy loop: without copies, false and nothing more; otherwise true, the
      folder's new files, and, when the item has a number, the merged Photos text in
      the worksheet row and in the item. */
  function Finish(root: ImageRoot, sheet: Option<Repository.Sheet>, item: Item, folder: string, c: Copies): Outcome {
    if c.names == [] then Outcome(false, root, sheet, Some(item))
    else
      var root2 := WithListing(root, folder, c.listing);
      if item.number.None? then Outcome(true, root2, sheet, Some(item))
      else
        var photos := MergedPhotos(item.photos, c.names);
        Outcome(true, root2, Repository.PhotosUpdated(sheet, item.number.value, photos),
                Some(item.(photos := Some(photos))))
  }

  /** `AddImagesToItem(item, sources)` when `findItemFolder` locates item folders and the
      source paths in `sourceFiles` exist. A located folder that does not exist makes the
      first copy fail; the exception is caught and nothing has changed by then. */
  function AddImages(root: ImageRoot, sheet: Option<Repository.Sheet>,
                     findItemFolder: Option<string> -> Option<string>,
                     item: Option<Item>, sources: Option<seq<string>>, sourceFiles: set<string>): Outcome
  {
    if item.None? || sources.None? || sources.value == [] then Outcome(false, root, sheet, item)
    else
      var it := item.value;
      var folder := TargetFolder(findItemFolder, it);
      var located := findItemFolder(NumberText(it)).Some?;
      if located && folder !in root.dirs && exists p :: p in sources.value && p in sourceFiles then
        Outcome(false, root, sheet, item)
      else
        var root1 := if located then root else WithFolder(root, folder);
        Finish(root1, sheet, it, folder, CopyAll(ImageService.Listing(root1, folder), sources.value, sourceFiles))
  }

  /** Null item, null or empty source list: false, and nothing changes. */
  lemma NothingToAdd(root: ImageRoot, sheet: Option<Repository.Sheet>, findItemFolder: Option<string> -> Option<string>,
                     item: Option<Item>, sources: Option<seq<string>>, sourceFiles: set<string>)
    requires item.None? || sources.None? || sources.value == []
    ensures AddImages(root, sheet, findItemFolder, item, sources, sourceFiles) == Outcome(false, root, sheet, item)
  {
  }

  /** The files of the target folder before the call (none when it does not exist). */
  function FilesBefore(root: ImageRoot, folder: string): seq<string> {
    if folder in root.dirs then ImageService.Listing(root, folder) else []
  }

  /** The copy loop of a call with an item and a non-empty source list, when it runs. */
  lemma CopyLoopOf(root: ImageRoot, sheet: Option<Repository.Sheet>, findItemFolder: Option<string> -> Option<string>,
                   it: Item, sources: seq<string>, sourceFiles: set<string>)
    requires sources != []
    requires var folder := TargetFolder(findItemFolder, it);
      findItemFolder(NumberText(it)).None? || folder in root.dirs ||
      !exists p :: p in sources && p in sourceFiles
    ensures var folder := TargetFolder(findItemFolder, it);
      var c := CopyAll(FilesBefore(root, folder), sources, sourceFiles);
      var root1 := if findItemFolder(NumberText(it)).Some? then root else WithFolder(root, folder);
      AddImages(root, sheet, findItemFolder, Some(it), Some(sources), sourceFiles) == Finish(root1, sheet, it, folder, c)
  {
    var folder := TargetFolder(findItemFolder, it);
    if findItemFolder(NumberText(it)).Some? && folder !in root.dirs {
      CopiesSomething(ImageService.Listing(root, folder), sources, sourceFiles);
      CopiesSomething([], sources, sourceFiles);
    }
  }

  /** The result is true exactly when some source exists and the folder is usable (not a
      located folder that is missing); a false result leaves the worksheet and the item
      as they were. */
  lemma AddImagesResult(root: ImageRoot, sheet: Option<Repository.Sheet>, findItemFolder: Option<string> -> Option<string>,
                        it: Item, sources: seq<string>, sourceFiles: set<string>)
    requires sources != []
    ensures var o := AddImages(root, sheet, findItemFolder, Some(it), Some(sources), sourceFiles);
      var folder := TargetFolder(findItemFolder, it);
      && (o.added <==> (exists p :: p in sources && p in sourceFiles) &&
                       (findItemFolder(NumberText(it)).None? || folder in root.dirs))
      && (!o.added ==> o.sheet == sheet && o.item == Some(it))
  {
    var folder := TargetFolder(findItemFolder, it);
    if findItemFolder(NumberText(it)).None? || folder in root.dirs || !exists p :: p in sources && p in sourceFiles {
      CopyLoopOf(root, sheet, findItemFolder, it, sources, sourceFiles);
      CopiesSomething(FilesBefore(root, folder), sources, sourceFiles);
    }
  }

  /** After a successful call the target folder exists, keeps its files in place and
      gains exactly one file per existing source; no other folder changes. */
  lemma AddImagesFiles(root: ImageRoot, sheet: Option<Repository.Sheet>, findItemFolder: Option<string> -> Option<string>,
                       it: Item, sources: seq<string>, sourceFiles: set<string>)
    requires sources != []
    requires AddImages(root, sheet, findItemFolder, Some(it), Some(sources), sourceFiles).added
    ensures var o := AddImages(root, sheet, findItemFolder, Some(it), Some(sources), sourceFiles);
      var folder := TargetFolder(findItemFolder, it);
      var before := FilesBefore(root, folder);
      var after := ImageService.Listing(o.root, folder);
      && folder in o.root.dirs
      && (forall d :: d != folder ==> ImageService.Listing(o.root, d) == ImageService.Listing(root, d))
      && |after| == |before| + |Filter(sources, SourceExists(sourceFiles))|
      && after[..|before|] == before
      && (forall i :: |before| <= i < |after| ==> after[i] !in after[..i])
  {
    var folder := TargetFolder(findItemFolder, it);
    AddImagesResult(root, sheet, findItemFolder, it, sources, sourceFiles);
    CopyLoopOf(root, sheet, findItemFolder, it, sources, sourceFiles);
    CopyAllShape(FilesBefore(root, folder), sources, sourceFiles);
  }

  /** Without a located folder the files go to `"{Number} {Name}"`, and that folder
      exists afterwards, whether or not anything was copied. */
  lemma AddImagesNewFolder(root: ImageRoot, sheet: Option<Repository.Sheet>, findItemFolder: Option<string> -> Option<string>,
                           it: Item, sources: seq<string>, sourceFiles: set<string>)
    requires sources != [] && findItemFolder(NumberText(it)).None?
    ensures TargetFolder(findItemFolder, it) == NewFolderName(it)
    ensures NewFolderName(it) in AddImages(root, sheet, findItemFolder, Some(it), Some(sources), sourceFiles).root.dirs
  {
    CopyLoopOf(root, sheet, findItemFolder, it, sources, sourceFiles);
  }

  /** After a successful call an item with a number carries the merged Photos text,
      and the same text is written to its row; an item without a number is unchanged
      and so is the worksheet. */
  lemma AddImagesPhotos(root: ImageRoot, sheet: Option<Repository.Sheet>, findItemFolder: Option<string> -> Option<string>,
                        it: Item, sources: seq<string>, sourceFiles: set<string>)
    requires sources != []
    requires AddImages(root, sheet, findItemFolder, Some(it), Some(sources), sourceFiles).added
    ensures var o := AddImages(root, sheet, findItemFolder, Some(it), Some(sources), sourceFiles);
      var folder := TargetFolder(findItemFolder, it);
      var copied := CopyAll(FilesBefore(root, folder), sources, sourceFiles).names;
      var photos := MergedPhotos(it.photos, copied);
      && (it.number.None? ==> o.sheet == sheet && o.item == Some(it))
      && (it.number.Some? ==>
            o.item == Some(it.(photos := Some(photos))) &&
            o.sheet == Repository.PhotosUpdated(sheet, it.number.value, photos))
  {
    AddImagesResult(root, sheet, findItemFolder, it, sources, sourceFiles);
    CopyLoopOf(root, sheet, findItemFolder, it, sources, sourceFiles);
  }

  // ---------------------------------------------------------------- the service

  class ImageManagementService {
    /** The files under the image folder. */
    var root: ImageRoot
    const repository: Repository.ItemRepository
    /** `ImageService.FindItemFolder`: the name of an item's folder under the image root,
        from the item number's text. */
    const findItemFolder: Option<string> -> Option<string>

    constructor (root: ImageRoot, repository: Repository.ItemRepository,
                 findItemFolder: Option<string> -> Option<string>)
      ensures this.root == root && this.repository == repository && this.findItemFolder == findItemFolder
    {
      this.root := root;
      this.repository := repository;
      this.findItemFolder := findItemFolder;
    }

    /** `Directory.CreateDirectory` when `Directory.Exists` is false. */
    method CreateFolder(folder: string)
      modifies this
      ensures root == WithFolder(old(root), folder)
    {
      if folder !in root.dirs {
        root := ImageService.ImageRoot(root.dirs + [folder], root.files[folder := []]);
      }
    }

    /** `File.Copy(source, Path.Combine(folder, name), overwrite: false)` into an existing
        folder and to a free name. */
    method CopyFile(folder: string, name: string)
      requires folder in root.dirs && name !in ImageService.Listing(root, folder)
      modifies this
      ensures root == WithListing(old(root), folder, ImageService.Listing(old(root), folder) + [name])
    {
      root := root.(files := root.files[folder := ImageService.Listing(root, folder) + [name]]);
    }

    /** The destination of one source: its own name, or the renaming `while` loop. */
    method Destination(folder: string, fileName: string) returns (dest: string, photoName: string)
      ensures dest == DestinationName(ImageService.Listing(root, folder), fileName)
      ensures photoName == PhotoName(ImageService.Listing(root, folder), fileName)
    {
      var listing := ImageService.Listing(root, folder);
      var stem, ext := Paths.FileNameWithoutExtension(fileName), Paths.Extension(fileName);
      dest, photoName := fileName, stem;
      if fileName in listing {
        var counter: nat := 1;
        while Candidate(stem, counter, ext) in listing
          invariant counter >= 1
          invariant FreeSuffix(listing, stem, ext, counter) == FreeSuffix(listing, stem, ext, 1)
          decreases LaterCandidates(listing, stem, ext, counter)
        {
          LaterCandidatesShrink(listing, stem, ext, counter);
          counter := counter + 1;
        }
        dest := Candidate(stem, counter, ext);
        photoName := stem + "_" + NatToString(counter);
      }
    }

    /** The `foreach` over the sources. `failed` is the caught exception of a copy into
        a folder that does not exist. */
    method CopySources(folder: string, sources: seq<string>, sourceFiles: set<string>)
      returns (copied: seq<string>, failed: bool)
      modifies this
      ensures failed <==> folder !in old(root).dirs && exists p :: p in sources && p in sourceFiles
      ensures failed ==> root == old(root)
      ensures !failed ==>
                var c := CopyAll(ImageService.Listing(old(root), folder), sources, sourceFiles);
                copied == c.names &&
                root == if copied == [] then old(root) else WithListing(old(root), folder, c.listing)
    {
      ghost var before := ImageService.Listing(root, folder);
      ghost var c := Copies(before, []);
      copied, failed := [], false;
      for i := 0 to |sources|
        invariant c == CopyAll(before, sources[..i], sourceFiles)
        invariant copied == c.names
        invariant copied == [] ==> c.listing == before && root == old(root)
        invariant copied != [] ==> root == WithListing(old(root), folder, c.listing)
        invariant folder !in old(root).dirs ==> copied == []
        invariant folder !in old(root).dirs ==> forall j :: 0 <= j < i ==> sources[j] !in sourceFiles
      {
        var p := sources[i];
        CopyAllPrefix(before, sources, i, sourceFiles);
        if p in sourceFiles {
          if folder !in root.dirs {
            assert p in sources;
            return [], true;
          }
          assert ImageService.Listing(root, folder) == c.listing;
          var dest, photoName := Destination(folder, Paths.FileName(p));
          CopyFile(folder, dest);
          c := CopyOne(c, p, sourceFiles);
          copied := copied + [photoName];
        }
      }
      assert sources[..|sources|] == sources;
    }

    /** `AddImagesToItem`. The item is a value: the updated item is returned. */
    method AddImagesToItem(item: Option<Item>, sources: Option<seq<string>>, sourceFiles: set<string>)
      returns (added: bool, after: Option<Item>)
      requires item.Some? && item.value.number.Some? ==> IsInt32(item.value.number.value)
      modifies this, repository
      ensures Outcome(added, root, repository.sheet, after)
              == AddImages(old(root), old(repository.sheet), findItemFolder, item, sources, sourceFiles)
    {
      added, after := false, item;
      if item.None? || sources.None? || |sources.value| == 0 {
        return;
      }
      var it := item.value;
      var found := findItemFolder(NumberText(it));
      var folder;
      if found.None? {
        folder := NewFolderName(it);
        CreateFolder(folder);
      } else {
        folder := found.value;
      }
      var copied, failed := CopySources(folder, sources.value, sourceFiles);
      if failed || |copied| == 0 {
        return;
      }
      var photoString := MergedPhotos(it.photos, copied);
      if it.number.Some? {
        repository.UpdateItemPhotos(it.number.value, photoString);
        after := Some(it.(photos := Some(photoString)));
      }
      added := true;
    }
  }
}
