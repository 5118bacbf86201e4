/** `ImageService`: finding the photo files of an item under the image root.

    The file system under the image root is a value: the sub-folders in the order
    the host lists them, and for each the names of the files it holds, again in
    listing order. A found photo is a folder name and a file name. */
module ImageService {
  import opened Util
  import opened Text
  import Paths

  /** The extensions tried after an exact name, in this order; also the file types
      a folder scan accepts. */
  const ImageExtensions: seq<string> := [".jpg", ".jpeg", ".png", ".bmp", ".gif", ".tiff"]

  /** The image root: its sub-folders in host listing order, and their file listings. */
  datatype ImageRoot = ImageRoot(dirs: seq<string>, files: map<string, seq<string>>)

  /** The files of one sub-folder (`Directory.GetFiles`); a missing folder lists nothing. */
  function Listing(root: ImageRoot, dir: string): seq<string> {
    if dir in root.files then root.files[dir] else []
  }

  /** A file `file` inside sub-folder `folder` of the image root. */
  datatype ImagePath = ImagePath(folder: string, file: string)

  /** `File.Exists` for a path under the image root. */
  predicate Exists(root: ImageRoot, p: ImagePath) {
    p.folder in root.dirs && p.file in Listing(root, p.folder)
  }

  /** Position of the first folder whose name starts with `prefix`, or `|dirs|`
      (`Directory.GetDirectories(root, prefix + "*")[0]`). */
  function FirstWithPrefix(dirs: seq<string>, prefix: string): (k: nat)
    ensures k <= |dirs|
    ensures k < |dirs| ==> StartsWith(dirs[k], prefix)
    ensures forall j :: 0 <= j < k ==> !StartsWith(dirs[j], prefix)
  {
    if dirs == [] || StartsWith(dirs[0], prefix) then 0 else 1 + FirstWithPrefix(dirs[1..], prefix)
  }

  /** The folder photos of item `number` are looked up in: the first sub-folder whose
      name starts with the item number, if any. */
  function ItemFolder(root: ImageRoot, number: string): Option<string> {
    var k := FirstWithPrefix(root.dirs, number);
    if k < |root.dirs| then Some(root.dirs[k]) else None
  }

  predicate NonEmpty(s: string) {
    s != ""
  }

  /** `ParsePhotoFileNames`: split the Photos field on ',', trim the pieces, drop the
      empty ones. */
  function ParsePhotoFileNames(field: Option<string>): (names: seq<string>)
    ensures forall k :: 0 <= k < |names| ==> names[k] != "" && IsTrimmed(names[k]) && ',' !in names[k]
  {
    if field.None? || field.value == "" then []
    else
      var pieces := Split(field.value, ',');
      var trimmed := seq(|pieces|, i requires 0 <= i < |pieces| => Trim(pieces[i]));
      assert forall x :: x in trimmed ==> IsTrimmed(x) && ',' !in x by {
        forall i | 0 <= i < |trimmed| ensures IsTrimmed(trimmed[i]) && ',' !in trimmed[i] {
          TrimShape(pieces[i]);
          TrimKeepsAbsent(pieces[i], ',');
        }
      }
      var names := Filter(trimmed, NonEmpty);
      assert forall k :: 0 <= k < |names| ==> names[k] in names;
      names
  }

  /** The first `base + ext` for `ext` in `exts` that the folder holds. */
  function ResolveByExtension(root: ImageRoot, folder: string, base: string, exts: seq<string>): (r: Option<ImagePath>)
    ensures r.Some? ==> r.value.folder == folder && r.value.file in Listing(root, folder)
    ensures r.None? <==> forall k :: 0 <= k < |exts| ==> base + exts[k] !in Listing(root, folder)
  {
    if exts == [] then None
    else if base + exts[0] in Listing(root, folder) then Some(ImagePath(folder, base + exts[0]))
    else ResolveByExtension(root, folder, base, exts[1..])
  }

  /** The order of `exts` decides: the result is the earliest extension present. */
  lemma {:induction false} ResolveByExtensionFirst(root: ImageRoot, folder: string, base: string, exts: seq<string>, k: nat)
    requires k < |exts| && base + exts[k] in Listing(root, folder)
    requires forall j :: 0 <= j < k ==> base + exts[j] !in Listing(root, folder)
    ensures ResolveByExtension(root, folder, base, exts) == Some(ImagePath(folder, base + exts[k]))
  {
    if k > 0 {
      ResolveByExtensionFirst(root, folder, base, exts[1..], k - 1);
    }
  }

  /** `FindImageFile`: resolve one photo name inside the item folder, exact name first,
      then the extension-less name with each image extension. */
  function ResolveName(root: ImageRoot, number: string, name: string): (r: Option<ImagePath>)
    ensures r.Some? ==> ItemFolder(root, number) == Some(r.value.folder) && Exists(root, r.value)
  {
    if name == "" then None
    else match ItemFolder(root, number)
      case None => None
      case Some(folder) =>
        if name in Listing(root, folder) then Some(ImagePath(folder, name))
        else ResolveByExtension(root, folder, Paths.FileNameWithoutExtension(name), ImageExtensions)
  }

  /** The resolved names, in the order of `names`; unresolved names contribute nothing. */
  function ResolveAll(root: ImageRoot, number: string, names: seq<string>): (r: seq<ImagePath>)
    ensures |r| <= |names|
    ensures forall p :: p in r ==> ItemFolder(root, number) == Some(p.folder) && Exists(root, p)
  {
    if names == [] then []
    else
      var init := ResolveAll(root, number, names[..|names| - 1]);
      match ResolveName(root, number, names[|names| - 1])
      case None => init
      case Some(p) => init + [p]
  }

  lemma {:induction false} ResolveAllComplete(root: ImageRoot, number: string, names: seq<string>, k: nat)
    requires k < |names| && ResolveName(root, number, names[k]).Some?
    ensures ResolveName(root, number, names[k]).value in ResolveAll(root, number, names)
  {
    var init := names[..|names| - 1];
    if k < |names| - 1 {
      assert init[k] == names[k];
      ResolveAllComplete(root, number, init, k);
    }
  }

  /** A photo named in the Photos field that the item folder holds under exactly that
      name is among the item's images. */
  lemma NamedPhotoFound(root: ImageRoot, number: string, photos: Option<string>, name: string)
    requires number != "" && name in ParsePhotoFileNames(photos)
    requires ItemFolder(root, number).Some? && name in Listing(root, ItemFolder(root, number).value)
    ensures ImagePath(ItemFolder(root, number).value, name) in ImagesFor(root, Some(number), photos)
  {
    var names := ParsePhotoFileNames(photos);
    var k :| 0 <= k < |names| && names[k] == name;
    ResolveAllComplete(root, number, names, k);
  }

  /** A file a folder scan accepts: its lower-cased extension is an image extension. */
  predicate IsImageFile(file: string) {
    Lower(Paths.Extension(file)) in ImageExtensions
  }

  function InFolder(folder: string, files: seq<string>): (r: seq<ImagePath>)
    ensures |r| == |files|
    ensures forall i :: 0 <= i < |files| ==> r[i] == ImagePath(folder, files[i])
  {
    seq(|files|, i requires 0 <= i < |files| => ImagePath(folder, files[i]))
  }

  /** `FindImagesByItemNumber`: every image file of the item folder, sorted by name. */
  function ScanFolder(root: ImageRoot, number: string): seq<ImagePath> {
    match ItemFolder(root, number)
    case None => []
    case Some(folder) => InFolder(folder, SortStrings(Filter(Listing(root, folder), IsImageFile)))
  }

  /** The file names of found photos, in order. */
  function FileNames(ps: seq<ImagePath>): (r: seq<string>)
    ensures |r| == |ps|
    ensures forall i :: 0 <= i < |ps| ==> r[i] == ps[i].file
  {
    seq(|ps|, i requires 0 <= i < |ps| => ps[i].file)
  }

  /** The folder scan yields exactly the image files of the item folder, each as often
      as the folder lists it, ordered by file name; with no item folder it yields nothing. */
  lemma ScanFolderContents(root: ImageRoot, number: string, f: string)
    ensures ItemFolder(root, number).None? ==> ScanFolder(root, number) == []
    ensures SortedStrings(FileNames(ScanFolder(root, number)))
    ensures ItemFolder(root, number).Some? ==>
              && (forall p :: p in ScanFolder(root, number) ==> p.folder == ItemFolder(root, number).value)
              && multiset(FileNames(ScanFolder(root, number)))[f]
                 == (if IsImageFile(f) then multiset(Listing(root, ItemFolder(root, number).value))[f] else 0)
  {
    match ItemFolder(root, number)
    case None =>
    case Some(folder) =>
      var names := SortStrings(Filter(Listing(root, folder), IsImageFile));
      assert FileNames(ScanFolder(root, number)) == names;
      SortStringsSpec(Filter(Listing(root, folder), IsImageFile));
      FilterMultiset(Listing(root, folder), IsImageFile, f);
  }

  /** `FindImages`: the named photos that resolve, or, when none does, the folder scan. */
  function ImagesFor(root: ImageRoot, number: Option<string>, photos: Option<string>): seq<ImagePath> {
    if number.None? || number.value == "" then []
    else
      var named := ResolveAll(root, number.value, ParsePhotoFileNames(photos));
      if named != [] then named else ScanFolder(root, number.value)
  }

  /** Every photo found is an existing file of the item's folder: the first sub-folder
      whose name starts with the item number. */
  lemma ImagesAreInItemFolder(root: ImageRoot, number: Option<string>, photos: Option<string>, p: ImagePath)
    requires p in ImagesFor(root, number, photos)
    ensures number.Some? && ItemFolder(root, number.value) == Some(p.folder)
    ensures p.folder in root.dirs && p.file in Listing(root, p.folder)
  {
    var named := ResolveAll(root, number.value, ParsePhotoFileNames(photos));
    if named == [] {
      var folder := ItemFolder(root, number.value).value;
      var scan := ScanFolder(root, number.value);
      ScanFolderContents(root, number.value, p.file);
      var i :| 0 <= i < |scan| && scan[i] == p;
      assert FileNames(scan)[i] == p.file;
      assert p.file in multiset(FileNames(scan));
      assert p.file in Listing(root, folder);
      var k := FirstWithPrefix(root.dirs, number.value);
      assert root.dirs[k] == folder;
    }
  }

  /** The folder scan is used exactly when no named photo resolves, and then it yields
      precisely the image files of the item folder (with multiplicity), in sorted order. */
  lemma ScanOnlyWhenNothingNamed(root: ImageRoot, number: string, photos: Option<string>)
    requires number != ""
    ensures ResolveAll(root, number, ParsePhotoFileNames(photos)) != [] ==>
              ImagesFor(root, Some(number), photos) == ResolveAll(root, number, ParsePhotoFileNames(photos))
    ensures ResolveAll(root, number, ParsePhotoFileNames(photos)) == [] ==>
              ImagesFor(root, Some(number), photos) == ScanFolder(root, number)
  {
  }

  /** `FindImageWithExtension`: probe `base + ext` for each image extension in turn. */
  method FindImageWithExtension(root: ImageRoot, folder: string, base: string) returns (r: Option<ImagePath>)
    ensures r == ResolveByExtension(root, folder, base, ImageExtensions)
  {
    var i := 0;
    while i < |ImageExtensions|
      invariant 0 <= i <= |ImageExtensions|
      invariant ResolveByExtension(root, folder, base, ImageExtensions)
                == ResolveByExtension(root, folder, base, ImageExtensions[i..])
    {
      var path := ImagePath(folder, base + ImageExtensions[i]);
      if path.file in Listing(root, folder) {
        return Some(path);
      }
      assert ImageExtensions[i..][1..] == ImageExtensions[i + 1..];
      i := i + 1;
    }
    return None;
  }

  /** `FindImageFile`. */
  method FindImageFile(root: ImageRoot, number: string, name: string) returns (r: Option<ImagePath>)
    ensures r == ResolveName(root, number, name)
  {
    if name == "" {
      return None;
    }
    var folder := ItemFolder(root, number);
    if folder.Some? {
      var exact := ImagePath(folder.value, name);
      if exact.file in Listing(root, folder.value) {
        return Some(exact);
      }
      var withExtension := FindImageWithExtension(root, folder.value, Paths.FileNameWithoutExtension(name));
      if withExtension.Some? {
        return withExtension;
      }
    }
    return None;
  }

  /** The loop of `FindImagesByItemNumber`: keep the listed files that are images. */
  method CollectImageFiles(all: seq<string>) returns (names: seq<string>)
    ensures names == Filter(all, IsImageFile)
  {
    names := [];
    for i := 0 to |all|
      invariant names == Filter(all[..i], IsImageFile)
    {
      assert all[..i + 1] == all[..i] + [all[i]];
      FilterAppend(all[..i], [all[i]], IsImageFile);
      if IsImageFile(all[i]) {
        names := names + [all[i]];
      }
    }
    assert all[..|all|] == all;
  }

  /** `FindImagesByItemNumber`: collect the image files of the item folder, then sort. */
  method FindImagesByItemNumber(root: ImageRoot, number: string) returns (images: seq<ImagePath>)
    ensures images == ScanFolder(root, number)
  {
    images := [];
    var folder := ItemFolder(root, number);
    if folder.Some? {
      var names := CollectImageFiles(Listing(root, folder.value));
      images := InFolder(folder.value, SortStrings(names));
    }
  }

  /** The loop of `FindImages`: resolve each name and keep the files that exist. */
  method ResolveNames(root: ImageRoot, number: string, names: seq<string>) returns (images: seq<ImagePath>)
    ensures images == ResolveAll(root, number, names)
  {
    images := [];
    for i := 0 to |names|
      invariant images == ResolveAll(root, number, names[..i])
    {
      assert names[..i + 1][..i] == names[..i];
      var path := FindImageFile(root, number, names[i]);
      if path.Some? && Exists(root, path.value) {
        images := images + [path.value];
      }
    }
    assert names[..|names|] == names;
  }

  /** `FindImages`. */
  method FindImages(root: ImageRoot, number: Option<string>, photos: Option<string>) returns (images: seq<ImagePath>)
    ensures images == ImagesFor(root, number, photos)
    ensures number.None? || number == Some("") ==> images == []
  {
    images := [];
    if number.None? || number.value == "" {
      return;
    }
    var names := ParsePhotoFileNames(photos);
    images := ResolveNames(root, number.value, names);
    if |images| == 0 {
      var scanned := FindImagesByItemNumber(root, number.value);
      images := images + scanned;
    }
  }

  /** `HasImages`. */
  method HasImages(root: ImageRoot, number: Option<string>, photos: Option<string>) returns (has: bool)
    ensures has <==> ImagesFor(root, number, photos) != []
  {
    var images := FindImages(root, number, photos);
    has := |images| > 0;
  }

  /** The image folder an `ImageService` is built with: the configured one when it is
      non-empty, otherwise "data/Gamla Prylar - foton i dbs" under the solution root. */
  function ImageFolderPath(configured: Option<string>, solutionRoot: string): (r: string)
    ensures configured.Some? && configured.value != "" ==> r == configured.value
    ensures configured.None? || configured.value == "" ==>
              r == Paths.Combine(Paths.Combine(solutionRoot, "data"), "Gamla Prylar - foton i dbs")
  {
    if configured.None? || configured.value == "" then
      Paths.Combine(Paths.Combine(solutionRoot, "data"), "Gamla Prylar - foton i dbs")
    else configured.value
  }

  /** One line of the found/expected report. */
  datatype ImageResult = ImageResult(fileName: string, fullPath: string, found: bool)

  /** The full path string of a found photo, under the image folder. */
  function FullPath(imageFolder: string, p: ImagePath): string {
    Paths.Combine(Paths.Combine(imageFolder, p.folder), p.file)
  }

  /** Names are matched without extension and ignoring case. */
  function MatchKey(path: string): string {
    Lower(Paths.FileNameWithoutExtension(path))
  }

  function FoundKeys(imageFolder: string, found: seq<ImagePath>): set<string> {
    set i | 0 <= i < |found| :: MatchKey(FullPath(imageFolder, found[i]))
  }

  /** The report entry of a found photo. */
  function FoundResult(imageFolder: string, p: ImagePath): ImageResult {
    var path := FullPath(imageFolder, p);
    ImageResult(Paths.FileName(path), path, true)
  }

  function FoundResults(imageFolder: string, found: seq<ImagePath>): (r: seq<ImageResult>)
    ensures |r| == |found|
  {
    seq(|found|, i requires 0 <= i < |found| => FoundResult(imageFolder, found[i]))
  }

  /** The expected names whose key matches no found file, in order, as missing entries. */
  function MissingResults(keys: set<string>, expected: seq<string>): (r: seq<ImageResult>)
    ensures |r| <= |expected|
  {
    if expected == [] then []
    else
      var init := MissingResults(keys, expected[..|expected| - 1]);
      var e := expected[|expected| - 1];
      if MatchKey(e) in keys then init else init + [ImageResult(e, "", false)]
  }

  /** `GetImageResults` on given found paths and expected names. */
  function ImageResults(imageFolder: string, found: seq<ImagePath>, expected: seq<string>): seq<ImageResult> {
    FoundResults(imageFolder, found) + MissingResults(FoundKeys(imageFolder, found), expected)
  }

  /** The report lists the found photos first, one entry each, in order, with their file
      name and full path; after them come only missing entries with an empty path, each for
      an expected name that matches no found file; and every expected name that matches no
      found file is reported. */
  lemma {:induction false} ImageResultsShape(imageFolder: string, found: seq<ImagePath>, expected: seq<string>)
    requires forall i :: 0 <= i < |found| ==> Paths.NoSeparators(found[i].file)
    ensures var r := ImageResults(imageFolder, found, expected);
      && |found| <= |r|
      && (forall i :: 0 <= i < |found| ==>
            r[i] == ImageResult(found[i].file, FullPath(imageFolder, found[i]), true))
      && (forall i :: |found| <= i < |r| ==>
            !r[i].found && r[i].fullPath == "" && r[i].fileName in expected &&
            MatchKey(r[i].fileName) !in FoundKeys(imageFolder, found))
      && (forall e :: e in expected && MatchKey(e) !in FoundKeys(imageFolder, found) ==>
            ImageResult(e, "", false) in r[|found|..])
  {
    var r := ImageResults(imageFolder, found, expected);
    forall i | 0 <= i < |found|
      ensures r[i] == ImageResult(found[i].file, FullPath(imageFolder, found[i]), true)
    {
      Paths.FileNameOfCombine(Paths.Combine(imageFolder, found[i].folder), found[i].file);
    }
    var keys := FoundKeys(imageFolder, found);
    MissingResultsShape(keys, expected);
    assert r[|found|..] == MissingResults(keys, expected);
  }

  lemma {:induction false} MissingResultsShape(keys: set<string>, expected: seq<string>)
    ensures forall x :: x in MissingResults(keys, expected) ==>
              !x.found && x.fullPath == "" && x.fileName in expected && MatchKey(x.fileName) !in keys
    ensures forall e :: e in expected && MatchKey(e) !in keys ==> ImageResult(e, "", false) in MissingResults(keys, expected)
  {
    if expected != [] {
      var init := expected[..|expected| - 1];
      MissingResultsShape(keys, init);
      assert expected == init + [expected[|expected| - 1]];
    }
  }

  method CollectFound(imageFolder: string, found: seq<ImagePath>) returns (results: seq<ImageResult>)
    ensures results == FoundResults(imageFolder, found)
  {
    results := [];
    for i := 0 to |found|
      invariant |results| == i
      invariant forall k :: 0 <= k < i ==> results[k] == FoundResult(imageFolder, found[k])
    {
      var path := FullPath(imageFolder, found[i]);
      results := results + [ImageResult(Paths.FileName(path), path, true)];
    }
  }

  method CollectMissing(keys: set<string>, expected: seq<string>) returns (results: seq<ImageResult>)
    ensures results == MissingResults(keys, expected)
  {
    results := [];
    for i := 0 to |expected|
      invariant results == MissingResults(keys, expected[..i])
    {
      assert expected[..i + 1][..i] == expected[..i];
      if MatchKey(expected[i]) !in keys {
        results := results + [ImageResult(expected[i], "", false)];
      }
    }
    assert expected[..|expected|] == expected;
  }

  /** `GetImageResults`: found entries, then the expected names that were not found. */
  method GetImageResults(root: ImageRoot, imageFolder: string, number: Option<string>, photos: Option<string>)
    returns (results: seq<ImageResult>)
    ensures results == ImageResults(imageFolder, ImagesFor(root, number, photos), ParsePhotoFileNames(photos))
  {
    var found := FindImages(root, number, photos);
    var expected := ParsePhotoFileNames(photos);
    var foundPart := CollectFound(imageFolder, found);
    var missingPart := CollectMissing(FoundKeys(imageFolder, found), expected);
    results := foundPart + missingPart;
  }
}
