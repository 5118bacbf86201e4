# PrylDatabas core, modelled in Dafny

PrylDatabas is a desktop catalogue of old objects ("prylar"). The items live in one
worksheet of an Excel file. Their photos live in per-item sub-folders of an image
folder. This project models and proves the logic underneath the user interface:

- **Finding an item's photos** (`ImageService`). The Photos cell is a comma-separated
  list of names. Each name is resolved in the first sub-folder whose name starts with
  the item number: the exact name first, then the name without extension plus
  `.jpg`, `.jpeg`, `.png`, `.bmp`, `.gif` and `.tiff`, in that order. When no name
  resolves, every image file in the folder is used instead, sorted. The
  found/missing report lists the found files first, then the expected names that
  were not found.
- **Attaching photos** (`ImageManagementService.AddImagesToItem`). The files are
  copied into the item's folder, which is created as `"{Number} {Name}"` when none
  is found. A file is never overwritten: a clashing name gets the smallest free
  `_k` suffix. The Photos cell becomes the `", "`-join of the distinct old entries
  and new names.
- **Reading and updating the worksheet** (`ItemRepository`).
  - The header row becomes a column map (trimmed, lower-cased keys, 0-based).
  - Each data row becomes an `Item`, read through trimmed, non-empty cell reads.
  - The Photos cell of the first row with a given number can be rewritten.
- **The item list** (`MainWindowViewModel`). Its state is the sort column, the sort
  direction, the search text and the selected category.
  - The shown list is computed in three steps: search filter, then category filter,
    then a stable sort.
  - The category list is "Alla" followed by the distinct categories, in order.
  - Clicking a header flips the direction or switches the column.
- **Settings** (`SettingsService`). A file of `Key=value` lines is read by
  first-match lookup, and three lines are written on save.
- **Sort arrows** (`SortIndicatorConverter`). The arrow shown in a column header.

The file system under the image folder is a value: its sub-folders in the host's
listing order, and for each one its file names in listing order. A worksheet is a
sequence of rows of cell texts. The settings file is its text, or nothing when it
is missing. Objects whose fields the application changes are Dafny classes:

- `ItemRepository` (the worksheet);
- `ImageManagementService` (the image folder);
- `MainWindowViewModel` (items, shown list, categories and view state).

Each of their methods is proved against a function of the old state. The lemmas
about those functions state what the application promises.

Modules:

- `Util`: option, filter, map, distinct.
- `Text`: trim, lower-case, split, join, ordinal order, string sort.
- `Decimal`: `int.ToString` and `int.TryParse`.
- `Paths`: the parts of `System.IO.Path` that are used.
- `Items`: the `Item` record.
- `ImageService`.
- `Repository`.
- `ImageManagement`.
- `ViewModel`.
- `Settings`.
- `SortIndicator`.

## Model

| member | source | states |
|---|---|---|
| Decimal.ParseIntRoundTrip | PrylDatabas/Models/ItemRepository.cs:198-199 | `int.TryParse` of the decimal text of any 32-bit number gives back that number |
| Decimal.IntToString | PrylDatabas/Models/ItemRepository.cs:198-199 | `int.ToString()`: a leading `-` for a negative number, then the digits of its magnitude; characterised by NatRoundTrip and ParseIntRoundTrip |
| Decimal.ParseInt | PrylDatabas/Models/ItemRepository.cs:199 | a successful parse yields a 32-bit value, from text that begins with a digit or a sign |
| Decimal.NatToStringInjective | PrylDatabas/Services/ImageManagementService.cs:72-74 | different counters print as different digit strings |
| Paths.FileNameIsLastPart | PrylDatabas/Services/ImageManagementService.cs:63 | `GetFileName` is the longest separator-free suffix of the path |
| Paths.NameIsStemPlusExtension | PrylDatabas/Services/ImageManagementService.cs:63-65 | a file name is its extension-less name followed by its extension, except that a trailing '.' is dropped with an empty extension |
| Paths.FileNameOfCombine | PrylDatabas/Models/ImageService.cs:249-252 | the file name of `Combine(folder, name)` is `name` when `name` holds no separator |
| Util.Distinct | PrylDatabas/ViewModels/MainWindowViewModel.cs:130 | `Distinct()` keeps exactly the elements of its input, each once |
| Util.DistinctPrefix | PrylDatabas/Services/ImageManagementService.cs:95-96 | the distinct elements of `a` are a prefix of the distinct elements of `a + b`, in first-occurrence order |
| Text.TrimShape | PrylDatabas/Models/ItemRepository.cs:242 | `Trim()` gives a string without surrounding white space, made of the input's characters, empty exactly for all-white-space input |
| Text.TrimPadded | PrylDatabas/Services/ImageManagementService.cs:92 | trimming white space put in front of a trimmed string gives back that string |
| Text.JoinSplit | PrylDatabas/Services/ImageManagementService.cs:92 | joining the pieces of `Split(c)` with `c` restores the text |
| Text.SplitJoinPadded | PrylDatabas/Services/ImageManagementService.cs:96 | splitting a `", "`-join on ',' gives one piece per entry, each after the first led by the space |
| Text.LessEqTransitive | PrylDatabas/ViewModels/MainWindowViewModel.cs:131 | the string order is transitive (with LessEqTotal, a total preorder for the sorts) |
| Text.LessEqCommonPrefix | PrylDatabas/Models/ImageService.cs:134 | full paths in one folder sort as their file names do |
| Text.SortStringsSpec | PrylDatabas/Models/ImageService.cs:134 | the string sort yields an ordered permutation of its input |
| ImageService.FirstWithPrefix | PrylDatabas/Models/ImageService.cs:68-71 | the item folder is the first listed sub-folder whose name starts with the item number; none before it does |
| ImageService.ParsePhotoFileNames | PrylDatabas/Models/ImageService.cs:170-180 | every parsed name is non-empty, trimmed and free of ','; null or empty input gives no names |
| ImageService.ResolveByExtension | PrylDatabas/Models/ImageService.cs:153-165 | a probe finds a file of that folder, and finds nothing exactly when no `base + ext` is listed |
| ImageService.ResolveByExtensionFirst | PrylDatabas/Models/ImageService.cs:155-161 | the earliest extension in the fixed order that is present wins |
| ImageService.FindImageWithExtension | PrylDatabas/Models/ImageService.cs:153-165 | the probing loop with early return computes ResolveByExtension |
| ImageService.ResolveName | PrylDatabas/Models/ImageService.cs:59-88 | a resolved name is an existing file of the item folder (names without a path separator or root; see Left out) |
| ImageService.FindImageFile | PrylDatabas/Models/ImageService.cs:59-88 | the method computes ResolveName: the exact name in the item folder first, then the extension probe (names without a path separator or root; see Left out) |
| ImageService.ResolveAll | PrylDatabas/Models/ImageService.cs:38-45 | for Photos names without a path separator or root: every resolved path is an existing file of the item folder; at most one per name |
| ImageService.ResolveAllComplete | PrylDatabas/Models/ImageService.cs:38-45 | every name that resolves contributes its file |
| ImageService.ResolveNames | PrylDatabas/Models/ImageService.cs:38-45 | the `foreach` over the names computes ResolveAll |
| ImageService.NamedPhotoFound | PrylDatabas/Models/ImageService.cs:28-54 | a named photo that the item folder holds under that exact name is among the item's images |
| ImageService.CollectImageFiles | PrylDatabas/Models/ImageService.cs:121-131 | the scan loop keeps exactly the listed files with an image extension, in listing order |
| ImageService.FindImagesByItemNumber | PrylDatabas/Models/ImageService.cs:93-148 | the method computes the folder scan: the item folder's image files, sorted; nothing without an item folder |
| ImageService.ScanFolderContents | PrylDatabas/Models/ImageService.cs:114-135 | the scan yields the image files of the item folder with their multiplicities, sorted by name, and nothing without a folder |
| ImageService.ScanFolder | PrylDatabas/Models/ImageService.cs:93-148 | the image files of the item folder sorted by name, nothing without a folder; characterised by ScanFolderContents |
| ImageService.FindImages | PrylDatabas/Models/ImageService.cs:28-54 | the method computes the named photos or, when none resolves, the scan; a null or empty number gives nothing |
| ImageService.ImagesAreInItemFolder | PrylDatabas/Models/ImageService.cs:28-54 | for Photos names without a path separator or root: every returned photo is an existing file of the first sub-folder whose name starts with the item number |
| ImageService.ScanOnlyWhenNothingNamed | PrylDatabas/Models/ImageService.cs:47-51 | the scan is used exactly when no named photo resolved |
| ImageService.ImagesFor | PrylDatabas/Models/ImageService.cs:28-54 | nothing for a missing or empty number; else the named photos that resolve, in Photos order, or the folder scan when none does; characterised by ImagesAreInItemFolder and ScanOnlyWhenNothingNamed |
| ImageService.HasImages | PrylDatabas/Models/ImageService.cs:222-225 | true exactly when FindImages returns something |
| ImageService.ImageFolderPath | PrylDatabas/Models/ImageService.cs:12-23 | a configured non-empty folder is kept; otherwise the default under the solution root |
| ImageService.CollectFound | PrylDatabas/Models/ImageService.cs:248-253 | the first report loop adds one found entry per found path, in order |
| ImageService.CollectMissing | PrylDatabas/Models/ImageService.cs:255-263 | the second report loop adds a missing entry per expected name whose key matches no found file |
| ImageService.GetImageResults | PrylDatabas/Models/ImageService.cs:236-266 | the report is the found entries followed by the missing entries |
| ImageService.ImageResultsShape | PrylDatabas/Models/ImageService.cs:236-266 | found entries come first, one per found path, with file name and full path; then only missing entries with an empty path, each for an expected name whose extension-less form matches no found file; every such name is listed |
| ImageService.ImageResults | PrylDatabas/Models/ImageService.cs:236-266 | one found entry per found path, then one missing entry per expected name not matched; characterised by ImageResultsShape |
| ImageService.MissingResultsShape | PrylDatabas/Models/ImageService.cs:255-263 | the missing part holds exactly the unmatched expected names, as not-found entries with an empty path |
| Repository.KeyColumnsCharacterized | PrylDatabas/Models/ItemRepository.cs:181-189 | a key is mapped exactly when it is non-empty and some column carries it, and to the last such column |
| Repository.ColumnMapOfCharacterized | PrylDatabas/Models/ItemRepository.cs:174-192 | the column map sends each non-empty trimmed lower-cased header to the 0-based index of its last column |
| Repository.ColumnMapOf | PrylDatabas/Models/ItemRepository.cs:174-192 | the header row's trimmed, lower-cased cell texts mapped to their 0-based columns, the last column winning; characterised by ColumnMapOfCharacterized |
| Repository.ColumnsAreDistinct | PrylDatabas/Models/ItemRepository.cs:174-192 | two keys never share a column |
| Repository.GetColumnMap | PrylDatabas/Models/ItemRepository.cs:174-192 | the header loop computes the column map |
| Repository.TryGetCellValue | PrylDatabas/Models/ItemRepository.cs:233-247 | the read succeeds exactly for a mapped column with a non-empty cell, and yields the trimmed text |
| Repository.WhiteSpaceCellReadsEmpty | PrylDatabas/Models/ItemRepository.cs:239-243 | a white-space-only cell reads as "", not as absent |
| Repository.ParseRow | PrylDatabas/Models/ItemRepository.cs:194-231 | a parsed number is a 32-bit value |
| Repository.ParseRowNumberAndOwner | PrylDatabas/Models/ItemRepository.cs:198-228 | the number is set exactly when the trimmed "nummer" cell parses; the owner comes from "nuvarand_ägare", else from "nuvarand_ ägare" |
| Repository.NumberCellRoundTrip | PrylDatabas/Models/ItemRepository.cs:198-199 | a number written as its decimal text, padded or not, reads back as that number |
| Repository.LoadedItemsCharacterized | PrylDatabas/Models/ItemRepository.cs:45-69 | the loaded items are exactly the named items of the data rows after the header |
| Repository.LoadedItems | PrylDatabas/Models/ItemRepository.cs:19-81 | nothing without a worksheet or data rows; else the parsed data rows that have a name, in row order; characterised by LoadedItemsCharacterized |
| Repository.SetCell | PrylDatabas/Models/ItemRepository.cs:132-133 | setting a cell changes that cell and no other |
| Repository.FirstRowWithNumber | PrylDatabas/Models/ItemRepository.cs:125-137 | the found row is the first data row whose "nummer" parses to the number |
| Repository.UpdateWithoutTarget | PrylDatabas/Models/ItemRepository.cs:107-122 | without data rows, without a "foto" column or without a matching row the worksheet is unchanged |
| Repository.ParseRowSameCells | PrylDatabas/Models/ItemRepository.cs:194-231 | a row's item depends only on its mapped cells |
| Repository.UpdateThenLoad | PrylDatabas/Models/ItemRepository.cs:125-137 | the update changes only the first matching row; that row then reads as the same item with the new Photos value |
| Repository.PhotosUpdated | PrylDatabas/Models/ItemRepository.cs:86-148 | the worksheet with the Photos cell of the first data row carrying the number rewritten, unchanged when there is no such row or column; characterised by UpdateThenLoad and UpdateWithoutTarget |
| Repository.ItemRepository.constructor | PrylDatabas/Models/ItemRepository.cs:14-17 | the repository is over the given worksheet |
| Repository.ItemRepository.LoadItems | PrylDatabas/Models/ItemRepository.cs:19-81 | the method returns the loaded items of the worksheet, none when it has fewer than two rows |
| Repository.ItemRepository.ParseDataRows | PrylDatabas/Models/ItemRepository.cs:61-69 | the row loop keeps the parsed items with a non-empty name, in row order |
| Repository.ItemRepository.FindRow | PrylDatabas/Models/ItemRepository.cs:125-137 | the search loop stops at the first data row carrying the number |
| Repository.ItemRepository.UpdateItemPhotos | PrylDatabas/Models/ItemRepository.cs:86-148 | the worksheet becomes the one with the Photos cell of the first matching row replaced |
| Settings.ReadWriteRoundTrip | PrylDatabas/Services/SettingsService.cs:119 | lines written with `WriteAllLines` read back with `ReadAllLines` as the same lines, when none holds a line break |
| Settings.FirstLineWithKey | PrylDatabas/Services/SettingsService.cs:31-37 | the first line that starts with the key, ignoring case |
| Settings.Lookup | PrylDatabas/Services/SettingsService.cs:31-37 | nothing exactly when no line starts with the key; otherwise the trimmed rest of the first such line |
| Settings.GetExcelFilePath | PrylDatabas/Services/SettingsService.cs:24-43 | a missing file or key gives "data/Gamla Prylar - dbs/Gamla Prylar.xlsx" |
| Settings.GetImageFolderPath | PrylDatabas/Services/SettingsService.cs:48-73 | a missing file or key gives the photo folder under the solution root |
| Settings.IsDebugModeEnabled | PrylDatabas/Services/SettingsService.cs:78-98 | true exactly when the value equals "true", ignoring case |
| Settings.SettingsFileLines | PrylDatabas/Services/SettingsService.cs:113-118 | exactly three lines, `ExcelFile=`, `ImageFolderPath=` and `DebugMode=` with the lower-case flag, in this order |
| Settings.SaveSettings | PrylDatabas/Services/SettingsService.cs:103-126 | the saved file text: the three setting lines written with `WriteAllLines`; characterised by SettingsFileLines, SavedLinesReadBack and SaveThenRead |
| Settings.SavedLinesReadBack | PrylDatabas/Services/SettingsService.cs:103-119 | the saved file reads back as its three lines |
| Settings.LookupSavedExcelFile | PrylDatabas/Services/SettingsService.cs:30-37 | the saved Excel path is found on the first line |
| Settings.LookupSavedImageFolder | PrylDatabas/Services/SettingsService.cs:54-61 | the saved folder is found on the second line |
| Settings.LookupSavedDebugMode | PrylDatabas/Services/SettingsService.cs:84-92 | the saved flag text is found on the third line |
| Settings.BoolTextReadBack | PrylDatabas/Services/SettingsService.cs:117 | the written flag text reads back as the same flag |
| Settings.SaveThenRead | PrylDatabas/Services/SettingsService.cs:103-119 | after saving, the getters return the trimmed paths and the flag, provided the paths hold no line break |
| SortIndicator.Convert | PrylDatabas/Converters/SortIndicatorConverter.cs:14-27 | "" for fewer than two values or ill-typed inputs or another column; otherwise ▲ when ascending and ▼ when descending |
| SortIndicator.OnlySortedColumnShowsArrow | PrylDatabas/Converters/SortIndicatorConverter.cs:20-26 | with well-typed inputs only the sorted column shows an arrow, and it points the sort's way |
| ViewModel.KeyLeTotal | PrylDatabas/ViewModels/MainWindowViewModel.cs:171-175 | the key order (null first) is total |
| ViewModel.KeyLeTransitive | PrylDatabas/ViewModels/MainWindowViewModel.cs:171-175 | the key order is transitive |
| ViewModel.BeforeTotal | PrylDatabas/ViewModels/MainWindowViewModel.cs:171-175 | ascending or descending, any two items are ordered one way |
| ViewModel.BeforeTransitive | PrylDatabas/ViewModels/MainWindowViewModel.cs:171-175 | the item order is transitive |
| ViewModel.InsertPermutes | PrylDatabas/ViewModels/MainWindowViewModel.cs:171-175 | insertion adds exactly the inserted item |
| ViewModel.InsertSorted | PrylDatabas/ViewModels/MainWindowViewModel.cs:171-175 | insertion keeps a sorted list sorted |
| ViewModel.InsertStable | PrylDatabas/ViewModels/MainWindowViewModel.cs:171-175 | the inserted item lands after the items with an equal key |
| ViewModel.StableSortPermutes | PrylDatabas/ViewModels/MainWindowViewModel.cs:167-177 | `OrderBy` is a permutation |
| ViewModel.StableSortSorted | PrylDatabas/ViewModels/MainWindowViewModel.cs:167-177 | `OrderBy` orders by the key, ascending or descending |
| ViewModel.SortItems | PrylDatabas/ViewModels/MainWindowViewModel.cs:167-177 | the stable sort by the effective column and direction (by number ascending for an unknown column); characterised by StableSortSorted, StableSortPermutes and StableSortStable |
| ViewModel.StableSortStable | PrylDatabas/ViewModels/MainWindowViewModel.cs:167-177 | items with equal keys keep their input order |
| ViewModel.FilterStepMultiset | PrylDatabas/ViewModels/MainWindowViewModel.cs:146-159 | a filter step keeps every copy of a passing item and drops every copy of a failing one |
| ViewModel.FilteredItemsCharacterized | PrylDatabas/ViewModels/MainWindowViewModel.cs:141-177 | the shown list is a permutation of the items that pass both filters, ordered by the selected key (by number ascending for an unknown column), and stable |
| ViewModel.FilteredItems | PrylDatabas/ViewModels/MainWindowViewModel.cs:141-165 | search filter, then category filter, then the sort; characterised by FilteredItemsCharacterized |
| ViewModel.ShownItems | PrylDatabas/ViewModels/MainWindowViewModel.cs:146-159 | an item is shown exactly when it passes both filters: its name, number or owner contains the search text (lower-cased), and it has exactly the selected category unless that is empty or "Alla" |
| ViewModel.MatchesSearch | PrylDatabas/ViewModels/MainWindowViewModel.cs:148-153 | the lower-cased name, number text or owner contains the lower-cased search text; used by ShownItems |
| ViewModel.UnknownColumnSortsByNumber | PrylDatabas/ViewModels/MainWindowViewModel.cs:175 | an unknown column sorts by number, ascending, whatever the direction says |
| ViewModel.AfterSortByColumn | PrylDatabas/ViewModels/MainWindowViewModel.cs:179-192 | the sorted column flips the direction; another column becomes the sort column, ascending; the filters stay |
| ViewModel.SortByColumnTwice | PrylDatabas/ViewModels/MainWindowViewModel.cs:182-185 | clicking the sorted column twice restores the state |
| ViewModel.IndicatorAfterSortByColumn | PrylDatabas/ViewModels/MainWindowViewModel.cs:179-192 | after a click exactly the clicked header shows an arrow: up for a new column, flipped for the same one |
| ViewModel.CategoriesCharacterized | PrylDatabas/ViewModels/MainWindowViewModel.cs:122-139 | "Alla", then the non-empty categories of the items, each once, in ascending order, and nothing else |
| ViewModel.UniqueCategories | PrylDatabas/ViewModels/MainWindowViewModel.cs:127-132 | the distinct non-empty categories, sorted; characterised by CategoriesCharacterized |
| ViewModel.UniqueCategoriesNonEmpty | PrylDatabas/ViewModels/MainWindowViewModel.cs:134-138 | no empty category is listed |
| ViewModel.MainWindowViewModel.constructor | PrylDatabas/ViewModels/MainWindowViewModel.cs:81-93 | sort by "Number" ascending, no search, no category; items loaded; the shown list and the categories agree with them |
| ViewModel.MainWindowViewModel.LoadItems | PrylDatabas/ViewModels/MainWindowViewModel.cs:95-108 | items are reloaded from the repository, then the categories and the shown list are rebuilt; the view state is kept |
| ViewModel.MainWindowViewModel.SetExcelFilePath | PrylDatabas/ViewModels/MainWindowViewModel.cs:110-115 | a new repository over the chosen worksheet, and a reload |
| ViewModel.MainWindowViewModel.UpdateCategories | PrylDatabas/ViewModels/MainWindowViewModel.cs:122-139 | the category list becomes "Alla" followed by the distinct categories in order |
| ViewModel.MainWindowViewModel.ApplyFilters | PrylDatabas/ViewModels/MainWindowViewModel.cs:141-165 | only the shown list changes, to the filtered and sorted items |
| ViewModel.MainWindowViewModel.SetSearchText | PrylDatabas/ViewModels/MainWindowViewModel.cs:39-47 | returns whether the value differs; only the search text changes; an equal value does not re-filter |
| ViewModel.MainWindowViewModel.SetSelectedCategory | PrylDatabas/ViewModels/MainWindowViewModel.cs:49-57 | as SetSearchText, for the selected category |
| ViewModel.MainWindowViewModel.SetSortBy | PrylDatabas/ViewModels/MainWindowViewModel.cs:61-69 | as SetSearchText, for the sort column |
| ViewModel.MainWindowViewModel.SetSortAscending | PrylDatabas/ViewModels/MainWindowViewModel.cs:71-79 | as SetSearchText, for the sort direction |
| ViewModel.MainWindowViewModel.SortByColumn | PrylDatabas/ViewModels/MainWindowViewModel.cs:179-192 | the state becomes AfterSortByColumn of the old one; the shown list follows it |
| ImageManagement.CandidateInjective | PrylDatabas/Services/ImageManagementService.cs:72-74 | different counters give different candidate names |
| ImageManagement.LaterCandidatesShrink | PrylDatabas/Services/ImageManagementService.cs:72-73 | each step of the renaming loop leaves fewer taken candidates ahead, so the loop ends |
| ImageManagement.FreeSuffix | PrylDatabas/Services/ImageManagementService.cs:71-73 | the loop stops at the smallest counter whose candidate is free |
| ImageManagement.DestinationName | PrylDatabas/Services/ImageManagementService.cs:66-77 | the destination is free; it is the file's own name when that is free, otherwise `base_k.ext` with the smallest free k ≥ 1 |
| ImageManagement.PhotoNameIsDestinationStem | PrylDatabas/Services/ImageManagementService.cs:74-80 | the recorded Photos entry plus the extension is the file written |
| ImageManagement.CopyAllShape | PrylDatabas/Services/ImageManagementService.cs:55-82 | the folder keeps its files in place and gains exactly one file per existing source, each new when written |
| ImageManagement.CopiesSomething | PrylDatabas/Services/ImageManagementService.cs:55-85 | something is copied exactly when some source exists |
| ImageManagement.MergedPhotoListShape | PrylDatabas/Services/ImageManagementService.cs:87-96 | the distinct old entries stay in front, in order; every new name is present; nothing else is; nothing repeats |
| ImageManagement.MergedPhotos | PrylDatabas/Services/ImageManagementService.cs:87-96 | the `", "`-join of the merged entry list; characterised by MergedPhotoListShape and PhotosReadBack |
| ImageManagement.PhotosReadBack | PrylDatabas/Services/ImageManagementService.cs:96 | the written Photos text parses back into the merged entries when they are non-empty, trimmed and comma-free |
| ImageManagement.WithFolder | PrylDatabas/Services/ImageManagementService.cs:41-45 | the folder exists afterwards, keeps its files if it existed, and no other folder changes |
| ImageManagement.NothingToAdd | PrylDatabas/Services/ImageManagementService.cs:27-28 | a null item or a null or empty source list gives false and changes nothing |
| ImageManagement.CopyLoopOf | PrylDatabas/Services/ImageManagementService.cs:33-82 | when the folder is usable, the outcome is the copy loop over the folder's files followed by the Photos update |
| ImageManagement.AddImagesResult | PrylDatabas/Services/ImageManagementService.cs:25-116 | true exactly when some source exists and the folder is usable; on false the worksheet and the item are unchanged |
| ImageManagement.AddImages | PrylDatabas/Services/ImageManagementService.cs:25-116 | the whole operation on values: result, image folder, worksheet and item; characterised by AddImagesResult, AddImagesNewFolder, AddImagesFiles and AddImagesPhotos |
| ImageManagement.AddImagesNewFolder | PrylDatabas/Services/ImageManagementService.cs:36-46 | without a located folder the files go to `"{Number} {Name}"`, which exists afterwards |
| ImageManagement.AddImagesFiles | PrylDatabas/Services/ImageManagementService.cs:55-82 | on success the folder keeps its files in place and gains one new file per existing source; no other folder changes |
| ImageManagement.AddImagesPhotos | PrylDatabas/Services/ImageManagementService.cs:84-105 | on success an item with a number gets the merged Photos text, and the same text is written to its row; without a number neither changes |
| ImageManagement.ImageManagementService.constructor | PrylDatabas/Services/ImageManagementService.cs:15-20 | the service holds the image folder, the repository and the folder finder |
| ImageManagement.ImageManagementService.CreateFolder | PrylDatabas/Services/ImageManagementService.cs:41-45 | the folder is created when missing |
| ImageManagement.ImageManagementService.CopyFile | PrylDatabas/Services/ImageManagementService.cs:79 | a copy to a free name adds exactly that name to the folder |
| ImageManagement.ImageManagementService.Destination | PrylDatabas/Services/ImageManagementService.cs:63-77 | the `while` loop computes DestinationName and the recorded entry |
| ImageManagement.ImageManagementService.CopySources | PrylDatabas/Services/ImageManagementService.cs:55-82 | the `foreach` computes the copy loop, or fails with nothing changed when a source exists but the folder does not |
| ImageManagement.ImageManagementService.AddImagesToItem | PrylDatabas/Services/ImageManagementService.cs:25-116 | result, image folder, worksheet and item are those AddImages gives |

## Left out

- The WPF windows, dialogs, converters other than the sort arrow, PDF export and
  `SelectMultipleImages` are out of scope: they are user-interface code.
- ClosedXML is left out: opening, saving and locating the workbook. A worksheet is
  given as its used range, and "file missing", "no worksheet" and "unreadable" all
  appear as no worksheet.
- The real file system is left out. Directory listings are given values, and which
  source paths exist is a set parameter. `File.Exists` is exact membership, so its
  case-insensitivity on Windows is not modelled. Source files are assumed to lie
  outside the image folder.
- The walks up to the solution root (`ResolvePath`, `ResolveSolutionRoot`, the one
  in `GetImageFolderPath`) are left out. The root they find is a parameter.
- Culture-sensitive `ToLower` and `Comparer<string>.Default` are replaced by fixed
  functions. Lower-casing maps only A–Z and the Latin-1 capitals. Strings are
  ordered ordinally, lexicographically by character code. `OrdinalIgnoreCase`
  uses the same lower-casing.
- `int.TryParse` accepts an optional sign and decimal digits only. Surrounding
  white space and other number styles are not modelled.
- ImageService.ResolveName: the exact-name probe is membership of the name in the
  item folder's own listing. A Photos name holding a path separator
  (`sub\a.jpg`) or a root or drive (`C:\Bilder\302-a.jpg`), which
  `Path.Combine` and `File.Exists` resolve to a file elsewhere, is not modelled:
  such a name resolves only through the extension probe on its bare stem.
- ImageService.FindImageFile computes ResolveName and inherits its restriction to
  names without a path separator or root.
- ImageService.ResolveAll and ImageService.ImagesAreInItemFolder hold of the model
  as stated; in the source they hold only for Photos names without a path separator
  or root, since a nested or rooted name can resolve outside the item folder.
- `ImageService.FindItemFolder` is called by `AddImagesToItem` but is not defined in
  `ImageService.cs`, so it is not part of this model. It appears as an abstract
  function from item number text to an optional folder name.
- ImageManagement.ImageManagementService.AddImagesToItem: the item is a value, so
  its updated copy is returned rather than `item.Photos` being assigned through a
  shared reference.
- ImageManagement.ImageManagementService.AddImagesToItem: folder names are plain
  sub-folder names. A `"{Number} {Name}"` holding a separator, or one that Windows
  would normalise (trailing spaces or dots), is not modelled.
- ImageManagement.ImageManagementService.AddImagesToItem requires a 32-bit item
  number, as C#'s `int?` guarantees. The renaming counter is unbounded; the source's
  `int` counter cannot overflow in practice.
- Exceptions other than copying into a located folder that does not exist are not
  modelled. Examples are access denied and disk full.
- ImageManagement.PhotosReadBack holds only when every merged entry is non-empty,
  trimmed and free of ','. A source file whose name contains ',' or surrounding
  spaces, or an old Photos text with empty pieces, does not read back as written.
- A folder created by `AddImagesToItem` is appended at the end of the image folder's
  listing. Where the host would list it is not modelled.
- `MainWindowViewModel` members left out:
  - `SetProperty` is folded into each setter's "changed" result.
  - `PropertyChanged` notifications, `SelectedItem`, `SetImageFolderPath` and the
    path properties are not modelled.
  - Reading the settings file in the constructor is not modelled: the constructor
    is given the repository.
- `RefreshItems` is `LoadItems` and has no member of its own.
- Debug logging is left out everywhere.
- Settings: the settings file's location under the application-data folder, and
  the failure of `WriteAllLines`, are not modelled.
