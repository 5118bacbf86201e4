/** `SettingsService`: the settings file, a sequence of `Key=value` lines.

    The file is its text, or `None` when it does not exist or cannot be read (the
    source catches every read error and falls back to the default). Line splitting
    and joining follow `File.ReadAllLines` and `File.WriteAllLines` with a CR LF
    line terminator. */
module Settings {
  import opened Util
  import opened Text
  import Paths

  const ExcelFileKey: string := "ExcelFile="
  const ImageFolderPathKey: string := "ImageFolderPath="
  const DebugModeKey: string := "DebugMode="

  /** The spreadsheet used when the settings do not name one. */
  const DefaultExcelFile: string := "data/Gamla Prylar - dbs/Gamla Prylar.xlsx"

  const NewLine: string := "\r\n"

  predicate IsLineBreak(c: char) {
    c == '\r' || c == '\n'
  }

  predicate NoLineBreaks(s: string) {
    forall i :: 0 <= i < |s| ==> !IsLineBreak(s[i])
  }

  /** Position of the first CR or LF in `s`, or `|s|`. */
  function LineEnd(s: string): (i: nat)
    ensures i <= |s|
    ensures i < |s| ==> IsLineBreak(s[i])
    ensures forall j :: 0 <= j < i ==> !IsLineBreak(s[j])
  {
    if s == [] || IsLineBreak(s[0]) then 0 else 1 + LineEnd(s[1..])
  }

  /** `File.ReadAllLines`: the text split at CR LF, CR or LF; a terminator at the very
      end does not start another line. */
  function ReadAllLines(text: string): (lines: seq<string>)
    ensures forall k :: 0 <= k < |lines| ==> NoLineBreaks(lines[k])
    decreases |text|
  {
    if text == [] then []
    else
      var i := LineEnd(text);
      if i == |text| then [text]
      else
        var next := if text[i] == '\r' && i + 1 < |text| && text[i + 1] == '\n' then i + 2 else i + 1;
        [text[..i]] + ReadAllLines(text[next..])
  }

  /** `File.WriteAllLines`: every line followed by CR LF. */
  function WriteAllLines(lines: seq<string>): string {
    if lines == [] then "" else lines[0] + NewLine + WriteAllLines(lines[1..])
  }

  lemma LineEndOfLine(line: string, rest: string)
    requires NoLineBreaks(line)
    ensures LineEnd(line + NewLine + rest) == |line|
  {
    var t := line + NewLine + rest;
    assert t[|line|] == '\r';
    assert forall j :: 0 <= j < |line| ==> t[j] == line[j];
  }

  /** Reading back written lines gives the same lines, as long as none holds a line break. */
  lemma {:induction false} ReadWriteRoundTrip(lines: seq<string>)
    requires forall k :: 0 <= k < |lines| ==> NoLineBreaks(lines[k])
    ensures ReadAllLines(WriteAllLines(lines)) == lines
  {
    if lines != [] {
      var rest := WriteAllLines(lines[1..]);
      var text := WriteAllLines(lines);
      assert text == lines[0] + NewLine + rest;
      LineEndOfLine(lines[0], rest);
      assert text[..|lines[0]|] == lines[0];
      assert text[|lines[0]| + 2..] == rest;
      ReadWriteRoundTrip(lines[1..]);
    }
  }

  /** Index of the first line that starts, ignoring case, with `key`, or `|lines|`. */
  function FirstLineWithKey(lines: seq<string>, key: string): (k: nat)
    ensures k <= |lines|
    ensures k < |lines| ==> StartsWithIgnoreCase(lines[k], key)
    ensures forall j :: 0 <= j < k ==> !StartsWithIgnoreCase(lines[j], key)
  {
    if lines == [] || StartsWithIgnoreCase(lines[0], key) then 0
    else 1 + FirstLineWithKey(lines[1..], key)
  }

  /** The `foreach` of every getter: the trimmed text after the key on the first line
      that starts with the key (compared ignoring case), if any line does. */
  function Lookup(lines: seq<string>, key: string): (r: Option<string>)
    ensures r.None? <==> forall j :: 0 <= j < |lines| ==> !StartsWithIgnoreCase(lines[j], key)
    ensures r.Some? ==>
              var k := FirstLineWithKey(lines, key);
              k < |lines| && r.value == Trim(lines[k][|key|..])
    decreases |lines|
  {
    if lines == [] then None
    else if StartsWithIgnoreCase(lines[0], key) then Some(Trim(lines[0][|key|..]))
    else Lookup(lines[1..], key)
  }

  /** The lines of the settings file; a missing file has none. */
  function SettingsLines(file: Option<string>): seq<string> {
    if file.None? then [] else ReadAllLines(file.value)
  }

  /** `GetExcelFilePath`. */
  function GetExcelFilePath(file: Option<string>): (path: string)
    ensures Lookup(SettingsLines(file), ExcelFileKey).None? ==> path == DefaultExcelFile
  {
    Lookup(SettingsLines(file), ExcelFileKey).GetOr(DefaultExcelFile)
  }

  /** `GetImageFolderPath`; without a setting, "data/Gamla Prylar - foton i dbs" under the
      solution root (the directory walk that finds that root is not modelled: it is a
      parameter). */
  function GetImageFolderPath(file: Option<string>, solutionRoot: string): (path: string)
    ensures Lookup(SettingsLines(file), ImageFolderPathKey).None? ==>
              path == Paths.Combine(Paths.Combine(solutionRoot, "data"), "Gamla Prylar - foton i dbs")
  {
    Lookup(SettingsLines(file), ImageFolderPathKey).GetOr(
      Paths.Combine(Paths.Combine(solutionRoot, "data"), "Gamla Prylar - foton i dbs"))
  }

  /** `IsDebugModeEnabled`. */
  function IsDebugModeEnabled(file: Option<string>): (enabled: bool)
    ensures enabled <==>
              Lookup(SettingsLines(file), DebugModeKey).Some? &&
              EqualsIgnoreCase(Lookup(SettingsLines(file), DebugModeKey).value, "true")
  {
    match Lookup(SettingsLines(file), DebugModeKey)
    case None => false
    case Some(value) => EqualsIgnoreCase(value, "true")
  }

  /** `bool.ToString().ToLower()`. */
  function BoolText(b: bool): string {
    if b then "true" else "false"
  }

  /** The lines `SaveSettings` writes, in this order. */
  function SettingsFileLines(excelFilePath: string, imageFolderPath: string, debugMode: bool): (lines: seq<string>)
    ensures |lines| == 3
    ensures StartsWith(lines[0], ExcelFileKey) && lines[0][|ExcelFileKey|..] == excelFilePath
    ensures StartsWith(lines[1], ImageFolderPathKey) && lines[1][|ImageFolderPathKey|..] == imageFolderPath
    ensures lines[2] == DebugModeKey + BoolText(debugMode)
  {
    [ExcelFileKey + excelFilePath, ImageFolderPathKey + imageFolderPath, DebugModeKey + BoolText(debugMode)]
  }

  /** `SaveSettings`: the text of the new settings file. */
  function SaveSettings(excelFilePath: string, imageFolderPath: string, debugMode: bool): string {
    WriteAllLines(SettingsFileLines(excelFilePath, imageFolderPath, debugMode))
  }

  /** A line that does not begin with the first letter of `key` (ignoring case) is
      skipped by the lookup of `key`. */
  lemma NotKeyLine(line: string, key: string)
    requires key != [] && line != [] && LowerChar(line[0]) != LowerChar(key[0])
    ensures !StartsWithIgnoreCase(line, key)
  {
    if |key| <= |line| {
      assert Lower(line[..|key|])[0] != Lower(key)[0];
    }
  }

  lemma KeyLineFound(key: string, value: string)
    ensures StartsWithIgnoreCase(key + value, key)
    ensures (key + value)[|key|..] == value
  {
    StartsWithIgnoreCaseOwnPrefix(key, value);
  }

  /** The saved file reads back as the three lines written. */
  lemma SavedLinesReadBack(excelFilePath: string, imageFolderPath: string, debugMode: bool)
    requires NoLineBreaks(excelFilePath) && NoLineBreaks(imageFolderPath)
    ensures SettingsLines(Some(SaveSettings(excelFilePath, imageFolderPath, debugMode)))
            == SettingsFileLines(excelFilePath, imageFolderPath, debugMode)
  {
    var lines := SettingsFileLines(excelFilePath, imageFolderPath, debugMode);
    forall k | 0 <= k < 3 ensures NoLineBreaks(lines[k]) {
      if k == 0 {
        assert lines[0] == ExcelFileKey + excelFilePath;
      } else if k == 1 {
        assert lines[1] == ImageFolderPathKey + imageFolderPath;
      }
    }
    ReadWriteRoundTrip(lines);
  }

  lemma LookupSavedExcelFile(excelFilePath: string, imageFolderPath: string, debugMode: bool)
    ensures Lookup(SettingsFileLines(excelFilePath, imageFolderPath, debugMode), ExcelFileKey) == Some(Trim(excelFilePath))
  {
    KeyLineFound(ExcelFileKey, excelFilePath);
  }

  lemma LookupSavedImageFolder(excelFilePath: string, imageFolderPath: string, debugMode: bool)
    ensures Lookup(SettingsFileLines(excelFilePath, imageFolderPath, debugMode), ImageFolderPathKey) == Some(Trim(imageFolderPath))
  {
    var lines := SettingsFileLines(excelFilePath, imageFolderPath, debugMode);
    NotKeyLine(lines[0], ImageFolderPathKey);
    KeyLineFound(ImageFolderPathKey, imageFolderPath);
    assert Lookup(lines, ImageFolderPathKey) == Lookup(lines[1..], ImageFolderPathKey);
  }

  lemma LookupSavedDebugMode(excelFilePath: string, imageFolderPath: string, debugMode: bool)
    ensures Lookup(SettingsFileLines(excelFilePath, imageFolderPath, debugMode), DebugModeKey) == Some(BoolText(debugMode))
  {
    var lines := SettingsFileLines(excelFilePath, imageFolderPath, debugMode);
    NotKeyLine(lines[0], DebugModeKey);
    NotKeyLine(lines[1], DebugModeKey);
    KeyLineFound(DebugModeKey, BoolText(debugMode));
    assert Lookup(lines, DebugModeKey) == Lookup(lines[1..], DebugModeKey) == Lookup(lines[2..], DebugModeKey);
    TrimOfTrimmed(BoolText(debugMode));
  }

  /** The written direction text is read back as the same direction. */
  lemma BoolTextReadBack(b: bool)
    ensures EqualsIgnoreCase(BoolText(b), "true") == b
  {
    if !b {
      assert Lower(BoolText(b))[0] == 'f';
    }
  }

  /** Save then read: the saved values come back, trimmed, provided the two paths hold
      no line break. */
  lemma SaveThenRead(excelFilePath: string, imageFolderPath: string, debugMode: bool, solutionRoot: string)
    requires NoLineBreaks(excelFilePath) && NoLineBreaks(imageFolderPath)
    ensures var file := Some(SaveSettings(excelFilePath, imageFolderPath, debugMode));
      && GetExcelFilePath(file) == Trim(excelFilePath)
      && GetImageFolderPath(file, solutionRoot) == Trim(imageFolderPath)
      && IsDebugModeEnabled(file) == debugMode
  {
    SavedLinesReadBack(excelFilePath, imageFolderPath, debugMode);
    LookupSavedExcelFile(excelFilePath, imageFolderPath, debugMode);
    LookupSavedImageFolder(excelFilePath, imageFolderPath, debugMode);
    LookupSavedDebugMode(excelFilePath, imageFolderPath, debugMode);
    BoolTextReadBack(debugMode);
  }
}
