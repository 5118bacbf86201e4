/** The parts of .NET's `System.IO.Path` the application uses, on Windows-style
    paths: `GetFileName`, `GetExtension`, `GetFileNameWithoutExtension`, `Combine`. */
module Paths {

  predicate IsSeparator(c: char) {
    c == '\\' || c == '/'
  }

  predicate NoSeparators(s: string) {
    forall i :: 0 <= i < |s| ==> !IsSeparator(s[i])
  }

  /** `Path.GetFileName(p)`: what follows the last directory separator. */
  function FileName(p: string): string
    decreases |p|
  {
    if p == [] || IsSeparator(p[|p| - 1]) then "" else FileName(p[..|p| - 1]) + [p[|p| - 1]]
  }

  /** The file name is the longest separator-free suffix of the path. */
  lemma {:induction false} FileNameIsLastPart(p: string)
    ensures |FileName(p)| <= |p| && FileName(p) == p[|p| - |FileName(p)|..]
    ensures NoSeparators(FileName(p))
    ensures |FileName(p)| < |p| ==> IsSeparator(p[|p| - |FileName(p)| - 1])
    decreases |p|
  {
    if p != [] && !IsSeparator(p[|p| - 1]) {
      var q := p[..|p| - 1];
      FileNameIsLastPart(q);
      assert p == q + [p[|p| - 1]];
    }
  }

  /** Index of the last '.' in `s`, or -1. */
  function LastDot(s: string): (i: int)
    ensures -1 <= i < |s|
    ensures i >= 0 ==> s[i] == '.'
    ensures forall j :: i < j < |s| ==> s[j] != '.'
    decreases |s|
  {
    if s == [] then -1 else if s[|s| - 1] == '.' then |s| - 1 else LastDot(s[..|s| - 1])
  }

  /** `Path.GetExtension(p)`: from the last '.' of the file name on, dot included;
      empty when there is no '.' or when the '.' is the last character. */
  function Extension(p: string): string {
    var f := FileName(p);
    var i := LastDot(f);
    if i < 0 || i == |f| - 1 then "" else f[i..]
  }

  /** `Path.GetFileNameWithoutExtension(p)`: the file name up to its last '.'. */
  function FileNameWithoutExtension(p: string): string {
    var f := FileName(p);
    var i := LastDot(f);
    if i < 0 then f else f[..i]
  }

  /** A file name is its extension-less name followed by its extension, except when
      it ends in '.', where `GetExtension` is empty but the dot is still dropped. */
  lemma NameIsStemPlusExtension(name: string)
    requires NoSeparators(name)
    ensures name == [] || name[|name| - 1] != '.' ==>
              name == FileNameWithoutExtension(name) + Extension(name)
    ensures name != [] && name[|name| - 1] == '.' ==>
              name == FileNameWithoutExtension(name) + "." && Extension(name) == ""
  {
    FileNameOfPlainName(name);
    var i := LastDot(name);
    if 0 <= i {
      assert name == name[..i] + name[i..];
    }
  }

  lemma FileNameOfPlainName(name: string)
    requires NoSeparators(name)
    ensures FileName(name) == name
  {
  }

  /** `Path.Combine(a, b)` for a non-empty relative `b`: a separator is inserted unless `a` is
      empty or already ends in one. */
  function Combine(a: string, b: string): string {
    if a == [] then b
    else if IsSeparator(a[|a| - 1]) then a + b
    else a + "\\" + b
  }

  /** The file name of a combined path is the plain name that was appended. */
  lemma {:induction false} FileNameOfCombine(a: string, b: string)
    requires NoSeparators(b)
    ensures FileName(Combine(a, b)) == b
  {
    var p := Combine(a, b);
    var pre := if a == [] then "" else if IsSeparator(a[|a| - 1]) then a else a + "\\";
    assert p == pre + b;
    FileNameOfSuffix(pre, b);
  }

  lemma {:induction false} FileNameOfSuffix(pre: string, b: string)
    requires NoSeparators(b)
    requires pre == [] || IsSeparator(pre[|pre| - 1])
    ensures FileName(pre + b) == b
    decreases |b|
  {
    if b == [] {
      assert pre + b == pre;
    } else {
      var p := pre + b;
      assert p[..|p| - 1] == pre + b[..|b| - 1];
      FileNameOfSuffix(pre, b[..|b| - 1]);
      assert b == b[..|b| - 1] + [b[|b| - 1]];
    }
  }
}
