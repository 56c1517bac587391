/**
 * The `files` and `exclude` inputs: comma-separated glob lists, their defaults,
 * and the path filter built from them. Glob matching itself (picomatch) is a
 * foreign library: it is a parameter `globMatch(globs, path)`, true when `path`
 * matches at least one of `globs`.
 */
module Patterns {

  /** The include list used when the `files` input is empty. */
  const DefaultInclude: string := "**.php"

  /** `Array.prototype.join(sep)`: the parts with `sep` between neighbours. */
  function Join(parts: seq<string>, sep: char): string
  {
    if |parts| == 0 then ""
    else if |parts| == 1 then parts[0]
    else parts[0] + [sep] + Join(parts[1..], sep)
  }

  /** Position of the first `c` in `s`. */
  function IndexOf(s: string, c: char): (k: nat)
    requires c in s
    ensures k < |s| && s[k] == c && c !in s[..k]
  {
    if s[0] == c then 0
    else
      var k' := IndexOf(s[1..], c);
      assert s[..k' + 1] == [s[0]] + s[1..][..k'];
      k' + 1
  }

  /**
   * `String.prototype.split(sep)` for a one-character separator: the pieces
   * between separators, empty pieces included, so that joining them gives
   * back the input.
   */
  function Split(s: string, sep: char): (parts: seq<string>)
    ensures |parts| >= 1
    ensures forall i :: 0 <= i < |parts| ==> sep !in parts[i]
    ensures Join(parts, sep) == s
    decreases |s|
  {
    if sep !in s then [s]
    else
      var k := IndexOf(s, sep);
      var rest := Split(s[k + 1..], sep);
      assert ([s[..k]] + rest)[1..] == rest;
      assert s == s[..k] + [sep] + s[k + 1..];
      [s[..k]] + rest
  }

  /** Splitting a join of separator-free parts gives back the parts. */
  lemma {:induction false} SplitJoin(parts: seq<string>, sep: char)
    requires |parts| >= 1
    requires forall i :: 0 <= i < |parts| ==> sep !in parts[i]
    ensures Split(Join(parts, sep), sep) == parts
    decreases |parts|
  {
    if |parts| > 1 {
      var p0, tail := parts[0], Join(parts[1..], sep);
      var s := p0 + [sep] + tail;
      assert s == Join(parts, sep);
      assert sep in s by { assert s[|p0|] == sep; }
      var k := IndexOf(s, sep);
      assert k == |p0|;
      assert s[..k] == p0;
      assert s[k + 1..] == tail;
      SplitJoin(parts[1..], sep);
      assert parts == [p0] + parts[1..];
    }
  }

  /** The include globs: the default list for an empty input, else the comma-split input. */
  function IncludeGlobs(files: string): (globs: seq<string>)
    ensures |globs| >= 1
    ensures files == "" ==> globs == [DefaultInclude]
    ensures files != "" ==> Join(globs, ',') == files
    ensures files != "" ==> forall i :: 0 <= i < |globs| ==> ',' !in globs[i]
  {
    if |files| > 0 then Split(files, ',') else [DefaultInclude]
  }

  /** The exclude globs: none for an empty input, else the comma-split input. */
  function ExcludeGlobs(exclude: string): (globs: seq<string>)
    ensures globs == [] <==> exclude == ""
    ensures exclude != "" ==> Join(globs, ',') == exclude
    ensures forall i :: 0 <= i < |globs| ==> ',' !in globs[i]
  {
    if |exclude| > 0 then Split(exclude, ',') else []
  }

  /** The three tests a reported path must pass before it is reported. */
  datatype Filters = Filters(isMatch: string -> bool, onDisk: string -> bool, isExcluded: string -> bool)
  {
    predicate Keeps(path: string)
    {
      isMatch(path) && onDisk(path) && !isExcluded(path)
    }
  }

  /**
   * The filters for the given inputs: `isMatch` tests the include globs;
   * `isExcluded` tests the exclude globs, and is false everywhere when there
   * are none; `onDisk` is the file-existence test (existsSync), passed through.
   */
  function MakeFilters(files: string, exclude: string,
                       globMatch: (seq<string>, string) -> bool,
                       onDisk: string -> bool): (f: Filters)
    ensures forall p :: f.isMatch(p) == globMatch(IncludeGlobs(files), p)
    ensures forall p :: f.onDisk(p) == onDisk(p)
    ensures exclude == "" ==> forall p :: !f.isExcluded(p)
    ensures exclude != "" ==> forall p :: f.isExcluded(p) == globMatch(ExcludeGlobs(exclude), p)
  {
    var globs := IncludeGlobs(files);
    var excludeGlobs := ExcludeGlobs(exclude);
    var isExcluded: string -> bool :=
      if |excludeGlobs| > 0 then p => globMatch(excludeGlobs, p) else p => false;
    Filters(p => globMatch(globs, p), onDisk, isExcluded)
  }

  /** The logged pattern list (`globs.join()`) is the `files` input itself, or the default. */
  lemma LoggedIncludeList(files: string)
    ensures Join(IncludeGlobs(files), ',') == if files == "" then DefaultInclude else files
  {
  }

  /** A non-empty include input is read back exactly as the pieces between its commas. */
  lemma {:induction false} IncludeGlobsArePieces(parts: seq<string>)
    requires |parts| >= 1 && Join(parts, ',') != ""
    requires forall i :: 0 <= i < |parts| ==> ',' !in parts[i]
    ensures IncludeGlobs(Join(parts, ',')) == parts
  {
    SplitJoin(parts, ',');
  }

  /** A trailing comma leaves an empty piece in the glob list, as `split` does. */
  lemma TrailingCommaLeavesEmptyGlob()
    ensures IncludeGlobs("a,") == ["a", ""]
  {
    SplitJoin(["a", ""], ',');
    assert Join(["a", ""], ',') == "a,";
  }
}
