/**
 * The line grammar of the incremental listing
 * (`git diff-tree --name-status`), exactly as the regular expression
 * `^(?<status>[ACMR])[\s\t]+(?<file>\S+)$` reads it: one status letter, one or
 * more whitespace characters, then a run of non-whitespace characters that
 * ends the line. No other line shape is accepted.
 */
module Lines {
  import opened Wrappers

  /**
   * The JavaScript `\s` class: the ECMAScript WhiteSpace and LineTerminator
   * code points (tab, line feed, vertical tab, form feed, carriage return,
   * the Unicode space separators, U+2028, U+2029 and U+FEFF).
   */
  predicate IsSpace(c: char)
  {
    var x := c as int;
    || (0x09 <= x <= 0x0D)
    || x == 0x20 || x == 0xA0 || x == 0x1680
    || (0x2000 <= x <= 0x200A)
    || x == 0x2028 || x == 0x2029 || x == 0x202F || x == 0x205F
    || x == 0x3000 || x == 0xFEFF
  }

  /** Every character of `s` is in the `\s` class. */
  predicate AllSpace(s: string)
  {
    forall i :: 0 <= i < |s| ==> IsSpace(s[i])
  }

  /** No character of `s` is in the `\s` class (the regex's `\S+`). */
  predicate NoSpace(s: string)
  {
    forall i :: 0 <= i < |s| ==> !IsSpace(s[i])
  }

  /** The status letters the grammar accepts: added, copied, modified, renamed. */
  predicate IsStatus(c: char)
  {
    c == 'A' || c == 'C' || c == 'M' || c == 'R'
  }

  /**
   * The grammar stated declaratively: `line` is `status`, then a non-empty
   * all-whitespace gap, then `file`, which is non-empty, whitespace-free and
   * ends the line.
   */
  predicate Accepts(line: string, status: char, file: string)
  {
    && IsStatus(status)
    && file != [] && NoSpace(file)
    && |line| >= |file| + 2
    && line[0] == status
    && AllSpace(line[1..|line| - |file|])
    && line[|line| - |file|..] == file
  }

  /** The length of the longest all-whitespace prefix of `s`. */
  function SpanSpaces(s: string): (n: nat)
    ensures n <= |s|
    ensures AllSpace(s[..n])
    ensures n < |s| ==> !IsSpace(s[n])
  {
    if s == [] || !IsSpace(s[0]) then 0
    else
      var n' := SpanSpaces(s[1..]);
      assert s[..n' + 1] == [s[0]] + s[1..][..n'];
      n' + 1
  }

  /** Parses one line of the incremental listing into its status and path. */
  function ParseLine(line: string): (r: Option<(char, string)>)
    ensures r.Some? ==> Accepts(line, r.value.0, r.value.1)
  {
    if |line| == 0 || !IsStatus(line[0]) then None
    else
      var gap := SpanSpaces(line[1..]);
      var file := line[1 + gap..];
      if gap > 0 && file != [] && NoSpace(file) then
        assert line[1..|line| - |file|] == line[1..][..gap];
        Some((line[0], file))
      else None
  }

  /** The whitespace prefix ends exactly where a non-space character follows the gap. */
  lemma {:induction false} SpanSpacesOfGap(w: string, rest: string)
    requires AllSpace(w)
    requires rest != [] && !IsSpace(rest[0])
    ensures SpanSpaces(w + rest) == |w|
    decreases |w|
  {
    if w != [] {
      assert (w + rest)[1..] == w[1..] + rest;
      SpanSpacesOfGap(w[1..], rest);
    }
  }

  /**
   * The parser accepts exactly the lines of the grammar, and returns the
   * status and path of the one way such a line splits.
   */
  lemma ParseLineIsGrammar(line: string, status: char, file: string)
    ensures ParseLine(line) == Some((status, file)) <==> Accepts(line, status, file)
  {
    if Accepts(line, status, file) {
      var w := line[1..|line| - |file|];
      assert line[1..] == w + file;
      SpanSpacesOfGap(w, file);
    }
  }

  /** A line that parses has exactly one status and one path: a path ends the line. */
  lemma ParsedPathEndsLine(line: string)
    requires ParseLine(line).Some?
    ensures var (status, file) := ParseLine(line).value;
            IsStatus(status) && line[0] == status && line[|line| - |file|..] == file && NoSpace(file)
  {
  }

  /** A status, one tab and a whitespace-free path: the usual `diff-tree --name-status` line. */
  lemma TabbedLineParses(status: char, file: string)
    requires IsStatus(status) && file != [] && NoSpace(file)
    ensures ParseLine([status, '\t'] + file) == Some((status, file))
  {
    var line := [status, '\t'] + file;
    assert line[1..|line| - |file|] == ['\t'];
    assert line[|line| - |file|..] == file;
    ParseLineIsGrammar(line, status, file);
  }

  /** A plain added line. */
  lemma AddedLineParses()
    ensures ParseLine("A\tsrc/b.php") == Some(('A', "src/b.php"))
  {
    TabbedLineParses('A', "src/b.php");
    assert "A\tsrc/b.php" == ['A', '\t'] + "src/b.php";
  }

  /** A plain modified line. */
  lemma ModifiedLineParses()
    ensures ParseLine("M\tsrc/a.php") == Some(('M', "src/a.php"))
  {
    TabbedLineParses('M', "src/a.php");
    assert "M\tsrc/a.php" == ['M', '\t'] + "src/a.php";
  }

  /** A rename with a similarity score is not in the grammar, so it is dropped. */
  lemma ScoredRenameIsDropped()
    ensures ParseLine("R100\told.php\tnew.php") == None
  {
  }

  /** A path containing a space is not in the grammar, so it is dropped. */
  lemma SpacedPathIsDropped()
    ensures ParseLine("M\tmy file.php") == None
  {
    var line := "M\tmy file.php";
    assert SpanSpaces(line[1..]) == 1 by {
      SpanSpacesOfGap("\t", "my file.php");
    }
    assert IsSpace(line[2..][2]);
  }

  /** A deletion is not in the grammar (the listing leaves deletions out anyway). */
  lemma DeletedLineIsDropped()
    ensures ParseLine("D\tsrc/old.php") == None
  {
  }
}
