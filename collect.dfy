/**
 * The accumulation of the result from the listing's lines: in incremental
 * mode each line is parsed and its path filed under `added` (statuses A, C,
 * R) or `modified` (status M); in full-tree mode every line is a path and is
 * filed under `added`. In both modes only paths the filters keep are filed,
 * and paths are appended in line order. There is no deduplication.
 */
module Collect {
  import opened Wrappers
  import opened Patterns
  import opened Lines

  /** The routine's result: the paths reported as added and as modified, in the order found. */
  datatype ChangeSet = ChangeSet(added: seq<string>, modified: seq<string>)

  /** The two result lists. */
  datatype Bin = Added | Modified

  /** The list a status letter files its path under. */
  function BinOf(status: char): (b: Option<Bin>)
    ensures b.Some? <==> IsStatus(status)
    ensures b == Some(Modified) <==> status == 'M'
  {
    if status == 'A' || status == 'C' || status == 'R' then Some(Added)
    else if status == 'M' then Some(Modified)
    else None
  }

  /**
   * What one incremental line contributes: its list and path, when the line
   * parses and the filters keep the path.
   */
  function Entry(line: string, f: Filters): (e: Option<(Bin, string)>)
    ensures e.Some? <==> ParseLine(line).Some? && f.Keeps(ParseLine(line).value.1)
    ensures e.Some? ==> e.value.1 == ParseLine(line).value.1
    ensures e.Some? ==> (e.value.0 == Modified <==> ParseLine(line).value.0 == 'M')
  {
    match ParseLine(line)
    case None => None
    case Some((status, file)) =>
      if f.Keeps(file) then
        match BinOf(status)
        case Some(b) => Some((b, file))
        case None => None
      else None
  }

  /** The path a line contributes to list `b`, if any. */
  function Emit(line: string, f: Filters, b: Bin): seq<string>
  {
    match Entry(line, f)
    case Some((b', p)) => if b' == b then [p] else []
    case None => []
  }

  /** List `b` of the incremental result: the filtered paths of the lines filed under `b`, in order. */
  function Bucket(lines: seq<string>, f: Filters, b: Bin): seq<string>
  {
    if lines == [] then [] else Emit(lines[0], f, b) + Bucket(lines[1..], f, b)
  }

  /** The full-tree result list: the lines the filters keep, verbatim and in order. */
  function Kept(lines: seq<string>, f: Filters): (r: seq<string>)
    ensures |r| <= |lines|
    ensures forall i :: 0 <= i < |r| ==> f.Keeps(r[i])
  {
    if lines == [] then []
    else (if f.Keeps(lines[0]) then [lines[0]] else []) + Kept(lines[1..], f)
  }

  /** The result of the incremental loop: both lists, each a filter-map over the lines. */
  function IncrementalChanges(lines: seq<string>, f: Filters): ChangeSet
  {
    ChangeSet(Bucket(lines, f, Added), Bucket(lines, f, Modified))
  }

  /** The result of the full-tree loop: the kept lines as `added`, nothing as `modified`. */
  function FullTreeChanges(lines: seq<string>, f: Filters): ChangeSet
  {
    ChangeSet(Kept(lines, f), [])
  }

  /** The incremental loop over the `diff-tree` lines. */
  method CollectIncremental(lines: seq<string>, f: Filters) returns (result: ChangeSet)
    ensures result == IncrementalChanges(lines, f)
  {
    var added: seq<string> := [];
    var modified: seq<string> := [];
    for i := 0 to |lines|
      invariant added == Bucket(lines[..i], f, Added)
      invariant modified == Bucket(lines[..i], f, Modified)
    {
      BucketSnoc(lines, i, f, Added);
      BucketSnoc(lines, i, f, Modified);
      var line := lines[i];
      var parsed := ParseLine(line);
      if parsed.Some? {
        var status, file := parsed.value.0, parsed.value.1;
        if f.isMatch(file) && f.onDisk(file) && !f.isExcluded(file) {
          if status == 'A' || status == 'C' || status == 'R' {
            added := added + [file];
          } else if status == 'M' {
            modified := modified + [file];
          }
        }
      }
    }
    assert lines[..|lines|] == lines;
    result := ChangeSet(added, modified);
  }

  /** The full-tree loop over the `ls-tree` lines. */
  method CollectFullTree(lines: seq<string>, f: Filters) returns (result: ChangeSet)
    ensures result == FullTreeChanges(lines, f)
  {
    var added: seq<string> := [];
    for i := 0 to |lines|
      invariant added == Kept(lines[..i], f)
    {
      KeptSnoc(lines, i, f);
      var line := lines[i];
      if f.isMatch(line) && f.onDisk(line) && !f.isExcluded(line) {
        added := added + [line];
      }
    }
    assert lines[..|lines|] == lines;
    result := ChangeSet(added, []);
  }

  /** Each list of the incremental result is the concatenation of the lists of the two halves. */
  lemma {:induction false} BucketAppend(xs: seq<string>, ys: seq<string>, f: Filters, b: Bin)
    ensures Bucket(xs + ys, f, b) == Bucket(xs, f, b) + Bucket(ys, f, b)
    decreases |xs|
  {
    if xs == [] {
      assert xs + ys == ys;
    } else {
      var e := Emit(xs[0], f, b);
      assert (xs + ys)[0] == xs[0] && (xs + ys)[1..] == xs[1..] + ys;
      assert Bucket(xs + ys, f, b) == e + Bucket(xs[1..] + ys, f, b);
      BucketAppend(xs[1..], ys, f, b);
      assert Bucket(xs, f, b) == e + Bucket(xs[1..], f, b);
    }
  }

  /** One more line extends each incremental list by that line's contribution. */
  lemma BucketSnoc(lines: seq<string>, i: nat, f: Filters, b: Bin)
    requires i < |lines|
    ensures Bucket(lines[..i + 1], f, b) == Bucket(lines[..i], f, b) + Emit(lines[i], f, b)
  {
    assert lines[..i + 1] == lines[..i] + [lines[i]];
    BucketAppend(lines[..i], [lines[i]], f, b);
  }

  /** A one-line listing contributes exactly that line's path, if any. */
  lemma SingleLineBucket(line: string, f: Filters, b: Bin)
    ensures Bucket([line], f, b) == Emit(line, f, b)
  {
    assert [line][1..] == [];
  }

  /** The full-tree list of a concatenation is the concatenation of the lists. */
  lemma {:induction false} KeptAppend(xs: seq<string>, ys: seq<string>, f: Filters)
    ensures Kept(xs + ys, f) == Kept(xs, f) + Kept(ys, f)
    decreases |xs|
  {
    if xs == [] {
      assert xs + ys == ys;
    } else {
      assert (xs + ys)[0] == xs[0] && (xs + ys)[1..] == xs[1..] + ys;
      KeptAppend(xs[1..], ys, f);
    }
  }

  /** One more line extends the full-tree list by that line, if kept. */
  lemma KeptSnoc(lines: seq<string>, i: nat, f: Filters)
    requires i < |lines|
    ensures Kept(lines[..i + 1], f) == Kept(lines[..i], f) + (if f.Keeps(lines[i]) then [lines[i]] else [])
  {
    assert lines[..i + 1] == lines[..i] + [lines[i]];
    KeptAppend(lines[..i], [lines[i]], f);
  }

  /**
   * One line lands in at most one list, at most once: in exactly one when it
   * parses and its path passes the filters, in none otherwise.
   */
  lemma LineLandsOnce(line: string, f: Filters)
    ensures |Bucket([line], f, Added)| + |Bucket([line], f, Modified)|
            == if ParseLine(line).Some? && f.Keeps(ParseLine(line).value.1) then 1 else 0
    ensures ParseLine(line).Some? && f.Keeps(ParseLine(line).value.1) ==>
              var (status, file) := ParseLine(line).value;
              if status == 'M' then Bucket([line], f, Modified) == [file] && Bucket([line], f, Added) == []
              else Bucket([line], f, Added) == [file] && Bucket([line], f, Modified) == []
  {
    assert [line][1..] == [];
  }

  /** A line outside the grammar leaves the result as it would be without it. */
  lemma UnparsedLineIsIgnored(xs: seq<string>, line: string, ys: seq<string>, f: Filters)
    requires ParseLine(line).None?
    ensures IncrementalChanges(xs + [line] + ys, f) == IncrementalChanges(xs + ys, f)
  {
    UnparsedLineLeavesBucket(xs, line, ys, f, Added);
    UnparsedLineLeavesBucket(xs, line, ys, f, Modified);
  }

  /** A line outside the grammar leaves list `b` as it would be without it. */
  lemma UnparsedLineLeavesBucket(xs: seq<string>, line: string, ys: seq<string>, f: Filters, b: Bin)
    requires ParseLine(line).None?
    ensures Bucket(xs + [line] + ys, f, b) == Bucket(xs + ys, f, b)
  {
    assert Bucket([line], f, b) == [] by {
      assert [line][1..] == [];
    }
    BucketAppend(xs + [line], ys, f, b);
    BucketAppend(xs, [line], f, b);
    BucketAppend(xs, ys, f, b);
  }

  /** Together the two incremental lists hold at most one path per line. */
  lemma {:induction false} IncrementalBound(lines: seq<string>, f: Filters)
    ensures |Bucket(lines, f, Added)| + |Bucket(lines, f, Modified)| <= |lines|
    decreases |lines|
  {
    if lines != [] {
      IncrementalBound(lines[1..], f);
    }
  }

  /** A path is in list `b` exactly when some line contributes it to `b`. */
  lemma {:induction false} BucketMembers(lines: seq<string>, f: Filters, b: Bin, p: string)
    ensures p in Bucket(lines, f, b) <==> exists i :: 0 <= i < |lines| && Entry(lines[i], f) == Some((b, p))
    decreases |lines|
  {
    if lines != [] {
      BucketMembers(lines[1..], f, b, p);
      if p in Bucket(lines[1..], f, b) {
        var j :| 0 <= j < |lines[1..]| && Entry(lines[1..][j], f) == Some((b, p));
        assert Entry(lines[j + 1], f) == Some((b, p));
      }
      if exists i :: 0 <= i < |lines| && Entry(lines[i], f) == Some((b, p)) {
        var i :| 0 <= i < |lines| && Entry(lines[i], f) == Some((b, p));
        if i > 0 {
          assert Entry(lines[1..][i - 1], f) == Some((b, p));
        }
      }
    }
  }

  /** A path is in the full-tree list exactly when it is a line the filters keep. */
  lemma {:induction false} KeptMembers(lines: seq<string>, f: Filters, p: string)
    ensures p in Kept(lines, f) <==> p in lines && f.Keeps(p)
    decreases |lines|
  {
    if lines != [] {
      KeptMembers(lines[1..], f, p);
      assert lines == [lines[0]] + lines[1..];
    }
  }

  /** Every path in an incremental list passes the filters. */
  lemma {:induction false} BucketPathsPass(lines: seq<string>, f: Filters, b: Bin)
    ensures forall i :: 0 <= i < |Bucket(lines, f, b)| ==> f.Keeps(Bucket(lines, f, b)[i])
    decreases |lines|
  {
    if lines != [] {
      BucketPathsPass(lines[1..], f, b);
    }
  }

  /** Filtering a list whose every path already passes the filters changes nothing. */
  lemma {:induction false} KeptOfKept(paths: seq<string>, f: Filters)
    requires forall i :: 0 <= i < |paths| ==> f.Keeps(paths[i])
    ensures Kept(paths, f) == paths
    decreases |paths|
  {
    if paths != [] {
      KeptOfKept(paths[1..], f);
      assert paths == [paths[0]] + paths[1..];
    }
  }

  /** Re-filtering a result with the same filters gives the same result, in both modes. */
  lemma RefilterIsIdentity(lines: seq<string>, f: Filters)
    ensures Kept(Kept(lines, f), f) == Kept(lines, f)
    ensures Kept(Bucket(lines, f, Added), f) == Bucket(lines, f, Added)
    ensures Kept(Bucket(lines, f, Modified), f) == Bucket(lines, f, Modified)
  {
    KeptOfKept(Kept(lines, f), f);
    BucketPathsPass(lines, f, Added);
    KeptOfKept(Bucket(lines, f, Added), f);
    BucketPathsPass(lines, f, Modified);
    KeptOfKept(Bucket(lines, f, Modified), f);
  }

  /** The same path reported as added and as modified is filed in both lists. */
  lemma SamePathCanBeInBothLists(f: Filters)
    requires f.Keeps("x.php")
    ensures IncrementalChanges(["A\tx.php", "M\tx.php"], f) == ChangeSet(["x.php"], ["x.php"])
  {
    assert ParseLine("A\tx.php") == Some(('A', "x.php")) by {
      ParseLineIsGrammar("A\tx.php", 'A', "x.php");
    }
    assert ParseLine("M\tx.php") == Some(('M', "x.php")) by {
      ParseLineIsGrammar("M\tx.php", 'M', "x.php");
    }
    LineLandsOnce("A\tx.php", f);
    LineLandsOnce("M\tx.php", f);
    BucketAppend(["A\tx.php"], ["M\tx.php"], f, Added);
    BucketAppend(["A\tx.php"], ["M\tx.php"], f, Modified);
  }

  /** A path reported twice is filed twice. */
  lemma RepeatedPathIsKeptTwice(f: Filters)
    requires f.Keeps("x.php")
    ensures Kept(["x.php", "x.php"], f) == ["x.php", "x.php"]
  {
    KeptOfKept(["x.php", "x.php"], f);
  }

  /** No path occurs twice in `s`. */
  predicate NoDuplicates(s: seq<string>)
  {
    forall i, j :: 0 <= i < j < |s| ==> s[i] != s[j]
  }

  /**
   * The incremental lines name pairwise different paths, as a two-tree
   * `diff-tree` listing without rename detection does.
   */
  predicate DistinctPaths(lines: seq<string>)
  {
    forall i, j :: 0 <= i < j < |lines| && ParseLine(lines[i]).Some? && ParseLine(lines[j]).Some? ==>
      ParseLine(lines[i]).value.1 != ParseLine(lines[j]).value.1
  }

  /** A line that contributes `p` to some list parses to path `p`. */
  lemma ContributorNamesPath(lines: seq<string>, f: Filters, b: Bin, p: string)
    requires p in Bucket(lines, f, b)
    ensures exists i :: 0 <= i < |lines| && ParseLine(lines[i]).Some? && ParseLine(lines[i]).value.1 == p
  {
    BucketMembers(lines, f, b, p);
    var i :| 0 <= i < |lines| && Entry(lines[i], f) == Some((b, p));
    assert ParseLine(lines[i]).Some? && ParseLine(lines[i]).value.1 == p;
  }

  /**
   * When the listing names each path once, each incremental list is free of
   * duplicates, although the loop itself does not check for them.
   */
  lemma {:induction false} DistinctLinesGiveDistinctBucket(lines: seq<string>, f: Filters, b: Bin)
    requires DistinctPaths(lines)
    ensures NoDuplicates(Bucket(lines, f, b))
    decreases |lines|
  {
    if lines != [] {
      var rest := lines[1..];
      assert DistinctPaths(rest) by {
        forall i, j | 0 <= i < j < |rest| && ParseLine(rest[i]).Some? && ParseLine(rest[j]).Some?
          ensures ParseLine(rest[i]).value.1 != ParseLine(rest[j]).value.1
        {
          assert rest[i] == lines[i + 1] && rest[j] == lines[j + 1];
        }
      }
      DistinctLinesGiveDistinctBucket(rest, f, b);
      var e := Emit(lines[0], f, b);
      var t := Bucket(rest, f, b);
      if e != [] {
        var p := e[0];
        assert e == [p];
        assert p in Bucket([lines[0]], f, b) by { SingleLineBucket(lines[0], f, b); }
        ContributorNamesPath([lines[0]], f, b, p);
        forall k | 0 <= k < |rest| ensures Entry(rest[k], f) != Some((b, p)) {
          assert rest[k] == lines[k + 1];
        }
        BucketMembers(rest, f, b, p);
        assert p !in t;
        forall i, j | 0 <= i < j < |e + t| ensures (e + t)[i] != (e + t)[j] {
          if i == 0 {
            assert (e + t)[j] == t[j - 1];
          } else {
            assert (e + t)[i] == t[i - 1] && (e + t)[j] == t[j - 1];
          }
        }
      } else {
        assert e + t == t;
      }
    }
  }

  /**
   * When the listing names each path once, no path is in both `added` and
   * `modified`, although the loop itself does not check for it.
   */
  lemma DistinctLinesGiveDisjointLists(lines: seq<string>, f: Filters, p: string)
    requires DistinctPaths(lines)
    ensures !(p in Bucket(lines, f, Added) && p in Bucket(lines, f, Modified))
  {
    BucketMembers(lines, f, Added, p);
    BucketMembers(lines, f, Modified, p);
    forall i, j | 0 <= i < |lines| && 0 <= j < |lines| && Entry(lines[i], f) == Some((Added, p))
      ensures Entry(lines[j], f) != Some((Modified, p))
    {
    }
  }

  /** When the tree listing names each path once, so does the full-tree list. */
  lemma {:induction false} DistinctLinesGiveDistinctKept(lines: seq<string>, f: Filters)
    requires NoDuplicates(lines)
    ensures NoDuplicates(Kept(lines, f))
    decreases |lines|
  {
    if lines != [] {
      var rest := lines[1..];
      assert NoDuplicates(rest) by {
        forall i, j | 0 <= i < j < |rest| ensures rest[i] != rest[j] {
          assert rest[i] == lines[i + 1] && rest[j] == lines[j + 1];
        }
      }
      DistinctLinesGiveDistinctKept(rest, f);
      var e := if f.Keeps(lines[0]) then [lines[0]] else [];
      var t := Kept(rest, f);
      if e != [] {
        forall k | 0 <= k < |rest| ensures rest[k] != lines[0] {
          assert rest[k] == lines[k + 1];
        }
        KeptMembers(rest, f, lines[0]);
        assert lines[0] !in t;
        forall i, j | 0 <= i < j < |e + t| ensures (e + t)[i] != (e + t)[j] {
          if i == 0 {
            assert (e + t)[j] == t[j - 1];
          } else {
            assert (e + t)[i] == t[i - 1] && (e + t)[j] == t[j - 1];
          }
        }
      } else {
        assert e + t == t;
      }
    }
  }
}
