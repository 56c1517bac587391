/**
 * `getChangedFiles`: the files a CI event added or modified, as the lists
 * `added` and `modified`. The surroundings it talks to are parameters: the
 * `files` and `exclude` inputs, the event name and payload, the glob matcher,
 * the file-existence test and the lines git prints for the chosen listing.
 */
module ChangedFiles {
  import opened Wrappers
  import opened Patterns
  import opened Events
  import opened Lines
  import opened Collect

  /**
   * What the routine asks of the outside world: glob matching
   * (`globMatch(globs, path)` holds when `path` matches one of `globs`), the
   * existence of a path in the working tree, and the stdout lines of the git
   * command a strategy names.
   */
  datatype Environment = Environment(
    globMatch: (seq<string>, string) -> bool,
    onDisk: string -> bool,
    gitOutput: Strategy -> seq<string>)

  /** The result the routine returns for the given inputs. */
  function Expected(files: string, exclude: string, eventName: string, payload: Payload,
                    env: Environment): ChangeSet
  {
    var f := MakeFilters(files, exclude, env.globMatch, env.onDisk);
    match Plan(DecodeEvent(eventName, payload))
    case None => ChangeSet([], [])
    case Some(s) =>
      match s
      case Incremental(_) => IncrementalChanges(env.gitOutput(s), f)
      case FullTree(_) => FullTreeChanges(env.gitOutput(s), f)
  }

  /** The routine itself: builds the filters, picks the listing, and runs the matching loop over git's lines. */
  method GetChangedFiles(files: string, exclude: string, eventName: string, payload: Payload,
                         env: Environment) returns (result: ChangeSet)
    ensures result == Expected(files, exclude, eventName, payload, env)
    ensures eventName != "pull_request" && eventName != "push" ==> result == ChangeSet([], [])
  {
    var f := MakeFilters(files, exclude, env.globMatch, env.onDisk);
    var strategy := SelectStrategy(DecodeEvent(eventName, payload));
    if strategy.None? {
      return ChangeSet([], []);
    }
    var lines := env.gitOutput(strategy.value);
    match strategy.value {
      case Incremental(_) =>
        result := CollectIncremental(lines, f);
      case FullTree(_) =>
        result := CollectFullTree(lines, f);
    }
  }

  /**
   * Every reported path passes the include globs (the default `**.php` when
   * `files` is empty), exists, and matches no exclude glob.
   */
  lemma ReportedPathsPassFilters(files: string, exclude: string, eventName: string, payload: Payload,
                                 env: Environment, p: string)
    requires var r := Expected(files, exclude, eventName, payload, env); p in r.added || p in r.modified
    ensures env.globMatch(IncludeGlobs(files), p)
    ensures env.onDisk(p)
    ensures exclude != "" ==> !env.globMatch(ExcludeGlobs(exclude), p)
  {
    var f := MakeFilters(files, exclude, env.globMatch, env.onDisk);
    var s := Plan(DecodeEvent(eventName, payload));
    if s.Some? {
      BucketPathsPass(env.gitOutput(s.value), f, Added);
      BucketPathsPass(env.gitOutput(s.value), f, Modified);
    }
    assert f.Keeps(p);
  }

  /** The result holds at most one path per line git printed. */
  lemma ResultWithinListing(files: string, exclude: string, eventName: string, payload: Payload,
                            env: Environment)
    ensures var r := Expected(files, exclude, eventName, payload, env);
            var s := Plan(DecodeEvent(eventName, payload));
            |r.added| + |r.modified| <= if s.Some? then |env.gitOutput(s.value)| else 0
  {
    var s := Plan(DecodeEvent(eventName, payload));
    if s.Some? && s.value.Incremental? {
      IncrementalBound(env.gitOutput(s.value), MakeFilters(files, exclude, env.globMatch, env.onDisk));
    }
  }

  /**
   * A forced push, or one that creates its branch, reports nothing as
   * modified, and reports as added every path of the tree at `after` that
   * passes the filters, in listing order.
   */
  lemma ForcedPushReportsTree(files: string, exclude: string, payload: Payload, env: Environment)
    requires payload.forced || payload.before == ZeroSha
    ensures var r := Expected(files, exclude, "push", payload, env);
            r.modified == [] &&
            r.added == Kept(env.gitOutput(FullTree(payload.after)), MakeFilters(files, exclude, env.globMatch, env.onDisk))
  {
  }

  /** Filtering the result again with the same inputs gives back the same result. */
  lemma RefilteringIsIdempotent(files: string, exclude: string, eventName: string, payload: Payload,
                                env: Environment)
    ensures var r := Expected(files, exclude, eventName, payload, env);
            var f := MakeFilters(files, exclude, env.globMatch, env.onDisk);
            Kept(r.added, f) == r.added && Kept(r.modified, f) == r.modified
  {
    var s := Plan(DecodeEvent(eventName, payload));
    if s.Some? {
      RefilterIsIdentity(env.gitOutput(s.value), MakeFilters(files, exclude, env.globMatch, env.onDisk));
    }
  }

  /**
   * A push of `abc123..def456` whose diff lists `M src/a.php`,
   * `A src/b.php` and `D src/old.php`, both PHP files existing, with the
   * default patterns.
   */
  lemma IncrementalPushScenario(env: Environment)
    requires env.gitOutput(Incremental("abc123")) == ["M\tsrc/a.php", "A\tsrc/b.php", "D\tsrc/old.php"]
    requires env.globMatch([DefaultInclude], "src/a.php") && env.globMatch([DefaultInclude], "src/b.php")
    requires env.onDisk("src/a.php") && env.onDisk("src/b.php")
    ensures Expected("", "", "push", Payload("", "", "abc123", "def456", false), env)
            == ChangeSet(["src/b.php"], ["src/a.php"])
  {
    var f := MakeFilters("", "", env.globMatch, env.onDisk);
    assert f.Keeps("src/a.php") && f.Keeps("src/b.php");
    var a, b, d := "M\tsrc/a.php", "A\tsrc/b.php", "D\tsrc/old.php";
    AddedLineParses();
    ModifiedLineParses();
    DeletedLineIsDropped();
    ScenarioDiff(a, b, d, f);
    assert Plan(DecodeEvent("push", Payload("", "", "abc123", "def456", false))) == Some(Incremental("abc123"));
  }

  /** The three diff lines of the scenario, filed line by line. */
  lemma ScenarioDiff(a: string, b: string, d: string, f: Filters)
    requires ParseLine(a) == Some(('M', "src/a.php")) && ParseLine(b) == Some(('A', "src/b.php"))
    requires ParseLine(d).None?
    requires f.Keeps("src/a.php") && f.Keeps("src/b.php")
    ensures IncrementalChanges([a, b, d], f) == ChangeSet(["src/b.php"], ["src/a.php"])
  {
    assert Entry(a, f) == Some((Modified, "src/a.php"));
    assert Entry(b, f) == Some((Added, "src/b.php"));
    SingleLineBucket(a, f, Added);
    SingleLineBucket(a, f, Modified);
    SingleLineBucket(b, f, Added);
    SingleLineBucket(b, f, Modified);
    assert [a, b] == [a] + [b];
    BucketAppend([a], [b], f, Added);
    BucketAppend([a], [b], f, Modified);
    UnparsedLineIsIgnored([a, b], d, [], f);
    assert [a, b] + [d] + [] == [a, b, d];
    assert [a, b] + [] == [a, b];
  }

  /** The same push, forced: the tree at `def456` lists `src/a.php` and `src/b.txt`. */
  lemma ForcedPushScenario(env: Environment)
    requires env.gitOutput(FullTree("def456")) == ["src/a.php", "src/b.txt"]
    requires env.globMatch([DefaultInclude], "src/a.php") && !env.globMatch([DefaultInclude], "src/b.txt")
    requires env.onDisk("src/a.php")
    ensures Expected("", "", "push", Payload("", "", "abc123", "def456", true), env)
            == ChangeSet(["src/a.php"], [])
  {
    var f := MakeFilters("", "", env.globMatch, env.onDisk);
    KeptAppend(["src/a.php"], ["src/b.txt"], f);
    assert ["src/a.php", "src/b.txt"] == ["src/a.php"] + ["src/b.txt"];
  }
}
