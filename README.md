# Changed files of a CI event, modelled in Dafny

This project models `getChangedFiles` of the action-phpcs GitHub Action. The action runs
PHP_CodeSniffer only on the files that a pull request or a push added or modified. The routine
works in three steps:

1. It reads the CI event. A `pull_request` diffs against the pull request's base SHA. A `push`
   diffs against `before`, unless the push was forced or `before` is the all-zero SHA of a newly
   created branch. In those two cases it lists the whole tree at `after` instead. Any other event
   returns an empty result at once.
2. It runs the chosen git command: `diff-tree --name-status --diff-filter=d -r base..` or
   `ls-tree -r --name-only head`. It then reads the command's output line by line.
3. It files each path under `added` or `modified`. In incremental (diff) mode, a line must match
   `^([ACMR])[\s\t]+(\S+)$`. Status `M` goes to `modified`; `A`, `C` and `R` go to `added`. In
   full-tree mode, every line is a path and goes to `added`. In both modes a path is kept only if
   it matches the include globs (`**.php` when the `files` input is empty), exists on disk, and
   matches no exclude glob (there are none when the `exclude` input is empty).

The modules follow these steps:

- `Patterns` (patterns.dfy): `split(',')` and `join()`, the default glob lists, and the
  `Filters` built from them.
- `Events` (events.dfy): the payload fields that are read, the `Event` union, the `Strategy`
  (`Incremental(base)` or `FullTree(head)`), the pure choice `Plan`, and the method
  `SelectStrategy`. That method is the event switch with its mutable `reLint`, `base` and
  `newHead`.
- `Lines` (lines.dfy): JavaScript's `\s` class, the parser `ParseLine`, and `Accepts`. `Accepts`
  states the same grammar declaratively.
- `Collect` (collect.dfy): the two accumulation loops as methods over `seq<string>`. Each method
  is proved equal to a pure filter-map (`Bucket` for each incremental list, `Kept` for the
  full-tree list). The lemmas about those functions cover order, bounds, membership and
  re-filtering.
- `ChangedFiles` (changed_files.dfy): the whole routine `GetChangedFiles`. It is proved equal to
  the function `Expected`, and lemmas state what every result satisfies.

The outside world is passed in as one `Environment` value:

- `globMatch(globs, path)` stands for picomatch.
- `onDisk(path)` stands for `existsSync`.
- `gitOutput(strategy)` stands for the stdout lines of the git command that the strategy names.

The `files` and `exclude` inputs, the event name and the payload are plain parameters.

Two properties one might expect, a deduplicated result and disjoint lists, are not enforced by
the code; they hold only because git's listing names each path once. The model follows the code:

- The result is not deduplicated. A path reported twice is pushed twice
  (`Collect.RepeatedPathIsKeptTwice`). When the listing names each path once, each list is free
  of duplicates (`Collect.DistinctLinesGiveDistinctBucket`, `Collect.DistinctLinesGiveDistinctKept`).
- `added` and `modified` are not kept disjoint. A path reported once as `A` and once as `M` lands
  in both lists (`Collect.SamePathCanBeInBothLists`). When the listing names each path once, the
  two lists are disjoint (`Collect.DistinctLinesGiveDisjointLists`).

What does hold is per line: each line lands in at most one list, at most once
(`Collect.LineLandsOnce`).

## Model

| member | source | states |
|---|---|---|
| `Patterns.Join` | src/get-changed-file.ts:21 | reference definition of `globs.join()`: the pieces with a comma between neighbours, the empty string for no pieces |
| `Patterns.Split` | src/get-changed-file.ts:19 | `split(',')` returns at least one piece, no piece contains a comma, and joining the pieces with commas gives back the input |
| `Patterns.SplitJoin` | src/get-changed-file.ts:19 | splitting a comma-join of comma-free pieces gives back exactly those pieces (the inverse of the round trip above) |
| `Patterns.IncludeGlobs` | src/get-changed-file.ts:19 | an empty `files` input gives the single pattern `**.php`; otherwise the globs are the comma-free pieces whose join is the input; there is always at least one glob |
| `Patterns.ExcludeGlobs` | src/get-changed-file.ts:26 | the exclude list is empty exactly when the `exclude` input is empty; otherwise it is the comma-free pieces whose join is the input |
| `Patterns.MakeFilters` | src/get-changed-file.ts:19-29 | `isMatch` is the glob matcher over the include globs; `isExcluded` is false for every path when `exclude` is empty, and otherwise is the matcher over the exclude globs; the existence test is passed through |
| `Patterns.Filters.Keeps` | src/get-changed-file.ts:120 | reference definition of the three-way test `isMatch(p) && existsSync(p) && !isExcluded(p)`, the same test the full-tree loop applies at line 137 |
| `Patterns.LoggedIncludeList` | src/get-changed-file.ts:21 | the logged `globs.join()` is the `files` input itself, or `**.php` when that input is empty |
| `Patterns.IncludeGlobsArePieces` | src/get-changed-file.ts:19 | a non-empty `files` input written as comma-separated pieces is read back as exactly those pieces |
| `Patterns.TrailingCommaLeavesEmptyGlob` | src/get-changed-file.ts:19 | a `files` input with a trailing comma, `a,`, is read as the globs `a` and the empty glob |
| `Events.DecodeEvent` | src/get-changed-file.ts:35-51 | the event is `Other` exactly when its name is neither `pull_request` nor `push`; a pull request carries the payload's base and head SHAs; a push carries `before`, `after` and `forced` |
| `Events.Plan` | src/get-changed-file.ts:32-91 | reference definition of the strategy choice: a pull request diffs against its base SHA; a push lists the tree at `after` when forced or when `before` is the all-zero SHA and otherwise diffs against `before`; any other event selects no listing |
| `Events.SelectStrategy` | src/get-changed-file.ts:32-91 | the switch with its mutable `reLint`, `base` and `newHead` yields exactly the strategy `Plan` gives, or none for an unknown event |
| `Events.UnknownEventSelectsNothing` | src/get-changed-file.ts:52-57 | no git listing is selected exactly when the event name is neither `pull_request` nor `push` |
| `Events.PullRequestIsIncremental` | src/get-changed-file.ts:36-78 | a pull request always gets the incremental diff against `pull_request.base.sha` |
| `Events.PushStrategy` | src/get-changed-file.ts:43-91 | a push always selects a listing; it is the full tree exactly when `forced` holds or `before` is the all-zero SHA; the full tree is listed at `after`, and the diff runs against `before` |
| `Events.NewBranchIsFullTree` | src/get-changed-file.ts:48-49 | a push whose `before` is the 40-character all-zero SHA lists the tree at `after`, whatever `forced` says |
| `Events.FullTreeOnlyForPush` | src/get-changed-file.ts:48-91 | a full-tree listing comes only from a push that was forced or created its branch, and it is always at that push's `after` |
| `Lines.IsSpace` | src/get-changed-file.ts:116 | reference definition of the JavaScript `\s` class in the regex: tab to carriage return, space, U+00A0, U+1680, U+2000-U+200A, U+2028, U+2029, U+202F, U+205F, U+3000 and U+FEFF |
| `Lines.Accepts` | src/get-changed-file.ts:116 | reference definition of the regex as a grammar: a status in `[ACMR]`, a non-empty whitespace gap, then a non-empty whitespace-free path that ends the line |
| `Lines.SpanSpaces` | src/get-changed-file.ts:116 | the greedy `[\s\t]+`: the returned length is within the input, covers only whitespace, and stops at the first non-whitespace character |
| `Lines.ParseLine` | src/get-changed-file.ts:116-118 | a parsed line is in the grammar: a status from {A,C,M,R}, a non-empty whitespace gap, and a non-empty whitespace-free path that ends the line |
| `Lines.ParseLineIsGrammar` | src/get-changed-file.ts:116-117 | `ParseLine(line) == Some((status, file))` holds if and only if the line is `status`, then whitespace, then `file` as the grammar demands; every other line gives `None` |
| `Lines.ParsedPathEndsLine` | src/get-changed-file.ts:116-118 | a parsed status is the line's first character, and the parsed path is whitespace-free and is the line's suffix |
| `Lines.TabbedLineParses` | src/get-changed-file.ts:116-118 | a status letter, one tab and any non-empty whitespace-free path parse to that status and path |
| `Lines.AddedLineParses` | src/get-changed-file.ts:116-118 | `A<TAB>src/b.php` parses to status `A`, path `src/b.php` |
| `Lines.ModifiedLineParses` | src/get-changed-file.ts:116-118 | `M<TAB>src/a.php` parses to status `M`, path `src/a.php` |
| `Lines.ScoredRenameIsDropped` | src/get-changed-file.ts:116-117 | a rename line with a similarity score and two paths (`R100<TAB>old<TAB>new`) does not parse |
| `Lines.SpacedPathIsDropped` | src/get-changed-file.ts:116-117 | a path containing a space does not parse |
| `Lines.DeletedLineIsDropped` | src/get-changed-file.ts:116-117 | a `D` (deleted) line does not parse |
| `Collect.BinOf` | src/get-changed-file.ts:121-130 | exactly the statuses A, C, M, R are filed, and `M` alone goes to `modified` |
| `Collect.Entry` | src/get-changed-file.ts:116-130 | a line contributes a path exactly when it parses and its path passes `isMatch`, the existence test and `!isExcluded`; the path is the parsed path; it goes to `modified` exactly when the status is `M` |
| `Collect.Emit` | src/get-changed-file.ts:116-130 | reference definition of one line's pushes onto list `b`: the path of its entry when that entry is filed under `b`, otherwise nothing |
| `Collect.Bucket` | src/get-changed-file.ts:113-133 | reference definition of incremental list `b`: the concatenation, in line order, of every line's contribution to `b` |
| `Collect.IncrementalChanges` | src/get-changed-file.ts:108-133 | reference definition of the incremental result: `added` and `modified` are the two buckets of the listing |
| `Collect.FullTreeChanges` | src/get-changed-file.ts:108-141 | reference definition of the full-tree result: `added` is the kept lines and `modified` stays empty |
| `Collect.BucketPathsPass` | src/get-changed-file.ts:120-129 | every path in an incremental list passes the three filters |
| `Collect.Kept` | src/get-changed-file.ts:135-140 | the full-tree list is no longer than the listing, and every path in it passes the three filters |
| `Collect.CollectIncremental` | src/get-changed-file.ts:108-133 | the incremental loop, pushing in place onto `added` and `modified`, returns exactly the two filter-maps `Bucket(lines, f, Added)` and `Bucket(lines, f, Modified)` |
| `Collect.CollectFullTree` | src/get-changed-file.ts:134-141 | the full-tree loop leaves `modified` empty and returns as `added` exactly the kept lines, verbatim and in order |
| `Collect.BucketAppend` | src/get-changed-file.ts:114-133 | the incremental lists of concatenated listings are the concatenations of their lists, so appends keep input line order |
| `Collect.KeptAppend` | src/get-changed-file.ts:135-140 | the full-tree list of concatenated listings is the concatenation of their lists, so line order is kept |
| `Collect.LineLandsOnce` | src/get-changed-file.ts:120-130 | one line adds one path to exactly one list when it parses and passes the filters (`modified` for `M`, otherwise `added`), and adds nothing otherwise |
| `Collect.UnparsedLineIsIgnored` | src/get-changed-file.ts:116-117 | inserting a line outside the grammar anywhere in the listing leaves both lists unchanged |
| `Collect.IncrementalBound` | src/get-changed-file.ts:113-133 | `added` and `modified` together hold at most as many paths as there are lines |
| `Collect.BucketMembers` | src/get-changed-file.ts:114-133 | a path is in a list if and only if some line of the listing contributes it to that list |
| `Collect.KeptMembers` | src/get-changed-file.ts:135-140 | a path is in the full-tree list if and only if it is a line of the listing and passes the filters |
| `Collect.KeptOfKept` | src/get-changed-file.ts:137 | filtering a list whose every path already passes the filters changes nothing |
| `Collect.RefilterIsIdentity` | src/get-changed-file.ts:120-138 | re-filtering any result list with the same filters gives the same list, in both modes |
| `Collect.SamePathCanBeInBothLists` | src/get-changed-file.ts:121-129 | the lines `A x.php` and `M x.php` put `x.php` in both `added` and `modified`; the lists are not disjoint |
| `Collect.RepeatedPathIsKeptTwice` | src/get-changed-file.ts:137-138 | a path listed twice is reported twice; nothing is deduplicated |
| `Collect.DistinctLinesGiveDistinctBucket` | src/get-changed-file.ts:113-133 | when no two parsed lines of the listing name the same path, neither incremental list holds a path twice |
| `Collect.DistinctLinesGiveDisjointLists` | src/get-changed-file.ts:113-133 | when no two parsed lines of the listing name the same path, no path is in both `added` and `modified` |
| `Collect.DistinctLinesGiveDistinctKept` | src/get-changed-file.ts:134-141 | when the tree listing names no path twice, the full-tree list holds no path twice |
| `ChangedFiles.Expected` | src/get-changed-file.ts:15-151 | reference definition of the whole routine: the filters from the inputs, the strategy from the event, then the incremental or full-tree result over the chosen listing, or an empty result when no listing is selected |
| `ChangedFiles.GetChangedFiles` | src/get-changed-file.ts:15-151 | the routine returns exactly `Expected` of its inputs and environment, and an empty result for any event other than `pull_request` or `push` |
| `ChangedFiles.ReportedPathsPassFilters` | src/get-changed-file.ts:120-138 | every reported path matches the include globs (the default `**.php` when `files` is empty), exists on disk, and matches no exclude glob |
| `ChangedFiles.ResultWithinListing` | src/get-changed-file.ts:108-141 | the number of reported paths never exceeds the number of lines git printed, and is zero when no listing was selected |
| `ChangedFiles.ForcedPushReportsTree` | src/get-changed-file.ts:134-141 | a forced or branch-creating push reports nothing as modified, and reports as added exactly the kept paths of the tree at `after`, in listing order |
| `ChangedFiles.RefilteringIsIdempotent` | src/get-changed-file.ts:120-138 | filtering the routine's result again with the same inputs returns it unchanged |
| `ChangedFiles.IncrementalPushScenario` | src/get-changed-file.ts:113-133 | a push from `abc123` whose diff prints `M src/a.php`, `A src/b.php` and `D src/old.php` gives `added = [src/b.php]` and `modified = [src/a.php]` under the default patterns |
| `ChangedFiles.ForcedPushScenario` | src/get-changed-file.ts:134-141 | the same push, forced, whose tree at `def456` holds `src/a.php` and `src/b.txt`, gives `added = [src/a.php]` and an empty `modified` |

## Left out

- Spawning git is left out: the argument vectors beyond the command and revision that `Strategy`
  records, the 5000 ms timeout, exit codes and the stderr listener (src/get-changed-file.ts:67-103).
  These are operating-system process I/O. `gitOutput` returns any sequence of lines, so output
  cut short by a timeout or a failed exit is covered.
- `readline` streaming and `for await` (src/get-changed-file.ts:105-107, 114, 135) are left out.
  The output is a finite `seq<string>` of lines that are already split.
- ChangedFiles.GetChangedFiles: an empty glob piece in `files` or `exclude` (such as `a,`, `,b`
  or `a,,b`) makes picomatch throw at src/get-changed-file.ts:20 or 28, before the `try` at line
  66, so the routine rejects whatever the event. The model passes the empty piece to the total
  `globMatch` and returns a result instead (`Patterns.TrailingCommaLeavesEmptyGlob` shows the
  empty piece).
- picomatch glob semantics (src/get-changed-file.ts:20, 28) are left out. picomatch is a foreign
  library, so it is the opaque `globMatch`.
- `existsSync` (src/get-changed-file.ts:120, 137) is left out. It is a file-system call, so it is
  the opaque `onDisk`.
- `core.getInput`, `core.info`, `core.debug`, `core.error` and `github.context`
  (src/get-changed-file.ts:16, 21, 23, 30, 35, 38, 45, 53, 60, 94-102, 115, 136) are left out. Their values
  are parameters, and logging has no effect on the result. `Patterns.Join` models only the string
  that `globs.join()` logs.
- The catch-all that turns an exception into an empty result (src/get-changed-file.ts:144-150)
  is left out. Only the runtime failures of the I/O above can raise there.
- Strings are sequences of Unicode scalar values, not UTF-16 code units, so lone surrogates
  cannot be written. Every `\s` character lies in the Basic Multilingual Plane, so the grammar
  accepts and rejects the same lines either way.
- `Patterns.Split` models `String.prototype.split` only for a one-character separator. That is
  the only form the routine uses.
