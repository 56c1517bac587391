/**
 * Classification of the CI trigger event and the choice of the git listing
 * to read: an incremental diff against a base commit, or a full listing of
 * the tree at the new head.
 */
module Events {
  import opened Wrappers

  /** The SHA git reports as `before` when a push creates a branch. */
  const ZeroSha: string := "0000000000000000000000000000000000000000"

  /**
   * The fields of the event payload that are read: `pull_request.base.sha`,
   * `pull_request.head.sha`, and `before`, `after`, `forced` of a push.
   */
  datatype Payload = Payload(
    pullRequestBaseSha: string,
    pullRequestHeadSha: string,
    before: string,
    after: string,
    forced: bool)

  /** The trigger event as the routine tells it apart: a pull request, a push, or any other event name. */
  datatype Event =
    | PullRequest(baseSha: string, headSha: string)
    | Push(before: string, after: string, forced: bool)
    | Other(name: string)

  /**
   * Which git command is run, and against which revision:
   * `diff-tree ... base..` or `ls-tree -r --name-only head`.
   */
  datatype Strategy = Incremental(base: string) | FullTree(head: string)

  /** The payload read as the event its name announces. */
  function DecodeEvent(name: string, payload: Payload): (ev: Event)
    ensures ev.Other? <==> name != "pull_request" && name != "push"
    ensures ev.Other? ==> ev.name == name
    ensures ev.PullRequest? ==> ev.baseSha == payload.pullRequestBaseSha && ev.headSha == payload.pullRequestHeadSha
    ensures ev.Push? ==> ev.before == payload.before && ev.after == payload.after && ev.forced == payload.forced
  {
    if name == "pull_request" then PullRequest(payload.pullRequestBaseSha, payload.pullRequestHeadSha)
    else if name == "push" then Push(payload.before, payload.after, payload.forced)
    else Other(name)
  }

  /**
   * The strategy for an event, or None when the event is not handled (the
   * caller then returns an empty result). A push re-lints the whole tree when
   * it was forced or created the branch.
   */
  function Plan(ev: Event): Option<Strategy>
  {
    match ev
    case PullRequest(base, _) => Some(Incremental(base))
    case Push(before, after, forced) =>
      var reLint := forced || before == ZeroSha;
      Some(if !reLint then Incremental(before) else FullTree(after))
    case Other(_) => None
  }

  /** The event switch, with its mutable `reLint`, `base` and `newHead`. */
  method SelectStrategy(ev: Event) returns (strategy: Option<Strategy>)
    ensures strategy == Plan(ev)
  {
    var reLint := false;
    var base := "";
    var newHead := "";
    match ev {
      case PullRequest(baseSha, headSha) =>
        base := baseSha;
        newHead := headSha;
      case Push(before, after, forced) =>
        base := before;
        newHead := after;
        reLint := forced || base == ZeroSha;
      case Other(_) =>
        return None;
    }
    strategy := Some(if !reLint then Incremental(base) else FullTree(newHead));
  }

  /** Only `pull_request` and `push` select a git listing. */
  lemma UnknownEventSelectsNothing(name: string, payload: Payload)
    ensures Plan(DecodeEvent(name, payload)).None? <==> name != "pull_request" && name != "push"
  {
  }

  /** A pull request always diffs against its base SHA. */
  lemma PullRequestIsIncremental(payload: Payload)
    ensures Plan(DecodeEvent("pull_request", payload)) == Some(Incremental(payload.pullRequestBaseSha))
  {
  }

  /**
   * A push lists the whole tree at `after` exactly when it was forced or
   * `before` is the all-zero SHA; otherwise it diffs against `before`.
   */
  lemma PushStrategy(payload: Payload, s: Strategy)
    ensures Plan(DecodeEvent("push", payload)) == Some(s) ==>
              (s.FullTree? <==> payload.forced || payload.before == ZeroSha)
    ensures Plan(DecodeEvent("push", payload)) == Some(s) && s.FullTree? ==> s.head == payload.after
    ensures Plan(DecodeEvent("push", payload)) == Some(s) && s.Incremental? ==> s.base == payload.before
    ensures Plan(DecodeEvent("push", payload)).Some?
  {
  }

  /** A push that creates a branch lists the tree at `after`, whatever `forced` says. */
  lemma NewBranchIsFullTree(after: string, forced: bool)
    ensures Plan(Push(ZeroSha, after, forced)) == Some(FullTree(after))
  {
  }

  /** A full-tree listing is only ever chosen for a push, and always at its `after`. */
  lemma FullTreeOnlyForPush(ev: Event, head: string)
    requires Plan(ev) == Some(FullTree(head))
    ensures ev.Push? && head == ev.after && (ev.forced || ev.before == ZeroSha)
  {
  }
}
