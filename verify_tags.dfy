/**
 * scripts/verify-tags.js: the repository must hold at least one tag and
 * every tag must match the tag pattern; whether HEAD carries the latest tag
 * is reported but does not change the verdict.
 */
module VerifyTags {
  import opened Wrappers
  import opened Seqs
  import opened Strings
  import opened SemVer
  import opened TagListing

  /** The answers of git during one run; `None` is a command that fails. */
  datatype Facts = Facts(
    isRepo: bool,                 // `git rev-parse --git-dir`
    listing: Option<string>,      // `git tag --list`
    latest: Option<string>,       // `git describe --tags --abbrev=0`
    head: Option<string>,         // `git rev-parse HEAD`
    tagCommit: Option<string>)    // `git rev-parse <latest>`

  datatype Outcome =
    | NoRepository
    | NoTags
    | InvalidTags(invalid: seq<string>)
    | QueryFailed
    | Verified(latest: string, headTagged: bool)

  predicate Invalid(tag: string) { !Matches(tag) }

  /** `verifyGitTags`, up to its return value. */
  function VerifyGitTags(f: Facts): (o: Outcome)
    ensures o.Verified? ==> f.isRepo && f.listing.Some? && |TagLines(f.listing.value)| > 0
    ensures o.Verified? ==> Filter(TagLines(f.listing.value), Invalid) == []
  {
    if !f.isRepo then NoRepository
    else match f.listing
      case None => QueryFailed
      case Some(out) =>
        var tags := TagLines(out);
        var invalid := Filter(tags, Invalid);
        if |tags| == 0 then NoTags
        else if |invalid| > 0 then InvalidTags(invalid)
        else if f.latest.None? || f.head.None? || f.tagCommit.None? then QueryFailed
        else Verified(Trim(f.latest.value), Trim(f.head.value) == Trim(f.tagCommit.value))
  }

  /** The value `verifyGitTags` returns (outside a repository it exits before returning). */
  function Success(o: Outcome): bool { o.Verified? }

  /** `process.exit(success ? 0 : 1)`, and the early exit outside a repository. */
  function ExitCode(o: Outcome): nat { if Success(o) then 0 else 1 }

  /** An empty listing fails the verification. */
  lemma {:induction false} EmptyFails(f: Facts)
    requires f.isRepo && f.listing.Some? && TagLines(f.listing.value) == []
    ensures VerifyGitTags(f) == NoTags && !Success(VerifyGitTags(f))
  {
  }

  /** The reported list is exactly the tags the pattern rejects, in order; any of them fails the run. */
  lemma {:induction false} InvalidReported(f: Facts)
    requires f.isRepo && f.listing.Some?
    ensures var tags := TagLines(f.listing.value);
      |tags| > 0 && (exists t :: t in tags && !Matches(t)) ==>
        VerifyGitTags(f) == InvalidTags(Filter(tags, Invalid))
        && (forall t :: t in VerifyGitTags(f).invalid <==> t in tags && !Matches(t))
        && !Success(VerifyGitTags(f))
  {
    var tags := TagLines(f.listing.value);
    if exists t :: t in tags && !Matches(t) {
      var t :| t in tags && !Matches(t);
      assert Invalid(t);
      FilterMembers(tags, Invalid);
    }
  }

  /** The run succeeds exactly when there are tags, all of them match, and the later queries answer. */
  lemma {:induction false} SuccessIff(f: Facts)
    ensures Success(VerifyGitTags(f)) <==>
      f.isRepo && f.listing.Some? && |TagLines(f.listing.value)| > 0
      && (forall t :: t in TagLines(f.listing.value) ==> Matches(t))
      && f.latest.Some? && f.head.Some? && f.tagCommit.Some?
    ensures ExitCode(VerifyGitTags(f)) == 0 <==> Success(VerifyGitTags(f))
  {
    if f.isRepo && f.listing.Some? {
      var tags := TagLines(f.listing.value);
      FilterMembers(tags, Invalid);
      if |Filter(tags, Invalid)| > 0 {
        assert Filter(tags, Invalid)[0] in Filter(tags, Invalid);
      }
    }
  }

  /** Whether HEAD carries the latest tag does not change the verdict. */
  lemma {:induction false} HeadIrrelevant(f: Facts, head: string)
    requires f.head.Some?
    ensures Success(VerifyGitTags(f.(head := Some(head)))) == Success(VerifyGitTags(f))
  {
    var g := f.(head := Some(head));
    if f.isRepo && f.listing.Some? {
      var tags := TagLines(f.listing.value);
      if |tags| > 0 && |Filter(tags, Invalid)| == 0 && f.latest.Some? && f.tagCommit.Some? {
        assert VerifyGitTags(f).Verified? && VerifyGitTags(g).Verified?;
      } else {
        assert !VerifyGitTags(f).Verified? && !VerifyGitTags(g).Verified?;
      }
    }
  }
}
