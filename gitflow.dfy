/**
 * scripts/gitflow-automation.js: per-branch tagging after feature, release,
 * hotfix and merge events. The branch and the package version are fixed when
 * the object is built; the repository's answers, the clock and the random
 * numbers are a `Repo` parameter, and each handler returns the `Action` the
 * script would take.
 */
module GitFlow {
  import opened Wrappers
  import opened Strings
  import opened Versions

  /** What the repository and the environment answer. */
  datatype Repo = Repo(
    refs: set<string>,          // names `git rev-parse <name>` resolves
    mergeBase: Option<string>,  // output of `git merge-base HEAD development`; None when it fails
    newCommits: Option<string>, // output of `git log <latest>..HEAD --oneline`; None when it fails
    now: nat -> nat,            // `Date.now()` at each attempt of `createUniqueTag`
    random: nat -> nat)         // `Math.floor(Math.random() * 1000)` at each attempt

  datatype Action =
    | Skipped                                   // not a branch of this kind
    | NothingToDo                               // the guards held but there is nothing to tag
    | Released(kind: string, tag: string)       // `yarn release:<kind>` once `v<tag>` was found free
    | ReleasedAs(kind: string, version: string) // `yarn release:<kind> --release-as <version>`
    | AlreadyTagged(version: string)            // `v<version>` exists: skipped
    | NoUniqueTag                               // three candidates taken: exit 1
    | MergeBaseFailed                           // exit 1
    | LogFailed                                 // exit 1
    | BadReleaseName                            // no `release/X.Y.Z` in the branch name: exit 1
    | InvalidCommand                            // exit 1

  /** `tagExists(name)`. */
  predicate TagExists(repo: Repo, name: string)
  {
    "v" + name in repo.refs
  }

  // ------------------------------------------------------------ next version

  predicate IsBumpKind(kind: string) { kind == "major" || kind == "minor" || kind == "patch" }

  /** The components a bump writes: `major + 1, 0, 0`, `major, minor + 1, 0` or `major, minor, patch + 1`. */
  function Bumped(kind: string, c: Reading): Reading
    requires IsBumpKind(kind)
  {
    if kind == "major" then Reading(Succ(c.major), Num(0), Num(0))
    else if kind == "minor" then Reading(c.major, Succ(c.minor), Num(0))
    else Reading(c.major, c.minor, Succ(c.patch))
  }

  /**
   * `getNextVersion(kind, version)`: the template of the bumped components
   * of `version.split('.').map(Number)` for `major`, `minor` and `patch`,
   * the input unchanged for any other kind.
   */
  function NextVersion(kind: string, current: string): (r: string)
    ensures !IsBumpKind(kind) ==> r == current
    ensures IsBumpKind(kind) ==> '-' !in r && '+' !in r
  {
    if IsBumpKind(kind) then Text(Bumped(kind, Read(current))) else current
  }

  /** A bump of a plain version reads back as the expected triple, which follows the old one. */
  lemma NextVersionBumps(kind: string, current: string, v: Version)
    requires IsBumpKind(kind) && Parse(current) == Some(v)
    ensures Parse(NextVersion(kind, current)).Some?
    ensures var w := Parse(NextVersion(kind, current)).value;
      && Less(v, w)
      && (kind == "major" ==> w == Version(v.major + 1, 0, 0))
      && (kind == "minor" ==> w == Version(v.major, v.minor + 1, 0))
      && (kind == "patch" ==> w == Version(v.major, v.minor, v.patch + 1))
  {
    var w := if kind == "major" then Version(v.major + 1, 0, 0)
      else if kind == "minor" then Version(v.major, v.minor + 1, 0)
      else Version(v.major, v.minor, v.patch + 1);
    assert Bumped(kind, Read(current)) == Exact(w);
    ParseRender(w);
  }

  /**
   * The major bump reads only the major component and the minor bump only
   * the major and minor ones: whatever follows them (a pre-release patch, a
   * missing patch) does not change the result.
   */
  lemma NextVersionReadsLeading(c1: string, c2: string)
    ensures Read(c1).major == Read(c2).major ==> NextVersion("major", c1) == NextVersion("major", c2)
    ensures Read(c1).major == Read(c2).major && Read(c1).minor == Read(c2).minor ==>
      NextVersion("minor", c1) == NextVersion("minor", c2)
  {
  }

  /** With numeric leading components the minor and major bumps are plain versions, whatever the patch is. */
  lemma {:induction false} LeadingBumps(current: string, major: nat, minor: nat)
    ensures Read(current).major == Num(major) ==>
      NextVersion("major", current) == Render(Version(major + 1, 0, 0))
    ensures Read(current).major == Num(major) && Read(current).minor == Num(minor) ==>
      NextVersion("minor", current) == Render(Version(major, minor + 1, 0))
  {
    assert Exact(Version(major + 1, 0, 0)) == Reading(Num(major + 1), Num(0), Num(0));
    assert Exact(Version(major, minor + 1, 0)) == Reading(Num(major), Num(minor + 1), Num(0));
  }

  /**
   * Bumps of dotted text whose leading pieces are digit strings: a
   * pre-release `1.3.0-alpha.0` bumps to `1.4.0` (minor) and `2.0.0` (major),
   * and `1.2`, which has no patch, bumps to `1.3.0` (minor).
   */
  lemma {:induction false} DottedBumps(a: string, b: string, rest: string)
    requires AllDigits(a) && AllDigits(b)
    ensures NextVersion("major", a + "." + rest) == Render(Version(DigitsToNat(a) + 1, 0, 0))
    ensures NextVersion("minor", a + "." + b + "." + rest) == Render(Version(DigitsToNat(a), DigitsToNat(b) + 1, 0))
    ensures NextVersion("minor", a + "." + b) == Render(Version(DigitsToNat(a), DigitsToNat(b) + 1, 0))
  {
    DottedMajorBump(a, rest);
    DottedMinorBump(a, b, rest);
    ShortMinorBump(a, b);
  }

  lemma {:induction false} DottedMajorBump(a: string, rest: string)
    requires AllDigits(a)
    ensures NextVersion("major", a + "." + rest) == Render(Version(DigitsToNat(a) + 1, 0, 0))
  {
    DigitsFree(a);
    ReadDotted(a, "", rest);
    LeadingBumps(a + "." + rest, DigitsToNat(a), 0);
  }

  lemma {:induction false} DottedMinorBump(a: string, b: string, rest: string)
    requires AllDigits(a) && AllDigits(b)
    ensures NextVersion("minor", a + "." + b + "." + rest) == Render(Version(DigitsToNat(a), DigitsToNat(b) + 1, 0))
  {
    DigitsFree(a);
    DigitsFree(b);
    ReadDotted(a, b, rest);
    LeadingBumps(a + "." + b + "." + rest, DigitsToNat(a), DigitsToNat(b));
  }

  lemma {:induction false} ShortMinorBump(a: string, b: string)
    requires AllDigits(a) && AllDigits(b)
    ensures NextVersion("minor", a + "." + b) == Render(Version(DigitsToNat(a), DigitsToNat(b) + 1, 0))
  {
    DigitsFree(a);
    DigitsFree(b);
    ReadPair(a, b);
    LeadingBumps(a + "." + b, DigitsToNat(a), DigitsToNat(b));
  }

  // -------------------------------------------------------------- unique tag

  /** The name tried at `attempt`: `base-kind.now`, then `base-kind.now.random`. */
  function Candidate(base: string, kind: string, repo: Repo, attempt: nat): string
  {
    var head := base + "-" + kind + "." + NatToString(repo.now(attempt));
    if attempt == 1 then head else head + "." + NatToString(repo.random(attempt))
  }

  /** Every candidate is named after its base and kind. */
  lemma {:induction false} CandidateStartsWith(base: string, kind: string, repo: Repo, attempt: nat)
    ensures StartsWith(Candidate(base, kind, repo, attempt), base + "-" + kind + ".")
  {
    var p := base + "-" + kind + ".";
    var head := p + NatToString(repo.now(attempt));
    assert p <= head;
    assert head <= head + "." + NatToString(repo.random(attempt));
  }

  /** The first attempt from `attempt` to 3 whose candidate is free, or 4 when there is none. */
  function FirstFree(base: string, kind: string, repo: Repo, attempt: nat): (k: nat)
    requires 1 <= attempt <= 4
    ensures attempt <= k <= 4
    ensures k <= 3 ==> !TagExists(repo, Candidate(base, kind, repo, k))
    ensures forall j :: attempt <= j < k ==> TagExists(repo, Candidate(base, kind, repo, j))
    decreases 4 - attempt
  {
    if attempt == 4 then 4
    else if !TagExists(repo, Candidate(base, kind, repo, attempt)) then attempt
    else
      var k := FirstFree(base, kind, repo, attempt + 1);
      assert forall j :: attempt + 1 <= j < k ==> TagExists(repo, Candidate(base, kind, repo, j));
      k
  }

  /** What `createUniqueTag` settles on: the first free candidate of three. */
  function UniqueTag(base: string, kind: string, repo: Repo): (r: Option<string>)
    ensures r.Some? ==> !TagExists(repo, r.value) && StartsWith(r.value, base + "-" + kind + ".")
  {
    var k := FirstFree(base, kind, repo, 1);
    CandidateStartsWith(base, kind, repo, k);
    if k <= 3 then Some(Candidate(base, kind, repo, k)) else None
  }

  /** The tag chosen is free and every candidate before it is taken; there is none exactly when all three are taken. */
  lemma UniqueTagIsFirstFree(base: string, kind: string, repo: Repo)
    ensures UniqueTag(base, kind, repo).None? <==>
      forall j :: 1 <= j <= 3 ==> TagExists(repo, Candidate(base, kind, repo, j))
    ensures UniqueTag(base, kind, repo).Some? ==>
      exists k :: 1 <= k <= 3 && UniqueTag(base, kind, repo).value == Candidate(base, kind, repo, k)
        && !TagExists(repo, Candidate(base, kind, repo, k))
        && forall j :: 1 <= j < k ==> TagExists(repo, Candidate(base, kind, repo, j))
  {
    var k := FirstFree(base, kind, repo, 1);
    if k > 3 {
      assert forall j :: 1 <= j <= 3 ==> TagExists(repo, Candidate(base, kind, repo, j));
    }
  }

  /** `createUniqueTag(base, kind)` followed by `yarn release:<kind>`, or exit 1. */
  function TagFor(base: string, kind: string, repo: Repo): (a: Action)
    ensures a.Released? || a == NoUniqueTag
    ensures a.Released? ==> a.kind == kind && !TagExists(repo, a.tag)
  {
    match UniqueTag(base, kind, repo)
    case None => NoUniqueTag
    case Some(t) => Released(kind, t)
  }

  /** A released tag is free, of the requested kind, and named after its base. */
  lemma TagForReleases(base: string, kind: string, repo: Repo)
    ensures var a := TagFor(base, kind, repo);
      && (a.Released? ==>
            a.kind == kind && !TagExists(repo, a.tag) && StartsWith(a.tag, base + "-" + kind + "."))
      && (a == NoUniqueTag <==> forall j :: 1 <= j <= 3 ==> TagExists(repo, Candidate(base, kind, repo, j)))
      && (a.Released? || a == NoUniqueTag)
  {
    UniqueTagIsFirstFree(base, kind, repo);
    CandidateStartsWith(base, kind, repo, FirstFree(base, kind, repo, 1));
  }

  /** `createPatchTag` (`patch`) and `createFinalTag` (`minor`): skipped when `v<next>` exists. */
  function FinalFor(kind: string, current: string, repo: Repo): (a: Action)
    ensures a.ReleasedAs? || a.AlreadyTagged?
    ensures a.ReleasedAs? ==> a.kind == kind && !TagExists(repo, a.version)
  {
    var next := NextVersion(kind, current);
    if TagExists(repo, next) then AlreadyTagged(next) else ReleasedAs(kind, next)
  }

  /** A final tag is released only when `v<next>` is free, and a taken one is reported, never re-created. */
  lemma FinalForSkipsExisting(kind: string, current: string, repo: Repo)
    ensures var a := FinalFor(kind, current, repo);
      && (a.ReleasedAs? ==> a.kind == kind && a.version == NextVersion(kind, current) && !TagExists(repo, a.version))
      && (a.AlreadyTagged? ==> a.version == NextVersion(kind, current) && TagExists(repo, a.version))
      && (a.ReleasedAs? || a.AlreadyTagged?)
  {
  }

  class GitFlowAutomation {
    const currentBranch: string
    const currentVersion: string

    constructor(branch: string, version: string)
      ensures currentBranch == branch && currentVersion == version
    {
      currentBranch := branch;
      currentVersion := version;
    }

    /** `createUniqueTag`: up to three attempts, stopping at the first free name. */
    method CreateUniqueTag(base: string, kind: string, repo: Repo) returns (r: Option<string>)
      ensures r == UniqueTag(base, kind, repo)
    {
      var attempt := 1;
      while attempt <= 3
        invariant 1 <= attempt <= 4
        invariant FirstFree(base, kind, repo, attempt) == FirstFree(base, kind, repo, 1)
        decreases 4 - attempt
      {
        var tagName := Candidate(base, kind, repo, attempt);
        if !TagExists(repo, tagName) {
          return Some(tagName);
        }
        attempt := attempt + 1;
      }
      return None;
    }

    /** `createUniqueTag` followed by `yarn release:<kind>`, or exit 1. */
    method TagUnique(base: string, kind: string, repo: Repo) returns (a: Action)
      ensures a == TagFor(base, kind, repo)
    {
      var r := CreateUniqueTag(base, kind, repo);
      if r.Some? {
        a := Released(kind, r.value);
      } else {
        a := NoUniqueTag;
      }
    }

    /** `createAlphaTag`: a unique alpha tag for the next minor version. */
    method CreateAlphaTag(repo: Repo) returns (a: Action)
      ensures a == TagFor(NextVersion("minor", currentVersion), "alpha", repo)
    {
      var nextMinor := NextVersion("minor", currentVersion);
      a := TagUnique(nextMinor, "alpha", repo);
    }

    /** `createPatchTag` / `createFinalTag`: skipped when `v<next>` exists. */
    method CreateFinal(kind: string, repo: Repo) returns (a: Action)
      requires kind == "patch" || kind == "minor"
      ensures a == FinalFor(kind, currentVersion, repo)
    {
      var next := NextVersion(kind, currentVersion);
      if TagExists(repo, next) {
        a := AlreadyTagged(next);
      } else {
        a := ReleasedAs(kind, next);
      }
    }

    /** `handleFeature`: only `add/`, `fix/` and `update/` branches, and only when the merge base is non-empty. */
    method HandleFeature(repo: Repo) returns (a: Action)
      ensures !IsFeatureBranch(currentBranch) ==> a == Skipped
      ensures IsFeatureBranch(currentBranch) && repo.mergeBase.None? ==> a == MergeBaseFailed
      ensures IsFeatureBranch(currentBranch) && repo.mergeBase == Some("") ==> a == NothingToDo
      ensures IsFeatureBranch(currentBranch) && repo.mergeBase.Some? && repo.mergeBase.value != "" ==>
        a == TagFor(NextVersion("minor", currentVersion), "alpha", repo)
    {
      if !IsFeatureBranch(currentBranch) {
        return Skipped;
      }
      if repo.mergeBase.None? {
        return MergeBaseFailed;
      }
      if repo.mergeBase.value == "" {
        return NothingToDo;
      }
      a := CreateAlphaTag(repo);
    }

    /** `handleRelease`: a beta tag for the first `release/X.Y.Z` found in the branch name. */
    method HandleRelease(repo: Repo) returns (a: Action)
      ensures !StartsWith(currentBranch, "release/") ==> a == Skipped
      ensures StartsWith(currentBranch, "release/") && ReleaseTarget(currentBranch).None? ==> a == BadReleaseName
      ensures StartsWith(currentBranch, "release/") && ReleaseTarget(currentBranch).Some? ==>
        a == TagFor(ReleaseTarget(currentBranch).value, "beta", repo)
    {
      if !StartsWith(currentBranch, "release/") {
        return Skipped;
      }
      var target := ReleaseTarget(currentBranch);
      if target.None? {
        return BadReleaseName;
      }
      a := TagUnique(target.value, "beta", repo);
    }

    /** `handleHotfix`: an rc tag when the name mentions `release`, a patch tag otherwise. */
    method HandleHotfix(repo: Repo) returns (a: Action)
      ensures !StartsWith(currentBranch, "hotfix/") ==> a == Skipped
      ensures StartsWith(currentBranch, "hotfix/") && Contains(currentBranch, "release") ==>
        a == TagFor(NextVersion("patch", currentVersion), "rc", repo)
      ensures StartsWith(currentBranch, "hotfix/") && !Contains(currentBranch, "release") ==>
        a == FinalFor("patch", currentVersion, repo)
    {
      if !StartsWith(currentBranch, "hotfix/") {
        return Skipped;
      }
      if Contains(currentBranch, "release") {
        var nextPatch := NextVersion("patch", currentVersion);
        a := TagUnique(nextPatch, "rc", repo);
      } else {
        a := CreateFinal("patch", repo);
      }
    }

    /** `handleMerge`: `development` tags new commits as alpha, `master` gets the final minor tag, other branches nothing. */
    method HandleMerge(repo: Repo) returns (a: Action)
      ensures currentBranch != "development" && currentBranch != "master" ==> a == NothingToDo
      ensures currentBranch == "development" && repo.newCommits.None? ==> a == LogFailed
      ensures currentBranch == "development" && repo.newCommits.Some? && Trim(repo.newCommits.value) == "" ==> a == NothingToDo
      ensures currentBranch == "development" && repo.newCommits.Some? && Trim(repo.newCommits.value) != "" ==>
        a == TagFor(NextVersion("minor", currentVersion), "alpha", repo)
      ensures currentBranch == "master" ==> a == FinalFor("minor", currentVersion, repo)
    {
      if currentBranch == "development" {
        if repo.newCommits.None? {
          return LogFailed;
        }
        if Trim(repo.newCommits.value) == "" {
          return NothingToDo;
        }
        a := CreateAlphaTag(repo);
      } else if currentBranch == "master" {
        a := CreateFinal("minor", repo);
      } else {
        a := NothingToDo;
      }
    }

    /** `run()`: the command names the handler. */
    method Run(command: string, repo: Repo) returns (a: Action)
      ensures command !in {"feature", "release", "hotfix", "merge"} ==> a == InvalidCommand
      ensures command in {"feature", "release", "hotfix", "merge"} ==> a != InvalidCommand
      ensures a == Dispatch(command, currentBranch, currentVersion, repo)
    {
      if command == "feature" {
        a := HandleFeature(repo);
      } else if command == "release" {
        a := HandleRelease(repo);
      } else if command == "hotfix" {
        a := HandleHotfix(repo);
      } else if command == "merge" {
        a := HandleMerge(repo);
      } else {
        a := InvalidCommand;
      }
    }
  }

  // ---------------------------------------------------------------- handlers

  /** What `handleFeature` does on `branch`. */
  function FeatureAction(branch: string, version: string, repo: Repo): Action
  {
    if !IsFeatureBranch(branch) then Skipped
    else match repo.mergeBase
      case None => MergeBaseFailed
      case Some(m) => if m == "" then NothingToDo else TagFor(NextVersion("minor", version), "alpha", repo)
  }

  /** What `handleRelease` does on `branch`. */
  function ReleaseAction(branch: string, repo: Repo): Action
  {
    if !StartsWith(branch, "release/") then Skipped
    else match ReleaseTarget(branch)
      case None => BadReleaseName
      case Some(target) => TagFor(target, "beta", repo)
  }

  /** What `handleHotfix` does on `branch`. */
  function HotfixAction(branch: string, version: string, repo: Repo): Action
  {
    if !StartsWith(branch, "hotfix/") then Skipped
    else if Contains(branch, "release") then TagFor(NextVersion("patch", version), "rc", repo)
    else FinalFor("patch", version, repo)
  }

  /** What `handleMerge` does on `branch`. */
  function MergeAction(branch: string, version: string, repo: Repo): Action
  {
    if branch == "development" then
      match repo.newCommits
      case None => LogFailed
      case Some(log) => if Trim(log) == "" then NothingToDo else TagFor(NextVersion("minor", version), "alpha", repo)
    else if branch == "master" then FinalFor("minor", version, repo)
    else NothingToDo
  }

  /** What `run()` does for `command` on `branch` with package version `version`. */
  function Dispatch(command: string, branch: string, version: string, repo: Repo): Action
  {
    if command == "feature" then FeatureAction(branch, version, repo)
    else if command == "release" then ReleaseAction(branch, repo)
    else if command == "hotfix" then HotfixAction(branch, version, repo)
    else if command == "merge" then MergeAction(branch, version, repo)
    else InvalidCommand
  }

  /**
   * What every handler checks before it releases: the name `v<tag>` it
   * looked up was free before `yarn release:<kind>` runs, a `--release-as`
   * version is free, and a taken version is reported. The tag that
   * `yarn release:<kind>` itself creates is chosen by the release script.
   */
  predicate CheckedFree(a: Action, repo: Repo)
  {
    && (a.Released? ==> !TagExists(repo, a.tag))
    && (a.ReleasedAs? ==> !TagExists(repo, a.version))
    && (a.AlreadyTagged? ==> TagExists(repo, a.version))
  }

  /** `handleFeature` releases only alpha tags, and only on a feature branch. */
  lemma FeatureReleases(branch: string, version: string, repo: Repo)
    ensures var a := FeatureAction(branch, version, repo);
      && CheckedFree(a, repo)
      && (a.Released? ==> a.kind == "alpha" && IsFeatureBranch(branch))
      && !a.ReleasedAs? && !a.AlreadyTagged?
  {
    TagForReleases(NextVersion("minor", version), "alpha", repo);
  }

  /** `handleRelease` releases only beta tags, and only on a release branch. */
  lemma ReleaseReleases(branch: string, repo: Repo)
    ensures var a := ReleaseAction(branch, repo);
      && CheckedFree(a, repo)
      && (a.Released? ==> a.kind == "beta" && StartsWith(branch, "release/"))
      && !a.ReleasedAs? && !a.AlreadyTagged?
  {
    var t := ReleaseTarget(branch);
    if StartsWith(branch, "release/") && t.Some? {
      TagForReleases(t.value, "beta", repo);
    }
  }

  /** `handleHotfix` releases rc tags or the next patch version, and only on a hotfix branch. */
  lemma HotfixReleases(branch: string, version: string, repo: Repo)
    ensures var a := HotfixAction(branch, version, repo);
      && CheckedFree(a, repo)
      && (a.Released? ==> a.kind == "rc" && StartsWith(branch, "hotfix/") && Contains(branch, "release"))
      && (a.ReleasedAs? ==> a.kind == "patch" && StartsWith(branch, "hotfix/") && !Contains(branch, "release"))
  {
    TagForReleases(NextVersion("patch", version), "rc", repo);
    FinalForSkipsExisting("patch", version, repo);
  }

  /** `handleMerge` releases alpha tags on `development` and the next minor version on `master`. */
  lemma MergeReleases(branch: string, version: string, repo: Repo)
    ensures var a := MergeAction(branch, version, repo);
      && CheckedFree(a, repo)
      && (a.Released? ==> a.kind == "alpha" && branch == "development")
      && (a.ReleasedAs? ==> a.kind == "minor" && branch == "master")
      && (a.AlreadyTagged? ==> branch == "master")
  {
    TagForReleases(NextVersion("minor", version), "alpha", repo);
    FinalForSkipsExisting("minor", version, repo);
  }

  /** Every command releases only after its check found the name free, and only on a branch of its own kind. */
  lemma {:induction false} DispatchChecksFree(command: string, branch: string, version: string, repo: Repo)
    ensures var a := Dispatch(command, branch, version, repo);
      && CheckedFree(a, repo)
      && (a.Released? || a.ReleasedAs? ==>
            (command == "feature" && IsFeatureBranch(branch))
            || (command == "release" && StartsWith(branch, "release/"))
            || (command == "hotfix" && StartsWith(branch, "hotfix/"))
            || (command == "merge" && (branch == "development" || branch == "master")))
  {
    if command == "feature" {
      FeatureReleases(branch, version, repo);
    } else if command == "release" {
      ReleaseReleases(branch, repo);
    } else if command == "hotfix" {
      HotfixReleases(branch, version, repo);
    } else if command == "merge" {
      MergeReleases(branch, version, repo);
    }
  }

  /** The feature prefixes of this script (`add/`, `fix/`, `update/`). */
  predicate IsFeatureBranch(branch: string)
  {
    StartsWith(branch, "add/") || StartsWith(branch, "fix/") || StartsWith(branch, "update/")
  }

  // ------------------------------------------------------- release branches

  /** `X.Y.Z` matched by `\d+\.\d+\.\d+`, as its three digit runs. */
  datatype Triple = Triple(a: string, b: string, c: string)

  function TripleText(t: Triple): string { t.a + "." + t.b + "." + t.c }

  /** `\d+\.\d+\.\d+` at the start of `t`, the last run as long as possible. */
  function TripleAt(t: string): (r: Option<Triple>)
    ensures r.Some? ==> var x := r.value;
      && Digits1(x.a) && Digits1(x.b) && Digits1(x.c)
      && TripleText(x) <= t
      && (|TripleText(x)| < |t| ==> !IsDigit(t[|TripleText(x)|]))
  {
    var i := DigitRun(t);
    if i == 0 || i >= |t| || t[i] != '.' then None
    else
      var t1 := t[i + 1..];
      var j := DigitRun(t1);
      if j == 0 || j >= |t1| || t1[j] != '.' then None
      else
        var t2 := t1[j + 1..];
        var k := DigitRun(t2);
        if k == 0 then None
        else
          var x := Triple(t[..i], t1[..j], t2[..k]);
          Glue(t, i, t1);
          Glue(t1, j, t2);
          assert t2 == t2[..k] + t2[k..];
          Assemble(x, t2[k..]);
          PrefixOf(TripleText(x), t2[k..]);
          Some(x)
  }

  /** `TripleAt` misses no match: whenever three digit runs joined by dots start `t`, it finds a triple. */
  lemma {:induction false} TripleAtComplete(t: string, x: Triple)
    requires Digits1(x.a) && Digits1(x.b) && Digits1(x.c) && TripleText(x) <= t
    ensures TripleAt(t).Some?
  {
    var rest := t[|TripleText(x)|..];
    assert t == TripleText(x) + rest;
    Assemble(x, rest);
    assert t == x.a + ("." + (x.b + "." + (x.c + rest)));
    DigitRunOf(x.a, "." + (x.b + "." + (x.c + rest)));
    var i := |x.a|;
    assert t[i] == '.';
    var t1 := t[i + 1..];
    assert t1 == x.b + ("." + (x.c + rest));
    DigitRunOf(x.b, "." + (x.c + rest));
    var j := |x.b|;
    assert t1[j] == '.';
    var t2 := t1[j + 1..];
    assert t2 == x.c + rest;
    DigitRunCovers(x.c, rest);
  }

  lemma {:induction false} Assemble(x: Triple, rest: string)
    ensures x.a + "." + (x.b + "." + (x.c + rest)) == TripleText(x) + rest
  {
  }

  lemma {:induction false} PrefixOf(p: string, q: string)
    ensures p <= p + q
    ensures |q| > 0 ==> (p + q)[|p|] == q[0]
  {
  }

  lemma {:induction false} Glue(t: string, i: nat, u: string)
    requires i < |t| && t[i] == '.' && u == t[i + 1..]
    ensures t == t[..i] + "." + u
  {
    assert t == t[..i] + [t[i]] + t[i + 1..];
  }

  /** A position where `release/\d+\.\d+\.\d+` matches. */
  predicate ReleaseAt(s: string, i: nat)
    requires i <= |s|
  {
    StartsWith(s[i..], "release/") && TripleAt(s[i + 8..]).Some?
  }

  /** The leftmost matching position from `i` on, or `|s| + 1` when there is none. */
  function ReleaseIndex(s: string, i: nat): (k: nat)
    requires i <= |s| + 1
    ensures i <= k <= |s| + 1
    ensures k <= |s| ==> ReleaseAt(s, k)
    ensures forall j :: i <= j < k && j <= |s| ==> !ReleaseAt(s, j)
    decreases |s| + 1 - i
  {
    if i > |s| then i else if ReleaseAt(s, i) then i else ReleaseIndex(s, i + 1)
  }

  /**
   * `branch.match(/release\/(\d+\.\d+\.\d+)/)[1]`: the capture of the
   * leftmost match anywhere in the name; there is none exactly when no
   * position matches, and the capture is three digit runs.
   */
  function ReleaseTarget(s: string): (r: Option<string>)
    ensures r.None? <==> forall i :: 0 <= i <= |s| ==> !ReleaseAt(s, i)
    ensures r.Some? ==> exists x: Triple :: Digits1(x.a) && Digits1(x.b) && Digits1(x.c) && r.value == TripleText(x)
  {
    var k := ReleaseIndex(s, 0);
    if k <= |s| then
      var x := TripleAt(s[k + 8..]).value;
      Some(TripleText(x))
    else None
  }
}
