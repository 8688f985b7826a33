/**
 * scripts/auto-tag.js: the branch-driven tag proposal. The branch decides a
 * strategy, the latest tag gives a base version, the strategy bumps it and
 * appends a pre-release suffix, and `AutoTag` is the run's decision over the
 * answers of git and of the person at the prompt.
 */
module AutoTag {
  import opened Wrappers
  import opened Strings
  import opened Versions

  datatype Kind = Stable | PreRelease | PatchKind

  /** An entry of `BRANCH_STRATEGIES` (the description is display text and left out). */
  datatype Strategy = Strategy(kind: Kind, prefix: string, suffix: Option<string>)

  const StableStrategy := Strategy(Stable, "v", None)
  const BetaStrategy := Strategy(PreRelease, "v", Some("-beta"))
  const AlphaStrategy := Strategy(PreRelease, "v", Some("-alpha"))
  const RcStrategy := Strategy(PreRelease, "v", Some("-rc"))
  const PatchStrategy := Strategy(PatchKind, "v", None)
  const DevStrategy := Strategy(PreRelease, "v", Some("-dev"))

  /** `BRANCH_STRATEGIES[name]`, for the six names the table holds. */
  function Table(name: string): (r: Option<Strategy>)
    ensures r.Some? <==> name in {"main", "master", "development", "feature", "release", "hotfix"}
  {
    if name == "main" || name == "master" then Some(StableStrategy)
    else if name == "development" then Some(BetaStrategy)
    else if name == "feature" then Some(AlphaStrategy)
    else if name == "release" then Some(RcStrategy)
    else if name == "hotfix" then Some(PatchStrategy)
    else None
  }

  predicate IsFeatureLike(branch: string)
  {
    StartsWith(branch, "feature/") || StartsWith(branch, "fix/") || StartsWith(branch, "skin/")
  }

  /** `detectStrategy`: the exact table name first, then the prefixes, then the `-dev` default. */
  function DetectStrategy(branch: string): (s: Strategy)
    ensures s.prefix == "v"
    ensures s.kind == Stable <==> branch == "main" || branch == "master"
    ensures s.kind == PatchKind <==> branch == "hotfix" || StartsWith(branch, "hotfix/")
  {
    ShapesDisjoint(branch);
    match Table(branch)
    case Some(s) => s
    case None =>
      if IsFeatureLike(branch) then AlphaStrategy
      else if StartsWith(branch, "hotfix/") then PatchStrategy
      else if StartsWith(branch, "release/") then RcStrategy
      else DevStrategy
  }

  /** A name in the table gets its own entry, whatever it starts with. */
  lemma ExactNameFirst(branch: string)
    requires Table(branch).Some?
    ensures DetectStrategy(branch) == Table(branch).value
  {
  }

  /** The strategy of every branch name, by its shape. */
  lemma StrategyByShape(branch: string)
    ensures branch == "main" || branch == "master" ==> DetectStrategy(branch) == StableStrategy
    ensures branch == "development" ==> DetectStrategy(branch) == BetaStrategy
    ensures branch == "feature" || IsFeatureLike(branch) ==> DetectStrategy(branch) == AlphaStrategy
    ensures branch == "hotfix" || StartsWith(branch, "hotfix/") ==> DetectStrategy(branch) == PatchStrategy
    ensures branch == "release" || StartsWith(branch, "release/") ==> DetectStrategy(branch) == RcStrategy
    ensures Plain(branch) ==> DetectStrategy(branch) == DevStrategy
  {
    ShapesDisjoint(branch);
  }

  /** Neither a table name nor one of the recognised prefixes: the default applies. */
  predicate Plain(branch: string)
  {
    Table(branch).None? && !IsFeatureLike(branch) && !StartsWith(branch, "hotfix/") && !StartsWith(branch, "release/")
  }

  /** Table names hold no `/`, and no name starts with two of the prefixes. */
  lemma {:induction false} ShapesDisjoint(branch: string)
    ensures IsFeatureLike(branch) || StartsWith(branch, "hotfix/") || StartsWith(branch, "release/") ==> Table(branch).None?
    ensures IsFeatureLike(branch) ==> !StartsWith(branch, "hotfix/") && !StartsWith(branch, "release/")
    ensures StartsWith(branch, "hotfix/") ==> !StartsWith(branch, "release/")
  {
    if StartsWith(branch, "feature/") { SlashAt(branch, "feature/"); }
    if StartsWith(branch, "fix/") { SlashAt(branch, "fix/"); }
    if StartsWith(branch, "skin/") { SlashAt(branch, "skin/"); }
    if StartsWith(branch, "hotfix/") { SlashAt(branch, "hotfix/"); }
    if StartsWith(branch, "release/") { SlashAt(branch, "release/"); }
    if |branch| > 0 {
      assert StartsWith(branch, "feature/") ==> branch[0] == 'f';
      assert StartsWith(branch, "fix/") ==> branch[0] == 'f';
      assert StartsWith(branch, "skin/") ==> branch[0] == 's';
      assert StartsWith(branch, "hotfix/") ==> branch[0] == 'h';
      assert StartsWith(branch, "release/") ==> branch[0] == 'r';
    }
  }

  lemma {:induction false} SlashAt(branch: string, p: string)
    requires |p| > 0 && p[|p| - 1] == '/' && p <= branch
    ensures Table(branch).None?
  {
    assert branch[|p| - 1] == '/';
    assert '/' in branch;
  }

  lemma {:induction false} BareNamesPlain()
    ensures !IsFeatureLike("feature") && !StartsWith("feature", "release/") && !StartsWith("feature", "hotfix/")
    ensures !IsFeatureLike("release") && !StartsWith("release", "release/") && !StartsWith("release", "hotfix/")
  {
    assert "feature"[1] == 'e' && "release"[0] == 'r' && "release"[1] == 'e';
  }

  /** `develop` is not a table name: it gets the `-dev` default. */
  lemma {:induction false} DevelopIsDefault()
    ensures DetectStrategy("develop") == DevStrategy
  {
    assert "develop"[0] == 'd';
    StrategyByShape("develop");
  }

  // ------------------------------------------------------------ base version

  /**
   * `s.replace(/<m>.*$/, '')`: cut `s` at the leftmost occurrence of `m` whose
   * remainder holds no line terminator (`.` does not match one and `$` is
   * the end of input).
   */
  function StripTail(s: string, m: string): (r: string)
    requires |m| > 0
    ensures r <= s
    decreases |s|
  {
    if m <= s && NoLineTerminator(s[|m|..]) then ""
    else if s == [] then s
    else [s[0]] + StripTail(s[1..], m)
  }

  /** The six cuts of `extractBaseVersion`, in order. */
  function StripSuffixes(s: string): (r: string)
    ensures r <= s
  {
    var s1 := StripTail(s, "-alpha.");
    var s2 := StripTail(s1, "-beta.");
    var s3 := StripTail(s2, "-rc.");
    var s4 := StripTail(s3, "-stable");
    var s5 := StripTail(s4, "-dev");
    StripTail(s5, "+")
  }

  /** `extractBaseVersion`: `"0.0.0"` without a tag, else the tag without its `v` and its suffixes. */
  function ExtractBaseVersion(tag: Option<string>): (b: string)
    ensures tag.None? || tag == Some("") ==> b == "0.0.0"
    ensures tag.Some? && tag.value != "" ==> b <= (if tag.value[0] == 'v' then tag.value[1..] else tag.value)
  {
    match tag
    case None => "0.0.0"
    case Some(t) =>
      if t == "" then "0.0.0"
      else StripSuffixes(if t[0] == 'v' then t[1..] else t)
  }

  /** A cut cannot start inside a prefix that lacks the marker's first character. */
  lemma {:induction false} StripTailSkips(x: string, r: string, m: string)
    requires |m| > 0 && m[0] !in x
    ensures StripTail(x + r, m) == x + StripTail(r, m)
    decreases |x|
  {
    if x != [] {
      assert (x + r)[0] == x[0];
      assert !(m <= x + r);
      assert (x + r)[1..] == x[1..] + r;
      StripTailSkips(x[1..], r, m);
    } else {
      assert x + r == r;
    }
  }

  lemma {:induction false} StripTailAbsent(r: string, m: string)
    requires |m| > 0 && m[0] !in r
    ensures StripTail(r, m) == r
  {
    StripTailSkips(r, [], m);
    assert r + [] == r;
  }

  /** A prefix free of `-` and `+` survives every cut untouched. */
  lemma {:induction false} StripSuffixesSkips(x: string, r: string)
    requires '-' !in x && '+' !in x
    ensures StripSuffixes(x + r) == x + StripSuffixes(r)
  {
    var r1 := StripTail(r, "-alpha.");
    var r2 := StripTail(r1, "-beta.");
    var r3 := StripTail(r2, "-rc.");
    var r4 := StripTail(r3, "-stable");
    var r5 := StripTail(r4, "-dev");
    StripTailSkips(x, r, "-alpha.");
    StripTailSkips(x, r1, "-beta.");
    StripTailSkips(x, r2, "-rc.");
    StripTailSkips(x, r3, "-stable");
    StripTailSkips(x, r4, "-dev");
    StripTailSkips(x, r5, "+");
  }

  lemma {:induction false} DigitsPlain(d: string)
    requires AllDigits(d)
    ensures '-' !in d && '+' !in d && NoLineTerminator(d)
  {
    DigitsFree(d);
  }

  lemma {:induction false} AlphaCut(d: string)
    requires AllDigits(d)
    ensures StripSuffixes("-alpha." + d) == ""
  {
    DigitsPlain(d);
    assert ("-alpha." + d)[7..] == d;
  }

  lemma {:induction false} BetaCut(d: string)
    requires AllDigits(d)
    ensures StripSuffixes("-beta." + d) == ""
  {
    DigitsPlain(d);
    var s := "-beta." + d;
    assert s[1..] == "beta." + d;
    assert '-' !in s[1..];
    StripTailAbsent(s[1..], "-alpha.");
    assert s[6..] == d;
  }

  lemma {:induction false} RcCut(d: string)
    requires AllDigits(d)
    ensures StripSuffixes("-rc." + d) == ""
  {
    DigitsPlain(d);
    var s := "-rc." + d;
    assert s[1..] == "rc." + d;
    assert '-' !in s[1..];
    StripTailAbsent(s[1..], "-alpha.");
    StripTailAbsent(s[1..], "-beta.");
    assert s[4..] == d;
  }

  lemma {:induction false} DevCut()
    ensures StripSuffixes("-dev") == ""
  {
    var s := "-dev";
    assert s[1..] == "dev";
    StripTailAbsent("dev", "-alpha.");
    StripTailAbsent("dev", "-beta.");
    StripTailAbsent("dev", "-rc.");
    StripTailAbsent("dev", "-stable");
    assert s[4..] == "";
  }

  lemma {:induction false} BareKept(bare: string)
    requires bare == "-alpha" || bare == "-rc"
    ensures StripSuffixes(bare) == bare
  {
    if bare == "-alpha" {
      BareAlphaKept();
    } else {
      BareRcKept();
    }
  }

  lemma {:induction false} BareAlphaKept()
    ensures StripSuffixes("-alpha") == "-alpha"
  {
    var bare := "-alpha";
    StripOnceKept(bare, "-alpha.");
    StripOnceKept(bare, "-beta.");
    StripOnceKept(bare, "-rc.");
    StripOnceKept(bare, "-stable");
    StripOnceKept(bare, "-dev");
    StripOnceKept(bare, "+");
  }

  lemma {:induction false} BareRcKept()
    ensures StripSuffixes("-rc") == "-rc"
  {
    var bare := "-rc";
    StripOnceKept(bare, "-alpha.");
    StripOnceKept(bare, "-beta.");
    StripOnceKept(bare, "-rc.");
    StripOnceKept(bare, "-stable");
    StripOnceKept(bare, "-dev");
    StripOnceKept(bare, "+");
  }

  /** A cut whose marker does not start the text, and whose first character appears nowhere after, keeps it. */
  lemma {:induction false} StripOnceKept(s: string, m: string)
    requires |m| > 0 && |s| > 0 && !(m <= s) && m[0] !in s[1..]
    ensures StripTail(s, m) == s
  {
    StripTailAbsent(s[1..], m);
    assert s == [s[0]] + s[1..];
  }

  // ----------------------------------------------------------- next version

  /**
   * `generateNextVersion` on the destructured components of the base: a
   * patch bump, a minor bump, or the components kept as they are.
   */
  function NextVersion(c: Reading, s: Strategy, branch: string): Reading
  {
    match s.kind
    case Stable => Reading(c.major, c.minor, Succ(c.patch))
    case PatchKind => Reading(c.major, c.minor, Succ(c.patch))
    case PreRelease =>
      if IsFeatureLike(branch) then c
      else if branch == "development" then Reading(c.major, Succ(c.minor), Num(0))
      else if StartsWith(branch, "release/") then c
      else Reading(c.major, c.minor, Succ(c.patch))
  }

  /** The bump each kind of branch gets; the development bump never reads the patch. */
  lemma BumpByBranch(c: Reading, branch: string)
    ensures var n := NextVersion(c, DetectStrategy(branch), branch);
      && (branch in {"main", "master", "hotfix"} || StartsWith(branch, "hotfix/") ==> n == Reading(c.major, c.minor, Succ(c.patch)))
      && (branch == "development" ==> n == Reading(c.major, Succ(c.minor), Num(0)))
      && (IsFeatureLike(branch) || StartsWith(branch, "release/") ==> n == c)
      && (branch in {"feature", "release"} ==> n == Reading(c.major, c.minor, Succ(c.patch)))
      && (Plain(branch) ==> n == Reading(c.major, c.minor, Succ(c.patch)))
  {
    StrategyByShape(branch);
    BareNamesPlain();
  }

  /**
   * From a plain base the next version is a plain version again that never
   * goes backwards: it stays put exactly on feature-like and `release/`
   * branches and follows the base everywhere else.
   */
  lemma {:induction false} BumpAdvances(v: Version, branch: string)
    ensures var n := NextVersion(Exact(v), DetectStrategy(branch), branch);
      && Parse(Text(n)).Some?
      && var w := Parse(Text(n)).value;
      && (IsFeatureLike(branch) || StartsWith(branch, "release/") ==> w == v)
      && (!(IsFeatureLike(branch) || StartsWith(branch, "release/")) ==> Less(v, w))
  {
    BumpByBranch(Exact(v), branch);
    var n := NextVersion(Exact(v), DetectStrategy(branch), branch);
    var w := if IsFeatureLike(branch) || StartsWith(branch, "release/") then v
      else if branch == "development" then Version(v.major, v.minor + 1, 0)
      else Version(v.major, v.minor, v.patch + 1);
    if !(IsFeatureLike(branch) || StartsWith(branch, "release/")) && branch != "development" {
      StrategyByShape(branch);
      assert n == Exact(w);
    }
    assert n == Exact(w);
    ParseRender(w);
  }

  /** `generateSuffix`, with the `YYYYMMDD` UTC date as a parameter. */
  function GenerateSuffix(s: Strategy, branch: string, stamp: string): (x: string)
    ensures s.suffix.None? ==> x == ""
    ensures s.suffix.Some? ==> x in {"-alpha." + stamp, "-rc." + stamp, "-beta." + stamp, s.suffix.value}
  {
    match s.suffix
    case None => ""
    case Some(bare) =>
      if IsFeatureLike(branch) then "-alpha." + stamp
      else if StartsWith(branch, "release/") then "-rc." + stamp
      else if branch == "development" then "-beta." + stamp
      else bare
  }

  /** The suffix each kind of branch gets. */
  lemma SuffixByBranch(branch: string, stamp: string)
    ensures var x := GenerateSuffix(DetectStrategy(branch), branch, stamp);
      && (branch in {"main", "master", "hotfix"} || StartsWith(branch, "hotfix/") ==> x == "")
      && (IsFeatureLike(branch) ==> x == "-alpha." + stamp)
      && (StartsWith(branch, "release/") ==> x == "-rc." + stamp)
      && (branch == "development" ==> x == "-beta." + stamp)
      && (branch == "feature" ==> x == "-alpha")
      && (branch == "release" ==> x == "-rc")
      && (Plain(branch) ==> x == "-dev")
  {
    StrategyByShape(branch);
    BareNamesPlain();
  }

  /** `${strategy.prefix}${nextVersion}${suffix}`. */
  function ProposedTag(base: string, branch: string, stamp: string): (t: string)
    ensures |t| > 0 && t[0] == 'v'
  {
    var s := DetectStrategy(branch);
    s.prefix + Text(NextVersion(Read(base), s, branch)) + GenerateSuffix(s, branch, stamp)
  }

  /**
   * Reading the base back out of a proposed tag gives the bumped version,
   * unless the suffix is a bare `-alpha` or `-rc`, which survives the cuts.
   */
  lemma {:induction false} BaseOfProposedTag(base: string, branch: string, stamp: string)
    requires AllDigits(stamp)
    ensures var s := DetectStrategy(branch);
      var n := Text(NextVersion(Read(base), s, branch));
      var x := GenerateSuffix(s, branch, stamp);
      && ProposedTag(base, branch, stamp) == "v" + n + x
      && ExtractBaseVersion(Some(ProposedTag(base, branch, stamp))) == if branch in {"feature", "release"} then n + x else n
  {
    var s := DetectStrategy(branch);
    var n := Text(NextVersion(Read(base), s, branch));
    var x := GenerateSuffix(s, branch, stamp);
    assert s.prefix == "v" by { StrategyByShape(branch); }
    ExtractOfPrefixed(n, x);
    SuffixCases(branch, stamp);
    SuffixCuts(x, stamp);
    if branch !in {"feature", "release"} {
      assert StripSuffixes(x) == "";
      assert n + StripSuffixes(x) == n;
    }
  }

  /** The suffix is one of the seven shapes, and it is bare exactly for the names `feature` and `release`. */
  lemma {:induction false} SuffixCases(branch: string, stamp: string)
    ensures var x := GenerateSuffix(DetectStrategy(branch), branch, stamp);
      && x in {"", "-alpha." + stamp, "-rc." + stamp, "-beta." + stamp, "-dev", "-alpha", "-rc"}
      && (x in {"-alpha", "-rc"} <==> branch in {"feature", "release"})
  {
    SuffixByBranch(branch, stamp);
    var x := GenerateSuffix(DetectStrategy(branch), branch, stamp);
    var a, r, b := "-alpha." + stamp, "-rc." + stamp, "-beta." + stamp;
    assert a[1] == 'a' && r[1] == 'r' && b[1] == 'b' && |a| > 6 && |r| > 3;
  }

  lemma {:induction false} SuffixCuts(x: string, stamp: string)
    requires AllDigits(stamp)
    requires x in {"", "-alpha." + stamp, "-rc." + stamp, "-beta." + stamp, "-dev", "-alpha", "-rc"}
    ensures StripSuffixes(x) == if x in {"-alpha", "-rc"} then x else ""
  {
    if x == "" {
      assert StripTail("", "-alpha.") == "";
    } else if x == "-alpha." + stamp {
      AlphaCut(stamp);
    } else if x == "-rc." + stamp {
      RcCut(stamp);
    } else if x == "-beta." + stamp {
      BetaCut(stamp);
    } else if x == "-dev" {
      DevCut();
    } else {
      BareKept(x);
    }
  }

  lemma {:induction false} ExtractOfPrefixed(n: string, x: string)
    requires '-' !in n && '+' !in n
    ensures ExtractBaseVersion(Some("v" + n + x)) == n + StripSuffixes(x)
  {
    var t := "v" + n + x;
    assert t[0] == 'v' && t[1..] == n + x;
    StripSuffixesSkips(n, x);
  }

  // --------------------------------------------------------------- the run

  /** What git and the prompts answer during one run. */
  datatype Facts = Facts(
    isRepo: bool,              // `git rev-parse --git-dir` succeeded
    branch: string,            // `git branch --show-current`, trimmed
    latestTag: Option<string>, // the first tag of `git tag --list --sort=-version:refname`, if any
    headTagged: bool,          // `git tag --points-at HEAD` listed a tag
    status: string,            // `git status --porcelain`, trimmed
    stamp: string,             // today's UTC date as `YYYYMMDD`
    answer: string,            // reply to "create tag?"
    tagOk: bool,               // `git tag` and `git show` succeeded
    pushAnswer: string,        // reply to "push the tag?"
    pushOk: bool)              // `git push origin <tag>` succeeded

  datatype Outcome =
    | NoRepository
    | AlreadyTagged
    | DirtyTree(tag: string)
    | Declined(tag: string)
    | TagFailed(tag: string)
    | Created(tag: string, pushed: bool)
    | PushFailed(tag: string)

  /** `autoTag()` as a decision over the facts. */
  function AutoTag(f: Facts): (o: Outcome)
    ensures o == NoRepository <==> !f.isRepo
    ensures o == AlreadyTagged <==> f.isRepo && f.headTagged
    ensures o.Created? ==> f.status == "" && IsYes(f.answer) && f.tagOk
  {
    if !f.isRepo then NoRepository
    else if f.headTagged then AlreadyTagged
    else
      var tag := ProposedTag(ExtractBaseVersion(f.latestTag), f.branch, f.stamp);
      if f.status != "" then DirtyTree(tag)
      else if !IsYes(f.answer) then Declined(tag)
      else if !f.tagOk then TagFailed(tag)
      else if !IsYes(f.pushAnswer) then Created(tag, false)
      else if f.pushOk then Created(tag, true)
      else PushFailed(tag)
  }

  /** A tag is created only on a clean tree, for an untagged HEAD, after a `y`/`yes`; it is pushed only after a second one. */
  lemma CreationGuards(f: Facts)
    ensures AutoTag(f).Created? || AutoTag(f).PushFailed? ==>
      f.isRepo && !f.headTagged && f.status == "" && IsYes(f.answer) && f.tagOk
    ensures AutoTag(f).Created? && AutoTag(f).pushed ==> IsYes(f.pushAnswer) && f.pushOk
    ensures f.isRepo && f.headTagged ==> AutoTag(f) == AlreadyTagged
  {
  }

  /**
   * Once the repository is there and HEAD is untagged a tag is always
   * proposed, whatever the latest tag looks like, and it is the bumped base
   * with the branch's prefix and suffix.
   */
  lemma ProposedIsBumpedBase(f: Facts)
    ensures f.isRepo && !f.headTagged <==>
      AutoTag(f).DirtyTree? || AutoTag(f).Declined? || AutoTag(f).TagFailed? || AutoTag(f).Created? || AutoTag(f).PushFailed?
    ensures f.isRepo && !f.headTagged ==>
      var s := DetectStrategy(f.branch);
      AutoTag(f).tag == "v" + Text(NextVersion(Read(ExtractBaseVersion(f.latestTag)), s, f.branch)) + GenerateSuffix(s, f.branch, f.stamp)
  {
    StrategyByShape(f.branch);
  }

  /**
   * On `development` the tag is the next minor version with a dated beta
   * suffix as soon as the base's major and minor are numbers, whatever its
   * patch is: a latest tag `v1.0.1-alpha` gives `v1.1.0-beta.<date>`.
   */
  lemma {:induction false} DevelopmentTag(f: Facts, major: nat, minor: nat)
    requires f.isRepo && !f.headTagged && f.branch == "development"
    requires Read(ExtractBaseVersion(f.latestTag)).major == Num(major)
    requires Read(ExtractBaseVersion(f.latestTag)).minor == Num(minor)
    ensures AutoTag(f).tag == "v" + Render(Version(major, minor + 1, 0)) + "-beta." + f.stamp
  {
    ProposedIsBumpedBase(f);
    BumpByBranch(Read(ExtractBaseVersion(f.latestTag)), f.branch);
    SuffixByBranch(f.branch, f.stamp);
    assert Exact(Version(major, minor + 1, 0)) == Reading(Num(major), Num(minor + 1), Num(0));
  }

  /** Without any tag the base is `0.0.0`. */
  lemma {:induction false} FirstTagBase()
    ensures Parse(ExtractBaseVersion(None)) == Some(Version(0, 0, 0))
    ensures Read(ExtractBaseVersion(None)) == Exact(Version(0, 0, 0))
  {
    ParseRender(Version(0, 0, 0));
    assert Render(Version(0, 0, 0)) == "0.0.0";
  }
}
