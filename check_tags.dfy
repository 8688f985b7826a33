/**
 * scripts/check-tags.js: whether a tag for the version in package.json may
 * be created. The tag must not exist yet and there must be commits that no
 * tag covers. The summary marks the current version among the last five tags.
 */
module CheckTags {
  import opened Wrappers
  import opened Strings
  import opened Seqs
  import opened TagListing

  /** `v${version}`. */
  function TagNameOf(version: string): string { "v" + version }

  /** `tagExists`: the trimmed output of `git tag -l "v<version>"` is exactly the name (`None`: git failed). */
  function TagExists(version: string, output: Option<string>): (b: bool)
    ensures b ==> output.Some? && |Trim(output.value)| == |version| + 1
  {
    match output
    case None => false
    case Some(out) => Trim(out) == TagNameOf(version)
  }

  /** What `git tag -l <name>` prints for a name without glob characters: the name on a line, if it is a tag. */
  function ExactListing(tags: seq<string>, name: string): string
  {
    if name in tags then name + "\n" else ""
  }

  predicate NoGlob(s: string) { '*' !in s && '?' !in s && '[' !in s }

  /** The tag exists exactly when `v<version>` is one of the tag names. */
  lemma {:induction false} TagExistsIff(version: string, tags: seq<string>)
    requires NoWhitespace(version) && NoGlob(version)
    ensures TagExists(version, Some(ExactListing(tags, TagNameOf(version)))) <==> TagNameOf(version) in tags
  {
    var name := TagNameOf(version);
    assert name[0] == 'v';
    assert !IsJsWhitespace(name[|name| - 1]) by {
      if |version| > 0 {
        assert name[|name| - 1] == version[|version| - 1];
      }
    }
    if name in tags {
      TrimTrailingNewline(name);
    } else {
      assert Trim("") == "";
    }
  }

  /** `getAllTags`: the listing's lines, or no tags when git fails. */
  function AllTags(output: Option<string>): seq<string>
  {
    match output
    case None => []
    case Some(out) => TagLines(out)
  }

  /** `parseInt` on an already trimmed decimal text: an optional sign and the leading digits; `None` is `NaN`. */
  function ParseInt(s: string): (r: Option<int>)
    ensures r.Some? <==> DigitRun(if |s| > 0 && (s[0] == '-' || s[0] == '+') then s[1..] else s) > 0
  {
    var signed := |s| > 0 && (s[0] == '-' || s[0] == '+');
    var body := if signed then s[1..] else s;
    var n := DigitRun(body);
    if n == 0 then None
    else
      var v: int := DigitsToNat(body[..n]);
      Some(if signed && s[0] == '-' then -v else v)
  }

  /** A run of digits parses to its value. */
  lemma {:induction false} ParseIntOfDigits(d: string)
    requires Digits1(d)
    ensures ParseInt(d) == Some(DigitsToNat(d))
  {
    DigitRunOf(d, "");
    assert d + "" == d;
    assert d[..|d|] == d;
  }

  /** The range `git rev-list --count` is asked about: all of HEAD, or what follows the last listed tag. */
  function CountRange(tags: seq<string>): (r: string)
    ensures |tags| == 0 <==> r == "HEAD"
    ensures |tags| > 0 ==> |r| >= 6 && r[|r| - 6..] == "..HEAD" && r[..|r| - 6] == tags[|tags| - 1]
  {
    if |tags| == 0 then "HEAD" else tags[|tags| - 1] + "..HEAD"
  }

  /** `hasUnreleasedCommits` given the count command's output (`None`: it failed, so "yes"). */
  function HasUnreleasedCommits(countOutput: Option<string>): (b: bool)
    ensures countOutput.None? ==> b
    ensures countOutput.Some? ==> (b <==> var n := ParseInt(Trim(countOutput.value)); n.Some? && n.value > 0)
  {
    match countOutput
    case None => true
    case Some(out) =>
      match ParseInt(Trim(out))
      case None => false
      case Some(n) => n > 0
  }

  /** A count printed by git answers whether it is positive; a failed query counts as unreleased commits. */
  lemma {:induction false} UnreleasedByCount(count: nat)
    ensures HasUnreleasedCommits(Some(NatToString(count) + "\n")) <==> count > 0
    ensures HasUnreleasedCommits(None)
  {
    var d := NatToString(count);
    NatToStringRoundTrip(count);
    assert !IsJsWhitespace(d[0]) && !IsJsWhitespace(d[|d| - 1]) by {
      assert IsDigit(d[0]) && IsDigit(d[|d| - 1]);
    }
    TrimTrailingNewline(d);
    ParseIntOfDigits(d);
  }

  /** `canCreateTag`: the existence check first, then the commit check. */
  function CanCreateTag(version: string, existsOutput: Option<string>, countOutput: Option<string>): (b: bool)
    ensures TagExists(version, existsOutput) ==> !b
    ensures existsOutput.None? ==> b == HasUnreleasedCommits(countOutput)
  {
    if TagExists(version, existsOutput) then false
    else HasUnreleasedCommits(countOutput)
  }

  /** An existing tag forbids creation whatever the commits; otherwise the commits decide. */
  lemma {:induction false} CanCreateIff(version: string, existsOutput: Option<string>, countOutput: Option<string>)
    ensures CanCreateTag(version, existsOutput, countOutput) <==>
      !TagExists(version, existsOutput) && HasUnreleasedCommits(countOutput)
    ensures TagExists(version, existsOutput) ==> forall c :: !CanCreateTag(version, existsOutput, c)
  {
  }

  /** The script's exit code. */
  function ExitCode(canCreate: bool): nat { if canCreate then 0 else 1 }

  // ------------------------------------------------------------- tag info

  /** `tags.slice(-5)`. */
  function LastFive(tags: seq<string>): seq<string> { LastN(tags, 5) }

  /** The `isCurrent` flag of each of the last five tags. */
  function CurrentMarks(tags: seq<string>, version: string): (marks: seq<bool>)
    ensures |marks| == |LastFive(tags)|
  {
    var last := LastFive(tags);
    seq(|last|, i requires 0 <= i < |last| => last[i] == TagNameOf(version))
  }

  /** Exactly the shown tags equal to `v<version>` are marked; with distinct names, at most one is. */
  lemma {:induction false} CurrentMarkedExactly(tags: seq<string>, version: string)
    ensures var last := LastFive(tags); var marks := CurrentMarks(tags, version);
      forall i :: 0 <= i < |last| ==> (marks[i] <==> last[i] == TagNameOf(version))
    ensures (forall i, j :: 0 <= i < j < |tags| ==> tags[i] != tags[j]) ==>
      var marks := CurrentMarks(tags, version);
      forall i, j :: 0 <= i < |marks| && 0 <= j < |marks| && marks[i] && marks[j] ==> i == j
  {
    var last := LastFive(tags);
    var off := |tags| - |last|;
    forall i | 0 <= i < |last| ensures last[i] == tags[off + i] {
    }
  }
}
