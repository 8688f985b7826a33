/**
 * scripts/create-tag.js: a tag name from the command line (or, when none is
 * given, from a prompt) is checked against the tag pattern, then against
 * git, then against the working tree, before `git tag` and an optional push.
 */
module CreateTag {
  import opened Strings
  import opened SemVer

  /** What git and the person at the prompts answer during one run. */
  datatype Facts = Facts(
    isRepo: bool,              // `git rev-parse --git-dir` succeeds
    argument: string,          // `process.argv[2]`, "" when absent
    typed: string,             // the answer to the `Tag:` prompt, read only when the argument is empty
    resolves: bool,            // `git rev-parse <tag>` succeeds
    status: string,            // `git status --porcelain`
    continueAnswer: string,    // the answer to "continue anyway?"
    tagOk: bool,               // `git tag` and `git show` succeed
    pushAnswer: string,        // the answer to "push the tag?"
    pushOk: bool)              // `git push origin <tag>` succeeds

  datatype Outcome =
    | NoRepository
    | NotSemantic(name: string)
    | AlreadyExists(name: string)
    | Cancelled
    | TagFailed(name: string)
    | Created(name: string, push: Push)

  /** What became of the push once the tag exists locally. */
  datatype Push = NotPushed | Pushed | PushFailed

  /** The process's exit code for each outcome. */
  function ExitCode(o: Outcome): nat
  {
    match o
    case Cancelled => 0
    case Created(_, push) => if push == PushFailed then 1 else 0
    case _ => 1
  }

  /** The tag name: the argument, or the trimmed prompt answer when the argument is empty. */
  function TagName(f: Facts): string
  {
    if f.argument == "" then Trim(f.typed) else f.argument
  }

  /** `createTagAndPush`: create, then push only on a `y`/`yes` answer. */
  function TagAndPush(f: Facts, name: string): Outcome
  {
    if !f.tagOk then TagFailed(name)
    else if !IsYes(f.pushAnswer) then Created(name, NotPushed)
    else if !f.pushOk then Created(name, PushFailed)
    else Created(name, Pushed)
  }

  /** `createTag` followed by `createTagWithName`. */
  function CreateTag(f: Facts): (o: Outcome)
    ensures o.Created? ==> f.isRepo && Matches(o.name) && !f.resolves
  {
    if !f.isRepo then NoRepository
    else
      var name := TagName(f);
      if !Matches(name) then NotSemantic(name)
      else if f.resolves then AlreadyExists(name)
      else if Trim(f.status) != "" && !IsYes(f.continueAnswer) then Cancelled
      else TagAndPush(f, name)
  }

  /** A name the pattern rejects stops the run before git is asked anything about it. */
  lemma {:induction false} RejectedBeforeGit(f: Facts)
    requires f.isRepo && !Matches(TagName(f))
    ensures CreateTag(f) == NotSemantic(TagName(f))
    ensures forall r: bool, st: string :: CreateTag(f.(resolves := r, status := st)) == NotSemantic(TagName(f))
  {
  }

  /** An existing name aborts with exit code 1 and creates nothing. */
  lemma {:induction false} ExistingAborts(f: Facts)
    requires f.isRepo && Matches(TagName(f)) && f.resolves
    ensures CreateTag(f) == AlreadyExists(TagName(f)) && ExitCode(CreateTag(f)) == 1
  {
  }

  /**
   * A tag is created exactly when the name matches, does not resolve, the
   * tree is clean or the person confirms, and `git tag` succeeds.
   */
  lemma {:induction false} CreatedIff(f: Facts)
    ensures CreateTag(f).Created? <==>
      f.isRepo && Matches(TagName(f)) && !f.resolves
      && (Trim(f.status) == "" || IsYes(f.continueAnswer)) && f.tagOk
    ensures CreateTag(f).Created? ==> CreateTag(f).name == TagName(f)
  {
    if f.isRepo {
      var name := TagName(f);
      assert CreateTag(f) ==
        if !Matches(name) then NotSemantic(name)
        else if f.resolves then AlreadyExists(name)
        else if Trim(f.status) != "" && !IsYes(f.continueAnswer) then Cancelled
        else TagAndPush(f, name);
    }
  }

  /** With a clean tree the continue prompt is never consulted. */
  lemma {:induction false} CleanTreeIgnoresAnswer(f: Facts, answer: string)
    requires Trim(f.status) == ""
    ensures CreateTag(f.(continueAnswer := answer)) == CreateTag(f)
  {
    var g := f.(continueAnswer := answer);
    assert TagName(g) == TagName(f);
    assert Trim(g.status) == "";
    assert TagAndPush(g, TagName(f)) == TagAndPush(f, TagName(f));
  }

  /** A push is attempted exactly on a `y`/`yes` answer, and succeeds as git does. */
  lemma {:induction false} PushByAnswer(f: Facts)
    requires CreateTag(f).Created?
    ensures CreateTag(f).push == NotPushed <==> !IsYes(f.pushAnswer)
    ensures CreateTag(f).push == Pushed <==> IsYes(f.pushAnswer) && f.pushOk
  {
  }

  /** A dirty tree without confirmation ends the run with exit code 0 and no tag. */
  lemma {:induction false} DirtyDeclinedExitsZero(f: Facts)
    requires f.isRepo && Matches(TagName(f)) && !f.resolves
    requires Trim(f.status) != "" && !IsYes(f.continueAnswer)
    ensures CreateTag(f) == Cancelled && ExitCode(CreateTag(f)) == 0
  {
  }
}
