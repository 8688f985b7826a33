/**
 * scripts/setup-branch-hooks.js: the branch name picks a branch type, the
 * type picks a set of husky hooks from `BRANCH_HOOKS` (falling back to the
 * feature set), and each hook is written as a small shell script.
 */
module BranchHooks {
  import opened Wrappers
  import opened Strings

  /** The values `detectBranchType` returns. */
  datatype BranchType = MainType | DevelopmentType | FeatureType | HotfixType | StagingType

  /** The string `detectBranchType` returns, which is the key looked up in `BRANCH_HOOKS`. */
  function TypeName(t: BranchType): string
  {
    match t
    case MainType => "main"
    case DevelopmentType => "development"
    case FeatureType => "feature"
    case HotfixType => "hotfix"
    case StagingType => "staging"
  }

  /** `detectBranchType`: exact names, then the prefixes, then `feature` by default. */
  function DetectBranchType(branch: string): (t: BranchType)
    ensures t == FeatureType <==>
      branch !in {"main", "master", "development"} && !StartsWith(branch, "hotfix/") && !StartsWith(branch, "release/")
  {
    PrefixesDisjoint(branch);
    if branch == "main" || branch == "master" then MainType
    else if branch == "development" then DevelopmentType
    else if StartsWith(branch, "feature/") then FeatureType
    else if StartsWith(branch, "hotfix/") then HotfixType
    else if StartsWith(branch, "release/") then StagingType
    else FeatureType
  }

  /** A hook name and the command its script runs. */
  datatype Hook = Hook(name: string, command: string)

  const VerifyTagsCommand := "pnpm run verify-tags"
  const AutoTagCommand := "pnpm run auto-tag"
  const VerifyThenAutoTagCommand := "pnpm run verify-tags && pnpm run auto-tag"

  /** The three hooks of every entry, in the table's key order. */
  function HookSet(prePush: string, mergeNote: string): seq<Hook>
  {
    [Hook("pre-commit", VerifyTagsCommand), Hook("pre-push", prePush), Hook("post-merge", "echo \"" + mergeNote + "\"")]
  }

  /** `BRANCH_HOOKS[key]`; `None` for a key the table does not hold. */
  function HookTable(key: string): (r: Option<seq<Hook>>)
    ensures r.Some? <==> key in {"main", "master", "development", "feature", "hotfix"}
  {
    if key == "main" then Some(HookSet(VerifyThenAutoTagCommand, "Merge completado en main - verificar tags"))
    else if key == "master" then Some(HookSet(VerifyThenAutoTagCommand, "Merge completado en master - verificar tags"))
    else if key == "development" then Some(HookSet(AutoTagCommand, "Merge completado en development"))
    else if key == "feature" then Some(HookSet(AutoTagCommand, "Merge completado en feature branch"))
    else if key == "hotfix" then Some(HookSet(AutoTagCommand, "Merge completado en hotfix branch"))
    else None
  }

  /** `BRANCH_HOOKS[branchType] || BRANCH_HOOKS['feature']`. */
  function SelectHooks(t: BranchType): seq<Hook>
  {
    match HookTable(TypeName(t))
    case Some(hooks) => hooks
    case None => HookTable("feature").value
  }

  /** The hooks a branch receives. */
  function HooksForBranch(branch: string): seq<Hook>
  {
    SelectHooks(DetectBranchType(branch))
  }

  /** The branch type of every name, by its shape. */
  lemma {:induction false} BranchTypeByShape(branch: string)
    ensures branch == "main" || branch == "master" ==> DetectBranchType(branch) == MainType
    ensures branch == "development" ==> DetectBranchType(branch) == DevelopmentType
    ensures StartsWith(branch, "feature/") ==> DetectBranchType(branch) == FeatureType
    ensures StartsWith(branch, "hotfix/") ==> DetectBranchType(branch) == HotfixType
    ensures StartsWith(branch, "release/") ==> DetectBranchType(branch) == StagingType
    ensures DetectBranchType(branch) == FeatureType <==>
      (branch !in {"main", "master", "development"} && !StartsWith(branch, "hotfix/") && !StartsWith(branch, "release/"))
  {
    PrefixesDisjoint(branch);
  }

  /** No branch name starts with two of the prefixes, and none of the exact names starts with one. */
  lemma {:induction false} PrefixesDisjoint(branch: string)
    ensures StartsWith(branch, "feature/") ==> branch !in {"main", "master", "development"}
    ensures StartsWith(branch, "hotfix/") ==> branch !in {"main", "master", "development"}
    ensures StartsWith(branch, "release/") ==> branch !in {"main", "master", "development"}
    ensures StartsWith(branch, "feature/") ==> !StartsWith(branch, "hotfix/") && !StartsWith(branch, "release/")
    ensures StartsWith(branch, "hotfix/") ==> !StartsWith(branch, "release/")
  {
    if StartsWith(branch, "feature/") || StartsWith(branch, "hotfix/") || StartsWith(branch, "release/") {
      assert |branch| >= 7;
      assert StartsWith(branch, "feature/") ==> branch[0] == 'f' && branch[7] == '/';
      assert StartsWith(branch, "hotfix/") ==> branch[0] == 'h' && branch[6] == '/';
      assert StartsWith(branch, "release/") ==> branch[0] == 'r' && branch[7] == '/';
    }
  }

  /** A release branch is typed `staging`, which the table lacks, so it receives the feature hooks. */
  lemma {:induction false} ReleaseGetsFeatureHooks(branch: string)
    requires StartsWith(branch, "release/")
    ensures DetectBranchType(branch) == StagingType
    ensures HookTable(TypeName(StagingType)).None?
    ensures HooksForBranch(branch) == HookTable("feature").value
  {
    BranchTypeByShape(branch);
  }

  /** `master` is typed `main`, so the `master` entry is never selected and master gets main's hooks. */
  lemma {:induction false} MasterGetsMainHooks()
    ensures HooksForBranch("master") == HookTable("main").value
    ensures forall t: BranchType :: TypeName(t) != "master"
  {
  }

  /** Every branch gets the same three hooks; pre-commit always verifies the tags. */
  lemma {:induction false} EveryBranchThreeHooks(branch: string)
    ensures var hooks := HooksForBranch(branch);
      |hooks| == 3 && hooks[0].name == "pre-commit" && hooks[1].name == "pre-push" && hooks[2].name == "post-merge"
      && hooks[0].command == VerifyTagsCommand
  {
    SelectedIsHookSet(DetectBranchType(branch));
  }

  /** Whatever the type, the selected entry is one of the table's hook sets. */
  lemma {:induction false} SelectedIsHookSet(t: BranchType)
    ensures exists prePush, note :: SelectHooks(t) == HookSet(prePush, note)
  {
    match t
    case MainType =>
      assert SelectHooks(t) == HookSet(VerifyThenAutoTagCommand, "Merge completado en main - verificar tags");
    case DevelopmentType =>
      assert SelectHooks(t) == HookSet(AutoTagCommand, "Merge completado en development");
    case FeatureType =>
      assert SelectHooks(t) == HookSet(AutoTagCommand, "Merge completado en feature branch");
    case HotfixType =>
      assert SelectHooks(t) == HookSet(AutoTagCommand, "Merge completado en hotfix branch");
    case StagingType =>
      assert SelectHooks(t) == HookSet(AutoTagCommand, "Merge completado en feature branch");
  }

  /** Only the main type runs `verify-tags` before `auto-tag` on pre-push; every other type runs `auto-tag` alone. */
  lemma {:induction false} PrePushCommand(branch: string)
    ensures HooksForBranch(branch)[1].command ==
      if branch == "main" || branch == "master" then VerifyThenAutoTagCommand else AutoTagCommand
  {
  }

  // ------------------------------------------------------------ hook files

  const Shebang := "#!/usr/bin/env sh"
  const HuskyLine := ". \"$(dirname -- \"$0\")/_/husky.sh\""

  /** The echo line naming the hook. */
  function EchoLine(hookName: string): string
  {
    "echo \"\U{1F527} Ejecutando " + hookName + " para la rama actual...\""
  }

  /** `createHook`'s template string. */
  function HookContent(hookName: string, command: string): string
  {
    Shebang + "\n" + HuskyLine + "\n" + "\n" + EchoLine(hookName) + "\n" + command + "\n"
  }

  /** `path.join('.husky', hookName)`. */
  function HookPath(hookName: string): string
  {
    ".husky/" + hookName
  }

  /**
   * The script's lines are the fixed header, an empty line, the echo line
   * and the command, so for one-line names and commands the command can be
   * read back from the file.
   */
  lemma {:induction false} HookContentLines(hookName: string, command: string)
    requires '\n' !in hookName && '\n' !in command
    ensures Split(HookContent(hookName, command), '\n') == [Shebang, HuskyLine, "", EchoLine(hookName), command, ""]
  {
    var lines := [Shebang, HuskyLine, "", EchoLine(hookName), command, ""];
    HookContentJoined(hookName, command);
    HookLinesFree(hookName, command);
    SplitJoin(lines, '\n');
  }

  /** The template is its six lines joined by newlines. */
  lemma {:induction false} HookContentJoined(hookName: string, command: string)
    ensures Join([Shebang, HuskyLine, "", EchoLine(hookName), command, ""], '\n') == HookContent(hookName, command)
  {
    JoinTemplate(Shebang, HuskyLine, EchoLine(hookName), command);
  }

  /** The shape of the template, for any four lines. */
  lemma {:induction false} JoinTemplate(a: string, b: string, d: string, e: string)
    ensures Join([a, b, "", d, e, ""], '\n') == a + "\n" + b + "\n" + "\n" + d + "\n" + e + "\n"
  {
    JoinCons(e, [""], '\n');
    JoinCons(d, [e, ""], '\n');
    JoinCons("", [d, e, ""], '\n');
    JoinCons(b, ["", d, e, ""], '\n');
    JoinCons(a, [b, "", d, e, ""], '\n');
    assert [a] + [b, "", d, e, ""] == [a, b, "", d, e, ""];
  }

  lemma {:induction false} HookLinesFree(hookName: string, command: string)
    requires '\n' !in hookName && '\n' !in command
    ensures var lines := [Shebang, HuskyLine, "", EchoLine(hookName), command, ""];
      forall k :: 0 <= k < |lines| ==> '\n' !in lines[k]
  {
    FreeOfNewline(Shebang);
    FreeOfNewline(HuskyLine);
    EchoLineFree(hookName);
  }

  lemma {:induction false} EchoLineFree(hookName: string)
    requires '\n' !in hookName
    ensures '\n' !in EchoLine(hookName)
  {
    FreeOfNewline("echo \"\U{1F527} Ejecutando ");
    FreeOfNewline(" para la rama actual...\"");
  }

  lemma {:induction false} JoinCons(p: string, rest: seq<string>, sep: char)
    requires |rest| >= 1
    ensures Join([p] + rest, sep) == p + [sep] + Join(rest, sep)
  {
    assert ([p] + rest)[1..] == rest;
  }

  lemma {:induction false} FreeOfNewline(s: string)
    requires forall i :: 0 <= i < |s| ==> s[i] != '\n'
    ensures '\n' !in s
  {
  }

  // -------------------------------------------------------------- the run

  datatype HookFile = HookFile(path: string, content: string)

  datatype SetupOutcome =
    | NoRepository
    | BranchUnreadable
    | Configured(branch: string, branchType: BranchType, files: seq<HookFile>)

  /** The files `createHook` writes for a list of hooks, in order. */
  function HookFiles(hooks: seq<Hook>): (files: seq<HookFile>)
    ensures |files| == |hooks|
    ensures forall i :: 0 <= i < |hooks| ==>
      files[i] == HookFile(HookPath(hooks[i].name), HookContent(hooks[i].name, hooks[i].command))
  {
    seq(|hooks|, i requires 0 <= i < |hooks| => HookFile(HookPath(hooks[i].name), HookContent(hooks[i].name, hooks[i].command)))
  }

  /**
   * `setupBranchHooks` over the answers of `git rev-parse --git-dir` and of
   * `git branch --show-current` (`None` when that command fails).
   */
  function Setup(isRepo: bool, branchOutput: Option<string>): (r: SetupOutcome)
    ensures r.Configured? <==> isRepo && branchOutput.Some?
    ensures r.Configured? ==> |r.files| == 3
  {
    if !isRepo then NoRepository
    else match branchOutput
      case None => BranchUnreadable
      case Some(out) =>
        var branch := Trim(out);
        var t := DetectBranchType(branch);
        EveryBranchThreeHooks(branch);
        Configured(branch, t, HookFiles(SelectHooks(t)))
  }

  /** A run in a repository with a readable branch writes exactly the three hook files of that branch. */
  lemma {:induction false} SetupWritesBranchHooks(isRepo: bool, out: string)
    requires isRepo
    ensures var r := Setup(isRepo, Some(out));
      && r.Configured?
      && r.branch == Trim(out)
      && |r.files| == 3
      && r.files[0].path == ".husky/pre-commit"
      && r.files[1].path == ".husky/pre-push"
      && r.files[2].path == ".husky/post-merge"
      && r.files[1].content == HookContent("pre-push", HooksForBranch(Trim(out))[1].command)
  {
    var branch := Trim(out);
    EveryBranchThreeHooks(branch);
    ThreeHookFiles(HooksForBranch(branch));
  }

  lemma {:induction false} ThreeHookFiles(hooks: seq<Hook>)
    requires |hooks| == 3 && hooks[0].name == "pre-commit" && hooks[1].name == "pre-push" && hooks[2].name == "post-merge"
    ensures var files := HookFiles(hooks);
      && |files| == 3
      && files[0].path == ".husky/pre-commit"
      && files[1].path == ".husky/pre-push"
      && files[2].path == ".husky/post-merge"
      && files[1].content == HookContent("pre-push", hooks[1].command)
  {
  }

  /** Outside a repository, or when the branch cannot be read, nothing is written. */
  lemma {:induction false} SetupFailures(isRepo: bool, branchOutput: Option<string>)
    ensures !isRepo ==> Setup(isRepo, branchOutput) == NoRepository
    ensures isRepo && branchOutput.None? ==> Setup(isRepo, branchOutput) == BranchUnreadable
  {
  }
}
