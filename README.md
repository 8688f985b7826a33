# Branch tagging scripts and demo services

This project models two groups of code from a small JavaScript repository.

- **The version-tagging scripts** in `scripts/` form the first group. They decide things about version tags:
  - which versioning strategy a branch name gets;
  - which base version a tag holds, and how `major.minor.patch` is bumped;
  - which pre-release suffix is appended;
  - when tag creation is skipped, or needs confirmation;
  - which tags are grouped as duplicates, and which one survives cleanup;
  - which git hooks a branch receives;
  - whether a tag passes the semantic-version pattern `^v?\d+\.\d+\.\d+(-[a-zA-Z0-9.-]+)?(\+[a-zA-Z0-9.-]+)?$`.
- **The in-memory demo services** in the top-level `.js` files form the second group:
  - an ATM with a session and a transaction log;
  - user registration, login and sessions;
  - a payment lifecycle;
  - a capped widget list;
  - a notification buffer;
  - a login lockout counter;
  - a report list;
  - two trivial login classes;
  - an e-mail validator.

Each script's git queries, prompts and exit codes become parameters and outcomes:
- the branch name, the tag listing, the porcelain status and the commit counts are inputs;
- an answer at a prompt is a string parameter;
- what the script ends up doing is a returned datatype.

Where the source mutates state, the model is a Dafny `class`. Its methods have `modifies` clauses, and their `ensures` state the whole new state:
- the balance and the log of the ATM;
- the user and session maps of the authentication service;
- the payment and transaction maps;
- the widget, notification and report lists;
- the failed-attempt map.

Errors that the source throws are modelled as `Err` results. Each one leaves the state unchanged.

The remaining code is pure: strategy detection, version bumps, suffixes, the tag pattern, grouping and the hook table. It is modelled as functions, with lemmas about them.

## Files

| module | file | source |
|---|---|---|
| Wrappers, Strings, Seqs | `wrappers.dfy`, `strings.dfy`, `seqs.dfy` | the JavaScript built-ins the scripts rely on: `trim`, `split`, `join`, `toLowerCase`, `filter`, `slice(-n)`, `find` |
| SemVer | `semver.dfy` | the tag pattern shared by create-tag, verify-tags and list-tags |
| Versions | `versions.dfy` | `version.split('.').map(Number)` and `${major}.${minor}.${patch}` |
| TagListing | `tag_listing.dfy` | `output.trim().split('\n').filter(...)` over `git tag` output |
| AutoTag | `auto_tag.dfy` | `scripts/auto-tag.js` |
| GitFlow | `gitflow.dfy` | `scripts/gitflow-automation.js` |
| CleanupTags | `cleanup_tags.dfy` | `scripts/cleanup-tags.js` |
| BranchHooks | `branch_hooks.dfy` | `scripts/setup-branch-hooks.js` |
| CreateTag, VerifyTags, CheckTags, ListTags | `create_tag.dfy`, `verify_tags.dfy`, `check_tags.dfy`, `list_tags.dfy` | the scripts of the same names |
| Cashier, Auth, Payment, Dashboard, Notifications, AuthFix, Reports, Login, ExampleFeature, Validation | one file each | `cashier.js`, `auth.js`, `payment.js`, `multiples-commits.js`, `nueva-funcionalidad.js`, `desarrollador-2-fix.js`, `desarrollador-1-feature.js`, `login.js`, `example-feature.js`, `validation.js` |

Three facts of the code decide how some branch names are treated:
- **`develop`.** `BRANCH_STRATEGIES` in `scripts/auto-tag.js` (lines 8-15) has no `develop` entry, so that branch gets the default `-dev` strategy (`AutoTag.DevelopIsDefault`).
- **`add/` and `update/`.** Only `handleFeature` in `scripts/gitflow-automation.js` (lines 128-130) knows these prefixes. `detectStrategy` in auto-tag gives them the default strategy.
- **The default strategy.** It is a pre-release strategy with the suffix `-dev` (`scripts/auto-tag.js`, lines 99-104). `generateNextVersion` bumps its patch component (line 127, `AutoTag.BumpByBranch`).

## Model

| member | source | states |
|---|---|---|
| AutoTag.Table | scripts/auto-tag.js:8-15 | the table has an entry exactly for `main`, `master`, `development`, `feature`, `release` and `hotfix` |
| AutoTag.DetectStrategy | scripts/auto-tag.js:81-105 | every strategy has the prefix `v`; it is stable exactly for `main` and `master`, and the patch strategy exactly for `hotfix` and the `hotfix/` names; the full behaviour is stated by AutoTag.StrategyByShape |
| AutoTag.ExactNameFirst | scripts/auto-tag.js:81-85 | a name in the table gets its own entry before any prefix is looked at |
| AutoTag.StrategyByShape | scripts/auto-tag.js:81-105 | `main`/`master` are stable, `development` beta, `feature` and `feature/`, `fix/`, `skin/` alpha, `hotfix` and `hotfix/` patch, `release` and `release/` rc, and every other name the `-dev` default |
| AutoTag.ShapesDisjoint | scripts/auto-tag.js:83-96 | a name with one of the recognised prefixes is not a table name, and no name has two of the prefixes, so the order of the checks only matters where the source says so |
| AutoTag.DevelopIsDefault | scripts/auto-tag.js:83-104 | `develop` is not a table name and gets the `-dev` default strategy |
| AutoTag.StripTail | scripts/auto-tag.js:51-56 | a cut of `marker.*$` leaves a prefix of the text |
| AutoTag.StripTailAbsent | scripts/auto-tag.js:51-56 | a text without the first character of the marker is not cut |
| AutoTag.StripSuffixes | scripts/auto-tag.js:50-56 | the six cuts leave a prefix of the text |
| AutoTag.ExtractBaseVersion | scripts/auto-tag.js:47-59 | no latest tag (or an empty one) gives `0.0.0`; otherwise the base is a prefix of the tag with its leading `v` removed; the full behaviour is stated by AutoTag.ExtractOfPrefixed and AutoTag.SuffixCuts |
| AutoTag.StripTailSkips | scripts/auto-tag.js:51-56 | a cut never starts inside a leading part that lacks the marker's first character |
| AutoTag.StripSuffixesSkips | scripts/auto-tag.js:50-58 | a leading part free of `-` and `+` survives all six cuts of `extractBaseVersion` untouched |
| AutoTag.AlphaCut | scripts/auto-tag.js:51 | `-alpha.` followed by digits is cut off completely |
| AutoTag.BetaCut | scripts/auto-tag.js:52 | `-beta.` followed by digits is cut off completely |
| AutoTag.RcCut | scripts/auto-tag.js:53 | `-rc.` followed by digits is cut off completely |
| AutoTag.DevCut | scripts/auto-tag.js:55 | `-dev` is cut off completely |
| AutoTag.BareKept | scripts/auto-tag.js:47-59 | a bare `-alpha` or `-rc` (no dot) matches none of the cuts and stays in the base |
| AutoTag.BumpByBranch | scripts/auto-tag.js:110-135 | over any destructured components of the base (numbers, `NaN` or `undefined`): stable and hotfix branches bump the patch; `development` bumps the minor and sets the patch to 0; feature-like and `release/` branches keep the components; the bare `feature`/`release` and every other name bump the patch |
| AutoTag.BumpAdvances | scripts/auto-tag.js:110-135 | from a base that reads as three numbers, the next version reads as three numbers again; it equals the base on feature-like and `release/` branches and is greater than the base on every other branch (components are exact naturals) |
| AutoTag.GenerateSuffix | scripts/auto-tag.js:140-156 | a strategy without a suffix gives the empty suffix; otherwise the suffix is a dated `-alpha.`, `-rc.` or `-beta.` suffix, or the strategy's own; the full behaviour is stated by AutoTag.SuffixByBranch and AutoTag.SuffixCases |
| AutoTag.ProposedTag | scripts/auto-tag.js:192-194 | a proposed tag is never empty and starts with `v`; the full behaviour is stated by AutoTag.BaseOfProposedTag |
| AutoTag.SuffixByBranch | scripts/auto-tag.js:140-156 | stable and hotfix branches get no suffix, feature-like ones `-alpha.<date>`, `release/` ones `-rc.<date>`, `development` `-beta.<date>`, the bare `feature` `-alpha`, the bare `release` `-rc`, and all other names `-dev` |
| AutoTag.BaseOfProposedTag | scripts/auto-tag.js:47-194 | for any base text, the proposed tag is `v`, the template of the bumped components and the suffix; reading its base back gives that template, except for the names `feature` and `release`, whose bare suffix survives |
| AutoTag.SuffixCases | scripts/auto-tag.js:140-156 | the suffix takes one of seven shapes, and it is a bare `-alpha` or `-rc` exactly for the names `feature` and `release` |
| AutoTag.SuffixCuts | scripts/auto-tag.js:50-58 | reading a base removes each dated suffix and `-dev` completely, and keeps bare `-alpha` and `-rc` |
| AutoTag.ExtractOfPrefixed | scripts/auto-tag.js:50-58 | for `v` followed by a version free of `-` and `+`, the base is that version with the suffix's cuts applied |
| AutoTag.CreationGuards | scripts/auto-tag.js:166-248 | a tag is created only in a repository, for an untagged HEAD, on a clean tree and after a `y`/`yes`; it is pushed only after a second `y`/`yes` and a successful push; a tagged HEAD always stops the run |
| AutoTag.AutoTag | scripts/auto-tag.js:161-248 | the run stops as "no repository" exactly outside a repository, and as "already tagged" exactly when HEAD carries a tag; a tag is created only on a clean tree, after a `y`/`yes`, when `git tag` succeeds; the full behaviour is stated by AutoTag.CreationGuards and AutoTag.ProposedIsBumpedBase |
| AutoTag.ProposedIsBumpedBase | scripts/auto-tag.js:174-194 | a tag is proposed exactly when the directory is a repository and HEAD is untagged, whatever the latest tag looks like; the tag is `v`, the template of the bumped components of the base (`NaN` and `undefined` included) and the branch's suffix |
| AutoTag.DevelopmentTag | scripts/auto-tag.js:110-194 | on `development`, once the major and minor of the base are numbers, the tag is `v<major>.<minor+1>.0-beta.<date>` whatever the patch is, so `v1.0.1-alpha` is followed by `v1.1.0-beta.<date>` |
| AutoTag.FirstTagBase | scripts/auto-tag.js:48 | without any tag the base is `0.0.0`, which reads as three zeros |
| GitFlow.NextVersion | scripts/gitflow-automation.js:108-121 | any kind other than `major`, `minor` and `patch` returns the version unchanged; a bump always returns a text, and that text has no `-` or `+`, even when a component is `NaN` or `undefined` (components are exact naturals) |
| GitFlow.NextVersionBumps | scripts/gitflow-automation.js:111-117 | a bumped version reads back as `major+1.0.0`, `major.minor+1.0` or `major.minor.patch+1`, and it is greater than the old one (components are exact naturals) |
| GitFlow.NextVersionReadsLeading | scripts/gitflow-automation.js:108-115 | the major bump depends only on the major component and the minor bump only on the major and minor components: the rest of the text never changes the result |
| GitFlow.LeadingBumps | scripts/gitflow-automation.js:108-115 | with a numeric major the major bump is the plain version `major+1.0.0`; with a numeric major and minor the minor bump is `major.minor+1.0`, whatever the patch is |
| GitFlow.DottedBumps | scripts/gitflow-automation.js:108-115 | for digit strings `a` and `b`: `a.<rest>` bumps (major) to `a+1.0.0`, and both `a.b.<rest>` and `a.b`, which has no patch, bump (minor) to `a.b+1.0`; so `1.3.0-alpha.0` becomes `1.4.0` |
| GitFlow.DottedMajorBump | scripts/gitflow-automation.js:108-113 | `a.<rest>` with a digit string `a` bumps (major) to `a+1.0.0` |
| GitFlow.DottedMinorBump | scripts/gitflow-automation.js:108-115 | `a.b.<rest>` with digit strings `a` and `b` bumps (minor) to `a.b+1.0` |
| GitFlow.ShortMinorBump | scripts/gitflow-automation.js:108-115 | `a.b` with digit strings `a` and `b` and no patch bumps (minor) to `a.b+1.0` |
| GitFlow.CandidateStartsWith | scripts/gitflow-automation.js:76-88 | every name tried starts with `<base>-<kind>.` |
| GitFlow.FirstFree | scripts/gitflow-automation.js:84-102 | the attempt chosen is the first of those from the given one up to the third whose `v<name>` does not exist; 4 means all of them exist |
| GitFlow.UniqueTagIsFirstFree | scripts/gitflow-automation.js:80-106 | there is no unique tag exactly when all three candidates exist; otherwise the tag is the first free candidate and every earlier one exists |
| GitFlow.UniqueTag | scripts/gitflow-automation.js:80-106 | a tag found does not exist yet and starts with `<base>-<kind>.`; the full behaviour is stated by GitFlow.UniqueTagIsFirstFree |
| GitFlow.TagFor | scripts/gitflow-automation.js:80-106 | the outcome is either the release of a free tag of the requested kind or giving up; the full behaviour is stated by GitFlow.TagForReleases |
| GitFlow.TagForReleases | scripts/gitflow-automation.js:80-106 | a release happens only for a free tag of the requested kind, named after its base; giving up (exit 1) happens exactly when all three candidates are taken; nothing else can happen |
| GitFlow.FinalFor | scripts/gitflow-automation.js:225-249 | the outcome is either the release of a free version of the requested kind or the report of an existing one; the full behaviour is stated by GitFlow.FinalForSkipsExisting |
| GitFlow.FinalForSkipsExisting | scripts/gitflow-automation.js:225-249 | a final or patch release uses the bumped version and happens only when `v<next>` does not exist; an existing one is reported and skipped, never re-created; these are the only two outcomes |
| GitFlow.ReleaseIndex | scripts/gitflow-automation.js:158 | the position found is the leftmost one from the given start at which `release/\d+\.\d+\.\d+` matches |
| GitFlow.TripleAt | scripts/gitflow-automation.js:158 | a match is three non-empty digit runs joined by dots at the start of the text, with the last run taken as long as possible |
| GitFlow.TripleAtComplete | scripts/gitflow-automation.js:158 | whenever the text starts with three non-empty digit runs joined by dots, a match is found |
| GitFlow.ReleaseTarget | scripts/gitflow-automation.js:158-164 | there is no target exactly when `release/X.Y.Z` matches at no position of the branch name; a target is three digit runs joined by dots |
| GitFlow.GitFlowAutomation.constructor | scripts/gitflow-automation.js:8-12 | the branch and the package version are fixed when the object is built |
| GitFlow.GitFlowAutomation.CreateUniqueTag | scripts/gitflow-automation.js:80-106 | the loop of at most three attempts returns the first free candidate, or nothing when all three are taken |
| GitFlow.GitFlowAutomation.TagUnique | scripts/gitflow-automation.js:93-105 | releases the unique tag when one is found, and gives up (exit 1) otherwise |
| GitFlow.GitFlowAutomation.CreateAlphaTag | scripts/gitflow-automation.js:208-212 | the unique alpha tag for the minor bump of the package version, whatever that version reads as |
| GitFlow.GitFlowAutomation.CreateFinal | scripts/gitflow-automation.js:225-249 | the patch or minor release of the bumped package version, skipped when its tag exists |
| GitFlow.GitFlowAutomation.HandleFeature | scripts/gitflow-automation.js:124-145 | only `add/`, `fix/` and `update/` branches act; a failing merge-base exits, an empty one does nothing, and otherwise an alpha tag for the next minor version is made |
| GitFlow.GitFlowAutomation.HandleRelease | scripts/gitflow-automation.js:148-169 | only `release/` branches act; a name with no `release/X.Y.Z` in it exits with an error; otherwise a unique beta tag for that version is made |
| GitFlow.GitFlowAutomation.HandleHotfix | scripts/gitflow-automation.js:172-191 | only `hotfix/` branches act; a name that mentions `release` gets a unique rc tag for the next patch, any other name the patch release |
| GitFlow.GitFlowAutomation.HandleMerge | scripts/gitflow-automation.js:194-265 | `development` makes an alpha tag only when there are new commits since the latest tag, `master` makes the final minor release, and any other branch does nothing |
| GitFlow.GitFlowAutomation.Run | scripts/gitflow-automation.js:268-288 | any command other than `feature`, `release`, `hotfix` and `merge` is refused, and those four never are; the outcome is that command's handler over the branch, the version and the repository |
| GitFlow.FeatureReleases | scripts/gitflow-automation.js:124-145 | `handleFeature` releases only after finding the checked candidate `v<tag>` free; it releases only alpha tags, only on an `add/`, `fix/` or `update/` branch, and never a final version; the tag `yarn release:alpha` itself creates is not modelled |
| GitFlow.ReleaseReleases | scripts/gitflow-automation.js:148-169 | `handleRelease` releases only after finding the checked candidate `v<tag>` free; it releases only beta tags, only on a `release/` branch, and never a final version; the tag `yarn release:beta` itself creates is not modelled |
| GitFlow.HotfixReleases | scripts/gitflow-automation.js:172-191 | `handleHotfix` releases only after its check found the name free (the candidate `v<tag>` on the rc path, the `--release-as` version on the patch path); it releases rc tags only for a `hotfix/` name that mentions `release`, and patch versions only for the other `hotfix/` names |
| GitFlow.MergeReleases | scripts/gitflow-automation.js:194-265 | `handleMerge` releases only after its check found the name free (the candidate `v<tag>` on the alpha path, the `--release-as` version on the minor path); it releases alpha tags only on `development` and the minor version only on `master` |
| GitFlow.DispatchChecksFree | scripts/gitflow-automation.js:268-288 | whatever the command, a release happens only after its check found the checked name free, only on a branch of the command's own kind, and an existing final version is reported; the tag `yarn release:<kind>` itself creates is not modelled |
| CleanupTags.WordRun | scripts/cleanup-tags.js:27 | the run found is the longest prefix of `\w` characters |
| CleanupTags.GroupKey | scripts/cleanup-tags.js:27 | the key is a prefix of the tag |
| CleanupTags.GroupKeySkips | scripts/cleanup-tags.js:27 | a leading part without `-` is never cut into |
| CleanupTags.TimestampTailOf | scripts/cleanup-tags.js:27 | a word and two digit runs joined by dots form the tail `\w+\.\d+\.\d+` that the key drops |
| CleanupTags.RetryTagGroupsUnderBase | scripts/cleanup-tags.js:27 | a tag from the gitflow retry loop, `<base>-<kind>.<time>.<random>` with a base free of `-`, is grouped under `<base>` |
| CleanupTags.SingleFieldTagIsOwnKey | scripts/cleanup-tags.js:27 | a tag with a single dotted field after the `-`, such as a first-attempt `<base>-<kind>.<time>`, is its own key: nothing is dropped |
| CleanupTags.DashKept | scripts/cleanup-tags.js:27 | a `-` followed by a text free of `-` that is not a timestamp tail is kept |
| CleanupTags.GroupsAppend | scripts/cleanup-tags.js:25-33 | one more tag grows only its own key's group, at the end, and lists its key last when the key is new |
| CleanupTags.KeysListed | scripts/cleanup-tags.js:25-35 | the listed keys are distinct and are exactly the keys of the tags |
| CleanupTags.GroupMembers | scripts/cleanup-tags.js:25-33 | a group holds exactly the tags with its key |
| CleanupTags.KeyHasTags | scripts/cleanup-tags.js:29-32 | every listed key has at least one tag |
| CleanupTags.GroupOfAbsent | scripts/cleanup-tags.js:29-32 | a key no tag has has an empty group |
| CleanupTags.CollectStep | scripts/cleanup-tags.js:25-33 | one step of the `forEach` (start a list for a new key, then push the tag) turns the dictionary and key order of a prefix into those of the prefix plus the tag |
| CleanupTags.AllGroups | scripts/cleanup-tags.js:35 | one group per key, in key order, each holding exactly that key's tags |
| CleanupTags.InsertByIndexPermutes | scripts/cleanup-tags.js:35 | inserting a group by index value adds exactly that group |
| CleanupTags.SortByIndexPermutes | scripts/cleanup-tags.js:35 | sorting by index value keeps every group |
| CleanupTags.InsertAscending | scripts/cleanup-tags.js:35 | inserting into a list ascending by index value keeps it ascending |
| CleanupTags.SortAscending | scripts/cleanup-tags.js:35 | the sorted list is ascending by index value |
| CleanupTags.EntryOrderFacts | scripts/cleanup-tags.js:35 | `Object.entries` lists every entry once, puts the array-index keys first in ascending numeric order, and keeps the other keys in creation order |
| CleanupTags.SortedIndexGroups | scripts/cleanup-tags.js:35 | the sorted part holds exactly the array-index groups, ascending |
| CleanupTags.EntryOrderStable | scripts/cleanup-tags.js:35-40 | a list already in entry order is its own entry order |
| CleanupTags.AllNamedEntryOrder | scripts/cleanup-tags.js:35 | without array-index keys the entry order is the creation order |
| CleanupTags.FilterInEntryOrder | scripts/cleanup-tags.js:36 | dropping entries keeps the others in entry order |
| CleanupTags.GroupsOf | scripts/cleanup-tags.js:35 | reading the dictionary gives one group per listed key, in order |
| CleanupTags.GroupsOfAll | scripts/cleanup-tags.js:35 | reading the dictionary built from all the tags in key order gives every group |
| CleanupTags.SelectDuplicates | scripts/cleanup-tags.js:35-40 | the loop keeps exactly the entries of two or more tags, in the order of the entries given |
| CleanupTags.DuplicateGroupsShape | scripts/cleanup-tags.js:35-40 | a reported group has two or more tags, and they are exactly its key's tags, in listing order |
| CleanupTags.DuplicateKeysReported | scripts/cleanup-tags.js:35-40 | every key with two or more tags is reported |
| CleanupTags.DuplicatesInEntryOrder | scripts/cleanup-tags.js:35-40 | the reported groups are in `Object.entries` order, and the groups with other keys than array indices come in order of first occurrence |
| CleanupTags.VersionTagsInListingOrder | scripts/cleanup-tags.js:35-40 | when every tag starts with `v`, the groups of two or more are reported in first-occurrence order of their keys |
| CleanupTags.VersionKey | scripts/cleanup-tags.js:27 | the key of a tag starting with `v` is not an array index |
| CleanupTags.DuplicatesNonEmpty | scripts/cleanup-tags.js:78 | every reported group has a first tag to keep |
| CleanupTags.ExcessOfDuplicates | scripts/cleanup-tags.js:107-108 | dropping the single-tag groups does not change the sum of `length - 1` |
| CleanupTags.ExcessConcat | scripts/cleanup-tags.js:107-108 | the sum of `length - 1` over two lists one after the other is the sum of theirs |
| CleanupTags.ExcessRemove | scripts/cleanup-tags.js:107-108 | the sum of `length - 1` is that of the list without one group plus that group's own |
| CleanupTags.ExcessPermutation | scripts/cleanup-tags.js:107-108 | the sum of `length - 1` does not depend on the order of the groups, so entry order does not change the count |
| CleanupTags.KeyExcessTotal | scripts/cleanup-tags.js:107-108 | the groups partition the tags: the sum of `length - 1` over all groups is the number of tags less the number of keys |
| CleanupTags.SummaryCounts | scripts/cleanup-tags.js:106-113 | the unique count is the number of distinct keys, and unique plus duplicate counts make the total |
| CleanupTags.DuplicateExcess | scripts/cleanup-tags.js:106-108 | the sum of `length - 1` over the reported groups is the number of tags less the number of keys |
| CleanupTags.Kept | scripts/cleanup-tags.js:78 | one kept tag per group: its first |
| CleanupTags.Removed | scripts/cleanup-tags.js:79 | a tag is removed exactly when it is in some group after that group's first tag |
| CleanupTags.TagCleanup.constructor | scripts/cleanup-tags.js:6-8 | the listing is fixed when the object is built |
| CleanupTags.TagCleanup.FindDuplicateTags | scripts/cleanup-tags.js:22-41 | the result is the groups of two or more tags, in `Object.entries` order of the dictionary |
| CleanupTags.TagCleanup.CollectGroups | scripts/cleanup-tags.js:23-33 | the loop builds the dictionary from each key to its tags in listing order, and its keys in first-occurrence order |
| CleanupTags.TagCleanup.CleanupDuplicateTags | scripts/cleanup-tags.js:64-101 | for each duplicate group the first tag is kept and a delete is issued for each of the others |
| CleanupTags.DeletedOnlyDuplicates | scripts/cleanup-tags.js:74-98 | only tags of groups of two or more are deleted, and never a group's first |
| CleanupTags.LaterDuplicatesDeleted | scripts/cleanup-tags.js:74-98 | every tag of a duplicate group after its first is deleted |
| CleanupTags.FirstOfGroupKept | scripts/cleanup-tags.js:77-79 | with distinct tag names, the first tag of every group survives |
| CleanupTags.GroupOfDistinct | scripts/cleanup-tags.js:25-33 | a group of distinct names holds distinct names |
| CleanupTags.KeysDistinct | scripts/cleanup-tags.js:25-33 | each group key is listed once |
| CleanupTags.AllGroupsNonEmpty | scripts/cleanup-tags.js:25-35 | every group holds at least one tag |
| CleanupTags.AllGroupsExcess | scripts/cleanup-tags.js:107-112 | the tags beyond the first of each group number the total minus the number of distinct keys |
| BranchHooks.HookTable | scripts/setup-branch-hooks.js:10-36 | the table has an entry exactly for `main`, `master`, `development`, `feature` and `hotfix` |
| BranchHooks.BranchTypeByShape | scripts/setup-branch-hooks.js:53-75 | `main`/`master` are typed main, `development` development, `feature/` feature, `hotfix/` hotfix and `release/` staging; a branch is typed feature exactly when it is none of the exact names and has neither the `hotfix/` nor the `release/` prefix |
| BranchHooks.DetectBranchType | scripts/setup-branch-hooks.js:53-75 | a branch is typed feature exactly when it is none of `main`, `master` and `development` and has neither the `hotfix/` nor the `release/` prefix; the full behaviour is stated by BranchHooks.BranchTypeByShape |
| BranchHooks.PrefixesDisjoint | scripts/setup-branch-hooks.js:54-72 | no exact name has one of the prefixes and no name has two of them |
| BranchHooks.ReleaseGetsFeatureHooks | scripts/setup-branch-hooks.js:70-116 | a release branch is typed `staging`, which the table lacks, so it falls back to the feature hooks |
| BranchHooks.MasterGetsMainHooks | scripts/setup-branch-hooks.js:16-56 | `master` is typed `main`, so no branch ever selects the `master` entry and `master` gets main's hooks |
| BranchHooks.EveryBranchThreeHooks | scripts/setup-branch-hooks.js:116-125 | every branch gets `pre-commit`, `pre-push` and `post-merge`, in that order, and pre-commit always runs `verify-tags` |
| BranchHooks.SelectedIsHookSet | scripts/setup-branch-hooks.js:114-116 | whatever the branch type, the hooks selected are one of the table's entries |
| BranchHooks.PrePushCommand | scripts/setup-branch-hooks.js:13-33 | pre-push runs `verify-tags && auto-tag` exactly for `main` and `master`, and `auto-tag` alone for every other branch |
| BranchHooks.HookContentLines | scripts/setup-branch-hooks.js:80-87 | for a one-line name and command, the script's lines are the shebang, the husky line, an empty line, the echo line and the command, so the command reads back from the file |
| BranchHooks.HookContentJoined | scripts/setup-branch-hooks.js:82-87 | the template is its six lines joined by newlines |
| BranchHooks.HookFiles | scripts/setup-branch-hooks.js:80-125 | one file per hook, in order, at `.husky/<name>` with that hook's script |
| BranchHooks.SetupWritesBranchHooks | scripts/setup-branch-hooks.js:101-125 | in a repository with a readable branch, exactly three files are written, `.husky/pre-commit`, `.husky/pre-push` and `.husky/post-merge`, and the pre-push script runs the branch's pre-push command |
| BranchHooks.SetupFailures | scripts/setup-branch-hooks.js:41-111 | outside a repository, or when the branch cannot be read, nothing is written |
| BranchHooks.Setup | scripts/setup-branch-hooks.js:101-125 | the hooks are configured exactly in a repository whose branch can be read, and then three files are written; the full behaviour is stated by BranchHooks.SetupWritesBranchHooks and BranchHooks.SetupFailures |
| CheckTags.TagExistsIff | scripts/check-tags.js:24-32 | for a version without whitespace or glob characters, `tagExists` is true exactly when `v<version>` is one of the repository's tags |
| CheckTags.TagExists | scripts/check-tags.js:24-32 | `tagExists` is true only when `git tag -l` answered and its trimmed output is one character longer than the version; the full behaviour is stated by CheckTags.TagExistsIff |
| CheckTags.CountRange | scripts/check-tags.js:47-56 | without tags the commits of all of `HEAD` are counted; otherwise the range is the last listed tag followed by `..HEAD` |
| CheckTags.ParseInt | scripts/check-tags.js:51-57 | `parseInt` gives a number exactly when, after an optional sign, the text starts with a digit |
| CheckTags.ParseIntOfDigits | scripts/check-tags.js:51-57 | a run of decimal digits parses to its value |
| CheckTags.UnreleasedByCount | scripts/check-tags.js:45-61 | a count printed by git means unreleased commits exactly when it is positive, and a failed query counts as unreleased commits |
| CheckTags.HasUnreleasedCommits | scripts/check-tags.js:45-61 | a failed count means unreleased commits; a printed count means them exactly when it parses to a positive number; the full behaviour is stated by CheckTags.UnreleasedByCount |
| CheckTags.CanCreateIff | scripts/check-tags.js:64-87 | a tag may be created exactly when it does not exist and there are unreleased commits; an existing tag forbids it whatever the commit count |
| CheckTags.CanCreateTag | scripts/check-tags.js:64-87 | an existing tag forbids creation; when `git tag -l` failed, creation follows the unreleased-commit check alone; the full behaviour is stated by CheckTags.CanCreateIff |
| CheckTags.CurrentMarks | scripts/check-tags.js:98-103 | one mark per tag shown, and at most five tags are shown |
| CheckTags.CurrentMarkedExactly | scripts/check-tags.js:100-102 | a shown tag is marked exactly when it is `v<version>`; with distinct tag names at most one is marked |
| CreateTag.RejectedBeforeGit | scripts/create-tag.js:45-58 | a name the pattern rejects ends the run with that name before git's answers about the tag or the tree are consulted |
| CreateTag.ExistingAborts | scripts/create-tag.js:60-67 | a name that already resolves aborts with exit code 1 |
| CreateTag.CreatedIff | scripts/create-tag.js:9-99 | a tag is created exactly when in a repository the name (argument, or trimmed prompt answer) matches, does not resolve, the tree is clean or the person answers yes, and `git tag` succeeds; the tag created has that name |
| CreateTag.CreateTag | scripts/create-tag.js:9-99 | a tag is created only in a repository, for a name the pattern accepts, when that name does not resolve yet; the full behaviour is stated by CreateTag.CreatedIff |
| CreateTag.CleanTreeIgnoresAnswer | scripts/create-tag.js:70-92 | with a clean tree the "continue anyway" answer changes nothing |
| CreateTag.PushByAnswer | scripts/create-tag.js:111-119 | after creation a push happens exactly on a `y`/`yes` answer, and succeeds as git does |
| CreateTag.DirtyDeclinedExitsZero | scripts/create-tag.js:71-89 | a dirty tree without confirmation cancels with exit code 0 and no tag |
| VerifyTags.EmptyFails | scripts/verify-tags.js:27-31 | a repository without tags fails the verification |
| VerifyTags.InvalidReported | scripts/verify-tags.js:37-45 | when some tag does not match, the list reported is exactly the non-matching tags in order and the run fails |
| VerifyTags.SuccessIff | scripts/verify-tags.js:9-73 | the run succeeds, with exit code 0, exactly when in a repository there is at least one tag, every tag matches and the later git queries answer |
| VerifyTags.VerifyGitTags | scripts/verify-tags.js:9-73 | a verified run took place in a repository with a readable, non-empty tag listing in which no tag fails the pattern; the full behaviour is stated by VerifyTags.SuccessIff |
| VerifyTags.HeadIrrelevant | scripts/verify-tags.js:51-63 | whether HEAD carries the latest tag does not change the verdict |
| ListTags.ParseRecord | scripts/list-tags.js:26-27 | the record's name is the line's text before its first bar character |
| ListTags.ParseRecordFields | scripts/list-tags.js:21-27 | a line of name, date and subject joined by bars, none of them holding a bar, reads back as exactly those three fields |
| ListTags.SubjectTruncated | scripts/list-tags.js:26 | a subject that itself holds a bar is cut at it: only its first piece is kept |
| ListTags.DateKey | scripts/list-tags.js:29 | only a ten-character `YYYY-MM-DD` date is a valid date |
| ListTags.Insert | scripts/list-tags.js:29 | inserting adds exactly that record: the result is a permutation of the list plus it |
| ListTags.SortByDate | scripts/list-tags.js:29 | the sort is a permutation of the records |
| ListTags.InsertSorted | scripts/list-tags.js:29 | inserting a dated record into a newest-first list of dated records keeps it newest first |
| ListTags.SortedNewestFirst | scripts/list-tags.js:29 | when every date is valid the sorted list is newest first: no record is strictly newer than one before it |
| ListTags.Records | scripts/list-tags.js:21-28 | one record per non-empty line of the listing |
| ListTags.ListedPartition | scripts/list-tags.js:21-74 | the listed tags are a permutation of the records, the latest is the first of them, and the valid and invalid lists split them exactly by the tag pattern |
| ListTags.ListTags | scripts/list-tags.js:21-74 | a listing reports at least one tag, in a repository; the latest is the first listed, and the valid and invalid tags add up to all of them; the full behaviour is stated by ListTags.ListedPartition |
| ListTags.EmptyStopsEarly | scripts/list-tags.js:31-35 | an empty listing ends the run before any statistics |
| ListTags.LatestIsNewest | scripts/list-tags.js:29-75 | when every date is valid no listed tag is newer than the one reported as the latest |
| TagListing.TagLines | scripts/verify-tags.js:22-25 | every tag read from a listing is non-empty and holds no newline |
| TagListing.TagLinesOfListing | scripts/check-tags.js:37-38 | reading back a listing of tag names, one per line, gives exactly those names in order |
| TagListing.JoinedTrimmed | scripts/list-tags.js:21-22 | trimming a non-empty listing removes only its trailing newline |
| TagListing.TrimTrailingNewline | scripts/check-tags.js:28 | trimming a text plus a newline gives the text back when the text's ends are not white space |
| SemVer.MatchesIff | scripts/create-tag.js:47-49 | the left-to-right recogniser accepts a name exactly when it is an optional `v`, three digit runs separated by dots, an optional `-` part and an optional `+` part, each part non-empty over `[a-zA-Z0-9.-]` |
| SemVer.PiecesMatch | scripts/verify-tags.js:37-38 | every string built from pieces the pattern allows is accepted |
| SemVer.AcceptsLeadingZeros | scripts/verify-tags.js:37 | the pattern accepts `01.0.0`, which Semantic Versioning 2.0.0 section 2 forbids |
| SemVer.AcceptsEmptyIdentifiers | scripts/list-tags.js:57-58 | the pattern accepts a pre-release with an empty dot-separated identifier (`..`), which section 9 of Semantic Versioning 2.0.0 forbids |
| SemVer.AcceptsTagged | scripts/create-tag.js:47 | a digit run, a dot and a rest that matches from the minor component on is accepted as it stands, without a `v` |
| SemVer.OptionalV | scripts/create-tag.js:47 | for a text that does not start with `v`, adding the `v` prefix leaves acceptance unchanged, in both directions |
| SemVer.RejectsMalformed | scripts/create-tag.js:47-58 | `v1.0` (two components), `V1.0.0` (upper-case prefix) and `1.0.0-` (empty pre-release) are rejected |
| Versions.Render | scripts/auto-tag.js:115-133 | a rendered version is the decimal digits of its three numbers joined by dots, and holds no sign characters |
| Versions.Parse | scripts/auto-tag.js:111 | the destructured components are three numbers exactly when the text has at least three dot-separated pieces and the first three are digit strings; the version is then those numbers |
| Versions.NumberOf | scripts/gitflow-automation.js:109 | `Number(piece)` is a number exactly for a digit string (the empty one gives 0), `NaN` otherwise, and never `undefined` |
| Versions.PieceAt | scripts/gitflow-automation.js:109 | destructuring gives `undefined` exactly past the last piece |
| Versions.Read | scripts/auto-tag.js:111 | the major component is the first piece's number and never `undefined`; the minor is `undefined` exactly when there is no second piece, and the patch exactly when there is no third |
| Versions.Succ | scripts/gitflow-automation.js:113-117 | `c + 1` is a number exactly when `c` is one, and then one more; `NaN` and `undefined` give `NaN` (components are exact naturals) |
| Versions.Show | scripts/gitflow-automation.js:113-117 | a component renders without `-`, `+` or `.` (components are exact naturals) |
| Versions.Text | scripts/gitflow-automation.js:113-117 | the template of three components holds no `-` or `+` (components are exact naturals) |
| Versions.ReadDotted | scripts/gitflow-automation.js:109 | `a.<rest>` reads its major from `a`; `a.b.<rest>` reads its major from `a`, its minor from `b` and its patch from the first piece of `<rest>` |
| Versions.ReadPair | scripts/gitflow-automation.js:109 | `a.b` reads as `a`, `b` and an `undefined` patch |
| Versions.ParseRender | scripts/gitflow-automation.js:109-117 | reading back a rendered version gives the version |
| Versions.RenderInjective | scripts/gitflow-automation.js:113-117 | different versions render differently |
| Strings.DigitRun | scripts/check-tags.js:51 | the run is the longest digit prefix: digits up to it and a non-digit (or the end) at it |
| Strings.DigitRunCovers | scripts/check-tags.js:51 | a digit prefix lies within the digit run |
| Strings.TrimStart | nueva-funcionalidad.js:21 | trimming the front drops exactly the leading white space |
| Strings.TrimEnd | scripts/check-tags.js:28 | trimming the back drops exactly the trailing white space |
| Strings.TrimEmptyIff | nueva-funcionalidad.js:10 | a trimmed text is empty exactly when every character is white space |
| Strings.TrimNoop | scripts/verify-tags.js:48 | a text without white space at either end is its own trim |
| Strings.Split | scripts/list-tags.js:26 | splitting always gives at least one piece |
| Strings.SplitPiecesFree | scripts/verify-tags.js:24 | no piece of a split holds the separator |
| Strings.SplitAfter | scripts/gitflow-automation.js:109 | splitting at a first separator makes the text before it the first piece, followed by the pieces of the rest |
| Strings.SplitFree | scripts/gitflow-automation.js:109 | a text without the separator splits into itself alone |
| Strings.JoinSplit | scripts/check-tags.js:38 | joining the pieces of a split with the separator gives the text back |
| Strings.SplitJoin | scripts/setup-branch-hooks.js:82-87 | joining a non-empty list of pieces that do not hold the separator, then splitting, gives the pieces back |
| Strings.NatToString | scripts/auto-tag.js:115 | a number renders as a non-empty digit string without a leading zero |
| Strings.NatToStringRoundTrip | scripts/auto-tag.js:111-115 | reading a rendered number gives the number back |
| Strings.NatToStringInjective | scripts/gitflow-automation.js:113-117 | different numbers render differently |
| Strings.ToLowerAscii | scripts/create-tag.js:83 | lower-casing keeps the length and maps each character on its own |
| Strings.IsYesIff | scripts/auto-tag.js:216-232 | an answer confirms exactly when it is `y` or `yes` in any mix of upper and lower case |
| Seqs.Filter | scripts/verify-tags.js:25-38 | the filtered list is no longer than the list, holds only elements that pass, and holds every element that passes |
| Seqs.FilterAppend | scripts/list-tags.js:58-59 | filtering a concatenation filters each part |
| Seqs.FilterMembers | scripts/list-tags.js:58-59 | an element is in the filtered list exactly when it is in the list and passes |
| Seqs.FilterPartition | scripts/list-tags.js:58-59 | filtering by a test and by its negation gives lengths that add up to the list's |
| Seqs.FilterSplit | scripts/list-tags.js:58-59 | a filter and the filter by the negated test hold, between them, exactly the elements of the list |
| Seqs.FilterNone | scripts/verify-tags.js:37-38 | when no element passes, the filtered list is empty |
| Seqs.FilterCommute | scripts/cleanup-tags.js:35-36 | two filters can be applied in either order |
| Seqs.CountUpdate | nueva-funcionalidad.js:33-35 | replacing one element changes the count by what the old and new elements contribute |
| Seqs.FilterAll | scripts/verify-tags.js:25 | filtering a list whose elements all pass gives the list |
| Seqs.LastN | nueva-funcionalidad.js:16 | `slice(-n)` is the last `n` elements, or the whole list when it is shorter |
| Seqs.FindIndex | nueva-funcionalidad.js:32 | the index found is the first element that passes, or the length when none does |
| Dashboard.AddKeepsInvariant | multiples-commits.js:19-34 | a widget that passes every check keeps the list within ten widgets and its ids distinct |
| Dashboard.AddRefused | multiples-commits.js:13-31 | an uninitialised dashboard refuses every widget as not initialised, a full one as over the limit, and a widget is accepted exactly when the dashboard is initialised, under the limit, the argument is an object and no stored widget has its id |
| Dashboard.SecondIdlessRefused | multiples-commits.js:29-31 | two widgets without an id compare equal (`undefined === undefined`), so the second one is refused as a duplicate |
| Dashboard.DashboardService.constructor | multiples-commits.js:3-10 | a new dashboard has no widgets, layout `grid`, theme `light`, interval 30000 and is not initialised |
| Dashboard.DashboardService.AddWidget | multiples-commits.js:12-35 | fails exactly when a check fails, with the first failing check in the source's order (not initialised, limit of 10, not an object, duplicate id), and then changes nothing; otherwise appends exactly that widget at the end and returns it; theme, layout, interval and flag never change; at most ten widgets with distinct ids before and after |
| Dashboard.DashboardService.GetWidgets | multiples-commits.js:37-39 | the widgets returned are at most ten, with distinct ids |
| Dashboard.DashboardService.SetTheme | multiples-commits.js:42-45 | stores the theme and returns it; nothing else changes |
| Dashboard.DashboardService.SetLayout | multiples-commits.js:52-55 | stores the layout and returns it; nothing else changes |
| Dashboard.DashboardService.ClearWidgets | multiples-commits.js:58-60 | empties the widget list; nothing else changes |
| Dashboard.DashboardService.SetRefreshInterval | multiples-commits.js:63-66 | stores the interval and returns it; nothing else changes |
| Dashboard.DashboardService.Initialize | multiples-commits.js:86-90 | sets the initialised flag and returns `true`; nothing else changes |
| Notifications.AppendedBounded | nueva-funcionalidad.js:15-27 | adding to a list of at most 100 keeps it at most 100 with the new notification last: below 100 it is simply appended; at 100 the list is first cut to its last 50, in order |
| Notifications.MarkedReadOnlyFirst | nueva-funcionalidad.js:31-36 | marking keeps the length, an unknown id changes nothing, and otherwise only the first notification with the id changes, and only its read flag |
| Notifications.MarkedReadCount | nueva-funcionalidad.js:31-40 | marking lowers the unread count by one exactly when the first notification with the id was unread, and otherwise leaves it as it was |
| Notifications.ClearOldKeeps | nueva-funcionalidad.js:47-54 | clearing old notifications keeps exactly the ones dated after the cutoff |
| Notifications.NotificationService.constructor | nueva-funcionalidad.js:3-6 | a new service has no notifications |
| Notifications.NotificationService.AddNotification | nueva-funcionalidad.js:8-29 | fails exactly when the message is empty or all whitespace, and then changes nothing; otherwise returns an unread notification with the trimmed message and appends it after cutting a list of 100 or more to its last 50; the list never exceeds 100; an omitted type is `info` |
| Notifications.NotificationService.MarkAsRead | nueva-funcionalidad.js:31-36 | the new list is the old one with only the first notification of that id marked read |
| Notifications.NotificationService.GetUnreadCount | nueva-funcionalidad.js:38-40 | the unread count never exceeds the number of notifications |
| Notifications.NotificationService.ClearAll | nueva-funcionalidad.js:42-44 | empties the list |
| Notifications.NotificationService.ClearOldNotifications | nueva-funcionalidad.js:47-54 | keeps exactly the notifications dated after the cutoff, in their order |
| Cashier.NetAppend | cashier.js:59-91 | logging one more entry adds its effect to the net change and its amount to the deposit or withdrawal total of its kind |
| Cashier.NetIsDepositsMinusWithdrawals | cashier.js:113-126 | the net change of any log equals its total deposits minus its total withdrawals |
| Cashier.NetConcat | cashier.js:59-91 | the net change of two logs one after the other is the sum of their net changes |
| Cashier.DayLog | cashier.js:108-111 | every entry of the day's log is of that day and comes from the log |
| Cashier.DayLogExact | cashier.js:108-111 | an entry is in the day's log exactly when it is in the log and dated that day |
| Cashier.SingleDayNet | cashier.js:108-126 | when every entry is of one day, that day's net change is the whole log's net change |
| Cashier.CashierSystem.constructor | cashier.js:7-12 | a new desk has balance 10000, no entries and no session, and the balance equals the opening balance plus the log's net change |
| Cashier.CashierSystem.Login | cashier.js:17-27 | succeeds exactly for the pin `1234`, and then opens a session for that user; a wrong pin changes nothing |
| Cashier.CashierSystem.Logout | cashier.js:32-36 | closes the session and clears the user; balance and log unchanged |
| Cashier.CashierSystem.CheckBalance | cashier.js:41-46 | fails exactly when no session is active; otherwise returns the balance, which is the opening balance plus the log's net change |
| Cashier.CashierSystem.Deposit | cashier.js:51-69 | fails without a session or for an amount that is not above 0 (checked in that order) and then changes nothing; otherwise adds the amount, logs one deposit for the current user and returns the new balance; amounts are real numbers; the balance always equals 10000 plus the log's net change and never goes negative |
| Cashier.CashierSystem.Withdraw | cashier.js:74-95 | fails without a session, for an amount that is not above 0, or for more than the balance (in that order) and then changes nothing; otherwise subtracts the amount, logs one withdrawal and returns the new balance, which is never negative; amounts are real numbers |
| Cashier.CashierSystem.TransactionHistory | cashier.js:100-102 | the last ten entries (all of them when there are fewer), oldest first |
| Cashier.CashierSystem.DailyReport | cashier.js:107-129 | the report counts that day's entries, its net change is that day's deposits minus its withdrawals and equals the net effect of that day's log, and it gives the current balance |
| Auth.AdminPasswordNotValid | auth.js:199-207 | the default administrator's password `admin123` would not pass the registration password check (it has no upper-case letter) |
| Auth.IdIndex | auth.js:223 | the position found holds a user with that id and no earlier user has it; past the end means no user has it |
| Auth.NameIndex | auth.js:162-164 | the position found holds a user with that name and no earlier user has it (the earliest match); past the end means no user has it |
| Auth.PutUserProps | auth.js:99 | storing a user under its id keeps the ids distinct; a new id is appended at the end, and a known id is replaced in place |
| Auth.LoginCheck | auth.js:104-117 | a successful check names a stored user |
| Auth.Apply | auth.js:237 | merging the five modelled fields (name, e-mail, password, role, active flag) never changes the id, the creation date or the last login |
| Auth.RegisterErrorIff | auth.js:66-86 | a registration passes exactly when the name, e-mail and password validators pass, no stored id equals the name, and no stored user has the e-mail |
| Auth.RegisterError | auth.js:66-86 | a registration passes only when the name, e-mail and password validators pass; "e-mail taken" is given only for an e-mail some stored user has; the full behaviour is stated by Auth.RegisterErrorIff |
| Auth.DuplicateEmailRejected | auth.js:84-86 | an e-mail that is already registered is rejected whatever the other arguments |
| Auth.RepeatedUsernameRegisters | auth.js:80-99 | the name check looks up ids, not names: when every stored id holds a `-` (as `admin-001` and the generated ids do), a name already taken registers again |
| Auth.EarliestUserLogsIn | auth.js:104-164 | with a name registered twice, the login checks the earlier user, so the later registration makes no difference to the outcome |
| Auth.LoginCheckMeaning | auth.js:104-117 | the login checks pass exactly when the earliest user with that name is active and has that password; "user not found" exactly when no user has that name |
| Auth.RegisterThenLogin | auth.js:88-117 | a user just registered under a new id and a new name logs in at once with the password given |
| Auth.DeactivatedCannotLogin | auth.js:243-253 | once the earliest user with a name is deactivated, every login with that name fails as inactive |
| Auth.UpdateErrorIff | auth.js:222-235 | an update passes exactly when the user exists and the name and e-mail it sets are valid or empty (an empty field is falsy and skips its check) |
| Auth.UserAuth.constructor | auth.js:10-37 | the service starts with only the administrator and no sessions |
| Auth.UserAuth.Register | auth.js:66-102 | fails exactly when a check fails, with the first failing check in the source's order, and then changes nothing; otherwise stores an active user with no last login under the given id and returns it; sessions unchanged; ids stay distinct; an omitted role is `user` |
| Auth.UserAuth.Login | auth.js:104-136 | a failed check changes nothing and returns its error; otherwise exactly one session is added, lasting 24 hours from now, the earliest user with that name gets `lastLogin = now`, and both are returned |
| Auth.UserAuth.Logout | auth.js:138-145 | returns `true` exactly when the session existed; the session is gone afterwards and nothing else changes |
| Auth.UserAuth.ValidateSession | auth.js:147-160 | an unknown session gives `null`; an expired one is deleted and gives `null`; a live one is returned and kept |
| Auth.UserAuth.UpdateUser | auth.js:222-241 | fails exactly when the user is unknown or a non-empty name or e-mail it sets is invalid (checked in that order), and then changes nothing; otherwise the modelled fields given replace the user's and the user is returned |
| Auth.UserAuth.DeactivateUser | auth.js:243-253 | fails exactly for an unknown id; otherwise only that user changes, and only its active flag, which becomes false |
| Auth.UserAuth.GetStats | auth.js:261-272 | the total is the number of users and the active users never exceed it |
| Auth.DeactivateCounts | auth.js:249-267 | deactivating an active user lowers the active count by exactly one |
| Payment.MethodIndex | payment.js:70-74 | the position found holds the method with that key and no earlier entry has it; past the end means the method is unknown |
| Payment.PaymentIndex | payment.js:114 | the position found holds the payment with that id and no earlier one has it; past the end means the payment is unknown |
| Payment.PutPayment | payment.js:102 | storing a payment under its id keeps ids distinct, and a new id is appended at the end |
| Payment.CreateErrorIff | payment.js:54-82 | a payment is accepted exactly when the user is given, the amount is above 0 and at most 1000000, the method exists and is enabled, and the description has at most 500 characters |
| Payment.CreateError | payment.js:54-82 | a payment is accepted only with a user, an amount above 0 and at most 1000000, a description of at most 500 characters, and a method that exists and is enabled; the full behaviour is stated by Payment.CreateErrorIff |
| Payment.AmountBound | payment.js:65-67 | the limit is inclusive: exactly 1000000 is accepted, and every larger amount is refused as too large |
| Payment.FeeOfPayment | payment.js:22-100 | a new payment is pending, its fee is the amount times the rate of its method, and its total is amount plus fee; cash costs nothing |
| Payment.Completion | payment.js:129-131 | processing keeps the payment's id, sets its status to completed and records the transaction id |
| Payment.ProcessTwiceFails | payment.js:120-122 | after a payment has been processed, processing it again fails as already processed with status `completed` |
| Payment.StatsPartition | payment.js:181-185 | the completed, pending and failed counts add up to the total |
| Payment.ProcessUpdatesStats | payment.js:129-192 | processing a pending payment moves one payment from the pending to the completed count, keeps the total and failed counts, and adds exactly its total and its fee to the sums |
| Payment.CompletionSums | payment.js:186-191 | completing one pending payment adds exactly its total and its fee to the completed sums |
| Payment.InsertByDate | payment.js:170 | inserting keeps every payment: the result is the list plus the new one |
| Payment.SortByDate | payment.js:170 | sorting is a permutation of its input |
| Payment.SortNewestFirst | payment.js:170 | the sorted list is newest first |
| Payment.InsertNewestFirst | payment.js:170 | inserting into a newest-first list keeps it newest first |
| Payment.UserPayments | payment.js:163-173 | fails exactly when no user is given; otherwise the result is a permutation of that user's payments |
| Payment.UserPaymentsExact | payment.js:163-173 | the listing holds exactly that user's payments, newest first |
| Payment.UnderscoreWhitespace | payment.js:204 | after the replacement no white space is left, and a text without white space is unchanged |
| Payment.AvailableMethods | payment.js:200-209 | one entry per enabled method |
| Payment.AvailableAreEnabled | payment.js:200-209 | an entry is listed exactly when it describes an enabled method |
| Payment.PaymentSystem.constructor | payment.js:9-49 | a new system holds no payments and no transactions, and the four methods of the source in their order |
| Payment.PaymentSystem.CreatePayment | payment.js:54-104 | fails exactly when a check fails, with the first failing check in the source's order, and then stores nothing; otherwise stores and returns a pending payment with fee and total from its method, no processing time and no transaction id; methods and transactions unchanged; ids stay distinct; an omitted description is empty |
| Payment.PaymentSystem.ProcessPayment | payment.js:109-150 | fails for a missing or unknown id or a payment that is not pending, and then changes nothing; otherwise only that payment changes, to completed with processing time and transaction id, and exactly one transaction is recorded, carrying its total with status `success` |
| Payment.PaymentSystem.GetUserPayments | payment.js:163-173 | fails exactly when no user is given; otherwise holds exactly that user's payments, newest first |
| Payment.PaymentSystem.GetPaymentStats | payment.js:178-195 | the completed, pending and failed counts add up to the total |
| Payment.PaymentSystem.GetAvailablePaymentMethods | payment.js:200-209 | an entry is listed exactly when it describes an enabled method |
| Validation.ValidEmailIff | validation.js:7-8 | the recogniser accepts an e-mail exactly when it is `local@left.right` with each of the three parts a non-empty run of characters that are neither whitespace nor `@` (both directions) |
| Validation.ValidEmail | validation.js:7-8 | an accepted e-mail has at least five characters and no white space; the full behaviour is stated by Validation.ValidEmailIff |
| Validation.PartsAccepted | validation.js:7-8 | every text of the shape `local@left.right` with non-empty `[^\s@]` parts is accepted |
| Validation.FirstAt | validation.js:7 | in `l@rest` with `l` free of `@`, the first `@` sits right after `l`, so the local part read back is `l` and the domain is `rest` |
| Validation.DomainOfParts | validation.js:7 | `left.right` with non-empty `[^\s@]` parts is a valid domain: its characters are all plain and it has a `.` that is neither first nor last |
| Validation.NoAtRejected | validation.js:7 | a text with no `@` is rejected |
| Validation.TwoAtsRejected | validation.js:7 | a text with two or more `@` is rejected |
| Validation.ValidFormIff | validation.js:11-16 | a form passes exactly when its e-mail field is present and valid; a missing or empty e-mail fails |
| ExampleFeature.LoginFlag | example-feature.js:12-16 | after `login` the flag is set exactly when it was already set or both name and password are non-empty; a refused login leaves the flag as it was |
| ExampleFeature.AuthService.constructor | example-feature.js:3-5 | a new service is not signed in |
| ExampleFeature.AuthService.Login | example-feature.js:7-17 | returns `true` exactly when both name and password are non-empty; the flag becomes set in that case and otherwise keeps its old value |
| ExampleFeature.AuthService.Logout | example-feature.js:19-21 | the flag is cleared whatever its old value |
| Login.RegisterThenLogin | login.js:7-20 | after registering `u` with `p`, logging in with `p` succeeds exactly when `p` is not empty, and any other password fails |
| Login.RegisterKeepsOthers | login.js:11 | registering one name changes the login outcome of no other name |
| Login.LoginSystem.constructor | login.js:3-5 | a new system has no users |
| Login.LoginSystem.Register | login.js:7-13 | fails with "user exists" exactly when the name is already stored, and then keeps every stored password; otherwise stores that name with that password, returns `true`, and changes no other entry |
| Login.LoginSystem.Login | login.js:15-21 | succeeds (returning `true`) exactly when the name is stored with a non-empty password equal to the one given; otherwise fails with invalid credentials |
| Login.LoginSystem.Logout | login.js:23-26 | returns `true` and changes nothing |
| Reports.ExportIff | desarrollador-1-feature.js:24-30 | the export is `None` exactly when no report has the id, and otherwise it is the file name of the first report with that id |
| Reports.Export | desarrollador-1-feature.js:24-30 | the export is `None` exactly when no report has the id; the full behaviour is stated by Reports.ExportIff |
| Reports.PdfNameId | desarrollador-1-feature.js:27 | the file name starts with `PDF_`, followed by the decimal digits of the id, which read back as the id, and then `_` |
| Reports.ByTypeExact | desarrollador-1-feature.js:20-22 | the listing by type holds exactly the reports of that type |
| Reports.GeneratedFound | desarrollador-1-feature.js:7-29 | a report just generated is listed under its type; when no older report has its id, exporting that id names the new report |
| Reports.ReportService.constructor | desarrollador-1-feature.js:3-5 | a new service holds no reports |
| Reports.ReportService.GenerateReport | desarrollador-1-feature.js:7-18 | appends exactly one report, with status `completed` and type `summary` unless one is given, and returns it; earlier reports are unchanged |
| Reports.ReportService.GetReportsByType | desarrollador-1-feature.js:20-22 | a report is in the result exactly when it is stored and has that type; the result is never longer than the store |
| Reports.ReportService.ExportToPdf | desarrollador-1-feature.js:24-30 | returns `None` (`null`) exactly when no stored report has the id |
| AuthFix.FifthFailureLocks | desarrollador-2-fix.js:36-49 | with four or more failures recorded, one more failure at time `now` locks the account at a later time exactly while less than fifteen minutes have passed |
| AuthFix.EarlyFailureDoesNotLock | desarrollador-2-fix.js:36-49 | with fewer than four failures recorded, one more failure does not lock the account at any time |
| AuthFix.ResetUnlocks | desarrollador-2-fix.js:36-53 | after a reset the account is unlocked, and every other account is locked exactly as before |
| AuthFix.LockedRefused | desarrollador-2-fix.js:9-24 | a name of 3 to 50 characters without dangerous characters is refused exactly when its account is locked |
| AuthFix.AuthFix.constructor | desarrollador-2-fix.js:3-7 | a new validator has no failures recorded |
| AuthFix.AuthFix.ValidateLogin | desarrollador-2-fix.js:9-34 | throws exactly when a check fails, in the source's order (length 3 to 50, then dangerous characters, then lockout), and then records nothing; otherwise the result is whether the password has 8 or more characters, an accepted password deletes the failure record, and a refused one records one more failure dated now |
| AuthFix.AuthFix.IsAccountLocked | desarrollador-2-fix.js:36-42 | `true` exactly when the account has five or more failures recorded and the last is less than fifteen minutes old; never for an account without a record |
| AuthFix.AuthFix.RecordFailedAttempt | desarrollador-2-fix.js:44-49 | the account's count goes up by one (from zero for a first failure) and its last attempt becomes `now`; other accounts are unchanged |
| AuthFix.AuthFix.ResetFailedAttempts | desarrollador-2-fix.js:51-53 | removes that account's record and no other |

## Left out

- **Git, the file system, prompts and the console.** `execSync`, `fs`, `readline`, `console` and `process.exit` are replaced by the facts and answers they produce and the outcome they lead to. The order and text of console messages are not modelled.
- **Display-only code.**
  - These functions only print: `showDuplicateTags`, `showBranchStrategies`, `showTagInfo`, `showTagSummary` and the help output of the scripts. Their only modelled parts are the marks, the counts and the first five tags.
  - The argument handling of `scripts/setup-branch-hooks.js` (lines 157-170) and the `run` entry point of `scripts/cleanup-tags.js` are not modelled.
- **Failing commands.** Commands that fail and end the process with exit code 1 are not modelled: `git branch --show-current` in both `getCurrentBranch` functions (`scripts/auto-tag.js:20-26`, `scripts/gitflow-automation.js:15-22`), `git status --porcelain` in auto-tag (line 199, caught at lines 250-253) and in create-tag (`scripts/create-tag.js:70`), reading `package.json` in the gitflow constructor (`scripts/gitflow-automation.js:24-31`), and a failing `yarn release` in `executeCommand` (`scripts/gitflow-automation.js:34-48`). A `git show` that fails after a successful `git tag` in auto-tag is reported as the failed tag outcome.
- **Failed git commands.** A failed `git tag -d` or `git push` in cleanup is only logged by the source. The model returns the tags that cleanup asks git to delete.
- **Hook file writes.** `createHook` swallows write errors (`scripts/setup-branch-hooks.js:89-95`). The model records the file each hook would write.
- **Clocks and randomness.**
  - `Date.now()`, `new Date()`, `toISOString()` and `Math.random()` are parameters. This covers ids, timestamps, the current time, the 8-digit date stamp, the report day and the cleanup cutoff (`daysOld` becomes the cutoff time).
  - A repeated id overwrites the entry stored under it, as `Map.set` does in the source.
- **Timers.** `startAutoRefresh` and `refreshWidgets` (`multiples-commits.js:73-83`) are left out, since they need `setInterval`.
- **Type checks.** JavaScript `typeof` checks and the truthiness of non-string values are modelled by typed inputs: `Option` for a missing value, `WidgetArg` for a non-object.
- Versions.Succ, Versions.Show: components are exact naturals, not IEEE doubles. From 2^53 up `+ 1` can be lost in the source (a patch bump of `0.0.9007199254740993` gives `0.0.9007199254740992`), and from 10^21 up the template prints exponent form (`1e+21`). "One more" and "without `-`, `+` or `.`" hold in the source only below those bounds.
- Versions.Text: "no `-` or `+`" holds in the source only for components below 10^21.
- GitFlow.NextVersion: "no `-` or `+`" holds in the source only for components below 10^21 (a major bump of `1000000000000000000000.0.0` prints `1e+21.0.0`).
- GitFlow.NextVersionBumps: "greater than the old one" holds in the source only for components below 2^53, where `+ 1` is exact.
- AutoTag.BumpAdvances: "greater than the base" holds in the source only for components below 2^53, where `+ 1` is exact.
- GitFlow.FeatureReleases, GitFlow.ReleaseReleases, GitFlow.HotfixReleases, GitFlow.MergeReleases, GitFlow.DispatchChecksFree: `createUniqueTag` (`scripts/gitflow-automation.js:93-97`) checks that `v<tag>` is free and then runs `yarn release:<kind>` without passing that name, so the tag the release script actually creates is chosen outside this code. The model shows the checked name free, not that the created tag is new. The `--release-as` paths (lines 235 and 248) do create the checked version.
- Auth.Apply, Auth.UserAuth.UpdateUser: updates are restricted to the name, e-mail, password, role and active flag, each either given or absent. `Object.assign` (`auth.js:237`) copies every own property, including `id`, `createdAt`, `lastLogin` and keys whose value is `undefined`: `{email: undefined}` erases the e-mail, and a changed `id` makes the next login (`auth.js:132`) add a second map entry for the same user, so `getStats` counts it twice. "Never changes the id, the creation date or the last login" is a property of the restricted updates only.
- Versions.NumberOf: `Number` also reads hexadecimal (`0x1f`), exponent (`1e3`), fractional, signed, `Infinity` and white-space-padded pieces as numbers; the model reads every piece that is not a plain digit string as `NaN`, so a version built from such pieces renders `NaN` where the source prints a number.
- CheckTags.ParseInt: `parseInt` also reads a `0x` prefix as hexadecimal; the model reads an optional sign and a decimal digit run, which is what `git rev-list --count` prints.
- **String lengths.** JavaScript `.length` counts UTF-16 code units; the model counts characters.
- **Case handling.** `toLowerCase` is modelled for ASCII letters only.
- **Glob characters.** `git tag -l` treats glob characters in a name as a pattern. `CheckTags.TagExistsIff` requires a version without them.
- **Cashier arithmetic.** Amounts and the balance are exact `real` numbers, not IEEE doubles, so rounding in sums such as `0.1 + 0.2` is not modelled.
- **Payment arithmetic.**
  - Payment amounts and fees are exact `real` numbers, not IEEE doubles, so rounding of `amount * rate` is not modelled.
  - The `catch` that marks a payment `failed` (`payment.js:152-157`) cannot be reached by the code it guards, and is left out.
- **Object properties.** Only the properties the source reads or writes are modelled, including the constant `status` of a payment transaction. Prototype keys of plain objects are not modelled: `__proto__` as a group key in cleanup, and inherited names such as `constructor` or `toString` in `detectStrategy`'s `BRANCH_STRATEGIES[branchName]` lookup (`scripts/auto-tag.js:83`), which the source finds as prototype properties where AutoTag.StrategyByShape gives the `-dev` default.
- **List-tags dates.**
  - `new Date` on a `%(creatordate:short)` text is modelled for the `YYYY-MM-DD` form. Any other text is an invalid date, which the comparator treats as equal to everything.
  - `ListTags.SortedNewestFirst` and `ListTags.LatestIsNewest` are stated only when every date is valid.
  - The sort's stability is not stated.
- **Auth queries.** `getAllUsers`, `getActiveSessions` and the id generators of `auth.js` and `payment.js` are left out. They only copy data or draw ids, and ids are parameters.
- **Roles and permissions.** The role and permission maps of `auth.js` are modelled only as the key lists that `getStats` reports.
- **Getters.** `GetTheme`, `GetRefreshInterval`, `IsReady` and `IsLoggedIn` carry no contract of their own: each returns its field, and the setters' contracts state the fields.
- Dashboard.DashboardService.GetWidgets: the model returns the widget list as a value; the source returns the array itself (`multiples-commits.js:37-39`), so a caller that changes it changes the service's list. That aliasing is not modelled.
- Auth.UserAuth.Register, Payment.PaymentSystem.CreatePayment, Notifications.NotificationService.AddNotification, Dashboard.DashboardService.AddWidget: the source stores the object it returns (or, for `addWidget`, the object it is given) by reference, so a caller that changes it changes the service's state; for example, setting a returned payment's `status` back to `pending` lets `processPayment` accept it a second time and count it twice in the stats. The model stores and returns values, so that aliasing is not modelled.
- **Other files.** `scripts/gitflow-manager.js`, `scripts/setup-hooks.js`, `scripts/demo-workflow.js`, `config.js` and `release-config.js` are not part of this model. They only run fixed command sequences or hold constant data.
