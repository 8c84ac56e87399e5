# suparship: release, configuration and secret-routing laws

suparship turns an app and its environments into gitops files, Kargo resources
and ArgoCD Applications, and lets several server replicas drive promotions at
the same time. This project models the parts of it where a mistake is silent
and proves what they promise, in Dafny 4.11. `dafny verify dfyconfig.toml`
checks everything.

| file | what it models |
|---|---|
| `Reservation.dfy`, `PromotionName.dfy` | the compare-and-swap reservation of a promotion name on a Kargo Stage, as an interleaving of any number of calls, and the names themselves |
| `ReleasePipeline.dfy` | the promotion graph of an app and which environments a publish deploys at once |
| `GitTree.dfy`, `PromotionTemplate.dfy`, `Promotion.dfy` | a machine for promotion steps over a file tree, the builders that compile a Stage's template, and what every built program does |
| `ImageSources.dfy` | which images of a composed app the Warehouse and template are built from |
| `Components.dfy`, `Publishing.dfy`, `ReleaseRoundTrip.dfy` | what the publisher writes for an environment, and that a promotion then goes through |
| `Activation.dfy` | publishing a composed app and promoting it: exactly when that goes through and which Application each cluster is given |
| `Deployment.dfy` | what a cluster runs after a publish and after a promotion, down to the values each chart reads |
| `Isolation.dfy` | that publishes and promotions of one app leave the files of all others alone |
| `Republish.dfy` | publishing over promoted tags: which of them survive |
| `SwitchedClusters.dfy` | files published for other clusters than the template was built for |
| `PreparedRelease.dfy`, `MarkerRefinement.dfy`, `ComposedRefinement.dfy` | the pending and dormant markers as a state machine over runs, and the proof that the files above carry it |
| `ValueTree.dfy`, `ValueHeap.dfy` | `DeepMerge` as a law of trees, and as it runs on shared maps and slices |
| `ComponentVars.dfy` | component variables: app-wide, per environment, preview band |
| `Policies.dfy`, `AutoPromotion.dfy` | the promotion-policy list all apps of a project share, and which stages a publish has promoted automatically |
| `ClusterTargets.dfy` | which clusters an app reaches and which its project authorises |
| `VaultStore.dfy` | the secret store that picks its backend for every call |
| `SecretItems.dfy` | the precedence list of vault items and its two readings |
| `Sanitize.dfy` | the name sanitizers |
| `Wrappers.dfy`, `Lex.dfy`, `Sorting.dfy`, `FirstSeen.dfy` | `Option`, string order, sorting and first-occurrence lists used by the rest |

## How the model stands to the code

Code that changes things step by step is imperative here too. `StageObject`,
`Clone`, `Remote`, `SyncPolicy`, `GitFiles`, `ProjectConfig`,
`DynamicVaultStore`, `GoMap` and `GoSlice` are classes with the fields the code
updates. Loops are methods with invariants, each proved equal to a
specification function; the laws are lemmas about those functions and about
runs, and what each of them yields is said once more in terms of the inputs'
own fields. `sort.Slice` is not stable, so a sorted list is only known to be a sorted
permutation, and where the code's result does not depend on the choice that is
proved.

Strings are compared character by character, which for the ASCII names there are
is how Go compares bytes; the sanitizers, which accept any text, are modelled over
characters and their UTF-8 bytes, with Unicode's tables as a parameter. A path in
the gitops tree is the list of its segments. A YAML document is the map of the
dotted keys of its values, none of which lies below another, so setting a key
removes what was below it; a rendered Application is one value. The machine takes Kargo's
steps as follows: `yaml-update` needs the file to be there and the Freight to
carry the repository, `copy` needs its source, a failed step ends the promotion
before anything is pushed. Rendered values, cluster and organisation records,
tokens, ULIDs, clocks and the outcome of building a client are parameters.

## What does not hold as stated

Each of these is proved, by an input where the plain claim fails, by the exact
condition under which it holds, or by both.

* A stored reservation whose own name does not sort after its predecessor can
  be replaced for the same predecessor. No call ever writes one
  (`OverwriteRaisesPredecessor`).
* Two images of one values file under one tag key, or under keys of which one lies
  below the other: the later one's tag wins. Every tag is carried exactly when no
  two images share a key and differ in tag and no key lies below another
  (`EveryTagCarried`); image by image, exactly when the last one that touches its
  key has that key and that tag (`TagLostExactly`). The publisher hands the
  builders two repositories under one key exactly when a component of a composed
  app has two explicit repositories under a key that was not found in its values
  (`ConflictExactly`, with the input in `SharedKeyLosesTag`).
* A template is built for the clusters of the last full publish; publishing,
  preparing or validating one environment resolves them again. A single-source
  promotion then goes through exactly when the files were published for every
  cluster of the template and every values file it edits is there
  (`SingleGoesThroughExactly`), a composed one exactly when the files are laid
  out for it and every Application it activates is kept by this publish or an
  earlier one (`ComposedGoesThroughExactly`). After a switch of the active cluster
  a composed promotion puts the old Applications back on the old cluster, leaves
  the new one held back and clears the marker (`SwitchedCluster`).
* Even with one list, an environment without resolved clusters is published under
  its own cluster reference but promoted as `in-cluster`
  (`SingleSourceNeedsSameCluster`, `WithoutClusters`, `StaleIsActivated`).
* The activated Applications of cluster `east` with component `db` and of
  cluster `east-db` are kept in one file. A promotion gives every cluster its own
  Applications exactly when the template reaches all clusters published for and no
  two Applications share such a name (`SwitchedClusters.RestoresExactly`,
  `ActivatesWhatWasRendered`, `NamesThatClash`).
* Ending an ephemeral validation removes the Applications but not the copies kept
  for promotions. A dormant environment stays empty exactly when no composed
  promotion comes that finds its copies (`DormantStaysEmptyExactly`); after a
  validation that was started and ended one does, clears the marker and brings
  every Application back (`DormantIsReactivated`, `DormantComesBack`).
* A republish keeps promoted tags exactly when the app is managed and unpinned,
  every image's key is one the publisher reads back, and every cluster's values
  file keeps its place, or holds the same tag by chance (`PromotedTagsSurvive`).
  The place changes between one cluster and several. An image found in a
  component's template without a stored selection is promoted and then reset
  (`FoundImageLosesTag`). A single-source app never removes values, so moving to
  one cluster and back brings the old tags back (`OldTagReturns`).
* A pending release is meant to have no input that syncs by itself. A step
  breaks this exactly when it makes the release pending without rewriting a tree
  that has running inputs, and a run exactly when one of its steps does
  (`StepInertExactly`, `RunInertExactly`). A change of tree and a validation
  started on an unbound environment are such steps (`RunningInputsLeft`).
* A legacy promotion name never blocks a native one of a stage of at most 218
  characters. A longer stage is cut there, and unless the first character cut
  off is a dot itself the legacy name blocks exactly when that character sorts
  after the dot, as letters and digits do (`LegacyHistory`).
* Three value layers do not always associate; the entries lost are
  characterised (`Associativity`, with an input in `GroupingMatters`).
* The scan for curated secrets is exact over all environment names but for a
  band that curates only when it is layered twice, as for a base environment
  itself called `preview` (`ScanExactly`). That is exactly when the last entries
  of its names, or app-wide ones it does not name, select a secret
  (`PreviewOfBandCurates`); it takes a repeated name (`ScanExactWithoutRepeats`),
  and one input shows it (`RepeatedNameEscapesScan`).
* The policy list is the union of each app's latest exactly when no later
  publish of another app claims one of its stages (`SurvivorsAreLatest`,
  `AliasedNames`).
* A backend type the vault store does not know falls through to Kubernetes with
  no error (`KubernetesOnlyWhenSelected`), and a client shares its cache key with
  another exactly when one of its fields has a NUL character
  (`KeySharedExactly`).
* Two slots of the secret precedence list can be one and the same item. Two of a
  kind are exactly when the environment is called `preview`, or `preview-` and
  the preview's name (`OneKindCoincides`, `PreviewBandIsSeparate`); a shared item
  and an app's own are exactly when the owner's part of the name spells `shared-`
  and what the suffixes differ by (`TwoKindsCoincide`, `ItemsCoincideExactly`), as
  for project `shared` with app `project-shared` (`SharedProjectClashes`).
* Putting the project in front of an app item's name keeps apps of one name apart
  (`ProjectSeparates`), but not apps of different projects between whose two names
  a hyphen moves: which apps and environments read one item in a slot is exactly
  known (`SharedExactly`), and `MovedHyphenShares` has the input.
* The sanitizers keep Unicode's letters and digits and cut bytes. The result has
  label form exactly when every letter and digit that is not cut off is ASCII,
  and is a DNS label exactly when it also is not a single letter
  (`CanonicalExactly`, `LabelExactly`, `OtherLettersStay`).

Code and comments disagree in two places, and the model follows the code: the
field comment on `KargoBuildOptions.Images` says `applyKargoDefaults` adds a
placeholder image, which it does not; and the pending file is a YAML boolean
while `app.yaml` carries the text "false" (here both are the text).

## Model

| member | source | states |
|---|---|---|
| Reservation.StepKeepsInv | internal/kube/promotion_name.go:38-85 | one step of any call, of Kargo or of another controller keeps the invariant: the history of stored reservations is sound with strictly rising predecessors and ends in what the Stage holds, and every pending write may only replace a smaller predecessor |
| Reservation.OverwriteRaisesPredecessor | internal/kube/promotion_name.go:54-79 | in every interleaving a step that changes the annotation stores a name that sorts after its predecessor, never replaces an unreadable one, and strictly raises the predecessor, except for the one kind of stored value no call writes |
| Reservation.OneNamePerPredecessor | internal/kube/promotion_name.go:34-37 | between any two moments of a run the stored predecessor never falls, and if it is the same the stored name is the same |
| Reservation.CallsAgree | internal/kube/promotion_name.go:34-66 | calls that return at any two moments with the same effective predecessor return the same name |
| Reservation.ReturnedNameIsNewest | internal/kube/promotion_name.go:50-70 | a returned name sorts after the argument and after the last promotion the call observed |
| Reservation.ReservationSurvives | internal/kube/promotion_name.go:36-66 | whoever comes later for a reserved predecessor, after any crash or lost reply, gets that name or is told to wait; nobody proposes a second one |
| Reservation.EffectivePredecessor | internal/kube/promotion_name.go:45-52 | while Kargo only moves forward, the predecessor a call ends with, across retries, is the larger of its argument and the last promotion it observed last |
| Reservation.UpdatesAreForeign | internal/kube/promotion_name.go:82-83 | every write of another replica is one of the disturbances the imperative call is proved against |
| Reservation.StageObject.Update | internal/kube/promotion_name.go:82-83 | an update takes effect exactly when the version is the one that was read, and otherwise changes nothing |
| Reservation.StageObject.ReservePromotionName | internal/kube/promotion_name.go:38-85 | the retry loop, against any disturbances: a success is in the Stage's history under a predecessor no smaller than the argument, sorts after it and is what the Stage then holds; busy means the Stage holds a later predecessor; a conflict means all five attempts were disturbed; and a call whose first attempt nobody disturbs returns a held name newer than its predecessor, is busy exactly when the held predecessor is later than the larger of argument and last promotion, and otherwise stores and returns its own name for that predecessor, if it is newer |
| Reservation.StageObject.TryReserve | internal/kube/promotion_name.go:40-83 | one attempt does that for the predecessor carried over from the attempts before, and only a conflicting write leaves it without an answer |
| Reservation.AttemptIsAnswered | internal/kube/promotion_name.go:41-82 | what an attempt of a run comes to is the answer of a call nobody disturbs, so the runs and the method are about one thing |
| Reservation.BusyExactly | internal/kube/promotion_name.go:62-65 | in every interleaving a call is told to wait exactly when one of its attempts read a reservation for a later predecessor than the call and the Stage knew; whoever knows the newest promotion never is |
| Reservation.NewPromotionGetsItsName | internal/kube/promotion_name.go:67-84 | a call that finds nothing, a reservation for an earlier predecessor or one for its own that is not newer, and whose name is newer than its predecessor and the last promotion, goes on to write it; if the write comes in time it returns that name, whoever else is running |
| Reservation.ConflictExactly | internal/kube/promotion_name.go:40-40 | a call gives up on conflicts at its fifth stale write, neither before nor after |
| PromotionName.LengthLimit | internal/kube/promotion_name.go:22-32 | a name has at most 253 characters, reached exactly when the stage has 218 and the Freight ID 7 |
| PromotionName.NameParts | internal/kube/promotion_name.go:24-32 | where the lower-cased stage, ULID and Freight prefix lie in a name, character by character |
| PromotionName.LowerKeepsOrder | internal/kube/promotion_name.go:31-31 | lower-casing keeps the order of ULID characters, both ways |
| PromotionName.LaterUlidLaterName | internal/kube/promotion_name.go:24-32 | for one stage a larger ULID gives a strictly larger name, whatever the Freight IDs |
| PromotionName.NativeHistoryNeverBlocks | internal/kube/promotion_name.go:67-70 | a history of native names never makes a later native name unacceptable |
| PromotionName.LegacyHistory | internal/kube/promotion_name.go:22-70 | nor does a legacy name made of the stage, a hyphen and a timestamp, for a stage of at most 218 characters; for a longer one it blocks exactly when the part cut off and that suffix do not sort before the native tail, which the first character cut off decides unless it is a dot |
| ReleasePipeline.ReleasePipeline | internal/domain/release_pipeline.go:11-61 | the filter, the sort, the validation checks and the source loop give, for distinct names and from the environments' own orders, names and kinds: the error that applies, or for every enabled stable environment its source, which is the nearest earlier one in line, or the validator if there is none, and empty for the validator and for the base, the one of least order and then least name |
| ReleasePipeline.OutcomeFits | internal/domain/release_pipeline.go:22-61 | that holds of the outcome for whatever sorted arrangement the sort picks, if names are distinct and not empty |
| ReleasePipeline.SourcesAreFit | internal/domain/release_pipeline.go:48-59 | in particular every source that is not empty is the validator or an enabled environment of smaller order, or of the same order and smaller name, with nothing of the line in between |
| ReleasePipeline.ChosenAreSorted | internal/domain/release_pipeline.go:12-27 | the sorted list is the enabled stable environments, by order and then name, so its head is the base |
| ReleasePipeline.AcceptedExactly | internal/domain/release_pipeline.go:30-47 | a validator is accepted exactly for a pipeline app with at least three enabled environments in which it is a non-production one other than the base |
| ReleasePipeline.PipelineShape | internal/domain/release_pipeline.go:48-59 | the source map covers exactly the enabled environments, and links one line that holds every name (without validation) or the validator and every name but the base's |
| ReleasePipeline.Acyclic | internal/domain/release_pipeline.go:48-59 | no environment is, directly or through others, its own source |
| ReleasePipeline.PlainRoots | internal/domain/release_pipeline.go:48-59 | without validation the base is the only root and everything descends from it |
| ReleasePipeline.ValidatedRoots | internal/domain/release_pipeline.go:8-10 | with validation the roots are the base and the validator, the base feeds nobody, and every other environment descends from the validator |
| ReleasePipeline.NoBranching | internal/domain/release_pipeline.go:48-59 | no environment feeds two others |
| ReleasePipeline.OrderIrrelevant | internal/domain/release_pipeline.go:22-27 | with distinct names, permuting the input changes nothing, success or error, whatever the unstable sort does |
| ReleasePipeline.FirstDeployEnvs | internal/gitops/publisher.go:514-541 | previews in input order, then of the bound stable environments one of least order and among those of least name, if there is any |
| ReleasePipeline.ReleaseRootDeployEnvs | internal/gitops/release_pipeline.go:5-27 | without validation the first-deploy set; with it the previews and, of the bound and enabled, the one of least order and name and the validator, in input order, or the graph's error |
| ReleasePipeline.RootsAreBaseAndValidator | internal/gitops/release_pipeline.go:20-26 | so an environment is deployed at once exactly when it is a preview, or bound, enabled and the first by order and name or the validator |
| GitTree.CloneEditPush | internal/gitops/kargo.go:410-444 | a program that clones, edits, commits, pushes and syncs pushes exactly the edited tree as one commit and syncs, or pushes nothing and syncs nothing |
| GitTree.IndependentEdits | internal/gitops/prepared_release.go:57-91 | edits of which no two write one file differently and none reads what another writes go through exactly when each would alone, and leave what each would leave |
| Components.StatefulComponents | internal/domain/app.go:842-850 | the components marked stateful that have a template, in name order |
| Components.OneOrder | internal/domain/app.go:833-837 | with distinct names the name-sorted view is unique |
| PromotionTemplate.BuildKargoWarehouse | internal/gitops/kargo.go:245-292 | every image repository has exactly one subscription, taken from the first image that uses it |
| PromotionTemplate.GroupByOwner | internal/gitops/kargo.go:475-483 | images grouped by owning component, each group complete and in order, components in the order first met |
| PromotionTemplate.BuildPromotionTemplate | internal/gitops/kargo.go:393-462 | the template of a single-source app is the specified program, fanned out over several clusters, or none without a repository |
| PromotionTemplate.BuildComposedPromotionTemplate | internal/gitops/kargo.go:470-555 | the template of a composed app is the specified program: one values file for each component and cluster, then the activation, commit, push and sync |
| PromotionTemplate.ActivatePreparedRelease | internal/gitops/prepared_release.go:57-91 | the marker update and every cluster's activation are put in front of each commit and nothing else moves |
| PromotionTemplate.ReleaseArgoUpdateApps | internal/gitops/prepared_release.go:94-110 | for every cluster the shared Application, unless all components are stateful, and one for each stateful component |
| Promotion.OneFileEach | internal/gitops/kargo.go:498-503 | the edits of a template that serve different purposes write different files, for any names |
| Promotion.OneCommitOrNone | internal/gitops/kargo.go:393-555 | for every starting tree and Freight a built template pushes exactly one commit, in which every values file holds the last image's tag for each tag key and is otherwise unchanged, the pending marker is cleared, every app.yaml or Application is activated and every other file untouched; or it pushes and syncs nothing; it goes through exactly when the Freight carries every image and every file read is there |
| Promotion.EveryTagCarried | internal/gitops/kargo.go:401-407 | the pushed commit carries every image's tag in every cluster's file of that image exactly when no two images of a file share a key and differ in tag and no key of a file lies below another |
| Promotion.MarkerClearedWithTags | internal/gitops/prepared_release.go:16-17 | every pushed tree has the marker cleared, and carries every tag exactly in that case |
| Promotion.TagLostExactly | internal/gitops/kargo.go:401-407 | image by image: the pushed file carries its tag exactly when the last image of that file that touches its key has that key and the same tag |
| Promotion.WarehouseSuffices | internal/gitops/kargo.go:249-255 | with Freight of the deduplicated Warehouse only a missing file can stop the promotion |
| ImageSources.CollectComponentImages | internal/gitops/publisher.go:2276-2307 | the loops collect, component by component, the images found and then the explicit repositories whose key was not found, with the default pattern and strategy |
| ImageSources.CollectedExactly | internal/gitops/publisher.go:2276-2307 | an image is collected exactly when it was found for a component or is a selection of one with an explicit repository and a key no found image has, with that selection's own tag pattern and strategy or the default ones |
| ImageSources.ConflictExactly | internal/gitops/publisher.go:2276-2307 | two images of one component under one key with different repositories are collected exactly when the component has two explicit repositories under a key that was not found |
| ImageSources.NoConflictCarriesAll | internal/gitops/publisher.go:2269-2275 | without such a component a promotion of a composed app carries every tag exactly when no key of a file lies below another |
| ImageSources.SharedKeyLosesTag | internal/gitops/publisher.go:2289-2304 | with one, in an app of two components, the promotion goes through and the first repository's tag is in no file |
| Publishing.BuildComposedApplication | internal/gitops/composed.go:70-140 | the shared Application of a cluster: besides the values reference it has exactly a chart for each component that is not stateful, named after app and component and reading the file that component's values are published to, and it prunes and heals if it syncs by itself |
| Publishing.WriteEnv | internal/gitops/publisher.go:1104-1316 | writing an environment leaves exactly the specified writes over the pruned tree: inputs and component values of the app go, the state file, every cluster's values and, held back or not, every Application or app.yaml come |
| Publishing.OneHome | internal/gitops/composed.go:93-98 | in an app whose components all have templates each component is a chart source of exactly one rendered Application of a cluster |
| Publishing.NoPruningOfState | internal/gitops/composed.go:191-201 | no Application that prunes by itself holds a stateful component |
| Publishing.UnitsDistinct | internal/gitops/publisher.go:1279-1316 | with distinct component names a cluster gets no Application twice |
| Publishing.RenderedIsActivated | internal/gitops/prepared_release.go:71-78 | of the two builders: the units rendered and those activated are the same unless every component is stateful and one has no template, which validation rejects; so for what is published they agree |
| Publishing.SyncedAreRendered | internal/gitops/prepared_release.go:93-110 | the promotion syncs, in order, the names of exactly the Applications rendered |
| ReleaseRoundTrip.ValuesAreOwn | internal/gitops/publisher.go:1177-1265 | whatever else a publish writes, each cluster's values file of each component holds that component's values for that cluster |
| ReleaseRoundTrip.OnlyRenderedRemain | internal/gitops/publisher.go:1104-1106 | every Application of the app left in the tree is one rendered by this publish, so a de-selected cluster or removed component has none |
| Deployment.ChartsReadTheirValues | internal/gitops/composed.go:98-112 | every chart of every Application rendered for a cluster, shared or of a stateful component, reads a file the same publish wrote, finds its component's values for that cluster there, and is released under the app's name, a hyphen and the component's |
| Deployment.SyncsByItselfExactly | internal/gitops/composed.go:114-122 | an Application that ArgoCD finds syncs by itself exactly when the organisation wants it and nothing is prepared, heals, prunes exactly when it is the shared one, and goes to the cluster of its directory |
| Deployment.AppYamlHolds | internal/gitops/publisher.go:1702-1741 | a single-source app's app.yaml of a cluster holds its Application's name, the cluster, whether it is held back, and the path of a values file this publish wrote for that cluster with the app's values |
| Deployment.SyncedAreGenerated | internal/gitops/prepared_release.go:94-110 | a promotion of a single-source app syncs, cluster by cluster, the Application its app.yaml names |
| Isolation.OthersNeverTouch | internal/gitops/publisher.go:1037-1106 | over any sequence of publishes and promotions of other apps, or of the same app in other environments, every file an app has in an environment stays as it was |
| Isolation.PublishLeavesOthers | internal/gitops/publisher.go:1090-1106 | publishing an app, bound or not, dormant or not, changes and removes no file of another |
| Isolation.PromotionLeavesOthers | internal/gitops/kargo.go:446-520 | nor does promoting it, whether or not it goes through |
| SwitchedClusters.SingleGoesThroughExactly | internal/gitops/publisher.go:2534-2555 | for a template built for any other clusters, a single-source promotion goes through exactly when something was published for every cluster of the template and every values file it edits was written now or lies there as YAML |
| SwitchedClusters.ComposedGoesThroughExactly | internal/gitops/publisher.go:2534-2555 | and a composed one exactly when, unless there are no images, the template expects files only where they were written, and every Application it activates is kept by this publish or an earlier one |
| SwitchedClusters.RestoresExactly | internal/gitops/prepared_release.go:112-130 | promoting a prepared release gives every cluster published for exactly its own Applications if and only if the template reaches all of them and no two are kept in one file |
| SwitchedClusters.LeftHeldBack | internal/gitops/prepared_release.go:112-116 | a cluster published for that the template does not reach stays held back |
| SwitchedClusters.OldComesBack | internal/gitops/prepared_release.go:118-130 | a cluster of the template that nothing was published for is given the Application an earlier publish kept for it |
| SwitchedClusters.SwitchedCluster | cmd/suparship/server.go:1902-1925 | published for one cluster, then prepared for another: the promotion goes through, puts the old Applications back, leaves the new ones held back and clears the marker |
| ReleaseRoundTrip.PublishedIsReady | internal/gitops/publisher.go:1030-1049 | after a publish onto any tree, a promotion with Freight for every image and a template for the same clusters goes through if the two mean the same cluster |
| ReleaseRoundTrip.SingleSourceNeedsSameCluster | internal/gitops/publisher.go:1694-1707 | and, for a single-source app and a template for the same clusters, only then |
| Activation.GoesThroughExactly | internal/gitops/prepared_release.go:57-91 | the composed case of one list of clusters: a promotion goes through exactly when every Application it activates is kept by this publish or lies there from an earlier one |
| Activation.WithoutClusters | internal/gitops/publisher.go:1030-1035 | in particular, without resolved clusters: exactly when for each unit the file for "in-cluster" was there before or some unit rendered for the cluster reference has the same label |
| Activation.StaleIsActivated | internal/gitops/prepared_release.go:112-130 | if it then goes through without this publish having kept the file, "in-cluster" is given an Application from before, where this publish put none |
| Activation.ActivatesWhatWasRendered | internal/gitops/prepared_release.go:118-130 | publish, then promote, the two meaning the same cluster: every cluster gets back exactly the Application rendered for it, if and only if no two Applications share a kept file |
| Deployment.EveryClusterRuns | internal/gitops/composed.go:70-140 | publish and promote: every cluster has, in its own directory, an Application for it with a chart of every component whose values file carries the tag of every winning image of the component and, under every key no image touches, what was rendered for that cluster; it prunes exactly when the component is not stateful |
| Deployment.ValuesArePromoted | internal/gitops/kargo.go:490-520 | whatever clusters are meant, a promotion that goes through leaves that in every values file published |
| Activation.NamesThatClash | internal/gitops/publisher.go:1300-1303 | clusters "east" and "east-db" with a stateful component "db" do share one |
| ReleaseRoundTrip.PreparedPublishIsInert | internal/gitops/prepared_release.go:112-116 | after a prepared publish onto any tree no Application of the app that ArgoCD finds syncs by itself |
| Republish.PublishAppEnv | internal/gitops/publisher.go:1050-1265 | the tags are read back from every file before anything is removed, put over the rendering, and the pin put over those; an unbound environment is left alone and a dormant one loses its inputs |
| Republish.KeysSettledExactly | internal/gitops/publisher.go:1218-1239 | for any tree, managed or not: under a key of the component that no other of them is nested with a file holds the pin if there is one, else the tag that was there if the app is managed, else the rendering's value; under any other key that none of them is nested with the rendering's value |
| Republish.KeepsTagExactly | internal/gitops/publisher.go:1050-1075 | a tag that is neither the rendering's nor the pin is in a file after a republish exactly when the app is managed and unpinned, the key is one the publisher reads back and the file at the new place holds the tag |
| Republish.TagsWhereCommitted | internal/gitops/publisher.go:1039-1045 | after a publish and a promotion an image's tag is in its component's file at exactly the places of the clusters published for, if the image is the one its key ends up with |
| Republish.SingleTagsWhereCommitted | internal/gitops/publisher.go:1709-1727 | a single-source app's file at any other place holds what it held before both |
| Republish.PromotedTagsSurvive | internal/gitops/publisher.go:1203-1240 | publish, promote, republish for any clusters, for either kind of app and any keys: every promoted tag is in every file exactly when the app is managed and unpinned, every image's key is one the publisher reads back, for a component one of its own selections, and every file keeps its place and has the tag, or is one a single-source app left with the same tag |
| Republish.FoundImageLosesTag | cmd/suparship/server.go:926-945 | an image bound because the template declares it, for a component with no selection of its own, loses its promoted tag at the next publish |
| Republish.OldTagReturns | internal/gitops/publisher.go:1551-1557 | a single-source app promoted on several clusters, moved to one, promoted again and moved back has the tags of the first promotion |
| PreparedRelease.Clone.PromotionPending | internal/gitops/prepared_release.go:18-39 | an existing readable marker wins over the request, a missing or empty one records it, an unreadable one stops the publish unwritten |
| PreparedRelease.UnrecordedStaysAsItIs | internal/gitops/ephemeral_validation.go:17-32 | over any run of republishes, preparations and promotions an ephemeral environment without a dormancy record gets none and is never emptied if something is deployed; if nothing is, it stays unchanged exactly when no composed promotion comes that finds the Applications kept for it |
| PreparedRelease.Clone.RemoveValidationWorkloads | internal/gitops/ephemeral_validation.go:78-88 | clearing the three trees leaves no Application input |
| PreparedRelease.Clone.PublishEnvFiles | internal/gitops/publisher.go:1490-1526 | the whole new marker, dormancy, inputs and kept Applications of a publish to a stable or preview environment, or its error |
| PreparedRelease.PublishExactly | internal/gitops/publisher.go:1490-1526 | when a publish is refused, and otherwise what it leaves of both state files, of every input, written, removed or beside its tree, and of every Application kept |
| PreparedRelease.Remote.PrepareAppEnv | internal/gitops/prepared_release.go:42-48 | refuses an unbound environment, else publishes it prepared; nothing is pushed on an error |
| PreparedRelease.Remote.SetValidationWorkloads | internal/gitops/ephemeral_validation.go:51-76 | records the new dormancy and either arms the marker and publishes prepared or removes the inputs; nothing is pushed on an error |
| PreparedRelease.RepublishKeepsMarker | internal/gitops/prepared_release.go:16-17 | a republish never changes an existing marker, fails on an unreadable one it needs, and never changes recorded dormancy |
| PreparedRelease.ClearedOnlyByPromotion | internal/gitops/prepared_release.go:16-17 | over any run a pending release ends only at a promotion that went through |
| PreparedRelease.ActiveStaysActive | internal/gitops/ephemeral_validation.go:60-65 | over any run an active release is made pending again only by starting a validation |
| PreparedRelease.DormancyEndsPending | internal/gitops/ephemeral_validation.go:17-18 | over any run recorded dormancy ends only by starting a validation, which leaves the release pending and every input it wrote held back |
| PreparedRelease.DormantStaysEmptyExactly | internal/gitops/ephemeral_validation.go:78-88 | until a validation is started, a dormant environment has no input after any prefix of a run, and is not changed at all, exactly when no composed promotion comes that finds the Applications kept for it |
| PreparedRelease.DormantIsReactivated | internal/gitops/ephemeral_validation.go:51-76 | a validation of a composed app started and ended, then a promotion to its clusters: the marker is cleared and every Application is back and runs, with dormancy still recorded |
| PreparedRelease.KeptStays | internal/gitops/ephemeral_validation.go:78-88 | no publish, preparation, promotion or validation removes an Application kept for promotions |
| PreparedRelease.StepInertExactly | internal/gitops/prepared_release.go:41-48 | from a state in which a pending release has no running input under a base, a step leads to another such state exactly unless it makes the release pending, does not rewrite that base, and an input under it runs |
| PreparedRelease.RunInertExactly | internal/gitops/ephemeral_validation.go:51-76 | over any run that holds at every prefix exactly when no step is of that kind |
| PreparedRelease.RunKeepsInert | internal/gitops/prepared_release.go:41-48 | so over runs within one tree, starting validations only when bound, a pending release never has an input that syncs by itself |
| PreparedRelease.RunningInputsLeft | internal/gitops/publisher.go:1686-1692 | two such steps: preparing after the app moved to another tree, and starting a validation of an unbound environment |
| PreparedRelease.ValidationCycle | internal/gitops/ephemeral_validation.go:51-76 | start a validation, republish any number of times, promote: every input is held back until the promotion and runs after it, if Applications sync by themselves at all |
| PreparedRelease.WithPreparedApplications | internal/gitops/appset.go:795-812 | for a single git generator every app.yaml is picked up by exactly one of the two that result, without automated sync if it is pending and with the original policy if not; any other list is returned unchanged; the caller's generator is not written |
| MarkerRefinement.PromotionIsAStep | internal/gitops/prepared_release.go:57-91 | running a single-source template on the files is the promotion step of the marker state machine, and a run that stops changes neither |
| MarkerRefinement.PublishIsAStep | internal/gitops/publisher.go:1490-1743 | publishing a single-source app's files - skipped, emptied, rewritten or stopped by an unreadable marker or record - is the publish step of the marker state machine |
| ComposedRefinement.PublishIsAStep | internal/gitops/publisher.go:1104-1316 | so is publishing a composed app, its inputs being Applications, those without a policy to sync by themselves held back, together with those kept for promotions |
| ComposedRefinement.PromotionIsAStep | internal/gitops/prepared_release.go:57-91 | from any files, running a composed template is the promotion step, and a run that stops changes neither |
| ComposedRefinement.DormantComesBack | internal/gitops/ephemeral_validation.go:78-88 | after a publish and the removal of all inputs every Application the template activates is absent, a promotion goes through, clears the marker and puts every one back with its policy |
| ValueTree.MergeAt | internal/helmvalues/merge.go:3-24 | path by path: a leaf of the overlay hides all below it, what the overlay shows wins, the rest is the base's |
| ValueTree.Extensional | internal/helmvalues/merge.go:3-24 | what a value shows at its paths is all there is to it, so the path law determines the merge |
| ValueTree.EmptyIsIdentity | internal/helmvalues/merge.go:11-13 | the empty map is an identity on both sides |
| ValueTree.Absorbing | internal/helmvalues/merge.go:10-24 | merging the same overlay twice is merging it once |
| ValueTree.Idempotent | internal/helmvalues/merge.go:10-24 | merging a value with itself changes nothing |
| ValueTree.Associativity | internal/helmvalues/merge.go:10-24 | the two groupings of three layers agree exactly when no path of the lowest is cut by a leaf of the middle that the top turns back into a map without mentioning the path |
| ValueTree.LossNeedsMapLeafMap | internal/helmvalues/merge.go:15-20 | so they agree whenever no path has maps in the outer layers and a leaf in the middle one |
| ValueHeap.DeepMerge | internal/helmvalues/merge.go:10-24 | merges into the base's own objects, gives the merged value, shares with the overlay only, leaves the overlay as it was, and accepts nil on either side |
| ValueHeap.MergeInto | internal/helmvalues/merge.go:14-22 | an entry only the overlay has is the overlay's own subtree, not a copy |
| ValueHeap.DeepCopyMap | internal/helmvalues/merge.go:28-37 | the same value, made of new maps and slices only, also when one object occurs in several places |
| ValueHeap.DeepCopyRoot | internal/helmvalues/merge.go:28-31 | nil is copied to nil, any other root to new objects |
| ValueHeap.NodesInFeet | internal/helmvalues/merge.go:39-52 | the footprint names every map and slice of a tree, so disjoint footprints share nothing |
| ValueHeap.ComputePlatformOverlays | cmd/suparship/server.go:856-877 | default, environment and cluster overlays have the merged values, are made of new objects, share nothing with each other or with what is stored, and nothing stored is written |
| ComponentVars.MergeComponentEnvVars | internal/domain/app.go:308-334 | base entries in order with the override's definition where it has one, then each new name once |
| ComponentVars.MergeMeans | internal/domain/app.go:305-307 | for lists without duplicates a name means the override's entry, else the base's, else nothing |
| ComponentVars.AppForPreviewComponentEnvVars | internal/domain/app.go:375-394 | a preview's components are the base environment's with the band on top |
| ComponentVars.PreviewPrecedence | internal/domain/app.go:369-374 | a preview's variable is the band's entry, else the base environment's, else the app-wide one, and likewise the posture |
| ComponentVars.PreviewOrder | internal/domain/app.go:305-307 | app-wide order first, then the environment's new names, then the band's |
| ComponentVars.CuratesSecrets | internal/domain/app.go:428-466 | the scan of listed overrides answers true exactly when some environment other than the reserved name, listed or not, has a stable or preview view in which a non-inheriting component selects a secret key; over all names some view does exactly when the scan says so or the band curates when layered twice |
| ComponentVars.PreviewOfBandCurates | internal/domain/app.go:375-394 | layered twice, the band curates exactly when a component it makes opt out has a secret among the last entries of the band's names or among app-wide entries the band does not name |
| ComponentVars.ScanExactly | internal/domain/app.go:428-466 | over all environment names there are the scan misses nothing but that |
| ComponentVars.ScanExactWithoutRepeats | internal/domain/app.go:455-463 | and nothing at all if the band repeats no name |
| ComponentVars.RepeatedNameEscapesScan | internal/domain/app.go:455-463 | an input it misses: a band with a repeated name, layered twice for a base of the reserved name |
| Policies.BuildKargoPromotionPolicies | internal/gitops/kargo.go:645-658 | one policy for each environment; automatic exactly for a first stage that is not pinned |
| Policies.MergeKargoPromotionPolicies | internal/gitops/kargo.go:694-706 | the policies the app does not claim and its new ones, sorted by stage |
| Policies.MergedCounts | internal/gitops/kargo.go:694-706 | every policy whose stage does not start with the app's name and a hyphen is kept as often as it was, and of the others only the new ones are there |
| Policies.ProjectConfig.Teardown | internal/gitops/publisher.go:2603-2618 | drops what the app claims and keeps the file as it is when that is nothing |
| Policies.ListIsSurvivors | internal/gitops/kargo.go:683-693 | after any sequence of publishes and teardowns the list holds, with multiplicity, exactly the policies no later operation claims |
| Policies.SurvivorsExactly | internal/gitops/kargo.go:694-706 | a policy is still listed exactly when some operation published it and no later one was for an app whose name and a hyphen its stage starts with |
| Policies.SurvivorsAreLatest | internal/gitops/kargo.go:690-693 | that is the union of each app's latest policies exactly when no later publish of another app claims one of them |
| Policies.InterleavingDoesNotMatter | internal/gitops/kargo.go:683-706 | without aliasing, two runs in which every app's last publish is the same end in the identical list |
| Policies.LastWordOnAStage | internal/gitops/kargo.go:649-655 | without aliasing the list says of a stage exactly what its app's last publish said, so one last published as pinned or not first is never promoted automatically |
| Policies.AliasedNames | internal/gitops/kargo.go:690-693 | apps "a" and "a-b": publishing the first drops the second's policy |
| AutoPromotion.PublishKargoPolicies | internal/gitops/publisher.go:2391-2461 | from the environments to the list: of the stages that carry the app's name it has exactly one for every bound, enabled, stable environment, automatic as below, and all others as they were, sorted; or the graph's error |
| AutoPromotion.AutomaticExactly | internal/gitops/publisher.go:2391-2461 | such a stage is promoted unasked exactly when it is not pinned and its environment is the first of the bound and enabled by order and name, or the validator and not ephemeral |
| ClusterTargets.ResolveEnv | cmd/suparship/server.go:1114-1147 | the default and the full target list: exactly the references, all or the active one, that are registered with an API server, each with its own registered server and domain, in the order of the references |
| ClusterTargets.ResolveAppClusterTargets | internal/domain/app.go:588-610 | no selection gives the default, "*" everything, a list its members among the environment's clusters; always without repeats |
| ClusterTargets.SelectClusterTargets | cmd/suparship/server.go:1187-1199 | picks from the pool one target for each wanted name the pool knows |
| ClusterTargets.AppClusterTargets | cmd/suparship/server.go:1160-1173 | the targets stay among the infrastructure clusters exactly when there is no full set, the selection picks something, or the default is within the full set |
| ClusterTargets.SavedStaysAuthorized | internal/rbac/model.go:401-414 | in an organisation as it is validated on every read and write, with the active cluster among the references, no selection leaves the authorised clusters |
| ClusterTargets.AuthorizedExactly | cmd/suparship/server.go:1396-1414 | without that check, in terms of the configuration: an app leaves them exactly when the environment's active cluster is registered but not a reference, some reference is registered, and the app selects none of those |
| ClusterTargets.DefaultInsideIsEnough | internal/rbac/model.go:140-152 | with the default targets among the references no selection leaves the authorised clusters |
| ClusterTargets.BuildArgoAppProject | internal/gitops/appproject.go:122-165 | fills namespaces, drops repeats and sorts; a single default destination for an empty list |
| ClusterTargets.OnlyTheSetMatters | internal/gitops/appproject.go:132-138 | reordering or repeating a non-empty list gives the identical project, with every destination in it once |
| VaultStore.DynamicVaultStore.ResolveStore | cmd/suparship/vault_dynamic.go:71-98 | the store, the reason and the caches the configuration, tokens and cache call for |
| VaultStore.DynamicVaultStore.Mutate | cmd/suparship/vault_dynamic.go:185-268 | a mutation is refused on a problem, or if it migrates items and the store cannot, and otherwise reaches exactly the resolved store with all it carries, which is the one this call's own configuration and token ask for |
| VaultStore.DynamicVaultStore.Read | cmd/suparship/vault_dynamic.go:216-218 | a read goes to the resolved store, the Kubernetes fallback included |
| VaultStore.DynamicVaultStore.Probe | cmd/suparship/vault_dynamic.go:222-228 | a probe reports a problem and never tests the fallback |
| VaultStore.KeyIsInjective | cmd/suparship/vault_dynamic.go:162-164 | without NUL characters equal cache keys mean equal token and configuration |
| VaultStore.KeySharedExactly | cmd/suparship/vault_dynamic.go:162-164 | and a client shares its key with some other one exactly when one of its fields has a NUL character |
| VaultStore.RefusedExactly | cmd/suparship/vault_dynamic.go:121-179 | a call is refused exactly when nothing is selected or its client is neither cached nor buildable |
| VaultStore.RunsFailClosed | cmd/suparship/vault_dynamic.go:61-70 | over any run of switches, token changes, edits and failed builds a mutation reaches Kubernetes exactly when no organisation is wired or the backend type names neither 1Password nor Vault; otherwise the store built from what that call read, or nothing |
| VaultStore.LandsExactly | cmd/suparship/vault_dynamic.go:71-179 | over any run, where a mutation lands, from what it reads and what landed before: in Vault exactly under this call's own token, address, namespace and CA and its configured mount without the space around it, "suparship" if that is empty, in 1Password under its own token, and only if the client can be built or is the one the latest such call used; in Kubernetes exactly without an organisation or with another backend |
| VaultStore.KubernetesOnlyWhenSelected | cmd/suparship/vault_dynamic.go:95-97 | that Kubernetes is then the effective backend holds exactly for the known backend types |
| VaultStore.UnknownBackendWritesToKubernetes | cmd/suparship/vault_dynamic.go:95-97 | a misspelt Vault writes to Kubernetes without an error |
| SecretItems.BuildScopeItems | internal/gitops/eso_publisher.go:476-550 | every slot that is present and in scope exactly once, with its own key, store and key list, strictly ordered by band and then tier |
| SecretItems.OneList | internal/gitops/eso_publisher.go:473-475 | the parameters determine the list |
| SecretItems.FollowsPrecedence | internal/gitops/eso_publisher.go:490-549 | the list follows the one precedence of global, environment, cluster, preview and this preview, in each shared, project, stack and app, and has of it what is present and whose project, stack, cluster or preview the parameters name |
| SecretItems.BuildAppExternalSecret | internal/gitops/eso_publisher.go:420-441 | every item's reference in precedence order; nothing exactly when no slot is emitted |
| SecretItems.BuildComponentExternalSecret | internal/gitops/eso_publisher.go:558-595 | a requested key is emitted exactly when some item holds it, from the last item that does, targets strictly sorted; nothing when no key is held |
| SecretItems.ProjectionMatchesMerge | internal/gitops/eso_publisher.go:552-557 | a projected key reads the item whose value survives the later-overwrites-earlier merge, and the app secret has a key exactly when the projection resolves it |
| SecretItems.ComponentReadsAppSecret | internal/gitops/eso_publisher.go:552-595 | so a component is given exactly the requested keys the app secret has, each with the value it has there |
| SecretItems.MoreSpecificWins | internal/gitops/eso_publisher.go:409-414 | the holder in the latest band, and the latest tier of it, decides both |
| SecretItems.OneKindCoincides | internal/gitops/eso_publisher.go:476-550 | two different shared slots, or two of the app's own, refer to one item exactly when an environment's name repeats a preview band's; no other two do, in any backend |
| SecretItems.TwoKindsCoincide | internal/secrets/naming.go:32-60 | a shared slot and one of the app's own do exactly when they share a vault and the owner's part of the name spells what the two names differ by |
| SecretItems.ItemsCoincideExactly | internal/gitops/eso_publisher.go:476-550 | so two entries of the list are one item exactly in one of these two ways |
| SecretItems.SharedProjectClashes | internal/secrets/naming.go:32-60 | for example project "shared" with an app "project-shared" |
| SecretItems.PreviewBandIsSeparate | internal/secrets/naming.go:55-60 | an environment's own item and its preview band's are one exactly when it is called "preview", and that of one preview exactly when it is called "preview-" and the preview's name |
| SecretItems.SharedExactly | internal/secrets/naming.go:25-98 | two apps, or one app in two environments, read one item in a slot exactly when the item is named for the same and, outside the global band and 1Password, lies in the same environment |
| SecretItems.ProjectSeparates | internal/secrets/naming.go:63-81 | apps of one name in different projects never share an item of their own |
| SecretItems.MovedHyphenShares | internal/secrets/naming.go:76-81 | but apps "b-c" of project "a" and "c" of project "a-b" share all of theirs |
| Sanitize.SanitizePreviewName | internal/domain/validate.go:310-344 | for any text: the words of the lower-cased input joined by hyphens, as bytes, prefixed "pr-" if they start with a digit, cut to 63; "preview" if there are none; of label form exactly when what is not cut off is ASCII |
| Sanitize.SanitizeAppName | internal/domain/validate.go:376-408 | the same with "app-" and "app" |
| Sanitize.CollapseIsWords | internal/domain/validate.go:313-324 | the loop with its flag keeps exactly the joined words, with a hyphen left at either end |
| Sanitize.NothingLost | internal/domain/validate.go:310-344 | the joined words have every letter and digit of the lower-cased input in order; the result is all of their bytes, with the prefix before a digit, or the first 63 but for a hyphen at the end; only an input without a letter or digit is given the fallback |
| Sanitize.CanonicalExactly | internal/domain/validate.go:302-309 | the result has at most 63 label characters, starts with a letter, ends in none but a letter or digit and has no two hyphens together, exactly when every letter and digit whose first byte is not cut off is ASCII |
| Sanitize.Idempotent | internal/domain/validate.go:310-344 | then sanitizing twice is sanitizing once, and the names left alone are exactly those of that form |
| Sanitize.UncutIsFixed | internal/domain/validate.go:310-344 | and whatever its letters, a result that is not cut is left alone by a second pass |
| Sanitize.LabelExactly | internal/domain/validate.go:18-24 | the result is a DNS label exactly when that holds and it is not a single character |
| Sanitize.OtherLettersStay | internal/domain/validate.go:316-319 | a letter outside ASCII is kept, and its name is no label |
| Sanitize.OneLetterExactly | internal/domain/validate.go:306-309 | which happens exactly for an input whose only word is one ASCII letter |

## Left out

* HTTP handlers, commands, loggers, real Kubernetes, ArgoCD, Kargo, Vault and 1Password clients, git itself and the file system: plumbing around what is modelled.
* YAML and JSON text, labels, branding and messages: structured values only.
* Sanitize.Idempotent: of results that are of label form; Sanitize.UncutIsFixed has those that are not cut. A result whose last character was cut in the middle is no text.
* Isolation.OthersNeverTouch: for projects not called `_clusters`, the directory of the clusters' values; no DNS label is. It has the files of values, inputs and release state; config maps and secret projections are left out throughout.
* Names with slashes: paths are lists of segments here. The names of environments are only checked to be non-empty and distinct, so one with a slash, or one that is another's with ".yaml" appended, can collide in the real tree.
* Kargo's own treatment of a key missing from a file `yaml-update` edits: here the key is set.
* Republish.PublishAppEnv: does not model rendering values, interpolation or the suspend toggle; the rendering is a parameter. A single-source app's tags are read back while its files are written and not before; with distinct clusters that is the same.
* MarkerRefinement.PublishIsAStep: for stable environments; the flat file of a preview environment is an input of PreparedRelease only.
* Policies.ProjectConfig.Teardown: does not model removing the Warehouse and Stage files.
* ValueHeap.DeepMerge: not for a base and an overlay that already share a map or slice; the result then depends on Go's map iteration order, and every caller passes copies.
* ValueHeap.MergeInto: the same.
* VaultStore.DynamicVaultStore.Mutate: does not model locking; each call resolves and acts as one step. What the store does with the mutation is its own.
* The Stage object's verification settings and requested Freight, the root Applications and the platform ApplicationSets: copies of options without a local law.
* Concurrent publishers racing on one clone: pushes are one step each.
* RBAC wrappers, seed data, diagnostics and the user interface: lookups and copies.
