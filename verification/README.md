# A verified model of the Hossted operator's reconcile loop

The operator watches one custom resource, `Hosstedproject`. Each reconcile reads the resource from a
cache, gives the cluster a UUID if it has none, collects the Helm releases of every namespace that is
not denied (minting or re-using a UUID for each), possibly announces a DNS name and upgrades the
declared charts to it, compares the collected revisions with the recorded ones, reports the
applications to the Hossted API and writes the record back. Any of these calls can fail, and a failure
throws the in-memory copy away.

## How it is modelled

- `World.dfy` is everything outside: the history of persisted versions of the resource, the Helm
  releases, a log of what was sent, and an arbitrary `Environment` that decides at every call whether
  the request is delivered, lost, or carried out with its reply lost, how stale a cached read is, what
  other Helm users and editors of the spec did in between, and what secrets, ConfigMaps and ingresses
  answer. A status update is accepted only from the current resource version.
- `Reconciliation.dfy` says as functions what one reconcile does to the world, with every early return.
- `Controller.dfy` is the controller in its own form: a resource object whose fields are updated in
  place, appended and sorted slices, collectors reached through pointers, loops with early returns and
  a retry counter. Each method is proved to do exactly what its function says, so what is proved of
  `Run`, a run of any number of reconciles, holds of runs of `Controller.HosstedProjectReconciler.Reconcile`.
- `Safety.dfy` and `SafeRuns.dfy` carry one invariant through every call of every reconcile, whatever
  the environment does, with `Naming.dfy` on the UUIDs that a collection hands out; `Guarantees.dfy`
  draws the conclusions. `Rounds.dfy` is about what a single collection and a single reconcile send,
  `Announcements.dfy` about what a DNS record and the entry of a release say, `Failures.dfy` about where
  an error ends a reconcile, `Convergence.dfy`, with `Growth.dfy` on how the operator's own steps change
  the releases, about what happens once requests stop failing, `Reports.dfy` and `Delivery.dfy` about
  later reports and reports that failed, `Dns.dfy` about the DNS step, `Platform.dfy` about monitoring
  and the ingress controller, `Detection.dfy` about change detection and `StopMode.dfy` about the Stop
  branch. `ConcreteRuns.dfy` and `Twins.dfy` follow three runs call by call.
- `Utils.dfy` with `Sorting.dfy` (`compareSlices` on arrays that may be the same array),
  `TextSearch.dfy` and `IngressValues.dfy` with `Text.dfy` (the string code), `RepoFile.dfy`
  (`repoAdd` as interleaved steps under a file lock, and as a method that makes such a run),
  `DeepCopy.dfy` (the generated copies on the heap) and `Inventory.dfy` (pods and deployments) stand by
  themselves.

`Lawful` environments keep what Kubernetes and Helm guarantee: namespace names are unique, and no two
releases of a namespace share a name. Nothing is asked of the UUID source, except where it is said that
UUIDs tell applications apart. A `Period` is calm when from its first tick on every request arrives, the
namespaces and what the DNS step reads are answered in the same way each time, and nobody else touches
Helm or the resource. The answers themselves may be bad ones, such as a missing ConfigMap, and what came
before the period may have failed.

## What turned out not to hold

- An app UUID that is on record can change in two ways only. A hosted release takes the UUID of its
  namespace's secret, and an unreadable secret imposes `A-` on every release it concerns
  (`Guarantees.SecretDecides` is exact, `Twins.TwinsShareTheirUUID` has a run in which two recorded
  applications share it). And
  a reconcile that read a version without the record reports the application under another UUID before
  its write is refused (`Guarantees.PostedUUIDFollowsItsBasis` gives the condition,
  `ConcreteRuns.StaleReadReportsAnotherUUID` a run from a created resource).
- A new cluster records its applications before it reports them. If that report fails, then in a calm
  period in which the operator is not stuck and the releases are as they were recorded nothing is ever
  reported, unless monitoring is still to be installed into a listed namespace or a DNS step is due that
  upgrades a visible release (`Delivery.FailedFirstReportIsForgotten` is exact). One lost request is
  enough for an application that is never reported in the whole run
  (`ConcreteRuns.LostReportIsNeverRepeated`). An existing cluster reports first and records after, and
  the next reconcile repeats a failed report (`Delivery.FailedRegistrationIsRetried`).
- The cluster is registered in the reconcile that claims it or never, and DNS and /apps requests are sent
  all the same (`Rounds.RegistrationIsDecidedOnce` is exact, `Dns.GlitchedIsNeverRegistered` has a run).
- The record cannot tell an exchange of revisions, or one release removed and another added at the same
  revision, from no change (`Detection.SwapIsMissed`, `Detection.ExchangeIsMissed`). `docs/internals.md`
  promises a request for any update of a chart.
- Even in a calm period the operator does not always settle. It never does when the DNS step is due and
  gets no address (the ConfigMap `access-object-info` is missing or malformed, the custom ingress name
  is unreadable, or the ingress is absent or has no address), when the step is due and the first
  declared release is not installed, when installing monitoring will bring either about, or when
  monitoring is disabled and a release is called `alloy`. In all other calm periods it settles within
  four reconciles (`Convergence.Converges` is exact for calm periods).
- The DNS mark is persisted after the first of the declared releases was upgraded, and a failed upgrade
  of a later one is never repeated. So the mark says that all were upgraded exactly when the operator is
  stopped or the declared releases all amount to the same upgrade, in particular when there is at most
  one (`Dns.MarkIsReliableExactly`; `Dns.GlitchedNeverRecovers` has the run for every other spec).
- Monitoring is installed as `hossted-grafana-alloy` and `kube-state-metrics`, but disabling it looks for
  a release `alloy`. What was installed is removed again if and only if somebody else has installed a
  release of that name and the state metrics are still there (`Platform.DisablingRemovesExactly`,
  `Platform.EnableThenDisable`).
- The ingress controller is installed as `hossted-ingress-nginx` and looked up as `ingress-nginx`, in the
  first deployment only. A new cluster with the ingress disabled deletes a release `ingress-nginx` that
  somebody else installed; one with the ingress enabled installs nothing next to such a release; and an
  existing cluster never touches either, whatever the spec says (`Platform.IngressIsDecidedOnce`).
- In a pod list with vulnerability reports, each pod is given the findings of the pods before it too
  (`Inventory.OwnFindingsExactly`).
- A key that ends an earlier key is answered by that earlier line (`TextSearch.SuffixKeyShadows`).

## Model

| member | source | states |
|---|---|---|
| Guarantees.EveryStatusIsCoherent | controllers/hosstedproject_controller.go:137-143 | In every run, at every write, every persisted status has sorted revisions that are as a multiset those of its releases, distinct keys and non-empty UUIDs, and is empty while it has no cluster UUID |
| Guarantees.IdentityIsWriteOnce | controllers/hosstedproject_controller.go:137-158 | Over any run the cluster UUID and the DNS mark, once persisted, never change again |
| Guarantees.ClusterUUIDIsDrawn | controllers/hosstedproject_controller.go:137-139 | The cluster UUID of any run is `K-` and a UUID from the source |
| Guarantees.RequestsCarryTheIdentity | controllers/hosstedproject_controller.go:249-270 | Every /register, /apps and /clusters/dns request of any run carries the one persisted cluster UUID, and the cluster is registered at most once, stale reads and lost replies included |
| Guarantees.RegistrationComesFirst | controllers/hosstedproject_controller.go:175-217 | In every run the registration comes before every /apps and DNS request |
| Rounds.RegistrationIsDecidedOnce | controllers/hosstedproject_controller.go:137-158 | Once the cluster has its UUID no registration is ever sent; every /apps and DNS request of the run follows an accepted one if and only if one was accepted by then, or there are no such requests |
| Dns.GlitchedIsNeverRegistered | controllers/hosstedproject_controller.go:141-158 | A run that sends DNS requests for a cluster that is never registered |
| Guarantees.RecordedUUIDIsStable | controllers/collector.go:623-660 | From any point of any run at which a release is recorded and visible, every later version records the same UUID while the release stays visible and its secret, as read from then on, does not disagree; stale reads make no difference |
| Guarantees.PostedUUIDFollowsItsBasis | controllers/collector.go:227-242 | From such a point on an /apps request for the release carries the recorded UUID whenever the version it is based on records it, and every version from that point on does |
| Guarantees.RecordsCoverTheVisible | controllers/collector.go:192-201 | From any point of any run at which a release is visible, every record that is written, and so every completed registration round, contains it |
| Guarantees.UUIDsIdentify | controllers/collector.go:626-649 | With a source that never repeats itself and secrets that impose neither its UUIDs nor the same one in two namespaces, two entries of any two versions of a run share a UUID only when they are of the same release, or of one namespace whose secret imposed it |
| Naming.CollectionNames | controllers/collector.go:626-649 | A collection draws a UUID of its own for each release without one on record |
| Guarantees.PostedUUIDIsStable | controllers/collector.go:227-242 | When reads are up to date from such a point on, every later /apps request for the release carries the UUID |
| Guarantees.SecretDecides | controllers/collector.go:233-242 | A collection changes a recorded UUID if and only if the release is hosted and the secret read imposes another one |
| Guarantees.UnreadableSecretsCollide | controllers/collector.go:234-241 | Any secret error but NotFound gives a hosted release the UUID `A-`, in every namespace |
| Twins.TwinsShareTheirUUID | controllers/collector.go:234-241 | A run from a created resource after which two recorded releases of different namespaces share one UUID |
| Guarantees.FlagTellsTheOrigin | controllers/collector.go:227-242 | In any run a posted or newly recorded entry with `hosstedHelm` set has the UUID that its namespace's secret gave, and any other the one on record or `A-` and a UUID from the source |
| Guarantees.DeniedNamespacesStayOut | controllers/utils.go:34-45 | From any point of any run at which a namespace is denied for good, no /apps request names a release of it, and every record is the one of that point or names none |
| Guarantees.RecordChangesAreDelivered | controllers/hosstedproject_controller.go:221-234 | In any run the recorded releases and revisions change only when a new cluster fills the empty record or right after every recorded app was posted, in order and without an error |
| Guarantees.DnsMarkIsEarned | controllers/collector.go:1010-1038 | A persisted DNS mark was preceded by an accepted DNS record of this cluster and a completed upgrade of the first declared release to that name; DNS records are only sent on the basis of versions without the mark |
| ConcreteRuns.StaleReadReportsAnotherUUID | controllers/collector.go:626-638 | A run of two reconciles from a created resource in which a stale read makes the second report a recorded application under a fresh UUID, without changing the record |
| ConcreteRuns.LostReportIsNeverRepeated | controllers/hosstedproject_controller.go:194-214 | A run from a created resource in which one request is lost and the recorded application is never reported, however long the run |
| SafeRuns.SafeRun | controllers/hosstedproject_controller.go:57-128 | The invariant of histories and logs survives any number of reconciles under arbitrary faults and interference |
| SafeRuns.SafeReconcile | controllers/hosstedproject_controller.go:57-128 | One reconcile, stopped or running, keeps that invariant and only extends the history and the log |
| SafeRuns.SafeExisting | controllers/hosstedproject_controller.go:220-246 | The handling of an existing cluster keeps it: what is posted comes from the collection, what is written was posted just before |
| SafeRuns.SafeNewCluster | controllers/hosstedproject_controller.go:175-217 | So does the handling of a new cluster, whose one registration comes before its record |
| SafeRuns.SafeCollect | controllers/collector.go:184-366 | So does a collection, including the DNS upgrades it may start; a completed one is fit to be recorded |
| SafeRuns.SafeDns | controllers/collector.go:914-1040 | So does the DNS step, wherever it stops |
| Convergence.CalmReconcile | controllers/hosstedproject_controller.go:131-246 | In a calm period a reconcile leaves the operator as stuck as it was; when it is not, the reconcile uses up at least one of at most four units of work, and completes without a write or a report exactly when none was left |
| Convergence.Converges | controllers/hosstedproject_controller.go:131-246 | From any status, a reconcile after the fourth of a calm period completes without writing a status, touching Helm or reporting an app if and only if the operator was not stuck at the start, whatever the DNS step is answered; then the record holds the visible revisions, monitoring is in place and no DNS step is due |
| Convergence.RecoversAfterFaults | controllers/hosstedproject_controller.go:57-128 | The same in any run of a created resource with arbitrary faults up to some tick, four reconciles after that many were made |
| Convergence.JammedForever | controllers/collector.go:914-1032 | In a calm period in which the DNS step is due and has no address to announce or no first declared release to upgrade, no reconcile of any run completes, reports or records anything |
| Convergence.CalmAwait | controllers/collector.go:961-998 | The wait for an address sends nothing and ends with the address of the period's ingress, or with none after an error or five empty answers |
| Convergence.CalmUpgradeAll | controllers/collector.go:1019-1038 | The upgrades stop at the first declared release that is not installed; the mark is persisted as soon as the first one is |
| Convergence.NoWorkStaysQuiet | controllers/hosstedproject_controller.go:239-245 | Without work left nothing is written or reported, however often the operator reconciles |
| Delivery.DifferenceIsDelivered | controllers/hosstedproject_controller.go:221-234 | A calm reconcile of an existing cluster with no DNS step due reports all visible releases in order, and records them, exactly when their revisions differ from the record |
| Delivery.FailedRegistrationKeepsTheDifference | controllers/hosstedproject_controller.go:221-234 | A reconcile that fails while reporting returns an error and leaves a record that still differs from what it collected |
| Delivery.FailedRegistrationIsRetried | controllers/hosstedproject_controller.go:221-234 | When calls succeed from then on and the same releases are visible, the very next reconcile reports them all without an error and records them |
| Delivery.NoStepIsDue | controllers/collector.go:244-249 | After a registration that failed, with the spec and the answers to the DNS step as they were when that reconcile began and the same releases visible, no DNS step is due: the collection that was to be reported has seen to it |
| Delivery.FailedFirstReportIsForgotten | controllers/hosstedproject_controller.go:194-214 | After a reconcile that records a new cluster and fails while reporting it, in a calm period with the recorded releases visible and the operator not stuck, no later reconcile reports anything if and only if neither monitoring is to be installed into a listed namespace nor a due DNS step upgrades a visible release; otherwise four reconciles report all that is then on record |
| Reports.NeverReportedExactly | controllers/hosstedproject_controller.go:220-246 | The same from any point at which the record agrees with what is visible |
| Reports.RunGains | controllers/hosstedproject_controller.go:220-246 | Over a calm run that is not stuck what is visible never gets lighter, and gets heavier with every step that shows |
| Growth.VisibleGains | controllers/collector.go:192-366 | Raised revisions and new releases in listed namespaces make the sum of visible releases and revisions larger, so the comparison sees them |
| Growth.HiddenGrowth | controllers/collector.go:192-366 | Changes outside the listed namespaces leave every listing as it was |
| Convergence.CalmCollect | controllers/collector.go:192-366 | A calm collection with no DNS step due completes, changes nothing and sees every release of the allowed namespaces at its revision; a due one sets the mark exactly when it gets an address and the first declared release is installed, completes exactly when all are, and still sees the same revisions when no upgraded release is visible |
| Rounds.CollectionIsFlatMap | controllers/collector.go:192-366 | A completed collection lists each namespace that is not denied once, one after the other, and has exactly one entry, in order, for each release that the namespace has at that moment, flagged as hosted exactly when the release is and a read of its secret in that collection says so |
| Announcements.CollectReleaseExactly | controllers/collector.go:227-249 | The entry of a release has its name, namespace, revision and description; it is flagged if and only if the release is hosted and the read of its namespace's secret, made first, says anything but NotFound; its UUID is that secret's, or else the recorded one, or else a new one; the DNS step is made under that UUID unless the mark is set; there is an entry if and only if that step completed and the last call was answered |
| Announcements.GetDnsExactly | controllers/collector.go:914-1040 | A DNS record is sent if and only if the ConfigMap names the namespace of the release, the custom name can be read, and the ingress of that name, or else of the namespace's, has an address after at most four reads without one; it says type A and the IP, or type CNAME and the host name when there is no IP, under the lower-case `<app UUID>.f.hossted.app`; after it come only upgrades of the declared releases, in order, with their host values set to that name; a release of another namespace passes with nothing sent |
| Announcements.RecordsSayWhatWasRead | controllers/collector.go:955-1013 | Over any run with any faults, each DNS record says what such reads of that run answered just before |
| Announcements.UpgradesRepoint | controllers/collector.go:1019-1034 | Each upgrade is the declared release with nothing changed but its host values |
| Failures.ErrorsEndTheReconcile | controllers/hosstedproject_controller.go:57-128 | A call that is not answered is the last one of its reconcile, which returns an error; spared are only reads of secrets, of which there are none when no release is hosted, and the installations of the ingress controller and of monitoring |
| Failures.ExistingStops | controllers/hosstedproject_controller.go:220-246 | For an existing cluster: registering and recording spare no call, handling monitoring only the installation |
| Rounds.CollectAnnounces | controllers/collector.go:244-249 | A collection reports no app; with the DNS mark set it sends nothing at all and leaves the copy alone |
| Rounds.RegistrationSends | controllers/hosstedproject_controller.go:249-270 | A registration posts the given entries from the first on, each once and in order; it ends at the first post that is not acknowledged, and completes exactly when all are |
| Rounds.FirstDeploymentPosts | controllers/hosstedproject_controller.go:137-158 | A completed first deployment ends by sending each recorded app exactly once |
| Rounds.FirstReconcileUsesOneUUID | controllers/hosstedproject_controller.go:152-168 | The first reconcile collects twice and still reports a release under one UUID |
| Rounds.FirstReconcilePostsOnce | controllers/hosstedproject_controller.go:188-214 | If no revision moved between the two collections, each app is reported exactly once |
| Rounds.MarkedReconcileLeavesDnsAlone | controllers/collector.go:244-249 | With the DNS mark in its copy a whole reconcile sends no DNS record and upgrades nothing |
| Rounds.MarkedRunLeavesDnsAlone | controllers/collector.go:244-249 | Over runs: once the mark is persisted and reads are up to date, no DNS record is sent and no release upgraded ever again |
| Rounds.FailedRegistrationKeepsTheRecord | controllers/hosstedproject_controller.go:221-225 | A registration that fails half-way returns its error and leaves the status as it was |
| Detection.DetectionIsExact | controllers/utils.go:68-85 | While recorded releases stay visible at revisions no smaller, the revisions agree as multisets exactly when no release was added and none moved |
| Detection.ExistingClusterDetects | controllers/hosstedproject_controller.go:221 | The same of a persisted status and the comparison made on it |
| Detection.SwapIsMissed | docs/internals.md:20-21 | Adding one release and removing another at the same revision goes unnoticed |
| Detection.ExchangeIsMissed | docs/internals.md:20-21 | So do two releases exchanging their revisions |
| Dns.WaitStopsAtFirstAnswer | controllers/collector.go:961-998 | The wait ends at the first answer that is not empty, which decides the outcome, or after five empty ones |
| Dns.FiveEmptyAnswersFail | controllers/collector.go:945-998 | The wait succeeds if and only if an address comes after at most four empty answers; five of them are read before it gives up |
| Dns.UpgradesArePrefix | controllers/collector.go:1018-1038 | Whatever fails, the upgrades are those of a prefix of the declared releases, in order and to the new name, and all of them on success |
| Dns.MarkIsReliableExactly | controllers/collector.go:1019-1038 | Over all runs from a created resource with a given unedited spec, a persisted mark means that every declared release was upgraded if and only if the operator is stopped or they all amount to the same upgrade, in particular when there is at most one |
| Dns.MarkMeansAll | controllers/collector.go:1019-1038 | In every such run of a spec with a single upgrade, the mark implies that each declared release was upgraded |
| Dns.GlitchedNeverRecovers | controllers/collector.go:1029-1037 | For every other spec a run in which two requests are lost, the mark is set after the first upgrade, and a declared release is never upgraded, however long the run |
| StopMode.PassInstalls | controllers/hosstedproject_controller.go:97-123 | While nobody else changes Helm or the resource, a pass with any calls failing only adds missing declared releases, each once; a completed pass leaves all of them installed; a pass that finds them installed does nothing |
| StopMode.PassFailsWithACall | controllers/hosstedproject_controller.go:97-123 | Only a call that fails ends a pass early: a release that is installed already is no error |
| StopMode.StoppedReconcileInstalls | controllers/hosstedproject_controller.go:97-128 | A stopped reconcile during which nobody else does so is just that: no status write, no request, existing releases at their revisions |
| StopMode.StoppedRunInstalls | controllers/hosstedproject_controller.go:97-128 | From any point on at which the operator is stopped, alone and reads what is persisted, whole runs install declared releases at most once each and do nothing else |
| Platform.MonitoringSettles | controllers/hosstedproject_controller.go:369-466 | In a calm period, unless the DNS step is jammed, the releases are after three reconciles, and from then on, exactly those that handling monitoring leaves |
| Platform.EnablingInstallsBoth | controllers/hosstedproject_controller.go:406-434 | With any faults and any interference: enabled, the step fails only with its lookup of `hossted-grafana-alloy`; when that is missing, `kube-state-metrics` is there afterwards unless its own request was lost, whatever the agent's installation did |
| Platform.DisablingStopsAtTheFirst | controllers/hosstedproject_controller.go:436-464 | Disabled, the step looks for `alloy`; when that is there the state metrics, the agent and the DaemonSet are removed in this order, the first that cannot be ends it with an error, and the rest is left as it was |
| Platform.FirstReconcileMonitors | controllers/hosstedproject_controller.go:137-168 | The first reconcile of a new cluster goes on to handle it as an existing one: in a calm period with no DNS step due it leaves monitoring handled and completes |
| Platform.DisablingRemovesExactly | controllers/hosstedproject_controller.go:436-464 | With monitoring disabled the agent is gone after three reconciles, and for good, if and only if it was not there, or a release `alloy` and the state metrics were |
| Platform.EnableThenDisable | controllers/hosstedproject_controller.go:406-464 | After enabling, settling and disabling, the agent is removed if and only if there was a release `alloy` and the state metrics were there or were installed with it |
| Platform.IngressIsDecidedOnce | controllers/hosstedproject_controller.go:499-535 | After any number of calm reconciles: a new cluster with the ingress disabled has lost any release `ingress-nginx`; with it enabled the operator's own release is there if and only if it was or there was none; an existing cluster has both as before |
| Platform.IngressStep | controllers/hosstedproject_controller.go:499-535 | With any faults: the step looks for `ingress-nginx`; enabled it installs `hossted-ingress-nginx` when that is missing and fails only with its lookup; disabled it removes what it found or fails |
| Controller.HosstedProjectReconciler.Reconcile | controllers/hosstedproject_controller.go:57-128 | Moves the world exactly as the reconcile function says and returns an error in the same cases |
| Controller.HosstedProjectReconciler.HandleReconciliation | controllers/hosstedproject_controller.go:131-172 | Moves world and in-memory resource as specified, through both branches |
| Controller.HosstedProjectReconciler.HandleNewCluster | controllers/hosstedproject_controller.go:175-217 | Persists the record before the applications are posted |
| Controller.HosstedProjectReconciler.HandleExistingCluster | controllers/hosstedproject_controller.go:220-246 | The comparison sorts both slices in place; on a difference posts come before the record, otherwise only monitoring is handled |
| Controller.HosstedProjectReconciler.RegisterApps | controllers/hosstedproject_controller.go:249-270 | Posts the collectors in order up to the first failure, each with the cluster UUID filled in through its pointer |
| Controller.HosstedProjectReconciler.HandleMonitoring | controllers/hosstedproject_controller.go:369-466 | Installs or removes monitoring with the error handling of each branch |
| Controller.HosstedProjectReconciler.HandleIngress | controllers/hosstedproject_controller.go:468-536 | The same for the ingress controller |
| Controller.HosstedProjectReconciler.Collect | controllers/collector.go:184-366 | Collectors and record aligned index by index, revisions the sorted permutation of the record's although sorted namespace by namespace, all slices new |
| Controller.HosstedProjectReconciler.CollectReleases | controllers/collector.go:227-359 | The inner loop appends one aligned entry per release and stops at the first failure |
| Controller.HosstedProjectReconciler.GetDns | controllers/collector.go:914-1040 | The DNS step with its record, its retry loop and its upgrades as specified |
| Controller.HosstedProjectReconciler.AwaitAddress | controllers/collector.go:961-998 | The retry loop reads the ingress as often as specified and returns the address found |
| Controller.HosstedProjectReconciler.UpgradeAll | controllers/collector.go:1019-1038 | Upgrades in order and persists the mark after each single upgrade |
| Controller.HosstedProjectReconciler.GetHelmInfo | controllers/collector.go:623-650 | Re-uses the recorded UUID or mints one |
| Controller.HosstedProjectReconciler.FindExistingUUID | controllers/collector.go:653-660 | The loop returns the UUID of the first entry of that name and namespace, or nothing |
| Api.FindsTheEntry | controllers/collector.go:653-660 | With distinct keys the lookup finds exactly the entry of the key |
| Api.FirstMatchAnswers | controllers/collector.go:653-660 | With repeated keys the first entry answers; without one the answer is empty |
| Utils.CompareSlices | controllers/utils.go:68-85 | True exactly when the slices are equal as multisets, also when they are one slice; leaves both sorted when their lengths agree and untouched otherwise |
| Utils.Filter | controllers/utils.go:34-45 | Keeps the names that are not denied, in order |
| Utils.AllowedOneByOne | controllers/utils.go:34-45 | Each name is kept or dropped by itself, so order and repetitions stay |
| Utils.Contains | controllers/utils.go:48-55 | True exactly when the string is in the slice |
| Sorting.SortDecidesMultisetEquality | controllers/utils.go:68-85 | Two sorted results are the same exactly when the inputs are equal as multisets |
| Sorting.SortAfterEachRound | controllers/collector.go:361 | Sorting after every namespace is sorting once at the end |
| TextSearch.SearchForTextInFile | controllers/collector.go:1086-1108 | The answer of the first line that answers, ` =` matched before the fields, or an error exactly when none does |
| TextSearch.RoundTrip | controllers/collector.go:1086-1108 | In rendered `key = value` lines an entry's line is the first to answer for its key exactly when no earlier line answers, in particular when none contains the key; its answer is then its own value |
| TextSearch.AssignmentIsTrimmed | controllers/collector.go:1091-1096 | A line with ` =` behind the text is answered by what follows its first `=`, without the white space around it |
| TextSearch.ArgumentIsNextWord | controllers/collector.go:1097-1105 | On a line of words without ` =` behind the text, the answer is the word after the first occurrence of the text that has a word after it, and there is none when no occurrence has |
| TextSearch.FieldsAreTheWords | controllers/collector.go:1099 | Splitting a line gives back its words, whatever white space is between and around them |
| TextSearch.LinesAreThoseWritten | controllers/collector.go:1087-1089 | The lines read are those written, ended by `\n` or `\r\n` or by the end of the file; from a line of 65536 characters on nothing is read |
| Text.WhiteSpace | controllers/collector.go:1095-1099 | White space is the 25 characters with that Unicode property |
| TextSearch.SuffixKeyShadows | controllers/collector.go:1091-1096 | A key that ends an earlier key gets that line's value |
| IngressValues.TweakIngressHostname | controllers/collector.go:1047-1084 | The switch rewrites exactly the values whose text up to the first `=` is one of the five keys, keeping length and order |
| IngressValues.TweakKeepsKeys | controllers/collector.go:1057-1075 | Every text up to the first `=` survives, other values are untouched, and a matched one becomes its prefix and the lower-case name |
| IngressValues.TweakRepoints | controllers/collector.go:1047-1084 | A value of one of the five named keys keeps the key and gets the name with its capitals replaced by small letters and nothing else changed; any other value stays |
| Text.ToLowerLowers | controllers/collector.go:1042-1044 | Lower case replaces each capital by its small letter and changes nothing else |
| IngressValues.TweakAbsorbs | controllers/collector.go:1047-1084 | A second call absorbs the first, so the call is idempotent |
| IngressValues.PrefixesAreExclusive | controllers/collector.go:1057-1075 | No value matches two of the five prefixes, so the order of the cases cannot matter |
| RepoFile.NoAdditionIsLost | pkg/helm/helm.go:112-191 | For any interleaving of any callers the file keeps every entry under its first URL, never holds a name twice, and a caller that succeeded finds its name there from then on |
| RepoFile.StepKeepsInv | pkg/helm/helm.go:112-191 | Each step keeps the invariant of lock, copies and file, and only appends |
| RepoFile.LockExcludes | pkg/helm/helm.go:125-137 | No two callers are ever between reading and leaving |
| RepoFile.EntriesComeFromCallers | pkg/helm/helm.go:183-189 | Nothing appears in the file that nobody asked for |
| RepoFile.RepoAdd | pkg/helm/helm.go:112-191 | Adds a missing entry and nothing else, reports success in exactly the right cases, gives the lock back on every path, and is a run of the system above |
| DeepCopy.StatusCell.DeepCopyInto | api/v1/zz_generated.deepcopy.go:169-188 | The copy equals the original as a value, shares no slice or map with it, and leaves it alone |
| DeepCopy.SpecCell.DeepCopyInto | api/v1/zz_generated.deepcopy.go:138-156 | The same for the spec, with the values nested in its Helm installs |
| DeepCopy.InstallCell.DeepCopyInto | api/v1/zz_generated.deepcopy.go:59-66 | The same for one Helm install |
| DeepCopy.CompareOnCopy | controllers/utils.go:74-75 | Sorting the copy's revisions in place leaves the cached original as it was |
| Inventory.GetPods | controllers/collector.go:386-443 | One entry per pod in order, with the findings of that pod and of all pods before it |
| Inventory.OwnFindingsExactly | controllers/collector.go:404-438 | A pod is given exactly its own findings if and only if no pod before it has any |
| Inventory.FindingsOneByOne | controllers/collector.go:411-429 | The findings of a pod go through its containers and, for each, through the reports; a container and a report make one, with the image of the container, exactly when the report names it and lists vulnerabilities |
| Inventory.GetDeployments | controllers/collector.go:493-531 | One entry per deployment in order, with the first secret its environment refers to |
| Inventory.FirstRefIsUnique | controllers/collector.go:505-526 | That first reference is determined by the containers |

## Left out

- HTTP transport, JSON encoding, environment variables, logging and the `sendEvent` calls: I/O only; a request is a log record that may be lost, and any HTTP answer is a success, as in `pkg/http/http.go`.
- The Helm SDK: only the releases, their revisions and their names are modelled; chart loading, waiting and the state filter of its list action are not part of this model. An upgrade or install that fails half-way leaves its effect behind.
- `controllers/internal_client.go`: thin list and get calls.
- The vulnerability report path (`handleVulnReports`, controllers/hosstedproject_controller.go:69-84): `Reconcile` does not reach it.
- `isHostedHelm`'s regular expression, bcrypt, base64 and UUID generation: the first is a property of the release, UUIDs come from an arbitrary source.
- `createBasicAuthSecret`, `getAccessInfo` and the listing calls that describe a release: one read that can fail; what they return changes nothing in the record.
- `OptionsState` and the `MARKET_PLACE` switch: descriptive fields of a request.
- `generateConfigMap`, `main.go`, metering and chart templates: configuration text.
- `getServices`, `getVolumes`, `getConfigmaps` and the other per-kind listings: plain maps.
- The `LastReconciledTimestamp` field in the reconcile model: no decision reads it.
- A status update that changes nothing still makes a new version here; nothing depends on the difference.
- Two operators running at once: the other writers of the resource are users editing the spec.
- `ing.Spec.Rules[0]` and `LoadBalancer.Ingress[0]` of empty lists, and a pod without containers, would panic; the model has no such ingress, and `Inventory.GetPods` requires a container.
- Strings are sequences of characters: lower case is that of ASCII, and the scanner's line limit counts characters where the code counts bytes.
- Two slices that overlap without being the same slice are not passed to `compareSlices` and cannot be expressed with arrays.
- A failure while the repository file is being written, which could leave it truncated.
- Guarantees.PostedUUIDIsStable: asks for up-to-date reads, because with a stale read it is false; `Guarantees.PostedUUIDFollowsItsBasis` is the statement for all reads.
- Guarantees.RecordedUUIDIsStable: a release that the operator itself may delete stays visible only while the specs that can still be read keep monitoring enabled.
- Guarantees.RecordsCoverTheVisible: leaves out a release `ingress-nginx` while there is no cluster UUID, since the first deployment may delete it.
- Delivery.FailedRegistrationIsRetried: speaks of the next reconcile when no DNS step is due in it; none is unless the spec or what the DNS step reads was changed since that reconcile began (`Delivery.NoStepIsDue`). An application that had no UUID on record is reported again under another one.
- Convergence.Converges: asks that the namespaces and what the DNS step reads are answered in the same way throughout the period; answers that keep changing can keep the operator busy. A DNS record may still be sent in every reconcile when nothing is declared, since the mark is then never set.
- Dns.MarkIsReliableExactly: is about specs that are not edited; after an edit the mark says nothing of what was added.
- Reports.NeverReportedExactly: an operator that is stuck is left out; a jammed one reports nothing (`Convergence.JammedForever`), and one that finds a foreign `alloy` keeps changing Helm or failing.
- Inventory.GetDeployments: says nothing about list errors, which end the collection.
