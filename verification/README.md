# Verification model of the MariaDB provider

This project models the OpenEverest MariaDB provider, a level-triggered
reconciler, and proves what its passes achieve and preserve. `Sync` runs again
and again against a cluster that others change too, may stop at any API call,
and is retried; most of what is proved here is about all such runs.

## How it is modelled

* **The cluster** (`Kube`, `ClusterApi`): one map per kind, in a class. Every API
  call may fail, in which case nothing has happened; every successful write is
  logged, and every failed call is counted.
* **A reconciler step** is a method on that class, with the loops and branches of
  the source, proved to follow a *plan*: the writes it issues when no call fails
  and how it ends (`Plans`). It returns early, having issued a prefix of the plan,
  exactly when one call failed; a pass without a failed call carries out its whole
  plan. Properties are then proved of the plans: of what they leave, and of every
  store on the way (`Throughout`).
* **A reference** (the modules named `Declared`): what every step must leave and how
  it must end, written down in the fields of the specification and the literal names
  and defaults, without the functions the plans are made of; each step is proved to
  agree with it.
* **Runs** are sequences of passes, with any specifications, each cut short
  anywhere, and of changes by others, restricted only where a predicate such as
  `LeavesSchedules`, `LeavesSync`, `LeavesChain`, `Allowed` or `Fair` says so.
* **Inputs that are not ours** are parameters: the digest that names objects, the
  order a list call returns, the sampled gap between two cron firings, the
  operator's statuses, the provider's catalog of images and bundles.

| file | content |
|---|---|
| `Schedules`, `ScheduleSync` | scheduled backups: plans, and the methods that follow them |
| `Convergence`, `ScheduledPasses`, `ScheduledRuns` | convergence, frame, progress under aborts, labels |
| `ScheduleFixpoints` | exactly which declarations settle, and what is there after any history |
| `EventualSettling`, `CronClock` | the same under a clock: retentions sampled anew on every pass, and the crons behind them |
| `DeclaredPlaces`, `DeclaredRetention`, `DeclaredSchedules`, `DeclaredPasses` | reference: storages, parameters, retentions and scheduled backups in the declaration's own fields, and what a pass decides |
| `DeclaredPitr`, `DeclaredSeeds`, `DeclaredMariaDB`, `DeclaredSync` | the same for PITR, seeding, the MariaDB and its template, and a whole Sync |
| `DeclaredAdmission`, `DeclaredStatus`, `DeclaredBackups` | the same for admission, what is reported, on-demand backups and restores |
| `RunLabels` | which storage and class the runs of a schedule mirror to |
| `PitrSync`, `PitrChain` | point-in-time recovery and its reference chain |
| `TemplateSync`, `Seeding`, `MariaDBSync`, `Provider` | the other steps of Sync, in its fixed order |
| `SeedingRuns`, `Runs` | seeding order; chain and seeds over all runs |
| `Settling`, `WholeSync`, `EventualSync` | how many Sync passes it takes, the fixed point, and exactly when it is reached |
| `Validation`, `ValidatedRuns` | admission, and Validate-then-Sync as a state machine |
| `Json`, `PruneInPlace` | pruning: normal form, and the in-place algorithm |
| `Scheduling`, `StoredAffinity`, `SelectorMeaning` | scheduling rules, and exactly what is left of their meaning |
| `InstanceStatus` | seeding progress and phase |
| `BackupSync`, `Restores` | on-demand backups, mirrored runs, in-place restores |
| `Retention`, `Decimal`, `ImageTag`, `Names` | retention arithmetic, the two parsers, names |

`dafny verify dfyconfig.toml` checks everything.

## What the code does not keep

Where a property turned out to need a condition, the exact condition is proved, as
an if-and-only-if, with an input that shows it is needed:

* Count retention keeps the newest copies at every instant of a schedule if and only
  if no as many consecutive gaps sum to more than the age derived
  (`Retention.PromiseKeptIff`), which is interval*(n+1) if and only if that fits an
  int64 (`Retention.CountAgeExactIff`). A weekday schedule breaks it
  (`Retention.WeekdayScheduleLosesCopies`); the comment at
  `internal/provider/backup_schedule.go:127` promises more.
* Scheduled backups reach a pass that succeeds and writes nothing if and only if every
  two schedules that derive one object name agree on kind, storage, retention, cron,
  enabled and content, and do not ask for two compressions
  (`ScheduleFixpoints.SettlesIffAgreed`). Two of one name on two storages make every
  pass delete and wait (`ScheduledRuns.SameNameNeverSettles`).
* The age of a count is sampled from the clock on every pass, and is immutable on
  logical backups. A converged weekday schedule is recreated as soon as the weekend's
  gap is sampled (`EventualSettling.WeekendGapRecreates`). Passes settle for good if
  and only if from some pass on all derive the same ages, and the schedules of one name
  then agree (`EventualSettling.SettlesForGoodIff`,
  `EventualSync.SyncSettlesForGoodIff`). For crons that repeat, under a clock that moves
  past every firing, the first half says that every schedule with a positive count has a
  cron all of whose gaps give one age (`CronClock.SettlesIffEven`,
  `EventualSync.SyncSettlesIffEven`).
* Labels are set on creation only. The runs of a schedule mirror to its declared
  storage and class if and only if they are those its object was created with
  (`RunLabels.RunsMirrorCreation`). A schedule moved to another BackupStorage of the
  same bucket, or to another class, keeps the old ones
  (`RunLabels.MovedStorageMirrorsOld`).
* Cleanup of an on-demand backup deletes by name. It undoes the sync if and only if
  the name was free (`BackupSync.CleanupUndoesSync`), and over a run the PITR chains
  stay intact if and only if none is given the name of a base in use
  (`Runs.ChainHoldsIff`).
* A replication cluster of two grows to three without a backup storage when the
  replica count is dropped from the specification
  (`ValidatedRuns.ScaleOutExactly`, `ValidatedRuns.ScaleOutEscapes`); the comment
  at `internal/provider/validate.go:345` does not say so.
* A change of image is refused if and only if both images are tagged with a version
  and the new one is older (`ValidatedRuns.ImageChange`), so that two accepted edits,
  by way of the untagged image, deploy an older version
  (`ValidatedRuns.UntaggedHidesDowngrade`).
* Pruning deletes a required node selector without terms, labels matched with "",
  and empty label selectors, all of which mean something
  (`StoredAffinity.NodeRulesKept`). Exactly which label selectors keep their meaning
  is `SelectorMeaning.SelectorMeaningKeptIff`, and exactly which anti-affinity terms,
  with the fields the operator has no place for, `SelectorMeaning.TermMeaningKeptIff`.
  A node selector whose terms are all empty keeps its terms and its meaning.
* Ready vouches for the data of a seeded Instance, whatever the operator reports, if
  and only if `spec.dataSource` is still declared, or the seed is a physical backup,
  which is in place once the cluster is ready (`InstanceStatus.ReadyVouchesIff`). A
  failed logical restore is reported as long as the operator does not also report a
  restored backup.

## Model

| member | source | states |
|---|---|---|
| `ScheduleSync.SyncScheduledBackups` | internal/provider/backup_schedule.go:183-229 | The nested loops over storages and schedules with their two desired-name maps, then both prunes: whatever calls fail, the writes issued and the outcome are those of `SchedulesPlan` when no call fails, and a prefix exactly when one does |
| `ScheduleSync.ReconcileScheduledBackup` | internal/provider/backup_schedule.go:231-295 | One logical schedule: removes the same-named PhysicalBackup, deletes and waits when storage or retention changed, else creates or refreshes; errors and waits as the code does |
| `ScheduleSync.ReconcileScheduledPhysicalBackup` | internal/provider/backup_physical.go:139-203 | The same for a physical schedule, where only the storage is immutable |
| `ScheduleSync.PruneScheduled` | internal/provider/backup_schedule.go:299-317 | Deletes, in listing order, exactly the listed objects with a schedule label and an undesired name |
| `ScheduleSync.TakeOver` | internal/provider/backup_schedule.go:257-295 | Delete-and-wait when an immutable field changed, else create or update and take ownership |
| `Convergence.GoalStep` | internal/provider/backup_schedule.go:231-295 | One schedule: either its object is outdated, is deleted and the pass waits, or afterwards the object is as wanted and the other kind is gone; no other name is touched |
| `Convergence.GoalsRun` | internal/provider/backup_schedule.go:188-215 | Over all schedules, at most one outdated object is removed per pass, and exactly when one exists |
| `ScheduledPasses.PruneBoth` | internal/provider/backup_physical.go:207-225 | Pruning both kinds removes exactly the objects with both labels of this Instance that no schedule asks for, whatever the listing order |
| `ScheduledPasses.PassRun` | internal/provider/backup_schedule.go:183-229 | One pass: it succeeds and converges if nothing is outdated, otherwise waits with exactly one outdated object fewer |
| `ScheduledPasses.PassFixed` | internal/provider/backup_schedule.go:183-229 | Once converged, a pass succeeds without writing anything |
| `ScheduledPasses.Converges` | internal/provider/backup_schedule.go:183-317 | Over passes that derive the same retentions, with others acting between any two as they may: with k objects to recreate, the first k passes wait, pass k+1 is the first to succeed, the declared schedules are then in place and nothing else of ours is left, no later pass writes anything and the declared objects never change; schedules of one name may occur if they agree. Which clocks derive the same retentions is the row of ClockSteadyIff |
| `ScheduledPasses.SchedulesLeft` | internal/provider/backup_schedule.go:183-317 | What others may do between passes (anything that leaves the storages, the MariaDB's existence, the declared objects and their labels alone) changes neither the goals, nor what must be recreated, nor convergence |
| `ScheduledPasses.QuietIffConverged` | internal/provider/backup_schedule.go:183-229 | A pass succeeds without writing anything if and only if everything is as declared |
| `ScheduleFixpoints.SettlesIffAgreed` | internal/provider/backup_schedule.go:183-317 | Passes that derive the same retentions, with others acting in between, reach one that succeeds and writes nothing if and only if every two schedules deriving one name agree on everything reconciled; for any clock it is the row of SettlesForGoodIff |
| `EventualSettling.SettlesForGoodIff` | internal/provider/backup_schedule.go:113-130 | Under any clock and with others acting in between: from some pass on every pass succeeds and writes nothing, if and only if from some pass on all derive the same retentions and the schedules of one name then agree |
| `EventualSettling.NewRetentionRecreates` | internal/provider/backup_schedule.go:253-266 | A converged store is out of line again as soon as a pass derives another retention for a logical schedule: it deletes the object and waits |
| `EventualSettling.WeekendGapRecreates` | internal/provider/backup_schedule.go:113-130 | The input: one logical schedule with a count on a weekday cron, converged under a sampled gap of one day, is deleted and waited for by the pass that samples three days |
| `CronClock.ClockSteadyIff` | internal/provider/backup_schedule.go:121-129 | With the gap sampled at the instant of each pass, under a clock that moves forward past every firing: the retentions become steady if and only if, of every schedule with a positive count, the gaps settle on one age |
| `CronClock.EvenWhateverTheClock` | internal/provider/backup_schedule.go:78-130 | Read off the declaration, at whatever instants the passes happen: every pass derives the same retentions when each schedule has no positive count or a cron all of whose gaps give the same age |
| `CronClock.AgesEvenIff` | internal/provider/backup_schedule.go:129 | Unless an age wraps around, all gaps give the same age if and only if all gaps are equal |
| `CronClock.PeriodicAges` | internal/provider/backup_schedule.go:121-129 | Of a cron whose gaps repeat, they settle on one age only if there is just one |
| `CronClock.SettlesIffEven` | internal/provider/backup_schedule.go:78-130 | Exactly which declarations settle for good, for crons whose gaps repeat and a clock that moves past every firing: every schedule with a positive count has a cron all of whose gaps give the same age, and schedules of one name agree |
| `ScheduleFixpoints.NamesAgreeIff` | internal/provider/backup_schedule.go:70-73 | That condition is the one on schedules of the same declared name |
| `ScheduleFixpoints.HistoryStamps` | internal/provider/backup_schedule.go:270-292 | Over any history of passes with any specifications cut anywhere, with others acting in between who leave the object alone, whatever was not there at first was made for a schedule of the Instance |
| `ScheduleFixpoints.SettlesOnePerSchedule` | internal/provider/backup_schedule.go:183-317 | After any such history and k+1 passes over distinct schedules, the objects with this Instance's schedule labels are exactly the declared ones, as many as there are schedules, each in sync and labelled for this Instance, its kind and a schedule its name derives from. The storage and class labels may be those of an earlier declaration: the row of RunsMirrorCreation |
| `ScheduledRuns.DistinctSchedules` | internal/provider/backup_schedule.go:70-73 | Distinct schedule names with distinct digests give distinct objects, which are trivially compatible |
| `ScheduledRuns.PassFrame` | internal/provider/backup_schedule.go:147-229 | After every write of a pass, only objects with a derived name, or with both labels of this Instance, can differ |
| `ScheduledRuns.BystandersSurvive` | internal/provider/backup_schedule.go:147-229 | PITR bases, replica templates, other Instances' scheduled objects and user-named backups survive a pass cut short anywhere |
| `ScheduledRuns.AbortKeepsGround` | internal/provider/backup_schedule.go:183-229 | A pass that stops anywhere makes nothing newly outdated |
| `ScheduledRuns.RunBound` | internal/provider/backup_schedule.go:183-229 | Over any run of passes that derive the same retentions, each cut short anywhere, with others acting in between, the completed waits are at most the objects to recreate |
| `ScheduledRuns.RunConverges` | internal/provider/backup_schedule.go:183-229 | When that many have waited, the next such pass that completes converges |
| `ScheduledRuns.PassStamps` | internal/provider/backup_schedule.go:270-292 | Of every object it stays so after every write of every pass: it backs up this MariaDB and carries, for its runs to inherit, labels naming the Instance, its kind and a schedule its name derives from |
| `ScheduledRuns.OnePerSchedule` | internal/provider/backup_schedule.go:183-317 | Once converged, the objects carrying this Instance's schedule labels are exactly one per schedule |
| `ScheduledRuns.SameNameNeverSettles` | internal/provider/backup_schedule.go:231-262 | The input that shows the agreement is needed: two schedules of one name and kind on two storages make every pass, forever, delete and wait, whatever others do in between; the exact condition is the row of SettlesIffAgreed |
| `DeclaredPlaces.ResolvedPlace` | internal/provider/backup.go:86-126 | Bucket, region, credentials and prefix are those declared, the endpoint is the URL without its scheme, TLS is on exactly when the URL starts with https://; and only that specification is. No S3 or no such storage is told apart |
| `DeclaredPlaces.EndpointReads` | internal/provider/backup.go:100-110 | The three ways a URL is written, with https, with http and bare: the host is read in each, and TLS is on in the first only |
| `DeclaredPlaces.ParametersRead` | internal/provider/backup.go:52-70 | Parameters decode exactly when every known field has its type, read as they say, are physical exactly when their type says "physical", and take the named databases with the named flag and a privilege reload, or a snapshot of the named target or PreferReplica |
| `DeclaredRetention.RetentionKept` | internal/provider/backup_schedule.go:75-130 | Exactly which retentions derive and to which int64 of nanoseconds: a hundred years without one or without a positive count, number times unit for a time, sampled interval times n+1 for a count, a day where none could be sampled |
| `DeclaredSchedules.EntryMetIff` | internal/provider/backup_schedule.go:231-292 | The object a schedule is reconciled to is the one its declaration asks for, field by field, and the same-named object of the other kind is absent |
| `DeclaredSchedules.EntriesInOrder` | internal/provider/backup_schedule.go:188-215 | The entries are the schedules of the enabled configuration, storage by storage and in order |
| `DeclaredSchedules.ConvergedIffAsAsked` | internal/provider/backup_schedule.go:183-317 | The state passes settle in is exactly the one the declaration asks for: every schedule has its object, and no other object carries both labels of this Instance |
| `DeclaredPasses.EntryDecides` | internal/provider/backup_schedule.go:231-295 | One schedule, decided by its declaration and the store: when it is an error, waited for, refused or done, what is recreated, and what a success leaves of an old and of a new object, labels included |
| `DeclaredPasses.PendingIff` | internal/provider/backup_schedule.go:253-266 | The objects to recreate are those of declared schedules on another place, or on a logical backup with another age |
| `DeclaredPasses.PassDecides` | internal/provider/backup_schedule.go:183-229 | A whole pass over distinct names: it succeeds if and only if every schedule ends well, otherwise ends as the first that does not, and a success leaves every declared object as declared, removes what else is labelled ours, and touches nothing else |
| `Names.NameSpacesDisjoint` | internal/provider/backup_schedule.go:70-73 | `mdb-sched-`, `mdb-pitr-` and `-replica-tpl` names never coincide |
| `Retention.NewestKeptIff` | internal/provider/backup_schedule.go:111-130 | For runs at any instants and any age, wrapped around or not: the newest copies are kept if and only if the oldest of them is within the age |
| `Retention.PromiseKeptIff` | internal/provider/backup_schedule.go:111-130 | Over a whole schedule, at every instant until the next firing, for any age: the newest copies are kept if and only if no as many consecutive gaps sum to more than the age |
| `Retention.CountPromiseIff` | internal/provider/backup_schedule.go:113-130 | With the age of a count n that fits an int64: if and only if no as many consecutive gaps sum to more than interval*(n+1) |
| `Retention.CountPromise` | internal/provider/backup_schedule.go:111-130 | In particular, if no gap exceeds the sampled interval, the newest n+1 runs are kept |
| `Retention.CountSlack` | internal/provider/backup_schedule.go:111-130 | With uniform gaps at most n+2 are kept |
| `Retention.CountAgeExactIff` | internal/provider/backup_schedule.go:129 | The int64 age is interval*(n+1) if and only if that is below 2^63 |
| `Retention.DailyCountCanOverflow` | internal/provider/backup_schedule.go:113-130 | A count the int32 field allows wraps on a daily schedule |
| `Retention.WeekdayScheduleLosesCopies` | internal/provider/backup_schedule.go:127-129 | The input that shows the condition is needed: on a Monday-to-Friday schedule sampled on a weekday, two copies are left where three were asked for; the exact condition is the row of PromiseKeptIff |
| `Retention.DurationRoundTrip` | internal/provider/backup_schedule.go:98-109 | Printing a number and a unit and parsing gives number times unit, exact up to 106751d, 15250w and 3558m and not beyond |
| `Decimal.AtoiReads` | internal/provider/backup_schedule.go:103-106 | Printed numbers read back with either sign exactly within int64; a sign alone or nothing does not |
| `Retention.AcceptedDurations` | internal/provider/backup_schedule.go:98-109 | Exactly which texts are accepted |
| `PitrSync.PitrEnabledStorage` | internal/provider/pitr.go:62-84 | The storage chosen is the one at the only index with PITR on while backups are enabled, none if and only if no index has it, too many if and only if two have it |
| `PitrSync.PitrStorageIff` | internal/provider/pitr.go:62-84 | The same of the choice the plans and admission use |
| `PitrSync.FirstPhysicalSchedule` | internal/provider/pitr.go:90-108 | The first schedule whose parameters select physical, or why there is none |
| `DeclaredPitr.FirstPhysicalIs` | internal/provider/pitr.go:90-108 | The schedule at the first index whose parameters say physical, an error exactly when an unreadable one comes before any, none when all are readable and logical |
| `PitrSync.SyncPITR` | internal/provider/pitr.go:115-144 | Base before PITR object on set-up, PITR object before base on teardown, with every call able to fail |
| `PitrSync.ReconcileBase` | internal/provider/pitr.go:150-199 | Creates or refreshes the base PhysicalBackup; its storage is set only on creation |
| `PitrSync.ReconcilePitr` | internal/provider/pitr.go:204-232 | Creates or refreshes the PITR object; its base reference is set only on creation |
| `PitrSync.TeardownPitr` | internal/provider/pitr.go:236-259 | Deletes the PITR object, then the base |
| `DeclaredPitr.PitrDecides` | internal/provider/pitr.go:115-259 | A whole pass, decided by the declaration and the store: with PITR on for one storage, how it ends, and on success base and PITR object in place, on that storage, under the Instance's own prefixes, following the first physical schedule; with none on, both gone; with two, an error; and nothing else touched |
| `PitrChain.PassKeepsChain` | internal/provider/pitr.go:115-279 | After every write of any Instance's Sync, every chain reference -> PITR object -> base is intact |
| `Runs.ChainHolds` | internal/provider/pitr.go:115-279 | Over every run of passes with any specifications, cut anywhere, of passes and cleanups of on-demand backups, and of changes by others, in which no on-demand backup with the name of a base in use is cleaned up: a MariaDB's PITR reference names an existing PITR object whose base exists |
| `Runs.ChainHoldsIff` | internal/provider/backup_physical.go:116-134 | Exactly: the chain is intact after every event of such a run if and only if no such cleanup occurs |
| `TemplateSync.SyncReplicaTemplate` | internal/provider/replica_template.go:67-125 | Removes, creates, refreshes, or deletes and waits when the first storage's S3 changed |
| `Settling.TemplateRun` | internal/provider/replica_template.go:67-125 | Waits exactly when the template is outdated, otherwise leaves it in place on the first storage, or gone when not wanted |
| `DeclaredMariaDB.TemplateDecides` | internal/provider/replica_template.go:67-125 | A whole pass, decided by the declaration and the store: gone unless a replication Instance has a backup storage; otherwise up on the first storage under the replica prefix, or deleted and waited for when it is elsewhere; when it waits, errs or is refused |
| `Seeding.ResolveBootstrapFrom` | internal/provider/datasource.go:40-163 | Every branch of both data sources: waits, configuration errors, the nil origin, the resolved bootstrap |
| `DeclaredSeeds.SeedDecides` | internal/provider/datasource.go:40-163 | What a data source resolves to, in its own fields: for a backup its place, kind and completion time; for a point in time the PITR object of the source and the declared date, or no date for latest; and when it waits or errs |
| `DeclaredSeeds.SeedKeptStored` | internal/provider/mariadb.go:105-110 | The stored tree says all of it after pruning: place, TLS flag, content type, PITR reference, and the target time exactly when one was set |
| `Seeding.CopyInstanceSecret` | internal/provider/datasource.go:185-220 | Keeps an existing target, refuses a missing source, else copies the source as it is now |
| `Seeding.EnsureRestoreCredentials` | internal/provider/datasource.go:174-179 | Root Secret, then user Secret |
| `DeclaredSeeds.CredentialsDecide` | internal/provider/datasource.go:174-220 | Both Secrets of the Instance end up there, kept if they were and the source's otherwise, or it is an error exactly when one can be neither found nor copied |
| `Seeding.AppliedTreeTwice` | internal/provider/mariadb.go:92-104 | Declaring a stored bootstrapFrom again stores the same |
| `MariaDBSync.DesiredMariaDB` | internal/provider/mariadb.go:128-260 | The declared image, replicas, size, class, topology switches, PITR reference and template reference |
| `DeclaredMariaDB.ImageAsked` | internal/provider/mariadb.go:264-290 | The image override, else the image of the version asked for or of the bundle, else the default; none exactly when the bundle asked for is unknown |
| `MariaDBSync.SyncMariaDB` | internal/provider/mariadb.go:76-124 | Create with a resolved seed and copied credentials, or apply with the stored bootstrapFrom and storage class |
| `DeclaredMariaDB.MariaDBDecides` | internal/provider/mariadb.go:76-260 | A whole pass over the MariaDB, in the declaration's fields: a new one has the declared image, count or the topology's default, size or 10Gi, class, switches and references, and the resolved seed and Secrets; an existing one all but class and seed, which stay; and how it ends otherwise |
| `SeedingRuns.SeedingOrder` | internal/provider/mariadb.go:76-124 | Just before every write of a pass: a seeded MariaDB is created only with its source ready and both Secrets present; a Secret is created only where none is, with the source's current data |
| `SeedingRuns.PassKeepsSeeds` | internal/provider/datasource.go:174-220 | After every write of any pass, no existing Secret has changed, nor the bootstrapFrom or storage class of an existing MariaDB |
| `Runs.SeedsNeverChange` | internal/provider/mariadb.go:92-110 | Over every run, bootstrapFrom and storageClassName never change after creation, and a seeded MariaDB has both Secrets |
| `Provider.Sync` | internal/provider/provider.go:80-103 | The fixed order of steps stopping at the first error, following `SyncPlan`: the whole plan when no call fails, a prefix exactly when one does; a completed pass stages the data source status of the store it leaves |
| `DeclaredSync.SyncLeaves` | internal/provider/provider.go:80-103 | One Sync that succeeds, from any store: MariaDB, credentials, template, every scheduled backup and both PITR objects are as the declaration asks, and nothing else has changed |
| `WholeSync.SyncStep` | internal/provider/provider.go:80-103 | One whole pass recreates exactly one object and waits, or succeeds with everything in place |
| `WholeSync.SettledStep` | internal/provider/provider.go:80-103 | From a settled store a pass re-applies the MariaDB and writes nothing else |
| `WholeSync.SyncSettles` | internal/provider/provider.go:80-103 | Over passes that derive the same retentions, with others acting between any two: with k outdated objects, template included, pass k+1 is the first to succeed; then the template is referenced exactly when it exists on the first storage; one further pass sets the PITR reference exactly when PITR is on, and every later pass only re-applies the MariaDB as it is |
| `WholeSync.SyncLeft` | internal/provider/provider.go:80-103 | What others may do between Sync passes, statuses included, changes neither readiness, nor what must be recreated, nor what is settled |
| `EventualSync.SyncSettlesForGoodIff` | internal/provider/provider.go:80-103 | Under any clock and with others acting in between: from some pass on every Sync succeeds and only re-applies the MariaDB as it is, if and only if from some pass on all derive the same retentions and the schedules of one name then agree |
| `EventualSync.SyncSettlesIffEven` | internal/provider/backup_schedule.go:78-130 | The same read off the crons: if and only if every schedule with a positive count has a cron all of whose gaps give the same age, and schedules of one name agree |
| `Settling.PitrRun` | internal/provider/pitr.go:115-259 | A pass puts base and PITR object in place, or removes both, and touches no other backup; what is set on creation stays, a new base has the right MariaDB, storage and labels |
| `Validation.AcceptedAtCreation` | internal/provider/validate.go:38-134 | Exactly which new Instances pass the modelled checks |
| `DeclaredAdmission.AdmittedAtCreation` | internal/provider/validate.go:38-134 | Exactly which new specifications pass, in their own fields |
| `Validation.AcceptedOnUpdate` | internal/provider/validate.go:38-134 | Exactly which updates pass the modelled checks: well-formed, the declared MariaDB may replace the provisioned one, an explicit storage class is kept, replicas are not added by number without a backup storage |
| `DeclaredAdmission.AdmittedOnUpdate` | internal/provider/validate.go:38-134 | Exactly which pass over a provisioned MariaDB, in the fields of both |
| `DeclaredAdmission.RefusedBecause` | internal/provider/validate.go:215-523 | Every refusal gives a reason that is true of the specification |
| `Validation.UpdateAccepted` | internal/provider/validate.go:373-523 | The topology, downgrade, size and class checks together are `Progress` of the declared over the provisioned MariaDB plus the class rule |
| `ValidatedRuns.PassProvisions` | internal/provider/mariadb.go:76-124 | After every write of a pass the MariaDB is as before or as declared |
| `ValidatedRuns.DeclaredStaysAccepted` | internal/provider/validate.go:373-503 | An accepted specification stays accepted while its own passes run |
| `ValidatedRuns.StepAdvances` | internal/provider/validate.go:38-83 | Every edit, pass or change by others keeps the site sound and advances the MariaDB |
| `ValidatedRuns.RunSafety` | internal/provider/validate.go:265-523 | Over every run of accepted edits: the topology and storage class are constant, the volume never shrinks, and replicas are 1, odd and at least 3, or at least 2 |
| `ValidatedRuns.VersionsRise` | internal/provider/validate.go:393-459 | Along any stretch whose image tags all parse, (major, minor) never goes down |
| `ValidatedRuns.ImageChange` | internal/provider/validate.go:393-417 | Of an accepted specification, a change of image is refused if and only if both images are tagged and the new one is older |
| `ValidatedRuns.UntaggedHidesDowngrade` | internal/provider/validate.go:405-412 | For every repository, with or without a registry port, and pair of versions: the direct edit to the older one is refused, while the run of two edits by way of the untagged image, each accepted and followed by a pass, ends with the older version deployed |
| `ValidatedRuns.ScaleOutExactly` | internal/provider/validate.go:348-368 | Without a backup storage an accepted replication specification adds replicas if and only if it declares no count and fewer than three run |
| `ValidatedRuns.ScaleOutSafety` | internal/provider/validate.go:348-368 | The same over every run, for every step |
| `ValidatedRuns.ScaleOutEscapes` | internal/provider/validate.go:359-362 | A concrete accepted 2-to-3 step with nothing to seed the third node from |
| `ImageTag.ImageRoundTrip` | internal/provider/validate.go:442-459 | Any repository, decimal version, harmless suffix and digest reads back as that version |
| `ImageTag.MinorVersionIff` | internal/provider/validate.go:437-459 | Exactly which images read as which version: up to the digest, what follows the last colon is no path and starts with two numbers and a dot between, each capped at the largest int |
| `ImageTag.UntaggedNeverVersioned` | internal/provider/validate.go:446-451 | An image whose every colon has a slash after it, a registry port for instance, reads as no version, with or without a digest |
| `PruneInPlace.PruneUnset` | internal/provider/apply.go:64-89 | On mutable maps, deleting while visiting keys in any order: the heap ends up holding exactly the pruned tree |
| `PruneInPlace.PruneEntry` | internal/provider/apply.go:66-87 | One map entry: deleted exactly when its value drops, otherwise pruned in place |
| `PruneInPlace.PruneItems` | internal/provider/apply.go:78-83 | Objects in a list are pruned in place; the list itself is not changed |
| `PruneInPlace.ShrunkIsPruned` | internal/provider/apply.go:64-89 | The tree left in the maps is the functional normal form |
| `PruneInPlace.PruneMaxScaleZeroDefaults` | internal/provider/maxscale.go:97-103 | In place, the tree pruned without the two fields |
| `Json.PrunedIsNormal` | internal/provider/apply.go:62-89 | No null, "", empty list or empty object is left in any object descended into |
| `Json.FixedIffNormal` | internal/provider/apply.go:62-89 | The trees pruning leaves alone are exactly the normal ones |
| `Json.PrunedTwice` | internal/provider/apply.go:62-89 | Idempotence |
| `Json.DropsPruned` | internal/provider/apply.go:75-79 | Whether a value is dropped does not depend on whether it was pruned first |
| `Json.ScalarsKept` | internal/provider/apply.go:42-45 | A false, zero, number or non-empty text is at a path after pruning if and only if it was before |
| `Json.ListsKept` | internal/provider/apply.go:62-63 | Likewise every non-empty list and its length |
| `Json.RemoveCommutes` | internal/provider/maxscale.go:97-103 | Pruning, removing a path, pruning equals removing the path, pruning |
| `Json.RemoveAllCommutes` | internal/provider/maxscale.go:97-103 | The same for every list of paths |
| `Json.ZeroDefaultsAfterPruning` | internal/provider/maxscale.go:86-103 | Dropping the two MaxScale fields after pruning sends the same tree as leaving them out |
| `Scheduling.ConvertNodeAffinity` | internal/provider/affinity.go:118-134 | The node rules are carried over term by term |
| `Scheduling.ConvertPodAntiAffinity` | internal/provider/affinity.go:163-181 | Selector and topology key of every anti-affinity term are carried over, in order, with weights |
| `Scheduling.ConvertAffinity` | internal/provider/affinity.go:50-67 | None if and only if neither node affinity nor anti-affinity is set, else both parts |
| `StoredAffinity.ConfigStored` | internal/provider/affinity.go:50-67 | What is read back of the pruned, stored rules: exactly the converted rules less what pruning removes |
| `StoredAffinity.NodeRulesKept` | internal/provider/affinity.go:118-161 | Node scores are always kept; the requirement admits the same nodes if and only if it is not a selector without terms, which turns from admitting none to admitting all |
| `StoredAffinity.StorableIffKept` | internal/provider/affinity.go:193-205 | Exactly which label selectors pruning leaves alone |
| `StoredAffinity.LabelsMeaningKept` | internal/provider/affinity.go:193-205 | A selector of labels alone keeps its meaning if and only if it is one of those; selectors with expressions are the row of SelectorMeaningKeptIff |
| `StoredAffinity.AntiRulesKept` | internal/provider/affinity.go:163-205 | Expressible anti-affinity terms are in force as asked |
| `SelectorMeaning.SelectorMeaningKeptIff` | internal/provider/affinity.go:193-205 | Exactly which label selectors, expressions included, select the same pods after storing: those pruning leaves alone, and those whose remaining rules select nothing or still admit only "" for the labels left out |
| `SelectorMeaning.TermMeaningKeptIff` | internal/provider/affinity.go:163-205 | Exactly which anti-affinity terms, with namespaces and label keys the operator has no place for, repel the same pods from the same nodes once stored. If the stored selector selects pods: its meaning survived, no namespaces, namespace selector or matchLabelKeys were given, and every mismatchLabelKeys entry is a key no selected pod has. If it selects none: the term repelled nothing before |
| `SelectorMeaning.MeaningPreserved` | internal/provider/affinity.go:50-205 | For every node and every set of running pods, the rules in force admit and score as the accepted affinity does, when every term is one of those (dropped fields included) and the node requirement is not a selector without terms |
| `SelectorMeaning.OneTermPreservedIff` | internal/provider/affinity.go:163-205 | For a single required term that condition is also needed |
| `SelectorMeaning.LostTermMayBeCovered` | internal/provider/affinity.go:193-205 | With several terms it need not hold of each: an input where one loses its meaning and another covers for it |
| `StoredAffinity.EmptySelectorForgotten` | internal/provider/affinity.go:183-191 | A present but empty selector, which repels every pod, is stored as one that repels none |
| `InstanceStatus.SyncDataSourceStatus` | internal/provider/datasource.go:226-291 | Stages exactly the status of the store read, unless a call fails |
| `DeclaredStatus.StagedFits` | internal/provider/datasource.go:226-335 | Progress is reported exactly of a declared source on a seeded MariaDB, and the report is the one that the operator's status calls for |
| `InstanceStatus.StatusMariaDB` | internal/provider/mariadb.go:329-387 | The phase for the staged status; an error when, and only when, a call failed or the surroundings cannot be read |
| `DeclaredStatus.PhaseMeans` | internal/provider/mariadb.go:329-450 | Each phase, by an if-and-only-if on status, proxy, TLS and Secret; Ready comes with the password of the user Secret |
| `InstanceStatus.StoredBootstrap` | internal/provider/mariadb.go:105-110 | Content type and PITR reference of a resolved bootstrap survive pruning and storing |
| `InstanceStatus.ResolvedIsResolvable` | internal/provider/datasource.go:59-163 | Every resolved bootstrap is logical or physical, and a PITR reference is never empty |
| `InstanceStatus.ReadyIffSeeded` | internal/provider/datasource.go:226-316 | While its data source is declared, a seeded Instance is Ready exactly when its data is in place and clients can be served, and Failed exactly when its restore or replay failed, ready or not |
| `InstanceStatus.ReadyHonoursSource` | internal/provider/datasource.go:226-316 | From the data source as resolved at creation to the status now: Ready implies that a logical backup was restored, and that a point in time was replayed or had nothing to replay, without error |
| `InstanceStatus.ReadyVouchesIff` | internal/provider/datasource.go:226-277 | For a seeded Instance whose clients can be served: Ready implies the data is in place, whatever the operator reports, if and only if the data source is declared or readiness alone means it (a physical seed) |
| `InstanceStatus.UndeclaredSourceIgnored` | internal/provider/datasource.go:227-230 | The input: with the declaration removed, a seeded Instance whose data is not in place is Ready once its cluster is |
| `BackupSync.MapJobState` | internal/provider/backup_schedule.go:391-412 | The first true Complete or Failed condition decides; without one the run is running |
| `DeclaredBackups.ReportIs` | internal/provider/backup_schedule.go:391-412 | Succeeded at the completion time or failed, by the first true condition that ends the Job; running without one |
| `DeclaredBackups.MirrorReads` | internal/provider/backup_schedule.go:322-360 | A Job is mirrored exactly when its labels name schedule, class, storage and Instance, and as these |
| `BackupSync.MirrorRoundTrip` | internal/provider/backup_schedule.go:135-143 | The labels stamped on creation mirror back to the schedule, storage, class, Instance and kind declared then; mirrored if and only if the four names are non-empty |
| `BackupSync.RunsMirrorBack` | internal/provider/backup_schedule.go:322-360 | A run of whatever was made for a schedule mirrors back to this Instance, that kind, and a schedule the name derives from; the storage and class are the row of RunsMirrorCreation |
| `RunLabels.GoalLabels` | internal/provider/backup_schedule.go:267-292 | After a schedule is reconciled, its object's labels and those its runs inherit are the declared ones if there was no such object, and otherwise the old ones |
| `RunLabels.PassLabels` | internal/provider/backup_schedule.go:267-292 | After every write of a pass over distinct names, an object that was there keeps its labels and a new one has those of a declared schedule |
| `RunLabels.LabelsOfCreation` | internal/provider/backup_schedule.go:267-292 | Over any history of passes with any specifications of distinct names, cut anywhere, with others in between who leave the object alone: it has the labels of the schedule it was created for, as declared then |
| `RunLabels.RunsMirrorCreation` | internal/provider/backup_schedule.go:322-360 | So a run mirrors to a declared storage and class if and only if they are those of the creation |
| `RunLabels.MovedStorageMirrorsOld` | internal/provider/backup_schedule.go:255-292 | The input: a schedule moved to another BackupStorage that resolves to the same place, or to another class, leaves a converged store in which a pass writes nothing and runs mirror to the old storage and class |
| `BackupSync.SeededWhereBackedUp` | internal/provider/datasource.go:59-112 | A new Instance seeded from an on-demand backup reads exactly the S3 location, with the content type, that its operator object was created with |
| `BackupSync.SeededWhereScheduled` | internal/provider/datasource.go:59-112 | And one seeded from a mirrored scheduled run reads the location of the schedule's object |
| `BackupSync.SyncScheduledRun` | internal/provider/backup_schedule.go:370-388 | Reports what the Job's conditions decide and its name, or pending when there is no Job |
| `BackupSync.MirroredRunsAreReadOnly` | internal/provider/backup_schedule.go:322-388 | Syncing or cleaning up a mirrored run writes nothing |
| `BackupSync.SyncBackup` | internal/provider/backup.go:143-206 | Creates the operator object once, from parameters and storage; afterwards only takes ownership |
| `DeclaredBackups.BackupDecides` | internal/provider/backup.go:143-223 | A whole pass over a Backup, in its own fields: how it ends, what a new operator object takes and where to, and that an old one changes its owner only |
| `DeclaredBackups.RecordedIs` | internal/provider/backup.go:148-206 | The reference reported: the Job of a mirrored run, else the object of the kind the parameters say |
| `BackupSync.CleanupBackup` | internal/provider/backup.go:333-360 | Deletes the object of the selected kind; gone if and only if it is a mirrored run or the object was not there |
| `BackupSync.FinalizeBackup` | internal/provider/backup.go:333-360 | With no failed call and nobody else acting the second cleanup reports gone |
| `DeclaredBackups.CleanupDecides` | internal/provider/backup_physical.go:119-134 | What is deleted and when it is gone, in the fields of the Backup |
| `BackupSync.CleanupUndoesSync` | internal/provider/backup_physical.go:64-134 | Cleanup after Sync restores the store exactly if and only if the name was free: cleanup deletes by name, whoever made the object |
| `BackupSync.OnDemandSpecKept` | internal/provider/backup.go:171-193 | Syncing a backup changes no existing object's specification |
| `Restores.SyncRestore` | internal/provider/backup.go:225-327 | Creates the operator Restore exactly when the source is restorable, and reports it; reports failure exactly when it never can be, pending otherwise |
| `DeclaredBackups.RestoreDecides` | internal/provider/backup.go:225-327 | A whole pass over a Restore, in its own fields: when it may be made and never will, what a new operator Restore restores and into which Instance |
| `Restores.CleanupRestore` | internal/provider/backup.go:365-380 | Deletes the operator Restore; gone if and only if it was not there |
| `DeclaredBackups.RestoreCleanupDecides` | internal/provider/backup.go:365-380 | The operator Restore of that name is deleted, and nothing else |
| `Restores.FinalizeRestore` | internal/provider/backup.go:365-380 | With no failed call and nobody else acting the second cleanup reports gone |
| `Restores.RestoreCreated` | internal/provider/backup.go:243-318 | A pass creates a Restore if and only if the source is logical, succeeded and not from another Instance; an existing one keeps its specification |
| `Restores.RestoreSafety` | internal/provider/backup.go:225-327 | Over every run: a Restore a pass created came from such a source, and as long as it exists restores that Instance from that source's operator backup, which for an on-demand source is the one SyncBackup made |
| `Restores.RestorableGetsRestored` | internal/provider/backup.go:280-318 | Any restorable source is restored by one pass that gets its write through |
| `ClusterApi.Cluster.Send` | internal/provider/apply.go:46-60 | One API call: done and logged, or failed without effect and counted |
| `ClusterApi.Cluster.CreateOrUpdate` | internal/provider/backup_schedule.go:265-292 | Take ownership unless another controller has the object, write only a change |

## Left out

Assumptions the statements rest on:

- A pass is atomic with respect to others: they act between passes, not between
  two writes of one pass. Passes themselves may stop after any write.
- Deletion is immediate; objects held by finalizers are not modelled.
- Server-side apply sets the declared fields; field ownership and its migration
  (`internal/provider/apply.go:95-115`) change no field of the model. The order in
  which API errors of one call are distinguished is not modelled: any error other
  than "not found" is one failure.
- SHA-1 is a parameter. Distinctness of the digests involved is a hypothesis
  (`SchedulesDistinguished`, `BasesDistinguished`), never assumed of all inputs.
- A pass samples each cron expression once, and no two firings of a cron coincide.
- SelectorMeaning.MeaningPreserved: its condition on the terms is exact for each term
  (TermMeaningKeptIff) and for a single one (OneTermPreservedIff); several terms may
  cover for one another (LostTermMayBeCovered), so it is one-way for those.
- The catalog of images and version bundles stays the same over a validated run:
  a change of catalog can change the deployed image without a new admission.
- The labels that the runtime puts on every object of an Instance are none of the
  five backup labels.
- The decoder of backup parameters matches keys exactly; Go's also ignores case.
- The operator's S3 specification is stored as it is sent, without defaults filled
  in by the API server; otherwise an unchanged storage would compare as changed.
- Restore contexts: a restore is synced in the context of the Instance it names.
- The user Secret of an Instance "x-root" and the root Secret of "x" have the same
  name; nothing here relies on their being different.

Not modelled:

- Provider.Sync: the MaxScale, ServiceMonitor and VMServiceScrape steps are calls that
  only may fail, because the objects they write are of kinds outside the store.
- MariaDBSync.DesiredMariaDB: does not carry metrics, TLS, resources, my.cnf, pod
  scheduling and Service templates, which are copied fields.
- Validation.AcceptedAtCreation: of the modelled checks only; Service, affinity,
  monitoring, proxy and TLS checks are independent and only reject more.
- Validation.AcceptedOnUpdate: likewise.
- MaxScale, ServiceMonitor and VMServiceScrape objects: their steps appear in Sync
  only as calls that may stop the pass. Adoption and teardown of scrapes are
  bookkeeping on objects of libraries that are not part of this model.
- Validation of Services, affinity of unsupported kind, monitoring, proxy and TLS:
  independent checks that only reject more, so what is proved of accepted
  specifications holds of those the provider accepts.
- Errors in building metrics and TLS settings inside `desiredMariaDB`.
- TLS, metrics, resources, my.cnf, connection endpoints, Service templates and
  topology spread constraints of the MariaDB: copied fields.
- `buildAffinity`'s default for HA topologies: a constant.
- `CleanupMariaDB`, watches and the request mapping of run Jobs: one call each.
- Condition-reason mappings of the operator's objects; statuses are inputs.
- JSON is a finite tree; numbers are integers. The in-place pruning model takes
  each map to occur once in the tree, as in a freshly converted object.
- API-server validation of stored rules, such as a required `preference`.
- A MariaDB deleted by hand takes its owned base backup with it; the chain over
  runs is about others who leave the chain's own objects alone.
- Compression is left as it was when a schedule no longer sets it, and is compared
  only when set.
