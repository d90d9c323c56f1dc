/** How the Jobs that a policy's CronJobs start are observed
    (controllers/jobobserver_controller.go): found by their labels, recorded, and announced. */
module JobObserver {
  import opened Options
  import opened Strings
  import opened Naming
  import opened Series
  import opened NativeJobs
  import opened Snapshots
  import opened JobStatus
  import opened Observations
  import opened Annotations
  import P = BackupPolicies

  /** A Job with the annotations the observer reads: the series, the notification references, and the
      outcome it has been announced with. */
  datatype ScheduledJob = ScheduledJob(namespace: string, labels: P.LabelMap, series: string, refs: string,
                                       announced: Option<Outcome>, native: NativeJob)

  /** What one reconcile meets. A policy is there with the number of its retention policy, if it names
      one that can be resolved. */
  datatype Env = Env(sources: set<string>, storages: set<string>, policies: map<string, Option<int>>,
                     calls: Calls, dispatchOk: bool, patch: Patch)

  datatype World = World(job: ScheduledJob, records: Records, dispatches: nat, deliveries: nat)

  function LabelOf(labels: P.LabelMap, key: P.LabelKey): string {
    if key in labels then labels[key] else ""
  }

  /** The labels of the Jobs that belong to a policy. */
  predicate Watched(h: ShortHash, labels: P.LabelMap) {
    Marked(labels, LabelValue(h, "backup"), LabelValue(h, "BackupPolicy"))
  }

  predicate Marked(labels: P.LabelMap, operation: string, kind: string) {
    && LabelOf(labels, P.ManagedBy) == P.MANAGED_BY_VALUE
    && LabelOf(labels, P.Operation) == operation && LabelOf(labels, P.ExecutionKind) == kind
  }

  /** Whether the source and the storage that the labels name are there. */
  predicate Finds(labels: P.LabelMap, e: Env) {
    && LabelOf(labels, P.SourceName) != "" && LabelOf(labels, P.SourceName) in e.sources
    && LabelOf(labels, P.StorageName) != "" && LabelOf(labels, P.StorageName) in e.storages
  }

  function SeriesOf(h: ShortHash, job: ScheduledJob): string {
    if job.series != "" then job.series
    else BuildSeries(h, Run(job.namespace, LabelOf(job.labels, P.SourceName), LabelOf(job.labels, P.StorageName),
                            LabelOf(job.labels, P.PolicyName), job.native.name))
  }

  function KeepLastOf(labels: P.LabelMap, e: Env): int {
    var policy := LabelOf(labels, P.PolicyName);
    EffectiveKeepLast(if policy != "" && policy in e.policies then e.policies[policy] else None)
  }

  function TargetOf(h: ShortHash, job: ScheduledJob, e: Env): Target {
    var storage := LabelOf(job.labels, P.StorageName);
    Target(LabelName(h, MAX_SNAPSHOT_NAME, [job.native.name, storage, "snapshot"]), SeriesOf(h, job), storage,
           KeepLastOf(job.labels, e))
  }

  /** Whether the outcome of the Job is still to be announced. */
  predicate Due(job: ScheduledJob) {
    TrimmedNames(Split(job.refs, ',')) != [] && job.announced != TerminalState(job.native.conditions)
  }

  /** What a reconcile makes of a Job that is over, with its source and storage. */
  function Observed(w: World, t: Target, e: Env, due: bool): World {
    if !Found(w.job.native, t, e.calls).Seen? then w
    else
      World(if due && e.dispatchOk && e.patch == Patched
            then w.job.(announced := TerminalState(w.job.native.conditions)) else w.job,
            AfterObserve(w.records, w.job.native, t, e.calls),
            w.dispatches + (if due then 1 else 0),
            w.deliveries + (if due && e.dispatchOk then 1 else 0))
  }

  /** Whether the Job belongs to a policy, is over, and has its source and storage. */
  predicate Sees(h: ShortHash, job: ScheduledJob, e: Env) {
    Watched(h, job.labels) && Over(job.native) && Finds(job.labels, e)
  }

  function Decided(w: World, sees: bool, t: Target, e: Env): World {
    if sees then Observed(w, t, e, Due(w.job)) else w
  }

  /** The state one reconcile leaves. */
  function AfterReconcile(h: ShortHash, w: World, e: Env): World {
    Decided(w, Sees(h, w.job, e), TargetOf(h, w.job, e), e)
  }

  class JobObserverReconciler {
    var job: ScheduledJob
    var client: SnapshotClient
    var dispatches: nat
    var deliveries: nat

    constructor (job0: ScheduledJob, client0: SnapshotClient)
      ensures client == client0 && State() == World(job0, client.records, 0, 0)
    {
      job, client, dispatches, deliveries := job0, client0, 0, 0;
    }

    ghost function State(): World
      reads this, client
    {
      World(job, client.records, dispatches, deliveries)
    }

    method ObserveAndAnnounce(t: Target, e: Env)
      requires WellKeyed(client.records) && Over(job.native)
      modifies this`job, this`dispatches, this`deliveries, client
      ensures State() == Observed(old(State()), t, e, old(Due(job)))
    {
      var found := ObserveTerminalBackupJob(client, job.native, t, e.calls);
      if !found.Seen? {
        return;
      }
      var phase := JobTerminalState(job.native.conditions);
      var names := ParseNotificationAnnotation(job.refs);
      if |names| > 0 && job.announced != phase {
        dispatches := dispatches + 1;
        if e.dispatchOk {
          deliveries := deliveries + 1;
          if e.patch == Patched {
            job := job.(announced := phase);
          }
        }
      }
    }

    /** The checks that end a reconcile early. */
    method Look(operation: string, kind: string, e: Env) returns (sees: bool)
      ensures sees <==> Marked(job.labels, operation, kind) && Over(job.native) && Finds(job.labels, e)
    {
      if LabelOf(job.labels, P.ManagedBy) != P.MANAGED_BY_VALUE {
        return false;
      }
      if LabelOf(job.labels, P.Operation) != operation {
        return false;
      }
      if LabelOf(job.labels, P.ExecutionKind) != kind {
        return false;
      }
      var phase := JobTerminalState(job.native.conditions);
      if phase.None? {
        return false;
      }
      var sourceName, storageName := LabelOf(job.labels, P.SourceName), LabelOf(job.labels, P.StorageName);
      if sourceName == "" || storageName == "" {
        return false;
      }
      return sourceName in e.sources && storageName in e.storages;
    }

    method Reconcile(h: ShortHash, e: Env)
      requires WellKeyed(client.records)
      modifies this`job, this`dispatches, this`deliveries, client
      ensures State() == AfterReconcile(h, old(State()), e)
    {
      var sees := Look(LabelValue(h, "backup"), LabelValue(h, "BackupPolicy"), e);
      if sees {
        ObserveAndAnnounce(TargetOf(h, job, e), e);
      }
    }
  }

  // ---------------------------------------------------------------- found by labels

  /** A Job that the CronJob starts: it has the labels and annotations of its template, the series
      annotation possibly excepted. */
  ghost predicate StartedBy(cron: P.CronJob, job: ScheduledJob) {
    job.labels == cron.labels && (job.series == "" || job.series == cron.spec.series)
  }

  /** The Job was started by the CronJob that backs policy `p` up to `storage`. */
  ghost predicate StartedFor(h: ShortHash, p: P.Policy, paused: bool, asked: Option<int>, storage: string,
                             cron: P.CronJob, job: ScheduledJob) {
    job.namespace == p.namespace && P.BacksUp(h, p, paused, asked, storage, cron) && StartedBy(cron, job)
  }

  /** No object has the label value of `name` as its name, except `name` itself. */
  ghost predicate NoNamesake(h: ShortHash, names: set<string>, name: string) {
    LabelValue(h, name) in names ==> LabelValue(h, name) == name
  }

  predicate NamesItself(name: string) {
    IsLabel(name) && |name| <= MAX_LABEL_VALUE
  }

  lemma LabelsOfStarted(h: ShortHash, p: P.Policy, paused: bool, asked: Option<int>, storage: string,
                        cron: P.CronJob, job: ScheduledJob)
    requires StartedFor(h, p, paused, asked, storage, cron, job)
    ensures Watched(h, job.labels)
    ensures LabelOf(job.labels, P.SourceName) == LabelValue(h, p.sourceRef)
    ensures LabelOf(job.labels, P.StorageName) == LabelValue(h, storage)
    ensures LabelOf(job.labels, P.PolicyName) == LabelValue(h, p.name)
  {
    LabelsOfLabelled(job.labels, LabelValue(h, "backup"), LabelValue(h, "BackupPolicy"), LabelValue(h, p.name),
                     LabelValue(h, p.sourceRef), LabelValue(h, storage));
  }

  lemma LabelsOfLabelled(labels: P.LabelMap, operation: string, kind: string, policy: string, source: string,
                         storage: string)
    requires P.Labelled(labels, operation, kind, policy, source, storage)
    ensures Marked(labels, operation, kind)
    ensures LabelOf(labels, P.SourceName) == source && LabelOf(labels, P.StorageName) == storage
    ensures LabelOf(labels, P.PolicyName) == policy
  {
  }

  lemma SeriesOfCron(h: ShortHash, p: P.Policy, paused: bool, asked: Option<int>, storage: string, cron: P.CronJob)
    requires P.BacksUp(h, p, paused, asked, storage, cron) && p.name != ""
    ensures cron.spec.series == BuildSeries(h, P.RunOf(p, storage))
  {
    JoinSplit(cron.spec.series, '/');
  }

  /** The observer files the run under the series its CronJob was rendered with, whether it reads the
      annotation or falls back to the labels. */
  lemma SeriesAsRendered(h: ShortHash, p: P.Policy, paused: bool, asked: Option<int>, storage: string,
                         cron: P.CronJob, job: ScheduledJob)
    requires StartedFor(h, p, paused, asked, storage, cron, job) && p.name != ""
    ensures SeriesOf(h, job) == cron.spec.series
  {
    LabelsOfStarted(h, p, paused, asked, storage, cron, job);
    SeriesOfCron(h, p, paused, asked, storage, cron);
    FallbackSeries(h, p.namespace, p.sourceRef, storage, p.name, job.native.name);
  }

  lemma FoundByLabel(h: ShortHash, names: set<string>, name: string)
    requires name in names && NoNamesake(h, names, name)
    ensures LabelValue(h, name) != ""
    ensures LabelValue(h, name) in names <==> NamesItself(name)
  {
    LabelPart(h, name);
    LabelValueNamesItselfExact(h, name);
  }

  /** What the observer makes of a Job that it sees, with the series and the storage it is filed under. */
  ghost predicate Files(h: ShortHash, w: World, e: Env, series: string, storage: string, after: World)
    requires w.job.native.report.Pod? && w.job.native.report.artifact.Some?
  {
    exists name, end ::
      && IsNameOf(h, 63, [w.job.native.name, storage, "snapshot"], name) && LatestEnd(w.job.native.conditions, end)
      && after.records == AfterPersist(w.records, name, series, storage,
                                       FinishedJob(w.job.native.name, w.job.native.startedAt, end),
                                       w.job.native.report.artifact.value, KeepLastOf(w.job.labels, e), e.calls.now)
  }

  lemma SeesExact(h: ShortHash, job: ScheduledJob, e: Env, p: P.Policy, paused: bool, asked: Option<int>,
                  storage: string, cron: P.CronJob)
    requires StartedFor(h, p, paused, asked, storage, cron, job) && Over(job.native)
    requires p.sourceRef in e.sources && NoNamesake(h, e.sources, p.sourceRef)
    requires storage in e.storages && NoNamesake(h, e.storages, storage)
    ensures Sees(h, job, e) <==> NamesItself(p.sourceRef) && NamesItself(storage)
    ensures NamesItself(storage) ==> LabelOf(job.labels, P.StorageName) == storage
  {
    LabelsOfStarted(h, p, paused, asked, storage, cron, job);
    FoundByLabel(h, e.sources, p.sourceRef);
    FoundByLabel(h, e.storages, storage);
    LabelValueNamesItselfExact(h, storage);
  }

  /** The observer looks objects up by label value, not by name. So a finished run that has an artifact to show
      is recorded, in the series of its CronJob and under its storage, when source and storage are named by
      labels of at most 63 characters; and otherwise, be it for a dot or a double hyphen, it is never seen. */
  lemma ObservedExact(h: ShortHash, w: World, e: Env, p: P.Policy, paused: bool, asked: Option<int>, storage: string,
                      cron: P.CronJob)
    requires StartedFor(h, p, paused, asked, storage, cron, w.job) && p.name != "" && Over(w.job.native)
    requires p.sourceRef in e.sources && NoNamesake(h, e.sources, p.sourceRef)
    requires storage in e.storages && NoNamesake(h, e.storages, storage)
    ensures NamesItself(p.sourceRef) && NamesItself(storage) ==>
              var after := AfterReconcile(h, w, e);
              if HasArtifact(w.job.native) && CallsSucceed(w.job.native, e.calls)
              then Files(h, w, e, cron.spec.series, storage, after)
              else after.records == w.records
    ensures !(NamesItself(p.sourceRef) && NamesItself(storage)) ==> AfterReconcile(h, w, e) == w
  {
    SeesExact(h, w.job, e, p, paused, asked, storage, cron);
    SeriesAsRendered(h, p, paused, asked, storage, cron, w.job);
    if NamesItself(p.sourceRef) && NamesItself(storage) {
      RecordsExact(w, TargetOf(h, w.job, e), e);
      if HasArtifact(w.job.native) && CallsSucceed(w.job.native, e.calls) {
        FilesTarget(h, w, e, storage, Observed(w, TargetOf(h, w.job, e), e, Due(w.job)));
      }
    }
  }

  lemma FilesTarget(h: ShortHash, w: World, e: Env, storage: string, after: World)
    requires HasArtifact(w.job.native) && LabelOf(w.job.labels, P.StorageName) == storage
    requires var t := TargetOf(h, w.job, e);
             exists end :: LatestEnd(w.job.native.conditions, end)
               && after.records == AfterPersist(w.records, t.snapshotName, t.series, t.storage,
                                                FinishedJob(w.job.native.name, w.job.native.startedAt, end),
                                                w.job.native.report.artifact.value, t.keepLast, e.calls.now)
    ensures Files(h, w, e, SeriesOf(h, w.job), storage, after)
  {
    NameExact(h, 63, [w.job.native.name, storage, "snapshot"]);
  }

  lemma RecordsExact(w: World, t: Target, e: Env)
    ensures var after := Observed(w, t, e, Due(w.job));
            if !(HasArtifact(w.job.native) && CallsSucceed(w.job.native, e.calls)) then after.records == w.records
            else
              exists end :: LatestEnd(w.job.native.conditions, end)
                && after.records == AfterPersist(w.records, t.snapshotName, t.series, t.storage,
                                                 FinishedJob(w.job.native.name, w.job.native.startedAt, end),
                                                 w.job.native.report.artifact.value, t.keepLast, e.calls.now)
  {
    SeenExact(w.job.native, t, e.calls);
    ObserveExact(w.records, w.job.native, t, e.calls);
    TerminalStateExact(w.job.native.conditions);
  }

  /** The retention of records agrees with that of the uploads exactly when the policy's name is a
      label of at most 63 characters, or its CronJob keeps three archives anyway. */
  lemma KeepLastExact(h: ShortHash, e: Env, p: P.Policy, paused: bool, storage: string, cron: P.CronJob,
                      job: ScheduledJob)
    requires p.name in e.policies && NoNamesake(h, e.policies.Keys, p.name)
    requires StartedFor(h, p, paused, e.policies[p.name], storage, cron, job)
    ensures KeepLastOf(job.labels, e) == cron.spec.keepLast <==> NamesItself(p.name) || cron.spec.keepLast == 3
    ensures !NamesItself(p.name) ==> KeepLastOf(job.labels, e) == 3
  {
    LabelsOfStarted(h, p, paused, e.policies[p.name], storage, cron, job);
    FoundByLabel(h, e.policies.Keys, p.name);
  }

  // ---------------------------------------------------------------- announced

  /** The labels say that the Job is a backup of a policy, and of which source and storage. */
  ghost predicate Identified(h: ShortHash, labels: P.LabelMap) {
    && P.ManagedBy in labels && labels[P.ManagedBy] == "data-protection-operator"
    && P.Operation in labels && labels[P.Operation] == LabelValue(h, "backup")
    && P.ExecutionKind in labels && labels[P.ExecutionKind] == LabelValue(h, "BackupPolicy")
    && P.SourceName in labels && labels[P.SourceName] != "" && P.StorageName in labels && labels[P.StorageName] != ""
  }

  lemma MarkedExact(labels: P.LabelMap, operation: string, kind: string)
    requires operation != "" && kind != ""
    ensures Marked(labels, operation, kind) <==>
              && P.ManagedBy in labels && labels[P.ManagedBy] == "data-protection-operator"
              && P.Operation in labels && labels[P.Operation] == operation
              && P.ExecutionKind in labels && labels[P.ExecutionKind] == kind
  {
  }

  /** A reconcile changes nothing but for a Job so identified whose conditions say that it is over and whose
      source and storage are there. */
  lemma SeesOnly(h: ShortHash, w: World, e: Env)
    ensures Sees(h, w.job, e) <==>
              && Identified(h, w.job.labels)
              && w.job.labels[P.SourceName] in e.sources && w.job.labels[P.StorageName] in e.storages
              && (FirstTrue(w.job.native.conditions, Complete) || FirstTrue(w.job.native.conditions, Failed))
    ensures !Sees(h, w.job, e) ==> AfterReconcile(h, w, e) == w
  {
    TerminalStateExact(w.job.native.conditions);
    LabelPart(h, "backup");
    LabelPart(h, "BackupPolicy");
    MarkedExact(w.job.labels, LabelValue(h, "backup"), LabelValue(h, "BackupPolicy"));
  }

  /** The Job belongs to a policy, its conditions say that it is over, its source and its storage are there, its
      pods can be looked at, and its annotation names somebody to tell. */
  ghost predicate Announceable(h: ShortHash, job: ScheduledJob, e: Env) {
    && Identified(h, job.labels)
    && job.labels[P.SourceName] in e.sources && job.labels[P.StorageName] in e.storages
    && (FirstTrue(job.native.conditions, Complete) || FirstTrue(job.native.conditions, Failed))
    && CallsSucceed(job.native, e.calls)
    && exists part :: part in Split(job.refs, ',') && TrimSpace(part) != ""
  }

  ghost function OutcomeOf(j: NativeJob): Outcome {
    if FirstTrue(j.conditions, Complete) then Succeeded else Broken
  }

  lemma {:induction false} SomeName(parts: seq<string>)
    ensures TrimmedNames(parts) != [] <==> exists part :: part in parts && TrimSpace(part) != ""
  {
    if parts != [] {
      SomeName(parts[..|parts| - 1]);
      assert parts == parts[..|parts| - 1] + [parts[|parts| - 1]];
    }
  }

  /** A reconcile announces the outcome of a Job exactly if it can be announced and is not noted down as
      announced; it is noted down exactly when the announcement and the patch arrive. */
  lemma AnnouncesExact(h: ShortHash, w: World, e: Env)
    ensures var after := AfterReconcile(h, w, e);
            var announces := Announceable(h, w.job, e) && w.job.announced != Some(OutcomeOf(w.job.native));
            && after.dispatches == w.dispatches + (if announces then 1 else 0)
            && after.deliveries == w.deliveries + (if announces && e.dispatchOk then 1 else 0)
            && after.job == (if announces && e.dispatchOk && e.patch == Patched
                             then w.job.(announced := Some(OutcomeOf(w.job.native))) else w.job)
  {
    SomeName(Split(w.job.refs, ','));
    SeesOnly(h, w, e);
    TerminalStateExact(w.job.native.conditions);
    SeenExact(w.job.native, TargetOf(h, w.job, e), e.calls);
  }

  datatype Event = Reconcile(e: Env) | Progress(native: NativeJob) | Elsewhere(records: Records)

  function Next(h: ShortHash, w: World, e: Event): World {
    match e
    case Reconcile(env) => AfterReconcile(h, w, env)
    case Progress(native) => w.(job := w.job.(native := native))
    case Elsewhere(records) => w.(records := records)
  }

  /** The native Job changes as Jobs do; nothing is asked of the rest. */
  predicate Possible(native: NativeJob, run: seq<Event>)
    decreases |run|
  {
    run != [] ==>
      if run[0].Progress? then Progresses(native, run[0].native) && Possible(run[0].native, run[1..])
      else Possible(native, run[1..])
  }

  function Reached(h: ShortHash, w: World, run: seq<Event>): World
    decreases |run|
  {
    if run == [] then w else Reached(h, Next(h, w, run[0]), run[1..])
  }

  predicate AllPatched(run: seq<Event>) {
    forall i | 0 <= i < |run| && run[i].Reconcile? :: run[i].e.patch == Patched
  }

  /** Nothing but a delivery is noted down, and the outcome noted down is that of the Job. */
  ghost predicate Truthful(w: World) {
    && (w.job.announced.Some? ==> w.job.announced == TerminalState(w.job.native.conditions))
    && (w.job.announced.Some? ==> w.deliveries > 0)
  }

  ghost predicate Consistent(w: World) {
    Truthful(w) && w.deliveries == (if w.job.announced.Some? then 1 else 0)
  }

  lemma DecidedConsistent(w: World, sees: bool, t: Target, e: Env)
    requires sees ==> Over(w.job.native)
    ensures Truthful(w) ==> Truthful(Decided(w, sees, t, e))
    ensures Consistent(w) && e.patch == Patched ==> Consistent(Decided(w, sees, t, e))
    ensures Decided(w, sees, t, e).job.native == w.job.native
  {
  }

  lemma DecidedQuiet(w: World, sees: bool, t: Target, e: Env)
    requires Truthful(w) && w.job.announced.Some?
    ensures Decided(w, sees, t, e) == w.(records := Decided(w, sees, t, e).records)
  {
  }

  lemma StepConsistent(h: ShortHash, w: World, e: Event)
    requires e.Progress? ==> Progresses(w.job.native, e.native)
    ensures Next(h, w, e).job.native == if e.Progress? then e.native else w.job.native
    ensures Truthful(w) ==> Truthful(Next(h, w, e))
    ensures Consistent(w) && (e.Reconcile? ==> e.e.patch == Patched) ==> Consistent(Next(h, w, e))
  {
    match e {
      case Reconcile(env) =>
        DecidedConsistent(w, Sees(h, w.job, env), TargetOf(h, w.job, env), env);
      case _ =>
    }
  }

  /** As long as every patch arrives, an outcome is announced with success at most once, and the
      annotation tells whether it has been. */
  lemma {:induction false} AnnouncedOnce(h: ShortHash, w: World, run: seq<Event>)
    requires Consistent(w) && Possible(w.job.native, run) && AllPatched(run)
    ensures var after := Reached(h, w, run);
            after.deliveries == (if after.job.announced.Some? then 1 else 0)
    decreases |run|
  {
    if run != [] {
      StepConsistent(h, w, run[0]);
      assert forall i | 0 <= i < |run[1..]| :: run[1..][i] == run[i + 1];
      AnnouncedOnce(h, Next(h, w, run[0]), run[1..]);
    }
  }

  /** Once the annotation is written, nothing is announced again, whatever happens, and it keeps
      telling the outcome of the Job. */
  lemma {:induction false} QuietAfterwards(h: ShortHash, w: World, run: seq<Event>)
    requires Truthful(w) && w.job.announced.Some? && Possible(w.job.native, run)
    ensures var after := Reached(h, w, run);
            && after.job.announced == w.job.announced == TerminalState(after.job.native.conditions)
            && after.dispatches == w.dispatches && after.deliveries == w.deliveries
    decreases |run|
  {
    if run != [] {
      StepConsistent(h, w, run[0]);
      if run[0].Reconcile? {
        var e := run[0].e;
        DecidedQuiet(w, Sees(h, w.job, e), TargetOf(h, w.job, e), e);
      }
      QuietAfterwards(h, Next(h, w, run[0]), run[1..]);
    }
  }

  // ---------------------------------------------------------------- announced twice

  /** A reconcile that can announce the outcome, and whose announcement would arrive. */
  ghost predicate GetsThrough(h: ShortHash, w: World, e: Event) {
    e.Reconcile? && Announceable(h, w.job, e.e) && e.e.dispatchOk
  }

  ghost predicate GetsThroughLater(h: ShortHash, w: World, run: seq<Event>)
    decreases |run|
  {
    run != [] && (GetsThrough(h, w, run[0]) || GetsThroughLater(h, Next(h, w, run[0]), run[1..]))
  }

  /** Some such reconcile has its patch arrive. */
  ghost predicate NotedLater(h: ShortHash, w: World, run: seq<Event>)
    decreases |run|
  {
    && run != []
    && ((GetsThrough(h, w, run[0]) && run[0].e.patch == Patched) || NotedLater(h, Next(h, w, run[0]), run[1..]))
  }

  /** The first such reconcile loses its patch, and there is another one later. */
  ghost predicate LosesFirst(h: ShortHash, w: World, run: seq<Event>)
    decreases |run|
  {
    && run != []
    && if GetsThrough(h, w, run[0]) then run[0].e.patch != Patched && GetsThroughLater(h, Next(h, w, run[0]), run[1..])
       else LosesFirst(h, Next(h, w, run[0]), run[1..])
  }

  lemma StepAnnounces(h: ShortHash, w: World, e: Event)
    requires w.job.announced.None?
    ensures var t := Next(h, w, e);
            && t.deliveries == w.deliveries + (if GetsThrough(h, w, e) then 1 else 0)
            && (t.job.announced.Some? <==> GetsThrough(h, w, e) && e.e.patch == Patched)
  {
    if e.Reconcile? {
      AnnouncesExact(h, w, e.e);
    }
  }

  /** From a Job that has not been announced, over any run: its outcome is noted down as announced exactly if a
      reconcile that could announce it got its announcement and its patch through; it is announced at all
      exactly if one got its announcement through; and it is announced twice or more exactly if the first of
      these lost its patch and another one got through later. */
  lemma {:induction false} AnnouncedTwiceExact(h: ShortHash, w: World, run: seq<Event>)
    requires w.job.announced.None? && Possible(w.job.native, run)
    ensures var after := Reached(h, w, run);
            && (after.job.announced.Some? <==> NotedLater(h, w, run))
            && (after.deliveries >= w.deliveries + 1 <==> GetsThroughLater(h, w, run))
            && (after.deliveries >= w.deliveries + 2 <==> LosesFirst(h, w, run))
            && after.deliveries >= w.deliveries
    decreases |run|
  {
    if run != [] {
      var g := Next(h, w, run[0]);
      StepAnnounces(h, w, run[0]);
      StepConsistent(h, w, run[0]);
      if g.job.announced.None? {
        AnnouncedTwiceExact(h, g, run[1..]);
      } else {
        QuietAfterwards(h, g, run[1..]);
      }
    }
  }
}
