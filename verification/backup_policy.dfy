/** The fan-out of a backup policy into CronJobs, one for each storage
    (controllers/backuppolicy_controller.go, controllers/runtime_helpers.go,
    api/v1alpha1/validation.go). */
module BackupPolicies {
  import opened Options
  import opened Strings
  import opened Naming
  import opened Series
  import opened Sorting
  import opened Annotations
  import opened Snapshots

  /** The label keys, each standing for its name under dataprotection.archinfra.io/. */
  datatype LabelKey = ManagedBy | Operation | ExecutionKind | ExecutionName | SourceName | StorageName | PolicyName

  type LabelMap = map<LabelKey, string>

  const MANAGED_BY_VALUE := "data-protection-operator"

  datatype Policy = Policy(namespace: string, name: string, sourceRef: string, storageRefs: seq<string>,
                           retentionRef: Option<string>, notificationRefs: seq<string>,
                           cron: string, scheduleSuspend: bool, suspend: bool, ttlSeconds: Option<int>)

  datatype CronSpec = CronSpec(schedule: string, suspend: bool, series: string, backendPath: string, keepLast: int)

  datatype CronJob = CronJob(labels: LabelMap, spec: CronSpec, lastScheduleTime: Option<int>)

  type CronJobs = map<string, CronJob>

  datatype Phase = Pending | Failed | Paused | Configured

  datatype Status = Status(phase: Phase, cronJobNames: seq<string>, lastScheduleTime: Option<int>)

  /** What the policy's references resolve to. */
  datatype Resolved = Resolved(paused: bool, keepLast: int)

  // ---------------------------------------------------------------- rendering

  function CronJobName(h: ShortHash, policy: string, storage: string): string {
    LabelName(h, MAX_CRONJOB_NAME, [policy, storage, "backup"])
  }

  /** `managedResourceLabels` for a policy, from the label values. */
  function Managed(operation: string, kind: string, policy: string, source: string, storage: string): LabelMap {
    map[ManagedBy := MANAGED_BY_VALUE, Operation := operation, ExecutionKind := kind, ExecutionName := policy,
        SourceName := source, StorageName := storage, PolicyName := policy]
  }

  function Selecting(operation: string, kind: string, policy: string): LabelMap {
    map[ManagedBy := MANAGED_BY_VALUE, ExecutionKind := kind, PolicyName := policy, Operation := operation]
  }

  function ManagedLabels(h: ShortHash, p: Policy, storage: string): LabelMap {
    Managed(LabelValue(h, "backup"), LabelValue(h, "BackupPolicy"), LabelValue(h, p.name),
            LabelValue(h, p.sourceRef), LabelValue(h, storage))
  }

  /** The list selector of a policy. */
  function Selector(h: ShortHash, policy: string): LabelMap {
    Selecting(LabelValue(h, "backup"), LabelValue(h, "BackupPolicy"), LabelValue(h, policy))
  }

  predicate Matches(labels: LabelMap, selector: LabelMap) {
    forall k | k in selector :: k in labels && labels[k] == selector[k]
  }

  function RunOf(p: Policy, storage: string): Run {
    Run(p.namespace, p.sourceRef, storage, p.name, "")
  }

  function Rendered(h: ShortHash, p: Policy, r: Resolved, storage: string): CronSpec {
    CronSpec(p.cron, p.suspend || p.scheduleSuspend || r.paused,
             BuildSeries(h, RunOf(p, storage)), BuildBackendPath(h, RunOf(p, storage)), r.keepLast)
  }

  /** A CronJob as rendered for one storage. */
  datatype Template = Template(name: string, labels: LabelMap, spec: CronSpec)

  function TemplateFor(h: ShortHash, p: Policy, r: Resolved, storage: string): Template {
    Template(CronJobName(h, p.name, storage), ManagedLabels(h, p, storage), Rendered(h, p, r, storage))
  }

  function Templates(h: ShortHash, p: Policy, r: Resolved): (ts: seq<Template>)
    ensures |ts| == |p.storageRefs|
  {
    seq(|p.storageRefs|, i requires 0 <= i < |p.storageRefs| => TemplateFor(h, p, r, p.storageRefs[i]))
  }

  // ---------------------------------------------------------------- the specification

  function NamesOf(ts: seq<Template>): (names: seq<string>)
    ensures |names| == |ts|
  {
    seq(|ts|, i requires 0 <= i < |ts| => ts[i].name)
  }

  /** The CronJob names of a policy with these storages, in their order. */
  function DesiredNames(h: ShortHash, policy: string, storages: seq<string>): (names: seq<string>)
    ensures |names| == |storages|
  {
    seq(|storages|, i requires 0 <= i < |storages| => CronJobName(h, policy, storages[i]))
  }

  /** Create or update: labels and specification are replaced, the status stays. */
  function Put(jobs: CronJobs, t: Template): CronJobs {
    jobs[t.name := CronJob(t.labels, t.spec, if t.name in jobs then jobs[t.name].lastScheduleTime else None)]
  }

  function PutAll(jobs: CronJobs, ts: seq<Template>): CronJobs {
    if ts == [] then jobs else Put(PutAll(jobs, ts[..|ts| - 1]), ts[|ts| - 1])
  }

  function Listed(jobs: CronJobs, selector: LabelMap): set<string> {
    set n | n in jobs && Matches(jobs[n].labels, selector)
  }

  function ListedItems(jobs: CronJobs, selector: LabelMap): CronJobs {
    map n | n in jobs && Matches(jobs[n].labels, selector) :: jobs[n]
  }

  /** The CronJobs after a successful reconcile that listed the names `listed`. */
  function AfterFanOut(jobs: CronJobs, ts: seq<Template>, listed: set<string>): CronJobs {
    PutAll(jobs, ts) - (listed - set n | n in NamesOf(ts))
  }

  /** The same with a list that is up to date. */
  function AfterFreshFanOut(jobs: CronJobs, ts: seq<Template>, selector: LabelMap): CronJobs {
    AfterFanOut(jobs, ts, Listed(PutAll(jobs, ts), selector))
  }

  /** `PredictCronJobNames`. */
  function Predicted(h: ShortHash, policy: string, refs: seq<string>): seq<string> {
    SortStrings(DesiredNames(h, policy, TrimmedNames(refs)))
  }

  // ---------------------------------------------------------------- the code

  lemma PredictStep(h: ShortHash, policy: string, refs: seq<string>, i: nat)
    requires i < |refs|
    ensures DesiredNames(h, policy, TrimmedNames(refs[..i + 1]))
         == DesiredNames(h, policy, TrimmedNames(refs[..i]))
            + (if TrimSpace(refs[i]) == "" then [] else [CronJobName(h, policy, TrimSpace(refs[i]))])
  {
    assert refs[..i + 1][..i] == refs[..i];
  }

  method PredictCronJobNames(h: ShortHash, policy: string, refs: seq<string>) returns (names: seq<string>)
    ensures names == Predicted(h, policy, refs)
  {
    names := [];
    for i := 0 to |refs|
      invariant names == DesiredNames(h, policy, TrimmedNames(refs[..i]))
    {
      PredictStep(h, policy, refs, i);
      var storageName := TrimSpace(refs[i]);
      if storageName == "" {
        continue;
      }
      names := names + [CronJobName(h, policy, storageName)];
    }
    assert refs[..|refs|] == refs;
    names := SortStrings(names);
  }

  /** The latest schedule time among the listed CronJobs with an allowed name, if one has any. */
  ghost predicate IsLatestTime(items: CronJobs, names: seq<string>, latest: Option<int>) {
    && (latest.None? <==> forall n | n in items && n in names :: items[n].lastScheduleTime.None?)
    && (latest.Some? ==>
          && (exists n :: n in items && n in names && items[n].lastScheduleTime == latest)
          && (forall n | n in items && n in names && items[n].lastScheduleTime.Some? ::
                items[n].lastScheduleTime.value <= latest.value))
  }

  method LatestCronScheduleTime(items: CronJobs, names: seq<string>) returns (latest: Option<int>)
    ensures IsLatestTime(items, names, latest)
  {
    latest := None;
    var rest := items.Keys;
    while rest != {}
      invariant rest <= items.Keys
      invariant latest.None? <==> forall n | n in items && n !in rest && n in names :: items[n].lastScheduleTime.None?
      invariant latest.Some? ==> exists n :: n in items && n in names && items[n].lastScheduleTime == latest
      invariant latest.Some? ==> forall n | n in items && n !in rest && n in names && items[n].lastScheduleTime.Some? ::
                  items[n].lastScheduleTime.value <= latest.value
    {
      var n :| n in rest;
      rest := rest - {n};
      if n !in names || items[n].lastScheduleTime.None? {
        continue;
      }
      if latest.None? || items[n].lastScheduleTime.value > latest.value {
        latest := items[n].lastScheduleTime;
      }
    }
  }

  datatype Source = Source(addon: string, paused: bool)

  class BackupPolicyReconciler {
    var sources: map<string, Source>
    var addons: set<string>
    var storages: set<string>
    var retentions: map<string, int>
    var endpoints: set<string>
    var cronJobs: CronJobs
    var status: Status

    /** `BackupPolicySpec.ValidateBasic`. */
    method ValidateBasic(p: Policy) returns (ok: bool)
      ensures ok <==> ValidPolicy(p)
      ensures ok <==>
                && TrimSpace(p.sourceRef) != "" && p.storageRefs != [] && !HasTwins(p.storageRefs)
                && (p.retentionRef.None? || TrimSpace(p.retentionRef.value) != "") && !HasTwins(p.notificationRefs)
                && (TrimSpace(p.cron) != "" || p.suspend) && (p.ttlSeconds.None? || p.ttlSeconds.value >= 0)
    {
      if TrimSpace(p.sourceRef) == "" { return false; }
      if |p.storageRefs| == 0 { return false; }
      var duplicate := HasDuplicateNames(p.storageRefs);
      if duplicate { return false; }
      if p.retentionRef.Some? && TrimSpace(p.retentionRef.value) == "" { return false; }
      duplicate := HasDuplicateNames(p.notificationRefs);
      if duplicate { return false; }
      if TrimSpace(p.cron) == "" && !p.suspend { return false; }
      return p.ttlSeconds.Some? ==> p.ttlSeconds.value >= 0;
    }

    /** The references that a policy needs, resolved. */
    function Resolve(p: Policy): Option<Resolved>
      reads this
    {
      if p.sourceRef !in sources || sources[p.sourceRef].addon !in addons then None
      else if exists i | 0 <= i < |p.storageRefs| :: p.storageRefs[i] !in storages then None
      else
        var retention := if p.retentionRef.Some? then TrimSpace(p.retentionRef.value) else "";
        if retention != "" && retention !in retentions then None
        else if exists i | 0 <= i < |p.notificationRefs| :: p.notificationRefs[i] !in endpoints then None
        else Some(Resolved(sources[p.sourceRef].paused,
                           EffectiveKeepLast(if retention == "" then None else Some(retentions[retention]))))
    }

    /** All that the policy names is there. */
    ghost predicate AllThere(p: Policy)
      reads this
    {
      && p.sourceRef in sources && sources[p.sourceRef].addon in addons
      && (forall s | s in p.storageRefs :: s in storages)
      && (p.retentionRef.Some? && TrimSpace(p.retentionRef.value) != "" ==>
            TrimSpace(p.retentionRef.value) in retentions)
      && (forall n | n in p.notificationRefs :: n in endpoints)
    }

    /** The number that the policy's retention asks for. */
    function Asked(p: Policy): Option<int>
      reads this
    {
      if p.retentionRef.Some? && TrimSpace(p.retentionRef.value) in retentions
      then Some(retentions[TrimSpace(p.retentionRef.value)]) else None
    }

    lemma ResolveExact(p: Policy)
      requires ValidPolicy(p)
      ensures Resolve(p).Some? <==> AllThere(p)
      ensures AllThere(p) ==> Resolve(p) == Some(Resolved(sources[p.sourceRef].paused, EffectiveKeepLast(Asked(p))))
    {
    }

    /** One reconcile; `cache` is what the list is read from, and a fresh list if it is absent. */
    method Reconcile(h: ShortHash, p: Policy, cache: Option<CronJobs>)
      modifies this`cronJobs, this`status
      ensures status.phase == (if !ValidPolicy(p) || !old(AllThere(p)) then Failed
                               else if old(sources)[p.sourceRef].paused || p.suspend || p.scheduleSuspend then Paused
                               else Configured)
      ensures ValidPolicy(p) && old(AllThere(p)) && p.name != "" ==>
                Serves(h, p, old(sources)[p.sourceRef].paused, old(Asked(p)), cronJobs)
      ensures !ValidPolicy(p) || old(Resolve(p)).None? ==>
                cronJobs == old(cronJobs) && status == old(status).(phase := Failed)
      ensures ValidPolicy(p) && old(Resolve(p)).Some? ==>
                var r := old(Resolve(p)).value;
                && cronJobs == (if cache.Some? then
                                  AfterFanOut(old(cronJobs), Templates(h, p, r),
                                              Listed(cache.value, Selector(h, p.name)))
                                else AfterFreshFanOut(old(cronJobs), Templates(h, p, r), Selector(h, p.name)))
                && status.phase == (if r.paused || p.suspend || p.scheduleSuspend then Paused else Configured)
                && status.cronJobNames == SortStrings(NamesOf(Templates(h, p, r)))
                && IsLatestTime(ListedItems(if cache.Some? then cache.value
                                            else PutAll(old(cronJobs), Templates(h, p, r)), Selector(h, p.name)),
                                NamesOf(Templates(h, p, r)), status.lastScheduleTime)
    {
      var valid := ValidateBasic(p);
      var resolved := Resolve(p);
      if valid {
        ResolveExact(p);
      }
      if !valid || resolved.None? {
        status := status.(phase := Failed);
        return;
      }
      Apply(h, p, resolved.value, Asked(p), cache);
    }

    /** What a reconcile does once all is resolved. */
    method Apply(h: ShortHash, p: Policy, r: Resolved, ghost asked: Option<int>, cache: Option<CronJobs>)
      requires r.keepLast == EffectiveKeepLast(asked)
      modifies this`cronJobs, this`status
      ensures cronJobs == (if cache.Some? then
                             AfterFanOut(old(cronJobs), Templates(h, p, r), Listed(cache.value, Selector(h, p.name)))
                           else AfterFreshFanOut(old(cronJobs), Templates(h, p, r), Selector(h, p.name)))
      ensures status.phase == (if r.paused || p.suspend || p.scheduleSuspend then Paused else Configured)
      ensures status.cronJobNames == SortStrings(NamesOf(Templates(h, p, r)))
      ensures IsLatestTime(ListedItems(if cache.Some? then cache.value
                                       else PutAll(old(cronJobs), Templates(h, p, r)), Selector(h, p.name)),
                           NamesOf(Templates(h, p, r)), status.lastScheduleTime)
      ensures p.name != "" ==> Serves(h, p, r.paused, asked, cronJobs)
    {
      if p.name != "" {
        FanOutServes(h, p, r, asked, cronJobs, cache);
      }
      var names, latest := FanOut(Templates(h, p, r), Selector(h, p.name), cache);
      status := Status(if r.paused || p.suspend || p.scheduleSuspend then Paused else Configured,
                       SortStrings(names), latest);
    }

    method FanOut(ts: seq<Template>, selector: LabelMap, cache: Option<CronJobs>)
      returns (names: seq<string>, latest: Option<int>)
      modifies this`cronJobs
      ensures names == NamesOf(ts)
      ensures cronJobs == if cache.Some? then AfterFanOut(old(cronJobs), ts, Listed(cache.value, selector))
                          else AfterFreshFanOut(old(cronJobs), ts, selector)
      ensures IsLatestTime(ListedItems(if cache.Some? then cache.value else PutAll(old(cronJobs), ts), selector),
                           names, latest)
    {
      var desired;
      desired, names := CreateOrUpdateAll(ts);
      var items := if cache.Some? then cache.value else cronJobs;
      var existing := Listed(items, selector);
      DeleteOthers(existing, desired);
      latest := LatestCronScheduleTime(ListedItems(items, selector), names);
    }

    /** The loop over the storages; `ts[i]` is what is rendered for the storage it has come to. */
    method CreateOrUpdateAll(ts: seq<Template>) returns (desired: set<string>, names: seq<string>)
      modifies this`cronJobs
      ensures cronJobs == PutAll(old(cronJobs), ts)
      ensures names == NamesOf(ts)
      ensures desired == set n | n in names
    {
      desired, names := {}, [];
      for i := 0 to |ts|
        invariant cronJobs == PutAll(old(cronJobs), ts[..i])
        invariant names == NamesOf(ts[..i])
        invariant desired == set n | n in names
      {
        assert ts[..i + 1] == ts[..i] + [ts[i]];
        desired := desired + {ts[i].name};
        names := names + [ts[i].name];
        CreateOrUpdate(ts[i]);
      }
      assert ts[..|ts|] == ts;
    }

    method CreateOrUpdate(t: Template)
      modifies this`cronJobs
      ensures cronJobs == Put(old(cronJobs), t)
    {
      if t.name in cronJobs {
        cronJobs := cronJobs[t.name := cronJobs[t.name].(labels := t.labels, spec := t.spec)];
      } else {
        cronJobs := cronJobs[t.name := CronJob(t.labels, t.spec, None)];
      }
    }

    /** The loop that deletes the listed CronJobs that are not desired. */
    method DeleteOthers(existing: set<string>, desired: set<string>)
      modifies this`cronJobs
      ensures cronJobs == old(cronJobs) - (existing - desired)
    {
      var rest := existing;
      while rest != {}
        invariant rest <= existing
        invariant cronJobs == old(cronJobs) - (existing - rest - desired)
      {
        var n :| n in rest;
        rest := rest - {n};
        if n !in desired {
          cronJobs := cronJobs - {n};
        }
      }
      assert existing - {} - desired == existing - desired;
    }
  }

  ghost predicate ValidPolicy(p: Policy) {
    && TrimSpace(p.sourceRef) != ""
    && |p.storageRefs| > 0 && !HasTwins(p.storageRefs)
    && (p.retentionRef.Some? ==> TrimSpace(p.retentionRef.value) != "")
    && !HasTwins(p.notificationRefs)
    && (TrimSpace(p.cron) != "" || p.suspend)
    && (p.ttlSeconds.Some? ==> p.ttlSeconds.value >= 0)
  }

  // ---------------------------------------------------------------- what the fan-out guarantees

  /** Labels and specification are those rendered for some storage under this name. */
  ghost predicate AsRendered(job: CronJob, ts: seq<Template>, n: string) {
    exists i :: 0 <= i < |ts| && ts[i].name == n && job.labels == ts[i].labels && job.spec == ts[i].spec
  }

  lemma {:induction false} PutAllNames(jobs: CronJobs, ts: seq<Template>)
    ensures PutAll(jobs, ts).Keys == jobs.Keys + set n | n in NamesOf(ts)
    ensures forall n | n in jobs && n !in NamesOf(ts) :: PutAll(jobs, ts)[n] == jobs[n]
    ensures forall n | n in NamesOf(ts) :: AsRendered(PutAll(jobs, ts)[n], ts, n)
  {
    if ts != [] {
      var k := |ts| - 1;
      var init := ts[..k];
      PutAllNames(jobs, init);
      assert NamesOf(ts) == NamesOf(init) + [ts[k].name];
      forall n | n in NamesOf(ts) ensures AsRendered(PutAll(jobs, ts)[n], ts, n) {
        if n != ts[k].name {
          assert AsRendered(PutAll(jobs, init)[n], init, n);
          var i :| 0 <= i < |init| && init[i].name == n && PutAll(jobs, init)[n].labels == init[i].labels
                   && PutAll(jobs, init)[n].spec == init[i].spec;
          assert ts[i] == init[i];
        }
      }
    }
  }

  ghost predicate AllMatch(ts: seq<Template>, selector: LabelMap) {
    forall i | 0 <= i < |ts| :: Matches(ts[i].labels, selector)
  }

  /** A reconcile with a fresh list leaves exactly the desired names among the CronJobs that match
      the selector, each as rendered, and touches no CronJob that neither matches nor is desired. */
  lemma FanOutExact(jobs: CronJobs, ts: seq<Template>, selector: LabelMap)
    requires AllMatch(ts, selector)
    ensures var after := AfterFreshFanOut(jobs, ts, selector);
            && Listed(after, selector) == (set n | n in NamesOf(ts))
            && (forall n | n in NamesOf(ts) :: n in after && AsRendered(after[n], ts, n))
            && (forall n | n !in NamesOf(ts) && (n in jobs ==> !Matches(jobs[n].labels, selector)) ::
                  (n in after <==> n in jobs) && (n in jobs ==> after[n] == jobs[n]))
  {
    PutAllNames(jobs, ts);
    var put, after := PutAll(jobs, ts), AfterFreshFanOut(jobs, ts, selector);
    forall n | n in NamesOf(ts) ensures n in after && Matches(after[n].labels, selector) {
      assert AsRendered(put[n], ts, n);
    }
  }

  /** Updating never touches the status, and a new CronJob has none. */
  lemma {:induction false} SchedulesKept(jobs: CronJobs, ts: seq<Template>)
    ensures forall n | n in PutAll(jobs, ts) ::
              PutAll(jobs, ts)[n].lastScheduleTime == if n in jobs then jobs[n].lastScheduleTime else None
    ensures jobs.Keys <= PutAll(jobs, ts).Keys
  {
    if ts != [] {
      SchedulesKept(jobs, ts[..|ts| - 1]);
    }
  }

  /** The last template of a name decides labels and specification, whatever was there before. */
  lemma {:induction false} PutAllDecides(a: CronJobs, b: CronJobs, ts: seq<Template>, n: string)
    requires n in NamesOf(ts)
    ensures n in PutAll(a, ts) && n in PutAll(b, ts)
    ensures PutAll(a, ts)[n].labels == PutAll(b, ts)[n].labels && PutAll(a, ts)[n].spec == PutAll(b, ts)[n].spec
  {
    var k := |ts| - 1;
    assert NamesOf(ts) == NamesOf(ts[..k]) + [ts[k].name];
    if n != ts[k].name {
      PutAllDecides(a, b, ts[..k], n);
    }
  }

  /** A second reconcile with a fresh list changes nothing. */
  lemma FanOutConverges(jobs: CronJobs, ts: seq<Template>, selector: LabelMap)
    requires AllMatch(ts, selector)
    ensures var after := AfterFreshFanOut(jobs, ts, selector);
            AfterFreshFanOut(after, ts, selector) == after
  {
    var after := AfterFreshFanOut(jobs, ts, selector);
    FanOutExact(jobs, ts, selector);
    PutAllNames(jobs, ts);
    PutAllNames(after, ts);
    SchedulesKept(after, ts);
    var again := PutAll(after, ts);
    forall n | n in again ensures n in after && again[n] == after[n] {
      if n in NamesOf(ts) {
        PutAllDecides(jobs, after, ts, n);
      }
    }
    assert again == after;
  }

  /** However stale the list is, no desired CronJob is deleted, and a CronJob that is neither listed
      nor desired is left as it is. */
  lemma StaleListIsSafe(jobs: CronJobs, ts: seq<Template>, listed: set<string>)
    ensures var after := AfterFanOut(jobs, ts, listed);
            && (forall n | n in NamesOf(ts) :: n in after && after[n] == PutAll(jobs, ts)[n])
            && (forall n | n !in NamesOf(ts) && n in listed :: n !in after)
            && (forall n | n in NamesOf(ts) ::
                  after[n].lastScheduleTime == if n in jobs then jobs[n].lastScheduleTime else None)
            && (forall n | n !in NamesOf(ts) && n !in listed ::
                  (n in after <==> n in jobs) && (n in jobs ==> after[n] == jobs[n]))
  {
    SchedulesKept(jobs, ts);
    PutAllNames(jobs, ts);
  }

  // ---------------------------------------------------------------- of a policy

  /** The CronJob backs the policy's source up to the storage: at the policy's times, unless policy, schedule or
      source is suspended, into the series made of the labels of namespace, source, policy and storage and
      the path that belongs to it, with as many archives as the retention asks for, or three. */
  ghost predicate BacksUp(h: ShortHash, p: Policy, paused: bool, asked: Option<int>, storage: string, job: CronJob) {
    && job.spec.schedule == p.cron
    && (job.spec.suspend <==> p.suspend || p.scheduleSuspend || paused)
    && Split(job.spec.series, '/') == ["source", LabelValue(h, p.namespace), LabelValue(h, p.sourceRef), "policy",
                                       LabelValue(h, p.name), "storage", LabelValue(h, storage)]
    && SeriesLike(job.spec.series) && job.spec.backendPath == BackendPathOf(job.spec.series)
    && job.spec.keepLast == (if asked.Some? && asked.value > 0 then asked.value else 3)
    && Labelled(job.labels, LabelValue(h, "backup"), LabelValue(h, "BackupPolicy"), LabelValue(h, p.name),
                LabelValue(h, p.sourceRef), LabelValue(h, storage))
  }

  /** All the labels there are. */
  ghost predicate Labelled(labels: LabelMap, operation: string, kind: string, policy: string, source: string,
                           storage: string)
  {
    labels == map[ManagedBy := "data-protection-operator", Operation := operation, ExecutionKind := kind,
                  ExecutionName := policy, SourceName := source, StorageName := storage, PolicyName := policy]
  }

  /** Every storage of the policy whose CronJob name no later one has, has such a CronJob under the name made of
      policy, storage and "backup" within 52 characters. */
  ghost predicate Serves(h: ShortHash, p: Policy, paused: bool, asked: Option<int>, jobs: CronJobs) {
    forall i | 0 <= i < |p.storageRefs| && LastNamed(h, p, i) ::
      var n := CronJobName(h, p.name, p.storageRefs[i]);
      && IsNameOf(h, 52, [p.name, p.storageRefs[i], "backup"], n)
      && n in jobs && BacksUp(h, p, paused, asked, p.storageRefs[i], jobs[n])
  }

  ghost predicate LastNamed(h: ShortHash, p: Policy, i: nat)
    requires i < |p.storageRefs|
  {
    forall j | i < j < |p.storageRefs| ::
      CronJobName(h, p.name, p.storageRefs[j]) != CronJobName(h, p.name, p.storageRefs[i])
  }

  lemma RenderedBacksUp(h: ShortHash, p: Policy, paused: bool, asked: Option<int>, storage: string, job: CronJob)
    requires p.name != ""
    requires job.spec == Rendered(h, p, Resolved(paused, EffectiveKeepLast(asked)), storage)
    requires job.labels == ManagedLabels(h, p, storage)
    ensures BacksUp(h, p, paused, asked, storage, job)
  {
    SplitsBack(h, RunOf(p, storage));
    PathOfSeries(h, RunOf(p, storage));
  }

  /** The last template of a name decides what is left under it. */
  lemma {:induction false} LastDecides(jobs: CronJobs, ts: seq<Template>, i: nat)
    requires i < |ts| && forall j | i < j < |ts| :: ts[j].name != ts[i].name
    ensures ts[i].name in PutAll(jobs, ts)
    ensures PutAll(jobs, ts)[ts[i].name].labels == ts[i].labels && PutAll(jobs, ts)[ts[i].name].spec == ts[i].spec
  {
    if i < |ts| - 1 {
      LastDecides(jobs, ts[..|ts| - 1], i);
    }
  }

  lemma ListedServes(h: ShortHash, p: Policy, r: Resolved, asked: Option<int>, jobs: CronJobs, listed: set<string>)
    requires p.name != "" && r.keepLast == EffectiveKeepLast(asked)
    ensures Serves(h, p, r.paused, asked, AfterFanOut(jobs, Templates(h, p, r), listed))
  {
    var ts := Templates(h, p, r);
    StaleListIsSafe(jobs, ts, listed);
    forall i | 0 <= i < |p.storageRefs| && LastNamed(h, p, i)
      ensures var n, after := CronJobName(h, p.name, p.storageRefs[i]), AfterFanOut(jobs, ts, listed);
              && IsNameOf(h, 52, [p.name, p.storageRefs[i], "backup"], n)
              && n in after && BacksUp(h, p, r.paused, asked, p.storageRefs[i], after[n])
    {
      assert NamesOf(ts)[i] == ts[i].name;
      LastDecides(jobs, ts, i);
      NameExact(h, 52, [p.name, p.storageRefs[i], "backup"]);
      RenderedBacksUp(h, p, r.paused, asked, p.storageRefs[i], PutAll(jobs, ts)[ts[i].name]);
    }
  }

  /** A successful reconcile leaves such CronJobs, whatever there was before and however stale the list is. */
  lemma FanOutServes(h: ShortHash, p: Policy, r: Resolved, asked: Option<int>, jobs: CronJobs, cache: Option<CronJobs>)
    requires p.name != "" && r.keepLast == EffectiveKeepLast(asked)
    ensures Serves(h, p, r.paused, asked,
                   if cache.Some? then AfterFanOut(jobs, Templates(h, p, r), Listed(cache.value, Selector(h, p.name)))
                   else AfterFreshFanOut(jobs, Templates(h, p, r), Selector(h, p.name)))
  {
    ListedServes(h, p, r, asked, jobs,
                 Listed(if cache.Some? then cache.value else PutAll(jobs, Templates(h, p, r)), Selector(h, p.name)));
  }

  lemma NamesAreDesired(h: ShortHash, p: Policy, r: Resolved)
    ensures NamesOf(Templates(h, p, r)) == DesiredNames(h, p.name, p.storageRefs)
  {
  }

  /** What is rendered for a policy matches the policy's selector. */
  lemma TemplatesMatch(h: ShortHash, p: Policy, r: Resolved)
    ensures AllMatch(Templates(h, p, r), Selector(h, p.name))
  {
    var ts, selector := Templates(h, p, r), Selector(h, p.name);
    forall i | 0 <= i < |ts| ensures Matches(ts[i].labels, selector) {
      LabelsMatch(h, p, p.storageRefs[i]);
    }
  }

  lemma LabelsMatch(h: ShortHash, p: Policy, storage: string)
    ensures Matches(ManagedLabels(h, p, storage), Selector(h, p.name))
  {
    ManagedMatches(LabelValue(h, "backup"), LabelValue(h, "BackupPolicy"), LabelValue(h, p.name),
                   LabelValue(h, p.sourceRef), LabelValue(h, storage));
  }

  lemma ManagedMatches(operation: string, kind: string, policy: string, source: string, storage: string)
    ensures Matches(Managed(operation, kind, policy, source, storage), Selecting(operation, kind, policy))
  {
  }

  /** After a successful reconcile with a fresh list, the CronJobs that carry the policy's labels are
      exactly the desired ones, and reconciling again changes nothing. */
  lemma PolicyConverges(h: ShortHash, jobs: CronJobs, p: Policy, r: Resolved)
    ensures var ts, selector := Templates(h, p, r), Selector(h, p.name);
            var after := AfterFreshFanOut(jobs, ts, selector);
            && Listed(after, selector) == (set n | n in DesiredNames(h, p.name, p.storageRefs))
            && (forall n | n in DesiredNames(h, p.name, p.storageRefs) :: n in after && AsRendered(after[n], ts, n))
            && AfterFreshFanOut(after, ts, selector) == after
  {
    TemplatesMatch(h, p, r);
    NamesAreDesired(h, p, r);
    FanOutExact(jobs, Templates(h, p, r), Selector(h, p.name));
    FanOutConverges(jobs, Templates(h, p, r), Selector(h, p.name));
  }

  /** No CronJob carries the labels of two policies whose names have different label values. */
  lemma SelectorsApart(h: ShortHash, p: string, q: string, labels: LabelMap)
    requires LabelValue(h, p) != LabelValue(h, q) && Matches(labels, Selector(h, q))
    ensures !Matches(labels, Selector(h, p))
  {
    assert PolicyName in Selector(h, p) && PolicyName in Selector(h, q);
  }

  /** A CronJob of another policy is left alone, if the policies' names have different label values
      and it does not have the name of a desired CronJob. */
  lemma OtherPolicyUntouched(h: ShortHash, jobs: CronJobs, p: Policy, r: Resolved, q: string, n: string)
    requires n in jobs && Matches(jobs[n].labels, Selector(h, q))
    requires LabelValue(h, p.name) != LabelValue(h, q)
    requires n !in DesiredNames(h, p.name, p.storageRefs)
    ensures var after := AfterFreshFanOut(jobs, Templates(h, p, r), Selector(h, p.name));
            n in after && after[n] == jobs[n]
  {
    TemplatesMatch(h, p, r);
    NamesAreDesired(h, p, r);
    SelectorsApart(h, p.name, q, jobs[n].labels);
    FanOutExact(jobs, Templates(h, p, r), Selector(h, p.name));
  }

  /** The names in the status are those that `PredictCronJobNames` predicts, when the references are
      trimmed and not blank, as the names of storages are. */
  lemma StatusAsPredicted(h: ShortHash, p: Policy, r: Resolved)
    requires forall i | 0 <= i < |p.storageRefs| ::
               p.storageRefs[i] != "" && TrimSpace(p.storageRefs[i]) == p.storageRefs[i]
    ensures SortStrings(NamesOf(Templates(h, p, r))) == Predicted(h, p.name, p.storageRefs)
  {
    NamesAreDesired(h, p, r);
    TrimmedAlready(p.storageRefs);
  }
}
