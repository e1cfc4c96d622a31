/** Inspection jobs: requests for one object version share a job through a locked map, processors
    publish their outcomes one by one, and results reach the cache by rename. */
module Inspect {
  import opened Sequences
  import Runs

  /** The object version a job works on. */
  datatype Object = Object(key: string, version: string, size: nat)

  /** `applies` is `Processor::check`; a cache id is the processor and the object version. */
  datatype Config = Config(processors: seq<string>, applies: (string, Object) -> bool)

  type CacheId = (string, Object)

  datatype Outcome = Ok | Failed

  datatype JobPhase =
    | Starting                 // waiting for a slot, a work dir and the download
    | Running                  // about to run `plan[next]`, or done with all of them
    | Storing                  // complete output dir and manifest written in the work dir
    | Moved                    // any previous result moved out of the way
    | Renamed                  // new result in place, not yet published
    | Dropping                 // run over; the drop guard comes next
    | Unregistered
    | Ended

  /** `stored` is history: the processors whose result this job renamed into the cache. */
  datatype Job = Job(item: Object, plan: seq<string>, next: nat, phase: JobPhase,
                     done: map<string, Outcome>, stored: set<string>, panicked: bool)

  datatype RequestPhase = Looking | Joining | Waiting(job: nat) | Answered | FellThrough

  /** `began` is the job counter when the request came in. */
  datatype Request = Request(item: Object, wanted: string, round: nat, began: nat, phase: RequestPhase)

  /** `cache` says which results exist and whether they are fresh; `doomed` is what a sweep decided to remove. */
  datatype State = State(
    registered: map<Object, nat>,
    jobs: map<nat, Job>,
    nextJob: nat,
    cache: map<CacheId, bool>,
    doomed: set<CacheId>,
    requests: map<nat, Request>)

  /** What a job does next; the first two branch on what the download or the processor did. */
  datatype Action =
    | Download(ok: bool)
    | RunFails | RunCompletes | MoveStale | StoreFails | Rename | Publish
    | EndRun | Panic | Unregister | MarkFinished

  datatype Step =
    | Ask(id: nat, item: Object, wanted: string)
    | Round(id: nat)                     // lookup and join at once
    | LookUp(id: nat) | Join(id: nat)    // the same as two steps
    | Wake(id: nat)
    | Act(j: nat, action: Action)
    | Expire(entry: CacheId) | SweepSees(entry: CacheId) | SweepRemoves(entry: CacheId)

  predicate Fresh(cache: map<CacheId, bool>, entry: CacheId) {
    entry in cache && cache[entry]
  }

  function Plan(c: Config, cache: map<CacheId, bool>, wanted: string, item: Object): seq<string> {
    var others := Filter((p: string) => p != wanted, c.processors);
    Filter((p: string) => c.applies(p, item) && !Fresh(cache, (p, item)), [wanted] + others)
  }

  predicate Active(job: Job) {
    !job.phase.Unregistered? && !job.phase.Ended?
  }

  function Current(job: Job): CacheId
    requires job.next < |job.plan|
  {
    (job.plan[job.next], job.item)
  }

  predicate CanAct(job: Job, action: Action) {
    match action
    case Download(_) => job.phase.Starting?
    case RunFails => job.phase.Running? && job.next < |job.plan|
    case RunCompletes => job.phase.Running? && job.next < |job.plan|
    case MoveStale => job.phase.Storing? && job.next < |job.plan|
    case StoreFails => (job.phase.Storing? || job.phase.Moved?) && job.next < |job.plan|
    case Rename => job.phase.Moved? && job.next < |job.plan|
    case Publish => job.phase.Renamed? && job.next < |job.plan|
    case EndRun => job.phase.Running? && job.next == |job.plan|
    case Panic => Active(job) && !job.phase.Dropping?
    case Unregister => job.phase.Dropping?
    case MarkFinished => job.phase.Unregistered?
  }

  function Record(job: Job, outcome: Outcome): Job
    requires job.next < |job.plan|
  {
    job.(done := job.done[job.plan[job.next] := outcome], next := job.next + 1, phase := Running)
  }

  function AfterAct(job: Job, action: Action): Job
    requires CanAct(job, action)
  {
    match action
    case Download(ok) =>
      if ok then job.(phase := Running)
      else job.(phase := Dropping, done := map p | p in job.plan :: if p in job.done then job.done[p] else Failed)
    case RunFails => Record(job, Failed)
    case RunCompletes => job.(phase := Storing)
    case MoveStale => job.(phase := Moved)
    case StoreFails => Record(job, Failed)
    case Rename => job.(phase := Renamed, stored := job.stored + {Current(job).0})
    case Publish => Record(job, Ok)
    case EndRun => job.(phase := Dropping)
    case Panic => job.(phase := Dropping, panicked := true)
    case Unregister => job.(phase := Unregistered)
    case MarkFinished => job.(phase := Ended)
  }

  function CacheAfter(cache: map<CacheId, bool>, job: Job, action: Action): map<CacheId, bool>
    requires CanAct(job, action)
  {
    if action.MoveStale? then cache - {Current(job)}
    else if action.Rename? then cache[Current(job) := true]
    else cache
  }

  predicate AtRequest(s: State, id: nat) {
    id in s.requests
  }

  predicate Enabled(c: Config, s: State, step: Step) {
    match step
    case Ask(id, item, wanted) => id !in s.requests && wanted in c.processors && c.applies(wanted, item)
    case Round(id) => AtRequest(s, id) && s.requests[id].phase.Looking?
    case LookUp(id) => AtRequest(s, id) && s.requests[id].phase.Looking?
    case Join(id) => AtRequest(s, id) && s.requests[id].phase.Joining?
    case Wake(id) =>
      && AtRequest(s, id) && s.requests[id].phase.Waiting? && s.requests[id].phase.job in s.jobs
      && var job := s.jobs[s.requests[id].phase.job];
         s.requests[id].wanted in job.done || job.phase.Ended?
    case Act(j, action) =>
      // A directory cannot be renamed over a result that is still there.
      j in s.jobs && CanAct(s.jobs[j], action) && (action.Rename? ==> Current(s.jobs[j]) !in s.cache)
    case Expire(e) => e in s.cache
    case SweepSees(e) => e in s.cache && !s.cache[e]
    case SweepRemoves(e) => e in s.doomed
  }

  function SetRequest(s: State, id: nat, r: Request): State {
    s.(requests := s.requests[id := r])
  }

  /** The next turn of `get`'s loop, which has two. */
  function NextRound(r: Request): Request {
    r.(round := r.round + 1, phase := if r.round + 1 < 2 then Looking else FellThrough)
  }

  function NewJob(c: Config, cache: map<CacheId, bool>, r: Request): Job {
    Job(r.item, Plan(c, cache, r.wanted, r.item), 0, Starting, map[], {}, false)
  }

  /** `join_or_start`, one critical section under the jobs lock. */
  function JoinOrStart(c: Config, s: State, id: nat): State
    requires id in s.requests
  {
    var r := s.requests[id];
    if r.item in s.registered then SetRequest(s, id, r.(phase := Waiting(s.registered[r.item])))
    else
      var plan := Plan(c, s.cache, r.wanted, r.item);
      if plan == [] || plan[0] != r.wanted then SetRequest(s, id, NextRound(r))
      else
        SetRequest(s, id, r.(phase := Waiting(s.nextJob)))
          .(registered := s.registered[r.item := s.nextJob], nextJob := s.nextJob + 1,
            jobs := s.jobs[s.nextJob := NewJob(c, s.cache, r)])
  }

  function Take(c: Config, s: State, step: Step): State
    requires Enabled(c, s, step)
  {
    match step
    case Ask(id, item, wanted) => SetRequest(s, id, Request(item, wanted, 0, s.nextJob, Looking))
    case Round(id) =>
      var r := s.requests[id];
      if Fresh(s.cache, (r.wanted, r.item)) then SetRequest(s, id, r.(phase := Answered)) else JoinOrStart(c, s, id)
    case LookUp(id) =>
      var r := s.requests[id];
      SetRequest(s, id, r.(phase := if Fresh(s.cache, (r.wanted, r.item)) then Answered else Joining))
    case Join(id) => JoinOrStart(c, s, id)
    case Wake(id) =>
      var r := s.requests[id];
      SetRequest(s, id, if r.wanted in s.jobs[r.phase.job].done then r.(phase := Answered) else NextRound(r))
    case Act(j, action) =>
      var job := s.jobs[j];
      s.(jobs := s.jobs[j := AfterAct(job, action)],
         cache := CacheAfter(s.cache, job, action),
         registered := if action.Unregister? && job.item in s.registered && s.registered[job.item] == j
                       then s.registered - {job.item} else s.registered)
    case Expire(e) => s.(cache := s.cache[e := false])
    case SweepSees(e) => s.(doomed := s.doomed + {e})
    case SweepRemoves(e) => s.(cache := s.cache - {e}, doomed := s.doomed - {e})
  }

  /** The cache survives restarts, so a run may start with results from before. */
  ghost predicate Init(s: State) {
    s.registered == map[] && s.jobs == map[] && s.requests == map[] && s.doomed == {}
  }

  ghost predicate Next(c: Config, s: State, s': State) {
    exists step :: Enabled(c, s, step) && s' == Take(c, s, step)
  }

  ghost predicate IsRun(c: Config, run: seq<State>) {
    |run| > 0 && Init(run[0]) && Runs.Steps((s, s') => Next(c, s, s'), run, 0, |run| - 1)
  }

  // ---- jobs -----------------------------------------------------------------------------

  ghost predicate RegistryInv(s: State) {
    && (forall o :: o in s.registered ==>
        s.registered[o] in s.jobs && s.jobs[s.registered[o]].item == o && Active(s.jobs[s.registered[o]]))
    && (forall j :: j in s.jobs && Active(s.jobs[j]) ==>
        s.jobs[j].item in s.registered && s.registered[s.jobs[j].item] == j)
    && (forall j :: j in s.jobs ==> j < s.nextJob)
  }

  ghost predicate JobInv(job: Job) {
    && Distinct(job.plan) && job.next <= |job.plan|
    && (job.phase.Starting? ==> job.next == 0 && job.stored == {})
    && (job.phase in {Storing, Moved, Renamed} ==> job.next < |job.plan|)
    && (job.phase in {Starting, Running, Storing, Moved, Renamed} ==>
          !job.panicked && forall p :: p in job.done <==> p in job.plan[..job.next])
    && (forall p :: p in job.done ==> p in job.plan)
    && (!job.panicked && job.phase in {Dropping, Unregistered, Ended} ==> forall p :: p in job.plan ==> p in job.done)
    && (forall p :: p in job.done && job.done[p].Ok? ==> p in job.stored)
    && (job.phase.Renamed? ==> job.plan[job.next] in job.stored)
  }

  /** What a job still has to store is not fresh: nobody else writes those results. */
  ghost predicate StaleAhead(cache: map<CacheId, bool>, job: Job) {
    job.phase in {Starting, Running, Storing, Moved, Renamed} ==>
      forall i :: job.next <= i < |job.plan| && !(job.phase.Renamed? && i == job.next) ==>
          !Fresh(cache, (job.plan[i], job.item))
  }

  ghost predicate Inv(s: State) {
    && RegistryInv(s)
    && (forall j :: j in s.jobs ==> JobInv(s.jobs[j]))
    && (forall j :: j in s.jobs ==> StaleAhead(s.cache, s.jobs[j]))
  }

  lemma PlanIsDistinct(c: Config, cache: map<CacheId, bool>, wanted: string, item: Object)
    requires Distinct(c.processors)
    ensures Distinct(Plan(c, cache, wanted, item))
  {
    var others := Filter((p: string) => p != wanted, c.processors);
    var differ := (p: string, q: string) => p != q;
    assert StrictlyOrdered(differ, c.processors);
    FilterOrdered(differ, (p: string) => p != wanted, c.processors);
    FilterMembers((p: string) => p != wanted, c.processors);
    assert StrictlyOrdered(differ, [wanted] + others);
    FilterOrdered(differ, (p: string) => c.applies(p, item) && !Fresh(cache, (p, item)), [wanted] + others);
  }

  lemma PlanIsStale(c: Config, cache: map<CacheId, bool>, wanted: string, item: Object)
    ensures forall i :: 0 <= i < |Plan(c, cache, wanted, item)| ==>
            !Fresh(cache, (Plan(c, cache, wanted, item)[i], item))
  {
    var others := Filter((q: string) => q != wanted, c.processors);
    FilterMembers((p: string) => c.applies(p, item) && !Fresh(cache, (p, item)), [wanted] + others);
  }

  /** A plan holds exactly the processors that apply and have no fresh result, the wanted one among them. */
  lemma PlanLeavesOutOnlyFresh(c: Config, cache: map<CacheId, bool>, wanted: string, item: Object, p: string)
    ensures p in Plan(c, cache, wanted, item) <==>
            (p == wanted || p in c.processors) && c.applies(p, item) && !Fresh(cache, (p, item))
  {
    var isOther := (q: string) => q != wanted;
    var others := Filter(isOther, c.processors);
    FilterIn(isOther, c.processors, p);
    FilterIn((q: string) => c.applies(q, item) && !Fresh(cache, (q, item)), [wanted] + others, p);
    assert p in [wanted] + others <==> p == wanted || p in others;
  }

  lemma ActKeepsJobInv(job: Job, action: Action)
    requires JobInv(job) && CanAct(job, action)
    ensures JobInv(AfterAct(job, action))
  {
    match action
    case RunFails => RecordKeepsJobInv(job, Failed);
    case StoreFails => RecordKeepsJobInv(job, Failed);
    case Publish => RecordKeepsJobInv(job, Ok);
    case EndRun => assert job.plan[..job.next] == job.plan;
    case _ =>
  }

  lemma RecordKeepsJobInv(job: Job, outcome: Outcome)
    requires JobInv(job) && job.phase in {Running, Storing, Moved, Renamed} && job.next < |job.plan|
    requires outcome.Ok? ==> job.phase.Renamed?
    ensures JobInv(Record(job, outcome))
  {
    assert job.plan[..job.next + 1] == job.plan[..job.next] + [job.plan[job.next]];
  }

  ghost predicate IsStartedBy(c: Config, s: State, step: Step, j: nat, job: Job) {
    && (step.Round? || step.Join?)
    && j == s.nextJob
    && step.id in s.requests
    && job == NewJob(c, s.cache, s.requests[step.id])
  }

  function JobAfter(s: State, step: Step, j: nat): Job
    requires j in s.jobs && (step.Act? && step.j == j ==> CanAct(s.jobs[j], step.action))
  {
    if step.Act? && step.j == j then AfterAct(s.jobs[j], step.action) else s.jobs[j]
  }

  /** A step either advances one job by one action, or starts a planned one, or leaves all jobs alone. */
  lemma JobsAfter(c: Config, s: State, step: Step)
    requires Enabled(c, s, step) && s.nextJob !in s.jobs
    ensures forall j :: j in s.jobs ==> (j in Take(c, s, step).jobs && Take(c, s, step).jobs[j] == JobAfter(s, step, j))
    ensures forall j :: j in Take(c, s, step).jobs && j !in s.jobs ==>
              IsStartedBy(c, s, step, j, Take(c, s, step).jobs[j])
  {
  }

  lemma JobsStepInv(c: Config, s: State, step: Step)
    requires Inv(s) && Enabled(c, s, step) && Distinct(c.processors)
    ensures forall j :: j in Take(c, s, step).jobs ==> JobInv(Take(c, s, step).jobs[j])
  {
    var s' := Take(c, s, step);
    JobsAfter(c, s, step);
    if step.Act? { ActKeepsJobInv(s.jobs[step.j], step.action); }
    if (step.Round? || step.Join?) {
      var r := s.requests[step.id];
      PlanIsDistinct(c, s.cache, r.wanted, r.item);
    }
    forall j | j in s'.jobs ensures JobInv(s'.jobs[j]) {
      assert j in s.jobs ==> JobInv(s.jobs[j]);
    }
  }

  lemma ActKeepsRegistry(c: Config, s: State, j: nat, action: Action)
    requires RegistryInv(s) && Enabled(c, s, Act(j, action))
    ensures RegistryInv(Take(c, s, Act(j, action)))
  {
    var job' := AfterAct(s.jobs[j], action);
    assert job'.item == s.jobs[j].item;
    assert Active(job') <==> Active(s.jobs[j]) && !action.Unregister?;
    if action.Unregister? {
      UnregisteredKeeps(s, Take(c, s, Act(j, action)), j, job');
    } else {
      AdvancedKeeps(s, Take(c, s, Act(j, action)), j, job');
    }
  }

  lemma AdvancedKeeps(s: State, s': State, j: nat, job': Job)
    requires RegistryInv(s) && j in s.jobs && job'.item == s.jobs[j].item && Active(job') == Active(s.jobs[j])
    requires s'.jobs == s.jobs[j := job'] && s'.registered == s.registered && s'.nextJob == s.nextJob
    ensures RegistryInv(s')
  {
  }

  lemma UnregisteredKeeps(s: State, s': State, j: nat, job': Job)
    requires RegistryInv(s) && j in s.jobs && job'.item == s.jobs[j].item && Active(s.jobs[j]) && !Active(job')
    requires s'.jobs == s.jobs[j := job'] && s'.nextJob == s.nextJob
    requires s'.registered == s.registered - {job'.item}
    ensures RegistryInv(s')
  {
  }

  lemma JoinKeepsRegistry(c: Config, s: State, id: nat)
    requires RegistryInv(s) && id in s.requests
    ensures RegistryInv(JoinOrStart(c, s, id))
  {
    var s' := JoinOrStart(c, s, id);
    if s'.nextJob != s.nextJob {
      StartedKeeps(s, s', NewJob(c, s.cache, s.requests[id]));
    }
  }

  lemma StartedKeeps(s: State, s': State, job: Job)
    requires RegistryInv(s) && job.item !in s.registered && Active(job)
    requires s'.jobs == s.jobs[s.nextJob := job] && s'.registered == s.registered[job.item := s.nextJob]
    requires s'.nextJob == s.nextJob + 1
    ensures RegistryInv(s')
  {
  }

  lemma RegistryStepInv(c: Config, s: State, step: Step)
    requires RegistryInv(s) && Enabled(c, s, step)
    ensures RegistryInv(Take(c, s, step))
  {
    match step {
      case Act(j, action) => ActKeepsRegistry(c, s, j, action);
      case Round(id) => JoinKeepsRegistry(c, s, id);
      case Join(id) => JoinKeepsRegistry(c, s, id);
      case _ =>
    }
  }

  /** Only a rename makes a result fresh, and only one that the renaming job's plan was due to store. */
  lemma FreshAfter(c: Config, s: State, step: Step, e: CacheId)
    requires Enabled(c, s, step) && Fresh(Take(c, s, step).cache, e)
    ensures Fresh(s.cache, e) || (step.Act? && step.action.Rename? && e == Current(s.jobs[step.j]))
  {
  }

  lemma StaleStep(c: Config, s: State, step: Step, j: nat, later: Job)
    requires Inv(s) && Enabled(c, s, step) && j in s.jobs
    requires later == if step.Act? && step.j == j then AfterAct(s.jobs[j], step.action) else s.jobs[j]
    ensures StaleAhead(Take(c, s, step).cache, later)
  {
    var job, cache := s.jobs[j], Take(c, s, step).cache;
    assert StaleAhead(s.cache, job) && JobInv(job) && later.plan == job.plan && later.item == job.item;
    if job.phase in {Starting, Running, Storing, Moved, Renamed} {
      forall i | job.next <= i < |job.plan| && Fresh(cache, (job.plan[i], job.item))
        ensures Fresh(s.cache, (job.plan[i], job.item)) || (step == Act(j, Rename) && i == job.next)
      {
        FreshAfter(c, s, step, (job.plan[i], job.item));
        if step.Act? && step.action.Rename? && step.j != j {
          OneWriterPerResult(s, j, step.j);
        }
      }
      StaleStays(s.cache, cache, job, later, step == Act(j, Rename));
    }
  }

  /** Two active jobs do not work on the same object version, so neither stores what the other plans. */
  lemma OneWriterPerResult(s: State, j: nat, k: nat)
    requires RegistryInv(s) && j in s.jobs && k in s.jobs && j != k && Active(s.jobs[j]) && Active(s.jobs[k])
    ensures s.jobs[j].item != s.jobs[k].item
  {
  }

  lemma StaleStays(cache: map<CacheId, bool>, cache': map<CacheId, bool>, job: Job, later: Job, renames: bool)
    requires StaleAhead(cache, job) && job.phase in {Starting, Running, Storing, Moved, Renamed}
    requires later.plan == job.plan && later.item == job.item && job.next <= later.next
    requires renames ==> later.phase.Renamed? && later.next == job.next
    requires job.phase.Renamed? && later.next == job.next ==>
               later.phase.Renamed? || later.phase in {Dropping, Unregistered, Ended}
    requires forall i :: job.next <= i < |job.plan| && Fresh(cache', (job.plan[i], job.item)) ==>
               Fresh(cache, (job.plan[i], job.item)) || (renames && i == job.next)
    ensures StaleAhead(cache', later)
  {
  }

  lemma StaleStepInv(c: Config, s: State, step: Step)
    requires Inv(s) && Enabled(c, s, step)
    ensures forall j :: j in Take(c, s, step).jobs ==> StaleAhead(Take(c, s, step).cache, Take(c, s, step).jobs[j])
  {
    var s' := Take(c, s, step);
    JobsAfter(c, s, step);
    forall j | j in s'.jobs ensures StaleAhead(s'.cache, s'.jobs[j]) {
      if j in s.jobs {
        StaleStep(c, s, step, j, s'.jobs[j]);
      } else {
        var r := s.requests[step.id];
        PlanIsStale(c, s.cache, r.wanted, r.item);
        NewJobLeavesCache(c, s, step);
      }
    }
  }

  lemma NewJobLeavesCache(c: Config, s: State, step: Step)
    requires Enabled(c, s, step) && (step.Round? || step.Join?)
    ensures Take(c, s, step).cache == s.cache
  {
  }

  lemma InvHolds(c: Config, run: seq<State>, i: nat)
    requires IsRun(c, run) && Distinct(c.processors) && i < |run|
    ensures Inv(run[i])
  {
    var next := (s, s') => Next(c, s, s');
    forall s, s' | Inv(s) && next(s, s') ensures Inv(s') { StepInv(c, s, s'); }
    Runs.Invariant(next, Inv, run, 0, i);
  }

  lemma StepInv(c: Config, s: State, s': State)
    requires Inv(s) && Next(c, s, s') && Distinct(c.processors)
    ensures Inv(s')
  {
    var step :| Enabled(c, s, step) && s' == Take(c, s, step);
    JobsStepInv(c, s, step);
    RegistryStepInv(c, s, step);
    StaleStepInv(c, s, step);
  }

  /** One object version never has two jobs at work, so each cache id has one writer and one download. */
  lemma OneJobPerVersion(c: Config, run: seq<State>, i: nat, j: nat, k: nat)
    requires IsRun(c, run) && Distinct(c.processors) && i < |run|
    requires j in run[i].jobs && k in run[i].jobs && Active(run[i].jobs[j]) && Active(run[i].jobs[k])
    requires run[i].jobs[j].item == run[i].jobs[k].item
    ensures j == k
  {
    InvHolds(c, run, i);
  }

  /** A job that ended without a panic has an outcome for each planned processor and for no other, and
      claims success only for results it had renamed into the cache. */
  lemma EndedJobIsComplete(c: Config, run: seq<State>, i: nat, j: nat)
    requires IsRun(c, run) && Distinct(c.processors) && i < |run| && j in run[i].jobs
    ensures var job := run[i].jobs[j];
            && (job.phase.Ended? && !job.panicked ==> forall p :: p in job.done <==> p in job.plan)
            && (forall p :: p in job.done ==> p in job.plan)
            && (forall p :: p in job.done && job.done[p].Ok? ==> p in job.stored)
  {
    InvHolds(c, run, i);
  }

  ghost predicate Keeps(job: Job, later: Job) {
    && later.plan == job.plan && later.item == job.item
    && (forall p :: p in job.done ==> p in later.done && later.done[p] == job.done[p])
  }

  lemma ActKeepsOutcomes(job: Job, action: Action)
    requires JobInv(job) && CanAct(job, action)
    ensures Keeps(job, AfterAct(job, action))
  {
    if job.next < |job.plan| {
      forall p | p in job.plan[..job.next] ensures p != job.plan[job.next] {
        var i :| 0 <= i < job.next && job.plan[..job.next][i] == p;
      }
    }
  }

  lemma StepKeepsOutcomes(c: Config, s: State, s': State, j: nat)
    requires Inv(s) && Next(c, s, s') && j in s.jobs
    ensures j in s'.jobs && Keeps(s.jobs[j], s'.jobs[j])
  {
    var step :| Enabled(c, s, step) && s' == Take(c, s, step);
    JobsAfter(c, s, step);
    if step.Act? && step.j == j { ActKeepsOutcomes(s.jobs[j], step.action); }
  }

  /** A published outcome is never withdrawn or replaced. */
  lemma OutcomesNeverChange(c: Config, run: seq<State>, i: nat, k: nat, j: nat)
    requires IsRun(c, run) && Distinct(c.processors) && i <= k < |run| && j in run[i].jobs
    ensures j in run[k].jobs && Keeps(run[i].jobs[j], run[k].jobs[j])
  {
    var next := (s, s') => Next(c, s, s');
    var job := run[i].jobs[j];
    var kept := (s: State) => Inv(s) && j in s.jobs && Keeps(job, s.jobs[j]);
    forall s, s' | kept(s) && next(s, s') ensures kept(s') {
      StepInv(c, s, s');
      StepKeepsOutcomes(c, s, s', j);
    }
    InvHolds(c, run, i);
    Runs.Invariant(next, kept, run, i, k);
  }

  // ---- two rounds ---------------------------------------------------------------------------

  /** No panic of a job for this object, no expiry of the wanted result, and each round's lookup and
      join in one step. */
  ghost predicate Calm(s: State, id: nat, step: Step)
    requires id in s.requests
  {
    var r := s.requests[id];
    && !(step.Act? && step.action.Panic? && step.j in s.jobs && s.jobs[step.j].item == r.item)
    && !((step.Expire? || step.SweepRemoves?) && step.entry == (r.wanted, r.item) && Fresh(s.cache, step.entry))
    && !((step.LookUp? || step.Join?) && step.id == id)
  }

  ghost predicate CalmNext(c: Config, id: nat, s: State, s': State) {
    id in s.requests && exists step :: Enabled(c, s, step) && Calm(s, id, step) && s' == Take(c, s, step)
  }

  ghost predicate StartedLater(c: Config, s: State, r: Request) {
    forall j :: j in s.jobs && j >= r.began && s.jobs[j].item == r.item ==>
      !s.jobs[j].panicked && (r.wanted in s.jobs[j].plan || Fresh(s.cache, (r.wanted, r.item)))
  }

  ghost predicate RoundInv(c: Config, s: State, id: nat) {
    && id in s.requests
    && var r := s.requests[id];
    && r.wanted in c.processors && c.applies(r.wanted, r.item) && r.began <= s.nextJob && StartedLater(c, s, r)
    && match r.phase
       case Looking => r.round == 0 || (r.round == 1 && (r.item in s.registered ==> s.registered[r.item] >= r.began))
       case Waiting(j) =>
         && j in s.jobs && s.jobs[j].item == r.item
         && (r.round == 0 || (r.round == 1 && j >= r.began && r.wanted in s.jobs[j].plan))
         && (r.item in s.registered ==> s.registered[r.item] == j || s.registered[r.item] >= r.began)
       case Answered => true
       case _ => false
  }

  lemma WantedStaysFresh(c: Config, s: State, id: nat, step: Step)
    requires Inv(s) && id in s.requests && Enabled(c, s, step) && Calm(s, id, step)
    ensures var e := (s.requests[id].wanted, s.requests[id].item);
            Fresh(s.cache, e) ==> Fresh(Take(c, s, step).cache, e)
  {
    if step.Act? && step.action.MoveStale? {
      var job := s.jobs[step.j];
      assert JobInv(job) && StaleAhead(s.cache, job);
      assert !Fresh(s.cache, (job.plan[job.next], job.item));
    }
  }

  lemma StartedLaterStep(c: Config, s: State, id: nat, step: Step)
    requires Inv(s) && RoundInv(c, s, id) && Enabled(c, s, step) && Calm(s, id, step)
    ensures StartedLater(c, Take(c, s, step), s.requests[id])
  {
    var s', r := Take(c, s, step), s.requests[id];
    JobsAfter(c, s, step);
    WantedStaysFresh(c, s, id, step);
    forall j | j in s'.jobs && j >= r.began && s'.jobs[j].item == r.item
      ensures !s'.jobs[j].panicked && (r.wanted in s'.jobs[j].plan || Fresh(s'.cache, (r.wanted, r.item)))
    {
      if j in s.jobs {
        assert !s.jobs[j].panicked && s'.jobs[j] == JobAfter(s, step, j);
      } else {
        var starter := s.requests[step.id];
        PlanLeavesOutOnlyFresh(c, s.cache, starter.wanted, r.item, r.wanted);
        assert s'.jobs[j] == NewJob(c, s.cache, starter);
      }
    }
  }

  /** Joining in a round: the job that answers plans the wanted processor from the second round on. */
  lemma OwnRoundStep(c: Config, s: State, id: nat)
    requires Inv(s) && RoundInv(c, s, id) && Enabled(c, s, Round(id))
    requires StartedLater(c, Take(c, s, Round(id)), s.requests[id])
    ensures RoundInv(c, Take(c, s, Round(id)), id)
  {
    var r := s.requests[id];
    var plan := Plan(c, s.cache, r.wanted, r.item);
    if !Fresh(s.cache, (r.wanted, r.item)) {
      PlanStartsWithWanted(c, s.cache, r.wanted, r.item);
    }
  }

  lemma PlanStartsWithWanted(c: Config, cache: map<CacheId, bool>, wanted: string, item: Object)
    requires c.applies(wanted, item) && !Fresh(cache, (wanted, item))
    ensures var plan := Plan(c, cache, wanted, item); plan != [] && plan[0] == wanted
  {
    var runs := (p: string) => c.applies(p, item) && !Fresh(cache, (p, item));
    FilterKeepsFirst(runs, [wanted] + Filter((p: string) => p != wanted, c.processors));
  }

  lemma {:induction false} FilterKeepsFirst<T>(keep: T -> bool, s: seq<T>)
    requires s != [] && keep(s[0])
    ensures Filter(keep, s) != [] && Filter(keep, s)[0] == s[0]
  {
    if |s| > 1 { FilterKeepsFirst(keep, s[..|s| - 1]); } else { assert s[..0] == []; }
  }

  lemma WakeStep(c: Config, s: State, id: nat)
    requires Inv(s) && RoundInv(c, s, id) && Enabled(c, s, Wake(id))
    requires StartedLater(c, Take(c, s, Wake(id)), s.requests[id])
    ensures RoundInv(c, Take(c, s, Wake(id)), id)
  {
    var job := s.jobs[s.requests[id].phase.job];
    assert JobInv(job);
  }

  lemma OtherStep(c: Config, s: State, id: nat, step: Step)
    requires s.nextJob !in s.jobs && RoundInv(c, s, id) && Enabled(c, s, step) && Calm(s, id, step)
    requires StartedLater(c, Take(c, s, step), s.requests[id])
    requires !((step.Round? || step.Wake?) && step.id == id)
    ensures RoundInv(c, Take(c, s, step), id)
  {
    JobsStay(c, s, step);
    RegistryAfter(c, s, step);
    RequestsAfter(c, s, step, id);
    OthersKeepRound(c, s, Take(c, s, step), id);
  }

  lemma JobsStay(c: Config, s: State, step: Step)
    requires Enabled(c, s, step) && s.nextJob !in s.jobs
    ensures var s' := Take(c, s, step);
            forall j :: j in s.jobs ==>
              j in s'.jobs && s'.jobs[j].item == s.jobs[j].item && s'.jobs[j].plan == s.jobs[j].plan
  {
    JobsAfter(c, s, step);
  }

  /** What other requests, jobs and sweeps may change around a request. */
  lemma OthersKeepRound(c: Config, s: State, s': State, id: nat)
    requires RoundInv(c, s, id) && StartedLater(c, s', s.requests[id])
    requires id in s'.requests && s'.requests[id] == s.requests[id] && s.nextJob <= s'.nextJob
    requires forall j :: j in s.jobs ==>
               j in s'.jobs && s'.jobs[j].item == s.jobs[j].item && s'.jobs[j].plan == s.jobs[j].plan
    requires forall o :: o in s'.registered ==>
               (o in s.registered && s'.registered[o] == s.registered[o]) || s'.registered[o] == s.nextJob
    ensures RoundInv(c, s', id)
  {
  }

  /** Registrations only go away or point to the newest job. */
  lemma RegistryAfter(c: Config, s: State, step: Step)
    requires Enabled(c, s, step)
    ensures s.nextJob <= Take(c, s, step).nextJob
    ensures forall o :: o in Take(c, s, step).registered ==>
              (o in s.registered && Take(c, s, step).registered[o] == s.registered[o]) ||
              Take(c, s, step).registered[o] == s.nextJob
  {
  }

  lemma RequestsAfter(c: Config, s: State, step: Step, id: nat)
    requires Enabled(c, s, step) && id in s.requests
    requires !((step.Round? || step.Join? || step.LookUp? || step.Wake?) && step.id == id)
    ensures id in Take(c, s, step).requests && Take(c, s, step).requests[id] == s.requests[id]
  {
    match step
    case Round(other) => JoinsAlone(c, s, other, id);
    case Join(other) => JoinsAlone(c, s, other, id);
    case _ =>
  }

  lemma JoinsAlone(c: Config, s: State, other: nat, id: nat)
    requires other in s.requests && id in s.requests && other != id
    ensures id in JoinOrStart(c, s, other).requests && JoinOrStart(c, s, other).requests[id] == s.requests[id]
  {
  }

  lemma CalmStepInv(c: Config, s: State, s': State, id: nat)
    requires Inv(s) && RoundInv(c, s, id) && CalmNext(c, id, s, s')
    ensures RoundInv(c, s', id)
  {
    var step :| Enabled(c, s, step) && Calm(s, id, step) && s' == Take(c, s, step);
    StartedLaterStep(c, s, id, step);
    if step == Round(id) { OwnRoundStep(c, s, id); }
    else if step == Wake(id) { WakeStep(c, s, id); }
    else { OtherStep(c, s, id, step); }
  }

  lemma CalmIsNext(c: Config, id: nat, s: State, s': State)
    requires CalmNext(c, id, s, s')
    ensures Next(c, s, s')
  {
  }

  /** Two rounds suffice: a request undisturbed by panics and expiry never falls through its loop. */
  lemma TwoRoundsSuffice(c: Config, run: seq<State>, a: nat, i: nat, id: nat, item: Object, wanted: string)
    requires IsRun(c, run) && Distinct(c.processors) && 0 < a <= i < |run|
    requires Enabled(c, run[a - 1], Ask(id, item, wanted)) && run[a] == Take(c, run[a - 1], Ask(id, item, wanted))
    requires Runs.Steps((s, s') => CalmNext(c, id, s, s'), run, a, i)
    ensures id in run[i].requests && !run[i].requests[id].phase.FellThrough?
  {
    InvHolds(c, run, a);
    var next := (s, s') => CalmNext(c, id, s, s');
    var kept := (s: State) => Inv(s) && RoundInv(c, s, id);
    forall s, s' | kept(s) && next(s, s') ensures kept(s') {
      CalmIsNext(c, id, s, s');
      StepInv(c, s, s');
      CalmStepInv(c, s, s', id);
    }
    assert StartedLater(c, run[a], run[a].requests[id]);
    Runs.Invariant(next, kept, run, a, i);
  }

  // ---- running a job ----------------------------------------------------------------------

  ghost function NextOf(c: Config): (State, State) -> bool {
    (s, s') => Next(c, s, s')
  }

  ghost predicate Reaches(c: Config, s: State, s': State) {
    Runs.Reaches(NextOf(c), s, s')
  }

  /** What becomes of one processor of a plan; `NotStored` is one whose rename fails. */
  datatype Fate = Fails | NotStored | Completes | Panics

  function OutcomeOf(fate: Fate): Outcome {
    if fate.Completes? then Ok else Failed
  }

  ghost predicate Stands(s: State, j: nat, job: Job) {
    Inv(s) && j in s.jobs && s.jobs[j] == job
  }

  // ---- what others do meanwhile ----

  /** A step of anything but job `j`. */
  ghost predicate NextAside(c: Config, j: nat, s: State, s': State) {
    exists step :: Enabled(c, s, step) && !(step.Act? && step.j == j) && s' == Take(c, s, step)
  }

  ghost function AsideOf(c: Config, j: nat): (State, State) -> bool {
    (s, s') => NextAside(c, j, s, s')
  }

  ghost predicate ReachesAside(c: Config, j: nat, s: State, s': State) {
    Runs.Reaches(AsideOf(c, j), s, s')
  }

  lemma AsideIsRun(c: Config, j: nat, s: State, s': State)
    requires ReachesAside(c, j, s, s')
    ensures Reaches(c, s, s')
  {
    var run: seq<State> :| Runs.IsPath(AsideOf(c, j), run) && run[0] == s && run[|run| - 1] == s';
    forall k | 0 <= k < |run| - 1 ensures NextOf(c)(run[k], run[k + 1]) {
      assert AsideOf(c, j)(run[k], run[k + 1]);
    }
    assert Runs.IsPath(NextOf(c), run);
  }

  /** What job `j` is about to rename has nothing in its way. */
  ghost predicate TargetFree(s: State, j: nat, job: Job)
    requires job.next < |job.plan|
  {
    Stands(s, j, job) && Current(job) !in s.cache
  }

  /** Nobody else puts a result there: the object version has one active job. */
  lemma AsideKeepsTarget(c: Config, j: nat, job: Job, s: State, s': State)
    requires Distinct(c.processors) && Active(job) && job.next < |job.plan|
    requires TargetFree(s, j, job) && NextAside(c, j, s, s')
    ensures TargetFree(s', j, job)
  {
    var step :| Enabled(c, s, step) && !(step.Act? && step.j == j) && s' == Take(c, s, step);
    StepInv(c, s, s');
    JobsAfter(c, s, step);
    if Current(job) in s'.cache {
      StoredAfter(c, s, step, Current(job));
      OneWriterPerResult(s, j, step.j);
    }
  }

  /** Only a rename brings a result into the cache. */
  lemma StoredAfter(c: Config, s: State, step: Step, e: CacheId)
    requires Enabled(c, s, step) && e !in s.cache && e in Take(c, s, step).cache
    ensures step.Act? && step.action.Rename? && e == Current(s.jobs[step.j])
  {
  }

  lemma TargetStaysFree(c: Config, j: nat, job: Job, s: State, s': State)
    requires Distinct(c.processors) && Active(job) && job.next < |job.plan|
    requires TargetFree(s, j, job) && ReachesAside(c, j, s, s')
    ensures TargetFree(s', j, job)
  {
    var next, free := AsideOf(c, j), (mid: State) => TargetFree(mid, j, job);
    var run: seq<State> :| Runs.IsPath(next, run) && run[0] == s && run[|run| - 1] == s';
    forall mid, mid' | free(mid) && next(mid, mid') ensures free(mid') {
      AsideKeepsTarget(c, j, job, mid, mid');
    }
    Runs.Invariant(next, free, run, 0, |run| - 1);
  }

  // ---- what a job has come to ----

  /** At some moment on the way the result was in the cache, fresh. */
  ghost predicate Appears(c: Config, s: State, s': State, e: CacheId) {
    exists mid :: Reaches(c, s, mid) && Fresh(mid.cache, e) && Reaches(c, mid, s')
  }

  lemma AppearsWithin(c: Config, s0: State, s: State, s': State, end: State, e: CacheId)
    requires Reaches(c, s0, s) && Appears(c, s, s', e) && Reaches(c, s', end)
    ensures Appears(c, s0, end, e)
  {
    var mid :| Reaches(c, s, mid) && Fresh(mid.cache, e) && Reaches(c, mid, s');
    Runs.ReachesThrough(NextOf(c), s0, s, mid);
    Runs.ReachesThrough(NextOf(c), mid, s', end);
  }

  /** The results of the first `n` processors that completed appeared in the cache. */
  ghost predicate AllAppear(c: Config, s: State, s': State, item: Object, plan: seq<string>, fates: seq<Fate>, n: nat)
    requires n <= |plan| == |fates|
  {
    forall k :: 0 <= k < n && fates[k].Completes? ==> Appears(c, s, s', (plan[k], item))
  }

  lemma AllAppearLater(c: Config, s: State, s': State, end: State, item: Object, plan: seq<string>,
                       fates: seq<Fate>, n: nat)
    requires n <= |plan| == |fates| && AllAppear(c, s, s', item, plan, fates, n) && Reaches(c, s', end)
    ensures AllAppear(c, s, end, item, plan, fates, n)
  {
    Runs.ReachesSelf(NextOf(c), s);
    forall k | 0 <= k < n && fates[k].Completes? ensures Appears(c, s, end, (plan[k], item)) {
      AppearsWithin(c, s, s, s', end, (plan[k], item));
    }
  }

  lemma OneMoreAppears(c: Config, s: State, s': State, end: State, item: Object, plan: seq<string>,
                       fates: seq<Fate>, n: nat)
    requires n < |plan| == |fates| && AllAppear(c, s, s', item, plan, fates, n)
    requires Reaches(c, s, s') && Reaches(c, s', end)
    requires fates[n].Completes? ==> Appears(c, s', end, (plan[n], item))
    ensures AllAppear(c, s, end, item, plan, fates, n + 1)
  {
    AllAppearLater(c, s, s', end, item, plan, fates, n);
    Runs.ReachesSelf(NextOf(c), end);
    if fates[n].Completes? {
      AppearsWithin(c, s, s', end, end, (plan[n], item));
    }
  }

  /** One processor further, with the outcome its fate dictates, and its result in the cache if it completed. */
  ghost predicate Processed(job: Job, later: Job, fate: Fate)
    requires job.next < |job.plan|
  {
    var p := job.plan[job.next];
    && later.phase.Running? && later.next == job.next + 1
    && later.plan == job.plan && later.item == job.item && later.panicked == job.panicked
    && later.done == job.done[p := OutcomeOf(fate)]
    && later.stored == if fate.Completes? then job.stored + {p} else job.stored
  }

  /** The first `n` processors have the outcomes of their fates, and exactly those that completed are stored. */
  ghost predicate Ran(job: Job, fates: seq<Fate>, n: nat)
    requires n <= |job.plan| && n <= |fates|
  {
    && (forall p :: p in job.done <==> p in job.plan[..n])
    && (forall p :: p in job.stored ==> p in job.plan[..n])
    && forall k :: 0 <= k < n ==>
         job.plan[k] in job.done && job.done[job.plan[k]] == OutcomeOf(fates[k]) &&
         (job.plan[k] in job.stored <==> fates[k].Completes?)
  }

  /** In the loop over the plan, before processor `n`. */
  ghost predicate RunsPlan(job: Job, plan: seq<string>, fates: seq<Fate>, n: nat) {
    && Distinct(plan) && job.plan == plan && n <= |plan| == |fates|
    && job.phase.Running? && job.next == n && !job.panicked
    && Ran(job, fates, n) && forall k :: 0 <= k < n ==> !fates[k].Panics?
  }

  lemma RunsOn(job: Job, later: Job, plan: seq<string>, fates: seq<Fate>, n: nat)
    requires n < |plan| && RunsPlan(job, plan, fates, n) && !fates[n].Panics? && Processed(job, later, fates[n])
    ensures RunsPlan(later, plan, fates, n + 1)
  {
    RanOneMore(job, later, fates);
  }

  lemma RunsEnds(job: Job, plan: seq<string>, fates: seq<Fate>, n: nat)
    requires RunsPlan(job, plan, fates, n)
    ensures n == |plan| ==> RanUntilPanic(AfterAct(job, EndRun), fates, n)
    ensures n < |plan| && fates[n].Panics? ==> RanUntilPanic(AfterAct(job, Panic), fates, n)
  {
  }

  lemma RanOneMore(job: Job, later: Job, fates: seq<Fate>)
    requires job.next < |job.plan| <= |fates| && Distinct(job.plan)
    requires Ran(job, fates, job.next) && Processed(job, later, fates[job.next])
    ensures Ran(later, fates, later.next)
  {
    var n := job.next;
    assert job.plan[..n + 1] == job.plan[..n] + [job.plan[n]];
    forall k | 0 <= k < n ensures job.plan[k] != job.plan[n] && job.plan[k] in job.plan[..n] {
      assert job.plan[..n][k] == job.plan[k];
    }
    forall k | 0 <= k < n + 1
      ensures job.plan[k] in later.done && later.done[job.plan[k]] == OutcomeOf(fates[k])
      ensures job.plan[k] in later.stored <==> fates[k].Completes?
    {
      if k == n {
        assert forall i :: 0 <= i < n ==> job.plan[..n][i] != job.plan[n];
      }
    }
  }

  /** The processors that ran before one panicked, if any did. */
  ghost predicate RanUntilPanic(job: Job, fates: seq<Fate>, n: nat) {
    && n <= |job.plan| <= |fates| && Ran(job, fates, n)
    && (forall k :: 0 <= k < n ==> !fates[k].Panics?)
    && (job.panicked <==> n < |job.plan|) && (n < |job.plan| ==> fates[n].Panics?)
  }

  /** What a failed download leaves. */
  ghost predicate AllFailed(job: Job) {
    && job.stored == {} && !job.panicked
    && forall p :: (p in job.done <==> p in job.plan) && (p in job.done ==> job.done[p] == Failed)
  }

  class Inspector {
    const c: Config
    var s: State

    constructor (c: Config, s: State)
      ensures this.c == c && this.s == s
    {
      this.c, this.s := c, s;
    }

    /** Any number of steps of requests, other jobs, expiry and sweeps; this body takes none of them, callers
        must allow for all that leave job `j` to its own task. */
    method Interfere(ghost j: nat)
      requires Inv(s) && Distinct(c.processors) && j in s.jobs
      modifies this
      ensures Stands(s, j, old(s.jobs[j])) && ReachesAside(c, j, old(s), s)
    {
      Runs.ReachesSelf(AsideOf(c, j), s);
    }

    /** Others' steps, then one action of job `j`. */
    method Do(j: nat, action: Action)
      requires Inv(s) && Distinct(c.processors) && j in s.jobs && CanAct(s.jobs[j], action) && !action.Rename?
      modifies this
      ensures Stands(s, j, AfterAct(old(s.jobs[j]), action)) && Reaches(c, old(s), s)
      ensures action.MoveStale? ==> Current(old(s.jobs[j])) !in s.cache
    {
      ghost var start := s;
      Interfere(j);
      AsideIsRun(c, j, start, s);
      Perform(j, action, start);
    }

    method Perform(j: nat, action: Action, ghost start: State)
      requires Inv(s) && Distinct(c.processors) && Enabled(c, s, Act(j, action)) && Reaches(c, start, s)
      modifies this
      ensures Stands(s, j, AfterAct(old(s.jobs[j]), action)) && Reaches(c, start, s)
      ensures s.cache == CacheAfter(old(s.cache), old(s.jobs[j]), action)
    {
      ghost var before := s;
      Runs.ReachesNext(NextOf(c), s, Take(c, s, Act(j, action)));
      StepInv(c, s, Take(c, s, Act(j, action)));
      s := Take(c, s, Act(j, action));
      Runs.ReachesThrough(NextOf(c), start, before, s);
    }

    /** `store`: whatever stands in the way is moved off, then the complete result is renamed into place. */
    method Store(j: nat, renames: bool)
      requires Inv(s) && Distinct(c.processors) && j in s.jobs && s.jobs[j].phase.Storing? &&
               s.jobs[j].next < |s.jobs[j].plan|
      modifies this
      ensures Inv(s) && Reaches(c, old(s), s) && j in s.jobs
      ensures Processed(old(s.jobs[j]), s.jobs[j], if renames then Completes else NotStored)
      ensures renames ==> Appears(c, old(s), s, Current(old(s.jobs[j])))
    {
      ghost var start := s;
      Do(j, MoveStale);
      ghost var moved := s;
      Interfere(j);
      TargetStaysFree(c, j, moved.jobs[j], moved, s);
      AsideIsRun(c, j, moved, s);
      Runs.ReachesThrough(NextOf(c), start, moved, s);
      Perform(j, if renames then Rename else StoreFails, start);
      if renames {
        ghost var renamed := s;
        Do(j, Publish);
        Runs.ReachesThrough(NextOf(c), start, renamed, s);
        assert Fresh(renamed.cache, Current(start.jobs[j]));
      }
    }

    /** `run_processor`: only what was stored is published as `Ok`. */
    method RunProcessor(j: nat, fate: Fate)
      requires Inv(s) && Distinct(c.processors) && j in s.jobs && s.jobs[j].phase.Running? &&
               s.jobs[j].next < |s.jobs[j].plan|
      requires !fate.Panics?
      modifies this
      ensures Inv(s) && Reaches(c, old(s), s) && j in s.jobs
      ensures Processed(old(s.jobs[j]), s.jobs[j], fate)
      ensures fate.Completes? ==> Appears(c, old(s), s, Current(old(s.jobs[j])))
    {
      if fate.Fails? {
        Do(j, RunFails);
        return;
      }
      ghost var start := s;
      Do(j, RunCompletes);
      ghost var before := s;
      Store(j, fate.Completes?);
      Runs.ReachesThrough(NextOf(c), start, before, s);
      Runs.ReachesSelf(NextOf(c), s);
      if fate.Completes? {
        AppearsWithin(c, start, before, s, s, Current(before.jobs[j]));
      }
    }

    /**
     * `run_job` with its drop guard: the job ends unregistered. Without a download all of its plan failed;
     * otherwise the processors before the first that panics have the outcomes of their fates, and exactly those
     * that completed have their result renamed into the cache.
     */
    method RunJob(j: nat, downloaded: bool, fates: seq<Fate>)
      returns (ghost n: nat)
      requires Inv(s) && Distinct(c.processors) && j in s.jobs && s.jobs[j].phase.Starting?
      requires |fates| == |s.jobs[j].plan|
      modifies this
      ensures Inv(s) && Reaches(c, old(s), s) && j in s.jobs
      ensures s.jobs[j].phase.Ended? && s.jobs[j].plan == old(s.jobs[j].plan)
      ensures if downloaded then RanUntilPanic(s.jobs[j], fates, n)
              else AllFailed(s.jobs[j])
      ensures downloaded ==> AllAppear(c, old(s), s, s.jobs[j].item, s.jobs[j].plan, fates, n)
      ensures s.jobs[j].panicked <==> downloaded && exists k :: 0 <= k < |fates| && fates[k].Panics?
      ensures s.jobs[j].item in s.registered ==> s.registered[s.jobs[j].item] != j
    {
      ghost var start := s;
      assert JobInv(s.jobs[j]);
      Do(j, Download(downloaded));
      n := 0;
      if downloaded {
        n := RunPlan(j, fates, start);
      }
      ghost var before := s;
      EndJob(j, start);
      if downloaded {
        AllAppearLater(c, start, before, s, s.jobs[j].item, s.jobs[j].plan, fates, n);
      }
    }

    /** The drop guard. */
    method EndJob(j: nat, ghost start: State)
      requires Inv(s) && Distinct(c.processors) && j in s.jobs && s.jobs[j].phase.Dropping? && Reaches(c, start, s)
      modifies this
      ensures Inv(s) && Reaches(c, start, s) && Reaches(c, old(s), s)
      ensures j in s.jobs && s.jobs[j] == old(s.jobs[j]).(phase := Ended)
      ensures s.jobs[j].item in s.registered ==> s.registered[s.jobs[j].item] != j
    {
      ghost var before := s;
      Do(j, Unregister);
      ghost var mid := s;
      Do(j, MarkFinished);
      Runs.ReachesThrough(NextOf(c), before, mid, s);
      Runs.ReachesThrough(NextOf(c), start, before, s);
      assert RegistryInv(s);
    }

    /** `run_plan` after its download. */
    method RunPlan(j: nat, fates: seq<Fate>, ghost start: State) returns (ghost n: nat)
      requires Inv(s) && Distinct(c.processors) && j in s.jobs && s.jobs[j].phase.Running? && s.jobs[j].next == 0
      requires Reaches(c, start, s) && |fates| == |s.jobs[j].plan| && s.jobs[j].stored == {}
      modifies this
      ensures Inv(s) && Reaches(c, start, s) && j in s.jobs
      ensures s.jobs[j].phase.Dropping? && s.jobs[j].plan == old(s.jobs[j].plan)
      ensures s.jobs[j].item == old(s.jobs[j].item) && RanUntilPanic(s.jobs[j], fates, n)
      ensures AllAppear(c, start, s, s.jobs[j].item, s.jobs[j].plan, fates, n)
    {
      ghost var plan, item := s.jobs[j].plan, s.jobs[j].item;
      assert JobInv(s.jobs[j]);
      var i := 0;
      while i < |s.jobs[j].plan|
        invariant Inv(s) && Reaches(c, start, s) && j in s.jobs && RunsPlan(s.jobs[j], plan, fates, i)
        invariant s.jobs[j].item == item && AllAppear(c, start, s, item, plan, fates, i)
        decreases |fates| - i
      {
        ghost var now := s;
        if fates[i].Panics? {
          RunsEnds(s.jobs[j], plan, fates, i);
          Do(j, Panic);
          Runs.ReachesThrough(NextOf(c), start, now, s);
          AllAppearLater(c, start, now, s, item, plan, fates, i);
          return i;
        }
        RunProcessor(j, fates[i]);
        RunsOn(now.jobs[j], s.jobs[j], plan, fates, i);
        OneMoreAppears(c, start, now, s, item, plan, fates, i);
        Runs.ReachesThrough(NextOf(c), start, now, s);
        i := i + 1;
      }
      RunsEnds(s.jobs[j], plan, fates, i);
      ghost var ran := s;
      Do(j, EndRun);
      Runs.ReachesThrough(NextOf(c), start, ran, s);
      AllAppearLater(c, start, ran, s, item, plan, fates, i);
      return i;
    }
  }
}
