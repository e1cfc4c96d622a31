/**
 * `approved_initial_*`: written when an approval creates the set, and carried by everything after. Handlers
 * take the record from the cached row of the pod they run on, or from the meta in S3, and write it later;
 * rows are loaded by scans that read the meta earlier still. All these moments may interleave.
 */
module InitialRecord {
  import opened Wrappers
  import opened Catalogue
  import Approve
  import Edit
  import Meta
  import Scanner

  type Record = (Option<string>, Option<string>)

  /**
   * A meta as written, as number `at`. The file list is not part of this module, so whether a parser accepts
   * the text is open. `origin` names the approval whose record it holds.
   */
  datatype Version = Version(at: nat, info: SetMeta, readable: bool, origin: nat)

  /** What was read from the meta written as number `at`. */
  datatype Row = Row(info: SetMeta, at: nat)

  datatype Job =
    | Approval(upload: SetMeta, uploadedAt: string, mode: Approve.Mode, now: string, who: string)
    | SetEdit(key: SetKey, fields: Edit.SetFields)
    | FileDelete

  /** A handler between its read and its write: what it read, and the number of its own record. */
  datatype Running = Running(job: Job, source: Option<Row>, stamp: nat)

  datatype Flight = Flight(pod: nat, row: Row)

  /**
   * One set. `metas` are all metas ever written under its prefix, `standing` is the one that is there now and
   * `created` the first of those since the set was last created; `rows` are the cached rows of the pods,
   * `flights` the reads that scans have not stored yet, and `records` the record of every approval begun.
   */
  datatype State = State(
    metas: seq<Version>,
    standing: Option<Version>,
    created: nat,
    rows: map<nat, Row>,
    flights: map<nat, Flight>,
    jobs: map<nat, Running>,
    records: seq<Record>)

  const START := State([], None, 0, map[], map[], map[], [])

  /**
   * `Begin` is a handler's read, `Put` its write; one that fails, as a merge that finds no readable meta, makes
   * no `Put`. The wipe of a replacing approval belongs to its `Put`; a wipe that nothing follows is a
   * `SetDelete`. `Drop` is a row swept or dropped by a refresh.
   */
  datatype Step =
    | Begin(id: nat, pod: nat, job: Job)
    | Put(id: nat, readable: bool)
    | SetDelete
    | Read(id: nat, pod: nat, modified: string)
    | Store(id: nat)
    | Drop(pod: nat)

  function RecordOf(info: SetMeta): Record {
    (info.approvedInitialAt, Meta.NonEmpty(info.approvedInitialBy))
  }

  predicate CanRead(s: State) {
    s.standing.Some? && s.standing.value.readable
  }

  predicate Enabled(s: State, step: Step) {
    match step
    case Begin(id, pod, job) =>
      && id !in s.jobs
      && (job.Approval? && job.mode.Refuse? ==> pod !in s.rows)
      && (job.SetEdit? ==> pod in s.rows)
      && (job.FileDelete? ==> CanRead(s))
    case Put(id, _) => id in s.jobs && Sourced(s.jobs[id])
    case SetDelete => s.standing.Some?
    case Read(id, _, _) => id !in s.flights && CanRead(s)
    case Store(id) => id in s.flights
    case Drop(pod) => pod in s.rows
  }

  /** Approvals and edits read the row of their pod, the deletion of a file reads the meta itself. */
  function Source(s: State, pod: nat, job: Job): Option<Row> {
    if job.FileDelete? then if CanRead(s) then Some(Row(s.standing.value.info, s.standing.value.at)) else None
    else if pod in s.rows then Some(s.rows[pod])
    else None
  }

  function Info(source: Option<Row>): Option<SetMeta> {
    if source.Some? then Some(source.value.info) else None
  }

  /** Only an approval goes on when it found nothing. */
  predicate Sourced(running: Running) {
    running.job.Approval? || running.source.Some?
  }

  /** The meta a handler writes. */
  function Written(running: Running): SetMeta
    requires Sourced(running)
  {
    match running.job
    case Approval(upload, uploadedAt, _, now, who) =>
      Approve.ApprovedInfo(upload, uploadedAt, Info(running.source), now, who)
    case SetEdit(key, fields) => Edit.RebuiltInfo(key.maker, key.model, fields, Info(running.source))
    case FileDelete => running.source.value.info
  }

  function OwnRecord(job: Job): Record
    requires job.Approval?
  {
    (Some(job.now), Meta.NonEmpty(Some(job.who)))
  }

  function OriginOf(s: State, running: Running): nat {
    if running.source.Some? && running.source.value.at < |s.metas| then s.metas[running.source.value.at].origin
    else running.stamp
  }

  function Take(s: State, step: Step): State
    requires Enabled(s, step)
  {
    match step
    case Begin(id, pod, job) =>
      s.(jobs := s.jobs[id := Running(job, Source(s, pod, job), |s.records|)],
         records := if job.Approval? then s.records + [OwnRecord(job)] else s.records)
    case Put(id, readable) =>
      var version := Version(|s.metas|, Meta.NormalSet(Written(s.jobs[id])), readable, OriginOf(s, s.jobs[id]));
      s.(metas := s.metas + [version],
         standing := Some(version),
         created := if s.standing.None? then |s.metas| else s.created,
         jobs := s.jobs - {id})
    case SetDelete => s.(standing := None)
    case Read(id, pod, modified) =>
      var info := Scanner.Dated(RawdbMeta(s.standing.value.info, []), modified).info;
      s.(flights := s.flights[id := Flight(pod, Row(info, s.standing.value.at))])
    case Store(id) => s.(rows := s.rows[s.flights[id].pod := s.flights[id].row], flights := s.flights - {id})
    case Drop(pod) => s.(rows := s.rows - {pod})
  }

  // ---- Runs, as the sequence of their steps ----

  /** Nothing when some step could not be taken. */
  function Run(steps: seq<Step>): Option<State> {
    if steps == [] then Some(START)
    else
      var before := Run(steps[..|steps| - 1]);
      var step := steps[|steps| - 1];
      if before.Some? && Enabled(before.value, step) then Some(Take(before.value, step)) else None
  }

  predicate Possible(steps: seq<Step>) {
    Run(steps).Some?
  }

  function After(steps: seq<Step>): State
    requires Possible(steps)
  {
    Run(steps).value
  }

  lemma Extend(steps: seq<Step>, step: Step)
    requires Possible(steps) && Enabled(After(steps), step)
    ensures Possible(steps + [step]) && After(steps + [step]) == Take(After(steps), step)
  {
    assert (steps + [step])[..|steps|] == steps;
  }

  // ---- What every run keeps ----

  /** Every meta holds the record of the approval it goes back to. */
  ghost predicate MetasInv(s: State) {
    && s.created <= |s.metas|
    && (s.standing.Some? ==>
          s.created <= s.standing.value.at < |s.metas| && s.metas[s.standing.value.at] == s.standing.value)
    && forall i :: 0 <= i < |s.metas| ==>
         s.metas[i].origin < |s.records| && RecordOf(s.metas[i].info) == s.records[s.metas[i].origin]
  }

  predicate Loaded(s: State, row: Row) {
    row.at < |s.metas| && RecordOf(row.info) == RecordOf(s.metas[row.at].info)
  }

  ghost predicate RowsInv(s: State) {
    && (forall pod :: pod in s.rows ==> Loaded(s, s.rows[pod]))
    && forall id :: id in s.flights ==> Loaded(s, s.flights[id].row)
  }

  predicate JobInv(s: State, running: Running) {
    && (running.source.Some? ==> Loaded(s, running.source.value))
    && Sourced(running)
    && (running.job.Approval? ==> running.stamp < |s.records| && s.records[running.stamp] == OwnRecord(running.job))
  }

  /** No meta goes back yet to an approval that has not written, and no two approvals have the same number. */
  ghost predicate Unwritten(s: State, id: nat)
    requires id in s.jobs
  {
    s.jobs[id].job.Approval? ==>
      && (forall i :: 0 <= i < |s.metas| ==> s.metas[i].origin != s.jobs[id].stamp)
      && forall other :: other in s.jobs && other != id && s.jobs[other].job.Approval? ==>
           s.jobs[other].stamp != s.jobs[id].stamp
  }

  ghost predicate JobsInv(s: State) {
    forall id :: id in s.jobs ==> JobInv(s, s.jobs[id]) && Unwritten(s, id)
  }

  ghost predicate Inv(s: State) {
    MetasInv(s) && RowsInv(s) && JobsInv(s)
  }

  /** A handler writes the record of the approval its source goes back to, or its own when it found no row. */
  lemma WrittenRecord(s: State, running: Running)
    requires MetasInv(s) && JobInv(s, running)
    ensures var origin := OriginOf(s, running);
            origin < |s.records| && RecordOf(Meta.NormalSet(Written(running))) == s.records[origin]
    ensures running.source.None? ==> OriginOf(s, running) == running.stamp
  {
  }

  lemma BeginInv(s: State, step: Step)
    requires Inv(s) && step.Begin? && Enabled(s, step)
    ensures Inv(Take(s, step))
  {
    var s' := Take(s, step);
    forall id | id in s'.jobs ensures JobInv(s', s'.jobs[id]) && Unwritten(s', id) {
      if id != step.id {
        assert JobInv(s, s.jobs[id]) && Unwritten(s, id);
      }
    }
  }

  lemma PutMetas(s: State, step: Step)
    requires Inv(s) && step.Put? && Enabled(s, step)
    ensures MetasInv(Take(s, step)) && RowsInv(Take(s, step))
  {
    var s' := Take(s, step);
    assert JobInv(s, s.jobs[step.id]);
    WrittenRecord(s, s.jobs[step.id]);
    assert forall row :: Loaded(s, row) ==> Loaded(s', row);
  }

  lemma PutJobs(s: State, step: Step, id: nat)
    requires Inv(s) && step.Put? && Enabled(s, step) && id in Take(s, step).jobs
    ensures JobInv(Take(s, step), s.jobs[id]) && Unwritten(Take(s, step), id)
  {
    assert JobInv(s, s.jobs[id]) && Unwritten(s, id) && Unwritten(s, step.id) && JobInv(s, s.jobs[step.id]);
    SourcesAreOthers(s, s.jobs[step.id], id);
  }

  lemma PutInv(s: State, step: Step)
    requires Inv(s) && step.Put? && Enabled(s, step)
    ensures Inv(Take(s, step))
  {
    PutMetas(s, step);
    forall id | id in Take(s, step).jobs
      ensures JobInv(Take(s, step), Take(s, step).jobs[id]) && Unwritten(Take(s, step), id)
    {
      PutJobs(s, step, id);
    }
  }

  /** What a handler writes does not go back to another that has yet to write. */
  lemma SourcesAreOthers(s: State, running: Running, id: nat)
    requires id in s.jobs && Unwritten(s, id)
    requires running.source.None? ==> running.stamp != s.jobs[id].stamp || !s.jobs[id].job.Approval?
    requires running.source.Some? ==> running.source.value.at < |s.metas|
    ensures s.jobs[id].job.Approval? ==> OriginOf(s, running) != s.jobs[id].stamp
  {
  }

  /** What a handler neither reads nor writes leaves every handler alone. */
  lemma JobsStay(s: State, s': State)
    requires JobsInv(s) && s'.jobs == s.jobs && s'.metas == s.metas && s'.records == s.records
    ensures JobsInv(s')
  {
    forall id | id in s'.jobs ensures JobInv(s', s'.jobs[id]) && Unwritten(s', id) {
      assert JobInv(s, s.jobs[id]) && Unwritten(s, id);
    }
  }

  lemma ReadInv(s: State, step: Step)
    requires MetasInv(s) && RowsInv(s) && step.Read? && Enabled(s, step)
    ensures RowsInv(Take(s, step))
  {
    var s' := Take(s, step);
    forall id | id in s'.flights ensures Loaded(s', s'.flights[id].row) {
      assert id != step.id ==> Loaded(s, s.flights[id].row);
    }
  }

  lemma StoreInv(s: State, step: Step)
    requires RowsInv(s) && step.Store? && Enabled(s, step)
    ensures RowsInv(Take(s, step))
  {
    var s' := Take(s, step);
    assert Loaded(s, s.flights[step.id].row);
    forall pod | pod in s'.rows ensures Loaded(s', s'.rows[pod]) {
      assert pod in s.rows ==> Loaded(s, s.rows[pod]);
    }
  }

  lemma StepInv(s: State, step: Step)
    requires Inv(s) && Enabled(s, step)
    ensures Inv(Take(s, step))
  {
    match step
    case Begin(_, _, _) => BeginInv(s, step);
    case Put(_, _) => PutInv(s, step);
    case Read(_, _, _) => ReadInv(s, step); JobsStay(s, Take(s, step));
    case Store(_) => StoreInv(s, step); JobsStay(s, Take(s, step));
    case _ => JobsStay(s, Take(s, step));
  }

  lemma {:induction false} InvHolds(steps: seq<Step>)
    requires Possible(steps)
    ensures Inv(After(steps))
  {
    if steps != [] {
      InvHolds(steps[..|steps| - 1]);
      StepInv(After(steps[..|steps| - 1]), steps[|steps| - 1]);
    }
  }

  // ---- Each write of any run ----

  /** No two approvals had the same time and approver. */
  ghost predicate Distinct(records: seq<Record>) {
    forall i, j :: 0 <= i < j < |records| ==> records[i] != records[j]
  }

  /**
   * In any run at all, a write over an existing set, be it of an approval, an edit or the deletion of a file,
   * keeps its initial record if and only if the handler had a row, or read a meta, that goes back to the
   * approval the set goes back to.
   */
  lemma RecordKeptIffSameOrigin(steps: seq<Step>, id: nat, readable: bool)
    requires Possible(steps) && Enabled(After(steps), Put(id, readable)) && After(steps).standing.Some?
    ensures var s := After(steps);
            var s' := Take(s, Put(id, readable));
            var kept := RecordOf(s'.standing.value.info) == RecordOf(s.standing.value.info);
            var same := s.jobs[id].source.Some? && OriginOf(s, s.jobs[id]) == s.standing.value.origin;
            (same ==> kept) && (Distinct(s.records) ==> (kept <==> same))
  {
    var s := After(steps);
    InvHolds(steps);
    assert JobInv(s, s.jobs[id]) && Unwritten(s, id);
    WrittenRecord(s, s.jobs[id]);
  }

  /** And a write that creates the set writes its own record if and only if it is an approval that had no row. */
  lemma CreationRecordIffNoRow(steps: seq<Step>, id: nat, readable: bool)
    requires Possible(steps) && Enabled(After(steps), Put(id, readable)) && After(steps).standing.None?
    ensures var s := After(steps);
            var s' := Take(s, Put(id, readable));
            var job := s.jobs[id].job;
            var own := job.Approval? && RecordOf(s'.standing.value.info) == OwnRecord(job);
            (s.jobs[id].source.None? ==> own) && (Distinct(s.records) ==> (own <==> s.jobs[id].source.None?))
  {
    var s := After(steps);
    InvHolds(steps);
    assert JobInv(s, s.jobs[id]) && Unwritten(s, id);
    WrittenRecord(s, s.jobs[id]);
  }

  // ---- Whole runs ----

  /** The record of an existing set is kept, and a new set gets the record of the approval that creates it. */
  predicate Honest(s: State, step: Step)
    requires Enabled(s, step)
  {
    step.Put? ==>
      var job := s.jobs[step.id].job;
      var record := RecordOf(Take(s, step).standing.value.info);
      if s.standing.Some? then record == RecordOf(s.standing.value.info) else job.Approval? && record == OwnRecord(job)
  }

  /**
   * The handler met the set as it is: over an existing set it had a row loaded from a meta written since the
   * set was last created, and where there is none it had no row.
   */
  predicate Fits(s: State, step: Step)
    requires Enabled(s, step)
  {
    step.Put? ==>
      var source := s.jobs[step.id].source;
      if s.standing.Some? then source.Some? && source.value.at >= s.created else source.None?
  }

  predicate AllHonest(steps: seq<Step>)
    requires Possible(steps)
  {
    steps == [] ||
    (AllHonest(steps[..|steps| - 1]) && Honest(After(steps[..|steps| - 1]), steps[|steps| - 1]))
  }

  predicate AllFit(steps: seq<Step>)
    requires Possible(steps)
  {
    steps == [] || (AllFit(steps[..|steps| - 1]) && Fits(After(steps[..|steps| - 1]), steps[|steps| - 1]))
  }

  /** Exactly the metas since the last creation go back to the same approval as the one that stands. */
  ghost predicate Orderly(s: State) {
    s.standing.Some? ==>
      forall i :: 0 <= i < |s.metas| ==> (s.metas[i].origin == s.standing.value.origin <==> i >= s.created)
  }

  lemma FittingStepIsOrderly(s: State, step: Step)
    requires Inv(s) && Orderly(s) && Enabled(s, step) && Fits(s, step)
    ensures Orderly(Take(s, step))
  {
    if step.Put? {
      assert JobInv(s, s.jobs[step.id]) && Unwritten(s, step.id);
      WrittenRecord(s, s.jobs[step.id]);
    }
  }

  lemma {:induction false} OrderlyHolds(steps: seq<Step>)
    requires Possible(steps) && AllFit(steps)
    ensures Orderly(After(steps))
  {
    if steps != [] {
      var before := steps[..|steps| - 1];
      OrderlyHolds(before);
      InvHolds(before);
      FittingStepIsOrderly(After(before), steps[|steps| - 1]);
    }
  }

  lemma FitsIffHonest(s: State, step: Step)
    requires Inv(s) && Orderly(s) && Enabled(s, step)
    ensures Fits(s, step) ==> Honest(s, step)
    ensures Distinct(s.records) ==> (Fits(s, step) <==> Honest(s, step))
  {
    if step.Put? {
      var running := s.jobs[step.id];
      assert JobInv(s, running) && Unwritten(s, step.id);
      WrittenRecord(s, running);
    }
  }

  /**
   * In a run all of whose approvals differ in time or approver, every write keeps the record of an existing
   * set, and gives a new one the record of the approval that creates it, if and only if every handler met the
   * set as it is: with a row loaded from a meta written since the last creation, and with none when there is
   * no set.
   */
  lemma {:induction false} RecordsHoldIffRowsFit(steps: seq<Step>)
    requires Possible(steps) && Distinct(After(steps).records)
    ensures AllHonest(steps) <==> AllFit(steps)
  {
    if steps != [] {
      var before, step := steps[..|steps| - 1], steps[|steps| - 1];
      var s := After(before);
      assert s.records <= Take(s, step).records;
      RecordsHoldIffRowsFit(before);
      if AllFit(before) {
        OrderlyHolds(before);
        InvHolds(before);
        FitsIffHonest(s, step);
      }
    }
  }

  lemma FittingStepKeepsRecord(steps: seq<Step>)
    requires Possible(steps) && steps != [] && AllFit(steps)
    requires After(steps[..|steps| - 1]).standing.Some? && steps[|steps| - 1] != SetDelete
    ensures var s, s' := After(steps[..|steps| - 1]), After(steps);
            s'.standing.Some? && RecordOf(s'.standing.value.info) == RecordOf(s.standing.value.info)
  {
    var before := steps[..|steps| - 1];
    OrderlyHolds(before);
    InvHolds(before);
    FitsIffHonest(After(before), steps[|steps| - 1]);
  }

  /** While handlers meet the set as it is and nobody deletes it, its initial record never changes. */
  lemma {:induction false} RecordNeverChanges(steps: seq<Step>, n: nat)
    requires Possible(steps) && AllFit(steps) && n <= |steps| && SetDelete !in steps[n..]
    requires Possible(steps[..n]) && After(steps[..n]).standing.Some?
    ensures var s, s' := After(steps[..n]), After(steps);
            s'.standing.Some? && RecordOf(s'.standing.value.info) == RecordOf(s.standing.value.info)
    decreases |steps|
  {
    if n == |steps| {
      assert steps[..n] == steps;
    } else {
      var before, last := steps[..|steps| - 1], steps[|steps| - 1];
      assert before[..n] == steps[..n];
      assert steps[n..] == before[n..] + [last];
      RecordNeverChanges(before, n);
      FittingStepKeepsRecord(steps);
    }
  }

  // ---- Where handlers do not meet the set as it is ----

  /** Two approvals before the first refresh, both told to refuse conflicts: the second rewrites the record. */
  lemma SecondApprovalRewritesRecord(first: Job, second: Job)
    requires first.Approval? && first.mode.Refuse? && second.Approval? && second.mode.Refuse?
    ensures var steps := [Begin(0, 0, first), Put(0, true), Begin(1, 0, second), Put(1, true)];
            Possible(steps) && After(steps).standing.Some? && After(steps).metas != [] &&
            RecordOf(After(steps).metas[0].info) == OwnRecord(first) &&
            RecordOf(After(steps).standing.value.info) == OwnRecord(second)
  {
    var steps := [Begin(0, 0, first), Put(0, true), Begin(1, 0, second), Put(1, true)];
    assert steps[..0] == [];
    StepByStep(steps, 0);
    StepByStep(steps, 1);
    StepByStep(steps, 2);
    StepByStep(steps, 3);
    assert steps[..4] == steps;
  }

  lemma StepByStep(steps: seq<Step>, k: nat)
    requires k < |steps| && Possible(steps[..k]) && Enabled(After(steps[..k]), steps[k])
    ensures Possible(steps[..k + 1]) && After(steps[..k + 1]) == Take(After(steps[..k]), steps[k])
  {
    assert steps[..k] + [steps[k]] == steps[..k + 1];
    Extend(steps[..k], steps[k]);
  }

  /** A set is approved and cached by pod `pod`. */
  function Loading(first: Job, pod: nat): seq<Step> {
    [Begin(0, 0, first), Put(0, true), Read(0, pod, ""), Store(0)]
  }

  lemma LoadingLeaves(first: Job, pod: nat)
    requires first.Approval? && first.mode.Refuse?
    ensures Possible(Loading(first, pod))
    ensures var s := After(Loading(first, pod));
            s.standing.Some? && s.jobs == map[] && |s.metas| == 1 && s.rows.Keys == {pod} && s.rows[pod].at == 0 &&
            RecordOf(s.rows[pod].info) == RecordOf(s.metas[0].info) == OwnRecord(first)
  {
    var load := Loading(first, pod);
    assert load[..0] == [];
    StepByStep(load, 0);
    StepByStep(load, 1);
    StepByStep(load, 2);
    StepByStep(load, 3);
    assert load[..4] == load;
  }

  /**
   * Pod 1 caches a set that is then deleted and approved anew by pod 0: an edit on pod 1, whose row is still
   * there, writes the record of the set that was deleted.
   */
  lemma StaleRowRewritesRecord(first: Job, second: Job, edit: Job)
    requires first.Approval? && first.mode.Refuse? && second.Approval? && edit.SetEdit?
    ensures var steps := Loading(first, 1) + [SetDelete, Begin(1, 0, second), Put(1, true), Begin(2, 1, edit)];
            Possible(steps) && Enabled(After(steps), Put(2, true)) && After(steps).standing.Some? &&
            RecordOf(After(steps).standing.value.info) == OwnRecord(second) &&
            RecordOf(Take(After(steps), Put(2, true)).standing.value.info) == OwnRecord(first)
  {
    var load := Loading(first, 1);
    LoadingLeaves(first, 1);
    Extend(load, SetDelete);
    Extend(load + [SetDelete], Begin(1, 0, second));
    Extend(load + [SetDelete] + [Begin(1, 0, second)], Put(1, true));
    Extend(load + [SetDelete] + [Begin(1, 0, second)] + [Put(1, true)], Begin(2, 1, edit));
    assert load + [SetDelete] + [Begin(1, 0, second)] + [Put(1, true)] + [Begin(2, 1, edit)] ==
           load + [SetDelete, Begin(1, 0, second), Put(1, true), Begin(2, 1, edit)];
  }

  /**
   * The pod that deletes a set keeps its row until the refresh it spawns: a replacing approval in between
   * creates the set with the record of the deleted one.
   */
  lemma DeleteThenReplaceRevivesRecord(first: Job, second: Job)
    requires first.Approval? && first.mode.Refuse? && second.Approval? && second.mode.Replace?
    ensures var steps := Loading(first, 0) + [SetDelete, Begin(1, 0, second)];
            Possible(steps) && Enabled(After(steps), Put(1, true)) && After(steps).standing.None? &&
            RecordOf(Take(After(steps), Put(1, true)).standing.value.info) == OwnRecord(first)
  {
    var load := Loading(first, 0);
    LoadingLeaves(first, 0);
    Extend(load, SetDelete);
    Extend(load + [SetDelete], Begin(1, 0, second));
    assert load + [SetDelete] + [Begin(1, 0, second)] == load + [SetDelete, Begin(1, 0, second)];
  }
}
