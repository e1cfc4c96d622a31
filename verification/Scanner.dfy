/**
 * The reconciliation protocol between S3 and the catalogue cache, as interleaved steps: any number of
 * scan tasks, refreshes and passes, each of their reads and writes a step of its own, any read failing,
 * and S3 changing arbitrarily in between.
 */
module Scanner {
  import opened Wrappers
  import opened Catalogue
  import opened Bucket
  import opened Pairing
  import Runs

  type Parser = string -> Option<RawdbMeta>

  /** A cached set with its files: what `upsert_set` and `upsert_pending` store. */
  datatype Row = Row(meta: RawdbMeta, etag: Option<string>, files: seq<Listed>)

  datatype Outcome = Updated | Unchanged | MetaMissing | Incomplete | Failed

  /** Numbers are moments of the history: when HEAD and GET were answered, when the listing ended. */
  datatype Phase =
    | Starting
    | Absent(head: nat)
    | Headed(head: nat)
    | Fetching(head: nat)
    | Reading(head: nat, got: nat, meta: RawdbMeta)
    | Storing(head: nat, got: nat, listed: nat, row: Row)
    | Ended(outcome: Outcome)

  /** `scan_one_set` or `scan_one_pending`; a refresh may also drop the row. */
  datatype Task = Task(place: Place, refresh: bool, began: nat, phase: Phase)

  datatype Stage =
    | ListingMakers
    | ListingModels(todo: seq<string>, prefixes: seq<string>)
    | Found(prefixes: seq<string>, ended: nat)
    | Sweeping(prefixes: seq<string>, ended: nat, prior: set<Place>)
    | Aborted

  /** One run of `scan_samples` (`samples`) or `scan_pending`, begun at a moment. */
  datatype Pass = Pass(samples: bool, began: nat, stage: Stage)

  datatype State = State(hist: History, rows: map<Place, Row>, tasks: map<nat, Task>, passes: map<nat, Pass>)

  datatype Action =
    | ReadFails
    | AnswerHead
    | Compare
    | AnswerGet
    | AnswerList(objects: seq<Listing>, files: Option<seq<Listed>>)
    | Upsert
    | Conclude

  datatype PassAction =
    | ListFails
    | AnswerMakers(makers: seq<string>)
    | AnswerModels(models: seq<string>)
    | ReadPrior
    | Sweep(place: Place)

  datatype Step =
    | Write(now: Contents)
    | StartTask(id: nat, place: Place, refresh: bool)
    | TaskStep(id: nat, action: Action)
    | StartPass(id: nat, samples: bool)
    | PassStep(id: nat, passAction: PassAction)

  // ---- Tasks ----

  function MetaAt(hist: History, t: nat, place: Place): Option<Object> {
    var key := MetaKey(PrefixOf(place));
    if t < |hist| && key in hist[t] then Some(hist[t][key]) else None
  }

  /** The meta as cached: without an `uploaded_at` it takes the object's LastModified from the HEAD. */
  function Dated(meta: RawdbMeta, modified: string): RawdbMeta {
    if meta.info.uploadedAt.None? then meta.(info := meta.info.(uploadedAt := Some(modified))) else meta
  }

  /** Nothing else changes, and a date of its own stands. */
  lemma DatedHasDate(meta: RawdbMeta, modified: string)
    ensures var dated := Dated(meta, modified);
            && dated.info.uploadedAt ==
               (if meta.info.uploadedAt.Some? then meta.info.uploadedAt else Some(modified))
            && dated.files == meta.files
            && dated.info == meta.info.(uploadedAt := dated.info.uploadedAt)
  {
  }

  /** The approved row's key comes from the meta, the pending row's from the prefix. */
  function RowKey(place: Place, meta: RawdbMeta): Place {
    match place
    case Sample(_) => Sample(meta.Key())
    case Pending(_) => place
  }

  function CachedEtag(rows: map<Place, Row>, place: Place): Option<string> {
    if place in rows then rows[place].etag else None
  }

  ghost predicate CanAct(s: State, task: Task, action: Action) {
    match action
    case ReadFails => task.phase.Starting? || task.phase.Fetching? || task.phase.Reading?
    case AnswerHead => task.phase.Starting?
    case Compare => task.phase.Headed? && MetaAt(s.hist, task.phase.head, task.place).Some?
    case AnswerGet => task.phase.Fetching?
    case AnswerList(objects, files) =>
      task.phase.Reading? &&
      var prefix := PrefixOf(task.place);
      var declared := task.phase.meta.files;
      ObjectListing(s.hist, task.phase.got, Now(s.hist), prefix, objects) &&
      if files.Some? then Paired(declared, prefix, objects, files.value)
      else exists i :: 0 <= i < |declared| && !Sees(objects, prefix, declared[i].path)
    case Upsert => task.phase.Storing?
    case Conclude => task.phase.Absent?
  }

  ghost function PhaseAfter(parse: Parser, s: State, task: Task, action: Action): Phase
    requires CanAct(s, task, action)
  {
    var now := Now(s.hist);
    match action
    case ReadFails => Ended(Failed)
    case AnswerHead => if MetaAt(s.hist, now, task.place).Some? then Headed(now) else Absent(now)
    case Compare =>
      if CachedEtag(s.rows, task.place) == MetaAt(s.hist, task.phase.head, task.place).value.etag then Ended(Unchanged)
      else Fetching(task.phase.head)
    case AnswerGet =>
      var item := MetaAt(s.hist, now, task.place);
      if item.None? then Ended(Failed)
      else
        var meta := parse(item.value.text);
        if meta.None? then Ended(Incomplete) else Reading(task.phase.head, now, meta.value)
    case AnswerList(objects, files) =>
      var head := MetaAt(s.hist, task.phase.head, task.place);
      var got := MetaAt(s.hist, task.phase.got, task.place);
      if files.None? || head.None? || got.None? then Ended(Incomplete)
      else Storing(task.phase.head, task.phase.got, now,
                   Row(Dated(task.phase.meta, head.value.modified), got.value.etag, files.value))
    case Upsert => Ended(Updated)
    case Conclude => Ended(MetaMissing)
  }

  ghost function RowsAfter(s: State, task: Task, action: Action): map<Place, Row>
    requires CanAct(s, task, action)
  {
    if action.Upsert? then s.rows[RowKey(task.place, task.phase.row.meta) := task.phase.row]
    else if action.Conclude? && task.refresh then s.rows - {task.place}
    else s.rows
  }

  // ---- Passes ----

  predicate InPass(pass: Pass, place: Place) {
    place.Sample? == pass.samples
  }

  /** What the sweep keeps. */
  predicate Live(prefixes: seq<string>, place: Place) {
    exists i :: 0 <= i < |prefixes| && PlaceOf(prefixes[i]) == Some(place)
  }

  ghost predicate CanStep(s: State, pass: Pass, action: PassAction) {
    var now := Now(s.hist);
    match action
    case ListFails => pass.stage.ListingMakers? || pass.stage.ListingModels?
    case AnswerMakers(makers) =>
      pass.stage.ListingMakers? &&
      CommonListing(s.hist, pass.began, now, if pass.samples then SAMPLES else PENDING, makers)
    case AnswerModels(models) =>
      pass.stage.ListingModels? && pass.stage.todo != [] &&
      CommonListing(s.hist, pass.began, now, pass.stage.todo[0], models)
    case ReadPrior => pass.stage.Found?
    case Sweep(place) => pass.stage.Sweeping? && place in pass.stage.prior && !Live(pass.stage.prefixes, place)
  }

  function ModelsLeft(todo: seq<string>, prefixes: seq<string>, now: nat): Stage {
    if todo == [] then Found(prefixes, now) else ListingModels(todo, prefixes)
  }

  ghost function StageAfter(s: State, pass: Pass, action: PassAction): Stage
    requires CanStep(s, pass, action)
  {
    match action
    case ListFails => Aborted
    case AnswerMakers(makers) =>
      if pass.samples then ModelsLeft(makers, [], Now(s.hist)) else Found(makers, Now(s.hist))
    case AnswerModels(models) => ModelsLeft(pass.stage.todo[1..], pass.stage.prefixes + models, Now(s.hist))
    case ReadPrior =>
      Sweeping(pass.stage.prefixes, pass.stage.ended, set place | place in s.rows && InPass(pass, place))
    case Sweep(_) => pass.stage
  }

  // ---- The machine ----

  ghost predicate Enabled(s: State, step: Step) {
    match step
    case Write(_) => true
    case StartTask(id, _, _) => id !in s.tasks
    case TaskStep(id, action) => id in s.tasks && CanAct(s, s.tasks[id], action)
    case StartPass(id, _) => id !in s.passes
    case PassStep(id, action) => id in s.passes && CanStep(s, s.passes[id], action)
  }

  ghost function Take(parse: Parser, s: State, step: Step): State
    requires Enabled(s, step)
  {
    match step
    case Write(now) => s.(hist := s.hist + [now])
    case StartTask(id, place, refresh) => s.(tasks := s.tasks[id := Task(place, refresh, Now(s.hist), Starting)])
    case TaskStep(id, action) =>
      var task := s.tasks[id];
      s.(tasks := s.tasks[id := task.(phase := PhaseAfter(parse, s, task, action))], rows := RowsAfter(s, task, action))
    case StartPass(id, samples) => s.(passes := s.passes[id := Pass(samples, Now(s.hist), ListingMakers)])
    case PassStep(id, action) =>
      var pass := s.passes[id];
      s.(passes := s.passes[id := pass.(stage := StageAfter(s, pass, action))],
         rows := if action.Sweep? then s.rows - {action.place} else s.rows)
  }

  ghost predicate Next(parse: Parser, s: State, s': State) {
    exists step :: Enabled(s, step) && s' == Take(parse, s, step)
  }

  /** A pod starts with an empty cache. */
  ghost predicate IsRun(parse: Parser, run: seq<State>) {
    && run != []
    && run[0].rows == map[] && run[0].tasks == map[] && run[0].passes == map[]
    && Runs.Steps((s, s') => Next(parse, s, s'), run, 0, |run| - 1)
  }

  // ---- Where a row comes from ----

  /** The row is the meta S3 held under `prefix` at one moment, with every file it declares. */
  ghost predicate FromS3(parse: Parser, hist: History, place: Place, row: Row, head: nat, got: nat, listed: nat) {
    && head <= got <= listed < |hist|
    && MetaAt(hist, head, place).Some?
    && MetaAt(hist, got, place).Some?
    && var item := MetaAt(hist, got, place).value;
       var meta := parse(item.text);
       && meta.Some?
       && row.etag == item.etag
       && row.meta == Dated(meta.value, MetaAt(hist, head, place).value.modified)
       && FilesFromS3(hist, PrefixOf(place), meta.value.files, row.files, got, listed)
  }

  ghost predicate FilesFromS3(hist: History, prefix: string, declared: seq<FileMeta>, files: seq<Listed>, from: nat,
                              to: nat) {
    && |files| == |declared|
    && forall i :: 0 <= i < |files| ==>
         files[i].file == declared[i] &&
         ListedSometime(hist, from, to, prefix + declared[i].path, files[i].size, files[i].etag)
  }

  ghost predicate HasSource(parse: Parser, hist: History, key: Place, row: Row) {
    exists place, head, got, listed ::
      RowKey(place, row.meta) == key && FromS3(parse, hist, place, row, head, got, listed)
  }

  ghost predicate RowsInv(parse: Parser, hist: History, rows: map<Place, Row>) {
    forall key :: key in rows ==> HasSource(parse, hist, key, rows[key])
  }

  ghost predicate TaskInv(parse: Parser, hist: History, task: Task) {
    var phase := task.phase;
    && task.began < |hist|
    && match phase
       case Starting => true
       case Absent(head) => task.began <= head < |hist| && MetaAt(hist, head, task.place).None?
       case Headed(head) => head < |hist| && MetaAt(hist, head, task.place).Some?
       case Fetching(head) => head < |hist| && MetaAt(hist, head, task.place).Some?
       case Reading(head, got, meta) =>
         && head <= got < |hist|
         && MetaAt(hist, head, task.place).Some?
         && MetaAt(hist, got, task.place).Some?
         && parse(MetaAt(hist, got, task.place).value.text) == Some(meta)
       case Storing(head, got, listed, row) => FromS3(parse, hist, task.place, row, head, got, listed)
       case Ended(_) => true
  }

  ghost predicate TasksInv(parse: Parser, hist: History, tasks: map<nat, Task>) {
    forall id :: id in tasks ==> TaskInv(parse, hist, tasks[id])
  }

  // ---- Nothing said about the past changes when S3 does ----

  lemma ListedEarlier(hist: History, now: Contents, from: nat, to: nat, key: string, size: nat, etag: Option<string>)
    requires ListedSometime(hist, from, to, key, size, etag)
    ensures ListedSometime(hist + [now], from, to, key, size, etag)
  {
    var t :| from <= t <= to && t < |hist| && key in hist[t] && hist[t][key].size == size && hist[t][key].etag == etag;
    assert (hist + [now])[t] == hist[t];
  }

  lemma FilesEarlier(hist: History, now: Contents, prefix: string, declared: seq<FileMeta>, files: seq<Listed>,
                     from: nat, to: nat)
    requires FilesFromS3(hist, prefix, declared, files, from, to)
    ensures FilesFromS3(hist + [now], prefix, declared, files, from, to)
  {
    forall i | 0 <= i < |files|
      ensures ListedSometime(hist + [now], from, to, prefix + declared[i].path, files[i].size, files[i].etag)
    {
      ListedEarlier(hist, now, from, to, prefix + declared[i].path, files[i].size, files[i].etag);
    }
  }

  lemma FromS3Earlier(parse: Parser, hist: History, now: Contents, place: Place, row: Row, head: nat, got: nat,
                      listed: nat)
    requires FromS3(parse, hist, place, row, head, got, listed)
    ensures FromS3(parse, hist + [now], place, row, head, got, listed)
  {
    var hist' := hist + [now];
    assert hist'[head] == hist[head] && hist'[got] == hist[got];
    var meta := parse(MetaAt(hist, got, place).value.text).value;
    FilesEarlier(hist, now, PrefixOf(place), meta.files, row.files, got, listed);
  }

  lemma RowsEarlier(parse: Parser, hist: History, now: Contents, rows: map<Place, Row>)
    requires RowsInv(parse, hist, rows)
    ensures RowsInv(parse, hist + [now], rows)
  {
    forall key | key in rows ensures HasSource(parse, hist + [now], key, rows[key]) {
      var place, head, got, listed :|
        RowKey(place, rows[key].meta) == key && FromS3(parse, hist, place, rows[key], head, got, listed);
      FromS3Earlier(parse, hist, now, place, rows[key], head, got, listed);
    }
  }

  lemma TaskEarlier(parse: Parser, hist: History, now: Contents, task: Task)
    requires TaskInv(parse, hist, task)
    ensures TaskInv(parse, hist + [now], task)
  {
    assert forall t :: 0 <= t < |hist| ==> (hist + [now])[t] == hist[t];
    if task.phase.Storing? {
      FromS3Earlier(parse, hist, now, task.place, task.phase.row, task.phase.head, task.phase.got, task.phase.listed);
    }
  }

  // ---- Every task step keeps the provenance ----

  lemma ListingGivesRow(parse: Parser, s: State, task: Task, action: Action)
    requires TaskInv(parse, s.hist, task) && action.AnswerList? && CanAct(s, task, action)
    ensures TaskInv(parse, s.hist, task.(phase := PhaseAfter(parse, s, task, action)))
  {
    if action.files.Some? {
      var now := Now(s.hist);
      var prefix, declared, files := PrefixOf(task.place), task.phase.meta.files, action.files.value;
      forall i | 0 <= i < |files|
        ensures ListedSometime(s.hist, task.phase.got, now, prefix + declared[i].path, files[i].size, files[i].etag)
      {
        var o := Listing(prefix + declared[i].path, files[i].size, files[i].etag);
        assert o in action.objects;
      }
      assert FilesFromS3(s.hist, prefix, declared, files, task.phase.got, now);
    }
  }

  lemma TaskStepInv(parse: Parser, s: State, task: Task, action: Action)
    requires TaskInv(parse, s.hist, task) && CanAct(s, task, action)
    ensures TaskInv(parse, s.hist, task.(phase := PhaseAfter(parse, s, task, action)))
  {
    if action.AnswerList? {
      ListingGivesRow(parse, s, task, action);
    }
  }

  lemma RowsStepInv(parse: Parser, s: State, task: Task, action: Action)
    requires RowsInv(parse, s.hist, s.rows) && TaskInv(parse, s.hist, task) && CanAct(s, task, action)
    ensures RowsInv(parse, s.hist, RowsAfter(s, task, action))
  {
    if action.Upsert? {
      var p := task.phase;
      assert FromS3(parse, s.hist, task.place, p.row, p.head, p.got, p.listed);
      assert HasSource(parse, s.hist, RowKey(task.place, p.row.meta), p.row);
    }
  }

  // ---- What a pass knows ----

  /** Every maker prefix that is neither listed nor still to be listed was absent at some moment of the listing. */
  ghost predicate MakersKnown(hist: History, pass: Pass, todo: seq<string>, prefixes: seq<string>) {
    forall key: SetKey ::
      Named(Sample(key)) && SAMPLES + key.maker + "/" !in todo && PrefixOf(Sample(key)) !in prefixes ==>
      AbsentSometime(hist, pass.began, Now(hist), PrefixOf(Sample(key)))
  }

  ghost predicate PrefixesKnown(hist: History, pass: Pass, prefixes: seq<string>, ended: nat) {
    forall place :: Named(place) && InPass(pass, place) && PrefixOf(place) !in prefixes ==>
      AbsentSometime(hist, pass.began, ended, PrefixOf(place))
  }

  ghost predicate PassInv(hist: History, pass: Pass) {
    && pass.began < |hist|
    && match pass.stage
       case ListingMakers => true
       case ListingModels(todo, prefixes) => pass.samples && MakersKnown(hist, pass, todo, prefixes)
       case Found(prefixes, ended) => pass.began <= ended < |hist| && PrefixesKnown(hist, pass, prefixes, ended)
       case Sweeping(prefixes, ended, prior) =>
         && pass.began <= ended < |hist|
         && PrefixesKnown(hist, pass, prefixes, ended)
         && forall place :: place in prior ==> InPass(pass, place)
       case Aborted => true
  }

  ghost predicate PassesInv(hist: History, passes: map<nat, Pass>) {
    forall id :: id in passes ==> PassInv(hist, passes[id])
  }

  lemma AbsentEarlier(hist: History, now: Contents, from: nat, to: nat, prefix: string)
    requires AbsentSometime(hist, from, to, prefix)
    ensures forall later :: later >= to ==> AbsentSometime(hist + [now], from, later, prefix)
  {
    var t :| from <= t <= to && t < |hist| && !Present(hist[t], prefix);
    assert (hist + [now])[t] == hist[t];
  }

  lemma PassEarlier(hist: History, now: Contents, pass: Pass)
    requires PassInv(hist, pass)
    ensures PassInv(hist + [now], pass)
  {
    var ended := if pass.stage.Found? || pass.stage.Sweeping? then pass.stage.ended else Now(hist);
    forall prefix | AbsentSometime(hist, pass.began, ended, prefix)
      ensures AbsentSometime(hist + [now], pass.began, ended, prefix)
      ensures AbsentSometime(hist + [now], pass.began, Now(hist) + 1, prefix)
    {
      AbsentEarlier(hist, now, pass.began, ended, prefix);
    }
    assert Now(hist + [now]) == Now(hist) + 1;
  }

  /** Nothing lies below an absent prefix. */
  lemma AbsentBelow(hist: History, from: nat, to: nat, prefix: string, below: string)
    requires AbsentSometime(hist, from, to, prefix) && prefix <= below
    ensures AbsentSometime(hist, from, to, below)
  {
    var t :| from <= t <= to && t < |hist| && !Present(hist[t], prefix);
    assert forall key :: key in hist[t] && below <= key ==> prefix <= key;
  }

  lemma MakersStep(s: State, pass: Pass, makers: seq<string>)
    requires PassInv(s.hist, pass) && pass.samples && CanStep(s, pass, AnswerMakers(makers))
    ensures MakersKnown(s.hist, pass, makers, [])
  {
    forall key: SetKey | Named(Sample(key)) && SAMPLES + key.maker + "/" !in makers
      ensures AbsentSometime(s.hist, pass.began, Now(s.hist), PrefixOf(Sample(key)))
    {
      SetPrefixIsTwoDeep(key);
      AbsentBelow(s.hist, pass.began, Now(s.hist), SAMPLES + key.maker + "/", PrefixOf(Sample(key)));
    }
  }

  lemma UploadsStep(s: State, pass: Pass, uploads: seq<string>)
    requires PassInv(s.hist, pass) && !pass.samples && CanStep(s, pass, AnswerMakers(uploads))
    ensures PrefixesKnown(s.hist, pass, uploads, Now(s.hist))
  {
    forall place | Named(place) && InPass(pass, place) && PrefixOf(place) !in uploads
      ensures AbsentSometime(s.hist, pass.began, Now(s.hist), PrefixOf(place))
    {
      PendingPrefixIsOneDeep(place.id);
    }
  }

  lemma ModelsStep(s: State, pass: Pass, models: seq<string>)
    requires PassInv(s.hist, pass) && CanStep(s, pass, AnswerModels(models))
    ensures MakersKnown(s.hist, pass, pass.stage.todo[1..], pass.stage.prefixes + models)
  {
    var todo := pass.stage.todo;
    forall key: SetKey |
      Named(Sample(key)) && SAMPLES + key.maker + "/" !in todo[1..] &&
          PrefixOf(Sample(key)) !in pass.stage.prefixes + models
      ensures AbsentSometime(s.hist, pass.began, Now(s.hist), PrefixOf(Sample(key)))
    {
      var m := SAMPLES + key.maker + "/";
      if m in todo {
        assert m == todo[0];
        SetPrefixIsTwoDeep(key);
      }
    }
  }

  lemma NoMakersLeft(hist: History, pass: Pass, prefixes: seq<string>)
    requires pass.samples && MakersKnown(hist, pass, [], prefixes)
    ensures PrefixesKnown(hist, pass, prefixes, Now(hist))
  {
    forall place | Named(place) && InPass(pass, place) && PrefixOf(place) !in prefixes
      ensures AbsentSometime(hist, pass.began, Now(hist), PrefixOf(place))
    {
      assert place == Sample(place.key);
    }
  }

  lemma PassStepInv(s: State, pass: Pass, action: PassAction)
    requires PassInv(s.hist, pass) && CanStep(s, pass, action)
    ensures PassInv(s.hist, pass.(stage := StageAfter(s, pass, action)))
  {
    var after := pass.(stage := StageAfter(s, pass, action));
    match action
    case AnswerMakers(makers) =>
      if pass.samples {
        MakersStep(s, pass, makers);
        assert MakersKnown(s.hist, after, makers, []);
        if makers == [] { NoMakersLeft(s.hist, after, []); }
      } else {
        UploadsStep(s, pass, makers);
        assert PrefixesKnown(s.hist, after, makers, Now(s.hist));
      }
    case AnswerModels(models) =>
      ModelsStep(s, pass, models);
      var left, found := pass.stage.todo[1..], pass.stage.prefixes + models;
      assert MakersKnown(s.hist, after, left, found);
      if left == [] { NoMakersLeft(s.hist, after, found); }
    case ReadPrior => assert PrefixesKnown(s.hist, after, pass.stage.prefixes, pass.stage.ended);
    case _ =>
  }

  // ---- The invariant ----

  ghost predicate Inv(parse: Parser, s: State) {
    && RowsInv(parse, s.hist, s.rows)
    && TasksInv(parse, s.hist, s.tasks)
    && PassesInv(s.hist, s.passes)
  }

  lemma WriteInv(parse: Parser, s: State, now: Contents)
    requires Inv(parse, s)
    ensures Inv(parse, s.(hist := s.hist + [now]))
  {
    RowsEarlier(parse, s.hist, now, s.rows);
    forall id | id in s.tasks ensures TaskInv(parse, s.hist + [now], s.tasks[id]) {
      TaskEarlier(parse, s.hist, now, s.tasks[id]);
    }
    forall id | id in s.passes ensures PassInv(s.hist + [now], s.passes[id]) {
      PassEarlier(s.hist, now, s.passes[id]);
    }
  }

  lemma StepInv(parse: Parser, s: State, step: Step)
    requires Inv(parse, s) && Enabled(s, step)
    ensures Inv(parse, Take(parse, s, step))
  {
    match step
    case Write(now) => WriteInv(parse, s, now);
    case StartTask(_, _, _) =>
    case TaskStep(id, action) =>
      TaskStepInv(parse, s, s.tasks[id], action);
      RowsStepInv(parse, s, s.tasks[id], action);
    case StartPass(_, _) =>
    case PassStep(id, action) => PassStepInv(s, s.passes[id], action);
  }

  lemma InvHolds(parse: Parser, run: seq<State>, k: nat)
    requires IsRun(parse, run) && k < |run|
    ensures Inv(parse, run[k])
  {
    var next := (s, s') => Next(parse, s, s');
    var inv := s => Inv(parse, s);
    forall s, s' | inv(s) && next(s, s') ensures inv(s') {
      var step :| Enabled(s, step) && s' == Take(parse, s, step);
      StepInv(parse, s, step);
    }
    Runs.Invariant(next, inv, run, 0, k);
  }

  // ---- The two safety claims ----

  /**
   * A partial read never shrinks a set: under any faults and any writes, every cached row is one meta
   * S3 held, with all the files that meta declares, in order, each with a size and ETag S3 held.
   */
  lemma RowsListWholeMetas(parse: Parser, run: seq<State>, k: nat, key: Place)
    requires IsRun(parse, run) && k < |run| && key in run[k].rows
    ensures var row := run[k].rows[key];
            HasSource(parse, run[k].hist, key, row) &&
            |row.files| == |row.meta.files| &&
            forall i :: 0 <= i < |row.files| ==> row.files[i].file == row.meta.files[i]
  {
    InvHolds(parse, run, k);
    var row := run[k].rows[key];
    assert HasSource(parse, run[k].hist, key, row);
  }

  /** The two ways a row may disappear. */
  ghost predicate Sanctioned(s: State, step: Step, key: Place) {
    || (step.PassStep? && step.id in s.passes && s.passes[step.id].stage.Sweeping? &&
        AbsentSometime(s.hist, s.passes[step.id].began, s.passes[step.id].stage.ended, PrefixOf(key)))
    || (step.TaskStep? && step.id in s.tasks && s.tasks[step.id].refresh && s.tasks[step.id].place == key &&
        exists t :: s.tasks[step.id].began <= t < |s.hist| && MetaAt(s.hist, t, key).None?)
  }

  /**
   * A row disappears only if its set was absent at some moment between the beginning of its pass and the
   * end of that pass's listing, or a refresh's HEAD of its meta said NotFound; a failed read never removes
   * one, nor does what is deleted while the tasks of the pass run.
   */
  lemma RowsVanishOnlyWithTheirSet(parse: Parser, run: seq<State>, k: nat, step: Step, key: Place)
    requires IsRun(parse, run) && k < |run| && Enabled(run[k], step) && Named(key)
    requires key in run[k].rows && key !in Take(parse, run[k], step).rows
    ensures Sanctioned(run[k], step, key)
  {
    var s := run[k];
    InvHolds(parse, run, k);
    match step
    case TaskStep(id, action) => DroppedWasMissing(parse, s, s.tasks[id], action, key);
    case PassStep(id, _) =>
      var pass := s.passes[id];
      assert PassInv(s.hist, pass);
      SweptWasAbsent(s.hist, pass, key);
    case _ =>
  }

  lemma DroppedWasMissing(parse: Parser, s: State, task: Task, action: Action, key: Place)
    requires TaskInv(parse, s.hist, task) && CanAct(s, task, action)
    requires key in s.rows && key !in RowsAfter(s, task, action)
    ensures task.refresh && task.place == key && task.phase.Absent?
    ensures task.began <= task.phase.head < |s.hist| && MetaAt(s.hist, task.phase.head, key).None?
  {
  }

  lemma SweptWasAbsent(hist: History, pass: Pass, key: Place)
    requires PassInv(hist, pass) && pass.stage.Sweeping? && Named(key) && !Live(pass.stage.prefixes, key)
    requires InPass(pass, key)
    ensures AbsentSometime(hist, pass.began, pass.stage.ended, PrefixOf(key))
  {
    var prefixes := pass.stage.prefixes;
    PlaceRoundTrip(key);
    assert forall i :: 0 <= i < |prefixes| ==> PlaceOf(prefixes[i]) != Some(key) && prefixes[i] != PrefixOf(key);
  }

  // ---- Where the claims stop ----

  lemma PlaceOfIsNamed(prefix: string)
    ensures PlaceOf(prefix).Some? ==> Named(PlaceOf(prefix).value)
  {
    if SAMPLES <= prefix {
      SplitOnceHead(TrimSlashes(prefix[|SAMPLES|..]));
    }
  }

  /**
   * No listing keeps a set whose maker or model holds a slash or is empty, though validation and
   * approval accept a slash: the sweep removes such a row whatever S3 holds.
   */
  lemma SweepKeepsOnlyNamedSets(parse: Parser, s: State, id: nat, key: Place)
    requires id in s.passes && s.passes[id].stage.Sweeping? && key in s.passes[id].stage.prior && key in s.rows
    ensures !Named(key) ==>
              Enabled(s, PassStep(id, Sweep(key))) && key !in Take(parse, s, PassStep(id, Sweep(key))).rows
    ensures Named(key) && PrefixOf(key) in s.passes[id].stage.prefixes ==> !Enabled(s, PassStep(id, Sweep(key)))
  {
    var prefixes := s.passes[id].stage.prefixes;
    if Named(key) {
      PlaceRoundTrip(key);
      assert forall i :: 0 <= i < |prefixes| && prefixes[i] == PrefixOf(key) ==> PlaceOf(prefixes[i]) == Some(key);
    } else {
      forall i | 0 <= i < |prefixes| ensures PlaceOf(prefixes[i]) != Some(key) {
        PlaceOfIsNamed(prefixes[i]);
      }
    }
  }

  /** The comparison takes a missing row for an unchanged one exactly when S3 gives the meta no ETag. */
  lemma EtaglessMetaIsNeverLoaded(parse: Parser, s: State, task: Task)
    requires CanAct(s, task, Compare) && task.place !in s.rows
    ensures PhaseAfter(parse, s, task, Compare) == Ended(Unchanged) <==>
            MetaAt(s.hist, task.phase.head, task.place).value.etag.None?
  {
  }
}
