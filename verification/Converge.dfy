/**
 * `run_once` against a bucket nobody writes: the passes as loops whose tasks start and end in any order,
 * and the one table they all lead to.
 */
module Converge {
  import opened Wrappers
  import opened Catalogue
  import opened Bucket
  import opened Pairing
  import opened Scanner

  type Rows = map<Place, Row>

  // ---- What one task finds ----

  datatype Verdict = Missing | Same | Broken | Load(row: Row)

  predicate AllThere(b: Contents, prefix: string, declared: seq<FileMeta>) {
    forall i :: 0 <= i < |declared| ==> declared[i].path != META_FILE && prefix + declared[i].path in b
  }

  function FilesNow(b: Contents, prefix: string, declared: seq<FileMeta>): seq<Listed>
    requires AllThere(b, prefix, declared)
  {
    seq(|declared|, i requires 0 <= i < |declared| =>
      Listed(declared[i], b[prefix + declared[i].path].size, b[prefix + declared[i].path].etag))
  }

  function Examine(parse: Parser, b: Contents, cached: Option<string>, place: Place): Verdict {
    var prefix := PrefixOf(place);
    if MetaKey(prefix) !in b then Missing
    else
      var item := b[MetaKey(prefix)];
      if cached == item.etag then Same
      else
        var meta := parse(item.text);
        if meta.None? || !AllThere(b, prefix, meta.value.files) then Broken
        else Load(Row(Dated(meta.value, item.modified), item.etag, FilesNow(b, prefix, meta.value.files)))
  }

  /** A listing of the bucket as it stands, each key once. */
  ghost predicate ListingOf(b: Contents, prefix: string, objects: seq<Listing>) {
    && (forall i, j :: 0 <= i < j < |objects| ==> objects[i].key != objects[j].key)
    && (forall o :: o in objects ==> prefix <= o.key && o.key in b && o == Listing(o.key, b[o.key].size, b[o.key].etag))
    && (forall key :: key in b && prefix <= key ==> Lists(objects, key))
  }

  lemma PairingIsNow(b: Contents, prefix: string, declared: seq<FileMeta>, objects: seq<Listing>)
    requires ListingOf(b, prefix, objects)
    ensures AllThere(b, prefix, declared) <==> forall i :: 0 <= i < |declared| ==>
            Sees(objects, prefix, declared[i].path)
    ensures forall files :: Paired(declared, prefix, objects, files) && AllThere(b, prefix, declared) ==>
              files == FilesNow(b, prefix, declared)
  {
    forall i | 0 <= i < |declared|
      ensures Sees(objects, prefix, declared[i].path) <==>
              (declared[i].path != META_FILE && prefix + declared[i].path in b)
    {
      var key := prefix + declared[i].path;
      assert prefix <= key;
      if Lists(objects, key) {
        var k :| 0 <= k < |objects| && objects[k].key == key;
        assert objects[k] in objects;
      }
    }
  }

  /** `scan_one_set` and `scan_one_pending` with nothing failing. */
  method ScanOne(parse: Parser, b: Contents, cached: Option<string>, place: Place, objects: seq<Listing>)
    returns (v: Verdict)
    requires ListingOf(b, PrefixOf(place), objects)
    ensures v == Examine(parse, b, cached, place)
  {
    var prefix := PrefixOf(place);
    if MetaKey(prefix) !in b {
      return Missing;
    }
    var item := b[MetaKey(prefix)];
    if cached == item.etag {
      return Same;
    }
    var meta := parse(item.text);
    if meta.None? {
      return Broken;
    }
    var files := PairFiles(meta.value.files, prefix, objects);
    PairingIsNow(b, prefix, meta.value.files, objects);
    return match files
      case Ok(list) => Load(Row(Dated(meta.value, item.modified), item.etag, list))
      case Err(_) => Broken;
  }

  function At(task: Task, phase: Phase): Task {
    task.(phase := phase)
  }

  lemma QuietListingIsListing(b: Contents, prefix: string, objects: seq<Listing>)
    requires ListingOf(b, prefix, objects)
    ensures ObjectListing([b], 0, 0, prefix, objects)
  {
    forall o | o in objects ensures ListedSometime([b], 0, 0, o.key, o.size, o.etag) {
      assert [b][0] == b;
    }
    forall key | prefix <= key && !Lists(objects, key) ensures MissingSometime([b], 0, 0, key) {
      assert [b][0] == b;
    }
  }

  lemma QuietPaired(b: Contents, prefix: string, declared: seq<FileMeta>, objects: seq<Listing>)
    requires ListingOf(b, prefix, objects) && AllThere(b, prefix, declared)
    ensures Paired(declared, prefix, objects, FilesNow(b, prefix, declared))
  {
    var files := FilesNow(b, prefix, declared);
    forall i | 0 <= i < |files|
      ensures Listing(prefix + declared[i].path, files[i].size, files[i].etag) in objects
    {
      var key := prefix + declared[i].path;
      assert prefix <= key;
      var k :| 0 <= k < |objects| && objects[k].key == key;
      assert objects[k] in objects;
    }
  }

  /**
   * What a task finds in a quiet bucket is what the interleaved protocol's steps lead to: the same reads in
   * the same order, ending the same way or about to store the same row.
   */
  lemma ExamineFollowsProtocol(parse: Parser, s: State, task: Task, objects: seq<Listing>)
    requires |s.hist| == 1 && task.phase == Starting && ListingOf(s.hist[0], PrefixOf(task.place), objects)
    ensures var head := At(task, PhaseAfter(parse, s, task, AnswerHead));
            match Examine(parse, s.hist[0], CachedEtag(s.rows, task.place), task.place)
            case Missing => head.phase == Absent(0)
            case Same => CanAct(s, head, Compare) && PhaseAfter(parse, s, head, Compare) == Ended(Unchanged)
            case Broken =>
              CanAct(s, head, Compare) &&
              var fetch := At(task, PhaseAfter(parse, s, head, Compare));
              CanAct(s, fetch, AnswerGet) &&
              var get := At(task, PhaseAfter(parse, s, fetch, AnswerGet));
              get.phase == Ended(Incomplete) ||
              (CanAct(s, get, AnswerList(objects, None)) &&
               PhaseAfter(parse, s, get, AnswerList(objects, None)) == Ended(Incomplete))
            case Load(row) =>
              CanAct(s, head, Compare) &&
              var fetch := At(task, PhaseAfter(parse, s, head, Compare));
              CanAct(s, fetch, AnswerGet) &&
              var get := At(task, PhaseAfter(parse, s, fetch, AnswerGet));
              CanAct(s, get, AnswerList(objects, Some(row.files))) &&
              PhaseAfter(parse, s, get, AnswerList(objects, Some(row.files))) == Storing(0, 0, 0, row)
  {
    var b, prefix := s.hist[0], PrefixOf(task.place);
    assert s.hist == [b];
    QuietListingIsListing(b, prefix, objects);
    var v := Examine(parse, b, CachedEtag(s.rows, task.place), task.place);
    if MetaKey(prefix) in b && parse(b[MetaKey(prefix)].text).Some? {
      var declared := parse(b[MetaKey(prefix)].text).value.files;
      PairingIsNow(b, prefix, declared, objects);
      if AllThere(b, prefix, declared) {
        QuietPaired(b, prefix, declared, objects);
      }
    }
  }

  // ---- What a pass leads to ----

  /** What each task would find, given the table the pass started from. */
  function Finds(parse: Parser, b: Contents, rows: Rows): Place -> Verdict {
    place => Examine(parse, b, CachedEtag(rows, place), place)
  }

  /** The rows once the tasks of `ended` have ended: the loaded ones replaced, all others as they were. */
  function Replaced(finds: Place -> Verdict, rows: Rows, ended: set<Place>): Rows {
    rows + map place | place in ended && finds(place).Load? :: finds(place).row
  }

  predicate Dead(live: set<Place>, samples: bool, place: Place) {
    place.Sample? == samples && place !in live
  }

  function Swept(rows: Rows, live: set<Place>, samples: bool): set<Place> {
    set place | place in rows && Dead(live, samples, place)
  }

  /**
   * The table after a pass, as a function of S3, the old table and the places that met a fault, in a read of
   * their task or in the deletion of their row: complete sets loaded, sets without a prefix gone, everything
   * else as it was.
   */
  function PassRows(parse: Parser, b: Contents, rows: Rows, live: set<Place>, samples: bool, faulty: set<Place>): Rows {
    Replaced(Finds(parse, b, rows), rows, live - faulty) - (Swept(rows, live, samples) - faulty)
  }

  /** Every listed set's meta spells the path it stands under, so a task writes its own row only. */
  ghost predicate Matching(parse: Parser, b: Contents) {
    forall place :: Named(place) ==> MatchesAt(parse, b, place)
  }

  predicate MatchesAt(parse: Parser, b: Contents, place: Place) {
    var key := MetaKey(PrefixOf(place));
    key in b && parse(b[key].text).Some? ==> RowKey(place, parse(b[key].text).value) == place
  }

  lemma LoadedGoesHome(parse: Parser, b: Contents, rows: Rows, place: Place)
    requires MatchesAt(parse, b, place) && Finds(parse, b, rows)(place).Load?
    ensures RowKey(place, Finds(parse, b, rows)(place).row.meta) == place
  {
  }

  datatype Tally = Tally(updated: nat, deleted: nat, failures: nat, incomplete: nat)

  function Having(p: Place -> bool, places: set<Place>): set<Place> {
    set place | place in places && p(place)
  }

  lemma OneMoreHaving(p: Place -> bool, places: set<Place>, place: Place)
    requires place !in places
    ensures |Having(p, places + {place})| == |Having(p, places)| + if p(place) then 1 else 0
  {
    assert Having(p, places + {place}) == Having(p, places) + if p(place) then {place} else {};
  }

  function Loading(finds: Place -> Verdict, places: set<Place>): set<Place> {
    Having(place => finds(place).Load?, places)
  }

  function Breaking(finds: Place -> Verdict, places: set<Place>): set<Place> {
    Having(place => finds(place).Broken?, places)
  }

  lemma OneMoreEnded(finds: Place -> Verdict, rows: Rows, ended: set<Place>, place: Place)
    requires place !in ended
    ensures Replaced(finds, rows, ended + {place}) ==
            if finds(place).Load? then Replaced(finds, rows, ended)[place := finds(place).row] else Replaced(finds,
            rows, ended)
    ensures CachedEtag(Replaced(finds, rows, ended), place) == CachedEtag(rows, place)
  {
  }

  ghost predicate Counted(finds: Place -> Verdict, ended: set<Place>, failed: set<Place>, tally: Tally) {
    && tally.updated == |Loading(finds, ended)|
    && tally.incomplete == |Breaking(finds, ended)|
    && tally.failures == |failed|
    && tally.deleted == 0
  }

  /** `tally`, for a task that ended without an error. */
  function Counting(tally: Tally, v: Verdict): Tally {
    match v
    case Load(_) => tally.(updated := tally.updated + 1)
    case Broken => tally.(incomplete := tally.incomplete + 1)
    case _ => tally
  }

  lemma CountEnded(finds: Place -> Verdict, ended: set<Place>, failed: set<Place>, tally: Tally, place: Place)
    requires Counted(finds, ended, failed, tally) && place !in ended
    ensures Counted(finds, ended + {place}, failed, Counting(tally, finds(place)))
  {
    OneMoreHaving(p => finds(p).Load?, ended, place);
    OneMoreHaving(p => finds(p).Broken?, ended, place);
  }

  /** Where each task of a pass stands: not started, loaded but not stored, ended, or failed. */
  datatype Status = Todo | Running(row: Row) | Done | Faulted

  function With(kind: Status -> bool, tasks: map<Place, Status>): set<Place> {
    set place | place in tasks && kind(tasks[place])
  }

  function EndedIn(tasks: map<Place, Status>): set<Place> {
    With((s: Status) => s.Done?, tasks)
  }

  function FailedIn(tasks: map<Place, Status>): set<Place> {
    With((s: Status) => s.Faulted?, tasks)
  }

  function OpenIn(tasks: map<Place, Status>): set<Place> {
    With((s: Status) => s.Todo? || s.Running?, tasks)
  }

  function NotStartedIn(tasks: map<Place, Status>): set<Place> {
    With((s: Status) => s.Todo?, tasks)
  }

  ghost predicate TasksOk(finds: Place -> Verdict, faulty: set<Place>, tasks: map<Place, Status>) {
    forall place :: place in tasks ==>
      match tasks[place]
      case Todo => true
      case Running(row) => finds(place) == Load(row) && place !in faulty
      case Done => place !in faulty
      case Faulted => place in faulty
  }

  lemma MoveTask(kind: Status -> bool, tasks: map<Place, Status>, place: Place, s: Status)
    requires place in tasks
    ensures With(kind, tasks[place := s]) == (With(kind, tasks) - {place}) + if kind(s) then {place} else {}
  {
  }

  lemma MovesTask(tasks: map<Place, Status>, place: Place, s: Status)
    requires place in OpenIn(tasks)
    ensures EndedIn(tasks[place := s]) == if s.Done? then EndedIn(tasks) + {place} else EndedIn(tasks)
    ensures FailedIn(tasks[place := s]) == if s.Faulted? then FailedIn(tasks) + {place} else FailedIn(tasks)
    ensures place !in EndedIn(tasks) && place !in FailedIn(tasks)
    ensures !s.Todo? ==> NotStartedIn(tasks[place := s]) == NotStartedIn(tasks) - {place}
    ensures s.Done? || s.Faulted? ==> OpenIn(tasks[place := s]) == OpenIn(tasks) - {place}
  {
    MoveTask((s: Status) => s.Done?, tasks, place, s);
    MoveTask((s: Status) => s.Faulted?, tasks, place, s);
    MoveTask((s: Status) => s.Todo? || s.Running?, tasks, place, s);
    MoveTask((s: Status) => s.Todo?, tasks, place, s);
  }

  ghost predicate Progress(finds: Place -> Verdict, rows0: Rows, rows: Rows, faulty: set<Place>,
                           tasks: map<Place, Status>, tally: Tally)
  {
    && TasksOk(finds, faulty, tasks)
    && rows == Replaced(finds, rows0, EndedIn(tasks))
    && Counted(finds, EndedIn(tasks), FailedIn(tasks), tally)
  }

  lemma AllEnded(finds: Place -> Verdict, live: set<Place>, faulty: set<Place>, tasks: map<Place, Status>)
    requires TasksOk(finds, faulty, tasks) && tasks.Keys == live && OpenIn(tasks) == {}
    ensures EndedIn(tasks) == live - faulty && FailedIn(tasks) == live * faulty
  {
    forall place | place in live ensures tasks[place].Done? || tasks[place].Faulted? {
      assert place !in OpenIn(tasks);
    }
  }

  lemma Started(finds: Place -> Verdict, rows0: Rows, rows: Rows, faulty: set<Place>, tasks: map<Place, Status>,
                tally: Tally, place: Place)
    requires place in tasks && tasks[place].Todo? && place !in faulty &&
             Progress(finds, rows0, rows, faulty, tasks, tally)
    ensures var v := finds(place);
            var tasks' := tasks[place := if v.Load? then Running(v.row) else Done];
            && Progress(finds, rows0, rows, faulty, tasks', if v.Load? then tally else Counting(tally, v))
            && NotStartedIn(tasks') == NotStartedIn(tasks) - {place}
  {
    var v := finds(place);
    assert place in OpenIn(tasks);
    MovesTask(tasks, place, if v.Load? then Running(v.row) else Done);
    if !v.Load? {
      OneMoreEnded(finds, rows0, EndedIn(tasks), place);
      CountEnded(finds, EndedIn(tasks), FailedIn(tasks), tally, place);
    }
  }

  predicate SameAt(rows: Rows, after: Rows, place: Place) {
    if place in rows then place in after && after[place] == rows[place] else place !in after
  }

  /**
   * What a pass does to one place, given the table before it. A live set whose reads all worked and that is
   * complete and changed has its new row; every other live one, met by a fault, unchanged or incomplete, keeps
   * what it had. A dead one loses its row unless the deletion failed. The other kind is not touched.
   */
  ghost predicate LeavesPlace(parse: Parser, b: Contents, rows: Rows, after: Rows, live: set<Place>, samples: bool,
                              faulty: set<Place>, place: Place)
  {
    var found := Examine(parse, b, CachedEtag(rows, place), place);
    if place.Sample? != samples then SameAt(rows, after, place)
    else if place !in live then if place in faulty then SameAt(rows, after, place) else place !in after
    else if place !in faulty && found.Load? then place in after && after[place] == found.row
    else SameAt(rows, after, place)
  }

  ghost predicate PassLeaves(parse: Parser, b: Contents, rows: Rows, after: Rows, live: set<Place>, samples: bool,
                             faulty: set<Place>)
  {
    forall place :: LeavesPlace(parse, b, rows, after, live, samples, faulty, place)
  }

  lemma PassRowsLeave(parse: Parser, b: Contents, rows: Rows, live: set<Place>, samples: bool, faulty: set<Place>)
    requires IsLive(b, samples, live)
    ensures PassLeaves(parse, b, rows, PassRows(parse, b, rows, live, samples, faulty), live, samples, faulty)
  {
    forall place
      ensures LeavesPlace(parse, b, rows, PassRows(parse, b, rows, live, samples, faulty), live, samples, faulty, place)
    {
    }
  }

  /** The live places whose reads worked and gave a row, or something incomplete. */
  function ToLoad(parse: Parser, b: Contents, rows: Rows, live: set<Place>, faulty: set<Place>): set<Place> {
    set place | place in live && place !in faulty && Examine(parse, b, CachedEtag(rows, place), place).Load?
  }

  function ToReport(parse: Parser, b: Contents, rows: Rows, live: set<Place>, faulty: set<Place>): set<Place> {
    set place | place in live && place !in faulty && Examine(parse, b, CachedEtag(rows, place), place).Broken?
  }

  /** The rows of the pass's kind that go. */
  function ToDelete(rows: Rows, live: set<Place>, samples: bool, faulty: set<Place>): set<Place> {
    set place | place in rows && place.Sample? == samples && place !in live && place !in faulty
  }

  /** What a pass counts: what it loaded, found broken, could not read, and deleted. */
  ghost predicate PassCounts(parse: Parser, b: Contents, rows: Rows, live: set<Place>, samples: bool,
                             faulty: set<Place>, tally: Tally)
  {
    && tally.updated == |ToLoad(parse, b, rows, live, faulty)|
    && tally.incomplete == |ToReport(parse, b, rows, live, faulty)|
    && tally.failures == |live * faulty|
    && tally.deleted == |ToDelete(rows, live, samples, faulty)|
  }

  lemma LoadingIs(parse: Parser, b: Contents, rows: Rows, live: set<Place>, faulty: set<Place>)
    ensures Loading(Finds(parse, b, rows), live - faulty) == ToLoad(parse, b, rows, live, faulty)
  {
  }

  lemma BreakingIs(parse: Parser, b: Contents, rows: Rows, live: set<Place>, faulty: set<Place>)
    ensures Breaking(Finds(parse, b, rows), live - faulty) == ToReport(parse, b, rows, live, faulty)
  {
  }

  lemma SweptIs(rows: Rows, live: set<Place>, samples: bool, faulty: set<Place>)
    ensures Swept(rows, live, samples) - faulty == ToDelete(rows, live, samples, faulty)
  {
  }

  lemma CountedCounts(parse: Parser, b: Contents, rows: Rows, live: set<Place>, samples: bool, faulty: set<Place>,
                      tally: Tally)
    requires Counted(Finds(parse, b, rows), live - faulty, live * faulty, tally.(deleted := 0))
    requires tally.deleted == |Swept(rows, live, samples) - faulty|
    ensures PassCounts(parse, b, rows, live, samples, faulty, tally)
  {
    LoadingIs(parse, b, rows, live, faulty);
    BreakingIs(parse, b, rows, live, faulty);
    SweptIs(rows, live, samples, faulty);
  }

  lemma OneMoreGone(rows: Rows, dead: set<Place>, faulty: set<Place>, gone: set<Place>, place: Place)
    requires place in dead && dead !! gone
    ensures (dead - {place}) - faulty + (if place in faulty then gone else gone + {place}) == (dead - faulty) + gone
    ensures dead - {place} !! gone + {place} && |gone + {place}| == |gone| + 1
    ensures (rows - gone) - {place} == rows - (gone + {place})
  {
  }

  class Cache {
    var rows: Rows

    constructor ()
      ensures rows == map[]
    {
      rows := map[];
    }

    /** A task's reads: they end it without a row, or give the row it will store. */
    method Start(parse: Parser, b: Contents, ghost faulty: set<Place>, objects: seq<Listing>, tasks: map<Place, Status>,
                 tally: Tally, place: Place, ghost rows0: Rows)
      returns (tasks': map<Place, Status>, tally': Tally)
      requires place in tasks && tasks[place].Todo? && place !in faulty && ListingOf(b, PrefixOf(place), objects)
      requires Progress(Finds(parse, b, rows0), rows0, rows, faulty, tasks, tally)
      ensures Progress(Finds(parse, b, rows0), rows0, rows, faulty, tasks', tally')
      ensures tasks'.Keys == tasks.Keys && NotStartedIn(tasks') == NotStartedIn(tasks) - {place}
    {
      ghost var finds := Finds(parse, b, rows0);
      OneMoreEnded(finds, rows0, EndedIn(tasks), place);
      var v := ScanOne(parse, b, CachedEtag(rows, place), place, objects);
      assert v == finds(place);
      tasks' := tasks[place := if v.Load? then Running(v.row) else Done];
      tally' := if v.Load? then tally else Counting(tally, v);
      Started(finds, rows0, rows, faulty, tasks, tally, place);
    }

    /** A task one of whose reads failed: counted, and its row left alone. */
    method Fail(ghost finds: Place -> Verdict, ghost faulty: set<Place>, tasks: map<Place, Status>,
                tally: Tally, place: Place, ghost rows0: Rows)
      returns (tasks': map<Place, Status>, tally': Tally)
      requires place in tasks && tasks[place].Todo? && place in faulty
      requires Progress(finds, rows0, rows, faulty, tasks, tally)
      ensures Progress(finds, rows0, rows, faulty, tasks', tally')
      ensures tasks'.Keys == tasks.Keys && NotStartedIn(tasks') == NotStartedIn(tasks) - {place}
    {
      assert place in OpenIn(tasks);
      MovesTask(tasks, place, Faulted);
      tasks' := tasks[place := Faulted];
      tally' := tally.(failures := tally.failures + 1);
    }

    /** A task's upsert. */
    method Finish(parse: Parser, b: Contents, ghost faulty: set<Place>, tasks: map<Place, Status>, tally: Tally,
                  place: Place,
                  ghost rows0: Rows)
      returns (tasks': map<Place, Status>, tally': Tally)
      requires place in tasks && tasks[place].Running? && MatchesAt(parse, b, place)
      requires Progress(Finds(parse, b, rows0), rows0, rows, faulty, tasks, tally)
      modifies this
      ensures Progress(Finds(parse, b, rows0), rows0, rows, faulty, tasks', tally')
      ensures tasks'.Keys == tasks.Keys && NotStartedIn(tasks') == NotStartedIn(tasks)
      ensures OpenIn(tasks') == OpenIn(tasks) - {place}
    {
      ghost var finds := Finds(parse, b, rows0);
      assert place in OpenIn(tasks);
      var row := tasks[place].row;
      assert finds(place) == Load(row);
      LoadedGoesHome(parse, b, rows0, place);
      OneMoreEnded(finds, rows0, EndedIn(tasks), place);
      CountEnded(finds, EndedIn(tasks), FailedIn(tasks), tally, place);
      MovesTask(tasks, place, Done);
      rows := rows[RowKey(place, row.meta) := row];
      tally' := Counting(tally, Load(row));
      tasks' := tasks[place := Done];
      assert NotStartedIn(tasks') == NotStartedIn(tasks);
    }

    /** The tasks of one pass: each starts and ends at any time. */
    method RunTasks(parse: Parser, b: Contents, live: set<Place>, faulty: set<Place>, listing: Place -> seq<Listing>)
      returns (tally: Tally)
      requires forall place :: place in live ==>
               MatchesAt(parse, b, place) && ListingOf(b, PrefixOf(place), listing(place))
      modifies this
      ensures rows == Replaced(Finds(parse, b, old(rows)), old(rows), live - faulty)
      ensures Counted(Finds(parse, b, old(rows)), live - faulty, live * faulty, tally)
    {
      ghost var rows0 := rows;
      var tasks: map<Place, Status> := map place | place in live :: Todo;
      tally := Tally(0, 0, 0, 0);
      while OpenIn(tasks) != {}
        invariant tasks.Keys == live
        invariant Progress(Finds(parse, b, rows0), rows0, rows, faulty, tasks, tally)
        decreases |NotStartedIn(tasks)|, |OpenIn(tasks)|
      {
        var place :| place in OpenIn(tasks);
        if tasks[place].Todo? {
          assert place in NotStartedIn(tasks);
          if place in faulty {
            tasks, tally := Fail(Finds(parse, b, rows0), faulty, tasks, tally, place, rows0);
          } else {
            tasks, tally := Start(parse, b, faulty, listing(place), tasks, tally, place, rows0);
          }
        } else {
          tasks, tally := Finish(parse, b, faulty, tasks, tally, place, rows0);
        }
      }
      AllEnded(Finds(parse, b, rows0), live, faulty, tasks);
    }

    /** Removes the rows of the pass's kind that stood before it and are in no listing, but where that fails. */
    method Sweep(prior: set<Place>, live: set<Place>, faulty: set<Place>) returns (deleted: nat)
      modifies this
      ensures rows == old(rows) - ((prior - live) - faulty)
      ensures deleted == |(prior - live) - faulty|
    {
      ghost var rows0 := rows;
      var dead := prior - live;
      ghost var gone: set<Place> := {};
      deleted := 0;
      while dead != {}
        invariant (prior - live) - faulty == (dead - faulty) + gone && dead !! gone
        invariant rows == rows0 - gone && deleted == |gone|
      {
        var place :| place in dead;
        OneMoreGone(rows0, dead, faulty, gone, place);
        if place !in faulty {
          rows := rows - {place};
          gone, deleted := gone + {place}, deleted + 1;
        }
        dead := dead - {place};
      }
    }

    /** `scan_samples` or `scan_pending`: list, run the tasks, sweep. */
    method RunPass(parse: Parser, b: Contents, samples: bool, prefixes: seq<string>, faulty: set<Place>,
                   listing: Place -> seq<Listing>)
      returns (tally: Tally, live: set<Place>)
      requires Matching(parse, b) && LiveListing(b, samples, prefixes)
      requires forall place :: ListingOf(b, PrefixOf(place), listing(place))
      modifies this
      ensures IsLive(b, samples, live)
      ensures rows == PassRows(parse, b, old(rows), live, samples, faulty)
      ensures PassLeaves(parse, b, old(rows), rows, live, samples, faulty)
      ensures PassCounts(parse, b, old(rows), live, samples, faulty, tally)
    {
      live := CollectLive(b, samples, prefixes);
      var prior := set place | place in rows && place.Sample? == samples;
      assert prior - live == Swept(rows, live, samples);
      tally := RunTasks(parse, b, live, faulty, listing);
      var deleted := Sweep(prior, live, faulty);
      tally := tally.(deleted := deleted);
      PassRowsLeave(parse, b, old(rows), live, samples, faulty);
      CountedCounts(parse, b, old(rows), live, samples, faulty, tally);
    }
  }

  // ---- Which places are live ----

  ghost predicate IsLive(b: Contents, samples: bool, live: set<Place>) {
    forall place :: place in live <==> place.Sample? == samples && Named(place) && Present(b, PrefixOf(place))
  }

  ghost predicate LiveListing(b: Contents, samples: bool, prefixes: seq<string>) {
    forall place :: Live(prefixes, place) <==> place.Sample? == samples && Named(place) && Present(b, PrefixOf(place))
  }

  lemma LiveIsUnique(b: Contents, samples: bool, live: set<Place>, other: set<Place>)
    requires IsLive(b, samples, live) && IsLive(b, samples, other)
    ensures live == other
  {
  }

  method CollectLive(ghost b: Contents, ghost samples: bool, prefixes: seq<string>) returns (live: set<Place>)
    requires LiveListing(b, samples, prefixes)
    ensures IsLive(b, samples, live)
  {
    live := {};
    var i := 0;
    while i < |prefixes|
      invariant 0 <= i <= |prefixes|
      invariant forall place :: place in live <==> Live(prefixes[..i], place)
    {
      assert prefixes[..i + 1] == prefixes[..i] + [prefixes[i]];
      forall place ensures Live(prefixes[..i + 1], place) <==>
          Live(prefixes[..i], place) || PlaceOf(prefixes[i]) == Some(place) {
        if Live(prefixes[..i], place) {
          var k :| 0 <= k < i && PlaceOf(prefixes[k]) == Some(place);
          assert prefixes[..i + 1][k] == prefixes[k];
        }
        assert prefixes[..i + 1][i] == prefixes[i];
      }
      var place := PlaceOf(prefixes[i]);
      if place.Some? {
        live := live + {place.value};
      }
      i := i + 1;
    }
    assert prefixes[..i] == prefixes;
  }

  // ---- A clean pass settles ----

  /** A pass leaves the rows of the other kind alone. */
  lemma OtherKindUntouched(parse: Parser, b: Contents, rows: Rows, live: set<Place>, samples: bool,
                           faulty: set<Place>, place: Place)
    requires IsLive(b, samples, live) && place.Sample? != samples
    ensures var after := PassRows(parse, b, rows, live, samples, faulty);
            (place in after <==> place in rows) && (place in rows ==> after[place] == rows[place])
  {
  }

  /** What a clean pass leaves of its own kind: complete sets loaded, incomplete ones as they were, dead ones gone. */
  lemma CleanPassLeaves(parse: Parser, b: Contents, rows: Rows, live: set<Place>, samples: bool, place: Place)
    requires IsLive(b, samples, live) && place.Sample? == samples
    ensures var after := PassRows(parse, b, rows, live, samples, {});
            var v := Finds(parse, b, rows)(place);
            && (place !in live ==> place !in after)
            && (place in live && v.Load? ==> place in after && after[place] == v.row)
            && (place in live && !v.Load? ==>
                  (place in after <==> place in rows) && (place in rows ==> after[place] == rows[place]))
  {
    assert live - {} == live;
  }

  lemma SameRowSameVerdict(parse: Parser, b: Contents, rows: Rows, live: set<Place>, samples: bool, place: Place)
    requires IsLive(b, samples, live) && place in live
    ensures !Finds(parse, b, PassRows(parse, b, rows, live, samples, {}))(place).Load?
  {
    CleanPassLeaves(parse, b, rows, live, samples, place);
  }

  /** Nothing to load and nothing to delete. */
  ghost predicate Settled(parse: Parser, b: Contents, rows: Rows, live: set<Place>, samples: bool) {
    && Loading(Finds(parse, b, rows), live) == {}
    && Swept(rows, live, samples) == {}
  }

  lemma SettledStays(parse: Parser, b: Contents, rows: Rows, live: set<Place>, samples: bool)
    requires Settled(parse, b, rows, live, samples)
    ensures PassRows(parse, b, rows, live, samples, {}) == rows
  {
    var finds := Finds(parse, b, rows);
    forall place | place in live ensures !finds(place).Load? {
      assert finds(place).Load? ==> place in Loading(finds, live);
    }
    assert Replaced(finds, rows, live - {}) == rows;
  }

  /** A clean pass leaves nothing for a second one to do. */
  lemma CleanPassSettles(parse: Parser, b: Contents, rows: Rows, live: set<Place>, samples: bool)
    requires IsLive(b, samples, live)
    ensures Settled(parse, b, PassRows(parse, b, rows, live, samples, {}), live, samples)
  {
    var after := PassRows(parse, b, rows, live, samples, {});
    forall place | place in live ensures !Finds(parse, b, after)(place).Load? {
      SameRowSameVerdict(parse, b, rows, live, samples, place);
    }
    forall place | place in after && place.Sample? == samples ensures place in live {
      CleanPassLeaves(parse, b, rows, live, samples, place);
    }
  }

  lemma OtherPassKeepsSettled(parse: Parser, b: Contents, rows: Rows, live: set<Place>, other: set<Place>,
                              samples: bool)
    requires IsLive(b, samples, live) && IsLive(b, !samples, other) && Settled(parse, b, rows, live, samples)
    ensures Settled(parse, b, PassRows(parse, b, rows, other, !samples, {}), live, samples)
  {
    var after := PassRows(parse, b, rows, other, !samples, {});
    forall place: Place | place.Sample? == samples
      ensures (place in after <==> place in rows) && (place in rows ==> after[place] == rows[place])
    {
      OtherKindUntouched(parse, b, rows, other, !samples, {}, place);
    }
    forall place | place in live ensures !Finds(parse, b, after)(place).Load? {
      assert CachedEtag(after, place) == CachedEtag(rows, place);
      assert Finds(parse, b, rows)(place).Load? ==> place in Loading(Finds(parse, b, rows), live);
    }
    forall place | place in after ensures !Dead(live, samples, place) {
      assert place in rows && Dead(live, samples, place) ==> place in Swept(rows, live, samples);
    }
  }

  /** One round of the scanner's loop: which of its listings and its users pass failed, and whose reads did. */
  datatype Round = Round(setListing: bool, uploadListing: bool, users: bool, faulty: set<Place>)

  /** The table one `run_once` leads to, cut short by the first listing that fails, whatever order its tasks end in. */
  function RoundRows(parse: Parser, b: Contents, rows: Rows, sets: set<Place>, uploads: set<Place>, round: Round)
    : Rows
  {
    if !round.setListing then rows
    else
      var first := PassRows(parse, b, rows, sets, true, round.faulty);
      if !round.uploadListing then first else PassRows(parse, b, first, uploads, false, round.faulty)
  }

  /** Likewise for one that meets no fault. */
  function RunRows(parse: Parser, b: Contents, rows: Rows, sets: set<Place>, uploads: set<Place>): Rows {
    RoundRows(parse, b, rows, sets, uploads, Round(true, true, true, {}))
  }

  /** A second clean run updates nothing, deletes nothing, and leaves the table as it is. */
  lemma SecondRunDoesNothing(parse: Parser, b: Contents, rows: Rows, sets: set<Place>, uploads: set<Place>)
    requires IsLive(b, true, sets) && IsLive(b, false, uploads)
    ensures var after := RunRows(parse, b, rows, sets, uploads);
            && Settled(parse, b, after, sets, true)
            && Settled(parse, b, after, uploads, false)
            && RunRows(parse, b, after, sets, uploads) == after
  {
    var first := PassRows(parse, b, rows, sets, true, {});
    var after := RunRows(parse, b, rows, sets, uploads);
    CleanPassSettles(parse, b, rows, sets, true);
    OtherPassKeepsSettled(parse, b, first, sets, uploads, true);
    CleanPassSettles(parse, b, first, uploads, false);
    SettledStays(parse, b, after, sets, true);
    SettledStays(parse, b, after, uploads, false);
  }

  /** With nothing to do and no fault, a pass counts nothing but broken sets. */
  lemma CleanCounts(parse: Parser, b: Contents, rows: Rows, live: set<Place>, samples: bool, tally: Tally)
    requires PassCounts(parse, b, rows, live, samples, {}, tally) && Settled(parse, b, rows, live, samples)
    ensures tally.failures == 0 && tally.updated == 0 && tally.deleted == 0
  {
    assert live * {} == {} && live - {} == live;
    LoadingIs(parse, b, rows, live, {});
    SweptIs(rows, live, samples, {});
    assert Swept(rows, live, samples) - {} == {};
  }

  /** What a run leaves, pass by pass, cut short by the first listing that fails. */
  ghost predicate RoundLeaves(parse: Parser, b: Contents, rows: Rows, after: Rows, sets: set<Place>,
                              uploads: set<Place>, round: Round)
  {
    if !round.setListing then after == rows
    else
      exists between ::
        PassLeaves(parse, b, rows, between, sets, true, round.faulty) &&
        if !round.uploadListing then after == between
        else PassLeaves(parse, b, between, after, uploads, false, round.faulty)
  }

  /** The summary of a run that was not cut short. */
  ghost predicate RoundCounts(parse: Parser, b: Contents, rows: Rows, sets: set<Place>, uploads: set<Place>,
                              round: Round, samples: Tally, pending: Tally)
  {
    && PassCounts(parse, b, rows, sets, true, round.faulty, samples)
    && PassCounts(parse, b, PassRows(parse, b, rows, sets, true, round.faulty), uploads, false, round.faulty, pending)
  }

  /**
   * `run_once`, users aside: the samples pass, then the pending pass. It gives a summary unless a listing or
   * the users pass failed.
   */
  method RunOnce(cache: Cache, parse: Parser, b: Contents, setPrefixes: seq<string>, uploadPrefixes: seq<string>,
                 round: Round, listing: Place -> seq<Listing>, ghost sets: set<Place>, ghost uploads: set<Place>)
    returns (summary: Option<(Tally, Tally)>)
    requires Matching(parse, b) && LiveListing(b, true, setPrefixes) && LiveListing(b, false, uploadPrefixes)
    requires IsLive(b, true, sets) && IsLive(b, false, uploads)
    requires forall place :: ListingOf(b, PrefixOf(place), listing(place))
    modifies cache
    ensures cache.rows == RoundRows(parse, b, old(cache.rows), sets, uploads, round)
    ensures RoundLeaves(parse, b, old(cache.rows), cache.rows, sets, uploads, round)
    ensures summary.Some? <==> round.setListing && round.uploadListing && round.users
    ensures summary.Some? ==>
              RoundCounts(parse, b, old(cache.rows), sets, uploads, round, summary.value.0, summary.value.1)
  {
    if !round.setListing {
      return None;
    }
    var samples, foundSets := cache.RunPass(parse, b, true, setPrefixes, round.faulty, listing);
    LiveIsUnique(b, true, foundSets, sets);
    if !round.uploadListing {
      return None;
    }
    var pending, foundUploads := cache.RunPass(parse, b, false, uploadPrefixes, round.faulty, listing);
    LiveIsUnique(b, false, foundUploads, uploads);
    return if round.users then Some((samples, pending)) else None;
  }

  /** A clean run that had nothing to do counts no update, no deletion and no failure, and leaves the table alone. */
  lemma SettledRunCounts(parse: Parser, b: Contents, rows: Rows, sets: set<Place>, uploads: set<Place>, samples: Tally,
                         pending: Tally)
    requires Settled(parse, b, rows, sets, true) && Settled(parse, b, rows, uploads, false)
    requires RoundCounts(parse, b, rows, sets, uploads, Round(true, true, true, {}), samples, pending)
    ensures RunRows(parse, b, rows, sets, uploads) == rows
    ensures samples.updated == samples.deleted == samples.failures == 0
    ensures pending.updated == pending.deleted == pending.failures == 0
  {
    SettledStays(parse, b, rows, sets, true);
    SettledStays(parse, b, rows, uploads, false);
    CleanCounts(parse, b, rows, sets, true, samples);
    CleanCounts(parse, b, rows, uploads, false, pending);
  }

  // ---- The listings of a quiet bucket name exactly the live places ----

  lemma TwoDeepIsItsPlace(mp: string, q: string, place: Place)
    requires OneDeeper(SAMPLES, mp) && OneDeeper(mp, q) && PlaceOf(q) == Some(place)
    ensures place.Sample? && PrefixOf(place) == q
  {
    var maker, model := mp[|SAMPLES|..|mp| - 1], q[|mp|..|q| - 1];
    assert mp == SAMPLES + maker + "/";
    assert q == mp + model + "/";
    NotPending(q);
    var rest := maker + "/" + model;
    assert q == SAMPLES + (rest + "/") && q[|SAMPLES|..] == rest + "/";
    if model != "" {
      assert rest[|rest| - 1] == model[|model| - 1];
      TrimOneSlash(rest);
      SplitOnceAt(maker, model);
    } else {
      NoModelNoPlace(maker, rest);
    }
  }

  lemma NotPending(q: string)
    requires SAMPLES <= q
    ensures SplitPendingPrefix(q).None?
  {
    assert q[0] == SAMPLES[0] == 's' && PENDING[0] == 'p';
  }

  lemma NoModelNoPlace(maker: string, rest: string)
    requires '/' !in maker && rest == maker + "/" + ""
    ensures SplitOnce(TrimSlashes(rest + "/")).None?
  {
    assert (rest + "/")[..|rest|] == rest;
    assert rest[..|rest| - 1] == maker;
    assert maker != "" ==> maker[|maker| - 1] != '/';
    assert TrimSlashes(maker) == maker;
    assert rest[|rest| - 1] == '/' && TrimSlashes(rest) == maker;
    NoSlashNoSplit(maker);
  }

  lemma {:induction false} NoSlashNoSplit(s: string)
    requires '/' !in s
    ensures SplitOnce(s).None?
  {
    if s != "" {
      NoSlashNoSplit(s[1..]);
    }
  }

  function Flatten(lists: seq<seq<string>>): seq<string> {
    if lists == [] then [] else Flatten(lists[..|lists| - 1]) + lists[|lists| - 1]
  }

  lemma {:induction false} InFlatten(lists: seq<seq<string>>, q: string)
    ensures q in Flatten(lists) <==> exists i :: 0 <= i < |lists| && q in lists[i]
  {
    if lists != [] {
      var init := lists[..|lists| - 1];
      InFlatten(init, q);
      assert forall i :: 0 <= i < |init| ==> init[i] == lists[i];
      if q in lists[|lists| - 1] {}
    }
  }

  ghost predicate ListingsOf(b: Contents, makers: seq<string>, models: seq<seq<string>>) {
    && CommonListing([b], 0, 0, SAMPLES, makers)
    && |models| == |makers|
    && forall i :: 0 <= i < |makers| ==> CommonListing([b], 0, 0, makers[i], models[i])
  }

  lemma ListedIsLive(b: Contents, makers: seq<string>, models: seq<seq<string>>, place: Place)
    requires ListingsOf(b, makers, models) && Live(Flatten(models), place)
    ensures place.Sample? && Named(place) && Present(b, PrefixOf(place))
  {
    var i, q := ListedComes(models, place);
    ModelIsPresent(b, makers, models, i, q);
    TwoDeepIsItsPlace(makers[i], q, place);
    PlaceOfIsNamed(q);
  }

  lemma ListedComes(models: seq<seq<string>>, place: Place) returns (i: nat, q: string)
    requires Live(Flatten(models), place)
    ensures i < |models| && q in models[i] && PlaceOf(q) == Some(place)
  {
    var prefixes := Flatten(models);
    var k :| 0 <= k < |prefixes| && PlaceOf(prefixes[k]) == Some(place);
    q := prefixes[k];
    InFlatten(models, q);
    i :| 0 <= i < |models| && q in models[i];
  }

  lemma ModelIsPresent(b: Contents, makers: seq<string>, models: seq<seq<string>>, i: nat, q: string)
    requires ListingsOf(b, makers, models) && i < |models| && q in models[i]
    ensures OneDeeper(SAMPLES, makers[i]) && OneDeeper(makers[i], q) && Present(b, q)
  {
    assert makers[i] in makers && PresentSometime([b], 0, 0, q);
  }

  lemma LiveIsListed(b: Contents, makers: seq<string>, models: seq<seq<string>>, place: Place)
    requires ListingsOf(b, makers, models) && place.Sample? && Named(place) && Present(b, PrefixOf(place))
    ensures Live(Flatten(models), place)
  {
    var m, q := SAMPLES + place.key.maker + "/", PrefixOf(place);
    SetPrefixIsTwoDeep(place.key);
    var key :| key in b && q <= key;
    assert m <= key && Present(b, m);
    assert !AbsentSometime([b], 0, 0, m) && !AbsentSometime([b], 0, 0, q);
    assert m in makers;
    var i :| 0 <= i < |makers| && makers[i] == m;
    assert q in models[i];
    InFlatten(models, q);
    var k :| 0 <= k < |Flatten(models)| && Flatten(models)[k] == q;
    PlaceRoundTrip(place);
  }

  /** The makers' and then the models' listings of a bucket at rest name its sets, those and no others. */
  lemma TwoLevelListingIsLive(b: Contents, makers: seq<string>, models: seq<seq<string>>)
    requires ListingsOf(b, makers, models)
    ensures LiveListing(b, true, Flatten(models))
  {
    forall place
      ensures Live(Flatten(models), place) <==> place.Sample? == true && Named(place) && Present(b, PrefixOf(place))
    {
      if Live(Flatten(models), place) {
        ListedIsLive(b, makers, models, place);
      } else if place.Sample? && Named(place) && Present(b, PrefixOf(place)) {
        LiveIsListed(b, makers, models, place);
      }
    }
  }

  /** Likewise for uploads, one level deep. */
  lemma OneLevelListingIsLive(b: Contents, uploads: seq<string>)
    requires CommonListing([b], 0, 0, PENDING, uploads)
    ensures LiveListing(b, false, uploads)
  {
    forall place
      ensures Live(uploads, place) <==> place.Sample? == false && Named(place) && Present(b, PrefixOf(place))
    {
      if Live(uploads, place) {
        var k :| 0 <= k < |uploads| && PlaceOf(uploads[k]) == Some(place);
        assert uploads[k] in uploads && PresentSometime([b], 0, 0, uploads[k]);
        OneDeepIsItsPlace(uploads[k], place);
        PlaceOfIsNamed(uploads[k]);
      } else if place.Pending? && Named(place) && Present(b, PrefixOf(place)) {
        var q := PrefixOf(place);
        PendingPrefixIsOneDeep(place.id);
        assert !AbsentSometime([b], 0, 0, q);
        var k :| 0 <= k < |uploads| && uploads[k] == q;
        PlaceRoundTrip(place);
      }
    }
  }

  lemma NotASet(q: string)
    requires PENDING <= q
    ensures SplitSetPrefix(q).None?
  {
    assert q[0] == PENDING[0] == 'p';
    assert SAMPLES[0] == 's';
  }

  lemma LastSlash(parent: string, q: string)
    requires OneDeeper(parent, q)
    ensures q[|parent|..] == q[|parent|..|q| - 1] + "/"
  {
    var rest := q[|parent|..];
    assert rest[|rest| - 1] == q[|q| - 1] == '/';
    assert rest == rest[..|rest| - 1] + [rest[|rest| - 1]];
    assert rest[..|rest| - 1] == q[|parent|..|q| - 1];
  }

  lemma OneDeepIsItsPlace(q: string, place: Place)
    requires OneDeeper(PENDING, q) && PlaceOf(q) == Some(place)
    ensures place.Pending? && PrefixOf(place) == q
  {
    var id, rest := q[|PENDING|..|q| - 1], q[|PENDING|..];
    LastSlash(PENDING, q);
    assert q == PENDING + rest;
    NotASet(q);
    assert "/"[..0] == "" && TrimSlashes("/") == "";
    if id != "" {
      TrimOneSlash(id);
    }
  }

  // ---- Readiness ----

  /** A set S3 holds whole: its meta readable and tagged, every declared file there. */
  ghost predicate Whole(parse: Parser, b: Contents, place: Place) {
    var key := MetaKey(PrefixOf(place));
    && key in b && b[key].etag.Some?
    && parse(b[key].text).Some? && AllThere(b, PrefixOf(place), parse(b[key].text).value.files)
  }

  /** The one row a whole set has: its dated meta and ETag, and every declared file as it stands. */
  ghost function WholeRow(parse: Parser, b: Contents, place: Place): Row
    requires Whole(parse, b, place)
  {
    var item := b[MetaKey(PrefixOf(place))];
    var meta := parse(item.text).value;
    Row(Dated(meta, item.modified), item.etag, FilesNow(b, PrefixOf(place), meta.files))
  }

  /** Rows that carry a whole set's current ETag are its row; an empty table has no other. */
  ghost predicate RowsExact(parse: Parser, b: Contents, rows: Rows) {
    forall place :: place in rows && Whole(parse, b, place) && rows[place].etag == b[MetaKey(PrefixOf(place))].etag ==>
      rows[place] == WholeRow(parse, b, place)
  }

  lemma PassKeepsExact(parse: Parser, b: Contents, rows: Rows, live: set<Place>, samples: bool, faulty: set<Place>)
    requires RowsExact(parse, b, rows)
    ensures RowsExact(parse, b, PassRows(parse, b, rows, live, samples, faulty))
  {
    var after := PassRows(parse, b, rows, live, samples, faulty);
    forall place | place in after && Whole(parse, b, place) && after[place].etag == b[MetaKey(PrefixOf(place))].etag
      ensures after[place] == WholeRow(parse, b, place)
    {
      var v := Finds(parse, b, rows)(place);
      if place in live - faulty && v.Load? {
        assert after[place] == v.row;
      } else {
        assert place in rows && after[place] == rows[place];
      }
    }
  }

  /** Every whole place of `live` has its row. */
  ghost predicate ServesExactly(parse: Parser, b: Contents, rows: Rows, live: set<Place>) {
    forall place :: place in live && Whole(parse, b, place) ==>
      place in rows && rows[place] == WholeRow(parse, b, place)
  }

  lemma ServedMeansExact(parse: Parser, b: Contents, rows: Rows, live: set<Place>)
    requires AllServed(parse, b, rows, live) && RowsExact(parse, b, rows)
    ensures ServesExactly(parse, b, rows, live)
  {
    forall place | place in live && Whole(parse, b, place)
      ensures place in rows && rows[place] == WholeRow(parse, b, place)
    {
      assert Served(parse, b, rows, place);
    }
  }

  ghost predicate Served(parse: Parser, b: Contents, rows: Rows, place: Place) {
    Whole(parse, b, place) ==> place in rows && rows[place].etag == b[MetaKey(PrefixOf(place))].etag
  }

  ghost predicate AllServed(parse: Parser, b: Contents, rows: Rows, live: set<Place>) {
    forall place :: place in live ==> Served(parse, b, rows, place)
  }

  lemma PassServes(parse: Parser, b: Contents, rows: Rows, live: set<Place>, samples: bool, faulty: set<Place>,
                   place: Place)
    requires IsLive(b, samples, live) && place in live && (place !in faulty || Served(parse, b, rows, place))
    ensures Served(parse, b, PassRows(parse, b, rows, live, samples, faulty), place)
  {
  }

  ghost predicate Clean(round: Round, live: set<Place>) {
    round.setListing && round.uploadListing && round.users && live * round.faulty == {}
  }

  lemma PassKeepsServing(parse: Parser, b: Contents, rows: Rows, live: set<Place>, samples: bool, faulty: set<Place>)
    requires IsLive(b, samples, live)
    ensures live * faulty == {} || AllServed(parse, b, rows, live) ==>
              AllServed(parse, b, PassRows(parse, b, rows, live, samples, faulty), live)
  {
    if live * faulty == {} || AllServed(parse, b, rows, live) {
      forall place | place in live ensures Served(parse, b, PassRows(parse, b, rows, live, samples, faulty), place) {
        assert place in live * faulty ==> place in faulty;
        PassServes(parse, b, rows, live, samples, faulty, place);
      }
    }
  }

  lemma OtherPassKeepsServing(parse: Parser, b: Contents, rows: Rows, live: set<Place>, other: set<Place>,
                              samples: bool,
                              faulty: set<Place>)
    requires IsLive(b, samples, live) && IsLive(b, !samples, other) && AllServed(parse, b, rows, live)
    ensures AllServed(parse, b, PassRows(parse, b, rows, other, !samples, faulty), live)
  {
    forall place | place in live ensures Served(parse, b, PassRows(parse, b, rows, other, !samples, faulty), place) {
      OtherKindUntouched(parse, b, rows, other, !samples, faulty, place);
    }
  }

  /** One pass of a round, as far as serving goes: what was served stays so, and a pass without faults serves all. */
  lemma ServingPass(parse: Parser, b: Contents, rows: Rows, live: set<Place>, other: set<Place>, samples: bool,
                    faulty: set<Place>)
    requires IsLive(b, samples, live) && IsLive(b, !samples, other)
    ensures var after := PassRows(parse, b, rows, live, samples, faulty);
            && (live * faulty == {} || AllServed(parse, b, rows, live) ==> AllServed(parse, b, after, live))
            && (AllServed(parse, b, rows, other) ==> AllServed(parse, b, after, other))
            && (RowsExact(parse, b, rows) ==> RowsExact(parse, b, after))
  {
    PassKeepsServing(parse, b, rows, live, samples, faulty);
    if AllServed(parse, b, rows, other) {
      OtherPassKeepsServing(parse, b, rows, other, live, !samples, faulty);
    }
    if RowsExact(parse, b, rows) {
      PassKeepsExact(parse, b, rows, live, samples, faulty);
    }
  }

  lemma ServedTogether(parse: Parser, b: Contents, rows: Rows, sets: set<Place>, uploads: set<Place>)
    ensures AllServed(parse, b, rows, sets + uploads) <==>
            AllServed(parse, b, rows, sets) && AllServed(parse, b, rows, uploads)
  {
  }

  /** A round keeps what is served, and one without a transient failure serves all. */
  lemma ServingRound(parse: Parser, b: Contents, rows: Rows, sets: set<Place>, uploads: set<Place>, round: Round)
    requires IsLive(b, true, sets) && IsLive(b, false, uploads)
    ensures var after := RoundRows(parse, b, rows, sets, uploads, round);
            && (Clean(round, sets + uploads) || AllServed(parse, b, rows, sets + uploads) ==>
                  AllServed(parse, b, after, sets + uploads))
            && (RowsExact(parse, b, rows) ==> RowsExact(parse, b, after))
  {
    assert (sets + uploads) * round.faulty == (sets * round.faulty) + (uploads * round.faulty);
    var first := PassRows(parse, b, rows, sets, true, round.faulty);
    ServingPass(parse, b, rows, sets, uploads, true, round.faulty);
    ServingPass(parse, b, first, uploads, sets, false, round.faulty);
    ServedTogether(parse, b, rows, sets, uploads);
    ServedTogether(parse, b, first, sets, uploads);
    ServedTogether(parse, b, RoundRows(parse, b, rows, sets, uploads, round), sets, uploads);
  }

  lemma CleanMeansNoFailure(parse: Parser, b: Contents, rows: Rows, sets: set<Place>, uploads: set<Place>, round: Round,
                            samples: Tally, pending: Tally)
    requires RoundCounts(parse, b, rows, sets, uploads, round, samples, pending)
    ensures samples.failures + pending.failures == 0 <==> (sets + uploads) * round.faulty == {}
  {
    assert (sets + uploads) * round.faulty == (sets * round.faulty) + (uploads * round.faulty);
    assert samples.failures == |sets * round.faulty| && pending.failures == |uploads * round.faulty| by {
      FailuresAre(parse, b, rows, sets, true, round.faulty, samples);
      FailuresAre(parse, b, PassRows(parse, b, rows, sets, true, round.faulty), uploads, false, round.faulty, pending);
    }
    EmptyUnion(sets * round.faulty, uploads * round.faulty);
  }

  lemma FailuresAre(parse: Parser, b: Contents, rows: Rows, live: set<Place>, samples: bool, faulty: set<Place>,
                    tally: Tally)
    requires PassCounts(parse, b, rows, live, samples, faulty, tally)
    ensures tally.failures == |live * faulty|
  {
  }

  lemma EmptyUnion(a: set<Place>, c: set<Place>)
    ensures |a| + |c| == 0 <==> a + c == {}
  {
    if a + c == {} {
      assert a == {} && c == {};
    }
  }

  /**
   * The startup loop: the pod turns ready after the first round that finished without a transient failure,
   * never before, and from then on every whole set and upload is served, whatever fails later: from an empty
   * table, by the row of its dated meta with every file that meta declares.
   */
  method AwaitReady(cache: Cache, parse: Parser, b: Contents, setPrefixes: seq<string>, uploadPrefixes: seq<string>,
                    rounds: seq<Round>, listing: Place -> seq<Listing>)
    returns (ready: bool, ghost live: set<Place>)
    requires Matching(parse, b) && LiveListing(b, true, setPrefixes) && LiveListing(b, false, uploadPrefixes)
    requires forall place :: ListingOf(b, PrefixOf(place), listing(place))
    modifies cache
    ensures forall place :: place in live <==> Named(place) && Present(b, PrefixOf(place))
    ensures ready <==> exists i :: 0 <= i < |rounds| && Clean(rounds[i], live)
    ensures ready ==> AllServed(parse, b, cache.rows, live)
    ensures ready && RowsExact(parse, b, old(cache.rows)) ==> ServesExactly(parse, b, cache.rows, live)
  {
    ghost var exact := RowsExact(parse, b, cache.rows);
    var sets := CollectLive(b, true, setPrefixes);
    var uploads := CollectLive(b, false, uploadPrefixes);
    live := sets + uploads;
    ready := false;
    var i := 0;
    while i < |rounds|
      invariant 0 <= i <= |rounds|
      invariant ready <==> exists k :: 0 <= k < i && Clean(rounds[k], live)
      invariant ready ==> AllServed(parse, b, cache.rows, live)
      invariant exact ==> RowsExact(parse, b, cache.rows)
    {
      ghost var before := cache.rows;
      var summary := RunOnce(cache, parse, b, setPrefixes, uploadPrefixes, rounds[i], listing, sets, uploads);
      ServingRound(parse, b, before, sets, uploads, rounds[i]);
      if summary.Some? {
        var (samples, pending) := summary.value;
        CleanMeansNoFailure(parse, b, before, sets, uploads, rounds[i], samples, pending);
        if samples.failures + pending.failures == 0 {
          ready := true;
        }
      }
      i := i + 1;
    }
    if ready && exact {
      ServedMeansExact(parse, b, cache.rows, live);
    }
  }
}
