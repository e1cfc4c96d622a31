/** Edits of `_system/users.toml` by compare-and-swap from any number of pods, and each pod's
    mirror of the file. */
module Users {
  import opened Wrappers
  import Runs

  const MAX_CAS_RETRIES: nat := 5

  type ETag = string

  datatype User = User(sub: string, displayName: Option<string>, blocked: bool, addedAt: Option<string>,
                       addedBy: Option<string>, roles: seq<string>, apiKeyHash: Option<string>)

  datatype UserRow = UserRow(sub: string, displayName: Option<string>, blocked: bool, addedAt: Option<string>,
                             addedBy: Option<string>, roles: seq<string>, apiKeyHash: Option<string>)

  function ToDbRow(u: User): UserRow {
    UserRow(u.sub, u.displayName, u.blocked, u.addedAt, u.addedBy, u.roles, u.apiKeyHash)
  }

  function Rows(users: seq<User>): seq<UserRow> {
    seq(|users|, i requires 0 <= i < |users| => ToDbRow(users[i]))
  }

  datatype Error = ConcurrentWrite | Rejected(reason: string) | Storage

  /** One evaluation of an edit's closure: the edited users, or its refusal. */
  type Mutator = seq<User> -> Result<seq<User>, string>

  datatype Version = Version(users: seq<User>, etag: ETag)

  /** The object in S3; `None` is absent and reads as no users. */
  type File = Option<Version>

  function Content(f: File): seq<User> {
    match f case None => [] case Some(v) => v.users
  }

  function Tag(f: File): Option<ETag> {
    match f case None => None case Some(v) => Some(v.etag)
  }

  datatype Mirror = Mirror(etag: Option<ETag>, rows: seq<UserRow>)

  function MirrorOf(f: File): Mirror {
    Mirror(Tag(f), Rows(Content(f)))
  }

  datatype EditPhase =
    | Reading(attempt: nat)
    | Writing(attempt: nat, current: seq<User>, etag: Option<ETag>, m: Mutator)
    | Mirroring(written: Version)
    | Finished(result: Result<seq<User>, Error>)

  datatype Edit = Edit(pod: nat, phase: EditPhase)

  datatype ScanPhase = Headed(etag: Option<ETag>) | Fetching | Fetched(version: Version)

  datatype Scan = Scan(pod: nat, phase: ScanPhase)

  datatype Put = Put(edit: nat, m: Mutator)

  /** `versions` is every state the object was ever in, `applied` the PUTs that took effect, in order. */
  datatype State = State(file: File, versions: seq<File>, applied: seq<Put>,
                         mirrors: map<nat, Mirror>, edits: map<nat, Edit>, scans: map<nat, Scan>)

  datatype Step =
    | StartEdit(id: nat, pod: nat)
    | ReadFile(id: nat, m: Mutator)
    | Conditional(id: nat, etag: ETag, answered: bool)
    | StoreMirror(id: nat)
    | Abandon(id: nat)
    | StartScan(id: nat, pod: nat)
    | Compare(id: nat)
    | Fetch(id: nat)
    | StoreScan(id: nat)
    | AbandonScan(id: nat)

  /** An ETag may recur only for the content it already named: fresh ETags and content hashes both do. */
  predicate Names(versions: seq<File>, etag: ETag, users: seq<User>) {
    forall i :: 0 <= i < |versions| && Tag(versions[i]) == Some(etag) ==> Content(versions[i]) == users
  }

  predicate EditIn(s: State, id: nat) {
    id in s.edits && s.edits[id].pod in s.mirrors
  }

  predicate ScanIn(s: State, id: nat) {
    id in s.scans && s.scans[id].pod in s.mirrors
  }

  predicate Enabled(s: State, step: Step) {
    match step
    case StartEdit(id, pod) => id !in s.edits && pod in s.mirrors
    case ReadFile(id, _) => EditIn(s, id) && s.edits[id].phase.Reading?
    case Conditional(id, etag, _) =>
      && EditIn(s, id) && s.edits[id].phase.Writing?
      && Names(s.versions, etag, Edited(s.edits[id].phase.m, s.edits[id].phase.current))
    case StoreMirror(id) => EditIn(s, id) && s.edits[id].phase.Mirroring?
    case Abandon(id) => EditIn(s, id) && !s.edits[id].phase.Finished?
    case StartScan(id, pod) => id !in s.scans && pod in s.mirrors
    case Compare(id) => ScanIn(s, id) && s.scans[id].phase.Headed?
    case Fetch(id) => ScanIn(s, id) && s.scans[id].phase.Fetching? && s.file.Some?
    case StoreScan(id) => ScanIn(s, id) && s.scans[id].phase.Fetched?
    case AbandonScan(id) => ScanIn(s, id)
  }

  function Edited(m: Mutator, users: seq<User>): seq<User> {
    match m(users) case Ok(next) => next case Err(_) => users
  }

  function AfterRead(file: File, attempt: nat, m: Mutator): EditPhase {
    match m(Content(file))
    case Err(reason) => Finished(Err(Rejected(reason)))
    case Ok(next) =>
      if next == Content(file) then Finished(Ok(next)) else Writing(attempt, Content(file), Tag(file), m)
  }

  /** A refused conditional PUT costs one attempt. */
  function AfterConflict(attempt: nat): EditPhase {
    if attempt + 1 >= MAX_CAS_RETRIES then Finished(Err(ConcurrentWrite)) else Reading(attempt + 1)
  }

  function SetPhase(s: State, id: nat, phase: EditPhase): State
    requires id in s.edits
  {
    s.(edits := s.edits[id := s.edits[id].(phase := phase)])
  }

  function SetScan(s: State, id: nat, phase: ScanPhase): State
    requires id in s.scans
  {
    s.(scans := s.scans[id := s.scans[id].(phase := phase)])
  }

  function EndScan(s: State, id: nat): State {
    s.(scans := s.scans - {id})
  }

  /** A PUT that takes effect, whether or not its answer arrives. */
  function Applied(s: State, id: nat, etag: ETag, answered: bool): State
    requires id in s.edits && s.edits[id].phase.Writing?
  {
    var w := s.edits[id].phase;
    var v := Version(Edited(w.m, w.current), etag);
    SetPhase(s, id, if answered then Mirroring(v) else Finished(Err(Storage)))
      .(file := Some(v), versions := s.versions + [Some(v)], applied := s.applied + [Put(id, w.m)])
  }

  function Take(s: State, step: Step): State
    requires Enabled(s, step)
  {
    match step
    case StartEdit(id, pod) => s.(edits := s.edits[id := Edit(pod, Reading(0))])
    case ReadFile(id, m) => SetPhase(s, id, AfterRead(s.file, s.edits[id].phase.attempt, m))
    case Conditional(id, etag, answered) =>
      var w := s.edits[id].phase;
      if Tag(s.file) == w.etag then Applied(s, id, etag, answered) else SetPhase(s, id, AfterConflict(w.attempt))
    case StoreMirror(id) =>
      var v := s.edits[id].phase.written;
      SetPhase(s, id, Finished(Ok(v.users))).(mirrors := s.mirrors[s.edits[id].pod := MirrorOf(Some(v))])
    case Abandon(id) => SetPhase(s, id, Finished(Err(Storage)))
    case StartScan(id, pod) => s.(scans := s.scans[id := Scan(pod, Headed(Tag(s.file)))])
    case Compare(id) =>
      var scan := s.scans[id];
      var mirror := s.mirrors[scan.pod];
      if scan.phase.etag == mirror.etag then EndScan(s, id)
      else if scan.phase.etag.None? then EndScan(s, id).(mirrors := s.mirrors[scan.pod := MirrorOf(None)])
      else SetScan(s, id, Fetching)
    case Fetch(id) => SetScan(s, id, Fetched(s.file.value))
    case StoreScan(id) => EndScan(s, id).(mirrors := s.mirrors[s.scans[id].pod :=
        MirrorOf(Some(s.scans[id].phase.version))])
    case AbandonScan(id) => EndScan(s, id)
  }

  ghost predicate Next(s: State, s': State) {
    exists step :: Enabled(s, step) && s' == Take(s, step)
  }

  /** Pods start with an empty mirror; the file may already exist. */
  ghost predicate Init(s: State) {
    && s.versions == [s.file] && s.applied == [] && s.edits == map[] && s.scans == map[]
    && forall pod :: pod in s.mirrors ==> s.mirrors[pod] == MirrorOf(None)
  }

  ghost predicate IsTrace(run: seq<State>) {
    |run| > 0 && forall i :: 0 <= i < |run| - 1 ==> Next(run[i], run[i + 1])
  }

  // ---- the invariant -----------------------------------------------------------------

  function Fold(users: seq<User>, puts: seq<Put>): seq<User> {
    if puts == [] then users else Edited(puts[|puts| - 1].m, Fold(users, puts[..|puts| - 1]))
  }

  ghost predicate Held(versions: seq<File>, f: File) {
    f in versions
  }

  ghost predicate Consistent(versions: seq<File>) {
    forall i, j :: 0 <= i < |versions| && 0 <= j < |versions| && Tag(versions[i]) == Tag(versions[j]) ==>
        versions[i] == versions[j]
  }

  function Uses(puts: seq<Put>, edit: nat): nat {
    if puts == [] then 0 else Uses(puts[..|puts| - 1], edit) + if puts[|puts| - 1].edit == edit then 1 else 0
  }

  /** A PUT of the edit took effect, and left the file at `users`. */
  ghost predicate Wrote(first: seq<User>, applied: seq<Put>, id: nat, users: seq<User>) {
    exists k :: 0 <= k < |applied| && WroteAt(first, applied, k, id, users)
  }

  ghost predicate WroteAt(first: seq<User>, applied: seq<Put>, k: nat, id: nat, users: seq<User>)
    requires k < |applied|
  {
    applied[k].edit == id && Fold(first, applied[..k + 1]) == users
  }

  /** The users are those of some version the file was in. */
  ghost predicate Seen(versions: seq<File>, users: seq<User>) {
    exists f :: Held(versions, f) && Content(f) == users
  }

  /** What an acknowledged edit may answer: what its one PUT wrote, or users it found and left as they were. */
  ghost predicate Acknowledged(versions: seq<File>, applied: seq<Put>, id: nat, users: seq<User>)
    requires versions != []
  {
    if Uses(applied, id) == 0 then Seen(versions, users)
    else Uses(applied, id) == 1 && Wrote(Content(versions[0]), applied, id, users)
  }

  ghost predicate EditInv(s: State, id: nat)
    requires id in s.edits && s.versions != []
  {
    match s.edits[id].phase
    case Reading(attempt) => attempt < MAX_CAS_RETRIES && Uses(s.applied, id) == 0
    case Writing(attempt, current, etag, m) =>
      && attempt < MAX_CAS_RETRIES && Uses(s.applied, id) == 0
      && (exists f :: Held(s.versions, f) && Content(f) == current && Tag(f) == etag)
      && m(current).Ok? && m(current).value != current
    case Mirroring(written) =>
      && Uses(s.applied, id) == 1 && Held(s.versions, Some(written))
      && Wrote(Content(s.versions[0]), s.applied, id, written.users)
    case Finished(Ok(users)) => Acknowledged(s.versions, s.applied, id, users)
    case Finished(Err(e)) => Uses(s.applied, id) <= 1 && (e != Storage ==> Uses(s.applied, id) == 0)
  }

  ghost predicate MirrorInv(s: State, pod: nat)
    requires pod in s.mirrors
  {
    s.mirrors[pod] == MirrorOf(None) || exists f :: Held(s.versions, f) && s.mirrors[pod] == MirrorOf(f)
  }

  ghost predicate ScanInv(s: State, id: nat)
    requires id in s.scans
  {
    s.scans[id].phase.Fetched? ==> Held(s.versions, Some(s.scans[id].phase.version))
  }

  ghost predicate Inv(s: State) {
    && s.versions != [] && s.versions[|s.versions| - 1] == s.file && Consistent(s.versions)
    && Content(s.file) == Fold(Content(s.versions[0]), s.applied)
    && (forall id :: id !in s.edits ==> Uses(s.applied, id) == 0)
    && (forall id :: id in s.edits ==> EditInv(s, id))
    && (forall pod :: pod in s.mirrors ==> MirrorInv(s, pod))
    && (forall id :: id in s.scans ==> ScanInv(s, id))
  }

  lemma ReadEditInv(s: State, step: Step)
    requires Inv(s) && Enabled(s, step) && step.ReadFile?
    ensures EditInv(Take(s, step), step.id)
  {
    assert Held(s.versions, s.file) && Seen(s.versions, Content(s.file));
    assert EditInv(s, step.id);
  }

  lemma OwnEditInv(s: State, step: Step, id: nat)
    requires Inv(s) && Enabled(s, step) && !step.Conditional?
    requires id in Take(s, step).edits && (id !in s.edits || Take(s, step).edits[id] != s.edits[id])
    ensures EditInv(Take(s, step), id)
  {
    assert Held(s.versions, s.file) && Seen(s.versions, Content(s.file));
    if step.ReadFile? {
      ReadEditInv(s, step);
    } else {
      assert id in s.edits ==> EditInv(s, id);
    }
  }

  lemma LocalEditsInv(s: State, step: Step)
    requires Inv(s) && Enabled(s, step) && !step.Conditional?
    ensures forall id :: id in Take(s, step).edits ==> EditInv(Take(s, step), id)
  {
    var s' := Take(s, step);
    assert s'.versions == s.versions && s'.applied == s.applied;
    forall id | id in s'.edits ensures EditInv(s', id) {
      if id in s.edits && s'.edits[id] == s.edits[id] {
        assert EditInv(s, id);
      } else {
        OwnEditInv(s, step, id);
      }
    }
  }

  lemma LocalMirrorsInv(s: State, step: Step)
    requires Inv(s) && Enabled(s, step) && !step.Conditional?
    ensures forall pod :: pod in Take(s, step).mirrors ==> MirrorInv(Take(s, step), pod)
  {
    var s' := Take(s, step);
    if step.StoreMirror? { assert EditInv(s, step.id); }
    if step.StoreScan? { assert ScanInv(s, step.id); }
    forall pod | pod in s'.mirrors ensures MirrorInv(s', pod) {
      assert MirrorInv(s, pod);
    }
  }

  lemma LocalScansInv(s: State, step: Step)
    requires Inv(s) && Enabled(s, step) && !step.Conditional?
    ensures forall id :: id in Take(s, step).scans ==> ScanInv(Take(s, step), id)
  {
    var s' := Take(s, step);
    assert Held(s.versions, s.file);
    forall id | id in s'.scans ensures ScanInv(s', id) {
      assert id in s.scans ==> ScanInv(s, id);
    }
  }

  lemma LocalStepLeavesFile(s: State, step: Step)
    requires Enabled(s, step) && !step.Conditional?
    ensures var s' := Take(s, step);
            && s'.file == s.file && s'.versions == s.versions && s'.applied == s.applied
            && forall id :: id in s.edits ==> id in s'.edits
  {
  }

  /** Steps that leave the object alone. */
  lemma LocalStepInv(s: State, step: Step)
    requires Inv(s) && Enabled(s, step) && !step.Conditional?
    ensures Inv(Take(s, step))
  {
    LocalStepLeavesFile(s, step);
    LocalEditsInv(s, step);
    LocalMirrorsInv(s, step);
    LocalScansInv(s, step);
  }

  lemma UsesAppend(puts: seq<Put>, put: Put, id: nat)
    ensures Uses(puts + [put], id) == Uses(puts, id) + if put.edit == id then 1 else 0
  {
    assert (puts + [put])[..|puts|] == puts;
  }

  lemma VersionsGrow(s: State, s': State)
    requires s.versions <= s'.versions
    ensures forall f :: Held(s.versions, f) ==> Held(s'.versions, f)
  {
  }

  /** Later PUTs change nothing about what an earlier one wrote. */
  lemma WroteStays(first: seq<User>, applied: seq<Put>, put: Put, id: nat, users: seq<User>)
    requires Wrote(first, applied, id, users)
    ensures Wrote(first, applied + [put], id, users)
  {
    var k :| 0 <= k < |applied| && WroteAt(first, applied, k, id, users);
    assert (applied + [put])[..k + 1] == applied[..k + 1];
    assert WroteAt(first, applied + [put], k, id, users);
  }

  lemma JustWrote(first: seq<User>, applied: seq<Put>, put: Put)
    ensures Wrote(first, applied + [put], put.edit, Edited(put.m, Fold(first, applied)))
  {
    var all := applied + [put];
    assert all[..|applied| + 1] == all && all[..|applied|] == applied;
    assert WroteAt(first, all, |applied|, put.edit, Edited(put.m, Fold(first, applied)));
  }

  lemma EditStays(s: State, s': State, put: Put, id: nat)
    requires s.versions != [] && s.versions <= s'.versions && s'.applied == s.applied + [put] && put.edit != id
    requires id in s.edits && id in s'.edits && s'.edits[id] == s.edits[id] && EditInv(s, id)
    ensures EditInv(s', id)
  {
    VersionsGrow(s, s');
    UsesAppend(s.applied, put, id);
    assert s'.versions[0] == s.versions[0];
    var first := Content(s.versions[0]);
    match s.edits[id].phase
    case Mirroring(written) => WroteStays(first, s.applied, put, id, written.users);
    case Finished(Ok(users)) =>
      if Uses(s.applied, id) == 0 {
        var f :| Held(s.versions, f) && Content(f) == users;
        assert Held(s'.versions, f);
      } else {
        WroteStays(first, s.applied, put, id, users);
      }
    case _ =>
  }

  lemma AppliedKeepsEdits(s: State, id: nat, etag: ETag, answered: bool)
    requires Inv(s) && Enabled(s, Conditional(id, etag, answered)) && Tag(s.file) == s.edits[id].phase.etag
    requires Content(s.file) == s.edits[id].phase.current
    ensures forall other :: other in Take(s, Conditional(id, etag, answered)).edits ==>
              EditInv(Take(s, Conditional(id, etag, answered)), other)
    ensures forall other :: other !in s.edits ==> Uses(Take(s, Conditional(id, etag, answered)).applied, other) == 0
  {
    var s' := Take(s, Conditional(id, etag, answered));
    var put := Put(id, s.edits[id].phase.m);
    assert EditInv(s, id);
    assert Held(s'.versions, s'.file) && s'.versions[0] == s.versions[0];
    JustWrote(Content(s.versions[0]), s.applied, put);
    forall other ensures Uses(s'.applied, other) == Uses(s.applied, other) + if id == other then 1 else 0 {
      UsesAppend(s.applied, put, other);
    }
    forall other | other in s'.edits ensures EditInv(s', other) {
      if other != id {
        EditStays(s, s', put, other);
      }
    }
  }

  lemma AppliedKeepsMirrors(s: State, id: nat, etag: ETag, answered: bool)
    requires Inv(s) && Enabled(s, Conditional(id, etag, answered)) && Tag(s.file) == s.edits[id].phase.etag
    ensures var s' := Take(s, Conditional(id, etag, answered));
            (forall pod :: pod in s'.mirrors ==> MirrorInv(s', pod)) && (forall scan :: scan in s'.scans ==>
                ScanInv(s', scan))
  {
    var s' := Take(s, Conditional(id, etag, answered));
    VersionsGrow(s, s');
    forall pod | pod in s'.mirrors ensures MirrorInv(s', pod) { assert MirrorInv(s, pod); }
    forall scan | scan in s'.scans ensures ScanInv(s', scan) { assert ScanInv(s, scan); }
  }

  lemma AppliedKeepsConsistent(s: State, id: nat, etag: ETag, answered: bool)
    requires s.versions != [] && Consistent(s.versions) && Enabled(s, Conditional(id, etag, answered))
    requires Tag(s.file) == s.edits[id].phase.etag
    ensures Consistent(Take(s, Conditional(id, etag, answered)).versions)
  {
    var users := Edited(s.edits[id].phase.m, s.edits[id].phase.current);
    var added := Some(Version(users, etag));
    assert Take(s, Conditional(id, etag, answered)).versions == s.versions + [added];
    assert forall i :: 0 <= i < |s.versions| && Tag(s.versions[i]) == Some(etag) ==> s.versions[i] == added;
  }

  /** The users an edit is about to write over are those of the version whose tag its PUT names. */
  lemma CurrentIsRead(s: State, id: nat)
    requires Inv(s) && id in s.edits && s.edits[id].phase.Writing? && Tag(s.file) == s.edits[id].phase.etag
    ensures Content(s.file) == s.edits[id].phase.current
  {
    var w := s.edits[id].phase;
    assert EditInv(s, id);
    var f :| Held(s.versions, f) && Content(f) == w.current && Tag(f) == w.etag;
    var k :| 0 <= k < |s.versions| && s.versions[k] == f;
    assert s.versions[k] == s.versions[|s.versions| - 1];
  }

  /** A PUT whose `If-Match` held edits exactly the users it read, even if the ETag went A-B-A. */
  lemma AppliedPutInv(s: State, id: nat, etag: ETag, answered: bool)
    requires Inv(s) && Enabled(s, Conditional(id, etag, answered)) && Tag(s.file) == s.edits[id].phase.etag
    ensures Inv(Take(s, Conditional(id, etag, answered)))
    ensures Content(Take(s, Conditional(id, etag, answered)).file) == Edited(s.edits[id].phase.m, Content(s.file))
  {
    var s' := Take(s, Conditional(id, etag, answered));
    CurrentIsRead(s, id);
    assert s'.applied[..|s.applied|] == s.applied && s'.versions[0] == s.versions[0];
    AppliedKeepsConsistent(s, id, etag, answered);
    AppliedKeepsEdits(s, id, etag, answered);
    AppliedKeepsMirrors(s, id, etag, answered);
  }

  lemma RefusedPutInv(s: State, id: nat, etag: ETag, answered: bool)
    requires Inv(s) && Enabled(s, Conditional(id, etag, answered)) && Tag(s.file) != s.edits[id].phase.etag
    ensures Inv(Take(s, Conditional(id, etag, answered)))
  {
    var s' := Take(s, Conditional(id, etag, answered));
    forall other | other in s'.edits ensures EditInv(s', other) { assert EditInv(s, other) && EditInv(s, id); }
    forall pod | pod in s'.mirrors ensures MirrorInv(s', pod) { assert MirrorInv(s, pod); }
    forall scan | scan in s'.scans ensures ScanInv(s', scan) { assert ScanInv(s, scan); }
  }

  lemma StepInv(s: State, s': State)
    requires Inv(s) && Next(s, s')
    ensures Inv(s')
  {
    var step :| Enabled(s, step) && s' == Take(s, step);
    if step.Conditional? {
      if Tag(s.file) == s.edits[step.id].phase.etag { AppliedPutInv(s, step.id, step.etag, step.answered); }
      else { RefusedPutInv(s, step.id, step.etag, step.answered); }
    } else {
      LocalStepInv(s, step);
    }
  }

  lemma {:induction false} InvHolds(run: seq<State>, i: nat)
    requires IsTrace(run) && Inv(run[0]) && i < |run|
    ensures Inv(run[i])
  {
    if i > 0 {
      InvHolds(run, i - 1);
      assert Next(run[i - 1], run[(i - 1) + 1]);
      StepInv(run[i - 1], run[i]);
    }
  }

  lemma InitInv(s: State)
    requires Init(s)
    ensures Inv(s)
  {
  }

  predicate IsFinished(s: State, id: nat) {
    id in s.edits && s.edits[id].phase.Finished?
  }

  function Answer(s: State, id: nat): Result<seq<User>, Error>
    requires IsFinished(s, id)
  {
    s.edits[id].phase.result
  }

  /**
   * No edit is lost: the file is what the PUTs that took effect make of it, one after the other, no edit took
   * effect twice, and one answered with success either took effect and answered what it had written, or
   * answered users the file had held and it found nothing to change in.
   */
  lemma NoLostEdits(run: seq<State>, i: nat, id: nat)
    requires IsTrace(run) && Init(run[0]) && i < |run|
    ensures Content(run[i].file) == Fold(Content(run[0].file), run[i].applied)
    ensures Uses(run[i].applied, id) <= 1
    ensures IsFinished(run[i], id) && Answer(run[i], id).Ok? ==>
              var users := Answer(run[i], id).value;
              if Uses(run[i].applied, id) == 0 then Seen(run[i].versions, users)
              else Wrote(Content(run[0].file), run[i].applied, id, users)
    ensures IsFinished(run[i], id) && Answer(run[i], id).Err? && Answer(run[i], id).error != Storage ==>
              Uses(run[i].applied, id) == 0
  {
    InitInv(run[0]);
    InvHolds(run, i);
    FirstVersion(run, i);
    assert id in run[i].edits ==> EditInv(run[i], id);
  }

  lemma {:induction false} FirstVersion(run: seq<State>, i: nat)
    requires IsTrace(run) && Inv(run[0]) && i < |run|
    ensures run[i].versions != [] && run[i].versions[0] == run[0].versions[0]
  {
    if i > 0 {
      FirstVersion(run, i - 1);
      assert Next(run[i - 1], run[(i - 1) + 1]);
    }
  }

  /** A mirror is still empty or holds the ETag and the users of one version S3 once had. */
  lemma MirrorsAreHeldVersions(run: seq<State>, i: nat, pod: nat)
    requires IsTrace(run) && Init(run[0]) && i < |run| && pod in run[i].mirrors
    ensures run[i].mirrors[pod] == MirrorOf(None) ||
            exists f :: Held(run[i].versions, f) && run[i].mirrors[pod] == MirrorOf(f)
  {
    InitInv(run[0]);
    InvHolds(run, i);
    assert MirrorInv(run[i], pod);
  }

  // ---- without conditional writes -------------------------------------------------------

  /** The same machine on a backend that ignores `If-Match`: every PUT takes effect. */
  function TakePlain(s: State, step: Step): State
    requires Enabled(s, step)
  {
    if step.Conditional? then Applied(s, step.id, step.etag, step.answered) else Take(s, step)
  }

  ghost predicate PlainNext(s: State, s': State) {
    exists step :: Enabled(s, step) && s' == TakePlain(s, step)
  }

  function Adding(user: User): Mutator {
    (users: seq<User>) => Ok(users + [user])
  }

  function TwoPods(): map<nat, Mirror> {
    map[0 := MirrorOf(None), 1 := MirrorOf(None)]
  }

  /** Two edits that have read the same missing file. */
  function BothHaveRead(alice: User, bob: User): State {
    State(None, [None], [], TwoPods(),
          map[0 := Edit(0, Writing(0, [], None, Adding(alice))), 1 :=
              Edit(1, Writing(0, [], None, Adding(bob)))], map[])
  }

  ghost predicate PlainReaches(s: State, s': State) {
    Runs.Reaches(PlainNext, s, s')
  }

  lemma PlainExtend(s: State, mid: State, step: Step)
    requires PlainReaches(s, mid) && Enabled(mid, step)
    ensures PlainReaches(s, TakePlain(mid, step))
  {
    Runs.ReachesNext(PlainNext, mid, TakePlain(mid, step));
    Runs.ReachesThrough(PlainNext, s, mid, TakePlain(mid, step));
  }

  lemma BothRead(alice: User, bob: User) returns (start: State)
    requires alice != bob
    ensures Init(start) && PlainReaches(start, BothHaveRead(alice, bob))
  {
    start := State(None, [None], [], TwoPods(), map[], map[]);
    Runs.ReachesSelf(PlainNext, start);
    PlainExtend(start, start, StartEdit(0, 0));
    var s1 := TakePlain(start, StartEdit(0, 0));
    PlainExtend(start, s1, StartEdit(1, 1));
    var s2 := TakePlain(s1, StartEdit(1, 1));
    PlainExtend(start, s2, ReadFile(0, Adding(alice)));
    var s3 := TakePlain(s2, ReadFile(0, Adding(alice)));
    PlainExtend(start, s3, ReadFile(1, Adding(bob)));
    assert TakePlain(s3, ReadFile(1, Adding(bob))).edits == BothHaveRead(alice, bob).edits;
  }

  /** After both have read, one PUT and its acknowledgement. */
  lemma PlainPut(start: State, s: State, id: nat, etag: ETag)
    requires PlainReaches(start, s) && Enabled(s, Conditional(id, etag, true))
    ensures var users := Edited(s.edits[id].phase.m, s.edits[id].phase.current);
            var s' := TakePlain(TakePlain(s, Conditional(id, etag, true)), StoreMirror(id));
            && PlainReaches(start, s') && IsFinished(s', id) && Answer(s', id) == Ok(users)
            && s'.file == Some(Version(users, etag)) && s'.versions == s.versions + [s'.file]
            && s'.mirrors.Keys == s.mirrors.Keys
            && forall other :: other != id ==>
                 (other in s'.edits <==> other in s.edits) && (other in s.edits ==> s'.edits[other] == s.edits[other])
  {
    PlainExtend(start, s, Conditional(id, etag, true));
    PlainExtend(start, TakePlain(s, Conditional(id, etag, true)), StoreMirror(id));
  }

  /** The second edit is about to write what it read before the first one did. */
  ghost predicate AliceAcknowledged(s: State, alice: User, bob: User) {
    && IsFinished(s, 0) && Answer(s, 0) == Ok([alice])
    && s.edits.Keys == {0, 1} && s.edits[1] == Edit(1, Writing(0, [], None, Adding(bob)))
    && s.mirrors.Keys == {0, 1} && s.versions == [None, Some(Version([alice], "a"))]
  }

  lemma FirstPut(start: State, alice: User, bob: User) returns (s: State)
    requires PlainReaches(start, BothHaveRead(alice, bob))
    ensures PlainReaches(start, s) && AliceAcknowledged(s, alice, bob)
  {
    var both := BothHaveRead(alice, bob);
    assert [] + [alice] == [alice];
    PlainPut(start, both, 0, "a");
    s := TakePlain(TakePlain(both, Conditional(0, "a", true)), StoreMirror(0));
    assert s.mirrors.Keys == {0, 1} && s.edits.Keys == {0, 1};
  }

  /**
   * Plain writes lose edits: one pod adds Alice and is acknowledged, another, which had read the file before,
   * adds Bob and is acknowledged too, and Alice is gone.
   */
  lemma PlainWritesLoseEdits(alice: User, bob: User)
    requires alice != bob
    ensures exists s, s' ::
              Init(s) && PlainReaches(s, s') && IsFinished(s', 0) && Answer(s', 0) == Ok([alice]) &&
              IsFinished(s', 1) && Answer(s', 1) == Ok([bob]) && alice !in Content(s'.file)
  {
    var start := BothRead(alice, bob);
    var s := FirstPut(start, alice, bob);
    assert [] + [bob] == [bob] && "a"[0] != "b"[0];
    PlainPut(start, s, 1, "b");
    var s' := TakePlain(TakePlain(s, Conditional(1, "b", true)), StoreMirror(1));
    assert Content(s'.file) == [bob];
  }

  // ---- the retry loop -------------------------------------------------------------------

  ghost predicate Reaches(s: State, s': State) {
    Runs.Reaches(Next, s, s')
  }

  /** A tag longer than every tag so far, hence new. */
  function FreshTag(versions: seq<File>): (etag: ETag)
    ensures |etag| > 0 && forall i :: 0 <= i < |versions| && versions[i].Some? ==> |versions[i].value.etag| < |etag|
  {
    if versions == [] then "x"
    else
      var last := versions[|versions| - 1];
      assert forall i :: 0 <= i < |versions| - 1 ==> versions[..|versions| - 1][i] == versions[i];
      FreshTag(versions[..|versions| - 1]) + match last case None => "" case Some(v) => v.etag
  }

  lemma FreshTagNames(versions: seq<File>, users: seq<User>)
    ensures Names(versions, FreshTag(versions), users)
  {
    forall i | 0 <= i < |versions| ensures Tag(versions[i]) != Some(FreshTag(versions)) {
      assert versions[i].Some? ==> |versions[i].value.etag| < |FreshTag(versions)|;
    }
  }

  /** What a run leaves of an earlier state: PUTs and versions are only added, and the file changes by PUTs alone. */
  ghost predicate Grown(s: State, s': State) {
    && s.applied <= s'.applied && s.versions <= s'.versions
    && (|s'.applied| == |s.applied| ==> s'.file == s.file)
  }

  lemma StepGrows(s: State, s': State)
    requires Next(s, s')
    ensures Grown(s, s')
  {
    var step :| Enabled(s, step) && s' == Take(s, step);
    if !step.Conditional? {
      LocalStepLeavesFile(s, step);
    }
  }

  lemma GrownOn(s: State, mid: State, s': State)
    requires Grown(s, mid) && Grown(mid, s')
    ensures Grown(s, s')
  {
  }

  lemma ReachesGrows(s: State, s': State)
    requires Reaches(s, s')
    ensures Grown(s, s')
  {
    var run: seq<State> :| Runs.IsPath(Next, run) && run[0] == s && run[|run| - 1] == s';
    var grown := (mid: State) => Grown(s, mid);
    forall mid, next | grown(mid) && Next(mid, next) ensures grown(next) {
      StepGrows(mid, next);
      GrownOn(s, mid, next);
    }
    Runs.Invariant(Next, grown, run, 0, |run| - 1);
  }

  /** What goes wrong at one attempt, if anything. */
  datatype Fault = NoFault | ReadFails | PutFails | PutUnanswered | MirrorFails

  /** The file held `users` at some moment between two states. */
  ghost predicate HeldMeanwhile(s0: State, s: State, users: seq<User>) {
    exists i: nat :: |s0.versions| <= i + 1 && i < |s.versions| && Content(s.versions[i]) == users
  }

  /**
   * Why a turn of the loop that began in `s0` ended with `result`: storage failed, before or after the PUT took
   * effect; the closure refused users the
   * file held; another PUT was applied since the read; or the answer is what the closure makes of users the file
   * held, written and mirrored by this edit unless it changes nothing.
   */
  ghost predicate Explained(s0: State, s: State, id: nat, m: Mutator, fault: Fault, result: Result<seq<User>, Error>)
    requires EditIn(s, id)
  {
    match result
    case Err(Storage) =>
      !fault.NoFault? && Uses(s.applied, id) == if fault.PutUnanswered? || fault.MirrorFails? then 1 else 0
    case Err(Rejected(why)) =>
      && !fault.ReadFails? && Uses(s.applied, id) == 0
      && exists users :: HeldMeanwhile(s0, s, users) && m(users) == Err(why)
    case Err(ConcurrentWrite) => LostTurn(s0, s, fault)
    case Ok(edited) =>
      && !fault.ReadFails?
      && exists users :: HeldMeanwhile(s0, s, users) && m(users) == Ok(edited) &&
           if edited == users then Uses(s.applied, id) == 0
           else fault.NoFault? && Uses(s.applied, id) == 1 && s.mirrors[s.edits[id].pod].rows == Rows(edited)
  }

  /** A turn refused by the condition of its PUT: somebody else's was applied in the meantime. */
  ghost predicate LostTurn(s0: State, s: State, fault: Fault) {
    !fault.ReadFails? && !fault.PutFails? && |s.applied| > |s0.applied|
  }

  /** A turn begun in `before` has read the file of `found` and is about to write. */
  ghost predicate HasRead(before: State, found: State, s: State, id: nat, attempt: nat, m: Mutator) {
    && EditIn(s, id) && s.edits[id].phase == Writing(attempt, Content(found.file), Tag(found.file), m)
    && Grown(before, found) && Grown(found, s) && HeldMeanwhile(before, s, Content(found.file))
  }

  /** The first `n` turns got an answer to their read and to their PUT. */
  predicate Answered(faults: seq<Fault>, n: nat)
    requires n <= |faults|
  {
    forall k :: 0 <= k < n ==> !faults[k].ReadFails? && !faults[k].PutFails?
  }

  /** How a turn leaves its edit: ended for a reason, or lost. */
  ghost predicate TurnEnds(s0: State, s: State, id: nat, attempt: nat, m: Mutator, fault: Fault)
    requires EditIn(s, id)
  {
    match s.edits[id].phase
    case Finished(Err(ConcurrentWrite)) => attempt + 1 >= MAX_CAS_RETRIES && LostTurn(s0, s, fault)
    case Finished(result) => Explained(s0, s, id, m, fault, result)
    case phase => phase == Reading(attempt + 1) && attempt + 1 < MAX_CAS_RETRIES && LostTurn(s0, s, fault)
  }

  /** What the loop answers after `last` lost turns and one that ended, or after only lost ones. */
  ghost predicate CasAnswers(s0: State, s: State, id: nat, mutate: seq<Mutator>, faults: seq<Fault>, last: nat,
                             result: Result<seq<User>, Error>)
    requires EditIn(s, id) && |mutate| == |faults| == MAX_CAS_RETRIES
  {
    && last < MAX_CAS_RETRIES && Explained(s0, s, id, mutate[last], faults[last], result)
    && Answered(faults, last) && |s.applied| >= |s0.applied| + last
    && (result == Err(ConcurrentWrite) ==>
          Uses(s.applied, id) == 0 && |s.applied| >= |s0.applied| + MAX_CAS_RETRIES)
  }

  lemma GivesUp(s0: State, s: State, id: nat, mutate: seq<Mutator>, faults: seq<Fault>)
    requires |mutate| == |faults| == MAX_CAS_RETRIES && Inv(s) && EditIn(s, id) && Answered(faults, MAX_CAS_RETRIES)
    requires s.edits[id].phase == Finished(Err(ConcurrentWrite)) && |s.applied| >= |s0.applied| + MAX_CAS_RETRIES
    ensures CasAnswers(s0, s, id, mutate, faults, MAX_CAS_RETRIES - 1, Err(ConcurrentWrite))
  {
    assert EditInv(s, id);
  }

  class Cluster {
    var s: State

    /** Any number of steps of other edits and scans; this body takes none of them, callers must
        allow for all. */
    method Interfere(ghost id: nat)
      requires Inv(s)
      modifies this
      ensures Inv(s) && Reaches(old(s), s)
      ensures old(EditIn(s, id)) ==> EditIn(s, id) && s.edits[id] == old(s.edits[id])
    {
      Runs.ReachesSelf(Next, s);
    }

    method Step(step: Step, ghost start: State)
      requires Inv(s) && Enabled(s, step) && Reaches(start, s)
      modifies this
      ensures Inv(s) && Reaches(start, s) && s == Take(old(s), step) && Grown(old(s), s)
    {
      assert Next(s, Take(s, step));
      StepInv(s, Take(s, step));
      StepGrows(s, Take(s, step));
      Runs.ReachesNext(Next, s, Take(s, step));
      Runs.ReachesThrough(Next, start, s, Take(s, step));
      s := Take(s, step);
    }

    /**
     * `cas_update`: read, edit, write back on condition, up to five times. Everything it does is a run of the
     * machine above, whatever the other pods do in between. `last` is the turn that gave the answer: every
     * earlier one was lost to somebody else's PUT, and the answer is explained by what the closure and the
     * storage did in that turn; `mutate` and `faults` are the closure and the storage turn by turn.
     */
    method CasUpdate(id: nat, pod: nat, mutate: seq<Mutator>, faults: seq<Fault>)
      returns (result: Result<seq<User>, Error>, ghost last: nat)
      requires Inv(s) && Enabled(s, StartEdit(id, pod)) && |mutate| == |faults| == MAX_CAS_RETRIES
      modifies this
      ensures Inv(s) && Reaches(old(s), s)
      ensures EditIn(s, id) && s.edits[id].pod == pod && s.edits[id].phase == Finished(result)
      ensures CasAnswers(old(s), s, id, mutate, faults, last, result)
      ensures (forall k :: 0 <= k < MAX_CAS_RETRIES ==> faults[k].NoFault?) &&
              |s.applied| < |old(s.applied)| + MAX_CAS_RETRIES ==>
                result.Ok? || result.error.Rejected?
    {
      ghost var start := s;
      Runs.ReachesSelf(Next, s);
      Step(StartEdit(id, pod), start);
      for attempt := 0 to MAX_CAS_RETRIES
        invariant Inv(s) && Reaches(start, s) && EditIn(s, id) && s.edits[id].pod == pod && Grown(start, s)
        invariant s.edits[id].phase ==
                 if attempt < MAX_CAS_RETRIES then Reading(attempt) else Finished(Err(ConcurrentWrite))
        invariant |s.applied| >= |start.applied| + attempt
        invariant Answered(faults, attempt)
      {
        ghost var before := s;
        last := attempt;
        Attempt(id, attempt, mutate[attempt], faults[attempt], start);
        GrownOn(start, before, s);
        if s.edits[id].phase.Finished? && s.edits[id].phase.result != Err(ConcurrentWrite) {
          result := s.edits[id].phase.result;
          ExplainedSince(start, before, s, id, mutate[attempt], faults[attempt], result);
          return;
        }
        TurnIsLost(before, s, id, attempt, mutate[attempt], faults);
      }
      last := MAX_CAS_RETRIES - 1;
      result := Err(ConcurrentWrite);
      GivesUp(start, s, id, mutate, faults);
    }

    /** One turn of the loop. */
    method Attempt(id: nat, attempt: nat, m: Mutator, fault: Fault, ghost start: State)
      requires Inv(s) && Reaches(start, s) && EditIn(s, id) && s.edits[id].phase == Reading(attempt)
      requires attempt < MAX_CAS_RETRIES
      modifies this
      ensures Inv(s) && Reaches(start, s) && EditIn(s, id) && s.edits[id].pod == old(s.edits[id].pod)
      ensures Grown(old(s), s) && TurnEnds(old(s), s, id, attempt, m, fault)
    {
      ghost var before := s;
      Others(id, start);
      assert EditInv(s, id);
      if fault.ReadFails? {
        Step(Abandon(id), start);
        return;
      }
      ghost var found := s;
      Step(ReadFile(id, m), start);
      HeldNow(before, found, s);
      if s.edits[id].phase.Finished? {
        ReadEnds(before, found, id, attempt, m, fault);
        return;
      }
      Write(id, attempt, m, fault, start, before, found);
    }

    method Write(id: nat, attempt: nat, m: Mutator, fault: Fault, ghost start: State, ghost before: State,
                 ghost found: State)
      requires Inv(s) && Reaches(start, s) && attempt < MAX_CAS_RETRIES && !fault.ReadFails?
      requires HasRead(before, found, s, id, attempt, m)
      modifies this
      ensures Inv(s) && Reaches(start, s) && EditIn(s, id) && s.edits[id].pod == old(s.edits[id].pod)
      ensures Grown(before, s) && TurnEnds(before, s, id, attempt, m, fault)
    {
      Others(id, start);
      StillRead(before, found, old(s), s, id, attempt, m);
      assert EditInv(s, id);
      if fault.PutFails? {
        Step(Abandon(id), start);
        return;
      }
      PutOnCondition(id, attempt, m, fault, start, before, found);
    }

    method PutOnCondition(id: nat, attempt: nat, m: Mutator, fault: Fault, ghost start: State, ghost before: State,
                          ghost found: State)
      requires Inv(s) && Reaches(start, s) && attempt < MAX_CAS_RETRIES && !fault.ReadFails? && !fault.PutFails?
      requires HasRead(before, found, s, id, attempt, m)
      modifies this
      ensures Inv(s) && Reaches(start, s) && EditIn(s, id) && s.edits[id].pod == old(s.edits[id].pod)
      ensures Grown(before, s) && TurnEnds(before, s, id, attempt, m, fault)
    {
      var etag := FreshTag(s.versions);
      FreshTagNames(s.versions, Edited(s.edits[id].phase.m, s.edits[id].phase.current));
      PutEnds(before, found, s, id, etag, attempt, m, fault);
      ghost var put := s;
      Step(Conditional(id, etag, !fault.PutUnanswered?), start);
      HeldStays(before, put, s, Content(found.file));
      if s.edits[id].phase.Mirroring? {
        UpdateMirror(id, m, fault, start, before, Content(found.file));
      }
    }

    method UpdateMirror(id: nat, ghost m: Mutator, fault: Fault, ghost start: State, ghost before: State,
                        ghost users: seq<User>)
      requires Inv(s) && Reaches(start, s) && EditIn(s, id) && s.edits[id].phase.Mirroring? && Grown(before, s)
      requires HeldMeanwhile(before, s, users) && m(users) == Ok(s.edits[id].phase.written.users)
      requires s.edits[id].phase.written.users != users && (fault.NoFault? || fault.MirrorFails?)
      modifies this
      ensures Inv(s) && Reaches(start, s) && EditIn(s, id) && s.edits[id].pod == old(s.edits[id].pod)
      ensures Grown(before, s) && s.edits[id].phase.Finished?
      ensures s.edits[id].phase.result != Err(ConcurrentWrite)
      ensures Explained(before, s, id, m, fault, s.edits[id].phase.result)
    {
      Others(id, start);
      HeldStays(before, old(s), s, users);
      ghost var mid := s;
      Step(if fault.MirrorFails? then Abandon(id) else StoreMirror(id), start);
      HeldStays(before, mid, s, users);
      MirrorEnds(before, mid, id, m, fault, users);
    }

    method Others(ghost id: nat, ghost start: State)
      requires Inv(s) && Reaches(start, s) && EditIn(s, id)
      modifies this
      ensures Inv(s) && Reaches(start, s) && Grown(old(s), s)
      ensures EditIn(s, id) && s.edits[id] == old(s.edits[id])
    {
      ghost var before := s;
      Interfere(id);
      ReachesGrows(before, s);
      Runs.ReachesThrough(Next, start, before, s);
    }
  }

  lemma ExplainedSince(s0: State, before: State, s: State, id: nat, m: Mutator, fault: Fault,
                       result: Result<seq<User>, Error>)
    requires Grown(s0, before) && EditIn(s, id) && Explained(before, s, id, m, fault, result)
    ensures Explained(s0, s, id, m, fault, result)
  {
    forall users | HeldMeanwhile(before, s, users) ensures HeldMeanwhile(s0, s, users) {
      var i: nat :| |before.versions| <= i + 1 && i < |s.versions| && Content(s.versions[i]) == users;
      assert |s0.versions| <= i + 1;
    }
  }

  /** What the closure settles at once. */
  lemma ReadEnds(before: State, found: State, id: nat, attempt: nat, m: Mutator, fault: Fault)
    requires Inv(found) && Enabled(found, ReadFile(id, m)) && !fault.ReadFails?
    requires HeldMeanwhile(before, Take(found, ReadFile(id, m)), Content(found.file))
    requires Take(found, ReadFile(id, m)).edits[id].phase.Finished?
    ensures EditIn(Take(found, ReadFile(id, m)), id)
    ensures TurnEnds(before, Take(found, ReadFile(id, m)), id, attempt, m, fault)
  {
    assert EditInv(found, id);
  }

  /** A PUT is refused only when another was applied since the read; one that holds writes what the closure made. */
  lemma PutEnds(before: State, found: State, put: State, id: nat, etag: ETag, attempt: nat, m: Mutator, fault: Fault)
    requires Inv(put) && HasRead(before, found, put, id, attempt, m) && !fault.ReadFails? && !fault.PutFails?
    requires Enabled(put, Conditional(id, etag, !fault.PutUnanswered?)) && attempt < MAX_CAS_RETRIES
    ensures var s := Take(put, Conditional(id, etag, !fault.PutUnanswered?));
            && EditIn(s, id) && s.edits[id].pod == put.edits[id].pod
            && if s.edits[id].phase.Mirroring? then
                 var written := s.edits[id].phase.written.users;
                 && m(Content(found.file)) == Ok(written) && written != Content(found.file)
                 && (fault.NoFault? || fault.MirrorFails?)
               else TurnEnds(before, s, id, attempt, m, fault)
  {
    assert EditInv(put, id);
    UsesAppend(put.applied, Put(id, m), id);
  }

  lemma TurnIsLost(s0: State, s: State, id: nat, attempt: nat, m: Mutator, faults: seq<Fault>)
    requires attempt < |faults| == MAX_CAS_RETRIES && Answered(faults, attempt)
    requires EditIn(s, id) && TurnEnds(s0, s, id, attempt, m, faults[attempt])
    requires s.edits[id].phase.Finished? ==> s.edits[id].phase.result == Err(ConcurrentWrite)
    ensures |s.applied| > |s0.applied| && Answered(faults, attempt + 1)
    ensures s.edits[id].phase ==
            if attempt + 1 < MAX_CAS_RETRIES then Reading(attempt + 1) else Finished(Err(ConcurrentWrite))
  {
  }

  lemma StillRead(before: State, found: State, s: State, s': State, id: nat, attempt: nat, m: Mutator)
    requires HasRead(before, found, s, id, attempt, m) && Grown(s, s')
    requires EditIn(s', id) && s'.edits[id] == s.edits[id]
    ensures HasRead(before, found, s', id, attempt, m) && Grown(before, s')
  {
    HeldStays(before, s, s', Content(found.file));
    GrownOn(found, s, s');
  }

  lemma MirrorEnds(before: State, mid: State, id: nat, m: Mutator, fault: Fault, users: seq<User>)
    requires EditIn(mid, id) && mid.edits[id].phase.Mirroring? && Inv(mid)
    requires HeldMeanwhile(before, mid, users) && m(users) == Ok(mid.edits[id].phase.written.users)
    requires mid.edits[id].phase.written.users != users && (fault.NoFault? || fault.MirrorFails?)
    ensures var s := Take(mid, if fault.MirrorFails? then Abandon(id) else StoreMirror(id));
            && EditIn(s, id) && s.edits[id].phase.Finished? && s.edits[id].phase.result != Err(ConcurrentWrite)
            && Explained(before, s, id, m, fault, s.edits[id].phase.result)
  {
    var s := Take(mid, if fault.MirrorFails? then Abandon(id) else StoreMirror(id));
    assert EditInv(mid, id);
    assert s.versions == mid.versions && HeldMeanwhile(before, s, users);
  }

  lemma HeldNow(before: State, found: State, s: State)
    requires Grown(before, found) && Grown(found, s) && Inv(found)
    ensures Grown(before, s) && HeldMeanwhile(before, s, Content(found.file))
  {
    var i := |found.versions| - 1;
    assert s.versions[i] == found.versions[i] == found.file;
  }

  lemma HeldStays(s0: State, s: State, s': State, users: seq<User>)
    requires Grown(s0, s) && Grown(s, s') && HeldMeanwhile(s0, s, users)
    ensures Grown(s0, s') && HeldMeanwhile(s0, s', users)
  {
    var i: nat :| |s0.versions| <= i + 1 && i < |s.versions| && Content(s.versions[i]) == users;
    assert s'.versions[i] == s.versions[i];
  }
}
