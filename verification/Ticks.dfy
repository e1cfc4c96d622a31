/** Cross-pod change notification: one tick object per domain, and one cell per domain holding
    the last ETag this pod saw. */
module Ticks {
  import opened Wrappers

  type ETag = string

  datatype Domain = Users | Sets | Pending

  const DOMAINS: seq<Domain> := [Users, Sets, Pending]

  function Index(d: Domain): (i: nat)
    ensures i < |DOMAINS| && DOMAINS[i] == d
  {
    match d case Users => 0 case Sets => 1 case Pending => 2
  }

  datatype Head = Failed | Missing | Present(etag: Option<ETag>)

  type Cell = Option<ETag>

  /** A HEAD that found an ETag other than the cell's is a change; anything else leaves the cell alone. */
  function Seen(cell: Cell, head: Head): Cell {
    if head.Present? && head.etag.Some? then head.etag else cell
  }

  predicate Changed(cell: Cell, head: Head) {
    Seen(cell, head) != cell
  }

  // ---- one poll over the three domains -------------------------------------------

  /** The loop gets past domain `d`: no HEAD failed up to and including its own. */
  ghost predicate Reached(heads: Domain -> Head, d: Domain) {
    forall other :: Index(other) <= Index(d) ==> !heads(other).Failed?
  }

  ghost function AfterPoll(cell: Cell, heads: Domain -> Head, d: Domain): Cell {
    if Reached(heads, d) then Seen(cell, heads(d)) else cell
  }

  ghost predicate Reports(cell: Cell, heads: Domain -> Head, d: Domain) {
    (forall other :: !heads(other).Failed?) && Changed(cell, heads(d))
  }

  /** A change seen by one poll and still there at the next is missed by both exactly when the first
      poll failed after it had already refreshed that domain's cell. */
  lemma ChangeLostExactlyWhen(cell: Cell, heads: Domain -> Head, retry: Domain -> Head, d: Domain)
    requires Changed(cell, heads(d)) && retry(d) == heads(d) && forall other :: !retry(other).Failed?
    ensures !Reports(cell, heads, d) && !Reports(AfterPoll(cell, heads, d), retry, d) <==>
            Reached(heads, d) && exists other :: heads(other).Failed?
  {
    if Reached(heads, d) && exists other :: heads(other).Failed? { assert !Changed(Seen(cell, heads(d)), retry(d)); }
  }

  class TickState {
    var cells: map<Domain, ETag>

    function At(d: Domain): Cell reads this {
      if d in cells then Some(cells[d]) else None
    }

    constructor ()
      ensures cells == map[]
    {
      cells := map[];
    }

    /** Stores whatever ETags exist at startup; the first failed HEAD stops it. */
    method Prime(heads: Domain -> Head) returns (ok: bool)
      modifies this
      ensures forall d :: At(d) == AfterPoll(old(At(d)), heads, d)
      ensures ok <==> forall d :: !heads(d).Failed?
    {
      for i := 0 to |DOMAINS|
        invariant forall d :: Index(d) >= i ==> At(d) == old(At(d))
        invariant forall d :: Index(d) < i ==> !heads(d).Failed? && At(d) == Seen(old(At(d)), heads(d))
      {
        var d := DOMAINS[i];
        assert Index(d) == i;
        match heads(d) {
          case Failed => return false;
          case Missing =>
          case Present(None) =>
          case Present(Some(etag)) => cells := cells[d := etag];
        }
      }
      ok := true;
    }

    /** Refreshes cells in domain order; the first failed HEAD abandons the poll where it stands. */
    method PollOnce(heads: Domain -> Head) returns (result: Result<set<Domain>, ()>)
      modifies this
      ensures forall d :: At(d) == AfterPoll(old(At(d)), heads, d)
      ensures result.Err? <==> exists d :: heads(d).Failed?
      ensures result.Ok? ==> forall d :: d in result.value <==> Changed(old(At(d)), heads(d))
    {
      var out: set<Domain> := {};
      for i := 0 to |DOMAINS|
        invariant forall d :: Index(d) >= i ==> At(d) == old(At(d)) && d !in out
        invariant forall d :: Index(d) < i ==> !heads(d).Failed? && At(d) == Seen(old(At(d)), heads(d))
        invariant forall d :: Index(d) < i ==> (d in out <==> Changed(old(At(d)), heads(d)))
      {
        var d := DOMAINS[i];
        assert Index(d) == i;
        match heads(d) {
          case Failed => return Err(());
          case Missing =>
          case Present(None) =>
          case Present(Some(etag)) =>
            if !(d in cells && cells[d] == etag) {
              cells := cells[d := etag];
              out := out + {d};
            }
        }
      }
      result := Ok(out);
    }
  }

  // ---- one domain over a whole run -------------------------------------------------

  /** The tick object, this pod's cell and the HEAD in flight; the sets are history. */
  datatype State = State(
    tick: Option<ETag>,
    cell: Cell,
    inFlight: Option<Head>,
    unrecorded: set<ETag>,
    own: set<ETag>,
    peers: set<ETag>,
    primed: set<ETag>,
    reported: set<ETag>)

  /** `OwnRecord` and `OwnLost` are the two ends of a bump whose PUT was answered or was not. */
  datatype Step = PeerBump(etag: ETag) | OwnPut(etag: ETag) | OwnRecord(etag: ETag) | OwnLost(etag: ETag)
                | HeadTick | ApplyPrime | ApplyPoll

  ghost predicate Init(s: State) {
    && s.cell.None? && s.inFlight.None? && s.unrecorded == s.own == s.primed == s.reported == {}
    && (s.tick.Some? ==> s.tick.value in s.peers)
  }

  predicate Enabled(s: State, step: Step) {
    match step
    case PeerBump(e) => e !in s.own && e !in s.peers
    case OwnPut(e) => e !in s.own && e !in s.peers
    case OwnRecord(e) => e in s.unrecorded
    case OwnLost(e) => e in s.unrecorded
    case HeadTick => s.inFlight.None?
    case ApplyPrime => s.inFlight.Some?
    case ApplyPoll => s.inFlight.Some?
  }

  function Take(s: State, step: Step): State
    requires Enabled(s, step)
  {
    match step
    case PeerBump(e) => s.(tick := Some(e), peers := s.peers + {e})
    case OwnPut(e) => s.(tick := Some(e), own := s.own + {e}, unrecorded := s.unrecorded + {e})
    case OwnRecord(e) => s.(cell := Some(e), unrecorded := s.unrecorded - {e})
    case OwnLost(e) => s.(unrecorded := s.unrecorded - {e})
    case HeadTick => s.(inFlight := Some(if s.tick.None? then Missing else Present(s.tick)))
    case ApplyPrime =>
      var cell := Seen(s.cell, s.inFlight.value);
      s.(cell := cell, inFlight := None, primed := s.primed + (if cell.Some? then {cell.value} else {}))
    case ApplyPoll =>
      var cell := Seen(s.cell, s.inFlight.value);
      s.(cell := cell, inFlight := None,
         reported := s.reported + if Changed(s.cell, s.inFlight.value) then {cell.value} else {})
  }

  predicate IsRun(s: State, steps: seq<Step>)
    decreases |steps|, 0
  {
    steps == [] || (IsRun(s, steps[..|steps| - 1]) && Enabled(After(s, steps[..|steps| - 1]), steps[|steps| - 1]))
  }

  function After(s: State, steps: seq<Step>): State
    requires IsRun(s, steps)
    decreases |steps|, 1
  {
    if steps == [] then s else Take(After(s, steps[..|steps| - 1]), steps[|steps| - 1])
  }

  ghost predicate Inv(s: State) {
    && s.own !! s.peers && s.unrecorded <= s.own
    && (s.tick.Some? ==> s.tick.value in s.own + s.peers)
    && (s.inFlight.Some? && s.inFlight.value.Present? ==>
          s.inFlight.value.etag.Some? && s.inFlight.value.etag.value in s.own + s.peers)
    && (s.cell.Some? ==> s.cell.value in s.primed + s.reported + s.own)
  }

  lemma {:induction false} InvHolds(s: State, steps: seq<Step>)
    requires Init(s) && IsRun(s, steps)
    ensures Inv(After(s, steps))
  {
    if steps != [] { InvHolds(s, steps[..|steps| - 1]); }
  }

  /** A peer's bump that a poll saw has been reported by the end of that poll, unless it is the one
      this pod primed its cell with. */
  lemma PeerBumpNeverHidden(s: State, steps: seq<Step>, e: ETag)
    requires Init(s) && IsRun(s, steps) && steps != [] && steps[|steps| - 1] == ApplyPoll
    requires e in After(s, steps).peers
    requires After(s, steps[..|steps| - 1]).inFlight == Some(Present(Some(e)))
    ensures e in After(s, steps).reported + After(s, steps).primed
  {
    InvHolds(s, steps);
  }

  ghost predicate NoBumps(steps: seq<Step>) {
    forall i :: 0 <= i < |steps| ==> !steps[i].PeerBump? && !steps[i].OwnPut?
  }

  /** The run from `s` that makes `steps`, and the state it ends in. */
  lemma Extend(s: State, steps: seq<Step>, step: Step)
    ensures IsRun(s, steps) && Enabled(After(s, steps), step) ==>
              IsRun(s, steps + [step]) && After(s, steps + [step]) == Take(After(s, steps), step)
  {
    assert (steps + [step])[..|steps|] == steps;
  }

  /** Runs put one after the other. */
  lemma {:induction false} Continues(s: State, first: seq<Step>, second: seq<Step>)
    requires IsRun(s, first) && IsRun(After(s, first), second)
    ensures IsRun(s, first + second) && After(s, first + second) == After(After(s, first), second)
  {
    if second == [] {
      assert first + second == first;
    } else {
      var init, last := second[..|second| - 1], second[|second| - 1];
      Continues(s, first, init);
      Extend(s, first + init, last);
      assert first + init + [last] == first + second;
    }
  }

  lemma OneStep(s: State, step: Step)
    requires Enabled(s, step)
    ensures IsRun(s, [step]) && After(s, [step]) == Take(s, step)
  {
    Extend(s, [], step);
    assert [] + [step] == [step];
  }

  lemma TwoSteps(s: State, a: Step, b: Step)
    requires Enabled(s, a) && Enabled(Take(s, a), b)
    ensures IsRun(s, [a, b]) && After(s, [a, b]) == Take(Take(s, a), b)
  {
    OneStep(s, a);
    Extend(s, [a], b);
    assert [a] + [b] == [a, b];
  }

  // ---- when an own bump stays quiet ---------------------------------------------------

  /** `e` is the current tick and recorded in the cell, and no poll has reported it. */
  ghost predicate Recorded(s: State, e: ETag) {
    s.tick == Some(e) && s.cell == Some(e) && e !in s.reported
  }

  /** No other own bump is still to be recorded, and no HEAD in flight saw another tick. */
  predicate NothingCrosses(s: State, e: ETag) {
    s.unrecorded <= {e} && (s.inFlight.Some? ==> Seen(Some(e), s.inFlight.value) == Some(e))
  }

  /** Until the next bump no poll reports `e`, however often the pod polls. */
  ghost predicate StaysQuiet(s: State, e: ETag) {
    forall steps :: IsRun(s, steps) && NoBumps(steps) ==> e !in After(s, steps).reported
  }

  lemma {:induction false} QuietRun(s: State, e: ETag, steps: seq<Step>)
    requires Recorded(s, e) && NothingCrosses(s, e) && IsRun(s, steps) && NoBumps(steps)
    ensures Recorded(After(s, steps), e) && NothingCrosses(After(s, steps), e)
  {
    if steps != [] {
      var init := steps[..|steps| - 1];
      assert forall i :: 0 <= i < |init| ==> init[i] == steps[i];
      QuietRun(s, e, init);
    }
  }

  /** With `e` the tick and the cell holding something else, the next poll reports `e`. */
  lemma NextPollReports(s: State, e: ETag)
    requires s.tick == Some(e) && s.cell != Some(e) && s.inFlight.None?
    ensures IsRun(s, [HeadTick, ApplyPoll]) && e in After(s, [HeadTick, ApplyPoll]).reported
  {
    TwoSteps(s, HeadTick, ApplyPoll);
  }

  /** Once something has overwritten the cell, a run that reports `e` is two steps away. */
  lemma OverwrittenIsReported(s: State, e: ETag, steps: seq<Step>)
    requires IsRun(s, steps) && NoBumps(steps)
    requires After(s, steps).tick == Some(e) && After(s, steps).cell != Some(e) && After(s, steps).inFlight.None?
    ensures !StaysQuiet(s, e)
  {
    var more := [HeadTick, ApplyPoll];
    NextPollReports(After(s, steps), e);
    Continues(s, steps, more);
    assert NoBumps(steps + more);
    assert IsRun(s, steps + more) && e in After(s, steps + more).reported;
  }

  lemma CrossingIsReported(s: State, e: ETag)
    requires Recorded(s, e) && !NothingCrosses(s, e)
    ensures !StaysQuiet(s, e)
  {
    if s.inFlight.Some? {
      OneStep(s, ApplyPoll);
      if Seen(Some(e), s.inFlight.value) != Some(e) {
        OverwrittenIsReported(s, e, [ApplyPoll]);
      } else {
        var other :| other in s.unrecorded && other != e;
        TwoSteps(s, ApplyPoll, OwnRecord(other));
        OverwrittenIsReported(s, e, [ApplyPoll, OwnRecord(other)]);
      }
    } else {
      var other :| other in s.unrecorded && other != e;
      OneStep(s, OwnRecord(other));
      OverwrittenIsReported(s, e, [OwnRecord(other)]);
    }
  }

  /**
   * A recorded own bump, or any other tick the cell holds, is reported by no run up to the next bump if and
   * only if no other own bump is waiting to be recorded and no HEAD in flight saw another tick.
   */
  lemma QuietExactlyWhenNothingCrosses(s: State, e: ETag)
    requires Recorded(s, e)
    ensures StaysQuiet(s, e) <==> NothingCrosses(s, e)
  {
    if NothingCrosses(s, e) {
      forall steps | IsRun(s, steps) && NoBumps(steps) ensures e !in After(s, steps).reported {
        QuietRun(s, e, steps);
      }
    } else {
      CrossingIsReported(s, e);
    }
  }

  /** The next own bump ends the quiet: recorded across a HEAD that saw `e`, it has `e` reported after all. */
  lemma NextBumpMayReportIt(s: State, e: ETag, next: ETag)
    requires Recorded(s, e) && NothingCrosses(s, e) && s.inFlight.None? && Enabled(s, OwnPut(next)) && next != e
    ensures exists steps :: IsRun(s, steps) && e in After(s, steps).reported
  {
    TwoSteps(s, HeadTick, OwnPut(next));
    var s2 := After(s, [HeadTick, OwnPut(next)]);
    TwoSteps(s2, OwnRecord(next), ApplyPoll);
    Continues(s, [HeadTick, OwnPut(next)], [OwnRecord(next), ApplyPoll]);
    var steps := [HeadTick, OwnPut(next)] + [OwnRecord(next), ApplyPoll];
    assert IsRun(s, steps) && e in After(s, steps).reported;
  }

  /** Two own bumps recorded in the opposite order of their PUTs leave the older ETag in the cell, so
      the next poll reports the pod's own write. */
  lemma CrossedRecordsReportOwnBump()
    ensures exists s, steps ::
              Init(s) && IsRun(s, steps) && |steps| == 6 && steps[2] == OwnRecord("2") &&
              "2" in After(s, steps).own && "2" in After(s, steps).reported
  {
    var s := State(None, None, None, {}, {}, {}, {}, {});
    assert "1"[0] != "2"[0];
    var puts, records := [OwnPut("1"), OwnPut("2")], [OwnRecord("2"), OwnRecord("1")];
    TwoSteps(s, OwnPut("1"), OwnPut("2"));
    TwoSteps(After(s, puts), OwnRecord("2"), OwnRecord("1"));
    Continues(s, puts, records);
    NextPollReports(After(s, puts + records), "2");
    Continues(s, puts + records, [HeadTick, ApplyPoll]);
    var steps := puts + records + [HeadTick, ApplyPoll];
    assert steps[2] == OwnRecord("2") && "2" in After(s, steps).own;
  }

  /** One own bump is enough: a HEAD answered before its PUT and applied after its record overwrites the
      cell with the older tick, and the next poll reports the pod's own write. */
  lemma HeadInFlightReportsOwnBump()
    ensures exists s, steps ::
              Init(s) && IsRun(s, steps) && |steps| == 7 && steps[3] == OwnRecord("1") &&
              After(s, steps).own == {"1"} && "1" in After(s, steps).reported
  {
    var s := State(None, None, None, {}, {}, {}, {}, {});
    assert "0"[0] != "1"[0];
    var seen, own := [PeerBump("0"), HeadTick], [OwnPut("1"), OwnRecord("1")];
    TwoSteps(s, PeerBump("0"), HeadTick);
    TwoSteps(After(s, seen), OwnPut("1"), OwnRecord("1"));
    Continues(s, seen, own);
    var recorded := After(s, seen + own);
    assert Recorded(recorded, "1") && !NothingCrosses(recorded, "1");
    OneStep(recorded, ApplyPoll);
    Continues(s, seen + own, [ApplyPoll]);
    NextPollReports(After(s, seen + own + [ApplyPoll]), "1");
    Continues(s, seen + own + [ApplyPoll], [HeadTick, ApplyPoll]);
    var steps := seen + own + [ApplyPoll] + [HeadTick, ApplyPoll];
    assert steps[3] == OwnRecord("1") && After(s, steps).own == {"1"};
  }

  /** A poll that fails on the last domain loses a change of the first: neither it nor the next one tells. */
  lemma HalfFailedPollLosesChange()
    ensures var heads: Domain -> Head := d => if d == Pending then Failed else Present(Some("2"));
            var retry: Domain -> Head := d => Present(Some("2"));
            !Reports(Some("1"), heads, Users) && !Reports(AfterPoll(Some("1"), heads, Users), retry, Users)
  {
    var heads: Domain -> Head := d => if d == Pending then Failed else Present(Some("2"));
    var retry: Domain -> Head := d => Present(Some("2"));
    assert "1"[0] != "2"[0] && heads(Pending).Failed? && heads(Users) == retry(Users);
    ChangeLostExactlyWhen(Some("1"), heads, retry, Users);
    assert Reached(heads, Users);
  }
}
