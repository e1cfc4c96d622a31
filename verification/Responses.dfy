/** The response cache: bodies stay valid while a sum of change counters is unchanged. Writers commit
    and then bump, requests read the counters one at a time, and all of it interleaves. */
module Responses {
  import opened Wrappers

  const MAX_ENTRIES: nat := 256

  datatype Cached<+B> = Cached(stamp: nat, body: B)

  // ---- the two locked sections of `get_or_build` -----------------------------------

  function Hit<B>(entries: map<string, Cached<B>>, key: string, stamp: nat): Option<B> {
    if key in entries && entries[key].stamp == stamp then Some(entries[key].body) else None
  }

  /** A new key that finds the map full clears it first. */
  function Kept<B>(entries: map<string, Cached<B>>, key: string): map<string, Cached<B>> {
    if |entries| >= MAX_ENTRIES && key !in entries then map[] else entries
  }

  lemma InsertStaysBounded<B>(entries: map<string, Cached<B>>, key: string, entry: Cached<B>)
    requires |entries| <= MAX_ENTRIES
    ensures |Kept(entries, key)[key := entry]| <= MAX_ENTRIES
  {
    var kept := Kept(entries, key);
    if key in kept {
      assert kept[key := entry].Keys == kept.Keys;
    } else {
      assert kept[key := entry].Keys == kept.Keys + {key};
    }
    assert forall m: map<string, Cached<B>> :: |m.Keys| == |m|;
  }

  class ResponseCache<B> {
    var entries: map<string, Cached<B>>

    constructor ()
      ensures entries == map[]
    {
      entries := map[];
    }

    /** `build` is what running the builder yields, if it comes to that. */
    method GetOrBuild(key: string, stamp: nat, build: Result<B, string>) returns (result: Result<B, string>)
      requires |entries| <= MAX_ENTRIES
      modifies this
      ensures |entries| <= MAX_ENTRIES
      ensures match old(Hit(entries, key, stamp))
              case Some(body) => result == Ok(body) && entries == old(entries)
              case None =>
                result == build &&
                entries == if build.Ok? then Kept(old(entries), key)[key := Cached(stamp,
                build.value)] else old(entries)
    {
      if key in entries && entries[key].stamp == stamp {
        return Ok(entries[key].body);
      }
      if build.Err? {
        return build;
      }
      InsertStaysBounded(entries, key, Cached(stamp, build.value));
      if |entries| >= MAX_ENTRIES && key !in entries {
        entries := map[];
      }
      entries := entries[key := Cached(stamp, build.value)];
      result := build;
    }
  }

  // ---- the whole machine --------------------------------------------------------------

  datatype Domain = Sets | Pending | Scan

  /** One value per domain. */
  datatype Per<+T> = Per(sets: T, pending: T, scan: T) {
    function At(d: Domain): T {
      match d case Sets => sets case Pending => pending case Scan => scan
    }
  }

  function With<T>(p: Per<T>, d: Domain, v: T): Per<T> {
    match d case Sets => p.(sets := v) case Pending => p.(pending := v) case Scan => p.(scan := v)
  }

  /** Sets of write ids. */
  type Writes = Per<set<nat>>

  /** One query of a build: the writes to `domain` its data contained. */
  datatype Query = Query(domain: Domain, data: set<nat>)

  /** How a body came about: the counters its stamp summed, and the writes bumped when its build began. */
  datatype Origin = Origin(counts: seq<nat>, since: Writes)

  datatype Phase = Stamping | Building(origin: Origin, body: seq<Query>) | Done(body: seq<Query>) | Failed

  /** `must` is what had been bumped when the request began. */
  datatype Request = Request(key: string, must: Writes, counts: seq<nat>, phase: Phase)

  datatype State = State(
    committed: Writes,
    bumped: Writes,
    counters: Per<nat>,
    entries: map<string, Cached<seq<Query>>>,
    origins: map<string, Origin>,
    requests: map<nat, Request>)

  datatype Step = Commit(d: Domain, w: nat) | Bump(d: Domain, w: nat)
                | Begin(id: nat, key: string) | ReadCounter(id: nat) | Lookup(id: nat)
                | RunQuery(id: nat, d: Domain) | BuildFails(id: nat) | Store(id: nat)

  type Deps = string -> seq<Domain>

  function Sum(counts: seq<nat>): nat {
    if counts == [] then 0 else Sum(counts[..|counts| - 1]) + counts[|counts| - 1]
  }

  predicate Stamped(deps: Deps, s: State, id: nat) {
    id in s.requests && s.requests[id].phase.Stamping? && |s.requests[id].counts| == |deps(s.requests[id].key)|
  }

  /** `deps` names the domains each endpoint stamps over and, in its build, queries. */
  predicate Enabled(deps: Deps, s: State, step: Step) {
    match step
    case Commit(d, w) => w !in s.committed.At(d)
    case Bump(d, w) => w in s.committed.At(d) && w !in s.bumped.At(d)
    case Begin(id, _) => id !in s.requests
    case ReadCounter(id) =>
      id in s.requests && s.requests[id].phase.Stamping? && |s.requests[id].counts| < |deps(s.requests[id].key)|
    case Lookup(id) => Stamped(deps, s, id)
    case RunQuery(id, d) => id in s.requests && s.requests[id].phase.Building? && d in deps(s.requests[id].key)
    case BuildFails(id) => id in s.requests && s.requests[id].phase.Building?
    case Store(id) => id in s.requests && s.requests[id].phase.Building?
  }

  function Take(deps: Deps, s: State, step: Step): State
    requires Enabled(deps, s, step)
  {
    match step
    case Commit(d, w) => s.(committed := With(s.committed, d, s.committed.At(d) + {w}))
    case Bump(d, w) =>
      s.(bumped := With(s.bumped, d, s.bumped.At(d) + {w}), counters := With(s.counters, d, s.counters.At(d) + 1))
    case Begin(id, key) => s.(requests := s.requests[id := Request(key, s.bumped, [], Stamping)])
    case ReadCounter(id) =>
      var r := s.requests[id];
      s.(requests := s.requests[id := r.(counts := r.counts + [s.counters.At(deps(r.key)[|r.counts|])])])
    case Lookup(id) =>
      var r := s.requests[id];
      var phase := match Hit(s.entries, r.key, Sum(r.counts))
                   case Some(body) => Done(body)
                   case None => Building(Origin(r.counts, s.bumped), []);
      s.(requests := s.requests[id := r.(phase := phase)])
    case RunQuery(id, d) =>
      var r := s.requests[id];
      s.(requests := s.requests[id := r.(phase := r.phase.(body := r.phase.body + [Query(d, s.committed.At(d))]))])
    case BuildFails(id) =>
      s.(requests := s.requests[id := s.requests[id].(phase := Failed)])
    case Store(id) =>
      var r := s.requests[id];
      s.(entries := Kept(s.entries, r.key)[r.key := Cached(Sum(r.counts), r.phase.body)],
         origins := s.origins[r.key := r.phase.origin],
         requests := s.requests[id := r.(phase := Done(r.phase.body))])
  }

  ghost predicate Init(s: State) {
    && (forall d: Domain :: s.committed.At(d) == s.bumped.At(d) == {} && s.counters.At(d) == 0)
    && s.entries == map[] && s.origins == map[] && s.requests == map[]
  }

  ghost predicate Next(deps: Deps, s: State, s': State) {
    exists step :: Enabled(deps, s, step) && s' == Take(deps, s, step)
  }

  ghost predicate IsRun(deps: Deps, run: seq<State>) {
    |run| > 0 && Init(run[0]) && forall i :: 0 <= i < |run| - 1 ==> Next(deps, run[i], run[i + 1])
  }

  // ---- the invariant -------------------------------------------------------------------

  ghost predicate Within(a: Writes, b: Writes) {
    forall d: Domain :: a.At(d) <= b.At(d)
  }

  /** A body that contains everything bumped before its build began, under a stamp read before that. */
  ghost predicate Sound(deps: Deps, s: State, key: string, o: Origin, body: seq<Query>) {
    && Within(o.since, s.bumped)
    && |o.counts| == |deps(key)|
    && (forall i :: 0 <= i < |o.counts| ==> o.counts[i] <= |o.since.At(deps(key)[i])|)
    && (forall i :: 0 <= i < |body| ==> body[i].domain in deps(key) && o.since.At(body[i].domain) <= body[i].data)
  }

  ghost predicate Covers(body: seq<Query>, must: Writes) {
    forall i :: 0 <= i < |body| ==> must.At(body[i].domain) <= body[i].data
  }

  ghost predicate SoundRequest(deps: Deps, s: State, r: Request) {
    && Within(r.must, s.bumped)
    && |r.counts| <= |deps(r.key)|
    && (forall i :: 0 <= i < |r.counts| ==> |r.must.At(deps(r.key)[i])| <= r.counts[i] <= s.counters.At(deps(r.key)[i]))
    && (r.phase.Building? ==>
          Sound(deps, s, r.key, r.phase.origin, r.phase.body) && r.phase.origin.counts == r.counts &&
              Within(r.must, r.phase.origin.since))
    && (r.phase.Done? ==> Covers(r.phase.body, r.must))
  }

  /** Every build and every request began at some moment, so one of the two came first in all domains. */
  ghost predicate Comparable(r: Request, o: Origin) {
    Within(r.must, o.since) || Within(o.since, r.must)
  }

  ghost predicate DbInv(s: State) {
    && Within(s.bumped, s.committed)
    && forall d: Domain :: |s.bumped.At(d)| == s.counters.At(d)
  }

  ghost predicate EntriesInv(deps: Deps, s: State) {
    forall k :: k in s.entries ==>
      k in s.origins && Sound(deps, s, k, s.origins[k], s.entries[k].body) &&
          s.entries[k].stamp == Sum(s.origins[k].counts)
  }

  ghost predicate RequestsInv(deps: Deps, s: State) {
    forall id :: id in s.requests ==> SoundRequest(deps, s, s.requests[id])
  }

  ghost predicate OriginsInv(s: State) {
    && (forall id, k :: id in s.requests && k in s.origins ==> Comparable(s.requests[id], s.origins[k]))
    && (forall k :: k in s.origins ==> Within(s.origins[k].since, s.bumped))
    && (forall id, other :: id in s.requests && other in s.requests && s.requests[other].phase.Building? ==>
          Comparable(s.requests[id], s.requests[other].phase.origin))
  }

  ghost predicate Inv(deps: Deps, s: State) {
    DbInv(s) && EntriesInv(deps, s) && RequestsInv(deps, s) && OriginsInv(s) && |s.entries| <= MAX_ENTRIES
  }

  lemma {:induction false} EqualSumsEqualReads(a: seq<nat>, b: seq<nat>)
    requires |a| == |b| && (forall i :: 0 <= i < |a| ==> a[i] <= b[i]) && Sum(a) == Sum(b)
    ensures a == b
  {
    if a != [] {
      SumsOrdered(a[..|a| - 1], b[..|b| - 1]);
      EqualSumsEqualReads(a[..|a| - 1], b[..|b| - 1]);
      assert a == a[..|a| - 1] + [a[|a| - 1]] && b == b[..|b| - 1] + [b[|b| - 1]];
    }
  }

  lemma {:induction false} SumsOrdered(a: seq<nat>, b: seq<nat>)
    requires |a| == |b| && forall i :: 0 <= i < |a| ==> a[i] <= b[i]
    ensures Sum(a) <= Sum(b)
  {
    if a != [] { SumsOrdered(a[..|a| - 1], b[..|b| - 1]); }
  }

  lemma SameSizeSubset(a: set<nat>, b: set<nat>)
    requires a <= b
    ensures |a| <= |b| && (|a| == |b| ==> a == b)
  {
    assert b == a + (b - a);
  }

  /** The heart of it: an equal sum means nothing was bumped between the entry's build and this request. */
  lemma HitCovers(deps: Deps, s: State, id: nat)
    requires Inv(deps, s) && Stamped(deps, s, id)
    requires Hit(s.entries, s.requests[id].key, Sum(s.requests[id].counts)).Some?
    ensures Covers(s.entries[s.requests[id].key].body, s.requests[id].must)
  {
    var r := s.requests[id];
    var o, body, ds := s.origins[r.key], s.entries[r.key].body, deps(r.key);
    assert SoundRequest(deps, s, r) && Sound(deps, s, r.key, o, body) && Comparable(r, o);
    if !Within(r.must, o.since) {
      forall i | 0 <= i < |ds| ensures o.counts[i] <= |o.since.At(ds[i])| <= |r.must.At(ds[i])| <= r.counts[i] {
        SameSizeSubset(o.since.At(ds[i]), r.must.At(ds[i]));
      }
      EqualSumsEqualReads(o.counts, r.counts);
      forall i | 0 <= i < |body| ensures r.must.At(body[i].domain) <= body[i].data {
        var j :| 0 <= j < |ds| && ds[j] == body[i].domain;
        assert o.counts[j] == r.counts[j];
        SameSizeSubset(o.since.At(ds[j]), r.must.At(ds[j]));
      }
    }
  }

  lemma WritesKeepDb(deps: Deps, s: State, step: Step)
    requires DbInv(s) && Enabled(deps, s, step) && (step.Commit? || step.Bump?)
    ensures DbInv(Take(deps, s, step)) && Within(s.bumped, Take(deps, s, step).bumped)
    ensures forall d: Domain :: s.counters.At(d) <= Take(deps, s, step).counters.At(d)
  {
    var s' := Take(deps, s, step);
    forall d: Domain
      ensures s'.bumped.At(d) <= s'.committed.At(d) && s.bumped.At(d) <= s'.bumped.At(d)
      ensures |s'.bumped.At(d)| == s'.counters.At(d) && s.counters.At(d) <= s'.counters.At(d)
    {
      assert s.bumped.At(d) <= s.committed.At(d) && |s.bumped.At(d)| == s.counters.At(d);
    }
  }

  lemma WritesKeepOrigins(s: State, s': State)
    requires OriginsInv(s) && s'.origins == s.origins && s'.requests == s.requests && Within(s.bumped, s'.bumped)
    ensures OriginsInv(s')
  {
  }

  lemma WriteStep(deps: Deps, s: State, step: Step)
    requires Inv(deps, s) && Enabled(deps, s, step) && (step.Commit? || step.Bump?)
    ensures Inv(deps, Take(deps, s, step))
  {
    WritesKeepDb(deps, s, step);
    WritesKeepOrigins(s, Take(deps, s, step));
    SoundUnderWrites(deps, s, Take(deps, s, step));
  }

  /** What holds of entries and requests keeps holding while counters and bumped writes grow. */
  lemma SoundUnderWrites(deps: Deps, s: State, s': State)
    requires EntriesInv(deps, s) && RequestsInv(deps, s)
    requires s'.entries == s.entries && s'.origins == s.origins && s'.requests == s.requests
    requires Within(s.bumped, s'.bumped) && forall d: Domain :: s.counters.At(d) <= s'.counters.At(d)
    ensures EntriesInv(deps, s') && RequestsInv(deps, s')
  {
    forall k | k in s'.entries ensures Sound(deps, s', k, s'.origins[k], s'.entries[k].body) {
      assert Sound(deps, s, k, s.origins[k], s.entries[k].body);
    }
    forall i | i in s'.requests ensures SoundRequest(deps, s', s'.requests[i]) {
      assert SoundRequest(deps, s, s.requests[i]);
    }
  }

  lemma RequestSteps(deps: Deps, s: State, step: Step)
    requires Inv(deps, s) && Enabled(deps, s, step) && !step.Commit? && !step.Bump?
    ensures Inv(deps, Take(deps, s, step))
  {
    if step.Store? {
      StoreKeepsEntries(deps, s, step.id);
    } else {
      assert EntriesInv(deps, Take(deps, s, step)) by { SoundUnderStep(deps, s, step); }
    }
    RequestsKept(deps, s, step);
    OriginsKept(deps, s, step);
  }

  lemma SoundUnderStep(deps: Deps, s: State, step: Step)
    requires EntriesInv(deps, s) && Enabled(deps, s, step) && !step.Commit? && !step.Bump? && !step.Store?
    ensures EntriesInv(deps, Take(deps, s, step))
  {
    var s' := Take(deps, s, step);
    forall k | k in s'.entries ensures Sound(deps, s', k, s'.origins[k], s'.entries[k].body) {
      assert Sound(deps, s, k, s.origins[k], s.entries[k].body);
    }
  }

  lemma StoreKeepsEntries(deps: Deps, s: State, id: nat)
    requires Inv(deps, s) && Enabled(deps, s, Store(id))
    ensures EntriesInv(deps, Take(deps, s, Store(id))) && |Take(deps, s, Store(id)).entries| <= MAX_ENTRIES
  {
    var s' := Take(deps, s, Store(id));
    var r := s.requests[id];
    assert SoundRequest(deps, s, r);
    InsertStaysBounded(s.entries, r.key, s'.entries[r.key]);
    forall k | k in s'.entries ensures k in s'.origins && Sound(deps, s', k, s'.origins[k], s'.entries[k].body)
                                       && s'.entries[k].stamp == Sum(s'.origins[k].counts) {
      assert k != r.key ==> k in s.entries && Sound(deps, s, k, s.origins[k], s.entries[k].body);
    }
  }

  lemma RequestsKept(deps: Deps, s: State, step: Step)
    requires Inv(deps, s) && Enabled(deps, s, step) && !step.Commit? && !step.Bump?
    ensures RequestsInv(deps, Take(deps, s, step))
  {
    var s' := Take(deps, s, step);
    OwnRequestKept(deps, s, step);
    forall other | other in s'.requests && other != step.id ensures SoundRequest(deps, s', s'.requests[other]) {
      assert SoundRequest(deps, s, s.requests[other]);
    }
  }

  lemma OwnRequestKept(deps: Deps, s: State, step: Step)
    requires Inv(deps, s) && Enabled(deps, s, step) && !step.Commit? && !step.Bump?
    ensures var s' := Take(deps, s, step);
            step.id in s'.requests ==> SoundRequest(deps, s', s'.requests[step.id])
  {
    var id := step.id;
    assert id in s.requests ==> SoundRequest(deps, s, s.requests[id]);
    match step {
      case Begin(_, _) =>
      case ReadCounter(_) => ReadKeepsSound(deps, s, id);
      case Lookup(_) => LookupKeepsSound(deps, s, id);
      case RunQuery(_, d) => QueryKeepsSound(deps, s, id, d);
      case BuildFails(_) =>
      case Store(_) =>
    }
  }

  lemma ReadKeepsSound(deps: Deps, s: State, id: nat)
    requires Enabled(deps, s, ReadCounter(id)) && DbInv(s) && SoundRequest(deps, s, s.requests[id])
    ensures SoundRequest(deps, Take(deps, s, ReadCounter(id)), Take(deps, s, ReadCounter(id)).requests[id])
  {
    var r := s.requests[id];
    var d := deps(r.key)[|r.counts|];
    SameSizeSubset(r.must.At(d), s.bumped.At(d));
  }

  lemma LookupKeepsSound(deps: Deps, s: State, id: nat)
    requires Inv(deps, s) && Enabled(deps, s, Lookup(id)) && SoundRequest(deps, s, s.requests[id])
    ensures SoundRequest(deps, Take(deps, s, Lookup(id)), Take(deps, s, Lookup(id)).requests[id])
  {
    if Hit(s.entries, s.requests[id].key, Sum(s.requests[id].counts)).Some? {
      HitCovers(deps, s, id);
    }
  }

  lemma QueryKeepsSound(deps: Deps, s: State, id: nat, d: Domain)
    requires Enabled(deps, s, RunQuery(id, d)) && DbInv(s) && SoundRequest(deps, s, s.requests[id])
    ensures SoundRequest(deps, Take(deps, s, RunQuery(id, d)), Take(deps, s, RunQuery(id, d)).requests[id])
  {
    var o := s.requests[id].phase.origin;
    assert o.since.At(d) <= s.bumped.At(d) <= s.committed.At(d);
  }

  lemma OriginsKept(deps: Deps, s: State, step: Step)
    requires Inv(deps, s) && Enabled(deps, s, step) && !step.Commit? && !step.Bump?
    ensures OriginsInv(Take(deps, s, step))
  {
    var s' := Take(deps, s, step);
    forall i | i in s.requests ensures Within(s.requests[i].must, s.bumped) {
      assert SoundRequest(deps, s, s.requests[i]);
    }
    forall i | i in s.requests &&
        s.requests[i].phase.Building? ensures Within(s.requests[i].phase.origin.since, s.bumped) {
      assert SoundRequest(deps, s, s.requests[i]);
    }
    if step.Begin? { OriginsKeptBegin(deps, s, step.id, step.key); }
    else if step.Lookup? { OriginsKeptLookup(deps, s, step.id); }
    else if step.Store? { OriginsKeptStore(deps, s, step.id); }
    else { OriginsKeptProgress(deps, s, step); }
  }

  lemma OriginsKeptStore(deps: Deps, s: State, id: nat)
    requires OriginsInv(s) && Enabled(deps, s, Store(id)) && Within(s.requests[id].phase.origin.since, s.bumped)
    ensures OriginsInv(Take(deps, s, Store(id)))
  {
  }

  lemma OriginsKeptProgress(deps: Deps, s: State, step: Step)
    requires OriginsInv(s) && Enabled(deps, s, step) && (step.ReadCounter? || step.RunQuery? || step.BuildFails?)
    ensures OriginsInv(Take(deps, s, step))
  {
  }

  lemma OriginsKeptBegin(deps: Deps, s: State, id: nat, key: string)
    requires OriginsInv(s) && Enabled(deps, s, Begin(id, key))
    requires forall i :: i in s.requests && s.requests[i].phase.Building? ==>
             Within(s.requests[i].phase.origin.since, s.bumped)
    ensures OriginsInv(Take(deps, s, Begin(id, key)))
  {
  }

  lemma OriginsKeptLookup(deps: Deps, s: State, id: nat)
    requires OriginsInv(s) && Enabled(deps, s, Lookup(id))
    requires forall i :: i in s.requests ==> Within(s.requests[i].must, s.bumped)
    ensures OriginsInv(Take(deps, s, Lookup(id)))
  {
  }

  lemma InitInv(deps: Deps, s: State)
    requires Init(s)
    ensures Inv(deps, s)
  {
    assert forall d: Domain :: |s.bumped.At(d)| == 0;
  }

  lemma StepInv(deps: Deps, s: State, s': State)
    requires Inv(deps, s) && Next(deps, s, s')
    ensures Inv(deps, s')
  {
    var step :| Enabled(deps, s, step) && s' == Take(deps, s, step);
    match step {
      case Commit(_, _) => WriteStep(deps, s, step);
      case Bump(_, _) => WriteStep(deps, s, step);
      case _ => RequestSteps(deps, s, step);
    }
  }

  lemma {:induction false} InvHolds(deps: Deps, run: seq<State>, i: nat)
    requires IsRun(deps, run) && i < |run|
    ensures Inv(deps, run[i])
  {
    if i == 0 {
      InitInv(deps, run[0]);
    } else {
      InvHolds(deps, run, i - 1);
      assert Next(deps, run[i - 1], run[(i - 1) + 1]);
      StepInv(deps, run[i - 1], run[i]);
    }
  }

  /** No served body is stale: whatever had been bumped when the request began is in every query's data. */
  lemma ServedBodyIsFresh(deps: Deps, run: seq<State>, i: nat, id: nat)
    requires IsRun(deps, run) && i < |run|
    requires id in run[i].requests && run[i].requests[id].phase.Done?
    ensures Covers(run[i].requests[id].phase.body, run[i].requests[id].must)
  {
    InvHolds(deps, run, i);
    assert SoundRequest(deps, run[i], run[i].requests[id]);
  }
}
