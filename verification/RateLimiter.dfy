/** The per-IP download limiter: a sliding window kept in per-IP deques, proved against a
    specification that never forgets a hit. */
module RateLimiter {
  import opened Wrappers

  const SECOND: nat := 1_000_000_000
  const DEDUP_GRACE: nat := 20 * SECOND

  /** A recorded download: its clock reading in nanoseconds and the hash of its path. */
  datatype Hit = Hit(at: int, pathHash: nat)

  datatype Decision = Allowed | Limited(retryAfter: nat)

  /** The hits of the full history that are still inside the window. */
  function Live(history: seq<Hit>, window: nat, now: int): seq<Hit> {
    if history == [] then []
    else if now - history[0].at < window then [history[0]] + Live(history[1..], window, now)
    else Live(history[1..], window, now)
  }

  predicate Deduplicated(live: seq<Hit>, now: int, pathHash: nat) {
    exists i :: 0 <= i < |live| && live[i].pathHash == pathHash && now - live[i].at < DEDUP_GRACE
  }

  function DecideOn(limit: nat, window: nat, live: seq<Hit>, now: int, pathHash: nat): Decision {
    if limit == 0 || Deduplicated(live, now, pathHash) || |live| < limit then Allowed
    else Limited(if window - (now - live[0].at) > SECOND then window - (now - live[0].at) else SECOND)
  }

  predicate Records(limit: nat, live: seq<Hit>, now: int, pathHash: nat) {
    limit > 0 && !Deduplicated(live, now, pathHash) && |live| < limit
  }

  /** What the limiter should decide, read off everything it ever recorded for one IP. */
  function Decide(limit: nat, window: nat, history: seq<Hit>, now: int, pathHash: nat): Decision {
    DecideOn(limit, window, Live(history, window, now), now, pathHash)
  }

  function Record(limit: nat, window: nat, history: seq<Hit>, now: int, pathHash: nat): seq<Hit> {
    history + if Records(limit, Live(history, window, now), now, pathHash) then [Hit(now, pathHash)] else []
  }

  /** Clock order, and any `limit` consecutive hits span at least one window. */
  ghost predicate Spaced(limit: nat, window: nat, history: seq<Hit>, last: int) {
    && (forall i, j :: 0 <= i < j < |history| ==> history[i].at <= history[j].at)
    && (forall i :: 0 <= i < |history| ==> history[i].at <= last)
    && (limit > 0 ==> forall i, j :: 0 <= i && i + limit <= j < |history| ==> history[j].at - history[i].at >= window)
  }

  /** A deque represents a history when it is the history without a prefix of expired hits. */
  ghost predicate Represents(deque: seq<Hit>, history: seq<Hit>, window: nat, last: int) {
    && |deque| <= |history|
    && deque == history[|history| - |deque|..]
    && forall i :: 0 <= i < |history| - |deque| ==> last - history[i].at >= window
  }

  lemma {:induction false} AllLive(history: seq<Hit>, window: nat, now: int)
    requires forall i :: 0 <= i < |history| ==> now - history[i].at < window
    ensures Live(history, window, now) == history
  {
    if history != [] { AllLive(history[1..], window, now); }
  }

  /** The live hits are exactly a suffix of the history: nothing live is older than something expired. */
  lemma {:induction false} LiveIsSuffix(history: seq<Hit>, window: nat, now: int)
    requires forall i, j :: 0 <= i < j < |history| ==> history[i].at <= history[j].at
    ensures Represents(Live(history, window, now), history, window, now)
    ensures forall i :: |history| - |Live(history, window, now)| <= i < |history| ==> now - history[i].at < window
  {
    if history != [] {
      if now - history[0].at < window {
        AllLive(history, window, now);
      } else {
        var rest := history[1..];
        LiveIsSuffix(rest, window, now);
        assert forall i :: 1 <= i < |history| ==> history[i] == rest[i - 1];
      }
    }
  }

  /** Dropping expired hits from the front of any deque that represents a history leaves its live hits. */
  lemma PoppedIsLive(deque: seq<Hit>, popped: nat, history: seq<Hit>, window: nat, last: int, now: int)
    requires Represents(deque, history, window, last) && last <= now && popped <= |deque|
    requires forall i, j :: 0 <= i < j < |history| ==> history[i].at <= history[j].at
    requires forall i :: 0 <= i < popped ==> now - deque[i].at >= window
    requires popped < |deque| ==> now - deque[popped].at < window
    ensures deque[popped..] == Live(history, window, now)
  {
    LiveIsSuffix(history, window, now);
    var start := |history| - |deque|;
    assert forall i :: start <= i < start + popped ==> history[i] == deque[i - start];
    assert popped < |deque| ==> history[start + popped] == deque[popped];
    var live := Live(history, window, now);
    assert forall i :: 0 <= i < start + popped ==> now - history[i].at >= window;
    var liveStart := |history| - |Live(history, window, now)|;
    var oldestLive := if liveStart < |history| then Some(history[liveStart]) else None;
    var unpopped := if start + popped < |history| then Some(history[start + popped]) else None;
    assert liveStart == start + popped;
  }

  lemma LiveFitsLimit(limit: nat, window: nat, history: seq<Hit>, now: int)
    requires Spaced(limit, window, history, now) && limit > 0
    ensures |Live(history, window, now)| <= limit
  {
    LiveIsSuffix(history, window, now);
    var first := |history| - |Live(history, window, now)|;
    if first < |history| {
      var full := if first + limit < |history| then first + limit else first;
      var span := history[full].at - history[first].at;
      assert span < window;
    }
  }

  lemma RecordKeepsSpacing(limit: nat, window: nat, history: seq<Hit>, last: int, now: int, pathHash: nat)
    requires Spaced(limit, window, history, last) && last <= now
    ensures Spaced(limit, window, Record(limit, window, history, now, pathHash), now)
  {
    LiveIsSuffix(history, window, now);
  }

  /** The limit holds for every half-open interval one window long, wherever it starts. */
  lemma AtMostLimitPerWindow(limit: nat, window: nat, history: seq<Hit>, last: int, start: int)
    requires Spaced(limit, window, history, last) && limit > 0
    ensures |set i | 0 <= i < |history| && start <= history[i].at < start + window| <= limit
  {
    var inside := set i | 0 <= i < |history| && start <= history[i].at < start + window;
    if inside != {} {
      var first := Least(inside);
      forall i | i in inside ensures first <= i < first + limit {
        var span := history[i].at - history[first].at;
        assert span < window;
      }
      BoundedSetSize(inside, first, limit);
    }
  }

  ghost function PickOne<T>(s: set<T>): (x: T)
    requires s != {}
    ensures x in s
  {
    var x :| x in s; x
  }

  ghost function Least(s: set<int>): (m: int)
    requires s != {}
    ensures m in s && forall i :: i in s ==> m <= i
  {
    var x := PickOne(s);
    if s == {x} then x
    else
      var rest := Least(s - {x});
      assert forall i :: i in s ==> i == x || i in s - {x};
      if x < rest then x else rest
  }

  lemma {:induction false} BoundedSetSize(s: set<int>, low: int, count: nat)
    requires forall i :: i in s ==> low <= i < low + count
    ensures |s| <= count
  {
    if count == 0 {
      assert forall i :: i !in s;
    } else {
      BoundedSetSize(s - {low + count - 1}, low, count - 1);
    }
  }

  /** Waiting out `retryAfter` with no recorded download in between frees a slot. */
  lemma RetryAfterSuffices(limit: nat, window: nat, history: seq<Hit>, now: int, pathHash: nat, later: int, other: nat)
    requires Spaced(limit, window, history, now)
    requires Decide(limit, window, history, now, pathHash).Limited?
    requires later >= now + Decide(limit, window, history, now, pathHash).retryAfter
    ensures Decide(limit, window, history, later, other) == Allowed
  {
    LiveIsSuffix(history, window, now);
    LiveIsSuffix(history, window, later);
    LiveFitsLimit(limit, window, history, now);
    var oldest := history[|history| - |Live(history, window, now)|];
    assert later - oldest.at >= window;
  }

  /** The wait is not longer than needed unless it was rounded up to one second. */
  lemma RetryAfterIsTight(limit: nat, window: nat, history: seq<Hit>, now: int, pathHash: nat, later: int, other: nat)
    requires Spaced(limit, window, history, now)
    requires Decide(limit, window, history, now, pathHash).Limited?
    requires Decide(limit, window, history, now, pathHash).retryAfter > SECOND
    requires now <= later < now + Decide(limit, window, history, now, pathHash).retryAfter
    requires !Deduplicated(Live(history, window, later), later, other)
    ensures Decide(limit, window, history, later, other).Limited?
  {
    LiveIsSuffix(history, window, now);
    LiveIsSuffix(history, window, later);
    var oldest := history[|history| - |Live(history, window, now)|];
    assert later - oldest.at < window;
  }

  /** The eviction loop both `check` and `sweep` run on one deque. */
  method PopExpired(deque: seq<Hit>, window: nat, now: int, ghost history: seq<Hit>, ghost last: int)
    returns (live: seq<Hit>)
    requires Represents(deque, history, window, last) && last <= now
    requires forall i, j :: 0 <= i < j < |history| ==> history[i].at <= history[j].at
    ensures live == Live(history, window, now)
  {
    var popped := 0;
    while popped < |deque| && now - deque[popped].at >= window
      invariant 0 <= popped <= |deque|
      invariant forall i :: 0 <= i < popped ==> now - deque[i].at >= window
    {
      popped := popped + 1;
    }
    PoppedIsLive(deque, popped, history, window, last, now);
    live := deque[popped..];
  }

  function At(deques: map<string, seq<Hit>>, ip: string): seq<Hit> {
    if ip in deques then deques[ip] else []
  }

  ghost predicate Mirrors(limit: nat, window: nat, hits: map<string, seq<Hit>>, history: map<string, seq<Hit>>,
                          last: int) {
    forall ip :: Mirrored(limit, window, At(hits, ip), At(history, ip), last)
  }

  ghost predicate Mirrored(limit: nat, window: nat, deque: seq<Hit>, history: seq<Hit>, last: int) {
    Spaced(limit, window, history, last) && Represents(deque, history, window, last)
  }

  /** One IP's turn: its live hits, plus a freshly recorded one, still represent its history. */
  lemma RecordedMirrors(limit: nat, window: nat, history: seq<Hit>, last: int, now: int, pathHash: nat)
    requires Spaced(limit, window, history, last) && last <= now
    ensures Mirrored(limit, window, Record(limit, window, Live(history, window, now), now, pathHash),
                     Record(limit, window, history, now, pathHash), now)
  {
    LiveIsSuffix(history, window, now);
    RecordKeepsSpacing(limit, window, history, last, now, pathHash);
    LiveAgain(history, window, now);
  }

  lemma {:induction false} LiveAgain(history: seq<Hit>, window: nat, now: int)
    ensures Live(Live(history, window, now), window, now) == Live(history, window, now)
  {
    if history != [] {
      LiveAgain(history[1..], window, now);
      var rest := Live(history[1..], window, now);
      assert ([history[0]] + rest)[1..] == rest;
    }
  }

  lemma UpdateMirrors(limit: nat, window: nat, hits: map<string, seq<Hit>>, history: map<string, seq<Hit>>, last: int,
                      ip: string, deque: seq<Hit>, recorded: seq<Hit>, now: int)
    requires Mirrors(limit, window, hits, history, last) && last <= now
    requires Mirrored(limit, window, deque, recorded, now)
    ensures Mirrors(limit, window, hits[ip := deque], history[ip := recorded], now)
  {
    var hits', history' := hits[ip := deque], history[ip := recorded];
    forall other ensures Mirrored(limit, window, At(hits', other), At(history', other), now) {
      assert Mirrored(limit, window, At(hits, other), At(history, other), last);
    }
  }

  lemma LiveMirrors(limit: nat, window: nat, hits: map<string, seq<Hit>>, history: map<string, seq<Hit>>, now: int,
                    ip: string)
    requires Mirrors(limit, window, hits, history, now)
    ensures var live := Live(At(history, ip), window, now);
            Mirrors(limit, window, if live == [] then hits - {ip} else hits[ip := live], history, now)
  {
    var live := Live(At(history, ip), window, now);
    var swept := if live == [] then hits - {ip} else hits[ip := live];
    forall other ensures Mirrored(limit, window, At(swept, other), At(history, other), now) {
      assert Mirrored(limit, window, At(hits, other), At(history, other), now);
      LiveIsSuffix(At(history, ip), window, now);
    }
  }

  /** Some recorded hit on the path is inside both the window and the grace period. */
  predicate TakenRecently(history: seq<Hit>, window: nat, now: int, pathHash: nat) {
    exists i :: 0 <= i < |history| && history[i].pathHash == pathHash &&
                now - history[i].at < window && now - history[i].at < DEDUP_GRACE
  }

  lemma RecentIsLive(history: seq<Hit>, window: nat, now: int, pathHash: nat)
    requires forall i, j :: 0 <= i < j < |history| ==> history[i].at <= history[j].at
    ensures Deduplicated(Live(history, window, now), now, pathHash) <==> TakenRecently(history, window, now, pathHash)
  {
    LiveIsSuffix(history, window, now);
    var live := Live(history, window, now);
    var start := |history| - |live|;
    assert forall i :: 0 <= i < |live| ==> live[i] == history[start + i];
    if TakenRecently(history, window, now, pathHash) {
      var i :| 0 <= i < |history| && history[i].pathHash == pathHash &&
               now - history[i].at < window && now - history[i].at < DEDUP_GRACE;
      assert i >= start && live[i - start] == history[i];
    }
  }

  /** The window holds `limit` hits until the oldest of them expires, and fewer from then on. */
  lemma FullUntil(limit: nat, window: nat, history: seq<Hit>, now: int, later: int)
    requires limit > 0 && Spaced(limit, window, history, now) && |Live(history, window, now)| >= limit && now <= later
    ensures |Live(history, window, later)| >= limit <==> later - Live(history, window, now)[0].at < window
  {
    LiveIsSuffix(history, window, now);
    LiveIsSuffix(history, window, later);
    LiveFitsLimit(limit, window, history, now);
    var first := |history| - |Live(history, window, now)|;
    assert Live(history, window, now)[0] == history[first];
  }

  /**
   * The decision on one deque of live hits, said of everything ever recorded for the IP: refused when the
   * path was not taken recently and the window is full, until the first moment it no longer is; otherwise
   * allowed, and recorded unless taken recently. The new deque represents the new history.
   */
  method Admit(limit: nat, window: nat, live: seq<Hit>, now: int, pathHash: nat, ghost history: seq<Hit>)
    returns (decision: Decision, deque: seq<Hit>)
    requires limit > 0 && Spaced(limit, window, history, now) && live == Live(history, window, now)
    ensures decision.Limited? <==>
            !TakenRecently(history, window, now, pathHash) && |Live(history, window, now)| >= limit
    ensures decision.Limited? ==> decision.retryAfter >= SECOND
    ensures decision.Limited? ==>
              forall later :: later >= now + decision.retryAfter ==> |Live(history, window, later)| < limit
    ensures decision.Limited? && decision.retryAfter > SECOND ==>
              forall later :: now <= later < now + decision.retryAfter ==> |Live(history, window, later)| >= limit
    ensures decision == Decide(limit, window, history, now, pathHash)
    ensures Mirrored(limit, window, deque, Record(limit, window, history, now, pathHash), now) && |deque| <= limit
  {
    LiveFitsLimit(limit, window, history, now);
    RecentIsLive(history, window, now, pathHash);
    RecordedMirrors(limit, window, history, now, now, pathHash);
    LiveAgain(history, window, now);
    deque := live;
    if exists i :: 0 <= i < |live| && live[i].pathHash == pathHash && now - live[i].at < DEDUP_GRACE {
      decision := Allowed;
    } else if |live| >= limit {
      var wait := window - (now - live[0].at);
      decision := Limited(if wait > SECOND then wait else SECOND);
      forall later | later >= now
        ensures |Live(history, window, later)| >= limit <==> later - live[0].at < window
      {
        FullUntil(limit, window, history, now, later);
      }
    } else {
      deque := deque + [Hit(now, pathHash)];
      decision := Allowed;
    }
  }

  class DownloadRateLimiter {
    const limit: nat
    const window: nat
    const hash: string -> nat
    var hits: map<string, seq<Hit>>
    /** Every hit ever recorded, per IP; never trimmed. */
    ghost var history: map<string, seq<Hit>>
    /** The latest clock reading any call used. */
    ghost var last: int

    ghost predicate Valid() reads this {
      Mirrors(limit, window, hits, history, last)
    }

    constructor (limit: nat, window: nat, hash: string -> nat)
      ensures Valid() && this.limit == limit && this.window == window && this.hash == hash
      ensures history == map[]
    {
      this.limit, this.window, this.hash := limit, window, hash;
      hits, history, last := map[], map[], 0;
    }

    method Check(ip: string, path: string, now: int) returns (decision: Decision)
      requires Valid() && last <= now
      modifies this
      ensures Valid() && last == (if limit == 0 then old(last) else now)
      ensures decision == Decide(limit, window, At(old(history), ip), now, hash(path))
      ensures At(history, ip) == Record(limit, window, At(old(history), ip), now, hash(path))
      ensures forall other :: other != ip ==> At(history, other) == At(old(history), other)
    {
      if limit == 0 {
        return Allowed;
      }
      var pathHash := hash(path);
      ghost var before := At(history, ip);
      ghost var after := Record(limit, window, before, now, pathHash);
      assert Mirrored(limit, window, At(hits, ip), before, last);
      var live := PopExpired(At(hits, ip), window, now, before, last);
      var deque;
      decision, deque := Admit(limit, window, live, now, pathHash, before);
      UpdateMirrors(limit, window, hits, history, last, ip, deque, after, now);
      hits, history := hits[ip := deque], history[ip := after];
      last := now;
    }

    /** Evicts what has aged out; the recorded history, which alone fixes later decisions, is untouched. */
    method Sweep(now: int)
      requires Valid() && last <= now
      modifies this
      ensures Valid() && last == now && history == old(history)
      ensures forall ip :: ip in hits ==> hits[ip] != []
      ensures forall ip :: At(hits, ip) == Live(At(history, ip), window, now)
    {
      last := now;
      var todo := hits.Keys;
      while todo != {}
        invariant todo <= hits.Keys && history == old(history) && last == now && Valid()
        invariant forall ip :: ip in hits && ip !in todo ==>
                 hits[ip] != [] && hits[ip] == Live(At(history, ip), window, now)
        decreases |todo|
      {
        var ip :| ip in todo;
        assert Mirrored(limit, window, At(hits, ip), At(history, ip), now);
        var deque := PopExpired(hits[ip], window, now, At(history, ip), now);
        LiveMirrors(limit, window, hits, history, now, ip);
        hits := if deque == [] then hits - {ip} else hits[ip := deque];
        todo := todo - {ip};
      }
      forall ip ensures At(hits, ip) == Live(At(history, ip), window, now) {
        assert Mirrored(limit, window, At(hits, ip), At(history, ip), now);
        if ip !in hits { PoppedIsLive([], 0, At(history, ip), window, now, now); }
      }
    }
  }
}
