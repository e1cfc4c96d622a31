/** The S3 bucket as a map from key to object, its key layout, and what a listing may answer. */
module Bucket {
  import opened Wrappers
  import opened Catalogue

  /** `modified` is the object's LastModified as RFC 3339 text. */
  datatype Object = Object(text: string, size: nat, etag: Option<string>, modified: string)

  type Contents = map<string, Object>

  const SAMPLES := "samples/"
  const PENDING := "pending/"
  const META_FILE := "rawdb-meta.toml"

  /** An approved set, or a pending upload. */
  datatype Place = Sample(key: SetKey) | Pending(id: string)

  function PrefixOf(place: Place): string {
    match place
    case Sample(key) => SAMPLES + key.maker + "/" + key.model + "/"
    case Pending(id) => PENDING + id + "/"
  }

  function MetaKey(prefix: string): string {
    prefix + META_FILE
  }

  lemma SameRest(prefix: string, a: string, b: string)
    ensures prefix + a == prefix + b <==> a == b
  {
    assert (prefix + a)[|prefix|..] == a && (prefix + b)[|prefix|..] == b;
  }

  // ---- From prefixes to places ----

  function TrimSlashes(s: string): string {
    if s != "" && s[|s| - 1] == '/' then TrimSlashes(s[..|s| - 1]) else s
  }

  function SplitOnce(s: string): Option<(string, string)> {
    if s == "" then None
    else if s[0] == '/' then Some(("", s[1..]))
    else
      var r := SplitOnce(s[1..]);
      if r.Some? then Some(([s[0]] + r.value.0, r.value.1)) else None
  }

  function SplitSetPrefix(prefix: string): Option<SetKey> {
    if !(SAMPLES <= prefix) then None
    else
      var parts := SplitOnce(TrimSlashes(prefix[|SAMPLES|..]));
      if parts.None? || parts.value.0 == "" || parts.value.1 == "" || '/' in parts.value.1 then None
      else Some(SetKey(parts.value.0, parts.value.1))
  }

  function SplitPendingPrefix(prefix: string): Option<string> {
    if !(PENDING <= prefix) then None
    else
      var rest := TrimSlashes(prefix[|PENDING|..]);
      if rest == "" || '/' in rest then None else Some(rest)
  }

  function PlaceOf(prefix: string): Option<Place> {
    if SplitSetPrefix(prefix).Some? then Some(Sample(SplitSetPrefix(prefix).value))
    else if SplitPendingPrefix(prefix).Some? then Some(Pending(SplitPendingPrefix(prefix).value))
    else None
  }

  predicate Segment(s: string) {
    s != "" && '/' !in s
  }

  /** The places a listing can name. */
  predicate Named(place: Place) {
    match place
    case Sample(key) => Segment(key.maker) && Segment(key.model)
    case Pending(id) => Segment(id)
  }

  lemma TrimOneSlash(s: string)
    requires s != "" && s[|s| - 1] != '/'
    ensures TrimSlashes(s + "/") == s
  {
    assert (s + "/")[..|s|] == s;
  }

  lemma {:induction false} SplitOnceAt(maker: string, rest: string)
    requires '/' !in maker
    ensures SplitOnce(maker + "/" + rest) == Some((maker, rest))
  {
    var s := maker + "/" + rest;
    if maker == "" {
      assert s[1..] == rest;
    } else {
      assert s[1..] == maker[1..] + "/" + rest;
      SplitOnceAt(maker[1..], rest);
      assert [maker[0]] + maker[1..] == maker;
    }
  }

  lemma {:induction false} SplitOnceHead(s: string)
    ensures SplitOnce(s).Some? ==> '/' !in SplitOnce(s).value.0
  {
    if s != "" && s[0] != '/' {
      SplitOnceHead(s[1..]);
    }
  }

  lemma SetPrefixSplits(key: SetKey)
    requires Named(Sample(key))
    ensures SplitSetPrefix(PrefixOf(Sample(key))) == Some(key)
  {
    var rest := key.maker + "/" + key.model;
    var prefix := PrefixOf(Sample(key));
    assert prefix == SAMPLES + (rest + "/");
    assert prefix[|SAMPLES|..] == rest + "/";
    assert rest[|rest| - 1] == key.model[|key.model| - 1];
    TrimOneSlash(rest);
    SplitOnceAt(key.maker, key.model);
  }

  lemma PendingPrefixSplits(id: string)
    requires Named(Pending(id))
    ensures SplitPendingPrefix(PrefixOf(Pending(id))) == Some(id)
  {
    assert PrefixOf(Pending(id))[|PENDING|..] == id + "/";
    TrimOneSlash(id);
  }

  /** A place is read back from its own prefix exactly when its names are non-empty and hold no slash. */
  lemma PlaceRoundTrip(place: Place)
    ensures PlaceOf(PrefixOf(place)) == Some(place) <==> Named(place)
  {
    var prefix := PrefixOf(place);
    assert SAMPLES[0] == 's' && PENDING[0] == 'p';
    match place
    case Sample(key) =>
      assert prefix[0] == 's';
      if Named(place) { SetPrefixSplits(key); }
      if SplitSetPrefix(prefix) == Some(key) { SplitOnceHead(TrimSlashes(prefix[|SAMPLES|..])); }
    case Pending(id) =>
      assert prefix[0] == 'p';
      if Named(place) { PendingPrefixSplits(id); }
  }

  // ---- Listings ----

  /** The buckets so far; the last one is S3 now. */
  type History = h: seq<Contents> | h != [] witness [map[]]

  function Now(hist: History): nat {
    |hist| - 1
  }

  predicate Present(b: Contents, prefix: string) {
    exists key :: key in b && prefix <= key
  }

  predicate AbsentSometime(hist: History, from: nat, to: nat, prefix: string) {
    exists t :: from <= t <= to && t < |hist| && !Present(hist[t], prefix)
  }

  predicate PresentSometime(hist: History, from: nat, to: nat, prefix: string) {
    exists t :: from <= t <= to && t < |hist| && Present(hist[t], prefix)
  }

  /** `q` is `prefix`, one segment, and the delimiter. */
  predicate OneDeeper(prefix: string, q: string) {
    && |prefix| < |q|
    && prefix <= q
    && q[|q| - 1] == '/'
    && '/' !in q[|prefix|..|q| - 1]
  }

  /**
   * What a complete delimited listing may answer when its pages were taken at moments `from` to `to`:
   * each common prefix is reported as it was when its page was taken.
   */
  ghost predicate CommonListing(hist: History, from: nat, to: nat, prefix: string, answer: seq<string>) {
    && (forall q :: q in answer ==> OneDeeper(prefix, q) && PresentSometime(hist, from, to, q))
    && (forall q :: OneDeeper(prefix, q) && q !in answer ==> AbsentSometime(hist, from, to, q))
  }

  datatype Listing = Listing(key: string, size: nat, etag: Option<string>)

  predicate ListedSometime(hist: History, from: nat, to: nat, key: string, size: nat, etag: Option<string>) {
    exists t :: from <= t <= to && t < |hist| && key in hist[t] && hist[t][key].size == size &&
        hist[t][key].etag == etag
  }

  predicate MissingSometime(hist: History, from: nat, to: nat, key: string) {
    exists t :: from <= t <= to && t < |hist| && key !in hist[t]
  }

  /** Likewise for a complete recursive listing; each key is reported once. */
  ghost predicate ObjectListing(hist: History, from: nat, to: nat, prefix: string, answer: seq<Listing>) {
    && (forall i, j :: 0 <= i < j < |answer| ==> answer[i].key != answer[j].key)
    && (forall o :: o in answer ==> prefix <= o.key && ListedSometime(hist, from, to, o.key, o.size, o.etag))
    && (forall key :: prefix <= key && !Lists(answer, key) ==> MissingSometime(hist, from, to, key))
  }

  predicate Lists(answer: seq<Listing>, key: string) {
    exists i :: 0 <= i < |answer| && answer[i].key == key
  }

  /** A set S3 holds is listed, level by level, under its own prefix when its names allow it. */
  lemma SetPrefixIsTwoDeep(key: SetKey)
    requires Named(Sample(key))
    ensures OneDeeper(SAMPLES, SAMPLES + key.maker + "/")
    ensures OneDeeper(SAMPLES + key.maker + "/", PrefixOf(Sample(key)))
  {
    var m := SAMPLES + key.maker + "/";
    assert m[|SAMPLES|..|m| - 1] == key.maker;
    var q := PrefixOf(Sample(key));
    assert q == m + (key.model + "/");
    assert q[|m|..|q| - 1] == key.model;
  }

  lemma PendingPrefixIsOneDeep(id: string)
    requires Named(Pending(id))
    ensures OneDeeper(PENDING, PrefixOf(Pending(id)))
  {
    var q := PrefixOf(Pending(id));
    assert q == PENDING + (id + "/");
    assert q[|PENDING|..|q| - 1] == id;
  }
}
