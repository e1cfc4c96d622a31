/**
 * Why an equal ETag may stand for an equal set: when no handler is between a set's files and its meta,
 * and every meta put gets an ETag that key never had, the row with the meta's ETag is exact.
 */
module FastPath {
  import opened Catalogue
  import opened Bucket
  import opened Pairing
  import opened Scanner
  import opened Writes

  /** The history is what the writes of all pods, in the order S3 took them, made of the first bucket. */
  predicate WrittenBy(hist: History, writes: seq<S3Write>) {
    |hist| == |writes| + 1 && forall t :: 0 <= t < |writes| ==> hist[t + 1] == Perform(hist[t], writes[t])
  }

  /** Putting this set's meta gives it an ETag it never had. */
  predicate FreshEtags(hist: History, writes: seq<S3Write>, prefix: string)
    requires WrittenBy(hist, writes)
  {
    var key := MetaKey(prefix);
    forall t, u :: 0 <= u <= t < |writes| && writes[t].Put? && writes[t].key == key && key in hist[u] ==>
      writes[t].item.etag.Some? && hist[u][key].etag != writes[t].item.etag
  }

  lemma {:induction false} HistoryIsPlay(hist: History, writes: seq<S3Write>, t: nat)
    requires WrittenBy(hist, writes) && t <= |writes|
    ensures hist[t] == Play(hist[0], writes[..t])
  {
    if t > 0 {
      HistoryIsPlay(hist, writes, t - 1);
      assert writes[..t][..t - 1] == writes[..t - 1];
    }
  }

  predicate SameAt(b: Contents, b': Contents, key: string) {
    if key in b then key in b' && b'[key] == b[key] else key !in b'
  }

  predicate AheadAt(parse: Parser, hist: History, writes: seq<S3Write>, prefix: string, t: nat)
    requires t <= |writes|
  {
    Ahead(parse, hist[0], prefix, writes[..t])
  }

  /** At moment `t` the meta and every file it declares are what they are now, and nothing is half done. */
  predicate Settled(parse: Parser, hist: History, writes: seq<S3Write>, place: Place, declared: seq<FileMeta>, t: nat)
    requires t <= |writes| && t < |hist|
  {
    && !AheadAt(parse, hist, writes, PrefixOf(place), t)
    && MetaAt(hist, t, place) == MetaAt(hist, Now(hist), place)
    && forall i :: 0 <= i < |declared| ==> SameAt(hist[t], hist[Now(hist)], PrefixOf(place) + declared[i].path)
  }

  /** Putting an ETag back is what freshness forbids, so the meta was not written since. */
  lemma MetaNotWritten(hist: History, writes: seq<S3Write>, place: Place, got: nat, t: nat)
    requires WrittenBy(hist, writes) && FreshEtags(hist, writes, PrefixOf(place)) && got <= t < |writes|
    requires MetaAt(hist, got, place).Some? && MetaAt(hist, t + 1, place).Some?
    requires MetaAt(hist, got, place).value.etag == MetaAt(hist, t + 1, place).value.etag
    ensures Target(writes[t]) == MetaKey(PrefixOf(place)) ==> writes[t].Copy?
  {
    var key := MetaKey(PrefixOf(place));
    assert hist[t + 1] == Perform(hist[t], writes[t]);
    assert key in hist[got];
  }

  function DeclaredNow(parse: Parser, hist: History, place: Place): seq<FileMeta> {
    Declared(parse, hist[Now(hist)], PrefixOf(place))
  }

  lemma SettledStep(parse: Parser, hist: History, writes: seq<S3Write>, place: Place, got: nat, t: nat)
    requires WrittenBy(hist, writes) && FreshEtags(hist, writes, PrefixOf(place)) && got <= t < |writes|
    requires MetaAt(hist, Now(hist), place).Some? && MetaAt(hist, got, place).Some?
    requires MetaAt(hist, got, place).value.etag == MetaAt(hist, Now(hist), place).value.etag
    requires Settled(parse, hist, writes, place, DeclaredNow(parse, hist, place), t + 1)
    ensures Settled(parse, hist, writes, place, DeclaredNow(parse, hist, place), t)
  {
    var prefix := PrefixOf(place);
    var w := writes[t];
    assert hist[t + 1] == Perform(hist[t], w);
    MetaNotWritten(hist, writes, place, got, t);
    HistoryIsPlay(hist, writes, t);
    assert writes[..t + 1][..t] == writes[..t];
    assert Target(w) != MetaKey(prefix);
    assert MetaAt(hist, t, place) == MetaAt(hist, t + 1, place);
    var declared := Declared(parse, hist[t], prefix);
    assert declared == DeclaredNow(parse, hist, place);
    forall i | 0 <= i < |declared| ensures SameAt(hist[t], hist[t + 1], prefix + declared[i].path) {
      assert Target(w) != prefix + declared[i].path;
    }
  }

  lemma {:induction false} SettledSince(parse: Parser, hist: History, writes: seq<S3Write>, place: Place, got: nat,
                                        t: nat)
    requires WrittenBy(hist, writes) && FreshEtags(hist, writes, PrefixOf(place)) && got <= t <= Now(hist)
    requires !AheadAt(parse, hist, writes, PrefixOf(place), Now(hist))
    requires MetaAt(hist, Now(hist), place).Some? && MetaAt(hist, got, place).Some?
    requires MetaAt(hist, got, place).value.etag == MetaAt(hist, Now(hist), place).value.etag
    ensures Settled(parse, hist, writes, place, DeclaredNow(parse, hist, place), t)
    decreases Now(hist) - t
  {
    if t < Now(hist) {
      SettledSince(parse, hist, writes, place, got, t + 1);
      SettledStep(parse, hist, writes, place, got, t);
    }
  }

  /** The row is the set's meta as S3 holds it, listing exactly its declared files as S3 holds them. */
  ghost predicate Exact(parse: Parser, b: Contents, place: Place, row: Row) {
    var prefix := PrefixOf(place);
    && MetaKey(prefix) in b
    && parse(b[MetaKey(prefix)].text).Some?
    && var meta := parse(b[MetaKey(prefix)].text).value;
       && (exists modified :: row.meta == Dated(meta, modified))
       && |row.files| == |meta.files|
       && forall i :: 0 <= i < |row.files| ==> (
            row.files[i].file == meta.files[i] && HoldsFile(b, prefix, row.files[i]))
  }

  predicate HoldsFile(b: Contents, prefix: string, f: Listed) {
    var key := prefix + f.file.path;
    key in b && b[key].size == f.size && b[key].etag == f.etag
  }

  /** No meta under another path ever claims this place by the maker and model it holds. */
  ghost predicate OnlyOwnMetas(parse: Parser, hist: History, place: Place) {
    forall t: nat, other :: Claims(parse, hist, t, other, place) ==> PrefixOf(other) == PrefixOf(place)
  }

  predicate Claims(parse: Parser, hist: History, t: nat, other: Place, place: Place) {
    && MetaAt(hist, t, other).Some?
    && parse(MetaAt(hist, t, other).value.text).Some?
    && RowKey(other, parse(MetaAt(hist, t, other).value.text).value) == place
  }

  lemma SourceIsSettled(parse: Parser, hist: History, writes: seq<S3Write>, place: Place, row: Row, head: nat,
                        got: nat, listed: nat)
    requires WrittenBy(hist, writes) && FreshEtags(hist, writes, PrefixOf(place))
    requires !AheadAt(parse, hist, writes, PrefixOf(place), Now(hist))
    requires FromS3(parse, hist, place, row, head, got, listed)
    requires MetaAt(hist, Now(hist), place).Some? && MetaAt(hist, Now(hist), place).value.etag == row.etag
    ensures Exact(parse, hist[Now(hist)], place, row)
  {
    var prefix := PrefixOf(place);
    SettledSince(parse, hist, writes, place, got, got);
    var meta := parse(MetaAt(hist, got, place).value.text).value;
    assert meta.files == DeclaredNow(parse, hist, place);
    assert row.meta == Dated(meta, MetaAt(hist, head, place).value.modified);
    forall i | 0 <= i < |row.files|
      ensures row.files[i].file == meta.files[i] && HoldsFile(hist[Now(hist)], prefix, row.files[i])
    {
      var key := prefix + meta.files[i].path;
      var t :| got <= t <= listed && t < |hist| && key in hist[t] &&
               hist[t][key].size == row.files[i].size && hist[t][key].etag == row.files[i].etag;
      SettledSince(parse, hist, writes, place, got, t);
      assert SameAt(hist[t], hist[Now(hist)], key);
    }
  }

  lemma SamePrefixSameSource(parse: Parser, hist: History, source: Place, place: Place, row: Row, head: nat,
                             got: nat, listed: nat)
    requires PrefixOf(source) == PrefixOf(place) && FromS3(parse, hist, source, row, head, got, listed)
    ensures FromS3(parse, hist, place, row, head, got, listed)
  {
  }

  /**
   * The fast path is sound: in every run of the scanner against any such writes, whenever the set is not
   * ahead of its meta and the cached ETag is the meta's, the cached row is exact.
   */
  lemma EqualEtagMeansExactRow(parse: Parser, run: seq<State>, k: nat, writes: seq<S3Write>, place: Place)
    requires IsRun(parse, run) && k < |run| && place in run[k].rows
    requires WrittenBy(run[k].hist, writes) && FreshEtags(run[k].hist, writes, PrefixOf(place))
    requires OnlyOwnMetas(parse, run[k].hist, place)
    requires !AheadAt(parse, run[k].hist, writes, PrefixOf(place), Now(run[k].hist))
    requires MetaAt(run[k].hist, Now(run[k].hist), place).Some?
    requires MetaAt(run[k].hist, Now(run[k].hist), place).value.etag == run[k].rows[place].etag
    ensures Exact(parse, run[k].hist[Now(run[k].hist)], place, run[k].rows[place])
  {
    var hist, row := run[k].hist, run[k].rows[place];
    RowsListWholeMetas(parse, run, k, place);
    var source, head, got, listed :|
      RowKey(source, row.meta) == place && FromS3(parse, hist, source, row, head, got, listed);
    assert Claims(parse, hist, got, source, place);
    SamePrefixSameSource(parse, hist, source, place, row, head, got, listed);
    SourceIsSettled(parse, hist, writes, place, row, head, got, listed);
  }
}
