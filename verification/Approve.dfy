/** `approve_pending` and `delete_set_file`: what S3 holds after every prefix of their writes. */
module Approve {
  import opened Wrappers
  import opened Catalogue
  import opened Text
  import opened Bucket
  import opened Writes
  import opened Store
  import opened Safety
  import Meta
  import Sequences

  // ---- Merging ----

  /** Existing entries at promoted paths give way; the promoted ones follow. */
  function Merged(existing: seq<FileMeta>, promote: seq<FileMeta>): seq<FileMeta> {
    Sequences.Filter((f: FileMeta) => f.path !in Paths(promote), existing) + promote
  }

  lemma {:induction false} FilterKeepsUnique(keep: FileMeta -> bool, files: seq<FileMeta>)
    requires UniquePaths(files)
    ensures UniquePaths(Sequences.Filter(keep, files))
  {
    if files != [] {
      var init, last := files[..|files| - 1], files[|files| - 1];
      FilterKeepsUnique(keep, init);
      Sequences.FilterMembers(keep, init);
      var kept := Sequences.Filter(keep, init);
      forall i | 0 <= i < |kept| ensures kept[i].path != last.path {
        var m :| 0 <= m < |init| && init[m] == kept[i];
        assert files[m] == init[m];
      }
    }
  }

  /** The merge is the existing files overridden by the promoted ones, and no path occurs twice. */
  lemma MergeOverrides(existing: seq<FileMeta>, promote: seq<FileMeta>)
    requires UniquePaths(existing) && UniquePaths(promote)
    ensures forall f :: f in Merged(existing, promote) <==>
              (f in promote || (f in existing && f.path !in Paths(promote)))
    ensures UniquePaths(Merged(existing, promote))
    ensures Paths(Merged(existing, promote)) == Paths(existing) + Paths(promote)
  {
    var keep := (f: FileMeta) => f.path !in Paths(promote);
    Sequences.FilterMembers(keep, existing);
    FilterKeepsUnique(keep, existing);
    var kept := Sequences.Filter(keep, existing);
    var all := kept + promote;
    forall f ensures f in all <==> (f in promote || (f in existing && f.path !in Paths(promote))) {
      if f in kept {
        var i :| 0 <= i < |kept| && kept[i] == f;
      }
      if f in existing && keep(f) {
        var i :| 0 <= i < |existing| && existing[i] == f;
        assert existing[i] in kept;
      }
    }
    MergedPaths(existing, promote, all);
    forall i, j | 0 <= i < j < |all| ensures all[i].path != all[j].path {
      if i < |kept| <= j {
        assert keep(kept[i]) && all[j] in promote;
      }
    }
  }

  lemma MergedPaths(existing: seq<FileMeta>, promote: seq<FileMeta>, all: seq<FileMeta>)
    requires forall f :: f in all <==> (f in promote || (f in existing && f.path !in Paths(promote)))
    ensures Paths(all) == Paths(existing) + Paths(promote)
  {
    forall path | path in Paths(existing) && path !in Paths(promote) ensures path in Paths(all) {
      var f :| f in existing && f.path == path;
      assert f in all;
    }
  }

  // ---- The writes of an approval ----

  function CopyOf(samples: string, pending: string, f: FileMeta): S3Write {
    Copy(pending + f.path, samples + f.path)
  }

  /** Copies of promoted files, in whatever order the parallel requests ended. */
  ghost predicate AreCopies(writes: seq<S3Write>, samples: string, pending: string, promote: seq<FileMeta>) {
    forall i :: 0 <= i < |writes| ==> IsCopy(writes[i], samples, pending, promote)
  }

  ghost predicate IsCopy(w: S3Write, samples: string, pending: string, promote: seq<FileMeta>) {
    exists f :: f in promote && w == CopyOf(samples, pending, f)
  }

  predicate AreDeletesBelow(writes: seq<S3Write>, prefix: string) {
    forall i :: 0 <= i < |writes| ==> writes[i].Delete? && prefix <= writes[i].key
  }

  predicate DeletesOnce(writes: seq<S3Write>) {
    && (forall i :: 0 <= i < |writes| ==> writes[i].Delete?)
    && forall i, j :: 0 <= i < j < |writes| ==> Target(writes[i]) != Target(writes[j])
  }

  /** Every promoted file was there to copy, and was copied. */
  ghost predicate AllCopied(b: Contents, writes: seq<S3Write>, samples: string, pending: string,
                            promote: seq<FileMeta>) {
    forall f :: f in promote ==> pending + f.path in b && CopyOf(samples, pending, f) in writes
  }

  ghost predicate Apart(samples: string, pending: string) {
    forall a: string, b: string :: samples + a != pending + b
  }

  lemma PlacesAreApart(key: SetKey, id: string)
    ensures Apart(PrefixOf(Sample(key)), PrefixOf(Pending(id)))
  {
    var samples, pending := PrefixOf(Sample(key)), PrefixOf(Pending(id));
    forall a: string, b: string ensures samples + a != pending + b {
      assert (samples + a)[0] == 's' && (pending + b)[0] == 'p';
    }
  }

  /** Copies never remove a key, and touch only promoted paths of the samples side. */
  lemma {:induction false} CopiesOnlyAdd(b: Contents, writes: seq<S3Write>, samples: string, pending: string,
                                         promote: seq<FileMeta>, key: string)
    requires AreCopies(writes, samples, pending, promote)
    ensures key in b ==> key in Play(b, writes)
    ensures (forall f :: f in promote ==> key != samples + f.path) ==>
              ((key in Play(b, writes) <==> key in b) && (key in b ==> Play(b, writes)[key] == b[key]))
  {
    if writes != [] {
      var init := writes[..|writes| - 1];
      CopiesOnlyAdd(b, init, samples, pending, promote, key);
      assert IsCopy(writes[|writes| - 1], samples, pending, promote);
      var f :| f in promote && writes[|writes| - 1] == CopyOf(samples, pending, f);
    }
  }

  lemma PendingUntouched(b: Contents, writes: seq<S3Write>, samples: string, pending: string, promote: seq<FileMeta>,
                         path: string)
    requires Apart(samples, pending) && AreCopies(writes, samples, pending, promote) && pending + path in b
    ensures pending + path in Play(b, writes) && Play(b, writes)[pending + path] == b[pending + path]
  {
    CopiesOnlyAdd(b, writes, samples, pending, promote, pending + path);
  }

  /** A copied file holds the pending object's content, in every order of the copies. */
  lemma {:induction false} CopiedFileHolds(b: Contents, writes: seq<S3Write>, samples: string, pending: string,
                                           promote: seq<FileMeta>, f: FileMeta)
    requires Apart(samples, pending) && AreCopies(writes, samples, pending, promote)
    requires f in promote && pending + f.path in b && CopyOf(samples, pending, f) in writes
    ensures samples + f.path in Play(b, writes)
    ensures Play(b, writes)[samples + f.path] == b[pending + f.path]
  {
    var init, last := writes[..|writes| - 1], writes[|writes| - 1];
    assert writes == init + [last];
    assert AreCopies(init, samples, pending, promote);
    assert IsCopy(writes[|writes| - 1], samples, pending, promote);
    var g :| g in promote && last == CopyOf(samples, pending, g);
    PendingUntouched(b, init, samples, pending, promote, f.path);
    SameRest(samples, f.path, g.path);
    if last != CopyOf(samples, pending, f) {
      CopiedFileHolds(b, init, samples, pending, promote, f);
    }
  }

  ghost predicate FolderPaths(files: seq<FileMeta>) {
    forall f :: f in files ==> Meta.ValidPath(f.path)
  }

  lemma MetaIsNoFile(samples: string, files: seq<FileMeta>)
    requires FolderPaths(files)
    ensures forall f :: f in files ==> samples + f.path != MetaKey(samples)
  {
    forall f | f in files ensures samples + f.path != MetaKey(samples) {
      SameRest(samples, f.path, META_FILE);
    }
  }

  /** While files are copied, the old meta stands and loses nothing. */
  lemma SafeWhileCopying(parse: Parser, b: Contents, writes: seq<S3Write>, samples: string, pending: string,
                         promote: seq<FileMeta>)
    requires AreCopies(writes, samples, pending, promote) && FolderPaths(promote) && Safe(parse, b, samples)
    ensures Declared(parse, Play(b, writes), samples) == Declared(parse, b, samples)
    ensures Safe(parse, Play(b, writes), samples)
  {
    MetaIsNoFile(samples, promote);
    CopiesOnlyAdd(b, writes, samples, pending, promote, MetaKey(samples));
    forall f | f in Declared(parse, b, samples) ensures samples + f.path in Play(b, writes) {
      CopiesOnlyAdd(b, writes, samples, pending, promote, samples + f.path);
    }
  }

  /** Deleting elsewhere changes nothing here. */
  lemma {:induction false} DeletesElsewhere(parse: Parser, b: Contents, writes: seq<S3Write>, samples: string,
                                            pending: string)
    requires Apart(samples, pending) && AreDeletesBelow(writes, pending) && Safe(parse, b, samples)
    ensures Declared(parse, Play(b, writes), samples) == Declared(parse, b, samples)
    ensures Safe(parse, Play(b, writes), samples)
  {
    if writes != [] {
      var init, last := writes[..|writes| - 1], writes[|writes| - 1];
      DeletesElsewhere(parse, b, init, samples, pending);
      assert last.key == pending + last.key[|pending|..];
    }
  }

  /** How far an approval got: some copies; or all of them, the meta, and some deletes of the upload. */
  ghost predicate ApprovalWrites(b: Contents, writes: seq<S3Write>, samples: string, pending: string,
                                 promote: seq<FileMeta>, item: Object)
  {
    AreCopies(writes, samples, pending, promote) ||
    exists n :: 0 <= n < |writes| && Finishes(b, writes, n, samples, pending, promote, item)
  }

  ghost predicate Finishes(b: Contents, writes: seq<S3Write>, n: nat, samples: string, pending: string,
                           promote: seq<FileMeta>, item: Object)
    requires n < |writes|
  {
    && AreCopies(writes[..n], samples, pending, promote)
    && AllCopied(b, writes[..n], samples, pending, promote)
    && writes[n] == Put(MetaKey(samples), item)
    && AreDeletesBelow(writes[n + 1..], pending)
  }

  /**
   * The approved catalogue is safe at every crash point: after any prefix of the writes of an approval
   * that refuses or merges, in any order of its copies, every file the approved meta declares has an object.
   */
  lemma ApprovalIsSafeThroughout(parse: Parser, b: Contents, writes: seq<S3Write>, samples: string, pending: string,
                                 existing: seq<FileMeta>, promote: seq<FileMeta>, item: Object)
    requires Safe(parse, b, samples) && Apart(samples, pending)
    requires FolderPaths(promote) && UniquePaths(promote) && UniquePaths(existing)
    requires existing == [] || existing == Declared(parse, b, samples)
    requires DeclaresWithin(parse, item, Paths(Merged(existing, promote)))
    requires ApprovalWrites(b, writes, samples, pending, promote, item)
    ensures Safe(parse, Play(b, writes), samples)
  {
    if AreCopies(writes, samples, pending, promote) {
      SafeWhileCopying(parse, b, writes, samples, pending, promote);
    } else {
      var n :| 0 <= n < |writes| && Finishes(b, writes, n, samples, pending, promote, item);
      SafeOnceFinished(parse, b, writes, n, samples, pending, existing, promote, item);
    }
  }

  lemma SafeOnceFinished(parse: Parser, b: Contents, writes: seq<S3Write>, n: nat, samples: string, pending: string,
                         existing: seq<FileMeta>, promote: seq<FileMeta>, item: Object)
    requires Safe(parse, b, samples) && Apart(samples, pending)
    requires UniquePaths(promote) && UniquePaths(existing)
    requires existing == [] || existing == Declared(parse, b, samples)
    requires DeclaresWithin(parse, item, Paths(Merged(existing, promote)))
    requires n < |writes| && Finishes(b, writes, n, samples, pending, promote, item)
    ensures Safe(parse, Play(b, writes), samples)
  {
    var copies, deletes := writes[..n], writes[n + 1..];
    assert copies + [Put(MetaKey(samples), item)] + deletes == writes;
    MergedIsThere(parse, b, copies, samples, pending, existing, promote);
    SafeAfterPut(parse, b, copies, deletes, samples, pending, item, Paths(Merged(existing, promote)));
  }

  lemma SafeAfterPut(parse: Parser, b: Contents, copies: seq<S3Write>, deletes: seq<S3Write>, samples: string,
                     pending: string, item: Object, paths: set<string>)
    requires Apart(samples, pending) && DeclaresWithin(parse, item, paths) && AreDeletesBelow(deletes, pending)
    requires forall path :: path in paths ==> samples + path in Play(b, copies)
    ensures Safe(parse, Play(b, copies + [Put(MetaKey(samples), item)] + deletes), samples)
  {
    var put := Put(MetaKey(samples), item);
    PutIsSafe(parse, Play(b, copies), samples, item, paths);
    PlayLast(b, copies, put);
    DeletesElsewhere(parse, Play(b, copies + [put]), deletes, samples, pending);
    PlayAppend(b, copies + [put], deletes);
  }

  lemma MergedIsThere(parse: Parser, b: Contents, copies: seq<S3Write>, samples: string, pending: string,
                      existing: seq<FileMeta>, promote: seq<FileMeta>)
    requires Safe(parse, b, samples) && Apart(samples, pending)
    requires UniquePaths(promote) && UniquePaths(existing)
    requires existing == [] || existing == Declared(parse, b, samples)
    requires AreCopies(copies, samples, pending, promote) && AllCopied(b, copies, samples, pending, promote)
    ensures forall path :: path in Paths(Merged(existing, promote)) ==> samples + path in Play(b, copies)
  {
    MergeOverrides(existing, promote);
    forall path | path in Paths(Merged(existing, promote)) ensures samples + path in Play(b, copies) {
      if path in Paths(promote) {
        var f :| f in promote && f.path == path;
        CopiedFileHolds(b, copies, samples, pending, promote, f);
      } else {
        var f :| f in existing && f.path == path;
        CopiesOnlyAdd(b, copies, samples, pending, promote, samples + path);
      }
    }
  }

  // ---- The handlers ----

  lemma OneMoreCopy(b: Contents, writes: seq<S3Write>, samples: string, pending: string, promote: seq<FileMeta>,
                    f: FileMeta)
    requires Apart(samples, pending) && AreCopies(writes, samples, pending, promote) && f in promote
    ensures AreCopies(writes + [CopyOf(samples, pending, f)], samples, pending, promote)
    ensures Play(b, writes + [CopyOf(samples, pending, f)]) == Perform(Play(b, writes), CopyOf(samples, pending, f))
    ensures pending + f.path in Play(b, writes) <==> pending + f.path in b
  {
    var w := CopyOf(samples, pending, f);
    assert IsCopy(w, samples, pending, promote);
    assert (writes + [w])[..|writes|] == writes;
    CopiesOnlyAdd(b, writes, samples, pending, promote, pending + f.path);
  }

  ghost predicate CopiedBut(b: Contents, writes: seq<S3Write>, samples: string, pending: string, promote: seq<FileMeta>,
                            remaining: set<FileMeta>)
  {
    forall f :: f in promote && f !in remaining ==> pending + f.path in b && CopyOf(samples, pending, f) in writes
  }

  /** Some promoted file has no object, or S3 cannot be reached for its copy. */
  ghost predicate CopyFails(b: Contents, samples: string, pending: string, promote: seq<FileMeta>,
                            reachable: S3Write -> bool)
  {
    exists f :: f in promote && !Succeeds(b, CopyOf(samples, pending, f), reachable)
  }

  /** S3 cannot be reached for the deletion of some key below the prefix. */
  ghost predicate WipeFails(b: Contents, prefix: string, reachable: S3Write -> bool) {
    exists key :: key in b && prefix <= key && !reachable(Delete(key))
  }

  /** The parallel copies: any file may be the next one to end; the first failure ends them all. */
  method CopyAll(store: ObjectStore, samples: string, pending: string, promote: seq<FileMeta>,
                 reachable: S3Write -> bool)
    returns (ok: bool, ghost writes: seq<S3Write>)
    requires Apart(samples, pending)
    modifies store
    ensures AreCopies(writes, samples, pending, promote) && store.objects == Play(old(store.objects), writes)
    ensures ok ==> AllCopied(old(store.objects), writes, samples, pending, promote)
    ensures !ok ==> CopyFails(old(store.objects), samples, pending, promote, reachable)
  {
    ghost var b := store.objects;
    var remaining := set f | f in promote;
    writes := [];
    while remaining != {}
      invariant forall f :: f in remaining ==> f in promote
      invariant AreCopies(writes, samples, pending, promote)
      invariant store.objects == Play(b, writes)
      invariant CopiedBut(b, writes, samples, pending, promote, remaining)
    {
      var f :| f in remaining;
      var w := CopyOf(samples, pending, f);
      OneMoreCopy(b, writes, samples, pending, promote, f);
      var copied := store.Request(w, reachable(w));
      if !copied {
        return false, writes;
      }
      writes := writes + [w];
      remaining := remaining - {f};
    }
    return true, writes;
  }

  /** The deletes made so far took exactly the keys below the prefix that are no longer waiting, each once. */
  ghost predicate DeletedBut(b: Contents, writes: seq<S3Write>, prefix: string, keys: set<string>) {
    && AreDeletesBelow(writes, prefix) && DeletesOnce(writes)
    && (forall i :: 0 <= i < |writes| ==> writes[i].key !in keys)
    && (forall key :: key in b && prefix <= key && key !in keys ==> Delete(key) in writes)
  }

  /** What is left of the bucket while keys below the prefix wait for their deletion. */
  ghost predicate LeftOf(b: Contents, now: Contents, prefix: string, keys: set<string>) {
    && (forall key :: key in now ==> key in b && now[key] == b[key])
    && (forall key :: key in b && !(prefix <= key) ==> key in now)
    && (forall key :: key in b && prefix <= key ==> (key in now <==> key in keys))
  }

  lemma OneMoreDelete(b: Contents, writes: seq<S3Write>, prefix: string, keys: set<string>, key: string)
    requires DeletedBut(b, writes, prefix, keys) && key in keys && prefix <= key
    ensures DeletedBut(b, writes + [Delete(key)], prefix, keys - {key})
  {
    var all := writes + [Delete(key)];
    assert all[|writes|] == Delete(key) && forall i :: 0 <= i < |writes| ==> all[i] == writes[i];
    forall k | k in b && prefix <= k && k !in keys - {key} ensures Delete(k) in all {
      if k != key {
        assert Delete(k) in writes;
      }
    }
  }

  lemma OneKeyLess(b: Contents, writes: seq<S3Write>, prefix: string, keys: set<string>, key: string)
    requires LeftOf(b, Play(b, writes), prefix, keys) && prefix <= key
    ensures Play(b, writes + [Delete(key)]) == Play(b, writes) - {key}
    ensures LeftOf(b, Play(b, writes) - {key}, prefix, keys - {key})
  {
    PlayLast(b, writes, Delete(key));
  }

  /** The keys below a prefix that S3 refuses to delete. */
  function Kept(b: Contents, prefix: string, refused: string -> bool): set<string> {
    set key | key in b && prefix <= key && refused(key)
  }

  predicate OnlyRefused(b: Contents, prefix: string, refused: string -> bool) {
    forall key :: key in b && prefix <= key ==> refused(key)
  }

  /** Deletes below a prefix; of its keys exactly the refused ones are left when they are `complete`. */
  ghost predicate Clears(b: Contents, base: Contents, prefix: string, refused: string -> bool, complete: bool) {
    && (forall key :: key in base ==> key in b && base[key] == b[key])
    && (forall key :: key in b && !(prefix <= key) ==> key in base)
    && (complete ==> forall key :: key in b && prefix <= key ==> (key in base <==> refused(key)))
  }

  /** A wipe under way: `keys` wait for their deletion, what S3 refuses stays. */
  ghost predicate Wiping(b: Contents, writes: seq<S3Write>, prefix: string, refused: string -> bool,
                         keys: set<string>)
  {
    && (forall key :: key in keys ==> prefix <= key && !refused(key))
    && LeftOf(b, Play(b, writes), prefix, keys + Kept(b, prefix, refused))
    && DeletedBut(b, writes, prefix, keys + Kept(b, prefix, refused))
  }

  lemma WipeStep(b: Contents, writes: seq<S3Write>, prefix: string, refused: string -> bool, keys: set<string>,
                 key: string)
    requires Wiping(b, writes, prefix, refused, keys) && key in keys
    ensures Play(b, writes + [Delete(key)]) == Perform(Play(b, writes), Delete(key))
    ensures Wiping(b, writes + [Delete(key)], prefix, refused, keys - {key})
  {
    var kept := Kept(b, prefix, refused);
    OneMoreDelete(b, writes, prefix, keys + kept, key);
    OneKeyLess(b, writes, prefix, keys + kept, key);
    assert keys + kept - {key} == keys - {key} + kept;
  }

  lemma WipeEnds(b: Contents, writes: seq<S3Write>, prefix: string, refused: string -> bool, keys: set<string>)
    requires Wiping(b, writes, prefix, refused, keys)
    ensures AreDeletesBelow(writes, prefix) && DeletesOnce(writes)
    ensures Clears(b, Play(b, writes), prefix, refused, keys == {})
    ensures keys == {} ==> OnlyRefused(Play(b, writes), prefix, refused)
    ensures keys == {} ==> DeletedBut(b, writes, prefix, Kept(b, prefix, refused))
  {
    assert {} + Kept(b, prefix, refused) == Kept(b, prefix, refused);
  }

  /**
   * `delete_prefix`: what the listing showed, in any order. A batch whose request succeeds may still name keys
   * that S3 `refused` to delete; nobody looks at them, so success leaves exactly those.
   */
  method DeletePrefix(store: ObjectStore, prefix: string, reachable: S3Write -> bool, refused: string -> bool)
    returns (ok: bool, ghost writes: seq<S3Write>)
    modifies store
    ensures AreDeletesBelow(writes, prefix) && DeletesOnce(writes) && store.objects == Play(old(store.objects), writes)
    ensures ok ==> OnlyRefused(store.objects, prefix, refused)
    ensures ok ==> DeletedBut(old(store.objects), writes, prefix, Kept(old(store.objects), prefix, refused))
    ensures Clears(old(store.objects), store.objects, prefix, refused, ok)
    ensures !ok ==> WipeFails(old(store.objects), prefix, reachable)
  {
    ghost var b := store.objects;
    var keys := set key | key in store.objects && prefix <= key && !refused(key);
    writes := [];
    while keys != {}
      invariant store.objects == Play(b, writes) && Wiping(b, writes, prefix, refused, keys)
      invariant forall key :: key in keys ==> key in b && prefix <= key
    {
      var key :| key in keys;
      ok := store.Request(Delete(key), reachable(Delete(key)));
      if !ok {
        WipeEnds(b, writes, prefix, refused, keys);
        return false, writes;
      }
      WipeStep(b, writes, prefix, refused, keys, key);
      writes, keys := writes + [Delete(key)], keys - {key};
    }
    WipeEnds(b, writes, prefix, refused, keys);
    return true, writes;
  }

  datatype Mode = Refuse | Merge | Replace

  datatype ApproveError = NotFound | BadMeta | NothingSelected | Conflict | MergeImpossible | Interrupted

  /** An empty selection stands for every file. */
  function Promoted(files: seq<FileMeta>, selection: set<string>): seq<FileMeta> {
    Sequences.Filter((f: FileMeta) => selection == {} || f.path in selection, files)
  }

  /** The record the approval writes: the initial one only when no row says the set exists. */
  function ApprovedInfo(info: SetMeta, uploadedAt: string, row: Option<SetMeta>, now: string, who: string): SetMeta {
    info.(uploadedAt := if info.uploadedAt.None? then Some(uploadedAt) else info.uploadedAt,
          approvedAt := Some(now),
          approvedBy := Some(who),
          approvedInitialAt := if row.Some? then row.value.approvedInitialAt else Some(now),
          approvedInitialBy := if row.Some? then row.value.approvedInitialBy else Some(who))
  }

  lemma MetaIsElsewhere(samples: string, pending: string)
    requires Apart(samples, pending)
    ensures !(pending <= MetaKey(samples))
  {
    var key := MetaKey(samples);
    var rest := if pending <= key then key[|pending|..] else "";
    assert samples + META_FILE != pending + rest;
    assert pending <= key ==> key == pending + rest;
  }

  /**
   * What a completed approval leaves: every promoted path holds the upload's object, the set's meta is the new
   * one, of the upload only what S3 refused to delete is left, and all other objects are as they were.
   */
  ghost predicate Approved(b: Contents, b': Contents, samples: string, pending: string, promote: seq<FileMeta>,
                           item: Object, refused: string -> bool)
  {
    && MetaKey(samples) in b' && b'[MetaKey(samples)] == item
    && (forall f :: f in promote && samples + f.path != MetaKey(samples) ==>
          pending + f.path in b && samples + f.path in b' && b'[samples + f.path] == b[pending + f.path])
    && (forall key :: key in b && pending <= key ==> (key in b' <==> refused(key)))
    && (forall key :: !(pending <= key) && key != MetaKey(samples) && IsNoPromoted(samples, promote, key) ==>
          (key in b' <==> key in b) && (key in b ==> b'[key] == b[key]))
  }

  predicate IsNoPromoted(samples: string, promote: seq<FileMeta>, key: string) {
    forall f :: f in promote ==> key != samples + f.path
  }

  /** Why an approval past its checks may not complete. */
  ghost predicate PromoteFails(b: Contents, samples: string, pending: string, promote: seq<FileMeta>, item: Object,
                               reachable: S3Write -> bool)
  {
    || CopyFails(b, samples, pending, promote, reachable)
    || !reachable(Put(MetaKey(samples), item))
    || WipeFails(b, pending, reachable)
  }

  lemma PendingIsElsewhere(samples: string, pending: string, key: string)
    requires Apart(samples, pending) && samples <= key
    ensures !(pending <= key)
  {
    assert key == samples + key[|samples|..];
    var rest := if pending <= key then key[|pending|..] else "";
    assert samples + key[|samples|..] != pending + rest;
    assert pending <= key ==> key == pending + rest;
  }

  /** Copies and the meta leave the upload as it was. */
  lemma UploadStays(b: Contents, copies: seq<S3Write>, samples: string, pending: string, promote: seq<FileMeta>,
                    item: Object, key: string)
    requires Apart(samples, pending) && AreCopies(copies, samples, pending, promote) && pending <= key
    ensures var written := Play(b, copies)[MetaKey(samples) := item];
            (key in written <==> key in b) && (key in b ==> written[key] == b[key])
  {
    if samples <= key {
      PendingIsElsewhere(samples, pending, key);
    }
    forall f | f in promote ensures key != samples + f.path {
      assert samples <= samples + f.path;
    }
    assert samples <= MetaKey(samples);
    CopiesOnlyAdd(b, copies, samples, pending, promote, key);
  }

  lemma ApprovedAfter(b: Contents, copies: seq<S3Write>, samples: string, pending: string, promote: seq<FileMeta>,
                      item: Object, b': Contents, refused: string -> bool)
    requires Apart(samples, pending) && AreCopies(copies, samples, pending, promote)
    requires AllCopied(b, copies, samples, pending, promote)
    requires Clears(Play(b, copies)[MetaKey(samples) := item], b', pending, refused, true)
    ensures Approved(b, b', samples, pending, promote, item, refused)
  {
    var written := Play(b, copies)[MetaKey(samples) := item];
    MetaIsElsewhere(samples, pending);
    forall f | f in promote && samples + f.path != MetaKey(samples)
      ensures pending + f.path in b && samples + f.path in b' && b'[samples + f.path] == b[pending + f.path]
    {
      CopiedFileHolds(b, copies, samples, pending, promote, f);
      PendingIsElsewhere(samples, pending, samples + f.path);
    }
    forall key | key in b && pending <= key ensures key in b' <==> refused(key) {
      UploadStays(b, copies, samples, pending, promote, item, key);
    }
    forall key | !(pending <= key) && key != MetaKey(samples) && IsNoPromoted(samples, promote, key)
      ensures (key in b' <==> key in b) && (key in b ==> b'[key] == b[key])
    {
      CopiesOnlyAdd(b, copies, samples, pending, promote, key);
    }
  }

  lemma WipeFailsBefore(b: Contents, copies: seq<S3Write>, samples: string, pending: string, promote: seq<FileMeta>,
                        item: Object, reachable: S3Write -> bool)
    requires Apart(samples, pending) && AreCopies(copies, samples, pending, promote)
    requires WipeFails(Play(b, copies)[MetaKey(samples) := item], pending, reachable)
    ensures WipeFails(b, pending, reachable)
  {
    var written := Play(b, copies)[MetaKey(samples) := item];
    var key :| key in written && pending <= key && !reachable(Delete(key));
    UploadStays(b, copies, samples, pending, promote, item, key);
  }

  /** Copies, meta, wipe: the part of an approval that writes. */
  method Promote(store: ObjectStore, samples: string, pending: string, promote: seq<FileMeta>, meta: RawdbMeta,
                 etag: string, modified: string, reachable: S3Write -> bool, refused: string -> bool)
    returns (ok: bool, ghost writes: seq<S3Write>)
    requires Apart(samples, pending)
    modifies store
    ensures store.objects == Play(old(store.objects), writes)
    ensures ApprovalWrites(old(store.objects), writes, samples, pending, promote, MetaObject(meta, etag, modified))
    ensures ok ==> Approved(old(store.objects), store.objects, samples, pending, promote,
                            MetaObject(meta, etag, modified), refused)
    ensures !ok ==> PromoteFails(old(store.objects), samples, pending, promote, MetaObject(meta, etag, modified),
                                 reachable)
  {
    ghost var b := store.objects;
    ghost var copies;
    ok, copies := CopyAll(store, samples, pending, promote, reachable);
    if !ok {
      return false, copies;
    }
    var text := Meta.Print(meta);
    var put := Put(MetaKey(samples), Object(text, |text|, Some(etag), modified));
    ok := store.Request(put, reachable(put));
    if !ok {
      return false, copies;
    }
    ghost var written := store.objects;
    ghost var deletes;
    ok, deletes := DeletePrefix(store, pending, reachable, refused);
    writes := copies + [put] + deletes;
    if ok {
      ApprovedAfter(b, copies, samples, pending, promote, put.item, store.objects, refused);
    } else {
      WipeFailsBefore(b, copies, samples, pending, promote, put.item, reachable);
    }
    assert (copies + [put])[..|copies|] == copies;
    PlayAppend(b, copies + [put], deletes);
    assert writes[..|copies|] == copies && writes[|copies| + 1..] == deletes && writes[|copies|] == put;
    assert Finishes(b, writes, |copies|, samples, pending, promote, put.item);
  }

  /** What the reads and checks of an approval settle before anything is written. */
  datatype Approval = Approval(key: SetKey, existing: seq<FileMeta>, promote: seq<FileMeta>, meta: RawdbMeta,
                               clears: bool)

  function Plan(parse: Parser, b: Contents, id: string, mode: Mode, selection: set<string>,
                cached: SetKey -> Option<SetMeta>, now: string, who: string): Result<Approval, ApproveError>
  {
    var pendingKey := MetaKey(PrefixOf(Pending(id)));
    if pendingKey !in b then Err(NotFound)
    else if parse(b[pendingKey].text).None? then Err(BadMeta)
    else
      var upload := parse(b[pendingKey].text).value;
      var promote := Promoted(upload.files, selection);
      var row := cached(upload.Key());
      var setKey := MetaKey(PrefixOf(Sample(upload.Key())));
      if promote == [] then Err(NothingSelected)
      else if row.Some? && mode.Refuse? then Err(Conflict)
      else if row.Some? && mode.Merge? && (setKey !in b || parse(b[setKey].text).None?) then Err(MergeImpossible)
      else
        var existing := if row.Some? && mode.Merge? then parse(b[setKey].text).value.files else [];
        var info := ApprovedInfo(upload.info, b[pendingKey].modified, row, now, who);
        Ok(Approval(upload.Key(), existing, promote, RawdbMeta(info, Merged(existing, promote)), row.Some? &&
            mode.Replace?))
  }

  /**
   * `approve_pending`. Refused, it leaves the bucket alone. Otherwise `base` is the bucket its writes start
   * from: the old one, or, when replacing, the old one with the set's own prefix being deleted.
   */
  method ApprovePending(store: ObjectStore, parse: Parser, id: string, mode: Mode, selection: set<string>,
                        cached: SetKey -> Option<SetMeta>, now: string, who: string, etag: string,
                        reachable: S3Write -> bool, refused: string -> bool)
    returns (r: Result<SetKey, ApproveError>, ghost base: Contents, ghost writes: seq<S3Write>)
    modifies store
    ensures var plan := Plan(parse, old(store.objects), id, mode, selection, cached, now, who);
            match plan
            case Err(e) => r == Err(e) && store.objects == old(store.objects)
            case Ok(a) =>
              var item := MetaObject(a.meta, etag, now);
              && Carries(a, id, old(store.objects), base, writes, item, refused)
              && store.objects == Play(base, writes)
              && if r == Ok(a.key) then Completes(a, id, old(store.objects), base, store.objects, item, refused)
                 else r == Err(Interrupted) && ApprovalFails(a, id, old(store.objects), item, reachable)
  {
    base, writes := store.objects, [];
    var plan := Plan(parse, store.objects, id, mode, selection, cached, now, who);
    if plan.Err? {
      return Err(plan.error), base, writes;
    }
    var a := plan.value;
    var samples, pending := PrefixOf(Sample(a.key)), PrefixOf(Pending(id));
    PlacesAreApart(a.key, id);
    ghost var b, item := store.objects, MetaObject(a.meta, etag, now);
    if a.clears {
      var cleared, _ := DeletePrefix(store, samples, reachable, refused);
      base := store.objects;
      if !cleared {
        return Err(Interrupted), base, writes;
      }
    }
    var ok;
    ok, writes := Promote(store, samples, pending, a.promote, a.meta, etag, now, reachable, refused);
    UploadIsCleared(a, id, b, base, item, refused, reachable);
    return if ok then Ok(a.key) else Err(Interrupted), base, writes;
  }

  /** A completed approval, seen from the bucket before it: a replacing one has cleared the set first. */
  ghost predicate Completes(a: Approval, id: string, b: Contents, base: Contents, b': Contents, item: Object,
                            refused: string -> bool)
  {
    var samples, pending := PrefixOf(Sample(a.key)), PrefixOf(Pending(id));
    && (if a.clears then Clears(b, base, samples, refused, true) else base == b)
    && Approved(base, b', samples, pending, a.promote, item, refused)
    && forall key :: pending <= key ==> (key in base <==> key in b) && (key in b ==> base[key] == b[key])
  }

  /** Why an approval past its checks answers that it was interrupted. */
  ghost predicate ApprovalFails(a: Approval, id: string, b: Contents, item: Object, reachable: S3Write -> bool) {
    || (a.clears && WipeFails(b, PrefixOf(Sample(a.key)), reachable))
    || PromoteFails(b, PrefixOf(Sample(a.key)), PrefixOf(Pending(id)), a.promote, item, reachable)
  }

  /** With S3 reachable throughout and every promoted file there, an approval past its checks completes. */
  lemma ReachableApprovalCompletes(a: Approval, id: string, b: Contents, item: Object, reachable: S3Write -> bool)
    requires forall w :: reachable(w)
    requires forall f :: f in a.promote ==> PrefixOf(Pending(id)) + f.path in b
    ensures !ApprovalFails(a, id, b, item, reachable)
  {
  }

  /** Clearing the set does not touch the upload, so what fails afterwards would have failed before. */
  lemma UploadIsCleared(a: Approval, id: string, b: Contents, base: Contents, item: Object, refused: string -> bool,
                        reachable: S3Write -> bool)
    requires if a.clears then Clears(b, base, PrefixOf(Sample(a.key)), refused, true) else base == b
    ensures var samples, pending := PrefixOf(Sample(a.key)), PrefixOf(Pending(id));
            && (forall key :: pending <= key ==> (key in base <==> key in b) && (key in b ==> base[key] == b[key]))
            && (PromoteFails(base, samples, pending, a.promote, item, reachable) ==>
                  PromoteFails(b, samples, pending, a.promote, item, reachable))
  {
    var samples, pending := PrefixOf(Sample(a.key)), PrefixOf(Pending(id));
    PlacesAreApart(a.key, id);
    forall key | pending <= key ensures (key in base <==> key in b) && (key in b ==> base[key] == b[key]) {
      if samples <= key {
        PendingIsElsewhere(samples, pending, key);
      }
    }
    if CopyFails(base, samples, pending, a.promote, reachable) {
      var f :| f in a.promote && !Succeeds(base, CopyOf(samples, pending, f), reachable);
      assert pending <= pending + f.path;
      assert !Succeeds(b, CopyOf(samples, pending, f), reachable);
    }
  }

  ghost predicate Carries(a: Approval, id: string, b: Contents, base: Contents, writes: seq<S3Write>, item: Object,
                          refused: string -> bool)
  {
    && (if a.clears then Clears(b, base, PrefixOf(Sample(a.key)), refused, writes != []) else base == b)
    && ApprovalWrites(base, writes, PrefixOf(Sample(a.key)), PrefixOf(Pending(id)), a.promote, item)
  }

  lemma PromotedAre(files: seq<FileMeta>, selection: set<string>)
    requires UniquePaths(files) && FolderPaths(files)
    ensures UniquePaths(Promoted(files, selection)) && FolderPaths(Promoted(files, selection))
    ensures forall f :: f in Promoted(files, selection) <==> (f in files && (selection == {} || f.path in selection))
  {
    var keep := (f: FileMeta) => selection == {} || f.path in selection;
    FilterKeepsUnique(keep, files);
    Sequences.FilterMembers(keep, files);
    forall f ensures f in Promoted(files, selection) <==> (f in files && keep(f)) {
      if f in files && keep(f) {
        var i :| 0 <= i < |files| && files[i] == f;
        assert files[i] in Promoted(files, selection);
      }
      if f in Promoted(files, selection) {
        var i :| 0 <= i < |Promoted(files, selection)| && Promoted(files, selection)[i] == f;
      }
    }
  }

  /** Whatever an approval that does not replace has written when it stops, the approved catalogue is safe. */
  lemma ApprovePendingIsSafe(parse: Parser, b: Contents, id: string, mode: Mode, selection: set<string>,
                             cached: SetKey -> Option<SetMeta>, now: string, who: string, a: Approval,
                             writes: seq<S3Write>, item: Object, refused: string -> bool)
    requires Reads(parse) && !mode.Replace? && Plan(parse, b, id, mode, selection, cached, now, who) == Ok(a)
    requires Safe(parse, b, PrefixOf(Sample(a.key)))
    requires Carries(a, id, b, b, writes, item, refused) && item.text == Meta.ToToml(a.meta)
    ensures Safe(parse, Play(b, writes), PrefixOf(Sample(a.key)))
  {
    var samples, pending := PrefixOf(Sample(a.key)), PrefixOf(Pending(id));
    PlanIsSound(parse, b, id, mode, selection, cached, now, who, a);
    PlacesAreApart(a.key, id);
    PutDeclares(parse, a.meta, item);
    ApprovalIsSafeThroughout(parse, b, writes, samples, pending, a.existing, a.promote, item);
  }

  predicate Selected(f: FileMeta, selection: set<string>) {
    selection == {} || f.path in selection
  }

  /** An approval is refused for the first of its reasons, and each answer means its reason. */
  lemma PlanAnswers(parse: Parser, b: Contents, id: string, mode: Mode, selection: set<string>,
                    cached: SetKey -> Option<SetMeta>, now: string, who: string)
    ensures var key := MetaKey(PrefixOf(Pending(id)));
            var plan := Plan(parse, b, id, mode, selection, cached, now, who);
            if key !in b then plan == Err(NotFound)
            else if parse(b[key].text).None? then plan == Err(BadMeta)
            else
              var upload := parse(b[key].text).value;
              var setMeta := MetaKey(PrefixOf(Sample(upload.Key())));
              if forall f :: f in upload.files ==> !Selected(f, selection) then plan == Err(NothingSelected)
              else if cached(upload.Key()).Some? && mode.Refuse? then plan == Err(Conflict)
              else if cached(upload.Key()).Some? && mode.Merge? && (setMeta !in b || parse(b[setMeta].text).None?)
              then plan == Err(MergeImpossible)
              else plan.Ok? && plan.value.key == upload.Key()
  {
    var key := MetaKey(PrefixOf(Pending(id)));
    if key in b && parse(b[key].text).Some? {
      SelectsNone(parse(b[key].text).value.files, selection);
    }
  }

  lemma SelectsNone(files: seq<FileMeta>, selection: set<string>)
    ensures Promoted(files, selection) == [] <==> forall f :: f in files ==> !Selected(f, selection)
  {
    var keep, promoted := (f: FileMeta) => selection == {} || f.path in selection, Promoted(files, selection);
    forall f ensures f in promoted <==> f in files && Selected(f, selection) {
      Sequences.FilterIn(keep, files, f);
    }
    if promoted != [] {
      assert promoted[0] in promoted;
    }
  }

  /** The record of an approval: the upload's fields, this approval's time and approver, the initial ones. */
  predicate ApprovedFrom(upload: SetMeta, row: Option<SetMeta>, modified: string, now: string, who: string,
                         info: SetMeta)
  {
    && info.maker == upload.maker && info.model == upload.model && info.license == upload.license
    && info.uploadedBy == upload.uploadedBy && info.notes == upload.notes && info.special == upload.special
    && info.uploadedAt == (if upload.uploadedAt.Some? then upload.uploadedAt else Some(modified))
    && info.approvedAt == Some(now) && info.approvedBy == Some(who)
    && (row.None? ==> info.approvedInitialAt == Some(now) && info.approvedInitialBy == Some(who))
    && (row.Some? ==> info.approvedInitialAt == row.value.approvedInitialAt &&
                      info.approvedInitialBy == row.value.approvedInitialBy)
  }

  /** What an approval is going to write: selected files of the upload over the set's own, under valid paths. */
  lemma PlanIsSound(parse: Parser, b: Contents, id: string, mode: Mode, selection: set<string>,
                    cached: SetKey -> Option<SetMeta>, now: string, who: string, a: Approval)
    requires Reads(parse) && Plan(parse, b, id, mode, selection, cached, now, who) == Ok(a)
    ensures FolderPaths(a.promote) && UniquePaths(a.promote) && UniquePaths(a.existing)
    ensures a.existing == if cached(a.key).Some? && mode.Merge? then Declared(parse, b, PrefixOf(Sample(a.key))) else []
    ensures forall f :: f in a.promote <==>
              (f in Declared(parse, b, PrefixOf(Pending(id))) && (selection == {} || f.path in selection))
    ensures a.meta.files == Merged(a.existing, a.promote)
    ensures cached(a.key).Some? ==> !mode.Refuse? && (a.clears <==> mode.Replace?)
    ensures a.promote != []
    ensures var upload := b[MetaKey(PrefixOf(Pending(id)))];
            ApprovedFrom(parse(upload.text).value.info, cached(a.key), upload.modified, now, who, a.meta.info)
  {
    var upload := parse(b[MetaKey(PrefixOf(Pending(id)))].text).value;
    assert Meta.Valid(upload);
    PromotedAre(upload.files, selection);
  }

  /**
   * A replacing approval starts from a safe bucket again once its wipe succeeded, unless S3 refused to delete
   * the old meta and did delete a file that it declares.
   */
  lemma ReplacingIsSafeOnceCleared(parse: Parser, b: Contents, base: Contents, samples: string, refused: string -> bool)
    requires Safe(parse, b, samples) && Clears(b, base, samples, refused, true)
    ensures Safe(parse, base, samples) <==>
            (refused(MetaKey(samples)) ==>
               forall f :: f in Declared(parse, b, samples) ==> refused(samples + f.path))
    ensures !refused(MetaKey(samples)) ==> Declared(parse, base, samples) == []
  {
    var key := MetaKey(samples);
    assert samples <= key;
    if key in b && refused(key) {
      assert Declared(parse, base, samples) == Declared(parse, b, samples);
      forall f | f in Declared(parse, b, samples)
        ensures samples + f.path in base <==> refused(samples + f.path)
      {
        assert samples <= samples + f.path;
      }
    }
  }

  /**
   * An approval that finds no row takes an existing set for a new one, even when told to merge or to refuse: its
   * meta keeps every file the old one declares if and only if it merges and the row is there, or the upload
   * replaces them all.
   */
  lemma MergeKeepsFilesIffRowIsThere(parse: Parser, b: Contents, id: string, mode: Mode, selection: set<string>,
                                     cached: SetKey -> Option<SetMeta>, now: string, who: string, a: Approval)
    requires Reads(parse) && Plan(parse, b, id, mode, selection, cached, now, who) == Ok(a)
    ensures var declared := Paths(Declared(parse, b, PrefixOf(Sample(a.key))));
            declared <= Paths(a.meta.files) <==>
            (mode.Merge? && cached(a.key).Some?) || declared <= Paths(a.promote)
  {
    PlanIsSound(parse, b, id, mode, selection, cached, now, who, a);
    MergeOverrides(a.existing, a.promote);
  }

  // ---- delete_set_file ----

  datatype DeleteError = NoSuchFile | BadPath | Unreadable | LastFile | Stopped

  function Without(files: seq<FileMeta>, path: string): seq<FileMeta> {
    Sequences.Filter((f: FileMeta) => f.path != path, files)
  }

  /** The meta without the file, or why there is none. */
  function PlanDelete(parse: Parser, b: Contents, samples: string, path: string, cached: bool): Result<RawdbMeta,
                      DeleteError> {
    if HasDots(path) then Err(BadPath)
    else if !cached || MetaKey(samples) !in b then Err(NoSuchFile)
    else if parse(b[MetaKey(samples)].text).None? then Err(Unreadable)
    else
      var meta := parse(b[MetaKey(samples)].text).value;
      var left := Without(meta.files, path);
      if |left| == |meta.files| then Err(NoSuchFile)
      else if left == [] then Err(LastFile)
      else Ok(meta.(files := left))
  }

  /** Each answer means its reason, and the new meta is the old one without the file. */
  lemma PlanDeleteAnswers(parse: Parser, b: Contents, samples: string, path: string, cached: bool)
    ensures var plan := PlanDelete(parse, b, samples, path, cached);
            var key := MetaKey(samples);
            if HasDots(path) then plan == Err(BadPath)
            else if !cached || key !in b then plan == Err(NoSuchFile)
            else if parse(b[key].text).None? then plan == Err(Unreadable)
            else
              var meta := parse(b[key].text).value;
              if path !in Paths(meta.files) then plan == Err(NoSuchFile)
              else if forall f :: f in meta.files ==> f.path == path then plan == Err(LastFile)
              else
                plan.Ok? && plan.value.info == meta.info &&
                forall f :: f in plan.value.files <==> f in meta.files && f.path != path
  {
    var key := MetaKey(samples);
    if key in b && parse(b[key].text).Some? {
      WithoutMeans(parse(b[key].text).value.files, path);
    }
  }

  lemma WithoutMeans(files: seq<FileMeta>, path: string)
    ensures var left := Without(files, path);
            && (|left| == |files| <==> path !in Paths(files))
            && (left == [] <==> forall f :: f in files ==> f.path == path)
            && (forall f :: f in left <==> f in files && f.path != path)
  {
    var left := Without(files, path);
    forall f ensures f in left <==> f in files && f.path != path {
      Sequences.FilterIn((f: FileMeta) => f.path != path, files, f);
    }
    if left != [] {
      assert left[0] in left;
    }
    if path in Paths(files) {
      DropsOne(files, path);
    } else {
      KeepsAll(files, path);
    }
  }

  lemma {:induction false} DropsOne(files: seq<FileMeta>, path: string)
    ensures |Without(files, path)| <= |files|
    ensures path in Paths(files) ==> |Without(files, path)| < |files|
  {
    if files != [] {
      var init, last := files[..|files| - 1], files[|files| - 1];
      DropsOne(init, path);
      assert files == init + [last];
      if path in Paths(files) && last.path != path {
        var f :| f in files && f.path == path;
        assert f in init;
      }
    }
  }

  function DeleteFileWrites(samples: string, path: string, item: Object): seq<S3Write> {
    [Put(MetaKey(samples), item), Delete(samples + path)]
  }

  lemma DeleteFilePlays(b: Contents, samples: string, path: string, item: Object)
    ensures var writes := DeleteFileWrites(samples, path, item);
            && Play(b, writes[..0]) == b
            && Play(b, writes[..1]) == b[MetaKey(samples) := item]
            && Play(b, writes[..2]) == b[MetaKey(samples) := item] - {samples + path}
  {
    var writes := DeleteFileWrites(samples, path, item);
    assert writes[..1][..0] == writes[..0] && writes[..2][..1] == writes[..1];
  }

  /** Meta first, then the object. */
  method DeleteSetFile(store: ObjectStore, parse: Parser, samples: string, path: string, cached: bool,
                       etag: string, modified: string, reachable: S3Write -> bool)
    returns (r: Result<RawdbMeta, DeleteError>, ghost done: nat)
    modifies store
    ensures var plan := PlanDelete(parse, old(store.objects), samples, path, cached);
            match plan
            case Err(e) => r == Err(e) && store.objects == old(store.objects)
            case Ok(meta) =>
              var writes := DeleteFileWrites(samples, path, MetaObject(meta, etag, modified));
              && done <= 2 && store.objects == Play(old(store.objects), writes[..done])
              && if done == 2 then r == Ok(meta) else r == Err(Stopped) && !reachable(writes[done])
  {
    done := 0;
    var plan := PlanDelete(parse, store.objects, samples, path, cached);
    if plan.Err? {
      return plan, 0;
    }
    var text := Meta.Print(plan.value);
    var item := Object(text, |text|, Some(etag), modified);
    DeleteFilePlays(store.objects, samples, path, item);
    var ok := store.Request(Put(MetaKey(samples), item), reachable(Put(MetaKey(samples), item)));
    if !ok {
      return Err(Stopped), 0;
    }
    ok := store.Request(Delete(samples + path), reachable(Delete(samples + path)));
    return if ok then plan else Err(Stopped), if ok then 2 else 1;
  }

  lemma WithoutIs(files: seq<FileMeta>, path: string)
    requires UniquePaths(files)
    ensures Paths(Without(files, path)) == Paths(files) - {path}
    ensures UniquePaths(Without(files, path))
  {
    var keep := (f: FileMeta) => f.path != path;
    Sequences.FilterMembers(keep, files);
    FilterKeepsUnique(keep, files);
    var left := Without(files, path);
    forall p ensures p in Paths(left) <==> p in Paths(files) && p != path {
      if p in Paths(files) && p != path {
        var i :| 0 <= i < |files| && files[i].path == p;
        assert files[i] in left;
      }
      if p in Paths(left) {
        var i :| 0 <= i < |left| && left[i].path == p;
        assert left[i] in files && keep(left[i]);
      }
    }
  }

  /** Without the file the meta declares what it did, but for that path. */
  lemma PlanDeleteIs(parse: Parser, b: Contents, samples: string, path: string, meta: RawdbMeta)
    requires Reads(parse) && PlanDelete(parse, b, samples, path, true) == Ok(meta)
    ensures Paths(meta.files) == Paths(Declared(parse, b, samples)) - {path}
    ensures samples + path != MetaKey(samples)
  {
    var before := parse(b[MetaKey(samples)].text).value;
    assert Meta.Valid(before);
    WithoutIs(before.files, path);
    PathIsNotMeta(before.files, meta.files, samples, path);
  }

  lemma DeleteAfterPutIsSafe(parse: Parser, b: Contents, samples: string, path: string, item: Object,
                             paths: set<string>, done: nat)
    requires Safe(parse, b, samples) && done <= 2 && samples + path != MetaKey(samples)
    requires DeclaresWithin(parse, item, paths) && path !in paths && forall p :: p in paths ==> samples + p in b
    ensures Safe(parse, Play(b, DeleteFileWrites(samples, path, item)[..done]), samples)
    ensures done == 2 ==> samples + path !in Play(b, DeleteFileWrites(samples, path, item)[..done])
  {
    var put := b[MetaKey(samples) := item];
    PutIsSafe(parse, b, samples, item, paths);
    DeleteFilePlays(b, samples, path, item);
    UndeclaredPath(Declared(parse, put, samples), samples, path);
    DeleteIsSafeIffUndeclared(parse, put, samples, samples + path);
  }

  /** Deleting a file is safe at every crash point, and in the end its object is gone. */
  lemma DeleteFileIsSafeThroughout(parse: Parser, b: Contents, samples: string, path: string, meta: RawdbMeta,
                                   item: Object, done: nat)
    requires Reads(parse) && Safe(parse, b, samples) && done <= 2
    requires PlanDelete(parse, b, samples, path, true) == Ok(meta) && item.text == Meta.ToToml(meta)
    ensures Safe(parse, Play(b, DeleteFileWrites(samples, path, item)[..done]), samples)
    ensures done == 2 ==> samples + path !in Play(b, DeleteFileWrites(samples, path, item)[..done])
  {
    PlanDeleteIs(parse, b, samples, path, meta);
    PutDeclares(parse, meta, item);
    forall p | p in Paths(meta.files) ensures samples + p in b {
      var f :| f in Declared(parse, b, samples) && f.path == p;
    }
    DeleteAfterPutIsSafe(parse, b, samples, path, item, Paths(meta.files), done);
  }

  lemma PathIsNotMeta(files: seq<FileMeta>, left: seq<FileMeta>, samples: string, path: string)
    requires FolderPaths(files) && left == Without(files, path) && |left| != |files|
    ensures samples + path != MetaKey(samples)
  {
    if path !in Paths(files) {
      KeepsAll(files, path);
    } else {
      MetaIsNoFile(samples, files);
    }
  }

  lemma {:induction false} KeepsAll(files: seq<FileMeta>, path: string)
    requires path !in Paths(files)
    ensures Without(files, path) == files
  {
    if files != [] {
      var init := files[..|files| - 1];
      assert files == init + [files[|files| - 1]];
      assert files[|files| - 1] in files;
      KeepsAll(init, path);
    }
  }

  lemma UndeclaredPath(files: seq<FileMeta>, prefix: string, path: string)
    requires path !in Paths(files)
    ensures !Declares(files, prefix, prefix + path)
  {
    forall i | 0 <= i < |files| ensures prefix + files[i].path != prefix + path {
      SameRest(prefix, files[i].path, path);
      assert files[i] in files;
    }
  }

  // ---- Level with the meta ----

  /** The writes of a completed file deletion close: what comes after the meta is no file of its. */
  lemma DeleteFileCloses(parse: Parser, b: Contents, samples: string, path: string, meta: RawdbMeta, item: Object)
    requires Reads(parse)
    requires PlanDelete(parse, b, samples, path, true) == Ok(meta) && item.text == Meta.ToToml(meta)
    ensures Closes(parse, samples, DeleteFileWrites(samples, path, item))
  {
    PlanDeleteIs(parse, b, samples, path, meta);
    PutDeclares(parse, meta, item);
    PutThenDeleteCloses(parse, samples, path, item, Paths(meta.files));
  }

  lemma PutThenDeleteCloses(parse: Parser, samples: string, path: string, item: Object, paths: set<string>)
    requires DeclaresWithin(parse, item, paths) && path !in paths && samples + path != MetaKey(samples)
    ensures Closes(parse, samples, DeleteFileWrites(samples, path, item))
  {
    var writes := DeleteFileWrites(samples, path, item);
    UndeclaredPath(FilesOf(parse, writes[0]), samples, path);
    assert writes[0 + 1..] == [Delete(samples + path)];
    assert ClosesAt(parse, samples, writes, 0);
  }

  lemma {:induction false} OwnOfAll(writes: seq<S3Write>, prefix: string)
    requires forall i :: 0 <= i < |writes| ==> prefix <= Target(writes[i])
    ensures Own(writes, prefix) == writes
  {
    if writes != [] {
      OwnOfAll(writes[..|writes| - 1], prefix);
    }
  }

  lemma {:induction false} OwnSkips(writes: seq<S3Write>, others: seq<S3Write>, prefix: string)
    requires forall i :: 0 <= i < |others| ==> !(prefix <= Target(others[i]))
    ensures Own(writes + others, prefix) == Own(writes, prefix)
  {
    if others == [] {
      assert writes + others == writes;
    } else {
      var init := others[..|others| - 1];
      assert (writes + others)[..|writes + others| - 1] == writes + init;
      OwnSkips(writes, init, prefix);
    }
  }

  lemma DeletesAreElsewhere(writes: seq<S3Write>, samples: string, pending: string)
    requires Apart(samples, pending) && AreDeletesBelow(writes, pending)
    ensures forall i :: 0 <= i < |writes| ==> !(samples <= Target(writes[i]))
  {
    forall i | 0 <= i < |writes| ensures !(samples <= Target(writes[i])) {
      var key := writes[i].key;
      assert key == pending + key[|pending|..];
      var rest := if samples <= key then key[|samples|..] else "";
      assert samples + rest != pending + key[|pending|..];
      assert samples <= key ==> key == samples + rest;
    }
  }

  lemma CopiesAreOwn(copies: seq<S3Write>, samples: string, pending: string, promote: seq<FileMeta>, item: Object)
    requires AreCopies(copies, samples, pending, promote)
    ensures Own(copies + [Put(MetaKey(samples), item)], samples) == copies + [Put(MetaKey(samples), item)]
  {
    var head := copies + [Put(MetaKey(samples), item)];
    forall i | 0 <= i < |head| ensures samples <= Target(head[i]) {
      if i < |copies| {
        assert IsCopy(copies[i], samples, pending, promote);
      }
    }
    OwnOfAll(head, samples);
  }

  lemma EndsWithPutCloses(parse: Parser, samples: string, copies: seq<S3Write>, item: Object)
    ensures Closes(parse, samples, copies + [Put(MetaKey(samples), item)])
  {
    var head := copies + [Put(MetaKey(samples), item)];
    assert head[|copies| + 1..] == [];
    assert ClosesAt(parse, samples, head, |copies|);
  }

  /** So do a completed approval's writes to the set: its copies, then the meta. */
  lemma ApprovalCloses(parse: Parser, b: Contents, writes: seq<S3Write>, n: nat, samples: string, pending: string,
                       promote: seq<FileMeta>, item: Object)
    requires Apart(samples, pending) && n < |writes| && Finishes(b, writes, n, samples, pending, promote, item)
    ensures Own(writes, samples) == writes[..n + 1] && Closes(parse, samples, Own(writes, samples))
  {
    var copies, deletes := writes[..n], writes[n + 1..];
    assert writes[..n + 1] == copies + [Put(MetaKey(samples), item)];
    assert writes == writes[..n + 1] + deletes;
    CopiesAreOwn(copies, samples, pending, promote, item);
    DeletesAreElsewhere(deletes, samples, pending);
    OwnSkips(writes[..n + 1], deletes, samples);
    EndsWithPutCloses(parse, samples, copies, item);
  }

  /** And so does the wipe of a whole prefix, by whichever delete took the meta. */
  lemma WipeCloses(parse: Parser, prefix: string, writes: seq<S3Write>, n: nat)
    requires n < |writes| && writes[n] == Delete(MetaKey(prefix)) && DeletesOnce(writes)
    ensures Closes(parse, prefix, writes)
  {
    forall i | n + 1 <= i < |writes| ensures Target(writes[i]) != MetaKey(prefix) {
      assert writes[n].key != writes[i].key;
    }
    assert ClosesAt(parse, prefix, writes, n);
  }
}
