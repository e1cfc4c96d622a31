/** `pair_files`: each declared file with the size and ETag the listing saw, or all that are missing. */
module Pairing {
  import opened Wrappers
  import opened Catalogue
  import opened Bucket

  datatype Listed = Listed(file: FileMeta, size: nat, etag: Option<string>)

  /** The listing's entry for a path below `prefix`; the meta file itself is never a declared file. */
  ghost predicate Sees(objects: seq<Listing>, prefix: string, path: string) {
    path != META_FILE && Lists(objects, prefix + path)
  }

  /** `files` are the declared ones, in order, each as some listed object shows it. */
  ghost predicate Paired(declared: seq<FileMeta>, prefix: string, objects: seq<Listing>, files: seq<Listed>) {
    |files| == |declared| &&
    forall i :: 0 <= i < |files| ==>
      files[i].file == declared[i] && declared[i].path != META_FILE &&
      Listing(prefix + declared[i].path, files[i].size, files[i].etag) in objects
  }

  predicate DistinctListing(objects: seq<Listing>) {
    forall i, j :: 0 <= i < j < |objects| ==> objects[i].key != objects[j].key
  }

  /** What `by_rel` holds after a listing: the paths seen below `prefix`, and nothing else. */
  ghost predicate Mirrors(byRel: map<string, (nat, Option<string>)>, prefix: string, objects: seq<Listing>) {
    && (forall rel :: rel in byRel ==> rel != META_FILE && Listing(prefix + rel, byRel[rel].0, byRel[rel].1) in objects)
    && (forall o :: o in objects && prefix <= o.key && o.key[|prefix|..] != META_FILE ==> o.key[|prefix|..] in byRel)
  }

  method IndexListing(prefix: string, objects: seq<Listing>) returns (byRel: map<string, (nat, Option<string>)>)
    ensures Mirrors(byRel, prefix, objects)
  {
    byRel := map[];
    var i := 0;
    while i < |objects|
      invariant 0 <= i <= |objects|
      invariant Mirrors(byRel, prefix, objects[..i])
    {
      var o := objects[i];
      assert objects[..i + 1] == objects[..i] + [o];
      if prefix <= o.key {
        var rel := o.key[|prefix|..];
        assert prefix + rel == o.key;
        if rel != META_FILE {
          byRel := byRel[rel := (o.size, o.etag)];
        }
      }
      i := i + 1;
    }
    assert objects[..i] == objects;
  }

  /** The declared paths the listing does not show, in order. */
  ghost function MissingPaths(declared: seq<FileMeta>, prefix: string, objects: seq<Listing>): seq<string> {
    if declared == [] then []
    else
      var last := declared[|declared| - 1].path;
      MissingPaths(declared[..|declared| - 1], prefix, objects) + if Sees(objects, prefix, last) then [] else [last]
  }

  lemma {:induction false} MissingNoneWhenAllSeen(declared: seq<FileMeta>, prefix: string, objects: seq<Listing>)
    ensures MissingPaths(declared, prefix, objects) == [] <==>
            forall i :: 0 <= i < |declared| ==> Sees(objects, prefix, declared[i].path)
  {
    if declared != [] {
      var init := declared[..|declared| - 1];
      MissingNoneWhenAllSeen(init, prefix, objects);
      assert forall i :: 0 <= i < |init| ==> init[i] == declared[i];
      assert (forall i :: 0 <= i < |declared| ==> Sees(objects, prefix, declared[i].path)) <==>
             (forall i :: 0 <= i < |init| ==> Sees(objects, prefix, init[i].path)) &&
             Sees(objects, prefix, declared[|declared| - 1].path);
    }
  }

  /** Strict: either every declared file, in order and nothing else, or every missing path and no list. */
  method PairFiles(declared: seq<FileMeta>, prefix: string, objects: seq<Listing>)
    returns (r: Result<seq<Listed>, seq<string>>)
    ensures r.Ok? ==> Paired(declared, prefix, objects, r.value)
    ensures r.Err? <==> exists i :: 0 <= i < |declared| && !Sees(objects, prefix, declared[i].path)
    ensures r.Err? ==> r.error == MissingPaths(declared, prefix, objects)
  {
    var byRel := IndexListing(prefix, objects);
    forall path ensures path in byRel <==> Sees(objects, prefix, path) {
      MirrorSees(byRel, prefix, objects, path);
    }
    var files: seq<Listed>, missing: seq<string> := [], [];
    var i := 0;
    while i < |declared|
      invariant 0 <= i <= |declared|
      invariant missing == MissingPaths(declared[..i], prefix, objects)
      invariant missing == [] ==> Paired(declared[..i], prefix, objects, files)
    {
      var f := declared[i];
      assert declared[..i + 1][..i] == declared[..i];
      if f.path in byRel {
        files := files + [Listed(f, byRel[f.path].0, byRel[f.path].1)];
      } else {
        missing := missing + [f.path];
      }
      i := i + 1;
    }
    assert declared[..i] == declared;
    MissingNoneWhenAllSeen(declared, prefix, objects);
    return if missing == [] then Ok(files) else Err(missing);
  }

  lemma MirrorSees(byRel: map<string, (nat, Option<string>)>, prefix: string, objects: seq<Listing>, path: string)
    requires Mirrors(byRel, prefix, objects)
    ensures path in byRel <==> Sees(objects, prefix, path)
  {
    var key := prefix + path;
    assert key[|prefix|..] == path;
    if path in byRel {
      var o := Listing(key, byRel[path].0, byRel[path].1);
      assert o in objects;
      var i :| 0 <= i < |objects| && objects[i] == o;
      assert Lists(objects, key);
    }
    if Sees(objects, prefix, path) {
      var i :| 0 <= i < |objects| && objects[i].key == key;
      assert objects[i] in objects;
    }
  }

  /** A listing that names each key once leaves no choice: the answer is a function of it. */
  lemma PairingIsUnique(declared: seq<FileMeta>, prefix: string, objects: seq<Listing>, a: seq<Listed>, b: seq<Listed>)
    requires DistinctListing(objects)
    requires Paired(declared, prefix, objects, a) && Paired(declared, prefix, objects, b)
    ensures a == b
  {
    forall i | 0 <= i < |a| ensures a[i] == b[i] {
      var key := prefix + declared[i].path;
      var j :| 0 <= j < |objects| && objects[j] == Listing(key, a[i].size, a[i].etag);
      var k :| 0 <= k < |objects| && objects[k] == Listing(key, b[i].size, b[i].etag);
      assert j == k;
    }
  }
}
