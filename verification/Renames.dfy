/** Sequential copies, then deletes: when does every destination end with what its source held at the start? */
module Renames {
  import opened Bucket
  import opened Writes

  /** One file of the request, by full keys; it is copied only when the two differ. */
  datatype Rename = Rename(src: string, dst: string) {
    predicate Moves() {
      src != dst
    }
  }

  function Copies(rs: seq<Rename>): seq<S3Write> {
    if rs == [] then []
    else
      var last := rs[|rs| - 1];
      Copies(rs[..|rs| - 1]) + if last.Moves() then [Copy(last.src, last.dst)] else []
  }

  predicate IsDestination(rs: seq<Rename>, key: string) {
    exists i :: 0 <= i < |rs| && rs[i].dst == key
  }

  predicate IsSource(rs: seq<Rename>, key: string) {
    exists i :: 0 <= i < |rs| && rs[i].src == key
  }

  /** The old keys left to delete once all copies are made. */
  function Leftovers(rs: seq<Rename>, all: seq<Rename>): seq<string> {
    if rs == [] then []
    else
      var last := rs[|rs| - 1];
      Leftovers(rs[..|rs| - 1], all) + if last.Moves() && !IsDestination(all, last.src) then [last.src] else []
  }

  function Deletes(keys: seq<string>): seq<S3Write> {
    seq(|keys|, i requires 0 <= i < |keys| => Delete(keys[i]))
  }

  predicate UniqueDestinations(rs: seq<Rename>) {
    forall i, j :: 0 <= i < j < |rs| ==> rs[i].dst != rs[j].dst
  }

  predicate SourcesExist(b: Contents, rs: seq<Rename>) {
    forall i :: 0 <= i < |rs| ==> rs[i].src in b
  }

  predicate Clobbers(rs: seq<Rename>, i: nat, j: nat)
    requires i < |rs| && j < |rs|
  {
    rs[i].Moves() && rs[j].Moves() && rs[i].dst == rs[j].src
  }

  /** No destination is the old key of a file renamed later. */
  predicate NoClobber(rs: seq<Rename>) {
    forall i, j :: 0 <= i < j < |rs| ==> !Clobbers(rs, i, j)
  }

  // ---- The copies ----

  function Copied(b: Contents, rs: seq<Rename>): Contents {
    Play(b, Copies(rs))
  }

  lemma CopiedStep(b: Contents, rs: seq<Rename>, n: nat)
    requires n < |rs|
    ensures Copied(b, rs[..n + 1]) ==
            if rs[n].Moves() then Perform(Copied(b, rs[..n]), Copy(rs[n].src, rs[n].dst)) else Copied(b, rs[..n])
  {
    var next := rs[..n + 1];
    assert next[..n] == rs[..n] && next[n] == rs[n];
    if rs[n].Moves() {
      assert Copies(next)[..|Copies(next)| - 1] == Copies(rs[..n]);
    } else {
      assert Copies(next) == Copies(rs[..n]);
    }
  }

  /** The copies of the first files come first. */
  lemma {:induction false} CopiesBegin(rs: seq<Rename>, n: nat)
    requires n <= |rs|
    ensures Copies(rs[..n]) <= Copies(rs)
    ensures n < |rs| && rs[n].Moves() ==>
              |Copies(rs[..n])| < |Copies(rs)| && Copies(rs)[|Copies(rs[..n])|] == Copy(rs[n].src, rs[n].dst)
    decreases |rs|
  {
    if n == |rs| {
      assert rs[..n] == rs;
    } else {
      var init := rs[..|rs| - 1];
      CopiesBegin(init, n);
      assert init[..n] == rs[..n];
    }
  }

  lemma StopsInCopies(b: Contents, rs: seq<Rename>, n: nat, reachable: S3Write -> bool)
    requires n < |rs| && rs[n].Moves() && !Succeeds(Copied(b, rs[..n]), Copy(rs[n].src, rs[n].dst), reachable)
    ensures StoppedIn(b, Copied(b, rs[..n]), Copies(rs), reachable)
  {
    CopiesBegin(rs, n);
    var m := |Copies(rs[..n])|;
    assert Copies(rs)[..m] == Copies(rs[..n]);
    assert StopsAt(b, Copied(b, rs[..n]), Copies(rs), reachable, m);
  }

  lemma LeftoversStep(rs: seq<Rename>, n: nat)
    requires n < |rs|
    ensures Leftovers(rs[..n + 1], rs) ==
            Leftovers(rs[..n], rs) + if rs[n].Moves() && !IsDestination(rs, rs[n].src) then [rs[n].src] else []
  {
    assert rs[..n + 1][..n] == rs[..n] && rs[..n + 1][n] == rs[n];
  }

  lemma {:induction false} CopiesKeep(b: Contents, rs: seq<Rename>, n: nat, key: string)
    requires n <= |rs| && key in b
    ensures key in Copied(b, rs[..n])
    ensures (forall i :: 0 <= i < n ==> !(rs[i].Moves() && rs[i].dst == key)) ==> Copied(b, rs[..n])[key] == b[key]
  {
    if n > 0 {
      CopiedStep(b, rs, n - 1);
      CopiesKeep(b, rs, n - 1, key);
    }
  }

  lemma {:induction false} CopiesAddOnlyDestinations(b: Contents, rs: seq<Rename>, n: nat, key: string)
    requires n <= |rs| && key in Copied(b, rs[..n])
    ensures key in b || exists i :: 0 <= i < n && rs[i].Moves() && rs[i].dst == key
  {
    if n > 0 {
      CopiedStep(b, rs, n - 1);
      if key in Copied(b, rs[..n - 1]) {
        CopiesAddOnlyDestinations(b, rs, n - 1, key);
      }
    }
  }

  /** A destination keeps what its source held when it was copied. */
  lemma {:induction false} DestinationHolds(b: Contents, rs: seq<Rename>, n: nat, j: nat)
    requires j < n <= |rs| && UniqueDestinations(rs) && rs[j].Moves() && SourcesExist(b, rs)
    ensures rs[j].src in Copied(b, rs[..j]) && rs[j].dst in Copied(b, rs[..n])
    ensures Copied(b, rs[..n])[rs[j].dst] == Copied(b, rs[..j])[rs[j].src]
  {
    CopiedStep(b, rs, n - 1);
    CopiesKeep(b, rs, j, rs[j].src);
    if j < n - 1 {
      DestinationHolds(b, rs, n - 1, j);
    }
  }

  lemma UnclobberedIsOriginal(b: Contents, rs: seq<Rename>, j: nat)
    requires j < |rs| && SourcesExist(b, rs) && rs[j].Moves()
    requires forall i :: 0 <= i < j ==> !Clobbers(rs, i, j)
    ensures rs[j].src in Copied(b, rs[..j]) && Copied(b, rs[..j])[rs[j].src] == b[rs[j].src]
  {
    CopiesKeep(b, rs, j, rs[j].src);
    forall i | 0 <= i < j ensures !(rs[i].Moves() && rs[i].dst == rs[j].src) {
      assert !Clobbers(rs, i, j);
    }
  }

  predicate FoundSources(b: Contents, rs: seq<Rename>, n: nat)
    requires n <= |rs|
  {
    forall j :: 0 <= j < n && rs[j].Moves() ==> rs[j].src in Copied(b, rs[..j])
  }

  /** Every copy found its source, as it must for all of them to succeed. */
  predicate Completed(b: Contents, rs: seq<Rename>) {
    FoundSources(b, rs, |rs|)
  }

  /** The copy loop after `n` files. */
  predicate CopiedUpTo(b: Contents, rs: seq<Rename>, n: nat, now: Contents, toDelete: seq<string>)
    requires n <= |rs|
  {
    now == Copied(b, rs[..n]) && toDelete == Leftovers(rs[..n], rs) && FoundSources(b, rs, n)
  }

  lemma CopyOneMore(b: Contents, rs: seq<Rename>, n: nat, now: Contents, toDelete: seq<string>)
    requires n < |rs| && CopiedUpTo(b, rs, n, now, toDelete)
    ensures !rs[n].Moves() ==> CopiedUpTo(b, rs, n + 1, now, toDelete)
    ensures rs[n].Moves() && rs[n].src in now ==>
              CopiedUpTo(b, rs, n + 1, Perform(now, Copy(rs[n].src, rs[n].dst)),
                         toDelete + if IsDestination(rs, rs[n].src) then [] else [rs[n].src])
  {
    CopiedStep(b, rs, n);
    LeftoversStep(rs, n);
  }

  lemma {:induction false} CopiedAppears(b: Contents, rs: seq<Rename>, n: nat, j: nat)
    requires j < n <= |rs| && rs[j].Moves() && Completed(b, rs)
    ensures rs[j].dst in Copied(b, rs[..n])
    decreases n
  {
    CopiedStep(b, rs, n - 1);
    if j < n - 1 {
      CopiedAppears(b, rs, n - 1, j);
    }
  }

  // ---- The deletes ----

  lemma {:induction false} DeletesRemove(b: Contents, keys: seq<string>)
    ensures forall key :: key in Play(b, Deletes(keys)) <==> key in b && key !in keys
    ensures forall key :: key in Play(b, Deletes(keys)) ==> Play(b, Deletes(keys))[key] == b[key]
  {
    if keys != [] {
      var init := keys[..|keys| - 1];
      assert Deletes(keys)[..|keys| - 1] == Deletes(init);
      DeletesRemove(b, init);
      assert keys == init + [keys[|keys| - 1]];
    } else {
      assert Deletes(keys) == [];
    }
  }

  /** Some file is renamed away from the key. */
  predicate Vacated(rs: seq<Rename>, key: string) {
    exists i :: 0 <= i < |rs| && rs[i].Moves() && rs[i].src == key
  }

  lemma {:induction false} LeftoversAre(rs: seq<Rename>, all: seq<Rename>, key: string)
    ensures key in Leftovers(rs, all) <==> (Vacated(rs, key) && !IsDestination(all, key))
  {
    if rs != [] {
      var init, last := rs[..|rs| - 1], rs[|rs| - 1];
      LeftoversAre(init, all, key);
      if Vacated(init, key) {
        var i :| 0 <= i < |init| && init[i].Moves() && init[i].src == key;
        assert rs[i] == init[i];
      }
      assert Vacated(rs, key) <==> Vacated(init, key) || (last.Moves() && last.src == key) by {
        assert forall i :: 0 <= i < |init| ==> rs[i] == init[i];
      }
    }
  }

  // ---- The whole move ----

  /** All copies, then the old keys that are no destination, then `removed` keys. */
  function Moved(b: Contents, rs: seq<Rename>, removed: seq<string>): Contents {
    Play(Copied(b, rs), Deletes(Leftovers(rs, rs) + removed))
  }

  predicate Holds(b: Contents, rs: seq<Rename>, removed: seq<string>, j: nat)
    requires j < |rs| && rs[j].src in b
  {
    rs[j].dst in Moved(b, rs, removed) && Moved(b, rs, removed)[rs[j].dst] == b[rs[j].src]
  }

  predicate SparesDestinations(rs: seq<Rename>, removed: seq<string>) {
    forall key :: key in removed ==> !IsDestination(rs, key)
  }

  /** Deleting never hurts a destination: what the copies left there stays. */
  lemma DestinationSurvives(b: Contents, rs: seq<Rename>, removed: seq<string>, j: nat)
    requires j < |rs| && SparesDestinations(rs, removed)
    ensures rs[j].dst in Moved(b, rs, removed) <==> rs[j].dst in Copied(b, rs)
    ensures rs[j].dst in Copied(b, rs) ==> Moved(b, rs, removed)[rs[j].dst] == Copied(b, rs)[rs[j].dst]
  {
    DeletesRemove(Copied(b, rs), Leftovers(rs, rs) + removed);
    LeftoversAre(rs, rs, rs[j].dst);
    assert IsDestination(rs, rs[j].dst);
  }

  /** Once all copies are made, a destination has an object if something moved there or one was there before. */
  lemma DestinationIsPresent(b: Contents, rs: seq<Rename>, removed: seq<string>, j: nat)
    requires UniqueDestinations(rs) && Completed(b, rs) && SparesDestinations(rs, removed) && j < |rs|
    ensures rs[j].dst in Moved(b, rs, removed) <==> rs[j].Moves() || rs[j].dst in b
  {
    DestinationSurvives(b, rs, removed, j);
    assert rs[..|rs|] == rs;
    if rs[j].Moves() {
      CopiedAppears(b, rs, |rs|, j);
    } else if rs[j].dst in b {
      CopiesKeep(b, rs, |rs|, rs[j].dst);
    } else if rs[j].dst in Copied(b, rs) {
      CopiesAddOnlyDestinations(b, rs, |rs|, rs[j].dst);
    }
  }

  lemma UnclobberedHolds(b: Contents, rs: seq<Rename>, removed: seq<string>, j: nat)
    requires UniqueDestinations(rs) && SourcesExist(b, rs) && SparesDestinations(rs, removed) && j < |rs|
    requires forall i :: 0 <= i < j ==> !Clobbers(rs, i, j)
    ensures Holds(b, rs, removed, j)
  {
    DestinationSurvives(b, rs, removed, j);
    assert rs[..|rs|] == rs;
    if rs[j].Moves() {
      DestinationHolds(b, rs, |rs|, j);
      UnclobberedIsOriginal(b, rs, j);
    } else {
      CopiesKeep(b, rs, |rs|, rs[j].dst);
    }
  }

  /** The first file whose source an earlier copy overwrote. */
  lemma {:induction false} FirstClobber(rs: seq<Rename>) returns (i: nat, j: nat)
    requires !NoClobber(rs)
    ensures i < j < |rs| && Clobbers(rs, i, j) && NoClobber(rs[..j])
  {
    var n := |rs| - 1;
    if NoClobber(rs[..n]) {
      var a, c :| 0 <= a < c < |rs| && Clobbers(rs, a, c);
      if c < n {
        assert Clobbers(rs[..n], a, c);
      }
      i, j := a, c;
    } else {
      i, j := FirstClobber(rs[..n]);
      assert rs[..n][..j] == rs[..j];
      assert Clobbers(rs, i, j);
    }
  }

  predicate DistinctContents(b: Contents) {
    forall k, l :: k in b && l in b && k != l ==> b[k] != b[l]
  }

  lemma ClobberedLoses(b: Contents, rs: seq<Rename>, removed: seq<string>)
    requires UniqueDestinations(rs) && SourcesExist(b, rs) && SparesDestinations(rs, removed)
    requires DistinctContents(b) && !NoClobber(rs)
    ensures exists j :: 0 <= j < |rs| && !Holds(b, rs, removed, j)
  {
    var i, j := FirstClobber(rs);
    assert forall a :: 0 <= a < i ==> !Clobbers(rs[..j], a, i);
    assert forall a :: 0 <= a < i ==> Clobbers(rs[..j], a, i) == Clobbers(rs, a, i);
    DestinationHolds(b, rs, j, i);
    UnclobberedIsOriginal(b, rs, i);
    DestinationHolds(b, rs, |rs|, j);
    DestinationSurvives(b, rs, removed, j);
    assert rs[..|rs|] == rs;
    assert !Holds(b, rs, removed, j);
  }

  /**
   * Every destination ends with the object its old key held at the start if and only if no destination is
   * the old key of a file renamed later; when all objects differ, there is no luck about it.
   */
  lemma MoveIsExactUnlessClobbered(b: Contents, rs: seq<Rename>, removed: seq<string>)
    requires UniqueDestinations(rs) && SourcesExist(b, rs) && SparesDestinations(rs, removed)
    ensures NoClobber(rs) ==> forall j :: 0 <= j < |rs| ==> Holds(b, rs, removed, j)
    ensures DistinctContents(b) && (forall j :: 0 <= j < |rs| ==> Holds(b, rs, removed, j)) ==> NoClobber(rs)
  {
    if NoClobber(rs) {
      forall j | 0 <= j < |rs| ensures Holds(b, rs, removed, j) {
        UnclobberedHolds(b, rs, removed, j);
      }
    } else if DistinctContents(b) {
      ClobberedLoses(b, rs, removed);
    }
  }

  /** Keys the request does not name keep their objects; old keys that are no destination are gone. */
  lemma UnnamedUntouched(b: Contents, rs: seq<Rename>, removed: seq<string>, key: string)
    requires !IsDestination(rs, key)
    ensures key in Moved(b, rs, removed) <==>
            key in b && key !in removed && !Vacated(rs, key)
    ensures key in Moved(b, rs, removed) ==> Moved(b, rs, removed)[key] == b[key]
  {
    DeletesRemove(Copied(b, rs), Leftovers(rs, rs) + removed);
    LeftoversAre(rs, rs, key);
    assert rs[..|rs|] == rs;
    if key in b {
      CopiesKeep(b, rs, |rs|, key);
    } else if key in Copied(b, rs) {
      CopiesAddOnlyDestinations(b, rs, |rs|, key);
    }
  }

  /** A swap is accepted and loses one of the two objects. */
  lemma SwapLosesAnObject(a: string, c: string, b: Contents)
    requires a != c && a in b && c in b && b[a] != b[c]
    ensures var rs := [Rename(a, c), Rename(c, a)];
            UniqueDestinations(rs) && !NoClobber(rs) && !Holds(b, rs, [], 1) &&
            a in Moved(b, rs, []) && Moved(b, rs, [])[a] == b[a]
  {
    var rs := [Rename(a, c), Rename(c, a)];
    assert Clobbers(rs, 0, 1);
    DestinationHolds(b, rs, 2, 0);
    DestinationHolds(b, rs, 2, 1);
    DestinationHolds(b, rs, 1, 0);
    UnclobberedIsOriginal(b, rs, 0);
    DestinationSurvives(b, rs, [], 0);
    DestinationSurvives(b, rs, [], 1);
    assert rs[..2] == rs;
  }
}
