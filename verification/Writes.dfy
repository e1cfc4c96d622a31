/** The writes the handlers make, one S3 request each, and what a sequence of them leaves behind. */
module Writes {
  import opened Wrappers
  import opened Catalogue
  import opened Bucket
  import Sequences

  /** A copy keeps the object's content, size and ETag. */
  datatype S3Write = Copy(src: string, dst: string) | Delete(key: string) | Put(key: string, item: Object)

  function Target(w: S3Write): string {
    if w.Copy? then w.dst else w.key
  }

  /** A copy of a missing object fails and changes nothing. */
  function Perform(b: Contents, w: S3Write): Contents {
    match w
    case Copy(src, dst) => if src in b then b[dst := b[src]] else b
    case Delete(key) => b - {key}
    case Put(key, item) => b[key := item]
  }

  function Play(b: Contents, writes: seq<S3Write>): Contents {
    if writes == [] then b else Perform(Play(b, writes[..|writes| - 1]), writes[|writes| - 1])
  }

  lemma PlayLast(b: Contents, writes: seq<S3Write>, w: S3Write)
    ensures Play(b, writes + [w]) == Perform(Play(b, writes), w)
  {
    assert (writes + [w])[..|writes|] == writes;
  }

  lemma {:induction false} PlayAppend(b: Contents, first: seq<S3Write>, second: seq<S3Write>)
    ensures Play(b, first + second) == Play(Play(b, first), second)
  {
    if second == [] {
      assert first + second == first;
    } else {
      var init := second[..|second| - 1];
      assert (first + second)[..|first + second| - 1] == first + init;
      PlayAppend(b, first, init);
    }
  }

  // ---- Requests that fail ----

  /** A request goes through when S3 can be reached for it and a copy finds its source. */
  predicate Succeeds(b: Contents, w: S3Write, reachable: S3Write -> bool) {
    reachable(w) && (w.Copy? ==> w.src in b)
  }

  /** Of `writes` some were made, and then one failed. */
  ghost predicate StoppedIn(b: Contents, b': Contents, writes: seq<S3Write>, reachable: S3Write -> bool) {
    exists n :: 0 <= n < |writes| && StopsAt(b, b', writes, reachable, n)
  }

  ghost predicate StopsAt(b: Contents, b': Contents, writes: seq<S3Write>, reachable: S3Write -> bool, n: nat)
    requires n < |writes|
  {
    b' == Play(b, writes[..n]) && !Succeeds(b', writes[n], reachable)
  }

  lemma StoppedBefore(b: Contents, b': Contents, writes: seq<S3Write>, more: seq<S3Write>, reachable: S3Write -> bool)
    requires StoppedIn(b, b', writes, reachable)
    ensures StoppedIn(b, b', writes + more, reachable)
  {
    var n :| 0 <= n < |writes| && StopsAt(b, b', writes, reachable, n);
    assert (writes + more)[..n] == writes[..n];
    assert StopsAt(b, b', writes + more, reachable, n);
  }

  lemma StoppedLater(b: Contents, b': Contents, first: seq<S3Write>, writes: seq<S3Write>, reachable: S3Write -> bool)
    requires StoppedIn(Play(b, first), b', writes, reachable)
    ensures StoppedIn(b, b', first + writes, reachable)
  {
    var n :| 0 <= n < |writes| && StopsAt(Play(b, first), b', writes, reachable, n);
    assert (first + writes)[..|first| + n] == first + writes[..n];
    PlayAppend(b, first, writes[..n]);
    assert StopsAt(b, b', first + writes, reachable, |first| + n);
  }

  /** The files a readable meta under `prefix` declares. */
  function Declared(parse: string -> Option<RawdbMeta>, b: Contents, prefix: string): seq<FileMeta> {
    if MetaKey(prefix) in b && parse(b[MetaKey(prefix)].text).Some?
    then parse(b[MetaKey(prefix)].text).value.files
    else []
  }

  predicate Declares(files: seq<FileMeta>, prefix: string, key: string) {
    exists i :: 0 <= i < |files| && prefix + files[i].path == key
  }

  /**
   * Whether the set's files may have run ahead of its meta: a write to a declared file makes it so,
   * putting or deleting the meta ends it.
   */
  predicate AheadAfter(parse: string -> Option<RawdbMeta>, b: Contents, ahead: bool, prefix: string, w: S3Write) {
    if Target(w) == MetaKey(prefix) then w.Copy?
    else ahead || Declares(Declared(parse, b, prefix), prefix, Target(w))
  }

  predicate Ahead(parse: string -> Option<RawdbMeta>, b: Contents, prefix: string, writes: seq<S3Write>) {
    if writes == [] then false
    else
      var init := writes[..|writes| - 1];
      AheadAfter(parse, Play(b, init), Ahead(parse, b, prefix, init), prefix, writes[|writes| - 1])
  }

  /** Writes to other sets neither start nor end a set's being ahead of its meta. */
  lemma OtherSetsDoNotMatter(parse: string -> Option<RawdbMeta>, b: Contents, ahead: bool, prefix: string, w: S3Write)
    requires !(prefix <= Target(w))
    ensures AheadAfter(parse, b, ahead, prefix, w) == ahead
  {
    var files := Declared(parse, b, prefix);
    forall i | 0 <= i < |files| ensures prefix + files[i].path != Target(w) {
      assert prefix <= prefix + files[i].path;
    }
    assert prefix <= MetaKey(prefix);
  }

  /** After the writes the set is level with its meta, which declares `files`. */
  predicate LevelWith(parse: string -> Option<RawdbMeta>, b: Contents, prefix: string, writes: seq<S3Write>,
                      files: seq<FileMeta>) {
    !Ahead(parse, b, prefix, writes) && Declared(parse, Play(b, writes), prefix) == files
  }

  /** None of the writes touches the set's meta or one of `files`. */
  predicate Spares(writes: seq<S3Write>, prefix: string, files: seq<FileMeta>) {
    forall i :: 0 <= i < |writes| ==> SparesOne(writes[i], prefix, files)
  }

  predicate SparesOne(w: S3Write, prefix: string, files: seq<FileMeta>) {
    Target(w) != MetaKey(prefix) && !Declares(files, prefix, Target(w))
  }

  lemma LevelStep(parse: string -> Option<RawdbMeta>, b: Contents, prefix: string, writes: seq<S3Write>,
                  files: seq<FileMeta>)
    requires writes != [] && LevelWith(parse, b, prefix, writes[..|writes| - 1], files)
    requires SparesOne(writes[|writes| - 1], prefix, files)
    ensures LevelWith(parse, b, prefix, writes, files)
  {
  }

  /** Once level with its meta, a set stays so under writes that spare the meta and what it declares. */
  lemma {:induction false} StaysLevel(parse: string -> Option<RawdbMeta>, b: Contents, prefix: string,
                                      writes: seq<S3Write>, since: nat, n: nat, files: seq<FileMeta>)
    requires since <= n <= |writes| && LevelWith(parse, b, prefix, writes[..since], files)
    requires forall i :: since <= i < n ==> SparesOne(writes[i], prefix, files)
    ensures LevelWith(parse, b, prefix, writes[..n], files)
    decreases n
  {
    if since < n {
      StaysLevel(parse, b, prefix, writes, since, n - 1, files);
      assert writes[..n][..n - 1] == writes[..n - 1] && writes[..n][n - 1] == writes[n - 1];
      LevelStep(parse, b, prefix, writes[..n], files);
    }
  }

  lemma MetaMakesLevel(parse: string -> Option<RawdbMeta>, b: Contents, prefix: string, before: seq<S3Write>,
                       meta: S3Write)
    requires Target(meta) == MetaKey(prefix) && !meta.Copy?
    ensures var first := before + [meta];
            LevelWith(parse, b, prefix, first, Declared(parse, Play(b, first), prefix))
  {
    assert (before + [meta])[..|before|] == before;
  }

  /**
   * A handler that ends with the meta's own write, or follows it only with writes that spare what the new
   * meta declares, leaves the set level with its meta, whatever it wrote before.
   */
  lemma EndsLevel(parse: string -> Option<RawdbMeta>, b: Contents, prefix: string,
                  before: seq<S3Write>, meta: S3Write, after: seq<S3Write>)
    requires Target(meta) == MetaKey(prefix) && !meta.Copy?
    requires Spares(after, prefix, Declared(parse, Play(b, before + [meta]), prefix))
    ensures !Ahead(parse, b, prefix, before + [meta] + after)
  {
    var first, all := before + [meta], before + [meta] + after;
    assert first[..|before|] == before && all[..|first|] == first && all[..|all|] == all;
    assert forall i :: |first| <= i < |all| ==> all[i] == after[i - |first|];
    MetaMakesLevel(parse, b, prefix, before, meta);
    StaysLevel(parse, b, prefix, all, |first|, |all|, Declared(parse, Play(b, first), prefix));
  }

  // ---- Histories of whole handler runs ----

  /** The writes aimed below the prefix, in order. */
  function Own(writes: seq<S3Write>, prefix: string): seq<S3Write> {
    if writes == [] then []
    else
      var last := writes[|writes| - 1];
      Own(writes[..|writes| - 1], prefix) + if prefix <= Target(last) then [last] else []
  }

  /** No handler copies onto a meta: its destinations have a folder. */
  predicate NoMetaCopies(writes: seq<S3Write>, prefix: string) {
    forall i :: 0 <= i < |writes| && writes[i].Copy? ==> writes[i].dst != MetaKey(prefix)
  }

  predicate SameMeta(b: Contents, b': Contents, prefix: string) {
    var key := MetaKey(prefix);
    if key in b then key in b' && b'[key] == b[key] else key !in b'
  }

  /** The same write keeps metas the same, and judges the files by the same declarations. */
  lemma SameStep(parse: string -> Option<RawdbMeta>, b: Contents, b': Contents, ahead: bool, prefix: string, w: S3Write)
    requires SameMeta(b, b', prefix) && (w.Copy? ==> w.dst != MetaKey(prefix))
    ensures SameMeta(Perform(b, w), Perform(b', w), prefix)
    ensures AheadAfter(parse, b, ahead, prefix, w) == AheadAfter(parse, b', ahead, prefix, w)
  {
  }

  lemma OtherStep(b: Contents, b': Contents, prefix: string, w: S3Write)
    requires SameMeta(b, b', prefix) && !(prefix <= Target(w))
    ensures SameMeta(Perform(b, w), b', prefix)
  {
    assert prefix <= MetaKey(prefix);
  }

  lemma OneMore(parse: string -> Option<RawdbMeta>, b: Contents, prefix: string, writes: seq<S3Write>, w: S3Write)
    ensures Play(b, writes + [w]) == Perform(Play(b, writes), w)
    ensures Ahead(parse, b, prefix, writes + [w]) ==
            AheadAfter(parse, Play(b, writes), Ahead(parse, b, prefix, writes), prefix, w)
    ensures Own(writes + [w], prefix) == if prefix <= Target(w) then Own(writes, prefix) + [w] else Own(writes, prefix)
  {
    assert (writes + [w])[..|writes|] == writes;
  }

  /** Only a set's own writes decide what its meta is and whether its files have run ahead of it. */
  lemma {:induction false} OwnWritesDecide(parse: string -> Option<RawdbMeta>, b: Contents, prefix: string,
                                           writes: seq<S3Write>)
    requires NoMetaCopies(writes, prefix)
    ensures SameMeta(Play(b, writes), Play(b, Own(writes, prefix)), prefix)
    ensures Ahead(parse, b, prefix, writes) == Ahead(parse, b, prefix, Own(writes, prefix))
    decreases |writes|
  {
    if writes != [] {
      var init, last := writes[..|writes| - 1], writes[|writes| - 1];
      assert writes == init + [last];
      OwnWritesDecide(parse, b, prefix, init);
      OneMore(parse, b, prefix, init, last);
      var own := Own(init, prefix);
      if prefix <= Target(last) {
        OneMore(parse, b, prefix, own, last);
        SameStep(parse, Play(b, init), Play(b, own), Ahead(parse, b, prefix, init), prefix, last);
      } else {
        OtherStep(Play(b, init), Play(b, own), prefix, last);
        OtherSetsDoNotMatter(parse, Play(b, init), Ahead(parse, b, prefix, init), prefix, last);
      }
    }
  }

  /** What a put meta declares; a deleted one declares nothing. */
  function FilesOf(parse: string -> Option<RawdbMeta>, meta: S3Write): seq<FileMeta> {
    if meta.Put? && parse(meta.item.text).Some? then parse(meta.item.text).value.files else []
  }

  predicate ClosesAt(parse: string -> Option<RawdbMeta>, prefix: string, block: seq<S3Write>, n: nat)
    requires n < |block|
  {
    && Target(block[n]) == MetaKey(prefix) && !block[n].Copy?
    && Spares(block[n + 1..], prefix, FilesOf(parse, block[n]))
  }

  /** What every completed handler's writes to a set are like: the meta's own comes after all to files it declares. */
  predicate Closes(parse: string -> Option<RawdbMeta>, prefix: string, block: seq<S3Write>) {
    exists n :: 0 <= n < |block| && ClosesAt(parse, prefix, block, n)
  }

  lemma BlockEndsLevel(parse: string -> Option<RawdbMeta>, b: Contents, prefix: string, earlier: seq<S3Write>,
                       block: seq<S3Write>)
    requires Closes(parse, prefix, block)
    ensures !Ahead(parse, b, prefix, earlier + block)
  {
    var n :| 0 <= n < |block| && ClosesAt(parse, prefix, block, n);
    var before, meta, after := earlier + block[..n], block[n], block[n + 1..];
    Sequences.AroundElement(earlier, block, n);
    MetaDecides(parse, b, prefix, before, meta);
    EndsLevel(parse, b, prefix, before, meta, after);
  }

  lemma MetaDecides(parse: string -> Option<RawdbMeta>, b: Contents, prefix: string, before: seq<S3Write>,
                    meta: S3Write)
    requires Target(meta) == MetaKey(prefix) && !meta.Copy?
    ensures Declared(parse, Play(b, before + [meta]), prefix) == FilesOf(parse, meta)
  {
    assert (before + [meta])[..|before|] == before;
  }

  function Joined(blocks: seq<seq<S3Write>>): seq<S3Write> {
    if blocks == [] then [] else Joined(blocks[..|blocks| - 1]) + blocks[|blocks| - 1]
  }

  /**
   * A set is level with its meta after any history in which its own writes are those of whole handler runs,
   * one after the other, however many writes to other sets come in between.
   */
  lemma WholeRunsLeaveSetLevel(parse: string -> Option<RawdbMeta>, b: Contents, prefix: string, writes: seq<S3Write>,
                               blocks: seq<seq<S3Write>>)
    requires NoMetaCopies(writes, prefix) && Own(writes, prefix) == Joined(blocks)
    requires forall i :: 0 <= i < |blocks| ==> Closes(parse, prefix, blocks[i])
    ensures !Ahead(parse, b, prefix, writes)
  {
    OwnWritesDecide(parse, b, prefix, writes);
    if blocks != [] {
      BlockEndsLevel(parse, b, prefix, Joined(blocks[..|blocks| - 1]), blocks[|blocks| - 1]);
    }
  }
}
