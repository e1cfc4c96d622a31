/** `edit_set` and `edit_pending`: sequential renames in the object store, then the rebuilt meta. */
module Edit {
  import opened Wrappers
  import opened Catalogue
  import opened Text
  import opened Bucket
  import opened Writes
  import opened Store
  import opened Renames
  import opened Safety
  import Meta

  datatype EditFile = EditFile(
    oldPath: string,
    path: string,
    license: Option<string>,
    notes: Option<string>,
    tags: seq<string>)

  datatype Refusal =
    | InvalidPath(path: string)
    | DuplicatePath(path: string)
    | BlockedExtension(path: string)

  // ---- Validation of the destinations ----

  predicate WellFormed(p: string) {
    && p != "" && p[0] != '/' && !HasDots(p) && '/' in p
    && forall i :: 0 <= i < |Split(p, '/')| ==> Split(p, '/')[i] != ""
  }

  function Lower(s: string): string {
    seq(|s|, i requires 0 <= i < |s| => if 'A' <= s[i] <= 'Z' then (s[i] as int + 32) as char else s[i])
  }

  /** The text after the last dot. */
  function AfterLastDot(name: string): Option<string> {
    if name == "" then None
    else if name[|name| - 1] == '.' then Some("")
    else
      var r := AfterLastDot(name[..|name| - 1]);
      if r.Some? then Some(r.value + [name[|name| - 1]]) else None
  }

  predicate Blocked(blocked: set<string>, p: string) {
    var pieces := Split(p, '/');
    var extension := AfterLastDot(pieces[|pieces| - 1]);
    extension.Some? && Lower(extension.value) in blocked
  }

  lemma {:induction false} AfterLastDotOf(front: string, extension: string)
    requires '.' !in extension
    ensures AfterLastDot(front + "." + extension) == Some(extension)
  {
    var name := front + "." + extension;
    if extension == "" {
      assert name[|name| - 1] == '.';
    } else {
      var n := |extension| - 1;
      assert name[..|name| - 1] == front + "." + extension[..n] && name[|name| - 1] == extension[n];
      assert extension == extension[..n] + [extension[n]];
      AfterLastDotOf(front, extension[..n]);
    }
  }

  lemma {:induction false} AfterLastDotEnds(name: string)
    ensures var r := AfterLastDot(name);
            r.Some? ==> '.' !in r.value && |r.value| < |name| && name == name[..|name| - |r.value| - 1] + "." + r.value
  {
    if name != "" && name[|name| - 1] != '.' {
      AfterLastDotEnds(name[..|name| - 1]);
    }
  }

  /** The path ends in a dot and an extension. */
  predicate HasExtension(p: string, extension: string) {
    '.' !in extension && '/' !in extension && |extension| < |p| && p[|p| - |extension| - 1..] == "." + extension
  }

  /** The extension of a path lies within its last piece. */
  lemma ExtensionIsInName(p: string, name: string, extension: string)
    requires |name| <= |p| && p[|p| - |name|..] == name && (|name| < |p| ==> p[|p| - |name| - 1] == '/')
    requires HasExtension(p, extension)
    ensures |extension| < |name| && name == name[..|name| - |extension| - 1] + "." + extension
  {
    var k := |p| - |extension| - 1;
    assert p[k..] == "." + extension;
    forall i | k <= i < |p| ensures p[i] != '/' {
      assert p[i] == p[k..][i - k];
    }
    assert name[|name| - |extension| - 1..] == p[k..];
  }

  /** Blocked are exactly the files whose extension is, up to ASCII case, in the list. */
  lemma BlockedByExtension(blocked: set<string>, p: string)
    ensures Blocked(blocked, p) <==> exists extension :: HasExtension(p, extension) && Lower(extension) in blocked
  {
    var pieces := Split(p, '/');
    var name := pieces[|pieces| - 1];
    LastPiece(p, '/');
    if Blocked(blocked, p) {
      NameHasExtension(p, name);
    }
    forall extension | HasExtension(p, extension) ensures AfterLastDot(name) == Some(extension) {
      ExtensionIsInName(p, name, extension);
      AfterLastDotOf(name[..|name| - |extension| - 1], extension);
    }
  }

  lemma NameHasExtension(p: string, name: string)
    requires |name| <= |p| && p[|p| - |name|..] == name && '/' !in name && AfterLastDot(name).Some?
    ensures HasExtension(p, AfterLastDot(name).value)
  {
    var extension := AfterLastDot(name).value;
    AfterLastDotEnds(name);
    assert p[|p| - |extension| - 1..] == name[|name| - |extension| - 1..] == "." + extension;
    assert forall c :: c in extension ==> c in name;
  }

  /** What the check of file `i` reports; it looks at trimmed paths only. */
  ghost function FileRefusal(blocked: set<string>, files: seq<EditFile>, i: nat): Option<Refusal>
    requires i < |files|
  {
    var p := Trim(files[i].path);
    if !WellFormed(p) then Some(InvalidPath(p))
    else if exists j :: 0 <= j < i && Trim(files[j].path) == p then Some(DuplicatePath(p))
    else if Blocked(blocked, p) then Some(BlockedExtension(p))
    else None
  }

  ghost predicate Accepted(blocked: set<string>, files: seq<EditFile>) {
    && (forall i :: 0 <= i < |files| ==> WellFormed(Trim(files[i].path)) && !Blocked(blocked, Trim(files[i].path)))
    && forall i, j :: 0 <= i < j < |files| ==> Trim(files[i].path) != Trim(files[j].path)
  }

  /** The refusal of the first file that gives cause for one. */
  ghost predicate FirstRefusal(blocked: set<string>, files: seq<EditFile>, why: Refusal) {
    exists i :: 0 <= i < |files| && FileRefusal(blocked, files, i) == Some(why) &&
                forall j :: 0 <= j < i ==> FileRefusal(blocked, files, j).None?
  }

  method CheckPaths(blocked: set<string>, files: seq<EditFile>) returns (r: Option<Refusal>)
    ensures r.None? <==> Accepted(blocked, files)
    ensures r.Some? ==> FirstRefusal(blocked, files, r.value)
  {
    var seen: set<string> := {};
    var i := 0;
    while i < |files|
      invariant 0 <= i <= |files|
      invariant seen == set j | 0 <= j < i :: Trim(files[j].path)
      invariant forall j :: 0 <= j < i ==> FileRefusal(blocked, files, j).None?
    {
      var p := Trim(files[i].path);
      if !WellFormed(p) {
        assert FileRefusal(blocked, files, i) == Some(InvalidPath(p));
        return Some(InvalidPath(p));
      }
      if p in seen {
        assert FileRefusal(blocked, files, i) == Some(DuplicatePath(p));
        return Some(DuplicatePath(p));
      }
      if Blocked(blocked, p) {
        assert FileRefusal(blocked, files, i) == Some(BlockedExtension(p));
        return Some(BlockedExtension(p));
      }
      seen := seen + {p};
      i := i + 1;
    }
    assert forall k :: 0 <= k < |files| && FileRefusal(blocked, files, k).None? ==>
             WellFormed(Trim(files[k].path)) && !Blocked(blocked, Trim(files[k].path));
    assert forall j, k :: 0 <= j < k < |files| && FileRefusal(blocked, files, k).None? ==>
             Trim(files[j].path) != Trim(files[k].path);
    return None;
  }

  /** An accepted path is one `meta::validate` takes exactly when it has no `.` segment. */
  lemma AcceptedPathParsesBackUnlessDotted(p: string)
    requires WellFormed(p)
    ensures Meta.ValidPath(p) <==> forall i :: 0 <= i < |Split(p, '/')| ==> Split(p, '/')[i] != "."
  {
    Meta.ValidPathHasCategory(p);
    SplitCounts(p, '/');
    NoDotsInPieces(p);
    forall i | 0 <= i < |Split(p, '/')| ensures Split(p, '/')[i] != ".." {
      assert HasDots("..") by { assert ".."[0] == '.' && ".."[1] == '.'; }
    }
  }

  lemma {:induction false} NoDotsInPieces(s: string)
    requires !HasDots(s)
    ensures forall i :: 0 <= i < |Split(s, '/')| ==> !HasDots(Split(s, '/')[i])
  {
    if s != "" {
      var tail := s[1..];
      forall i | 0 <= i < |tail| - 1 ensures !(tail[i] == '.' && tail[i + 1] == '.') {
        assert tail[i] == s[i + 1] && tail[i + 1] == s[i + 2];
      }
      NoDotsInPieces(tail);
      var rest := Split(tail, '/');
      assert rest[0] != "" ==> tail != "" && rest[0][0] == tail[0];
      if s[0] != '/' {
        var piece := [s[0]] + rest[0];
        assert forall i :: 0 < i < |piece| ==> piece[i] == rest[0][i - 1];
      }
    }
  }

  // ---- Renaming ----

  function RenamesOf(prefix: string, files: seq<EditFile>): seq<Rename> {
    seq(|files|, i requires 0 <= i < |files| => Rename(prefix + files[i].oldPath, prefix + files[i].path))
  }

  lemma DestinationPaths(prefix: string, files: seq<EditFile>, path: string)
    ensures IsDestination(RenamesOf(prefix, files), prefix + path) <==>
            exists i :: 0 <= i < |files| && files[i].path == path
  {
    var rs := RenamesOf(prefix, files);
    forall i | 0 <= i < |files| ensures rs[i].dst == prefix + path <==> files[i].path == path {
      SameRest(prefix, files[i].path, path);
    }
    if IsDestination(rs, prefix + path) {
      var i :| 0 <= i < |rs| && rs[i].dst == prefix + path;
      assert files[i].path == path;
    }
    if exists i :: 0 <= i < |files| && files[i].path == path {
      var i :| 0 <= i < |files| && files[i].path == path;
      assert rs[i].dst == prefix + path;
    }
  }

  /**
   * The copy loop: it stops at the first copy that fails, and otherwise says which old keys to delete.
   */
  method CopyFiles(store: ObjectStore, prefix: string, files: seq<EditFile>, reachable: S3Write -> bool)
    returns (leftovers: Option<seq<string>>)
    modifies store
    ensures leftovers.Some? ==> store.objects == Copied(old(store.objects), RenamesOf(prefix, files))
    ensures leftovers.Some? ==> leftovers.value == Leftovers(RenamesOf(prefix, files), RenamesOf(prefix, files))
    ensures leftovers.Some? ==> Completed(old(store.objects), RenamesOf(prefix, files))
    ensures leftovers.None? ==>
              StoppedIn(old(store.objects), store.objects, Copies(RenamesOf(prefix, files)), reachable)
  {
    var destinations := set i | 0 <= i < |files| :: files[i].path;
    ghost var rs, b := RenamesOf(prefix, files), store.objects;
    var toDelete: seq<string> := [];
    assert rs[..0] == [];
    var i := 0;
    while i < |files|
      invariant 0 <= i <= |files|
      invariant CopiedUpTo(b, rs, i, store.objects, toDelete)
    {
      var f := files[i];
      SameRest(prefix, f.oldPath, f.path);
      CopyOneMore(b, rs, i, store.objects, toDelete);
      if f.oldPath != f.path {
        var src := prefix + f.oldPath;
        var w := Copy(src, prefix + f.path);
        var ok := store.Request(w, reachable(w));
        if !ok {
          StopsInCopies(b, rs, i, reachable);
          return None;
        }
        DestinationPaths(prefix, files, f.oldPath);
        if f.oldPath !in destinations {
          toDelete := toDelete + [src];
        }
      }
      i := i + 1;
    }
    assert rs[..i] == rs;
    return Some(toDelete);
  }

  method DeleteAll(store: ObjectStore, keys: seq<string>, reachable: S3Write -> bool) returns (ok: bool)
    modifies store
    ensures ok ==> store.objects == Play(old(store.objects), Deletes(keys))
    ensures !ok ==> StoppedIn(old(store.objects), store.objects, Deletes(keys), reachable)
  {
    ghost var b := store.objects;
    assert Deletes(keys[..0]) == [];
    var i := 0;
    while i < |keys|
      invariant 0 <= i <= |keys|
      invariant store.objects == Play(b, Deletes(keys[..i]))
    {
      ok := store.Request(Delete(keys[i]), reachable(Delete(keys[i])));
      if !ok {
        assert Deletes(keys)[..i] == Deletes(keys[..i]);
        assert StopsAt(b, store.objects, Deletes(keys), reachable, i);
        return;
      }
      assert Deletes(keys[..i + 1])[..i] == Deletes(keys[..i]);
      i := i + 1;
    }
    assert keys[..i] == keys;
    return true;
  }

  // ---- The rebuilt meta ----

  predicate Blank(s: string) {
    Trim(s) == ""
  }

  function NonBlank(v: Option<string>): Option<string> {
    if v.Some? && Blank(v.value) then None else v
  }

  function CleanedTags(items: seq<string>): seq<string> {
    if items == [] then []
    else
      var init, tag := CleanedTags(items[..|items| - 1]), Trim(items[|items| - 1]);
      if tag != "" && tag !in init then init + [tag] else init
  }

  predicate Yields(items: seq<string>, tag: string) {
    exists i :: 0 <= i < |items| && Trim(items[i]) == tag
  }

  /** Each non-blank tag, trimmed, once, in the order of first appearance: a longer list only adds at the end. */
  lemma {:induction false} CleanedTagsAre(items: seq<string>)
    ensures forall tag :: tag in CleanedTags(items) <==> (tag != "" && Yields(items, tag))
    ensures forall i, j :: 0 <= i < j < |CleanedTags(items)| ==> CleanedTags(items)[i] != CleanedTags(items)[j]
    ensures forall n :: 0 <= n <= |items| ==> CleanedTags(items[..n]) <= CleanedTags(items)
  {
    if items != [] {
      var init, last := items[..|items| - 1], items[|items| - 1];
      CleanedTagsAre(init);
      forall n | 0 <= n <= |items| ensures CleanedTags(items[..n]) <= CleanedTags(items) {
        assert if n < |items| then items[..n] == init[..n] else items[..n] == items;
      }
      assert items == init + [last];
      forall tag ensures Yields(items, tag) <==> Yields(init, tag) || Trim(last) == tag {
        if Yields(init, tag) {
          var i :| 0 <= i < |init| && Trim(init[i]) == tag;
          assert items[i] == init[i];
        }
        assert items[|items| - 1] == last;
        assert forall i :: 0 <= i < |init| ==> items[i] == init[i];
      }
    }
  }

  method CleanTags(items: seq<string>) returns (out: seq<string>)
    ensures out == CleanedTags(items)
  {
    out := [];
    var seen: set<string> := {};
    var i := 0;
    while i < |items|
      invariant 0 <= i <= |items|
      invariant out == CleanedTags(items[..i])
      invariant forall tag :: tag in seen <==> tag in out
    {
      var tag := Trim(items[i]);
      assert items[..i + 1][..i] == items[..i];
      if tag != "" && tag !in seen {
        seen := seen + {tag};
        out := out + [tag];
      }
      i := i + 1;
    }
    assert items[..i] == items;
  }

  /** The checksum the existing meta records for a path. */
  function ShaOf(existing: seq<FileMeta>, path: string): Option<string> {
    if existing == [] then None
    else if existing[0].path == path then existing[0].sha256
    else ShaOf(existing[1..], path)
  }

  function RebuiltFile(existing: seq<FileMeta>, f: EditFile): FileMeta {
    FileMeta(Trim(f.path), ShaOf(existing, f.oldPath), NonBlank(f.license), NonBlank(f.notes), CleanedTags(f.tags))
  }

  function RebuiltFiles(existing: seq<FileMeta>, files: seq<EditFile>): seq<FileMeta> {
    seq(|files|, i requires 0 <= i < |files| => RebuiltFile(existing, files[i]))
  }

  method Rebuild(existing: seq<FileMeta>, files: seq<EditFile>) returns (out: seq<FileMeta>)
    ensures out == RebuiltFiles(existing, files)
  {
    out := [];
    var i := 0;
    while i < |files|
      invariant 0 <= i <= |files|
      invariant out == RebuiltFiles(existing, files)[..i]
    {
      var f := files[i];
      var tags := CleanTags(f.tags);
      out := out + [FileMeta(Trim(f.path), ShaOf(existing, f.oldPath), NonBlank(f.license), NonBlank(f.notes), tags)];
      i := i + 1;
    }
  }

  // ---- What the rebuilt meta says ----

  /** A value that is not just white space. */
  predicate Given(v: Option<string>, r: Option<string>) {
    if v.Some? && Trim(v.value) != "" then r == v else r.None?
  }

  /** The checksum of the existing file of that path, when paths are unique; none when there is no such file. */
  ghost predicate CarriesSha(existing: seq<FileMeta>, oldPath: string, sha256: Option<string>) {
    && (oldPath !in Paths(existing) ==> sha256.None?)
    && (UniquePaths(existing) ==> forall e :: e in existing && e.path == oldPath ==> sha256 == e.sha256)
  }

  ghost predicate DescribesFile(existing: seq<FileMeta>, f: EditFile, out: FileMeta) {
    && out.path == Trim(f.path) && CarriesSha(existing, f.oldPath, out.sha256)
    && Given(f.license, out.license) && Given(f.notes, out.notes) && out.tags == CleanedTags(f.tags)
  }

  predicate DescribesSet(info: SetMeta, maker: string, model: string, fields: SetFields, row: Option<SetMeta>) {
    && info.maker == maker && info.model == model
    && info.license == (if Trim(fields.license) == "" then "CC0 1.0" else fields.license)
    && Given(fields.uploadedBy, info.uploadedBy) && Given(fields.notes, info.notes)
    && info.special == fields.special && info.uploadedAt.None?
    && (row.Some? ==>
          info.approvedAt == row.value.approvedAt && info.approvedBy == row.value.approvedBy &&
          info.approvedInitialAt == row.value.approvedInitialAt &&
          info.approvedInitialBy == row.value.approvedInitialBy)
    && (row.None? ==>
          info.approvedAt.None? && info.approvedBy.None? && info.approvedInitialAt.None? &&
          info.approvedInitialBy.None?)
  }

  /** The meta of a completed edit: the request's fields, the row's approval record, the old checksums. */
  ghost predicate Describes(meta: RawdbMeta, maker: string, model: string, fields: SetFields, row: Option<SetMeta>,
                            existing: seq<FileMeta>, files: seq<EditFile>)
  {
    && DescribesSet(meta.info, maker, model, fields, row)
    && |meta.files| == |files| && forall i :: 0 <= i < |files| ==> DescribesFile(existing, files[i], meta.files[i])
  }

  lemma {:induction false} ShaIsCarried(existing: seq<FileMeta>, path: string)
    ensures CarriesSha(existing, path, ShaOf(existing, path))
  {
    if existing != [] {
      var rest := existing[1..];
      ShaIsCarried(rest, path);
      assert forall e :: e in rest ==> e in existing;
      assert existing[0] in existing;
      if UniquePaths(existing) {
        assert forall i :: 0 <= i < |rest| ==> rest[i] == existing[i + 1];
        forall e | e in existing && e.path == path ensures ShaOf(existing, path) == e.sha256 {
          var i :| 0 <= i < |existing| && existing[i] == e;
          if i > 0 {
            assert rest[i - 1] == e;
          }
        }
      }
    }
  }

  lemma RebuiltDescribes(maker: string, model: string, fields: SetFields, row: Option<SetMeta>,
                         existing: seq<FileMeta>, files: seq<EditFile>)
    ensures Describes(RawdbMeta(RebuiltInfo(maker, model, fields, row), RebuiltFiles(existing, files)),
                      maker, model, fields, row, existing, files)
  {
    forall i | 0 <= i < |files| ensures DescribesFile(existing, files[i], RebuiltFiles(existing, files)[i]) {
      ShaIsCarried(existing, files[i].oldPath);
    }
  }

  // ---- The handlers ----

  datatype SetFields = SetFields(license: string, notes: Option<string>, uploadedBy: Option<string>, special: bool)

  /** Approval fields come from the cached row (`approval`); an edit of a pending upload has none. */
  function RebuiltInfo(maker: string, model: string, fields: SetFields, approval: Option<SetMeta>): SetMeta {
    SetMeta(
      maker, model,
      if Blank(fields.license) then Meta.DEFAULT_LICENSE else fields.license,
      NonBlank(fields.uploadedBy), None, NonBlank(fields.notes), fields.special,
      if approval.Some? then approval.value.approvedAt else None,
      if approval.Some? then approval.value.approvedBy else None,
      if approval.Some? then approval.value.approvedInitialAt else None,
      if approval.Some? then approval.value.approvedInitialBy else None)
  }

  datatype EditError =
    | NotFound
    | EmptyName
    | Refused(why: Refusal)
    | CannotRemove(missing: set<string>)
    | Interrupted

  /** A failed read of the meta counts as a meta without files. */
  function Existing(parse: string -> Option<RawdbMeta>, b: Contents, prefix: string, readable: bool): seq<FileMeta> {
    if readable then Declared(parse, b, prefix) else []
  }

  function OldPaths(files: seq<EditFile>): set<string> {
    set i | 0 <= i < |files| :: files[i].oldPath
  }

  function NewPaths(files: seq<EditFile>): set<string> {
    set i | 0 <= i < |files| :: files[i].path
  }

  /** The bucket after a whole edit. */
  ghost function Edited(b: Contents, prefix: string, files: seq<EditFile>, removed: seq<string>,
                        item: Object): Contents {
    Moved(b, RenamesOf(prefix, files), removed)[MetaKey(prefix) := item]
  }

  ghost predicate IsMetaOf(item: Object, meta: RawdbMeta) {
    item.text == Meta.ToToml(meta)
  }

  method PutMeta(store: ObjectStore, prefix: string, meta: RawdbMeta, etag: string, modified: string,
                 reachable: S3Write -> bool)
    returns (ok: bool, item: Object)
    modifies store
    ensures IsMetaOf(item, meta) && (ok <==> reachable(Put(MetaKey(prefix), item)))
    ensures store.objects == if ok then old(store.objects)[MetaKey(prefix) := item] else old(store.objects)
  {
    var text := Meta.Print(meta);
    item := Object(text, |text|, Some(etag), modified);
    var w := Put(MetaKey(prefix), item);
    ok := store.Request(w, reachable(w));
  }

  /** The copies, then the deletes of what moved away and of what is removed. */
  function MoveWrites(prefix: string, files: seq<EditFile>, removed: seq<string>): seq<S3Write> {
    var rs := RenamesOf(prefix, files);
    Copies(rs) + Deletes(Leftovers(rs, rs) + removed)
  }

  function EditWrites(prefix: string, files: seq<EditFile>, removed: seq<string>, item: Object): seq<S3Write> {
    MoveWrites(prefix, files, removed) + [Put(MetaKey(prefix), item)]
  }

  lemma MoveWritesMove(b: Contents, prefix: string, files: seq<EditFile>, removed: seq<string>)
    ensures Play(b, MoveWrites(prefix, files, removed)) == Moved(b, RenamesOf(prefix, files), removed)
  {
    var rs := RenamesOf(prefix, files);
    PlayAppend(b, Copies(rs), Deletes(Leftovers(rs, rs) + removed));
  }

  /** An edit stopped by a request that failed, in the middle of its writes. */
  ghost predicate Stopped(b: Contents, b': Contents, prefix: string, files: seq<EditFile>, removed: seq<string>,
                          meta: RawdbMeta, reachable: S3Write -> bool)
  {
    exists item :: IsMetaOf(item, meta) && StoppedIn(b, b', EditWrites(prefix, files, removed, item), reachable)
  }

  method MoveFiles(store: ObjectStore, prefix: string, files: seq<EditFile>, removed: seq<string>,
                   reachable: S3Write -> bool)
    returns (ok: bool)
    modifies store
    ensures ok ==> store.objects == Moved(old(store.objects), RenamesOf(prefix, files), removed)
    ensures ok ==> Completed(old(store.objects), RenamesOf(prefix, files))
    ensures !ok ==> StoppedIn(old(store.objects), store.objects, MoveWrites(prefix, files, removed), reachable)
  {
    ghost var rs, b := RenamesOf(prefix, files), store.objects;
    var leftovers := CopyFiles(store, prefix, files, reachable);
    if leftovers.None? {
      StoppedBefore(b, store.objects, Copies(rs), Deletes(Leftovers(rs, rs) + removed), reachable);
      return false;
    }
    ok := DeleteAll(store, leftovers.value + removed, reachable);
    if !ok {
      StoppedLater(b, store.objects, Copies(rs), Deletes(Leftovers(rs, rs) + removed), reachable);
    }
  }

  /** Moves the files, then puts the meta; what `b` becomes, or where a failing request left it. */
  method Apply(store: ObjectStore, prefix: string, files: seq<EditFile>, removed: seq<string>, meta: RawdbMeta,
               etag: string, modified: string, reachable: S3Write -> bool)
    returns (r: Option<Object>)
    modifies store
    ensures r.Some? ==> IsMetaOf(r.value, meta)
    ensures r.Some? ==> store.objects == Edited(old(store.objects), prefix, files, removed, r.value)
    ensures r.Some? ==> Completed(old(store.objects), RenamesOf(prefix, files))
    ensures r.None? ==> Stopped(old(store.objects), store.objects, prefix, files, removed, meta, reachable)
  {
    ghost var b := store.objects;
    var moved := MoveFiles(store, prefix, files, removed, reachable);
    if !moved {
      StoppedMoving(b, store.objects, prefix, files, removed, meta, reachable);
      return None;
    }
    var ok, item := PutMeta(store, prefix, meta, etag, modified, reachable);
    if !ok {
      StoppedPutting(b, prefix, files, removed, meta, item, reachable);
      return None;
    }
    return Some(item);
  }

  lemma StoppedMoving(b: Contents, b': Contents, prefix: string, files: seq<EditFile>, removed: seq<string>,
                      meta: RawdbMeta, reachable: S3Write -> bool)
    requires StoppedIn(b, b', MoveWrites(prefix, files, removed), reachable)
    ensures Stopped(b, b', prefix, files, removed, meta, reachable)
  {
    var item := Object(Meta.ToToml(meta), 0, None, "");
    StoppedBefore(b, b', MoveWrites(prefix, files, removed), [Put(MetaKey(prefix), item)], reachable);
    assert IsMetaOf(item, meta);
  }

  lemma StoppedPutting(b: Contents, prefix: string, files: seq<EditFile>, removed: seq<string>, meta: RawdbMeta,
                       item: Object, reachable: S3Write -> bool)
    requires IsMetaOf(item, meta) && !reachable(Put(MetaKey(prefix), item))
    ensures Stopped(b, Moved(b, RenamesOf(prefix, files), removed), prefix, files, removed, meta, reachable)
  {
    var moves, put := MoveWrites(prefix, files, removed), [Put(MetaKey(prefix), item)];
    MoveWritesMove(b, prefix, files, removed);
    assert put[..0] == [];
    assert StopsAt(Play(b, moves), Play(b, moves), put, reachable, 0);
    StoppedLater(b, Play(b, moves), moves, put, reachable);
  }

  /** What `edit_set` may answer, and the bucket it leaves: untouched by a refusal. */
  ghost predicate SetAnswer(parse: string -> Option<RawdbMeta>, blocked: set<string>, row: Option<SetMeta>, key: SetKey,
                            fields: SetFields, files: seq<EditFile>, existing: seq<FileMeta>,
                            reachable: S3Write -> bool, r: Result<Object, EditError>, b: Contents, b': Contents)
  {
    var prefix := PrefixOf(Sample(key));
    var meta := RawdbMeta(RebuiltInfo(key.maker, key.model, fields, row), RebuiltFiles(existing, files));
    var allowed := row.Some? && Accepted(blocked, files) && Paths(existing) <= OldPaths(files);
    match r
    case Ok(item) =>
      && allowed && b' == Edited(b, prefix, files, [], item) && Completed(b, RenamesOf(prefix, files))
      && IsMetaOf(item, meta) && Describes(meta, key.maker, key.model, fields, row, existing, files)
    case Err(Interrupted) => allowed && Stopped(b, b', prefix, files, [], meta, reachable)
    case Err(NotFound) => row.None? && b' == b
    case Err(Refused(why)) => row.Some? && FirstRefusal(blocked, files, why) && b' == b
    case Err(CannotRemove(missing)) =>
      && row.Some? && Accepted(blocked, files)
      && missing == MissingPaths(existing, files) && missing != {} && b' == b
    case Err(EmptyName) => false
  }

  function MissingPaths(existing: seq<FileMeta>, files: seq<EditFile>): (missing: set<string>)
    ensures missing == {} <==> Paths(existing) <= OldPaths(files)
  {
    var missing := Paths(existing) - OldPaths(files);
    assert forall path :: path in Paths(existing) ==> path in missing || path in OldPaths(files);
    missing
  }

  /** `row` is the set's cached row; `readable` says whether the existing meta could be fetched. */
  method EditSet(store: ObjectStore, parse: string -> Option<RawdbMeta>, blocked: set<string>, row: Option<SetMeta>,
                 key: SetKey, fields: SetFields, files: seq<EditFile>, readable: bool, etag: string, modified: string,
                 reachable: S3Write -> bool)
    returns (r: Result<Object, EditError>)
    modifies store
    ensures SetAnswer(parse, blocked, row, key, fields, files,
                      Existing(parse, old(store.objects), PrefixOf(Sample(key)), readable),
                      reachable, r, old(store.objects), store.objects)
  {
    if row.None? {
      return Err(NotFound);
    }
    var prefix := PrefixOf(Sample(key));
    var refusal := CheckPaths(blocked, files);
    if refusal.Some? {
      return Err(Refused(refusal.value));
    }
    var existing := Existing(parse, store.objects, prefix, readable);
    var missing := MissingPaths(existing, files);
    if missing != {} {
      return Err(CannotRemove(missing));
    }
    var rebuilt := Rebuild(existing, files);
    var meta := RawdbMeta(RebuiltInfo(key.maker, key.model, fields, row), rebuilt);
    RebuiltDescribes(key.maker, key.model, fields, row, existing, files);
    var done := Apply(store, prefix, files, [], meta, etag, modified, reachable);
    return if done.Some? then Ok(done.value) else Err(Interrupted);
  }

  /** The files of the existing meta that the request neither carries nor overwrites. */
  function Dropped(prefix: string, existing: seq<FileMeta>, files: seq<EditFile>): seq<string> {
    if existing == [] then []
    else
      var init, last := Dropped(prefix, existing[..|existing| - 1], files), existing[|existing| - 1].path;
      if last !in OldPaths(files) && last !in NewPaths(files) then init + [prefix + last] else init
  }

  method CollectDropped(prefix: string, existing: seq<FileMeta>, files: seq<EditFile>) returns (keys: seq<string>)
    ensures keys == Dropped(prefix, existing, files)
  {
    keys := [];
    var i := 0;
    while i < |existing|
      invariant 0 <= i <= |existing|
      invariant keys == Dropped(prefix, existing[..i], files)
    {
      assert existing[..i + 1][..i] == existing[..i];
      if existing[i].path !in OldPaths(files) && existing[i].path !in NewPaths(files) {
        keys := keys + [prefix + existing[i].path];
      }
      i := i + 1;
    }
    assert existing[..i] == existing;
  }

  /** What `edit_pending` may answer: it also removes the files the request left out. */
  ghost predicate PendingAnswer(blocked: set<string>, id: string, maker: string, model: string, fields: SetFields,
                                files: seq<EditFile>, existing: seq<FileMeta>, reachable: S3Write -> bool,
                                r: Result<Object, EditError>, b: Contents, b': Contents)
  {
    var prefix := PrefixOf(Pending(id));
    var meta := RawdbMeta(RebuiltInfo(Trim(maker), Trim(model), fields, None), RebuiltFiles(existing, files));
    var removed := Dropped(prefix, existing, files);
    var allowed := Trim(maker) != "" && Trim(model) != "" && Accepted(blocked, files);
    match r
    case Ok(item) =>
      && allowed && b' == Edited(b, prefix, files, removed, item) && Completed(b, RenamesOf(prefix, files))
      && IsMetaOf(item, meta) && Describes(meta, Trim(maker), Trim(model), fields, None, existing, files)
    case Err(Interrupted) => allowed && Stopped(b, b', prefix, files, removed, meta, reachable)
    case Err(EmptyName) => (Trim(maker) == "" || Trim(model) == "") && b' == b
    case Err(Refused(why)) => Trim(maker) != "" && Trim(model) != "" && FirstRefusal(blocked, files, why) && b' == b
    case Err(NotFound) => false
    case Err(CannotRemove(_)) => false
  }

  method EditPending(store: ObjectStore, parse: string -> Option<RawdbMeta>, blocked: set<string>, id: string,
                     maker: string, model: string, fields: SetFields, files: seq<EditFile>, readable: bool,
                     etag: string, modified: string, reachable: S3Write -> bool)
    returns (r: Result<Object, EditError>)
    modifies store
    ensures PendingAnswer(blocked, id, maker, model, fields, files,
                          Existing(parse, old(store.objects), PrefixOf(Pending(id)), readable),
                          reachable, r, old(store.objects), store.objects)
  {
    if Trim(maker) == "" || Trim(model) == "" {
      return Err(EmptyName);
    }
    var prefix := PrefixOf(Pending(id));
    var refusal := CheckPaths(blocked, files);
    if refusal.Some? {
      return Err(Refused(refusal.value));
    }
    var existing := Existing(parse, store.objects, prefix, readable);
    var removed := CollectDropped(prefix, existing, files);
    var rebuilt := Rebuild(existing, files);
    var meta := RawdbMeta(RebuiltInfo(Trim(maker), Trim(model), fields, None), rebuilt);
    RebuiltDescribes(Trim(maker), Trim(model), fields, None, existing, files);
    var done := Apply(store, prefix, files, removed, meta, etag, modified, reachable);
    return if done.Some? then Ok(done.value) else Err(Interrupted);
  }

  // ---- What a completed edit means ----

  lemma TrimIsInside(s: string, c: char)
    requires c in Trim(s)
    ensures c in s
  {
    TrimEndIsInside(TrimStart(s), c);
    TrimStartIsInside(s, c);
  }

  lemma {:induction false} TrimStartIsInside(s: string, c: char)
    ensures c in TrimStart(s) ==> c in s
  {
    if s != "" && White(s[0]) {
      TrimStartIsInside(s[1..], c);
      assert s == [s[0]] + s[1..];
    }
  }

  lemma {:induction false} TrimEndIsInside(s: string, c: char)
    ensures c in TrimEnd(s) ==> c in s
  {
    if s != "" && White(s[|s| - 1]) {
      TrimEndIsInside(s[..|s| - 1], c);
      assert s == s[..|s| - 1] + [s[|s| - 1]];
    }
  }

  /** No destination is the meta itself: an accepted path has a folder. */
  lemma MetaIsNoDestination(blocked: set<string>, prefix: string, files: seq<EditFile>)
    requires Accepted(blocked, files)
    ensures UniqueDestinations(RenamesOf(prefix, files))
    ensures !IsDestination(RenamesOf(prefix, files), MetaKey(prefix))
  {
    var rs := RenamesOf(prefix, files);
    forall i, j | 0 <= i < j < |rs| ensures rs[i].dst != rs[j].dst {
      SameRest(prefix, files[i].path, files[j].path);
      assert Trim(files[i].path) != Trim(files[j].path);
    }
    DestinationPaths(prefix, files, META_FILE);
    forall i | 0 <= i < |files| ensures files[i].path != META_FILE {
      assert WellFormed(Trim(files[i].path));
      TrimIsInside(files[i].path, '/');
      NoSlashInMetaFile();
    }
  }

  lemma NoSlashInMetaFile()
    ensures '/' !in META_FILE
  {
  }

  predicate Trimmed(files: seq<EditFile>) {
    forall i :: 0 <= i < |files| ==> Trim(files[i].path) == files[i].path
  }

  predicate NoneClobbered(prefix: string, files: seq<EditFile>) {
    NoClobber(RenamesOf(prefix, files))
  }

  predicate OldPathsExist(b: Contents, prefix: string, files: seq<EditFile>) {
    SourcesExist(b, RenamesOf(prefix, files))
  }

  /** The file that the new meta declares for entry `i` is the object its old path held. */
  ghost predicate Carried(b: Contents, b': Contents, prefix: string, f: EditFile) {
    var key, old_ := prefix + Trim(f.path), prefix + f.oldPath;
    old_ in b && key in b' && b'[key] == b[old_]
  }

  ghost predicate SparedBy(prefix: string, files: seq<EditFile>, removed: seq<string>) {
    SparesDestinations(RenamesOf(prefix, files), removed)
  }

  lemma CarriedIffHolds(b: Contents, prefix: string, files: seq<EditFile>, removed: seq<string>, item: Object, i: nat)
    requires i < |files| && OldPathsExist(b, prefix, files) && Trim(files[i].path) == files[i].path
    requires !IsDestination(RenamesOf(prefix, files), MetaKey(prefix))
    ensures Carried(b, Edited(b, prefix, files, removed, item), prefix, files[i]) <==>
            Holds(b, RenamesOf(prefix, files), removed, i)
  {
    var rs := RenamesOf(prefix, files);
    assert rs[i].dst == prefix + files[i].path && rs[i].src in b;
    assert rs[i].dst != MetaKey(prefix);
  }

  /** Copied to its untrimmed path, a file is not where the meta, which names the trimmed one, looks for it. */
  lemma UntrimmedIsLost(b: Contents, blocked: set<string>, prefix: string, files: seq<EditFile>,
                        removed: seq<string>, item: Object, i: nat)
    requires Accepted(blocked, files) && OldPathsExist(b, prefix, files) && DistinctContents(b)
    requires i < |files| && Trim(files[i].path) != files[i].path
    ensures !Carried(b, Edited(b, prefix, files, removed, item), prefix, files[i])
  {
    var rs := RenamesOf(prefix, files);
    var p := Trim(files[i].path);
    var key := prefix + p;
    assert WellFormed(p);
    NoSlashInMetaFile();
    SameRest(prefix, p, META_FILE);
    DestinationPaths(prefix, files, p);
    TrimTwice(files[i].path);
    assert !IsDestination(rs, key);
    UnnamedUntouched(b, rs, removed, key);
    SameRest(prefix, files[i].oldPath, files[i].path);
    if rs[i].src == key {
      SameRest(prefix, files[i].oldPath, p);
      assert rs[i].Moves() && Vacated(rs, key);
    }
  }

  lemma TrimTwice(s: string)
    ensures Trim(Trim(s)) == Trim(s)
  {
    var a := TrimStart(s);
    TrimEndKeepsStart(a);
    TrimStartStops(s);
    TrimEndStops(a);
  }

  lemma {:induction false} TrimStartStops(s: string)
    ensures TrimStart(s) == "" || !White(TrimStart(s)[0])
  {
    if s != "" && White(s[0]) { TrimStartStops(s[1..]); }
  }

  lemma {:induction false} TrimEndStops(s: string)
    ensures TrimEnd(TrimEnd(s)) == TrimEnd(s)
  {
    if s != "" && White(s[|s| - 1]) { TrimEndStops(s[..|s| - 1]); }
  }

  lemma {:induction false} TrimEndKeepsStart(s: string)
    ensures TrimEnd(s) == "" || TrimEnd(s)[0] == s[0]
  {
    if s != "" && White(s[|s| - 1]) { TrimEndKeepsStart(s[..|s| - 1]); }
  }

  lemma FirstUntrimmed(files: seq<EditFile>) returns (i: nat)
    requires !Trimmed(files)
    ensures i < |files| && Trim(files[i].path) != files[i].path
  {
    i :| 0 <= i < |files| && Trim(files[i].path) != files[i].path;
  }

  /**
   * After a completed edit, every file of the new meta is the object its old path held at the start, when
   * all paths came trimmed and no destination is the old path of a file renamed later; when all objects
   * differ, only then.
   */
  lemma EditCarriesEveryFileUnless(b: Contents, blocked: set<string>, prefix: string, files: seq<EditFile>,
                                   removed: seq<string>, item: Object)
    requires Accepted(blocked, files) && OldPathsExist(b, prefix, files) && SparedBy(prefix, files, removed)
    ensures Trimmed(files) && NoneClobbered(prefix, files) ==>
              forall i :: 0 <= i < |files| ==> Carried(b, Edited(b, prefix, files, removed, item), prefix, files[i])
    ensures DistinctContents(b) &&
            (forall i :: 0 <= i < |files| ==> Carried(b, Edited(b, prefix, files, removed, item), prefix, files[i])) ==>
              Trimmed(files) && NoneClobbered(prefix, files)
  {
    MetaIsNoDestination(blocked, prefix, files);
    var rs := RenamesOf(prefix, files);
    MoveIsExactUnlessClobbered(b, rs, removed);
    if Trimmed(files) {
      forall i | 0 <= i < |files|
        ensures Carried(b, Edited(b, prefix, files, removed, item), prefix, files[i]) <==> Holds(b, rs, removed, i)
      {
        CarriedIffHolds(b, prefix, files, removed, item, i);
      }
    } else if DistinctContents(b) {
      var i := FirstUntrimmed(files);
      UntrimmedIsLost(b, blocked, prefix, files, removed, item, i);
    }
  }

  /**
   * Whether entry `i` will have an object where the new meta looks for it: one that came trimmed is moved there
   * or was there; one that did not finds only what was there before and stays.
   */
  predicate Backed(b: Contents, prefix: string, files: seq<EditFile>, removed: seq<string>, i: nat)
    requires i < |files|
  {
    var key := prefix + Trim(files[i].path);
    if Trim(files[i].path) == files[i].path then files[i].oldPath == files[i].path ==> key in b
    else key in b && key !in removed && !Vacated(RenamesOf(prefix, files), key)
  }

  lemma BackedIffPresent(b: Contents, blocked: set<string>, prefix: string, files: seq<EditFile>,
                         removed: seq<string>, item: Object, i: nat)
    requires Accepted(blocked, files) && SparedBy(prefix, files, removed) && i < |files|
    requires Completed(b, RenamesOf(prefix, files))
    ensures prefix + Trim(files[i].path) in Edited(b, prefix, files, removed, item) <==>
            Backed(b, prefix, files, removed, i)
  {
    var rs, p := RenamesOf(prefix, files), Trim(files[i].path);
    MetaIsNoDestination(blocked, prefix, files);
    TrimmedIsNotMeta(blocked, prefix, files, i);
    if p == files[i].path {
      DestinationIsPresent(b, rs, removed, i);
      SameRest(prefix, files[i].oldPath, p);
    } else {
      TrimmedIsNoDestination(blocked, prefix, files, i);
      UnnamedUntouched(b, rs, removed, prefix + p);
    }
  }

  lemma TrimmedIsNotMeta(blocked: set<string>, prefix: string, files: seq<EditFile>, i: nat)
    requires Accepted(blocked, files) && i < |files|
    ensures prefix + Trim(files[i].path) != MetaKey(prefix)
  {
    assert WellFormed(Trim(files[i].path));
    NoSlashInMetaFile();
    SameRest(prefix, Trim(files[i].path), META_FILE);
  }

  lemma TrimmedIsNoDestination(blocked: set<string>, prefix: string, files: seq<EditFile>, i: nat)
    requires Accepted(blocked, files) && i < |files| && Trim(files[i].path) != files[i].path
    ensures !IsDestination(RenamesOf(prefix, files), prefix + Trim(files[i].path))
  {
    DestinationPaths(prefix, files, Trim(files[i].path));
    TrimTwice(files[i].path);
  }

  /**
   * A completed edit leaves every file its meta declares with an object if and only if each entry of the
   * request is backed, or nobody can read the meta anyway.
   */
  lemma EditIsSafeIffBacked(parse: string -> Option<RawdbMeta>, b: Contents, blocked: set<string>, prefix: string,
                            existing: seq<FileMeta>, files: seq<EditFile>, removed: seq<string>, meta: RawdbMeta,
                            item: Object)
    requires Reads(parse) && Accepted(blocked, files) && SparedBy(prefix, files, removed)
    requires Completed(b, RenamesOf(prefix, files))
    requires IsMetaOf(item, meta) && meta.files == RebuiltFiles(existing, files)
    ensures Safe(parse, Edited(b, prefix, files, removed, item), prefix) <==>
            (parse(item.text).Some? ==> forall i :: 0 <= i < |files| ==> Backed(b, prefix, files, removed, i))
  {
    var b' := Edited(b, prefix, files, removed, item);
    forall i | 0 <= i < |files|
      ensures prefix + Trim(files[i].path) in b' <==> Backed(b, prefix, files, removed, i)
    {
      BackedIffPresent(b, blocked, prefix, files, removed, item, i);
    }
    PutDeclares(parse, meta, item);
    if parse(item.text).Some? {
      assert Declared(parse, b', prefix) == parse(item.text).value.files;
      SafeIffPathsPresent(parse, b', prefix);
      RebuiltPaths(existing, files);
    }
  }

  lemma RebuiltPaths(existing: seq<FileMeta>, files: seq<EditFile>)
    ensures forall p :: p in Paths(RebuiltFiles(existing, files)) <==>
                        exists i :: 0 <= i < |files| && Trim(files[i].path) == p
  {
    var out := RebuiltFiles(existing, files);
    forall p ensures p in Paths(out) <==> exists i :: 0 <= i < |files| && Trim(files[i].path) == p {
      if p in Paths(out) {
        var i :| 0 <= i < |out| && out[i].path == p;
        assert Trim(files[i].path) == p;
      }
      if i :| 0 <= i < |files| && Trim(files[i].path) == p {
        assert out[i].path == p && out[i] in out;
      }
    }
  }

  /** A checksum that matched its file still does after the edit carried both. */
  ghost predicate ShaMatches(hash: string -> string, b: Contents, prefix: string, f: FileMeta) {
    f.sha256.Some? && prefix + f.path in b ==> hash(b[prefix + f.path].text) == f.sha256.value
  }

  lemma {:induction false} ShaOfMatches(hash: string -> string, b: Contents, prefix: string, existing: seq<FileMeta>,
                                        path: string)
    requires forall f :: f in existing ==> ShaMatches(hash, b, prefix, f)
    ensures ShaOf(existing, path).Some? && prefix + path in b ==>
            hash(b[prefix + path].text) == ShaOf(existing, path).value
  {
    if existing != [] {
      if existing[0].path == path {
        assert ShaMatches(hash, b, prefix, existing[0]);
      } else {
        ShaOfMatches(hash, b, prefix, existing[1..], path);
      }
    }
  }

  lemma ChecksumsMoveWithTheirFiles(hash: string -> string, b: Contents, blocked: set<string>, prefix: string,
                                    existing: seq<FileMeta>, files: seq<EditFile>, removed: seq<string>, item: Object)
    requires Accepted(blocked, files) && OldPathsExist(b, prefix, files) && SparedBy(prefix, files, removed)
    requires Trimmed(files) && NoneClobbered(prefix, files)
    requires forall f :: f in existing ==> ShaMatches(hash, b, prefix, f)
    ensures forall f :: f in RebuiltFiles(existing, files) ==>
              ShaMatches(hash, Edited(b, prefix, files, removed, item), prefix, f)
  {
    EditCarriesEveryFileUnless(b, blocked, prefix, files, removed, item);
    var b' := Edited(b, prefix, files, removed, item);
    forall f | f in RebuiltFiles(existing, files) ensures ShaMatches(hash, b', prefix, f) {
      var i :| 0 <= i < |files| && RebuiltFiles(existing, files)[i] == f;
      ShaOfMatches(hash, b, prefix, existing, files[i].oldPath);
      assert Carried(b, b', prefix, files[i]);
    }
  }

  /** What the edit does not name stays; a completed `edit_set` loses no file of the existing meta. */
  lemma EditLosesNoFile(b: Contents, blocked: set<string>, prefix: string, existing: seq<FileMeta>,
                        files: seq<EditFile>, item: Object, path: string)
    requires Accepted(blocked, files) && OldPathsExist(b, prefix, files)
    requires Trimmed(files) && NoneClobbered(prefix, files)
    requires Paths(existing) <= OldPaths(files) && path in Paths(existing)
    ensures exists i :: 0 <= i < |files| && files[i].oldPath == path &&
                        Carried(b, Edited(b, prefix, files, [], item), prefix, files[i])
  {
    EditCarriesEveryFileUnless(b, blocked, prefix, files, [], item);
    assert path in OldPaths(files);
    var i :| 0 <= i < |files| && files[i].oldPath == path;
    assert Carried(b, Edited(b, prefix, files, [], item), prefix, files[i]);
  }

  lemma UnnamedObjectsStay(b: Contents, blocked: set<string>, prefix: string, files: seq<EditFile>,
                           removed: seq<string>, item: Object, key: string)
    requires Accepted(blocked, files)
    requires key != MetaKey(prefix) && key !in removed
    requires !IsDestination(RenamesOf(prefix, files), key) && !IsSource(RenamesOf(prefix, files), key)
    ensures key in Edited(b, prefix, files, removed, item) <==> key in b
    ensures key in b ==> Edited(b, prefix, files, removed, item)[key] == b[key]
  {
    UnnamedUntouched(b, RenamesOf(prefix, files), removed, key);
  }

  /** What `edit_pending` removes is never a destination, nor a file the request carries. */
  lemma {:induction false} DroppedAreSpared(prefix: string, existing: seq<FileMeta>, files: seq<EditFile>)
    ensures SparedBy(prefix, files, Dropped(prefix, existing, files))
    ensures forall path :: prefix + path in Dropped(prefix, existing, files) <==>
              (path in Paths(existing) && path !in OldPaths(files) && path !in NewPaths(files))
  {
    if existing != [] {
      var init, last := existing[..|existing| - 1], existing[|existing| - 1];
      DroppedAreSpared(prefix, init, files);
      assert existing == init + [last];
      assert Paths(existing) == Paths(init) + {last.path};
      DestinationPaths(prefix, files, last.path);
      forall path ensures prefix + path == prefix + last.path <==> path == last.path {
        SameRest(prefix, path, last.path);
      }
    }
  }

  /** A completed edit is its writes in order, all below the set's prefix, and its meta write closes them. */
  lemma EditCloses(parse: string -> Option<RawdbMeta>, b: Contents, prefix: string, files: seq<EditFile>,
                   removed: seq<string>, item: Object)
    ensures Play(b, EditWrites(prefix, files, removed, item)) == Edited(b, prefix, files, removed, item)
    ensures Closes(parse, prefix, EditWrites(prefix, files, removed, item))
  {
    var before, writes := MoveWrites(prefix, files, removed), EditWrites(prefix, files, removed, item);
    MoveWritesMove(b, prefix, files, removed);
    assert writes[..|before|] == before && writes[|before| + 1..] == [];
    assert ClosesAt(parse, prefix, writes, |before|);
  }
}
