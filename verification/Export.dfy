/** The bulk catalogue export: three table scans assembled in memory, proved equal to asking for
    each set on its own. Tables are row sequences of one database snapshot; `ORDER BY` results are
    any arrangement that is in order. */
module Export {
  import opened Wrappers
  import opened Sequences
  import opened Catalogue

  datatype SetRec = SetRec(key: SetKey, license: string, notes: Option<string>, uploadedAt: Option<string>,
                           uploadedBy: Option<string>, special: bool)

  datatype FileRec = FileRec(key: SetKey, path: string, category: string, extension: Option<string>, size: int,
                             license: Option<string>, notes: Option<string>, sha256: Option<string>)

  /** A tag row; set-level tags have no file. */
  datatype TagRec = TagRec(key: SetKey, path: Option<string>, tag: string)

  datatype FileRow = FileRow(path: string, category: string, extension: Option<string>, size: nat,
                             license: Option<string>, notes: Option<string>, sha256: Option<string>)

  datatype ExportFile = ExportFile(row: FileRow, tags: seq<string>)

  datatype ExportSet = ExportSet(rec: SetRec, tags: seq<string>, files: seq<ExportFile>)

  /** What the primary and foreign keys of the schema guarantee. */
  ghost predicate Keyed(sets: seq<SetRec>, files: seq<FileRec>) {
    && (forall i, j :: 0 <= i < j < |sets| ==> sets[i].key != sets[j].key)
    && (forall i, j :: 0 <= i < j < |files| ==> files[i].key != files[j].key || files[i].path != files[j].path)
    && (forall i :: 0 <= i < |files| ==> exists j :: 0 <= j < |sets| && sets[j].key == files[i].key)
  }

  // ---- SQL text order -------------------------------------------------------

  predicate Below(a: string, b: string) {
    b != "" && (a == "" || a[0] < b[0] || (a[0] == b[0] && Below(a[1..], b[1..])))
  }

  lemma {:induction false} BelowIsTotal(a: string, b: string)
    ensures a == b || Below(a, b) || Below(b, a)
    ensures !Below(a, a)
  {
    if a != "" {
      BelowIsTotal(a[1..], a[1..]);
      if b != "" {
        BelowIsTotal(a[1..], b[1..]);
        assert a == [a[0]] + a[1..] && b == [b[0]] + b[1..];
      }
    }
  }

  /** `ORDER BY category, path`. */
  predicate FileBelow(a: FileRec, b: FileRec) {
    Below(a.category, b.category) || (a.category == b.category && Below(a.path, b.path))
  }

  /** `ORDER BY maker, model, category, path`. */
  predicate RowBelow(a: FileRec, b: FileRec) {
    KeyBelow(a.key, b.key) || (a.key == b.key && FileBelow(a, b))
  }

  predicate KeyBelow(a: SetKey, b: SetKey) {
    Below(a.maker, b.maker) || (a.maker == b.maker && Below(a.model, b.model))
  }

  // ---- what each query answers ------------------------------------------------

  function ToRow(f: FileRec): FileRow {
    FileRow(f.path, f.category, f.extension, if f.size > 0 then f.size else 0, f.license, f.notes, f.sha256)
  }

  function InSet(key: SetKey): FileRec -> bool {
    (f: FileRec) => f.key == key
  }

  ghost predicate ListFilesAnswer(files: seq<FileRec>, key: SetKey, answer: seq<FileRec>) {
    multiset(answer) == multiset(Filter(InSet(key), files)) && Ordered(FileBelow, answer)
  }

  ghost predicate AllFilesAnswer(files: seq<FileRec>, answer: seq<FileRec>) {
    multiset(answer) == multiset(files) && Ordered(RowBelow, answer)
  }

  /** One file's own tags, in row order. */
  function FileTags(tags: seq<TagRec>, key: SetKey, path: string): seq<string> {
    if tags == [] then []
    else
      var last := tags[|tags| - 1];
      FileTags(tags[..|tags| - 1], key, path) + if last.key == key && last.path == Some(path) then [last.tag] else []
  }

  /** Every tag of a set once, by first appearance. */
  function SetTags(tags: seq<TagRec>, key: SetKey): seq<string> {
    if tags == [] then []
    else
      var last, before := tags[|tags| - 1], SetTags(tags[..|tags| - 1], key);
      before + if last.key == key && last.tag !in before then [last.tag] else []
  }

  function SetFiles(files: seq<FileRec>, tags: seq<TagRec>, key: SetKey): seq<ExportFile> {
    if files == [] then []
    else
      var last := files[|files| - 1];
      SetFiles(files[..|files| - 1], tags, key) +
      if last.key == key then [ExportFile(ToRow(last), FileTags(tags, key, last.path))] else []
  }

  function ExportOne(rec: SetRec, files: seq<FileRec>, tags: seq<TagRec>): ExportSet {
    ExportSet(rec, SetTags(tags, rec.key), SetFiles(files, tags, rec.key))
  }

  ghost predicate HasSet(sets: seq<SetRec>, key: SetKey) {
    exists j :: 0 <= j < |sets| && sets[j].key == key
  }

  ghost predicate HasFile(files: seq<FileRec>, key: SetKey, path: string) {
    exists j :: 0 <= j < |files| && files[j].key == key && files[j].path == path
  }

  // ---- the assembly -----------------------------------------------------------

  function Get<K, V>(m: map<K, seq<V>>, k: K): seq<V> {
    if k in m then m[k] else []
  }

  /** One more tag row changes the tags of its own set, and of its own file if it has one. */
  lemma OneMoreTag(tags: seq<TagRec>, i: nat, key: SetKey, path: string)
    requires i < |tags|
    ensures var row, known := tags[i], SetTags(tags[..i], key);
            SetTags(tags[..i + 1], key) == if row.key == key && row.tag !in known then known + [row.tag] else known
    ensures var row, known := tags[i], FileTags(tags[..i], key, path);
            FileTags(tags[..i + 1], key, path) ==
            if row.key == key && row.path == Some(path) then known + [row.tag] else known
  {
    assert tags[..i + 1][..i] == tags[..i] && tags[..i + 1][i] == tags[i];
  }

  ghost predicate GroupedBySet(setTags: map<SetKey, seq<string>>, tags: seq<TagRec>) {
    forall k :: Get(setTags, k) == SetTags(tags, k)
  }

  ghost predicate GroupedByFile(fileTags: map<(SetKey, string), seq<string>>, tags: seq<TagRec>) {
    forall k, p :: Get(fileTags, (k, p)) == FileTags(tags, k, p)
  }

  function WithSetTag(setTags: map<SetKey, seq<string>>, row: TagRec): map<SetKey, seq<string>> {
    var known := Get(setTags, row.key);
    setTags[row.key := if row.tag in known then known else known + [row.tag]]
  }

  function WithFileTag(fileTags: map<(SetKey, string), seq<string>>, row: TagRec): map<(SetKey, string), seq<string>> {
    if row.path.None? then fileTags
    else fileTags[(row.key, row.path.value) := Get(fileTags, (row.key, row.path.value)) + [row.tag]]
  }

  lemma SetTagAdded(setTags: map<SetKey, seq<string>>, tags: seq<TagRec>, i: nat)
    requires i < |tags| && GroupedBySet(setTags, tags[..i])
    ensures GroupedBySet(WithSetTag(setTags, tags[i]), tags[..i + 1])
  {
    forall k ensures Get(WithSetTag(setTags, tags[i]), k) == SetTags(tags[..i + 1], k) {
      assert Get(setTags, k) == SetTags(tags[..i], k);
      OneMoreTag(tags, i, k, "");
    }
  }

  lemma FileTagAdded(fileTags: map<(SetKey, string), seq<string>>, tags: seq<TagRec>, i: nat)
    requires i < |tags| && GroupedByFile(fileTags, tags[..i])
    ensures GroupedByFile(WithFileTag(fileTags, tags[i]), tags[..i + 1])
  {
    forall k, p ensures Get(WithFileTag(fileTags, tags[i]), (k, p)) == FileTags(tags[..i + 1], k, p) {
      assert Get(fileTags, (k, p)) == FileTags(tags[..i], k, p);
      OneMoreTag(tags, i, k, p);
    }
  }

  method GroupTags(tags: seq<TagRec>)
    returns (setTags: map<SetKey, seq<string>>, fileTags: map<(SetKey, string), seq<string>>)
    ensures GroupedBySet(setTags, tags) && GroupedByFile(fileTags, tags)
  {
    setTags, fileTags := map[], map[];
    for i := 0 to |tags|
      invariant GroupedBySet(setTags, tags[..i]) && GroupedByFile(fileTags, tags[..i])
    {
      SetTagAdded(setTags, tags, i);
      FileTagAdded(fileTags, tags, i);
      setTags, fileTags := WithSetTag(setTags, tags[i]), WithFileTag(fileTags, tags[i]);
    }
    assert tags[..|tags|] == tags;
  }

  method GroupFiles(files: seq<FileRec>, tags: seq<TagRec>, fileTags: map<(SetKey, string), seq<string>>)
    returns (bySet: map<SetKey, seq<ExportFile>>)
    requires GroupedByFile(fileTags, tags)
    ensures forall k :: Get(bySet, k) == SetFiles(files, tags, k)
  {
    bySet := map[];
    for i := 0 to |files|
      invariant forall k :: Get(bySet, k) == SetFiles(files[..i], tags, k)
    {
      assert files[..i + 1][..i] == files[..i];
      var f := files[i];
      bySet := bySet[f.key := Get(bySet, f.key) + [ExportFile(ToRow(f), Get(fileTags, (f.key, f.path)))]];
    }
    assert files[..|files|] == files;
  }

  /** The maps still hold what belongs to the sets from `n` on. */
  ghost predicate Waiting(sets: seq<SetRec>, files: seq<FileRec>, tags: seq<TagRec>,
                          setTags: map<SetKey, seq<string>>, bySet: map<SetKey, seq<ExportFile>>, n: nat)
  {
    forall j :: n <= j < |sets| ==>
      Get(setTags, sets[j].key) == SetTags(tags, sets[j].key) &&
      Get(bySet, sets[j].key) == SetFiles(files, tags, sets[j].key)
  }

  lemma TakeOne(sets: seq<SetRec>, files: seq<FileRec>, tags: seq<TagRec>, setTags: map<SetKey, seq<string>>,
                bySet: map<SetKey, seq<ExportFile>>, n: nat)
    requires n < |sets| && Waiting(sets, files, tags, setTags, bySet, n)
    requires forall j :: n < j < |sets| ==> sets[n].key != sets[j].key
    ensures Waiting(sets, files, tags, setTags - {sets[n].key}, bySet - {sets[n].key}, n + 1)
    ensures ExportSet(sets[n], Get(setTags, sets[n].key), Get(bySet, sets[n].key)) == ExportOne(sets[n], files, tags)
  {
    var key := sets[n].key;
    forall j | n + 1 <= j < |sets|
      ensures Get(setTags - {key}, sets[j].key) == Get(setTags, sets[j].key)
      ensures Get(bySet - {key}, sets[j].key) == Get(bySet, sets[j].key)
    {
      assert sets[j].key != key;
    }
  }

  /** One entry per set, in order, with its files and tags. */
  ghost predicate IsExport(sets: seq<SetRec>, files: seq<FileRec>, tags: seq<TagRec>, out: seq<ExportSet>) {
    |out| == |sets| && forall i :: 0 <= i < |sets| ==> out[i] == ExportOne(sets[i], files, tags)
  }

  /** `sets` and `files` are the ordered answers of their queries, `tags` the unordered one. */
  method ExportAll(sets: seq<SetRec>, files: seq<FileRec>, tags: seq<TagRec>) returns (out: seq<ExportSet>)
    requires Keyed(sets, files)
    ensures IsExport(sets, files, tags, out)
  {
    var setTags, fileTags := GroupTags(tags);
    var bySet := GroupFiles(files, tags, fileTags);
    out := [];
    for i := 0 to |sets|
      invariant |out| == i && forall j :: 0 <= j < i ==> out[j] == ExportOne(sets[j], files, tags)
      invariant Waiting(sets, files, tags, setTags, bySet, i)
    {
      var key := sets[i].key;
      TakeOne(sets, files, tags, setTags, bySet, i);
      out := out + [ExportSet(sets[i], Get(setTags, key), Get(bySet, key))];
      setTags, bySet := setTags - {key}, bySet - {key};
    }
  }

  // ---- refinement of the per-set queries ----------------------------------------

  function Rows(files: seq<ExportFile>): seq<FileRow> {
    seq(|files|, i requires 0 <= i < |files| => files[i].row)
  }

  lemma {:induction false} SetFilesAreFiltered(files: seq<FileRec>, tags: seq<TagRec>, key: SetKey)
    ensures var kept, exported := Filter(InSet(key), files), SetFiles(files, tags, key);
            |exported| == |kept| && forall i :: 0 <= i < |kept| ==>
              exported[i] == ExportFile(ToRow(kept[i]), FileTags(tags, key, kept[i].path))
  {
    if files != [] { SetFilesAreFiltered(files[..|files| - 1], tags, key); }
  }

  /** A set's exported files have the paths of its rows. */
  lemma SetFilesHavePaths(files: seq<FileRec>, tags: seq<TagRec>, key: SetKey, path: string)
    ensures (exists f :: f in SetFiles(files, tags, key) && f.row.path == path) <==> HasFile(files, key, path)
  {
    SetFilesAreFiltered(files, tags, key);
    var kept, exported := Filter(InSet(key), files), SetFiles(files, tags, key);
    if f :| f in exported && f.row.path == path {
      var i :| 0 <= i < |exported| && exported[i] == f;
      FilterIn(InSet(key), files, kept[i]);
      assert kept[i] in files && kept[i].key == key && kept[i].path == path;
    }
    if HasFile(files, key, path) {
      var j :| 0 <= j < |files| && files[j].key == key && files[j].path == path;
      FilterIn(InSet(key), files, files[j]);
      var i :| 0 <= i < |kept| && kept[i] == files[j];
      assert exported[i] in exported && exported[i].row.path == path;
    }
  }

  lemma RowOrderIsStrict(sets: seq<SetRec>, files: seq<FileRec>)
    requires Keyed(sets, files) && Ordered(RowBelow, files)
    ensures StrictlyOrdered(RowBelow, files)
  {
    forall i, j | 0 <= i < j < |files| ensures RowBelow(files[i], files[j]) {
      var a, b := files[i], files[j];
      assert !RowBelow(b, a);
      BelowIsTotal(a.key.maker, b.key.maker);
      BelowIsTotal(a.key.model, b.key.model);
      BelowIsTotal(a.category, b.category);
      BelowIsTotal(a.path, b.path);
    }
  }

  /** The scan of all files, cut down to one set, is what that set's own ordered query answers. */
  lemma FilteredScanIsListFiles(sets: seq<SetRec>, files: seq<FileRec>, scan: seq<FileRec>, key: SetKey,
                                answer: seq<FileRec>)
    requires Keyed(sets, files) && Keyed(sets, scan)
    requires AllFilesAnswer(files, scan) && ListFilesAnswer(files, key, answer)
    ensures Filter(InSet(key), scan) == answer
  {
    var kept := Filter(InSet(key), scan);
    RowOrderIsStrict(sets, scan);
    FilterOrdered(RowBelow, InSet(key), scan);
    FilterMembers(InSet(key), scan);
    forall i, j | 0 <= i < j < |kept| ensures FileBelow(kept[i], kept[j]) {
      assert RowBelow(kept[i], kept[j]) && kept[i].key == kept[j].key == key;
      BelowIsTotal(key.maker, key.maker);
      BelowIsTotal(key.model, key.model);
    }
    forall f ensures multiset(kept)[f] == multiset(answer)[f] {
      FilterCounts(InSet(key), scan, f);
      FilterCounts(InSet(key), files, f);
    }
    assert multiset(answer) == multiset(kept);
    OrderIsUnique(FileBelow, answer, kept);
  }

  /** A table row as the export shows it; a negative size counts as zero. */
  predicate ShowsRow(shown: FileRow, f: FileRec) {
    && shown.path == f.path && shown.category == f.category && shown.extension == f.extension
    && (shown.size as int == f.size || (f.size < 0 && shown.size == 0))
    && shown.license == f.license && shown.notes == f.notes && shown.sha256 == f.sha256
  }

  /** Each exported set carries exactly its `list_files` rows, in the same order, each with its own tags. */
  lemma ExportMatchesListFiles(sets: seq<SetRec>, files: seq<FileRec>, scan: seq<FileRec>, tags: seq<TagRec>,
                               out: seq<ExportSet>, n: nat, answer: seq<FileRec>)
    requires Keyed(sets, files) && Keyed(sets, scan) && IsExport(sets, scan, tags, out) && n < |sets|
    requires AllFilesAnswer(files, scan) && ListFilesAnswer(files, sets[n].key, answer)
    ensures out[n].rec == sets[n] && |out[n].files| == |answer|
    ensures forall i :: 0 <= i < |answer| ==>
              ShowsRow(out[n].files[i].row, answer[i]) &&
              out[n].files[i].tags == FileTags(tags, sets[n].key, answer[i].path)
  {
    var key := sets[n].key;
    FilteredScanIsListFiles(sets, files, scan, key, answer);
    SetFilesAreFiltered(scan, tags, key);
    assert out[n] == ExportOne(sets[n], scan, tags);
  }

  /** The order a tag query returns its rows in does not change any file's tags as a multiset. */
  lemma {:induction false} FileTagsIgnoreRowOrder(tags: seq<TagRec>, other: seq<TagRec>, key: SetKey, path: string)
    requires multiset(tags) == multiset(other)
    ensures multiset(FileTags(tags, key, path)) == multiset(FileTags(other, key, path))
  {
    forall tag ensures multiset(FileTags(tags, key, path))[tag] == multiset(FileTags(other, key, path))[tag] {
      FileTagCount(tags, key, path, tag);
      FileTagCount(other, key, path, tag);
    }
  }

  lemma {:induction false} FileTagCount(tags: seq<TagRec>, key: SetKey, path: string, tag: string)
    ensures multiset(FileTags(tags, key, path))[tag] == multiset(tags)[TagRec(key, Some(path), tag)]
  {
    if tags != [] {
      FileTagCount(tags[..|tags| - 1], key, path, tag);
      CountsLast(tags, TagRec(key, Some(path), tag));
    }
  }

  lemma {:induction false} SetTagsAre(tags: seq<TagRec>, key: SetKey, tag: string)
    ensures Distinct(SetTags(tags, key))
    ensures tag in SetTags(tags, key) <==> exists i :: 0 <= i < |tags| && tags[i].key == key && tags[i].tag == tag
  {
    if tags != [] {
      var init := tags[..|tags| - 1];
      SetTagsAre(init, key, tag);
      assert forall i :: 0 <= i < |init| ==> init[i] == tags[i];
    }
  }

  /** An exported set's tags are the distinct union of all its tag rows, its files' included. */
  lemma SetTagsAreTheUnion(sets: seq<SetRec>, files: seq<FileRec>, tags: seq<TagRec>, out: seq<ExportSet>, n: nat,
                           tag: string)
    requires IsExport(sets, files, tags, out) && n < |sets|
    ensures Distinct(out[n].tags)
    ensures tag in out[n].tags <==> exists i :: 0 <= i < |tags| && tags[i].key == sets[n].key && tags[i].tag == tag
  {
    SetTagsAre(tags, sets[n].key, tag);
    assert out[n] == ExportOne(sets[n], files, tags);
  }

  // ---- nothing lost, nothing twice ------------------------------------------------

  /** The file rows of all exported sets, in export order. */
  function Flatten(sets: seq<SetRec>, files: seq<FileRec>): seq<FileRec> {
    if sets == [] then []
    else Flatten(sets[..|sets| - 1], files) + Filter(InSet(sets[|sets| - 1].key), files)
  }

  lemma HasSetStep(sets: seq<SetRec>, key: SetKey)
    requires sets != [] && forall i, j :: 0 <= i < j < |sets| ==> sets[i].key != sets[j].key
    ensures HasSet(sets, key) <==> HasSet(sets[..|sets| - 1], key) || sets[|sets| - 1].key == key
    ensures !(HasSet(sets[..|sets| - 1], key) && sets[|sets| - 1].key == key)
  {
    assert forall j :: 0 <= j < |sets| - 1 ==> sets[..|sets| - 1][j] == sets[j];
  }

  lemma {:induction false} FlattenCounts(sets: seq<SetRec>, files: seq<FileRec>, f: FileRec)
    requires forall i, j :: 0 <= i < j < |sets| ==> sets[i].key != sets[j].key
    ensures multiset(Flatten(sets, files))[f] == if HasSet(sets, f.key) then multiset(files)[f] else 0
  {
    if sets != [] {
      HasSetStep(sets, f.key);
      FlattenCounts(sets[..|sets| - 1], files, f);
      FilterCounts(InSet(sets[|sets| - 1].key), files, f);
    }
  }

  lemma FlattenHasEveryFile(sets: seq<SetRec>, files: seq<FileRec>)
    requires Keyed(sets, files)
    ensures multiset(Flatten(sets, files)) == multiset(files)
  {
    forall f ensures multiset(Flatten(sets, files))[f] == multiset(files)[f] {
      FlattenCounts(sets, files, f);
      if multiset(files)[f] > 0 {
        assert f in files;
      }
    }
  }

  function WithKey(f: FileRec): (SetKey, FileRow) {
    (f.key, ToRow(f))
  }

  /** The rows of one exported set, and of the whole export, with the set they stand under. */
  function RowsOf(s: ExportSet): seq<(SetKey, FileRow)> {
    seq(|s.files|, i requires 0 <= i < |s.files| => (s.rec.key, s.files[i].row))
  }

  function Exported(out: seq<ExportSet>): seq<(SetKey, FileRow)> {
    if out == [] then [] else Exported(out[..|out| - 1]) + RowsOf(out[|out| - 1])
  }

  lemma SetRowsAreFiltered(rec: SetRec, files: seq<FileRec>, tags: seq<TagRec>)
    ensures RowsOf(ExportOne(rec, files, tags)) == Map(WithKey, Filter(InSet(rec.key), files))
  {
    var kept := Filter(InSet(rec.key), files);
    SetFilesAreFiltered(files, tags, rec.key);
    FilterMembers(InSet(rec.key), files);
    forall i | 0 <= i < |kept| ensures RowsOf(ExportOne(rec, files, tags))[i] == WithKey(kept[i]) {
      assert InSet(rec.key)(kept[i]);
    }
  }

  lemma {:induction false} ExportedIsFlatten(sets: seq<SetRec>, files: seq<FileRec>, tags: seq<TagRec>,
                                             out: seq<ExportSet>)
    requires IsExport(sets, files, tags, out)
    ensures Exported(out) == Map(WithKey, Flatten(sets, files))
    decreases |out|
  {
    if out == [] {
      assert Flatten(sets, files) == [];
    } else {
      var n := |out| - 1;
      ExportedIsFlatten(sets[..n], files, tags, out[..n]);
      SetRowsAreFiltered(sets[n], files, tags);
      MapAppend(WithKey, Flatten(sets[..n], files), Filter(InSet(sets[n].key), files));
    }
  }

  /** Whatever satisfies `ExportAll`'s contract shows every file row exactly once, under its own set. */
  lemma {:induction false} EveryFileOnce(sets: seq<SetRec>, files: seq<FileRec>, tags: seq<TagRec>, out: seq<ExportSet>)
    requires Keyed(sets, files)
    requires IsExport(sets, files, tags, out)
    ensures multiset(Exported(out)) == multiset(Map(WithKey, files))
  {
    ExportedIsFlatten(sets, files, tags, out);
    FlattenHasEveryFile(sets, files);
    MapOfPermutation(WithKey, Flatten(sets, files), files);
  }
}
