/** `rawdb_sync.py --delete`: the files a sync client removes because the export omits them. */
module Sync {
  import opened Catalogue
  import opened Text
  import opened Bucket
  import opened Scanner
  import opened Export

  /** A file below `<local>/<maker>/<model>/`. */
  datatype LocalFile = LocalFile(maker: string, model: string, rel: string)

  const SPECIAL_NAMES: set<string> := {"rawdb-meta.toml", "LICENSE", "NOTES"}

  type Expected = map<SetKey, set<string>>

  // ---- What the export expects ----

  function PathsOf(s: ExportSet): set<string> {
    set f | f in s.files :: f.row.path
  }

  predicate ExpectsSet(sets: seq<ExportSet>, key: SetKey) {
    exists i :: 0 <= i < |sets| && sets[i].rec.key == key
  }

  predicate ExpectsFile(sets: seq<ExportSet>, key: SetKey, path: string) {
    exists i :: 0 <= i < |sets| && sets[i].rec.key == key && path in PathsOf(sets[i])
  }

  ghost predicate IsExpected(sets: seq<ExportSet>, expected: Expected) {
    && (forall key :: key in expected <==> ExpectsSet(sets, key))
    && (forall key, path :: key in expected ==> (path in expected[key] <==> ExpectsFile(sets, key, path)))
  }

  lemma OneMoreSet(sets: seq<ExportSet>, s: ExportSet, expected: Expected)
    requires IsExpected(sets, expected)
    ensures var key := s.rec.key;
            var before := if key in expected then expected[key] else {};
            IsExpected(sets + [s], expected[key := before + PathsOf(s)])
  {
    var all := sets + [s];
    assert all[|sets|] == s && forall i :: 0 <= i < |sets| ==> all[i] == sets[i];
    forall key ensures ExpectsSet(all, key) <==> ExpectsSet(sets, key) || s.rec.key == key {
      if ExpectsSet(sets, key) {
        var i :| 0 <= i < |sets| && sets[i].rec.key == key;
        assert all[i] == sets[i];
      }
    }
    forall key, path
      ensures ExpectsFile(all, key, path) <==>
              ExpectsFile(sets, key, path) || (s.rec.key == key && path in PathsOf(s))
    {
      if ExpectsFile(sets, key, path) {
        var i :| 0 <= i < |sets| && sets[i].rec.key == key && path in PathsOf(sets[i]);
        assert all[i] == sets[i];
      }
    }
    forall key, path | ExpectsFile(sets, key, path) ensures ExpectsSet(sets, key) {
      var i :| 0 <= i < |sets| && sets[i].rec.key == key && path in PathsOf(sets[i]);
    }
  }

  /** The loop of `main` over the export: a set named twice gathers both lists. */
  method BuildExpected(sets: seq<ExportSet>) returns (expected: Expected)
    ensures IsExpected(sets, expected)
  {
    expected := map[];
    var i := 0;
    while i < |sets|
      invariant 0 <= i <= |sets|
      invariant IsExpected(sets[..i], expected)
    {
      var key := sets[i].rec.key;
      OneMoreSet(sets[..i], sets[i], expected);
      assert sets[..i + 1] == sets[..i] + [sets[i]];
      var paths := if key in expected then expected[key] else {};
      expected := expected[key := paths + PathsOf(sets[i])];
      i := i + 1;
    }
    assert sets[..i] == sets;
  }

  // ---- Pruning ----

  function BaseName(rel: string): string {
    var pieces := Split(rel, '/');
    pieces[|pieces| - 1]
  }

  predicate Hidden(maker: string) {
    maker != "" && maker[0] == '.'
  }

  function KeyOf(f: LocalFile): SetKey {
    SetKey(f.maker, f.model)
  }

  /** What the walk leaves: hidden top directories, expected files, and the special names of sets still listed. */
  predicate Kept(expected: Expected, f: LocalFile) {
    Hidden(f.maker) || (KeyOf(f) in expected && (f.rel in expected[KeyOf(f)] || BaseName(f.rel) in SPECIAL_NAMES))
  }

  function Stray(expected: Expected, files: set<LocalFile>): set<LocalFile> {
    set f | f in files && !Kept(expected, f)
  }

  function StrayIn(expected: Expected, files: set<LocalFile>, dirs: set<SetKey>): set<LocalFile> {
    set f | f in files && KeyOf(f) in dirs && !Kept(expected, f)
  }

  lemma OneMoreDir(expected: Expected, files: set<LocalFile>, dirs: set<SetKey>, key: SetKey)
    requires key !in dirs
    ensures StrayIn(expected, files, dirs + {key}) == StrayIn(expected, files, dirs) + StrayIn(expected, files, {key})
    ensures |StrayIn(expected, files, dirs + {key})| ==
            |StrayIn(expected, files, dirs)| + |StrayIn(expected, files, {key})|
  {
    assert StrayIn(expected, files, dirs) !! StrayIn(expected, files, {key});
  }

  /** Pruning other directories leaves this one's strays. */
  lemma StraysStay(expected: Expected, all: set<LocalFile>, dirs: set<SetKey>, key: SetKey)
    requires key !in dirs
    ensures StrayIn(expected, all - StrayIn(expected, all, dirs), {key}) == StrayIn(expected, all, {key})
    ensures all - StrayIn(expected, all, dirs) - StrayIn(expected, all, {key}) ==
            all - StrayIn(expected, all, dirs + {key})
  {
  }

  lemma AllDirsAreAll(expected: Expected, all: set<LocalFile>, dirs: set<SetKey>)
    requires forall f :: f in all && !Hidden(f.maker) ==> KeyOf(f) in dirs
    ensures StrayIn(expected, all, dirs) == Stray(expected, all)
  {
  }

  /** The directories still to walk and those walked. */
  ghost predicate Walks(all: set<LocalFile>, dirs: set<SetKey>, done: set<SetKey>) {
    && dirs !! done
    && (forall f :: f in all && !Hidden(f.maker) ==> KeyOf(f) in dirs || KeyOf(f) in done)
    && (forall key :: key in dirs ==> !Hidden(key.maker))
  }

  class LocalTree {
    var files: set<LocalFile>
    var pruned: nat

    constructor (files: set<LocalFile>)
      ensures this.files == files && pruned == 0
    {
      this.files, pruned := files, 0;
    }

    /** One model directory: all of it when its set is gone, else the files nothing speaks for. */
    method PruneDir(expected: Expected, key: SetKey, delete: bool)
      requires !Hidden(key.maker)
      modifies this
      ensures files == old(files) - (if delete then StrayIn(expected, old(files), {key}) else {})
      ensures pruned == old(pruned) + |StrayIn(expected, old(files), {key})|
    {
      var inside := set f | f in files && KeyOf(f) == key;
      if key !in expected {
        assert inside == StrayIn(expected, files, {key});
        pruned := pruned + |inside|;
        if delete {
          files := files - inside;
        }
        return;
      }
      var want := expected[key];
      ghost var all, gone: set<LocalFile> := files, {};
      while inside != {}
        invariant forall f :: f in inside ==> f in all && KeyOf(f) == key
        invariant gone <= all && gone !! inside
        invariant forall f :: f in all && KeyOf(f) == key && f !in inside ==> (f in gone <==> !Kept(expected, f))
        invariant forall f :: f in gone ==> KeyOf(f) == key
        invariant files == all - (if delete then gone else {}) && pruned == old(pruned) + |gone|
      {
        var f :| f in inside;
        inside := inside - {f};
        if !(f.rel in want || BaseName(f.rel) in SPECIAL_NAMES) {
          if delete {
            files := files - {f};
          }
          pruned := pruned + 1;
          gone := gone + {f};
        }
      }
      assert gone == StrayIn(expected, all, {key});
    }

    /** The walk over all directories; without `delete` it only counts. */
    method PruneOrCount(expected: Expected, delete: bool)
      modifies this
      ensures files == if delete then old(files) - Stray(expected, old(files)) else old(files)
      ensures pruned == old(pruned) + |Stray(expected, old(files))|
    {
      ghost var all := files;
      var dirs := set f | f in files && !Hidden(f.maker) :: KeyOf(f);
      ghost var done: set<SetKey> := {};
      assert StrayIn(expected, all, {}) == {};
      while dirs != {}
        invariant Walks(all, dirs, done)
        invariant files == if delete then all - StrayIn(expected, all, done) else all
        invariant pruned == old(pruned) + |StrayIn(expected, all, done)|
      {
        var key :| key in dirs;
        OneMoreDir(expected, all, done, key);
        StraysStay(expected, all, done, key);
        PruneDir(expected, key, delete);
        dirs, done := dirs - {key}, done + {key};
      }
      AllDirsAreAll(expected, all, done);
    }
  }

  // ---- Pruning by an export of the cache ----

  ghost predicate RowHasPath(rows: map<Place, Row>, key: SetKey, path: string) {
    Sample(key) in rows &&
    exists i :: 0 <= i < |rows[Sample(key)].files| && rows[Sample(key)].files[i].file.path == path
  }

  /** The `sets` and `files` tables hold what the upserts of the cached rows put there. */
  ghost predicate TablesOf(sets: seq<SetRec>, files: seq<FileRec>, rows: map<Place, Row>) {
    && (forall key :: HasSet(sets, key) <==> Sample(key) in rows)
    && (forall key, path :: HasFile(files, key, path) <==> RowHasPath(rows, key, path))
  }

  /** The export shows the cached sets and no others, with the paths of their files. */
  ghost predicate Exports(out: seq<ExportSet>, rows: map<Place, Row>) {
    && (forall key :: ExpectsSet(out, key) <==> Sample(key) in rows)
    && (forall key, path :: ExpectsFile(out, key, path) <==> RowHasPath(rows, key, path))
  }

  /** Whatever meets `ExportAll`'s contract over the tables of the cache shows the cache. */
  lemma ExportShowsRows(sets: seq<SetRec>, files: seq<FileRec>, tags: seq<TagRec>, out: seq<ExportSet>,
                        rows: map<Place, Row>)
    requires TablesOf(sets, files, rows) && IsExport(sets, files, tags, out)
    ensures Exports(out, rows)
  {
    forall key ensures ExpectsSet(out, key) <==> HasSet(sets, key) {
      if ExpectsSet(out, key) {
        var i :| 0 <= i < |out| && out[i].rec.key == key;
        assert sets[i].key == key;
      }
      if HasSet(sets, key) {
        var j :| 0 <= j < |sets| && sets[j].key == key;
        assert out[j].rec.key == key;
      }
    }
    forall key, path ensures ExpectsFile(out, key, path) <==> HasFile(files, key, path) {
      ExportShowsFile(sets, files, tags, out, rows, key, path);
    }
  }

  lemma ExportShowsFile(sets: seq<SetRec>, files: seq<FileRec>, tags: seq<TagRec>, out: seq<ExportSet>,
                        rows: map<Place, Row>, key: SetKey, path: string)
    requires TablesOf(sets, files, rows) && IsExport(sets, files, tags, out)
    ensures ExpectsFile(out, key, path) <==> HasFile(files, key, path)
  {
    SetFilesHavePaths(files, tags, key, path);
    if ExpectsFile(out, key, path) {
      var i :| 0 <= i < |out| && out[i].rec.key == key && path in PathsOf(out[i]);
      assert out[i] == ExportOne(sets[i], files, tags);
    }
    if HasFile(files, key, path) {
      assert RowHasPath(rows, key, path) && HasSet(sets, key);
      var j :| 0 <= j < |sets| && sets[j].key == key;
      assert out[j] == ExportOne(sets[j], files, tags);
    }
  }

  /**
   * A prune driven by the export of any reachable cache keeps of a cached set exactly the files that the meta
   * behind its row declares and the special names, and whatever is below a hidden directory.
   */
  lemma PruneKeepsDeclaredFiles(parse: Parser, run: seq<State>, k: nat, sets: seq<SetRec>, files: seq<FileRec>,
                                tags: seq<TagRec>, out: seq<ExportSet>, expected: Expected, f: LocalFile)
    requires IsRun(parse, run) && k < |run| && TablesOf(sets, files, run[k].rows)
    requires IsExport(sets, files, tags, out) && IsExpected(out, expected)
    requires Sample(KeyOf(f)) in run[k].rows
    ensures Kept(expected, f) <==>
            Hidden(f.maker) || f.rel in Paths(run[k].rows[Sample(KeyOf(f))].meta.files) ||
            BaseName(f.rel) in SPECIAL_NAMES
  {
    var key := KeyOf(f);
    var row := run[k].rows[Sample(key)];
    ExportShowsRows(sets, files, tags, out, run[k].rows);
    RowsListWholeMetas(parse, run, k, Sample(key));
    if f.rel in Paths(row.meta.files) {
      var i :| 0 <= i < |row.meta.files| && row.meta.files[i].path == f.rel;
      assert row.files[i].file.path == f.rel;
      assert RowHasPath(run[k].rows, key, f.rel);
    }
    if RowHasPath(run[k].rows, key, f.rel) {
      var i :| 0 <= i < |row.files| && row.files[i].file.path == f.rel;
      assert row.meta.files[i].path == f.rel;
    }
  }

  /** Of a set no longer cached it removes everything, special names included, save below hidden directories. */
  lemma PruneRemovesUnlistedSets(sets: seq<SetRec>, files: seq<FileRec>, tags: seq<TagRec>, out: seq<ExportSet>,
                                 rows: map<Place, Row>, expected: Expected, f: LocalFile)
    requires TablesOf(sets, files, rows) && IsExport(sets, files, tags, out) && IsExpected(out, expected)
    requires Sample(KeyOf(f)) !in rows
    ensures Kept(expected, f) <==> Hidden(f.maker)
  {
    ExportShowsRows(sets, files, tags, out, rows);
  }
}
