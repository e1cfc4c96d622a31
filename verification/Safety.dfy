/** A catalogue is safe while every file its metas declare has an object; the metas are those the printer writes. */
module Safety {
  import opened Wrappers
  import opened Catalogue
  import opened Bucket
  import opened Writes
  import Meta

  type Parser = string -> Option<RawdbMeta>

  /** The scanner's parser: it takes only valid metas, and reads what the printer prints. */
  ghost predicate Reads(parse: Parser) {
    && (forall text :: parse(text).Some? ==> Meta.Valid(parse(text).value))
    && (forall meta :: parse(Meta.ToToml(meta)) == Meta.Parse(Meta.ToToml(meta)))
  }

  /** Every file the approved meta declares has an object. */
  ghost predicate Safe(parse: Parser, b: Contents, prefix: string) {
    forall f :: f in Declared(parse, b, prefix) ==> prefix + f.path in b
  }

  lemma SafeIffPathsPresent(parse: Parser, b: Contents, prefix: string)
    ensures Safe(parse, b, prefix) <==> forall p :: p in Paths(Declared(parse, b, prefix)) ==> prefix + p in b
  {
    var files := Declared(parse, b, prefix);
    forall f | f in files ensures f.path in Paths(files) {
    }
  }

  function MetaObject(meta: RawdbMeta, etag: string, modified: string): Object {
    var text := Meta.ToToml(meta);
    Object(text, |text|, Some(etag), modified)
  }

  lemma NormalPaths(files: seq<FileMeta>)
    ensures Paths(Meta.NormalFiles(files)) == Paths(files)
  {
    var normal := Meta.NormalFiles(files);
    forall path ensures path in Paths(normal) <==> path in Paths(files) {
      if path in Paths(files) {
        var i :| 0 <= i < |files| && files[i].path == path;
        assert normal[i].path == path;
      }
      if path in Paths(normal) {
        var i :| 0 <= i < |normal| && normal[i].path == path;
        assert files[i].path == path;
      }
    }
  }

  /** What a written meta declares: exactly its files' paths, or nothing when it cannot be read back. */
  lemma PutDeclares(parse: Parser, meta: RawdbMeta, item: Object)
    requires Reads(parse) && item.text == Meta.ToToml(meta)
    ensures parse(item.text).Some? <==> Meta.CleanMeta(meta) && Meta.Valid(meta)
    ensures parse(item.text).Some? ==> Paths(parse(item.text).value.files) == Paths(meta.files)
  {
    assert parse(Meta.ToToml(meta)) == Meta.Parse(Meta.ToToml(meta));
    Meta.ParseUndoesPrint(meta);
    NormalPaths(meta.files);
  }

  ghost predicate DeclaresWithin(parse: Parser, item: Object, paths: set<string>) {
    parse(item.text).Some? ==> Paths(parse(item.text).value.files) <= paths
  }

  /** Putting a meta whose files all have objects is safe. */
  lemma PutIsSafe(parse: Parser, b: Contents, prefix: string, item: Object, paths: set<string>)
    requires DeclaresWithin(parse, item, paths) && forall path :: path in paths ==> prefix + path in b
    ensures Safe(parse, b[MetaKey(prefix) := item], prefix)
  {
    var b' := b[MetaKey(prefix) := item];
    forall f | f in Declared(parse, b', prefix) ensures prefix + f.path in b' {
      assert f.path in Paths(parse(item.text).value.files);
    }
  }

  /** Deleting one object is safe exactly when the meta that stands does not declare it. */
  lemma DeleteIsSafeIffUndeclared(parse: Parser, b: Contents, prefix: string, key: string)
    requires Safe(parse, b, prefix) && key != MetaKey(prefix)
    ensures Safe(parse, Perform(b, Delete(key)), prefix) <==> !Declares(Declared(parse, b, prefix), prefix, key)
  {
    var files := Declared(parse, b, prefix);
    assert Declared(parse, Perform(b, Delete(key)), prefix) == files;
    if Declares(files, prefix, key) {
      var i :| 0 <= i < |files| && prefix + files[i].path == key;
      assert files[i] in files;
    }
  }
}
