/** One accepted input for each way an edit, a name or a string leads past what the checks intend. */
module Inputs {
  import opened Wrappers
  import opened Catalogue
  import opened Text
  import opened Bucket
  import opened Renames
  import opened Edit
  import opened Safety
  import opened Writes
  import Approve
  import Meta
  import Toml

  /** Neither a slash, a dot nor white space. */
  predicate PlainName(s: string) {
    s != "" && forall i :: 0 <= i < |s| ==> s[i] != '/' && s[i] != '.' && !White(s[i])
  }

  lemma {:induction false} SplitOfOne(s: string)
    requires '/' !in s
    ensures Split(s, '/') == [s]
  {
    if s != "" {
      SplitOfOne(s[1..]);
      assert [s[0]] + s[1..] == s;
    }
  }

  lemma {:induction false} NoDotNoExtension(s: string)
    requires '.' !in s
    ensures AfterLastDot(s) == None
  {
    if s != "" {
      NoDotNoExtension(s[..|s| - 1]);
    }
  }

  /** A folder and a file name without anything special pass every check. */
  lemma PlainPathIsAccepted(blocked: set<string>, folder: string, name: string)
    requires PlainName(folder) && PlainName(name)
    ensures var p := folder + "/" + name; WellFormed(p) && Trim(p) == p && !Blocked(blocked, p)
  {
    var p := folder + "/" + name;
    SplitFirst(folder, name, '/');
    SplitOfOne(name);
    NoDotNoExtension(name);
    assert p[0] == folder[0] && p[|p| - 1] == name[|name| - 1];
    forall i | 0 <= i < |p| - 1 ensures !(p[i] == '.' && p[i + 1] == '.') {
      assert p[i] != '.';
    }
  }

  function Move(oldPath: string, path: string): EditFile {
    EditFile(oldPath, path, None, None, [])
  }

  /** One file of a plain folder, under a path that trims to it. */
  lemma OneFileIsAccepted(blocked: set<string>, f: EditFile, folder: string, name: string)
    requires PlainName(folder) && PlainName(name) && Trim(f.path) == folder + "/" + name
    ensures Accepted(blocked, [f])
  {
    PlainPathIsAccepted(blocked, folder, name);
  }

  lemma TwoFilesAreAccepted(blocked: set<string>, f: EditFile, g: EditFile)
    requires Accepted(blocked, [f]) && Accepted(blocked, [g]) && Trim(f.path) != Trim(g.path)
    ensures Accepted(blocked, [f, g])
  {
    assert [f][0] == f && [g][0] == g;
  }

  lemma PlainIsTrimmed(folder: string, name: string)
    requires PlainName(folder) && PlainName(name)
    ensures Trim(folder + "/" + name) == folder + "/" + name
  {
    PlainPathIsAccepted({}, folder, name);
  }

  const SWAP: seq<EditFile> := [Move("r/a", "r/b"), Move("r/b", "r/a")]

  lemma SwapIsAccepted(blocked: set<string>)
    ensures Accepted(blocked, SWAP)
  {
    PlainPaths();
    OneFileIsAccepted(blocked, SWAP[0], "r", "b");
    OneFileIsAccepted(blocked, SWAP[1], "r", "a");
    TwoFilesAreAccepted(blocked, SWAP[0], SWAP[1]);
  }

  lemma PlainPaths()
    ensures PlainName("r") && PlainName("a") && PlainName("b") && "r/a" != "r/b"
    ensures "r/a" == "r" + "/" + "a" && "r/b" == "r" + "/" + "b"
    ensures Trim("r/a") == "r/a" && Trim("r/b") == "r/b"
  {
    assert "r/a"[2] != "r/b"[2];
    assert "r/a" == "r" + "/" + "a" && "r/b" == "r" + "/" + "b";
    PlainIsTrimmed("r", "a");
    PlainIsTrimmed("r", "b");
  }

  /** The accepted swap destroys one of the two objects. */
  lemma AcceptedSwapLosesAnObject(blocked: set<string>, b: Contents, prefix: string)
    requires prefix + "r/a" in b && prefix + "r/b" in b && b[prefix + "r/a"] != b[prefix + "r/b"]
    ensures Accepted(blocked, SWAP) && !Holds(b, RenamesOf(prefix, SWAP), [], 1)
  {
    SwapIsAccepted(blocked);
    var a, c := prefix + "r/a", prefix + "r/b";
    assert RenamesOf(prefix, SWAP) == [Rename(a, c), Rename(c, a)];
    SwapLosesAnObject(a, c, b);
  }

  /** A path with a leading blank passes too, and is not the path the meta then declares. */
  lemma BlankPathIsAccepted(blocked: set<string>)
    ensures Accepted(blocked, [Move("r/a", " r/b")]) && !Trimmed([Move("r/a", " r/b")])
  {
    var f := Move("r/a", " r/b");
    PlainPaths();
    BlankIsTrimmed();
    OneFileIsAccepted(blocked, f, "r", "b");
    assert [f][0].path == " r/b" && |" r/b"| == 4 && |"r/b"| == 3;
  }

  lemma BlankIsTrimmed()
    ensures Trim(" r/b") == "r/b"
  {
    assert " r/b"[1..] == "r/b" && " r/b"[0] == ' ';
    assert TrimStart(" r/b") == TrimStart("r/b");
    PlainPaths();
  }

  /**
   * An entry whose old and new path are the same is never looked up in the bucket: the edit completes, and its
   * meta declares a file without an object.
   */
  lemma UnmovedFileNeedsNoObject(blocked: set<string>, b: Contents, prefix: string, item: Object)
    requires prefix + "r/a" !in b
    ensures var files := [Move("r/a", "r/a")];
            && Accepted(blocked, files) && Completed(b, RenamesOf(prefix, files))
            && Trim(files[0].path) == "r/a" && prefix + "r/a" !in Edited(b, prefix, files, [], item)
  {
    var files := [Move("r/a", "r/a")];
    PlainPaths();
    OneFileIsAccepted(blocked, files[0], "r", "a");
    var rs := RenamesOf(prefix, files);
    assert !rs[0].Moves() && Completed(b, rs);
    BackedIffPresent(b, blocked, prefix, files, [], item, 0);
  }

  /** A `.` segment passes the edit check and fails the meta parser's. */
  lemma DotSegmentIsAccepted()
    ensures WellFormed("r/./b") && Trim("r/./b") == "r/./b" && !Meta.ValidPath("r/./b")
  {
    var p := "r/./b";
    DottedSplits();
    assert p[0] == 'r' && p[1] == '/' && p[2] == '.' && p[3] == '/' && p[4] == 'b';
    AcceptedPathParsesBackUnlessDotted(p);
    assert Split(p, '/')[1] == ".";
  }

  lemma DottedSplits()
    ensures Split("r/./b", '/') == ["r", ".", "b"]
  {
    assert "r/./b" == "r" + "/" + "./b" && "./b" == "." + "/" + "b";
    SplitFirst("r", "./b", '/');
    SplitFirst(".", "b", '/');
    SplitOfOne("b");
    assert ["r"] + (["."] + ["b"]) == ["r", ".", "b"];
  }

  /** A wipe that S3 refuses for the meta alone leaves that meta declaring files it has deleted. */
  lemma RefusedMetaLosesFiles(parse: Parser, b: Contents, samples: string, f: FileMeta)
    requires Safe(parse, b, samples) && f in Declared(parse, b, samples) && f.path != META_FILE
    ensures var base := map key | key in b && (samples <= key ==> key == MetaKey(samples)) :: b[key];
            Approve.Clears(b, base, samples, key => key == MetaKey(samples), true) && !Safe(parse, base, samples)
  {
    var base := map key | key in b && (samples <= key ==> key == MetaKey(samples)) :: b[key];
    SameRest(samples, f.path, META_FILE);
    Approve.ReplacingIsSafeOnceCleared(parse, b, base, samples, key => key == MetaKey(samples));
  }

  /** A bucket with one upload and one approved set of the same maker and model. */
  function UploadAndSet(id: string, upload: RawdbMeta, approved: RawdbMeta): Contents {
    map[MetaKey(PrefixOf(Pending(id))) := MetaObject(upload, "u", ""),
        MetaKey(PrefixOf(Sample(upload.Key()))) := MetaObject(approved, "s", "")]
  }

  /** On a pod that has not cached the set yet, a merge drops every file of it that the upload does not replace. */
  lemma MergeWithoutRowDropsFiles(parse: Parser, id: string, upload: RawdbMeta, approved: RawdbMeta, now: string,
                                  who: string)
    requires Reads(parse) && Meta.CleanMeta(upload) && Meta.Valid(upload) && upload.files != []
    requires Meta.CleanMeta(approved) && Meta.Valid(approved) && !(Paths(approved.files) <= Paths(upload.files))
    ensures var b := UploadAndSet(id, upload, approved);
            var plan := Approve.Plan(parse, b, id, Approve.Merge, {}, key => None, now, who);
            plan.Ok? && plan.value.key == upload.Key() &&
            !(Paths(Declared(parse, b, PrefixOf(Sample(upload.Key())))) <= Paths(plan.value.meta.files))
  {
    var b := UploadAndSet(id, upload, approved);
    BothAreThere(parse, id, upload, approved);
    PlansUpload(parse, b, id, Meta.Normal(upload), now, who);
    NormalPaths(upload.files);
    NormalPaths(approved.files);
  }

  lemma BothAreThere(parse: Parser, id: string, upload: RawdbMeta, approved: RawdbMeta)
    requires Reads(parse) && Meta.CleanMeta(upload) && Meta.Valid(upload)
    requires Meta.CleanMeta(approved) && Meta.Valid(approved)
    ensures var b := UploadAndSet(id, upload, approved);
            && Declared(parse, b, PrefixOf(Sample(upload.Key()))) == Meta.NormalFiles(approved.files)
            && MetaKey(PrefixOf(Pending(id))) in b
            && parse(b[MetaKey(PrefixOf(Pending(id)))].text) == Some(Meta.Normal(upload))
  {
    TextsAre(id, upload, approved);
    MetaReadsBack(parse, upload);
    MetaReadsBack(parse, approved);
  }

  lemma TextsAre(id: string, upload: RawdbMeta, approved: RawdbMeta)
    ensures var b := UploadAndSet(id, upload, approved);
            && MetaKey(PrefixOf(Pending(id))) in b && MetaKey(PrefixOf(Sample(upload.Key()))) in b
            && b[MetaKey(PrefixOf(Pending(id)))].text == Meta.ToToml(upload)
            && b[MetaKey(PrefixOf(Sample(upload.Key())))].text == Meta.ToToml(approved)
  {
    KeysDiffer(upload.Key(), id);
  }

  lemma KeysDiffer(key: SetKey, id: string)
    ensures MetaKey(PrefixOf(Sample(key))) != MetaKey(PrefixOf(Pending(id)))
  {
    Approve.PlacesAreApart(key, id);
    assert PrefixOf(Sample(key)) + META_FILE != PrefixOf(Pending(id)) + META_FILE;
  }

  lemma PlansUpload(parse: Parser, b: Contents, id: string, upload: RawdbMeta, now: string, who: string)
    requires MetaKey(PrefixOf(Pending(id))) in b && upload.files != []
    requires parse(b[MetaKey(PrefixOf(Pending(id)))].text) == Some(upload)
    ensures var plan := Approve.Plan(parse, b, id, Approve.Merge, {}, key => None, now, who);
            plan.Ok? && plan.value.key == upload.Key() && plan.value.meta.files == upload.files
  {
    AllPromoted(upload.files);
    assert Approve.Merged([], upload.files) == upload.files;
  }

  lemma MetaReadsBack(parse: Parser, meta: RawdbMeta)
    requires Reads(parse) && Meta.CleanMeta(meta) && Meta.Valid(meta)
    ensures parse(Meta.ToToml(meta)) == Some(Meta.Normal(meta))
  {
    assert parse(Meta.ToToml(meta)) == Meta.Parse(Meta.ToToml(meta));
    Meta.ParseUndoesPrint(meta);
  }

  lemma {:induction false} AllPromoted(files: seq<FileMeta>)
    ensures Approve.Promoted(files, {}) == files
  {
    if files != [] {
      AllPromoted(files[..|files| - 1]);
      assert files == files[..|files| - 1] + [files[|files| - 1]];
    }
  }

  function MetaOf(maker: string): RawdbMeta {
    RawdbMeta(SetMeta(maker, "M", "CC0 1.0", None, None, None, false, None, None, None, None), [])
  }

  /** A maker with a slash makes a valid meta, and a set no listing can name. */
  lemma SlashInMakerIsValid()
    ensures Meta.Valid(MetaOf("A/B")) && !Named(Sample(MetaOf("A/B").Key()))
  {
    assert "A/B"[1] == '/' && "A/B"[0] == 'A' && "A/B"[2] == 'B';
    assert TrimStart("A/B") == "A/B" && TrimEnd("A/B") == "A/B";
    assert TrimStart("M") == "M" && TrimEnd("M") == "M";
  }

  lemma MakerIsPrinted(meta: RawdbMeta)
    requires !Toml.Clean(meta.info.maker)
    ensures !Meta.CleanMeta(meta)
  {
    var slots := Meta.SetSlots(meta.info);
    assert slots[0] == ("maker", Some(Toml.Str(meta.info.maker)));
    assert Meta.Present(slots)[0] == ("maker", Toml.Str(meta.info.maker));
    assert !Toml.CleanValue(Toml.Str(meta.info.maker));
  }

  lemma CarriageReturnIsValid()
    ensures Meta.Valid(MetaOf("A\rB")) && !Toml.Clean("A\rB")
  {
    var maker := "A\rB";
    assert maker[0] == 'A' && maker[1] == '\r' && maker[2] == 'B';
    assert TrimStart(maker) == maker && TrimEnd(maker) == maker;
    assert TrimStart("M") == "M" && TrimEnd("M") == "M";
  }

  /** A carriage return in a maker makes a valid meta that is printed and cannot be read back. */
  lemma CarriageReturnIsUnreadable()
    ensures Meta.Valid(MetaOf("A\rB")) && Meta.Parse(Meta.ToToml(MetaOf("A\rB"))) == None
  {
    CarriageReturnIsValid();
    MakerIsPrinted(MetaOf("A\rB"));
    Meta.ParseUndoesPrint(MetaOf("A\rB"));
  }
}
