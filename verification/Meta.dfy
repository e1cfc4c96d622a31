/** `rawdb-meta.toml`: validation, the printer, and what the parser makes of printed text. */
module Meta {
  import opened Wrappers
  import opened Catalogue
  import opened Text
  import opened Toml
  import Sequences

  const DEFAULT_LICENSE := "CC0 1.0"

  // ---- Validation ----

  datatype MetaError =
    | EmptyMaker
    | EmptyModel
    | BadPath(path: string, why: string)
    | DuplicatePath(path: string)

  predicate BadSegment(segment: string) {
    segment == "." || segment == ".." || segment == ""
  }

  function PathError(path: string): Option<string> {
    if path == "" then Some("empty")
    else if path[0] == '/' then Some("must be relative")
    else if '/' !in path then Some("must include a category folder before the file name")
    else if exists i :: 0 <= i < |Split(path, '/')| && BadSegment(Split(path, '/')[i])
    then Some("contains invalid segment")
    else None
  }

  predicate ValidPath(path: string) {
    PathError(path).None?
  }

  /** A valid path names a file inside a category folder, by proper segments only. */
  lemma ValidPathHasCategory(path: string)
    ensures ValidPath(path) <==>
            (|Split(path, '/')| > 1 && forall i :: 0 <= i < |Split(path, '/')| ==> !BadSegment(Split(path, '/')[i]))
  {
    var pieces := Split(path, '/');
    SplitCounts(path, '/');
    SplitIsExact(path, '/');
    if path != "" && path[0] == '/' {
      assert pieces[0] == "";
    }
  }

  /** What the check of file `i` reports, given the files before it. */
  ghost function FileError(files: seq<FileMeta>, i: nat): Option<MetaError>
    requires i < |files|
  {
    var path := files[i].path;
    if PathError(path).Some? then Some(BadPath(path, PathError(path).value))
    else if exists j :: 0 <= j < i && files[j].path == path then Some(DuplicatePath(path))
    else None
  }

  ghost predicate Valid(meta: RawdbMeta) {
    && Trim(meta.info.maker) != ""
    && Trim(meta.info.model) != ""
    && (forall f :: f in meta.files ==> ValidPath(f.path))
    && UniquePaths(meta.files)
  }

  ghost predicate FirstError(meta: RawdbMeta, error: MetaError) {
    if Trim(meta.info.maker) == "" then error == EmptyMaker
    else if Trim(meta.info.model) == "" then error == EmptyModel
    else exists i :: 0 <= i < |meta.files| && FileError(meta.files, i) == Some(error) &&
           forall j :: 0 <= j < i ==> FileError(meta.files, j).None?
  }

  method Validate(meta: RawdbMeta) returns (r: Result<(), MetaError>)
    ensures r.Ok? <==> Valid(meta)
    ensures r.Err? ==> FirstError(meta, r.error)
  {
    if Trim(meta.info.maker) == "" {
      return Err(EmptyMaker);
    }
    if Trim(meta.info.model) == "" {
      return Err(EmptyModel);
    }
    var seen: set<string> := {};
    var i := 0;
    while i < |meta.files|
      invariant 0 <= i <= |meta.files|
      invariant seen == set j | 0 <= j < i :: meta.files[j].path
      invariant forall j :: 0 <= j < i ==> FileError(meta.files, j).None?
    {
      var path := meta.files[i].path;
      var bad := PathError(path);
      if bad.Some? {
        assert FileError(meta.files, i) == Some(BadPath(path, bad.value));
        return Err(BadPath(path, bad.value));
      }
      if path in seen {
        assert FileError(meta.files, i) == Some(DuplicatePath(path));
        return Err(DuplicatePath(path));
      }
      seen := seen + {path};
      i := i + 1;
    }
    forall f | f in meta.files ensures ValidPath(f.path) {
      var j :| 0 <= j < |meta.files| && meta.files[j] == f;
      assert FileError(meta.files, j).None?;
    }
    assert forall j, k :: 0 <= j < k < |meta.files| && FileError(meta.files, k).None? ==>
             meta.files[j].path != meta.files[k].path;
    return Ok(());
  }

  // ---- What is printed ----

  /** A key and, when the field is printed at all, its value. */
  type Slot = (string, Option<Value>)

  function TextSlot(key: string, v: Option<string>): Slot {
    (key, if v.Some? && v.value != "" then Some(Str(v.value)) else None)
  }

  function TimeSlot(key: string, v: Option<string>): Slot {
    (key, if v.Some? then Some(Str(v.value)) else None)
  }

  function SetSlots(info: SetMeta): seq<Slot> {
    [("maker", Some(Str(info.maker))),
     ("model", Some(Str(info.model))),
     ("license", Some(Str(info.license))),
     TextSlot("uploaded_by", info.uploadedBy),
     TimeSlot("uploaded_at", info.uploadedAt),
     TimeSlot("approved_at", info.approvedAt),
     TextSlot("approved_by", info.approvedBy),
     TimeSlot("approved_initial_at", info.approvedInitialAt),
     TextSlot("approved_initial_by", info.approvedInitialBy),
     TextSlot("notes", info.notes),
     ("special", if info.special then Some(Bool(true)) else None)]
  }

  function FileSlots(f: FileMeta): seq<Slot> {
    [("path", Some(Str(f.path))),
     TextSlot("sha256", f.sha256),
     TextSlot("license", f.license),
     ("tags", if f.tags == [] then None else Some(Arr(f.tags))),
     TextSlot("notes", f.notes)]
  }

  function Present(slots: seq<Slot>): Table {
    if slots == [] then []
    else if slots[0].1.Some? then [(slots[0].0, slots[0].1.value)] + Present(slots[1..])
    else Present(slots[1..])
  }

  function SetTable(info: SetMeta): Table {
    Present(SetSlots(info))
  }

  function FileTable(f: FileMeta): Table {
    Present(FileSlots(f))
  }

  function FileLines(f: FileMeta): seq<string> {
    ["", "[[files]]"] + EntryLines(FileTable(f))
  }

  function FilesLines(files: seq<FileMeta>): seq<string> {
    if files == [] then [] else FilesLines(files[..|files| - 1]) + FileLines(files[|files| - 1])
  }

  function ToToml(meta: RawdbMeta): string {
    Printed(meta.info, meta.files)
  }

  // ---- The printer ----

  function SlotsText(slots: seq<Slot>): string {
    Closed(EntryLines(Present(slots)), '\n')
  }

  lemma {:induction false} EntryLinesAppend(a: Table, b: Table)
    ensures EntryLines(a + b) == EntryLines(a) + EntryLines(b)
  {
    if a == [] {
      assert a + b == b;
    } else {
      assert (a + b)[1..] == a[1..] + b;
      EntryLinesAppend(a[1..], b);
    }
  }

  lemma {:induction false} PresentAppend(a: seq<Slot>, b: seq<Slot>)
    ensures Present(a + b) == Present(a) + Present(b)
  {
    if a == [] {
      assert a + b == b;
    } else {
      assert (a + b)[1..] == a[1..] + b;
      PresentAppend(a[1..], b);
    }
  }

  lemma SlotsTextAppend(a: seq<Slot>, b: seq<Slot>)
    ensures SlotsText(a + b) == SlotsText(a) + SlotsText(b)
  {
    PresentAppend(a, b);
    EntryLinesAppend(Present(a), Present(b));
    ClosedAppend(EntryLines(Present(a)), EntryLines(Present(b)), '\n');
  }

  function SlotText(slot: Slot): string {
    if slot.1.Some? then EntryLine(slot.0, slot.1.value) + "\n" else ""
  }

  lemma OneSlot(slot: Slot)
    ensures SlotsText([slot]) == SlotText(slot)
  {
    assert [slot][1..] == [];
    if slot.1.Some? {
      var table := [(slot.0, slot.1.value)];
      assert Present([slot]) == table && table[1..] == [];
      var lines := [EntryLine(slot.0, slot.1.value)];
      assert EntryLines(table) == lines && lines[1..] == [];
      assert Closed(lines[1..], '\n') == "";
      assert Closed(lines, '\n') == lines[0] + "\n" + "";
    } else {
      assert Present([slot]) == [];
    }
  }

  lemma OneMoreSlot(head: string, slots: seq<Slot>, k: nat)
    requires k < |slots|
    ensures head + SlotsText(slots[..k + 1]) == head + SlotsText(slots[..k]) + SlotText(slots[k])
  {
    assert slots[..k + 1] == slots[..k] + [slots[k]];
    SlotsTextAppend(slots[..k], [slots[k]]);
    OneSlot(slots[k]);
  }

  /** One `out.push_str`, made when the field is there: slot `k` of `slots`, after `head`. */
  method Push(out: string, slot: Slot, ghost head: string, ghost slots: seq<Slot>, ghost k: nat) returns (r: string)
    requires k < |slots| && slot == slots[k]
    requires out == head + SlotsText(slots[..k])
    ensures r == head + SlotsText(slots[..k + 1])
  {
    r := out;
    if slot.1.Some? {
      r := r + (EntryLine(slot.0, slot.1.value) + "\n");
    }
    OneMoreSlot(head, slots, k);
  }

  lemma NothingPushed(head: string, slots: seq<Slot>)
    ensures head == head + SlotsText(slots[..0])
  {
    assert slots[..0] == [] && EntryLines(Present([])) == [];
  }

  method PushUpload(out: string, info: SetMeta) returns (r: string)
    ensures r == out + SlotsText(SetSlots(info)[..5])
  {
    ghost var s := SetSlots(info);
    NothingPushed(out, s);
    r := out;
    r := Push(r, ("maker", Some(Str(info.maker))), out, s, 0);
    r := Push(r, ("model", Some(Str(info.model))), out, s, 1);
    r := Push(r, ("license", Some(Str(info.license))), out, s, 2);
    r := Push(r, TextSlot("uploaded_by", info.uploadedBy), out, s, 3);
    r := Push(r, TimeSlot("uploaded_at", info.uploadedAt), out, s, 4);
  }

  method PushSet(out: string, info: SetMeta) returns (r: string)
    ensures r == out + SlotsText(SetSlots(info))
  {
    ghost var s := SetSlots(info);
    r := PushUpload(out, info);
    r := Push(r, TimeSlot("approved_at", info.approvedAt), out, s, 5);
    r := Push(r, TextSlot("approved_by", info.approvedBy), out, s, 6);
    r := Push(r, TimeSlot("approved_initial_at", info.approvedInitialAt), out, s, 7);
    r := Push(r, TextSlot("approved_initial_by", info.approvedInitialBy), out, s, 8);
    r := Push(r, TextSlot("notes", info.notes), out, s, 9);
    r := Push(r, ("special", if info.special then Some(Bool(true)) else None), out, s, 10);
    assert s[..11] == s;
  }

  method PushEntries(head: string, f: FileMeta) returns (r: string)
    ensures r == head + SlotsText(FileSlots(f))
  {
    ghost var s := FileSlots(f);
    NothingPushed(head, s);
    r := head;
    r := Push(r, ("path", Some(Str(f.path))), head, s, 0);
    r := Push(r, TextSlot("sha256", f.sha256), head, s, 1);
    r := Push(r, TextSlot("license", f.license), head, s, 2);
    r := Push(r, ("tags", if f.tags == [] then None else Some(Arr(f.tags))), head, s, 3);
    r := Push(r, TextSlot("notes", f.notes), head, s, 4);
    assert s[..5] == s;
  }

  method PushFile(out: string, f: FileMeta) returns (r: string)
    ensures r == out + Closed(FileLines(f), '\n')
  {
    FileText(f);
    Sequences.Regroup(out, "\n[[files]]\n", SlotsText(FileSlots(f)));
    r := PushEntries(out + "\n[[files]]\n", f);
  }

  function Printed(info: SetMeta, files: seq<FileMeta>): string {
    Closed(["[set]"] + EntryLines(SetTable(info)) + FilesLines(files), '\n')
  }

  lemma OneMoreFile(info: SetMeta, files: seq<FileMeta>, i: nat)
    requires i < |files|
    ensures Printed(info, files[..i + 1]) == Printed(info, files[..i]) + Closed(FileLines(files[i]), '\n')
  {
    var head := ["[set]"] + EntryLines(SetTable(info));
    assert files[..i + 1][..i] == files[..i];
    assert head + FilesLines(files[..i + 1]) == head + FilesLines(files[..i]) + FileLines(files[i]);
    ClosedAppend(head + FilesLines(files[..i]), FileLines(files[i]), '\n');
  }

  lemma NoFilesYet(info: SetMeta)
    ensures Printed(info, []) == "[set]\n" + SlotsText(SetSlots(info))
  {
    var lines := EntryLines(SetTable(info));
    assert ["[set]"] + lines + [] == ["[set]"] + lines;
    ClosedAppend(["[set]"], lines, '\n');
    assert Closed(["[set]"], '\n') == "[set]\n" by { assert ["[set]"][1..] == []; }
  }

  method Print(meta: RawdbMeta) returns (out: string)
    ensures out == ToToml(meta)
  {
    out := PushSet("[set]\n", meta.info);
    NoFilesYet(meta.info);
    var i := 0;
    while i < |meta.files|
      invariant 0 <= i <= |meta.files|
      invariant out == Printed(meta.info, meta.files[..i])
    {
      out := PushFile(out, meta.files[i]);
      OneMoreFile(meta.info, meta.files, i);
      i := i + 1;
    }
    assert meta.files[..i] == meta.files;
  }

  lemma FileText(f: FileMeta)
    ensures Closed(FileLines(f), '\n') == "\n[[files]]\n" + SlotsText(FileSlots(f))
  {
    ClosedAppend(["", "[[files]]"], EntryLines(FileTable(f)), '\n');
    assert ["", "[[files]]"][1..] == ["[[files]]"];
    assert Closed(["[[files]]"], '\n') == "[[files]]\n";
  }

  // ---- Reading the fields (serde) ----

  /** An optional string field: absent, a string, or (`None`) of another type. */
  function TextField(table: Table, key: string): Option<Option<string>> {
    match Lookup(table, key)
    case None => Some(None)
    case Some(Str(text)) => Some(Some(text))
    case Some(_) => None
  }

  function RequiredField(table: Table, key: string): Option<string> {
    var field := TextField(table, key);
    if field.Some? then field.value else None
  }

  function TextOr(table: Table, key: string, default: string): Option<string> {
    var field := TextField(table, key);
    if field.None? then None else if field.value.None? then Some(default) else field.value
  }

  function FlagField(table: Table, key: string): Option<bool> {
    match Lookup(table, key)
    case None => Some(false)
    case Some(Bool(on)) => Some(on)
    case Some(_) => None
  }

  function ItemsField(table: Table, key: string): Option<seq<string>> {
    match Lookup(table, key)
    case None => Some([])
    case Some(Arr(items)) => Some(items)
    case Some(_) => None
  }

  function DecodeSet(t: Table): Option<SetMeta> {
    var maker := RequiredField(t, "maker");
    var model := RequiredField(t, "model");
    var license := TextOr(t, "license", DEFAULT_LICENSE);
    var uploadedBy := TextField(t, "uploaded_by");
    var uploadedAt := TextField(t, "uploaded_at");
    var notes := TextField(t, "notes");
    var special := FlagField(t, "special");
    var approvedAt := TextField(t, "approved_at");
    var approvedBy := TextField(t, "approved_by");
    var initialAt := TextField(t, "approved_initial_at");
    var initialBy := TextField(t, "approved_initial_by");
    if maker.None? || model.None? || license.None? || uploadedBy.None? || uploadedAt.None? || notes.None? ||
       special.None? || approvedAt.None? || approvedBy.None? || initialAt.None? || initialBy.None?
    then None
    else Some(SetMeta(maker.value, model.value, license.value, uploadedBy.value, uploadedAt.value, notes.value,
                      special.value, approvedAt.value, approvedBy.value, initialAt.value, initialBy.value))
  }

  function DecodeFile(t: Table): Option<FileMeta> {
    var path := RequiredField(t, "path");
    var sha256 := TextField(t, "sha256");
    var license := TextField(t, "license");
    var notes := TextField(t, "notes");
    var tags := ItemsField(t, "tags");
    if path.None? || sha256.None? || license.None? || notes.None? || tags.None? then None
    else Some(FileMeta(path.value, sha256.value, license.value, notes.value, tags.value))
  }

  function DecodeFiles(tables: seq<Table>): Option<seq<FileMeta>> {
    if tables == [] then Some([])
    else
      var init := DecodeFiles(tables[..|tables| - 1]);
      var last := DecodeFile(tables[|tables| - 1]);
      if init.None? || last.None? then None else Some(init.value + [last.value])
  }

  /** `toml::from_str`. */
  function Decode(text: string): Option<RawdbMeta> {
    var doc := ParseDoc(text);
    if doc.None? || doc.value.info.None? then None
    else
      var info := DecodeSet(doc.value.info.value);
      var files := DecodeFiles(doc.value.files);
      if info.None? || files.None? then None else Some(RawdbMeta(info.value, files.value))
  }

  /** `meta::parse`: decode, then validate. */
  ghost function Parse(text: string): Option<RawdbMeta> {
    var meta := Decode(text);
    if meta.Some? && Valid(meta.value) then meta else None
  }

  // ---- The round trip ----

  function NonEmpty(v: Option<string>): Option<string> {
    if v == Some("") then None else v
  }

  function NormalSet(info: SetMeta): SetMeta {
    info.(uploadedBy := NonEmpty(info.uploadedBy), notes := NonEmpty(info.notes),
          approvedBy := NonEmpty(info.approvedBy), approvedInitialBy := NonEmpty(info.approvedInitialBy))
  }

  function NormalFile(f: FileMeta): FileMeta {
    f.(sha256 := NonEmpty(f.sha256), license := NonEmpty(f.license), notes := NonEmpty(f.notes))
  }

  function NormalFiles(files: seq<FileMeta>): seq<FileMeta> {
    seq(|files|, i requires 0 <= i < |files| => NormalFile(files[i]))
  }

  /** Empty optional strings dropped. */
  function Normal(meta: RawdbMeta): RawdbMeta {
    RawdbMeta(NormalSet(meta.info), NormalFiles(meta.files))
  }

  /** No printed string holds a control character other than newline and tab. */
  ghost predicate CleanMeta(meta: RawdbMeta) {
    CleanTable(SetTable(meta.info)) && forall f :: f in meta.files ==> CleanTable(FileTable(f))
  }

  predicate DistinctSlots(slots: seq<Slot>) {
    forall i, j :: 0 <= i < j < |slots| ==> slots[i].0 != slots[j].0
  }

  predicate BareSlots(slots: seq<Slot>) {
    forall i :: 0 <= i < |slots| ==> BareKey(slots[i].0)
  }

  /** Every entry comes from a slot. */
  lemma {:induction false} PresentComes(slots: seq<Slot>, i: nat) returns (j: nat)
    requires i < |Present(slots)|
    ensures j < |slots| && slots[j].0 == Present(slots)[i].0
  {
    if slots[0].1.Some? && i == 0 {
      j := 0;
    } else {
      j := PresentComes(slots[1..], if slots[0].1.Some? then i - 1 else i);
      j := j + 1;
    }
  }

  lemma {:induction false} PresentKeys(slots: seq<Slot>)
    requires DistinctSlots(slots) && BareSlots(slots)
    ensures DistinctKeys(Present(slots)) && BareKeys(Present(slots))
  {
    if slots != [] {
      var rest := slots[1..];
      PresentKeys(rest);
      var table := Present(rest);
      forall i | 0 <= i < |table| ensures table[i].0 != slots[0].0 {
        var j := PresentComes(rest, i);
        assert rest[j] == slots[j + 1];
      }
    }
  }

  lemma {:induction false} LookupPresent(slots: seq<Slot>, i: nat)
    requires DistinctSlots(slots) && i < |slots|
    ensures Lookup(Present(slots), slots[i].0) == slots[i].1
  {
    var rest := slots[1..];
    if slots[0].1.Some? {
      assert Present(slots)[1..] == Present(rest);
    }
    if i > 0 {
      LookupPresent(rest, i - 1);
    } else {
      LookupMissing(rest, slots[0].0);
    }
  }

  lemma {:induction false} LookupMissing(slots: seq<Slot>, key: string)
    requires forall i :: 0 <= i < |slots| ==> slots[i].0 != key
    ensures Lookup(Present(slots), key) == None
  {
    if slots != [] {
      LookupMissing(slots[1..], key);
      if slots[0].1.Some? {
        assert Present(slots)[1..] == Present(slots[1..]);
      }
    }
  }

  lemma FileSlotsAreKeys(f: FileMeta)
    ensures DistinctSlots(FileSlots(f)) && BareSlots(FileSlots(f))
  {
  }

  lemma SetSlotsAreDistinct(info: SetMeta)
    ensures DistinctSlots(SetSlots(info))
  {
    assert "maker"[0] == 'm' && "maker"[1] == 'a' && "model"[0] == 'm' && "model"[1] == 'o' && "notes"[0] == 'n';
    assert "license"[0] == 'l' && "special"[0] == 's';
    assert "uploaded_by"[9] == 'b' && "uploaded_at"[9] == 'a' && "uploaded_by"[0] == 'u' && "uploaded_at"[0] == 'u';
    assert "approved_by"[9] == 'b' && "approved_at"[9] == 'a' && "approved_by"[0] == 'a' && "approved_at"[0] == 'a';
    assert "approved_initial_by"[17] == 'b' && "approved_initial_at"[17] == 'a';
  }

  lemma SetSlotsAreBare(info: SetMeta)
    ensures BareSlots(SetSlots(info))
  {
  }

  /** A slot reads back as its value, or as a missing field. */
  lemma SlotReadsBack(slots: seq<Slot>, i: nat, key: string)
    requires DistinctSlots(slots) && i < |slots| && slots[i].0 == key
    ensures forall v :: slots[i] == TextSlot(key, v) ==> TextField(Present(slots), key) == Some(NonEmpty(v))
    ensures forall v :: slots[i] == TimeSlot(key, v) ==> TextField(Present(slots), key) == Some(v)
    ensures forall v :: slots[i].1 == Some(Str(v)) ==> RequiredField(Present(slots), key) == Some(v)
    ensures forall v, d :: slots[i].1 == Some(Str(v)) ==> TextOr(Present(slots), key, d) == Some(v)
    ensures slots[i].1 == Some(Bool(true)) ==> FlagField(Present(slots), key) == Some(true)
    ensures slots[i].1 == None ==> FlagField(Present(slots), key) == Some(false)
    ensures forall v :: slots[i].1 == Some(Arr(v)) ==> ItemsField(Present(slots), key) == Some(v)
    ensures slots[i].1 == None ==> ItemsField(Present(slots), key) == Some([])
  {
    LookupPresent(slots, i);
  }

  lemma FileReadsBack(f: FileMeta)
    ensures DecodeFile(FileTable(f)) == Some(NormalFile(f))
  {
    var s := FileSlots(f);
    FileSlotsAreKeys(f);
    SlotReadsBack(s, 0, "path");
    SlotReadsBack(s, 1, "sha256");
    SlotReadsBack(s, 2, "license");
    SlotReadsBack(s, 3, "tags");
    SlotReadsBack(s, 4, "notes");
  }

  lemma TextReadsBack(info: SetMeta, i: nat, key: string, v: Option<string>)
    requires i < 11 && SetSlots(info)[i] == TextSlot(key, v)
    ensures TextField(SetTable(info), key) == Some(NonEmpty(v))
  {
    SetSlotsAreDistinct(info);
    SlotReadsBack(SetSlots(info), i, key);
  }

  lemma TimeReadsBack(info: SetMeta, i: nat, key: string, v: Option<string>)
    requires i < 11 && SetSlots(info)[i] == TimeSlot(key, v)
    ensures TextField(SetTable(info), key) == Some(v)
  {
    SetSlotsAreDistinct(info);
    SlotReadsBack(SetSlots(info), i, key);
  }

  lemma NamesReadBack(info: SetMeta)
    ensures RequiredField(SetTable(info), "maker") == Some(info.maker)
    ensures RequiredField(SetTable(info), "model") == Some(info.model)
    ensures TextOr(SetTable(info), "license", DEFAULT_LICENSE) == Some(info.license)
    ensures FlagField(SetTable(info), "special") == Some(info.special)
  {
    SetSlotsAreDistinct(info);
    SlotReadsBack(SetSlots(info), 0, "maker");
    SlotReadsBack(SetSlots(info), 1, "model");
    SlotReadsBack(SetSlots(info), 2, "license");
    SlotReadsBack(SetSlots(info), 10, "special");
  }

  lemma TimesReadBack(info: SetMeta)
    ensures TextField(SetTable(info), "uploaded_at") == Some(info.uploadedAt)
    ensures TextField(SetTable(info), "approved_at") == Some(info.approvedAt)
    ensures TextField(SetTable(info), "approved_initial_at") == Some(info.approvedInitialAt)
  {
    TimeReadsBack(info, 4, "uploaded_at", info.uploadedAt);
    TimeReadsBack(info, 5, "approved_at", info.approvedAt);
    TimeReadsBack(info, 7, "approved_initial_at", info.approvedInitialAt);
  }

  lemma TextsReadBack(info: SetMeta)
    ensures TextField(SetTable(info), "uploaded_by") == Some(NonEmpty(info.uploadedBy))
    ensures TextField(SetTable(info), "approved_by") == Some(NonEmpty(info.approvedBy))
    ensures TextField(SetTable(info), "approved_initial_by") == Some(NonEmpty(info.approvedInitialBy))
    ensures TextField(SetTable(info), "notes") == Some(NonEmpty(info.notes))
  {
    TextReadsBack(info, 3, "uploaded_by", info.uploadedBy);
    TextReadsBack(info, 6, "approved_by", info.approvedBy);
    TextReadsBack(info, 8, "approved_initial_by", info.approvedInitialBy);
    TextReadsBack(info, 9, "notes", info.notes);
  }

  lemma SetReadsBack(info: SetMeta)
    ensures DecodeSet(SetTable(info)) == Some(NormalSet(info))
  {
    NamesReadBack(info);
    TimesReadBack(info);
    TextsReadBack(info);
  }

  lemma {:induction false} FilesReadBack(files: seq<FileMeta>)
    ensures DecodeFiles(FileTables(files)) == Some(NormalFiles(files))
  {
    if files == [] {
      assert NormalFiles(files) == [];
    } else {
      var init, last := files[..|files| - 1], files[|files| - 1];
      FilesReadBack(init);
      FileReadsBack(last);
      assert FileTables(files)[..|files| - 1] == FileTables(init);
      assert NormalFiles(files) == NormalFiles(init) + [NormalFile(last)];
    }
  }

  function FileTables(files: seq<FileMeta>): seq<Table> {
    seq(|files|, i requires 0 <= i < |files| => FileTable(files[i]))
  }

  ghost predicate CleanFiles(files: seq<FileMeta>) {
    forall f :: f in files ==> CleanTable(FileTable(f))
  }

  /** A printed file heading opens a table of its own, and its entries go there. */
  lemma FileLinesReadBack(doc: Doc, f: FileMeta)
    ensures ReadLines(doc, FileLines(f)) ==
            if CleanTable(FileTable(f)) then Some(doc.(files := doc.files + [FileTable(f)], place := InFile)) else None
  {
    var next := doc.(files := doc.files + [[]], place := InFile);
    FileSlotsAreKeys(f);
    PresentKeys(FileSlots(f));
    assert [] + FileTable(f) == FileTable(f);
    EntriesReadBack(next, [], FileTable(f));
    assert next.files[..|next.files| - 1] == doc.files && Open(next) == Some([]);
    assert WithOpen(next, FileTable(f)) == next.(files := doc.files + [FileTable(f)]);
    HeadingReads(doc, EntryLines(FileTable(f)));
  }

  lemma HeadingReads(doc: Doc, rest: seq<string>)
    ensures ReadLines(doc, ["", "[[files]]"] + rest) ==
            ReadLines(doc.(files := doc.files + [[]], place := InFile), rest)
  {
    var lines := ["", "[[files]]"] + rest;
    assert lines[1..] == ["[[files]]"] + rest;
    assert lines[1..][1..] == rest;
    assert ParseLine("[[files]]") == Some(FilesHeading) by { assert |"[[files]]"| == 9 && |"[set]"| == 5; }
  }

  function WithFiles(doc: Doc, files: seq<FileMeta>): Doc {
    if files == [] then doc else doc.(files := doc.files + FileTables(files), place := InFile)
  }

  lemma WithOneMore(doc: Doc, init: seq<FileMeta>, last: FileMeta)
    ensures WithFiles(doc, init + [last]) ==
            WithFiles(doc, init).(files := WithFiles(doc, init).files + [FileTable(last)], place := InFile)
    ensures CleanFiles(init + [last]) <==> CleanFiles(init) && CleanTable(FileTable(last))
  {
    var files := init + [last];
    assert FileTables(files) == FileTables(init) + [FileTable(last)];
    assert last in files && forall f :: f in init ==> f in files;
  }

  lemma {:induction false} FilesLinesReadBack(doc: Doc, files: seq<FileMeta>)
    ensures ReadLines(doc, FilesLines(files)) == if CleanFiles(files) then Some(WithFiles(doc, files)) else None
    decreases |files|
  {
    if files != [] {
      var init, last := files[..|files| - 1], files[|files| - 1];
      assert files == init + [last];
      FilesLinesReadBack(doc, init);
      WithOneMore(doc, init, last);
      ReadLinesAppend(doc, FilesLines(init), FileLines(last));
      FileLinesReadBack(WithFiles(doc, init), last);
    }
  }

  /** No printed line holds a raw newline, so the text splits back into the lines printed. */
  lemma {:induction false} EscapedHasNoNewline(s: string)
    ensures '\n' !in Escape(s)
  {
    if s != "" {
      EscapedHasNoNewline(s[1..]);
      assert '\n' !in EscapeChar(s[0]);
    }
  }

  lemma {:induction false} ArrayHasNoNewline(items: seq<string>)
    ensures '\n' !in ArrayBody(items)
  {
    if items != [] {
      SequentialReplacesAreOnePass(items[0]);
      EscapedHasNoNewline(items[0]);
      ArrayHasNoNewline(items[1..]);
    }
  }

  lemma EntryHasNoNewline(key: string, v: Value)
    requires BareKey(key)
    ensures '\n' !in EntryLine(key, v)
  {
    match v
    case Str(text) => SequentialReplacesAreOnePass(text); EscapedHasNoNewline(text);
    case Arr(items) => ArrayHasNoNewline(items);
    case Bool(_) =>
  }

  lemma {:induction false} EntriesHaveNoNewline(table: Table)
    requires BareKeys(table)
    ensures forall i :: 0 <= i < |EntryLines(table)| ==> '\n' !in EntryLines(table)[i]
  {
    if table != [] {
      EntryHasNoNewline(table[0].0, table[0].1);
      EntriesHaveNoNewline(table[1..]);
    }
  }

  lemma {:induction false} FilesHaveNoNewline(files: seq<FileMeta>)
    ensures forall i :: 0 <= i < |FilesLines(files)| ==> '\n' !in FilesLines(files)[i]
  {
    if files != [] {
      var last := files[|files| - 1];
      FilesHaveNoNewline(files[..|files| - 1]);
      FileSlotsAreKeys(last);
      PresentKeys(FileSlots(last));
      EntriesHaveNoNewline(FileTable(last));
    }
  }

  lemma PrintedSplits(meta: RawdbMeta)
    ensures Split(ToToml(meta), '\n') ==
            ["[set]"] + EntryLines(SetTable(meta.info)) + FilesLines(meta.files) + [""]
  {
    SetSlotsAreDistinct(meta.info);
    SetSlotsAreBare(meta.info);
    PresentKeys(SetSlots(meta.info));
    EntriesHaveNoNewline(SetTable(meta.info));
    FilesHaveNoNewline(meta.files);
    SplitClosed(["[set]"] + EntryLines(SetTable(meta.info)) + FilesLines(meta.files), '\n');
  }

  lemma SetLinesReadBack(info: SetMeta)
    ensures ReadLines(Doc(None, [], Root), ["[set]"] + EntryLines(SetTable(info))) ==
            if CleanTable(SetTable(info)) then Some(Doc(Some(SetTable(info)), [], InSet)) else None
  {
    SetSlotsAreDistinct(info);
    SetSlotsAreBare(info);
    PresentKeys(SetSlots(info));
    var lines := ["[set]"] + EntryLines(SetTable(info));
    assert lines[1..] == EntryLines(SetTable(info));
    var doc := Doc(Some([]), [], InSet);
    assert [] + SetTable(info) == SetTable(info);
    EntriesReadBack(doc, [], SetTable(info));
    assert ParseLine(lines[0]) == Some(SetHeading);
  }

  /** The document printed lines stand for. */
  function DocOf(meta: RawdbMeta): Doc {
    WithFiles(Doc(Some(SetTable(meta.info)), [], InSet), meta.files)
  }

  lemma LinesReadBack(meta: RawdbMeta)
    ensures ReadLines(Doc(None, [], Root), ["[set]"] + EntryLines(SetTable(meta.info)) + FilesLines(meta.files)) ==
            if CleanMeta(meta) then Some(DocOf(meta)) else None
  {
    SetLinesReadBack(meta.info);
    ReadLinesAppend(Doc(None, [], Root), ["[set]"] + EntryLines(SetTable(meta.info)), FilesLines(meta.files));
    FilesLinesReadBack(Doc(Some(SetTable(meta.info)), [], InSet), meta.files);
  }

  lemma PrintedReadsBack(meta: RawdbMeta)
    ensures ParseDoc(ToToml(meta)) == if CleanMeta(meta) then Some(DocOf(meta)) else None
  {
    var lines := ["[set]"] + EntryLines(SetTable(meta.info)) + FilesLines(meta.files);
    PrintedSplits(meta);
    LinesReadBack(meta);
    ReadLinesAppend(Doc(None, [], Root), lines, [""]);
    assert CleanMeta(meta) ==> ReadLines(DocOf(meta), [""]) == Some(DocOf(meta));
  }

  /**
   * Printing and parsing undo each other, for every meta: printed text decodes exactly when every
   * printed string is clean, and then to the meta itself with its empty optional strings dropped.
   */
  lemma PrintedDecodes(meta: RawdbMeta)
    ensures Decode(ToToml(meta)) == if CleanMeta(meta) then Some(Normal(meta)) else None
  {
    PrintedReadsBack(meta);
    if CleanMeta(meta) {
      assert DocOf(meta).files == FileTables(meta.files);
      SetReadsBack(meta.info);
      FilesReadBack(meta.files);
    }
  }

  /** What passes `validate` and is clean comes back from `parse`; nothing else that is printed does. */
  lemma ParseUndoesPrint(meta: RawdbMeta)
    ensures Parse(ToToml(meta)) == if CleanMeta(meta) && Valid(meta) then Some(Normal(meta)) else None
  {
    PrintedDecodes(meta);
    NormalKeepsValidity(meta);
  }

  lemma NormalKeepsValidity(meta: RawdbMeta)
    ensures Valid(Normal(meta)) <==> Valid(meta)
  {
    var files, normal := meta.files, Normal(meta).files;
    assert forall i :: 0 <= i < |files| ==> normal[i].path == files[i].path;
    assert (forall f :: f in files ==> ValidPath(f.path)) <==> (forall i :: 0 <= i < |files| ==>
        ValidPath(files[i].path));
    assert (forall f :: f in normal ==> ValidPath(f.path)) <==> (forall i :: 0 <= i < |files| ==>
        ValidPath(normal[i].path));
  }

  lemma {:induction false} NormalPrintsAlike(files: seq<FileMeta>)
    ensures FilesLines(NormalFiles(files)) == FilesLines(files)
  {
    if files != [] {
      var init, last := files[..|files| - 1], files[|files| - 1];
      NormalPrintsAlike(init);
      assert NormalFiles(files)[..|files| - 1] == NormalFiles(init);
      assert FileSlots(NormalFile(last)) == FileSlots(last);
    }
  }

  /** Printing what was parsed back gives the same text again. */
  lemma PrintIsFixpoint(meta: RawdbMeta)
    ensures ToToml(Normal(meta)) == ToToml(meta)
    ensures Decode(ToToml(meta)).Some? ==> ToToml(Decode(ToToml(meta)).value) == ToToml(meta)
  {
    assert SetSlots(NormalSet(meta.info)) == SetSlots(meta.info);
    NormalPrintsAlike(meta.files);
    PrintedDecodes(meta);
  }
}
