/**
 * The part of TOML v1.0.0 that a printed `rawdb-meta.toml` uses: basic strings, arrays of them,
 * booleans, bare keys, the table `[set]` and the array of tables `[[files]]`.
 */
module Toml {
  import opened Wrappers
  import opened Text

  datatype Value = Str(text: string) | Arr(items: seq<string>) | Bool(on: bool)

  type Table = seq<(string, Value)>

  // ---- Printing ----

  /** The printer's four replacements, one after the other. */
  function Replaced(s: string): string {
    Replace(Replace(Replace(Replace(s, '\\', "\\\\"), '\"', "\\\""), '\n', "\\n"), '\t', "\\t")
  }

  function Quote(s: string): string {
    "\"" + Replaced(s) + "\""
  }

  function EscapeChar(c: char): string {
    if c == '\\' then "\\\\"
    else if c == '\"' then "\\\""
    else if c == '\n' then "\\n"
    else if c == '\t' then "\\t"
    else [c]
  }

  function Escape(s: string): string {
    if s == "" then "" else EscapeChar(s[0]) + Escape(s[1..])
  }

  lemma ReplacedAppend(a: string, b: string)
    ensures Replaced(a + b) == Replaced(a) + Replaced(b)
  {
    ReplaceAppend(a, b, '\\', "\\\\");
    var a1, b1 := Replace(a, '\\', "\\\\"), Replace(b, '\\', "\\\\");
    ReplaceAppend(a1, b1, '\"', "\\\"");
    var a2, b2 := Replace(a1, '\"', "\\\""), Replace(b1, '\"', "\\\"");
    ReplaceAppend(a2, b2, '\n', "\\n");
    ReplaceAppend(Replace(a2, '\n', "\\n"), Replace(b2, '\n', "\\n"), '\t', "\\t");
  }

  lemma ReplaceOne(c: char, pattern: char, text: string)
    ensures Replace([c], pattern, text) == if c == pattern then text else [c]
  {
    assert [c][1..] == "";
  }

  lemma ReplacedOne(c: char)
    ensures Replaced([c]) == EscapeChar(c)
  {
    ReplaceOne(c, '\\', "\\\\");
    ReplaceOne(c, '\"', "\\\"");
    ReplaceOne(c, '\n', "\\n");
    ReplaceOne(c, '\t', "\\t");
    if c == '\\' {
      assert "\\\\" == "\\" + "\\";
      ReplaceAppend("\\", "\\", '\"', "\\\"");
      ReplaceAppend("\\", "\\", '\n', "\\n");
      ReplaceAppend("\\", "\\", '\t', "\\t");
      ReplaceOne('\\', '\"', "\\\"");
    } else if c == '\"' {
      assert "\\\"" == "\\" + "\"";
      ReplaceAppend("\\", "\"", '\n', "\\n");
      ReplaceAppend("\\", "\"", '\t', "\\t");
      ReplaceOne('\\', '\n', "\\n");
      ReplaceOne('\\', '\t', "\\t");
    } else if c == '\n' {
      assert "\\n" == "\\" + "n";
      ReplaceAppend("\\", "n", '\t', "\\t");
      ReplaceOne('\\', '\t', "\\t");
      ReplaceOne('n', '\t', "\\t");
    }
  }

  /** No replacement touches what an earlier one wrote: together they are one pass. */
  lemma {:induction false} SequentialReplacesAreOnePass(s: string)
    ensures Replaced(s) == Escape(s)
  {
    if s != "" {
      SequentialReplacesAreOnePass(s[1..]);
      assert s == [s[0]] + s[1..];
      ReplacedAppend([s[0]], s[1..]);
      ReplacedOne(s[0]);
    }
  }

  function ArrayBody(items: seq<string>): string {
    if items == [] then ""
    else if |items| == 1 then Quote(items[0])
    else Quote(items[0]) + ", " + ArrayBody(items[1..])
  }

  function ValueText(v: Value): string {
    match v
    case Str(text) => Quote(text)
    case Arr(items) => "[" + ArrayBody(items) + "]"
    case Bool(on) => if on then "true" else "false"
  }

  function EntryLine(key: string, v: Value): string {
    key + " = " + ValueText(v)
  }

  function EntryLines(table: Table): seq<string> {
    if table == [] then [] else [EntryLine(table[0].0, table[0].1)] + EntryLines(table[1..])
  }

  // ---- Parsing ----

  /** What may stand unescaped in a basic string (section "String"), but for `"` and `\`. */
  predicate Plain(c: char) {
    c == '\t' || (c as int >= 0x20 && c as int != 0x7F)
  }

  function Unescape(c: char): Option<char> {
    if c == '\\' || c == '\"' then Some(c)
    else if c == 'n' then Some('\n')
    else if c == 't' then Some('\t')
    else if c == 'r' then Some('\r')
    else if c == 'b' then Some(8 as char)
    else if c == 'f' then Some(12 as char)
    else None
  }

  function Prepend(c: char, r: Option<(string, string)>): Option<(string, string)> {
    if r.Some? then Some(([c] + r.value.0, r.value.1)) else None
  }

  /** Reads a basic string after its opening quote: its content, and the text after its closing quote. */
  function Unquote(s: string): Option<(string, string)> {
    if s == "" then None
    else if s[0] == '\"' then Some(("", s[1..]))
    else if s[0] == '\\' then
      if |s| > 1 && Unescape(s[1]).Some? then Prepend(Unescape(s[1]).value, Unquote(s[2..])) else None
    else if Plain(s[0]) then Prepend(s[0], Unquote(s[1..]))
    else None
  }

  lemma {:induction false} UnquoteShortens(s: string)
    ensures Unquote(s).Some? ==> |Unquote(s).value.1| < |s|
  {
    if s != "" && s[0] == '\\' && |s| > 1 {
      UnquoteShortens(s[2..]);
    } else if s != "" && s[0] != '\"' {
      UnquoteShortens(s[1..]);
    }
  }

  /** Reads the items of a non-empty array up to its closing bracket, which ends the line. */
  function Items(s: string): Option<seq<string>>
    decreases |s|
  {
    if s == "" || s[0] != '\"' then None
    else
      var head := Unquote(s[1..]);
      UnquoteShortens(s[1..]);
      if head.None? then None
      else if head.value.1 == "]" then Some([head.value.0])
      else if ", " <= head.value.1 then
        var rest := Items(head.value.1[2..]);
        if rest.Some? then Some([head.value.0] + rest.value) else None
      else None
  }

  function ParseValue(s: string): Option<Value> {
    if s == "true" then Some(Bool(true))
    else if s == "false" then Some(Bool(false))
    else if s == "[]" then Some(Arr([]))
    else if s != "" && s[0] == '[' then
      var items := Items(s[1..]);
      if items.Some? then Some(Arr(items.value)) else None
    else if s != "" && s[0] == '\"' then
      var text := Unquote(s[1..]);
      if text.Some? && text.value.1 == "" then Some(Str(text.value.0)) else None
    else None
  }

  predicate BareKeyChar(c: char) {
    'a' <= c <= 'z' || 'A' <= c <= 'Z' || '0' <= c <= '9' || c == '_' || c == '-'
  }

  predicate BareKey(key: string) {
    key != "" && forall i :: 0 <= i < |key| ==> BareKeyChar(key[i])
  }

  /** The longest run of bare-key characters at the start, and what follows it. */
  function KeyPart(line: string): (string, string) {
    if line == "" || !BareKeyChar(line[0]) then ("", line)
    else var r := KeyPart(line[1..]); ([line[0]] + r.0, r.1)
  }

  datatype Line = Blank | SetHeading | FilesHeading | Entry(key: string, value: Value)

  function ParseEntry(line: string): Option<Line> {
    var part := KeyPart(line);
    if part.0 == "" || !(" = " <= part.1) then None
    else
      var v := ParseValue(part.1[3..]);
      if v.Some? then Some(Entry(part.0, v.value)) else None
  }

  function ParseLine(line: string): Option<Line> {
    if line == "" then Some(Blank)
    else if line == "[set]" then Some(SetHeading)
    else if line == "[[files]]" then Some(FilesHeading)
    else ParseEntry(line)
  }

  datatype Place = Root | InSet | InFile

  /** A document read so far; entries go into the table opened last. */
  datatype Doc = Doc(info: Option<Table>, files: seq<Table>, place: Place)

  predicate Has(table: Table, key: string) {
    exists i :: 0 <= i < |table| && table[i].0 == key
  }

  function Extended(table: Table, key: string, v: Value): Option<Table> {
    if Has(table, key) then None else Some(table + [(key, v)])
  }

  /** One line of the document; a table opened twice or a key given twice is an error. */
  function Read(doc: Doc, line: Line): Option<Doc> {
    match line
    case Blank => Some(doc)
    case SetHeading => if doc.info.Some? then None else Some(doc.(info := Some([]), place := InSet))
    case FilesHeading => Some(doc.(files := doc.files + [[]], place := InFile))
    case Entry(key, v) =>
      if doc.place.InSet? && doc.info.Some? then
        var t := Extended(doc.info.value, key, v);
        if t.Some? then Some(doc.(info := t)) else None
      else if doc.place.InFile? && doc.files != [] then
        var t := Extended(doc.files[|doc.files| - 1], key, v);
        if t.Some? then Some(doc.(files := doc.files[..|doc.files| - 1] + [t.value])) else None
      else None
  }

  function ReadLines(doc: Doc, lines: seq<string>): Option<Doc>
    decreases |lines|
  {
    if lines == [] then Some(doc)
    else
      var line := ParseLine(lines[0]);
      if line.None? then None
      else
        var next := Read(doc, line.value);
        if next.None? then None else ReadLines(next.value, lines[1..])
  }

  function ParseDoc(text: string): Option<Doc> {
    ReadLines(Doc(None, [], Root), Split(text, '\n'))
  }

  // ---- Parsing what was printed ----

  /** No control character but newline and tab, which the printer escapes. */
  predicate Clean(s: string) {
    forall i :: 0 <= i < |s| ==> s[i] == '\n' || Plain(s[i])
  }

  predicate CleanValue(v: Value) {
    match v
    case Str(text) => Clean(text)
    case Arr(items) => forall i :: 0 <= i < |items| ==> Clean(items[i])
    case Bool(_) => true
  }

  predicate CleanTable(table: Table) {
    forall i :: 0 <= i < |table| ==> CleanValue(table[i].1)
  }

  /** A printed string reads back as itself, whatever follows, exactly when it is clean. */
  lemma {:induction false} UnquoteEscaped(s: string, rest: string)
    ensures Unquote(Escape(s) + "\"" + rest) == if Clean(s) then Some((s, rest)) else None
  {
    var text := Escape(s) + "\"" + rest;
    if s != "" {
      UnquoteEscaped(s[1..], rest);
      var tail := Escape(s[1..]) + "\"" + rest;
      assert text == EscapeChar(s[0]) + tail;
      assert Clean(s) <==> (s[0] == '\n' || Plain(s[0])) && Clean(s[1..]) by {
        assert forall i :: 0 < i < |s| ==> s[i] == s[1..][i - 1];
      }
      assert [s[0]] + s[1..] == s;
      if |EscapeChar(s[0])| == 2 {
        assert text[2..] == tail;
      } else {
        assert text[1..] == tail;
      }
    } else {
      assert text[1..] == rest;
    }
  }

  lemma QuoteReadsBack(s: string, rest: string)
    ensures |Quote(s) + rest| > 1 && (Quote(s) + rest)[0] == '\"'
    ensures Unquote((Quote(s) + rest)[1..]) == if Clean(s) then Some((s, rest)) else None
  {
    SequentialReplacesAreOnePass(s);
    var text := Quote(s) + rest;
    assert text[1..] == Escape(s) + "\"" + rest;
    UnquoteEscaped(s, rest);
  }

  lemma {:induction false} ItemsReadBack(items: seq<string>)
    requires items != []
    ensures Items(ArrayBody(items) + "]") == if CleanValue(Arr(items)) then Some(items) else None
  {
    var more := items[1..];
    assert items == [items[0]] + more;
    assert CleanValue(Arr(items)) <==> Clean(items[0]) && CleanValue(Arr(more));
    if more == [] {
      QuoteReadsBack(items[0], "]");
      assert items == [items[0]];
    } else {
      var rest := ", " + (ArrayBody(more) + "]");
      assert rest[2..] == ArrayBody(more) + "]" && rest[0] == ',' && ", " <= rest;
      assert ArrayBody(items) + "]" == Quote(items[0]) + rest;
      QuoteReadsBack(items[0], rest);
      assert rest != "]";
      ItemsReadBack(more);
    }
  }

  lemma ArrayReadsBack(items: seq<string>)
    requires items != []
    ensures ParseValue(ValueText(Arr(items))) == if CleanValue(Arr(items)) then Some(Arr(items)) else None
  {
    ItemsReadBack(items);
    var text := ValueText(Arr(items));
    assert text[1..] == ArrayBody(items) + "]";
    assert text[0] == '[' && |text| > 2;
  }

  lemma StringReadsBack(s: string)
    ensures ParseValue(ValueText(Str(s))) == if Clean(s) then Some(Str(s)) else None
  {
    QuoteReadsBack(s, "");
    assert Quote(s) + "" == Quote(s);
  }

  lemma ValueReadsBack(v: Value)
    ensures ParseValue(ValueText(v)) == if CleanValue(v) then Some(v) else None
  {
    match v
    case Str(text) => StringReadsBack(text);
    case Arr(items) => if items != [] { ArrayReadsBack(items); }
    case Bool(_) =>
  }

  lemma {:induction false} KeyReadsBack(key: string, rest: string)
    requires forall i :: 0 <= i < |key| ==> BareKeyChar(key[i])
    requires rest != "" && !BareKeyChar(rest[0])
    ensures KeyPart(key + rest) == (key, rest)
  {
    if key == "" {
      assert key + rest == rest;
    } else {
      assert (key + rest)[1..] == key[1..] + rest;
      KeyReadsBack(key[1..], rest);
      assert [key[0]] + key[1..] == key;
    }
  }

  lemma EntryReadsBack(key: string, v: Value)
    requires BareKey(key)
    ensures ParseLine(EntryLine(key, v)) == if CleanValue(v) then Some(Entry(key, v)) else None
  {
    var rest := " = " + ValueText(v);
    var line := key + rest;
    assert EntryLine(key, v) == line;
    KeyReadsBack(key, rest);
    assert rest[3..] == ValueText(v) && " = " <= rest;
    ValueReadsBack(v);
    assert line[0] == key[0] && BareKeyChar(key[0]);
    NotAHeading(line);
  }

  lemma NotAHeading(line: string)
    requires line != "" && BareKeyChar(line[0])
    ensures ParseLine(line) == ParseEntry(line)
  {
    assert "[set]"[0] == '[' && "[[files]]"[0] == '[';
  }

  lemma {:induction false} ReadLinesAppend(doc: Doc, a: seq<string>, b: seq<string>)
    ensures ReadLines(doc, a + b) ==
            if ReadLines(doc, a).Some? then ReadLines(ReadLines(doc, a).value, b) else None
    decreases |a|
  {
    if a == [] {
      assert a + b == b;
    } else {
      assert (a + b)[1..] == a[1..] + b;
      var line := ParseLine(a[0]);
      if line.Some? && Read(doc, line.value).Some? {
        ReadLinesAppend(Read(doc, line.value).value, a[1..], b);
      }
    }
  }

  predicate DistinctKeys(table: Table) {
    forall i, j :: 0 <= i < j < |table| ==> table[i].0 != table[j].0
  }

  predicate BareKeys(table: Table) {
    forall i :: 0 <= i < |table| ==> BareKey(table[i].0)
  }

  /** The table entries go into. */
  function Open(doc: Doc): Option<Table> {
    if doc.place.InSet? then doc.info
    else if doc.place.InFile? && doc.files != [] then Some(doc.files[|doc.files| - 1])
    else None
  }

  function WithOpen(doc: Doc, table: Table): Doc
    requires Open(doc).Some?
  {
    if doc.place.InSet? then doc.(info := Some(table))
    else doc.(files := doc.files[..|doc.files| - 1] + [table])
  }

  lemma EntryExtends(doc: Doc, key: string, v: Value)
    requires Open(doc).Some? && !Has(Open(doc).value, key)
    ensures var next := WithOpen(doc, Open(doc).value + [(key, v)]);
            Read(doc, Entry(key, v)) == Some(next) && Open(next) == Some(Open(doc).value + [(key, v)])
  {
  }

  lemma WithOpenTwice(doc: Doc, a: Table, b: Table)
    requires Open(doc).Some?
    ensures Open(WithOpen(doc, a)).Some? && WithOpen(WithOpen(doc, a), b) == WithOpen(doc, b)
  {
  }

  lemma ReadsEntryFirst(doc: Doc, before: Table, entry: (string, Value), rest: Table)
    requires Open(doc) == Some(before) && !Has(before, entry.0) && BareKey(entry.0)
    ensures ReadLines(doc, EntryLines([entry] + rest)) ==
            if CleanValue(entry.1) then ReadLines(WithOpen(doc, before + [entry]), EntryLines(rest)) else None
  {
    var lines := EntryLines([entry] + rest);
    assert ([entry] + rest)[1..] == rest;
    assert lines[0] == EntryLine(entry.0, entry.1) && lines[1..] == EntryLines(rest);
    EntryReadsBack(entry.0, entry.1);
    EntryExtends(doc, entry.0, entry.1);
  }

  /** Printed entries read into the open table, exactly when every value is clean. */
  lemma {:induction false} EntriesReadBack(doc: Doc, before: Table, table: Table)
    requires Open(doc) == Some(before) && DistinctKeys(before + table) && BareKeys(table)
    ensures ReadLines(doc, EntryLines(table)) ==
            if CleanTable(table) then Some(WithOpen(doc, before + table)) else None
    decreases |table|
  {
    if table == [] {
      assert before + table == before;
      assert WithOpen(doc, before) == doc;
    } else {
      var entry, rest := table[0], table[1..];
      assert table == [entry] + rest;
      NewKey(before, entry, rest);
      ReadsEntryFirst(doc, before, entry, rest);
      CleanTableSplit(entry, rest);
      if CleanValue(entry.1) {
        EntryExtends(doc, entry.0, entry.1);
        KeysShift(before, entry, rest);
        EntriesReadBack(WithOpen(doc, before + [entry]), before + [entry], rest);
        WithOpenTwice(doc, before + [entry], before + table);
      }
    }
  }

  lemma KeysShift(before: Table, entry: (string, Value), rest: Table)
    requires DistinctKeys(before + ([entry] + rest)) && BareKeys([entry] + rest)
    ensures before + [entry] + rest == before + ([entry] + rest)
    ensures DistinctKeys(before + [entry] + rest) && BareKeys(rest)
  {
    var table := [entry] + rest;
    assert before + [entry] + rest == before + table;
    assert forall i :: 0 <= i < |rest| ==> rest[i] == table[i + 1];
  }

  lemma CleanTableSplit(entry: (string, Value), rest: Table)
    ensures CleanTable([entry] + rest) <==> CleanValue(entry.1) && CleanTable(rest)
  {
    var table := [entry] + rest;
    assert table[0] == entry && rest == table[1..];
  }

  lemma NewKey(before: Table, entry: (string, Value), rest: Table)
    requires DistinctKeys(before + ([entry] + rest))
    ensures !Has(before, entry.0)
  {
    var all := before + ([entry] + rest);
    assert all[|before|] == entry;
    assert forall i :: 0 <= i < |before| ==> all[i] == before[i];
  }

  function Lookup(table: Table, key: string): Option<Value> {
    if table == [] then None
    else if table[0].0 == key then Some(table[0].1)
    else Lookup(table[1..], key)
  }
}
