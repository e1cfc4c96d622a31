/** The entities every component shares: set identity and the parsed `rawdb-meta.toml`. */
module Catalogue {
  import opened Wrappers

  /** A set's identity, `(maker, model)`. */
  datatype SetKey = SetKey(maker: string, model: string)

  datatype FileMeta = FileMeta(
    path: string,
    sha256: Option<string>,
    license: Option<string>,
    notes: Option<string>,
    tags: seq<string>)

  /** Timestamps are their RFC 3339 text. */
  datatype SetMeta = SetMeta(
    maker: string,
    model: string,
    license: string,
    uploadedBy: Option<string>,
    uploadedAt: Option<string>,
    notes: Option<string>,
    special: bool,
    approvedAt: Option<string>,
    approvedBy: Option<string>,
    approvedInitialAt: Option<string>,
    approvedInitialBy: Option<string>)

  datatype RawdbMeta = RawdbMeta(info: SetMeta, files: seq<FileMeta>) {
    function Key(): SetKey {
      SetKey(info.maker, info.model)
    }
  }

  ghost predicate UniquePaths(files: seq<FileMeta>) {
    forall i, j :: 0 <= i < j < |files| ==> files[i].path != files[j].path
  }

  function Paths(files: seq<FileMeta>): set<string> {
    set f | f in files :: f.path
  }
}
