/** Multipart uploads end to end: the server's part plan, the browser's slicing and reporting,
    and the sort before completion. */
module Multipart {
  import opened Wrappers
  import opened Sequences

  const MAX_PARTS: nat := 10_000
  const MIN_PART_SIZE: nat := 5 * 1024 * 1024
  const MAX_FILE_ATTEMPTS: nat := 10

  function CeilDiv(a: nat, b: nat): nat
    requires b > 0
  {
    a / b + if a % b != 0 then 1 else 0
  }

  lemma CeilDivBounds(a: nat, b: nat)
    requires b > 0
    ensures a <= CeilDiv(a, b) * b < a + b
  {
    assert a == (a / b) * b + a % b;
    assert (a / b + 1) * b == (a / b) * b + b;
  }

  function EffectivePartSize(size: nat, partSize: nat): nat {
    var floor := CeilDiv(size, MAX_PARTS);
    if partSize >= floor then partSize else floor
  }

  function PartCount(size: nat, partSize: nat): nat
    requires partSize > 0
  {
    CeilDiv(size, EffectivePartSize(size, partSize))
  }

  /**
   * Within S3's part limit, hence well inside 32 bits; never a part without bytes, never a byte left over. Parts
   * have the configured size unless that is too small, and then the smallest one that keeps to the limit.
   */
  lemma PlanFits(size: nat, partSize: nat)
    requires partSize >= MIN_PART_SIZE && size > partSize
    ensures 2 <= PartCount(size, partSize) <= MAX_PARTS
    ensures (PartCount(size, partSize) - 1) * EffectivePartSize(size, partSize) < size
         <= PartCount(size, partSize) * EffectivePartSize(size, partSize)
    ensures partSize <= EffectivePartSize(size, partSize) <= size
    ensures EffectivePartSize(size, partSize) > partSize ==>
              (EffectivePartSize(size, partSize) - 1) * MAX_PARTS < size
  {
    var part, count := EffectivePartSize(size, partSize), PartCount(size, partSize);
    CeilDivBounds(size, MAX_PARTS);
    CeilDivBounds(size, part);
    assert (count - 1) * part == count * part - part;
    assert size <= MAX_PARTS * part;
    CancelLess(count - 1, MAX_PARTS, part);
    CancelLess(1, count, part);
  }

  lemma CancelLess(a: int, b: int, c: int)
    requires c > 0 && a * c < b * c
    ensures a < b
  {
    if a >= b { LeScale(b, a, c); }
  }

  lemma LeScale(a: int, b: int, c: int)
    requires a <= b && c >= 0
    ensures a * c <= b * c
  {
    assert (b - a) * c >= 0;
  }

  /** The plan `begin` hands out for one file, as 1-based part numbers. */
  datatype FilePlan = Single | Parts(partSize: nat, numbers: seq<int>)

  method Plan(size: nat, partSize: nat) returns (plan: FilePlan)
    requires partSize >= MIN_PART_SIZE
    ensures plan.Single? <==> size <= partSize
    ensures plan.Parts? ==> plan.partSize == EffectivePartSize(size, partSize)
    ensures plan.Parts? ==> plan.numbers == seq(PartCount(size, partSize), i => i + 1)
  {
    if size <= partSize {
      return Single;
    }
    var effective := EffectivePartSize(size, partSize);
    var count := CeilDiv(size, effective);
    var numbers: seq<int> := [];
    for n := 0 to count
      invariant numbers == seq(n, i => i + 1)
    {
      numbers := numbers + [n + 1];
    }
    plan := Parts(effective, numbers);
  }

  /** The bytes the browser sends as part `index`: `file.slice(start, end)`. */
  function Slice<T>(file: seq<T>, partSize: nat, index: nat): seq<T> {
    var start := index * partSize;
    var end := if start + partSize < |file| then start + partSize else |file|;
    if start <= end then file[start..end] else []
  }

  lemma SliceBounds(size: nat, part: nat, count: nat, index: nat)
    requires (count - 1) * part < size <= count * part && index < count
    ensures 0 <= index * part < size
    ensures index + 1 < count ==> index * part + part < size
  {
    LeScale(index, count - 1, part);
    LeScale(0, index, part);
    if index + 1 < count {
      LeScale(index + 1, count - 1, part);
      assert (index + 1) * part == index * part + part;
    }
  }

  /** Every slice has bytes and all but the last have exactly the planned size. */
  lemma SliceSizes<T>(file: seq<T>, partSize: nat, index: nat)
    requires partSize >= MIN_PART_SIZE && |file| > partSize && index < PartCount(|file|, partSize)
    ensures var part := EffectivePartSize(|file|, partSize);
            0 < |Slice(file, part, index)| <= part &&
            (index + 1 < PartCount(|file|, partSize) ==> |Slice(file, part, index)| == part)
  {
    PlanFits(|file|, partSize);
    SliceBounds(|file|, EffectivePartSize(|file|, partSize), PartCount(|file|, partSize), index);
  }

  datatype Part = Part(number: int, etag: string)

  /** One attempt to put a part: it fails, is stored but its answer lost, or succeeds. */
  datatype Fate = Fails | AnswerLost | Succeeds

  /** S3's side of one multipart upload. */
  class PartStore<T(==)> {
    var parts: map<int, seq<T>>
    const etagOf: (int, seq<T>) -> string

    constructor (etagOf: (int, seq<T>) -> string)
      ensures parts == map[] && this.etagOf == etagOf
    {
      parts := map[];
      this.etagOf := etagOf;
    }

    /** One part, attempted up to `MAX_FILE_ATTEMPTS` times; a failed attempt may still have stored it. */
    method PutWithRetry(number: int, blob: seq<T>, fate: nat -> Fate) returns (etag: Option<string>)
      modifies this
      ensures etag.None? <==> forall n: nat :: 1 <= n <= MAX_FILE_ATTEMPTS ==> !fate(n).Succeeds?
      ensures etag.Some? ==> parts == old(parts)[number := blob] && etag.value == etagOf(number, blob)
      ensures etag.None? ==> parts == old(parts) || parts == old(parts)[number := blob]
    {
      for n := 1 to MAX_FILE_ATTEMPTS + 1
        invariant parts == old(parts) || parts == old(parts)[number := blob]
        invariant forall m :: 1 <= m < n ==> !fate(m).Succeeds?
      {
        if !fate(n).Fails? {
          parts := parts[number := blob];
        }
        if fate(n).Succeeds? {
          return Some(etagOf(number, blob));
        }
      }
      etag := None;
    }

    /** The browser's loop over the plan: slice, put, collect the ETag; any exhausted part aborts it. */
    method Upload(file: seq<T>, partSize: nat, numbers: seq<int>, fates: (nat, nat) -> Fate)
      returns (reported: Option<seq<Part>>)
      requires numbers == seq(|numbers|, i => i + 1)
      modifies this
      ensures reported.Some? ==> reported.value == Reported(file, partSize, |numbers|, etagOf)
      ensures reported.Some? ==> Stored(parts, file, partSize, |numbers|)
      ensures reported.None? <==> exists i :: 0 <= i < |numbers| && Exhausted(fates, i)
    {
      var etags: seq<Part> := [];
      for i := 0 to |numbers|
        invariant etags == Reported(file, partSize, i, etagOf)
        invariant Stored(parts, file, partSize, i)
        invariant forall j :: 0 <= j < i ==> !Exhausted(fates, j)
      {
        var blob := Slice(file, partSize, i);
        var index: nat := i;
        var fate := (n: nat) => fates(index, n);
        var etag := PutWithRetry(numbers[i], blob, fate);
        if etag.None? {
          assert Exhausted(fates, index) by {
            forall n: nat | 1 <= n <= MAX_FILE_ATTEMPTS ensures !fates(index, n).Succeeds? {
              assert !fate(n).Succeeds?;
            }
          }
          return None;
        }
        etags := etags + [Part(numbers[i], etag.value)];
      }
      reported := Some(etags);
    }
  }

  ghost predicate Stored<T>(store: map<int, seq<T>>, file: seq<T>, partSize: nat, count: nat) {
    forall n :: 1 <= n <= count ==> n in store && store[n] == Slice(file, partSize, n - 1)
  }

  ghost predicate Exhausted(fates: (nat, nat) -> Fate, part: nat) {
    forall n: nat :: 1 <= n <= MAX_FILE_ATTEMPTS ==> !fates(part, n).Succeeds?
  }

  function Reported<T>(file: seq<T>, partSize: nat, count: nat, etagOf: (int, seq<T>) -> string): seq<Part> {
    seq(count, i requires 0 <= i => Part(i + 1, etagOf(i + 1, Slice(file, partSize, i))))
  }

  // ---- completion -----------------------------------------------------------

  function Insert(p: Part, sorted: seq<Part>): seq<Part> {
    if sorted == [] || p.number < sorted[0].number then [p] + sorted
    else [sorted[0]] + Insert(p, sorted[1..])
  }

  /** Stable sort by part number, as `complete_multipart_upload` orders the report. */
  function SortByNumber(parts: seq<Part>): seq<Part> {
    if parts == [] then [] else Insert(parts[|parts| - 1], SortByNumber(parts[..|parts| - 1]))
  }

  predicate Less(p: Part, q: Part) {
    p.number < q.number
  }

  lemma {:induction false} InsertAdds(p: Part, sorted: seq<Part>)
    ensures multiset(Insert(p, sorted)) == multiset(sorted) + multiset{p}
  {
    if sorted != [] && p.number >= sorted[0].number {
      InsertAdds(p, sorted[1..]);
      assert sorted == [sorted[0]] + sorted[1..];
    }
  }

  lemma {:induction false} InsertOrders(p: Part, sorted: seq<Part>)
    requires Ordered(Less, sorted)
    ensures Ordered(Less, Insert(p, sorted))
  {
    if sorted != [] && p.number >= sorted[0].number {
      var rest := sorted[1..];
      forall i | 0 <= i < |rest| ensures !Less(rest[i], sorted[0]) { assert rest[i] == sorted[i + 1]; }
      InsertOrders(p, rest);
      InsertAdds(p, rest);
      var inserted := Insert(p, rest);
      forall i | 0 <= i < |inserted| ensures !Less(inserted[i], sorted[0]) {
        assert inserted[i] in multiset(inserted);
      }
    }
  }

  lemma {:induction false} SortKeeps(parts: seq<Part>)
    ensures Ordered(Less, SortByNumber(parts)) && multiset(SortByNumber(parts)) == multiset(parts)
  {
    if parts != [] {
      var init, last := parts[..|parts| - 1], parts[|parts| - 1];
      SortKeeps(init);
      InsertAdds(last, SortByNumber(init));
      InsertOrders(last, SortByNumber(init));
      assert parts == init + [last];
    }
  }

  predicate AllStored<T>(store: map<int, seq<T>>, parts: seq<Part>) {
    forall p :: p in parts ==> p.number in store
  }

  function Assemble<T>(store: map<int, seq<T>>, parts: seq<Part>): seq<T>
    requires AllStored(store, parts)
  {
    if parts == [] then []
    else Assemble(store, parts[..|parts| - 1]) + store[parts[|parts| - 1].number]
  }

  /** How many bytes of a file the first `count` slices cover. */
  function Covered(size: nat, partSize: nat, count: nat): (n: nat)
    ensures n <= size
  {
    if count * partSize < size then count * partSize else size
  }

  lemma SliceExtends<T>(file: seq<T>, partSize: nat, count: nat)
    ensures file[..Covered(|file|, partSize, count)] + Slice(file, partSize, count) ==
            file[..Covered(|file|, partSize, count + 1)]
  {
    assert (count + 1) * partSize == count * partSize + partSize;
  }

  lemma {:induction false} SlicesConcatenate<T>(file: seq<T>, partSize: nat, count: nat, store: map<int, seq<T>>,
                                                etagOf: (int, seq<T>) -> string)
    requires Stored(store, file, partSize, count)
    ensures AllStored(store, Reported(file, partSize, count, etagOf))
    ensures Assemble(store, Reported(file, partSize, count, etagOf)) == file[..Covered(|file|, partSize, count)]
  {
    var reported := Reported(file, partSize, count, etagOf);
    if count > 0 {
      SlicesConcatenate(file, partSize, count - 1, store, etagOf);
      assert reported[..count - 1] == Reported(file, partSize, count - 1, etagOf);
      SliceExtends(file, partSize, count - 1);
    }
  }

  /** Whatever order the browser reports its parts in, S3 assembles exactly the file that was sliced. */
  lemma AssembledIsTheFile<T>(file: seq<T>, partSize: nat, store: map<int, seq<T>>,
                              etagOf: (int, seq<T>) -> string, reported: seq<Part>)
    requires partSize >= MIN_PART_SIZE && |file| > partSize
    requires Stored(store, file, EffectivePartSize(|file|, partSize), PartCount(|file|, partSize))
    requires multiset(reported) ==
             multiset(Reported(file, EffectivePartSize(|file|, partSize), PartCount(|file|, partSize), etagOf))
    ensures AllStored(store, SortByNumber(reported))
    ensures Assemble(store, SortByNumber(reported)) == file
  {
    var part, count := EffectivePartSize(|file|, partSize), PartCount(|file|, partSize);
    PlanFits(|file|, partSize);
    SortKeeps(reported);
    OrderIsUnique(Less, SortByNumber(reported), Reported(file, part, count, etagOf));
    SlicesConcatenate(file, part, count, store, etagOf);
    assert file[..|file|] == file;
  }
}
