/** Reading large objects over connections that fail: the resume loops of `download_to_file` and
    of checksum verification. Every exchange with S3 is answered by an arbitrary environment. */
module Transfer {
  import opened Wrappers
  import Like

  const MAX_RETRIES: nat := 5

  type Byte = bv8

  /** What S3 does at one exchange; a read delivers at most `n` further bytes. */
  datatype Answer = NotFound | OpenFails | Breaks | EndsEarly | Delivers(n: nat)

  datatype TransferError = Gone | RetriesExhausted | WrongLength

  datatype Open = Absent | Failed | Ready

  datatype Read = Broken | End | Data(bytes: seq<Byte>)

  /** A ranged GET starting at or past the end of a non-empty prefix is refused by S3. */
  function OpenAt(answer: Answer, source: seq<Byte>, start: nat): Open {
    if answer.NotFound? then Absent
    else if answer.OpenFails? || (start > 0 && start >= |source|) then Failed
    else Ready
  }

  function ReadAt(answer: Answer, source: seq<Byte>, pos: nat): (read: Read)
    requires pos <= |source|
    ensures read.Data? ==> read.bytes != [] && pos + |read.bytes| <= |source|
    ensures read.Data? ==> read.bytes == source[pos..pos + |read.bytes|]
    ensures read.End? && !answer.EndsEarly? ==> pos == |source|
  {
    if answer.Breaks? then Broken
    else if pos == |source| || answer.EndsEarly? then End
    else
      var n := if answer.Delivers? && 0 < answer.n <= |source| - pos then answer.n else 1;
      Data(source[pos..pos + n])
  }

  ghost predicate Flawless(env: nat -> Answer) {
    forall i: nat :: env(i).Delivers?
  }

  /** No stream ends before its object does without saying so. */
  ghost predicate Honest(env: nat -> Answer) {
    forall i: nat :: !env(i).EndsEarly?
  }

  function Faults(env: nat -> Answer, n: nat): nat {
    if n == 0 then 0 else Faults(env, n - 1) + if env(n - 1).OpenFails? || env(n - 1).Breaks? then 1 else 0
  }

  /** The object stays, streams end only where it does, and no more fails than the retries make up for. */
  ghost predicate Survivable(env: nat -> Answer) {
    && (forall i: nat :: !env(i).NotFound? && !env(i).EndsEarly?)
    && forall n: nat :: Faults(env, n) <= MAX_RETRIES
  }

  /** Downloads `source`, resuming after the bytes already written. `file` is what is on disk at the end. */
  method DownloadToFile(source: seq<Byte>, expected: nat, env: nat -> Answer)
    returns (result: Result<nat, TransferError>, file: seq<Byte>, attempt: nat)
    ensures |file| <= |source| && file == source[..|file|]
    ensures result.Ok? ==> result.value == |file| == expected
    ensures result == Err(RetriesExhausted) <==> attempt == MAX_RETRIES + 1
    ensures result == Err(WrongLength) ==> |file| != expected
    ensures result == Err(Gone) ==> exists i: nat :: env(i).NotFound?
    ensures Flawless(env) ==> attempt == 0 && file == source && (result.Ok? <==> |source| == expected)
    ensures Survivable(env) && |source| == expected ==> result.Ok? && file == source
  {
    var written: nat, step: nat := 0, 0;
    file, attempt := [], 0;
    label transfer: while true
      invariant written == |file| <= |source| && file == source[..written] && attempt <= MAX_RETRIES
      invariant Flawless(env) ==> attempt == 0 && file == []
      invariant |source| == expected ==> attempt <= Faults(env, step)
      decreases MAX_RETRIES - attempt
    {
      if written > 0 && written >= expected {
        break;
      }
      var opening := OpenAt(env(step), source, written);
      step := step + 1;
      match opening {
        case Absent =>
          return Err(Gone), file, attempt;
        case Failed =>
          attempt := attempt + 1;
          assert |source| == expected ==> attempt <= Faults(env, step);
          if attempt > MAX_RETRIES {
            return Err(RetriesExhausted), file, attempt;
          }
          continue;
        case Ready =>
      }
      while true
        invariant written == |file| <= |source| && file == source[..written] && attempt <= MAX_RETRIES
        invariant Flawless(env) ==> attempt == 0
        invariant |source| == expected ==> attempt <= Faults(env, step)
        decreases |source| - written
      {
        var read := ReadAt(env(step), source, written);
        step := step + 1;
        match read {
          case End => break transfer;
          case Data(bytes) =>
            file, written := file + bytes, written + |bytes|;
          case Broken =>
            attempt := attempt + 1;
            assert |source| == expected ==> attempt <= Faults(env, step);
            if attempt > MAX_RETRIES {
              return Err(RetriesExhausted), file, attempt;
            }
            continue transfer;
        }
      }
    }
    if written != expected {
      return Err(WrongLength), file, attempt;
    }
    result := Ok(written);
  }

  /** A stream broke when everything had been read. */
  predicate Cut(source: seq<Byte>, hashed: seq<Byte>, last: Answer) {
    source != [] && hashed == source && last.Breaks?
  }

  /** The first stream delivers all of a non-empty object at once and then breaks. */
  predicate BreaksAtEnd(source: seq<Byte>, env: nat -> Answer) {
    source != [] && env(0).Delivers? && env(1) == Delivers(|source|) && env(2).Breaks?
  }

  /**
   * Feeds an object to an incremental hasher; `hashed` is everything fed so far, and `last` numbers the last
   * answer of a stream. Unlike a download the loop knows no length: the whole object was hashed unless that
   * very answer ended the stream with bytes left, and a stream that breaks after the last byte is reopened
   * past the end, which S3 refuses until the retries are used up. Nothing else fails it in a survivable
   * environment.
   */
  method HashObject(source: seq<Byte>, env: nat -> Answer)
    returns (result: Result<(), TransferError>, hashed: seq<Byte>, ghost last: nat)
    ensures |hashed| <= |source| && hashed == source[..|hashed|]
    ensures result.Ok? ==> ReadAt(env(last), source, |hashed|).End?
    ensures result.Ok? ==> (hashed == source <==> !(env(last).EndsEarly? && |hashed| < |source|))
    ensures env(0).Delivers? && env(1).EndsEarly? ==> result.Ok? && hashed == []
    ensures Cut(source, hashed, env(last)) ==> result.Err?
    ensures BreaksAtEnd(source, env) ==> result.Err? && hashed == source
    ensures Survivable(env) ==> (result.Err? <==> Cut(source, hashed, env(last)))
    ensures result.Err? ==> result.error != WrongLength && !Flawless(env)
  {
    var read: nat, step: nat, attempt: nat := 0, 0, 0;
    hashed, last := [], 0;
    label transfer: while true
      invariant read == |hashed| <= |source| && hashed == source[..read] && attempt <= MAX_RETRIES
      invariant Flawless(env) ==> attempt == 0 && hashed == []
      invariant if source != [] && read == |source| then env(last).Breaks? else attempt <= Faults(env, step)
      invariant env(0).Delivers? && env(1).EndsEarly? ==> step == 0 && hashed == []
      invariant BreaksAtEnd(source, env) ==> (step == 0 && hashed == []) || read == |source|
      decreases MAX_RETRIES - attempt
    {
      var opening := OpenAt(env(step), source, read);
      step := step + 1;
      match opening {
        case Absent =>
          return Err(Gone), hashed, last;
        case Failed =>
          attempt := attempt + 1;
          if attempt > MAX_RETRIES {
            return Err(RetriesExhausted), hashed, last;
          }
          continue;
        case Ready =>
      }
      while true
        invariant read == |hashed| <= |source| && hashed == source[..read] && attempt <= MAX_RETRIES
        invariant Flawless(env) ==> attempt == 0
        invariant attempt <= Faults(env, step)
        invariant env(0).Delivers? && env(1).EndsEarly? ==> step == 1 && hashed == []
        invariant BreaksAtEnd(source, env) ==> (step == 1 && hashed == []) || (step == 2 && read == |source|)
        decreases |source| - read
      {
        var chunk := ReadAt(env(step), source, read);
        last, step := step, step + 1;
        match chunk {
          case End => break transfer;
          case Data(bytes) =>
            hashed, read := hashed + bytes, read + |bytes|;
          case Broken =>
            attempt := attempt + 1;
            if attempt > MAX_RETRIES {
              return Err(RetriesExhausted), hashed, last;
            }
            continue transfer;
        }
      }
    }
    result := Ok(());
  }

  // ---- checksum verification ------------------------------------------------

  datatype Verdict = Matches | Mismatch | Unclaimed

  datatype Claim = Claim(source: seq<Byte>, sha256: Option<string>)

  datatype Report = Report(ok: bool, verified: nat, mismatched: nat, missing: nat, verdicts: seq<Verdict>)

  function Judge(claim: Claim, hashed: seq<Byte>, digest: seq<Byte> -> string): Verdict {
    match claim.sha256
    case None => Unclaimed
    case Some(hex) => if Like.EqualFolded(hex, digest(hashed)) then Matches else Mismatch
  }

  /** What each file's hasher was fed: a prefix of the object, and all of it unless a stream ended early. */
  ghost predicate Fed(files: seq<Claim>, hashes: seq<seq<Byte>>, env: (nat, nat) -> Answer) {
    |hashes| == |files| && forall i :: 0 <= i < |files| ==> FedFile(files[i].source, hashes[i], (n: nat) => env(i, n))
  }

  ghost predicate FedFile(source: seq<Byte>, hashed: seq<Byte>, env: nat -> Answer) {
    hashed <= source && (Honest(env) ==> hashed == source)
  }

  ghost predicate Tallied(verdicts: seq<Verdict>, verified: nat, mismatched: nat, missing: nat) {
    && verified == multiset(verdicts)[Matches] && mismatched == multiset(verdicts)[Mismatch]
    && missing == multiset(verdicts)[Unclaimed]
  }

  /** What an object must meet for its hashing to fail. */
  ghost predicate MayFail(source: seq<Byte>, env: nat -> Answer) {
    !Survivable(env) || (source != [] && exists k: nat :: env(k).Breaks?)
  }

  /** Any successful verification judged every file by all its hasher was fed, however often reads were resumed. */
  method VerifyPending(files: seq<Claim>, digest: seq<Byte> -> string, env: (nat, nat) -> Answer)
    returns (result: Result<Report, TransferError>, ghost hashes: seq<seq<Byte>>)
    ensures result.Ok? ==> Fed(files, hashes, env) && |result.value.verdicts| == |files|
    ensures result.Ok? ==>
              forall i :: 0 <= i < |files| ==> result.value.verdicts[i] == Judge(files[i], hashes[i], digest)
    ensures result.Ok? ==> result.value.verified == multiset(result.value.verdicts)[Matches]
    ensures result.Ok? ==> result.value.mismatched == multiset(result.value.verdicts)[Mismatch]
    ensures result.Ok? ==> result.value.missing == multiset(result.value.verdicts)[Unclaimed]
    ensures result.Ok? ==> (result.value.ok <==> Mismatch !in result.value.verdicts)
    ensures result.Err? ==> result.error != WrongLength
    ensures result.Err? ==>
              exists i :: 0 <= i < |files| && MayFail(files[i].source, (n: nat) => env(i, n))
  {
    var verified: nat, mismatched: nat, missing: nat := 0, 0, 0;
    var verdicts: seq<Verdict> := [];
    hashes := [];
    for i := 0 to |files|
      invariant |verdicts| == |hashes| == i
      invariant forall j :: 0 <= j < i ==> verdicts[j] == Judge(files[j], hashes[j], digest)
      invariant forall j :: 0 <= j < i ==> FedFile(files[j].source, hashes[j], (n: nat) => env(j, n))
      invariant Tallied(verdicts, verified, mismatched, missing)
    {
      var index: nat := i;
      var outcome, hashed, last := HashObject(files[i].source, (n: nat) => env(index, n));
      if outcome.Err? {
        assert MayFail(files[i].source, (n: nat) => env(index, n));
        return Err(outcome.error), hashes;
      }
      var computed := digest(hashed);
      var verdict;
      match files[i].sha256 {
        case None => missing, verdict := missing + 1, Unclaimed;
        case Some(claimed) =>
          if Like.EqualFolded(claimed, computed) {
            verified, verdict := verified + 1, Matches;
          } else {
            mismatched, verdict := mismatched + 1, Mismatch;
          }
      }
      verdicts, hashes := verdicts + [verdict], hashes + [hashed];
    }
    result := Ok(Report(mismatched == 0, verified, mismatched, missing, verdicts));
  }
}
