/**
 The content-addressed artifact store: a directory of blobs, a table of what has
 been recorded, and a quota on the recorded bytes. A put writes its blob first and
 its row second, and may be cut short between the two.
 */
module Artifacts {
  import opened Wrappers
  import opened Sequences

  type Bytes = seq<bv8>

  /** The address of a content, or any other string a caller may pass for one. */
  datatype Digest = Sha256Of(content: Bytes) | OtherDigest(text: string)

  datatype ArtifactRef = ArtifactRef(digest: Digest, sizeBytes: nat, mediaType: string, encoding: Option<string>,
                                     createdAt: int)

  /** A store: the blob at each digest's path, and the rows of the table in the order of insertion. */
  datatype Store = Store(blobs: map<Digest, Bytes>, rows: seq<ArtifactRef>)

  const EMPTY := Store(map[], [])

  datatype ArtifactError = InvalidMediaType | Integrity | QuotaExceeded | Interrupted | NotFound

  /** Where a put is cut short, if it is. */
  datatype Fault = NoFault | BeforeBlob | AfterBlob

  // ---------------------------------------------------------------- the table

  function Row(rows: seq<ArtifactRef>, d: Digest): Option<ArtifactRef> {
    if rows == [] then None
    else if rows[|rows| - 1].digest == d then Some(rows[|rows| - 1])
    else Row(rows[..|rows| - 1], d)
  }

  /** `coalesce(sum(size_bytes), 0)` */
  function Recorded(rows: seq<ArtifactRef>): nat {
    if rows == [] then 0 else Recorded(rows[..|rows| - 1]) + rows[|rows| - 1].sizeBytes
  }

  /** `_verify_path` returns without raising. */
  predicate PathVerifies(blobs: map<Digest, Bytes>, d: Digest, size: nat) {
    d in blobs && |blobs[d]| == size && Sha256Of(blobs[d]) == d
  }

  /** `media_type.strip()` is not empty. */
  predicate NotBlank(s: string) {
    exists i :: 0 <= i < |s| && s[i] !in " \t\n\r"
  }

  // ---------------------------------------------------------------- the operations

  /** `put_bytes`, with the whole store after it. */
  function PutBytes(s: Store, quota: Option<nat>, data: Bytes, mediaType: string, encoding: Option<string>, now: int,
                    fault: Fault)
    : (Store, Result<ArtifactRef, ArtifactError>)
  {
    var d := Sha256Of(data);
    if !NotBlank(mediaType) then (s, Err(InvalidMediaType))
    else if Row(s.rows, d).Some? then
      if PathVerifies(s.blobs, d, Row(s.rows, d).value.sizeBytes) then (s, Ok(Row(s.rows, d).value))
        else (s, Err(Integrity))
    else if quota.Some? && Recorded(s.rows) + |data| > quota.value then (s, Err(QuotaExceeded))
    else if d in s.blobs && !PathVerifies(s.blobs, d, |data|) then (s, Err(Integrity))
    else if d !in s.blobs && fault == BeforeBlob then (s, Err(Interrupted))
    else
      var written := s.(blobs := s.blobs[d := data]);
      var reference := ArtifactRef(d, |data|, mediaType, encoding, now);
      if fault == AfterBlob then (written, Err(Interrupted))
      else (written.(rows := s.rows + [reference]), Ok(reference))
  }

  /** `get_bytes` with verification. */
  function GetBytes(s: Store, d: Digest): Result<Bytes, ArtifactError> {
    match Row(s.rows, d)
    case None => Err(NotFound)
    case Some(reference) =>
      if d !in s.blobs || Sha256Of(s.blobs[d]) != d || |s.blobs[d]| != reference.sizeBytes then Err(Integrity)
      else Ok(s.blobs[d])
  }

  // ---------------------------------------------------------------- the invariant

  /** Every blob stands at the path of its own digest. */
  ghost predicate BlobsAddressed(blobs: map<Digest, Bytes>) {
    forall d :: d in blobs ==> Sha256Of(blobs[d]) == d
  }

  /** Every row has a blob of its digest and size. */
  ghost predicate RowsBacked(blobs: map<Digest, Bytes>, rows: seq<ArtifactRef>) {
    forall i :: 0 <= i < |rows| ==> PathVerifies(blobs, rows[i].digest, rows[i].sizeBytes)
  }

  ghost predicate RowsDistinct(rows: seq<ArtifactRef>) {
    forall i, j :: 0 <= i < j < |rows| ==> rows[i].digest != rows[j].digest
  }

  ghost predicate Valid(s: Store, quota: Option<nat>) {
    && BlobsAddressed(s.blobs)
    && RowsBacked(s.blobs, s.rows)
    && RowsDistinct(s.rows)
    && (quota.Some? ==> Recorded(s.rows) <= quota.value)
  }

  lemma {:induction false} RowMeaning(rows: seq<ArtifactRef>, d: Digest)
    ensures Row(rows, d).Some? ==> Row(rows, d).value.digest == d && Row(rows, d).value in rows
    ensures Row(rows, d).None? ==> forall i :: 0 <= i < |rows| ==> rows[i].digest != d
  {
    if rows != [] {
      RowMeaning(rows[..|rows| - 1], d);
    }
  }

  lemma {:induction false} RowPush(rows: seq<ArtifactRef>, r: ArtifactRef, d: Digest)
    ensures Row(rows + [r], d) == if r.digest == d then Some(r) else Row(rows, d)
    ensures Recorded(rows + [r]) == Recorded(rows) + r.sizeBytes
  {
    FrontOfPush(rows, r);
  }

  lemma WriteKeeps(s: Store, data: Bytes)
    requires BlobsAddressed(s.blobs) && RowsBacked(s.blobs, s.rows)
    ensures var blobs := s.blobs[Sha256Of(data) := data];
            BlobsAddressed(blobs) && RowsBacked(blobs, s.rows)
  {
    var blobs := s.blobs[Sha256Of(data) := data];
    forall i | 0 <= i < |s.rows| ensures PathVerifies(blobs, s.rows[i].digest, s.rows[i].sizeBytes) {
      assert PathVerifies(s.blobs, s.rows[i].digest, s.rows[i].sizeBytes);
    }
  }

  lemma {:induction false} InsertKeeps(blobs: map<Digest, Bytes>, rows: seq<ArtifactRef>, r: ArtifactRef)
    requires RowsBacked(blobs, rows) && RowsDistinct(rows)
    requires PathVerifies(blobs, r.digest, r.sizeBytes) && Row(rows, r.digest).None?
    ensures RowsBacked(blobs, rows + [r]) && RowsDistinct(rows + [r])
  {
    RowMeaning(rows, r.digest);
  }

  /** A put keeps the invariant, wherever it is cut short. */
  lemma PutKeepsValid(s: Store, quota: Option<nat>, data: Bytes, mediaType: string, encoding: Option<string>, now: int,
                      fault: Fault)
    requires Valid(s, quota)
    ensures Valid(PutBytes(s, quota, data, mediaType, encoding, now, fault).0, quota)
  {
    var reference := ArtifactRef(Sha256Of(data), |data|, mediaType, encoding, now);
    PutLeaves(s, quota, data, mediaType, encoding, now, fault);
    if PutBytes(s, quota, data, mediaType, encoding, now, fault).0 != s {
      LeftValid(s, quota, data, reference);
    }
  }

  /** A put leaves the store alone, or writes the blob, or writes the blob and a row. */
  ghost predicate PutEnds(s: Store, reference: ArtifactRef, data: Bytes, fault: Fault, t: Store,
                          r: Result<ArtifactRef, ArtifactError>)
  {
    var blobs := s.blobs[Sha256Of(data) := data];
    || (t == s && Row(s.rows, Sha256Of(data)).Some? && r == Ok(Row(s.rows, Sha256Of(data)).value))
    || (t == s && r.Err? && (r.error == Interrupted ==> fault != AfterBlob))
    || (t == Store(blobs, s.rows) && r == Err(Interrupted) && fault == AfterBlob)
    || (t == Store(blobs, s.rows + [reference]) && r == Ok(reference))
  }

  lemma PutLeaves(s: Store, quota: Option<nat>, data: Bytes, mediaType: string, encoding: Option<string>, now: int,
                  fault: Fault)
    ensures var (t, r) := PutBytes(s, quota, data, mediaType, encoding, now, fault);
            var reference := ArtifactRef(Sha256Of(data), |data|, mediaType, encoding, now);
            && PutEnds(s, reference, data, fault, t, r)
            && (t == s || (&& Row(s.rows, Sha256Of(data)).None?
                           && (quota.Some? ==> Recorded(s.rows) + |data| <= quota.value)))
  {
  }

  lemma LeftValid(s: Store, quota: Option<nat>, data: Bytes, reference: ArtifactRef)
    requires Valid(s, quota) && Row(s.rows, Sha256Of(data)).None?
    requires reference.digest == Sha256Of(data) && reference.sizeBytes == |data|
    requires quota.Some? ==> Recorded(s.rows) + |data| <= quota.value
    ensures Valid(Store(s.blobs[Sha256Of(data) := data], s.rows), quota)
    ensures Valid(Store(s.blobs[Sha256Of(data) := data], s.rows + [reference]), quota)
  {
    WriteKeeps(s, data);
    RowPush(s.rows, reference, reference.digest);
    InsertKeeps(s.blobs[Sha256Of(data) := data], s.rows, reference);
  }

  /** In a valid store a get finds exactly the content its digest addresses, and integrity never fails. */
  lemma {:induction false} GetMeaning(s: Store, quota: Option<nat>, d: Digest)
    requires Valid(s, quota)
    ensures Row(s.rows, d).None? ==> GetBytes(s, d) == Err(NotFound)
    ensures Row(s.rows, d).Some? ==> d.Sha256Of? && GetBytes(s, d) == Ok(d.content)
  {
    RowMeaning(s.rows, d);
    if Row(s.rows, d).Some? {
      var i :| 0 <= i < |s.rows| && s.rows[i] == Row(s.rows, d).value;
      assert PathVerifies(s.blobs, s.rows[i].digest, s.rows[i].sizeBytes);
    }
  }

  // ---------------------------------------------------------------- whole histories

  datatype Put = Put(data: Bytes, mediaType: string, encoding: Option<string>, now: int, fault: Fault)

  function Apply(s: Store, quota: Option<nat>, p: Put): Store {
    PutBytes(s, quota, p.data, p.mediaType, p.encoding, p.now, p.fault).0
  }

  function Run(s: Store, quota: Option<nat>, puts: seq<Put>): Store {
    if puts == [] then s else Apply(Run(s, quota, puts[..|puts| - 1]), quota, puts[|puts| - 1])
  }

  lemma {:induction false} RunKeepsValid(s: Store, quota: Option<nat>, puts: seq<Put>)
    requires Valid(s, quota)
    ensures Valid(Run(s, quota, puts), quota)
  {
    if puts != [] {
      RunKeepsValid(s, quota, puts[..|puts| - 1]);
      var p := puts[|puts| - 1];
      PutKeepsValid(Run(s, quota, puts[..|puts| - 1]), quota, p.data, p.mediaType, p.encoding, p.now, p.fault);
    }
  }

  /** A recorded row is never changed or removed. */
  lemma {:induction false} RowsStay(s: Store, quota: Option<nat>, puts: seq<Put>, d: Digest)
    requires Row(s.rows, d).Some?
    ensures Row(Run(s, quota, puts).rows, d) == Row(s.rows, d)
  {
    if puts != [] {
      var before, p := Run(s, quota, puts[..|puts| - 1]), puts[|puts| - 1];
      RowsStay(s, quota, puts[..|puts| - 1], d);
      RowPush(before.rows, ArtifactRef(Sha256Of(p.data), |p.data|, p.mediaType, p.encoding, p.now), d);
    }
  }

  /** After a successful put its content is recorded, under its own digest and size. */
  lemma PutRecords(s: Store, quota: Option<nat>, p: Put)
    requires Valid(s, quota)
    requires PutBytes(s, quota, p.data, p.mediaType, p.encoding, p.now, p.fault).1.Ok?
    ensures var (t, reference) := PutBytes(s, quota, p.data, p.mediaType, p.encoding, p.now, p.fault);
            && Row(t.rows, Sha256Of(p.data)) == Some(reference.value)
            && reference.value.digest == Sha256Of(p.data) && reference.value.sizeBytes == |p.data|
  {
    var d := Sha256Of(p.data);
    RowMeaning(s.rows, d);
    RowPush(s.rows, ArtifactRef(d, |p.data|, p.mediaType, p.encoding, p.now), d);
    if Row(s.rows, d).Some? {
      GetMeaning(s, quota, d);
    }
  }

  /** A recorded content can be read back, and putting it again gives the recorded reference. */
  lemma {:induction false} RecordedStays(s: Store, quota: Option<nat>, later: seq<Put>, data: Bytes, again: Put)
    requires Valid(s, quota) && Row(s.rows, Sha256Of(data)).Some?
    requires again.data == data && NotBlank(again.mediaType)
    ensures var t := Run(s, quota, later);
            && GetBytes(t, Sha256Of(data)) == Ok(data)
            && PutBytes(t, quota, again.data, again.mediaType, again.encoding, again.now, again.fault)
               == (t, Ok(Row(s.rows, Sha256Of(data)).value))
  {
    RunKeepsValid(s, quota, later);
    RowsStay(s, quota, later, Sha256Of(data));
    GetMeaning(Run(s, quota, later), quota, Sha256Of(data));
  }

  /**
   In every store reachable from the empty one, cut-short puts included: after a
   put of `data` succeeds, and whatever is put later, reading its digest gives `data`,
   and putting `data` again gives the first reference and changes nothing.
   */
  lemma PutIsForever(quota: Option<nat>, earlier: seq<Put>, p: Put, later: seq<Put>, again: Put)
    requires PutBytes(Run(EMPTY, quota, earlier), quota, p.data, p.mediaType, p.encoding, p.now, p.fault).1.Ok?
    requires again.data == p.data && NotBlank(again.mediaType)
    ensures var (s, reference) :=
      PutBytes(Run(EMPTY, quota, earlier), quota, p.data, p.mediaType, p.encoding, p.now, p.fault);
            var t := Run(s, quota, later);
            && reference.value.digest == Sha256Of(p.data) && reference.value.sizeBytes == |p.data|
            && GetBytes(t, reference.value.digest) == Ok(p.data)
            && PutBytes(t, quota, again.data, again.mediaType, again.encoding, again.now, again.fault)
              == (t, Ok(reference.value))
  {
    RunKeepsValid(EMPTY, quota, earlier);
    var before := Run(EMPTY, quota, earlier);
    PutRecords(before, quota, p);
    PutKeepsValid(before, quota, p.data, p.mediaType, p.encoding, p.now, p.fault);
    RecordedStays(Apply(before, quota, p), quota, later, p.data, again);
  }

  /**
   When a put is accepted: exactly when its content is recorded already or fits the
   quota, and it is not cut short. Bytes left behind by cut-short puts never count.
   */
  lemma PutAccepted(s: Store, quota: Option<nat>, p: Put)
    requires Valid(s, quota)
    ensures PutBytes(s, quota, p.data, p.mediaType, p.encoding, p.now, p.fault).1.Ok? <==>
              NotBlank(p.mediaType)
              && (Row(s.rows, Sha256Of(p.data)).Some?
                  || ((quota.None? || Recorded(s.rows) + |p.data| <= quota.value)
                      && p.fault != AfterBlob && (p.fault == BeforeBlob ==> Sha256Of(p.data) in s.blobs)))
    ensures !(PutBytes(s, quota, p.data, p.mediaType, p.encoding, p.now, p.fault).1 == Err(Integrity))
  {
    GetMeaning(s, quota, Sha256Of(p.data));
  }

  /** The content is recorded already. */
  ghost predicate Known(s: Store, data: Bytes) {
    exists reference :: reference in s.rows && reference.digest == Sha256Of(data)
  }

  ghost predicate OverQuota(s: Store, quota: Option<nat>, data: Bytes) {
    quota.Some? && Recorded(s.rows) + |data| > quota.value
  }

  /** The put of a new content is stopped before its row is written. */
  predicate Stopped(s: Store, p: Put) {
    p.fault == AfterBlob || (p.fault == BeforeBlob && Sha256Of(p.data) !in s.blobs)
  }

  /**
   Exactly how a put ends in a valid store: which reference it returns, which error it raises
   and in which order errors are found, and what it leaves behind in each case.
   */
  lemma PutExactly(s: Store, quota: Option<nat>, p: Put)
    requires Valid(s, quota)
    ensures var (t, r) := PutBytes(s, quota, p.data, p.mediaType, p.encoding, p.now, p.fault);
            var made := ArtifactRef(Sha256Of(p.data), |p.data|, p.mediaType, p.encoding, p.now);
            if !NotBlank(p.mediaType) then t == s && r == Err(InvalidMediaType)
            else if Known(s, p.data) then
              t == s && r.Ok? && r.value in s.rows && r.value.digest == Sha256Of(p.data)
            else if OverQuota(s, quota, p.data) then t == s && r == Err(QuotaExceeded)
            else if Stopped(s, p) then
              && r == Err(Interrupted) && t.rows == s.rows
              && t.blobs == if p.fault == AfterBlob then s.blobs[Sha256Of(p.data) := p.data] else s.blobs
            else
              t == Store(s.blobs[Sha256Of(p.data) := p.data], s.rows + [made]) && r == Ok(made)
  {
    RowMeaning(s.rows, Sha256Of(p.data));
    GetMeaning(s, quota, Sha256Of(p.data));
  }

  // ---------------------------------------------------------------- bytes on disk

  /** The bytes all blobs take. */
  ghost function DiskBytes(blobs: map<Digest, Bytes>): nat {
    if blobs == map[] then 0
    else
      var d :| d in blobs;
      DiskBytes(blobs - {d}) + |blobs[d]|
  }

  /** The sum does not depend on the order it is taken in. */
  lemma {:induction false} DiskBytesWithout(blobs: map<Digest, Bytes>, d: Digest)
    requires d in blobs
    ensures DiskBytes(blobs) == DiskBytes(blobs - {d}) + |blobs[d]|
    decreases |blobs|
  {
    var first :| d in blobs && first in blobs && DiskBytes(blobs) == DiskBytes(blobs - {first}) + |blobs[first]|;
    if first != d {
      var both := blobs - {first} - {d};
      assert both == blobs - {d} - {first};
      assert |blobs - {first}| < |blobs| by {
        assert (blobs - {first}).Keys < blobs.Keys;
        KeysShrink(blobs, first);
      }
      assert |blobs - {d}| < |blobs| by {
        KeysShrink(blobs, d);
      }
      DiskBytesWithout(blobs - {first}, d);
      DiskBytesWithout(blobs - {d}, first);
    }
  }

  lemma KeysShrink(blobs: map<Digest, Bytes>, d: Digest)
    requires d in blobs
    ensures |blobs - {d}| < |blobs|
  {
    assert blobs.Keys == (blobs - {d}).Keys + {d};
    assert |blobs.Keys| == |(blobs - {d}).Keys| + 1;
  }

  function DigestsOf(rows: seq<ArtifactRef>): set<Digest> {
    set r | r in rows :: r.digest
  }

  /** The blobs that no row records. */
  function Leftovers(s: Store): map<Digest, Bytes> {
    s.blobs - DigestsOf(s.rows)
  }

  lemma DigestsOfLast(rows: seq<ArtifactRef>)
    requires rows != []
    ensures DigestsOf(rows) == DigestsOf(rows[..|rows| - 1]) + {rows[|rows| - 1].digest}
  {
    SplitLast(rows);
  }

  lemma {:induction false} RecordedOnDisk(blobs: map<Digest, Bytes>, rows: seq<ArtifactRef>)
    requires RowsBacked(blobs, rows) && RowsDistinct(rows)
    ensures DiskBytes(blobs) == Recorded(rows) + DiskBytes(blobs - DigestsOf(rows))
  {
    if rows == [] {
      assert blobs - DigestsOf(rows) == blobs;
    } else {
      var front, last := rows[..|rows| - 1], rows[|rows| - 1];
      RecordedOnDisk(blobs, front);
      assert PathVerifies(blobs, last.digest, last.sizeBytes);
      var rest := blobs - DigestsOf(front);
      assert last.digest in rest;
      DiskBytesWithout(rest, last.digest);
      DigestsOfLast(rows);
      assert rest - {last.digest} == blobs - DigestsOf(rows);
    }
  }

  /** In every reachable store the disk holds the recorded bytes and those of the leftovers. */
  lemma {:induction false} DiskIsRecordedAndLeftover(quota: Option<nat>, puts: seq<Put>)
    ensures var s := Run(EMPTY, quota, puts);
            DiskBytes(s.blobs) == Recorded(s.rows) + DiskBytes(Leftovers(s))
  {
    RunKeepsValid(EMPTY, quota, puts);
    var s := Run(EMPTY, quota, puts);
    RecordedOnDisk(s.blobs, s.rows);
  }

  /** The `i`-th put returns a reference. */
  predicate Succeeds(quota: Option<nat>, puts: seq<Put>, i: nat)
    requires i < |puts|
  {
    var p := puts[i];
    PutBytes(Run(EMPTY, quota, puts[..i]), quota, p.data, p.mediaType, p.encoding, p.now, p.fault).1.Ok?
  }

  /** The `i`-th put is cut short after its blob is in place. */
  predicate CutAfterBlob(quota: Option<nat>, puts: seq<Put>, i: nat)
    requires i < |puts|
  {
    var p := puts[i];
    && p.fault == AfterBlob
    && PutBytes(Run(EMPTY, quota, puts[..i]), quota, p.data, p.mediaType, p.encoding, p.now, p.fault).1
      == Err(Interrupted)
  }

  ghost predicate EverSucceeds(quota: Option<nat>, puts: seq<Put>, d: Digest) {
    exists i :: 0 <= i < |puts| && Sha256Of(puts[i].data) == d && Succeeds(quota, puts, i)
  }

  ghost predicate EverCut(quota: Option<nat>, puts: seq<Put>, d: Digest) {
    exists i :: 0 <= i < |puts| && Sha256Of(puts[i].data) == d && CutAfterBlob(quota, puts, i)
  }

  /** One put more: which digests have ever succeeded or been cut. */
  lemma EverPush(quota: Option<nat>, before: seq<Put>, p: Put, d: Digest)
    ensures var puts := before + [p];
            && (EverSucceeds(quota, puts, d)
                <==> EverSucceeds(quota, before, d) || (Sha256Of(p.data) == d && Succeeds(quota, puts, |before|)))
            && (EverCut(quota, puts, d)
                <==> EverCut(quota, before, d) || (Sha256Of(p.data) == d && CutAfterBlob(quota, puts, |before|)))
  {
    var puts := before + [p];
    forall i | 0 <= i < |before|
      ensures puts[i] == before[i]
      ensures Succeeds(quota, puts, i) == Succeeds(quota, before, i)
      ensures CutAfterBlob(quota, puts, i) == CutAfterBlob(quota, before, i)
    {
      assert puts[..i] == before[..i];
    }
  }

  /** What one put adds: a row when it succeeds, a blob then or when it is cut short after it. */
  lemma {:induction false} OnePut(s: Store, quota: Option<nat>, p: Put, d: Digest)
    requires Valid(s, quota)
    ensures var (t, r) := PutBytes(s, quota, p.data, p.mediaType, p.encoding, p.now, p.fault);
            && (Row(t.rows, d).Some? <==> Row(s.rows, d).Some? || (Sha256Of(p.data) == d && r.Ok?))
            && (d in t.blobs <==>
                  d in s.blobs || (Sha256Of(p.data) == d && (r.Ok? || (p.fault == AfterBlob && r == Err(Interrupted)))))
  {
    var (t, r) := PutBytes(s, quota, p.data, p.mediaType, p.encoding, p.now, p.fault);
    var reference := ArtifactRef(Sha256Of(p.data), |p.data|, p.mediaType, p.encoding, p.now);
    PutLeaves(s, quota, p.data, p.mediaType, p.encoding, p.now, p.fault);
    RowBacked(s, quota, Sha256Of(p.data));
    PutAdds(s, reference, p.data, p.fault, t, r, d);
  }

  lemma {:induction false} RowBacked(s: Store, quota: Option<nat>, d: Digest)
    requires Valid(s, quota)
    ensures Row(s.rows, d).Some? ==> d in s.blobs
  {
    RowMeaning(s.rows, d);
    if Row(s.rows, d).Some? {
      var i :| 0 <= i < |s.rows| && s.rows[i] == Row(s.rows, d).value;
      assert PathVerifies(s.blobs, s.rows[i].digest, s.rows[i].sizeBytes);
    }
  }

  lemma {:induction false} PutAdds(s: Store, reference: ArtifactRef, data: Bytes, fault: Fault, t: Store,
                                   r: Result<ArtifactRef, ArtifactError>, d: Digest)
    requires PutEnds(s, reference, data, fault, t, r) && reference.digest == Sha256Of(data)
    requires Row(s.rows, Sha256Of(data)).Some? ==> Sha256Of(data) in s.blobs
    ensures Row(t.rows, d).Some? <==> Row(s.rows, d).Some? || (Sha256Of(data) == d && r.Ok?)
    ensures d in t.blobs <==>
              d in s.blobs || (Sha256Of(data) == d && (r.Ok? || (fault == AfterBlob && r == Err(Interrupted))))
  {
    RowPush(s.rows, reference, d);
  }

  /** What a history leaves: a row for every content ever stored, a blob for those and for every content ever cut. */
  lemma {:induction false} HistoryOf(quota: Option<nat>, puts: seq<Put>, d: Digest)
    ensures var s := Run(EMPTY, quota, puts);
            && (Row(s.rows, d).Some? <==> EverSucceeds(quota, puts, d))
            && (d in s.blobs <==> EverSucceeds(quota, puts, d) || EverCut(quota, puts, d))
  {
    if puts != [] {
      var before, p := puts[..|puts| - 1], puts[|puts| - 1];
      HistoryOf(quota, before, d);
      assert puts == before + [p] && puts[..|before|] == before;
      EverPush(quota, before, p, d);
      RunKeepsValid(EMPTY, quota, before);
      OnePut(Run(EMPTY, quota, before), quota, p, d);
    }
  }

  /** What is left over: the contents that were cut short after their blob and never put successfully. */
  lemma {:induction false} LeftoversExactly(quota: Option<nat>, puts: seq<Put>)
    ensures forall d :: d in Leftovers(Run(EMPTY, quota, puts)) <==>
              EverCut(quota, puts, d) && !EverSucceeds(quota, puts, d)
  {
    var s := Run(EMPTY, quota, puts);
    RunKeepsValid(EMPTY, quota, puts);
    forall d ensures d in Leftovers(s) <==> EverCut(quota, puts, d) && !EverSucceeds(quota, puts, d) {
      HistoryOf(quota, puts, d);
      RowMeaning(s.rows, d);
    }
  }

  /** The contents that were cut short after their blob and never put successfully, under their digests. */
  ghost predicate Lost(quota: Option<nat>, puts: seq<Put>, lost: map<Digest, Bytes>) {
    && (forall d :: d in lost <==> EverCut(quota, puts, d) && !EverSucceeds(quota, puts, d))
    && BlobsAddressed(lost)
  }

  lemma LeftoversAddressed(s: Store)
    requires BlobsAddressed(s.blobs)
    ensures BlobsAddressed(Leftovers(s))
  {
  }

  lemma SameAddressed(a: map<Digest, Bytes>, b: map<Digest, Bytes>)
    requires BlobsAddressed(a) && BlobsAddressed(b) && a.Keys == b.Keys
    ensures a == b
  {
    forall d | d in a ensures a[d] == b[d] {
      assert d in b && Sha256Of(a[d]) == Sha256Of(b[d]);
    }
  }

  lemma {:induction false} LostIsLeftOver(quota: Option<nat>, puts: seq<Put>, lost: map<Digest, Bytes>)
    requires Lost(quota, puts, lost)
    ensures lost == Leftovers(Run(EMPTY, quota, puts))
  {
    var left := Leftovers(Run(EMPTY, quota, puts));
    RunKeepsValid(EMPTY, quota, puts);
    LeftoversExactly(quota, puts);
    LeftoversAddressed(Run(EMPTY, quota, puts));
    assert lost.Keys == left.Keys by {
      assert forall d :: d in lost <==> d in left;
    }
    SameAddressed(lost, left);
  }

  /** The disk stays within the quota exactly when what was lost fits into what is not recorded yet. */
  lemma {:induction false} DiskWithinQuotaExactly(quota: nat, puts: seq<Put>, lost: map<Digest, Bytes>)
    requires Lost(Some(quota), puts, lost)
    ensures var s := Run(EMPTY, Some(quota), puts);
            Recorded(s.rows) <= quota
            && (DiskBytes(s.blobs) <= quota <==> DiskBytes(lost) <= quota - Recorded(s.rows))
  {
    RunKeepsValid(EMPTY, Some(quota), puts);
    DiskIsRecordedAndLeftover(Some(quota), puts);
    LostIsLeftOver(Some(quota), puts, lost);
  }

  /**
   The disk holds recorded bytes only, exactly when every non-empty content that was
   ever cut short after its blob was also put successfully.
   */
  lemma {:induction false} NothingLeftOverExactly(quota: Option<nat>, puts: seq<Put>)
    ensures var s := Run(EMPTY, quota, puts);
            DiskBytes(s.blobs) == Recorded(s.rows)
            <==> forall d :: EverCut(quota, puts, d) && d.Sha256Of? && d.content != [] ==> EverSucceeds(quota, puts, d)
  {
    var s := Run(EMPTY, quota, puts);
    DiskIsRecordedAndLeftover(quota, puts);
    NoBytesExactly(Leftovers(s));
    RunKeepsValid(EMPTY, quota, puts);
    LeftoversExactly(quota, puts);
    assert forall d :: d in s.blobs ==> d == Sha256Of(s.blobs[d]);
  }

  lemma {:induction false} NoBytesExactly(blobs: map<Digest, Bytes>)
    ensures DiskBytes(blobs) == 0 <==> forall d :: d in blobs ==> blobs[d] == []
    decreases |blobs|
  {
    if blobs != map[] {
      var d :| d in blobs;
      DiskBytesWithout(blobs, d);
      KeysShrink(blobs, d);
      NoBytesExactly(blobs - {d});
      assert forall x :: x in blobs && x != d ==> x in blobs - {d} && (blobs - {d})[x] == blobs[x];
    }
  }

  /** The quota bounds recorded bytes only: two cut-short puts leave two bytes under a quota of one. */
  lemma CutShortPutsEscapeQuota()
    ensures var s := Run(EMPTY, Some(1), [Put([0], "x", None, 0, AfterBlob), Put([1], "x", None, 0, AfterBlob)]);
            Recorded(s.rows) == 0 && DiskBytes(s.blobs) == 2
  {
    var first, second := Put([0], "x", None, 0, AfterBlob), Put([1], "x", None, 0, AfterBlob);
    var one, two := Sha256Of([0]), Sha256Of([1]);
    assert NotBlank("x") by { assert "x"[0] !in " \t\n\r"; }
    assert [first, second][..1] == [first] && [first][..0] == [];
    assert Run(EMPTY, Some(1), [first]) == Apply(EMPTY, Some(1), first);
    assert Apply(EMPTY, Some(1), first) == Store(map[one := [0]], []);
    assert Run(EMPTY, Some(1), [first, second]) == Apply(Run(EMPTY, Some(1), [first]), Some(1), second);
    var blobs := map[one := [0], two := [1]];
    assert Run(EMPTY, Some(1), [first, second]) == Store(blobs, []);
    DiskBytesWithout(blobs, one);
    assert blobs - {one} == map[two := [1]];
    DiskBytesWithout(map[two := [1]], two);
    assert map[two := [1]] - {two} == map[];
  }

  // ---------------------------------------------------------------- the store itself

  class ArtifactStore {
    const maxTotalBytes: Option<nat>
    var blobs: map<Digest, Bytes>
    var rows: seq<ArtifactRef>

    constructor (maxTotalBytes: Option<nat>)
      ensures this.maxTotalBytes == maxTotalBytes && State() == EMPTY
    {
      this.maxTotalBytes := maxTotalBytes;
      blobs, rows := map[], [];
    }

    ghost function State(): Store
      reads this
    {
      Store(blobs, rows)
    }

    /** `_write_once`: a blob already in place is only verified. */
    method WriteOnce(d: Digest, data: Bytes, fault: Fault) returns (r: Result<(), ArtifactError>)
      requires d == Sha256Of(data)
      modifies this`blobs
      ensures r.Ok? ==> blobs == old(blobs)[d := data]
      ensures r.Err? ==> blobs == old(blobs)
      ensures r == if d in old(blobs) && !PathVerifies(old(blobs), d, |data|) then Err(Integrity)
                   else if d !in old(blobs) && fault == BeforeBlob then Err(Interrupted)
                   else Ok(())
    {
      if d in blobs {
        if !PathVerifies(blobs, d, |data|) {
          return Err(Integrity);
        }
        assert blobs == blobs[d := data];
        return Ok(());
      }
      if fault == BeforeBlob {
        return Err(Interrupted);
      }
      blobs := blobs[d := data];
      return Ok(());
    }

    method Put(data: Bytes, mediaType: string, encoding: Option<string>, now: int, fault: Fault)
      returns (r: Result<ArtifactRef, ArtifactError>)
      modifies this
      ensures (State(), r) == PutBytes(old(State()), maxTotalBytes, data, mediaType, encoding, now, fault)
    {
      if !NotBlank(mediaType) {
        return Err(InvalidMediaType);
      }
      var d := Sha256Of(data);
      var row := Row(rows, d);
      if row.Some? {
        if !PathVerifies(blobs, d, row.value.sizeBytes) {
          return Err(Integrity);
        }
        return Ok(row.value);
      }
      if maxTotalBytes.Some? && Recorded(rows) + |data| > maxTotalBytes.value {
        return Err(QuotaExceeded);
      }
      var written := WriteOnce(d, data, fault);
      if written.Err? {
        return Err(written.error);
      }
      if fault == AfterBlob {
        return Err(Interrupted);
      }
      var reference := ArtifactRef(d, |data|, mediaType, encoding, now);
      rows := rows + [reference];
      return Ok(reference);
    }

    method Get(d: Digest) returns (r: Result<Bytes, ArtifactError>)
      ensures r == GetBytes(State(), d)
      ensures Valid(State(), maxTotalBytes) ==>
                (r.Ok? <==> Row(rows, d).Some?) && (r.Ok? ==> Sha256Of(r.value) == d) && r != Err(Integrity)
    {
      if Valid(State(), maxTotalBytes) {
        GetMeaning(State(), maxTotalBytes, d);
      }
      var row := Row(rows, d);
      if row.None? {
        return Err(NotFound);
      }
      if d !in blobs || Sha256Of(blobs[d]) != d || |blobs[d]| != row.value.sizeBytes {
        return Err(Integrity);
      }
      return Ok(blobs[d]);
    }
  }
}
