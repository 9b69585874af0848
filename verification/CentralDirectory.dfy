/** The bounded central-directory walk that runs before a ZIP reader may allocate anything.
    Record layouts follow sections 4.3.12 and 4.3.16 of PKWARE's APPNOTE.TXT. */
module CentralDirectory {
  import opened Base

  const MAX_ARCHIVE_BYTES := 128 * 1024 * 1024
  const MAX_ENTRIES := 128
  const MAX_DIRECTORY_BYTES := 1024 * 1024

  // The end record is 22 bytes plus a comment of at most 65535 bytes.
  const END_SEARCH_WINDOW := 65_557

  const END_SIGNATURE: Bytes := [0x50, 0x4b, 0x05, 0x06]
  const HEADER_SIGNATURE: Bytes := [0x50, 0x4b, 0x01, 0x02]

  // The end signature read as a little-endian 32-bit number.
  const SIGNATURE_AS_OFFSET := 0x06054b50

  datatype DirectoryError =
    | ArchiveTooLarge
    | EndRecordMissing
    | UnsupportedMetadata
    | TooManyEntries
    | DirectoryTooLarge
    | InvalidEntry
    | EntryPastBoundary
    | CountMismatch

  datatype EndRecord = EndRecord(
    disk: nat,
    directoryDisk: nat,
    diskCount: nat,
    count: nat,
    size: nat,
    offset: nat,
    commentSize: nat)

  // ---------- Little-endian fields ----------

  function U16(raw: Bytes, at: nat): nat
    requires at + 2 <= |raw|
  {
    raw[at] as int + 0x100 * raw[at + 1] as int
  }

  function U32(raw: Bytes, at: nat): nat
    requires at + 4 <= |raw|
  {
    U16(raw, at) + 0x1_0000 * U16(raw, at + 2)
  }

  function Put16(n: nat): (r: Bytes)
    requires n < 0x1_0000
    ensures |r| == 2 && U16(r, 0) == n
  {
    [n % 0x100, n / 0x100]
  }

  function Put32(n: nat): (r: Bytes)
    requires n < 0x1_0000_0000
    ensures |r| == 4 && U32(r, 0) == n
  {
    Put16(n % 0x1_0000) + Put16(n / 0x1_0000)
  }

  // ---------- Locating and reading the end record ----------

  predicate SignatureAt(raw: Bytes, at: nat) {
    at + 4 <= |raw| && raw[at..at + 4] == END_SIGNATURE
  }

  /** Highest occurrence of the end signature at `from` or above but below `top`, or -1. */
  function LastSignature(raw: Bytes, from: nat, top: nat): (r: int)
    ensures r == -1 || (from <= r < top && SignatureAt(raw, r))
    ensures forall p: nat :: from <= p < top && r < p ==> !SignatureAt(raw, p)
    decreases top
  {
    if top <= from then -1
    else if SignatureAt(raw, top - 1) then top - 1
    else LastSignature(raw, from, top - 1)
  }

  function SearchStart(raw: Bytes): nat {
    if |raw| <= END_SEARCH_WINDOW then 0 else |raw| - END_SEARCH_WINDOW
  }

  function ReadEndRecord(raw: Bytes, end: nat): EndRecord
    requires end + 22 <= |raw|
  {
    EndRecord(
      U16(raw, end + 4), U16(raw, end + 6), U16(raw, end + 8), U16(raw, end + 10),
      U32(raw, end + 12), U32(raw, end + 16), U16(raw, end + 20))
  }

  predicate SupportedMetadata(record: EndRecord, end: nat, length: nat) {
    && record.disk == 0
    && record.directoryDisk == 0
    && record.diskCount == record.count
    && record.count != 65_535
    && record.size != 0xFFFF_FFFF
    && record.offset != 0xFFFF_FFFF
    && end + 22 + record.commentSize == length
    && record.offset + record.size == end
  }

  // ---------- The walk ----------

  function EntryLength(raw: Bytes, position: nat): nat
    requires position + 46 <= |raw|
  {
    46 + U16(raw, position + 28) + U16(raw, position + 30) + U16(raw, position + 32)
  }

  /** Counts the headers from `position` to `end`, `observed` of them having been seen before. */
  function WalkFrom(raw: Bytes, position: nat, end: nat, observed: nat): Result<nat, DirectoryError>
    requires position <= end <= |raw|
    decreases end - position
  {
    if position == end then Ok(observed)
    else if observed >= MAX_ENTRIES then Err(TooManyEntries)
    else if position + 46 > end || raw[position..position + 4] != HEADER_SIGNATURE then Err(InvalidEntry)
    else
      var next := position + EntryLength(raw, position);
      if next > end then Err(EntryPastBoundary) else WalkFrom(raw, next, end, observed + 1)
  }

  /** What the check answers for any bytes: the number of directory entries, or the first failure. */
  function CheckDirectory(raw: Bytes): Result<nat, DirectoryError> {
    var end := LastSignature(raw, SearchStart(raw), |raw|);
    if |raw| > MAX_ARCHIVE_BYTES then Err(ArchiveTooLarge)
    else if end < 0 || |raw| < end + 22 then Err(EndRecordMissing)
    else
      var record := ReadEndRecord(raw, end);
      if !SupportedMetadata(record, end, |raw|) then Err(UnsupportedMetadata)
      else if record.count > MAX_ENTRIES then Err(TooManyEntries)
      else if record.size > MAX_DIRECTORY_BYTES then Err(DirectoryTooLarge)
      else
        match WalkFrom(raw, record.offset, end, 0)
        case Err(error) => Err(error)
        case Ok(observed) => if observed != record.count then Err(CountMismatch) else Ok(observed)
  }

  /** The loop over the directory: every slice is in bounds, and `iterations` header steps are taken, never
      more than 128, whatever the bytes are. */
  method WalkDirectory(raw: Bytes, offset: nat, end: nat)
    returns (r: Result<nat, DirectoryError>, ghost iterations: nat)
    requires offset <= end <= |raw|
    ensures r == WalkFrom(raw, offset, end, 0)
    ensures iterations <= MAX_ENTRIES
    ensures r.Ok? ==> iterations == r.value
  {
    var position, observed := offset, 0;
    iterations := 0;
    while position < end
      invariant offset <= position <= end
      invariant iterations == observed <= MAX_ENTRIES
      invariant WalkFrom(raw, offset, end, 0) == WalkFrom(raw, position, end, observed)
      decreases end - position
    {
      if observed >= MAX_ENTRIES {
        return Err(TooManyEntries), iterations;
      }
      if position + 46 > end || raw[position..position + 4] != HEADER_SIGNATURE {
        return Err(InvalidEntry), iterations;
      }
      var next := position + EntryLength(raw, position);
      if next > end {
        return Err(EntryPastBoundary), iterations;
      }
      position, observed, iterations := next, observed + 1, iterations + 1;
    }
    return Ok(observed), iterations;
  }

  /** The program's checks, in its order. */
  method RequireBoundedCentralDirectory(raw: Bytes)
    returns (r: Result<nat, DirectoryError>, ghost iterations: nat)
    ensures r == CheckDirectory(raw)
    ensures iterations <= MAX_ENTRIES
    ensures r.Ok? ==> iterations == r.value
  {
    iterations := 0;
    if |raw| > MAX_ARCHIVE_BYTES {
      return Err(ArchiveTooLarge), iterations;
    }
    var end := LastSignature(raw, SearchStart(raw), |raw|);
    if end < 0 || |raw| < end + 22 {
      return Err(EndRecordMissing), iterations;
    }
    var record := ReadEndRecord(raw, end);
    if !SupportedMetadata(record, end, |raw|) {
      return Err(UnsupportedMetadata), iterations;
    }
    if record.count > MAX_ENTRIES {
      return Err(TooManyEntries), iterations;
    }
    if record.size > MAX_DIRECTORY_BYTES {
      return Err(DirectoryTooLarge), iterations;
    }
    r, iterations := WalkDirectory(raw, record.offset, end);
    if r.Ok? && r.value != record.count {
      r := Err(CountMismatch);
    }
  }

  // ---------- Meaning: the directory bytes tile into well-signed headers ----------

  /** One central-directory file header: signature, fixed part, and exactly its declared tail. */
  ghost predicate IsHeader(h: Bytes) {
    |h| >= 46 && h[..4] == HEADER_SIGNATURE && |h| == EntryLength(h, 0)
  }

  ghost predicate AllHeaders(headers: seq<Bytes>) {
    forall i :: 0 <= i < |headers| ==> IsHeader(headers[i])
  }

  ghost function Flatten(headers: seq<Bytes>): Bytes {
    if headers == [] then [] else headers[0] + Flatten(headers[1..])
  }

  /** Reading a header's length from inside the archive or from the header alone is the same. */
  lemma EntryLengthOfSlice(raw: Bytes, position: nat, h: Bytes)
    requires |h| >= 46 && position + |h| <= |raw| && raw[position..position + |h|] == h
    ensures EntryLength(raw, position) == EntryLength(h, 0)
    ensures raw[position..position + 4] == h[..4]
  {
    assert h[28] == raw[position + 28] && h[29] == raw[position + 29];
    assert h[30] == raw[position + 30] && h[31] == raw[position + 31];
    assert h[32] == raw[position + 32] && h[33] == raw[position + 33];
    assert raw[position..position + 4] == raw[position..position + |h|][..4];
  }

  /** An accepted walk has cut the bytes into headers, one per step. */
  lemma {:induction false} WalkTiles(raw: Bytes, position: nat, end: nat, observed: nat) returns (headers: seq<Bytes>)
    requires position <= end <= |raw|
    requires observed <= MAX_ENTRIES
    requires WalkFrom(raw, position, end, observed).Ok?
    ensures AllHeaders(headers) && Flatten(headers) == raw[position..end]
    ensures WalkFrom(raw, position, end, observed).value == observed + |headers| <= MAX_ENTRIES
    decreases end - position
  {
    if position == end {
      headers := [];
    } else {
      var next := position + EntryLength(raw, position);
      var h := raw[position..next];
      EntryLengthOfSlice(raw, position, h);
      var rest := WalkTiles(raw, next, end, observed + 1);
      headers := [h] + rest;
      assert raw[position..end] == h + raw[next..end];
    }
  }

  /** Peeling the first header off a run of headers inside the archive. */
  lemma FirstHeader(raw: Bytes, position: nat, end: nat, headers: seq<Bytes>)
    requires position <= end <= |raw|
    requires headers != [] && AllHeaders(headers) && Flatten(headers) == raw[position..end]
    ensures AllHeaders(headers[1..])
    ensures 46 <= |headers[0]| == EntryLength(raw, position) <= end - position
    ensures raw[position..position + 4] == HEADER_SIGNATURE
    ensures Flatten(headers[1..]) == raw[position + |headers[0]|..end]
  {
    var h := headers[0];
    assert IsHeader(h);
    var whole := raw[position..end];
    assert whole == h + Flatten(headers[1..]);
    assert raw[position..position + |h|] == whole[..|h|] == h;
    assert raw[position + |h|..end] == whole[|h|..];
    EntryLengthOfSlice(raw, position, h);
  }

  /** Bytes that are a run of headers, within the entry limit, are walked to the end. */
  lemma {:induction false} TilesWalk(raw: Bytes, position: nat, end: nat, observed: nat, headers: seq<Bytes>)
    requires position <= end <= |raw|
    requires AllHeaders(headers) && Flatten(headers) == raw[position..end]
    requires observed + |headers| <= MAX_ENTRIES
    ensures WalkFrom(raw, position, end, observed) == Ok(observed + |headers|)
    decreases |headers|
  {
    if headers != [] {
      var h, rest := headers[0], headers[1..];
      var next := position + |h|;
      FirstHeader(raw, position, end, headers);
      TilesWalk(raw, next, end, observed + 1, rest);
    }
  }

  /** What acceptance means, without the walk: the last end signature starts a complete, single-disk,
      comment-terminated record, and the bytes from its offset up to it are exactly `count` headers. */
  ghost predicate WellFormed(raw: Bytes, end: nat, headers: seq<Bytes>) {
    && |raw| <= MAX_ARCHIVE_BYTES
    && SearchStart(raw) <= end && end + 22 <= |raw| && SignatureAt(raw, end)
    && (forall p: nat :: end < p < |raw| ==> !SignatureAt(raw, p))
    && var record := ReadEndRecord(raw, end);
      && SupportedMetadata(record, end, |raw|)
      && record.size <= MAX_DIRECTORY_BYTES
      && record.count == |headers| <= MAX_ENTRIES
      && AllHeaders(headers)
      && Flatten(headers) == raw[record.offset..end]
  }

  /** The check is exact: it accepts just the well-formed archives, with their header count. */
  lemma CheckIsExact(raw: Bytes)
    ensures CheckDirectory(raw).Ok? <==> exists end: nat, headers :: WellFormed(raw, end, headers)
    ensures forall end: nat, headers :: WellFormed(raw, end, headers) ==> CheckDirectory(raw) == Ok(|headers|)
  {
    var last := LastSignature(raw, SearchStart(raw), |raw|);
    if CheckDirectory(raw).Ok? {
      var record := ReadEndRecord(raw, last);
      var headers := WalkTiles(raw, record.offset, last, 0);
      assert WellFormed(raw, last, headers);
    }
    forall end: nat, headers | WellFormed(raw, end, headers)
      ensures CheckDirectory(raw) == Ok(|headers|)
    {
      assert last == end;
      TilesWalk(raw, ReadEndRecord(raw, end).offset, end, 0, headers);
    }
  }

  /** The bytes determine the headers: a directory cannot be read in two ways. */
  lemma {:induction false} TilingIsUnique(a: seq<Bytes>, b: seq<Bytes>)
    requires AllHeaders(a) && AllHeaders(b) && Flatten(a) == Flatten(b)
    ensures a == b
  {
    var whole := Flatten(a);
    assert whole[0..|whole|] == whole;
    if a != [] { FirstHeader(whole, 0, |whole|, a); }
    if b != [] { FirstHeader(whole, 0, |whole|, b); }
    if a != [] && b != [] {
      assert whole == a[0] + Flatten(a[1..]) == b[0] + Flatten(b[1..]);
      TilingIsUnique(a[1..], b[1..]);
    }
  }

  // ---------- Round trip with a writer ----------

  ghost function EncodeEnd(count: nat, size: nat, offset: nat, comment: Bytes): Bytes
    requires count < 0x1_0000 && size < 0x1_0000_0000 && offset < 0x1_0000_0000 && |comment| < 0x1_0000
  {
    END_SIGNATURE + Put16(0) + Put16(0) + Put16(count) + Put16(count) + Put32(size) + Put32(offset)
    + Put16(|comment|) + comment
  }

  ghost predicate Encodable(body: Bytes, headers: seq<Bytes>, comment: Bytes) {
    && |headers| <= MAX_ENTRIES && AllHeaders(headers)
    && |Flatten(headers)| <= MAX_DIRECTORY_BYTES
    && |comment| < 0x1_0000
    && |body| + |Flatten(headers)| + 22 + |comment| <= MAX_ARCHIVE_BYTES
  }

  /** An archive as a ZIP writer lays it out: member data, central directory, end record. */
  ghost function Serialize(body: Bytes, headers: seq<Bytes>, comment: Bytes): Bytes
    requires Encodable(body, headers, comment)
  {
    body + Flatten(headers) + EncodeEnd(|headers|, |Flatten(headers)|, |body|, comment)
  }

  /** The bytes of a field, at its place in some larger content. */
  ghost predicate FieldAt(e: Bytes, at: nat, field: Bytes) {
    at + |field| <= |e| && forall i :: 0 <= i < |field| ==> e[at + i] == field[i]
  }

  lemma EncodedFields(count: nat, size: nat, offset: nat, comment: Bytes)
    requires count < 0x1_0000 && size < 0x1_0000_0000 && offset < 0x1_0000_0000 && |comment| < 0x1_0000
    ensures var e := EncodeEnd(count, size, offset, comment);
      && |e| == 22 + |comment| && FieldAt(e, 0, END_SIGNATURE)
      && FieldAt(e, 4, Put16(0)) && FieldAt(e, 6, Put16(0)) && FieldAt(e, 8, Put16(count))
      && FieldAt(e, 10, Put16(count)) && FieldAt(e, 12, Put32(size)) && FieldAt(e, 16, Put32(offset))
      && FieldAt(e, 20, Put16(|comment|))
  {
  }

  lemma FieldBehind(before: Bytes, e: Bytes, at: nat, field: Bytes)
    requires FieldAt(e, at, field)
    ensures FieldAt(before + e, |before| + at, field)
  {
    forall i | 0 <= i < |field|
      ensures (before + e)[|before| + at + i] == field[i]
    {
      assert (before + e)[|before| + (at + i)] == e[at + i];
    }
  }

  lemma Read16(raw: Bytes, at: nat, n: nat)
    requires n < 0x1_0000 && FieldAt(raw, at, Put16(n))
    ensures U16(raw, at) == n
  {
    assert raw[at + 0] == Put16(n)[0] && raw[at + 1] == Put16(n)[1];
  }

  lemma Read32(raw: Bytes, at: nat, n: nat)
    requires n < 0x1_0000_0000 && FieldAt(raw, at, Put32(n))
    ensures U32(raw, at) == n
  {
    var f := Put32(n);
    assert raw[at + 0] == f[0] && raw[at + 1] == f[1] && raw[at + 2] == f[2] && raw[at + 3] == f[3];
  }

  lemma EndRecordRoundTrip(before: Bytes, count: nat, size: nat, offset: nat, comment: Bytes)
    requires count < 0x1_0000 && size < 0x1_0000_0000 && offset < 0x1_0000_0000 && |comment| < 0x1_0000
    ensures |EncodeEnd(count, size, offset, comment)| == 22 + |comment|
    ensures SignatureAt(before + EncodeEnd(count, size, offset, comment), |before|)
    ensures ReadEndRecord(before + EncodeEnd(count, size, offset, comment), |before|)
         == EndRecord(0, 0, count, count, size, offset, |comment|)
  {
    var e, b := EncodeEnd(count, size, offset, comment), |before|;
    var raw := before + e;
    EncodedFields(count, size, offset, comment);
    FieldBehind(before, e, 0, END_SIGNATURE);
    assert raw[b..b + 4] == END_SIGNATURE;
    FieldBehind(before, e, 4, Put16(0));
    Read16(raw, b + 4, 0);
    FieldBehind(before, e, 6, Put16(0));
    Read16(raw, b + 6, 0);
    FieldBehind(before, e, 8, Put16(count));
    Read16(raw, b + 8, count);
    FieldBehind(before, e, 10, Put16(count));
    Read16(raw, b + 10, count);
    FieldBehind(before, e, 12, Put32(size));
    Read32(raw, b + 12, size);
    FieldBehind(before, e, 16, Put32(offset));
    Read32(raw, b + 16, offset);
    FieldBehind(before, e, 20, Put16(|comment|));
    Read16(raw, b + 20, |comment|);
  }

  /** Everything a writer can lay out is accepted, with the writer's headers, as long as its end
      signature is the last one in the file. */
  lemma SerializedIsAccepted(body: Bytes, headers: seq<Bytes>, comment: Bytes)
    requires Encodable(body, headers, comment)
    requires var raw := Serialize(body, headers, comment);
      forall p: nat :: |body| + |Flatten(headers)| < p < |raw| ==> !SignatureAt(raw, p)
    ensures CheckDirectory(Serialize(body, headers, comment)) == Ok(|headers|)
  {
    var raw := Serialize(body, headers, comment);
    var end := |body| + |Flatten(headers)|;
    EndRecordRoundTrip(body + Flatten(headers), |headers|, |Flatten(headers)|, |body|, comment);
    assert raw[|body|..end] == Flatten(headers);
    assert WellFormed(raw, end, headers);
    CheckIsExact(raw);
  }

  /** What the bounds on count, directory size and comment leave of a 22-byte end record. */
  ghost predicate BoundedRecordBytes(e: Bytes) {
    && |e| == 22 && e[..4] == END_SIGNATURE
    && e[4] == 0 && e[5] == 0 && e[6] == 0 && e[7] == 0
    && e[9] == 0 && e[11] == 0 && e[15] == 0 && e[20] == 0 && e[21] == 0
  }

  lemma EndRecordBytes(count: nat, size: nat, offset: nat)
    requires count <= MAX_ENTRIES && size <= MAX_DIRECTORY_BYTES && offset < 0x1_0000_0000
    ensures BoundedRecordBytes(EncodeEnd(count, size, offset, []))
    ensures EncodeEnd(count, size, offset, [])[16..20] == Put32(offset)
  {
    var e := EncodeEnd(count, size, offset, []);
    EncodedFields(count, size, offset, []);
    assert e[0 + 0] == END_SIGNATURE[0] && e[0 + 1] == END_SIGNATURE[1];
    assert e[0 + 2] == END_SIGNATURE[2] && e[0 + 3] == END_SIGNATURE[3] && e[..4] == END_SIGNATURE;
    assert e[4 + 0] == Put16(0)[0] && e[4 + 1] == Put16(0)[1] && e[6 + 0] == Put16(0)[0] && e[6 + 1] == Put16(0)[1];
    assert e[8 + 1] == Put16(count)[1] == 0 && e[10 + 1] == Put16(count)[1];
    assert e[12 + 3] == Put32(size)[3] == 0;
    assert e[20 + 0] == Put16(0)[0] && e[20 + 1] == Put16(0)[1];
    assert e[16..20] == Put32(offset);
  }

  lemma OnlyTheOffsetField(e: Bytes, k: nat)
    requires BoundedRecordBytes(e) && 1 <= k <= 18
    requires e[k] == 0x50 && e[k + 1] == 0x4b && e[k + 2] == 0x05 && e[k + 3] == 0x06
    ensures k == 16
  {
    assert e[1] == e[..4][1] && e[2] == e[..4][2] && e[3] == e[..4][3];
  }

  /** Inside a comment-free end record the signature can recur at one place only, the offset field. */
  lemma RecurrenceIsTheOffset(before: Bytes, e: Bytes, offset: nat, p: nat)
    requires BoundedRecordBytes(e) && offset < 0x1_0000_0000 && e[16..20] == Put32(offset)
    requires |before| < p < |before + e| && SignatureAt(before + e, p)
    ensures p == |before| + 16 && offset == SIGNATURE_AS_OFFSET
  {
    var k := p - |before|;
    var found := (before + e)[p..p + 4];
    assert found == e[k..k + 4];
    assert found[0] == e[k] && found[1] == e[k + 1] && found[2] == e[k + 2] && found[3] == e[k + 3];
    OnlyTheOffsetField(e, k);
    assert U32(Put32(offset), 0) == U32(END_SIGNATURE, 0);
  }

  /** A comment-free archive is accepted unless its directory starts at byte 0x06054b50: then the offset
      field itself reads as a later end record. Only other writers' archives can be that large; the
      builder's own limits keep its directories well below that offset. */
  lemma CommentFreeAcceptance(body: Bytes, headers: seq<Bytes>)
    requires Encodable(body, headers, [])
    ensures CheckDirectory(Serialize(body, headers, [])).Ok? <==> |body| != SIGNATURE_AS_OFFSET
    ensures |body| != SIGNATURE_AS_OFFSET ==> CheckDirectory(Serialize(body, headers, [])) == Ok(|headers|)
    ensures |body| == SIGNATURE_AS_OFFSET ==> CheckDirectory(Serialize(body, headers, [])) == Err(EndRecordMissing)
  {
    var raw := Serialize(body, headers, []);
    var before := body + Flatten(headers);
    var e := EncodeEnd(|headers|, |Flatten(headers)|, |body|, []);
    EndRecordBytes(|headers|, |Flatten(headers)|, |body|);
    forall p: nat | |before| < p < |raw| && SignatureAt(raw, p)
      ensures p == |before| + 16 && |body| == SIGNATURE_AS_OFFSET
    {
      RecurrenceIsTheOffset(before, e, |body|, p);
    }
    if |body| != SIGNATURE_AS_OFFSET {
      SerializedIsAccepted(body, headers, []);
    } else {
      assert raw[|before| + 16..|before| + 20] == e[16..20] == Put32(|body|) == END_SIGNATURE;
      assert SignatureAt(raw, |before| + 16);
    }
  }
}
