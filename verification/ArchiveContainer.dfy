/** The bytes of a built archive: the bounded directory walk, which its verifier makes before anything else,
    accepts them. */
module ArchiveContainer {
  import opened Base
  import opened Ordering
  import opened OperatorArchive
  import opened OperatorArchiveLaws
  import D = CentralDirectory

  // A name in a directory has at most 255 bytes.
  const MAX_NAME_BYTES := 255

  // What a member adds to the archive beyond its content at most: local header, name, and incompressible blocks.
  const MAX_MEMBER_OVERHEAD := 0x1_0000

  /** The members' bytes and then one directory header for each, without extra fields or comments. */
  ghost predicate LaidOut(members: seq<Member>, body: Bytes, headers: seq<Bytes>) {
    && |headers| == |members| && D.AllHeaders(headers)
    && (forall i :: 0 <= i < |headers| ==> |headers[i]| <= 46 + MAX_NAME_BYTES)
    && |body| <= SumBy(ContentSize, members) + |members| * MAX_MEMBER_OVERHEAD
  }

  lemma {:induction false} DirectorySize(headers: seq<Bytes>)
    requires forall i :: 0 <= i < |headers| ==> |headers[i]| <= 46 + MAX_NAME_BYTES
    ensures |D.Flatten(headers)| <= |headers| * (46 + MAX_NAME_BYTES)
  {
    if headers != [] {
      DirectorySize(headers[1..]);
    }
  }

  lemma BuiltSizes(codec: Codec, first: Files, later: Files, requireVerified: bool)
    requires BuildArchive(codec, first, later, requireVerified).Ok?
    ensures var members := BuildArchive(codec, first, later, requireVerified).value;
      |members| <= MAX_ENTRIES && SumBy(ContentSize, members) <= MAX_TOTAL_BYTES
  {
    var s := Select(codec, first, requireVerified).value;
    WrittenMembers(codec, later, s.names, s.expected, MAX_TOTAL_BYTES);
    SameSizes(BuildArchive(codec, first, later, requireVerified).value, later, s.names);
  }

  /** Whatever the builder publishes, the walk over its directory accepts it and counts its members: the limits
      on members and on their total keep the directory small, and keep it from starting at the one offset that
      would read as an end record. */
  lemma BuiltDirectoryIsAccepted(codec: Codec, first: Files, later: Files, requireVerified: bool, body: Bytes,
                                 headers: seq<Bytes>)
    requires BuildArchive(codec, first, later, requireVerified).Ok?
    requires LaidOut(BuildArchive(codec, first, later, requireVerified).value, body, headers)
    ensures D.Encodable(body, headers, [])
    ensures D.CheckDirectory(D.Serialize(body, headers, []))
         == Ok(|BuildArchive(codec, first, later, requireVerified).value|)
  {
    BuiltSizes(codec, first, later, requireVerified);
    DirectorySize(headers);
    assert |headers| * (46 + MAX_NAME_BYTES) <= MAX_ENTRIES * (46 + MAX_NAME_BYTES);
    assert |headers| * MAX_MEMBER_OVERHEAD <= MAX_ENTRIES * MAX_MEMBER_OVERHEAD;
    D.CommentFreeAcceptance(body, headers);
  }
}
