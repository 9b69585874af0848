/** The byte stream that is hashed to identify an assurance-covered source tree. */
module TreeDigest {
  import opened Base
  import opened Ordering

  const NUL: byte := 0x00
  const TAB: byte := 0x09

  // Largest path length that fits the eight-byte prefix, plus one.
  const LENGTH_LIMIT := 0x1_0000_0000_0000_0000

  datatype TreeError = UnexpectedShape | UnresolvedStage | PathTooLong

  datatype Entry = Entry(path: Bytes, mode: Bytes, objectId: Bytes)

  /** The bytes of an ASCII literal. */
  function Ascii(s: string): Bytes {
    seq(|s|, i requires 0 <= i < |s| => s[i] as int % 0x100)
  }

  const TREE_DOMAIN := Ascii("constructionsight.assured-tree/v1") + [NUL]

  const ALLOWED_EXACT := {
    Ascii("governance/active_defects.toml"),
    Ascii("governance/resolved_defects.toml"),
    Ascii("docs/audits/silent_risk_certification_2026-07-15.md")
  }

  const ALLOWED_PREFIX := Ascii("governance/reviews/")

  /** Paths that finalization may still change after the tree was assured. */
  predicate AllowedAfterAssurance(path: Bytes) {
    path in ALLOWED_EXACT || ALLOWED_PREFIX <= path
  }

  // ---------- Splitting the listing ----------

  /** The pieces between NUL bytes, empty ones included. */
  function SplitNul(s: Bytes): (pieces: seq<Bytes>)
    ensures pieces != []
    ensures forall p :: p in pieces ==> NUL !in p
  {
    if s == [] then [[]]
    else
      var rest := SplitNul(s[1..]);
      if s[0] == NUL then [[]] + rest else [[s[0]] + rest[0]] + rest[1..]
  }

  predicate IsSpace(b: byte) {
    b in {0x20, 0x09, 0x0a, 0x0b, 0x0c, 0x0d}
  }

  /** Whitespace-separated fields; `word` holds the field being collected. */
  function Fields(s: Bytes, word: Bytes): (fields: seq<Bytes>)
    ensures forall f, b :: f in fields && b in f ==> b in s || b in word
    ensures forall f :: f in fields ==> f != []
  {
    if s == [] then
      if word == [] then [] else [word]
    else if IsSpace(s[0]) then
      (if word == [] then [] else [word]) + Fields(s[1..], [])
    else
      Fields(s[1..], word + [s[0]])
  }

  /** Position of the first tab, or the length when there is none. */
  function TabIndex(s: Bytes): (i: nat)
    ensures i <= |s| && (i < |s| ==> s[i] == TAB) && TAB !in s[..i]
  {
    if s == [] || s[0] == TAB then 0 else
      var rest := TabIndex(s[1..]);
      assert s[..1 + rest] == [s[0]] + s[1..][..rest];
      1 + rest
  }

  /** One index line: mode, object id and stage, a tab, the path. */
  function ParseEntry(piece: Bytes): (r: Result<Entry, TreeError>)
    ensures r.Ok? ==> forall b :: b in r.value.path || b in r.value.mode || b in r.value.objectId ==> b in piece
  {
    var tab := TabIndex(piece);
    var fields := Fields(piece[..tab], []);
    if tab == |piece| || |fields| != 3 then Err(UnexpectedShape)
    else if fields[2] != Ascii("0") then Err(UnresolvedStage)
    else Ok(Entry(piece[tab + 1..], fields[0], fields[1]))
  }

  /** What one piece contributes: nothing when it is empty or a permitted finalization path. */
  function ReadPiece(piece: Bytes): Result<Option<Entry>, TreeError> {
    if piece == [] then Ok(None)
    else
      match ParseEntry(piece)
      case Err(error) => Err(error)
      case Ok(entry) => Ok(if AllowedAfterAssurance(entry.path) then None else Some(entry))
  }

  function Append(front: seq<Entry>, one: Option<Entry>): seq<Entry> {
    match one case None => front case Some(entry) => front + [entry]
  }

  function Prepend(front: seq<Entry>, rest: Result<seq<Entry>, TreeError>): Result<seq<Entry>, TreeError> {
    match rest case Err(error) => Err(error) case Ok(entries) => Ok(front + entries)
  }

  /** Listed entries that are not permitted finalization paths, in listing order. */
  function CoveredEntries(pieces: seq<Bytes>): Result<seq<Entry>, TreeError> {
    if pieces == [] then Ok([])
    else
      match ReadPiece(pieces[0])
      case Err(error) => Err(error)
      case Ok(one) => Prepend(Append([], one), CoveredEntries(pieces[1..]))
  }

  // ---------- The encoding ----------

  function BigEndian(n: nat, width: nat): (r: Bytes)
    ensures |r| == width
  {
    if width == 0 then [] else BigEndian(n / 0x100, width - 1) + [n % 0x100]
  }

  function EncodeEntry(e: Entry): Bytes {
    BigEndian(|e.path|, 8) + e.path + [NUL] + e.mode + [NUL] + e.objectId + [NUL]
  }

  function EncodeAll(entries: seq<Entry>): Bytes {
    if entries == [] then [] else EncodeEntry(entries[0]) + EncodeAll(entries[1..])
  }

  function Path(e: Entry): seq<int> {
    e.path
  }

  /** The stream handed to the hash function, or the first failure. */
  function TreeStream(listing: Bytes): Result<Bytes, TreeError> {
    match CoveredEntries(SplitNul(listing))
    case Err(error) => Err(error)
    case Ok(entries) =>
      if exists e :: e in entries && |e.path| >= LENGTH_LIMIT then Err(PathTooLong)
      else Ok(TREE_DOMAIN + EncodeAll(SortedBy(Path, entries)))
  }

  /** The reading loop. */
  method ReadCovered(pieces: seq<Bytes>) returns (r: Result<seq<Entry>, TreeError>)
    ensures r == CoveredEntries(pieces)
  {
    var entries: seq<Entry> := [];
    PrependNothing(CoveredEntries(pieces));
    assert pieces[0..] == pieces;
    for i := 0 to |pieces|
      invariant CoveredEntries(pieces) == Prepend(entries, CoveredEntries(pieces[i..]))
    {
      assert pieces[i..][0] == pieces[i] && pieces[i..][1..] == pieces[i + 1..];
      match ReadPiece(pieces[i]) {
        case Err(error) => return Err(error);
        case Ok(one) =>
          PrependTwice(entries, one, CoveredEntries(pieces[i + 1..]));
          entries := Append(entries, one);
      }
    }
    assert pieces[|pieces|..] == [] && entries + [] == entries;
    r := Ok(entries);
  }

  /** The hashing loop: the stream is what the successive updates append. */
  method StreamEntries(ordered: seq<Entry>) returns (r: Result<Bytes, TreeError>)
    ensures (exists e :: e in ordered && |e.path| >= LENGTH_LIMIT) ==> r == Err(PathTooLong)
    ensures (forall e :: e in ordered ==> |e.path| < LENGTH_LIMIT) ==> r == Ok(TREE_DOMAIN + EncodeAll(ordered))
  {
    var stream := TREE_DOMAIN;
    assert ordered[0..] == ordered;
    for i := 0 to |ordered|
      invariant forall e :: e in ordered[..i] ==> |e.path| < LENGTH_LIMIT
      invariant stream + EncodeAll(ordered[i..]) == TREE_DOMAIN + EncodeAll(ordered)
    {
      if |ordered[i].path| >= LENGTH_LIMIT {
        return Err(PathTooLong);
      }
      assert ordered[i..][1..] == ordered[i + 1..];
      assert ordered[..i + 1] == ordered[..i] + [ordered[i]];
      stream := stream + EncodeEntry(ordered[i]);
    }
    assert ordered[..|ordered|] == ordered;
    assert EncodeAll(ordered[|ordered|..]) == [] && stream + [] == stream;
    r := Ok(stream);
  }

  /** Reading, sorting and hashing together compute the stream. */
  method AssuredTreeStream(listing: Bytes) returns (r: Result<Bytes, TreeError>)
    ensures r == TreeStream(listing)
  {
    var covered := ReadCovered(SplitNul(listing));
    match covered {
      case Err(error) => return Err(error);
      case Ok(entries) =>
        var ordered := SortedBy(Path, entries);
        SortedIsPermutation(Path, entries);
        assert forall e :: e in entries <==> e in multiset(entries);
        assert forall e :: e in ordered <==> e in multiset(ordered);
        r := StreamEntries(ordered);
    }
  }

  lemma PrependNothing(r: Result<seq<Entry>, TreeError>)
    ensures Prepend([], r) == r
  {
    if r.Ok? {
      assert [] + r.value == r.value;
    }
  }

  lemma PrependTwice(front: seq<Entry>, one: Option<Entry>, rest: Result<seq<Entry>, TreeError>)
    ensures Prepend(front, Prepend(Append([], one), rest)) == Prepend(Append(front, one), rest)
  {
    if rest.Ok? {
      assert front + (Append([], one) + rest.value) == Append(front, one) + rest.value;
    }
  }

  // ---------- No field can hold the separator ----------

  ghost predicate NulFree(e: Entry) {
    NUL !in e.path && NUL !in e.mode && NUL !in e.objectId
  }

  /** Splitting on NUL is what keeps NUL out of every field the encoding delimits with NUL. */
  lemma {:induction false} FieldsAreNulFree(pieces: seq<Bytes>)
    requires forall p :: p in pieces ==> NUL !in p
    requires CoveredEntries(pieces).Ok?
    ensures forall e :: e in CoveredEntries(pieces).value ==> NulFree(e) && !AllowedAfterAssurance(e.path)
  {
    if pieces != [] {
      assert pieces[0] in pieces;
      FieldsAreNulFree(pieces[1..]);
    }
  }

  // ---------- The encoding is injective ----------

  lemma {:induction false} BigEndianInjective(a: nat, b: nat, width: nat)
    requires a < Pow256(width) && b < Pow256(width)
    requires BigEndian(a, width) == BigEndian(b, width)
    ensures a == b
  {
    if width > 0 {
      var x, y := BigEndian(a, width), BigEndian(b, width);
      assert x[..width - 1] == BigEndian(a / 0x100, width - 1);
      assert y[..width - 1] == BigEndian(b / 0x100, width - 1);
      assert x[width - 1] == a % 0x100 && y[width - 1] == b % 0x100;
      BigEndianInjective(a / 0x100, b / 0x100, width - 1);
    }
  }

  ghost function Pow256(k: nat): nat {
    if k == 0 then 1 else 0x100 * Pow256(k - 1)
  }

  /** Two NUL-terminated fields that start equal streams are the same field. */
  lemma NulTerminated(a: Bytes, b: Bytes, x: Bytes, y: Bytes)
    requires NUL !in a && NUL !in b
    requires a + [NUL] + x == b + [NUL] + y
    ensures a == b && x == y
  {
    var s, t := a + [NUL] + x, b + [NUL] + y;
    assert s[|a|] == NUL && t[|b|] == NUL;
    assert forall i :: 0 <= i < |a| ==> s[i] == a[i] && a[i] in a;
    assert forall i :: 0 <= i < |b| ==> t[i] == b[i] && b[i] in b;
    assert |a| == |b|;
    assert s[..|a|] == a && t[..|b|] == b;
    assert s[|a| + 1..] == x && t[|b| + 1..] == y;
  }

  ghost predicate Encodable(e: Entry) {
    NulFree(e) && |e.path| < LENGTH_LIMIT
  }

  lemma EqualPrefixes(p: Bytes, q: Bytes, a: Bytes, b: Bytes, x: Bytes, y: Bytes)
    requires |p| == |q| && p + a + x == q + b + y
    ensures p == q
    ensures |a| == |b| ==> a == b && x == y
  {
    var s, t := p + a + x, q + b + y;
    assert p == s[..|p|] && q == t[..|q|];
    assert a == s[|p|..|p| + |a|] && b == t[|q|..|q| + |b|];
    assert x == s[|p| + |a|..] && y == t[|q| + |b|..];
  }

  lemma EightBytesHoldEveryLength(n: nat)
    requires n < LENGTH_LIMIT
    ensures n < Pow256(8)
  {
    assert Pow256(4) == 0x1_0000_0000;
    assert Pow256(8) == 0x1_0000_0000 * Pow256(4);
  }

  /** The length prefix tells where the path ends, so paths may hold any byte. */
  lemma PathIsDetermined(a: Bytes, b: Bytes, x: Bytes, y: Bytes)
    requires |a| < LENGTH_LIMIT && |b| < LENGTH_LIMIT
    requires BigEndian(|a|, 8) + a + x == BigEndian(|b|, 8) + b + y
    ensures a == b && x == y
  {
    EqualPrefixes(BigEndian(|a|, 8), BigEndian(|b|, 8), a, b, x, y);
    EightBytesHoldEveryLength(|a|);
    EightBytesHoldEveryLength(|b|);
    BigEndianInjective(|a|, |b|, 8);
  }

  /** An entry at the head of a stream is determined by the stream. */
  lemma EntryIsDetermined(a: Entry, b: Entry, x: Bytes, y: Bytes)
    requires Encodable(a) && Encodable(b)
    requires EncodeEntry(a) + x == EncodeEntry(b) + y
    ensures a == b && x == y
  {
    var u2, v2 := a.objectId + [NUL] + x, b.objectId + [NUL] + y;
    var u1, v1 := a.mode + [NUL] + u2, b.mode + [NUL] + v2;
    var u0, v0 := [NUL] + u1, [NUL] + v1;
    assert EncodeEntry(a) + x == BigEndian(|a.path|, 8) + a.path + u0;
    assert EncodeEntry(b) + y == BigEndian(|b.path|, 8) + b.path + v0;
    PathIsDetermined(a.path, b.path, u0, v0);
    assert u0[1..] == u1 && v0[1..] == v1;
    NulTerminated(a.mode, b.mode, u2, v2);
    NulTerminated(a.objectId, b.objectId, x, y);
  }

  lemma {:induction false} EncodingIsInjective(a: seq<Entry>, b: seq<Entry>)
    requires forall e :: e in a || e in b ==> Encodable(e)
    requires EncodeAll(a) == EncodeAll(b)
    ensures a == b
  {
    if a != [] && b != [] {
      assert a[0] in a && b[0] in b;
      EntryIsDetermined(a[0], b[0], EncodeAll(a[1..]), EncodeAll(b[1..]));
      EncodingIsInjective(a[1..], b[1..]);
    } else {
      assert a == [] ==> |EncodeAll(a)| == 0;
      assert b == [] ==> |EncodeAll(b)| == 0;
    }
  }

  // ---------- The stream identifies the tree ----------

  /** What a readable listing says about the covered tree. */
  ghost function CoveredTree(listing: Bytes): set<Entry>
    requires CoveredEntries(SplitNul(listing)).Ok?
  {
    Elements(CoveredEntries(SplitNul(listing)).value)
  }

  /** Git lists every path once. */
  ghost predicate UniquePaths(listing: Bytes)
    requires CoveredEntries(SplitNul(listing)).Ok?
  {
    DistinctKeys(Path, CoveredEntries(SplitNul(listing)).value)
  }

  /** The covered tree is exactly the listed entries outside the finalization paths. */
  lemma {:induction false} CoveredEntriesAreTheListedOnes(pieces: seq<Bytes>, e: Entry)
    requires CoveredEntries(pieces).Ok?
    ensures e in CoveredEntries(pieces).value <==>
      !AllowedAfterAssurance(e.path) && exists p :: p in pieces && p != [] && ParseEntry(p) == Ok(e)
  {
    if pieces != [] {
      CoveredEntriesAreTheListedOnes(pieces[1..], e);
      if pieces[0] != [] && ParseEntry(pieces[0]) == Ok(e) {
        assert pieces[0] in pieces;
      }
      forall p | p in pieces[1..]
        ensures p in pieces
      {
      }
    }
  }

  lemma EqualSortsEqualElements(x: seq<Entry>, y: seq<Entry>)
    requires SortedBy(Path, x) == SortedBy(Path, y)
    ensures Elements(x) == Elements(y)
  {
    SortedIsPermutation(Path, x);
    SortedIsPermutation(Path, y);
    forall e
      ensures e in Elements(x) <==> e in Elements(y)
    {
      assert e in x <==> e in multiset(x);
      assert e in y <==> e in multiset(y);
    }
  }

  /** Everything that reaches the encoder can be decoded. */
  lemma SortedEntriesAreEncodable(listing: Bytes)
    requires TreeStream(listing).Ok?
    ensures forall e :: e in SortedBy(Path, CoveredEntries(SplitNul(listing)).value) ==> Encodable(e)
  {
    var x := CoveredEntries(SplitNul(listing)).value;
    FieldsAreNulFree(SplitNul(listing));
    SortedIsPermutation(Path, x);
    forall e | e in SortedBy(Path, x)
      ensures Encodable(e)
    {
      assert e in multiset(x);
    }
  }

  /** Equal streams and equal covered trees are the same thing, whatever the listing order and
      whatever the finalization paths hold. */
  lemma StreamIdentifiesTree(a: Bytes, b: Bytes)
    requires TreeStream(a).Ok? && TreeStream(b).Ok?
    requires UniquePaths(a) && UniquePaths(b)
    ensures TreeStream(a) == TreeStream(b) <==> CoveredTree(a) == CoveredTree(b)
  {
    var x, y := CoveredEntries(SplitNul(a)).value, CoveredEntries(SplitNul(b)).value;
    if TreeStream(a) == TreeStream(b) {
      var s, t := SortedBy(Path, x), SortedBy(Path, y);
      assert EncodeAll(s) == TreeStream(a).value[|TREE_DOMAIN|..] == EncodeAll(t);
      SortedEntriesAreEncodable(a);
      SortedEntriesAreEncodable(b);
      EncodingIsInjective(s, t);
      EqualSortsEqualElements(x, y);
    }
    if CoveredTree(a) == CoveredTree(b) {
      SortIsCanonical(Path, x, y);
    }
  }

  /** When the hash has no collision on the two streams, their digests therefore identify the covered trees. */
  lemma DigestIdentifiesTree(sha256: Bytes -> string, a: Bytes, b: Bytes)
    requires TreeStream(a).Ok? && TreeStream(b).Ok?
    requires sha256(TreeStream(a).value) == sha256(TreeStream(b).value) ==> TreeStream(a) == TreeStream(b)
    requires UniquePaths(a) && UniquePaths(b)
    ensures sha256(TreeStream(a).value) == sha256(TreeStream(b).value) <==> CoveredTree(a) == CoveredTree(b)
  {
    StreamIdentifiesTree(a, b);
  }
}
