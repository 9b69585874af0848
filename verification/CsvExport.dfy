/** The identity of a CSV export: its address, built and parsed, and the roles of its columns. */
module CsvExport {
  import opened Base
  import opened Text
  import opened CsvLive

  // ---------- Addresses ----------

  const BASE := "https://ceqanet.lci.ca.gov/Search?"
  const FORMAT_KEY := "OutputFormat"
  const SCH_KEY := "Sch"
  const DOCUMENT_KEY := "DocumentId"

  datatype UrlParts = UrlParts(scheme: string, host: string, path: string, plain: bool, query: string)

  /** The URL library as fixed functions, and what Python counts as a digit beyond the ASCII ones. `plain` says
      that an address has no parameters, fragment, credentials or port. */
  datatype UrlLibrary = UrlLibrary(
    split: string -> UrlParts,
    quote: string -> string,
    unquote: string -> string,
    otherDigit: char -> bool,
    otherInteger: string -> Option<int>)

  predicate AsciiDigit(c: char) {
    '0' <= c <= '9'
  }

  predicate AsciiNumber(s: string) {
    s != "" && forall i :: 0 <= i < |s| ==> AsciiDigit(s[i])
  }

  function DigitChar(d: nat): char
    requires d < 10
  {
    ('0' as int + d) as char
  }

  /** Python's `str` of a number. */
  function Decimal(n: nat): string {
    if n < 10 then [DigitChar(n)] else Decimal(n / 10) + [DigitChar(n % 10)]
  }

  /** Python's `int` of ASCII digits. */
  function NumberOf(s: string): nat
    requires forall i :: 0 <= i < |s| ==> AsciiDigit(s[i])
  {
    if s == "" then 0
    else
      var last := s[|s| - 1];
      assert AsciiDigit(last);
      10 * NumberOf(s[..|s| - 1]) + (last as int - '0' as int)
  }

  function ReadInteger(lib: UrlLibrary, s: string): Option<int> {
    if AsciiNumber(s) then Some(NumberOf(s)) else lib.otherInteger(s)
  }

  predicate SchText(lib: UrlLibrary, s: string) {
    |s| == 10 && forall i :: 0 <= i < 10 ==> AsciiDigit(s[i]) || lib.otherDigit(s[i])
  }

  type Pair = (string, string)

  function EncodePair(lib: UrlLibrary, p: Pair): string {
    lib.quote(p.0) + "=" + lib.quote(p.1)
  }

  function UrlEncode(lib: UrlLibrary, pairs: seq<Pair>): string {
    if pairs == [] then ""
    else if |pairs| == 1 then EncodePair(lib, pairs[0])
    else EncodePair(lib, pairs[0]) + "&" + UrlEncode(lib, pairs[1..])
  }

  function PairsFor(sch: string, document: Option<nat>): seq<Pair> {
    (if document.Some? then [(DOCUMENT_KEY, Decimal(document.value))] else [])
    + [(FORMAT_KEY, "CSV"), (SCH_KEY, sch)]
  }

  function BuildRequest(lib: UrlLibrary, sch: string, document: Option<int>): Option<Request> {
    if !SchText(lib, sch) || (document.Some? && document.value < 1) then None
    else
      var id: Option<nat> := if document.Some? then Some(document.value) else None;
      Some(Request(if id.Some? then DocumentExport else ProjectExport, sch, id,
                   BASE + UrlEncode(lib, PairsFor(sch, id))))
  }

  /** What precedes and follows the first occurrence of a character. */
  function Cut(s: string, c: char): Option<(string, string)> {
    if s == "" then None
    else if s[0] == c then Some(("", s[1..]))
    else
      match Cut(s[1..], c)
      case None => None
      case Some((before, after)) => Some(([s[0]] + before, after))
  }

  lemma {:induction false} CutShortens(s: string, c: char)
    ensures Cut(s, c).Some? ==> |Cut(s, c).value.1| < |s|
  {
    if s != "" && s[0] != c {
      CutShortens(s[1..], c);
    }
  }

  function DecodePair(lib: UrlLibrary, piece: string): Option<Pair> {
    match Cut(piece, '=')
    case None => None
    case Some((name, value)) => Some((lib.unquote(name), lib.unquote(value)))
  }

  /** Strict query parsing: every piece is a name and a value. */
  function DecodePairs(lib: UrlLibrary, query: string): Option<seq<Pair>>
    decreases |query|
  {
    match Cut(query, '&')
    case None =>
      (match DecodePair(lib, query)
       case None => None
       case Some(pair) => Some([pair]))
    case Some((piece, rest)) =>
      CutShortens(query, '&');
      (match DecodePair(lib, piece)
       case None => None
       case Some(pair) =>
         (match DecodePairs(lib, rest)
          case None => None
          case Some(pairs) => Some([pair] + pairs)))
  }

  function ParseQuery(lib: UrlLibrary, query: string): Option<seq<Pair>> {
    if query == "" then Some([]) else DecodePairs(lib, query)
  }

  function KeysOf(pairs: seq<Pair>): seq<string> {
    seq(|pairs|, i requires 0 <= i < |pairs| => pairs[i].0)
  }

  function Find(pairs: seq<Pair>, name: string): Option<string> {
    if pairs == [] then None else if pairs[0].0 == name then Some(pairs[0].1) else Find(pairs[1..], name)
  }

  /** The request a query identifies, whatever the order of its parts. */
  function FromPairs(lib: UrlLibrary, pairs: seq<Pair>): Option<Request> {
    var keys := Elements(KeysOf(pairs));
    if !Distinct(KeysOf(pairs)) || Find(pairs, FORMAT_KEY) != Some("CSV") then None
    else if keys != {FORMAT_KEY, SCH_KEY} && keys != {DOCUMENT_KEY, FORMAT_KEY, SCH_KEY} then None
    else if Find(pairs, SCH_KEY) == None || !SchText(lib, Find(pairs, SCH_KEY).value) then None
    else
      var sch, document := Find(pairs, SCH_KEY).value, Find(pairs, DOCUMENT_KEY);
      if document == None then BuildRequest(lib, sch, None)
      else
        match ReadInteger(lib, document.value)
        case None => None
        case Some(n) => if n < 1 then None else BuildRequest(lib, sch, Some(n))
  }

  function ParseUrl(lib: UrlLibrary, url: string): Option<Request> {
    var parts := lib.split(url);
    if parts.scheme != "https" || parts.host != "ceqanet.lci.ca.gov" || parts.path != "/Search" || !parts.plain
    then None
    else
      match ParseQuery(lib, parts.query)
      case None => None
      case Some(pairs) => FromPairs(lib, pairs)
  }

  /** Characters the URL library gives a meaning of their own in a query, or silently removes. */
  const REMOVED := {'\t', '\r', '\n'}

  predicate Plain(s: string) {
    '#' !in s && forall c :: c in REMOVED ==> c !in s
  }

  /** What is assumed of the library: quoting can be undone, and leaves neither a separator nor a character the
      library treats in its own way; and an address made from the base and a plain query splits into them. */
  ghost predicate Faithful(lib: UrlLibrary) {
    && (forall s :: lib.unquote(lib.quote(s)) == s)
    && (forall s :: '&' !in lib.quote(s) && '=' !in lib.quote(s) && Plain(lib.quote(s)))
    && forall query :: Plain(query) ==>
      lib.split(BASE + query) == UrlParts("https", "ceqanet.lci.ca.gov", "/Search", true, query)
  }

  // ---------- Round trips ----------

  lemma {:induction false} DecimalRoundTrip(n: nat)
    ensures AsciiNumber(Decimal(n)) && NumberOf(Decimal(n)) == n
  {
    if n >= 10 {
      DecimalRoundTrip(n / 10);
      var s := Decimal(n);
      assert s[..|s| - 1] == Decimal(n / 10);
    }
  }

  lemma {:induction false} CutAt(a: string, c: char, b: string)
    requires c !in a
    ensures Cut(a + [c] + b, c) == Some((a, b))
  {
    var s := a + [c] + b;
    if a == "" {
      assert s[0] == c && s[1..] == b;
    } else {
      assert s[0] == a[0] && s[1..] == a[1..] + [c] + b;
      CutAt(a[1..], c, b);
      assert [a[0]] + a[1..] == a;
    }
  }

  lemma {:induction false} CutNothing(s: string, c: char)
    requires c !in s
    ensures Cut(s, c) == None
  {
    if s != "" {
      CutNothing(s[1..], c);
    }
  }

  lemma PairRoundTrip(lib: UrlLibrary, p: Pair)
    requires Faithful(lib)
    ensures DecodePair(lib, EncodePair(lib, p)) == Some(p)
    ensures '&' !in EncodePair(lib, p) && Plain(EncodePair(lib, p)) && EncodePair(lib, p) != ""
  {
    var name, value := lib.quote(p.0), lib.quote(p.1);
    assert '&' !in name && '=' !in name && Plain(name) && '&' !in value && Plain(value);
    assert EncodePair(lib, p) == name + ['='] + value;
    CutAt(name, '=', value);
    assert lib.unquote(name) == p.0 && lib.unquote(value) == p.1;
    assert Cut(EncodePair(lib, p), '=') == Some((name, value));
    assert p == (p.0, p.1);
  }

  lemma {:induction false} QueryRoundTrip(lib: UrlLibrary, pairs: seq<Pair>)
    requires Faithful(lib)
    ensures ParseQuery(lib, UrlEncode(lib, pairs)) == Some(pairs)
    ensures Plain(UrlEncode(lib, pairs)) && (pairs != [] ==> UrlEncode(lib, pairs) != "")
  {
    if pairs != [] {
      PairRoundTrip(lib, pairs[0]);
      if |pairs| == 1 {
        CutNothing(EncodePair(lib, pairs[0]), '&');
        assert pairs == [pairs[0]];
      } else {
        QueryRoundTrip(lib, pairs[1..]);
        CutAt(EncodePair(lib, pairs[0]), '&', UrlEncode(lib, pairs[1..]));
        assert UrlEncode(lib, pairs) == EncodePair(lib, pairs[0]) + ['&'] + UrlEncode(lib, pairs[1..]);
        assert pairs == [pairs[0]] + pairs[1..];
      }
    }
  }

  lemma FindFirst(name: string, value: string, rest: seq<Pair>)
    ensures Find([(name, value)] + rest, name) == Some(value)
  {
  }

  lemma FindLater(name: string, other: string, value: string, rest: seq<Pair>)
    requires other != name
    ensures Find([(other, value)] + rest, name) == Find(rest, name)
  {
    assert ([(other, value)] + rest)[1..] == rest;
  }

  lemma KeysDiffer()
    ensures FORMAT_KEY != SCH_KEY && FORMAT_KEY != DOCUMENT_KEY && SCH_KEY != DOCUMENT_KEY
  {
    assert |FORMAT_KEY| == 12 && |SCH_KEY| == 3 && |DOCUMENT_KEY| == 10;
  }

  lemma FormatAndSch(sch: string)
    ensures var pairs := [(FORMAT_KEY, "CSV"), (SCH_KEY, sch)];
      && Find(pairs, FORMAT_KEY) == Some("CSV") && Find(pairs, SCH_KEY) == Some(sch)
      && Find(pairs, DOCUMENT_KEY) == None && KeysOf(pairs) == [FORMAT_KEY, SCH_KEY]
  {
    KeysDiffer();
    var last := [(SCH_KEY, sch)] + [];
    assert [(FORMAT_KEY, "CSV"), (SCH_KEY, sch)] == [(FORMAT_KEY, "CSV")] + last;
    FindFirst(FORMAT_KEY, "CSV", last);
    FindLater(SCH_KEY, FORMAT_KEY, "CSV", last);
    FindFirst(SCH_KEY, sch, []);
    FindLater(DOCUMENT_KEY, FORMAT_KEY, "CSV", last);
    FindLater(DOCUMENT_KEY, SCH_KEY, sch, []);
  }

  lemma ProjectPairsAreRead(lib: UrlLibrary, sch: string)
    requires SchText(lib, sch)
    ensures FromPairs(lib, PairsFor(sch, None)) == BuildRequest(lib, sch, None)
  {
    KeysDiffer();
    FormatAndSch(sch);
    assert PairsFor(sch, None) == [(FORMAT_KEY, "CSV"), (SCH_KEY, sch)];
    assert Elements([FORMAT_KEY, SCH_KEY]) == {FORMAT_KEY, SCH_KEY};
    assert Distinct([FORMAT_KEY, SCH_KEY]);
  }

  lemma DocumentPairsAreRead(lib: UrlLibrary, sch: string, document: nat)
    requires SchText(lib, sch) && document >= 1
    ensures FromPairs(lib, PairsFor(sch, Some(document))) == BuildRequest(lib, sch, Some(document))
  {
    KeysDiffer();
    FormatAndSch(sch);
    DecimalRoundTrip(document);
    var rest, pairs := [(FORMAT_KEY, "CSV"), (SCH_KEY, sch)], PairsFor(sch, Some(document));
    assert pairs == [(DOCUMENT_KEY, Decimal(document))] + rest;
    FindFirst(DOCUMENT_KEY, Decimal(document), rest);
    FindLater(FORMAT_KEY, DOCUMENT_KEY, Decimal(document), rest);
    FindLater(SCH_KEY, DOCUMENT_KEY, Decimal(document), rest);
    assert KeysOf(pairs) == [DOCUMENT_KEY, FORMAT_KEY, SCH_KEY];
    assert Elements([DOCUMENT_KEY, FORMAT_KEY, SCH_KEY]) == {DOCUMENT_KEY, FORMAT_KEY, SCH_KEY};
    assert Distinct([DOCUMENT_KEY, FORMAT_KEY, SCH_KEY]);
  }

  /** A built request's address parses back to the request. */
  lemma BuiltUrlParses(lib: UrlLibrary, sch: string, document: Option<int>)
    requires Faithful(lib) && BuildRequest(lib, sch, document).Some?
    ensures ParseUrl(lib, BuildRequest(lib, sch, document).value.sourceUrl) == BuildRequest(lib, sch, document)
  {
    var id: Option<nat> := if document.Some? then Some(document.value) else None;
    QueryRoundTrip(lib, PairsFor(sch, id));
    if document == None {
      ProjectPairsAreRead(lib, sch);
    } else {
      DocumentPairsAreRead(lib, sch, document.value);
    }
  }

  /** Whatever spelling of an address is accepted, the request it yields is the canonical one: building it
      again, or parsing its own address, changes nothing. */
  lemma ParsedIsCanonical(lib: UrlLibrary, url: string)
    requires Faithful(lib) && ParseUrl(lib, url).Some?
    ensures var r := ParseUrl(lib, url).value;
      BuildRequest(lib, r.sch, r.documentId) == Some(r) && ParseUrl(lib, r.sourceUrl) == Some(r)
  {
    var r := ParseUrl(lib, url).value;
    BuiltUrlParses(lib, r.sch, r.documentId);
  }

  /** Different requests have different addresses. */
  lemma AddressIdentifiesRequest(lib: UrlLibrary, a: string, x: Option<int>, b: string, y: Option<int>)
    requires Faithful(lib) && BuildRequest(lib, a, x).Some? && BuildRequest(lib, b, y).Some?
    requires BuildRequest(lib, a, x).value.sourceUrl == BuildRequest(lib, b, y).value.sourceUrl
    ensures a == b && x == y
  {
    BuiltUrlParses(lib, a, x);
    BuiltUrlParses(lib, b, y);
  }
}
