/** Python's `str.strip` and the "non-blank string or nothing" readers built on it. */
module Text {
  import opened Base

  /** The characters `str.strip()` removes. */
  predicate IsSpace(c: char) {
    var n := c as int;
    || 0x09 <= n <= 0x0d || 0x1c <= n <= 0x20 || n in {0x85, 0xa0, 0x1680, 0x2028, 0x2029, 0x202f, 0x205f, 0x3000}
    || 0x2000 <= n <= 0x200a
  }

  function StripLeft(s: string): string {
    if s != "" && IsSpace(s[0]) then StripLeft(s[1..]) else s
  }

  function StripRight(s: string): string {
    if s != "" && IsSpace(s[|s| - 1]) then StripRight(s[..|s| - 1]) else s
  }

  function Strip(s: string): string {
    StripRight(StripLeft(s))
  }

  /** No whitespace at either end. */
  predicate Trimmed(s: string) {
    s == "" || (!IsSpace(s[0]) && !IsSpace(s[|s| - 1]))
  }

  lemma {:induction false} StripLeftIsSuffix(s: string)
    ensures |StripLeft(s)| <= |s| && StripLeft(s) == s[|s| - |StripLeft(s)|..]
    ensures StripLeft(s) != "" ==> !IsSpace(StripLeft(s)[0])
    ensures s != "" && IsSpace(s[0]) ==> StripLeft(s) != s
  {
    if s != "" && IsSpace(s[0]) {
      StripLeftIsSuffix(s[1..]);
    }
  }

  lemma {:induction false} StripRightIsPrefix(s: string)
    ensures |StripRight(s)| <= |s| && StripRight(s) == s[..|StripRight(s)|]
    ensures StripRight(s) != "" ==> !IsSpace(StripRight(s)[|StripRight(s)| - 1])
    ensures s != "" && IsSpace(s[|s| - 1]) ==> StripRight(s) != s
  {
    if s != "" && IsSpace(s[|s| - 1]) {
      StripRightIsPrefix(s[..|s| - 1]);
    }
  }

  /** Stripping gives a trimmed string, and changes exactly the untrimmed ones. */
  lemma StripTrims(s: string)
    ensures Trimmed(Strip(s))
    ensures Strip(s) == s <==> Trimmed(s)
    ensures Strip(Strip(s)) == Strip(s)
  {
    StripLeftIsSuffix(s);
    StripRightIsPrefix(StripLeft(s));
    StripLeftIsSuffix(Strip(s));
    StripRightIsPrefix(StripLeft(Strip(s)));
  }

  /** The pieces of a path between slashes. */
  function PathParts(s: string): (r: seq<string>)
    ensures r != []
  {
    if s == "" then [""]
    else
      var rest := PathParts(s[1..]);
      if s[0] == '/' then [""] + rest else [[s[0]] + rest[0]] + rest[1..]
  }

  lemma {:induction false} OnePart(s: string)
    requires '/' !in s
    ensures PathParts(s) == [s]
  {
    if s != "" {
      OnePart(s[1..]);
      assert s == [s[0]] + s[1..];
    }
  }

  /** A JSON value, as far as the readers below can tell values apart. */
  datatype Json = JString(text: string) | JInt(number: int) | JBool(flag: bool) | JNull | JOther(raw: string)

  /** The stripped text of a string value, unless it is blank or no string at all. */
  function StringOrNone(value: Json): Option<string> {
    if value.JString? && Strip(value.text) != "" then Some(Strip(value.text)) else None
  }

  /** The number of an integer value; Booleans are not numbers here. */
  function IntOrNone(value: Json): Option<int> {
    if value.JInt? then Some(value.number) else None
  }

  /** An integer to the Python `isinstance` test, which Booleans pass. */
  function PythonInt(value: Json): Option<int> {
    match value
    case JInt(n) => Some(n)
    case JBool(b) => Some(if b then 1 else 0)
    case _ => None
  }

  /** Python equality, under which a Boolean equals the integer it counts as. */
  predicate PythonEqual(a: Json, b: Json) {
    a == b || (PythonInt(a).Some? && PythonInt(a) == PythonInt(b))
  }
}
