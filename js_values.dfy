/**
 * The JavaScript values the service sees: JSON request bodies as
 * `express.json()` decodes them, and the two string operations the
 * handlers and the schema use (`String.prototype.trim` and `toLowerCase`).
 */
module JsValues {

  /** A decoded JSON value. JavaScript numbers are modelled as reals. */
  datatype Json =
    | JNull
    | JBool(b: bool)
    | JNum(n: real)
    | JStr(s: string)
    | JArr(items: seq<Json>)
    | JObj(fields: map<string, Json>)

  /** The characters `trim` removes: ECMAScript WhiteSpace and LineTerminator. */
  predicate IsWhitespace(c: char)
  {
    || c == ' ' || c == '\t' || c == '\n' || c == '\r'
    || c == '\U{000B}' || c == '\U{000C}' || c == '\U{00A0}' || c == '\U{1680}'
    || ('\U{2000}' <= c <= '\U{200A}')
    || c == '\U{2028}' || c == '\U{2029}' || c == '\U{202F}' || c == '\U{205F}'
    || c == '\U{3000}' || c == '\U{FEFF}'
  }

  /** `s` without its leading whitespace: the suffix that starts at the first other character. */
  function TrimStart(s: string): (r: string)
    ensures |r| <= |s| && r == s[|s| - |r|..]
    ensures r == [] || !IsWhitespace(r[0])
    ensures forall i :: 0 <= i < |s| - |r| ==> IsWhitespace(s[i])
    decreases |s|
  {
    if |s| > 0 && IsWhitespace(s[0]) then TrimStart(s[1..]) else s
  }

  /** `s` without its trailing whitespace: the prefix that ends at the last other character. */
  function TrimEnd(s: string): (r: string)
    ensures |r| <= |s| && r == s[..|r|]
    ensures r == [] || !IsWhitespace(r[|r| - 1])
    ensures forall i :: |r| <= i < |s| ==> IsWhitespace(s[i])
    decreases |s|
  {
    if |s| > 0 && IsWhitespace(s[|s| - 1]) then TrimEnd(s[..|s| - 1]) else s
  }

  /** `r` is the infix of `s` at `lead`, and everything of `s` around it is whitespace. */
  ghost predicate CutsWhitespace(s: string, lead: int, r: string)
  {
    && 0 <= lead <= |s| - |r| && r == s[lead..lead + |r|]
    && (forall i :: 0 <= i < lead ==> IsWhitespace(s[i]))
    && (forall i :: lead + |r| <= i < |s| ==> IsWhitespace(s[i]))
  }

  /**
   * `String.prototype.trim`: `s` with whitespace cut from both ends. The
   * result neither starts nor ends with whitespace.
   */
  function Trim(s: string): (r: string)
    ensures |r| <= |s|
    ensures r == [] || (!IsWhitespace(r[0]) && !IsWhitespace(r[|r| - 1]))
  {
    TrimEnd(TrimStart(s))
  }

  /** What `trim` keeps is an infix of `s`, and everything it cuts off is whitespace. */
  lemma TrimCutsWhitespace(s: string)
    ensures exists lead :: CutsWhitespace(s, lead, Trim(s))
  {
    var t := TrimStart(s);
    var lead := |s| - |t|;
    TrimEndInfix(s, lead, t);
    assert CutsWhitespace(s, lead, Trim(s));
  }

  lemma TrimEndInfix(s: string, lead: int, t: string)
    requires 0 <= lead <= |s| && t == s[lead..]
    requires forall i :: 0 <= i < lead ==> IsWhitespace(s[i])
    ensures CutsWhitespace(s, lead, TrimEnd(t))
  {
    var r := TrimEnd(t);
    assert r == s[lead..lead + |r|];
    forall i | lead + |r| <= i < |s|
      ensures IsWhitespace(s[i])
    {
      assert s[i] == t[i - lead];
    }
  }

  /** Trimming a trimmed string changes nothing. */
  lemma TrimIdempotent(s: string)
    ensures Trim(Trim(s)) == Trim(s)
  {
    var r := Trim(s);
    if r != [] {
      assert TrimStart(r) == r;
      assert TrimEnd(r) == r;
    }
  }

  /** `toLowerCase` restricted to ASCII letters; other characters are kept. */
  function LowerChar(c: char): char
  {
    if 'A' <= c <= 'Z' then (c as int + 32) as char else c
  }

  /** `String.prototype.toLowerCase`, restricted to the ASCII letters. */
  function Lower(s: string): (r: string)
    ensures |r| == |s|
    ensures forall i :: 0 <= i < |r| ==> !('A' <= r[i] <= 'Z')
    ensures forall i :: 0 <= i < |s| && !('A' <= s[i] <= 'Z') ==> r[i] == s[i]
    ensures forall i :: 0 <= i < |s| && 'A' <= s[i] <= 'Z' ==> r[i] as int == s[i] as int + 32
  {
    seq(|s|, i requires 0 <= i < |s| => LowerChar(s[i]))
  }

  /** Lowering twice is lowering once. */
  lemma LowerIdempotent(s: string)
    ensures Lower(Lower(s)) == Lower(s)
  {
    var r := Lower(s);
    assert forall i :: 0 <= i < |r| ==> Lower(r)[i] == r[i];
  }
}
