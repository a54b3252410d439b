/**
 * The few pieces of JavaScript semantics the login handler relies on:
 * the values a JSON request body can carry, truthiness (`!x`),
 * `String.prototype.trim` and the `length` of a string, which counts
 * UTF-16 code units.
 */
module Js {

  /** A value taken out of a parsed JSON body. `Undefined` is a field the
      body does not have; `Obj` stands for any object or array. Only the
      zero-ness of a number matters to the handler, so numbers are integers. */
  datatype JsValue =
    | Undefined
    | Null
    | Bool(b: bool)
    | Num(n: int)
    | Str(s: string)
    | Obj

  /** JavaScript truthiness: `!v` is true exactly for the falsy values,
      which are undefined, null, false, 0 and the empty string. */
  predicate Truthy(v: JsValue): (t: bool)
    ensures t <==> v !in {Undefined, Null, Bool(false), Num(0), Str("")}
  {
    match v
    case Undefined => false
    case Null => false
    case Bool(b) => b
    case Num(n) => n != 0
    case Str(s) => s != ""
    case Obj => true
  }

  /** The characters `trim` strips: ECMAScript WhiteSpace (TAB, VT, FF,
      ZWNBSP and every Unicode "Space_Separator") and LineTerminator
      (LF, CR, LS, PS). */
  predicate IsWhitespace(c: char)
  {
    || c == '\U{0009}' || c == '\U{000B}' || c == '\U{000C}' || c == '\U{FEFF}'
    || c == '\U{0020}' || c == '\U{00A0}' || c == '\U{1680}'
    || ('\U{2000}' <= c <= '\U{200A}')
    || c == '\U{202F}' || c == '\U{205F}' || c == '\U{3000}'
    || c == '\U{000A}' || c == '\U{000D}' || c == '\U{2028}' || c == '\U{2029}'
  }

  predicate AllWhitespace(s: string)
  {
    forall i :: 0 <= i < |s| ==> IsWhitespace(s[i])
  }

  /** Neither end of `s` is a whitespace character. */
  predicate Trimmed(s: string)
  {
    s == [] || (!IsWhitespace(s[0]) && !IsWhitespace(s[|s| - 1]))
  }

  /** The index of the first character at or after `i` that is not
      whitespace, or `|s|` if there is none. */
  function SkipLeading(s: string, i: nat): (n: nat)
    requires i <= |s|
    ensures i <= n <= |s|
    ensures forall j :: i <= j < n ==> IsWhitespace(s[j])
    ensures n == |s| || !IsWhitespace(s[n])
    decreases |s| - i
  {
    if i < |s| && IsWhitespace(s[i]) then SkipLeading(s, i + 1) else i
  }

  /** The index just past the last character before `j` that is not
      whitespace, or 0 if there is none. */
  function SkipTrailing(s: string, j: nat): (n: nat)
    requires j <= |s|
    ensures n <= j
    ensures forall k :: n <= k < j ==> IsWhitespace(s[k])
    ensures n == 0 || !IsWhitespace(s[n - 1])
  {
    if 0 < j && IsWhitespace(s[j - 1]) then SkipTrailing(s, j - 1) else j
  }

  /** `s.trim()`: `s` with whitespace removed from both ends. */
  function Trim(s: string): (r: string)
    ensures Trimmed(r)
    ensures |r| <= |s|
  {
    var a := SkipLeading(s, 0);
    var b := SkipTrailing(s, |s|);
    if a < b then s[a..b] else []
  }

  /** What `trim` removes is whitespace: `s` is the trimmed string with a
      run of whitespace in front of it and a run of whitespace behind it. */
  lemma TrimSplit(s: string) returns (lead: string, tail: string)
    ensures AllWhitespace(lead) && AllWhitespace(tail)
    ensures s == lead + Trim(s) + tail
  {
    var a := SkipLeading(s, 0);
    var b := SkipTrailing(s, |s|);
    if a < b {
      lead, tail := s[..a], s[b..];
      assert s == s[..a] + s[a..b] + s[b..];
    } else {
      assert a == |s|;
      lead, tail := s, [];
      assert s == s + [] + [];
    }
  }

  /** The number of UTF-16 code units JavaScript's `length` reports for `s`:
      a character outside the Basic Multilingual Plane takes two. */
  function Utf16Length(s: string): (n: nat)
    ensures |s| <= n <= 2 * |s|
    ensures n == 0 <==> s == []
  {
    if s == [] then 0
    else (if s[0] as int > 0xFFFF then 2 else 1) + Utf16Length(s[1..])
  }

  /** A string of Basic Multilingual Plane characters, such as a phone
      number, has one code unit per character. */
  lemma Utf16LengthOfBmp(s: string)
    requires forall i :: 0 <= i < |s| ==> s[i] as int <= 0xFFFF
    ensures Utf16Length(s) == |s|
  {
  }

  /** `trim` is determined by the core it leaves: padding a string with no
      whitespace at its ends by whitespace on either side trims back to it. */
  lemma TrimOfPadded(pre: string, t: string, post: string)
    requires AllWhitespace(pre) && AllWhitespace(post) && Trimmed(t)
    ensures Trim(pre + t + post) == t
  {
    var s := pre + t + post;
    var a := SkipLeading(s, 0);
    var b := SkipTrailing(s, |s|);
    forall j | 0 <= j < |pre| ensures s[j] == pre[j] { }
    forall j | |pre| + |t| <= j < |s| ensures s[j] == post[j - |pre| - |t|] { }
    if t == [] {
      assert a == |s|;
    } else {
      assert s[|pre|] == t[0];
      assert s[|pre| + |t| - 1] == t[|t| - 1];
      assert a == |pre|;
      assert b == |pre| + |t|;
      assert s[a..b] == t;
    }
  }

  /** Strings that differ only in surrounding whitespace trim to the same
      string. */
  lemma TrimIgnoresPadding(pre: string, s: string, post: string)
    requires AllWhitespace(pre) && AllWhitespace(post)
    ensures Trim(pre + s + post) == Trim(s)
  {
    var t := Trim(s);
    var lead, tail := TrimSplit(s);
    Regroup(pre, lead, t, tail, post);
    AllWhitespaceConcat(pre, lead);
    AllWhitespaceConcat(tail, post);
    TrimOfPadded(pre + lead, t, tail + post);
  }

  /** Trimming twice is trimming once. */
  lemma TrimIdempotent(s: string)
    ensures Trim(Trim(s)) == Trim(s)
  {
    var t := Trim(s);
    assert [] + t + [] == t;
    TrimOfPadded([], t, []);
  }

  /** A string of whitespace only trims to the empty string. */
  lemma TrimOfWhitespace(s: string)
    requires AllWhitespace(s)
    ensures Trim(s) == []
  {
    assert s + [] + [] == s;
    TrimOfPadded(s, [], []);
  }

  lemma AllWhitespaceConcat(a: string, b: string)
    requires AllWhitespace(a) && AllWhitespace(b)
    ensures AllWhitespace(a + b)
  {
    forall i | 0 <= i < |a + b| ensures IsWhitespace((a + b)[i]) {
      if i >= |a| { assert (a + b)[i] == b[i - |a|]; }
    }
  }

  lemma Regroup(pre: string, lead: string, t: string, tail: string, post: string)
    ensures pre + (lead + t + tail) + post == (pre + lead) + t + (tail + post)
  {
  }
}
