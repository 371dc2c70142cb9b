/**
 * Character classes and string helpers shared by the text pipeline.
 *
 * Python's regular-expression classes `\s`, `\w`, `\d` and `str.lower`
 * are Unicode-aware; here they are restricted to their ASCII members.
 */
module Text {

  /**
   * `clean_html`: BeautifulSoup's markup stripping.  Its behaviour lives in
   * the HTML parser, so it is taken to be the identity on text that
   * carries no markup.
   */
  function CleanHtml(raw: string): string
  {
    raw
  }

  /**
   * `\s` on a `str` pattern, and the characters `str.strip()` removes, within
   * ASCII: space, tab, line feed, carriage return, vertical tab, form feed,
   * and the four separators U+001C to U+001F.
   */
  predicate IsSpace(c: char)
  {
    c == ' ' || c == '\t' || c == '\n' || c == '\r' || c == '\U{0B}' || c == '\U{0C}'
    || ('\U{1C}' <= c <= '\U{1F}')
  }

  /** `\w`: letters, digits and the underscore. */
  predicate IsWordChar(c: char)
  {
    ('a' <= c <= 'z') || ('A' <= c <= 'Z') || ('0' <= c <= '9') || c == '_'
  }

  /** `\d`. */
  predicate IsDigit(c: char)
  {
    '0' <= c <= '9'
  }

  function ToLower(c: char): (d: char)
    ensures !('A' <= d <= 'Z')
    ensures !('A' <= c <= 'Z') ==> d == c
  {
    if 'A' <= c <= 'Z' then (c as int + 32) as char else c
  }

  /** `str.lower()`. */
  function Lower(s: string): (r: string)
    ensures |r| == |s|
    ensures forall i :: 0 <= i < |s| ==> r[i] == ToLower(s[i])
  {
    seq(|s|, i requires 0 <= i < |s| => ToLower(s[i]))
  }

  /** The characters of `s` that satisfy `keep`, in order. */
  function Filter(s: string, keep: char -> bool): (r: string)
    ensures |r| <= |s|
    ensures forall i :: 0 <= i < |r| ==> keep(r[i])
  {
    if s == [] then []
    else if keep(s[0]) then [s[0]] + Filter(s[1..], keep)
    else Filter(s[1..], keep)
  }

  lemma {:induction false} FilterAppend(a: string, b: string, keep: char -> bool)
    ensures Filter(a + b, keep) == Filter(a, keep) + Filter(b, keep)
  {
    if a != [] {
      assert (a + b)[0] == a[0] && (a + b)[1..] == a[1..] + b;
      FilterAppend(a[1..], b, keep);
    } else {
      assert a + b == b;
    }
  }

  /** Filtering by `keep` removes every character of `s` when none satisfies it. */
  lemma {:induction false} FilterNone(s: string, keep: char -> bool)
    requires forall i :: 0 <= i < |s| ==> !keep(s[i])
    ensures Filter(s, keep) == []
  {
    if s != [] {
      FilterNone(s[1..], keep);
    }
  }

  /** Filtering a string all of whose characters satisfy `keep` leaves it unchanged. */
  lemma {:induction false} FilterAll(s: string, keep: char -> bool)
    requires forall i :: 0 <= i < |s| ==> keep(s[i])
    ensures Filter(s, keep) == s
  {
    if s != [] {
      FilterAll(s[1..], keep);
    }
  }

  /** `s` without its longest prefix of characters satisfying `p`. */
  function DropWhile(s: string, p: char -> bool): (r: string)
    ensures |r| <= |s|
    ensures forall i :: 0 <= i < |s| - |r| ==> p(s[i])
    ensures r == [] || !p(r[0])
  {
    if s != [] && p(s[0]) then DropWhile(s[1..], p) else s
  }

  /** What `DropWhile` leaves is a suffix of `s`. */
  lemma {:induction false} DropWhileSuffix(s: string, p: char -> bool)
    ensures DropWhile(s, p) == s[|s| - |DropWhile(s, p)|..]
  {
    if s != [] && p(s[0]) {
      DropWhileSuffix(s[1..], p);
      assert s[1..][|s| - 1 - |DropWhile(s, p)|..] == s[|s| - |DropWhile(s, p)|..];
    }
  }

  /** `s` without its longest suffix of characters satisfying `p`. */
  function DropWhileEnd(s: string, p: char -> bool): (r: string)
    ensures |r| <= |s| && r == s[..|r|]
    ensures forall i :: |r| <= i < |s| ==> p(s[i])
    ensures r == [] || !p(r[|r| - 1])
  {
    if s != [] && p(s[|s| - 1]) then DropWhileEnd(s[..|s| - 1], p) else s
  }

  /** `str.strip()`: drops leading and trailing whitespace. */
  function Strip(s: string): (r: string)
    ensures |r| <= |s|
  {
    DropWhileEnd(DropWhile(s, IsSpace), IsSpace)
  }

  /** The stripped string is a slice of `s` with whitespace on neither end, and only whitespace is cut off. */
  lemma {:induction false} StripShape(s: string)
    ensures var r := Strip(s);
      r == [] || (!IsSpace(r[0]) && !IsSpace(r[|r| - 1]))
    ensures var r, a := Strip(s), |s| - |DropWhile(s, IsSpace)|;
      && a + |r| <= |s| && r == s[a..a + |r|]
      && (forall i :: 0 <= i < a ==> IsSpace(s[i]))
      && (forall i :: a + |r| <= i < |s| ==> IsSpace(s[i]))
  {
    DropWhileSuffix(s, IsSpace);
    StripSlice(s);
  }

  /** The stripped string is the slice of `s` after the leading whitespace. */
  lemma {:induction false} StripSlice(s: string)
    ensures var r, a := Strip(s), |s| - |DropWhile(s, IsSpace)|;
      a + |r| <= |s| && r == s[a..a + |r|]
  {
    var left := DropWhile(s, IsSpace);
    var r := DropWhileEnd(left, IsSpace);
    var a := |s| - |left|;
    DropWhileSuffix(s, IsSpace);
    assert left == s[a..];
    assert r == left[..|r|];
    assert s[a..][..|r|] == s[a..a + |r|];
  }

  /** Character `i` of the stripped string is character `a + i` of `s`, where `a` counts the leading whitespace. */
  lemma {:induction false} StripCharAt(s: string, i: nat)
    requires i < |Strip(s)|
    ensures var a := |s| - |DropWhile(s, IsSpace)|;
      a + i < |s| && Strip(s)[i] == s[a + i]
  {
    StripSlice(s);
  }

  /** A sequence is the concatenation of three consecutive slices of it. */
  lemma SliceSplit<T>(s: seq<T>, a: nat, b: nat)
    requires a <= b <= |s|
    ensures s == s[..a] + s[a..b] + s[b..]
  {
    assert s[..a] + s[a..b] == s[..b];
  }

  /** A string without surrounding whitespace is its own stripped form. */
  lemma {:induction false} StripUnpadded(s: string)
    requires s == [] || (!IsSpace(s[0]) && !IsSpace(s[|s| - 1]))
    ensures Strip(s) == s
  {
    StripShape(s);
  }

  /** `sub in s` for strings: `sub` occurs at some offset of `s`. */
  predicate Contains(s: string, sub: string)
  {
    exists i | 0 <= i <= |s| - |sub| :: OccursAt(s, sub, i)
  }

  predicate OccursAt(s: string, sub: string, i: nat)
    requires i + |sub| <= |s|
  {
    s[i..i + |sub|] == sub
  }

  predicate HasDigit(s: string)
  {
    exists i | 0 <= i < |s| :: IsDigit(s[i])
  }

  /** Python's slice `s[:k]`, where a negative `k` counts from the end. */
  function SliceTo<T>(s: seq<T>, k: int): (r: seq<T>)
    ensures r <= s
    ensures 0 <= k ==> |r| == if k < |s| then k else |s|
    ensures k < 0 ==> |r| == if -k < |s| then |s| + k else 0
  {
    if 0 <= k then (if k < |s| then s[..k] else s)
    else if -k < |s| then s[..|s| + k]
    else []
  }

  /** `sep.join(parts)`. */
  function Join(sep: string, parts: seq<string>): (r: string)
    ensures parts == [] ==> r == []
    ensures |parts| == 1 ==> r == parts[0]
  {
    if parts == [] then []
    else if |parts| == 1 then parts[0]
    else parts[0] + sep + Join(sep, parts[1..])
  }

  /** The last character of a join is the last character of its last part. */
  lemma {:induction false} JoinEndsWithLastPart(sep: string, parts: seq<string>)
    requires parts != [] && parts[|parts| - 1] != []
    ensures var r := Join(sep, parts); r != [] && r[|r| - 1] == parts[|parts| - 1][|parts[|parts| - 1]| - 1]
  {
    if |parts| > 1 {
      JoinEndsWithLastPart(sep, parts[1..]);
    }
  }
}
