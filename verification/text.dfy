/** The string primitives the tutor relies on: JavaScript's `trim`, `toLowerCase`
    and `includes`, and the character classes of its regular expressions. */
module Text {

  /** The WhiteSpace and LineTerminator code points of ECMAScript: what `trim`
      strips and what the regular-expression class `\s` matches. */
  predicate IsSpace(c: char) {
    var n := c as int;
    || (0x09 <= n <= 0x0D) || n == 0x20 || n == 0xA0 || n == 0x1680
    || (0x2000 <= n <= 0x200A) || n == 0x2028 || n == 0x2029
    || n == 0x202F || n == 0x205F || n == 0x3000 || n == 0xFEFF
  }

  /** The characters a regular-expression `.` refuses to match. */
  predicate IsLineTerminator(c: char) {
    var n := c as int;
    n == 0x0A || n == 0x0D || n == 0x2028 || n == 0x2029
  }

  predicate AllSpace(s: string) {
    forall i :: 0 <= i < |s| ==> IsSpace(s[i])
  }

  /** `s` with its leading white space removed. */
  function TrimStart(s: string): (r: string)
    ensures |r| <= |s| && r == s[|s| - |r|..]
    ensures forall i :: 0 <= i < |s| - |r| ==> IsSpace(s[i])
    ensures r == [] || !IsSpace(r[0])
  {
    if |s| > 0 && IsSpace(s[0]) then
      var r := TrimStart(s[1..]);
      assert s[1..][|s| - 1 - |r|..] == s[|s| - |r|..];
      assert forall i :: 1 <= i < |s| - |r| ==> s[i] == s[1..][i - 1];
      r
    else s
  }

  /** `s` with its trailing white space removed. */
  function TrimEnd(s: string): (r: string)
    ensures |r| <= |s| && r == s[..|r|]
    ensures forall i :: |r| <= i < |s| ==> IsSpace(s[i])
    ensures r == [] || !IsSpace(r[|r| - 1])
  {
    if |s| > 0 && IsSpace(s[|s| - 1]) then
      var r := TrimEnd(s[..|s| - 1]);
      assert s[..|s| - 1][..|r|] == s[..|r|];
      assert forall i :: |r| <= i < |s| - 1 ==> s[i] == s[..|s| - 1][i];
      r
    else s
  }

  /** JavaScript's `String.prototype.trim`: the contiguous middle of `s` that
      neither starts nor ends with white space; empty exactly when `s` is all
      white space. */
  function Trim(s: string): (r: string)
    ensures |r| <= |s|
    ensures r == [] <==> AllSpace(s)
    ensures r != [] ==> !IsSpace(r[0]) && !IsSpace(r[|r| - 1])
  {
    var e := TrimEnd(s);
    var r := TrimStart(e);
    TrimParts(s, e, r);
    r
  }

  lemma TrimParts(s: string, e: string, r: string)
    requires e == TrimEnd(s) && r == TrimStart(e)
    ensures r == s[|e| - |r|..|e|]
    ensures r == [] <==> AllSpace(s)
    ensures r != [] ==> !IsSpace(r[0]) && !IsSpace(r[|r| - 1])
  {
    assert r == s[|e| - |r|..|e|] by {
      assert e == s[..|e|];
    }
    if r == [] {
      assert e == [];
    } else {
      assert r[0] == s[|e| - |r|];
      assert r[|r| - 1] == e[|e| - 1];
    }
  }

  /** A string that neither starts nor ends with white space is its own trim. */
  lemma TrimKeepsInnerText(s: string)
    requires s != [] && !IsSpace(s[0]) && !IsSpace(s[|s| - 1])
    ensures Trim(s) == s
  {
    assert TrimEnd(s) == s;
    assert TrimStart(s) == s;
  }

  /** Lower-case mapping of one character: the ASCII and Latin-1 capitals. */
  function LowerChar(c: char): char {
    var n := c as int;
    if 0x41 <= n <= 0x5A || (0xC0 <= n <= 0xDE && n != 0xD7) then (n + 0x20) as char
    else c
  }

  /** `String.prototype.toLowerCase`, restricted to `LowerChar`. */
  function Lower(s: string): (r: string)
    ensures |r| == |s|
    ensures forall i :: 0 <= i < |s| ==> r[i] == LowerChar(s[i])
  {
    seq(|s|, i requires 0 <= i < |s| => LowerChar(s[i]))
  }

  /** The UTF-16 code units of one character, as JavaScript stores it: one
      unit up to U+FFFF, otherwise a high and a low surrogate. */
  function Units(c: char): (u: seq<int>)
    ensures |u| == if c as int < 0x10000 then 1 else 2
    ensures forall i :: 0 <= i < |u| ==> 0 <= u[i] < 0x10000
    ensures |u| == 1 ==> u[0] == c as int
    ensures |u| == 2 ==>
      && 0xD800 <= u[0] < 0xDC00 && 0xDC00 <= u[1] < 0xE000
      && 0x10000 + (u[0] - 0xD800) * 0x400 + (u[1] - 0xDC00) == c as int
  {
    var n := c as int;
    if n < 0x10000 then [n]
    else [0xD800 + (n - 0x10000) / 0x400, 0xDC00 + (n - 0x10000) % 0x400]
  }

  /** A string as JavaScript's `length` and `charAt` see it: its UTF-16 code
      units. */
  function Utf16(s: string): (u: seq<int>)
    ensures |s| <= |u| <= 2 * |s|
    ensures forall i :: 0 <= i < |u| ==> 0 <= u[i] < 0x10000
    decreases |s|
  {
    if s == [] then [] else Units(s[0]) + Utf16(s[1..])
  }

  /** Code units concatenate as the strings do. */
  lemma {:induction false} Utf16Concat(a: string, b: string)
    ensures Utf16(a + b) == Utf16(a) + Utf16(b)
    decreases |a|
  {
    if a == [] {
      assert a + b == b;
    } else {
      assert (a + b)[0] == a[0] && (a + b)[1..] == a[1..] + b;
      Utf16Concat(a[1..], b);
      assert Utf16(a + b) == Units(a[0]) + (Utf16(a[1..]) + Utf16(b));
    }
  }

  /** A string of characters up to U+FFFF has one code unit per character,
      equal to the character's code. */
  lemma {:induction false} BasicPlaneIsOneUnitEach(s: string)
    requires forall i :: 0 <= i < |s| ==> s[i] as int < 0x10000
    ensures |Utf16(s)| == |s|
    ensures forall i :: 0 <= i < |s| ==> Utf16(s)[i] == s[i] as int
    decreases |s|
  {
    if s != [] {
      BasicPlaneIsOneUnitEach(s[1..]);
      assert forall i :: 1 <= i < |s| ==> Utf16(s)[i] == Utf16(s[1..])[i - 1];
    }
  }

  /** `p` occurs in `s` starting at index `k`. */
  predicate PrefixAt(s: string, p: string, k: int) {
    0 <= k && k + |p| <= |s| && s[k..k + |p|] == p
  }

  /** `String.prototype.includes`: `p` occurs somewhere in `s`. */
  predicate Contains(s: string, p: string) {
    exists k :: 0 <= k <= |s| - |p| && PrefixAt(s, p, k)
  }

  /** The left-to-right scan `includes` performs. */
  method Includes(s: string, p: string) returns (found: bool)
    ensures found <==> Contains(s, p)
  {
    var k := 0;
    while k <= |s| - |p|
      invariant 0 <= k
      invariant forall j :: 0 <= j < k ==> !PrefixAt(s, p, j)
    {
      if s[k..k + |p|] == p {
        assert PrefixAt(s, p, k);
        return true;
      }
      k := k + 1;
    }
    return false;
  }

  /** `s` contains the lower-cased form of phrase `i`. */
  predicate ContainsLowered(s: string, phrases: seq<string>, i: int)
    requires 0 <= i < |phrases|
  {
    Contains(s, Lower(phrases[i]))
  }

  /** `phrases.some(p => s.includes(p.toLowerCase()))`, scanning in order and
      stopping at the first hit. */
  method IncludesAnyLowered(s: string, phrases: seq<string>) returns (found: bool)
    ensures found <==> exists j :: 0 <= j < |phrases| && ContainsLowered(s, phrases, j)
  {
    found := false;
    var i := 0;
    while i < |phrases| && !found
      invariant 0 <= i <= |phrases|
      invariant found <==> exists j :: 0 <= j < i && ContainsLowered(s, phrases, j)
    {
      found := Includes(s, Lower(phrases[i]));
      assert found <==> ContainsLowered(s, phrases, i);
      i := i + 1;
    }
  }
}
