/** The few `String.prototype` operations the pipeline relies on, with the
    characteristic property of each stated as its contract. */
module JsStrings {

  /** The characters `String.prototype.trim` removes: the WhiteSpace and
      LineTerminator productions of ECMAScript (tab, vertical tab, form
      feed, space, no-break space, the byte order mark, the other Zs
      space separators, LF, CR, and the line and paragraph separators). */
  predicate IsJsWhiteSpace(c: char) {
    || ('\t' <= c <= '\r') || c == ' ' || c == '\U{00A0}' || c == '\U{1680}'
    || ('\U{2000}' <= c <= '\U{200A}')
    || c == '\U{2028}' || c == '\U{2029}' || c == '\U{202F}' || c == '\U{205F}'
    || c == '\U{3000}' || c == '\U{FEFF}'
  }

  ghost predicate AllWhite(s: string) {
    forall k :: 0 <= k < |s| ==> IsJsWhiteSpace(s[k])
  }

  /** The index of the first character at or after `from` that is not
      white space, or `|s|`. */
  function FirstNonWhite(s: string, from: nat): (i: nat)
    requires from <= |s|
    ensures from <= i <= |s|
    ensures forall k :: from <= k < i ==> IsJsWhiteSpace(s[k])
    ensures i == |s| || !IsJsWhiteSpace(s[i])
    decreases |s| - from
  {
    if from == |s| || !IsJsWhiteSpace(s[from]) then from else FirstNonWhite(s, from + 1)
  }

  /** The index just after the last character before `to` that is not
      white space, or 0. */
  function LastNonWhite(s: string, to: nat): (j: nat)
    requires to <= |s|
    ensures j <= to
    ensures forall k :: j <= k < to ==> IsJsWhiteSpace(s[k])
    ensures j == 0 || !IsJsWhiteSpace(s[j - 1])
  {
    if to == 0 || !IsJsWhiteSpace(s[to - 1]) then to else LastNonWhite(s, to - 1)
  }

  /** Drops leading white space: the result is the longest suffix of `s`
      that does not start with white space. */
  function TrimStart(s: string): (r: string)
    ensures |r| <= |s| && r == s[|s| - |r|..]
    ensures AllWhite(s[..|s| - |r|])
    ensures r == [] || !IsJsWhiteSpace(r[0])
  {
    var i := FirstNonWhite(s, 0);
    assert forall k :: 0 <= k < i ==> s[..i][k] == s[k];
    s[i..]
  }

  /** Drops trailing white space: the result is the longest prefix of `s`
      that does not end with white space. */
  function TrimEnd(s: string): (r: string)
    ensures |r| <= |s| && r == s[..|r|]
    ensures AllWhite(s[|r|..])
    ensures r == [] || !IsJsWhiteSpace(r[|r| - 1])
  {
    var j := LastNonWhite(s, |s|);
    assert forall k :: 0 <= k < |s| - j ==> s[j..][k] == s[j + k];
    s[..j]
  }

  /** `r` occurs in `s` at `i`, with nothing but white space before and
      after it. */
  ghost predicate IsInfixAt(s: string, r: string, i: int) {
    0 <= i <= |s| - |r| && r == s[i..i + |r|] && AllWhite(s[..i]) && AllWhite(s[i + |r|..])
  }

  /** `String.prototype.trim`: the infix of `s` that is left after removing
      white space at both ends; it neither starts nor ends with white space. */
  function Trim(s: string): (r: string)
    ensures exists i :: IsInfixAt(s, r, i)
    ensures r == [] || (!IsJsWhiteSpace(r[0]) && !IsJsWhiteSpace(r[|r| - 1]))
  {
    var t := TrimStart(s);
    var r := TrimEnd(t);
    TrimInfix(s, t, r);
    r
  }

  /** Stripping a white prefix and then a white suffix leaves an infix
      with no white space at either end. */
  lemma TrimInfix(s: string, t: string, r: string)
    requires |t| <= |s| && t == s[|s| - |t|..] && AllWhite(s[..|s| - |t|])
    requires t == [] || !IsJsWhiteSpace(t[0])
    requires |r| <= |t| && r == t[..|r|] && AllWhite(t[|r|..])
    requires r == [] || !IsJsWhiteSpace(r[|r| - 1])
    ensures exists i :: IsInfixAt(s, r, i)
    ensures r == [] || (!IsJsWhiteSpace(r[0]) && !IsJsWhiteSpace(r[|r| - 1]))
  {
    var i := |s| - |t|;
    assert r == s[i..i + |r|];
    assert s[i + |r|..] == t[|r|..];
    assert r != [] ==> r[0] == t[0];
    assert IsInfixAt(s, r, i);
  }

  /** Trimming twice is trimming once. */
  lemma TrimIdempotent(s: string)
    ensures Trim(Trim(s)) == Trim(s)
  {
    var r := Trim(s);
    assert r == [] || (!IsJsWhiteSpace(r[0]) && !IsJsWhiteSpace(r[|r| - 1]));
    TrimStartNoOp(r);
    TrimEndNoOp(r);
  }

  lemma TrimStartNoOp(s: string)
    requires s == [] || !IsJsWhiteSpace(s[0])
    ensures TrimStart(s) == s
  {
  }

  lemma TrimEndNoOp(s: string)
    requires s == [] || !IsJsWhiteSpace(s[|s| - 1])
    ensures TrimEnd(s) == s
  {
  }

  /** The trimmed text is empty exactly when the input is all white space. */
  lemma TrimEmptyIffAllWhite(s: string)
    ensures Trim(s) == [] <==> AllWhite(s)
  {
    if AllWhite(s) {
      assert FirstNonWhite(s, 0) == |s|;
    }
  }

  /** ASCII lower-casing of one character. */
  function LowerAscii(c: char): (r: char)
    ensures 'A' <= c <= 'Z' ==> r as int == c as int + 32
    ensures !('A' <= c <= 'Z') ==> r == c
  {
    if 'A' <= c <= 'Z' then (c as int + 32) as char else c
  }

  /** `toLowerCase` restricted to the ASCII letters; every other character
      is kept. */
  function ToLowerAscii(s: string): (r: string)
    ensures |r| == |s|
    ensures forall k :: 0 <= k < |s| ==> r[k] == LowerAscii(s[k])
  {
    seq(|s|, k requires 0 <= k < |s| => LowerAscii(s[k]))
  }

  /** `p` occurs in `s` starting at index `i`. */
  predicate OccursAt(s: string, p: string, i: nat) {
    i + |p| <= |s| && s[i..i + |p|] == p
  }

  lemma OccursAtTail(s: string, p: string, i: nat)
    requires 0 < i && s != []
    ensures OccursAt(s, p, i) == OccursAt(s[1..], p, i - 1)
  {
    if i + |p| <= |s| {
      assert s[i..i + |p|] == s[1..][i - 1..i - 1 + |p|];
    }
  }

  /** `s.includes(p)`: `p` occurs in `s` as a contiguous run. */
  function Contains(s: string, p: string): (r: bool)
    ensures r <==> exists i: nat :: OccursAt(s, p, i)
    decreases |s|
  {
    if |p| > |s| then false
    else if s[..|p|] == p then
      assert OccursAt(s, p, 0);
      true
    else
      var r := Contains(s[1..], p);
      assert !OccursAt(s, p, 0);
      forall i: nat | 0 < i
        ensures OccursAt(s, p, i) == OccursAt(s[1..], p, i - 1)
      {
        OccursAtTail(s, p, i);
      }
      if r then
        var i: nat :| OccursAt(s[1..], p, i);
        assert OccursAt(s, p, i + 1);
        r
      else r
  }

  /** The index of the first `c` in `s`, or `|s|` when there is none. */
  function IndexOf(s: string, c: char): (r: nat)
    ensures r <= |s|
    ensures r < |s| ==> s[r] == c
    ensures forall k :: 0 <= k < r ==> s[k] != c
    ensures r == |s| <==> c !in s
  {
    if s == [] then 0
    else if s[0] == c then 0
    else 1 + IndexOf(s[1..], c)
  }

  /** The first `c` of a concatenation lies in its first part when that
      part holds a `c`. */
  lemma IndexOfAppend(a: string, b: string, c: char)
    requires c in a
    ensures IndexOf(a + b, c) == IndexOf(a, c)
  {
    var i := IndexOf(a, c);
    var j := IndexOf(a + b, c);
    assert (a + b)[i] == c;
    if j < i {
      assert a[j] == (a + b)[j];
    }
  }

  /** The first `c` of `a + [c] + b` is the separator when `a` holds none. */
  lemma IndexOfSeparator(a: string, c: char, b: string)
    requires c !in a
    ensures IndexOf(a + [c] + b, c) == |a|
  {
    var s := a + [c] + b;
    var j := IndexOf(s, c);
    assert s[|a|] == c;
  }

  /** The UTF-16 code units of a character (`charCodeAt` reads these). */
  function Utf16Units(c: char): (r: seq<int>)
    ensures 1 <= |r| <= 2
    ensures forall k :: 0 <= k < |r| ==> 0 <= r[k] < 0x1_0000
    ensures |r| == 1 <==> c as int < 0x1_0000
    ensures |r| == 1 ==> r[0] == c as int
  {
    var v := c as int;
    if v < 0x1_0000 then [v]
    else [0xD800 + (v - 0x1_0000) / 0x400, 0xDC00 + (v - 0x1_0000) % 0x400]
  }

  /** The string as JavaScript stores it: a sequence of UTF-16 code units. */
  function Utf16(s: string): (r: seq<int>)
    ensures |r| >= |s|
    ensures forall k :: 0 <= k < |r| ==> 0 <= r[k] < 0x1_0000
    ensures (forall k :: 0 <= k < |s| ==> s[k] as int < 0x1_0000) ==> |r| == |s|
  {
    if s == [] then [] else Utf16Units(s[0]) + Utf16(s[1..])
  }

  /** A string of Basic Multilingual Plane characters is stored as its own
      code points, one unit per character. */
  lemma {:induction false} Utf16OfBmp(s: string)
    requires forall k :: 0 <= k < |s| ==> s[k] as int < 0x1_0000
    ensures |Utf16(s)| == |s|
    ensures forall k :: 0 <= k < |s| ==> Utf16(s)[k] == s[k] as int
  {
    if s != [] {
      assert forall k :: 1 <= k < |s| ==> s[k] == s[1..][k - 1];
      Utf16OfBmp(s[1..]);
      assert Utf16(s) == [s[0] as int] + Utf16(s[1..]);
    }
  }

  /** `s.length`: the number of UTF-16 code units. */
  function JsLength(s: string): nat {
    |Utf16(s)|
  }

  function DigitChar(d: nat): (c: char)
    requires d < 10
    ensures '0' <= c <= '9' && c as int - '0' as int == d
  {
    ('0' as int + d) as char
  }

  /** `String(n)` for a non-negative integer: its decimal digits, most
      significant first, with no leading zero. */
  function NatToString(n: nat): (r: string)
    ensures r != []
    ensures forall k :: 0 <= k < |r| ==> '0' <= r[k] <= '9'
    ensures |r| > 1 ==> r[0] != '0'
    ensures DecimalValue(r) == n
  {
    if n < 10 then [DigitChar(n)]
    else
      var p := NatToString(n / 10);
      DecimalValueSnoc(p, DigitChar(n % 10));
      p + [DigitChar(n % 10)]
  }

  /** The number a string of decimal digits denotes. */
  function DecimalValue(s: string): int {
    if s == [] then 0
    else 10 * DecimalValue(s[..|s| - 1]) + (s[|s| - 1] as int - '0' as int)
  }

  lemma DecimalValueSnoc(s: string, c: char)
    ensures DecimalValue(s + [c]) == 10 * DecimalValue(s) + (c as int - '0' as int)
  {
    assert (s + [c])[..|s|] == s;
  }
}
