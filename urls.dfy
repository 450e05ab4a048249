/** A URL as the pipeline uses it: everything before the query (scheme,
    host, path) as one string, and the query as an ordered list of
    name/value pairs with `URLSearchParams` semantics. Parsing is a partial
    function; percent-encoding is not modelled, so the serialised form is
    the plain concatenation. */
module Urls {
  import opened JsValues
  import opened JsStrings

  datatype Param = Param(key: string, value: string)

  datatype Url = Url(base: string, query: seq<Param>)

  predicate HasKey(q: seq<Param>, key: string) {
    exists i :: 0 <= i < |q| && q[i].key == key
  }

  /** `searchParams.get(key)`: the value of the first pair named `key`, or
      `null` (here `None`) when there is none. */
  function Get(q: seq<Param>, key: string): (r: Option<string>)
    ensures r.Some? <==> HasKey(q, key)
  {
    if q == [] then None
    else if q[0].key == key then Some(q[0].value)
    else
      var r := Get(q[1..], key);
      assert forall i :: 1 <= i < |q| ==> q[i] == q[1..][i - 1];
      assert HasKey(q[1..], key) ==> HasKey(q, key);
      r
  }

  /** The value found is that of the first pair with the name. */
  lemma {:induction false} GetIsFirst(q: seq<Param>, key: string)
    requires HasKey(q, key)
    ensures exists i :: 0 <= i < |q| && q[i] == Param(key, Get(q, key).value)
                        && forall j :: 0 <= j < i ==> q[j].key != key
  {
    if q[0].key == key {
      assert q[0] == Param(key, Get(q, key).value);
    } else {
      assert forall i :: 1 <= i < |q| ==> q[i] == q[1..][i - 1];
      assert HasKey(q[1..], key) by {
        var i :| 0 <= i < |q| && q[i].key == key;
        assert q[1..][i - 1].key == key;
      }
      GetIsFirst(q[1..], key);
      var i :| 0 <= i < |q[1..]| && q[1..][i] == Param(key, Get(q[1..], key).value)
               && forall j :: 0 <= j < i ==> q[1..][j].key != key;
      assert q[i + 1] == Param(key, Get(q, key).value);
      assert forall j :: 0 <= j < i + 1 ==> q[j].key != key;
    }
  }

  /** A lookup in a concatenation reads the first part when it has the key,
      and the second part otherwise. */
  lemma {:induction false} GetAppend(a: seq<Param>, b: seq<Param>, key: string)
    ensures Get(a + b, key) == if HasKey(a, key) then Get(a, key) else Get(b, key)
  {
    if a == [] {
      assert a + b == b;
    } else {
      assert (a + b)[1..] == a[1..] + b;
      GetAppend(a[1..], b, key);
    }
  }

  /** Exchanging two neighbouring pairs of different names changes no
      lookup. */
  lemma {:induction false} GetSwap(a: seq<Param>, x: Param, y: Param, b: seq<Param>, key: string)
    requires x.key != y.key
    ensures Get(a + [x, y] + b, key) == Get(a + [y, x] + b, key)
  {
    if a == [] {
      assert a + [x, y] + b == [x] + ([y] + b);
      assert a + [y, x] + b == [y] + ([x] + b);
      assert ([x] + ([y] + b))[1..] == [y] + b;
      assert ([y] + ([x] + b))[1..] == [x] + b;
      assert ([y] + b)[1..] == b;
      assert ([x] + b)[1..] == b;
    } else {
      assert (a + [x, y] + b)[1..] == a[1..] + [x, y] + b;
      assert (a + [y, x] + b)[1..] == a[1..] + [y, x] + b;
      GetSwap(a[1..], x, y, b, key);
    }
  }

  /** The pairs of `q` that are not named `key`, in order. */
  function RemoveKey(q: seq<Param>, key: string): (r: seq<Param>)
    ensures !HasKey(r, key)
    ensures forall k :: k != key ==> Get(r, k) == Get(q, k)
    ensures !HasKey(q, key) ==> r == q
    ensures forall p :: p in r ==> p in q
  {
    if q == [] then []
    else if q[0].key == key then RemoveKey(q[1..], key)
    else [q[0]] + RemoveKey(q[1..], key)
  }

  /** `searchParams.set(key, value)`: the first pair named `key` takes the
      new value and the other pairs of that name are removed; when there is
      none, the pair is appended. Pairs of other names keep their order. */
  function SetParam(q: seq<Param>, key: string, value: string): (r: seq<Param>)
    ensures Get(r, key) == Some(value)
    ensures forall k :: k != key ==> Get(r, k) == Get(q, k)
    ensures !HasKey(q, key) ==> r == q + [Param(key, value)]
  {
    if q == [] then [Param(key, value)]
    else if q[0].key == key then [Param(key, value)] + RemoveKey(q[1..], key)
    else
      var t := SetParam(q[1..], key, value);
      assert !HasKey(q, key) ==> !HasKey(q[1..], key);
      [q[0]] + t
  }

  /** `r` is `q` with its first pair named `key`, at index `i`, given the
      new value, and every later pair of that name removed. */
  ghost predicate ReplacedAt(q: seq<Param>, r: seq<Param>, key: string, value: string, i: int) {
    && 0 <= i < |q| && q[i].key == key && !HasKey(q[..i], key)
    && r == q[..i] + [Param(key, value)] + RemoveKey(q[i + 1..], key)
  }

  /** On a name already present, `set` keeps the position of its first pair
      and leaves no other pair of that name. */
  lemma {:induction false} SetParamReplacesFirst(q: seq<Param>, key: string, value: string)
    requires HasKey(q, key)
    ensures exists i :: ReplacedAt(q, SetParam(q, key, value), key, value, i)
  {
    if q[0].key == key {
      ReplacedAtHead(q, key, value);
    } else {
      HasKeyTail(q, key);
      SetParamReplacesFirst(q[1..], key, value);
      var j :| ReplacedAt(q[1..], SetParam(q[1..], key, value), key, value, j);
      ReplacedAtStep(q, key, value, j);
    }
  }

  lemma ReplacedAtHead(q: seq<Param>, key: string, value: string)
    requires q != [] && q[0].key == key
    ensures ReplacedAt(q, SetParam(q, key, value), key, value, 0)
  {
    var rest := RemoveKey(q[1..], key);
    assert SetParam(q, key, value) == [Param(key, value)] + rest;
    assert q[..0] == [] && !HasKey([], key);
    assert q[..0] + [Param(key, value)] + rest == [Param(key, value)] + rest;
  }

  lemma ReplacedAtStep(q: seq<Param>, key: string, value: string, j: int)
    requires q != [] && q[0].key != key
    requires ReplacedAt(q[1..], SetParam(q[1..], key, value), key, value, j)
    ensures ReplacedAt(q, SetParam(q, key, value), key, value, j + 1)
  {
    assert SetParam(q, key, value) == [q[0]] + SetParam(q[1..], key, value);
    assert q == [q[0]] + q[1..];
    ReplacedAtCons(q[0], q[1..], SetParam(q[1..], key, value), key, value, j);
  }

  lemma HasKeyTail(q: seq<Param>, key: string)
    requires HasKey(q, key) && q[0].key != key
    ensures HasKey(q[1..], key)
  {
    var k :| 0 <= k < |q| && q[k].key == key;
    assert q[1..][k - 1].key == key;
  }

  lemma ReplacedAtCons(x: Param, tail: seq<Param>, r: seq<Param>, key: string, value: string, j: int)
    requires x.key != key && ReplacedAt(tail, r, key, value, j)
    ensures ReplacedAt([x] + tail, [x] + r, key, value, j + 1)
  {
    var q := [x] + tail;
    assert q[..j + 1] == [x] + tail[..j];
    assert q[j + 2..] == tail[j + 1..];
    var pre, tailPre := q[..j + 1], tail[..j];
    assert forall k :: 0 <= k < j ==> pre[k + 1] == tailPre[k];
  }

  /** `set` introduces no pair other than the one it was given. */
  lemma {:induction false} SetParamMembers(q: seq<Param>, key: string, value: string)
    ensures forall p :: p in SetParam(q, key, value) ==> p in q || p == Param(key, value)
  {
    if q != [] && q[0].key != key {
      SetParamMembers(q[1..], key, value);
    }
  }

  lemma HasKeyAppend(q: seq<Param>, p: Param, key: string)
    ensures HasKey(q + [p], key) <==> HasKey(q, key) || p.key == key
  {
    if HasKey(q + [p], key) && p.key != key {
      var i :| 0 <= i < |q + [p]| && (q + [p])[i].key == key;
      assert q[i].key == key;
    }
    if HasKey(q, key) {
      var i :| 0 <= i < |q| && q[i].key == key;
      assert (q + [p])[i].key == key;
    }
    if p.key == key {
      assert (q + [p])[|q|].key == key;
    }
  }

  /** `url.searchParams.set(key, value)` on a whole URL. */
  function Set(u: Url, key: string, value: string): (r: Url)
    ensures r.base == u.base
    ensures Get(r.query, key) == Some(value)
    ensures forall k :: k != key ==> Get(r.query, k) == Get(u.query, k)
  {
    u.(query := SetParam(u.query, key, value))
  }

  // ---------------------------------------------------------------------
  // Serialising and parsing

  predicate IsAsciiAlpha(c: char) {
    ('a' <= c <= 'z') || ('A' <= c <= 'Z')
  }

  predicate IsSchemeChar(c: char) {
    IsAsciiAlpha(c) || ('0' <= c <= '9') || c == '+' || c == '-' || c == '.'
  }

  /** The string starts with a scheme: an ASCII letter, then letters, digits,
      `+`, `-` or `.`, then `:`. Without one, `new URL(s)` throws. */
  predicate HasScheme(s: string) {
    var i := IndexOf(s, ':');
    0 < i < |s| && IsAsciiAlpha(s[0]) && forall k :: 1 <= k < i ==> IsSchemeChar(s[k])
  }

  /** One query pair as it appears in the serialised URL. */
  function Piece(p: Param): string {
    p.key + "=" + p.value
  }

  /** The query string: the pieces joined by `&`. */
  function Join(q: seq<Param>): string {
    if q == [] then ""
    else if |q| == 1 then Piece(q[0])
    else Piece(q[0]) + "&" + Join(q[1..])
  }

  /** `url.toString()`. */
  function ToString(u: Url): (r: string)
    ensures |r| >= |u.base| && r[..|u.base|] == u.base
    ensures u.query == [] <==> r == u.base
  {
    if u.query == [] then u.base else u.base + "?" + Join(u.query)
  }

  /** Splits `s` at every `c`. */
  function Split(s: string, c: char): (r: seq<string>)
    ensures |r| >= 1
    decreases |s|
  {
    var i := IndexOf(s, c);
    if i == |s| then [s] else [s[..i]] + Split(s[i + 1..], c)
  }

  /** One `name=value` sequence of a query; without `=` the value is empty. */
  function ParsePair(piece: string): Param {
    var i := IndexOf(piece, '=');
    if i == |piece| then Param(piece, "") else Param(piece[..i], piece[i + 1..])
  }

  /** The pairs of a split query; empty sequences are skipped. */
  function ParsePieces(pieces: seq<string>): seq<Param> {
    if pieces == [] then []
    else if pieces[0] == "" then ParsePieces(pieces[1..])
    else [ParsePair(pieces[0])] + ParsePieces(pieces[1..])
  }

  function ParseQuery(qs: string): seq<Param> {
    ParsePieces(Split(qs, '&'))
  }

  /** `new URL(s)`: `None` where the constructor throws. The fragment is
      dropped; the query is what follows the first `?`. */
  function Parse(s: string): (r: Option<Url>)
    ensures r.Some? <==> HasScheme(s)
  {
    if !HasScheme(s) then None
    else
      var h := s[..IndexOf(s, '#')];
      var q := IndexOf(h, '?');
      if q == |h| then Some(Url(h, []))
      else Some(Url(h[..q], ParseQuery(h[q + 1..])))
  }

  /** The characters a URL may carry without percent-encoding in this model. */
  predicate ParamWellFormed(p: Param) {
    '&' !in p.key && '=' !in p.key && '#' !in p.key && '&' !in p.value && '#' !in p.value
  }

  predicate WellFormed(u: Url) {
    && HasScheme(u.base) && '?' !in u.base && '#' !in u.base
    && forall i :: 0 <= i < |u.query| ==> ParamWellFormed(u.query[i])
  }

  lemma PieceFacts(p: Param)
    requires ParamWellFormed(p)
    ensures '#' !in Piece(p) && '&' !in Piece(p) && '=' in Piece(p)
    ensures ParsePair(Piece(p)) == p
  {
    assert Piece(p) == p.key + ['='] + p.value;
    assert Piece(p)[|p.key|] == '=';
    IndexOfSeparator(p.key, '=', p.value);
  }

  lemma SplitNoSeparator(a: string, c: char)
    requires c !in a
    ensures Split(a, c) == [a]
  {
  }

  lemma SplitAtSeparator(a: string, c: char, b: string)
    requires c !in a
    ensures Split(a + [c] + b, c) == [a] + Split(b, c)
  {
    var s := a + [c] + b;
    IndexOfSeparator(a, c, b);
    assert s[..|a|] == a;
    assert s[|a| + 1..] == b;
  }

  /** Parsing the query string of a well-formed list gives the list back. */
  lemma {:induction false} ParseJoin(q: seq<Param>)
    requires forall i :: 0 <= i < |q| ==> ParamWellFormed(q[i])
    ensures '#' !in Join(q)
    ensures q != [] ==> ParseQuery(Join(q)) == q
  {
    if q == [] {
    } else {
      var a := Piece(q[0]);
      PieceFacts(q[0]);
      assert a != "";
      if |q| == 1 {
        SplitNoSeparator(a, '&');
        assert ParsePieces([a]) == [ParsePair(a)] + ParsePieces([]);
      } else {
        var b := Join(q[1..]);
        ParseJoin(q[1..]);
        assert Join(q) == a + ['&'] + b;
        SplitAtSeparator(a, '&', b);
        var pieces := [a] + Split(b, '&');
        assert pieces[1..] == Split(b, '&');
        assert ParsePieces(pieces) == [ParsePair(a)] + ParsePieces(Split(b, '&'));
      }
    }
  }

  lemma HasSchemeAppend(a: string, b: string)
    requires HasScheme(a)
    ensures HasScheme(a + b)
  {
    assert a[IndexOf(a, ':')] == ':';
    IndexOfAppend(a, b, ':');
    assert forall k :: 0 <= k < |a| ==> (a + b)[k] == a[k];
  }

  lemma ParseWithQuery(base: string, j: string)
    requires HasScheme(base) && '?' !in base && '#' !in base && '#' !in j
    ensures Parse(base + ['?'] + j) == Some(Url(base, ParseQuery(j)))
  {
    var s := base + ['?'] + j;
    HasSchemeAppend(base, ['?'] + j);
    assert s == base + (['?'] + j);
    assert '#' !in s;
    var h := s[..IndexOf(s, '#')];
    assert h == s;
    IndexOfSeparator(base, '?', j);
    assert s[..|base|] == base;
    assert s[|base| + 1..] == j;
  }

  /** `new URL(url.toString())` is a copy of a well-formed URL. */
  lemma ParseToString(u: Url)
    requires WellFormed(u)
    ensures Parse(ToString(u)) == Some(u)
  {
    ParseJoin(u.query);
    if u.query != [] {
      ParseWithQuery(u.base, Join(u.query));
    } else {
      assert u.base[..IndexOf(u.base, '#')] == u.base;
    }
  }
}
