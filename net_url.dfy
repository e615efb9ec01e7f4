/** The form encoding of Go's `net/url` as the beacon producer and parser use it:
    `QueryEscape`/`QueryUnescape`, `Values.Set`, `Values.Encode`, `Query()` (that is,
    `ParseQuery`) with `Values.Get`, and the part of `url.Parse` that decides whether a
    beacon's query text is accepted.

    `url.Values` is a `map[string][]string`. Here it is a list of key/value pairs in the
    order the values were added; `Get` returns the first value listed under a key, which
    is what Go's `Get` returns (the first element of that key's slice). */
module NetUrl {
  import opened GoStrings

  datatype Option<T> = None | Some(value: T)

  type Values = seq<(string, string)>

  // ---------------------------------------------------------------------------
  // Percent encoding
  // ---------------------------------------------------------------------------

  /** The unreserved bytes of section 2.3 of RFC 3986; `QueryEscape` keeps exactly these. */
  predicate IsUnreserved(c: char) {
    ('A' <= c <= 'Z') || ('a' <= c <= 'z') || ('0' <= c <= '9')
    || c == '-' || c == '_' || c == '.' || c == '~'
  }

  predicate IsHex(c: char) {
    ('0' <= c <= '9') || ('a' <= c <= 'f') || ('A' <= c <= 'F')
  }

  function HexValue(c: char): (v: nat)
    requires IsHex(c)
    ensures v < 16
  {
    if c <= '9' then c as int - '0' as int
    else if c <= 'F' then c as int - 'A' as int + 10
    else c as int - 'a' as int + 10
  }

  /** Upper-case hexadecimal digit, as section 2.1 of RFC 3986 recommends. */
  function UpperHex(d: nat): (c: char)
    requires d < 16
    ensures IsHex(c) && HexValue(c) == d && IsUnreserved(c)
  {
    if d < 10 then (d + '0' as int) as char else (d - 10 + 'A' as int) as char
  }

  /** A byte of `QueryEscape`'s output. */
  predicate IsEscapedByte(c: char) {
    IsUnreserved(c) || c == '%' || c == '+'
  }

  /** One byte of `QueryEscape`. A Go string holds bytes only; a char above 255 never
      reaches here in the model's use, and is written as the escape of its low byte. */
  function EscapeByte(c: char): (r: string)
    ensures forall i :: 0 <= i < |r| ==> IsEscapedByte(r[i])
  {
    if IsUnreserved(c) then [c]
    else if c == ' ' then "+"
    else ['%', UpperHex(c as int / 16 % 16), UpperHex(c as int % 16)]
  }

  /** `url.QueryEscape`: unreserved bytes stay, a space becomes '+', every other byte
      becomes '%' and two upper-case hexadecimal digits. */
  function QueryEscape(s: string): string
    decreases s, 1
  {
    if s == [] then [] else EscapeHead(s)
  }

  /** The first byte escaped, then the rest: the step of `QueryEscape`. */
  function EscapeHead(s: string): string
    requires s != []
    decreases s, 0
  {
    EscapeByte(s[0]) + QueryEscape(s[1..])
  }

  /** Escaped text holds only unreserved bytes, '%' and '+'. */
  lemma {:induction false} QueryEscapeBytes(s: string)
    requires IsByteString(s)
    ensures forall i :: 0 <= i < |QueryEscape(s)| ==> IsEscapedByte(QueryEscape(s)[i])
  {
    if s != [] {
      QueryEscapeBytes(s[1..]);
      var e, t := EscapeByte(s[0]), QueryEscape(s[1..]);
      assert forall i :: 0 <= i < |e + t| ==> (e + t)[i] == if i < |e| then e[i] else t[i - |e|];
    }
  }

  /** Text made of unreserved bytes only is left as it is by escaping. */
  lemma {:induction false} QueryEscapeUnreserved(s: string)
    requires forall i :: 0 <= i < |s| ==> IsUnreserved(s[i])
    ensures IsByteString(s) && QueryEscape(s) == s
  {
    if s != [] {
      QueryEscapeUnreserved(s[1..]);
      assert s == [s[0]] + s[1..];
    }
  }

  function Prepend(c: char, r: Option<string>): Option<string> {
    match r
    case None => None
    case Some(t) => Some([c] + t)
  }

  /** `url.QueryUnescape`: '%' with two hexadecimal digits is one byte, '+' a space;
      a '%' without two hexadecimal digits after it is an error. */
  function QueryUnescape(s: string): (r: Option<string>)
    decreases |s|
  {
    if s == [] then Some([])
    else if s[0] == '%' then
      if |s| < 3 || !IsHex(s[1]) || !IsHex(s[2]) then None
      else Prepend((HexValue(s[1]) * 16 + HexValue(s[2])) as char, QueryUnescape(s[3..]))
    else Prepend(if s[0] == '+' then ' ' else s[0], QueryUnescape(s[1..]))
  }

  lemma UnescapeEscapedByte(c: char, t: string)
    requires c as int < 256
    ensures QueryUnescape(EscapeByte(c) + t) == Prepend(c, QueryUnescape(t))
  {
  }

  /** Unescaping inverts escaping on every byte string. */
  lemma {:induction false} UnescapeEscape(s: string)
    requires IsByteString(s)
    ensures QueryUnescape(QueryEscape(s)) == Some(s)
  {
    if s != [] {
      UnescapeEscapedByte(s[0], QueryEscape(s[1..]));
      UnescapeEscape(s[1..]);
      assert s == [s[0]] + s[1..];
    }
  }

  // ---------------------------------------------------------------------------
  // Values: Set and Get
  // ---------------------------------------------------------------------------

  predicate IsByteValues(v: Values) {
    forall i :: 0 <= i < |v| ==> IsByteString(v[i].0) && IsByteString(v[i].1)
  }

  /** `v.Get(key)`: the first value under `key`, or "" when there is none. */
  function Get(v: Values, key: string): string {
    if v == [] then "" else if v[0].0 == key then v[0].1 else Get(v[1..], key)
  }

  /** The pairs of `v` whose key is not `key`, in order. */
  function RemoveKey(v: Values, key: string): (r: Values)
    ensures |r| <= |v|
    ensures forall i :: 0 <= i < |r| ==> r[i].0 != key
    ensures IsByteValues(v) ==> IsByteValues(r)
  {
    if v == [] then []
    else if v[0].0 == key then RemoveKey(v[1..], key)
    else [v[0]] + RemoveKey(v[1..], key)
  }

  /** Removing one key leaves the first value of every other key as it was. */
  lemma {:induction false} RemoveKeyGet(v: Values, key: string, k: string)
    requires k != key
    ensures Get(RemoveKey(v, key), k) == Get(v, k)
  {
    if v != [] {
      RemoveKeyGet(v[1..], key, k);
    }
  }

  /** `v.Set(key, value)`: `key` now holds `value` alone; other keys are untouched. */
  function Set(v: Values, key: string, value: string): (r: Values)
    ensures IsByteValues(v) && IsByteString(key) && IsByteString(value) ==> IsByteValues(r)
  {
    [(key, value)] + RemoveKey(v, key)
  }

  /** After `Set`, `Get` finds the new value under `key` and the old ones elsewhere. */
  lemma SetGet(v: Values, key: string, value: string, k: string)
    ensures Get(Set(v, key, value), k) == if k == key then value else Get(v, k)
  {
    if k != key {
      RemoveKeyGet(v, key, k);
    }
  }

  // ---------------------------------------------------------------------------
  // Values.Encode
  // ---------------------------------------------------------------------------

  /** Go's `<` on strings: byte-wise lexicographic order. */
  predicate KeyLess(a: string, b: string) {
    if a == [] then b != []
    else if b == [] then false
    else if a[0] != b[0] then a[0] < b[0]
    else KeyLess(a[1..], b[1..])
  }

  lemma {:induction false} KeyLessIrreflexive(a: string)
    ensures !KeyLess(a, a)
  {
    if a != [] { KeyLessIrreflexive(a[1..]); }
  }

  lemma {:induction false} KeyLessAsymmetric(a: string, b: string)
    requires KeyLess(a, b)
    ensures !KeyLess(b, a)
  {
    if a != [] && b != [] && a[0] == b[0] { KeyLessAsymmetric(a[1..], b[1..]); }
  }

  /** Byte-wise order is total: of two different keys one is the smaller. */
  lemma {:induction false} KeyLessTotal(a: string, b: string)
    requires a != b
    ensures KeyLess(a, b) || KeyLess(b, a)
  {
    if a != [] && b != [] && a[0] == b[0] {
      assert a == [a[0]] + a[1..] && b == [b[0]] + b[1..];
      KeyLessTotal(a[1..], b[1..]);
    }
  }

  lemma {:induction false} KeyLessTransitive(a: string, b: string, c: string)
    requires KeyLess(a, b) && KeyLess(b, c)
    ensures KeyLess(a, c)
  {
    if a != [] && b != [] && c != [] && a[0] == b[0] == c[0] {
      KeyLessTransitive(a[1..], b[1..], c[1..]);
    }
  }

  /** No pair is followed by one with a smaller key. */
  predicate SortedByKey(v: Values) {
    forall i, j :: 0 <= i < j < |v| ==> !KeyLess(v[j].0, v[i].0)
  }

  /** A pair whose key is not above the first one's may go in front of sorted pairs. */
  lemma SortedFront(p: (string, string), s: Values)
    requires SortedByKey(s) && (s == [] || !KeyLess(s[0].0, p.0))
    ensures SortedByKey([p] + s)
  {
    forall j | 0 < j < |s| + 1 ensures !KeyLess(([p] + s)[j].0, p.0) {
      var k := s[j - 1].0;
      if KeyLess(k, p.0) && k != s[0].0 {
        KeyLessTotal(k, s[0].0);
        KeyLessTransitive(s[0].0, k, p.0);
      }
    }
  }

  /** A pair whose key is not above any key of `t` may go in front of sorted `t`. */
  lemma SortedBelow(x: (string, string), u: Values, p: (string, string), t: Values)
    requires SortedByKey(t) && multiset(t) == multiset(u) + multiset{p}
    requires !KeyLess(p.0, x.0) && forall k :: 0 <= k < |u| ==> !KeyLess(u[k].0, x.0)
    ensures SortedByKey([x] + t)
  {
    forall j | 0 <= j < |t| ensures !KeyLess(t[j].0, x.0) {
      assert t[j] in multiset(t);
      if t[j] != p {
        assert t[j] in multiset(u);
        var k :| 0 <= k < |u| && u[k] == t[j];
      }
    }
  }

  /** Insert `p` in front of the first pair whose key is not smaller than its own, so
      that pairs with equal keys keep their order. */
  function Insert(p: (string, string), s: Values): Values {
    if s == [] || !KeyLess(s[0].0, p.0) then [p] + s
    else [s[0]] + Insert(p, s[1..])
  }

  /** Inserting adds exactly `p`, and keeps sorted pairs sorted. */
  lemma {:induction false} InsertSpec(p: (string, string), s: Values)
    ensures multiset(Insert(p, s)) == multiset(s) + multiset{p}
    ensures SortedByKey(s) ==> SortedByKey(Insert(p, s))
  {
    if s == [] || !KeyLess(s[0].0, p.0) {
      if SortedByKey(s) { SortedFront(p, s); }
    } else {
      var t := Insert(p, s[1..]);
      InsertSpec(p, s[1..]);
      assert s == [s[0]] + s[1..];
      if SortedByKey(s) {
        KeyLessAsymmetric(s[0].0, p.0);
        assert forall k :: 0 <= k < |s[1..]| ==> s[1..][k] == s[k + 1];
        SortedBelow(s[0], s[1..], p, t);
      }
    }
  }

  /** Sorts pairs by key, stably (insertion sort). */
  function SortByKey(v: Values): Values {
    if v == [] then [] else Insert(v[0], SortByKey(v[1..]))
  }

  /** Sorting is a permutation whose keys are in order. */
  lemma {:induction false} SortByKeySpec(v: Values)
    ensures multiset(SortByKey(v)) == multiset(v)
    ensures SortedByKey(SortByKey(v))
  {
    if v != [] {
      SortByKeySpec(v[1..]);
      InsertSpec(v[0], SortByKey(v[1..]));
      assert v == [v[0]] + v[1..];
    }
  }

  function EncodePair(p: (string, string)): string
  {
    QueryEscape(p.0) + "=" + QueryEscape(p.1)
  }

  /** `key=value` items joined by '&'. */
  function Join(v: Values): string
  {
    if v == [] then ""
    else if |v| == 1 then EncodePair(v[0])
    else EncodePair(v[0]) + "&" + Join(v[1..])
  }

  /** Four pairs are joined as the three separators say. */
  lemma JoinFour(a: (string, string), b: (string, string), c: (string, string), d: (string, string))
    requires IsByteString(a.0) && IsByteString(a.1) && IsByteString(b.0) && IsByteString(b.1)
    requires IsByteString(c.0) && IsByteString(c.1) && IsByteString(d.0) && IsByteString(d.1)
    ensures IsByteValues([a, b, c, d])
    ensures Join([a, b, c, d])
         == EncodePair(a) + "&" + (EncodePair(b) + "&" + (EncodePair(c) + "&" + EncodePair(d)))
  {
    assert [a, b, c, d][1..] == [b, c, d];
    assert [b, c, d][1..] == [c, d];
    assert [c, d][1..] == [d];
    assert Join([c, d]) == EncodePair(c) + "&" + EncodePair(d);
    assert Join([b, c, d]) == EncodePair(b) + "&" + Join([c, d]);
  }

  lemma SortKeepsBytes(v: Values)
    requires IsByteValues(v)
    ensures IsByteValues(SortByKey(v))
  {
    var r := SortByKey(v);
    SortByKeySpec(v);
    forall i | 0 <= i < |r| ensures IsByteString(r[i].0) && IsByteString(r[i].1) {
      assert r[i] in multiset(r);
      assert r[i] in multiset(v);
      var k :| 0 <= k < |v| && v[k] == r[i];
    }
  }

  /** `v.Encode()`: the pairs sorted by key, each written `key=value` with both sides
      query-escaped, joined by '&'. */
  function Encode(v: Values): string
  {
    Join(SortByKey(v))
  }

  /** A byte of form-encoded text: an escaped byte or one of the separators. */
  predicate IsFormByte(c: char) {
    IsEscapedByte(c) || c == '=' || c == '&'
  }

  /** Text made of form bytes only. */
  predicate IsFormText(s: string) {
    forall i :: 0 <= i < |s| ==> IsFormByte(s[i])
  }

  lemma FormTextAppend(a: string, b: string)
    requires IsFormText(a) && IsFormText(b)
    ensures IsFormText(a + b)
  {
  }

  /** An encoded pair holds escaped bytes and the one '='. */
  lemma PairBytes(p: (string, string))
    requires IsByteString(p.0) && IsByteString(p.1)
    ensures forall i :: 0 <= i < |EncodePair(p)| ==> IsEscapedByte(EncodePair(p)[i]) || EncodePair(p)[i] == '='
  {
    var k, v := QueryEscape(p.0), QueryEscape(p.1);
    QueryEscapeBytes(p.0);
    QueryEscapeBytes(p.1);
    var item := EncodePair(p);
    forall i | 0 <= i < |item| ensures IsEscapedByte(item[i]) || item[i] == '=' {
      if i < |k| { assert item[i] == k[i]; }
      else if i > |k| { assert item[i] == v[i - |k| - 1]; }
    }
  }

  /** Joined pairs hold only form bytes. */
  lemma {:induction false} JoinBytes(v: Values)
    requires IsByteValues(v)
    ensures forall i :: 0 <= i < |Join(v)| ==> IsFormByte(Join(v)[i])
  {
    if v != [] {
      PairBytes(v[0]);
      var item := EncodePair(v[0]);
      if |v| > 1 {
        JoinBytes(v[1..]);
        var rest, all := Join(v[1..]), Join(v);
        assert all == item + "&" + rest;
        forall i | 0 <= i < |all| ensures IsFormByte(all[i]) {
          if i < |item| { assert all[i] == item[i]; }
          else if i > |item| { assert all[i] == rest[i - |item| - 1]; }
        }
      }
    }
  }

  /** `Encode` writes only escaped bytes, '=' and '&'. */
  lemma EncodeBytes(v: Values)
    requires IsByteValues(v)
    ensures forall i :: 0 <= i < |Encode(v)| ==> IsFormByte(Encode(v)[i])
  {
    SortKeepsBytes(v);
    JoinBytes(SortByKey(v));
  }

  // ---------------------------------------------------------------------------
  // Query(): ParseQuery
  // ---------------------------------------------------------------------------

  /** One '&'-separated item of a query, as `url.ParseQuery` of Go 1.17 and later
      reads it: skipped when empty, when it holds a ';' (earlier Go releases split
      there as at '&'), or when either side of its first '=' is badly escaped. */
  function ParsePair(item: string): Values {
    if item == [] || ';' in item then []
    else
      var (k, v, _) := Cut(item, '=');
      match (QueryUnescape(k), QueryUnescape(v))
      case (Some(k'), Some(v')) => [(k', v')]
      case _ => []
  }

  /** `url.ParseQuery` as `Query()` uses it: the items in order, errors dropped. */
  function ParseQuery(q: string): Values
    decreases |q|
  {
    if q == [] then []
    else
      var (item, rest, _) := Cut(q, '&');
      ParsePair(item) + ParseQuery(rest)
  }

  lemma ParseEncodedPair(p: (string, string))
    requires IsByteString(p.0) && IsByteString(p.1)
    ensures ParsePair(EncodePair(p)) == [p]
  {
    var k, v := QueryEscape(p.0), QueryEscape(p.1);
    var item := EncodePair(p);
    assert item == k + ['='] + v;
    QueryEscapeBytes(p.0);
    assert '=' !in k by {
      forall i | 0 <= i < |k| ensures k[i] != '=' { assert IsEscapedByte(k[i]); }
    }
    PairBytes(p);
    assert ';' !in item by {
      forall i | 0 <= i < |item| ensures item[i] != ';' {
        assert IsEscapedByte(item[i]) || item[i] == '=';
      }
    }
    CutAtFirst(k, '=', v);
    UnescapeEscape(p.0);
    UnescapeEscape(p.1);
  }

  /** Parsing undoes joining: the same pairs come back in the same order. */
  lemma {:induction false} ParseJoin(v: Values)
    requires IsByteValues(v)
    ensures ParseQuery(Join(v)) == v
  {
    if v != [] {
      var item := EncodePair(v[0]);
      ParseEncodedPair(v[0]);
      PairHasNoAmpersand(v[0]);
      assert item != [] by { assert item[|QueryEscape(v[0].0)|] == '='; }
      if |v| == 1 {
        assert Cut(item, '&') == (item, "", false);
        assert ParseQuery(item) == ParsePair(item) + ParseQuery("");
      } else {
        var rest := Join(v[1..]);
        assert Join(v) == item + "&" + rest;
        CutAtFirst(item, '&', rest);
        assert ParseQuery(Join(v)) == ParsePair(item) + ParseQuery(rest);
        ParseJoin(v[1..]);
        assert v == [v[0]] + v[1..];
      }
    }
  }

  /** An encoded pair holds no '&'. */
  lemma PairHasNoAmpersand(p: (string, string))
    requires IsByteString(p.0) && IsByteString(p.1)
    ensures '&' !in EncodePair(p)
  {
    var item := EncodePair(p);
    PairBytes(p);
    forall i | 0 <= i < |item| ensures item[i] != '&' {
      assert IsEscapedByte(item[i]) || item[i] == '=';
    }
  }

  lemma {:induction false} GetInsert(p: (string, string), s: Values, key: string)
    ensures Get(Insert(p, s), key) == if p.0 == key then p.1 else Get(s, key)
  {
    if s != [] && KeyLess(s[0].0, p.0) {
      if p.0 == key {
        KeyLessIrreflexive(key);
      }
      GetInsert(p, s[1..], key);
    }
  }

  /** A stable sort by key keeps the first value of every key. */
  lemma {:induction false} GetSortByKey(v: Values, key: string)
    ensures Get(SortByKey(v), key) == Get(v, key)
  {
    if v != [] {
      GetSortByKey(v[1..], key);
      GetInsert(v[0], SortByKey(v[1..]), key);
    }
  }

  /** The form-encoding round trip: every key reads back the value it had. */
  lemma FormRoundTrip(v: Values, key: string)
    requires IsByteValues(v)
    ensures Get(ParseQuery(Encode(v)), key) == Get(v, key)
  {
    SortKeepsBytes(v);
    ParseJoin(SortByKey(v));
    GetSortByKey(v, key);
  }

  // ---------------------------------------------------------------------------
  // url.Parse("http://localhost/?" + d)
  // ---------------------------------------------------------------------------

  /** The bytes `url.Parse` refuses before the fragment: below 0x20, and 0x7f. */
  predicate IsCtl(c: char) { c as int < 0x20 || c as int == 0x7f }

  predicate HasCtlByte(s: string) { exists i :: 0 <= i < |s| && IsCtl(s[i]) }

  /** What `url.Parse("http://localhost/?" + d)` leaves in `RawQuery`: the text before
      the first '#'. The parse fails, giving `None`, on a control byte before the '#' or
      a malformed percent escape after it. */
  function ParseBeaconQuery(d: string): (r: Option<string>)
    ensures r.Some? ==> '#' !in r.value && r.value <= d
    ensures '#' !in d ==> (r.Some? <==> !HasCtlByte(d))
    ensures '#' !in d && r.Some? ==> r.value == d
  {
    var (q, frag, _) := Cut(d, '#');
    if HasCtlByte(q) then None
    else if frag != [] && QueryUnescape(frag).None? then None
    else Some(q)
  }
}
