/**
 * A raw textual reading of a URL string: the path in front of the first
 * `?`, and the `&`-separated `key=value` parameters between that `?` and
 * the first `#`. Parameters are taken raw, without percent-decoding, and
 * the path is not normalised (no `..` resolution, no removal of tabs or
 * line breaks, no escaping of spaces) as a full URL parser would do.
 * `Encode` writes a parameter list as a query string; the URL builders are
 * proved against this reading.
 */
module QueryString {

  /** The part of `s` before its first `c`; all of `s` when there is none. */
  function Before(s: string, c: char): (r: string)
    ensures c !in r
  {
    if s == [] || s[0] == c then [] else [s[0]] + Before(s[1..], c)
  }

  /** The part of `s` after its first `c`; empty when there is none. */
  function After(s: string, c: char): string {
    if s == [] then []
    else if s[0] == c then s[1..]
    else After(s[1..], c)
  }

  /** `s` cut at every `sep`: the pieces between the separators, in order. */
  function Split(s: string, sep: char): (r: seq<string>)
    ensures |r| >= 1
  {
    if s == [] then [[]]
    else
      var rest := Split(s[1..], sep);
      if s[0] == sep then [[]] + rest else [[s[0]] + rest[0]] + rest[1..]
  }

  /** The `key=value` reading of the non-empty pieces of a query. */
  function Pairs(pieces: seq<string>): seq<(string, string)> {
    if pieces == [] then []
    else
      (if pieces[0] == [] then [] else [(Before(pieces[0], '='), After(pieces[0], '='))])
      + Pairs(pieces[1..])
  }

  /** The path of a URL. */
  function Path(url: string): string {
    Before(Before(url, '#'), '?')
  }

  /** The query parameters of a URL, in order. */
  function Parameters(url: string): seq<(string, string)> {
    var u := Before(url, '#');
    if '?' in u then Pairs(Split(After(u, '?'), '&')) else []
  }

  /** The query string `k1=v1&k2=v2&...` listing `ps` in order. */
  function Encode(ps: seq<(string, string)>): string
    requires |ps| >= 1
  {
    var piece := ps[0].0 + "=" + ps[0].1;
    if |ps| == 1 then piece else piece + "&" + Encode(ps[1..])
  }

  /** A key that reads back unchanged from `key=value`. */
  predicate PlainKey(k: string) {
    '=' !in k && '&' !in k && '#' !in k
  }

  /** A value that stays inside its own parameter. */
  predicate PlainValue(v: string) {
    '&' !in v && '#' !in v
  }

  /** Keys and values that read back unchanged from `Encode`. */
  predicate PlainPairs(ps: seq<(string, string)>) {
    forall i :: 0 <= i < |ps| ==> PlainKey(ps[i].0) && PlainValue(ps[i].1)
  }

  lemma {:induction false} BeforeAbsent(s: string, c: char)
    requires c !in s
    ensures Before(s, c) == s && After(s, c) == []
  {
    if s != [] {
      BeforeAbsent(s[1..], c);
    }
  }

  lemma {:induction false} CutAtFirst(a: string, c: char, b: string)
    requires c !in a
    ensures Before(a + [c] + b, c) == a
    ensures After(a + [c] + b, c) == b
  {
    if a != [] {
      assert (a + [c] + b)[1..] == a[1..] + [c] + b;
      CutAtFirst(a[1..], c, b);
    } else {
      assert a + [c] + b == [c] + b;
    }
  }

  lemma {:induction false} SplitAbsent(s: string, sep: char)
    requires sep !in s
    ensures Split(s, sep) == [s]
  {
    if s != [] {
      SplitAbsent(s[1..], sep);
      assert [s[0]] + s[1..] == s;
    }
  }

  lemma {:induction false} SplitAtFirst(a: string, sep: char, b: string)
    requires sep !in a
    ensures Split(a + [sep] + b, sep) == [a] + Split(b, sep)
  {
    if a != [] {
      assert (a + [sep] + b)[1..] == a[1..] + [sep] + b;
      SplitAtFirst(a[1..], sep, b);
      assert [a[0]] + a[1..] == a;
    } else {
      assert a + [sep] + b == [sep] + b;
    }
  }

  lemma {:induction false} EncodeIsPlain(ps: seq<(string, string)>)
    requires |ps| >= 1 && PlainPairs(ps)
    ensures '#' !in Encode(ps)
  {
    if |ps| > 1 {
      EncodeIsPlain(ps[1..]);
    }
  }

  /** Reading back an encoded query gives the parameters it was built from,
      in the same order. */
  lemma {:induction false} PairsOfEncode(ps: seq<(string, string)>)
    requires |ps| >= 1 && PlainPairs(ps)
    ensures Pairs(Split(Encode(ps), '&')) == ps
  {
    var piece := ps[0].0 + "=" + ps[0].1;
    CutAtFirst(ps[0].0, '=', ps[0].1);
    assert piece == ps[0].0 + ['='] + ps[0].1;
    if |ps| == 1 {
      SplitAbsent(piece, '&');
    } else {
      SplitAtFirst(piece, '&', Encode(ps[1..]));
      assert piece + "&" + Encode(ps[1..]) == piece + ['&'] + Encode(ps[1..]);
      PairsOfEncode(ps[1..]);
      var pieces := Split(Encode(ps[1..]), '&');
      assert ([piece] + pieces)[1..] == pieces;
    }
  }

  /** A URL made of a path without `?` or `#`, then `?`, then an encoded
      query, has that path and exactly the encoded parameters. */
  lemma UrlReadsBack(path: string, ps: seq<(string, string)>)
    requires '?' !in path && '#' !in path
    requires |ps| >= 1 && PlainPairs(ps)
    ensures Path(path + "?" + Encode(ps)) == path
    ensures Parameters(path + "?" + Encode(ps)) == ps
  {
    var url := path + "?" + Encode(ps);
    EncodeIsPlain(ps);
    assert '#' !in url;
    BeforeAbsent(url, '#');
    assert url == path + ['?'] + Encode(ps);
    CutAtFirst(path, '?', Encode(ps));
    PairsOfEncode(ps);
  }

  /** A URL without `?` or `#` is all path and carries no parameters. */
  lemma BareUrl(url: string)
    requires '?' !in url && '#' !in url
    ensures Path(url) == url && Parameters(url) == []
  {
    BeforeAbsent(url, '#');
    BeforeAbsent(url, '?');
  }
}
