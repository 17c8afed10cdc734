/**
 * HttpUtil: query-string helpers, the form-body encoder, the query-string
 * parser, and percent-encoding per RFC 3986 (section 2.1 percent-encoding,
 * section 2.3 unreserved characters, section 2.5 UTF-8 for other characters).
 */
module HttpUtil {
  import opened Text
  import opened Results
  import opened NameValues
  import Utf8

  // ---------------------------------------------------------------------------
  // Query string of a URL

  /** Everything after the first '?', or "" when there is none. */
  function GetQueryString(url: string): (r: string)
    ensures '?' !in url ==> r == ""
    ensures |r| < |url| || r == ""
  {
    var indexCut := IndexOf(url, '?');
    if indexCut < 0 || indexCut == |url| then "" else url[indexCut + 1..]
  }

  /** Everything before the first '?', or the whole URL when there is none. */
  function RemoveQueryString(url: string): (r: string)
    ensures '?' !in r
    ensures '?' !in url ==> r == url
    ensures '?' in url ==> r + "?" + GetQueryString(url) == url
  {
    var indexCut := IndexOf(url, '?');
    if indexCut < 0 then url
    else
      assert url == url[..indexCut] + "?" + url[indexCut + 1..];
      url[..indexCut]
  }

  /** A URL made of a '?'-free part, '?', and a query splits back into exactly those parts. */
  lemma UrlParts(path: string, query: string)
    requires '?' !in path
    ensures RemoveQueryString(path + "?" + query) == path
    ensures GetQueryString(path + "?" + query) == query
  {
    IndexOfPrefix(path, '?', query);
    var u := path + "?" + query;
    assert u[..|path|] == path;
    assert u[|path| + 1..] == query;
  }

  // ---------------------------------------------------------------------------
  // Percent-encoding

  /** RFC 3986 section 2.3: ALPHA / DIGIT / "-" / "." / "_" / "~". */
  predicate Unreserved(c: char)
  {
    IsAsciiUpper(c) || IsAsciiLower(c) || IsDigit(c) || c == '-' || c == '.' || c == '_' || c == '~'
  }

  /** The characters RFC 2396 leaves unreserved but RFC 3986 does not. */
  const UriRfc3986CharsToEscape: seq<char> := ['!', '*', '\'', '(', ')']

  const Rfc2396Marks: set<char> := set c | c in UriRfc3986CharsToEscape

  predicate IsUpperHex(c: char)
  {
    IsDigit(c) || 'A' <= c <= 'F'
  }

  function HexDigit(d: nat): (c: char)
    requires d < 16
    ensures IsUpperHex(c)
  {
    if d < 10 then ('0' as int + d) as char else ('A' as int + d - 10) as char
  }

  /** The value of a hexadecimal digit of either case, or -1. */
  function HexValue(c: char): (v: int)
    ensures -1 <= v < 16
  {
    if IsDigit(c) then c as int - '0' as int
    else if 'A' <= c <= 'F' then c as int - 'A' as int + 10
    else if 'a' <= c <= 'f' then c as int - 'a' as int + 10
    else -1
  }

  /** One byte as "%XX" with upper-case hex digits. */
  function PercentByte(b: Utf8.byte): (t: string)
    ensures |t| == 3 && t[0] == '%' && IsUpperHex(t[1]) && IsUpperHex(t[2])
    ensures HexValue(t[1]) * 16 + HexValue(t[2]) == b
  {
    ['%', HexDigit(b / 16), HexDigit(b % 16)]
  }

  function PercentBytes(bs: seq<Utf8.byte>): (t: string)
    ensures |t| == 3 * |bs|
  {
    if bs == [] then [] else PercentByte(bs[0]) + PercentBytes(bs[1..])
  }

  /** `Uri.HexEscape(c)`. */
  function HexEscape(c: char): string
    requires c as int < 256
  {
    PercentByte(c as int)
  }

  /** One character escaped, keeping the unreserved ones and those in `keep`. */
  function EscapeChar(c: char, keep: set<char>): string
  {
    if Unreserved(c) || c in keep then [c] else PercentBytes(Utf8.Encode(c))
  }

  function EscapeKeeping(s: string, keep: set<char>): string
  {
    if s == [] then [] else EscapeChar(s[0], keep) + EscapeKeeping(s[1..], keep)
  }

  /** `Uri.EscapeDataString` with its RFC 2396 behaviour: the marks !*'() stay as they are. */
  function EscapeDataString(s: string): string
  {
    EscapeKeeping(s, Rfc2396Marks)
  }

  /** `Esc`: RFC 3986 percent-encoding of a data string. */
  function Esc(s: string): string
  {
    EscapeKeeping(s, {})
  }

  function RemainingMarks(i: nat): set<char>
    requires i <= |UriRfc3986CharsToEscape|
  {
    set c | c in UriRfc3986CharsToEscape[i..]
  }

  /**
   * `EscapeUriDataStringRfc3986`: start from the platform's RFC 2396 escaping and
   * replace each of !*'() by its hex escape; the result is the RFC 3986 escaping.
   */
  method EscapeUriDataStringRfc3986(value: string) returns (escaped: string)
    ensures escaped == Esc(value)
  {
    assert UriRfc3986CharsToEscape[0..] == UriRfc3986CharsToEscape;
    escaped := EscapeDataString(value);
    for i := 0 to |UriRfc3986CharsToEscape|
      invariant escaped == EscapeKeeping(value, RemainingMarks(i))
    {
      var c := UriRfc3986CharsToEscape[i];
      assert UriRfc3986CharsToEscape[i..] == [c] + UriRfc3986CharsToEscape[i + 1..];
      assert c !in UriRfc3986CharsToEscape[i + 1..];
      assert RemainingMarks(i) - {c} == RemainingMarks(i + 1);
      ReplaceMark(value, RemainingMarks(i), c);
      escaped := Replace(escaped, c, HexEscape(c));
    }
    assert RemainingMarks(|UriRfc3986CharsToEscape|) == {};
  }

  lemma PercentBytesAlphabet(bs: seq<Utf8.byte>)
    ensures forall i :: 0 <= i < |PercentBytes(bs)| ==> PercentBytes(bs)[i] == '%' || IsUpperHex(PercentBytes(bs)[i])
  {
    if bs != [] {
      PercentBytesAlphabet(bs[1..]);
      var t := PercentBytes(bs);
      assert t == PercentByte(bs[0]) + PercentBytes(bs[1..]);
      forall i | 0 <= i < |t| ensures t[i] == '%' || IsUpperHex(t[i]) {
        if i >= 3 { assert t[i] == PercentBytes(bs[1..])[i - 3]; }
      }
    }
  }

  /** One pass of the replace loop escapes one more mark and leaves everything else alone. */
  lemma {:induction false} ReplaceMark(s: string, keep: set<char>, c: char)
    requires c in Rfc2396Marks
    ensures Replace(EscapeKeeping(s, keep), c, HexEscape(c)) == EscapeKeeping(s, keep - {c})
  {
    if s != [] {
      var x := s[0];
      ReplaceConcat(EscapeChar(x, keep), EscapeKeeping(s[1..], keep), c, HexEscape(c));
      ReplaceMark(s[1..], keep, c);
      if !(Unreserved(x) || x in keep) {
        PercentBytesAlphabet(Utf8.Encode(x));
        assert c !in EscapeChar(x, keep);
      } else if x == c {
        assert Replace([x], c, HexEscape(c)) == HexEscape(c);
      } else {
        assert Replace([x], c, HexEscape(c)) == [x];
      }
    }
  }

  /** Escaping distributes over concatenation. */
  lemma {:induction false} EscapeConcat(a: string, b: string, keep: set<char>)
    ensures EscapeKeeping(a + b, keep) == EscapeKeeping(a, keep) + EscapeKeeping(b, keep)
  {
    if a != [] {
      assert (a + b)[0] == a[0];
      assert (a + b)[1..] == a[1..] + b;
      EscapeConcat(a[1..], b, keep);
    } else {
      assert a + b == b;
    }
  }

  /** A string of unreserved characters is its own escaping. */
  lemma {:induction false} EscUnreserved(s: string)
    requires forall i :: 0 <= i < |s| ==> Unreserved(s[i])
    ensures Esc(s) == s
  {
    if s != [] {
      EscUnreserved(s[1..]);
      assert s == [s[0]] + s[1..];
    }
  }

  /** An ASCII character outside the unreserved set is written as '%' and its two upper-case hex digits. */
  lemma EscAsciiReserved(c: char)
    requires c as int < 0x80 && !Unreserved(c)
    ensures Esc([c]) == ['%', HexDigit(c as int / 16), HexDigit(c as int % 16)]
  {
    assert [c][1..] == [];
    assert Esc([c]) == EscapeChar(c, {}) + Esc([]);
    assert EscapeChar(c, {}) == PercentBytes(Utf8.Encode(c));
    assert Utf8.Encode(c) == [c as int];
    assert PercentBytes([c as int]) == PercentByte(c as int) + PercentBytes([]);
  }

  /** The escapes of space and the quote. */
  lemma EscSpaceQuote()
    ensures Esc(" ") == "%20" && Esc("\"") == "%22"
  {
    EscAsciiReserved(' ');
    EscAsciiReserved('"');
  }

  /** The RFC 2396 marks that RFC 3986 reserves are escaped too. */
  lemma EscMarks()
    ensures Esc("!") == "%21" && Esc("*") == "%2A" && Esc("'") == "%27" && Esc("(") == "%28" && Esc(")") == "%29"
  {
    EscAsciiReserved('!');
    EscAsciiReserved('*');
    EscAsciiReserved('\'');
    EscAsciiReserved('(');
    EscAsciiReserved(')');
  }

  /** Three reserved characters in a row escape one after the other. */
  lemma EscRun()
    ensures Esc("@#$") == "%40%23%24"
  {
    EscAsciiReserved('@');
    EscAsciiReserved('#');
    EscAsciiReserved('$');
    assert "@#$" == "@" + ("#" + "$");
    EscapeConcat("#", "$", {});
    EscapeConcat("@", "#$", {});
  }

  /** The delimiters of paths, form values and pairs. */
  lemma EscDelimiters()
    ensures Esc("/") == "%2F" && Esc("+") == "%2B" && Esc("=") == "%3D"
  {
    EscAsciiReserved('/');
    EscAsciiReserved('+');
    EscAsciiReserved('=');
  }

  /** Every character of an escaping is unreserved or '%'; in particular none of & = ? or space. */
  lemma {:induction false} EscAlphabet(s: string)
    ensures forall i :: 0 <= i < |Esc(s)| ==> Unreserved(Esc(s)[i]) || Esc(s)[i] == '%'
  {
    if s != [] {
      EscAlphabet(s[1..]);
      var head := EscapeChar(s[0], {});
      if !Unreserved(s[0]) { PercentBytesAlphabet(Utf8.Encode(s[0])); }
      assert forall i :: 0 <= i < |head| ==> Unreserved(head[i]) || head[i] == '%';
      var t := Esc(s);
      assert t == head + Esc(s[1..]);
      forall i | 0 <= i < |t| ensures Unreserved(t[i]) || t[i] == '%' {
        if i >= |head| { assert t[i] == Esc(s[1..])[i - |head|]; }
      }
    }
  }

  /** An escaping is a concatenation of unreserved characters and "%XX" triples. */
  predicate WellEscaped(t: string)
    decreases |t|
  {
    if t == [] then true
    else if Unreserved(t[0]) then WellEscaped(t[1..])
    else |t| >= 3 && t[0] == '%' && IsUpperHex(t[1]) && IsUpperHex(t[2]) && WellEscaped(t[3..])
  }

  lemma {:induction false} WellEscapedPercent(bs: seq<Utf8.byte>, t: string)
    requires WellEscaped(t)
    ensures WellEscaped(PercentBytes(bs) + t)
  {
    if bs != [] {
      WellEscapedPercent(bs[1..], t);
      assert PercentBytes(bs) + t == PercentByte(bs[0]) + (PercentBytes(bs[1..]) + t);
      WellEscapedHead(bs[0], PercentBytes(bs[1..]) + t);
    } else {
      assert PercentBytes(bs) + t == t;
    }
  }

  /** One "%XX" triple in front of an escaping keeps it well escaped. */
  lemma WellEscapedHead(b: Utf8.byte, t: string)
    requires WellEscaped(t)
    ensures WellEscaped(PercentByte(b) + t)
  {
    var u := PercentByte(b) + t;
    assert u[0] == '%' && u[1] == PercentByte(b)[1] && u[2] == PercentByte(b)[2];
    assert u[3..] == t;
  }

  lemma {:induction false} EscWellEscaped(s: string)
    ensures WellEscaped(Esc(s))
  {
    if s != [] {
      EscWellEscaped(s[1..]);
      if Unreserved(s[0]) {
        assert Esc(s) == [s[0]] + Esc(s[1..]);
        assert Esc(s)[1..] == Esc(s[1..]);
      } else {
        WellEscapedPercent(Utf8.Encode(s[0]), Esc(s[1..]));
      }
    }
  }

  // ---------------------------------------------------------------------------
  // Percent-decoding

  /** The bytes of up to `n` leading "%XX" triples of `s`. */
  function LeadingBytes(s: string, n: nat): (bs: seq<Utf8.byte>)
    ensures |bs| <= n && 3 * |bs| <= |s|
  {
    if n == 0 || |s| < 3 || s[0] != '%' || HexValue(s[1]) < 0 || HexValue(s[2]) < 0 then []
    else [HexValue(s[1]) * 16 + HexValue(s[2])] + LeadingBytes(s[3..], n - 1)
  }

  /**
   * `Uri.UnescapeDataString`: each run of "%XX" triples that forms a UTF-8 encoded
   * character becomes that character; any other character, including a '%' that
   * does not start such a run, is copied.
   */
  function UnescapeDataString(s: string): string
    decreases |s|
  {
    if s == [] then []
    else if s[0] == '%' then
      match Utf8.DecodeFirst(LeadingBytes(s, 4))
      case Some((c, n)) => [c] + UnescapeDataString(s[3 * n..])
      case None => [s[0]] + UnescapeDataString(s[1..])
    else [s[0]] + UnescapeDataString(s[1..])
  }

  lemma {:induction false} LeadingBytesPercent(bs: seq<Utf8.byte>, t: string, k: nat)
    ensures LeadingBytes(PercentBytes(bs) + t, |bs| + k) == bs + LeadingBytes(t, k)
  {
    if bs != [] {
      assert PercentBytes(bs) + t == PercentByte(bs[0]) + (PercentBytes(bs[1..]) + t);
      LeadingByteHead(bs[0], PercentBytes(bs[1..]) + t, |bs| + k);
      LeadingBytesPercent(bs[1..], t, k);
      ByteConsAssoc(bs, LeadingBytes(t, k));
    } else {
      assert PercentBytes(bs) + t == t;
    }
  }

  lemma ByteConsAssoc(bs: seq<Utf8.byte>, rest: seq<Utf8.byte>)
    requires bs != []
    ensures [bs[0]] + (bs[1..] + rest) == bs + rest
  {
    assert bs == [bs[0]] + bs[1..];
  }

  /** A leading "%XX" triple reads back as its byte. */
  lemma LeadingByteHead(b: Utf8.byte, t: string, n: nat)
    requires n > 0
    ensures LeadingBytes(PercentByte(b) + t, n) == [b] + LeadingBytes(t, n - 1)
  {
    var u := PercentByte(b) + t;
    assert u[0] == '%' && u[1] == PercentByte(b)[1] && u[2] == PercentByte(b)[2];
    assert u[3..] == t;
  }

  /** RFC 3986 section 2.1: decoding an escaping gives back the original string. */
  lemma {:induction false} UnescapeEsc(s: string)
    ensures UnescapeDataString(Esc(s)) == s
  {
    if s != [] {
      var c := s[0];
      UnescapeEsc(s[1..]);
      var rest := Esc(s[1..]);
      if Unreserved(c) {
        assert Esc(s) == [c] + rest;
        assert Esc(s)[1..] == rest;
      } else {
        var e := Utf8.Encode(c);
        var t := PercentBytes(e) + rest;
        assert Esc(s) == t;
        LeadingBytesPercent(e, rest, 4 - |e|);
        Utf8.DecodeEncode(c, LeadingBytes(rest, 4 - |e|));
        assert t[0] == '%';
        assert t[3 * |e|..] == rest;
      }
      assert s == [c] + s[1..];
    }
  }

  /** Escaping is injective. */
  lemma EscInjective(a: string, b: string)
    requires Esc(a) == Esc(b)
    ensures a == b
  {
    UnescapeEsc(a);
    UnescapeEsc(b);
  }

  // ---------------------------------------------------------------------------
  // Form bodies and query strings

  /** One "name=value" pair of a form body. */
  function FormPairs(ps: seq<(string, string)>): (r: seq<string>)
    ensures |r| == |ps|
  {
    if ps == [] then [] else [Esc(ps[0].0) + "=" + Esc(ps[0].1)] + FormPairs(ps[1..])
  }

  /** The i-th form entry is the i-th pair, escaped and joined by '='. */
  lemma {:induction false} FormPairsAt(ps: seq<(string, string)>, i: nat)
    requires i < |ps|
    ensures FormPairs(ps)[i] == Esc(ps[i].0) + "=" + Esc(ps[i].1)
  {
    if i > 0 {
      FormPairsAt(ps[1..], i - 1);
    }
  }

  /** The body `EncodeFormPostData` produces: each key, in key order, as Esc(key)=Esc(value), joined by '&'. */
  function FormEncoding(postData: seq<Entry>): string
  {
    Join("&", FormPairs(Flattened(postData)))
  }

  /** The body is empty exactly when the collection is. */
  lemma FormEncodingEmpty(postData: seq<Entry>)
    ensures FormEncoding(postData) == "" <==> postData == []
  {
    var pieces := FormPairs(Flattened(postData));
    if postData != [] {
      assert pieces[0] == Esc(Flattened(postData)[0].0) + "=" + Esc(Flattened(postData)[0].1);
      assert |pieces[0]| > 0;
      if |pieces| > 1 {
        JoinCons("&", pieces[0], pieces[1..]);
        assert pieces == [pieces[0]] + pieces[1..];
      }
    }
  }

  /** `EncodeFormPostData`. */
  method EncodeFormPostData(postData: seq<Entry>) returns (r: string)
    requires WellFormed(postData)
    ensures r == FormEncoding(postData)
  {
    var list: seq<string> := [];
    var keys := Keys(postData);
    ghost var pairs := Flattened(postData);
    assert FormPairs(pairs[..0]) == [] by { assert pairs[..0] == []; }
    for i := 0 to |keys|
      invariant list == FormPairs(pairs[..i])
    {
      list := AppendEntry(postData, keys[i], list, i);
    }
    EncodeDone(postData, list);
    r := Join("&", list);
  }

  /** One pass of the loop: `key=value` for the i-th key, escaped, appended. */
  method AppendEntry(postData: seq<Entry>, key: string, list: seq<string>, ghost i: nat) returns (r: seq<string>)
    requires WellFormed(postData) && i < |postData| && key == Keys(postData)[i]
    requires list == FormPairs(Flattened(postData)[..i])
    ensures Get(postData, key).Some? && r == list + [Esc(key) + "=" + Esc(Get(postData, key).value)]
    ensures r == FormPairs(Flattened(postData)[..i + 1])
  {
    KeyFound(postData, i);
    var value := Get(postData, key).value;
    EncodeStep(postData, i, list, key, value);
    r := list + [Esc(key) + "=" + Esc(value)];
  }

  /** The i-th key is found in the collection. */
  lemma KeyFound(postData: seq<Entry>, i: nat)
    requires WellFormed(postData) && i < |postData|
    ensures Get(postData, Keys(postData)[i]).Some?
  {
    GetOwnKey(postData, i);
  }

  /** The entry for the i-th key and its looked-up value extends the form entries of the first i pairs. */
  lemma EncodeStep(postData: seq<Entry>, i: nat, list: seq<string>, key: string, value: string)
    requires WellFormed(postData) && i < |postData|
    requires list == FormPairs(Flattened(postData)[..i])
    requires key == Keys(postData)[i] && Get(postData, key) == Some(value)
    ensures list + [Esc(key) + "=" + Esc(value)] == FormPairs(Flattened(postData)[..i + 1])
  {
    GetOwnKey(postData, i);
    FlattenedAt(postData, i);
    FormPairsPrefix(Flattened(postData), i);
  }

  /** After the last key the entries are those of all pairs. */
  lemma EncodeDone(postData: seq<Entry>, list: seq<string>)
    requires list == FormPairs(Flattened(postData)[..|Keys(postData)|])
    ensures Join("&", list) == FormEncoding(postData)
  {
    assert Flattened(postData)[..|Keys(postData)|] == Flattened(postData);
  }

  /** One more pair of a list extends the form entries of its prefix by that pair's entry. */
  lemma FormPairsPrefix(ps: seq<(string, string)>, i: nat)
    requires i < |ps|
    ensures FormPairs(ps[..i + 1]) == FormPairs(ps[..i]) + [Esc(ps[i].0) + "=" + Esc(ps[i].1)]
  {
    assert ps[..i + 1] == ps[..i] + [ps[i]];
    FormPairsConcat(ps[..i], [ps[i]]);
  }

  lemma {:induction false} FormPairsConcat(a: seq<(string, string)>, b: seq<(string, string)>)
    ensures FormPairs(a + b) == FormPairs(a) + FormPairs(b)
  {
    if a != [] {
      assert (a + b)[1..] == a[1..] + b;
      FormPairsConcat(a[1..], b);
    } else {
      assert a + b == b;
    }
  }

  /** `Uri.UnescapeDataString`, applied only to a non-empty part. */
  function DecodeNonEmpty(s: string): string
  {
    if s != "" then UnescapeDataString(s) else s
  }

  /** One '&'-segment of a query: split at its first '=' and decoded, or `(segment, "")`. */
  function ParsePair(pair: string): (string, string)
  {
    var indexEqual := IndexOf(pair, '=');
    if indexEqual >= 0 && indexEqual != |pair| then
      (DecodeNonEmpty(pair[..indexEqual]), DecodeNonEmpty(pair[indexEqual + 1..]))
    else (pair, "")
  }

  function ParsePairs(segments: seq<string>): (r: seq<(string, string)>)
    ensures |r| == |segments|
    ensures forall i :: 0 <= i < |segments| ==> r[i] == ParsePair(segments[i])
  {
    if segments == [] then [] else [ParsePair(segments[0])] + ParsePairs(segments[1..])
  }

  /** The collection `QueryStringToNameValueCollection` returns. */
  function ParseQuery(query: string): (r: seq<Entry>)
    ensures WellFormed(r)
  {
    AddPairs([], ParsePairs(SplitNonEmpty(query, '&')))
  }

  /** `QueryStringToNameValueCollection`. */
  method QueryStringToNameValueCollection(query: string) returns (collection: seq<Entry>)
    ensures collection == ParseQuery(query)
  {
    collection := [];
    var pairs := SplitNonEmpty(query, '&');
    for i := 0 to |pairs|
      invariant WellFormed(collection)
      invariant AddPairs(collection, ParsePairs(pairs[i..])) == ParseQuery(query)
    {
      var pair := pairs[i];
      assert ParsePairs(pairs[i..]) == [ParsePair(pair)] + ParsePairs(pairs[i + 1..]);
      var indexEqual := IndexOf(pair, '=');
      if indexEqual >= 0 && indexEqual != |pair| {
        var name := pair[..indexEqual];
        if name != "" { name := UnescapeDataString(name); }
        var value := pair[indexEqual + 1..];
        if value != "" { value := UnescapeDataString(value); }
        collection := WithAdded(collection, name, value);
      } else {
        collection := WithAdded(collection, pair, "");
      }
    }
  }

  /** A segment with an '=' splits at the first one, and both sides are decoded. */
  lemma ParsePairSplits(name: string, value: string)
    requires '=' !in name
    ensures ParsePair(name + "=" + value) == (DecodeNonEmpty(name), DecodeNonEmpty(value))
  {
    IndexOfPrefix(name, '=', value);
    var p := name + "=" + value;
    assert p[..|name|] == name;
    assert p[|name| + 1..] == value;
  }

  /** A segment without '=' is a name with the empty value, not decoded. */
  lemma ParsePairNoEquals(segment: string)
    requires '=' !in segment
    ensures ParsePair(segment) == (segment, "")
  {
  }

  /** Empty '&'-segments are skipped: extra separators do not change the result. */
  lemma ParseQuerySkipsEmpty(a: string, b: string)
    ensures ParseQuery(a + "&&" + b) == ParseQuery(a + "&" + b)
  {
    assert a + "&&" + b == a + ['&'] + ([] + ['&'] + b);
    assert a + "&" + b == a + ['&'] + b;
    assert [] + ['&'] + b == ['&'] + b;
    SplitConcat(a, [] + ['&'] + b, '&');
    SplitConcat([], b, '&');
    SplitConcat(a, b, '&');
    assert Split([], '&') == [""];
    RemoveEmptyConcat(Split(a, '&'), Split([] + ['&'] + b, '&'));
    RemoveEmptyConcat(Split([], '&'), Split(b, '&'));
    RemoveEmptyConcat(Split(a, '&'), Split(b, '&'));
    assert RemoveEmpty([""]) == [];
  }

  /** A leading '&' is an empty segment as well, and is skipped. */
  lemma ParseQuerySkipsLeading(a: string)
    ensures ParseQuery("&" + a) == ParseQuery(a)
  {
    assert "&" + a == [] + ['&'] + a;
    SplitConcat([], a, '&');
    assert Split([], '&') == [""];
    RemoveEmptyConcat([""], Split(a, '&'));
    assert RemoveEmpty([""]) == [];
  }

  /** So is a trailing '&'. */
  lemma ParseQuerySkipsTrailing(a: string)
    ensures ParseQuery(a + "&") == ParseQuery(a)
  {
    assert a + "&" == a + ['&'] + [];
    SplitConcat(a, [], '&');
    assert Split([], '&') == [""];
    RemoveEmptyConcat(Split(a, '&'), [""]);
    assert RemoveEmpty([""]) == [];
    assert RemoveEmpty(Split(a, '&')) + [] == RemoveEmpty(Split(a, '&'));
  }

  /** A form pair contains no '&' and is never empty. */
  lemma FormPairShape(k: string, v: string)
    ensures '&' !in Esc(k) + "=" + Esc(v) && Esc(k) + "=" + Esc(v) != ""
  {
    EscAlphabet(k);
    EscAlphabet(v);
    var p := Esc(k) + "=" + Esc(v);
    assert p[|Esc(k)|] == '=';
    forall j | 0 <= j < |p| ensures p[j] != '&' {
      if j < |Esc(k)| {
        assert p[j] == Esc(k)[j];
      } else if j > |Esc(k)| {
        assert p[j] == Esc(v)[j - |Esc(k)| - 1];
      }
    }
  }

  /** A form pair parses back to its name and value. */
  lemma ParseFormPair(k: string, v: string)
    ensures ParsePair(Esc(k) + "=" + Esc(v)) == (k, v)
  {
    EscAlphabet(k);
    assert forall j :: 0 <= j < |Esc(k)| ==> Esc(k)[j] != '=';
    ParsePairSplits(Esc(k), Esc(v));
    UnescapeEsc(k);
    UnescapeEsc(v);
  }

  /** The form entries of any pairs, joined by '&', split back into those entries. */
  lemma FormPairsSplit(ps: seq<(string, string)>)
    ensures SplitNonEmpty(Join("&", FormPairs(ps)), '&') == FormPairs(ps)
  {
    var pieces := FormPairs(ps);
    if pieces == [] {
      assert Join("&", pieces) == "";
      assert Split("", '&') == [""];
    } else {
      forall i | 0 <= i < |pieces| ensures '&' !in pieces[i] && pieces[i] != "" {
        FormPairsAt(ps, i);
        FormPairShape(ps[i].0, ps[i].1);
      }
      SplitJoin(pieces, '&');
      RemoveEmptyAll(pieces);
    }
  }

  /** Each form entry parses back to its pair. */
  lemma FormPairsParse(ps: seq<(string, string)>)
    ensures ParsePairs(FormPairs(ps)) == ps
  {
    var parsed := ParsePairs(FormPairs(ps));
    forall i | 0 <= i < |ps| ensures parsed[i] == ps[i] {
      FormPairsAt(ps, i);
      ParseFormPair(ps[i].0, ps[i].1);
    }
  }

  /** Parsing an encoded form body gives back each key with its value, in order. */
  lemma FormRoundTrip(postData: seq<Entry>)
    requires WellFormed(postData)
    ensures ParseQuery(FormEncoding(postData)) == SingleEntries(Flattened(postData))
  {
    var flat := Flattened(postData);
    FormPairsSplit(flat);
    FormPairsParse(flat);
    SingleEntriesFresh(postData);
    AddPairsFresh([], flat);
  }

  /** The entries of a collection's pairs, one value each, still have distinct keys. */
  lemma SingleEntriesFresh(postData: seq<Entry>)
    requires WellFormed(postData)
    ensures WellFormed([] + SingleEntries(Flattened(postData)))
  {
    var single := SingleEntries(Flattened(postData));
    assert [] + single == single;
    forall i, j | 0 <= i < j < |single| ensures !SameKey(single[i].key, single[j].key) {
      FlattenedAt(postData, i);
      FlattenedAt(postData, j);
      assert single[i].key == postData[i].key;
      assert single[j].key == postData[j].key;
    }
  }
}
