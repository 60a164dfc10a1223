// Query strings: the desktop shell percent-encodes them byte by byte, the dispatcher splits them and
// decodes the values. Decoding yields one character per encoded byte.
module Queries {
  import opened Text

  type Byte = n: nat | n < 256

  // ---------------------------------------------------------------- UTF-8

  /** The UTF-8 form of a character (RFC 3629, section 3). */
  function Utf8Char(c: char): seq<Byte> {
    var n := c as int;
    if n < 0x80 then [n]
    else if n < 0x800 then [0xC0 + n / 0x40, 0x80 + n % 0x40]
    else if n < 0x1_0000 then [0xE0 + n / 0x1000, 0x80 + n / 0x40 % 0x40, 0x80 + n % 0x40]
    else [0xF0 + n / 0x4_0000, 0x80 + n / 0x1000 % 0x40, 0x80 + n / 0x40 % 0x40, 0x80 + n % 0x40]
  }

  function Utf8(s: string): seq<Byte> {
    if s == "" then [] else Utf8Char(s[0]) + Utf8(s[1..])
  }

  /** One character per byte, as `b as char` makes them. */
  function Latin1(bytes: seq<Byte>): (s: string)
    ensures |s| == |bytes|
    ensures forall k :: 0 <= k < |s| ==> s[k] == bytes[k] as char
  {
    seq(|bytes|, k requires 0 <= k < |bytes| => bytes[k] as char)
  }

  lemma {:induction false} Utf8OfAscii(s: string)
    requires IsAscii(s)
    ensures |Utf8(s)| == |s| && Latin1(Utf8(s)) == s
  {
    if s != "" {
      Utf8OfAscii(s[1..]);
      assert Latin1(Utf8(s)) == [s[0]] + Latin1(Utf8(s[1..]));
    }
  }

  lemma {:induction false} Utf8IsLonger(s: string)
    ensures |Utf8(s)| >= |s|
    ensures !IsAscii(s) ==> |Utf8(s)| > |s|
  {
    if s != "" {
      Utf8IsLonger(s[1..]);
      if IsAscii(s[1..]) && !IsAscii(s) {
        assert forall k :: 1 <= k < |s| ==> s[k] == s[1..][k - 1];
      }
    }
  }

  // ---------------------------------------------------------------- encoding

  /** Letters, digits, `-_.~` and, as this encoder keeps them, `/` and `:`. */
  predicate IsPlain(b: Byte) {
    var c := b as char;
    || 'A' <= c <= 'Z' || 'a' <= c <= 'z' || '0' <= c <= '9'
    || c == '-' || c == '_' || c == '.' || c == '~' || c == '/' || c == ':'
  }

  function HexDigitChar(d: nat): char
    requires d < 16
  {
    if d < 10 then '0' + d as char else 'A' + (d - 10) as char
  }

  function EncodedByte(b: Byte): string {
    if IsPlain(b) then [b as char] else ['%', HexDigitChar(b / 16), HexDigitChar(b % 16)]
  }

  function Encoded(bytes: seq<Byte>): string {
    if bytes == [] then "" else EncodedByte(bytes[0]) + Encoded(bytes[1..])
  }

  lemma {:induction false} EncodedSnoc(bytes: seq<Byte>, b: Byte)
    ensures Encoded(bytes + [b]) == Encoded(bytes) + EncodedByte(b)
  {
    if bytes == [] {
      assert [b][1..] == [] && EncodedByte(b) + "" == EncodedByte(b);
    } else {
      assert (bytes + [b])[1..] == bytes[1..] + [b];
      EncodedSnoc(bytes[1..], b);
    }
  }

  method UrlEncode(s: string) returns (out: string)
    ensures out == Encoded(Utf8(s))
  {
    out := "";
    var bytes := Utf8(s);
    for k := 0 to |bytes|
      invariant out == Encoded(bytes[..k])
    {
      EncodedSnoc(bytes[..k], bytes[k]);
      assert bytes[..k + 1] == bytes[..k] + [bytes[k]];
      if IsPlain(bytes[k]) {
        out := out + [bytes[k] as char];
      } else {
        out := out + ['%', HexDigitChar(bytes[k] / 16), HexDigitChar(bytes[k] % 16)];
      }
    }
    assert bytes[..|bytes|] == bytes;
  }

  // ---------------------------------------------------------------- decoding

  function HexDigit(b: Byte): Option<nat> {
    var c := b as char;
    if '0' <= c <= '9' then Some(c as int - '0' as int)
    else if 'a' <= c <= 'f' then Some(c as int - 'a' as int + 10)
    else if 'A' <= c <= 'F' then Some(c as int - 'A' as int + 10)
    else None
  }

  lemma HexDigitIsSmall(b: Byte)
    ensures HexDigit(b).Some? ==> HexDigit(b).value < 16
  {
  }

  function Prepend(c: char, rest: Option<string>): Option<string> {
    match rest
    case Some(s) => Some([c] + s)
    case None => None
  }

  /**
   * `+` is a space, `%XY` a byte; a `%` among the last two bytes stands for itself; a `%` followed by
   * anything but two hex digits fails the whole string.
   */
  function Decoded(bytes: seq<Byte>): Option<string> {
    if bytes == [] then Some("")
    else if bytes[0] as char == '+' then Prepend(' ', Decoded(bytes[1..]))
    else if bytes[0] as char == '%' && |bytes| > 2 then
      match (HexDigit(bytes[1]), HexDigit(bytes[2]))
      case (Some(hi), Some(lo)) =>
        HexDigitIsSmall(bytes[1]);
        HexDigitIsSmall(bytes[2]);
        Prepend((hi * 16 + lo) as char, Decoded(bytes[3..]))
      case _ => None
    else Prepend(bytes[0] as char, Decoded(bytes[1..]))
  }

  function Glue(front: string, rest: Option<string>): Option<string> {
    match rest
    case Some(s) => Some(front + s)
    case None => None
  }

  lemma GlueStep(front: string, c: char, rest: Option<string>)
    ensures Glue(front, Prepend(c, rest)) == Glue(front + [c], rest)
  {
    if rest.Some? {
      assert front + ([c] + rest.value) == (front + [c]) + rest.value;
    }
  }

  lemma GlueEnds(s: string, rest: Option<string>)
    ensures Glue("", rest) == rest && Glue(s, Some("")) == Some(s)
  {
    assert s + "" == s;
    assert rest.Some? ==> "" + rest.value == rest.value;
  }

  method UrlDecode(s: string) returns (decoded: Option<string>)
    ensures decoded == Decoded(Utf8(s))
  {
    var out, bytes, i := "", Utf8(s), 0;
    assert bytes[0..] == bytes;
    GlueEnds("", Decoded(bytes));
    while i < |bytes|
      invariant i <= |bytes|
      invariant Decoded(bytes) == Glue(out, Decoded(bytes[i..]))
      decreases |bytes| - i
    {
      var b := bytes[i];
      assert bytes[i..][1..] == bytes[i + 1..];
      if b as char == '+' {
        GlueStep(out, ' ', Decoded(bytes[i + 1..]));
        out := out + " ";
        i := i + 1;
      } else if b as char == '%' && i + 2 < |bytes| {
        assert bytes[i..][3..] == bytes[i + 3..];
        var hi, lo := HexDigit(bytes[i + 1]), HexDigit(bytes[i + 2]);
        HexDigitIsSmall(bytes[i + 1]);
        HexDigitIsSmall(bytes[i + 2]);
        if hi.None? || lo.None? {
          return None;
        }
        GlueStep(out, (hi.value * 16 + lo.value) as char, Decoded(bytes[i + 3..]));
        out := out + [(hi.value * 16 + lo.value) as char];
        i := i + 3;
      } else {
        GlueStep(out, b as char, Decoded(bytes[i + 1..]));
        out := out + [b as char];
        i := i + 1;
      }
    }
    GlueEnds(out, None);
    decoded := Some(out);
  }

  // ---------------------------------------------------------------- decoding undoes encoding

  predicate IsEncoding(s: string) {
    forall k :: 0 <= k < |s| ==> s[k] == '%' || (s[k] < '\U{80}' && IsPlain(s[k] as int))
  }

  lemma HexRoundTrip(d: nat)
    requires d < 16
    ensures HexDigitChar(d) < '\U{80}' && IsPlain(HexDigitChar(d) as int)
    ensures HexDigit(HexDigitChar(d) as int) == Some(d)
  {
  }

  lemma {:induction false} EncodedIsPlain(bytes: seq<Byte>)
    ensures IsEncoding(Encoded(bytes))
  {
    if bytes != [] {
      EncodedIsPlain(bytes[1..]);
      HexRoundTrip(bytes[0] / 16);
      HexRoundTrip(bytes[0] % 16);
    }
  }

  lemma {:induction false} Utf8Concat(s: string, t: string)
    ensures Utf8(s + t) == Utf8(s) + Utf8(t)
  {
    if s == "" {
      assert s + t == t;
    } else {
      assert (s + t)[1..] == s[1..] + t;
      Utf8Concat(s[1..], t);
    }
  }

  lemma Utf8OfEncodedByte(b: Byte)
    ensures Utf8(EncodedByte(b)) ==
      if IsPlain(b) then [b] else ['%' as int, HexDigitChar(b / 16) as int, HexDigitChar(b % 16) as int]
  {
    HexRoundTrip(b / 16);
    HexRoundTrip(b % 16);
    var s := EncodedByte(b);
    if IsPlain(b) {
      assert s[1..] == "";
    } else {
      assert s[1..][1..] == [s[2]] && [s[2]][1..] == "";
      assert Utf8([s[2]]) == [s[2] as int];
      assert Utf8(s[1..]) == [s[1] as int] + [s[2] as int];
    }
  }

  lemma DecodedEncodedByte(b: Byte, rest: seq<Byte>)
    ensures Decoded(Utf8(EncodedByte(b)) + rest) == Prepend(b as char, Decoded(rest))
  {
    Utf8OfEncodedByte(b);
    HexRoundTrip(b / 16);
    HexRoundTrip(b % 16);
    var code := Utf8(EncodedByte(b));
    if IsPlain(b) {
      assert (code + rest)[1..] == rest;
    } else {
      assert (code + rest)[3..] == rest;
    }
  }

  lemma {:induction false} DecodedEncoded(bytes: seq<Byte>)
    ensures Decoded(Utf8(Encoded(bytes))) == Some(Latin1(bytes))
  {
    if bytes != [] {
      DecodedEncoded(bytes[1..]);
      Utf8Concat(EncodedByte(bytes[0]), Encoded(bytes[1..]));
      DecodedEncodedByte(bytes[0], Utf8(Encoded(bytes[1..])));
      assert Latin1(bytes) == [bytes[0] as char] + Latin1(bytes[1..]);
    }
  }

  /**
   * Decoding an encoded string never fails and gives one character per UTF-8 byte; it gives the
   * string back iff the string is ASCII.
   */
  lemma DecodingUndoesEncodingIff(s: string)
    ensures Decoded(Utf8(Encoded(Utf8(s)))) == Some(Latin1(Utf8(s)))
    ensures Decoded(Utf8(Encoded(Utf8(s)))) == Some(s) <==> IsAscii(s)
  {
    DecodedEncoded(Utf8(s));
    Utf8IsLonger(s);
    if IsAscii(s) {
      Utf8OfAscii(s);
    }
  }

  /** A value that does not come back: one character of two bytes is read as two characters. */
  lemma AccentIsReadAsTwoCharacters()
    ensures Decoded(Utf8(Encoded(Utf8("\U{E9}")))) == Some("\U{C3}\U{A9}")
  {
    var s := "\U{E9}";
    assert s[1..] == "";
    assert Utf8(s) == [0xC3, 0xA9];
    assert Latin1([0xC3, 0xA9]) == "\U{C3}\U{A9}";
    DecodingUndoesEncodingIff(s);
  }

  // ---------------------------------------------------------------- query strings

  /** The JSON values a body may hold; the query only ever adds texts and flags. */
  datatype QueryValue = TextValue(text: string) | Flag | NumberValue(n: nat)

  type Body = map<string, QueryValue>

  /** `split_once`. */
  function SplitOnce(s: string, c: char): Option<(string, string)> {
    if s == "" then None
    else if s[0] == c then Some(("", s[1..]))
    else match SplitOnce(s[1..], c)
      case Some((before, after)) => Some(([s[0]] + before, after))
      case None => None
  }

  lemma {:induction false} SplitOnceAt(before: string, after: string, c: char)
    requires Lacks(before, c)
    ensures SplitOnce(before + [c] + after, c) == Some((before, after))
    ensures SplitOnce(before, c) == None
  {
    var s := before + [c] + after;
    if before == "" {
      assert s[1..] == after;
    } else {
      assert s[1..] == before[1..] + [c] + after;
      SplitOnceAt(before[1..], after, c);
      assert [before[0]] + before[1..] == before;
    }
  }

  /** The value of a `key=value` pair; a value that does not decode is taken as it is. */
  function PairValue(v: string): QueryValue {
    match Decoded(Utf8(v))
    case Some(text) => TextValue(text)
    case None => TextValue(v)
  }

  /** Keys are taken as they are; a pair without `=` is a flag; an empty pair is skipped. */
  function WithPair(body: Body, pair: string): Body {
    match SplitOnce(pair, '=')
    case Some((k, v)) => body[k := PairValue(v)]
    case None => if pair == "" then body else body[pair := Flag]
  }

  function WithPairs(body: Body, pairs: seq<string>): Body {
    if pairs == [] then body else WithPair(WithPairs(body, pairs[..|pairs| - 1]), pairs[|pairs| - 1])
  }

  /** One pair of the query goes into the body. */
  method AddPair(pair: string, body: Body) returns (parsed: Body)
    ensures parsed == WithPair(body, pair)
  {
    parsed := body;
    match SplitOnce(pair, '=') {
      case Some((k, v)) =>
        var decoded := UrlDecode(v);
        parsed := parsed[k := TextValue(if decoded.Some? then decoded.value else v)];
      case None =>
        if pair != "" {
          parsed := parsed[pair := Flag];
        }
    }
  }

  /** The dispatcher's query parsing: later pairs overwrite earlier ones and the body's own fields. */
  method ParseQuery(query: string, body: Body) returns (parsed: Body)
    ensures parsed == if query == "" then body else WithPairs(body, Split(query, '&'))
  {
    parsed := body;
    if query != "" {
      var pairs := Split(query, '&');
      for i := 0 to |pairs|
        invariant parsed == WithPairs(body, pairs[..i])
      {
        assert pairs[..i + 1][..i] == pairs[..i];
        parsed := AddPair(pairs[i], parsed);
      }
      assert pairs[..|pairs|] == pairs;
    }
  }

  // ---------------------------------------------------------------- parsing undoes building

  /** A key and the bytes of its value. */
  type Field = (string, seq<Byte>)

  predicate IsKey(k: string) {
    Lacks(k, '&') && Lacks(k, '=') && Lacks(k, '?')
  }

  function FieldText(f: Field): string {
    f.0 + "=" + Encoded(f.1)
  }

  function FieldTexts(fields: seq<Field>): seq<string> {
    seq(|fields|, k requires 0 <= k < |fields| => FieldText(fields[k]))
  }

  function WithFields(body: Body, fields: seq<Field>): Body {
    if fields == [] then body
    else WithFields(body, fields[..|fields| - 1])
      [fields[|fields| - 1].0 := TextValue(Latin1(fields[|fields| - 1].1))]
  }

  lemma EncodedLacks(bytes: seq<Byte>)
    ensures Lacks(Encoded(bytes), '&') && Lacks(Encoded(bytes), '=') && Lacks(Encoded(bytes), '?')
  {
    EncodedIsPlain(bytes);
  }

  lemma FieldTextIsPair(body: Body, f: Field)
    requires IsKey(f.0)
    ensures Lacks(FieldText(f), '&') && Lacks(FieldText(f), '?')
    ensures WithPair(body, FieldText(f)) == body[f.0 := TextValue(Latin1(f.1))]
  {
    EncodedLacks(f.1);
    SplitOnceAt(f.0, Encoded(f.1), '=');
    DecodedEncoded(f.1);
  }

  lemma {:induction false} WithPairsOfFields(body: Body, fields: seq<Field>)
    requires forall k :: 0 <= k < |fields| ==> IsKey(fields[k].0)
    ensures WithPairs(body, FieldTexts(fields)) == WithFields(body, fields)
  {
    if fields != [] {
      var n := |fields| - 1;
      WithPairsOfFields(body, fields[..n]);
      FieldTextIsPair(WithFields(body, fields[..n]), fields[n]);
      assert FieldTexts(fields)[..n] == FieldTexts(fields[..n]);
    }
  }

  /** Parsing a query built from encoded fields sets every key to its value, one character per byte. */
  lemma ParsingUndoesBuilding(body: Body, fields: seq<Field>)
    requires fields != [] && forall k :: 0 <= k < |fields| ==> IsKey(fields[k].0)
    ensures WithPairs(body, Split(Join(FieldTexts(fields), '&'), '&')) == WithFields(body, fields)
  {
    forall k | 0 <= k < |fields|
      ensures Lacks(FieldTexts(fields)[k], '&')
    {
      FieldTextIsPair(body, fields[k]);
    }
    SplitOfJoin(FieldTexts(fields), '&');
    WithPairsOfFields(body, fields);
  }

  // ---------------------------------------------------------------- the workspace tree request

  const TREE_PATH := "/api/workspace/tree"

  /** The path field of the query; an empty path is left out. */
  function PathField(path: Option<string>): seq<Field> {
    if path.Some? && path.value != "" then [("path", Utf8(path.value))] else []
  }

  function NumberField(key: string, n: Option<nat>): seq<Field> {
    if n.Some? then [(key, Utf8(Decimal(n.value)))] else []
  }

  /** The fields `get_workspace_tree` puts into the query. */
  function TreeFields(path: Option<string>, depth: Option<nat>, maxEntries: Option<nat>): seq<Field> {
    PathField(path) + NumberField("depth", depth) + NumberField("max_entries", maxEntries)
  }

  lemma {:induction false} EncodedDigits(bytes: seq<Byte>)
    requires forall k :: 0 <= k < |bytes| ==> '0' <= bytes[k] as char <= '9'
    ensures Encoded(bytes) == Latin1(bytes)
  {
    if bytes != [] {
      EncodedDigits(bytes[1..]);
      assert Latin1(bytes) == [bytes[0] as char] + Latin1(bytes[1..]);
    }
  }

  /** Numbers need no encoding. */
  lemma EncodedDecimal(n: nat)
    ensures Encoded(Utf8(Decimal(n))) == Decimal(n) && Latin1(Utf8(Decimal(n))) == Decimal(n)
  {
    DecimalIsDigits(n);
    Utf8OfAscii(Decimal(n));
    var bytes := Utf8(Decimal(n));
    assert forall k :: 0 <= k < |bytes| ==> bytes[k] as char == Latin1(bytes)[k];
    EncodedDigits(bytes);
  }

  lemma FieldTextsConcat(a: seq<Field>, b: seq<Field>)
    ensures FieldTexts(a + b) == FieldTexts(a) + FieldTexts(b)
  {
  }

  /** Appends a number as `key=digits`. */
  method PushNumber(q: seq<string>, key: string, n: Option<nat>) returns (q': seq<string>)
    ensures q' == q + FieldTexts(NumberField(key, n))
  {
    q' := q;
    if n.Some? {
      EncodedDecimal(n.value);
      q' := q' + [key + "=" + Decimal(n.value)];
    }
  }

  function TreeRequest(fields: seq<Field>): string {
    if fields == [] then TREE_PATH else TREE_PATH + "?" + Join(FieldTexts(fields), '&')
  }

  method GetWorkspaceTree(path: Option<string>, depth: Option<nat>, maxEntries: Option<nat>)
    returns (request: string)
    ensures request == TreeRequest(TreeFields(path, depth, maxEntries))
  {
    var q: seq<string> := [];
    if path.Some? && path.value != "" {
      var p := UrlEncode(path.value);
      q := q + ["path" + "=" + p];
    }
    assert q == FieldTexts(PathField(path));
    q := PushNumber(q, "depth", depth);
    q := PushNumber(q, "max_entries", maxEntries);
    FieldTextsConcat(PathField(path), NumberField("depth", depth));
    FieldTextsConcat(PathField(path) + NumberField("depth", depth), NumberField("max_entries", maxEntries));
    request := if q == [] then TREE_PATH else TREE_PATH + "?" + Join(q, '&');
  }

  /** The dispatcher's view of a request: the path before the first `?` and the parsed query. */
  function Received(request: string): (string, Body) {
    match SplitOnce(request, '?')
    case Some((path, query)) => (path, if query == "" then map[] else WithPairs(map[], Split(query, '&')))
    case None => (request, map[])
  }

  lemma FieldsAreReceived(base: string, fields: seq<Field>)
    requires Lacks(base, '?') && fields != [] && forall k :: 0 <= k < |fields| ==> IsKey(fields[k].0)
    ensures Received(base + "?" + Join(FieldTexts(fields), '&')) == (base, WithFields(map[], fields))
  {
    var query := Join(FieldTexts(fields), '&');
    SplitOnceAt(base, query, '?');
    assert "?" == ['?'];
    assert |FieldTexts(fields)[0]| > 0 && |query| >= |FieldTexts(fields)[0]|;
    ParsingUndoesBuilding(map[], fields);
  }

  lemma TreeNamesAreClean()
    ensures Lacks(TREE_PATH, '?') && IsKey("path") && IsKey("depth") && IsKey("max_entries")
  {
  }

  /** The dispatcher receives the path of the route and exactly the fields that were sent. */
  lemma TreeRequestIsReceived(path: Option<string>, depth: Option<nat>, maxEntries: Option<nat>)
    ensures var fields := TreeFields(path, depth, maxEntries);
      Received(TreeRequest(fields)) == (TREE_PATH, WithFields(map[], fields))
  {
    var fields := TreeFields(path, depth, maxEntries);
    TreeNamesAreClean();
    if fields == [] {
      SplitOnceAt(TREE_PATH, "", '?');
    } else {
      FieldsAreReceived(TREE_PATH, fields);
    }
  }

  lemma {:induction false} WithFieldsConcat(body: Body, a: seq<Field>, b: seq<Field>)
    ensures WithFields(body, a + b) == WithFields(WithFields(body, a), b)
  {
    if b == [] {
      assert a + b == a;
    } else {
      assert (a + b)[..|a + b| - 1] == a + b[..|b| - 1];
      WithFieldsConcat(body, a, b[..|b| - 1]);
    }
  }

  lemma WithNumber(body: Body, key: string, n: Option<nat>)
    ensures WithFields(body, NumberField(key, n)) ==
      if n.Some? then body[key := TextValue(Decimal(n.value))] else body
  {
    if n.Some? {
      EncodedDecimal(n.value);
      var fields := NumberField(key, n);
      assert fields[..|fields| - 1] == [];
    }
  }

  lemma WithPath(body: Body, path: Option<string>)
    ensures WithFields(body, PathField(path)) ==
      if path.Some? && path.value != "" then body["path" := TextValue(Latin1(Utf8(path.value)))] else body
    ensures path.Some? && IsAscii(path.value) ==> Latin1(Utf8(path.value)) == path.value
  {
    if path.Some? && IsAscii(path.value) {
      Utf8OfAscii(path.value);
    }
    var fields := PathField(path);
    assert fields != [] ==> fields[..|fields| - 1] == [];
  }

  /** What the body of the request holds: the path as sent if it is ASCII, and the numbers as decimal texts. */
  lemma TreeFieldsAreRecovered(path: Option<string>, depth: Option<nat>, maxEntries: Option<nat>)
    ensures var body := WithFields(map[], TreeFields(path, depth, maxEntries));
      && ("path" in body <==> path.Some? && path.value != "")
      && ("path" in body ==> body["path"] == TextValue(Latin1(Utf8(path.value))))
      && ("path" in body && IsAscii(path.value) ==> body["path"] == TextValue(path.value))
      && ("depth" in body <==> depth.Some?)
      && ("depth" in body ==> body["depth"] == TextValue(Decimal(depth.value)))
      && ("max_entries" in body <==> maxEntries.Some?)
      && ("max_entries" in body ==> body["max_entries"] == TextValue(Decimal(maxEntries.value)))
  {
    var a, b, c := PathField(path), NumberField("depth", depth), NumberField("max_entries", maxEntries);
    WithFieldsConcat(map[], a + b, c);
    WithFieldsConcat(map[], a, b);
    WithPath(map[], path);
    WithNumber(WithFields(map[], a), "depth", depth);
    WithNumber(WithFields(map[], a + b), "max_entries", maxEntries);
    assert "path"[0] != "depth"[0] && "path"[0] != "max_entries"[0] && "depth"[0] != "max_entries"[0];
  }
}
