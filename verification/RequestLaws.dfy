// How single pieces of a request are read: escapes and pairs of a query, segments of a path, and the
// segments of a registered pattern.
module RequestLaws {
  import opened Text
  import opened Queries
  import opened Routes

  // ---------------------------------------------------------------- UTF-8

  predicate Continues(b: Byte) {
    0x80 <= b < 0xC0
  }

  /** The number that the payload bits of these bytes make up, six bits in each continuation byte. */
  function Payload(bytes: seq<int>): int
    requires 1 <= |bytes| <= 4
  {
    if |bytes| == 1 then bytes[0]
    else if |bytes| == 2 then 0x40 * (bytes[0] - 0xC0) + (bytes[1] - 0x80)
    else if |bytes| == 3 then 0x1000 * (bytes[0] - 0xE0) + 0x40 * (bytes[1] - 0x80) + (bytes[2] - 0x80)
    else 0x4_0000 * (bytes[0] - 0xF0) + 0x1000 * (bytes[1] - 0x80) + 0x40 * (bytes[2] - 0x80) + (bytes[3] - 0x80)
  }

  lemma SixBits(n: nat)
    ensures n == 0x40 * (n / 0x40) + n % 0x40
    ensures n / 0x40 == 0x40 * (n / 0x1000) + n / 0x40 % 0x40
    ensures n / 0x1000 == 0x40 * (n / 0x4_0000) + n / 0x1000 % 0x40
  {
    assert n / 0x40 / 0x40 == n / 0x1000 && n / 0x1000 / 0x40 == n / 0x4_0000;
  }

  /** A character is written in as few bytes as its number needs, and they hold that number. */
  lemma Utf8CharIs(c: char)
    ensures var n, bytes := c as int, Utf8Char(c);
      && |bytes| == (if n < 0x80 then 1 else if n < 0x800 then 2 else if n < 0x1_0000 then 3 else 4)
      && Payload(bytes) == n
      && forall k :: 1 <= k < |bytes| ==> Continues(bytes[k])
  {
    SixBits(c as int);
  }

  // ---------------------------------------------------------------- encoding

  const UPPER: set<char> := {
    'A', 'B', 'C', 'D', 'E', 'F', 'G', 'H', 'I', 'J', 'K', 'L', 'M', 'N', 'O', 'P', 'Q', 'R', 'S', 'T', 'U', 'V', 'W', 'X', 'Y', 'Z'}
  const LOWER: set<char> := {
    'a', 'b', 'c', 'd', 'e', 'f', 'g', 'h', 'i', 'j', 'k', 'l', 'm', 'n', 'o', 'p', 'q', 'r', 's', 't', 'u', 'v', 'w', 'x', 'y', 'z'}
  const DIGITS: set<char> := {'0', '1', '2', '3', '4', '5', '6', '7', '8', '9'}

  /** The unreserved characters of RFC 3986, section 2.3, and the two this encoder keeps besides. */
  const KEPT: set<char> := UPPER + LOWER + DIGITS + {'-', '.', '_', '~'} + {'/', ':'}

  lemma LetterRanges(c: char)
    ensures c in UPPER ==> 'A' <= c <= 'Z'
    ensures c in LOWER ==> 'a' <= c <= 'z'
    ensures c in DIGITS ==> '0' <= c <= '9'
  {
  }

  lemma KeptIff(b: Byte)
    ensures IsPlain(b) <==> b as char in KEPT
  {
    LettersAreKept(b);
    LetterRanges(b as char);
  }

  lemma LettersAreKept(b: Byte)
    ensures 'A' <= b as char <= 'Z' || 'a' <= b as char <= 'z' || '0' <= b as char <= '9' ==> b as char in KEPT
  {
    if 65 <= b <= 90 {
      UpperAreKept(b);
    } else if 97 <= b <= 122 {
      LowerAreKept(b);
    } else if 48 <= b <= 57 {
      assert b in {48, 49, 50, 51, 52, 53, 54, 55, 56, 57};
    }
  }

  lemma UpperAreKept(b: Byte)
    requires 65 <= b <= 90
    ensures b as char in KEPT
  {
    assert b in {65, 66, 67, 68, 69, 70, 71, 72, 73, 74, 75, 76, 77, 78, 79, 80, 81, 82, 83, 84, 85, 86, 87, 88, 89, 90};
  }

  lemma LowerAreKept(b: Byte)
    requires 97 <= b <= 122
    ensures b as char in KEPT
  {
    assert b in {97, 98, 99, 100, 101, 102, 103, 104, 105, 106, 107, 108, 109, 110, 111, 112, 113, 114, 115, 116, 117,
                 118, 119, 120, 121, 122};
  }

  const UPPER_HEX: string := "0123456789ABCDEF"

  /** A byte is kept, or written as a percent sign and its two upper-case digits. */
  lemma EncodedByteIs(b: Byte)
    ensures b as char in KEPT ==> EncodedByte(b) == [b as char]
    ensures b as char !in KEPT ==> EncodedByte(b) == "%" + [UPPER_HEX[b / 16]] + [UPPER_HEX[b % 16]]
  {
    KeptIff(b);
    UpperHexIs(b / 16);
    UpperHexIs(b % 16);
  }

  lemma UpperHexIs(d: nat)
    requires d < 16
    ensures HexDigitChar(d) == UPPER_HEX[d]
  {
  }

  /** Texts are encoded byte by byte. */
  lemma {:induction false} EncodedConcat(a: seq<Byte>, b: seq<Byte>)
    ensures Encoded(a + b) == Encoded(a) + Encoded(b)
  {
    if a == [] {
      assert a + b == b;
    } else {
      assert (a + b)[1..] == a[1..] + b;
      EncodedConcat(a[1..], b);
      Associates(EncodedByte(a[0]), Encoded(a[1..]), Encoded(b));
    }
  }

  // ---------------------------------------------------------------- decoding

  /** The value of a digit, in either case. */
  predicate IsHexDigit(b: Byte, d: nat) {
    d < 16 && (b as char == UPPER_HEX[d] || b as char == "0123456789abcdef"[d])
  }

  lemma HexDigitIff(b: Byte, d: nat)
    ensures HexDigit(b) == Some(d) <==> IsHexDigit(b, d)
  {
  }

  lemma PlusIsSpace(rest: seq<Byte>)
    ensures Decoded(['+' as int] + rest) == Prepend(' ', Decoded(rest))
  {
    assert (['+' as int] + rest)[1..] == rest;
  }

  /** A percent sign and two digits, of either case, are the byte they denote. */
  lemma EscapeIsByte(hi: Byte, h: nat, lo: Byte, l: nat, rest: seq<Byte>)
    requires IsHexDigit(hi, h) && IsHexDigit(lo, l)
    ensures Decoded(['%' as int, hi, lo] + rest) == Prepend((16 * h + l) as char, Decoded(rest))
  {
    var bytes := ['%' as int, hi, lo] + rest;
    HexDigitIff(hi, h);
    HexDigitIff(lo, l);
    assert bytes[3..] == rest && bytes[0] as char == '%' && bytes[1] == hi && bytes[2] == lo;
    assert 16 * h + l == h * 16 + l;
  }

  /** A percent sign before two bytes that are not both digits fails the whole text. */
  lemma BadEscapeFails(x: Byte, y: Byte, rest: seq<Byte>)
    requires (forall d :: !IsHexDigit(x, d)) || (forall d :: !IsHexDigit(y, d))
    ensures Decoded(['%' as int, x, y] + rest) == None
  {
    if HexDigit(x).Some? {
      HexDigitIff(x, HexDigit(x).value);
    }
    if HexDigit(y).Some? {
      HexDigitIff(y, HexDigit(y).value);
    }
  }

  /** Any other byte stands for itself, and so does a percent sign among the last two. */
  lemma OtherByteIsKept(b: Byte, rest: seq<Byte>)
    requires b as char != '+' && (b as char == '%' ==> |rest| < 2)
    ensures Decoded([b] + rest) == Prepend(b as char, Decoded(rest))
    ensures Decoded([]) == Some("")
  {
    assert ([b] + rest)[1..] == rest;
  }

  // ---------------------------------------------------------------- pairs

  /** A pair without an equals sign is a flag, the empty one nothing. */
  lemma FlagsAndEmptyPairs(body: Body, pair: string)
    requires Lacks(pair, '=')
    ensures WithPair(body, pair) == if pair == "" then body else body[pair := Flag]
  {
    SplitOnceAt(pair, "", '=');
  }

  /** A pair sets its key, whatever it was, to the decoded value, or to the value as it is. */
  lemma PairSetsKey(body: Body, key: string, value: string)
    requires Lacks(key, '=')
    ensures var text := match Decoded(Utf8(value)) case Some(decoded) => decoded case None => value;
      WithPair(body, key + "=" + value) == body[key := TextValue(text)]
  {
    SplitOnceAt(key, value, '=');
    assert key + "=" + value == key + ['='] + value;
  }

  /** Pairs are taken in order. */
  lemma {:induction false} PairsConcat(body: Body, a: seq<string>, b: seq<string>)
    ensures WithPairs(body, a + b) == WithPairs(WithPairs(body, a), b)
  {
    if b == [] {
      assert a + b == a;
    } else {
      assert (a + b)[..|a + b| - 1] == a + b[..|b| - 1];
      PairsConcat(body, a, b[..|b| - 1]);
    }
  }

  // ---------------------------------------------------------------- segments

  lemma {:induction false} NonEmptyConcat(a: seq<string>, b: seq<string>)
    ensures NonEmpty(a + b) == NonEmpty(a) + NonEmpty(b)
  {
    if a == [] {
      assert a + b == b;
    } else {
      assert (a + b)[1..] == a[1..] + b;
      NonEmptyConcat(a[1..], b);
    }
  }

  /** A piece in front of a slash is a segment unless it is empty. */
  lemma SegmentInFront(piece: string, rest: string)
    requires Lacks(piece, '/')
    ensures Segments(piece + "/" + rest) == (if piece == "" then [] else [piece]) + Segments(rest)
    ensures Segments(piece) == if piece == "" then [] else [piece]
  {
    SplitFirst(piece, rest, '/');
    assert piece + "/" + rest == piece + ['/'] + rest;
    assert [piece][1..] == [];
    NonEmptyConcat([piece], Split(rest, '/'));
  }

  // ---------------------------------------------------------------- patterns

  /** A name in braces is a placeholder of that name, with a plus sign behind it a wildcard. */
  lemma BracedSegments(name: string)
    ensures IsWildcard("{" + name + "+}") && NameOf("{" + name + "+}") == name
    ensures name == "" || name[|name| - 1] != '+' ==>
      IsPlaceholder("{" + name + "}") && NameOf("{" + name + "}") == name
  {
    var wildcard, plain := "{" + name + "+}", "{" + name + "}";
    assert wildcard[1..|wildcard| - 2] == name;
    assert plain[1..|plain| - 1] == name;
    assert name != "" ==> plain[|plain| - 2] == name[|name| - 1];
  }

  /** Any other segment is a literal. */
  lemma LiteralIff(pat: string)
    ensures IsLiteral(pat) <==> !exists name :: pat == "{" + name + "}"
  {
    if !IsLiteral(pat) {
      assert pat == "{" + pat[1..|pat| - 1] + "}";
    }
    if name :| pat == "{" + name + "}" {
      assert pat[0] == '{' && pat[|pat| - 1] == '}';
    }
  }

  /** The names of the segments that stand for others. */
  function Names(pattern: seq<string>): seq<string> {
    if pattern == [] then []
    else
      var last := pattern[|pattern| - 1];
      Names(pattern[..|pattern| - 1]) + if IsLiteral(last) then [] else [NameOf(last)]
  }

  function NamesOf(values: seq<Binding>): (names: seq<string>)
    ensures |names| == |values|
    ensures forall k :: 0 <= k < |values| ==> names[k] == values[k].0
  {
    seq(|values|, k requires 0 <= k < |values| => values[k].0)
  }

  /** The handler is given one value for each such segment, under its name. */
  lemma {:induction false} BindingsAreNamed(pattern: seq<string>, blocks: seq<seq<string>>)
    requires |blocks| == |pattern|
    ensures NamesOf(BindingsOf(pattern, blocks)) == Names(pattern)
  {
    if pattern != [] {
      var n := |pattern| - 1;
      BindingsAreNamed(pattern[..n], blocks[..n]);
      var before, bound := BindingsOf(pattern[..n], blocks[..n]), Bound(pattern[n], blocks[n]);
      assert NamesOf(before + bound) == NamesOf(before) + NamesOf(bound);
    }
  }
}
