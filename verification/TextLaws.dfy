// What trimming and searching a text give: the trimmed text is what stands between white space, and a
// text contains another iff it stands at some position.
module TextLaws {
  import opened Text

  // ---------------------------------------------------------------- white space

  /** The 25 code points of the property White_Space in the Unicode character database. */
  const WHITE_SPACE: seq<char> := [
    '\U{9}', '\U{A}', '\U{B}', '\U{C}', '\U{D}', '\U{20}', '\U{85}', '\U{A0}', '\U{1680}',
    '\U{2000}', '\U{2001}', '\U{2002}', '\U{2003}', '\U{2004}', '\U{2005}', '\U{2006}', '\U{2007}', '\U{2008}',
    '\U{2009}', '\U{200A}', '\U{2028}', '\U{2029}', '\U{202F}', '\U{205F}', '\U{3000}']

  lemma WhitespaceIsListed(c: char)
    ensures |WHITE_SPACE| == 25
    ensures IsWhitespace(c) <==> c in WHITE_SPACE
  {
    assert '\t' == '\U{9}' && '\r' == '\U{D}' && ' ' == '\U{20}';
  }

  predicate IsBlank(s: string) {
    forall k :: 0 <= k < |s| ==> IsWhitespace(s[k])
  }

  // ---------------------------------------------------------------- trimming

  lemma {:induction false} TrimStartIsRest(s: string) returns (front: string)
    ensures s == front + TrimStart(s) && IsBlank(front)
    ensures TrimStart(s) == "" || !IsWhitespace(TrimStart(s)[0])
  {
    if s != "" && IsWhitespace(s[0]) {
      var rest := TrimStartIsRest(s[1..]);
      front := [s[0]] + rest;
      assert s == [s[0]] + s[1..];
    } else {
      front := "";
    }
  }

  lemma {:induction false} TrimEndIsFront(s: string) returns (back: string)
    ensures s == TrimEnd(s) + back && IsBlank(back)
    ensures TrimEnd(s) == "" || !IsWhitespace(TrimEnd(s)[|TrimEnd(s)| - 1])
    ensures s != "" && !IsWhitespace(s[0]) ==> TrimEnd(s) != "" && TrimEnd(s)[0] == s[0]
  {
    if s != "" && IsWhitespace(s[|s| - 1]) {
      var rest := TrimEndIsFront(s[..|s| - 1]);
      back := rest + [s[|s| - 1]];
      assert s == s[..|s| - 1] + [s[|s| - 1]];
    } else {
      back := "";
    }
  }

  /** Trimming leaves what stands between white space, without white space at its own ends. */
  lemma TrimIsMiddle(s: string) returns (front: string, back: string)
    ensures s == front + Trim(s) + back && IsBlank(front) && IsBlank(back)
    ensures IsTrimmed(Trim(s))
  {
    front := TrimStartIsRest(s);
    back := TrimEndIsFront(TrimStart(s));
  }

  lemma {:induction false} TrimStartOfPadded(front: string, s: string)
    requires IsBlank(front)
    ensures TrimStart(front + s) == TrimStart(s)
  {
    if front == "" {
      assert front + s == s;
    } else {
      assert (front + s)[1..] == front[1..] + s;
      TrimStartOfPadded(front[1..], s);
    }
  }

  lemma {:induction false} TrimEndOfPadded(s: string, back: string)
    requires IsBlank(back)
    ensures TrimEnd(s + back) == TrimEnd(s)
  {
    if back == "" {
      assert s + back == s;
    } else {
      var shorter := back[..|back| - 1];
      assert (s + back)[..|s + back| - 1] == s + shorter;
      TrimEndOfPadded(s, shorter);
    }
  }

  lemma {:induction false} TrimStartOfBlank(s: string)
    requires IsBlank(s)
    ensures TrimStart(s) == ""
  {
    if s != "" {
      TrimStartOfBlank(s[1..]);
    }
  }

  /** There is one text that can be left between white space. */
  lemma TrimIsUnique(s: string, front: string, middle: string, back: string)
    requires s == front + middle + back && IsBlank(front) && IsBlank(back) && IsTrimmed(middle)
    ensures Trim(s) == middle
  {
    assert s == front + (middle + back);
    TrimStartOfPadded(front, middle + back);
    if middle == "" {
      assert middle + back == back;
      TrimStartOfBlank(back);
    } else {
      assert (middle + back)[0] == middle[0];
      TrimEndOfPadded(middle, back);
    }
  }

  /** When something is left, so is the white space around it. */
  lemma PaddingIsUnique(s: string, f: string, b: string, f': string, b': string)
    requires Trim(s) != "" && IsTrimmed(Trim(s))
    requires s == f + Trim(s) + b && IsBlank(f) && IsBlank(b)
    requires s == f' + Trim(s) + b' && IsBlank(f') && IsBlank(b')
    ensures f == f' && b == b'
  {
    var m := Trim(s);
    FrontIsNoLonger(s, f, b, f', b');
    FrontIsNoLonger(s, f', b', f, b);
    assert s[..|f|] == f && s[..|f'|] == f';
    assert s[|f| + |m|..] == b && s[|f'| + |m|..] == b';
  }

  lemma FrontIsNoLonger(s: string, f: string, b: string, f': string, b': string)
    requires Trim(s) != "" && IsTrimmed(Trim(s))
    requires s == f + Trim(s) + b && IsBlank(f) && s == f' + Trim(s) + b'
    ensures |f| <= |f'|
  {
    assert s[|f'|] == Trim(s)[0];
    assert forall k :: 0 <= k < |f| ==> s[k] == f[k];
  }

  /** `padded` is `s` with white space around it. */
  ghost predicate IsPadded(s: string, padded: string) {
    exists front, back :: IsBlank(front) && IsBlank(back) && padded == front + s + back
  }

  /** White space around a text makes no difference. */
  lemma PaddingIsTrimmed(s: string, padded: string)
    requires IsPadded(s, padded)
    ensures Trim(padded) == Trim(s)
  {
    var front, back :| IsBlank(front) && IsBlank(back) && padded == front + s + back;
    var f, b := TrimIsMiddle(s);
    assert padded == (front + f) + Trim(s) + (b + back);
    TrimIsUnique(padded, front + f, Trim(s), b + back);
  }

  // ---------------------------------------------------------------- substrings

  predicate StandsAt(s: string, sub: string, k: nat) {
    k + |sub| <= |s| && s[k..k + |sub|] == sub
  }

  /** A text contains another iff it stands somewhere in it. */
  lemma {:induction false} ContainsIff(s: string, sub: string)
    ensures ContainsText(s, sub) <==> exists k: nat :: StandsAt(s, sub, k)
  {
    if sub <= s {
      assert s[0..0 + |sub|] == sub;
      assert StandsAt(s, sub, 0);
    } else if s != "" {
      ContainsIff(s[1..], sub);
      if k: nat :| StandsAt(s[1..], sub, k) {
        assert s[1..][k..k + |sub|] == s[k + 1..k + 1 + |sub|];
        assert StandsAt(s, sub, k + 1);
      }
      if k: nat :| StandsAt(s, sub, k) {
        StandsBehindFirst(s, sub, k);
      }
    }
  }

  lemma StandsBehindFirst(s: string, sub: string, k: nat)
    requires StandsAt(s, sub, k) && !(sub <= s) && s != ""
    ensures k > 0 && StandsAt(s[1..], sub, k - 1)
  {
    if k > 0 {
      assert s[1..][k - 1..k - 1 + |sub|] == s[k..k + |sub|];
    }
  }

  /** A text contains whatever it is put together from. */
  lemma ContainsMiddle(front: string, sub: string, back: string)
    ensures ContainsText(front + sub + back, sub)
  {
    var s := front + sub + back;
    assert s[|front|..|front| + |sub|] == sub;
    assert StandsAt(s, sub, |front|);
    ContainsIff(s, sub);
  }
}
