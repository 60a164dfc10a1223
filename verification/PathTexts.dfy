// Paths as texts: `normalize_path` drops a verbatim prefix by slicing the bytes of the text, splits
// the rest into components and writes their normal form. A text stands for its UTF-8 bytes.
module PathTexts {
  import opened Text
  import opened WorkspacePaths

  // ---------------------------------------------------------------- texts and components

  /** The components of the pieces between slashes; empty pieces and `.` are none. */
  function Pieces(parts: seq<string>): Path {
    if parts == [] then [] else PieceOf(parts[0]) + Pieces(parts[1..])
  }

  function PieceOf(part: string): Path {
    if part == "" || part == "." then []
    else if part == ".." then [ParentDir]
    else [Normal(part)]
  }

  /** How a path starts: at the root, with a `.`, or with neither. */
  function Lead(s: string): Path {
    if s != "" && s[0] == '/' then [RootDir] else if Split(s, '/')[0] == "." then [CurDir] else []
  }

  /** `Path::components`: a `.` only counts where a relative path starts with it. */
  function Components(s: string): Path {
    Lead(s) + Pieces(Split(s, '/'))
  }

  function NameText(c: Component): string {
    match c
    case Normal(name) => name
    case ParentDir => ".."
    case CurDir => "."
    case RootDir => ""
  }

  function NameTexts(p: Path): seq<string> {
    seq(|p|, k requires 0 <= k < |p| => NameText(p[k]))
  }

  /** A path pushed together component by component. */
  function TextOf(p: Path): string {
    if IsAbsolute(p) then "/" + Join(NameTexts(p[1..]), '/') else Join(NameTexts(p), '/')
  }

  /** What stands between slashes and is neither empty nor `.` nor `..`. */
  predicate IsName(s: string) {
    s != "" && s != "." && s != ".." && Lacks(s, '/')
  }

  predicate HasNames(p: Path) {
    forall k :: 0 <= k < |p| && p[k].Normal? ==> IsName(p[k].name)
  }

  lemma {:induction false} PiecesHaveNames(parts: seq<string>)
    requires forall k :: 0 <= k < |parts| ==> Lacks(parts[k], '/')
    ensures HasNames(Pieces(parts)) && IsRelative(Pieces(parts))
  {
    if parts != [] {
      PiecesHaveNames(parts[1..]);
    }
  }

  lemma ComponentsHaveNames(s: string)
    ensures HasNames(Components(s))
    ensures IsAbsolute(Components(s)) <==> s != "" && s[0] == '/'
  {
    PiecesHaveNames(Split(s, '/'));
  }

  lemma {:induction false} WalkHasNames(out: Path, p: Path)
    requires HasNames(out) && HasNames(p)
    ensures HasNames(Walk(out, p))
  {
    if p != [] {
      WalkHasNames(out, p[..|p| - 1]);
    }
  }

  lemma {:induction false} PiecesOfNames(p: Path)
    requires HasNames(p) && forall k :: 0 <= k < |p| ==> p[k].Normal?
    ensures Pieces(NameTexts(p)) == p
  {
    if p != [] {
      PiecesOfNames(p[1..]);
      assert NameTexts(p)[1..] == NameTexts(p[1..]);
      assert p == [p[0]] + p[1..];
    }
  }

  lemma {:induction false} JoinStarts(parts: seq<string>, c: char)
    requires parts != [] && parts[0] != ""
    ensures Join(parts, c) != "" && Join(parts, c)[0] == parts[0][0]
  {
  }

  lemma SplitSlash(s: string)
    ensures Split("/" + s, '/') == [""] + Split(s, '/')
  {
    SplitFirst("", s, '/');
    assert "" + ['/'] + s == "/" + s;
  }

  lemma AbsoluteReadsBack(names: Path)
    requires HasNames(names) && forall k :: 0 <= k < |names| ==> names[k].Normal?
    ensures Components("/" + Join(NameTexts(names), '/')) == [RootDir] + names
  {
    var texts := NameTexts(names);
    var text := Join(texts, '/');
    SplitSlash(text);
    assert ([""] + Split(text, '/'))[1..] == Split(text, '/');
    PiecesOfNames(names);
    if names == [] {
      assert [""][1..] == [];
      assert Pieces([""]) == [];
    } else {
      SplitOfJoin(texts, '/');
    }
    assert [] + names == names;
  }

  lemma RelativeReadsBack(names: Path)
    requires names != [] && HasNames(names) && forall k :: 0 <= k < |names| ==> names[k].Normal?
    ensures Components(Join(NameTexts(names), '/')) == names
  {
    var texts := NameTexts(names);
    SplitOfJoin(texts, '/');
    PiecesOfNames(names);
    JoinStarts(texts, '/');
    assert IsName(names[0].name);
  }

  /** The text of a normal form has that form's components. */
  lemma NormalFormReadsBack(p: Path)
    requires IsNormal(p) && HasNames(p)
    ensures Components(TextOf(p)) == p
  {
    if p == [CurDir] {
      SplitFirst(".", "", '/');
      assert Pieces(["."]) == [] by {
        assert ["."][1..] == [];
      }
      assert TextOf(p) == ".";
      assert [CurDir] + [] == [CurDir];
    } else if IsAbsolute(p) {
      AbsoluteReadsBack(p[1..]);
      assert p == [RootDir] + p[1..];
    } else {
      RelativeReadsBack(p);
    }
  }

  // ---------------------------------------------------------------- normalising a text

  const VERBATIM: string := "\\\\?\\"
  const VERBATIM_UNC: string := "\\\\?\\UNC\\"

  function Upper(s: string): (u: string)
    ensures |u| == |s|
  {
    seq(|s|, k requires 0 <= k < |s| => if 'a' <= s[k] <= 'z' then s[k] - 'a' + 'A' else s[k])
  }

  /** The text starts with the prefix of a verbatim share, in either case. */
  predicate StartsWithUnc(s: string) {
    |s| >= 8 && Upper(s[..8]) == VERBATIM_UNC
  }

  /** The text without its verbatim prefix, if it has one. */
  function Stripped(s: string): string {
    if StartsWithUnc(s) then "\\\\" + s[8..]
    else if VERBATIM <= s then s[4..]
    else s
  }

  /** The code slices the text at byte 8 and at byte 4 to look for a prefix, which panics inside a character. */
  predicate SlicesCharacter(s: string) {
    CutsCharacter(s, 4) || CutsCharacter(s, 8)
  }

  /** None if the code panics. */
  function NormalizedText(s: string): Option<string> {
    if SlicesCharacter(s) then None else Some(TextOf(Normalized(Components(Stripped(s)))))
  }

  lemma UpperOfVerbatim(s: string)
    requires |s| >= 4
    ensures Upper(s[..4]) == VERBATIM <==> VERBATIM <= s
    ensures StartsWithUnc(s) ==> VERBATIM <= s
  {
    assert VERBATIM_UNC[..4] == VERBATIM;
    assert forall k :: 0 <= k < 4 ==> (Upper(s[..4])[k] == VERBATIM[k] <==> s[k] == VERBATIM[k]);
    if StartsWithUnc(s) {
      assert forall k :: 0 <= k < 4 ==> Upper(s[..8])[k] == VERBATIM_UNC[k] && VERBATIM_UNC[k] == VERBATIM[k];
    }
  }

  lemma UncCutsNone(s: string)
    requires StartsWithUnc(s)
    ensures !CutsCharacter(s, 4)
  {
    assert Upper(s[..8])[4] == 'U';
  }

  /** The two tests for a prefix, byte 8 before byte 4. */
  method StripVerbatim(s: string) returns (stripped: Option<string>)
    ensures stripped.None? <==> SlicesCharacter(s)
    ensures stripped.Some? ==> stripped.value == Stripped(s)
  {
    if |s| >= 8 {
      if CutsCharacter(s, 8) {
        return None;
      }
      if Upper(s[..8]) == VERBATIM_UNC {
        UncCutsNone(s);
        return Some("\\\\" + s[8..]);
      }
    }
    if |s| >= 4 {
      if CutsCharacter(s, 4) {
        return None;
      }
      UpperOfVerbatim(s);
      if Upper(s[..4]) == VERBATIM {
        return Some(s[4..]);
      }
    }
    stripped := Some(s);
  }

  method NormalizePathText(s: string) returns (normalized: Option<string>)
    ensures normalized == NormalizedText(s)
  {
    var stripped := StripVerbatim(s);
    if stripped.None? {
      return None;
    }
    var out := NormalizePath(Components(stripped.value));
    normalized := Some(TextOf(out));
  }

  lemma NormalHasNames(s: string)
    ensures var p := Normalized(Components(s));
      IsNormal(p) && HasNames(p) && Components(TextOf(p)) == p
  {
    ComponentsHaveNames(s);
    WalkHasNames([], Components(s));
    NormalizeIsIdempotent(Components(s));
    NormalFormReadsBack(Normalized(Components(s)));
  }

  // ---------------------------------------------------------------- normalising twice

  lemma FirstPiece(name: string, parts: seq<string>)
    ensures Pieces([name] + parts) == PieceOf(name) + Pieces(parts)
    ensures Pieces([name]) == PieceOf(name)
  {
    assert ([name] + parts)[1..] == parts && [name][1..] == [];
    assert PieceOf(name) + [] == PieceOf(name);
  }

  /** Another component in front of the same names is another path. */
  lemma OtherNameOtherPath(name: string, other: string, first: Path, names: Path)
    requires IsPlain([Normal(name)] + names) && |other| < |name|
    requires first == [RootDir] || first == [CurDir] || first == PieceOf(other)
    ensures Normalized(first + names) != [Normal(name)] + names
  {
    assert forall k :: 0 <= k < |names| ==> names[k] == ([Normal(name)] + names)[k + 1];
    WalkConcat([], first, names);
    WalkNames(Walk([], first), names);
    var out := Walk([], first);
    FirstWalked(other, first);
    assert out != [] ==> out[0] != Normal(name);
    if out + names == [Normal(name)] + names {
      SamePrefix(out, [Normal(name)], names);
    }
    assert ([Normal(name)] + names)[0] != CurDir;
  }

  lemma FirstWalked(other: string, first: Path)
    requires first == [RootDir] || first == [CurDir] || first == PieceOf(other)
    ensures var out := Walk([], first); out == [] || out == [RootDir] || out == [Normal(other)]
  {
    if first != [] {
      assert |first| == 1 && first[..0] == [];
      assert Walk([], first) == Step([], first[0]);
    }
  }

  lemma SamePrefix(a: Path, b: Path, rest: Path)
    requires a + rest == b + rest
    ensures a == b
  {
    assert |a| == |b|;
    assert (a + rest)[..|a|] == a && (b + rest)[..|b|] == b;
  }

  /** What follows the first name of a relative path in its text. */
  function Tail(names: Path): string {
    if names == [] then "" else "/" + Join(NameTexts(names), '/')
  }

  lemma TextStartsWithName(name: string, names: Path)
    ensures TextOf([Normal(name)] + names) == name + Tail(names)
  {
    var p := [Normal(name)] + names;
    assert NameTexts(p) == [name] + NameTexts(names);
    if names == [] {
      assert name + "" == name;
    } else {
      assert NameTexts(p)[1..] == NameTexts(names);
      assert name + ['/'] + Join(NameTexts(names), '/') == name + ("/" + Join(NameTexts(names), '/'));
    }
  }

  /** A text without slashes in front of a tail becomes at most one component. */
  lemma ComponentsBeforeTail(other: string, names: Path)
    requires Lacks(other, '/') && HasNames(names) && forall k :: 0 <= k < |names| ==> names[k].Normal?
    ensures exists first ::
      && (first == [RootDir] || first == [CurDir] || first == PieceOf(other))
      && Components(other + Tail(names)) == first + names
  {
    var text := other + Tail(names);
    PiecesOfNames(names);
    FirstPiece(other, NameTexts(names));
    if names == [] {
      SplitFirst(other, "", '/');
      assert text == other && [other] + NameTexts(names) == [other];
    } else {
      SplitFirst(other, Join(NameTexts(names), '/'), '/');
      assert other + ['/'] + Join(NameTexts(names), '/') == text;
      SplitOfJoin(NameTexts(names), '/');
    }
    assert Split(text, '/') == [other] + NameTexts(names);
    assert [] + names == names;
    var first := if text != "" && text[0] == '/' then [RootDir] else if other == "." then [CurDir] else PieceOf(other);
    assert Components(text) == first + names;
  }

  /** A verbatim prefix of a relative path lies in its first name. */
  lemma PrefixIsInName(name: string, tail: string, prefix: string)
    requires Lacks(prefix, '/') && prefix <= name + tail && (tail != "" ==> tail[0] == '/')
    ensures |prefix| <= |name|
  {
    assert tail != "" ==> (name + tail)[|name|] == '/';
    assert forall k :: 0 <= k < |prefix| ==> prefix[k] == (name + tail)[k] && prefix[k] != '/';
  }

  /** Stripping a prefix from the text of a relative normal form leads to another form. */
  lemma StrippedIsOther(name: string, names: Path, cut: nat, start: string)
    requires IsPlain([Normal(name)] + names) && HasNames([Normal(name)] + names)
    requires |start| < cut <= |name| && Lacks(start, '/')
    ensures Normalized(Components(start + (name + Tail(names))[cut..])) != [Normal(name)] + names
  {
    var p, other := [Normal(name)] + names, start + name[cut..];
    assert forall k :: 0 <= k < |names| ==> names[k] == p[k + 1];
    assert p[0] == Normal(name) && IsName(name);
    ComponentsBeforeTail(other, names);
    var first :| (first == [RootDir] || first == [CurDir] || first == PieceOf(other))
      && Components(other + Tail(names)) == first + names;
    CutBeforeTail(start, name, Tail(names), cut);
    OtherNameOtherPath(name, other, first, names);
  }

  lemma CutBeforeTail(start: string, name: string, tail: string, cut: nat)
    requires cut <= |name|
    ensures start + (name + tail)[cut..] == (start + name[cut..]) + tail
  {
    assert (name + tail)[cut..] == name[cut..] + tail;
  }

  lemma VerbatimIsLost(p: Path)
    requires IsNormal(p) && HasNames(p) && VERBATIM <= TextOf(p)
    ensures Normalized(Components(Stripped(TextOf(p)))) != p
  {
    var text := TextOf(p);
    assert text[0] == '\\';
    FirstIsName(p);
    var name, names := p[0].name, p[1..];
    assert p == [Normal(name)] + names;
    TextStartsWithName(name, names);
    PrefixIsInName(name, Tail(names), VERBATIM);
    if StartsWithUnc(text) {
      UncHasNoSlash(text);
      PrefixIsInName(name, Tail(names), text[..8]);
      StrippedIsOther(name, names, 8, "\\\\");
    } else {
      StrippedIsOther(name, names, 4, "");
      assert "" + text[4..] == text[4..];
    }
  }

  lemma UncHasNoSlash(s: string)
    requires StartsWithUnc(s)
    ensures Lacks(s[..8], '/')
  {
    assert Lacks(VERBATIM_UNC, '/');
    forall k | 0 <= k < 8
      ensures s[..8][k] != '/'
    {
      assert Upper(s[..8])[k] == VERBATIM_UNC[k];
    }
  }

  /** A text that starts with a backslash is neither absolute nor `.`. */
  lemma FirstIsName(p: Path)
    requires IsNormal(p) && HasNames(p) && VERBATIM <= TextOf(p)
    ensures p != [] && p[0].Normal?
  {
    assert TextOf(p)[0] == '\\';
    OtherFirsts(p);
  }

  lemma OtherFirsts(p: Path)
    ensures IsAbsolute(p) ==> TextOf(p) != "" && TextOf(p)[0] == '/'
    ensures p == [CurDir] ==> TextOf(p) == "."
  {
  }

  /**
   * A normalised path is its own normal form iff its text can be sliced at bytes 4 and 8 and does not
   * start with a verbatim prefix again.
   */
  lemma NormalizingTwiceIff(s: string)
    requires !SlicesCharacter(s)
    ensures var t := NormalizedText(s).value;
      NormalizedText(t) == Some(t) <==> !SlicesCharacter(t) && !(VERBATIM <= t)
  {
    var p := Normalized(Components(Stripped(s)));
    var t := TextOf(p);
    NormalHasNames(Stripped(s));
    if !SlicesCharacter(t) {
      if VERBATIM <= t {
        VerbatimIsLost(p);
        NormalHasNames(Stripped(t));
      } else {
        if |t| >= 4 {
          UpperOfVerbatim(t);
        }
        NormalizeIsIdempotent(Components(Stripped(s)));
      }
    }
  }

  // ---------------------------------------------------------------- workspaces

  /** `PathBuf::push`. */
  function JoinTexts(root: string, rel: string): string {
    if root == "" || (rel != "" && rel[0] == '/') then rel
    else if root[|root| - 1] == '/' then root + rel
    else root + "/" + rel
  }

  /** The pieces of a text with one more character in front. */
  function InFront(c: char, parts: seq<string>): seq<string>
    requires parts != []
  {
    if c == '/' then [""] + parts else [[c] + parts[0]] + parts[1..]
  }

  lemma SplitInFront(c: char, s: string)
    ensures Split([c] + s, '/') == InFront(c, Split(s, '/'))
  {
    assert ([c] + s)[1..] == s;
  }

  lemma InFrontConcat(c: char, parts: seq<string>, more: seq<string>)
    requires parts != []
    ensures InFront(c, parts + more) == InFront(c, parts) + more
  {
    assert (parts + more)[0] == parts[0] && (parts + more)[1..] == parts[1..] + more;
  }

  lemma {:induction false} SplitAtSlash(a: string, b: string)
    ensures Split(a + "/" + b, '/') == Split(a, '/') + Split(b, '/')
  {
    if a == "" {
      SplitSlash(b);
      assert "" + "/" + b == "/" + b;
    } else {
      SplitAtSlash(a[1..], b);
      SplitInFront(a[0], a[1..]);
      SplitInFront(a[0], a[1..] + "/" + b);
      InFrontConcat(a[0], Split(a[1..], '/'), Split(b, '/'));
      assert a == [a[0]] + a[1..] && a + "/" + b == [a[0]] + (a[1..] + "/" + b);
    }
  }

  lemma {:induction false} PiecesConcat(a: seq<string>, b: seq<string>)
    ensures Pieces(a + b) == Pieces(a) + Pieces(b)
  {
    if a == [] {
      assert a + b == b && [] + Pieces(b) == Pieces(b);
    } else {
      PiecesConcat(a[1..], b);
      assert (a + b)[1..] == a[1..] + b;
      assert Pieces(a + b) == PieceOf(a[0]) + Pieces(a[1..] + b);
      Associates(PieceOf(a[0]), Pieces(a[1..]), Pieces(b));
    }
  }

  lemma LeadAtSlash(a: string, b: string)
    requires a != ""
    ensures Lead(a + "/" + b) == Lead(a)
  {
    SplitAtSlash(a, b);
    assert (Split(a, '/') + Split(b, '/'))[0] == Split(a, '/')[0];
  }

  lemma ComponentsAtSlash(a: string, b: string)
    requires a != ""
    ensures Components(a + "/" + b) == Components(a) + Pieces(Split(b, '/'))
  {
    LeadAtSlash(a, b);
    SplitAtSlash(a, b);
    PiecesConcat(Split(a, '/'), Split(b, '/'));
    Associates(Lead(a), Pieces(Split(a, '/')), Pieces(Split(b, '/')));
  }

  lemma TrailingSlash(a: string)
    requires a != ""
    ensures Components(a + "/") == Components(a)
  {
    ComponentsAtSlash(a, "");
    FirstPiece("", []);
    assert a + "/" + "" == a + "/";
    assert Components(a) + [] == Components(a);
  }

  lemma WithoutLeadingDot(rel: string)
    requires rel == "" || rel[0] != '/'
    ensures WithoutCurDir(Components(rel)) == Pieces(Split(rel, '/'))
  {
    PiecesHaveNames(Split(rel, '/'));
    PiecesHaveNoDot(Split(rel, '/'));
  }

  lemma {:induction false} PiecesHaveNoDot(parts: seq<string>)
    ensures CurDir !in Pieces(parts)
  {
    if parts != [] {
      PiecesHaveNoDot(parts[1..]);
    }
  }

  lemma NonEmptyHasComponents(root: string)
    requires root != ""
    ensures Components(root) != []
  {
    if root[0] != '/' {
      var parts := Split(root, '/');
      assert parts == [parts[0]] + parts[1..];
      FirstPiece(parts[0], parts[1..]);
      assert parts[0] != "";
      assert [parts[0]][1..] == [];
    }
  }

  /** Joining texts joins their components. */
  lemma ComponentsOfJoined(root: string, rel: string)
    ensures Components(JoinTexts(root, rel)) == JoinPaths(Components(root), Components(rel))
  {
    ComponentsHaveNames(rel);
    if root == "" {
      assert Components("") == [] by {
        FirstPiece("", []);
      }
    } else if rel == "" || rel[0] != '/' {
      NonEmptyHasComponents(root);
      WithoutLeadingDot(rel);
      if root[|root| - 1] == '/' {
        ComponentsOfDirectory(root, rel);
      } else {
        ComponentsAtSlash(root, rel);
      }
    }
  }

  lemma ComponentsOfDirectory(root: string, rel: string)
    requires root != "" && root[|root| - 1] == '/'
    ensures Components(root + rel) == Components(root) + Pieces(Split(rel, '/'))
  {
    var front := root[..|root| - 1];
    assert root == front + "/" && root + rel == front + "/" + rel;
    if front == "" {
      ComponentsOfRoot(rel);
      ComponentsOfRoot("");
      FirstPiece("", []);
      assert root == "/" && "/" + "" == "/" && [RootDir] + [] == [RootDir];
    } else {
      ComponentsAtSlash(front, rel);
      TrailingSlash(front);
    }
  }

  lemma ComponentsOfRoot(rel: string)
    ensures Components("/" + rel) == [RootDir] + Pieces(Split(rel, '/'))
  {
    SplitSlash(rel);
    FirstPiece("", Split(rel, '/'));
    assert [] + Pieces(Split(rel, '/')) == Pieces(Split(rel, '/'));
  }

  /** `..` behind a path is one more component. */
  lemma DotDotIsClimbing(root: string)
    requires root != ""
    ensures Components(JoinTexts(root, "..")) == Components(root) + [ParentDir]
  {
    ComponentsOfJoined(root, "..");
    NonEmptyHasComponents(root);
    SplitFirst("..", "", '/');
    FirstPiece("..", []);
    assert Components("..") == [] + [ParentDir];
  }

  /** `Workspace::resolve` on texts; None if the code panics. */
  function ResolvedText(root: string, rel: string): Option<string> {
    NormalizedText(JoinTexts(root, rel))
  }

  /** `Workspace::contains` on texts: the components of both normal forms are compared. */
  function ContainsPath(root: string, path: string): Option<bool> {
    match (NormalizedText(root), NormalizedText(path))
    case (Some(r), Some(p)) => Some(Components(r) <= Components(p))
    case _ => None
  }

  /**
   * Unless the joined text has a character across byte 4 or 8, where the code panics, or starts with a
   * verbatim prefix, a path resolves as its components do.
   */
  lemma ResolvesLikeComponents(root: string, rel: string)
    ensures var s := JoinTexts(root, rel);
      && (ResolvedText(root, rel) == None <==> SlicesCharacter(s))
      && (!SlicesCharacter(s) && !(VERBATIM <= s) ==>
            ResolvedText(root, rel) == Some(TextOf(Workspace(Components(root)).Resolve(Components(rel)))))
  {
    var s := JoinTexts(root, rel);
    ComponentsOfJoined(root, rel);
    if !SlicesCharacter(s) && !(VERBATIM <= s) {
      NormalizedLikeComponents(s);
    }
  }

  lemma NormalizedLikeComponents(s: string)
    requires !SlicesCharacter(s) && !(VERBATIM <= s)
    ensures NormalizedText(s) == Some(TextOf(Normalized(Components(s))))
    ensures Components(NormalizedText(s).value) == Normalized(Components(s))
  {
    if |s| >= 4 {
      UpperOfVerbatim(s);
    }
    NormalHasNames(s);
  }

  /** Containment is decided on the components, and the code panics iff either text is cut. */
  lemma ContainsLikeComponents(root: string, path: string)
    ensures ContainsPath(root, path) == None <==> SlicesCharacter(root) || SlicesCharacter(path)
    ensures !SlicesCharacter(root) && !SlicesCharacter(path) && !(VERBATIM <= root) && !(VERBATIM <= path) ==>
      ContainsPath(root, path) == Some(Workspace(Components(root)).IsInside(Components(path)))
  {
    if !SlicesCharacter(root) && !SlicesCharacter(path) && !(VERBATIM <= root) && !(VERBATIM <= path) {
      ContainsWithoutPrefix(root, path);
    }
  }

  lemma ContainsWithoutPrefix(root: string, path: string)
    requires !SlicesCharacter(root) && !(VERBATIM <= root) && !SlicesCharacter(path) && !(VERBATIM <= path)
    ensures ContainsPath(root, path) == Some(Workspace(Components(root)).IsInside(Components(path)))
  {
    NormalizedLikeComponents(root);
    NormalizedLikeComponents(path);
    InsideByForms(Components(root), Components(path));
  }

  lemma InsideByForms(root: Path, path: Path)
    ensures Workspace(root).IsInside(path) <==> Normalized(root) <= Normalized(path)
  {
  }

  /** ASCII texts are never cut inside a character. */
  lemma AsciiNeverPanics(s: string)
    requires IsAscii(s)
    ensures !SlicesCharacter(s)
  {
  }

  /** In the default workspace the code panics on a file whose name is two characters of three bytes each. */
  lemma TwoCharactersPanic()
    ensures ResolvedText(".", "\U{E9}\U{A1}\U{B9}\U{E7}\U{9B}\U{AE}") == None
  {
    var name: string := "\U{E9}\U{A1}\U{B9}\U{E7}\U{9B}\U{AE}";
    var s := JoinTexts(".", name);
    assert s[4] == name[2];
  }

  lemma VerbatimLetters()
    ensures |VERBATIM| == 4 && VERBATIM[0] == '\\' && Lacks(VERBATIM, '/') && IsAscii(VERBATIM)
  {
  }

  /** A name behind a prefix, which is not that of a share. */
  lemma PrefixIsDropped(name: string)
    requires IsName(name) && (|name| < 4 || name[0] == '\\') && IsAscii(name)
    ensures NormalizedText(VERBATIM + name) == Some(name)
  {
    var s := VERBATIM + name;
    VerbatimLetters();
    AsciiNeverPanics(s);
    assert s[4..] == name && VERBATIM <= s;
    if |s| >= 8 {
      assert Upper(s[..8])[4] == name[0] && VERBATIM_UNC[4] == 'U';
    }
    OneNameText(name);
  }

  /** A verbatim share, in either case, keeps two backslashes in front of its name. */
  lemma ShareKeepsItsSlashes(prefix: string, name: string)
    requires prefix == VERBATIM_UNC || prefix == "\\\\?\\unc\\"
    requires IsAscii(name) && Lacks(name, '/')
    ensures NormalizedText(prefix + name) == Some("\\\\" + name)
  {
    var s, share: string := prefix + name, "\\\\" + name;
    UncLetters(prefix);
    assert s[..8] == prefix && s[8..] == name;
    AsciiNeverPanics(s);
    assert share[0] == '\\' && share[1] == '\\';
    OneNameText(share);
  }

  lemma UncLetters(prefix: string)
    requires prefix == VERBATIM_UNC || prefix == "\\\\?\\unc\\"
    ensures |prefix| == 8 && Upper(prefix) == VERBATIM_UNC && IsAscii(prefix)
  {
    assert 'u' - 'a' + 'A' == 'U' && 'n' - 'a' + 'A' == 'N' && 'c' - 'a' + 'A' == 'C';
  }

  lemma PrefixedIsName(name: string)
    requires IsName(name) && IsAscii(name)
    ensures IsName(VERBATIM + name) && IsAscii(VERBATIM + name) && (VERBATIM + name)[0] == '\\'
  {
    VerbatimLetters();
  }

  /** A short name behind two verbatim prefixes needs normalising twice. */
  lemma TwoPrefixes(name: string)
    requires IsName(name) && IsAscii(name) && |name| < 4
    ensures NormalizedText(VERBATIM + (VERBATIM + name)) == Some(VERBATIM + name)
    ensures NormalizedText(VERBATIM + name) == Some(name)
  {
    PrefixedIsName(name);
    PrefixIsDropped(name);
    PrefixIsDropped(VERBATIM + name);
  }

  lemma OneNameText(name: string)
    requires IsName(name)
    ensures Components(name) == [Normal(name)] && TextOf(Normalized([Normal(name)])) == name
  {
    OneNameJoined(name);
    RelativeReadsBack([Normal(name)]);
    WalkPlain([Normal(name)]);
  }

  lemma OneNameJoined(name: string)
    ensures Join(NameTexts([Normal(name)]), '/') == name && TextOf([Normal(name)]) == name
  {
    assert NameTexts([Normal(name)]) == [name];
  }
}
