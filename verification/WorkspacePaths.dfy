// Lexical path handling of a workspace: normalisation over path components, and `resolve`,
// `relativize` and `contains` on top of it. A path is the list of its components, as
// `Path::components` yields them on a system without drive prefixes.
module WorkspacePaths {
  datatype Component = RootDir | CurDir | ParentDir | Normal(name: string)

  type Path = seq<Component>

  predicate IsAbsolute(p: Path) {
    p != [] && p[0].RootDir?
  }

  // ---------------------------------------------------------------- normalisation

  /** `PathBuf::pop`: neither the root nor the empty path has a parent. */
  function Pop(out: Path): Path {
    if out == [] || out[|out| - 1].RootDir? then out else out[..|out| - 1]
  }

  /** What one component does to the components kept so far. */
  function Step(out: Path, c: Component): Path {
    match c
    case CurDir => out
    case ParentDir => Pop(out)
    case RootDir => [RootDir]
    case Normal(_) => out + [c]
  }

  function Walk(out: Path, p: Path): Path {
    if p == [] then out else Step(Walk(out, p[..|p| - 1]), p[|p| - 1])
  }

  /** The empty path is written `.`. */
  function Form(out: Path): Path {
    if out == [] then [CurDir] else out
  }

  function Normalized(p: Path): Path {
    Form(Walk([], p))
  }

  method NormalizePath(path: Path) returns (normalized: Path)
    ensures normalized == Normalized(path)
  {
    var out: Path := [];
    for k := 0 to |path|
      invariant out == Walk([], path[..k])
    {
      assert path[..k + 1][..k] == path[..k];
      match path[k] {
        case CurDir =>
        case ParentDir => out := Pop(out);
        case RootDir => out := [RootDir];
        case Normal(_) => out := out + [path[k]];
      }
    }
    assert path[..|path|] == path;
    normalized := if out == [] then [CurDir] else out;
  }

  /** Names only, after an optional root. */
  predicate IsPlain(out: Path) {
    forall k :: 0 <= k < |out| ==> out[k].Normal? || (k == 0 && out[k].RootDir?)
  }

  predicate IsNormal(p: Path) {
    p == [CurDir] || (p != [] && IsPlain(p))
  }

  lemma {:induction false} WalkConcat(out: Path, p: Path, q: Path)
    ensures Walk(out, p + q) == Walk(Walk(out, p), q)
  {
    if q == [] {
      assert p + q == p;
    } else {
      assert (p + q)[..|p + q| - 1] == p + q[..|q| - 1];
      WalkConcat(out, p, q[..|q| - 1]);
    }
  }

  lemma {:induction false} WalkIsPlain(out: Path, p: Path)
    requires IsPlain(out)
    ensures IsPlain(Walk(out, p))
  {
    if p != [] {
      WalkIsPlain(out, p[..|p| - 1]);
    }
  }

  /** Names are appended as they are. */
  lemma {:induction false} WalkNames(out: Path, names: Path)
    requires forall k :: 0 <= k < |names| ==> names[k].Normal?
    ensures Walk(out, names) == out + names
  {
    if names != [] {
      WalkNames(out, names[..|names| - 1]);
    }
  }

  lemma WalkPlain(p: Path)
    requires IsPlain(p)
    ensures Walk([], p) == p
  {
    if p != [] && p[0].RootDir? {
      assert p == [RootDir] + p[1..];
      WalkConcat([], [RootDir], p[1..]);
      assert [RootDir][..0] == [] && Walk([], [RootDir]) == [RootDir];
      WalkNames([RootDir], p[1..]);
    } else {
      WalkNames([], p);
      assert [] + p == p;
    }
  }

  lemma WalkNormalized(p: Path)
    ensures Walk([], Normalized(p)) == Walk([], p)
  {
    var out := Walk([], p);
    WalkIsPlain([], p);
    if out == [] {
      assert [CurDir][..0] == [] && Walk([], [CurDir]) == Walk([], []);
    } else {
      WalkPlain(out);
    }
  }

  /** Normal forms have no `..`, no inner `.`, and normalising one changes nothing. */
  lemma NormalizeIsIdempotent(p: Path)
    ensures IsNormal(Normalized(p))
    ensures Normalized(Normalized(p)) == Normalized(p)
    ensures IsNormal(p) ==> Normalized(p) == p
  {
    WalkIsPlain([], p);
    WalkNormalized(p);
    if p == [CurDir] {
      assert [CurDir][..0] == [];
    } else if IsNormal(p) {
      WalkPlain(p);
    }
  }

  // ---------------------------------------------------------------- joining

  /** A leading `.` of the appended path is not repeated as a component. */
  function WithoutCurDir(p: Path): Path {
    if p != [] && p[0].CurDir? then p[1..] else p
  }

  function JoinPaths(base: Path, p: Path): Path {
    if IsAbsolute(p) || base == [] then p else base + WithoutCurDir(p)
  }

  lemma WalkWithoutCurDir(out: Path, p: Path)
    ensures Walk(out, WithoutCurDir(p)) == Walk(out, p)
  {
    if p != [] && p[0].CurDir? {
      assert p == [CurDir] + p[1..];
      WalkConcat(out, [CurDir], p[1..]);
      assert [CurDir][..0] == [] && Walk(out, [CurDir]) == out;
    }
  }

  lemma WalkJoined(base: Path, p: Path)
    requires !IsAbsolute(p)
    ensures Walk([], JoinPaths(base, p)) == Walk(Walk([], base), p)
  {
    if base != [] {
      WalkConcat([], base, WithoutCurDir(p));
      WalkWithoutCurDir(Walk([], base), p);
    }
  }

  /** Normalising the base first makes no difference. */
  lemma NormalizeComposes(base: Path, p: Path)
    ensures Normalized(JoinPaths(Normalized(base), p)) == Normalized(JoinPaths(base, p))
  {
    if !IsAbsolute(p) {
      WalkJoined(Normalized(base), p);
      WalkJoined(base, p);
      WalkNormalized(base);
    }
  }

  // ---------------------------------------------------------------- workspaces

  datatype Workspace = Workspace(root: Path) {
    function Resolve(p: Path): Path {
      if IsAbsolute(p) then Normalized(p) else Normalized(JoinPaths(root, p))
    }

    /** Inside means: the normal form of the root is a prefix, component by component. */
    predicate IsInside(p: Path) {
      Normalized(root) <= Normalized(p)
    }

    /** `strip_prefix` of the normal forms; a path outside is returned as it is. */
    function Relativize(p: Path): Path {
      if Normalized(root) <= Normalized(p) then Normalized(p)[|Normalized(root)|..] else p
    }

    /** The two iterators stepped in parallel. */
    method Contains(p: Path) returns (inside: bool)
      ensures inside <==> IsInside(p)
    {
      var a := NormalizePath(root);
      var b := NormalizePath(p);
      var k := 0;
      while true
        invariant k <= |a| && k <= |b| && a[..k] == b[..k]
        decreases |a| - k
      {
        if k == |a| {
          return true;
        }
        if k == |b| || a[k] != b[k] {
          return false;
        }
        k := k + 1;
      }
    }
  }

  function NewWorkspace(root: Path): Workspace {
    Workspace(Normalized(root))
  }

  /** `Workspace::new` stores the root's normal form, which the operations cannot tell from the root. */
  lemma ConstructionChangesNothing(root: Path, p: Path)
    ensures Normalized(NewWorkspace(root).root) == NewWorkspace(root).root
    ensures NewWorkspace(root).Resolve(p) == Workspace(root).Resolve(p)
    ensures NewWorkspace(root).IsInside(p) <==> Workspace(root).IsInside(p)
    ensures NewWorkspace(root).Relativize(p) == Workspace(root).Relativize(p)
  {
    NormalizeIsIdempotent(root);
    NormalizeComposes(root, p);
  }

  /** A relative path never climbs above where it starts, from depth `depth` on. */
  predicate StaysInside(p: Path, depth: nat) {
    p == [] ||
    match p[0]
    case CurDir => StaysInside(p[1..], depth)
    case ParentDir => depth > 0 && StaysInside(p[1..], depth - 1)
    case Normal(_) => StaysInside(p[1..], depth + 1)
    case RootDir => false
  }

  /** What a path leaves when it is collapsed on its own. */
  function Collapsed(p: Path): Path {
    Walk([], p)
  }

  /** A path that stays inside acts only on the part appended to the base. */
  lemma {:induction false} WalkStaysInside(base: Path, names: Path, p: Path)
    requires IsPlain(base) && (forall k :: 0 <= k < |names| ==> names[k].Normal?)
    requires StaysInside(p, |names|)
    ensures Walk(base + names, p) == base + Walk(names, p)
    ensures forall k :: 0 <= k < |Walk(names, p)| ==> Walk(names, p)[k].Normal?
    decreases |p|
  {
    if p != [] {
      assert p == [p[0]] + p[1..];
      WalkConcat(base + names, [p[0]], p[1..]);
      WalkConcat(names, [p[0]], p[1..]);
      assert [p[0]][..0] == [];
      var next := Step(names, p[0]);
      assert Walk(names, [p[0]]) == next;
      assert Walk(base + names, [p[0]]) == base + next;
      WalkStaysInside(base, next, p[1..]);
    }
  }

  lemma NamesBelow(base: Path, names: Path)
    requires IsPlain(base) && forall k :: 0 <= k < |names| ==> names[k].Normal?
    ensures Form(base) <= Form(base + names) <==> base != [] || names == []
    ensures base != [] ==> Form(base + names)[|Form(base)|..] == names
    ensures base == [] && names == [] ==> Form(base + names)[|Form(base)|..] == names
    ensures base == [] && names != [] ==> Form(base + names) == names
    ensures Form(base) == [CurDir] <==> base == []
  {
    if base == [] {
      assert base + names == names;
      assert names != [] ==> [CurDir][0] != names[0];
    } else {
      assert (base + names)[..|base|] == base && base[0] != CurDir;
    }
  }

  lemma ResolvedWalk(ws: Workspace, p: Path)
    requires StaysInside(p, 0)
    ensures ws.Resolve(p) == Form(Walk([], ws.root) + Collapsed(p))
    ensures IsPlain(Walk([], ws.root))
    ensures forall k :: 0 <= k < |Collapsed(p)| ==> Collapsed(p)[k].Normal?
  {
    var base := Walk([], ws.root);
    WalkIsPlain([], ws.root);
    WalkJoined(ws.root, p);
    WalkStaysInside(base, [], p);
    assert base + [] == base;
  }

  /**
   * A path that never climbs above the root resolves to the root followed by its collapsed form and
   * relativizes back to that form. It counts as inside, except for non-trivial paths when the root
   * normalises to `.`: there nothing but the root itself does.
   */
  lemma StayingPathsResolveInside(ws: Workspace, p: Path)
    requires StaysInside(p, 0)
    ensures ws.Resolve(p) == Form(Walk([], ws.root) + Collapsed(p))
    ensures ws.Relativize(ws.Resolve(p)) == Collapsed(p)
    ensures ws.IsInside(ws.Resolve(p)) <==> Normalized(ws.root) != [CurDir] || Collapsed(p) == []
  {
    var base, names := Walk([], ws.root), Collapsed(p);
    ResolvedWalk(ws, p);
    NamesBelow(base, names);
    NormalizeIsIdempotent(JoinPaths(ws.root, p));
    assert Normalized(ws.Resolve(p)) == ws.Resolve(p);
  }

  /** The default workspace is rooted at `.` and does not count its own files as inside. */
  lemma DefaultWorkspaceContainsOnlyItsRoot(name: string)
    ensures var ws := Workspace([CurDir]);
      && ws.IsInside([CurDir])
      && StaysInside([Normal(name)], 0) && ws.Resolve([Normal(name)]) == [Normal(name)] && !ws.IsInside([Normal(name)])
  {
    var ws, p := Workspace([CurDir]), [Normal(name)];
    assert p[1..] == [] && [CurDir][..0] == [] && p[..0] == [];
    assert Walk([], [CurDir]) == [] && Walk([], p) == p;
    StayingPathsResolveInside(ws, p);
    assert [] + p == p;
  }

  lemma RestOfPlain(root: Path, rel: Path)
    requires IsNormal(root) && IsNormal(root + rel)
    ensures forall k :: 0 <= k < |rel| ==> rel[k].Normal?
  {
    assert forall k :: 0 <= k < |rel| ==> rel[k] == (root + rel)[|root| + k];
  }

  /** For every path inside the workspace, resolving its relative form gives its normal form back. */
  lemma ResolveUndoesRelativize(ws: Workspace, p: Path)
    requires ws.IsInside(p)
    ensures ws.Resolve(ws.Relativize(p)) == Normalized(p)
    ensures !IsAbsolute(ws.Relativize(p))
  {
    var rel := ws.Relativize(p);
    assert Normalized(p) == Normalized(ws.root) + rel;
    NormalizeIsIdempotent(ws.root);
    NormalizeIsIdempotent(p);
    RestOfPlain(Normalized(ws.root), rel);
    WalkJoined(ws.root, rel);
    WalkNames(Walk([], ws.root), rel);
  }

  /** A path outside is not made relative at all. */
  lemma OutsideIsKept(ws: Workspace, p: Path)
    ensures !ws.IsInside(p) ==> ws.Relativize(p) == p
    ensures ws.IsInside(p) ==> Normalized(ws.root) + ws.Relativize(p) == Normalized(p)
  {
  }

  /** An absolute workspace only contains absolute paths, and it contains its root. */
  lemma AbsoluteWorkspace(ws: Workspace, p: Path)
    requires IsAbsolute(ws.root)
    ensures ws.IsInside(p) ==> IsAbsolute(Normalized(p))
    ensures ws.IsInside(ws.root)
    ensures Normalized(ws.root) != [CurDir]
  {
    AbsoluteStaysAbsolute(ws.root);
  }

  lemma {:induction false} AbsoluteStaysAbsolute(p: Path)
    requires IsAbsolute(p)
    ensures IsAbsolute(Walk([], p))
    decreases |p|
  {
    if |p| > 1 {
      AbsoluteStaysAbsolute(p[..|p| - 1]);
    } else {
      assert p[..0] == [];
    }
  }

  // ---------------------------------------------------------------- paths that climb

  /** A relative path as it acts on any base: it goes up some components and then down some names. */
  datatype Course = Course(up: nat, down: Path)

  function Move(course: Course, c: Component): Course {
    match c
    case CurDir => course
    case ParentDir =>
      if course.down == [] then Course(course.up + 1, []) else Course(course.up, course.down[..|course.down| - 1])
    case _ => Course(course.up, course.down + [c])
  }

  function CourseOf(p: Path): Course {
    if p == [] then Course(0, []) else Move(CourseOf(p[..|p| - 1]), p[|p| - 1])
  }

  /** What is left of `base` when it is left `up` times. */
  function Above(base: Path, up: nat): Path {
    if up == 0 then base else Pop(Above(base, up - 1))
  }

  predicate IsRelative(p: Path) {
    forall k :: 0 <= k < |p| ==> !p[k].RootDir?
  }

  lemma {:induction false} DownIsNames(p: Path)
    requires IsRelative(p)
    ensures forall k :: 0 <= k < |CourseOf(p).down| ==> CourseOf(p).down[k].Normal?
  {
    if p != [] {
      DownIsNames(p[..|p| - 1]);
    }
  }

  /** A relative path does what its course says, on any base. */
  lemma {:induction false} WalkIsCourse(base: Path, p: Path)
    requires IsRelative(p)
    ensures Walk(base, p) == Above(base, CourseOf(p).up) + CourseOf(p).down
  {
    if p != [] {
      var course := CourseOf(p[..|p| - 1]);
      WalkIsCourse(base, p[..|p| - 1]);
      DownIsNames(p[..|p| - 1]);
      var above := Above(base, course.up);
      if p[|p| - 1].ParentDir? && course.down == [] {
        assert above + [] == above;
        assert Pop(above) + [] == Pop(above);
      }
    }
  }

  lemma {:induction false} AboveIsPrefix(base: Path, up: nat)
    ensures Above(base, up) <= base
  {
    if up > 0 {
      AboveIsPrefix(base, up - 1);
    }
  }

  /** The components of `base` that going up `up` times leaves behind. */
  function LeftBehind(base: Path, up: nat): Path {
    var above := Above(base, up);
    if |above| <= |base| then base[|above|..] else []
  }

  lemma ReentersIff(base: Path, up: nat, down: Path)
    ensures base <= Above(base, up) + down <==> LeftBehind(base, up) <= down
  {
    var above := Above(base, up);
    AboveIsPrefix(base, up);
    assert base == above + base[|above|..];
    if base <= above + down {
      assert forall k :: 0 <= k < |base| - |above| ==> base[|above|..][k] == (above + down)[|above| + k];
    }
  }

  lemma FormIsPrefixIff(base: Path, out: Path)
    requires IsPlain(base) && IsPlain(out)
    ensures Form(base) <= Form(out) <==> if base == [] then out == [] else base <= out
  {
    if out != [] {
      assert out[0] != CurDir;
    }
    if base != [] {
      assert base[0] != CurDir;
    }
  }

  /**
   * A relative path resolves inside the workspace iff it goes down again by the names of the root it
   * climbed out of, the last ones of the root. When the root normalises to `.`, it does iff it goes down
   * nowhere.
   */
  lemma ResolvesInsideIff(ws: Workspace, p: Path)
    requires IsRelative(p)
    ensures var base, course := Walk([], ws.root), CourseOf(p);
      && ws.Resolve(p) == Form(Above(base, course.up) + course.down)
      && (ws.IsInside(ws.Resolve(p))
          <==> if base == [] then course.down == [] else LeftBehind(base, course.up) <= course.down)
  {
    var base, course := Walk([], ws.root), CourseOf(p);
    var out := Above(base, course.up) + course.down;
    WalkJoined(ws.root, p);
    WalkIsCourse(base, p);
    WalkIsPlain([], ws.root);
    WalkIsPlain(base, p);
    NormalizeIsIdempotent(JoinPaths(ws.root, p));
    FormIsPrefixIff(base, out);
    ReentersIff(base, course.up, course.down);
    if base == [] {
      AboveIsPrefix(base, course.up);
      assert out == course.down;
    }
  }

  /** For one: `../other` leaves every workspace whose root ends in a different name. */
  lemma ClimbingPathEscapes(ws: Workspace, other: string)
    requires var base := Walk([], ws.root); base != [] && base[|base| - 1].Normal? && base[|base| - 1].name != other
    ensures !ws.IsInside(ws.Resolve([ParentDir, Normal(other)]))
  {
    var base := Walk([], ws.root);
    var p: Path := [ParentDir, Normal(other)];
    assert p[..1] == [ParentDir] && [ParentDir][..0] == [];
    assert CourseOf([ParentDir]) == Course(1, []);
    assert CourseOf(p) == Course(1, [] + [Normal(other)]);
    assert Above(base, 1) == Pop(Above(base, 0)) == base[..|base| - 1];
    assert LeftBehind(base, 1) == [base[|base| - 1]];
    ResolvesInsideIff(ws, p);
  }
}
