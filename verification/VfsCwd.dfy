/**
 The current directory (`cpath`), and the operations that resolve paths against it.
 */
module VfsCwd {
  import opened CStrings
  import P = VfsPath
  import A = VfsAlgebra
  import B = VfsBuffer

  /** An absolute path that normalising leaves alone. */
  predicate NormalForm(p: Text) {
    P.IsAbsolute(p) && P.Normalize(p) == p
  }

  lemma NormalFormStack(p: Text)
    requires NormalForm(p)
    ensures p == P.Render(P.Stack(p)) && P.Components(P.Stack(p)) && P.Short(P.Stack(p))
  {
    P.NormalizeAbsolute(p);
  }

  /** The text that is_subpath and relpath compare. */
  function AbsoluteForm(cwd: Option<Text>, path: Option<Text>): Option<Text> {
    if path.None? then None
    else if P.IsAbsolute(path.value) && A.IsNormalized(path.value) then path
    else A.Absolutize(cwd, path.value)
  }

  /** It names where the path leads. */
  lemma AbsoluteFormResolves(cs: seq<Text>, path: Text)
    requires P.Components(cs) && P.Short(cs)
    requires P.IsAbsolute(path) && A.IsNormalized(path) ==> P.Short(P.Split(path))
    requires AbsoluteForm(Some(P.Render(cs)), Some(path)).Some?
    ensures var to := A.Resolved(cs, path);
      P.Components(to) && P.Short(to) && AbsoluteForm(Some(P.Render(cs)), Some(path)) == Some(P.Render(to))
  {
    if P.IsAbsolute(path) && A.IsNormalized(path) {
      A.NormalizedIff(path);
      P.NormalizeAbsolute(path);
    } else {
      A.AbsolutizeResolves(cs, path);
    }
  }

  predicate IsSubpathOf(cwd: Option<Text>, root: Option<Text>, path: Option<Text>) {
    var r, p := AbsoluteForm(cwd, root), AbsoluteForm(cwd, path);
    r.Some? && p.Some? && A.Covers(r.value, p.value)
  }

  function RelPathOf(cwd: Option<Text>, root: Option<Text>, path: Option<Text>): Option<Text> {
    var r, p := AbsoluteForm(cwd, root), AbsoluteForm(cwd, path);
    if r.None? || p.None? then None else A.Relative(r.value, p.value)
  }

  /**
   One path is below another exactly when the stack it leads to extends the other's; relpath
   answers exactly then, and what it answers leads from the root to the path.
   */
  lemma SubpathIsPrefix(cs: seq<Text>, root: Text, path: Text)
    requires P.Components(cs) && P.Short(cs)
    requires P.IsAbsolute(root) && A.IsNormalized(root) ==> P.Short(P.Split(root))
    requires P.IsAbsolute(path) && A.IsNormalized(path) ==> P.Short(P.Split(path))
    requires AbsoluteForm(Some(P.Render(cs)), Some(root)).Some? && AbsoluteForm(Some(P.Render(cs)), Some(path)).Some?
    ensures var cwd, a, b := Some(P.Render(cs)), A.Resolved(cs, root), A.Resolved(cs, path);
      var rel := RelPathOf(cwd, Some(root), Some(path));
      && (IsSubpathOf(cwd, Some(root), Some(path)) <==> a <= b)
      && (rel.Some? <==> a <= b)
      && (a <= b ==> P.Normalize(P.Render(a) + P.SLASH + rel.value) == P.Render(b))
  {
    AbsoluteFormResolves(cs, root);
    AbsoluteFormResolves(cs, path);
    A.CoversIff(A.Resolved(cs, root), A.Resolved(cs, path));
    A.RelativeRoundTrip(A.Resolved(cs, root), A.Resolved(cs, path));
  }

  /** Changing to `a` and then to the relative path `b` is changing to `a/b`. */
  lemma ChdirTwice(cs: seq<Text>, a: Text, b: Text)
    requires P.Components(cs) && P.Short(cs) && !P.IsAbsolute(b)
    requires A.Absolutize(Some(P.Render(cs)), a).Some?
    requires A.Absolutize(A.Absolutize(Some(P.Render(cs)), a), b).Some?
    requires A.Absolutize(Some(P.Render(cs)), a + P.SLASH + b).Some?
    ensures A.Absolutize(A.Absolutize(Some(P.Render(cs)), a), b) == A.Absolutize(Some(P.Render(cs)), a + P.SLASH + b)
  {
    A.AbsolutizeResolves(cs, a);
    A.AbsolutizeResolves(A.Resolved(cs, a), b);
    A.AbsolutizeResolves(cs, a + P.SLASH + b);
    A.ResolvedJoin(cs, a, b);
  }

  // ----- the test for a directory

  const S_IFMT: bv32 := 0xF000
  const S_IFDIR: bv32 := 0x4000

  datatype Kind = Fifo | CharDevice | Directory | BlockDevice | Regular | SymLink | Socket

  /** The kind of file in a st_mode. */
  function KindOf(mode: bv32): Option<Kind> {
    var kind := mode & S_IFMT;
    if kind == 0x1000 then Some(Fifo)
    else if kind == 0x2000 then Some(CharDevice)
    else if kind == S_IFDIR then Some(Directory)
    else if kind == 0x6000 then Some(BlockDevice)
    else if kind == 0x8000 then Some(Regular)
    else if kind == 0xA000 then Some(SymLink)
    else if kind == 0xC000 then Some(Socket)
    else None
  }

  /** The test of chdir: one bit of the kind. */
  predicate HasDirBit(mode: bv32) {
    mode & S_IFDIR != 0
  }

  /** Block devices and sockets have that bit as well. */
  lemma DirBitMeans(mode: bv32)
    requires KindOf(mode).Some?
    ensures HasDirBit(mode) <==> KindOf(mode).value in {Directory, BlockDevice, Socket}
  {
    assert mode & S_IFDIR == (mode & S_IFMT) & S_IFDIR;
  }

  class CurrentDirectory {
    var cpath: Option<Text>
    var cpathLength: nat

    constructor ()
      ensures cpath == None && Valid()
    {
      cpath := None;
      cpathLength := 0;
    }

    /** Once set, the current directory is an absolute normal form of the recorded length. */
    predicate Valid()
      reads this
    {
      cpath.Some? ==> NormalForm(cpath.value) && cpathLength == |cpath.value| <= P.PATH_MAX
    }

    /** What getcwd answers; `system` is the answer of the system's own getcwd. */
    function Where(system: Option<Text>): Option<Text>
      reads this
    {
      if cpath.None? then system else cpath
    }

    /** getcwd: copies the current directory into the caller's buffer. */
    method GetCwd(buf: array<char>, size: nat, system: Option<Text>) returns (ok: bool)
      requires Valid() && size <= buf.Length
      modifies buf
      ensures ok <==> Where(system).Some? && |Where(system).value| + 1 <= size
      ensures ok ==> B.Holds(buf, Where(system).value)
    {
      var t := Where(system);
      var len := if cpath.Some? then cpathLength else if system.Some? then |system.value| else 0;
      if t.None? || size < len + 1 {
        return false;
      }
      buf[0] := '\0';
      B.CopyAt(buf, [], 0, t.value);
      ghost var empty: Text := [];
      assert empty[..0] + t.value == t.value;
      ok := true;
    }

    /** absolutize. */
    method Absolutize(path: Option<Text>, system: Option<Text>) returns (r: Option<Text>)
      requires Valid() && (path.Some? ==> |path.value| <= P.PATH_MAX)
      requires system.Some? ==> |system.value| <= P.PATH_MAX
      ensures r == if path.None? then None else A.Absolutize(Where(system), path.value)
    {
      if path.None? || path.value == [] {
        return None;
      }
      if path.value[0] == '/' {
        r := B.Normalize(path);
        return;
      }
      var buf := new char[P.PATH_MAX + 1];
      var ok := GetCwd(buf, P.PATH_MAX + 1, system);
      if !ok {
        return None;
      }
      ghost var cwd := Where(system).value;
      var n := B.StrLen(buf, cwd);
      if P.PATH_MAX + 1 - n - 1 < |path.value| + 1 {
        return None;
      }
      B.StrCat(buf, cwd, P.SLASH);
      B.StrCat(buf, cwd + P.SLASH, path.value);
      var joined := B.ReadOut(buf, cwd + P.SLASH + path.value);
      r := B.Normalize(joined);
    }

    /** is_subpath. */
    method IsSubpath(root: Option<Text>, path: Option<Text>, system: Option<Text>) returns (b: bool)
      requires Valid() && (system.Some? ==> |system.value| <= P.PATH_MAX)
      requires (root.Some? ==> |root.value| <= P.PATH_MAX) && (path.Some? ==> |path.value| <= P.PATH_MAX)
      ensures b == IsSubpathOf(Where(system), root, path)
    {
      var r := ToAbsolute(root, system);
      var p := ToAbsolute(path, system);
      if r.None? || p.None? {
        return false;
      }
      b := A.Covers(r.value, p.value);
    }

    /** The conversion at the start of is_subpath and relpath. */
    method ToAbsolute(path: Option<Text>, system: Option<Text>) returns (r: Option<Text>)
      requires Valid() && (system.Some? ==> |system.value| <= P.PATH_MAX)
      requires path.Some? ==> |path.value| <= P.PATH_MAX
      ensures r == AbsoluteForm(Where(system), path)
    {
      var normalized := B.IsNormalized(path);
      if path.Some? && P.IsAbsolute(path.value) && normalized {
        r := path;
      } else {
        r := Absolutize(path, system);
      }
    }

    /** relpath. */
    method RelPath(root: Option<Text>, path: Option<Text>, system: Option<Text>) returns (rel: Option<Text>)
      requires Valid() && (system.Some? ==> |system.value| <= P.PATH_MAX)
      requires (root.Some? ==> |root.value| <= P.PATH_MAX) && (path.Some? ==> |path.value| <= P.PATH_MAX)
      ensures rel == RelPathOf(Where(system), root, path)
    {
      var r := ToAbsolute(root, system);
      var p := ToAbsolute(path, system);
      if r.None? || p.None? {
        return None;
      }
      rel := A.Relative(r.value, p.value);
    }

    /**
     chdir.  `mode` is the st_mode the driver reports for the absolute path, if it finds one.  A path
     that cannot be made absolute is the caller's error: the code has no check.
     */
    method ChDir(path: Text, system: Option<Text>, mode: Option<bv32>) returns (ok: bool)
      requires Valid() && |path| <= P.PATH_MAX
      requires system.Some? ==> NormalForm(system.value) && |system.value| <= P.PATH_MAX
      requires A.Absolutize(Where(system), path).Some?
      modifies this
      ensures Valid()
      ensures ok <==> mode.Some? && HasDirBit(mode.value)
      ensures cpath == if ok then A.Absolutize(old(Where(system)), path) else old(cpath)
      ensures !ok ==> cpathLength == old(cpathLength)
    {
      var abspath := Absolutize(Some(path), system);
      AbsolutizeNormal(Where(system), path);
      if mode.None? {
        return false;
      }
      if !HasDirBit(mode.value) {
        return false;
      }
      cpathLength := |abspath.value|;
      cpath := abspath;
      ok := true;
    }
  }

  /** An absolutized path is a normal form that fits a buffer. */
  lemma AbsolutizeNormal(cwd: Option<Text>, path: Text)
    requires |path| <= P.PATH_MAX && (cwd.Some? ==> NormalForm(cwd.value))
    requires A.Absolutize(cwd, path).Some?
    ensures var r := A.Absolutize(cwd, path).value; NormalForm(r) && |r| <= P.PATH_MAX
  {
    var full := if P.IsAbsolute(path) then path else cwd.value + P.SLASH + path;
    assert P.IsAbsolute(full);
    A.NormalizeIdempotent(full);
    P.NormalizeNotLonger(full);
  }
}
