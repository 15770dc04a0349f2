/**
 The laws of path names: normal forms, the sub-path order, relative paths, directory and base
 names, and paths relative to a current directory.  The functions are what futils.cpp computes
 on C strings; the laws relate them to stacks of components.
 */
module VfsAlgebra {
  import opened CStrings
  import opened VfsPath

  // ----- splitting and rendering are inverse

  /** The first part of a joined text. */
  lemma FirstOfJoin(a: Text, b: Text, s: Text, k: nat)
    requires s == a + SLASH + b && k == IndexOf(a, '/', 0)
    ensures IndexOf(s, '/', 0) == k && s[..k] == a[..k]
    ensures s[k + 1..] == if k == |a| then b else a[k + 1..] + SLASH + b
  {
    JoinSlices(a, b, k);
    IndexIs(s, k);
  }

  lemma IndexIs(s: Text, k: nat)
    requires k < |s| && s[k] == '/' && forall i :: 0 <= i < k ==> s[i] != '/'
    ensures IndexOf(s, '/', 0) == k
  {
  }

  lemma JoinSlices(a: Text, b: Text, k: nat)
    requires k <= |a|
    ensures var s := a + SLASH + b;
      && s[..k] == a[..k] && s[k] == (if k == |a| then '/' else a[k]) && (forall i :: 0 <= i < k ==> s[i] == a[i])
      && s[k + 1..] == if k == |a| then b else a[k + 1..] + SLASH + b
  {
    var s := a + SLASH + b;
    if k < |a| {
      assert s[k + 1..] == a[k + 1..] + SLASH + b;
    } else {
      assert s[k + 1..] == b;
    }
  }

  lemma {:induction false} SplitConcat(a: Text, b: Text)
    ensures Split(a + SLASH + b) == Split(a) + Split(b)
    decreases |a|
  {
    var k := IndexOf(a, '/', 0);
    FirstOfJoin(a, b, a + SLASH + b, k);
    if k == |a| {
      SplitAt(a + SLASH + b, a, b);
    } else {
      SplitConcat(a[k + 1..], b);
      SplitAt(a + SLASH + b, a[..k], a[k + 1..] + SLASH + b);
      SplitAt(a, a[..k], a[k + 1..]);
      Regroup(a[..k], Split(a[k + 1..]), Split(b));
    }
  }

  lemma SplitAt(s: Text, first: Text, rest: Text)
    requires var k := IndexOf(s, '/', 0); k < |s| && s[..k] == first && s[k + 1..] == rest
    ensures Split(s) == [first] + Split(rest)
  {
  }

  lemma Regroup(first: Text, b: seq<Text>, c: seq<Text>)
    ensures [first] + (b + c) == [first] + b + c
  {
  }

  lemma SplitPlain(c: Text)
    requires NoSlash(c)
    ensures Split(c) == [c]
  {
    assert IndexOf(c, '/', 0) == |c|;
  }

  lemma {:induction false} SplitSlashed(cs: seq<Text>)
    requires Components(cs)
    ensures Split(Slashed(cs)) == [[]] + cs
  {
    if cs == [] {
      SplitPlain([]);
    } else {
      var init, c := cs[..|cs| - 1], cs[|cs| - 1];
      SplitSlashed(init);
      SplitConcat(Slashed(init), c);
      SplitPlain(c);
      assert [[]] + init + [c] == [[]] + cs;
    }
  }

  lemma {:induction false} SlashedSplit(s: Text)
    ensures Slashed(Split(s)) == SLASH + s
    decreases |s|
  {
    var k := IndexOf(s, '/', 0);
    if k == |s| {
      SlashedOne(s);
    } else {
      SplitAt(s, s[..k], s[k + 1..]);
      SlashedSplit(s[k + 1..]);
      SlashedFirst(s[..k], Split(s[k + 1..]));
      RejoinAt(s, k);
    }
  }

  lemma SlashedFirst(c: Text, cs: seq<Text>)
    ensures Slashed([c] + cs) == SLASH + c + Slashed(cs)
  {
    SlashedOne(c);
    SlashedConcat([c], cs);
  }

  lemma RejoinAt(s: Text, k: nat)
    requires k < |s| && s[k] == '/'
    ensures SLASH + s[..k] + (SLASH + s[k + 1..]) == SLASH + s
  {
  }

  lemma SlashedOne(c: Text)
    ensures Slashed([c]) == SLASH + c
  {
    SlashedSnoc([], c);
    assert [] + [c] == [c];
    assert Slashed([]) + SLASH + c == SLASH + c;
  }

  // ----- walking

  lemma {:induction false} WalkConcat(stack: seq<Text>, p: seq<Text>, q: seq<Text>)
    ensures Walk(stack, p + q) == Walk(Walk(stack, p), q)
    decreases |p|
  {
    if p == [] {
      assert p + q == q;
    } else {
      assert (p + q)[1..] == p[1..] + q;
      WalkConcat(Push(stack, Clip(p[0])), p[1..], q);
    }
  }

  lemma {:induction false} WalkComponents(stack: seq<Text>, cs: seq<Text>)
    requires Components(cs) && Short(cs)
    ensures Walk(stack, cs) == stack + cs
    decreases |cs|
  {
    if cs == [] {
      assert stack + cs == stack;
    } else {
      WalkComponents(stack + [cs[0]], cs[1..]);
      assert stack + [cs[0]] + cs[1..] == stack + cs;
    }
  }

  lemma StackRender(cs: seq<Text>)
    requires Components(cs) && Short(cs)
    ensures Stack(Render(cs)) == cs
  {
    if cs == [] {
      SplitPlain([]);
      SplitConcat([], []);
      assert [] + SLASH + [] == SLASH;
      assert Split(SLASH) == [[], []];
      var e: Text := [];
      assert [e, e][1..] == [e] && [e][1..] == [];
    } else {
      SplitSlashed(cs);
      assert ([[]] + cs)[1..] == cs;
      WalkComponents([], cs);
      assert [] + cs == cs;
    }
  }

  lemma RenderAbsolute(cs: seq<Text>)
    ensures IsAbsolute(Render(cs))
  {
    if cs != [] {
      SlashedNonEmpty(cs);
    }
  }

  /** A rendered stack is a normal form. */
  lemma NormalizeRender(cs: seq<Text>)
    requires Components(cs) && Short(cs)
    ensures Normalize(Render(cs)) == Render(cs)
  {
    RenderAbsolute(cs);
    NormalizeAbsolute(Render(cs));
    StackRender(cs);
  }

  lemma NormalizeIdempotent(path: Text)
    requires IsAbsolute(path)
    ensures IsAbsolute(Normalize(path)) && Normalize(Normalize(path)) == Normalize(path)
  {
    NormalizeAbsolute(path);
    RenderAbsolute(Stack(path));
    NormalizeRender(Stack(path));
  }

  lemma SlashedLong(cs: seq<Text>)
    requires cs != [] && Components(cs)
    ensures |Slashed(cs)| >= 2
  {
  }

  // ----- is_normalized

  predicate IsNormalized(path: Text) {
    path == [] || path == SLASH || Components(Split(if path[0] == '/' then path[1..] else path))
  }

  lemma NormalizedIsFixed(path: Text)
    requires IsAbsolute(path) && IsNormalized(path) && Short(Split(path))
    ensures Normalize(path) == path
  {
    if path == SLASH {
      NormalizeRender([]);
    } else {
      ShortRest(path);
      NormalizeRender(Split(path[1..]));
      SlashedSplit(path[1..]);
      assert SLASH + path[1..] == path;
    }
  }

  lemma ShortRest(path: Text)
    requires IsAbsolute(path) && Short(Split(path))
    ensures Short(Split(path[1..]))
  {
    SplitAbsolute(path);
    var rest := Split(path[1..]);
    assert forall i :: 0 <= i < |rest| ==> rest[i] == Split(path)[i + 1];
  }

  lemma FixedIsNormalized(path: Text)
    requires IsAbsolute(path) && Normalize(path) == path
    ensures IsNormalized(path) && Short(Split(path))
  {
    NormalizeAbsolute(path);
    SplitAbsolute(path);
    var rest := Split(path[1..]);
    var cs := Stack(path);
    if cs == [] {
      assert path == SLASH && path[1..] == [];
      SplitPlain([]);
      assert Split(path) == [[], []];
    } else {
      SplitSlashed(cs);
      assert rest == ([[]] + rest)[1..] == ([[]] + cs)[1..] == cs;
    }
  }

  /** On absolute paths, is_normalized and file names of legal length mean exactly a fixed point of normalize. */
  lemma NormalizedIff(path: Text)
    requires IsAbsolute(path)
    ensures IsNormalized(path) && Short(Split(path)) <==> Normalize(path) == path
  {
    if IsNormalized(path) && Short(Split(path)) {
      NormalizedIsFixed(path);
    }
    if Normalize(path) == path {
      FixedIsNormalized(path);
    }
  }

  // ----- joining

  /** Following `x` from the directory `cs` is normalising their concatenation. */
  lemma NormalizeJoin(cs: seq<Text>, x: Text)
    requires Components(cs) && Short(cs)
    ensures Normalize(Render(cs) + SLASH + x) == Render(Walk(cs, Split(x)))
    ensures Components(Walk(cs, Split(x))) && Short(Walk(cs, Split(x)))
  {
    var path := Render(cs) + SLASH + x;
    RenderAbsolute(cs);
    assert path[0] == Render(cs)[0];
    NormalizeAbsolute(path);
    SplitConcat(Render(cs), x);
    WalkConcat([], Split(Render(cs)), Split(x));
    StackRender(cs);
  }

  // ----- is_subpath and relpath, on absolute normal forms

  /** The comparison at the end of is_subpath. */
  predicate Covers(root: Text, path: Text) {
    || root == SLASH
    || (|root| <= |path| && path[..|root|] == root && (|root| == |path| || path[|root|] == '/'))
  }

  lemma PrefixCovers(a: seq<Text>, rest: seq<Text>)
    ensures Covers(Render(a), Render(a + rest))
  {
    if a != [] {
      SlashedConcat(a, rest);
      if rest != [] {
        SlashedNonEmpty(rest);
      }
    }
  }

  lemma PrefixOfParts(a: seq<Text>, b: seq<Text>, more: seq<Text>)
    requires [[]] + b == [[]] + a + more
    ensures a <= b
  {
    assert ([[]] + b)[1..] == b && ([[]] + a + more)[1..] == a + more;
  }

  lemma CoversPrefix(a: seq<Text>, b: seq<Text>)
    requires Components(a) && Components(b) && a != [] && b != []
    requires Covers(Slashed(a), Slashed(b))
    ensures a <= b
  {
    SlashedLong(a);
    SplitSlashed(a);
    SplitSlashed(b);
    var more := PartsBehind(Slashed(a), Slashed(b));
    PrefixOfParts(a, b, more);
  }

  lemma PartsBehind(r: Text, p: Text) returns (more: seq<Text>)
    requires |r| <= |p| && p[..|r|] == r && (|r| == |p| || p[|r|] == '/')
    ensures Split(p) == Split(r) + more
  {
    if |r| == |p| {
      assert p == p[..|r|];
      more := [];
    } else {
      var t := p[|r| + 1..];
      assert p == p[..|r|] + [p[|r|]] + t;
      SplitConcat(r, t);
      more := Split(t);
    }
  }

  /** The comparison is exactly the prefix order on stacks. */
  lemma CoversIff(a: seq<Text>, b: seq<Text>)
    requires Components(a) && Components(b)
    ensures Covers(Render(a), Render(b)) <==> a <= b
  {
    if a <= b {
      assert b == a + b[|a|..];
      PrefixCovers(a, b[|a|..]);
    } else if Covers(Render(a), Render(b)) {
      SlashedLong(a);
      CoversPrefix(a, b);
    }
  }

  /** The end of relpath. */
  function Relative(root: Text, path: Text): Option<Text> {
    if root == SLASH then if path == [] then None else Some(path[1..])
    else if Covers(root, path) then
      var s := path[|root|..];
      Some(if s != [] && s[0] == '/' then s[1..] else s)
    else None
  }

  /** relpath answers exactly below the root, and joining its answer to the root gives the path back. */
  lemma RelativeRoundTrip(a: seq<Text>, b: seq<Text>)
    requires Components(a) && Components(b) && Short(a) && Short(b)
    ensures Relative(Render(a), Render(b)).Some? <==> a <= b
    ensures a <= b ==>
      var rel := Relative(Render(a), Render(b)).value; Normalize(Render(a) + SLASH + rel) == Render(b)
  {
    CoversIff(a, b);
    RenderAbsolute(b);
    RenderNotRoot(a);
    if a <= b {
      assert b == a + b[|a|..];
      RelativeJoins(a, b[|a|..]);
    }
  }

  lemma RelativeJoins(a: seq<Text>, rest: seq<Text>)
    requires Components(a) && Components(rest) && Components(a + rest) && Short(a) && Short(rest)
    requires Relative(Render(a), Render(a + rest)).Some?
    ensures Normalize(Render(a) + SLASH + Relative(Render(a), Render(a + rest)).value) == Render(a + rest)
  {
    RelativeParts(a, rest);
    NormalizeJoin(a, Relative(Render(a), Render(a + rest)).value);
    if rest == [] {
      var e: Text := [];
      assert [e][1..] == [] && a + rest == a;
    } else {
      WalkComponents(a, rest);
    }
  }

  lemma RenderNotRoot(a: seq<Text>)
    requires Components(a)
    ensures Render(a) == SLASH <==> a == []
  {
    if a != [] {
      SlashedLong(a);
    }
  }

  lemma RelativeParts(a: seq<Text>, rest: seq<Text>)
    requires Components(a) && Components(rest)
    ensures var r := Relative(Render(a), Render(a + rest));
      r.Some? && Split(r.value) == if rest == [] then [[]] else rest
  {
    var p := Render(a + rest);
    RenderAbsolute(a + rest);
    CoversIff(a, a + rest);
    RenderNotRoot(a);
    SlashedConcat(a, rest);
    SplitPlain([]);
    if rest == [] {
      assert a + rest == a;
      if a == [] {
        assert p[1..] == [];
      } else {
        assert p[|p|..] == [];
      }
    } else {
      SlashedNonEmpty(rest);
      SplitSlashed(rest);
      SplitAbsolute(Slashed(rest));
      assert Split(Slashed(rest)[1..]) == ([[]] + rest)[1..] == rest;
      assert p == Slashed(a) + Slashed(rest);
      if a == [] {
        assert p[1..] == Slashed(rest)[1..];
      } else {
        assert p[|Render(a)|..] == Slashed(rest);
      }
    }
  }

  // ----- basename and dirname

  /** The text basename and dirname work on. */
  function Normalized(path: Text): Text {
    if IsNormalized(path) then path else Normalize(path)
  }

  function Basename(path: Text): Text {
    var p := Normalized(path);
    var s := LastSlash(p);
    if path == [] || p == [] then []
    else if s == |p| then p
    else if s + 1 == |p| then DOT
    else p[s + 1..]
  }

  function Dirname(path: Text): Text {
    var p := Normalized(path);
    var s := LastSlash(p);
    if s == |p| then DOT else if s == 0 then SLASH else p[..s]
  }

  /** Both names read off the normal form of a directory `init` and an entry `c` in it. */
  lemma NamesOf(path: Text, init: seq<Text>, c: Text)
    requires Component(c) && path != [] && Normalized(path) == Slashed(init + [c])
    ensures Dirname(path) == Render(init) && Basename(path) == c
  {
    var p := Slashed(init) + SLASH + c;
    SlashedSnoc(init, c);
    LastSlashSnoc(Slashed(init), c);
    if init != [] {
      SlashedNonEmpty(init);
    }
    assert p[|Slashed(init)| + 1..] == c && p[..|Slashed(init)|] == Slashed(init);
  }

  lemma NamesOfRoot(path: Text)
    requires path != [] && Normalized(path) == SLASH
    ensures Dirname(path) == SLASH && Basename(path) == DOT
  {
    assert LastSlash(SLASH) == 0;
  }

  lemma JoinNames(cs: seq<Text>)
    requires Components(cs) && Short(cs)
    ensures cs == [] ==> Normalize(SLASH + SLASH + DOT) == SLASH
    ensures cs != [] ==> Normalize(Render(cs[..|cs| - 1]) + SLASH + cs[|cs| - 1]) == Render(cs)
  {
    if cs == [] {
      NormalizeJoin([], DOT);
      SplitPlain(DOT);
    } else {
      var init, c := cs[..|cs| - 1], cs[|cs| - 1];
      NormalizeJoin(init, c);
      SplitPlain(c);
      WalkComponents(init, [c]);
      assert init + [c] == cs;
    }
  }

  /** What basename and dirname work on is the name of the stack. */
  lemma NormalizedIs(path: Text)
    requires IsAbsolute(path) && (IsNormalized(path) ==> Short(Split(path)))
    ensures Normalized(path) == Normalize(path) == Render(Stack(path))
    ensures Components(Stack(path)) && Short(Stack(path))
  {
    NormalizeAbsolute(path);
    NormalizedIff(path);
  }

  lemma NamesJoinRoot(path: Text)
    requires path != [] && Normalized(path) == Render([])
    ensures Normalize(Dirname(path) + SLASH + Basename(path)) == Render([])
  {
    JoinNames([]);
    NamesOfRoot(path);
  }

  lemma NamesJoin(path: Text, cs: seq<Text>)
    requires path != [] && Components(cs) && Short(cs) && Normalized(path) == Render(cs)
    ensures Normalize(Dirname(path) + SLASH + Basename(path)) == Render(cs)
  {
    if cs == [] {
      NamesJoinRoot(path);
    } else {
      assert cs[..|cs| - 1] + [cs[|cs| - 1]] == cs;
      NamesJoinBelow(path, cs[..|cs| - 1], cs[|cs| - 1]);
    }
  }

  lemma NamesJoinBelow(path: Text, init: seq<Text>, c: Text)
    requires path != [] && Components(init + [c]) && Short(init + [c]) && Normalized(path) == Render(init + [c])
    ensures Normalize(Dirname(path) + SLASH + Basename(path)) == Render(init + [c])
  {
    JoinNames(init + [c]);
    assert (init + [c])[..|init|] == init;
    NamesOf(path, init, c);
  }

  /** Directory and base name of an absolute path, joined, name the same file; the root included. */
  lemma DirnameBasename(path: Text)
    requires IsAbsolute(path) && (IsNormalized(path) ==> Short(Split(path)))
    ensures Normalize(Dirname(path) + SLASH + Basename(path)) == Normalize(path)
  {
    NormalizedIs(path);
    NamesJoin(path, Stack(path));
  }

  // ----- paths relative to a current directory

  /** absolutize, with the answer of getcwd. */
  function Absolutize(cwd: Option<Text>, path: Text): Option<Text> {
    if path == [] then None
    else if path[0] == '/' then Some(Normalize(path))
    else if cwd.None? then None
    else if |cwd.value| + 1 + |path| > PATH_MAX then None
    else Some(Normalize(cwd.value + SLASH + path))
  }

  /** Where a path leads from the directory `cs`. */
  function Resolved(cs: seq<Text>, path: Text): seq<Text> {
    if IsAbsolute(path) then Stack(path) else Walk(cs, Split(path))
  }

  /** absolutize resolves a path from the stack of the current directory. */
  lemma AbsolutizeResolves(cs: seq<Text>, path: Text)
    requires Components(cs) && Short(cs)
    requires Absolutize(Some(Render(cs)), path).Some?
    ensures Absolutize(Some(Render(cs)), path) == Some(Render(Resolved(cs, path)))
    ensures Components(Resolved(cs, path)) && Short(Resolved(cs, path))
  {
    if IsAbsolute(path) {
      NormalizeAbsolute(path);
    } else {
      NormalizeJoin(cs, path);
    }
  }

  /** Resolving `b` from where `a` leads is resolving `a/b`. */
  lemma ResolvedJoin(cs: seq<Text>, a: Text, b: Text)
    requires a != [] && !IsAbsolute(b)
    ensures Resolved(Resolved(cs, a), b) == Resolved(cs, a + SLASH + b)
  {
    SplitConcat(a, b);
    assert (a + SLASH + b)[0] == a[0];
    WalkConcat(if IsAbsolute(a) then [] else cs, Split(a), Split(b));
  }
}
