/**
 Path names of the CrystaX file system layer as stacks of components, and the loop of
 `normalize` as a fold over the parts of a path.
 */
module VfsPath {
  import opened CStrings

  const NAME_MAX := 255
  const PATH_MAX := 4096

  const SLASH: Text := ['/']
  const DOT: Text := ['.']
  const DOTDOT: Text := ['.', '.']

  predicate NoSlash(s: Text) {
    forall k :: 0 <= k < |s| ==> s[k] != '/'
  }

  /** The parts between slashes; one more than there are slashes. */
  function Split(s: Text): (parts: seq<Text>)
    ensures parts != [] && forall i :: 0 <= i < |parts| ==> NoSlash(parts[i])
    decreases |s|
  {
    var k := IndexOf(s, '/', 0);
    if k == |s| then [s] else [s[..k]] + Split(s[k + 1..])
  }

  /** What a path component of a normal form looks like. */
  predicate Component(c: Text) {
    c != [] && c != DOT && c != DOTDOT && NoSlash(c)
  }

  predicate Components(cs: seq<Text>) {
    forall i :: 0 <= i < |cs| ==> Component(cs[i])
  }

  predicate Short(cs: seq<Text>) {
    forall i :: 0 <= i < |cs| ==> |cs[i]| <= NAME_MAX
  }

  /** Parts longer than a file name are cut. */
  function Clip(c: Text): Text {
    if |c| > NAME_MAX then c[..NAME_MAX] else c
  }

  /** Following one part from a directory, given as the stack of its components. */
  function Push(stack: seq<Text>, c: Text): seq<Text> {
    if c == [] || c == DOT then stack
    else if c == DOTDOT then if stack == [] then [] else stack[..|stack| - 1]
    else stack + [c]
  }

  function Walk(stack: seq<Text>, parts: seq<Text>): seq<Text>
    decreases |parts|
  {
    if parts == [] then stack else Walk(Push(stack, Clip(parts[0])), parts[1..])
  }

  /** Each component with a slash before it. */
  function Slashed(cs: seq<Text>): Text {
    if cs == [] then [] else Slashed(cs[..|cs| - 1]) + SLASH + cs[|cs| - 1]
  }

  /** The absolute path name of a stack. */
  function Render(cs: seq<Text>): Text {
    if cs == [] then SLASH else Slashed(cs)
  }

  // ----- the loop of normalize

  /** The C string in `buf`, and the length the code believes it has. */
  datatype Norm = Norm(buf: Text, buflen: nat)

  /** The last index of `/` in `s`, or the length of `s`. */
  function LastSlash(s: Text): (r: nat)
    ensures r <= |s| && (r < |s| ==> s[r] == '/')
    ensures forall k :: 0 <= k < |s| && (r < k || r == |s|) ==> s[k] != '/'
  {
    LastSlashBefore(s, |s|)
  }

  function LastSlashBefore(s: Text, n: nat): (r: nat)
    requires n <= |s|
    ensures r < n || r == |s|
    ensures r < |s| ==> s[r] == '/'
    ensures forall k :: 0 <= k < n && (r < k || r == |s|) ==> s[k] != '/'
  {
    if n == 0 then |s| else if s[n - 1] == '/' then n - 1 else LastSlashBefore(s, n - 1)
  }

  /** One part, already cut to NAME_MAX, of a path that starts with a slash or not. */
  function NormPart(absolute: bool, st: Norm, part: Text): Norm {
    if part == [] then
      if st.buflen == 0 && absolute then Norm(st.buf + SLASH, st.buflen + 1) else st
    else if part == DOT then
      if st.buflen == 0 then Norm(st.buf + DOT, st.buflen + 1) else st
    else if part == DOTDOT then
      if st.buflen == 0 then Norm(st.buf + DOTDOT, st.buflen + 2) else NormUp(st)
    else
      var st := if st.buflen == 1 && st.buf != [] && st.buf[0] == '.' then Norm([], 0) else st;
      var st := if st.buflen > 0 && !(st.buflen <= |st.buf| && st.buf[st.buflen - 1] == '/')
                then Norm(st.buf + SLASH, st.buflen + 1) else st;
      Norm(st.buf + part, st.buflen + |part|)
  }

  /** A `..` part when the buffer is not empty. */
  function NormUp(st: Norm): Norm {
    var v := LastSlash(st.buf);
    if v == |st.buf| then
      if st.buflen == 1 && st.buf == DOT then Norm(DOTDOT, st.buflen + 2)
      else if st.buflen == 2 && st.buf == DOTDOT then Norm(st.buf + SLASH + DOTDOT, st.buflen + 3)
      else Norm(DOT, 1)
    else
      var v := if v == 0 then 1 else v;
      if st.buflen == v + 3 && st.buf[v..] == SLASH + DOTDOT then Norm(st.buf + SLASH + DOTDOT, st.buflen + 3)
      else Norm(st.buf[..v], v)
  }

  function NormParts(absolute: bool, st: Norm, parts: seq<Text>): Norm
    decreases |parts|
  {
    if parts == [] then st else NormParts(absolute, NormPart(absolute, st, Clip(parts[0])), parts[1..])
  }

  predicate IsAbsolute(path: Text) {
    path != [] && path[0] == '/'
  }

  /** The result of `normalize`. */
  function Normalize(path: Text): Text {
    NormParts(IsAbsolute(path), Norm([], 0), Split(path)).buf
  }

  // ----- absolute paths: the buffer is the stack

  lemma SlashedSnoc(cs: seq<Text>, c: Text)
    ensures Slashed(cs + [c]) == Slashed(cs) + SLASH + c
  {
    assert (cs + [c])[..|cs|] == cs;
  }

  lemma {:induction false} SlashedConcat(a: seq<Text>, b: seq<Text>)
    ensures Slashed(a + b) == Slashed(a) + Slashed(b)
  {
    if b == [] {
      assert a + b == a;
    } else {
      var n := |b| - 1;
      assert a + b == (a + b[..n]) + [b[n]];
      assert b == b[..n] + [b[n]];
      SlashedSnoc(a + b[..n], b[n]);
      SlashedSnoc(b[..n], b[n]);
      SlashedConcat(a, b[..n]);
    }
  }

  lemma LastSlashSnoc(s: Text, c: Text)
    requires NoSlash(c)
    ensures LastSlash(s + SLASH + c) == |s|
  {
    var t := s + SLASH + c;
    assert t[|s|] == '/';
    assert forall k :: |s| < k < |t| ==> t[k] == c[k - |s| - 1];
  }

  /** `..` takes the last component off. */
  lemma NormUpAbsolute(init: seq<Text>, c: Text)
    requires Components(init) && Component(c)
    ensures var p := Slashed(init + [c]); NormUp(Norm(p, |p|)) == Norm(Render(init), |Render(init)|)
  {
    var s := Slashed(init);
    var p := s + SLASH + c;
    SlashedSnoc(init, c);
    LastSlashSnoc(s, c);
    if init == [] {
      assert s == [] && p[..1] == SLASH;
      assert p[1..][0] == c[0] != '/';
    } else {
      assert |s| > 0 by { SlashedNonEmpty(init); }
      assert p[..|s|] == s;
      assert p[|s|..] == SLASH + c;
      assert (SLASH + c)[1..] == c && (SLASH + DOTDOT)[1..] == DOTDOT;
    }
  }

  lemma SlashedNonEmpty(cs: seq<Text>)
    requires cs != []
    ensures Slashed(cs) != [] && Slashed(cs)[0] == '/'
    decreases |cs|
  {
    if |cs| > 1 {
      SlashedNonEmpty(cs[..|cs| - 1]);
    }
  }

  /** One part of the loop is one step of the walk. */
  lemma NormPartAbsolute(cs: seq<Text>, part: Text)
    requires Components(cs) && NoSlash(part)
    ensures Components(Push(cs, part))
    ensures var p := Render(cs); var q := Render(Push(cs, part));
      NormPart(true, Norm(p, |p|), part) == Norm(q, |q|)
  {
    if part == DOTDOT {
      if cs == [] {
        assert LastSlash(SLASH) == 0 && SLASH[..1] == SLASH;
      } else {
        assert cs == cs[..|cs| - 1] + [cs[|cs| - 1]];
        SlashedNonEmpty(cs);
        NormUpAbsolute(cs[..|cs| - 1], cs[|cs| - 1]);
      }
    } else if part != [] && part != DOT {
      NormNameAbsolute(cs, part);
    }
  }

  lemma NormNameAbsolute(cs: seq<Text>, part: Text)
    requires Components(cs) && Component(part)
    ensures var p := Render(cs); var q := Render(cs + [part]);
      NormPart(true, Norm(p, |p|), part) == Norm(q, |q|)
  {
    SlashedSnoc(cs, part);
    if cs == [] {
      assert Slashed(cs) + SLASH + part == SLASH + part;
    } else {
      var c := cs[|cs| - 1];
      SlashedNonEmpty(cs);
      assert c[|c| - 1] != '/';
      assert Slashed(cs)[|Slashed(cs)| - 1] == c[|c| - 1];
    }
  }

  lemma ClipNoSlash(c: Text)
    requires NoSlash(c)
    ensures NoSlash(Clip(c)) && |Clip(c)| <= NAME_MAX
  {
  }

  lemma PushShort(cs: seq<Text>, c: Text)
    requires Short(cs) && |c| <= NAME_MAX
    ensures Short(Push(cs, c))
  {
  }

  lemma {:induction false} NormPartsAbsolute(cs: seq<Text>, parts: seq<Text>)
    requires Components(cs) && Short(cs) && forall i :: 0 <= i < |parts| ==> NoSlash(parts[i])
    ensures Components(Walk(cs, parts)) && Short(Walk(cs, parts))
    ensures var p := Render(cs); var q := Render(Walk(cs, parts));
      NormParts(true, Norm(p, |p|), parts) == Norm(q, |q|)
    decreases |parts|
  {
    if parts != [] {
      var c := Clip(parts[0]);
      ClipNoSlash(parts[0]);
      NormPartAbsolute(cs, c);
      PushShort(cs, c);
      NormPartsAbsolute(Push(cs, c), parts[1..]);
    }
  }

  /** The stack that a path leads to from the root. */
  function Stack(path: Text): seq<Text> {
    Walk([], Split(path))
  }

  lemma SplitAbsolute(path: Text)
    requires IsAbsolute(path)
    ensures Split(path) == [[]] + Split(path[1..])
  {
    assert IndexOf(path, '/', 0) == 0 && path[..0] == [];
  }

  /** On absolute paths `normalize` names the stack that the parts of the path lead to. */
  lemma NormalizeAbsolute(path: Text)
    requires IsAbsolute(path)
    ensures Normalize(path) == Render(Stack(path))
    ensures Components(Stack(path)) && Short(Stack(path))
    ensures Stack(path) == Walk([], Split(path[1..]))
  {
    SplitAbsolute(path);
    var parts := Split(path);
    assert parts[0] == [] && parts[1..] == Split(path[1..]);
    assert NormPart(true, Norm([], 0), []) == Norm(SLASH, 1);
    NormPartsAbsolute([], parts[1..]);
  }

  // ----- the buffer is long enough

  /** After `used` characters of the path the buffer has no more, or just the leading slash. */
  predicate Fits(st: Norm, used: nat) {
    |st.buf| <= used || (st.buf == SLASH && st.buflen == 1)
  }

  lemma NormPartFits(absolute: bool, st: Norm, part: Text, used: nat)
    requires Fits(st, used)
    ensures Fits(NormPart(absolute, st, part), used + 1 + |part|)
  {
  }

  lemma FirstPartFits(absolute: bool, part: Text)
    ensures Fits(NormPart(absolute, Norm([], 0), part), |part|)
  {
  }

  /** The length of the text that the parts come from. */
  function PartsLength(parts: seq<Text>): nat {
    if parts == [] then 0 else 1 + |parts[0]| + PartsLength(parts[1..])
  }

  lemma {:induction false} SplitLength(s: Text)
    ensures PartsLength(Split(s)) == |s| + 1
    decreases |s|
  {
    var k := IndexOf(s, '/', 0);
    if k < |s| {
      SplitLength(s[k + 1..]);
      assert Split(s)[1..] == Split(s[k + 1..]);
    } else {
      assert Split(s)[1..] == [];
    }
  }

  lemma {:induction false} NormPartsFit(absolute: bool, st: Norm, parts: seq<Text>, used: nat)
    requires Fits(st, used)
    ensures Fits(NormParts(absolute, st, parts), used + PartsLength(parts))
    decreases |parts|
  {
    if parts != [] {
      NormPartFits(absolute, st, Clip(parts[0]), used);
      NormPartsFit(absolute, NormPart(absolute, st, Clip(parts[0])), parts[1..], used + 1 + |parts[0]|);
    }
  }

  /** The result is never longer than the path. */
  lemma NormalizeNotLonger(path: Text)
    ensures |Normalize(path)| <= |path|
  {
    var parts := Split(path);
    SplitLength(path);
    FirstPartFits(IsAbsolute(path), Clip(parts[0]));
    NormPartsFit(IsAbsolute(path), NormPart(IsAbsolute(path), Norm([], 0), Clip(parts[0])), parts[1..], |parts[0]|);
    if path == [] {
      assert parts == [[]];
    }
  }
}
