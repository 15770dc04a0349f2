/**
 futils.cpp as it runs: `normalize` edits a character buffer and a length, the tests and the
 extraction of names are loops over the text.  Each method is proved to compute the function of
 the same name on values and to stay inside its buffers; only basename can write behind one, and
 its contract says when.
 */
module VfsBuffer {
  import opened CStrings
  import P = VfsPath
  import A = VfsAlgebra
  import N = VfsNames

  /** The buffer holds the C string `s`. */
  ghost predicate Holds(buf: array<char>, s: Text)
    reads buf
  {
    |s| < buf.Length && buf[..|s|] == s && buf[|s|] == '\0'
  }

  /** strlen. */
  method StrLen(buf: array<char>, ghost s: Text) returns (n: nat)
    requires Holds(buf, s)
    ensures n == |s|
  {
    n := 0;
    assert forall k :: 0 <= k < |s| ==> buf[k] == buf[..|s|][k];
    while buf[n] != '\0'
      invariant n <= |s|
      decreases |s| - n
    {
      n := n + 1;
    }
  }

  /** strcpy at offset `at` of the C string `s`. */
  method CopyAt(buf: array<char>, ghost s: Text, at: nat, t: Text)
    requires Holds(buf, s) && at <= |s| && at + |t| < buf.Length
    modifies buf
    ensures Holds(buf, s[..at] + t)
  {
    forall i | 0 <= i < |t| {
      buf[at + i] := t[i];
    }
    buf[at + |t|] := '\0';
    assert buf[..at] == s[..at];
    assert buf[..at + |t|] == s[..at] + t;
  }

  /** strcat. */
  method StrCat(buf: array<char>, ghost s: Text, t: Text)
    requires Holds(buf, s) && |s| + |t| < buf.Length
    modifies buf
    ensures Holds(buf, s + t)
  {
    var n := StrLen(buf, s);
    CopyAt(buf, s, n, t);
    assert s[..n] == s;
  }

  /** strrchr for a slash; the length of the string if there is none. */
  method StrRChr(buf: array<char>, ghost s: Text) returns (v: nat)
    requires Holds(buf, s)
    ensures v == P.LastSlash(s)
  {
    var n := StrLen(buf, s);
    v := n;
    while v > 0 && buf[v - 1] != '/'
      invariant v <= n
      invariant P.LastSlash(s) == P.LastSlashBefore(s, v)
    {
      assert buf[v - 1] == buf[..n][v - 1];
      v := v - 1;
    }
    assert v > 0 ==> buf[v - 1] == buf[..n][v - 1];
    v := if v == 0 then n else v - 1;
  }

  /** The `..` case of normalize. */
  method NormUp(buf: array<char>, buflen: nat, ghost st: P.Norm) returns (len: nat)
    requires Holds(buf, st.buf) && buflen == st.buflen && |st.buf| + 3 < buf.Length
    requires st.buf != [] && |st.buf| <= buflen <= |st.buf| + 1
    modifies buf
    ensures Holds(buf, P.NormUp(st).buf) && len == P.NormUp(st).buflen
  {
    var v := StrRChr(buf, st.buf);
    var n := StrLen(buf, st.buf);
    if v == n {
      len := UpWithoutSlash(buf, buflen, st);
    } else {
      len := UpWithSlash(buf, buflen, if v == 0 then 1 else v, st);
    }
  }

  /** The buffer is a single component. */
  method UpWithoutSlash(buf: array<char>, buflen: nat, ghost st: P.Norm) returns (len: nat)
    requires Holds(buf, st.buf) && buflen == st.buflen && |st.buf| + 3 < buf.Length
    requires st.buf != [] && |st.buf| <= buflen <= |st.buf| + 1 && P.LastSlash(st.buf) == |st.buf|
    modifies buf
    ensures Holds(buf, P.NormUp(st).buf) && len == P.NormUp(st).buflen
  {
    assert forall k :: 0 <= k < |st.buf| ==> buf[k] == buf[..|st.buf|][k];
    if buflen == 1 && buf[0] == '.' {
      assert st.buf == P.DOT;
      CopyAt(buf, st.buf, 0, P.DOTDOT);
      assert st.buf[..0] + P.DOTDOT == P.DOTDOT;
      len := buflen + 2;
    } else if buflen == 2 && buf[0] == '.' && buf[1] == '.' {
      assert st.buf == P.DOTDOT;
      StrCat(buf, st.buf, P.SLASH + P.DOTDOT);
      assert st.buf + (P.SLASH + P.DOTDOT) == st.buf + P.SLASH + P.DOTDOT;
      len := buflen + 3;
    } else {
      CopyAt(buf, st.buf, 0, P.DOT);
      assert st.buf[..0] + P.DOT == P.DOT;
      len := 1;
    }
  }

  /** The last component is cut at the slash `v`, or before it for `/` itself. */
  method UpWithSlash(buf: array<char>, buflen: nat, v: nat, ghost st: P.Norm) returns (len: nat)
    requires Holds(buf, st.buf) && buflen == st.buflen && |st.buf| + 3 < buf.Length
    requires |st.buf| <= buflen <= |st.buf| + 1
    requires var w := P.LastSlash(st.buf); w < |st.buf| && v == if w == 0 then 1 else w
    modifies buf
    ensures Holds(buf, P.NormUp(st).buf) && len == P.NormUp(st).buflen
  {
    ghost var n := |st.buf|;
    assert forall k :: 0 <= k < n ==> buf[k] == buf[..n][k];
    if n == v + 3 {
      assert st.buf[v..] == [buf[v], buf[v + 1], buf[v + 2]];
    }
    if buflen - v == 3 && buf[v] == '/' && buf[v + 1] == '.' && buf[v + 2] == '.' {
      assert n == v + 3;
      StrCat(buf, st.buf, P.SLASH + P.DOTDOT);
      assert st.buf + (P.SLASH + P.DOTDOT) == st.buf + P.SLASH + P.DOTDOT;
      len := buflen + 3;
    } else {
      CopyAt(buf, st.buf, v, []);
      assert st.buf[..v] + [] == st.buf[..v];
      len := v;
    }
  }

  /** The recorded length is right or one too large, and zero only for an empty buffer. */
  predicate Sane(st: P.Norm) {
    |st.buf| <= st.buflen <= |st.buf| + 1 && (st.buf == [] ==> st.buflen == 0)
  }

  lemma SanePart(absolute: bool, st: P.Norm, part: Text)
    requires Sane(st)
    ensures Sane(P.NormPart(absolute, st, part))
  {
  }

  /** The body of normalize's loop, on one part. */
  method NormPart(absolute: bool, buf: array<char>, buflen: nat, part: Text, ghost st: P.Norm) returns (len: nat)
    requires Sane(st) && Holds(buf, st.buf) && buflen == st.buflen
    requires |P.NormPart(absolute, st, part).buf| < buf.Length && |st.buf| + |part| + 1 < buf.Length
    modifies buf
    ensures Holds(buf, P.NormPart(absolute, st, part).buf) && len == P.NormPart(absolute, st, part).buflen
  {
    len := buflen;
    if part == [] {
      if buflen == 0 && absolute {
        StrCat(buf, st.buf, P.SLASH);
        len := buflen + 1;
      }
    } else if part == P.DOT {
      if buflen == 0 {
        StrCat(buf, st.buf, P.DOT);
        len := buflen + 1;
      }
    } else if part == P.DOTDOT {
      if buflen == 0 {
        StrCat(buf, st.buf, P.DOTDOT);
        len := buflen + 2;
      } else {
        len := NormUp(buf, buflen, st);
      }
    } else {
      ghost var cur := st.buf;
      assert forall k :: 0 <= k < |cur| ==> buf[k] == buf[..|cur|][k];
      if buflen == 1 && buf[0] == '.' {
        len := 0;
        CopyAt(buf, cur, 0, []);
        assert cur[..0] + [] == [];
        cur := [];
      }
      assert forall k :: 0 <= k < |cur| ==> buf[k] == buf[..|cur|][k];
      if len > 0 && buf[len - 1] != '/' {
        StrCat(buf, cur, P.SLASH);
        cur := cur + P.SLASH;
        len := len + 1;
      }
      StrCat(buf, cur, part);
      len := len + |part|;
    }
  }

  /** normalize. */
  method Normalize(path: Option<Text>) returns (r: Option<Text>)
    requires path.Some? ==> |path.value| <= P.PATH_MAX
    ensures r == if path.None? then None else Some(P.Normalize(path.value))
  {
    if path.None? {
      return None;
    }
    var buf := new char[P.PATH_MAX + 1];
    buf[0] := '\0';
    var buflen := 0;
    var absolute := P.IsAbsolute(path.value);
    var s, more := path.value, true;
    ghost var st, used := P.Norm([], 0), -1;
    P.SplitLength(path.value);
    while more
      invariant Sane(st) && Holds(buf, st.buf) && buflen == st.buflen && fresh(buf)
      invariant if used < 0 then st == P.Norm([], 0) && used == -1 else P.Fits(st, used)
      invariant more ==> used + 1 + |s| == |path.value|
      invariant P.NormParts(absolute, P.Norm([], 0), P.Split(path.value))
             == P.NormParts(absolute, st, if more then P.Split(s) else [])
      decreases |s|, more
    {
      var p := IndexOf(s, '/', 0);
      var part := P.Clip(s[..p]);
      ghost var parts := P.Split(s);
      assert parts[0] == s[..p] && parts[1..] == if p < |s| then P.Split(s[p + 1..]) else [];
      SanePart(absolute, st, part);
      if used < 0 {
        P.FirstPartFits(absolute, part);
      } else {
        P.NormPartFits(absolute, st, part, used);
      }
      buflen := NormPart(absolute, buf, buflen, part, st);
      st, used := P.NormPart(absolute, st, part), used + 1 + p;
      if p < |s| {
        s := s[p + 1..];
      } else {
        more := false;
      }
    }
    r := ReadOut(buf, st.buf);
  }

  /** strdup of the buffer. */
  method ReadOut(buf: array<char>, ghost s: Text) returns (r: Option<Text>)
    requires Holds(buf, s)
    ensures r == Some(s)
  {
    var n: nat, t: Text := 0, [];
    assert forall k :: 0 <= k < |s| ==> buf[k] == buf[..|s|][k];
    while buf[n] != '\0'
      invariant n <= |s| && t == s[..n]
      decreases |s| - n
    {
      t := t + [buf[n]];
      n := n + 1;
    }
    assert s[..n] == s;
    r := Some(t);
  }

  /** is_normalized. */
  method IsNormalized(path: Option<Text>) returns (b: bool)
    ensures b == (path.None? || A.IsNormalized(path.value))
  {
    if path.None? || path.value == [] || path.value == P.SLASH {
      return true;
    }
    var s := path.value;
    if s[0] == '/' {
      s := s[1..];
    }
    ghost var all := P.Split(s);
    ghost var seen := 0;
    var more := true;
    while more
      invariant 0 <= seen <= |all|
      invariant forall k :: 0 <= k < seen ==> P.Component(all[k])
      invariant if more then all[seen..] == P.Split(s) else seen == |all|
      decreases |s|, more
    {
      var p := IndexOf(s, '/', 0);
      var part := s[..p];
      assert P.Split(s)[0] == part && P.Split(s)[1..] == if p < |s| then P.Split(s[p + 1..]) else [];
      assert all[seen] == all[seen..][0] == part && all[seen + 1..] == all[seen..][1..];
      if part == [] || part == P.DOT || part == P.DOTDOT {
        assert !P.Component(all[seen]);
        return false;
      }
      seen := seen + 1;
      if p < |s| {
        s := s[p + 1..];
      } else {
        more := false;
      }
    }
    b := true;
  }

  /** What basename comes to: NULL, the copy of a name, or a write behind its buffer. */
  datatype Named = Null | Copy(name: Text) | Overrun

  /** strncpy and the terminator behind it; nothing is written if the buffer is too short. */
  method CopyName(buf: array<char>, t: Text) returns (fits: bool)
    modifies buf
    ensures fits <==> |t| < buf.Length
    ensures fits ==> Holds(buf, t)
  {
    if |t| >= buf.Length {
      return false;
    }
    forall i | 0 <= i < |t| {
      buf[i] := t[i];
    }
    buf[|t|] := '\0';
    assert buf[..|t|] == t;
    return true;
  }

  /** The name at the end of the normal form. */
  method LastName(path: Text) returns (name: Text)
    requires path != [] && |path| <= P.PATH_MAX
    ensures name == A.Basename(path)
  {
    var p := Normal(path);
    var s := P.LastSlash(p);
    name := if p == [] || s == |p| then p else if |p| - s - 1 == 0 then P.DOT else p[s + 1..];
  }

  /** basename, with its buffer for a name. */
  method Basename(path: Option<Text>) returns (r: Named)
    requires path.Some? ==> |path.value| <= P.PATH_MAX
    ensures path.None? <==> r == Null
    ensures path.Some? && |A.Basename(path.value)| <= P.NAME_MAX ==> r == Copy(A.Basename(path.value))
    ensures r == Overrun <==>
      path.Some? && A.IsNormalized(path.value) && |N.LastPart(path.value)| > P.NAME_MAX
  {
    if path.None? {
      return Null;
    }
    N.BasenameFits(path.value);
    if path.value == [] {
      return Copy([]);
    }
    var buf := new char[P.NAME_MAX + 1];
    var name := LastName(path.value);
    var fits := CopyName(buf, name);
    if !fits {
      return Overrun;
    }
    var copy := ReadOut(buf, name);
    r := Copy(copy.value);
  }

  /** dirname, with its buffer for a path. */
  method Dirname(path: Option<Text>) returns (r: Option<Text>)
    requires path.Some? ==> |path.value| <= P.PATH_MAX
    ensures r == if path.None? then None else Some(A.Dirname(path.value))
  {
    if path.None? {
      return None;
    }
    var buf := new char[P.PATH_MAX + 1];
    var p := Normal(path.value);
    P.NormalizeNotLonger(path.value);
    var s := P.LastSlash(p);
    var dir: Text := if p == [] || s == |p| then P.DOT else if p[..s] == [] then P.SLASH else p[..s];
    var fits := CopyName(buf, dir);
    assert fits;
    r := ReadOut(buf, dir);
  }

  /** The path itself if it is normalized already, else its normal form. */
  method Normal(path: Text) returns (p: Text)
    requires |path| <= P.PATH_MAX
    ensures p == A.Normalized(path)
  {
    var normalized := IsNormalized(Some(path));
    if normalized {
      p := path;
    } else {
      var r := Normalize(Some(path));
      p := r.value;
    }
  }
}
