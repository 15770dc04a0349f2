/**
 `normalize` on relative paths.  After a prefix that comes to `.`, a `..` leaves the recorded
 length of the buffer one too large, and a second `..` right behind it is then lost.  This
 module says for exactly which paths the result is the right one.
 */
module VfsRelative {
  import opened CStrings
  import opened VfsPath
  import VfsAlgebra

  /** A relative path, read so far: how many levels up, then which names. */
  datatype Rel = Rel(started: bool, ups: nat, names: seq<Text>)

  const START := Rel(false, 0, [])
  const HERE := Rel(true, 0, [])

  function RelPush(r: Rel, c: Text): Rel {
    if c == [] then r
    else if c == DOT then r.(started := true)
    else if c == DOTDOT then
      if r.names == [] then Rel(true, r.ups + 1, []) else Rel(true, r.ups, r.names[..|r.names| - 1])
    else Rel(true, r.ups, r.names + [c])
  }

  function Ups(n: nat): seq<Text> {
    if n == 0 then [] else Ups(n - 1) + [DOTDOT]
  }

  /** Parts joined by slashes. */
  function Joined(cs: seq<Text>): Text
    requires cs != []
  {
    SlashedNonEmpty(cs); Slashed(cs)[1..]
  }

  function RelText(r: Rel): Text {
    if !r.started then []
    else if r.ups == 0 && r.names == [] then DOT
    else Joined(Ups(r.ups) + r.names)
  }

  /** The first `k` parts, read as they should be. */
  function RelAt(parts: seq<Text>, k: nat): Rel
    requires k <= |parts|
  {
    if k == 0 then START else RelPush(RelAt(parts, k - 1), Clip(parts[k - 1]))
  }

  /** The normal form of a relative path. */
  function RelNormal(path: Text): Text {
    RelText(RelAt(Split(path), |Split(path)|))
  }

  // ----- what the code does

  /** The buffer as a relative path, and whether its recorded length is one too large. */
  datatype Impl = Impl(r: Rel, off: bool)

  function ImplPush(i: Impl, c: Text): Impl {
    if c == DOTDOT && i.r.started && i.r.names == [] then
      if i.r.ups == 0 then Impl(Rel(true, 1, []), true)
      else if i.off then Impl(HERE, false)
      else Impl(RelPush(i.r, c), false)
    else Impl(RelPush(i.r, c), i.off && c != DOTDOT)
  }

  function ImplAt(parts: seq<Text>, k: nat): Impl
    requires k <= |parts|
  {
    if k == 0 then Impl(START, false) else ImplPush(ImplAt(parts, k - 1), Clip(parts[k - 1]))
  }

  predicate Possible(i: Impl) {
    && Components(i.r.names)
    && (!i.r.started ==> i.r.ups == 0 && i.r.names == [])
    && (i.off ==> i.r.started && i.r.ups == 1)
  }

  function Concrete(i: Impl): Norm {
    Norm(RelText(i.r), |RelText(i.r)| + if i.off then 1 else 0)
  }

  lemma JoinedSnoc(cs: seq<Text>, c: Text)
    ensures cs == [] ==> Joined(cs + [c]) == c
    ensures cs != [] ==> Joined(cs + [c]) == Joined(cs) + SLASH + c
  {
    SlashedSnoc(cs, c);
    if cs == [] {
      assert (Slashed(cs) + SLASH + c)[1..] == c;
    } else {
      SlashedNonEmpty(cs);
      assert (Slashed(cs) + SLASH + c)[1..] == Slashed(cs)[1..] + SLASH + c;
    }
  }

  lemma JoinedPlain(c: Text)
    ensures Joined([c]) == c
  {
    JoinedSnoc([], c);
    assert [] + [c] == [c];
  }

  /** The text starts with its first part, so it is neither empty nor absolute. */
  lemma {:induction false} JoinedStarts(cs: seq<Text>)
    requires cs != [] && cs[0] != [] && NoSlash(cs[0])
    ensures Joined(cs) != [] && Joined(cs)[0] == cs[0][0] && |Joined(cs)| >= |cs[0]|
    decreases |cs|
  {
    var init, c := cs[..|cs| - 1], cs[|cs| - 1];
    assert cs == init + [c];
    JoinedSnoc(init, c);
    if init != [] {
      JoinedStarts(init);
    }
  }

  lemma UpsFirst(r: Rel)
    requires Components(r.names) && (r.ups > 0 || r.names != [])
    ensures var all := Ups(r.ups) + r.names;
      && all != [] && all[0] != [] && NoSlash(all[0])
      && (r.ups > 0 ==> all[0] == DOTDOT) && (r.ups == 0 ==> all == r.names)
  {
    if r.ups > 0 {
      UpsAll(r.ups);
    }
  }

  lemma {:induction false} UpsAll(n: nat)
    ensures |Ups(n)| == n && forall i :: 0 <= i < n ==> Ups(n)[i] == DOTDOT
  {
    if n > 0 {
      UpsAll(n - 1);
    }
  }

  /** A name is added. */
  lemma AddName(i: Impl, c: Text)
    requires Possible(i) && Component(c)
    ensures NormPart(false, Concrete(i), c) == Concrete(ImplPush(i, c))
  {
    var r := i.r;
    if !r.started || (r.ups == 0 && r.names == []) {
      JoinedPlain(c);
      assert Ups(0) + (r.names + [c]) == [c];
      assert [] + c == c;
    } else {
      var all := Ups(r.ups) + r.names;
      UpsFirst(r);
      JoinedStarts(all);
      assert Ups(r.ups) + (r.names + [c]) == all + [c];
      JoinedSnoc(all, c);
      LastNotSlash(all);
      NotHere(r);
    }
  }

  lemma NotHere(r: Rel)
    requires Components(r.names) && r.started && !(r.ups == 0 && r.names == [])
    ensures RelText(r) != DOT
  {
    var all := Ups(r.ups) + r.names;
    UpsFirst(r);
    JoinedStarts(all);
    if |all| == 1 {
      JoinedPlain(all[0]);
      assert all == [all[0]];
    } else {
      TwoAreLong(all);
    }
  }

  lemma TwoAreLong(all: seq<Text>)
    requires |all| >= 2 && all[0] != [] && NoSlash(all[0])
    ensures |Joined(all)| >= 2
  {
    var init, c := all[..|all| - 1], all[|all| - 1];
    assert all == init + [c];
    JoinedSnoc(init, c);
    JoinedStarts(init);
  }

  lemma LastNotSlash(cs: seq<Text>)
    requires cs != [] && cs[|cs| - 1] != [] && NoSlash(cs[|cs| - 1]) && cs[0] != [] && NoSlash(cs[0])
    ensures Joined(cs) != [] && Joined(cs)[|Joined(cs)| - 1] != '/'
  {
    var init, c := cs[..|cs| - 1], cs[|cs| - 1];
    assert cs == init + [c];
    JoinedSnoc(init, c);
    assert c[|c| - 1] != '/';
  }

  /** The last of two or more parts is cut off, unless it is `..` and the length is right. */
  lemma UpFrom(init: seq<Text>, c: Text, off: nat)
    requires init != [] && init[0] != [] && NoSlash(init[0]) && NoSlash(c) && off <= 1
    ensures var p := Joined(init + [c]);
      NormUp(Norm(p, |p| + off)) ==
        if off == 0 && c == DOTDOT then Norm(p + SLASH + DOTDOT, |p| + 3) else Norm(Joined(init), |Joined(init)|)
  {
    var s := Joined(init);
    JoinedStarts(init);
    JoinedSnoc(init, c);
    LastSlashSnoc(s, c);
    var p := s + SLASH + c;
    assert p[|s|..] == SLASH + c && p[..|s|] == s;
    assert (SLASH + c)[1..] == c && (SLASH + DOTDOT)[1..] == DOTDOT;
  }

  lemma UpFromOne(c: Text)
    requires Component(c)
    ensures NormUp(Norm(c, |c|)) == Norm(DOT, 1)
  {
    assert LastSlash(c) == |c|;
  }

  lemma UpFromNames(i: Impl)
    requires Possible(i) && i.r.names != []
    ensures NormUp(Concrete(i)) == Concrete(ImplPush(i, DOTDOT))
  {
    var n := |i.r.names| - 1;
    var ups, c := Ups(i.r.ups), i.r.names[n];
    var init := ups + i.r.names[..n];
    UpsAll(i.r.ups);
    assert ups + i.r.names == init + [c];
    assert RelText(i.r) == Joined(init + [c]);
    var up := ImplPush(i, DOTDOT);
    assert up == Impl(Rel(true, i.r.ups, i.r.names[..n]), false);
    if init == [] {
      assert init + [c] == [c];
      JoinedPlain(c);
      UpFromOne(c);
    } else {
      assert RelText(up.r) == Joined(init);
      UpFrom(init, c, if i.off then 1 else 0);
    }
  }

  lemma UpFromDots()
    ensures NormUp(Norm(DOT, 1)) == Norm(DOTDOT, 3)
    ensures NormUp(Norm(DOTDOT, 2)) == Norm(DOTDOT + SLASH + DOTDOT, 5)
    ensures NormUp(Norm(DOTDOT, 3)) == Norm(DOT, 1)
  {
    assert LastSlash(DOT) == 1 && LastSlash(DOTDOT) == 2;
  }

  lemma UpFromUps(i: Impl)
    requires Possible(i) && i.r.started && i.r.names == []
    ensures NormUp(Concrete(i)) == Concrete(ImplPush(i, DOTDOT))
  {
    if i.r.ups == 0 {
      UpFromHere(i);
    } else if i.r.ups == 1 {
      UpFromParent(i);
    } else {
      UpsText(i.r.ups);
      UpsText(i.r.ups + 1);
      UpFromManyUps(i.r.ups);
    }
  }

  lemma UpFromHere(i: Impl)
    requires Possible(i) && i.r.started && i.r.names == [] && i.r.ups == 0
    ensures NormUp(Concrete(i)) == Concrete(ImplPush(i, DOTDOT))
  {
    UpsText(0);
    UpsText(1);
    JoinedPlain(DOTDOT);
    UpFromDots();
  }

  lemma UpFromParent(i: Impl)
    requires Possible(i) && i.r.started && i.r.names == [] && i.r.ups == 1
    ensures NormUp(Concrete(i)) == Concrete(ImplPush(i, DOTDOT))
  {
    UpsText(1);
    UpsText(2);
    JoinedPlain(DOTDOT);
    UpFromDots();
  }

  lemma UpFromManyUps(u: nat)
    requires u >= 2
    ensures var p := Joined(Ups(u)); var q := Joined(Ups(u + 1)); NormUp(Norm(p, |p|)) == Norm(q, |q|)
  {
    UpsAll(u - 1);
    UpFrom(Ups(u - 1), DOTDOT, 0);
    UpsText(u + 1);
  }

  lemma UpsText(u: nat)
    ensures RelText(Rel(true, u, [])) == if u == 0 then DOT else Joined(Ups(u))
    ensures u == 1 ==> Ups(u) == [DOTDOT]
    ensures u >= 2 ==> Joined(Ups(u)) == Joined(Ups(u - 1)) + SLASH + DOTDOT
  {
    assert Ups(u) + [] == Ups(u);
    if u >= 2 {
      UpsAll(u - 1);
      JoinedSnoc(Ups(u - 1), DOTDOT);
    }
  }

  /** One part of the loop is one step of the description. */
  lemma NormPartRelative(i: Impl, c: Text)
    requires Possible(i) && NoSlash(c)
    ensures Possible(ImplPush(i, c))
    ensures NormPart(false, Concrete(i), c) == Concrete(ImplPush(i, c))
  {
    if i.r.started {
      RelTextNonEmpty(i.r);
    }
    if c == DOTDOT {
      if !i.r.started {
        JoinedPlain(DOTDOT);
        assert Ups(1) + [] == [DOTDOT] by { UpsAll(1); }
      } else if i.r.names != [] {
        UpFromNames(i);
      } else {
        UpFromUps(i);
      }
    } else if c != [] && c != DOT {
      AddName(i, c);
    } else {
      assert [] + DOT == DOT;
    }
  }

  lemma RelTextNonEmpty(r: Rel)
    requires Components(r.names) && r.started
    ensures RelText(r) != []
  {
    if r.ups > 0 || r.names != [] {
      UpsFirst(r);
      JoinedStarts(Ups(r.ups) + r.names);
    }
  }

  lemma {:induction false} NormPartsSnoc(absolute: bool, st: Norm, parts: seq<Text>, c: Text)
    ensures NormParts(absolute, st, parts + [c]) == NormPart(absolute, NormParts(absolute, st, parts), Clip(c))
    decreases |parts|
  {
    if parts == [] {
      assert (parts + [c])[1..] == [];
    } else {
      assert (parts + [c])[1..] == parts[1..] + [c];
      NormPartsSnoc(absolute, NormPart(absolute, st, Clip(parts[0])), parts[1..], c);
    }
  }

  lemma {:induction false} NormPartsRelative(parts: seq<Text>, k: nat)
    requires k <= |parts| && forall i :: 0 <= i < |parts| ==> NoSlash(parts[i])
    ensures Possible(ImplAt(parts, k))
    ensures NormParts(false, Norm([], 0), parts[..k]) == Concrete(ImplAt(parts, k))
  {
    if k > 0 {
      var i, c := ImplAt(parts, k - 1), parts[k - 1];
      NormPartsRelative(parts, k - 1);
      NormPartsSnoc(false, Norm([], 0), parts[..k - 1], c);
      assert parts[..k] == parts[..k - 1] + [c];
      ClipNoSlash(c);
      NormPartRelative(i, Clip(c));
      assert ImplAt(parts, k) == ImplPush(i, Clip(c));
    }
  }

  // ----- for which paths the result is right

  /** At part `j` the code loses a level. */
  predicate Loses(parts: seq<Text>, j: nat)
    requires j <= |parts|
  {
    j < |parts| && parts[j] == DOTDOT && ImplAt(parts, j).off && ImplAt(parts, j).r.names == []
  }

  predicate LosesNothing(parts: seq<Text>, k: nat)
    requires k <= |parts|
  {
    forall j :: 0 <= j < k ==> !Loses(parts, j)
  }

  lemma {:induction false} PossibleAt(parts: seq<Text>, k: nat)
    requires k <= |parts| && forall i :: 0 <= i < |parts| ==> NoSlash(parts[i])
    ensures Possible(ImplAt(parts, k))
  {
    NormPartsRelative(parts, k);
  }

  /** The code is where it should be, or short of some levels. */
  predicate Behind(r: Rel, s: Rel) {
    r.started == s.started && r.names == s.names && (!s.started ==> s.ups == 0) && r.ups <= s.ups
  }

  lemma BehindStep(i: Impl, s: Rel, c: Text)
    requires Possible(i) && Behind(i.r, s)
    ensures var t := RelPush(s, c); var k := ImplPush(i, c);
      && Behind(k.r, t)
      && (k.r.ups == t.ups <==> i.r.ups == s.ups && !(c == DOTDOT && i.off && i.r.names == []))
  {
  }

  /** Code and description agree but for the levels lost. */
  lemma {:induction false} Tracks(parts: seq<Text>, k: nat)
    requires k <= |parts| && forall i :: 0 <= i < |parts| ==> NoSlash(parts[i])
    ensures var r, s := ImplAt(parts, k).r, RelAt(parts, k);
      Behind(r, s) && (r.ups == s.ups <==> LosesNothing(parts, k))
  {
    if k > 0 {
      Tracks(parts, k - 1);
      PossibleAt(parts, k - 1);
      BehindStep(ImplAt(parts, k - 1), RelAt(parts, k - 1), Clip(parts[k - 1]));
      assert LosesNothing(parts, k) <==> LosesNothing(parts, k - 1) && !Loses(parts, k - 1);
    }
  }

  /** A part that changes nothing once the path has begun. */
  predicate Idle(c: Text) {
    c == [] || c == DOT
  }

  /** Two `..` parts, with nothing but idle parts between them, behind a prefix that comes to `.`. */
  predicate StumblesAt(parts: seq<Text>, i: nat, j: nat)
    requires i < j < |parts|
  {
    && parts[i] == DOTDOT && parts[j] == DOTDOT && RelAt(parts, i) == HERE
    && forall k :: i < k < j ==> Idle(parts[k])
  }

  predicate Stumbles(parts: seq<Text>) {
    exists i, j :: 0 <= i < j < |parts| && StumblesAt(parts, i, j)
  }

  lemma OffStep(i: Impl, c: Text)
    requires Possible(i) && ImplPush(i, c).off && ImplPush(i, c).r.names == []
    ensures if c == DOTDOT then i.r == HERE else Idle(c) && i.off && i.r.names == []
  {
  }

  /** A length that is off, with no name in the buffer, was left so by a `..` behind a `.`. */
  lemma {:induction false} OffOrigin(parts: seq<Text>, j: nat) returns (i: nat)
    requires j <= |parts| && ImplAt(parts, j).off && ImplAt(parts, j).r.names == []
    requires forall i :: 0 <= i < |parts| ==> NoSlash(parts[i])
    ensures i < j && parts[i] == DOTDOT && ImplAt(parts, i).r == HERE
    ensures forall k :: i < k < j ==> Idle(parts[k])
  {
    PossibleAt(parts, j - 1);
    OffStep(ImplAt(parts, j - 1), Clip(parts[j - 1]));
    if parts[j - 1] == DOTDOT {
      i := j - 1;
    } else {
      i := OffOrigin(parts, j - 1);
    }
  }

  lemma {:induction false} StaysOff(parts: seq<Text>, i: nat, k: nat)
    requires i < k <= |parts| && parts[i] == DOTDOT && ImplAt(parts, i) == Impl(HERE, false)
    requires forall m :: i < m < k ==> Idle(parts[m])
    ensures ImplAt(parts, k) == Impl(Rel(true, 1, []), true)
  {
    if i + 1 < k {
      StaysOff(parts, i, k - 1);
    }
  }

  lemma {:induction false} FirstLoss(parts: seq<Text>, k: nat) returns (j: nat)
    requires k <= |parts| && !LosesNothing(parts, k)
    ensures j < k && Loses(parts, j) && LosesNothing(parts, j)
  {
    if !LosesNothing(parts, k - 1) {
      j := FirstLoss(parts, k - 1);
    } else {
      j := k - 1;
    }
  }

  lemma LossIsStumble(parts: seq<Text>)
    requires forall i :: 0 <= i < |parts| ==> NoSlash(parts[i])
    ensures !LosesNothing(parts, |parts|) ==> Stumbles(parts)
  {
    if !LosesNothing(parts, |parts|) {
      var j := FirstLoss(parts, |parts|);
      var i := OffOrigin(parts, j);
      Tracks(parts, i);
      assert StumblesAt(parts, i, j);
    }
  }

  lemma StumbleIsLoss(parts: seq<Text>, i: nat, j: nat)
    requires forall i :: 0 <= i < |parts| ==> NoSlash(parts[i])
    requires i < j < |parts| && StumblesAt(parts, i, j)
    ensures !LosesNothing(parts, |parts|)
  {
    if LosesNothing(parts, |parts|) {
      assert !Loses(parts, j);
      Tracks(parts, i);
      PossibleAt(parts, i);
      StaysOff(parts, i, j);
      assert false;
    }
  }

  lemma {:induction false} TextLength(r: Rel)
    requires r.started
    ensures |RelText(r)| == if r.ups == 0 && r.names == [] then 1 else 3 * r.ups + |Slashed(r.names)| - 1
  {
    if r.ups > 0 || r.names != [] {
      UpsAll(r.ups);
      SlashedConcat(Ups(r.ups), r.names);
      UpsLength(r.ups);
      SlashedNonEmpty(Ups(r.ups) + r.names);
    }
  }

  lemma {:induction false} UpsLength(n: nat)
    ensures |Slashed(Ups(n))| == 3 * n
  {
    if n > 0 {
      UpsLength(n - 1);
      SlashedSnoc(Ups(n - 1), DOTDOT);
    }
  }

  /**
   On relative paths `normalize` gives the normal form exactly when no prefix that comes to `.`
   is followed by two `..` with only empty or `.` parts between them.
   */
  lemma NormalizeRelative(path: Text)
    requires !IsAbsolute(path)
    ensures Normalize(path) == RelNormal(path) <==> !Stumbles(Split(path))
  {
    var parts := Split(path);
    var n := |parts|;
    NormPartsRelative(parts, n);
    assert parts[..n] == parts;
    Tracks(parts, n);
    LossIsStumble(parts);
    if i, j :| 0 <= i < j < |parts| && StumblesAt(parts, i, j) {
      StumbleIsLoss(parts, i, j);
    }
    if !LosesNothing(parts, n) {
      TextLength(ImplAt(parts, n).r);
      TextLength(RelAt(parts, n));
    }
  }

  lemma LostParentSplit(path: Text)
    requires path == DOT + SLASH + (DOTDOT + SLASH + DOTDOT)
    ensures Split(path) == [DOT, DOTDOT, DOTDOT] && path[0] == '.'
  {
    VfsAlgebra.SplitConcat(DOT, DOTDOT + SLASH + DOTDOT);
    VfsAlgebra.SplitConcat(DOTDOT, DOTDOT);
    VfsAlgebra.SplitPlain(DOT);
    VfsAlgebra.SplitPlain(DOTDOT);
  }

  lemma OnePart(parts: seq<Text>, k: nat, c: Text)
    requires k < |parts| && parts[k] == c && |c| <= NAME_MAX
    ensures ImplAt(parts, k + 1) == ImplPush(ImplAt(parts, k), c)
    ensures RelAt(parts, k + 1) == RelPush(RelAt(parts, k), c)
  {
  }

  lemma LostParentSteps(parts: seq<Text>)
    requires |parts| == 3 && parts[0] == DOT && parts[1] == DOTDOT && parts[2] == DOTDOT
    ensures ImplAt(parts, 3) == Impl(HERE, false) && RelAt(parts, 3) == Rel(true, 2, [])
  {
    OnePart(parts, 0, DOT);
    assert ImplAt(parts, 0) == Impl(START, false) && RelAt(parts, 0) == START;
    assert ImplAt(parts, 1) == Impl(HERE, false);
    assert RelAt(parts, 1) == HERE;
    OnePart(parts, 1, DOTDOT);
    assert ImplAt(parts, 2) == Impl(Rel(true, 1, []), true);
    assert RelAt(parts, 2) == Rel(true, 1, []);
    OnePart(parts, 2, DOTDOT);
  }

  /** The path `./../..` comes out as `.`; it should be `../..`. */
  lemma LostParent()
    ensures var path := DOT + SLASH + (DOTDOT + SLASH + DOTDOT);
      Normalize(path) == DOT && RelNormal(path) == DOTDOT + SLASH + DOTDOT
  {
    var path := DOT + SLASH + (DOTDOT + SLASH + DOTDOT);
    var parts := Split(path);
    LostParentSplit(path);
    LostParentSteps(parts);
    NormPartsRelative(parts, 3);
    assert parts[..3] == parts;
    UpsText(2);
    UpsText(1);
    JoinedPlain(DOTDOT);
  }
}
