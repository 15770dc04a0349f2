/**
 The name `basename` copies.  Its buffer has room for a name of legal length; a path that is
 normalized already is used as it is, and may end in a longer one.
 */
module VfsNames {
  import opened CStrings
  import opened VfsPath
  import A = VfsAlgebra
  import R = VfsRelative

  function LastPart(path: Text): Text {
    Split(path)[|Split(path)| - 1]
  }

  /** The text behind the last slash is the last part. */
  lemma LastPartIs(p: Text)
    ensures LastSlash(p) == |p| ==> LastPart(p) == p
    ensures LastSlash(p) < |p| ==> LastPart(p) == p[LastSlash(p) + 1..]
  {
    var s := LastSlash(p);
    if s == |p| {
      A.SplitPlain(p);
    } else {
      var c := p[s + 1..];
      assert p == p[..s] + SLASH + c;
      assert NoSlash(c);
      A.SplitConcat(p[..s], c);
      A.SplitPlain(c);
    }
  }

  /** Of a text without trailing slash the base name is the last part. */
  lemma BasenameOf(path: Text)
    ensures var p := A.Normalized(path);
      path != [] && p != [] ==> A.Basename(path) == if LastPart(p) == [] then DOT else LastPart(p)
  {
    var p := A.Normalized(path);
    LastPartIs(p);
    if LastSlash(p) == |p| && p != [] {
      assert LastPart(p) == p;
    }
  }

  /** What normalize makes ends in a name of legal length. */
  lemma NormalizeEndsShort(path: Text)
    ensures |LastPart(Normalize(path))| <= NAME_MAX
  {
    if IsAbsolute(path) {
      NormalizeAbsolute(path);
      RenderEndsShort(Stack(path));
    } else {
      var parts := Split(path);
      R.NormPartsRelative(parts, |parts|);
      assert parts[..|parts|] == parts;
      ShortNames(parts, |parts|);
      RelEndsShort(R.ImplAt(parts, |parts|).r);
    }
  }

  lemma RenderEndsShort(cs: seq<Text>)
    requires Components(cs) && Short(cs)
    ensures |LastPart(Render(cs))| <= NAME_MAX
  {
    if cs == [] {
      LastPartIs(SLASH);
      assert LastSlash(SLASH) == 0 && SLASH[1..] == [];
    } else {
      A.SplitSlashed(cs);
      assert ([[]] + cs)[|cs|] == cs[|cs| - 1];
    }
  }

  lemma {:induction false} ShortNames(parts: seq<Text>, k: nat)
    requires k <= |parts|
    ensures Short(R.ImplAt(parts, k).r.names)
  {
    if k > 0 {
      ShortNames(parts, k - 1);
    }
  }

  lemma RelEndsShort(r: R.Rel)
    requires Components(r.names) && Short(r.names)
    ensures |LastPart(R.RelText(r))| <= NAME_MAX
  {
    var all := R.Ups(r.ups) + r.names;
    R.UpsAll(r.ups);
    if !r.started || all == [] {
      LastPartIs(R.RelText(r));
    } else {
      var init, c := all[..|all| - 1], all[|all| - 1];
      assert all == init + [c];
      R.JoinedSnoc(init, c);
      A.SplitPlain(c);
      if init != [] {
        A.SplitConcat(R.Joined(init), c);
      }
    }
  }

  /**
   The name fits the buffer of basename unless the path is normalized already and its last part
   is longer than a name may be.
   */
  lemma BasenameFits(path: Text)
    ensures |A.Basename(path)| <= NAME_MAX <==> !(A.IsNormalized(path) && |LastPart(path)| > NAME_MAX)
  {
    BasenameOf(path);
    NormalizeEndsShort(path);
    if path == [] {
      A.SplitPlain(path);
    }
  }

  /** One character too many. */
  lemma LongName(path: Text)
    requires |path| == NAME_MAX + 1 && forall i :: 0 <= i < |path| ==> path[i] == 'a'
    ensures A.IsNormalized(path) && A.Basename(path) == path && |A.Basename(path)| > NAME_MAX
  {
    A.SplitPlain(path);
    LastPartIs(path);
    assert path[0] == 'a';
    assert Component(path);
  }

  // ----- the normal form of a relative path leads where the path leads

  function Up(cs: seq<Text>, n: nat): seq<Text> {
    if n == 0 then cs else Push(Up(cs, n - 1), DOTDOT)
  }

  /** Where a relative path leads from the directory `cs`. */
  function Follow(cs: seq<Text>, r: R.Rel): seq<Text> {
    Up(cs, r.ups) + r.names
  }

  lemma FollowPush(cs: seq<Text>, r: R.Rel, c: Text)
    ensures Follow(cs, R.RelPush(r, c)) == Push(Follow(cs, r), c)
  {
    var to := Follow(cs, r);
    if c == DOTDOT {
      if r.names == [] {
        assert to == Up(cs, r.ups);
      } else {
        assert to[..|to| - 1] == Up(cs, r.ups) + r.names[..|r.names| - 1];
      }
    } else if c != [] && c != DOT {
      assert Up(cs, r.ups) + (r.names + [c]) == to + [c];
    }
  }

  lemma {:induction false} WalkIsFollow(cs: seq<Text>, parts: seq<Text>, k: nat)
    requires k <= |parts|
    ensures Walk(cs, parts[..k]) == Follow(cs, R.RelAt(parts, k))
  {
    if k == 0 {
      assert Up(cs, 0) + [] == cs;
    } else {
      var c := parts[k - 1];
      WalkIsFollow(cs, parts, k - 1);
      FollowPush(cs, R.RelAt(parts, k - 1), Clip(c));
      assert parts[..k] == parts[..k - 1] + [c];
      A.WalkConcat(cs, parts[..k - 1], [c]);
      WalkOne(Walk(cs, parts[..k - 1]), c);
    }
  }

  lemma WalkOne(cs: seq<Text>, c: Text)
    ensures Walk(cs, [c]) == Push(cs, Clip(c))
  {
    assert [c][1..] == [];
  }

  lemma {:induction false} RelGood(parts: seq<Text>, k: nat)
    requires k <= |parts| && forall i :: 0 <= i < |parts| ==> NoSlash(parts[i])
    ensures var r := R.RelAt(parts, k);
      Components(r.names) && Short(r.names) && (!r.started ==> r.ups == 0 && r.names == [])
  {
    if k > 0 {
      RelGood(parts, k - 1);
      ClipNoSlash(parts[k - 1]);
    }
  }

  lemma {:induction false} SplitJoined(cs: seq<Text>)
    requires cs != [] && cs[0] != [] && forall i :: 0 <= i < |cs| ==> NoSlash(cs[i])
    ensures Split(R.Joined(cs)) == cs
    decreases |cs|
  {
    var init, c := cs[..|cs| - 1], cs[|cs| - 1];
    assert cs == init + [c];
    R.JoinedSnoc(init, c);
    A.SplitPlain(c);
    if init != [] {
      SplitJoined(init);
      A.SplitConcat(R.Joined(init), c);
    }
  }

  lemma {:induction false} WalkUps(cs: seq<Text>, n: nat)
    ensures Walk(cs, R.Ups(n)) == Up(cs, n)
  {
    if n > 0 {
      WalkUps(cs, n - 1);
      A.WalkConcat(cs, R.Ups(n - 1), [DOTDOT]);
      WalkOne(Up(cs, n - 1), DOTDOT);
    }
  }

  lemma TextLeads(cs: seq<Text>, r: R.Rel)
    requires Components(r.names) && Short(r.names) && (!r.started ==> r.ups == 0 && r.names == [])
    ensures Walk(cs, Split(R.RelText(r))) == Follow(cs, r)
  {
    var all := R.Ups(r.ups) + r.names;
    R.UpsAll(r.ups);
    if all == [] {
      A.SplitPlain(R.RelText(r));
      WalkOne(cs, R.RelText(r));
      assert Follow(cs, r) == cs;
    } else {
      R.UpsFirst(r);
      SplitJoined(all);
      A.WalkConcat(cs, R.Ups(r.ups), r.names);
      WalkUps(cs, r.ups);
      A.WalkComponents(Up(cs, r.ups), r.names);
    }
  }

  /** From every directory, the normal form of a relative path leads where the path leads. */
  lemma RelNormalLeads(cs: seq<Text>, path: Text)
    ensures Walk(cs, Split(R.RelNormal(path))) == Walk(cs, Split(path))
  {
    var parts := Split(path);
    RelGood(parts, |parts|);
    TextLeads(cs, R.RelAt(parts, |parts|));
    WalkIsFollow(cs, parts, |parts|);
    assert parts[..|parts|] == parts;
  }
}
