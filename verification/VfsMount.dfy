/**
 The mount table: a stack of drivers, each holding the driver it was mounted over.
 */
module VfsMount {
  import opened CStrings
  import P = VfsPath
  import A = VfsAlgebra
  import opened VfsCwd

  const MOUNT_TABLE_SIZE := 256

  /** A mounted driver; an underlying driver of null is the system driver. */
  class Driver {
    const root: Text
    const underlying: Driver?

    constructor (root: Text, underlying: Driver?)
      ensures this.root == root && this.underlying == underlying
    {
      this.root := root;
      this.underlying := underlying;
    }
  }

  // ----- the stack as a sequence, bottom first

  predicate RootsNormal(ds: seq<Driver>) {
    forall i :: 0 <= i < |ds| ==> RootNormal(ds, i)
  }

  predicate RootNormal(ds: seq<Driver>, i: nat)
    requires i < |ds|
  {
    NormalForm(ds[i].root)
  }

  /** The topmost driver whose root covers the path, or the system driver. */
  function Topmost(ds: seq<Driver>, path: Text): (d: Driver?) {
    if ds == [] then null
    else if A.Covers(ds[|ds| - 1].root, path) then ds[|ds| - 1]
    else Topmost(ds[..|ds| - 1], path)
  }

  lemma {:induction false} NoneCovers(ds: seq<Driver>, path: Text, i: nat)
    requires Topmost(ds, path) == null && i < |ds|
    ensures !A.Covers(ds[i].root, path)
    decreases |ds|
  {
    if i < |ds| - 1 {
      NoneCovers(ds[..|ds| - 1], path, i);
    }
  }

  lemma {:induction false} FindTopmost(ds: seq<Driver>, path: Text) returns (i: nat)
    requires Topmost(ds, path) != null
    ensures i < |ds| && ds[i] == Topmost(ds, path) && A.Covers(ds[i].root, path)
    ensures forall j :: i < j < |ds| ==> !A.Covers(ds[j].root, path)
    decreases |ds|
  {
    var n := |ds| - 1;
    if A.Covers(ds[n].root, path) {
      return n;
    }
    i := FindTopmost(ds[..n], path);
    forall j | i < j < |ds|
      ensures !A.Covers(ds[j].root, path)
    {
      assert j < n ==> ds[j] == ds[..n][j];
    }
  }

  /** It covers the path and nothing above it does; the system driver serves only uncovered paths. */
  lemma TopmostMeans(ds: seq<Driver>, path: Text)
    ensures Topmost(ds, path) == null ==> forall i :: 0 <= i < |ds| ==> !A.Covers(ds[i].root, path)
    ensures Topmost(ds, path) != null ==>
      exists i :: 0 <= i < |ds| && ds[i] == Topmost(ds, path) && A.Covers(ds[i].root, path)
                  && forall j :: i < j < |ds| ==> !A.Covers(ds[j].root, path)
  {
    if Topmost(ds, path) == null {
      forall i | 0 <= i < |ds|
        ensures !A.Covers(ds[i].root, path)
      {
        NoneCovers(ds, path, i);
      }
    } else {
      var i := FindTopmost(ds, path);
    }
  }

  /** Every driver sits on the topmost earlier driver that covers its root. */
  predicate Linked(ds: seq<Driver>) {
    forall i :: 0 <= i < |ds| ==> LinkedAt(ds, i)
  }

  predicate LinkedAt(ds: seq<Driver>, i: nat)
    requires i < |ds|
  {
    ds[i].underlying == Topmost(ds[..i], ds[i].root)
  }

  /** A stack of drivers as mount and umount keep it. */
  predicate Sound(ds: seq<Driver>) {
    RootsNormal(ds) && Linked(ds) && Distinct(ds)
  }

  predicate Distinct(ds: seq<Driver>) {
    forall i, j :: 0 <= i < j < |ds| ==> ds[i] != ds[j]
  }

  /** No driver sits on one that is not mounted. */
  predicate NoneDangling(ds: seq<Driver>) {
    forall i :: 0 <= i < |ds| ==> ds[i].underlying == null || ds[i].underlying in ds
  }

  /** The root `r` lies strictly below `path`: the test for a busy target. */
  predicate Busy(r: Text, path: Text) {
    |r| > |path| && A.Covers(path, r)
  }

  datatype Search = Found(at: nat) | InUse | Unknown

  /** The scan of umount over the first `n` entries, from the top. */
  function Scan(ds: seq<Driver>, n: nat, path: Text): (s: Search)
    requires n <= |ds|
    ensures s.Found? ==>
      && s.at < n && ds[s.at].root == path
      && forall j :: s.at < j < n ==> ds[j].root != path && !Busy(ds[j].root, path)
    ensures s.Unknown? ==> forall j :: 0 <= j < n ==> ds[j].root != path && !Busy(ds[j].root, path)
  {
    if n == 0 then Unknown
    else if Busy(ds[n - 1].root, path) then InUse
    else if ds[n - 1].root == path then Found(n - 1)
    else Scan(ds, n - 1, path)
  }

  function Without(ds: seq<Driver>, k: nat): seq<Driver>
    requires k < |ds|
  {
    ds[..k] + ds[k + 1..]
  }

  /** On normal forms, a root below `path` is `path` itself or strictly below, hence busy. */
  lemma CoveredIsBusy(path: Text, r: Text)
    requires NormalForm(path) && NormalForm(r) && A.Covers(path, r)
    ensures r == path || Busy(r, path)
  {
    if path == P.SLASH {
      NormalFormStack(r);
      A.RenderAbsolute(P.Stack(r));
    }
  }

  lemma TopmostSnoc(ds: seq<Driver>, d: Driver, path: Text)
    ensures Topmost(ds + [d], path) == if A.Covers(d.root, path) then d else Topmost(ds, path)
  {
    assert (ds + [d])[..|ds|] == ds;
  }

  /** A driver that does not cover a path has no part in finding the one that does. */
  lemma {:induction false} TopmostWithout(below: seq<Driver>, gone: Driver, above: seq<Driver>, path: Text)
    requires !A.Covers(gone.root, path)
    ensures Topmost(below + above, path) == Topmost(below + [gone] + above, path)
    decreases |above|
  {
    if above == [] {
      assert below + above == below && below + [gone] + above == below + [gone];
      TopmostSnoc(below, gone, path);
    } else {
      var n := |above| - 1;
      TopmostWithout(below, gone, above[..n], path);
      assert below + above == below + above[..n] + [above[n]];
      assert below + [gone] + above == below + [gone] + above[..n] + [above[n]];
      TopmostSnoc(below + above[..n], above[n], path);
      TopmostSnoc(below + [gone] + above[..n], above[n], path);
    }
  }

  /** A driver above the one taken out does not sit on it, and stays where it should. */
  lemma LinkSurvives(ds: seq<Driver>, k: nat, i: nat)
    requires k < i < |ds| && !A.Covers(ds[k].root, ds[i].root)
    ensures Topmost(ds[..k] + ds[k + 1..i], ds[i].root) == Topmost(ds[..i], ds[i].root)
  {
    TopmostWithout(ds[..k], ds[k], ds[k + 1..i], ds[i].root);
    assert ds[..k] + [ds[k]] + ds[k + 1..i] == ds[..i];
  }

  lemma LinksSurvive(ds: seq<Driver>, k: nat)
    requires k < |ds| && Linked(ds)
    requires forall i :: k < i < |ds| ==> !A.Covers(ds[k].root, ds[i].root)
    ensures Linked(Without(ds, k))
  {
    var w := Without(ds, k);
    forall i | 0 <= i < |w|
      ensures LinkedAt(w, i)
    {
      if i < k {
        assert LinkedAt(ds, i) && w[i] == ds[i] && w[..i] == ds[..i];
      } else {
        assert LinkedAt(ds, i + 1);
        assert w[i] == ds[i + 1] && w[..i] == ds[..k] + ds[k + 1..i + 1];
        LinkSurvives(ds, k, i + 1);
      }
    }
  }

  /** Taking out a driver that umount accepts leaves every other driver on its right one. */
  lemma UnmountKeepsLinks(ds: seq<Driver>, path: Text)
    requires RootsNormal(ds) && Linked(ds) && NormalForm(path) && Scan(ds, |ds|, path).Found?
    ensures Linked(Without(ds, Scan(ds, |ds|, path).at))
  {
    var k := Scan(ds, |ds|, path).at;
    forall i | k < i < |ds|
      ensures !A.Covers(ds[k].root, ds[i].root)
    {
      AboveNotCovered(ds, path, i);
    }
    LinksSurvive(ds, k);
  }

  lemma AboveNotCovered(ds: seq<Driver>, path: Text, i: nat)
    requires RootsNormal(ds) && NormalForm(path) && Scan(ds, |ds|, path).Found?
    requires Scan(ds, |ds|, path).at < i < |ds|
    ensures !A.Covers(path, ds[i].root)
  {
    if A.Covers(path, ds[i].root) {
      assert RootNormal(ds, i);
      CoveredIsBusy(path, ds[i].root);
    }
  }

  /** In a linked stack no driver sits on one that is gone. */
  lemma LinkedNotDangling(ds: seq<Driver>)
    requires Linked(ds)
    ensures NoneDangling(ds)
  {
    forall i | 0 <= i < |ds|
      ensures ds[i].underlying == null || ds[i].underlying in ds
    {
      assert LinkedAt(ds, i);
      TopmostMeans(ds[..i], ds[i].root);
    }
  }

  /** Mounting and unmounting the same target gives the old stack back. */
  lemma MountUnmount(ds: seq<Driver>, d: Driver)
    ensures Scan(ds + [d], |ds| + 1, d.root) == Found(|ds|)
    ensures Without(ds + [d], |ds|) == ds
  {
  }

  // ----- find_driver

  /** The test of find_driver: a prefix of characters, not of components. */
  predicate CharPrefix(root: Text, path: Text) {
    |path| >= |root| && path[..|root|] == root
  }

  /** The topmost driver whose root is a prefix of characters of the path. */
  function TopmostPrefix(ds: seq<Driver>, path: Text): (d: Driver?)
    ensures d == null <==> forall i :: 0 <= i < |ds| ==> !CharPrefix(ds[i].root, path)
  {
    if ds == [] then null
    else if CharPrefix(ds[|ds| - 1].root, path) then ds[|ds| - 1]
    else TopmostPrefix(ds[..|ds| - 1], path)
  }

  /** A root that ends inside a component of the path. */
  predicate Partial(root: Text, path: Text) {
    CharPrefix(root, path) && !A.Covers(root, path)
  }

  lemma CoversIsPrefix(root: Text, path: Text)
    requires P.IsAbsolute(path) && A.Covers(root, path)
    ensures CharPrefix(root, path)
  {
  }

  /** Every partial match lies below a covering one. */
  predicate PartialsHidden(ds: seq<Driver>, path: Text) {
    forall j :: 0 <= j < |ds| && Partial(ds[j].root, path) ==> exists k :: j < k < |ds| && A.Covers(ds[k].root, path)
  }

  /**
   find_driver answers with the driver that really covers the path, the one mount would choose as
   underlying, exactly when no partial match lies above the topmost covering driver.
   */
  lemma {:induction false} FindDriverIff(ds: seq<Driver>, path: Text)
    requires P.IsAbsolute(path) && Distinct(ds)
    ensures TopmostPrefix(ds, path) == Topmost(ds, path) <==> PartialsHidden(ds, path)
    ensures TopmostPrefix(ds, path) == null ==> Topmost(ds, path) == null
    decreases |ds|
  {
    if ds != [] {
      var n := |ds| - 1;
      var d, rest := ds[n], ds[..n];
      if A.Covers(d.root, path) {
        CoversIsPrefix(d.root, path);
      } else if CharPrefix(d.root, path) {
        assert Partial(ds[n].root, path);
        assert Topmost(ds, path) == Topmost(rest, path);
        TopmostMeans(rest, path);
        assert d !in rest;
      } else {
        FindDriverIff(rest, path);
        assert PartialsHidden(ds, path) <==> PartialsHidden(rest, path) by { HiddenBelow(ds, path); }
      }
    }
  }

  /** A driver at /a is found for /ab, which it does not cover. */
  lemma WrongDriver(d: Driver)
    requires d.root == "/a"
    ensures TopmostPrefix([d], "/ab") == d && Topmost([d], "/ab") == null
  {
    assert "/ab"[..2] == "/a";
    assert [d][..0] == [];
  }

  lemma HiddenBelow(ds: seq<Driver>, path: Text)
    requires ds != [] && !CharPrefix(ds[|ds| - 1].root, path) && !A.Covers(ds[|ds| - 1].root, path)
    ensures PartialsHidden(ds, path) <==> PartialsHidden(ds[..|ds| - 1], path)
  {
    var n := |ds| - 1;
    var rest := ds[..n];
    if PartialsHidden(ds, path) {
      forall j | 0 <= j < n && Partial(rest[j].root, path)
        ensures exists k :: j < k < n && A.Covers(rest[k].root, path)
      {
        assert Partial(ds[j].root, path);
        var k :| j < k < |ds| && A.Covers(ds[k].root, path);
        assert A.Covers(rest[k].root, path);
      }
    }
    if PartialsHidden(rest, path) {
      forall j | 0 <= j < |ds| && Partial(ds[j].root, path)
        ensures exists k :: j < k < |ds| && A.Covers(ds[k].root, path)
      {
        assert Partial(rest[j].root, path);
        var k :| j < k < n && A.Covers(rest[k].root, path);
        assert A.Covers(ds[k].root, path);
      }
    }
  }

  // ----- the table

  datatype Unmounted = Done(driver: Driver) | EBusy | ToSystem

  class MountTable {
    const table: array<Driver?>
    var pos: nat

    constructor ()
      ensures Valid() && Stack() == [] && fresh(table)
    {
      table := new Driver?[MOUNT_TABLE_SIZE](_ => null);
      pos := 0;
    }

    /** The entries in use are drivers. */
    predicate Filled()
      reads this, table
    {
      table.Length == MOUNT_TABLE_SIZE && pos <= MOUNT_TABLE_SIZE && forall i :: 0 <= i < pos ==> table[i] != null
    }

    function Stack(): (ds: seq<Driver>)
      requires Filled()
      reads this, table
      ensures |ds| == pos && forall i :: 0 <= i < pos ==> ds[i] == table[i]
    {
      Entries(pos)
    }

    function Entries(n: nat): (ds: seq<Driver>)
      requires Filled() && n <= pos
      reads this, table
      ensures |ds| == n && forall i :: 0 <= i < n ==> ds[i] == table[i]
    {
      if n == 0 then [] else Entries(n - 1) + [table[n - 1]]
    }

    predicate Valid()
      reads this, table
    {
      Filled() && Sound(Stack())
    }

    /**
     mount, for the absolute form of the target.  `loads` says whether load_driver knows the
     source; if it does not, the call goes to the system.
     */
    method Mount(abspath: Text, loads: bool) returns (driver: Driver?)
      requires Valid() && NormalForm(abspath)
      modifies this, table
      ensures Valid()
      ensures driver != null <==> old(pos) < MOUNT_TABLE_SIZE && loads
      ensures driver == null ==> Stack() == old(Stack())
      ensures driver != null ==>
        && fresh(driver) && Stack() == old(Stack()) + [driver]
        && driver.root == abspath && driver.underlying == Topmost(old(Stack()), abspath)
    {
      driver := null;
      if pos >= MOUNT_TABLE_SIZE {
        return;
      }
      var underlying := FindUnderlying(abspath);
      if !loads {
        return;
      }
      ghost var ds := Stack();
      driver := NewDriver(abspath, underlying);
      assert Stack() == ds;
      PushValid(ds, driver);
      Append(driver);
    }

    /** load_driver. */
    method NewDriver(root: Text, underlying: Driver?) returns (d: Driver)
      requires Filled()
      ensures fresh(d) && d.root == root && d.underlying == underlying && d !in Stack()
    {
      d := new Driver(root, underlying);
    }

    method Append(driver: Driver)
      requires Filled() && pos < MOUNT_TABLE_SIZE
      modifies this, table
      ensures Filled() && Stack() == old(Stack()) + [driver]
    {
      table[pos] := driver;
      pos := pos + 1;
      assert Stack() == old(Stack()) + [driver];
    }

    /** The search for the underlying driver. */
    method FindUnderlying(abspath: Text) returns (underlying: Driver?)
      requires Filled()
      ensures underlying == Topmost(Stack(), abspath)
    {
      underlying := null;
      var i := pos;
      assert Stack()[..i] == Stack();
      while i > 0
        invariant i <= pos
        invariant Topmost(Stack(), abspath) == Topmost(Stack()[..i], abspath)
      {
        var prev := table[i - 1];
        assert Stack()[..i][..i - 1] == Stack()[..i - 1] && Stack()[..i][i - 1] == prev;
        if A.Covers(prev.root, abspath) {
          return prev;
        }
        i := i - 1;
      }
    }

    /** umount, for the absolute form of the target. */
    method Umount(abspath: Text) returns (r: Unmounted)
      requires Valid() && NormalForm(abspath)
      modifies this, table
      ensures Valid()
      ensures match Scan(old(Stack()), |old(Stack())|, abspath)
        case Found(k) => r == Done(old(Stack())[k]) && Stack() == Without(old(Stack()), k)
        case InUse => r == EBusy && Stack() == old(Stack())
        case Unknown => r == ToSystem && Stack() == old(Stack())
    {
      ghost var ds := Stack();
      var i: nat := pos;
      while i > 0
        invariant i <= pos && Stack() == ds && Valid()
        invariant Scan(ds, |ds|, abspath) == Scan(ds, i, abspath)
      {
        var d := table[i - 1];
        assert ds[i - 1] == d;
        if |d.root| > |abspath| && A.Covers(abspath, d.root) {
          return EBusy;
        }
        if d.root == abspath {
          Remove(i - 1, abspath);
          return Done(d);
        }
        i := i - 1;
      }
      r := ToSystem;
    }

    /** Takes out the entry that umount found. */
    method Remove(k: nat, ghost abspath: Text)
      requires Valid() && NormalForm(abspath) && Scan(Stack(), |Stack()|, abspath) == Found(k)
      modifies this, table
      ensures Valid() && Stack() == Without(old(Stack()), k)
    {
      UnmountKeepsLinks(Stack(), abspath);
      WithoutValid(Stack(), k);
      Shift(k);
    }

    /** Moves the records above entry `k` down by one. */
    method Shift(k: nat)
      requires Filled() && k < pos
      modifies this, table
      ensures Filled() && Stack() == Without(old(Stack()), k)
    {
      ghost var ds := Stack();
      var j := k;
      while j < pos - 1
        invariant k <= j <= pos - 1 && pos == old(pos) && Filled()
        invariant forall i :: k <= i < j ==> table[i] == ds[i + 1]
        invariant forall i :: 0 <= i < k || j <= i < pos ==> table[i] == ds[i]
      {
        table[j] := table[j + 1];
        j := j + 1;
      }
      pos := pos - 1;
      assert Stack() == Without(ds, k);
    }

    /** find_driver, for the absolute form of a path that is not empty; null is the system driver. */
    method FindDriver(abspath: Text) returns (d: Driver?)
      requires Filled()
      ensures d == TopmostPrefix(Stack(), abspath)
    {
      if pos == 0 {
        return null;
      }
      d := null;
      var i := pos;
      assert Stack()[..i] == Stack();
      while i > 0
        invariant i <= pos
        invariant TopmostPrefix(Stack(), abspath) == TopmostPrefix(Stack()[..i], abspath)
      {
        var e := table[i - 1];
        assert Stack()[..i][..i - 1] == Stack()[..i - 1] && Stack()[..i][i - 1] == e;
        if |abspath| >= |e.root| && abspath[..|e.root|] == e.root {
          return e;
        }
        i := i - 1;
      }
    }
  }

  lemma PushValid(ds: seq<Driver>, d: Driver)
    requires Sound(ds) && d !in ds
    requires NormalForm(d.root) && d.underlying == Topmost(ds, d.root)
    ensures Sound(ds + [d])
  {
    var es := ds + [d];
    assert es[..|ds|] == ds;
    forall i | 0 <= i < |es|
      ensures LinkedAt(es, i) && RootNormal(es, i)
    {
      if i < |ds| {
        assert LinkedAt(ds, i) && RootNormal(ds, i) && es[i] == ds[i] && es[..i] == ds[..i];
      }
    }
  }

  lemma WithoutValid(ds: seq<Driver>, k: nat)
    requires RootsNormal(ds) && Distinct(ds) && k < |ds|
    ensures RootsNormal(Without(ds, k)) && Distinct(Without(ds, k))
  {
    var w := Without(ds, k);
    forall i | 0 <= i < |w|
      ensures RootNormal(w, i)
    {
      assert RootNormal(ds, if i < k then i else i + 1);
    }
  }
}
