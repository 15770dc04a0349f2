/** How long a mark lasts: a file held impossible is found again once its entry is read. */
module DirMarks {
  import opened CStrings
  import opened DirCache
  import opened DirAgreement
  import opened DirRuns

  // ----- one record

  /** The mark on a file holds as long as no entry of that name has been read from what was left. */
  predicate Holds(k: Contents, left: seq<Entry>, n: Text) {
    && k.files.Some? && n in k.files.value
    && |Rest(k)| <= |left| && Unread(left, Rest(k)) == Rest(k)
    && k.files.value[n] == (n !in Names(AlreadyRead(left, Rest(k))))
  }

  lemma HoldsAtFirst(k: Contents, n: Text)
    ensures Holds(Mark(k, n), Rest(k), n)
  {
    assert AlreadyRead(Rest(k), Rest(k)) == [];
  }

  lemma LookHolds(k: Contents, left: seq<Entry>, n: Text, file: Option<Text>)
    requires Holds(k, left, n)
    ensures Holds(Look(k, file).0, left, n)
  {
    if Look(k, file).0 != k {
      var r := ReadUntil(k.files.value, k.stream.value, file);
      ReadUntilMeans(k.files.value, k.stream.value, file);
      ReadOn(left, k.stream.value, r.rest);
    }
  }

  lemma MarkHolds(k: Contents, left: seq<Entry>, n: Text, file: Text)
    requires Holds(k, left, n) && file != n
    ensures Holds(Mark(k, file), left, n)
  {
  }

  // ----- one operation

  /** What an operation may do to a record: nothing, a lookup, or a mark in its directory. */
  predicate Evolves(fs: FileSystem, k: Contents, k': Contents, op: Operation) {
    || k' == k
    || k' == Look(k, if op.Query? then op.want else None).0
    || (op.Impossible? && DirOf(fs, op.dir) == k.dir && k' == Mark(k, op.file))
  }

  lemma FindKeeps(fs: FileSystem, c: Cache, name: Text, id: nat)
    requires Linked(c) && id < |c.contents|
    ensures var c' := Find(fs, c, name).0; id < |c'.contents| && c'.contents[id] == c.contents[id]
  {
  }

  lemma ApplyEvolves(fs: FileSystem, c: Cache, marks: set<Marking>, op: Operation, id: nat)
    requires Good(fs, c, marks) && id < |c.contents|
    ensures var c' := Apply(fs, c, op).0;
      id < |c'.contents| && Evolves(fs, c.contents[id], c'.contents[id], op)
  {
    FindKeeps(fs, c, op.dir, id);
    FindGood(fs, c, marks, op.dir);
  }

  lemma ApplyKeepsName(fs: FileSystem, c: Cache, op: Operation, name: Text)
    requires Linked(c) && name in c.dirs && c.dirs[name].Some?
    ensures var c' := Apply(fs, c, op).0; name in c'.dirs && c'.dirs[name] == c.dirs[name]
  {
    var (c', id) := Find(fs, c, op.dir);
    assert name in c'.dirs && c'.dirs[name] == c.dirs[name];
    if op.Impossible? && id.None? {
      assert c'.dirs[op.dir] == None;
    }
  }

  /** The record a name leads to, and what is still to come from its stream. */
  predicate HasContents(c: Cache, dir: Text) {
    Linked(c) && dir in c.dirs && c.dirs[dir].Some?
  }

  function ContentsOf(c: Cache, dir: Text): Contents
    requires HasContents(c, dir)
  {
    c.contents[c.dirs[dir].value]
  }

  function ToCome(c: Cache, dir: Text): seq<Entry> {
    if HasContents(c, dir) then Rest(ContentsOf(c, dir)) else []
  }

  predicate HoldsIn(c: Cache, dir: Text, left: seq<Entry>, n: Text) {
    HasContents(c, dir) && Holds(ContentsOf(c, dir), left, n)
  }

  lemma ApplyHolds(fs: FileSystem, c: Cache, marks: set<Marking>, op: Operation, dir: Text, left: seq<Entry>, n: Text)
    requires Good(fs, c, marks) && HoldsIn(c, dir, left, n)
    requires MarkOf(fs, op) != {Marking(DirOf(fs, dir), n)}
    ensures HoldsIn(Apply(fs, c, op).0, dir, left, n)
  {
    var k := ContentsOf(c, dir);
    ApplyEvolves(fs, c, marks, op, c.dirs[dir].value);
    ApplyKeepsName(fs, c, op, dir);
    assert NameAt(fs, c, dir);
    LookHolds(k, left, n, if op.Query? then op.want else None);
    if op.Impossible? && DirOf(fs, op.dir) == k.dir {
      MarkHolds(k, left, n, op.file);
    }
  }

  lemma MarkBegins(fs: FileSystem, c: Cache, dir: Text, n: Text)
    requires Linked(c)
    ensures var c' := Apply(fs, c, Impossible(dir, n)).0; HoldsIn(c', dir, ToCome(c', dir), n)
  {
    FindAgain(fs, c, dir);
    var (c', id) := Find(fs, c, dir);
    HoldsAtFirst(if id.Some? then c'.contents[id.value] else Contents(Missing(dir), None, None), n);
  }

  // ----- over whole runs

  lemma NotMarkedBefore(fs: FileSystem, ops: seq<Operation>, d: Dir, n: Text)
    requires ops != [] && !MarkedBefore(fs, ops, d, n)
    ensures !MarkedBefore(fs, ops[..|ops| - 1], d, n) && MarkOf(fs, ops[|ops| - 1]) != {Marking(d, n)}
  {
    var before := ops[..|ops| - 1];
    assert forall i :: 0 <= i < |before| ==> before[i] == ops[i];
  }

  lemma RunNext(fs: FileSystem, ops: seq<Operation>, later: seq<Operation>)
    requires later != []
    ensures Run(fs, ops + later) == Apply(fs, Run(fs, ops + later[..|later| - 1]), later[|later| - 1]).0
  {
    var all, n := ops + later, |ops + later| - 1;
    RunLast(fs, all);
    assert all[..n] == ops + later[..|later| - 1] && all[n] == later[|later| - 1];
  }

  lemma RunLast(fs: FileSystem, ops: seq<Operation>)
    requires ops != []
    ensures Run(fs, ops) == Apply(fs, Run(fs, ops[..|ops| - 1]), ops[|ops| - 1]).0
  {
  }

  lemma {:induction false} LaterHolds(fs: FileSystem, ops: seq<Operation>, later: seq<Operation>, dir: Text,
                                      left: seq<Entry>, n: Text)
    requires HoldsIn(Run(fs, ops), dir, left, n) && !MarkedBefore(fs, later, DirOf(fs, dir), n)
    ensures HoldsIn(Run(fs, ops + later), dir, left, n)
    decreases |later|
  {
    if later == [] {
      assert ops + later == ops;
    } else {
      var before, op := later[..|later| - 1], later[|later| - 1];
      NotMarkedBefore(fs, later, DirOf(fs, dir), n);
      LaterHolds(fs, ops, before, dir, left, n);
      RunNext(fs, ops, later);
      RunGood(fs, ops + before);
      ApplyHolds(fs, Run(fs, ops + before), MarksOf(fs, ops + before), op, dir, left, n);
    }
  }

  /**
   After a mark, and until the file is marked again, a query finds the file exactly if an entry of its
   name was still to come when it was marked and has been read since.
   */
  lemma MarkLasts(fs: FileSystem, ops: seq<Operation>, dir: Text, n: Text, later: seq<Operation>)
    requires n != [] && !MarkedBefore(fs, later, DirOf(fs, dir), n)
    ensures var marked := ops + [Impossible(dir, n)];
      var left, left' := ToCome(Run(fs, marked), dir), ToCome(Run(fs, marked + later), dir);
      && |left'| <= |left| && Unread(left, left') == left'
      && ReplyAfter(fs, marked + later, Query(dir, Some(n))) == Answer(n in Names(AlreadyRead(left, left')))
  {
    var marked := ops + [Impossible(dir, n)];
    assert marked[..|marked| - 1] == ops;
    var left := ToCome(Run(fs, marked), dir);
    MarkBegins(fs, Run(fs, ops), dir, n);
    LaterHolds(fs, marked, later, dir, left, n);
    RunGood(fs, marked + later);
    HeldAnswer(fs, Run(fs, marked + later), MarksOf(fs, marked + later), dir, left, n);
  }

  lemma HeldAnswer(fs: FileSystem, c: Cache, marks: set<Marking>, dir: Text, left: seq<Entry>, n: Text)
    requires Good(fs, c, marks) && HoldsIn(c, dir, left, n) && n != []
    ensures Apply(fs, c, Query(dir, Some(n))).1 == Answer(n in Names(AlreadyRead(left, ToCome(c, dir))))
  {
  }

  /** A mark made when no entry of that name is to come stays for good. */
  lemma MarkStays(fs: FileSystem, ops: seq<Operation>, dir: Text, n: Text, later: seq<Operation>)
    requires n != [] && !MarkedBefore(fs, later, DirOf(fs, dir), n)
    requires n !in Names(ToCome(Run(fs, ops + [Impossible(dir, n)]), dir))
    ensures ReplyAfter(fs, ops + [Impossible(dir, n)] + later, Query(dir, Some(n))) == Answer(false)
  {
    MarkLasts(fs, ops, dir, n, later);
  }

  // ----- a directory read to its end

  /** The operation reads a directory to its end, by whichever name. */
  predicate ReadsAll(fs: FileSystem, op: Operation, d: Dir) {
    DirOf(fs, op.dir) == d && (op.List? || (op.Query? && op.want.None?))
  }

  predicate AtEnd(c: Cache, dir: Text) {
    HasContents(c, dir) && ContentsOf(c, dir).files.Some? && ContentsOf(c, dir).stream.None?
  }

  lemma StaysAtEnd(fs: FileSystem, c: Cache, marks: set<Marking>, op: Operation, dir: Text)
    requires Good(fs, c, marks) && AtEnd(c, dir)
    ensures AtEnd(Apply(fs, c, op).0, dir)
  {
    ApplyEvolves(fs, c, marks, op, c.dirs[dir].value);
    ApplyKeepsName(fs, c, op, dir);
  }

  /** Two names of one directory lead to one record. */
  lemma SameRecord(fs: FileSystem, c: Cache, marks: set<Marking>, dir: Text, id: nat)
    requires Good(fs, c, marks) && HasContents(c, dir)
    requires id < |c.contents| && c.contents[id].dir == DirOf(fs, dir)
    ensures c.dirs[dir] == Some(id)
  {
    assert NameAt(fs, c, dir);
    assert RecordAt(fs, c, marks, id) && RecordAt(fs, c, marks, c.dirs[dir].value);
  }

  lemma FindKeepsName(fs: FileSystem, c: Cache, dir: Text, name: Text)
    requires HasContents(c, name)
    ensures var c' := Find(fs, c, dir).0; HasContents(c', name) && c'.dirs[name] == c.dirs[name]
  {
  }

  /** Finding a directory by another name leads to its record. */
  lemma FindsRecord(fs: FileSystem, c: Cache, marks: set<Marking>, dir: Text, other: Text)
    requires Good(fs, c, marks) && HasContents(c, dir) && DirOf(fs, other) == DirOf(fs, dir)
    ensures var (c', id) := Find(fs, c, other);
      id == c.dirs[dir] && HasContents(c', dir) && c'.dirs[dir] == id && ContentsOf(c', dir) == ContentsOf(c, dir)
  {
    FindGood(fs, c, marks, other);
    var (c', id) := Find(fs, c, other);
    FindKeeps(fs, c, other, c.dirs[dir].value);
    FindKeepsName(fs, c, other, dir);
    if id.Some? {
      SameRecord(fs, c', marks, dir, id.value);
    }
  }

  /** A lookup without a file leaves no stream. */
  lemma LookEnds(k: Contents)
    requires k.files.Some?
    ensures Look(k, None).0.files.Some? && Look(k, None).0.stream.None?
  {
    if k.stream.Some? {
      ReadUntilMeans(k.files.value, k.stream.value, None);
    }
  }

  lemma ReadsToEnd(fs: FileSystem, c: Cache, marks: set<Marking>, op: Operation, dir: Text)
    requires Good(fs, c, marks) && HasContents(c, dir) && ContentsOf(c, dir).files.Some?
    requires ReadsAll(fs, op, DirOf(fs, dir))
    ensures AtEnd(Apply(fs, c, op).0, dir)
  {
    FindsRecord(fs, c, marks, dir, op.dir);
    LookEnds(ContentsOf(c, dir));
    var (c', id) := Find(fs, c, op.dir);
    assert Apply(fs, c, op).0 == Exists(c', id, None).0;
  }

  lemma NextAtEnd(fs: FileSystem, c: Cache, marks: set<Marking>, op: Operation, dir: Text, left: seq<Entry>, n: Text)
    requires Good(fs, c, marks)
    requires AtEnd(c, dir) || (HoldsIn(c, dir, left, n) && ReadsAll(fs, op, DirOf(fs, dir)))
    ensures AtEnd(Apply(fs, c, op).0, dir)
  {
    if AtEnd(c, dir) {
      StaysAtEnd(fs, c, marks, op, dir);
    } else {
      ReadsToEnd(fs, c, marks, op, dir);
    }
  }

  lemma {:induction false} LaterAtEnd(fs: FileSystem, ops: seq<Operation>, later: seq<Operation>, dir: Text, i: nat,
                                      left: seq<Entry>, n: Text)
    requires HoldsIn(Run(fs, ops), dir, left, n) && !MarkedBefore(fs, later, DirOf(fs, dir), n)
    requires i < |later| && ReadsAll(fs, later[i], DirOf(fs, dir))
    ensures AtEnd(Run(fs, ops + later), dir)
    decreases |later|
  {
    var before := later[..|later| - 1];
    var all := ops + before;
    NotMarkedBefore(fs, later, DirOf(fs, dir), n);
    if i < |before| {
      LaterAtEnd(fs, ops, before, dir, i, left, n);
    } else {
      LaterHolds(fs, ops, before, dir, left, n);
    }
    RunGood(fs, all);
    NextAtEnd(fs, Run(fs, all), MarksOf(fs, all), later[|later| - 1], dir, left, n);
    RunNext(fs, ops, later);
  }

  /** Once the directory has been read to its end, the mark holds exactly if it was made too late. */
  lemma MarkWearsOff(fs: FileSystem, ops: seq<Operation>, dir: Text, n: Text, later: seq<Operation>, i: nat)
    requires n != [] && !MarkedBefore(fs, later, DirOf(fs, dir), n)
    requires i < |later| && ReadsAll(fs, later[i], DirOf(fs, dir))
    ensures var marked := ops + [Impossible(dir, n)];
      ReplyAfter(fs, marked + later, Query(dir, Some(n))) == Answer(n in Names(ToCome(Run(fs, marked), dir)))
  {
    var marked := ops + [Impossible(dir, n)];
    assert marked[..|marked| - 1] == ops;
    var left := ToCome(Run(fs, marked), dir);
    MarkBegins(fs, Run(fs, ops), dir, n);
    LaterAtEnd(fs, marked, later, dir, i, left, n);
    MarkLasts(fs, ops, dir, n, later);
    assert AlreadyRead(left, []) == left;
  }

  /** A mark reads nothing. */
  lemma MarkMoves(fs: FileSystem, ops: seq<Operation>, dir: Text, n: Text)
    requires HasContents(Run(fs, ops), dir)
    ensures ToCome(Run(fs, ops + [Impossible(dir, n)]), dir) == ToCome(Run(fs, ops), dir)
  {
    RunNext(fs, ops, [Impossible(dir, n)]);
    assert ops + [] == ops;
  }

  // ----- each side on the smallest file system

  const INODE := Inode(1, 1)
  const LISTED := [Entry("a", true)]
  const SMALL := FileSystem(map["d" := INODE], map[INODE := LISTED])

  /** Both outcomes occur: the file is listed, and is marked before or after its entry is read. */
  lemma MarkedEarly()
    ensures ReplyAfter(SMALL, [] + [Impossible("d", "a")] + [Query("d", None)], Query("d", Some("a"))) == Answer(true)
  {
    var read := Query("d", None);
    assert !MarkedBefore(SMALL, [read], DirOf(SMALL, "d"), "a");
    MarkWearsOff(SMALL, [], "d", "a", [read], 0);
    var marked := [] + [Impossible("d", "a")];
    assert marked[..0] == [] && Run(SMALL, []) == EMPTY;
    assert ToCome(Run(SMALL, marked), "d") == LISTED;
    assert Entry("a", true) in LISTED;
  }

  lemma SmallRead()
    ensures HasContents(Run(SMALL, [Query("d", None)]), "d") && ToCome(Run(SMALL, [Query("d", None)]), "d") == []
  {
    var ops := [Query("d", None)];
    assert ops[..0] == [] && Run(SMALL, []) == EMPTY;
    assert ReadUntil(map[], LISTED, None) == Reading(map["a" := false], [], false);
  }

  lemma MarkedLate()
    ensures ReplyAfter(SMALL, [Query("d", None)] + [Impossible("d", "a")] + [Query("d", None)], Query("d", Some("a")))
            == Answer(false)
  {
    var read := Query("d", None);
    assert !MarkedBefore(SMALL, [read], DirOf(SMALL, "d"), "a");
    MarkWearsOff(SMALL, [read], "d", "a", [read], 0);
    SmallRead();
    MarkMoves(SMALL, [read], "d", "a");
  }
}
