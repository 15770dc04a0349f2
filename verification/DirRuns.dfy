/** The directory cache over whole runs. */
module DirRuns {
  import opened CStrings
  import opened DirCache
  import opened DirAgreement

  // ----- the number of open streams

  function Live(ks: seq<Contents>): nat {
    if ks == [] then 0
    else Live(ks[..|ks| - 1]) + if ks[|ks| - 1].stream.Some? then 1 else 0
  }

  lemma {:induction false} LiveSet(ks: seq<Contents>, id: nat, k: Contents)
    requires id < |ks|
    ensures Live(ks[id := k]) == Live(ks) - (if ks[id].stream.Some? then 1 else 0) + (if k.stream.Some? then 1 else 0)
    decreases |ks|
  {
    var n := |ks| - 1;
    if id == n {
      assert ks[id := k][..n] == ks[..n];
    } else {
      assert ks[id := k][..n] == ks[..n][id := k];
      LiveSet(ks[..n], id, k);
    }
  }

  lemma LiveAppend(ks: seq<Contents>, k: Contents)
    ensures Live(ks + [k]) == Live(ks) + if k.stream.Some? then 1 else 0
  {
    assert (ks + [k])[..|ks|] == ks;
  }

  // ----- the invariant

  predicate NameAt(fs: FileSystem, c: Cache, name: Text)
    requires Linked(c) && name in c.dirs
  {
    match c.dirs[name]
    case None => name !in fs.stat
    case Some(id) => c.contents[id].dir == DirOf(fs, name)
  }

  predicate InodeAt(c: Cache, i: Inode)
    requires Linked(c) && i in c.byInode
  {
    c.contents[c.byInode[i]].dir == Known(i)
  }

  /** The tables lead to the record of a directory. */
  predicate Reached(c: Cache, d: Dir, id: nat) {
    match d
    case Known(i) => i in c.byInode && c.byInode[i] == id
    case Missing(name) => name in c.dirs && c.dirs[name] == Some(id)
  }

  predicate HasRecord(c: Cache, d: Dir) {
    match d
    case Known(i) => i in c.byInode
    case Missing(name) => name in c.dirs && c.dirs[name].Some?
  }

  ghost predicate RecordAt(fs: FileSystem, c: Cache, marks: set<Marking>, id: nat)
    requires id < |c.contents|
  {
    RecordGood(fs, c.contents[id], marks) && Reached(c, c.contents[id].dir, id)
  }

  predicate NamesSound(fs: FileSystem, c: Cache) {
    Linked(c) && forall name :: name in c.dirs ==> NameAt(fs, c, name)
  }

  predicate InodesSound(c: Cache) {
    Linked(c) && forall i :: i in c.byInode ==> InodeAt(c, i)
  }

  ghost predicate RecordsSound(fs: FileSystem, c: Cache, marks: set<Marking>) {
    forall id :: 0 <= id < |c.contents| ==> RecordAt(fs, c, marks, id)
  }

  predicate MarksSound(c: Cache, marks: set<Marking>) {
    forall m :: m in marks ==> HasRecord(c, m.dir)
  }

  ghost predicate Sound(fs: FileSystem, c: Cache, marks: set<Marking>) {
    && NamesSound(fs, c) && InodesSound(c) && RecordsSound(fs, c, marks) && MarksSound(c, marks)
    && c.open == Live(c.contents)
  }

  /** Between operations fewer streams are open than the limit. */
  ghost predicate Good(fs: FileSystem, c: Cache, marks: set<Marking>) {
    Sound(fs, c, marks) && c.open < MAX_OPEN_DIRECTORIES
  }

  /** Marks on other directories do not matter to a record. */
  lemma RecordFrame(fs: FileSystem, k: Contents, marks: set<Marking>, marks': set<Marking>)
    requires RecordGood(fs, k, marks)
    requires forall n :: Marking(k.dir, n) in marks <==> Marking(k.dir, n) in marks'
    ensures RecordGood(fs, k, marks')
  {
    if k.files.Some? {
      assert TableGood(fs, k.dir, k.files.value, Rest(k), marks');
    }
  }

  /** More is marked in one directory only. */
  predicate Grows(marks: set<Marking>, marks': set<Marking>, d: Dir) {
    marks <= marks' && forall m :: m in marks' && m !in marks ==> m.dir == d
  }

  /** A record of another directory is as good as before. */
  lemma KeepRecord(fs: FileSystem, c: Cache, c': Cache, marks: set<Marking>, marks': set<Marking>, d: Dir, j: nat)
    requires j < |c.contents| && RecordAt(fs, c, marks, j)
    requires j < |c'.contents| && c'.contents[j] == c.contents[j] && Reached(c', c.contents[j].dir, j)
    requires Grows(marks, marks', d) && d != c.contents[j].dir
    ensures RecordAt(fs, c', marks', j)
  {
    RecordFrame(fs, c.contents[j], marks, marks');
  }

  /** A record may be replaced by a good one of the same directory. */
  lemma SetRecordSound(fs: FileSystem, c: Cache, marks: set<Marking>, id: nat, k: Contents, marks': set<Marking>)
    requires Sound(fs, c, marks) && id < |c.contents|
    requires k.dir == c.contents[id].dir && RecordGood(fs, k, marks')
    requires Grows(marks, marks', k.dir)
    requires k.stream.Some? ==> c.contents[id].stream.Some?
    ensures Sound(fs, SetRecord(c, id, k), marks')
  {
    var c' := SetRecord(c, id, k);
    LiveSet(c.contents, id, k);
    SetNames(fs, c, c', id, k);
    forall j | 0 <= j < |c'.contents|
      ensures RecordAt(fs, c', marks', j)
    {
      assert RecordAt(fs, c, marks, j) && RecordAt(fs, c, marks, id);
      if j != id {
        KeepRecord(fs, c, c', marks, marks', k.dir, j);
      }
    }
    assert MarksSound(c', marks') by {
      assert RecordAt(fs, c, marks, id);
    }
  }

  lemma SetNames(fs: FileSystem, c: Cache, c': Cache, id: nat, k: Contents)
    requires NamesSound(fs, c) && InodesSound(c) && id < |c.contents| && k.dir == c.contents[id].dir
    requires c'.contents == c.contents[id := k] && c'.dirs == c.dirs && c'.byInode == c.byInode
    ensures NamesSound(fs, c') && InodesSound(c')
  {
    forall name | name in c'.dirs
      ensures NameAt(fs, c', name)
    {
      assert NameAt(fs, c, name);
    }
    forall i | i in c'.byInode
      ensures InodeAt(c', i)
    {
      assert InodeAt(c, i);
    }
  }

  /** The tables with one more record, for a directory that had none. */
  predicate Appends(c: Cache, c': Cache, k: Contents) {
    && c'.contents == c.contents + [k]
    && c'.open == c.open + (if k.stream.Some? then 1 else 0)
    && match k.dir
       case Known(i) => i !in c.byInode && c'.byInode == c.byInode[i := |c.contents|] && c'.dirs == c.dirs
       case Missing(name) =>
         && (name in c.dirs ==> c.dirs[name].None?)
         && c'.dirs == c.dirs[name := Some(|c.contents|)] && c'.byInode == c.byInode
  }

  lemma AppendSound(fs: FileSystem, c: Cache, c': Cache, marks: set<Marking>, k: Contents, marks': set<Marking>)
    requires Sound(fs, c, marks) && Appends(c, c', k) && RecordGood(fs, k, marks')
    requires Grows(marks, marks', k.dir)
    ensures Sound(fs, c', marks')
  {
    LiveAppend(c.contents, k);
    AppendNames(fs, c, c', k);
    forall j | 0 <= j < |c'.contents|
      ensures RecordAt(fs, c', marks', j)
    {
      AppendRecord(fs, c, c', marks, k, marks', j);
    }
    forall m | m in marks'
      ensures HasRecord(c', m.dir)
    {
      AppendHas(c, c', k, m.dir);
    }
  }

  lemma AppendRecord(fs: FileSystem, c: Cache, c': Cache, marks: set<Marking>, k: Contents, marks': set<Marking>,
                     j: nat)
    requires RecordsSound(fs, c, marks) && Appends(c, c', k) && RecordGood(fs, k, marks')
    requires Grows(marks, marks', k.dir)
    requires j < |c'.contents|
    ensures RecordAt(fs, c', marks', j)
  {
    if j < |c.contents| {
      assert RecordAt(fs, c, marks, j);
      AppendReached(c, c', k, c.contents[j].dir, j);
      KeepRecord(fs, c, c', marks, marks', k.dir, j);
    }
  }

  lemma AppendReached(c: Cache, c': Cache, k: Contents, d: Dir, id: nat)
    requires Appends(c, c', k) && Reached(c, d, id)
    ensures Reached(c', d, id) && d != k.dir
  {
  }

  lemma AppendHas(c: Cache, c': Cache, k: Contents, d: Dir)
    requires Appends(c, c', k) && (HasRecord(c, d) || d == k.dir)
    ensures HasRecord(c', d)
  {
  }

  lemma AppendNames(fs: FileSystem, c: Cache, c': Cache, k: Contents)
    requires NamesSound(fs, c) && InodesSound(c) && Appends(c, c', k)
    requires k.dir.Missing? ==> k.dir.name !in fs.stat
    ensures NamesSound(fs, c') && InodesSound(c')
  {
    forall name | name in c'.dirs
      ensures NameAt(fs, c', name)
    {
      if k.dir != Missing(name) {
        assert NameAt(fs, c, name);
      }
    }
    forall i | i in c'.byInode
      ensures InodeAt(c', i)
    {
      if k.dir != Known(i) {
        assert InodeAt(c, i);
      }
    }
  }

  /** A directory without a record has no marks. */
  lemma NewRecordGood(fs: FileSystem, c: Cache, marks: set<Marking>, i: Inode)
    requires Sound(fs, c, marks) && i !in c.byInode
    ensures i in fs.listing ==> RecordGood(fs, Contents(Known(i), Some(map[]), Some(fs.listing[i])), marks)
    ensures i !in fs.listing ==> RecordGood(fs, Contents(Known(i), None, None), marks)
  {
    assert forall m :: m in marks ==> m.dir != Known(i);
    if i in fs.listing {
      assert AlreadyRead(fs.listing[i], fs.listing[i]) == [];
    }
  }

  /** Looking keeps the tables sound, and closes a stream that is read to its end. */
  lemma ExistsSound(fs: FileSystem, c: Cache, marks: set<Marking>, id: nat, file: Option<Text>)
    requires Sound(fs, c, marks) && id < |c.contents|
    ensures Sound(fs, Exists(c, Some(id), file).0, marks)
    ensures Exists(c, Some(id), file).0.open <= c.open
    ensures file.None? && c.contents[id].stream.Some? ==> Exists(c, Some(id), file).0.open == c.open - 1
  {
    assert RecordAt(fs, c, marks, id);
    LookGood(fs, c.contents[id], file, marks);
    SetRecordSound(fs, c, marks, id, Look(c.contents[id], file).0, marks);
    if c.contents[id].files.None? {
      assert c.contents[id].stream.None?;
    }
  }

  lemma NewRecordSound(fs: FileSystem, c: Cache, marks: set<Marking>, i: Inode)
    requires Good(fs, c, marks) && i !in c.byInode
    ensures Good(fs, NewRecord(fs, c, i), marks)
    ensures NewRecord(fs, c, i).dirs == c.dirs && Reached(NewRecord(fs, c, i), Known(i), |c.contents|)
  {
    NewRecordGood(fs, c, marks, i);
    var k := if i in fs.listing then Contents(Known(i), Some(map[]), Some(fs.listing[i]))
             else Contents(Known(i), None, None);
    var c' := c.(byInode := c.byInode[i := |c.contents|], contents := c.contents + [k],
                 open := c.open + if k.stream.Some? then 1 else 0);
    AppendSound(fs, c, c', marks, k, marks);
    if c'.open == MAX_OPEN_DIRECTORIES {
      ExistsSound(fs, c', marks, |c.contents|, None);
    }
  }

  lemma AddName(fs: FileSystem, c: Cache, marks: set<Marking>, name: Text, id: Option<nat>)
    requires Good(fs, c, marks) && name !in c.dirs
    requires id.Some? ==> id.value < |c.contents| && c.contents[id.value].dir == DirOf(fs, name)
    requires id.None? ==> name !in fs.stat
    ensures Good(fs, c.(dirs := c.dirs[name := id]), marks)
  {
    var c' := c.(dirs := c.dirs[name := id]);
    AddNameNames(fs, c, c', name, id);
    AddNameRecords(fs, c, c', marks, name, id);
  }

  lemma AddNameRecords(fs: FileSystem, c: Cache, c': Cache, marks: set<Marking>, name: Text, id: Option<nat>)
    requires RecordsSound(fs, c, marks) && MarksSound(c, marks) && name !in c.dirs
    requires c' == c.(dirs := c.dirs[name := id])
    ensures RecordsSound(fs, c', marks) && MarksSound(c', marks)
  {
    forall j | 0 <= j < |c'.contents|
      ensures RecordAt(fs, c', marks, j)
    {
      assert RecordAt(fs, c, marks, j);
    }
  }

  lemma AddNameNames(fs: FileSystem, c: Cache, c': Cache, name: Text, id: Option<nat>)
    requires NamesSound(fs, c) && InodesSound(c) && name !in c.dirs
    requires c' == c.(dirs := c.dirs[name := id])
    requires id.Some? ==> id.value < |c.contents| && c.contents[id.value].dir == DirOf(fs, name)
    requires id.None? ==> name !in fs.stat
    ensures NamesSound(fs, c') && InodesSound(c')
  {
    forall m | m in c'.dirs
      ensures NameAt(fs, c', m)
    {
      if m != name {
        assert NameAt(fs, c, m);
      }
    }
    forall i | i in c'.byInode
      ensures InodeAt(c', i)
    {
      assert InodeAt(c, i);
    }
  }

  /** Finding a directory by name gives its record; none only if stat does not find it. */
  lemma FindGood(fs: FileSystem, c: Cache, marks: set<Marking>, name: Text)
    requires Good(fs, c, marks)
    ensures var (c', id) := Find(fs, c, name);
      && Good(fs, c', marks)
      && name in c'.dirs && c'.dirs[name] == id
      && (if id.Some? then c'.contents[id.value].dir == DirOf(fs, name) else name !in fs.stat)
  {
    if name in c.dirs {
      assert NameAt(fs, c, name);
    } else if name !in fs.stat {
      AddName(fs, c, marks, name, None);
    } else {
      var i := fs.stat[name];
      if i !in c.byInode {
        NewRecordSound(fs, c, marks, i);
      }
      var (c', id) := Record(fs, c, i);
      assert InodeAt(c', i);
      AddName(fs, c', marks, name, Some(id));
    }
  }

  // ----- every operation keeps the invariant

  /** The mark an operation makes. */
  function MarkOf(fs: FileSystem, op: Operation): set<Marking> {
    if op.Impossible? then {Marking(DirOf(fs, op.dir), op.file)} else {}
  }

  function MarksOf(fs: FileSystem, ops: seq<Operation>): set<Marking> {
    if ops == [] then {} else MarksOf(fs, ops[..|ops| - 1]) + MarkOf(fs, ops[|ops| - 1])
  }

  lemma MarkInGood(fs: FileSystem, c: Cache, marks: set<Marking>, id: Option<nat>, dir: Text, file: Text)
    requires Good(fs, c, marks) && dir in c.dirs && c.dirs[dir] == id
    ensures Good(fs, MarkIn(c, id, dir, file), marks + {Marking(DirOf(fs, dir), file)})
  {
    assert NameAt(fs, c, dir);
    if id.Some? {
      MarkRecord(fs, c, marks, id.value, file);
    } else {
      MarkMissing(fs, c, marks, dir, file);
    }
  }

  lemma MarkRecord(fs: FileSystem, c: Cache, marks: set<Marking>, id: nat, file: Text)
    requires Sound(fs, c, marks) && id < |c.contents|
    ensures var k := c.contents[id];
      Sound(fs, SetRecord(c, id, Mark(k, file)), marks + {Marking(k.dir, file)})
  {
    var k, marks' := c.contents[id], marks + {Marking(c.contents[id].dir, file)};
    MarkedGood(fs, c, marks, id, file);
    assert Grows(marks, marks', k.dir);
    SetRecordSound(fs, c, marks, id, Mark(k, file), marks');
  }

  lemma MarkedGood(fs: FileSystem, c: Cache, marks: set<Marking>, id: nat, file: Text)
    requires RecordsSound(fs, c, marks) && id < |c.contents|
    ensures RecordGood(fs, Mark(c.contents[id], file), marks + {Marking(c.contents[id].dir, file)})
  {
    assert RecordAt(fs, c, marks, id);
    MarkGood(fs, c.contents[id], file, marks);
  }

  lemma MarkMissing(fs: FileSystem, c: Cache, marks: set<Marking>, dir: Text, file: Text)
    requires Good(fs, c, marks) && dir in c.dirs && c.dirs[dir].None? && dir !in fs.stat
    ensures Good(fs, MarkIn(c, None, dir, file), marks + {Marking(Missing(dir), file)})
  {
    var k := Contents(Missing(dir), None, None);
    NoMarkMissing(fs, c, marks, dir);
    MarkGood(fs, k, file, marks);
    AppendSound(fs, c, MarkIn(c, None, dir, file), marks, Mark(k, file), marks + {Marking(Missing(dir), file)});
  }

  lemma NoMarkMissing(fs: FileSystem, c: Cache, marks: set<Marking>, dir: Text)
    requires MarksSound(c, marks) && dir in c.dirs && c.dirs[dir].None? && dir !in fs.stat
    ensures RecordGood(fs, Contents(Missing(dir), None, None), marks)
  {
    assert forall m :: m in marks ==> m.dir != Missing(dir);
  }

  lemma ApplyGood(fs: FileSystem, c: Cache, marks: set<Marking>, op: Operation)
    requires Good(fs, c, marks)
    ensures Good(fs, Apply(fs, c, op).0, marks + MarkOf(fs, op))
  {
    FindGood(fs, c, marks, op.dir);
    var (c', id) := Find(fs, c, op.dir);
    assert marks + {} == marks;
    match op
    case Query(_, want) =>
      if id.Some? {
        ExistsSound(fs, c', marks, id.value, want);
      }
    case Impossible(dir, file) => MarkInGood(fs, c', marks, id, dir, file);
    case AskImpossible(_, file) =>
    case List(_) =>
      if id.Some? {
        ExistsSound(fs, c', marks, id.value, None);
      }
  }

  lemma {:induction false} RunGood(fs: FileSystem, ops: seq<Operation>)
    ensures Good(fs, Run(fs, ops), MarksOf(fs, ops))
    decreases |ops|
  {
    if ops != [] {
      var before := ops[..|ops| - 1];
      RunGood(fs, before);
      ApplyGood(fs, Run(fs, before), MarksOf(fs, before), ops[|ops| - 1]);
    }
  }

  // ----- what is answered

  ghost predicate HasMark(marks: set<Marking>, d: Dir) {
    exists n :: Marking(d, n) in marks
  }

  /** What the record found for a directory says about its marks. */
  lemma RecordMarks(fs: FileSystem, k: Contents, marks: set<Marking>)
    requires RecordGood(fs, k, marks)
    ensures k.files.Some? <==> Openable(fs, k.dir) || HasMark(marks, k.dir)
  {
    if k.files.Some? && !Openable(fs, k.dir) {
      assert k.files.value != map[];
      var n :| n in k.files.value;
      assert Marking(k.dir, n) in marks;
    }
  }

  lemma NoRecordNoMark(fs: FileSystem, c: Cache, marks: set<Marking>, name: Text)
    requires Good(fs, c, marks) && name in c.dirs && c.dirs[name].None?
    ensures !Openable(fs, DirOf(fs, name)) && !HasMark(marks, DirOf(fs, name)) && Listing(fs, DirOf(fs, name)) == {}
  {
    assert NameAt(fs, c, name);
    assert forall m :: m in marks ==> m.dir != Missing(name);
  }

  /** Every answer, in terms of the listing and of what is marked. */
  lemma Answers(fs: FileSystem, c: Cache, marks: set<Marking>, dir: Text, n: Text)
    requires Good(fs, c, marks)
    ensures var d, asked := DirOf(fs, dir), Apply(fs, c, AskImpossible(dir, n)).1;
      && asked.Answer?
      && (asked.yes ==> Marking(d, n) in marks)
      && (Marking(d, n) in marks && n !in Listing(fs, d) ==> asked.yes)
      && (n != [] ==> Apply(fs, c, Query(dir, Some(n))).1 == Answer(n in Listing(fs, d) && !asked.yes))
  {
    FindGood(fs, c, marks, dir);
    var (c', id) := Find(fs, c, dir);
    if id.Some? {
      assert RecordAt(fs, c', marks, id.value);
      LookGood(fs, c'.contents[id.value], Some(n), marks);
    } else {
      NoRecordNoMark(fs, c', marks, dir);
    }
  }

  lemma AnswersToEmpty(fs: FileSystem, c: Cache, marks: set<Marking>, dir: Text)
    requires Good(fs, c, marks)
    ensures var d := DirOf(fs, dir);
      Apply(fs, c, Query(dir, Some([]))).1 == Answer(Openable(fs, d) || HasMark(marks, d))
  {
    FindGood(fs, c, marks, dir);
    var (c', id) := Find(fs, c, dir);
    if id.Some? {
      assert RecordAt(fs, c', marks, id.value);
      RecordMarks(fs, c'.contents[id.value], marks);
    } else {
      NoRecordNoMark(fs, c', marks, dir);
    }
  }

  lemma AnswersToList(fs: FileSystem, c: Cache, marks: set<Marking>, dir: Text)
    requires Good(fs, c, marks)
    ensures var d, r := DirOf(fs, dir), Apply(fs, c, List(dir)).1;
      && r.Files?
      && (r.names.Some? <==> Openable(fs, d) || HasMark(marks, d))
      && (r.names.Some? ==> r.names.value <= Listing(fs, d))
      && (r.names.Some? ==> forall n :: n in Listing(fs, d) && n !in r.names.value ==> Marking(d, n) in marks)
  {
    FindGood(fs, c, marks, dir);
    var (c', id) := Find(fs, c, dir);
    if id.Some? {
      assert RecordAt(fs, c', marks, id.value);
      var k := c'.contents[id.value];
      RecordMarks(fs, k, marks);
      if k.files.Some? {
        LookGood(fs, k, None, marks);
        TableComplete(fs, Look(k, None).0, marks);
      }
    } else {
      NoRecordNoMark(fs, c', marks, dir);
    }
  }

  // ----- over whole runs

  /** An earlier operation marked the file, by this or another name of its directory. */
  predicate MarkedBefore(fs: FileSystem, ops: seq<Operation>, d: Dir, n: Text) {
    exists i :: 0 <= i < |ops| && MarkOf(fs, ops[i]) == {Marking(d, n)}
  }

  lemma {:induction false} MarksMean(fs: FileSystem, ops: seq<Operation>, d: Dir, n: Text)
    ensures Marking(d, n) in MarksOf(fs, ops) <==> MarkedBefore(fs, ops, d, n)
    decreases |ops|
  {
    if ops != [] {
      var last := |ops| - 1;
      MarksMean(fs, ops[..last], d, n);
      if Marking(d, n) in MarkOf(fs, ops[last]) {
        assert MarkOf(fs, ops[last]) == {Marking(d, n)};
      }
      if MarkedBefore(fs, ops[..last], d, n) {
        var i :| 0 <= i < last && MarkOf(fs, ops[..last][i]) == {Marking(d, n)};
        assert MarkOf(fs, ops[i]) == {Marking(d, n)};
      }
      if MarkedBefore(fs, ops, d, n) {
        var i :| 0 <= i < |ops| && MarkOf(fs, ops[i]) == {Marking(d, n)};
        assert i < last ==> MarkOf(fs, ops[..last][i]) == {Marking(d, n)};
      }
    }
  }

  /** Only files that are not there are marked impossible. */
  predicate MarksAbsent(fs: FileSystem, ops: seq<Operation>) {
    forall i :: 0 <= i < |ops| && ops[i].Impossible? ==> ops[i].file !in Listing(fs, DirOf(fs, ops[i].dir))
  }

  lemma AbsentMarks(fs: FileSystem, ops: seq<Operation>, d: Dir, n: Text)
    requires MarksAbsent(fs, ops) && Marking(d, n) in MarksOf(fs, ops)
    ensures n !in Listing(fs, d)
  {
    MarksMean(fs, ops, d, n);
    var i :| 0 <= i < |ops| && MarkOf(fs, ops[i]) == {Marking(d, n)};
    assert Marking(d, n) in MarkOf(fs, ops[i]);
  }

  /** The count of open directories is the number of live streams, and below the limit. */
  lemma StreamsBounded(fs: FileSystem, ops: seq<Operation>)
    ensures Run(fs, ops).open == Live(Run(fs, ops).contents) < MAX_OPEN_DIRECTORIES
  {
    RunGood(fs, ops);
  }

  /** However much has been read, and by whichever name, the answers are those of the listing. */
  lemma AnswersAgree(fs: FileSystem, ops: seq<Operation>, dir: Text, n: Text)
    requires MarksAbsent(fs, ops) && n != []
    ensures ReplyAfter(fs, ops, Query(dir, Some(n))) == Answer(n in Listing(fs, DirOf(fs, dir)))
    ensures ReplyAfter(fs, ops, AskImpossible(dir, n)) == Answer(MarkedBefore(fs, ops, DirOf(fs, dir), n))
  {
    RunGood(fs, ops);
    Answers(fs, Run(fs, ops), MarksOf(fs, ops), dir, n);
    MarksMean(fs, ops, DirOf(fs, dir), n);
    if Marking(DirOf(fs, dir), n) in MarksOf(fs, ops) {
      AbsentMarks(fs, ops, DirOf(fs, dir), n);
    }
  }

  /** Without that proviso an answer is wrong exactly for listed files still held impossible. */
  lemma AnswersExactly(fs: FileSystem, ops: seq<Operation>, dir: Text, n: Text)
    requires n != []
    ensures var listed := n in Listing(fs, DirOf(fs, dir));
      ReplyAfter(fs, ops, Query(dir, Some(n))) == Answer(listed)
      <==> !(listed && ReplyAfter(fs, ops, AskImpossible(dir, n)) == Answer(true))
  {
    RunGood(fs, ops);
    Answers(fs, Run(fs, ops), MarksOf(fs, ops), dir, n);
  }

  /** A mark on a file hides it from the next query, so marking is harmless exactly if it is absent. */
  lemma MarkingHides(fs: FileSystem, ops: seq<Operation>, dir: Text, n: Text)
    requires n != []
    ensures ReplyAfter(fs, ops + [Impossible(dir, n)], Query(dir, Some(n))) == Answer(false)
  {
    var ops' := ops + [Impossible(dir, n)];
    assert ops'[..|ops'| - 1] == ops;
    RunGood(fs, ops');
    MarkShows(fs, Run(fs, ops), dir, n);
    Answers(fs, Run(fs, ops'), MarksOf(fs, ops'), dir, n);
  }

  lemma MarkShows(fs: FileSystem, c: Cache, dir: Text, n: Text)
    requires Linked(c)
    ensures Apply(fs, Apply(fs, c, Impossible(dir, n)).0, AskImpossible(dir, n)).1 == Answer(true)
  {
    FindAgain(fs, c, dir);
    var (c', id) := Find(fs, c, dir);
    MarkInShows(fs, c', id, dir, n);
  }

  lemma MarkInShows(fs: FileSystem, c: Cache, id: Option<nat>, dir: Text, n: Text)
    requires Linked(c) && dir in c.dirs && c.dirs[dir] == id
    ensures var c' := MarkIn(c, id, dir, n); dir in c'.dirs && IsMarked(c', c'.dirs[dir], n)
  {
  }

  lemma FindAgain(fs: FileSystem, c: Cache, dir: Text)
    requires Linked(c)
    ensures var (c', id) := Find(fs, c, dir); dir in c'.dirs && c'.dirs[dir] == id
  {
  }

  /** The empty name asks for the directory: it can be opened, or something in it was marked. */
  lemma EmptyName(fs: FileSystem, ops: seq<Operation>, dir: Text)
    ensures var d := DirOf(fs, dir);
      ReplyAfter(fs, ops, Query(dir, Some([]))) == Answer(Openable(fs, d) || exists n :: MarkedBefore(fs, ops, d, n))
  {
    RunGood(fs, ops);
    AnswersToEmpty(fs, Run(fs, ops), MarksOf(fs, ops), dir);
    MarkedSomewhere(fs, ops, DirOf(fs, dir));
  }

  /** So one mark turns the answer about a directory that stat does not find. */
  lemma EmptyNameFails(fs: FileSystem, dir: Text, n: Text)
    requires dir !in fs.stat
    ensures ReplyAfter(fs, [], Query(dir, Some([]))) == Answer(false)
    ensures ReplyAfter(fs, [Impossible(dir, n)], Query(dir, Some([]))) == Answer(true)
  {
    EmptyName(fs, [], dir);
    var ops := [Impossible(dir, n)];
    EmptyName(fs, ops, dir);
    assert MarkOf(fs, ops[0]) == {Marking(DirOf(fs, dir), n)};
    assert MarkedBefore(fs, ops, DirOf(fs, dir), n);
  }

  lemma MarkedSomewhere(fs: FileSystem, ops: seq<Operation>, d: Dir)
    ensures HasMark(MarksOf(fs, ops), d) <==> exists n :: MarkedBefore(fs, ops, d, n)
  {
    forall n
      ensures Marking(d, n) in MarksOf(fs, ops) <==> MarkedBefore(fs, ops, d, n)
    {
      MarksMean(fs, ops, d, n);
    }
  }

  /** Globbing sees the whole listing, however much had been read before. */
  lemma ListAgrees(fs: FileSystem, ops: seq<Operation>, dir: Text)
    requires MarksAbsent(fs, ops)
    ensures var d := DirOf(fs, dir);
      ReplyAfter(fs, ops, List(dir))
      == Files(if Openable(fs, d) || exists n :: MarkedBefore(fs, ops, d, n) then Some(Listing(fs, d)) else None)
  {
    RunGood(fs, ops);
    var d, marks := DirOf(fs, dir), MarksOf(fs, ops);
    AnswersToList(fs, Run(fs, ops), marks, dir);
    MarkedSomewhere(fs, ops, d);
    var r := ReplyAfter(fs, ops, List(dir));
    if r.names.Some? {
      forall n | n in Listing(fs, d)
        ensures n in r.names.value
      {
        if Marking(d, n) in marks {
          AbsentMarks(fs, ops, d, n);
        }
      }
      assert r.names.value == Listing(fs, d);
    }
  }
}
