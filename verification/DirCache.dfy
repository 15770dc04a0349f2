/**
 The directory cache: names of directories, shared records of what has been read from each, and a
 bounded number of open streams.  Files are marked impossible in the same tables.
 */
module DirCache {
  import opened CStrings

  const MAX_OPEN_DIRECTORIES := 10

  /** What readdir yields; an entry not in use has inode number zero. */
  datatype Entry = Entry(name: Text, used: bool)

  datatype Inode = Inode(dev: nat, ino: nat)

  /** A snapshot: the directories stat finds, and what those that can be opened list. */
  datatype FileSystem = FileSystem(stat: map<Text, Inode>, listing: map<Inode, seq<Entry>>)

  /** A directory: by device and inode, or by name if stat does not find it. */
  datatype Dir = Known(inode: Inode) | Missing(name: Text)

  function DirOf(fs: FileSystem, name: Text): Dir {
    if name in fs.stat then Known(fs.stat[name]) else Missing(name)
  }

  predicate Openable(fs: FileSystem, d: Dir) {
    d.Known? && d.inode in fs.listing
  }

  function Entries(fs: FileSystem, d: Dir): seq<Entry> {
    if Openable(fs, d) then fs.listing[d.inode] else []
  }

  function Names(es: seq<Entry>): set<Text> {
    set e | e in es && e.used :: e.name
  }

  /** The files of a directory. */
  function Listing(fs: FileSystem, d: Dir): set<Text> {
    Names(Entries(fs, d))
  }

  /**
   A record of what is known of a directory: the table of files with their `impossible` flags, if
   there is one, and what is still to come from the stream, if it is open.
   */
  datatype Contents = Contents(dir: Dir, files: Option<map<Text, bool>>, stream: Option<seq<Entry>>)

  /** The tables; a record is referred to by its index. */
  datatype Cache = Cache(dirs: map<Text, Option<nat>>, byInode: map<Inode, nat>,
                         contents: seq<Contents>, open: int)

  const EMPTY := Cache(map[], map[], [], 0)

  // ----- one record

  datatype Reading = Reading(files: map<Text, bool>, rest: seq<Entry>, found: bool)

  /** Reads entries into the table until the wanted one is seen. */
  function ReadUntil(files: map<Text, bool>, rest: seq<Entry>, want: Option<Text>): Reading
    decreases |rest|
  {
    if rest == [] then Reading(files, [], false)
    else if !rest[0].used then ReadUntil(files, rest[1..], want)
    else if want == Some(rest[0].name) then Reading(files[rest[0].name := false], rest[1..], true)
    else ReadUntil(files[rest[0].name := false], rest[1..], want)
  }

  /** Looks a file up in a record, reading further if need be; without a file, reads everything. */
  function Look(k: Contents, file: Option<Text>): (Contents, bool) {
    if k.files.None? then (k, false)
    else if file == Some([]) then (k, true)
    else if file.Some? && file.value in k.files.value then (k, !k.files.value[file.value])
    else if k.stream.None? then (k, false)
    else
      var r := ReadUntil(k.files.value, k.stream.value, file);
      (Contents(k.dir, Some(r.files), if r.found then Some(r.rest) else None), r.found)
  }

  /** Enters a file as impossible, in a new table if there is none. */
  function Mark(k: Contents, file: Text): Contents {
    var files := if k.files.Some? then k.files.value else map[];
    k.(files := Some(files[file := true]))
  }

  // ----- the tables

  /** Every index is that of a record. */
  predicate Linked(c: Cache) {
    && (forall name :: name in c.dirs && c.dirs[name].Some? ==> c.dirs[name].value < |c.contents|)
    && (forall i :: i in c.byInode ==> c.byInode[i] < |c.contents|)
  }

  function SetRecord(c: Cache, id: nat, k: Contents): Cache
    requires id < |c.contents|
  {
    var closed := if c.contents[id].stream.Some? && k.stream.None? then 1 else 0;
    c.(contents := c.contents[id := k], open := c.open - closed)
  }

  function Exists(c: Cache, id: Option<nat>, file: Option<Text>): (Cache, bool)
    requires id.Some? ==> id.value < |c.contents|
  {
    if id.None? then (c, false)
    else
      var (k, answer) := Look(c.contents[id.value], file);
      (SetRecord(c, id.value, k), answer)
  }

  /** A directory not seen before is entered, and opened; one stream too many is read to its end. */
  function NewRecord(fs: FileSystem, c: Cache, i: Inode): Cache {
    var id := |c.contents|;
    var c' := c.(byInode := c.byInode[i := id]);
    if i !in fs.listing then c'.(contents := c.contents + [Contents(Known(i), None, None)])
    else
      var grown := c'.(contents := c.contents + [Contents(Known(i), Some(map[]), Some(fs.listing[i]))],
                        open := c.open + 1);
      if grown.open == MAX_OPEN_DIRECTORIES then Exists(grown, Some(id), None).0 else grown
  }

  /** The record of an inode. */
  function Record(fs: FileSystem, c: Cache, i: Inode): (Cache, nat) {
    if i in c.byInode then (c, c.byInode[i]) else (NewRecord(fs, c, i), |c.contents|)
  }

  /** The record of a directory by name, none if stat does not find it. */
  function Find(fs: FileSystem, c: Cache, name: Text): (r: (Cache, Option<nat>))
    requires Linked(c)
    ensures Linked(r.0) && (r.1.Some? ==> r.1.value < |r.0.contents|)
  {
    if name in c.dirs then (c, c.dirs[name])
    else if name !in fs.stat then (c.(dirs := c.dirs[name := None]), None)
    else
      var (c', id) := Record(fs, c, fs.stat[name]);
      (c'.(dirs := c'.dirs[name := Some(id)]), Some(id))
  }

  // ----- the operations

  datatype Operation =
    | Query(dir: Text, want: Option<Text>)     // does the file exist; without one, read everything
    | Impossible(dir: Text, file: Text)        // mark it impossible
    | AskImpossible(dir: Text, file: Text)     // has it been marked
    | List(dir: Text)                          // open a stream for globbing

  datatype Reply = Done | Answer(yes: bool) | Files(names: Option<set<Text>>)

  function MarkIn(c: Cache, id: Option<nat>, dir: Text, file: Text): Cache
    requires id.Some? ==> id.value < |c.contents|
  {
    if id.Some? then SetRecord(c, id.value, Mark(c.contents[id.value], file))
    else
      // a record of its own, kept out of the inode table
      c.(dirs := c.dirs[dir := Some(|c.contents|)],
         contents := c.contents + [Mark(Contents(Missing(dir), None, None), file)])
  }

  predicate IsMarked(c: Cache, id: Option<nat>, file: Text)
    requires id.Some? ==> id.value < |c.contents|
  {
    && id.Some?
    && var files := c.contents[id.value].files;
    files.Some? && file in files.value && files.value[file]
  }

  /** The names in a table that are not impossible. */
  function Possible(files: map<Text, bool>): set<Text> {
    set n | n in files && !files[n]
  }

  function ListIn(c: Cache, id: Option<nat>): (Cache, Reply)
    requires id.Some? ==> id.value < |c.contents|
  {
    if id.None? || c.contents[id.value].files.None? then (c, Files(None))
    else
      var c' := Exists(c, id, None).0;
      (c', Files(Some(Possible(c'.contents[id.value].files.value))))
  }

  function Apply(fs: FileSystem, c: Cache, op: Operation): (r: (Cache, Reply))
    requires Linked(c)
    ensures Linked(r.0)
  {
    var (c', id) := Find(fs, c, op.dir);
    match op
    case Query(_, want) =>
      var (c'', answer) := Exists(c', id, want);
      (c'', Answer(answer))
    case Impossible(dir, file) => (MarkIn(c', id, dir, file), Done)
    case AskImpossible(_, file) => (c', Answer(IsMarked(c', id, file)))
    case List(_) => ListIn(c', id)
  }

  /** The tables after any sequence of operations. */
  function Run(fs: FileSystem, ops: seq<Operation>): (c: Cache)
    ensures Linked(c)
    decreases |ops|
  {
    if ops == [] then EMPTY else Apply(fs, Run(fs, ops[..|ops| - 1]), ops[|ops| - 1]).0
  }

  function ReplyAfter(fs: FileSystem, ops: seq<Operation>, op: Operation): Reply {
    Apply(fs, Run(fs, ops), op).1
  }
}
