/** The directory cache as make keeps it: tables updated in place. */
module DirTable {
  import opened CStrings
  import opened DirCache
  import opened DirAgreement
  import opened DirRuns

  /** The index after the last slash, zero if there is none. */
  function AfterSlash(path: Text): (k: nat)
    ensures k <= |path| && (k > 0 ==> path[k - 1] == '/')
    ensures forall j :: k <= j < |path| ==> path[j] != '/'
  {
    if path == [] then 0
    else if path[|path| - 1] == '/' then |path|
    else AfterSlash(path[..|path| - 1])
  }

  /** The directory a path names a file of; without a slash it is the current one. */
  function DirPart(path: Text): Text {
    var k := AfterSlash(path);
    if k == 0 then "." else if k == 1 then "/" else path[..k - 1]
  }

  function FilePart(path: Text): Text {
    path[AfterSlash(path)..]
  }

  class DirectoryTable {
    const fs: FileSystem
    var directories: map<Text, Option<nat>>
    var byInode: map<Inode, nat>
    var contents: seq<Contents>
    var openDirectories: int
    ghost var marks: set<Marking>

    ghost function State(): Cache
      reads this
    {
      Cache(directories, byInode, contents, openDirectories)
    }

    ghost predicate Valid()
      reads this
    {
      Good(fs, State(), marks)
    }

    constructor (fs: FileSystem)
      ensures this.fs == fs && Valid() && marks == {} && State() == EMPTY
    {
      this.fs := fs;
      directories, byInode, contents, openDirectories := map[], map[], [], 0;
      marks := {};
    }

    /** dir_contents_file_exists_p; no file asks for the whole directory to be read. */
    method ContentsFileExists(id: Option<nat>, file: Option<Text>) returns (yes: bool)
      requires id.Some? ==> id.value < |contents|
      modifies `contents, `openDirectories
      ensures (State(), yes) == Exists(old(State()), id, file)
    {
      if id.None? {
        return false;
      }
      var k := contents[id.value];
      if k.files.None? {
        assert contents[id.value := k] == contents;
        return false;
      }
      if file.Some? {
        assert contents[id.value := k] == contents;
        if file.value == [] {
          return true;
        }
        if file.value in k.files.value {
          return !k.files.value[file.value];
        }
      }
      if k.stream.None? {
        assert contents[id.value := k] == contents;
        return false;
      }
      var files, rest := k.files.value, k.stream.value;
      while rest != []
        invariant ReadUntil(files, rest, file) == ReadUntil(k.files.value, k.stream.value, file)
        invariant contents == old(contents) && openDirectories == old(openDirectories)
      {
        var d := rest[0];
        rest := rest[1..];
        if d.used {
          files := files[d.name := false];
          if file == Some(d.name) {
            contents := contents[id.value := Contents(k.dir, Some(files), Some(rest))];
            return true;
          }
        }
      }
      openDirectories := openDirectories - 1;
      contents := contents[id.value := Contents(k.dir, Some(files), None)];
      return false;
    }

    /** The part of find_directory for a directory whose inode is new. */
    method EnterContents(i: Inode)
      modifies `byInode, `contents, `openDirectories
      ensures State() == NewRecord(fs, old(State()), i)
    {
      var id := |contents|;
      byInode := byInode[i := id];
      if i !in fs.listing {
        contents := contents + [Contents(Known(i), None, None)];
      } else {
        contents := contents + [Contents(Known(i), Some(map[]), Some(fs.listing[i]))];
        openDirectories := openDirectories + 1;
        if openDirectories == MAX_OPEN_DIRECTORIES {
          var _ := ContentsFileExists(Some(id), None);
        }
      }
    }

    /** find_directory. */
    method FindDirectory(name: Text) returns (id: Option<nat>)
      requires Linked(State())
      modifies `directories, `byInode, `contents, `openDirectories
      ensures (State(), id) == Find(fs, old(State()), name)
    {
      if name in directories {
        return directories[name];
      }
      if name !in fs.stat {
        directories := directories[name := None];
        return None;
      }
      var i := fs.stat[name];
      if i in byInode {
        id := Some(byInode[i]);
      } else {
        id := Some(|contents|);
        EnterContents(i);
      }
      directories := directories[name := id];
    }

    /** dir_file_exists_p. */
    method DirFileExists(dir: Text, file: Option<Text>) returns (yes: bool)
      requires Valid()
      modifies this
      ensures Valid() && marks == old(marks)
      ensures (State(), Answer(yes)) == Apply(fs, old(State()), Query(dir, file))
      ensures file.Some? && file.value != [] && Marking(DirOf(fs, dir), file.value) !in marks ==>
        yes == (file.value in Listing(fs, DirOf(fs, dir)))
    {
      ApplyGood(fs, State(), marks, Query(dir, file));
      assert marks + {} == marks;
      if file.Some? {
        Answers(fs, State(), marks, dir, file.value);
      }
      var id := FindDirectory(dir);
      yes := ContentsFileExists(id, file);
    }

    /** file_exists_p. */
    method FileExists(path: Text) returns (yes: bool)
      requires Valid()
      modifies this
      ensures Valid() && marks == old(marks)
      ensures (State(), Answer(yes)) == Apply(fs, old(State()), Query(DirPart(path), Some(FilePart(path))))
      ensures FilePart(path) != [] && Marking(DirOf(fs, DirPart(path)), FilePart(path)) !in marks ==>
        yes == (FilePart(path) in Listing(fs, DirOf(fs, DirPart(path))))
    {
      yes := DirFileExists(DirPart(path), Some(FilePart(path)));
    }

    /** file_impossible. */
    method FileImpossible(path: Text)
      requires Valid()
      modifies this
      ensures Valid() && marks == old(marks) + {Marking(DirOf(fs, DirPart(path)), FilePart(path))}
      ensures State() == Apply(fs, old(State()), Impossible(DirPart(path), FilePart(path))).0
    {
      var dir, file := DirPart(path), FilePart(path);
      ApplyGood(fs, State(), marks, Impossible(dir, file));
      var id := FindDirectory(dir);
      MarkContents(id, dir, file);
      marks := marks + {Marking(DirOf(fs, dir), file)};
    }

    /** The part of file_impossible that enters the file. */
    method MarkContents(found: Option<nat>, dir: Text, file: Text)
      requires found.Some? ==> found.value < |contents|
      modifies `directories, `contents
      ensures State() == MarkIn(old(State()), found, dir, file)
    {
      var id := found;
      if id.None? {
        id := Some(|contents|);
        directories := directories[dir := id];
        contents := contents + [Contents(Missing(dir), None, None)];
      }
      var k := contents[id.value];
      if k.files.None? {
        k := k.(files := Some(map[]));
      }
      k := k.(files := Some(k.files.value[file := true]));
      contents := contents[id.value := k];
    }

    /** file_impossible_p. */
    method FileImpossibleP(path: Text) returns (yes: bool)
      requires Valid()
      modifies this
      ensures Valid() && marks == old(marks)
      ensures (State(), Answer(yes)) == Apply(fs, old(State()), AskImpossible(DirPart(path), FilePart(path)))
      ensures FilePart(path) !in Listing(fs, DirOf(fs, DirPart(path))) ==>
        yes == (Marking(DirOf(fs, DirPart(path)), FilePart(path)) in marks)
    {
      Answers(fs, State(), marks, DirPart(path), FilePart(path));
      ApplyGood(fs, State(), marks, AskImpossible(DirPart(path), FilePart(path)));
      assert marks + {} == marks;
      var id := FindDirectory(DirPart(path));
      if id.None? || contents[id.value].files.None? {
        return false;
      }
      var files := contents[id.value].files.value;
      return FilePart(path) in files && files[FilePart(path)];
    }

    /** open_dirstream, with all that read_dirstream then yields. */
    method OpenDirstream(dir: Text) returns (names: Option<set<Text>>)
      requires Valid()
      modifies this
      ensures Valid() && marks == old(marks)
      ensures (State(), Files(names)) == Apply(fs, old(State()), List(dir))
      ensures names.Some? <==> Openable(fs, DirOf(fs, dir)) || HasMark(marks, DirOf(fs, dir))
      ensures names.Some? ==> names.value <= Listing(fs, DirOf(fs, dir))
      ensures names.Some? ==> forall n :: n in Listing(fs, DirOf(fs, dir)) && n !in names.value ==>
        Marking(DirOf(fs, dir), n) in marks
    {
      AnswersToList(fs, State(), marks, dir);
      ApplyGood(fs, State(), marks, List(dir));
      assert marks + {} == marks;
      var id := FindDirectory(dir);
      if id.None? || contents[id.value].files.None? {
        return None;
      }
      var _ := ContentsFileExists(id, None);
      names := Some(Possible(contents[id.value].files.value));
    }
  }
}
