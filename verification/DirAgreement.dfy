/**
 What every sequence of operations on the directory cache keeps, and the theorem about it: however
 much of a directory has been read, an answer is the directory listing's.
 */
module DirAgreement {
  import opened CStrings
  import opened DirCache

  /** A file of a directory that has been marked impossible. */
  datatype Marking = Marking(dir: Dir, file: Text)

  // ----- one record

  function Rest(k: Contents): seq<Entry> {
    if k.stream.Some? then k.stream.value else []
  }

  function Unread(all: seq<Entry>, rest: seq<Entry>): seq<Entry>
    requires |rest| <= |all|
  {
    all[|all| - |rest|..]
  }

  function AlreadyRead(all: seq<Entry>, rest: seq<Entry>): seq<Entry>
    requires |rest| <= |all|
  {
    all[..|all| - |rest|]
  }

  /** The stream is at some place of the listing, and there is one only if it can be opened. */
  ghost predicate StreamGood(fs: FileSystem, k: Contents) {
    && (k.stream.Some? ==> Openable(fs, k.dir))
    && (Openable(fs, k.dir) ==> k.files.Some?)
    && |Rest(k)| <= |Entries(fs, k.dir)| && Unread(Entries(fs, k.dir), Rest(k)) == Rest(k)
  }

  /** All that has been read is in the table; what is in it is listed, or impossible and marked. */
  ghost predicate TableGood(fs: FileSystem, d: Dir, files: map<Text, bool>, rest: seq<Entry>, marks: set<Marking>)
    requires |rest| <= |Entries(fs, d)|
  {
    && (forall n :: n in Names(AlreadyRead(Entries(fs, d), rest)) ==> n in files)
    && (forall n :: n in files ==> if files[n] then Marking(d, n) in marks else n in Listing(fs, d))
    && (forall n :: Marking(d, n) in marks ==> n in files && (files[n] || n in Listing(fs, d)))
    && (files == map[] ==> Openable(fs, d))
  }

  ghost predicate RecordGood(fs: FileSystem, k: Contents, marks: set<Marking>) {
    && StreamGood(fs, k)
    && (k.dir.Missing? ==> k.dir.name !in fs.stat)
    && (if k.files.Some? then TableGood(fs, k.dir, k.files.value, Rest(k), marks)
        else forall n :: Marking(k.dir, n) !in marks)
  }

  predicate Flagged(k: Contents, file: Text) {
    k.files.Some? && file in k.files.value && k.files.value[file]
  }

  lemma NamesSplit(es: seq<Entry>, i: nat)
    requires i <= |es|
    ensures Names(es) == Names(es[..i]) + Names(es[i..])
  {
    assert es == es[..i] + es[i..];
    assert forall e :: e in es <==> e in es[..i] || e in es[i..];
  }

  lemma NamesHead(es: seq<Entry>)
    requires es != []
    ensures Names(es) == (if es[0].used then {es[0].name} else {}) + Names(es[1..])
  {
    assert es[..1] == [es[0]];
    NamesSplit(es, 1);
  }

  /** One entry more has been read than from the entry after it. */
  lemma ReadHead(rest: seq<Entry>, rest': seq<Entry>)
    requires rest != [] && |rest'| < |rest| && Unread(rest[1..], rest') == rest'
    ensures Unread(rest, rest') == rest'
    ensures Names(AlreadyRead(rest, rest'))
         == (if rest[0].used then {rest[0].name} else {}) + Names(AlreadyRead(rest[1..], rest'))
  {
    assert Unread(rest, rest') == Unread(rest[1..], rest');
    NamesHead(AlreadyRead(rest, rest'));
    assert AlreadyRead(rest, rest')[1..] == AlreadyRead(rest[1..], rest');
  }

  /** What reading leaves is the rest of the stream, and the wanted entry is found if it is there. */
  lemma {:induction false} ReadUntilLeaves(files: map<Text, bool>, rest: seq<Entry>, want: Option<Text>)
    ensures var r := ReadUntil(files, rest, want);
      && |r.rest| <= |rest| && Unread(rest, r.rest) == r.rest
      && (!r.found ==> r.rest == [])
      && (r.found <==> want.Some? && want.value in Names(rest))
    decreases |rest|
  {
    if rest != [] {
      NamesHead(rest);
      var files' := if rest[0].used then files[rest[0].name := false] else files;
      if !rest[0].used || want != Some(rest[0].name) {
        ReadUntilLeaves(files', rest[1..], want);
        ReadHead(rest, ReadUntil(files', rest[1..], want).rest);
      }
    }
  }

  /** The table after reading: flags of what was read are cleared, the others are as they were. */
  ghost predicate Entered(files: map<Text, bool>, names: set<Text>, files': map<Text, bool>) {
    && (forall n :: n in files' <==> n in files || n in names)
    && (forall n :: n in files' ==> files'[n] == (n in files && files[n] && n !in names))
  }

  lemma {:induction false} ReadUntilEnters(files: map<Text, bool>, rest: seq<Entry>, want: Option<Text>)
    ensures var r := ReadUntil(files, rest, want);
      |r.rest| <= |rest| && Entered(files, Names(AlreadyRead(rest, r.rest)), r.files)
    decreases |rest|
  {
    if rest == [] {
      assert AlreadyRead(rest, []) == [];
    } else {
      var files' := if rest[0].used then files[rest[0].name := false] else files;
      if rest[0].used && want == Some(rest[0].name) {
        ReadHead(rest, rest[1..]);
        assert AlreadyRead(rest[1..], rest[1..]) == [];
      } else {
        ReadUntilEnters(files', rest[1..], want);
        ReadUntilLeaves(files', rest[1..], want);
        ReadHead(rest, ReadUntil(files', rest[1..], want).rest);
      }
    }
  }

  /** Reading moves entries from the stream to the table, and misses none. */
  lemma ReadUntilMeans(files: map<Text, bool>, rest: seq<Entry>, want: Option<Text>)
    ensures var r := ReadUntil(files, rest, want);
      && |r.rest| <= |rest| && Unread(rest, r.rest) == r.rest
      && (forall n :: n in r.files <==> n in files || n in Names(AlreadyRead(rest, r.rest)))
      && (forall n :: n in r.files ==>
            r.files[n] == (n in files && files[n] && n !in Names(AlreadyRead(rest, r.rest))))
      && (!r.found ==> r.rest == [])
      && (r.found <==> want.Some? && want.value in Names(rest))
  {
    ReadUntilLeaves(files, rest, want);
    ReadUntilEnters(files, rest, want);
  }

  /** Further along the same stream. */
  lemma ReadOn(all: seq<Entry>, rest: seq<Entry>, rest': seq<Entry>)
    requires |rest'| <= |rest| <= |all| && Unread(all, rest) == rest && Unread(rest, rest') == rest'
    ensures Unread(all, rest') == rest'
    ensures Names(AlreadyRead(all, rest')) == Names(AlreadyRead(all, rest)) + Names(AlreadyRead(rest, rest'))
    ensures Names(AlreadyRead(rest, rest')) <= Names(all)
  {
    var at := |all| - |rest|;
    assert Unread(all, rest') == Unread(rest, rest');
    assert AlreadyRead(all, rest')[..at] == AlreadyRead(all, rest);
    assert AlreadyRead(all, rest')[at..] == AlreadyRead(rest, rest');
    NamesSplit(AlreadyRead(all, rest'), at);
    NamesSplit(all, |all| - |rest'|);
  }

  /** Reading on from a good record leaves it good. */
  lemma ReadKeepsTable(fs: FileSystem, d: Dir, files: map<Text, bool>, rest: seq<Entry>, want: Option<Text>,
                       marks: set<Marking>)
    requires |rest| <= |Entries(fs, d)| && Unread(Entries(fs, d), rest) == rest
    requires Openable(fs, d) && TableGood(fs, d, files, rest, marks)
    ensures var r := ReadUntil(files, rest, want);
      && |r.rest| <= |Entries(fs, d)| && Unread(Entries(fs, d), r.rest) == r.rest
      && TableGood(fs, d, r.files, r.rest, marks)
  {
    ReadUntilMeans(files, rest, want);
    ReadOn(Entries(fs, d), rest, ReadUntil(files, rest, want).rest);
  }

  /** The case in which a lookup reads on. */
  lemma ReadingKeeps(fs: FileSystem, k: Contents, file: Option<Text>, marks: set<Marking>)
    requires RecordGood(fs, k, marks) && k.files.Some? && k.stream.Some?
    ensures var r := ReadUntil(k.files.value, k.stream.value, file);
      RecordGood(fs, Contents(k.dir, Some(r.files), if r.found then Some(r.rest) else None), marks)
  {
    ReadKeepsTable(fs, k.dir, k.files.value, k.stream.value, file, marks);
    ReadUntilMeans(k.files.value, k.stream.value, file);
  }

  /** The lookup finds its answer in the table, or has nothing to read. */
  predicate NeedsNothing(k: Contents, file: Option<Text>) {
    || k.files.None? || k.stream.None?
    || (file.Some? && (file.value == [] || file.value in k.files.value))
  }

  lemma LookLeaves(k: Contents, file: Option<Text>)
    ensures NeedsNothing(k, file) ==> Look(k, file).0 == k
    ensures !NeedsNothing(k, file) ==>
      var r := ReadUntil(k.files.value, k.stream.value, file);
      Look(k, file).0 == Contents(k.dir, Some(r.files), if r.found then Some(r.rest) else None)
  {
  }

  lemma LookKeeps(fs: FileSystem, k: Contents, file: Option<Text>, marks: set<Marking>)
    requires RecordGood(fs, k, marks)
    ensures RecordGood(fs, Look(k, file).0, marks)
  {
    LookLeaves(k, file);
    if !NeedsNothing(k, file) {
      ReadingKeeps(fs, k, file, marks);
    }
  }

  lemma LookCloses(k: Contents, file: Option<Text>)
    requires k.stream.Some? ==> k.files.Some?
    ensures Look(k, file).0.dir == k.dir
    ensures k.stream.None? || file.None? ==> Look(k, file).0.stream.None?
  {
    if k.stream.Some? {
      ReadUntilLeaves(k.files.value, k.stream.value, file);
    }
  }

  lemma LookAnswers(fs: FileSystem, k: Contents, file: Text, marks: set<Marking>)
    requires RecordGood(fs, k, marks) && file != []
    ensures Look(k, Some(file)).1 == (file in Listing(fs, k.dir) && !Flagged(k, file))
  {
    if k.files.Some? {
      NamesSplit(Entries(fs, k.dir), |Entries(fs, k.dir)| - |Rest(k)|);
      if k.stream.Some? {
        ReadUntilMeans(k.files.value, k.stream.value, Some(file));
      }
    }
  }

  /** A lookup: what it answers, and what it leaves. */
  lemma LookGood(fs: FileSystem, k: Contents, file: Option<Text>, marks: set<Marking>)
    requires RecordGood(fs, k, marks)
    ensures RecordGood(fs, Look(k, file).0, marks) && Look(k, file).0.dir == k.dir
    ensures file.Some? && file.value != [] ==>
      Look(k, file).1 == (file.value in Listing(fs, k.dir) && !Flagged(k, file.value))
    ensures file == Some([]) ==> Look(k, file).1 == k.files.Some?
    ensures k.stream.None? || file.None? ==> Look(k, file).0.stream.None?
  {
    LookKeeps(fs, k, file, marks);
    LookCloses(k, file);
    if file.Some? && file.value != [] {
      LookAnswers(fs, k, file.value, marks);
    }
  }

  /** After everything has been read the table holds the listing and the marks. */
  lemma TableComplete(fs: FileSystem, k: Contents, marks: set<Marking>)
    requires RecordGood(fs, k, marks) && k.files.Some? && k.stream.None?
    ensures Possible(k.files.value) == set n | n in Listing(fs, k.dir) && !Flagged(k, n)
  {
    var all := Entries(fs, k.dir);
    assert AlreadyRead(all, []) == all;
  }

  /** A mark on a record. */
  lemma MarkGood(fs: FileSystem, k: Contents, file: Text, marks: set<Marking>)
    requires RecordGood(fs, k, marks)
    ensures RecordGood(fs, Mark(k, file), marks + {Marking(k.dir, file)})
    ensures Flagged(Mark(k, file), file)
  {
    var marks' := marks + {Marking(k.dir, file)};
    var files := if k.files.Some? then k.files.value else map[];
    assert file in files[file := true];
    if k.files.None? {
      assert Entries(fs, k.dir) == [];
    }
  }
}
