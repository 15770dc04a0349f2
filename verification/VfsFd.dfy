/**
 The descriptor table: a partial map from small numbers to records, with the largest number in
 use kept beside it.
 */
module VfsFd {
  import opened CStrings

  /** The largest size_t. */
  const SIZE_MAX := 0xFFFF_FFFF_FFFF_FFFF

  /** A table entry; pointers are numbers, NULL is zero. */
  datatype Record = Record(dirp: int, extfd: int, extdirp: int, driver: int, path: Option<Text>)

  const EMPTY := Record(0, -1, 0, 0, None)

  predicate Used(r: Record) {
    r.extfd >= 0
  }

  /** The handle alloc_dirp makes for slot `fd`. */
  function Handle(fd: nat): int {
    -1 - fd
  }

  /** `t` is the largest index in use. */
  predicate IsTop(s: seq<Record>, t: nat) {
    t < |s| && Used(s[t]) && forall j :: t < j < |s| ==> !Used(s[j])
  }

  /** `k` is the least index not in use. */
  predicate IsLeastFree(s: seq<Record>, k: nat) {
    k < |s| && !Used(s[k]) && forall j :: 0 <= j < k ==> Used(s[j])
  }

  predicate AllUsed(s: seq<Record>) {
    forall j :: 0 <= j < |s| ==> Used(s[j])
  }

  /** Slots not in use are empty, and a slot's handle is its own or none. */
  predicate Clean(s: seq<Record>) {
    forall j :: 0 <= j < |s| ==> (!Used(s[j]) ==> s[j] == EMPTY) && (s[j].dirp == 0 || s[j].dirp == Handle(j))
  }

  lemma TopUnique(s: seq<Record>, t: nat, u: nat)
    requires IsTop(s, t) && IsTop(s, u)
    ensures t == u
  {
  }

  datatype Resolved = Found(record: Record) | BadFd | PastTable

  /** The table with one slot emptied. */
  function Freed(s: seq<Record>, fd: int): seq<Record> {
    if 0 <= fd < |s| && Used(s[fd]) then s[fd := EMPTY] else s
  }

  class FdTable {
    const table: array<Record>
    var top: nat

    /** init_fd: the three standard descriptors on the system driver. */
    constructor (size: nat, system: int)
      requires 3 < size < SIZE_MAX
      ensures Valid() && TopRight() && fresh(table) && table.Length == size && top == 2
      ensures forall j :: 0 <= j < size ==> table[j] == if j < 3 then Record(0, j, 0, system, None) else EMPTY
    {
      table := new Record[size](j => if 0 <= j < 3 then Record(0, j, 0, system, None) else EMPTY);
      top := 2;
    }

    /** The table is clean, and `top` is the largest index in use unless it has wrapped around. */
    predicate Valid()
      reads this, table
    {
      table.Length < SIZE_MAX && Clean(table[..]) && (TopRight() || top == SIZE_MAX)
    }

    predicate TopRight()
      reads this, table
    {
      IsTop(table[..], top)
    }

    /** The loop of alloc_fd and alloc_dirp: the first slot not in use, or the table size. */
    method FirstFree() returns (fd: nat)
      ensures fd <= table.Length
      ensures if fd < table.Length then IsLeastFree(table[..], fd) else AllUsed(table[..])
    {
      fd := 0;
      while fd != table.Length && table[fd].extfd >= 0
        invariant fd <= table.Length
        invariant forall j :: 0 <= j < fd ==> Used(table[j])
        decreases table.Length - fd
      {
        fd := fd + 1;
      }
    }

    /** alloc_fd; `path` is the absolute form of the name. */
    method AllocFd(path: Option<Text>, extfd: int, driver: int) returns (fd: int)
      requires Valid() && extfd >= 0
      modifies this, table
      ensures Valid() && TopRight() == old(TopRight())
      ensures fd == -1 <==> AllUsed(old(table[..]))
      ensures fd == -1 ==> table[..] == old(table[..]) && top == old(top)
      ensures fd != -1 ==>
        && 0 <= fd < table.Length && IsLeastFree(old(table[..]), fd)
        && table[..] == old(table[..])[fd := Record(0, extfd, 0, driver, path)]
        && top == if old(top) < fd then fd else old(top)
    {
      fd := FirstFree();
      if fd == table.Length {
        return -1;
      }
      table[fd] := Record(0, extfd, 0, driver, path);
      if top < fd {
        top := fd;
      }
    }

    /** alloc_dirp; `extfd` is what the driver says is the descriptor of the directory stream. */
    method AllocDirp(path: Option<Text>, extdirp: int, extfd: int, driver: int) returns (dirp: int)
      requires Valid() && extfd >= 0
      modifies this, table
      ensures Valid() && TopRight() == old(TopRight())
      ensures dirp == 0 <==> AllUsed(old(table[..]))
      ensures dirp == 0 ==> table[..] == old(table[..]) && top == old(top)
      ensures dirp != 0 ==>
        var fd := -1 - dirp;
        && 0 <= fd < table.Length && IsLeastFree(old(table[..]), fd)
        && table[..] == old(table[..])[fd := Record(dirp, extfd, extdirp, driver, path)]
        && top == if old(top) < fd then fd else old(top)
    {
      var fd := FirstFree();
      if fd == table.Length {
        return 0;
      }
      table[fd] := Record(Handle(fd), extfd, extdirp, driver, path);
      if top < fd {
        top := fd;
      }
      dirp := Handle(fd);
    }

    /**
     free_fd; says whether it reads past the table, which the range test lets it do.  `top` stays
     right exactly as long as some slot is in use; when none is left the loop takes it below zero,
     and once it has wrapped around it stays there.
     */
    method FreeFd(fd: int) returns (past: bool)
      requires Valid()
      modifies this, table
      ensures Valid() && past == (fd == table.Length)
      ensures table[..] == Freed(old(table[..]), fd)
      ensures TopRight() <==> old(TopRight()) && exists j :: 0 <= j < table.Length && Used(table[j])
    {
      if fd < 0 || fd > table.Length {
        return false;
      }
      if fd == table.Length {
        return true;
      }
      if table[fd].extfd < 0 {
        return false;
      }
      table[fd] := EMPTY;
      if top == fd {
        var i := top + 1;
        while i > 0
          invariant 0 <= i <= fd + 1 && top == (if i == 0 then SIZE_MAX else i - 1)
          invariant table[..] == old(table[..])[fd := EMPTY]
          invariant forall j :: i <= j < table.Length ==> !Used(table[j])
        {
          if table[i - 1].extfd >= 0 {
            break;
          }
          top := if top == 0 then SIZE_MAX else top - 1;
          i := i - 1;
        }
      } else {
        assert old(TopRight()) ==> Used(table[top]);
      }
      return false;
    }

    /** resolve, by descriptor; the range test again lets the table size through. */
    method Resolve(fd: int) returns (r: Resolved)
      ensures r == if fd == table.Length then PastTable else if 0 <= fd < table.Length then Found(table[fd]) else BadFd
    {
      if fd < 0 || fd > table.Length {
        return BadFd;
      }
      if fd == table.Length {
        return PastTable;
      }
      r := Found(table[fd]);
    }

    /** resolve, by directory handle: the first slot that has it. */
    method ResolveDir(dirp: int) returns (fd: int)
      requires Valid()
      ensures fd == -1 ==> forall j :: 0 <= j < table.Length ==> table[j].dirp != dirp
      ensures fd != -1 ==> 0 <= fd < table.Length && table[fd].dirp == dirp
      ensures dirp < 0 && -1 - dirp < table.Length && table[-1 - dirp].dirp == dirp ==> fd == -1 - dirp
    {
      var i := 0;
      while i != table.Length
        invariant 0 <= i <= table.Length
        invariant forall j :: 0 <= j < i ==> table[j].dirp != dirp
      {
        if table[i].dirp == dirp {
          return i;
        }
        i := i + 1;
      }
      fd := -1;
    }

    /**
     pipe: `fds` is what the system's pipe gave.  Two distinct slots are bound, or the table and
     its top are as they were.
     */
    method Pipe(fds: Option<(int, int)>, system: int) returns (r: Option<(int, int)>)
      requires Valid() && (fds.Some? ==> fds.value.0 >= 0 && fds.value.1 >= 0)
      modifies this, table
      ensures Valid() && TopRight() == old(TopRight())
      ensures r.None? ==> table[..] == old(table[..]) && top == old(top)
      ensures r.None? && fds.Some? ==> forall i, j :: 0 <= i < j < table.Length ==> Used(table[i]) || Used(table[j])
      ensures r.Some? ==> fds.Some? && PipeBound(old(table[..]), table[..], fds.value, r.value, system)
    {
      if fds.None? {
        return None;
      }
      ghost var before, top0 := table[..], top;
      var first := AllocFd(None, fds.value.0, system);
      if first == -1 {
        return None;
      }
      ghost var middle := table[..];
      var second := AllocFd(None, fds.value.1, system);
      if second == -1 {
        var _ := FreeFd(first);
        assert middle[first := EMPTY] == before;
        if old(TopRight()) {
          assert Used(table[top0]) by { assert before[top0] == table[..][top0]; }
          TopUnique(before, top, top0);
        }
        return None;
      }
      r := Some((first, second));
    }
  }

  /** Closing the three standard descriptors wraps the top around, and a new descriptor does not bring it back. */
  method CloseStandard(size: nat, system: int, extfd: int) returns (t: FdTable, fd: int)
    requires 3 < size < SIZE_MAX && extfd >= 0
    ensures fresh(t) && t.Valid() && t.table.Length == size && fd == 0 && Used(t.table[0]) && t.top == SIZE_MAX
  {
    t := new FdTable(size, system);
    var _ := t.FreeFd(2);
    var _ := t.FreeFd(1);
    var _ := t.FreeFd(0);
    ghost var s := t.table[..];
    assert forall j :: 0 <= j < size ==> !Used(s[j]);
    assert !t.TopRight() && !Used(s[0]);
    fd := t.AllocFd(None, extfd, system);
  }

  /** The two ends of a pipe took the two least free slots. */
  predicate PipeBound(before: seq<Record>, after: seq<Record>, fds: (int, int), ends: (int, int), system: int) {
    && 0 <= ends.0 < |before| && IsLeastFree(before, ends.0)
    && var middle := before[ends.0 := Record(0, fds.0, 0, system, None)];
       && 0 <= ends.1 < |before| && ends.1 != ends.0 && IsLeastFree(middle, ends.1)
       && after == middle[ends.1 := Record(0, fds.1, 0, system, None)]
  }
}
