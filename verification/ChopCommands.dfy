/**
 Splitting a command script into lines.  A newline ends a line unless an odd number of backslashes
 stands before it.
 */
module ChopCommands {
  import opened CStrings

  const COMMANDS_RECURSE: bv8 := 1
  const COMMANDS_SILENT: bv8 := 2
  const COMMANDS_NOERROR: bv8 := 4

  // ----- the split as a function

  /** The number of backslashes just before `e`. */
  function Backslashes(t: Text, e: nat): (n: nat)
    requires e <= |t|
    ensures n <= e
  {
    if e == 0 || t[e - 1] != '\\' then 0 else 1 + Backslashes(t, e - 1)
  }

  predicate Separator(t: Text, e: nat)
    requires e < |t|
  {
    t[e] == '\n' && Backslashes(t, e) % 2 == 0
  }

  /** The first separator at or after `e`, or the end. */
  function LineEnd(t: Text, e: nat): (r: nat)
    requires e <= |t|
    ensures e <= r <= |t| && (r < |t| ==> Separator(t, r))
    ensures forall j :: e <= j < r ==> !Separator(t, j)
    decreases |t| - e
  {
    if e == |t| || Separator(t, e) then e else LineEnd(t, e + 1)
  }

  function Chop(t: Text): seq<Text>
    decreases |t|
  {
    if t == [] then []
    else
      var e := LineEnd(t, 0);
      [t[..e]] + if e == |t| then [] else Chop(t[e + 1..])
  }

  // ----- the split and its inverse

  /** The lines, each with its newline. */
  function Join(ls: seq<Text>): Text {
    if ls == [] then [] else ls[0] + ['\n'] + Join(ls[1..])
  }

  /** Every newline kept in the line follows an odd number of backslashes. */
  predicate Whole(l: Text) {
    forall e :: 0 <= e < |l| ==> !Separator(l, e)
  }

  /** A newline put behind the line would end it. */
  predicate Closed(l: Text) {
    Whole(l) && Backslashes(l, |l|) % 2 == 0
  }

  /** The text ends with a separator. */
  predicate Terminated(t: Text) {
    t == [] || Separator(t, |t| - 1)
  }

  lemma {:induction false} BackslashesPrefix(a: Text, b: Text, e: nat)
    requires e <= |a|
    ensures Backslashes(a + b, e) == Backslashes(a, e)
    decreases e
  {
    if e > 0 && a[e - 1] == '\\' {
      BackslashesPrefix(a, b, e - 1);
    }
  }

  /** A newline stops the count, so a line is judged alone as it is in the text. */
  lemma {:induction false} BackslashesSuffix(a: Text, b: Text, e: nat)
    requires e <= |b| && (a == [] || a[|a| - 1] == '\n')
    ensures Backslashes(a + b, |a| + e) == Backslashes(b, e)
    decreases e
  {
    if e > 0 && b[e - 1] == '\\' {
      BackslashesSuffix(a, b, e - 1);
    }
  }

  lemma LineIsWhole(t: Text, e: nat)
    requires e <= |t| && forall j :: 0 <= j < e ==> !Separator(t, j)
    ensures Whole(t[..e]) && Backslashes(t[..e], e) == Backslashes(t, e)
  {
    assert t == t[..e] + t[e..];
    forall j | 0 <= j <= e
      ensures Backslashes(t[..e], j) == Backslashes(t, j)
    {
      BackslashesPrefix(t[..e], t[e..], j);
    }
    forall j | 0 <= j < e
      ensures !Separator(t[..e], j)
    {
      assert !Separator(t, j) && t[..e][j] == t[j];
      assert Backslashes(t[..e], j) == Backslashes(t, j);
    }
  }

  /** Every line is whole, and all but an unterminated last one are closed. */
  lemma {:induction false} ChopLines(t: Text, i: nat)
    requires i < |Chop(t)|
    ensures Whole(Chop(t)[i])
    ensures i + 1 < |Chop(t)| || Terminated(t) ==> Closed(Chop(t)[i])
    ensures i + 1 == |Chop(t)| && !Terminated(t) ==> Chop(t)[i] != []
    decreases |t|
  {
    var e := LineEnd(t, 0);
    LineIsWhole(t, e);
    if e < |t| {
      TerminatedRest(t, e);
      if i > 0 {
        ChopLines(t[e + 1..], i - 1);
      }
    }
  }

  lemma TerminatedRest(t: Text, e: nat)
    requires e < |t| && Separator(t, e)
    ensures Terminated(t) <==> Terminated(t[e + 1..])
  {
    var rest := t[e + 1..];
    assert t == t[..e + 1] + rest;
    if rest != [] {
      BackslashesSuffix(t[..e + 1], rest, |rest| - 1);
    }
  }

  /** Nothing is lost but a final separator that was not there. */
  lemma {:induction false} JoinChop(t: Text)
    ensures Join(Chop(t)) == if Terminated(t) then t else t + ['\n']
    decreases |t|
  {
    if t != [] {
      var e := LineEnd(t, 0);
      if e < |t| {
        JoinChop(t[e + 1..]);
        JoinFirst(t, e);
      } else {
        assert t[..e] == t && Chop(t)[1..] == [];
        assert t + ['\n'] + [] == t + ['\n'];
      }
    }
  }

  lemma JoinFirst(t: Text, e: nat)
    requires e < |t| && Separator(t, e) && LineEnd(t, 0) == e
    requires var rest := t[e + 1..]; Join(Chop(rest)) == if Terminated(rest) then rest else rest + ['\n']
    ensures Join(Chop(t)) == if Terminated(t) then t else t + ['\n']
  {
    TerminatedRest(t, e);
    JoinCons(t[..e], Chop(t[e + 1..]));
    Regroup(t, e);
  }

  lemma JoinCons(l: Text, ls: seq<Text>)
    ensures Join([l] + ls) == l + ['\n'] + Join(ls)
  {
    assert ([l] + ls)[1..] == ls;
  }

  lemma Regroup(t: Text, e: nat)
    requires e < |t| && t[e] == '\n'
    ensures t[..e] + ['\n'] + t[e + 1..] == t
    ensures t[..e] + ['\n'] + (t[e + 1..] + ['\n']) == t + ['\n']
  {
  }

  /** Lines put together come apart as they were; so the split is the only one of its kind. */
  lemma {:induction false} ChopJoin(ls: seq<Text>, last: Text)
    requires (forall i :: 0 <= i < |ls| ==> Closed(ls[i])) && Whole(last)
    ensures Chop(Join(ls) + last) == ls + if last == [] then [] else [last]
    decreases |ls|
  {
    if ls == [] {
      assert Join(ls) + last == last;
      if last != [] {
        assert LineEnd(last, 0) == |last| && last[..|last|] == last;
      }
    } else {
      var l, rest := ls[0], Join(ls[1..]) + last;
      ChopJoin(ls[1..], last);
      assert Join(ls) + last == l + ['\n'] + rest;
      FirstLine(l, rest);
      assert ls == [l] + ls[1..];
    }
  }

  lemma FirstLine(l: Text, rest: Text)
    requires Closed(l)
    ensures Chop(l + ['\n'] + rest) == [l] + Chop(rest)
  {
    var t := l + ['\n'] + rest;
    assert t == l + (['\n'] + rest);
    forall e | 0 <= e <= |l|
      ensures Backslashes(t, e) == Backslashes(l, e)
    {
      BackslashesPrefix(l, ['\n'] + rest, e);
    }
    assert Separator(t, |l|);
    forall j | 0 <= j < |l|
      ensures !Separator(t, j)
    {
      assert !Separator(l, j) && Backslashes(t, j) == Backslashes(l, j) && t[j] == l[j];
    }
    assert LineEnd(t, 0) == |l|;
    assert t[..|l|] == l && t[|l| + 1..] == rest;
  }

  // ----- the flags of a line

  predicate Leads(c: Char) {
    c == ' ' || c == '\t' || c == '-' || c == '@' || c == '+'
  }

  /** The length of the part of a line that may hold flag characters. */
  function LeadLength(l: Text): (n: nat)
    ensures n <= |l| && (n < |l| ==> !Leads(l[n]))
    ensures forall k :: 0 <= k < n ==> Leads(l[k])
  {
    if l == [] || !Leads(l[0]) then 0 else 1 + LeadLength(l[1..])
  }

  function Lead(l: Text): Text {
    l[..LeadLength(l)]
  }

  predicate OccursAt(l: Text, i: nat, word: Text) {
    i + |word| <= |l| && l[i..i + |word|] == word
  }

  predicate Contains(l: Text, word: Text) {
    exists i :: 0 <= i <= |l| && OccursAt(l, i, word)
  }

  /** A line runs make again: it says so, or it refers to MAKE. */
  predicate Recurses(l: Text) {
    '+' in Lead(l) || Contains(l, "$(MAKE)") || Contains(l, "${MAKE}")
  }

  function Bit(on: bool, flag: bv8): bv8 {
    if on then flag else 0
  }

  function FlagsOf(l: Text): bv8 {
    Bit(Recurses(l), COMMANDS_RECURSE) | Bit('@' in Lead(l), COMMANDS_SILENT) | Bit('-' in Lead(l), COMMANDS_NOERROR)
  }

  /** Each bit stands for one thing. */
  lemma FlagBits(l: Text)
    ensures FlagsOf(l) & COMMANDS_RECURSE == Bit(Recurses(l), COMMANDS_RECURSE)
    ensures FlagsOf(l) & COMMANDS_SILENT == Bit('@' in Lead(l), COMMANDS_SILENT)
    ensures FlagsOf(l) & COMMANDS_NOERROR == Bit('-' in Lead(l), COMMANDS_NOERROR)
  {
  }

  /** strstr, from `from` on. */
  method StrStr(l: Text, from: nat, word: Text) returns (found: bool)
    requires from <= |l|
    ensures found <==> exists i :: from <= i <= |l| && OccursAt(l, i, word)
  {
    var i := from;
    while i <= |l|
      invariant from <= i <= |l| + 1
      invariant forall k :: from <= k < i ==> !OccursAt(l, k, word)
    {
      if i + |word| <= |l| && l[i..i + |word|] == word {
        assert OccursAt(l, i, word);
        return true;
      }
      i := i + 1;
    }
    return false;
  }

  /** A reference to MAKE cannot start among the flag characters. */
  lemma ReferenceBehindLead(l: Text, word: Text)
    requires word != [] && word[0] == '$'
    ensures Contains(l, word) <==> exists i :: LeadLength(l) <= i <= |l| && OccursAt(l, i, word)
  {
    if Contains(l, word) {
      var i :| 0 <= i <= |l| && OccursAt(l, i, word);
      assert l[i] == l[i..i + |word|][0] == '$';
      assert LeadLength(l) <= i;
    }
  }

  method LineFlags(l: Text) returns (flags: bv8)
    ensures flags == FlagsOf(l)
  {
    flags := 0;
    var p := 0;
    while p < |l| && Leads(l[p])
      invariant p <= LeadLength(l)
      invariant flags == Bit('+' in l[..p], COMMANDS_RECURSE) | Bit('@' in l[..p], COMMANDS_SILENT)
                       | Bit('-' in l[..p], COMMANDS_NOERROR)
      decreases |l| - p
    {
      assert l[..p + 1] == l[..p] + [l[p]];
      if l[p] == '+' {
        flags := flags | COMMANDS_RECURSE;
      } else if l[p] == '@' {
        flags := flags | COMMANDS_SILENT;
      } else if l[p] == '-' {
        flags := flags | COMMANDS_NOERROR;
      }
      p := p + 1;
    }
    ReferenceBehindLead(l, "$(MAKE)");
    ReferenceBehindLead(l, "${MAKE}");
    if flags & COMMANDS_RECURSE == 0 {
      var parenthesised := StrStr(l, p, "$(MAKE)");
      var braced := StrStr(l, p, "${MAKE}");
      if parenthesised || braced {
        flags := flags | COMMANDS_RECURSE;
      }
    }
  }

  // ----- chop_commands

  /** The end of the line that starts at `p`. */
  method FindEnd(t: Text, p: nat) returns (end: nat)
    requires p <= |t|
    ensures p <= end <= |t| && end - p == LineEnd(t[p..], 0)
  {
    end := p;
    while true
      invariant p <= end <= |t| && LineEnd(t[p..], 0) == LineEnd(t[p..], end - p)
      decreases |t| - end
    {
      var nl := IndexOf(t, '\n', end);
      SkipToNewline(t[p..], end - p, nl - p);
      if nl == |t| {
        return nl;
      }
      var odd := OddBackslashes(t, p, nl);
      if !odd {
        return nl;
      }
      end := nl + 1;
    }
  }

  /** Whether an odd number of backslashes of the line from `p` on stands before `nl`. */
  method OddBackslashes(t: Text, p: nat, nl: nat) returns (odd: bool)
    requires p <= nl <= |t|
    ensures odd <==> Backslashes(t[p..], nl - p) % 2 == 1
  {
    if nl == p || t[nl - 1] != '\\' {
      return false;
    }
    odd := true;
    var b := nl - 1;
    while b > p && t[b - 1] == '\\'
      invariant p <= b < nl
      invariant Backslashes(t[p..], nl - p) == nl - b + Backslashes(t[p..], b - p)
      invariant odd <==> (nl - b) % 2 == 1
    {
      odd := !odd;
      b := b - 1;
    }
  }

  lemma {:induction false} SkipToNewline(s: Text, i: nat, j: nat)
    requires i <= j <= |s| && forall k :: i <= k < j ==> s[k] != '\n'
    ensures LineEnd(s, i) == LineEnd(s, j)
    decreases j - i
  {
    if i < j {
      SkipToNewline(s, i + 1, j);
    }
  }

  /** The loop over the lines; the array starts with five places and grows by two. */
  method ChopText(t: Text) returns (lines: array<Text>)
    ensures fresh(lines) && lines[..] == Chop(t)
  {
    lines := new Text[5](_ => []);
    var idx, p := 0, 0;
    ghost var done: seq<Text> := [];
    while p < |t|
      invariant 0 <= idx <= lines.Length && p <= |t| && fresh(lines)
      invariant done == lines[..idx] && done + Chop(t[p..]) == Chop(t)
      decreases |t| - p
    {
      var end := FindEnd(t, p);
      lines := Append(lines, idx, t[p..end]);
      OneLine(t, p, end, done);
      done := done + [t[p..end]];
      idx := idx + 1;
      p := if end < |t| then end + 1 else end;
    }
    assert t[p..] == [];
    lines := Resized(lines, idx);
  }

  /** Puts a line into the next place, in a larger array if need be. */
  method Append(a: array<Text>, idx: nat, line: Text) returns (b: array<Text>)
    requires idx <= a.Length
    modifies a
    ensures (b == a || fresh(b)) && idx < b.Length
    ensures b[..idx + 1] == old(a[..idx]) + [line]
  {
    b := a;
    if idx == a.Length {
      b := Resized(a, idx + 2);
    }
    b[idx] := line;
  }

  lemma OneLine(t: Text, p: nat, end: nat, done: seq<Text>)
    requires p < |t| && p <= end <= |t| && end - p == LineEnd(t[p..], 0)
    ensures done + Chop(t[p..]) == done + [t[p..end]] + Chop(t[if end < |t| then end + 1 else end..])
  {
    var rest := Chop(t[if end < |t| then end + 1 else end..]);
    assert t[p..][..end - p] == t[p..end];
    if end < |t| {
      assert t[p..][end - p + 1..] == t[end + 1..];
    }
    assert Chop(t[p..]) == [t[p..end]] + rest;
    assert done + ([t[p..end]] + rest) == done + [t[p..end]] + rest;
  }

  /** xrealloc: a new size, the places in common kept. */
  method Resized(a: array<Text>, n: nat) returns (b: array<Text>)
    ensures fresh(b) && b.Length == n
    ensures n <= a.Length ==> b[..] == a[..n]
    ensures n >= a.Length ==> b[..a.Length] == a[..]
  {
    b := new Text[n](_ => []);
    for k := 0 to if n < a.Length then n else a.Length
      invariant forall j :: 0 <= j < k ==> b[j] == a[j]
    {
      b[k] := a[k];
    }
  }

  predicate AnyRecurses(ls: seq<Text>) {
    exists i :: 0 <= i < |ls| && Recurses(ls[i])
  }

  /** The loop over the lines that sets the flags. */
  method AllFlags(lines: array<Text>) returns (flags: array<bv8>, any: bv8)
    ensures fresh(flags) && flags.Length == lines.Length
    ensures forall i :: 0 <= i < flags.Length ==> flags[i] == FlagsOf(lines[i])
    ensures any == Bit(AnyRecurses(lines[..]), COMMANDS_RECURSE)
  {
    flags, any := new bv8[lines.Length], 0;
    for idx := 0 to lines.Length
      invariant forall i :: 0 <= i < idx ==> flags[i] == FlagsOf(lines[i])
      invariant any == Bit(AnyRecurses(lines[..idx]), COMMANDS_RECURSE)
    {
      flags[idx] := LineFlags(lines[idx]);
      FlagBits(lines[idx]);
      assert lines[..idx + 1] == lines[..idx] + [lines[idx]];
      AnySnoc(lines[..idx], lines[idx]);
      any := any | (flags[idx] & COMMANDS_RECURSE);
    }
    assert lines[..lines.Length] == lines[..];
  }

  lemma AnySnoc(ls: seq<Text>, l: Text)
    ensures AnyRecurses(ls + [l]) <==> AnyRecurses(ls) || Recurses(l)
  {
    var all := ls + [l];
    assert all[|ls|] == l;
    if AnyRecurses(ls) {
      var i :| 0 <= i < |ls| && Recurses(ls[i]);
      assert all[i] == ls[i];
    }
  }

  class Commands {
    var commands: Text
    var lines: array?<Text>
    var flags: array?<bv8>
    var anyRecurse: bv8

    constructor (commands: Text)
      ensures this.commands == commands && lines == null
    {
      this.commands := commands;
      lines, flags, anyRecurse := null, null, 0;
    }
  }

  /** chop_commands; a script that has been chopped is left alone. */
  method ChopCommands(cmds: Commands?)
    modifies cmds
    ensures cmds != null && old(cmds.lines) != null ==> unchanged(cmds)
    ensures cmds != null && old(cmds.lines) == null ==>
      && cmds.commands == old(cmds.commands)
      && cmds.lines != null && fresh(cmds.lines) && cmds.flags != null && fresh(cmds.flags)
      && cmds.lines[..] == Chop(cmds.commands)
      && cmds.flags.Length == cmds.lines.Length
      && (forall i :: 0 <= i < cmds.flags.Length ==> cmds.flags[i] == FlagsOf(cmds.lines[i]))
      && cmds.anyRecurse == Bit(AnyRecurses(cmds.lines[..]), COMMANDS_RECURSE)
  {
    if cmds == null || cmds.lines != null {
      return;
    }
    cmds.lines := ChopText(cmds.commands);
    cmds.flags, cmds.anyRecurse := AllFlags(cmds.lines);
  }
}
