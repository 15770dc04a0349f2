/**
 The expander as make runs it: one growable output buffer that nested expansions put aside and
 restore, offsets into it instead of pointers, and an `expanding` flag on each variable.  Every
 method is proved to compute what the pure expansion says.
 */
module MakeBuffer {
  import opened CStrings
  import opened MakeExpand

  /** Spare bytes guaranteed after each output. */
  const VARIABLE_BUFFER_ZONE := 5

  datatype Outcome = Done(at: nat) | Died(error: Error)

  /** Plain text, then a reference that emits `emitted`, then the rest. */
  lemma ExpandAtDollar(env: Env, busy: set<Text>, p: Text, emitted: Text, rest: Text)
    requires IndexOf(p, '$', 0) < |p|
    requires DollarWith(env, Values(env, busy), p[IndexOf(p, '$', 0) + 1..])
          == Then(Ok(emitted), Expand(env, busy, rest))
    ensures Expand(env, busy, p) == Then(Ok(p[..IndexOf(p, '$', 0)] + emitted), Expand(env, busy, rest))
  {
    ThenAssociative(p[..IndexOf(p, '$', 0)], emitted, Expand(env, busy, rest));
  }

  lemma Associative(a: seq<char>, b: seq<char>, c: seq<char>)
    ensures a + b + c == a + (b + c)
  {
  }

  lemma Regroup(a: seq<char>, b: seq<char>, c: seq<char>, d: seq<char>)
    ensures a + b + [] + c + d == a + (b + c) + d
  {
  }

  lemma ExpandPlain(env: Env, busy: set<Text>, p: Text)
    requires IndexOf(p, '$', 0) == |p|
    ensures Expand(env, busy, p) == Ok(p) == Then(Ok(p), Expand(env, busy, []))
  {
    ExpandNothing(env, busy, p);
  }

  lemma ExpandNothing(env: Env, busy: set<Text>, t: Text)
    ensures Then(Ok(t), Expand(env, busy, [])) == Ok(t)
  {
    assert t + [] == t;
  }

  lemma DieAtDollar(env: Env, busy: set<Text>, p: Text, e: Error)
    requires IndexOf(p, '$', 0) < |p|
    requires DollarWith(env, Values(env, busy), p[IndexOf(p, '$', 0) + 1..]) == Fatal(e)
    ensures Expand(env, busy, p) == Fatal(e)
  {
  }

  class Expander {
    const env: Env
    var buffer: array?<char>     // variable_buffer
    var length: nat              // variable_buffer_length
    var expanding: set<Text>     // the variables whose `expanding` flag is set

    constructor (env: Env)
      ensures this.env == env && buffer == null && expanding == {} && Valid()
    {
      this.env := env;
      buffer := null;
      length := 0;
      expanding := {};
    }

    ghost predicate Valid()
      reads this
    {
      buffer != null ==> buffer.Length == length
    }

    /** The buffer holds exactly `bytes` before offset `n`. */
    ghost predicate Holds(n: nat, bytes: seq<char>)
      reads this, buffer
    {
      Valid() && buffer != null && n == |bytes| <= length && buffer[..n] == bytes
    }

    lemma HoldsLess(n: nat, bytes: seq<char>, more: seq<char>)
      requires n == |bytes| && Holds(n + |more|, bytes + more)
      ensures Holds(n, bytes)
    {
      assert (bytes + more)[..n] == bytes;
      assert buffer[..n + |more|][..n] == buffer[..n];
    }

    /** variable_buffer_output: append `text` at offset `at`, growing the buffer if need be. */
    method VariableBufferOutput(at: nat, text: seq<char>, ghost before: seq<char>) returns (end: nat)
      requires Holds(at, before)
      modifies this`buffer, this`length, buffer
      ensures Holds(end, before + text) && (buffer == old(buffer) || fresh(buffer))
      ensures end + VARIABLE_BUFFER_ZONE <= length
    {
      var newlen := |text| + at;
      if newlen + VARIABLE_BUFFER_ZONE > length {
        length := if newlen + 100 > 2 * length then newlen + 100 else 2 * length;
        var grown := new char[length];
        forall i | 0 <= i < buffer.Length {
          grown[i] := buffer[i];
        }
        buffer := grown;
      }
      forall i | 0 <= i < |text| {
        buffer[at + i] := text[i];
      }
      end := at + |text|;
    }

    /** initialize_variable_output. */
    method InitializeVariableOutput() returns (at: nat)
      requires Valid()
      modifies this`buffer, this`length
      ensures Holds(at, [])
      ensures old(buffer) != null ==> buffer == old(buffer) && length == old(length)
      ensures old(buffer) == null ==> fresh(buffer) && length == 200
    {
      if buffer == null {
        length := 200;
        buffer := new char[length];
        buffer[0] := '\0';
      }
      at := 0;
    }

    /** Reads back the C string at `at`. */
    method ReadString(at: nat, ghost s: Text, ghost before: seq<char>) returns (r: Text)
      requires at == |before| && Holds(at + |s| + 1, before + s + ['\0'])
      ensures r == s
    {
      r := [];
      var k := at;
      ghost var all := before + s + ['\0'];
      assert forall i :: 0 <= i < |all| ==> buffer[i] == all[i];
      while buffer[k] != '\0'
        invariant at <= k <= at + |s|
        invariant r == s[..k - at]
        decreases at + |s| - k
      {
        r := r + [buffer[k]];
        k := k + 1;
      }
    }

    /** The bracket-counting loop: stops at the closing bracket, with a negative count, or at the end. */
    static method CountBrackets(t: Text, open: char, close: char) returns (p: nat, count: int)
      requires t != [] && open != close
      ensures 1 <= p <= |t| && -1 <= count
      ensures p == MatchClose(t, open, close, 1, 0)
      ensures count < 0 <==> p < |t|
    {
      p, count := 1, 0;
      while p < |t|
        invariant 1 <= p <= |t| && 0 <= count
        invariant MatchClose(t, open, close, 1, 0) == MatchClose(t, open, close, p, count)
      {
        if t[p] == open {
          count := count + 1;
        } else if t[p] == close {
          count := count - 1;
          if count < 0 {
            break;
          }
        }
        p := p + 1;
      }
    }

    /**
     variable_expand_string: scan `text` (its first `len` characters, or all of it when `len` is
     negative) and write the expansion at `line`, or at the start of the buffer.
     */
    method VariableExpandString(line: Option<nat>, text: Text, len: int, ghost before: seq<char>) returns (r: Outcome)
      requires Valid() && len <= |text|
      requires if line.Some? then Holds(line.value, before) else before == []
      modifies this, buffer
      ensures Valid()
      ensures match Expand(env, old(expanding), if len >= 0 then text[..len] else text)
        case Fatal(e) => r == Died(e)
        case Ok(t) =>
          && r == Done(|before|) && Holds(|before| + |t| + 1, before + t + ['\0'])
          && (buffer == old(buffer) || fresh(buffer)) && expanding == old(expanding)
      decreases Free(env, expanding), 1, |text|, 1
    {
      var start;
      if line.Some? {
        start := line.value;
      } else {
        start := InitializeVariableOutput();
      }
      var s: Text := if len >= 0 then text[..len] else text;
      var end: Outcome;
      ghost var t, tail;
      end, t, tail := ScanLoop(start, s, before);
      if end.Died? {
        r := end;
        return;
      }
      Terminate(end.at, before + t, tail);
      r := Done(start);
    }

    /** The NUL that variable_expand_string adds at its end, behind the one that may be there. */
    method Terminate(end: nat, ghost bytes: seq<char>, ghost tail: seq<char>)
      requires Holds(end, bytes + tail) && (tail == [] || tail == ['\0'])
      modifies this`buffer, this`length, buffer
      ensures Holds(|bytes| + 1, bytes + ['\0']) && (buffer == old(buffer) || fresh(buffer))
    {
      var _ := VariableBufferOutput(end, ['\0'], bytes + tail);
      assert bytes + tail + ['\0'] == bytes + ['\0'] + tail;
      HoldsLess(|bytes| + 1, bytes + ['\0'], tail);
    }

    /** The loop of variable_expand_string; plain text that ends the line is copied with its NUL. */
    method ScanLoop(start: nat, s: Text, ghost before: seq<char>)
      returns (r: Outcome, ghost t: Text, ghost tail: seq<char>)
      requires Holds(start, before)
      modifies this, buffer
      ensures Valid()
      ensures r.Died? ==> Expand(env, old(expanding), s) == Fatal(r.error)
      ensures r.Done? ==>
        && Expand(env, old(expanding), s) == Ok(t) && Holds(r.at, before + t + tail) && (tail == [] || tail == ['\0'])
        && (buffer == old(buffer) || fresh(buffer)) && expanding == old(expanding)
      decreases Free(env, expanding), 1, |s|, 0, 3
    {
      ghost var busy, whole := expanding, Expand(env, expanding, s);
      ghost var held := before;
      var p: Text, stop := s, false;
      t, tail := [], [];
      r := Done(start);
      while !stop
        invariant r.Done? && Holds(r.at, held) && (buffer == old(buffer) || fresh(buffer))
        invariant held == before + t + tail
        invariant expanding == busy && |p| <= |s|
        invariant whole == Then(Ok(t), Expand(env, busy, p))
        invariant if stop then p == [] && (tail == [] || tail == ['\0']) else tail == []
        decreases |p|, !stop
      {
        ghost var emitted;
        r, p, stop, emitted, tail := ScanOnce(r.at, p, held);
        if r.Died? {
          return;
        }
        ThenAssociative(t, emitted, Expand(env, busy, p));
        Regroup(before, t, emitted, tail);
        held, t := held + emitted + tail, t + emitted;
      }
      ExpandNothing(env, busy, t);
    }

    /** One turn of the loop: the plain text up to the next `$`, then what the `$` introduces. */
    method ScanOnce(at: nat, p: Text, ghost before: seq<char>)
      returns (r: Outcome, rest: Text, stop: bool, ghost emitted: Text, ghost tail: seq<char>)
      requires Holds(at, before)
      modifies this, buffer
      ensures Valid()
      ensures r.Died? ==> Expand(env, old(expanding), p) == Fatal(r.error)
      ensures r.Done? ==>
        && Expand(env, old(expanding), p) == Then(Ok(emitted), Expand(env, old(expanding), rest))
        && |rest| <= |p| && (if stop then rest == [] && (tail == [] || tail == ['\0']) else |rest| < |p| && tail == [])
        && Holds(r.at, before + emitted + tail) && (buffer == old(buffer) || fresh(buffer))
        && expanding == old(expanding)
      decreases Free(env, expanding), 1, |p|, 0, 1
    {
      var p1 := IndexOf(p, '$', 0);
      if p1 == |p| {
        var o := CopyTail(at, p, before);
        ExpandPlain(env, expanding, p);
        r, rest, stop, emitted, tail := Done(o), [], true, p, ['\0'];
      } else {
        r, rest, stop, emitted := ScanDollar(at, p, before);
        tail := [];
        assert before + emitted + [] == before + emitted;
      }
    }

    /** The last plain text of the line, copied with its NUL. */
    method CopyTail(at: nat, p: Text, ghost before: seq<char>) returns (o: nat)
      requires Holds(at, before)
      modifies this`buffer, this`length, buffer
      ensures Holds(o, before + p + ['\0']) && (buffer == old(buffer) || fresh(buffer))
    {
      o := VariableBufferOutput(at, p + ['\0'], before);
      assert before + (p + ['\0']) == before + p + ['\0'];
    }

    /** A turn of the loop in which there is a `$`. */
    method ScanDollar(at: nat, p: Text, ghost before: seq<char>)
      returns (r: Outcome, rest: Text, stop: bool, ghost emitted: Text)
      requires Holds(at, before) && IndexOf(p, '$', 0) < |p|
      modifies this, buffer
      ensures Valid()
      ensures r.Died? ==> Expand(env, old(expanding), p) == Fatal(r.error)
      ensures r.Done? ==>
        && Expand(env, old(expanding), p) == Then(Ok(emitted), Expand(env, old(expanding), rest))
        && |rest| < |p| && (stop ==> rest == [])
        && Holds(r.at, before + emitted) && (buffer == old(buffer) || fresh(buffer))
        && expanding == old(expanding)
      decreases Free(env, expanding), 1, |p|, 0, 0
    {
      var p1 := IndexOf(p, '$', 0);
      r, rest, stop, emitted := CopyThenExpand(at, p[..p1], p[p1 + 1..], before);
      if r.Died? {
        DieAtDollar(env, old(expanding), p, r.error);
      } else {
        ExpandAtDollar(env, old(expanding), p, emitted, rest);
        Associative(before, p[..p1], emitted);
        emitted := p[..p1] + emitted;
      }
    }

    /** Copies the text before a `$` and expands what the `$` introduces. */
    method CopyThenExpand(at: nat, plain: Text, p: Text, ghost before: seq<char>)
      returns (r: Outcome, rest: Text, stop: bool, ghost emitted: Text)
      requires Holds(at, before)
      modifies this, buffer
      ensures Valid()
      ensures r.Died? ==> DollarWith(env, Values(env, old(expanding)), p) == Fatal(r.error)
      ensures r.Done? ==>
        && DollarWith(env, Values(env, old(expanding)), p)
           == Then(Ok(emitted), ExpandWith(env, Values(env, old(expanding)), rest))
        && |rest| <= |p| && (stop ==> rest == [])
        && (!stop ==> |rest| < |p|)
        && Holds(r.at, before + plain + emitted) && (buffer == old(buffer) || fresh(buffer))
        && expanding == old(expanding)
      decreases Free(env, expanding), 1, |p|, 0, 3
    {
      var o := VariableBufferOutput(at, plain, before);
      r, rest, stop, emitted := ExpandReference(o, p, before + plain);
    }

    /**
     What variable_expand_string does after a `$`: `p` is the text behind it, `rest` where the
     scan goes on, and `stop` says that the line is at its end.
     */
    method ExpandReference(o: nat, p: Text, ghost before: seq<char>)
      returns (r: Outcome, rest: Text, stop: bool, ghost emitted: Text)
      requires Holds(o, before)
      modifies this, buffer
      ensures Valid()
      ensures r.Died? ==> DollarWith(env, Values(env, old(expanding)), p) == Fatal(r.error)
      ensures r.Done? ==>
        && DollarWith(env, Values(env, old(expanding)), p)
           == Then(Ok(emitted), ExpandWith(env, Values(env, old(expanding)), rest))
        && |rest| <= |p| && (if stop then rest == [] else |rest| < |p|)
        && Holds(r.at, before + emitted) && (buffer == old(buffer) || fresh(buffer))
        && expanding == old(expanding)
      decreases Free(env, expanding), 1, |p|, 0, 2
    {
      rest, stop, emitted := [], true, [];
      if p == [] {
        r := Done(o);
      } else if p[0] == '$' {
        var o' := VariableBufferOutput(o, ['$'], before);
        r, rest, stop, emitted := Done(o'), p[1..], false, ['$'];
      } else {
        var name: Result;
        name, rest, stop := ReferenceText(p);
        if name.Fatal? {
          r := Died(name.error);
          return;
        }
        r, emitted := ReferenceName(o, name.text, before);
      }
    }

    /** The name that a reference gives, computed if need be, and the text behind it. */
    method ReferenceText(p: Text) returns (name: Result, rest: Text, stop: bool)
      requires Valid() && p != [] && p[0] != '$'
      modifies this
      ensures Valid()
      ensures name.Fatal? ==> DollarWith(env, Values(env, old(expanding)), p) == name
      ensures name.Ok? ==>
        && DollarWith(env, Values(env, old(expanding)), p)
           == Then(NameWith(env, Values(env, old(expanding)), name.text),
                   ExpandWith(env, Values(env, old(expanding)), rest))
        && |rest| < |p| && (stop ==> rest == [])
        && expanding == old(expanding) && buffer == old(buffer) && length == old(length)
      decreases Free(env, expanding), 1, |p|, 0, 1
    {
      rest, stop := [], true;
      if p[0] != '(' && p[0] != '{' {
        name, rest, stop := Ok([p[0]]), p[1..], false;
        assert ScanReference(p) == Named([p[0]], p[1..]);
        return;
      }
      var closeparen := if p[0] == '(' then ')' else '}';
      var end := IndexOf(p, closeparen, 1);
      if end == |p| {
        name := Fatal(UnterminatedReference);
        assert ScanReference(p) == Unclosed;
        return;
      }
      name := Ok(p[1..end]);
      if IndexOf(p, '$', 1) < end {
        var m, count := CountBrackets(p, p[0], closeparen);
        if count < 0 {
          assert ScanReference(p) == Computed(p[1..m], p[m + 1..]);
          name := ExpandArgument(p[1..m]);
          rest, stop := p[m + 1..], false;
        } else {
          assert ScanReference(p) == Named(p[1..end], []);
        }
      } else {
        assert ScanReference(p) == Named(p[1..end], p[end + 1..]);
        rest, stop := p[end + 1..], false;
      }
    }

    /** A reference to `name`: a substitution reference, or reference_variable. */
    method ReferenceName(o: nat, name: Text, ghost before: seq<char>) returns (r: Outcome, ghost emitted: Text)
      requires Holds(o, before)
      modifies this, buffer
      ensures Valid()
      ensures r.Died? ==> NameWith(env, Values(env, old(expanding)), name) == Fatal(r.error)
      ensures r.Done? ==>
        && NameWith(env, Values(env, old(expanding)), name) == Ok(emitted)
        && Holds(r.at, before + emitted) && (buffer == old(buffer) || fresh(buffer))
        && expanding == old(expanding)
      decreases Free(env, expanding), 0, 0, 1
    {
      emitted := [];
      var text: Text;
      match Resolve(env, name) {
        case Plain(t) =>
          text := t;
        case Recurse(x, v) =>
          var value := RecursivelyExpand(x);
          if value.Fatal? {
            r := Died(value.error);
            return;
          }
          text := value.text;
        case RecurseSubst(x, v, pattern, replacement) =>
          var value := RecursivelyExpand(x);
          if value.Fatal? {
            r := Died(value.error);
            return;
          }
          text := env.patsubst(value.text, pattern, replacement);
      }
      var o' := VariableBufferOutput(o, text, before);
      r, emitted := Done(o'), text;
    }

    /** recursively_expand: sets the flag of `name` around the expansion of its value. */
    method RecursivelyExpand(name: Text) returns (value: Result)
      requires Valid() && name in Names(env)
      modifies this
      ensures value == ExpandVariable(env, old(expanding), name)
      ensures value.Ok? ==> expanding == old(expanding) && buffer == old(buffer) && length == old(length)
      ensures Valid()
      decreases Free(env, expanding), 0, 0, 0
    {
      if name in expanding {
        value := Fatal(SelfReference(name));
        return;
      }
      FreeShrinks(env, expanding, name);
      ghost var busy := expanding;
      expanding := expanding + {name};
      var v := Lookup(env, name).value;
      if v.append {
        value := AllocatedVariableAppend(name);
      } else {
        value := AllocatedVariableExpand(v.value);
      }
      if value.Ok? {
        expanding := expanding - {name};
        assert expanding == busy;
      }
    }

    /** allocated_variable_expand: expands into a buffer of its own and restores the current one. */
    method AllocatedVariableExpand(text: Text) returns (value: Result)
      requires Valid()
      modifies this
      ensures value == Expand(env, old(expanding), text)
      ensures value.Ok? ==> expanding == old(expanding) && buffer == old(buffer) && length == old(length)
      ensures Valid()
      decreases Free(env, expanding), 1, |text|, 2
    {
      var obuf, olen := buffer, length;
      buffer := null;
      var r := VariableExpandString(None, text, -1, []);
      if r.Died? {
        value := Fatal(r.error);
        return;
      }
      var s := ReadString(r.at, Expand(env, old(expanding), text).text, []);
      value := Ok(s);
      buffer, length := obuf, olen;
    }

    /** expand_argument: the characters between two pointers, expanded. */
    method ExpandArgument(argument: Text) returns (value: Result)
      requires Valid()
      modifies this
      ensures value == Expand(env, old(expanding), argument)
      ensures value.Ok? ==> expanding == old(expanding) && buffer == old(buffer) && length == old(length)
      ensures Valid()
      decreases Free(env, expanding), 1, |argument|, 3
    {
      if argument == [] {
        value := Ok([]);
      } else {
        value := AllocatedVariableExpand(argument);
      }
    }

    /** allocated_variable_append. */
    method AllocatedVariableAppend(name: Text) returns (value: Result)
      requires Valid()
      modifies this
      ensures value == AppendWith(env, Values(env, old(expanding)), name, 0)
      ensures value.Ok? ==> expanding == old(expanding) && buffer == old(buffer) && length == old(length)
      ensures Valid()
      decreases Free(env, expanding), 3
    {
      var obuf, olen := buffer, length;
      buffer := null;
      var r := VariableAppend(name, 0);
      if r.Died? {
        value := Fatal(r.error);
        return;
      }
      ghost var t := AppendWith(env, Values(env, old(expanding)), name, 0).text;
      var end := VariableBufferOutput(r.at, ['\0'], t);
      var s := ReadString(0, t, []);
      value := Ok(s);
      buffer, length := obuf, olen;
    }

    /** variable_append: outer sets first, a space between the parts. */
    method VariableAppend(name: Text, i: nat) returns (r: Outcome)
      requires Valid() && i <= |env.sets| && buffer == null
      modifies this
      ensures Valid()
      ensures match AppendWith(env, Values(env, old(expanding)), name, i)
        case Fatal(e) => r == Died(e)
        case Ok(t) => r == Done(|t|) && Holds(|t|, t) && fresh(buffer) && expanding == old(expanding)
      decreases Free(env, expanding), 2, |env.sets| - i
    {
      if i == |env.sets| {
        var at := InitializeVariableOutput();
        r := Done(at);
        return;
      }
      if name !in env.sets[i] {
        r := VariableAppend(name, i + 1);
        return;
      }
      var v := env.sets[i][name];
      ghost var outer: Text := [];
      if v.append {
        r := VariableAppend(name, i + 1);
        if r.Died? {
          return;
        }
        outer := AppendWith(env, Values(env, old(expanding)), name, i + 1).text;
      } else {
        var at := InitializeVariableOutput();
        r := Done(at);
      }
      r := AppendPart(r.at, v, outer);
    }

    /** The end of variable_append: a space if there is something before, then this part. */
    method AppendPart(at: nat, v: Variable, ghost outer: Text) returns (r: Outcome)
      requires Holds(at, outer)
      modifies this, buffer
      ensures Valid()
      ensures match Then(Ok(if outer == [] then [] else outer + [' ']),
                         if v.recursive then Expand(env, old(expanding), v.value) else Ok(v.value))
        case Fatal(e) => r == Died(e)
        case Ok(t) =>
          && r == Done(|t|) && Holds(|t|, t) && (buffer == old(buffer) || fresh(buffer)) && expanding == old(expanding)
      decreases Free(env, expanding), 2, 0
    {
      var o := at;
      if o > 0 {
        o := VariableBufferOutput(o, [' '], outer);
      }
      ghost var before: Text := if outer == [] then [] else outer + [' '];
      if !v.recursive {
        o := VariableBufferOutput(o, v.value, before);
        r := Done(o);
        return;
      }
      r := AppendExpanded(o, v.value, before);
    }

    /** A recursive part, expanded behind what is there. */
    method AppendExpanded(o: nat, value: Text, ghost before: seq<char>) returns (r: Outcome)
      requires Holds(o, before)
      modifies this, buffer
      ensures Valid()
      ensures match Expand(env, old(expanding), value)
        case Fatal(e) => r == Died(e)
        case Ok(t) =>
          && r == Done(|before| + |t|) && Holds(|before| + |t|, before + t)
          && (buffer == old(buffer) || fresh(buffer)) && expanding == old(expanding)
      decreases Free(env, expanding), 1, |value|, 2
    {
      ghost var part := Expand(env, expanding, value);
      assert value[..|value|] == value;
      r := VariableExpandString(Some(o), value, |value|, before);
      if r.Done? {
        var s := ReadString(o, part.text, before);
        HoldsLess(o + |s|, before + s, ['\0']);
        r := Done(o + |s|);
      }
    }
  }
}
