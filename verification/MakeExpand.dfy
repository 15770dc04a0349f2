/**
 GNU make variable expansion as a pure function: scanning a text for references, expanding
 recursive variables with a set of variables being expanded, and appended values collected
 over the list of variable sets.
 */
module MakeExpand {
  import opened CStrings

  datatype Variable = Variable(value: Text, recursive: bool, append: bool)

  type VariableSet = map<Text, Variable>

  /**
   What expansion reads: the list of variable sets, innermost first, and the pattern
   substitution `patsubst(value, pattern, replacement)` behind `$(name:pattern=replacement)`.
   */
  datatype Env = Env(sets: seq<VariableSet>, patsubst: (Text, Text, Text) -> Text)

  datatype Error = SelfReference(name: Text) | UnterminatedReference

  /** The text of an expansion, or the message make dies with. */
  datatype Result = Ok(text: Text) | Fatal(error: Error)

  // ----- the variables

  function Names(env: Env): set<Text> {
    set i, x | 0 <= i < |env.sets| && x in env.sets[i] :: x
  }

  /** lookup_variable: the definition in the first set that has one. */
  function Lookup(env: Env, name: Text): (v: Option<Variable>)
    ensures v.Some? <==> name in Names(env)
  {
    LookupFrom(env, name, 0)
  }

  function LookupFrom(env: Env, name: Text, i: nat): (v: Option<Variable>)
    requires i <= |env.sets|
    ensures v.Some? <==> exists j :: i <= j < |env.sets| && name in env.sets[j]
    decreases |env.sets| - i
  {
    if i == |env.sets| then None
    else if name in env.sets[i] then Some(env.sets[i][name])
    else LookupFrom(env, name, i + 1)
  }

  /** The definition found is that of the first set that has one. */
  lemma {:induction false} LookupFirst(env: Env, name: Text, i: nat) returns (j: nat)
    requires i <= |env.sets| && LookupFrom(env, name, i).Some?
    ensures i <= j < |env.sets| && name in env.sets[j] && LookupFrom(env, name, i) == Some(env.sets[j][name])
    ensures forall k :: i <= k < j ==> name !in env.sets[k]
    decreases |env.sets| - i
  {
    if name in env.sets[i] {
      j := i;
    } else {
      j := LookupFirst(env, name, i + 1);
    }
  }

  /** The number of variables not being expanded. */
  function Free(env: Env, busy: set<Text>): nat {
    |Names(env) - busy|
  }

  lemma FreeShrinks(env: Env, busy: set<Text>, name: Text)
    requires name in Names(env) && name !in busy
    ensures Free(env, busy + {name}) < Free(env, busy)
  {
    assert Names(env) - (busy + {name}) == (Names(env) - busy) - {name};
  }

  // ----- scanning

  /** Where the bracket opened before `i` closes, `depth` more being open; or the length of `s`. */
  function MatchClose(s: Text, open: char, close: char, i: nat, depth: nat): (r: nat)
    requires i <= |s|
    ensures i <= r <= |s|
    decreases |s| - i
  {
    if i == |s| then i
    else if s[i] == open then MatchClose(s, open, close, i + 1, depth + 1)
    else if s[i] == close then if depth == 0 then i else MatchClose(s, open, close, i + 1, depth - 1)
    else MatchClose(s, open, close, i + 1, depth)
  }

  /** What follows a `$`; the scan goes on with `rest`. */
  datatype Reference =
    | Escape(rest: Text)                      // $$
    | Named(name: Text, rest: Text)           // $x, $(name), ${name}
    | Computed(inner: Text, rest: Text)       // $(... $ ...)
    | Unclosed                                // no closing bracket at all
    | AtEnd                                   // the $ is the last character

  /**
   The reference that the text `t` after a `$` begins with.  Brackets are counted only when there
   is a `$` before the first closing one; if they do not balance, the text up to that first
   closing bracket is the name and the rest of the line is dropped.
   */
  function ScanReference(t: Text): (r: Reference)
    ensures r.Escape? || r.Named? || r.Computed? ==> |r.rest| < |t|
    ensures r.Computed? ==> |r.inner| < |t|
  {
    if t == [] then AtEnd
    else if t[0] == '$' then Escape(t[1..])
    else if t[0] == '(' || t[0] == '{' then
      var close := if t[0] == '(' then ')' else '}';
      var end := IndexOf(t, close, 1);
      if end == |t| then Unclosed
      else if IndexOf(t, '$', 1) < end then
        var m := MatchClose(t, t[0], close, 1, 0);
        if m < |t| then Computed(t[1..m], t[m + 1..]) else Named(t[1..end], [])
      else Named(t[1..end], t[end + 1..])
    else Named([t[0]], t[1..])
  }

  /** Every closing bracket in `s` has its opening one in `s`, or is one of `depth`, all of them used. */
  predicate Balanced(s: Text, open: char, close: char, depth: nat) {
    if s == [] then depth == 0
    else if s[0] == open then Balanced(s[1..], open, close, depth + 1)
    else if s[0] == close then depth > 0 && Balanced(s[1..], open, close, depth - 1)
    else Balanced(s[1..], open, close, depth)
  }

  /** The count finds the bracket that closes a balanced text, and no other. */
  lemma {:induction false} MatchCloseMeans(s: Text, open: char, close: char, i: nat, depth: nat, m: nat)
    requires i <= m < |s| && open != close
    ensures MatchClose(s, open, close, i, depth) == m <==> s[m] == close && Balanced(s[i..m], open, close, depth)
    decreases m - i
  {
    if i < m {
      assert s[i..m][1..] == s[i + 1..m];
      if s[i] == open {
        MatchCloseMeans(s, open, close, i + 1, depth + 1, m);
      } else if s[i] != close {
        MatchCloseMeans(s, open, close, i + 1, depth, m);
      } else if depth > 0 {
        MatchCloseMeans(s, open, close, i + 1, depth - 1, m);
      }
    } else {
      assert s[i..m] == [];
      if s[m] != close {
        var next := if s[i] == open then depth + 1 else depth;
        assert MatchClose(s, open, close, i, depth) == MatchClose(s, open, close, i + 1, next);
      }
    }
  }

  predicate Brackets(open: char, close: char) {
    (open == '(' && close == ')') || (open == '{' && close == '}')
  }

  /** A bracketed name without a dollar or the closing bracket is read whole. */
  lemma ScanName(open: Char, close: Char, name: Text, rest: Text)
    requires Brackets(open, close) && '$' !in name && close !in name
    ensures ScanReference([open] + name + [close] + rest) == Named(name, rest)
  {
    var t := [open] + name + [close] + rest;
    assert forall k :: 0 <= k < |name| ==> t[k + 1] == name[k] && name[k] in name;
    assert t[|name| + 1] == close;
    assert IndexOf(t, close, 1) == |name| + 1;
    assert t[1..|name| + 1] == name && t[|name| + 2..] == rest;
  }

  /** A balanced text with a dollar before its first closing bracket is read whole, to be expanded. */
  lemma ScanComputed(open: Char, close: Char, inner: Text, rest: Text)
    requires Brackets(open, close) && Balanced(inner, open, close, 0)
    requires '$' in inner && IndexOf(inner, '$', 0) < IndexOf(inner, close, 0)
    ensures ScanReference([open] + inner + [close] + rest) == Computed(inner, rest)
  {
    var t := [open] + inner + [close] + rest;
    var m, d := |inner| + 1, IndexOf(inner, '$', 0);
    assert t[1..m] == inner && t[m] == close && t[m + 1..] == rest;
    MatchCloseMeans(t, open, close, 1, 0, m);
    assert t[d + 1] == inner[d] == '$';
    FirstDollar(t, close, inner, d);
  }

  lemma FirstDollar(t: Text, close: char, inner: Text, d: nat)
    requires |inner| + 1 < |t| && t[1..|inner| + 1] == inner && t[|inner| + 1] == close
    requires d < |inner| && inner[d] == '$' && d == IndexOf(inner, '$', 0) < IndexOf(inner, close, 0) && close != '$'
    ensures IndexOf(t, '$', 1) < IndexOf(t, close, 1) < |t|
  {
    assert forall k :: 0 <= k < |inner| ==> t[k + 1] == inner[k];
    assert t[d + 1] == '$';
    assert IndexOf(t, '$', 1) <= d + 1;
    assert forall k :: 1 <= k <= d + 1 ==> t[k] != close;
  }

  /** The name ends at the first closing bracket; with a dollar in unbalanced brackets the rest is dropped. */
  predicate ReadsName(t: Text, open: Char, close: Char, x: Text, rest: Text) {
    && Brackets(open, close) && close !in x
    && (t == [open] + x + [close] + rest || ([open] + x + [close] <= t && '$' in x && rest == []))
  }

  /** The text to be expanded ends at the bracket that closes it. */
  predicate ReadsComputed(t: Text, open: Char, close: Char, inner: Text, rest: Text) {
    && Brackets(open, close) && Balanced(inner, open, close, 0)
    && '$' in inner && t == [open] + inner + [close] + rest
  }

  lemma FirstClose(t: Text, open: Char, close: Char, end: nat)
    requires Brackets(open, close) && t != [] && t[0] == open && end == IndexOf(t, close, 1) < |t|
    ensures t == [open] + t[1..end] + [close] + t[end + 1..] && close !in t[1..end]
  {
  }

  lemma DollarWithin(t: Text, end: nat)
    requires t != [] && IndexOf(t, '$', 1) < end <= |t|
    ensures '$' in t[1..end]
  {
    var d := IndexOf(t, '$', 1);
    assert t[1..end][d - 1] == '$';
  }

  lemma MatchedClose(t: Text, open: Char, close: Char, m: nat)
    requires Brackets(open, close) && t != [] && t[0] == open && m == MatchClose(t, open, close, 1, 0) < |t|
    ensures t == [open] + t[1..m] + [close] + t[m + 1..] && Balanced(t[1..m], open, close, 0)
    ensures IndexOf(t, close, 1) <= m
  {
    MatchCloseMeans(t, open, close, 1, 0, m);
  }

  lemma ScanBracketed(t: Text, open: Char, close: Char)
    requires Brackets(open, close) && t != [] && t[0] == open
    ensures match ScanReference(t)
      case Named(x, rest) => ReadsName(t, open, close, x, rest)
      case Computed(inner, rest) => ReadsComputed(t, open, close, inner, rest)
      case Unclosed => close !in t
      case _ => false
  {
    var end, m := IndexOf(t, close, 1), MatchClose(t, open, close, 1, 0);
    if end < |t| {
      FirstClose(t, open, close, end);
      if IndexOf(t, '$', 1) < end {
        DollarWithin(t, end);
        if m < |t| {
          MatchedClose(t, open, close, m);
          DollarWithin(t, m);
        }
      }
    }
  }

  /** What is read, and what is left, make up the text; only unbalanced brackets drop the rest. */
  lemma ScanDecomposes(t: Text)
    ensures match ScanReference(t)
      case AtEnd => t == []
      case Escape(rest) => t == ['$'] + rest
      case Named(x, rest) =>
        (|x| == 1 && t == x + rest) || exists open: Char, close: Char :: ReadsName(t, open, close, x, rest)
      case Computed(inner, rest) => exists open: Char, close: Char :: ReadsComputed(t, open, close, inner, rest)
      case Unclosed => t != [] && (t[0] == '(' || t[0] == '{') && (if t[0] == '(' then ')' else '}') !in t
  {
    if t != [] && (t[0] == '(' || t[0] == '{') {
      ScanBracketed(t, t[0], if t[0] == '(' then ')' else '}');
    }
  }

  // ----- what a name stands for

  datatype Use =
    | Plain(text: Text)
    | Recurse(name: Text, v: Variable)
    | RecurseSubst(name: Text, v: Variable, pattern: Text, replacement: Text)

  /** The text of a substitution reference `name:pattern=replacement`, split. */
  function SubstParts(x: Text): Option<(nat, nat)> {
    var colon := IndexOf(x, ':', 0);
    if colon == |x| then None
    else
      var eq := IndexOf(x, '=', colon + 1);
      if eq == |x| then None else Some((colon, eq))
  }

  /** What a reference to `x` needs: nothing, a value as it stands, or a recursive expansion. */
  function Resolve(env: Env, x: Text): (u: Use)
    ensures !u.Plain? ==> u.name in Names(env) && Lookup(env, u.name) == Some(u.v) && u.v.recursive
  {
    match SubstParts(x)
    case None => (
      match Lookup(env, x)
      case None => Plain([])
      case Some(v) =>
        if v.value == [] && !v.append then Plain([])
        else if v.recursive then Recurse(x, v)
        else Plain(v.value))
    case Some((colon, eq)) => (
      var name, pattern, replacement := x[..colon], x[colon + 1..eq], x[eq + 1..];
      match Lookup(env, name)
      case None => Plain([])
      case Some(v) =>
        if v.value == [] then Plain([])
        else if v.recursive then RecurseSubst(name, v, pattern, replacement)
        else Plain(env.patsubst(v.value, pattern, replacement)))
  }

  // ----- expansion

  /** `a` then `b`; the first error wins. */
  function Then(a: Result, b: Result): Result {
    if a.Fatal? then a else if b.Fatal? then b else Ok(a.text + b.text)
  }

  /** The expansion of `s` when a recursive variable `x` expands to `val(x)`. */
  function ExpandWith(env: Env, val: Text -> Result, s: Text): (r: Result)
    decreases |s|
  {
    var d := IndexOf(s, '$', 0);
    if d == |s| then Ok(s) else Then(Ok(s[..d]), DollarWith(env, val, s[d + 1..]))
  }

  /** The expansion of a `$` followed by `t`. */
  function DollarWith(env: Env, val: Text -> Result, t: Text): (r: Result)
    decreases |t|
  {
    match ScanReference(t)
    case AtEnd => Ok([])
    case Unclosed => Fatal(UnterminatedReference)
    case Escape(rest) => Then(Ok(['$']), ExpandWith(env, val, rest))
    case Named(x, rest) => Then(NameWith(env, val, x), ExpandWith(env, val, rest))
    case Computed(inner, rest) =>
      var name := ExpandWith(env, val, inner);
      if name.Fatal? then name else Then(NameWith(env, val, name.text), ExpandWith(env, val, rest))
  }

  /** A reference to the name `x`, ordinary or with a substitution. */
  function NameWith(env: Env, val: Text -> Result, x: Text): (r: Result) {
    match Resolve(env, x)
    case Plain(t) => Ok(t)
    case Recurse(name, v) => val(name)
    case RecurseSubst(name, v, pattern, replacement) =>
      var r := val(name);
      if r.Fatal? then r else Ok(env.patsubst(r.text, pattern, replacement))
  }

  /** variable_append: the parts of an appended variable, outermost set first. */
  function AppendWith(env: Env, val: Text -> Result, name: Text, i: nat): (r: Result)
    requires i <= |env.sets|
    decreases |env.sets| - i
  {
    if i == |env.sets| then Ok([])
    else if name !in env.sets[i] then AppendWith(env, val, name, i + 1)
    else
      var v := env.sets[i][name];
      var outer := if v.append then AppendWith(env, val, name, i + 1) else Ok([]);
      if outer.Fatal? then outer
      else
        Then(Ok(if outer.text == [] then [] else outer.text + [' ']),
             if v.recursive then ExpandWith(env, val, v.value) else Ok(v.value))
  }

  /** The value of variable `name`, expanded. */
  function BodyWith(env: Env, val: Text -> Result, name: Text): (r: Result)
    requires name in Names(env)
  {
    var v := Lookup(env, name).value;
    if v.append then AppendWith(env, val, name, 0) else ExpandWith(env, val, v.value)
  }

  /** recursively_expand, while the variables in `busy` are being expanded. */
  function ExpandVariable(env: Env, busy: set<Text>, name: Text): (r: Result)
    decreases Free(env, busy), 0
  {
    if name !in Names(env) then Ok([])
    else if name in busy then Fatal(SelfReference(name))
    else
      FreeShrinks(env, busy, name);
      BodyWith(env, Values(env, busy + {name}), name)
  }

  function Values(env: Env, busy: set<Text>): Text -> Result
    decreases Free(env, busy), 1
  {
    (x: Text) => ExpandVariable(env, busy, x)
  }

  /** variable_expand_string. */
  function Expand(env: Env, busy: set<Text>, s: Text): (r: Result) {
    ExpandWith(env, Values(env, busy), s)
  }

  // ----- escaping

  function DoubleDollars(s: Text): Text {
    if s == [] then [] else (if s[0] == '$' then ['$', '$'] else [s[0]]) + DoubleDollars(s[1..])
  }

  lemma ThenAssociative(a: Text, b: Text, r: Result)
    ensures Then(Ok(a + b), r) == Then(Ok(a), Then(Ok(b), r))
  {
    if r.Ok? {
      assert (a + b) + r.text == a + (b + r.text);
    }
  }

  /** A leading character that is not `$` is copied. */
  lemma CopyHead(env: Env, val: Text -> Result, s: Text)
    requires s != [] && s[0] != '$'
    ensures ExpandWith(env, val, s) == Then(Ok([s[0]]), ExpandWith(env, val, s[1..]))
  {
    var tail := s[1..];
    var d, e := IndexOf(s, '$', 0), IndexOf(tail, '$', 0);
    assert forall k :: 0 <= k < |tail| ==> tail[k] == s[k + 1];
    assert d == e + 1;
    assert s[..d] == [s[0]] + tail[..e];
    if d < |s| {
      assert s[d + 1..] == tail[e + 1..];
      ThenAssociative([s[0]], tail[..e], DollarWith(env, val, tail[e + 1..]));
    } else {
      assert s == [s[0]] + tail;
    }
  }

  /** Doubling every `$` makes a text that expands to itself, whatever is defined. */
  lemma {:induction false} ExpandDoubled(env: Env, busy: set<Text>, s: Text)
    ensures Expand(env, busy, DoubleDollars(s)) == Ok(s)
  {
    if s != [] {
      var t := DoubleDollars(s);
      ExpandDoubled(env, busy, s[1..]);
      if s[0] == '$' {
        assert t[1..][0] == '$' && t[1..][1..] == DoubleDollars(s[1..]);
        assert DollarWith(env, Values(env, busy), t[1..]) == Ok(['$'] + s[1..]);
        assert IndexOf(t, '$', 0) == 0 && t[..0] + (['$'] + s[1..]) == ['$'] + s[1..];
      } else {
        assert t[1..] == DoubleDollars(s[1..]);
        CopyHead(env, Values(env, busy), t);
      }
      assert s == [s[0]] + s[1..];
    }
  }
}
