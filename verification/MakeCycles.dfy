/**
 When does make report that a recursive variable references itself?  Exactly when following
 the references that expansion actually meets, computed names included, comes back to a
 variable it has passed.
 */
module MakeCycles {
  import opened CStrings
  import opened MakeExpand

  predicate Cyclic(r: Result) {
    r.Fatal? && r.error.SelfReference?
  }

  // ----- the references an expansion meets

  /** The variable, if any, that a reference to `x` expands recursively. */
  function Target(env: Env, x: Text): set<Text> {
    var u := Resolve(env, x);
    if u.Plain? then {} else {u.name}
  }

  /** The recursive variables met while expanding `s`, up to the first error. */
  function RefsWith(env: Env, val: Text -> Result, s: Text): set<Text>
    decreases |s|, 0
  {
    var d := IndexOf(s, '$', 0);
    if d == |s| then {} else DollarRefs(env, val, s[d + 1..])
  }

  function DollarRefs(env: Env, val: Text -> Result, t: Text): set<Text>
    decreases |t|, 0
  {
    match ScanReference(t)
    case AtEnd => {}
    case Unclosed => {}
    case Escape(rest) => RefsWith(env, val, rest)
    case Named(x, rest) => NameRefs(env, val, x, rest)
    case Computed(inner, rest) =>
      var name := ExpandWith(env, val, inner);
      RefsWith(env, val, inner) + (if name.Fatal? then {} else NameRefs(env, val, name.text, rest))
  }

  /** The references of a name and of the text behind it. */
  function NameRefs(env: Env, val: Text -> Result, x: Text, rest: Text): set<Text>
    decreases |rest|, 1
  {
    Target(env, x) + (if NameWith(env, val, x).Fatal? then {} else RefsWith(env, val, rest))
  }

  function AppendRefs(env: Env, val: Text -> Result, name: Text, i: nat): set<Text>
    requires i <= |env.sets|
    decreases |env.sets| - i
  {
    if i == |env.sets| then {}
    else if name !in env.sets[i] then AppendRefs(env, val, name, i + 1)
    else
      var v := env.sets[i][name];
      (if v.append then AppendRefs(env, val, name, i + 1) else {}) +
      (if (v.append && AppendWith(env, val, name, i + 1).Fatal?) || !v.recursive then {}
       else RefsWith(env, val, v.value))
  }

  function BodyRefs(env: Env, val: Text -> Result, name: Text): set<Text>
    requires name in Names(env)
  {
    var v := Lookup(env, name).value;
    if v.append then AppendRefs(env, val, name, 0) else RefsWith(env, val, v.value)
  }

  lemma Unfold(env: Env, val: Text -> Result, s: Text)
    requires IndexOf(s, '$', 0) < |s|
    ensures var t := s[IndexOf(s, '$', 0) + 1..];
      && RefsWith(env, val, s) == DollarRefs(env, val, t)
      && ExpandWith(env, val, s) == Then(Ok(s[..IndexOf(s, '$', 0)]), DollarWith(env, val, t))
  {
  }

  // ----- an expansion fails as its references do

  /** A self-reference comes from a reference met, and no reference met hides one. */
  lemma {:induction false} RefsFail(env: Env, val: Text -> Result, s: Text)
    ensures RefsWith(env, val, s) <= Names(env)
    ensures var r := ExpandWith(env, val, s);
      if Cyclic(r) then exists y :: y in RefsWith(env, val, s) && val(y) == r
      else forall y :: y in RefsWith(env, val, s) ==> !Cyclic(val(y))
    decreases |s|, 0
  {
    var d := IndexOf(s, '$', 0);
    if d < |s| {
      var t := s[d + 1..];
      Unfold(env, val, s);
      DollarRefsFail(env, val, t);
    }
  }

  lemma {:induction false} DollarRefsFail(env: Env, val: Text -> Result, t: Text)
    ensures DollarRefs(env, val, t) <= Names(env)
    ensures var r := DollarWith(env, val, t);
      if Cyclic(r) then exists y :: y in DollarRefs(env, val, t) && val(y) == r
      else forall y :: y in DollarRefs(env, val, t) ==> !Cyclic(val(y))
    decreases |t|, 0
  {
    match ScanReference(t)
    case AtEnd =>
    case Unclosed =>
    case Escape(rest) => RefsFail(env, val, rest);
    case Named(x, rest) => RefsFail(env, val, rest);
    case Computed(inner, rest) => RefsFail(env, val, inner); RefsFail(env, val, rest);
  }

  lemma {:induction false} AppendRefsFail(env: Env, val: Text -> Result, name: Text, i: nat)
    requires i <= |env.sets|
    ensures AppendRefs(env, val, name, i) <= Names(env)
    ensures var r := AppendWith(env, val, name, i);
      if Cyclic(r) then exists y :: y in AppendRefs(env, val, name, i) && val(y) == r
      else forall y :: y in AppendRefs(env, val, name, i) ==> !Cyclic(val(y))
    decreases |env.sets| - i
  {
    if i < |env.sets| {
      AppendRefsFail(env, val, name, i + 1);
      if name in env.sets[i] {
        RefsFail(env, val, env.sets[i][name].value);
      }
    }
  }

  lemma BodyRefsFail(env: Env, val: Text -> Result, name: Text)
    requires name in Names(env)
    ensures BodyRefs(env, val, name) <= Names(env)
    ensures var r := BodyWith(env, val, name);
      if Cyclic(r) then exists y :: y in BodyRefs(env, val, name) && val(y) == r
      else forall y :: y in BodyRefs(env, val, name) ==> !Cyclic(val(y))
  {
    AppendRefsFail(env, val, name, 0);
    RefsFail(env, val, Lookup(env, name).value.value);
  }

  // ----- fewer variables being expanded, fewer self-references

  /** `more` agrees with `val` wherever `val` does not report a self-reference. */
  ghost predicate Extends(val: Text -> Result, more: Text -> Result) {
    forall y: Text :: Cyclic(val(y)) || more(y) == val(y)
  }

  lemma {:induction false} RefsExtend(env: Env, val: Text -> Result, more: Text -> Result, s: Text)
    requires Extends(val, more)
    ensures RefsWith(env, val, s) <= RefsWith(env, more, s)
    ensures !Cyclic(ExpandWith(env, val, s)) ==>
      ExpandWith(env, more, s) == ExpandWith(env, val, s) && RefsWith(env, more, s) == RefsWith(env, val, s)
    decreases |s|, 0
  {
    var d := IndexOf(s, '$', 0);
    if d < |s| {
      var t := s[d + 1..];
      Unfold(env, val, s);
      Unfold(env, more, s);
      DollarRefsExtend(env, val, more, t);
    }
  }

  lemma NameExtends(env: Env, val: Text -> Result, more: Text -> Result, x: Text)
    requires Extends(val, more)
    ensures !Cyclic(NameWith(env, val, x)) ==> NameWith(env, more, x) == NameWith(env, val, x)
  {
    var u := Resolve(env, x);
    if !u.Plain? {
      assert Cyclic(val(u.name)) || more(u.name) == val(u.name);
    }
  }

  lemma {:induction false} NameRefsExtend(env: Env, val: Text -> Result, more: Text -> Result, x: Text, rest: Text)
    requires Extends(val, more)
    ensures NameRefs(env, val, x, rest) <= NameRefs(env, more, x, rest)
    ensures var r := Then(NameWith(env, val, x), ExpandWith(env, val, rest));
      !Cyclic(r) ==>
        && Then(NameWith(env, more, x), ExpandWith(env, more, rest)) == r
        && NameRefs(env, more, x, rest) == NameRefs(env, val, x, rest)
    decreases |rest|, 1
  {
    NameExtends(env, val, more, x);
    RefsExtend(env, val, more, rest);
  }

  lemma {:induction false} DollarRefsExtend(env: Env, val: Text -> Result, more: Text -> Result, t: Text)
    requires Extends(val, more)
    ensures DollarRefs(env, val, t) <= DollarRefs(env, more, t)
    ensures !Cyclic(DollarWith(env, val, t)) ==>
      DollarWith(env, more, t) == DollarWith(env, val, t) && DollarRefs(env, more, t) == DollarRefs(env, val, t)
    decreases |t|, 0
  {
    match ScanReference(t)
    case AtEnd =>
    case Unclosed =>
    case Escape(rest) => RefsExtend(env, val, more, rest);
    case Named(x, rest) => NameRefsExtend(env, val, more, x, rest);
    case Computed(inner, rest) =>
      RefsExtend(env, val, more, inner);
      if ExpandWith(env, val, inner).Ok? {
        NameRefsExtend(env, val, more, ExpandWith(env, val, inner).text, rest);
      }
  }

  lemma {:induction false} AppendRefsExtend(env: Env, val: Text -> Result, more: Text -> Result, name: Text, i: nat)
    requires Extends(val, more) && i <= |env.sets|
    ensures AppendRefs(env, val, name, i) <= AppendRefs(env, more, name, i)
    ensures !Cyclic(AppendWith(env, val, name, i)) ==>
      && AppendWith(env, more, name, i) == AppendWith(env, val, name, i)
      && AppendRefs(env, more, name, i) == AppendRefs(env, val, name, i)
    decreases |env.sets| - i
  {
    if i < |env.sets| {
      AppendRefsExtend(env, val, more, name, i + 1);
      if name in env.sets[i] {
        RefsExtend(env, val, more, env.sets[i][name].value);
      }
    }
  }

  lemma BodyRefsExtend(env: Env, val: Text -> Result, more: Text -> Result, name: Text)
    requires Extends(val, more) && name in Names(env)
    ensures BodyRefs(env, val, name) <= BodyRefs(env, more, name)
    ensures !Cyclic(BodyWith(env, val, name)) ==>
      BodyWith(env, more, name) == BodyWith(env, val, name) && BodyRefs(env, more, name) == BodyRefs(env, val, name)
  {
    AppendRefsExtend(env, val, more, name, 0);
    RefsExtend(env, val, more, Lookup(env, name).value.value);
  }

  /** Expanding with fewer variables in progress gives the same text, unless there was a cycle. */
  lemma {:induction false} ValuesExtend(env: Env, busy: set<Text>, fewer: set<Text>)
    requires fewer <= busy
    ensures Extends(Values(env, busy), Values(env, fewer))
    decreases Free(env, busy)
  {
    forall y: Text
      ensures Cyclic(Values(env, busy)(y)) || Values(env, fewer)(y) == Values(env, busy)(y)
    {
      if y in Names(env) && y !in busy {
        FreeShrinks(env, busy, y);
        ValuesExtend(env, busy + {y}, fewer + {y});
        BodyRefsExtend(env, Values(env, busy + {y}), Values(env, fewer + {y}), y);
      }
    }
  }

  // ----- cycles

  /** The variables that expanding variable `x` refers to. */
  function RefersTo(env: Env, x: Text): set<Text> {
    if x in Names(env) then BodyRefs(env, Values(env, {}), x) else {}
  }

  /** `p` follows references, starting with one in `from`. */
  ghost predicate Path(env: Env, from: set<Text>, p: seq<Text>)
    decreases |p|
  {
    p != [] ==> p[0] in from && Path(env, RefersTo(env, p[0]), p[1..])
  }

  predicate Repeats(p: seq<Text>) {
    exists i, j :: 0 <= i < j < |p| && p[i] == p[j]
  }

  /** Where expansion reports no self-reference, no chain of references meets a busy variable or itself. */
  lemma {:induction false} NoCycle(env: Env, busy: set<Text>, from: set<Text>, p: seq<Text>)
    requires from <= Names(env) && forall y :: y in from ==> !Cyclic(ExpandVariable(env, busy, y))
    requires Path(env, from, p)
    ensures !Repeats(p) && forall k :: 0 <= k < |p| ==> p[k] !in busy
    decreases |p|
  {
    if p != [] {
      var y := p[0];
      BodyRefsFail(env, Values(env, busy + {y}), y);
      ValuesExtend(env, busy + {y}, {});
      BodyRefsExtend(env, Values(env, busy + {y}), Values(env, {}), y);
      forall z | z in RefersTo(env, y)
        ensures !Cyclic(ExpandVariable(env, busy + {y}, z))
      {
        assert !Cyclic(Values(env, busy + {y})(z));
      }
      NoCycle(env, busy + {y}, RefersTo(env, y), p[1..]);
      assert forall k :: 1 <= k < |p| ==> p[k] == p[1..][k - 1];
    }
  }

  /** A self-reference found inside `y` is found inside a variable that `y` refers to. */
  lemma CyclicReference(env: Env, busy: set<Text>, y: Text) returns (z: Text)
    requires Cyclic(ExpandVariable(env, busy, y)) && y !in busy
    ensures y in Names(env) && z in RefersTo(env, y)
    ensures ExpandVariable(env, busy + {y}, z) == ExpandVariable(env, busy, y)
  {
    var val := Values(env, busy + {y});
    BodyRefsFail(env, val, y);
    z :| z in BodyRefs(env, val, y) && val(z) == BodyWith(env, val, y);
    ValuesExtend(env, busy + {y}, {});
    BodyRefsExtend(env, val, Values(env, {}), y);
  }

  lemma PathCons(env: Env, y: Text, q: seq<Text>)
    requires q != [] && q[0] in RefersTo(env, y) && Path(env, {q[0]}, q)
    ensures Path(env, {y}, [y] + q)
  {
    assert ([y] + q)[1..] == q;
    assert Path(env, RefersTo(env, y), q);
  }

  /** `p` follows references from `y` to `x`, which it has met before or is in `busy`. */
  ghost predicate Leads(env: Env, busy: set<Text>, y: Text, p: seq<Text>, x: Text) {
    p != [] && p[0] == y && Path(env, {y}, p) && p[|p| - 1] == x && (x in busy || x in p[..|p| - 1])
  }

  lemma LeadsCons(env: Env, busy: set<Text>, y: Text, z: Text, q: seq<Text>, x: Text)
    requires z in RefersTo(env, y) && Leads(env, busy + {y}, z, q, x)
    ensures Leads(env, busy, y, [y] + q, x)
  {
    PathCons(env, y, q);
    var p := [y] + q;
    assert p[..|p| - 1] == [y] + q[..|q| - 1];
  }

  /** A reported self-reference lies at the end of a chain of references that meets it before. */
  lemma {:induction false} FindCycle(env: Env, busy: set<Text>, y: Text) returns (p: seq<Text>)
    requires Cyclic(ExpandVariable(env, busy, y))
    ensures Leads(env, busy, y, p, ExpandVariable(env, busy, y).error.name)
    decreases Free(env, busy)
  {
    if y in busy {
      p := [y];
    } else {
      var z := CyclicReference(env, busy, y);
      FreeShrinks(env, busy, y);
      var q := FindCycle(env, busy + {y}, z);
      LeadsCons(env, busy, y, z, q, ExpandVariable(env, busy, y).error.name);
      p := [y] + q;
    }
  }

  /**
   Make reports a self-reference while expanding `s` exactly when some chain of references that
   starts in `s` visits a variable twice.
   */
  lemma SelfReferenceIffCycle(env: Env, s: Text)
    ensures Cyclic(Expand(env, {}, s)) <==>
            exists p :: Path(env, RefsWith(env, Values(env, {}), s), p) && Repeats(p)
  {
    var val := Values(env, {});
    RefsFail(env, val, s);
    var from := RefsWith(env, val, s);
    if Cyclic(Expand(env, {}, s)) {
      var y :| y in from && val(y) == Expand(env, {}, s);
      var p := FindCycle(env, {}, y);
      assert p[|p| - 1] in p[..|p| - 1];
      assert Path(env, from, p);
      assert Repeats(p);
    } else {
      forall p | Path(env, from, p)
        ensures !Repeats(p)
      {
        forall y | y in from
          ensures !Cyclic(ExpandVariable(env, {}, y))
        {
          assert !Cyclic(val(y));
        }
        NoCycle(env, {}, from, p);
      }
    }
  }

  /** A rank that falls along every reference rules self-references out. */
  lemma RankedNeverCyclic(env: Env, rank: Text -> nat, s: Text)
    requires forall x, y :: y in RefersTo(env, x) ==> rank(y) < rank(x)
    ensures !Cyclic(Expand(env, {}, s))
  {
    SelfReferenceIffCycle(env, s);
    forall p | Path(env, RefsWith(env, Values(env, {}), s), p)
      ensures !Repeats(p)
    {
      RankFalls(env, rank, RefsWith(env, Values(env, {}), s), p);
    }
  }

  lemma {:induction false} RankFalls(env: Env, rank: Text -> nat, from: set<Text>, p: seq<Text>)
    requires forall x, y :: y in RefersTo(env, x) ==> rank(y) < rank(x)
    requires Path(env, from, p)
    ensures forall i, j :: 0 <= i < j < |p| ==> rank(p[j]) < rank(p[i])
    decreases |p|
  {
    if |p| > 1 {
      RankFalls(env, rank, RefersTo(env, p[0]), p[1..]);
      assert p[1..][0] == p[1];
      assert forall k :: 1 <= k < |p| ==> p[k] == p[1..][k - 1];
    }
  }
}
