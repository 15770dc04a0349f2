/** Schedules: the labels of a run from any state, and the state they lead to. */
module GlueSchedules {
  import opened GlueProtocol
  import opened GlueSafety

  predicate CanRun(s: State, labels: seq<Label>)
    decreases |labels|
  {
    labels == [] || (Enabled(s, labels[0]) && CanRun(Step(s, labels[0]), labels[1..]))
  }

  function After(s: State, labels: seq<Label>): State
    requires CanRun(s, labels)
    decreases |labels|
  {
    if labels == [] then s else After(Step(s, labels[0]), labels[1..])
  }

  /** The labels lead from `s` to `t`. */
  predicate Leads(s: State, labels: seq<Label>, t: State) {
    CanRun(s, labels) && After(s, labels) == t
  }

  lemma {:induction false} LeadsConcat(s: State, a: seq<Label>, t: State, b: seq<Label>, u: State)
    requires Leads(s, a, t) && Leads(t, b, u)
    ensures Leads(s, a + b, u)
    decreases |a|
  {
    if a == [] {
      assert a + b == b;
    } else {
      assert (a + b)[1..] == a[1..] + b;
      LeadsConcat(Step(s, a[0]), a[1..], t, b, u);
    }
  }

  lemma LeadsOne(s: State, l: Label, t: State)
    requires Enabled(s, l) && Step(s, l) == t
    ensures Leads(s, [l], t)
  {
    assert [l][1..] == [];
  }

  /** The same label again and again. */
  function Times(l: Label, n: nat): seq<Label> {
    if n == 0 then [] else Times(l, n - 1) + [l]
  }

  lemma LeadsOnce(s: State, l: Label, n: nat, t: State, u: State)
    requires Leads(s, Times(l, n), t) && Enabled(t, l) && Step(t, l) == u
    ensures Leads(s, Times(l, n + 1), u)
  {
    LeadsOne(t, l, u);
    LeadsConcat(s, Times(l, n), t, [l], u);
  }

  // ----- single statements, with only what they change

  /** A main statement that sends nothing and changes no field. */
  lemma MainMoves(s: State, call: Call, m: MainPc, mutex: Holder)
    requires MainEnabled(s.main, call, s.mutex) && s.main != Releasing
    requires MainSends(s.main, call, s.g) == [] && MainWrites(s.main, s.g) == s.g && MainNotes(s.main, s.g, s.h) == s.h
    requires MainNext(s.main, call, s.g) == m && MainLocks(s.main, s.g, s.mutex) == mutex
    ensures Enabled(s, Main(call)) && Step(s, Main(call)) == s.(main := m, mutex := mutex)
  {
    assert s.pipe + [] == s.pipe;
  }

  /** An app statement that neither reads the pipe nor wakes the main thread. */
  lemma AppMoves(s: State, g: AndroidApp, a: AppPc, mutex: Holder)
    requires AppEnabled(s.app, s.pipe, s.mutex) && s.app != Polling
    requires Broadcasts(s.app) ==> !s.main.Asleep?
    requires AppNotes(s.app, s.g, s.h) == s.h && AppWrites(s.app, s.g) == g
    requires AppNext(s.app, s.pipe) == a && AppLocks(s.app, s.mutex) == mutex
    ensures Enabled(s, App) && Step(s, App) == s.(g := g, app := a, mutex := mutex)
  {
  }

  /** The app thread reads a command. */
  lemma AppReads(s: State, c: Cmd, rest: seq<Cmd>)
    requires s.app == Polling && s.pipe == [c] + rest
    ensures Enabled(s, App) && Step(s, App) == s.(pipe := rest, app := AfterRead(c))
  {
    assert s.pipe[1..] == rest;
  }

  /** A critical section of the app thread, undisturbed. */
  lemma SectionRuns(s: State, sec: Section)
    requires s.app == Crit(sec, Lock) && s.mutex == Nobody && !sec.Drop? && !s.main.Asleep?
    ensures Leads(s, Times(App, 4), s.(g := SectionWrites(sec, s.g), app := AfterSection(sec)))
  {
    var g := SectionWrites(sec, s.g);
    var s1 := s.(app := Crit(sec, Write), mutex := AppThread);
    var s2 := s.(g := g, app := Crit(sec, Broadcast), mutex := AppThread);
    var s3 := s.(g := g, app := Crit(sec, Unlock), mutex := AppThread);
    var s4 := s.(g := g, app := AfterSection(sec));
    AppMoves(s, s.g, Crit(sec, Write), AppThread);
    LeadsOnce(s, App, 0, s, s1);
    AppMoves(s1, g, Crit(sec, Broadcast), AppThread);
    LeadsOnce(s, App, 1, s1, s2);
    AppMoves(s2, g, Crit(sec, Unlock), AppThread);
    LeadsOnce(s, App, 2, s2, s3);
    AppMoves(s3, g, AfterSection(sec), Nobody);
    LeadsOnce(s, App, 3, s3, s4);
  }
}
