/**
 What a repeated announcement does to the promise that user code handling TERM_WINDOW still sees
 the window that goes away.
 */
module GlueRepeat {
  import opened GlueProtocol
  import opened GlueSafety
  import opened GlueWindow
  import opened GlueSchedules

  /** The promise of the header, in one state. */
  predicate Sees(s: State) {
    s.app == UserCode(TermWindow) ==> s.g.window == s.h.terminating
  }

  /** The windows announced by a schedule, in order. */
  function Announces(s: State, labels: seq<Label>): seq<Ptr>
    requires CanRun(s, labels)
    decreases |labels|
  {
    if labels == [] then []
    else Announced1(s, labels[0]) + Announces(Step(s, labels[0]), labels[1..])
  }

  function Announced1(s: State, l: Label): seq<Ptr> {
    if s.main == Idle && l.Main? && l.call.SetWindow? then [l.call.win] else []
  }

  /** A schedule with at most two announcements: `v`, then `w`. */
  predicate TwoCalls(s: State, labels: seq<Label>, v: Ptr, w: Ptr) {
    CanRun(s, labels) && Announces(s, labels) <= [v, w]
  }

  /** Nothing under way, and a window handed over or none. */
  ghost predicate Quiet(s: State) {
    Inv(s) && s.main == Idle && s.app == Polling && s.pipe == [] && s.g.window == s.g.pendingWindow
  }

  // ----- the second announcement may repeat the first

  /** TERM_WINDOW and INIT_WINDOW for the same window are on their way. */
  predicate Redoing(s: State) {
    var v := s.g.pendingWindow;
    || (WindowCmds(Pending(s)) == [TermWindow, InitWindow] && s.g.window == s.h.terminating == v)
    || (WindowCmds(Pending(s)) == [InitWindow] && s.g.window == NULL)
    || (WindowCmds(Pending(s)) == [] && s.g.window == v)
  }

  predicate Undoing(s: State) {
    || (WindowCmds(Pending(s)) == [TermWindow] && s.g.window == s.h.terminating == s.g.pendingWindow)
    || (WindowCmds(Pending(s)) == [] && s.g.window == NULL)
  }

  /** How far a repeated announcement has come. */
  predicate Again(s: State) {
    match s.main
    case Locking(SetWindow(w)) => w == s.g.pendingWindow != NULL && Settled(s)
    case TermOld(w) => w == s.g.pendingWindow != NULL && Settled(s)
    case PendWindow(w) => w == s.g.pendingWindow != NULL && Undoing(s)
    case SendInit(w) => w == s.g.pendingWindow != NULL && Undoing(s)
    case _ => Redoing(s)
  }

  lemma AgainSends(s: State, call: Call)
    requires s.main.TermOld? || s.main.PendWindow? || s.main.SendInit?
    requires Again(s) && MainEnabled(s.main, call, s.mutex)
    ensures Again(MainStep(s, call))
  {
    WindowMain(s, call);
  }

  lemma AgainNext(s: State, t: State, call: Call)
    requires Again(s) && Announced1(s, Main(call)) == [] && t.main == MainNext(s.main, call, s.g) && SameWindow(s, t)
    requires !(s.main.TermOld? || s.main.PendWindow? || s.main.SendInit?)
    ensures Again(t)
  {
  }

  lemma AgainMain(s: State, call: Call)
    requires MainShape(s.main) && Again(s) && MainEnabled(s.main, call, s.mutex) && Announced1(s, Main(call)) == []
    ensures Again(MainStep(s, call))
  {
    if s.main.TermOld? || s.main.PendWindow? || s.main.SendInit? {
      AgainSends(s, call);
    } else {
      MainKeepsWindow(s, call);
      AgainNext(s, MainStep(s, call), call);
    }
  }

  lemma AgainApp(s: State)
    requires Inv(s) && Again(s) && AppEnabled(s.app, s.pipe, s.mutex)
    ensures Again(AppStep(s))
  {
    WindowApp(s);
  }

  lemma AgainStep(s: State, l: Label)
    requires Inv(s) && Again(s) && Enabled(s, l) && Announced1(s, l) == []
    ensures Again(Step(s, l))
  {
    match l
    case Main(call) => AgainMain(s, call);
    case App => AgainApp(s);
    case _ => assert Pending(Step(s, l)) == Pending(s);
  }

  lemma AgainSees(s: State)
    requires Again(s)
    ensures Sees(s)
  {
    if s.app == UserCode(TermWindow) {
      assert Pending(s) == [TermWindow] + s.pipe;
      assert WindowCmds(Pending(s))[0] == TermWindow;
    }
  }

  // ----- two announcements, the first of them new

  /** The main thread is inside a set_window call. */
  predicate Windowing(m: MainPc) {
    || (m.Locking? && m.call.SetWindow?) || m.TermOld? || m.PendWindow? || m.SendInit?
    || ((Waits(m) || m.Unlocking?) && m.wait.ForWindow?)
  }

  /** What holds while the announcements `left` are still to come. */
  predicate Stage(s: State, left: seq<Ptr>) {
    if |left| >= 2 then Settled(s) && !Windowing(s.main) && Fresh(left[0], s.g.pendingWindow)
    else if |left| == 1 then HandOff(s)
    else HandOff(s) || Again(s)
  }

  lemma StageFirst(s: State, l: Label, left: seq<Ptr>)
    requires Inv(s) && |left| == 2 && Stage(s, left) && Enabled(s, l) && Announced1(s, l) <= left
    ensures Stage(Step(s, l), left[|Announced1(s, l)|..])
  {
    assert HandOff(s);
    HandOffStep(s, l);
    if Announced1(s, l) == [] {
      assert left[0..] == left;
      NotWindowing(s, l);
    }
  }

  lemma NotWindowing(s: State, l: Label)
    requires Enabled(s, l) && !Windowing(s.main) && Announced1(s, l) == []
    ensures !Windowing(Step(s, l).main) && Step(s, l).g.pendingWindow == s.g.pendingWindow
  {
  }

  lemma StageSecond(s: State, l: Label, left: seq<Ptr>)
    requires Inv(s) && |left| == 1 && Stage(s, left) && Enabled(s, l) && Announced1(s, l) <= left
    ensures Stage(Step(s, l), left[|Announced1(s, l)|..])
  {
    if NoRepeat(s, l) {
      HandOffStep(s, l);
    } else {
      assert s.pipe + [] == s.pipe && Pending(Step(s, l)) == Pending(s);
    }
  }

  lemma StageStep(s: State, l: Label, left: seq<Ptr>)
    requires Inv(s) && |left| <= 2 && Stage(s, left) && Enabled(s, l) && Announced1(s, l) <= left
    ensures Stage(Step(s, l), left[|Announced1(s, l)|..])
  {
    if |left| == 2 {
      StageFirst(s, l, left);
    } else if |left| == 1 {
      StageSecond(s, l, left);
    } else if HandOff(s) {
      HandOffStep(s, l);
    } else {
      AgainStep(s, l);
    }
  }

  lemma HandOffSees(s: State)
    requires HandOff(s)
    ensures Sees(s)
  {
    if s.app == UserCode(TermWindow) {
      assert Pending(s) == [TermWindow] + s.pipe;
      assert WindowCmds(Pending(s))[0] == TermWindow;
    }
  }

  lemma StageSees(s: State, left: seq<Ptr>)
    requires Stage(s, left)
    ensures Sees(s)
  {
    if HandOff(s) {
      HandOffSees(s);
    } else if |left| < 2 {
      AgainSees(s);
    } else {
      assert HandOff(s);
    }
  }

  lemma {:induction false} AllSee(s: State, labels: seq<Label>, left: seq<Ptr>)
    requires Inv(s) && |left| <= 2 && Stage(s, left) && CanRun(s, labels) && Announces(s, labels) <= left
    ensures Sees(After(s, labels))
    decreases |labels|
  {
    if labels == [] {
      StageSees(s, left);
    } else {
      var l, now := labels[0], Announced1(s, labels[0]);
      var later := Announces(Step(s, l), labels[1..]);
      assert now <= left && later <= left[|now|..] by {
        assert (now + later)[..|now|] == now && (now + later)[|now|..] == later;
      }
      StageStep(s, l, left);
      StepInv(s, l);
      AllSee(Step(s, l), labels[1..], left[|now|..]);
    }
  }

  // ----- two announcements, the first of them repeated

  /** The labels lead from `s` to `t` and announce `ws`. */
  predicate Says(s: State, labels: seq<Label>, t: State, ws: seq<Ptr>) {
    Leads(s, labels, t) && Announces(s, labels) == ws
  }

  lemma {:induction false} SaysConcat(s: State, a: seq<Label>, t: State, b: seq<Label>, u: State,
                                      ws: seq<Ptr>, xs: seq<Ptr>)
    requires Says(s, a, t, ws) && Says(t, b, u, xs)
    ensures Says(s, a + b, u, ws + xs)
    decreases |a|
  {
    if a == [] {
      assert a + b == b && ws + xs == xs;
    } else {
      var first, s' := Announced1(s, a[0]), Step(s, a[0]);
      assert (a + b)[1..] == a[1..] + b && (a + b)[0] == a[0];
      SaysConcat(s', a[1..], t, b, u, Announces(s', a[1..]), xs);
      assert Announces(s, a + b) == first + Announces(s', a[1..] + b);
      assert first + (Announces(s', a[1..]) + xs) == ws + xs;
    }
  }

  lemma SaysOne(s: State, l: Label, t: State, ws: seq<Ptr>)
    requires Enabled(s, l) && Step(s, l) == t && Announced1(s, l) == ws
    ensures Says(s, [l], t, ws)
  {
    LeadsOne(s, l, t);
    assert [l][1..] == [] && Announces(t, []) == [] && ws + [] == ws;
    assert Announces(s, [l]) == Announced1(s, [l][0]) + Announces(t, [l][1..]);
  }

  lemma SaysOnce(s: State, a: seq<Label>, t: State, ws: seq<Ptr>, l: Label, u: State)
    requires Says(s, a, t, ws) && Enabled(t, l) && Step(t, l) == u && Announced1(t, l) == []
    ensures Says(s, a + [l], u, ws)
  {
    SaysOne(t, l, u, []);
    SaysConcat(s, a, t, [l], u, ws, []);
    assert ws + [] == ws;
  }

  predicate AllApp(labels: seq<Label>) {
    forall l :: l in labels ==> l == App
  }

  lemma {:induction false} AppIsSilent(s: State, labels: seq<Label>)
    requires CanRun(s, labels) && AllApp(labels)
    ensures Announces(s, labels) == []
    decreases |labels|
  {
    if labels != [] {
      assert labels[0] in labels;
      assert forall l :: l in labels[1..] ==> l in labels;
      AppIsSilent(Step(s, labels[0]), labels[1..]);
    }
  }

  /** Sending TERM_WINDOW for the window announced before. */
  lemma SendsTerm(s: State, call: Call, w: Ptr)
    requires s.main == TermOld(w) && s.g.pendingWindow != NULL
    ensures Enabled(s, Main(call))
    ensures Step(s, Main(call))
         == s.(main := PendWindow(w), pipe := s.pipe + [TermWindow], h := s.h.(terminating := s.g.pendingWindow))
  {
  }

  lemma SendsInit(s: State, call: Call, w: Ptr)
    requires s.main == SendInit(w) && w != NULL
    ensures Enabled(s, Main(call))
    ensures Step(s, Main(call)) == s.(main := Testing(ForWindow(w)), pipe := s.pipe + [InitWindow])
  {
  }

  lemma Pends(s: State, call: Call, w: Ptr)
    requires s.main == PendWindow(w)
    ensures Enabled(s, Main(call)) && Step(s, Main(call)) == s.(main := SendInit(w), g := s.g.(pendingWindow := w))
  {
    assert s.pipe + [] == s.pipe;
  }

  /** The first statements of any set_window call over an old window. */
  lemma CallOpens(s: State, w: Ptr) returns (labels: seq<Label>)
    requires s.main == Idle && s.mutex == Nobody && s.g.pendingWindow != NULL
    ensures Says(s, labels, s.(main := SendInit(w), mutex := MainThread, pipe := s.pipe + [TermWindow],
                               g := s.g.(pendingWindow := w), h := s.h.(terminating := s.g.pendingWindow)), [w])
  {
    var call, l := SetWindow(w), Main(SetWindow(w));
    var s1 := s.(main := Locking(call));
    MainMoves(s, call, Locking(call), Nobody);
    SaysOne(s, l, s1, [w]);
    var s2 := s.(main := TermOld(w), mutex := MainThread);
    MainMoves(s1, call, TermOld(w), MainThread);
    SaysOnce(s, [l], s1, [w], l, s2);
    var s3 := s2.(main := PendWindow(w), pipe := s.pipe + [TermWindow], h := s.h.(terminating := s.g.pendingWindow));
    SendsTerm(s2, call, w);
    SaysOnce(s, [l] + [l], s2, [w], l, s3);
    Pends(s3, call, w);
    SaysOnce(s, [l] + [l] + [l], s3, [w], l, s3.(main := SendInit(w), g := s.g.(pendingWindow := w)));
    labels := [l] + [l] + [l] + [l];
  }

  /** The end of a set_window call whose wait is over at once. */
  lemma CallCloses(s: State, w: Ptr)
    requires s.main == SendInit(w) && s.mutex == MainThread && s.g.window == s.g.pendingWindow == w != NULL
    ensures Says(s, [Main(SetWindow(w))] + [Main(SetWindow(w))] + [Main(SetWindow(w))],
                 s.(main := Idle, mutex := Nobody, pipe := s.pipe + [InitWindow]), [])
  {
    var l := Main(SetWindow(w));
    var a := s.(main := Testing(ForWindow(w)), pipe := s.pipe + [InitWindow]);
    SendsInit(s, SetWindow(w), w);
    SaysOne(s, l, a, []);
    var b := a.(main := Unlocking(ForWindow(w)));
    MainMoves(a, SetWindow(w), b.main, MainThread);
    SaysOnce(s, [l], a, [], l, b);
    MainMoves(b, SetWindow(w), Idle, Nobody);
    SaysOnce(s, [l] + [l], b, [], l, b.(main := Idle, mutex := Nobody));
  }

  /** The installed window announced again: the call returns with both commands unserved. */
  lemma RepeatReturns(s: State, w: Ptr) returns (labels: seq<Label>)
    requires s.main == Idle && s.mutex == Nobody && s.g.window == s.g.pendingWindow == w != NULL
    ensures Says(s, labels, s.(pipe := s.pipe + [TermWindow] + [InitWindow], h := s.h.(terminating := w)), [w])
  {
    var l := Main(SetWindow(w));
    var a := CallOpens(s, w);
    var s4 := s.(main := SendInit(w), mutex := MainThread, pipe := s.pipe + [TermWindow], h := s.h.(terminating := w));
    assert s.g.(pendingWindow := w) == s.g;
    CallCloses(s4, w);
    labels := a + ([l] + [l] + [l]);
    SaysConcat(s, a, s4, [l] + [l] + [l],
               s.(pipe := s.pipe + [TermWindow] + [InitWindow], h := s.h.(terminating := w)), [w], []);
    assert [w] + [] == [w];
  }

  /** Then the window is taken away: the call goes to sleep behind three commands. */
  lemma DestroySleeps(s: State) returns (labels: seq<Label>)
    requires s.main == Idle && s.mutex == Nobody && s.g.window == s.g.pendingWindow != NULL
    ensures Says(s, labels, s.(main := Asleep(ForWindow(NULL)), pipe := s.pipe + [TermWindow],
                               g := s.g.(pendingWindow := NULL), h := s.h.(terminating := s.g.window)), [NULL])
  {
    var l := Main(SetWindow(NULL));
    var a := CallOpens(s, NULL);
    var s4 := s.(main := SendInit(NULL), mutex := MainThread, pipe := s.pipe + [TermWindow],
                 g := s.g.(pendingWindow := NULL), h := s.h.(terminating := s.g.window));
    var s5 := s4.(main := Testing(ForWindow(NULL)));
    MainMoves(s4, SetWindow(NULL), s5.main, MainThread);
    SaysOnce(s, a, s4, [NULL], l, s5);
    MainMoves(s5, SetWindow(NULL), Asleep(ForWindow(NULL)), Nobody);
    SaysOnce(s, a + [l], s5, [NULL], l, s5.(main := Asleep(ForWindow(NULL)), mutex := Nobody));
    labels := a + [l] + [l];
  }

  // the app thread then serves the three commands

  /** TERM_WINDOW, up to its handler. */
  lemma TermReaches(s: State, rest: seq<Cmd>) returns (labels: seq<Label>)
    requires s.app == Polling && s.pipe == [TermWindow] + rest
    ensures AllApp(labels) && Leads(s, labels, s.(pipe := rest, app := UserCode(TermWindow), main := Wake(s.main)))
  {
    var a := s.(pipe := rest, app := PreExec(TermWindow));
    AppReads(s, TermWindow, rest);
    LeadsOne(s, App, a);
    LeadsOne(a, App, a.(app := UserCode(TermWindow), main := Wake(s.main)));
    labels := [App] + [App];
    LeadsConcat(s, [App], a, [App], a.(app := UserCode(TermWindow), main := Wake(s.main)));
  }

  /** And from its handler on: the window is gone. */
  lemma TermFinishes(s: State) returns (labels: seq<Label>)
    requires s.app == UserCode(TermWindow) && s.mutex == Nobody && !s.main.Asleep?
    ensures AllApp(labels) && Leads(s, labels, s.(app := Polling, g := s.g.(window := NULL)))
  {
    var a := s.(app := Crit(Fin(TermWindow), Lock));
    AppMoves(s, s.g, a.app, Nobody);
    LeadsOne(s, App, a);
    SectionRuns(a, Fin(TermWindow));
    labels := [App] + Times(App, 4);
    TimesApp(4);
    LeadsConcat(s, [App], a, Times(App, 4), s.(app := Polling, g := s.g.(window := NULL)));
  }

  lemma {:induction false} TimesApp(n: nat)
    ensures AllApp(Times(App, n))
  {
    if n > 0 {
      TimesApp(n - 1);
    }
  }

  /** INIT_WINDOW installs whatever is pending by then. */
  lemma InitServed(s: State, rest: seq<Cmd>) returns (labels: seq<Label>)
    requires s.app == Polling && s.pipe == [InitWindow] + rest && s.mutex == Nobody && !s.main.Asleep?
    ensures AllApp(labels) && Leads(s, labels, s.(pipe := rest, g := s.g.(window := s.g.pendingWindow)))
  {
    var a := s.(pipe := rest, app := Crit(Pre(InitWindow), Lock));
    AppReads(s, InitWindow, rest);
    LeadsOne(s, App, a);
    var b := a.(app := UserCode(InitWindow), g := s.g.(window := s.g.pendingWindow));
    SectionRuns(a, Pre(InitWindow));
    LeadsConcat(s, [App], a, Times(App, 4), b);
    AppMoves(b, b.g, Polling, Nobody);
    LeadsOne(b, App, b.(app := Polling));
    LeadsConcat(s, [App] + Times(App, 4), b, [App], b.(app := Polling));
    TimesApp(4);
    labels := [App] + Times(App, 4) + [App];
  }

  /** The handler of the second TERM_WINDOW finds no window, where it should find `w`. */
  lemma HandlerFindsNone(s: State, w: Ptr) returns (labels: seq<Label>)
    requires s.app == Polling && s.pipe == [TermWindow, InitWindow, TermWindow] && s.mutex == Nobody
    requires s.main == Asleep(ForWindow(NULL)) && s.g.pendingWindow == NULL && s.h.terminating == w
    ensures AllApp(labels) && CanRun(s, labels)
    ensures var t := After(s, labels); t.app == UserCode(TermWindow) && t.g.window == NULL && t.h.terminating == w
  {
    assert s.pipe == [TermWindow] + [InitWindow, TermWindow];
    var la := TermReaches(s, [InitWindow, TermWindow]);
    var a := s.(pipe := [InitWindow, TermWindow], app := UserCode(TermWindow), main := Wake(s.main));
    var lb := TermFinishes(a);
    var b := a.(app := Polling, g := s.g.(window := NULL));
    LeadsConcat(s, la, a, lb, b);
    assert b.pipe == [InitWindow] + [TermWindow];
    var lc := InitServed(b, [TermWindow]);
    var c := b.(pipe := [TermWindow]);
    assert b.g.(window := b.g.pendingWindow) == b.g;
    LeadsConcat(s, la + lb, b, lc, c);
    assert c.pipe == [TermWindow] + [];
    var ld := TermReaches(c, []);
    labels := la + lb + lc + ld;
    LeadsConcat(s, la + lb + lc, c, ld, c.(pipe := [], app := UserCode(TermWindow), main := Wake(c.main)));
  }

  /** The installed window announced again, then taken away: a schedule that breaks the promise. */
  lemma RepeatBreaks(s: State, w: Ptr) returns (labels: seq<Label>)
    requires Quiet(s) && s.g.window == w != NULL
    ensures TwoCalls(s, labels, w, NULL)
    ensures var t := After(s, labels); t.app == UserCode(TermWindow) && t.g.window == NULL && t.h.terminating == w
  {
    var la := RepeatReturns(s, w);
    var a := s.(pipe := s.pipe + [TermWindow] + [InitWindow], h := s.h.(terminating := w));
    var lb := DestroySleeps(a);
    var b := a.(main := Asleep(ForWindow(NULL)), pipe := a.pipe + [TermWindow], g := s.g.(pendingWindow := NULL));
    SaysConcat(s, la, a, lb, b, [w], [NULL]);
    assert b.pipe == [TermWindow, InitWindow, TermWindow];
    var lc := HandlerFindsNone(b, w);
    AppIsSilent(b, lc);
    SaysConcat(s, la + lb, b, lc, After(b, lc), [w] + [NULL], []);
    labels := la + lb + lc;
    assert [w] + [NULL] + [] == [w, NULL];
  }

  /**
   Over two announcements, every handler of TERM_WINDOW sees the window it terminates exactly if
   the first does not repeat the window that is installed.
   */
  lemma TermPromiseIff(s: State, v: Ptr)
    requires Quiet(s)
    ensures (forall w, labels :: TwoCalls(s, labels, v, w) ==> Sees(After(s, labels))) <==> Fresh(v, s.g.pendingWindow)
  {
    if Fresh(v, s.g.pendingWindow) {
      forall w, labels | TwoCalls(s, labels, v, w)
        ensures Sees(After(s, labels))
      {
        assert Pending(s) == [];
        AllSee(s, labels, [v, w]);
      }
    } else {
      var labels := RepeatBreaks(s, v);
      assert !Sees(After(s, labels));
    }
  }
}
