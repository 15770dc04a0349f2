/**
 Calls after the app thread has left.  Nothing will change the struct any more, so a call returns
 exactly if what it waits for is there already.
 */
module GlueExit {
  import opened GlueProtocol
  import opened GlueSafety
  import opened GlueSchedules
  import opened GlueProgress

  /** What a call asks for is what the struct has. */
  predicate Served(g: AndroidApp, call: Call) {
    match call
    case Create => g.running
    case SetInput(q) => g.inputQueue == q
    case SetWindow(w) => g.window == w
    case SetState(c) => g.activityState == c
    case Save => false
    case Free => g.destroyed
    case Post(_) => true
  }

  predicate Returned(m: MainPc) {
    m == Idle || m == Gone
  }

  // ----- a call that is not served

  /** The call under way waits, or will wait, for something that is not there. */
  predicate Stranded(s: State) {
    s.app == Exited &&
    match s.main
    case Locking(call) => !Served(s.g, call)
    case PendInput(q) => s.g.inputQueue != q
    case SendInput => s.g.inputQueue != s.g.pendingInputQueue
    case TermOld(w) => s.g.window != w
    case PendWindow(w) => s.g.window != w
    case SendInit(w) => s.g.window != w && s.g.pendingWindow == w
    case SendState(c) => s.g.activityState != c
    case ClearSaved => true
    case SendSave => !s.g.stateSaved
    case SendDestroy => !s.g.destroyed
    case Testing(w) => !Satisfied(s.g, w)
    case Asleep(w) => !Satisfied(s.g, w)
    case Woken(w) => !Satisfied(s.g, w)
    case _ => false
  }

  lemma StrandedStep(s: State, l: Label)
    requires Stranded(s) && MainShape(s.main) && Enabled(s, l)
    ensures Stranded(Step(s, l)) && MainShape(Step(s, l).main)
  {
  }

  lemma {:induction false} StrandedAfter(s: State, labels: seq<Label>)
    requires Stranded(s) && MainShape(s.main) && CanRun(s, labels)
    ensures Stranded(After(s, labels))
    decreases |labels|
  {
    if labels != [] {
      StrandedStep(s, labels[0]);
      StrandedAfter(Step(s, labels[0]), labels[1..]);
    }
  }

  // ----- a call that is served

  /** The call under way finds, or will find, what it waits for. */
  predicate Going(s: State) {
    s.app == Exited &&
    match s.main
    case Idle => true
    case Locking(call) => Served(s.g, call)
    case PendInput(q) => s.g.inputQueue == q
    case SendInput => s.g.inputQueue == s.g.pendingInputQueue
    case TermOld(w) => s.g.window == w
    case PendWindow(w) => s.g.window == w
    case SendInit(w) => s.g.window == w == s.g.pendingWindow
    case SendState(c) => s.g.activityState == c
    case SendDestroy => s.g.destroyed
    case Testing(w) => Satisfied(s.g, w)
    case Taking => true
    case Unlocking(_) => true
    case Releasing => true
    case Gone => true
    case _ => false
  }

  lemma GoingStep(s: State, l: Label)
    requires Going(s) && Exclusion(s) && MainShape(s.main) && !Returned(s.main) && l.Main?
    ensures Enabled(s, l) && CallRank(Step(s, l).main) < CallRank(s.main)
    ensures Going(Step(s, l)) && Exclusion(Step(s, l)) && MainShape(Step(s, l).main)
  {
  }

  predicate Returns(s: State, labels: seq<Label>) {
    CanRun(s, labels) && Returned(After(s, labels).main)
  }

  lemma {:induction false} GoingReturns(s: State) returns (labels: seq<Label>)
    requires Going(s) && Exclusion(s) && MainShape(s.main)
    ensures Returns(s, labels)
    decreases CallRank(s.main)
  {
    if Returned(s.main) {
      labels := [];
    } else {
      GoingStep(s, Main(Save));
      var rest := GoingReturns(Step(s, Main(Save)));
      labels := [Main(Save)] + rest;
      assert labels[1..] == rest;
    }
  }

  /** A call made after the exit can return exactly if it is served; else no schedule lets it. */
  lemma ExitedCallReturns(s: State, call: Call)
    requires s.app == Exited && s.main == Idle && Exclusion(s) && Enabled(s, Main(call))
    ensures (exists labels :: Returns(Step(s, Main(call)), labels)) <==> Served(s.g, call)
  {
    var t := Step(s, Main(call));
    CallBegins(s, call);
    if Served(s.g, call) {
      var labels := GoingReturns(t);
    } else {
      forall labels | CanRun(t, labels)
        ensures !Returned(After(t, labels).main)
      {
        StrandedAfter(t, labels);
      }
    }
  }

  lemma CallBegins(s: State, call: Call)
    requires s.app == Exited && s.main == Idle && Exclusion(s) && Enabled(s, Main(call))
    ensures var t := Step(s, Main(call));
      Exclusion(t) && MainShape(t.main) && if Served(s.g, call) then Going(t) else Stranded(t)
  {
  }

  // ----- the exit can come first

  /** Start-up, then android_main returns at once. */
  const EXIT := Times(App, 4) + Times(Main(Save), 3) + [MainReturns] + Times(App, 3) + Times(App, 4)

  lemma CreateReturns(a: State)
    requires a.main == Locking(Create) && a.mutex == Nobody && a.g.running
    ensures Leads(a, Times(Main(Save), 3), a.(main := Idle))
  {
    var b := a.(main := Testing(ForRunning), mutex := MainThread);
    var c := a.(main := Unlocking(ForRunning), mutex := MainThread);
    MainMoves(a, Save, Testing(ForRunning), MainThread);
    LeadsOnce(a, Main(Save), 0, a, b);
    MainMoves(b, Save, Unlocking(ForRunning), MainThread);
    LeadsOnce(a, Main(Save), 1, b, c);
    MainMoves(c, Save, Idle, Nobody);
    LeadsOnce(a, Main(Save), 2, c, a.(main := Idle));
  }

  lemma StartUp(s: State)
    requires Init(s)
    ensures Leads(s, Times(App, 4) + Times(Main(Save), 3), s.(g := s.g.(running := true), main := Idle, app := Polling))
  {
    var a := s.(g := s.g.(running := true), app := Polling);
    SectionRuns(s, Run);
    CreateReturns(a);
    LeadsConcat(s, Times(App, 4), a, Times(Main(Save), 3), a.(main := Idle));
  }

  /** free_saved_state on the way out. */
  lemma LastDrop(s: State)
    requires s.app == Crit(Drop(OnExit), Lock) && s.mutex == Nobody && s.main == Idle
    ensures Leads(s, Times(App, 3), Step(s.(app := Crit(Drop(OnExit), Write), mutex := AppThread), App)
                                      .(app := Crit(Exit, Lock), mutex := Nobody))
  {
    var a := s.(app := Crit(Drop(OnExit), Write), mutex := AppThread);
    AppMoves(s, s.g, a.app, AppThread);
    LeadsOnce(s, App, 0, s, a);
    var b := Step(a, App);
    LeadsOnce(s, App, 1, a, b);
    AppMoves(b, b.g, Crit(Exit, Lock), Nobody);
    LeadsOnce(s, App, 2, b, b.(app := Crit(Exit, Lock), mutex := Nobody));
  }

  /** From every start there is a run to an idle main thread with the app thread gone. */
  lemma ExitComesFirst(s: State) returns (t: State)
    requires Init(s)
    ensures Leads(s, EXIT, t) && t.app == Exited && t.main == Idle && t.mutex == Nobody
    ensures t.g.activityState == InputChanged && t.g.window == NULL && t.g.inputQueue == NULL
  {
    StartUp(s);
    var a := s.(g := s.g.(running := true), main := Idle, app := Polling);
    var b := a.(app := Crit(Drop(OnExit), Lock));
    LeadsOne(a, MainReturns, b);
    LeadsConcat(s, Times(App, 4) + Times(Main(Save), 3), a, [MainReturns], b);
    LastDrop(b);
    var c := Step(b.(app := Crit(Drop(OnExit), Write), mutex := AppThread), App)
             .(app := Crit(Exit, Lock), mutex := Nobody);
    LeadsConcat(s, Times(App, 4) + Times(Main(Save), 3) + [MainReturns], b, Times(App, 3), c);
    SectionRuns(c, Exit);
    t := c.(g := SectionWrites(Exit, c.g), app := AfterSection(Exit));
    LeadsConcat(s, Times(App, 4) + Times(Main(Save), 3) + [MainReturns] + Times(App, 3), c, Times(App, 4), t);
  }

  /** And then the first start callback never returns. */
  lemma StartIsStranded(s: State)
    requires Init(s)
    ensures exists t :: Leads(s, EXIT, t) && Enabled(t, Main(SetState(Start)))
                        && forall labels :: !Returns(Step(t, Main(SetState(Start))), labels)
  {
    var t := ExitComesFirst(s);
    ExitedCallReturns(t, SetState(Start));
  }

  // ----- infinite runs

  /** One move of a run in which android_main may return at any time. */
  ghost predicate Goes(s: State, m: Move, t: State) {
    match m
    case Stutter => t == s
    case Do(l) => Enabled(s, l) && t == Step(s, l)
  }

  lemma WaitStays(s: State, m: Move, t: State, w: Wait)
    requires Goes(s, m, t) && s.app == Exited && InWait(s.main, w) && !Satisfied(s.g, w)
    ensures t.app == Exited && InWait(t.main, w) && !Satisfied(t.g, w)
  {
  }

  /** After the exit, a call in a wait whose condition is false is in it at every later time. */
  lemma {:induction false} ExitStrandsCalls(run: nat -> State, move: nat -> Move, i: nat, k: nat, w: Wait)
    requires forall j: nat :: Goes(run(j), move(j), run(j + 1))
    requires run(i).app == Exited && InWait(run(i).main, w) && !Satisfied(run(i).g, w)
    requires i <= k
    ensures run(k).app == Exited && InWait(run(k).main, w) && !Satisfied(run(k).g, w)
  {
    if i < k {
      ExitStrandsCalls(run, move, i, k - 1, w);
      assert Goes(run(k - 1), move(k - 1), run(k));
      WaitStays(run(k - 1), move(k - 1), run(k), w);
    }
  }
}
