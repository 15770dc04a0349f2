/**
 The window hand-off.  As long as the framework does not announce the window it has already
 announced, a set_window call returns with the window installed and nothing in flight, and
 user code handling TERM_WINDOW still sees the window that is going away.
 */
module GlueWindow {
  import opened GlueProtocol
  import opened GlueSafety

  /** The window commands among `p`, in order. */
  function WindowCmds(p: seq<Cmd>): seq<Cmd> {
    if p == [] then []
    else (if p[0] == InitWindow || p[0] == TermWindow then [p[0]] else []) + WindowCmds(p[1..])
  }

  lemma {:induction false} WindowCmdsConcat(p: seq<Cmd>, q: seq<Cmd>)
    ensures WindowCmds(p + q) == WindowCmds(p) + WindowCmds(q)
  {
    if p == [] {
      assert p + q == q;
    } else {
      var head := if p[0] == InitWindow || p[0] == TermWindow then [p[0]] else [];
      assert (p + q)[1..] == p[1..] + q && (p + q)[0] == p[0];
      WindowCmdsConcat(p[1..], q);
      assert WindowCmds(p + q) == head + (WindowCmds(p[1..]) + WindowCmds(q));
      assert WindowCmds(p) == head + WindowCmds(p[1..]);
    }
  }

  /** No window command is in flight and the app has the window last announced. */
  predicate Settled(s: State) {
    WindowCmds(Pending(s)) == [] && s.g.window == s.g.pendingWindow
  }

  /** The old window, if there was one, is being taken away; nothing else is in flight. */
  predicate TakingAway(s: State) {
    || (WindowCmds(Pending(s)) == [TermWindow] && s.g.window == s.h.terminating != NULL)
    || (WindowCmds(Pending(s)) == [] && s.g.window == NULL)
  }

  /** As above, with the INIT_WINDOW for the new window behind it. */
  predicate Installing(s: State) {
    || (WindowCmds(Pending(s)) == [TermWindow, InitWindow] && s.g.window == s.h.terminating != NULL
        && s.h.terminating != s.g.pendingWindow)
    || (WindowCmds(Pending(s)) == [InitWindow] && s.g.window == NULL)
    || Settled(s)
  }

  /** `w` is not a second announcement of the window the framework announced last. */
  predicate Fresh(w: Ptr, announced: Ptr) {
    w == NULL || w != announced
  }

  /** How far a hand-off has come, by the main thread's program counter. */
  predicate HandOff(s: State) {
    match s.main
    case Locking(SetWindow(w)) => Settled(s) && Fresh(w, s.g.pendingWindow)
    case TermOld(w) => Settled(s) && Fresh(w, s.g.pendingWindow)
    case PendWindow(w) => TakingAway(s) && (s.g.window != NULL ==> w != s.g.window)
    case SendInit(w) => TakingAway(s) && (s.g.window != NULL ==> w != s.g.window) && s.g.pendingWindow == w
    case Testing(ForWindow(w)) => s.g.pendingWindow == w && if w == NULL then TakingAway(s) else Installing(s)
    case Asleep(ForWindow(w)) => s.g.pendingWindow == w && if w == NULL then TakingAway(s) else Installing(s)
    case Woken(ForWindow(w)) => s.g.pendingWindow == w && if w == NULL then TakingAway(s) else Installing(s)
    case Unlocking(ForWindow(w)) => s.g.pendingWindow == w && Settled(s)
    case _ => Settled(s)
  }

  /** The framework does not repeat an announcement. */
  predicate NoRepeat(s: State, l: Label) {
    s.main == Idle && l.Main? && l.call.SetWindow? ==> Fresh(l.call.win, s.g.pendingWindow)
  }

  /** The window commands owed after a main step. */
  lemma WindowMain(s: State, call: Call)
    requires MainEnabled(s.main, call, s.mutex)
    ensures WindowCmds(Pending(MainStep(s, call))) == WindowCmds(Pending(s)) + WindowCmds(MainSends(s.main, call, s.g))
  {
    PendingMain(s, call);
    var sent := MainSends(s.main, call, s.g);
    assert Pending(MainStep(s, call)) == Pending(s) + sent;
    WindowCmdsConcat(Pending(s), sent);
  }

  lemma HandOffSend(s: State, call: Call)
    requires s.main.TermOld? || s.main.PendWindow? || s.main.SendInit?
    requires HandOff(s) && MainEnabled(s.main, call, s.mutex)
    ensures HandOff(MainStep(s, call))
  {
    WindowMain(s, call);
  }

  lemma HandOffMain(s: State, call: Call)
    requires MainShape(s.main) && HandOff(s) && MainEnabled(s.main, call, s.mutex) && NoRepeat(s, Main(call))
    ensures HandOff(MainStep(s, call))
  {
    if s.main.TermOld? || s.main.PendWindow? || s.main.SendInit? {
      HandOffSend(s, call);
    } else {
      MainKeepsWindow(s, call);
      HandOffNext(s, MainStep(s, call), call);
    }
  }

  /** Only set_window touches the window and its commands. */
  lemma MainKeepsWindow(s: State, call: Call)
    requires MainShape(s.main) && MainEnabled(s.main, call, s.mutex)
    requires !(s.main.TermOld? || s.main.PendWindow? || s.main.SendInit?)
    ensures var t := MainStep(s, call);
      && t.main == MainNext(s.main, call, s.g) && SameWindow(s, t)
  {
    WindowMain(s, call);
    assert WindowCmds(MainSends(s.main, call, s.g)) == [];
  }

  predicate SameWindow(s: State, t: State) {
    && t.g.window == s.g.window && t.g.pendingWindow == s.g.pendingWindow && t.h.terminating == s.h.terminating
    && WindowCmds(Pending(t)) == WindowCmds(Pending(s))
  }

  lemma HandOffNext(s: State, t: State, call: Call)
    requires HandOff(s) && NoRepeat(s, Main(call)) && t.main == MainNext(s.main, call, s.g) && SameWindow(s, t)
    requires !(s.main.TermOld? || s.main.PendWindow? || s.main.SendInit?)
    ensures HandOff(t)
  {
  }

  /** An app step leaves the window and its commands alone, or settles the oldest window command. */
  lemma WindowApp(s: State)
    requires AppShape(s.app) && AppEnabled(s.app, s.pipe, s.mutex)
    ensures var t := AppStep(s); var cmds, rest := WindowCmds(Pending(s)), WindowCmds(Pending(t));
      && t.g.pendingWindow == s.g.pendingWindow && t.h.terminating == s.h.terminating
      && (|| (rest == cmds && t.g.window == s.g.window)
          || (cmds != [] && cmds[0] == TermWindow && rest == cmds[1..] && t.g.window == NULL)
          || (cmds != [] && cmds[0] == InitWindow && rest == cmds[1..]
              && t.g.window == s.g.pendingWindow && AppHolds(s.app)))
  {
    PendingApp(s);
    WindowCmdsConcat(Held(s.app), Pending(AppStep(s)));
  }

  lemma HandOffApp(s: State)
    requires AppShape(s.app) && Exclusion(s) && HandOff(s) && AppEnabled(s.app, s.pipe, s.mutex)
    ensures HandOff(AppStep(s))
  {
    WindowApp(s);
    var t := AppStep(s);
    assert t.main == s.main || (s.main.Asleep? && t.main == Woken(s.main.wait));
    assert [TermWindow, InitWindow][1..] == [InitWindow];
  }

  lemma HandOffStep(s: State, l: Label)
    requires Inv(s) && HandOff(s) && Enabled(s, l) && NoRepeat(s, l)
    ensures HandOff(Step(s, l))
  {
    match l
    case Main(call) => HandOffMain(s, call);
    case App => HandOffApp(s);
    case _ => assert Pending(Step(s, l)) == Pending(s);
  }

  /** A run in which no announcement is repeated. */
  ghost predicate Announced(states: seq<State>, labels: seq<Label>) {
    IsRun(states, labels) && forall i :: 0 <= i < |labels| ==> NoRepeat(states[i], labels[i])
  }

  lemma InitHandOff(s: State)
    requires Init(s)
    ensures HandOff(s)
  {
  }

  lemma {:induction false} RunHandOff(states: seq<State>, labels: seq<Label>, i: nat)
    requires Announced(states, labels) && i <= |labels|
    ensures HandOff(states[i])
  {
    if i == 0 {
      InitHandOff(states[0]);
    } else {
      RunHandOff(states, labels, i - 1);
      RunInv(states, labels, i - 1);
      assert TakesStep(states, labels, i - 1);
      HandOffStep(states[i - 1], labels[i - 1]);
    }
  }

  /** The main thread is inside android_app_set_window. */
  predicate InSetWindow(m: MainPc) {
    m.PendWindow? || m.SendInit? || (Waits(m) && m.wait.ForWindow?)
  }

  /**
   When android_app_set_window(w) returns, `window` is w and no window command is in flight;
   and so it stays, with `window` the one announced last, until the next such call.
   */
  lemma WindowIsAnnounced(states: seq<State>, labels: seq<Label>, i: nat)
    requires Announced(states, labels) && i <= |labels|
    ensures forall w :: states[i].main == Unlocking(ForWindow(w)) ==> states[i].g.window == w
    ensures !InSetWindow(states[i].main) ==> states[i].g.window == states[i].g.pendingWindow
    ensures !InSetWindow(states[i].main) ==> InitWindow !in Pending(states[i]) && TermWindow !in Pending(states[i])
  {
    RunHandOff(states, labels, i);
    if WindowCmds(Pending(states[i])) == [] {
      NoWindowCmds(Pending(states[i]));
    }
  }

  lemma {:induction false} NoWindowCmds(p: seq<Cmd>)
    requires WindowCmds(p) == []
    ensures InitWindow !in p && TermWindow !in p
  {
    if p != [] {
      NoWindowCmds(p[1..]);
      assert p == [p[0]] + p[1..];
    }
  }

  /** User code handling TERM_WINDOW still sees the window that the main thread is replacing. */
  lemma TermSeesOldWindow(states: seq<State>, labels: seq<Label>, i: nat)
    requires Announced(states, labels) && i <= |labels|
    requires states[i].app == UserCode(TermWindow)
    ensures states[i].g.window == states[i].h.terminating != NULL
    ensures InSetWindow(states[i].main)
  {
    RunHandOff(states, labels, i);
    assert Pending(states[i]) == [TermWindow] + states[i].pipe;
    assert WindowCmds(Pending(states[i]))[0] == TermWindow;
  }

  /** The main thread is not on its way to install a window. */
  predicate NotInstalling(m: MainPc) {
    match m
    case Locking(SetWindow(w)) => w == NULL
    case TermOld(w) => w == NULL
    case PendWindow(w) => w == NULL
    case SendInit(w) => w == NULL
    case _ => true
  }

  /** A window-created callback begins. */
  predicate Installs(s: State, l: Label) {
    s.main == Idle && l.Main? && l.call.SetWindow? && l.call.win != NULL
  }

  /** No window, none announced, none on its way. */
  predicate NoWindow(s: State) {
    Settled(s) && s.g.pendingWindow == NULL && NotInstalling(s.main)
  }

  lemma NoWindowMain(s: State, call: Call)
    requires MainShape(s.main) && MainEnabled(s.main, call, s.mutex) && NoWindow(s) && !Installs(s, Main(call))
    ensures NoWindow(MainStep(s, call))
  {
    WindowMain(s, call);
    assert WindowCmds(MainSends(s.main, call, s.g)) == [];
  }

  lemma NoWindowStep(s: State, l: Label)
    requires Shape(s) && Enabled(s, l) && NoWindow(s) && !Installs(s, l)
    ensures NoWindow(Step(s, l))
  {
    match l
    case Main(call) => NoWindowMain(s, call);
    case App => WindowApp(s);
    case _ => assert Pending(Step(s, l)) == Pending(s);
  }

  lemma NoWindowAfterDestroy(states: seq<State>, labels: seq<Label>, i: nat)
    requires Announced(states, labels) && i <= |labels| && states[i].main == Unlocking(ForWindow(NULL))
    ensures NoWindow(states[i])
  {
    RunHandOff(states, labels, i);
  }

  lemma NoWindowNext(states: seq<State>, labels: seq<Label>, i: nat)
    requires IsRun(states, labels) && i < |labels| && NoWindow(states[i]) && !Installs(states[i], labels[i])
    ensures NoWindow(states[i + 1])
  {
    RunInv(states, labels, i);
    assert TakesStep(states, labels, i);
    NoWindowStep(states[i], labels[i]);
  }

  /**
   From the return of a window-destroyed callback until the next window-created one, the app
   has no window and none is on its way.
   */
  lemma {:induction false} WindowStaysNull(states: seq<State>, labels: seq<Label>, i: nat, k: nat)
    requires Announced(states, labels) && i <= k <= |labels|
    requires states[i].main == Unlocking(ForWindow(NULL))
    requires forall j :: i <= j < k ==> !Installs(states[j], labels[j])
    ensures NoWindow(states[k]) && states[k].g.window == NULL
  {
    if i == k {
      NoWindowAfterDestroy(states, labels, i);
    } else {
      WindowStaysNull(states, labels, i, k - 1);
      NoWindowNext(states, labels, k - 1);
    }
  }
}
