/**
 Progress of the glue protocol: no wait is a deadlock, and under fair scheduling every
 callback returns.  Here, and only here, the app returns from `android_main` only after it
 has seen a destroy request.
 */
module GlueProgress {
  import opened GlueProtocol
  import opened GlueSafety

  /** A destroy request reaches the app only through android_app_free, which is waiting for it. */
  predicate Obedient(s: State) {
    && (Exiting(s.app) ==> s.g.destroyRequested)
    && (s.g.destroyRequested || Destroy in Pending(s) ==> InWait(s.main, ForDestroyed) || Leaving(s))
  }

  lemma ObedientMain(s: State, call: Call)
    requires MainShape(s.main) && Obedient(s) && MainEnabled(s.main, call, s.mutex)
    ensures Obedient(MainStep(s, call))
  {
    PendingMain(s, call);
    assert Pending(MainStep(s, call)) == Pending(s) + MainSends(s.main, call, s.g);
  }

  lemma ObedientApp(s: State)
    requires AppShape(s.app) && Obedient(s) && AppEnabled(s.app, s.pipe, s.mutex)
    ensures Obedient(AppStep(s))
  {
    PendingApp(s);
    assert s.app == PreExec(Destroy) ==> Destroy in Pending(s);
  }

  lemma ObedientStep(s: State, l: Label)
    requires Inv(s) && Obedient(s) && Enabled(s, l) && Polite(s, l)
    ensures Obedient(Step(s, l))
  {
    match l
    case Main(call) => ObedientMain(s, call);
    case App => ObedientApp(s);
    case _ => assert Pending(Step(s, l)) == Pending(s);
  }

  /** Some app step is possible now. */
  predicate AppReady(s: State) {
    Enabled(s, App) || (Enabled(s, MainReturns) && s.g.destroyRequested)
  }

  /** The main thread is inside a call and can go on with it; the framework need not call again. */
  predicate MainReady(s: State) {
    s.main != Idle && Enabled(s, Main(Save))
  }

  lemma {:induction false} FinalStateFrom(a: Cmd, p: seq<Cmd>)
    ensures FinalState(a, p) == a || FinalState(a, p) in p
    decreases |p|
  {
    if p != [] {
      FinalStateFrom(if Lifecycle(p[0]) then p[0] else a, p[1..]);
    }
  }

  lemma {:induction false} FinalWindowFrom(w: Ptr, p: seq<Cmd>, pw: Ptr)
    ensures FinalWindow(w, p, pw) == w || InitWindow in p || TermWindow in p
    decreases |p|
  {
    if p != [] {
      FinalWindowFrom(if p[0] == InitWindow then pw else if p[0] == TermWindow then NULL else w, p[1..], pw);
    }
  }

  /** The command (or start-up, or exit) that will satisfy wait `w` is still to take effect. */
  predicate Owed(s: State, w: Wait) {
    match w
    case ForRunning => s.app == Crit(Run, Lock) || s.app == Crit(Run, Write)
    case ForInput => InputChanged in Pending(s)
    case ForWindow(_) => InitWindow in Pending(s) || TermWindow in Pending(s)
    case ForState(c) => c in Pending(s)
    case ForSaved => SaveState in Pending(s)
    case ForDestroyed => Destroy in Pending(s) || (s.g.destroyRequested && s.app != Exited)
  }

  lemma WaitOwes(s: State, w: Wait)
    requires Inv(s) && Obedient(s) && InWait(s.main, w) && !Satisfied(s.g, w)
    ensures Owed(s, w)
  {
    FinalStateFrom(s.g.activityState, Pending(s));
    FinalWindowFrom(s.g.window, Pending(s), s.g.pendingWindow);
  }

  lemma OwedIsReady(s: State, w: Wait)
    requires Inv(s) && Obedient(s) && InWait(s.main, w) && Owed(s, w) && !Satisfied(s.g, w) && !MainHolds(s.main)
    ensures AppReady(s)
  {
    assert s.app == Polling && s.pipe == [] ==> Pending(s) == [];
  }

  /** A wait whose condition is false is owed something, and the app thread can go on to do it. */
  lemma WaitIsOwed(s: State, w: Wait)
    requires Inv(s) && Obedient(s) && InWait(s.main, w) && !Satisfied(s.g, w)
    ensures Owed(s, w)
    ensures !MainHolds(s.main) ==> AppReady(s)
  {
    WaitOwes(s, w);
    if !MainHolds(s.main) {
      OwedIsReady(s, w);
    }
  }

  // ----- how much the app thread has left to do

  function PhaseRank(p: Phase): nat {
    match p
    case Lock => 3
    case Write => 2
    case Broadcast => 1
    case Unlock => 0
  }

  /** Statements before the app thread is through with what it holds, counting the exit path. */
  function AppRank(a: AppPc, canStore: bool): nat {
    match a
    case Exited => 0
    case Crit(Exit, p) => 1 + PhaseRank(p)
    case Crit(Drop(OnExit), p) => 5 + PhaseRank(p)
    case Polling => 9
    case Crit(Run, p) => 10 + PhaseRank(p)
    case Crit(Fin(_), p) => 10 + PhaseRank(p)
    case Crit(Drop(OnResume), p) => 10 + PhaseRank(p)
    case UserCode(_) => if canStore then 15 else 14
    case PreExec(_) => 16
    case Crit(Pre(_), p) => 16 + PhaseRank(p)
    case Crit(Drop(OnRead), p) => 17 + PhaseRank(p)
  }

  function Measure(s: State): nat {
    20 * |s.pipe| + AppRank(s.app, s.g.savedState == NULL)
  }

  /** Every app step uses up some of the measure. */
  lemma AppDecreases(s: State, l: Label)
    requires Enabled(s, l) && AppLabel(l) && s.h.nextBuffer != NULL
    ensures Measure(Step(s, l)) < Measure(s)
  {
  }

  /** While the main thread is in a wait loop only the app thread changes anything. */
  lemma WaitingKeeps(s: State, l: Label)
    requires Enabled(s, l) && Waits(s.main) && !AppLabel(l)
    ensures var t := Step(s, l);
      && t.g == s.g && t.app == s.app && t.pipe == s.pipe
      && (InWait(t.main, s.main.wait)
          || (s.main.Testing? && Satisfied(s.g, s.main.wait) && (t.main == Taking || t.main.Unlocking?)))
  {
    assert s.pipe + [] == s.pipe;
  }

  // ----- fair infinite runs

  datatype Move = Stutter | Do(step: Label)

  ghost predicate Moves(s: State, m: Move, t: State) {
    match m
    case Stutter => t == s
    case Do(l) => Enabled(s, l) && Polite(s, l) && t == Step(s, l)
  }

  predicate AppMove(m: Move) {
    m.Do? && AppLabel(m.step)
  }

  predicate MainMove(m: Move) {
    m.Do? && m.step.Main?
  }

  /** The app thread takes a step at or after `i`, or from some point on is never ready again. */
  ghost predicate AppActsOrRests(run: nat -> State, move: nat -> Move, i: nat) {
    || (exists j: nat :: i <= j && AppMove(move(j)))
    || (exists n: nat :: i <= n && AppSilent(run, n))
  }

  ghost predicate AppSilent(run: nat -> State, n: nat) {
    forall j: nat :: n <= j ==> !AppReady(run(j))
  }

  ghost predicate MainActsOrRests(run: nat -> State, move: nat -> Move, i: nat) {
    || (exists j: nat :: i <= j && MainMove(move(j)))
    || (exists n: nat :: i <= n && MainSilent(run, n))
  }

  ghost predicate MainSilent(run: nat -> State, n: nat) {
    forall j: nat :: n <= j ==> !MainReady(run(j))
  }

  /** A thread that is ready again and again takes a step again and again. */
  ghost predicate Fair(run: nat -> State, move: nat -> Move) {
    forall i: nat :: AppActsOrRests(run, move, i) && MainActsOrRests(run, move, i)
  }

  ghost predicate FairRun(run: nat -> State, move: nat -> Move) {
    && Init(run(0))
    && (forall i: nat :: Moves(run(i), move(i), run(i + 1)))
    && Fair(run, move)
  }

  lemma {:induction false} Reachable(run: nat -> State, move: nat -> Move, i: nat)
    requires FairRun(run, move)
    ensures Inv(run(i)) && Obedient(run(i))
  {
    if i == 0 {
      InitInv(run(0));
    } else {
      Reachable(run, move, i - 1);
      assert Moves(run(i - 1), move(i - 1), run(i));
      if move(i - 1).Do? {
        StepInv(run(i - 1), move(i - 1).step);
        ObedientStep(run(i - 1), move(i - 1).step);
      }
    }
  }

  /** A step of the app thread cannot move a main thread that is not asleep. */
  lemma OnlyMainMovesMain(s: State, m: Move, t: State)
    requires Moves(s, m, t) && !MainMove(m) && !s.main.Asleep?
    ensures t.main == s.main
  {
  }

  /** An awake main thread stays where it is until it takes a step itself. */
  lemma {:induction false} StaysPut(run: nat -> State, move: nat -> Move, n: nat, k: nat)
    requires FairRun(run, move) && n <= k && !run(n).main.Asleep?
    requires forall j: nat :: n <= j < k ==> !MainMove(move(j))
    ensures run(k).main == run(n).main
    ensures AppSilent(run, n) ==> run(k) == run(n)
  {
    if n < k {
      StaysPut(run, move, n, k - 1);
      assert Moves(run(k - 1), move(k - 1), run(k));
      OnlyMainMovesMain(run(k - 1), move(k - 1), run(k));
    }
  }

  /** A main thread that nobody can keep from stepping does step. */
  lemma MainActs(run: nat -> State, move: nat -> Move, n: nat) returns (k: nat)
    requires FairRun(run, move) && !run(n).main.Asleep? && MainReady(run(n))
    requires AppSilent(run, n) || MainHolds(run(n).main) || run(n).main == Releasing
    ensures n <= k && MainMove(move(k)) && run(k).main == run(n).main
    ensures AppSilent(run, n) ==> run(k) == run(n)
  {
    assert MainActsOrRests(run, move, n);
    if j: nat :| n <= j && MainMove(move(j)) {
      k := n;
      while !MainMove(move(k))
        invariant n <= k <= j
        invariant forall i: nat :: n <= i < k ==> !MainMove(move(i))
        decreases j - k
      {
        k := k + 1;
      }
      StaysPut(run, move, n, k);
    } else {
      var m: nat :| n <= m && MainSilent(run, m);
      StaysPut(run, move, n, m);
      assert false;
    }
  }

  /** Until time `j` the main thread stays in its wait loop, or it leaves it with the condition true. */
  lemma WaitsUntil(run: nat -> State, move: nat -> Move, i: nat, j: nat) returns (k: nat)
    requires FairRun(run, move) && i <= j && Waits(run(i).main)
    ensures i <= k <= j
    ensures if k < j then run(k + 1).main == Taking || run(k + 1).main.Unlocking? else Waits(run(k).main)
    ensures k == j ==> Measure(run(k)) <= Measure(run(i))
  {
    k := i;
    while k < j && Waits(run(k + 1).main)
      invariant i <= k <= j && Waits(run(k).main)
      invariant Measure(run(k)) <= Measure(run(i))
      decreases j - k
    {
      WaitMove(run, move, k);
      k := k + 1;
    }
    if k < j {
      WaitMove(run, move, k);
    }
  }

  /** One move out of a wait-loop state. */
  lemma WaitMove(run: nat -> State, move: nat -> Move, k: nat)
    requires FairRun(run, move) && Waits(run(k).main)
    ensures Waits(run(k + 1).main) || run(k + 1).main == Taking || run(k + 1).main.Unlocking?
    ensures Measure(run(k + 1)) <= Measure(run(k))
    ensures AppMove(move(k)) ==> Waits(run(k + 1).main) && Measure(run(k + 1)) < Measure(run(k))
  {
    Reachable(run, move, k);
    assert Moves(run(k), move(k), run(k + 1));
    if AppMove(move(k)) {
      AppDecreases(run(k), move(k).step);
      assert run(k + 1).main == run(k).main || run(k + 1).main == Wake(run(k).main);
    } else if move(k).Do? {
      WaitingKeeps(run(k), move(k).step);
      assert (run(k + 1).g.savedState == NULL) == (run(k).g.savedState == NULL);
    }
  }

  /** When the app thread has nothing more to do, a waiting main thread finds its condition true. */
  lemma RestedAppServed(run: nat -> State, move: nat -> Move, n: nat)
    requires FairRun(run, move) && AppSilent(run, n) && Waits(run(n).main) && !run(n).main.Testing?
    ensures Satisfied(run(n).g, run(n).main.wait) && run(n).main.Woken? && MainReady(run(n))
  {
    Reachable(run, move, n);
    var s := run(n);
    assert !AppReady(s);
    if !Satisfied(s.g, s.main.wait) {
      WaitIsOwed(s, s.main.wait);
    }
  }

  /** With the app thread at rest the main thread leaves its wait loop. */
  lemma RestedWaitEnds(run: nat -> State, move: nat -> Move, n: nat) returns (k: nat)
    requires FairRun(run, move) && AppSilent(run, n) && Waits(run(n).main)
    ensures n <= k && (run(k).main == Taking || run(k).main.Unlocking?)
  {
    var m := n;
    if !run(n).main.Testing? {
      RestedAppServed(run, move, n);
      var j := MainActs(run, move, n);
      assert Moves(run(j), move(j), run(j + 1));
      m := j + 1;
    }
    var j := MainActs(run, move, m);
    assert Moves(run(j), move(j), run(j + 1));
    k := j + 1;
    if run(k).main.Asleep? {
      RestedAppServed(run, move, k);
    }
  }

  /** Every wait ends, with its condition satisfied. */
  lemma {:induction false} WaitEnds(run: nat -> State, move: nat -> Move, i: nat) returns (k: nat)
    requires FairRun(run, move) && Waits(run(i).main)
    ensures i <= k && (run(k).main == Taking || run(k).main.Unlocking?)
    decreases Measure(run(i))
  {
    assert AppActsOrRests(run, move, i);
    if j: nat :| i <= j && AppMove(move(j)) {
      var m := WaitsUntil(run, move, i, j);
      if m < j {
        k := m + 1;
      } else {
        WaitMove(run, move, j);
        k := WaitEnds(run, move, j + 1);
      }
    } else {
      var n: nat :| i <= n && AppSilent(run, n);
      k := WaitEndsBy(run, move, i, n);
    }
  }

  /** A wait ends at the latest when the app thread comes to rest. */
  lemma WaitEndsBy(run: nat -> State, move: nat -> Move, i: nat, n: nat) returns (k: nat)
    requires FairRun(run, move) && Waits(run(i).main) && i <= n && AppSilent(run, n)
    ensures i <= k && (run(k).main == Taking || run(k).main.Unlocking?)
  {
    var m := WaitsUntil(run, move, i, n);
    if m < n {
      k := m + 1;
    } else {
      k := RestedWaitEnds(run, move, n);
    }
  }

  /** A call eventually gets the mutex. */
  lemma {:induction false} LockIsTaken(run: nat -> State, move: nat -> Move, i: nat) returns (k: nat)
    requires FairRun(run, move) && run(i).main.Locking?
    ensures i < k && run(k).main == FirstPc(run(i).main.call)
    decreases Measure(run(i))
  {
    assert AppActsOrRests(run, move, i);
    if j: nat :| i <= j && AppMove(move(j)) {
      var m := LockingUntil(run, move, i, j);
      if m < j {
        k := m + 1;
      } else {
        LockingMove(run, move, j);
        k := LockIsTaken(run, move, j + 1);
      }
    } else {
      var n: nat :| i <= n && AppSilent(run, n);
      var m := LockingUntil(run, move, i, n);
      if m < n {
        k := m + 1;
      } else {
        k := RestedLockIsTaken(run, move, n);
      }
    }
  }

  lemma RestedLockIsTaken(run: nat -> State, move: nat -> Move, n: nat) returns (k: nat)
    requires FairRun(run, move) && AppSilent(run, n) && run(n).main.Locking?
    ensures n < k && run(k).main == FirstPc(run(n).main.call)
  {
    Reachable(run, move, n);
    assert !AppReady(run(n));
    var j := MainActs(run, move, n);
    LockingMove(run, move, j);
    k := j + 1;
  }

  lemma LockingMove(run: nat -> State, move: nat -> Move, k: nat)
    requires FairRun(run, move) && run(k).main.Locking?
    ensures if MainMove(move(k)) then run(k + 1).main == FirstPc(run(k).main.call) else run(k + 1).main == run(k).main
    ensures Measure(run(k + 1)) <= Measure(run(k))
    ensures AppMove(move(k)) ==> Measure(run(k + 1)) < Measure(run(k))
  {
    Reachable(run, move, k);
    assert Moves(run(k), move(k), run(k + 1));
    if AppMove(move(k)) {
      AppDecreases(run(k), move(k).step);
    }
  }

  lemma LockingUntil(run: nat -> State, move: nat -> Move, i: nat, j: nat) returns (k: nat)
    requires FairRun(run, move) && i <= j && run(i).main.Locking?
    ensures i <= k <= j
    ensures if k < j then run(k + 1).main == FirstPc(run(i).main.call) else run(k).main == run(i).main
    ensures k == j ==> Measure(run(k)) <= Measure(run(i))
  {
    k := i;
    while k < j && !MainMove(move(k))
      invariant i <= k <= j && run(k).main == run(i).main
      invariant Measure(run(k)) <= Measure(run(i))
      decreases j - k
    {
      LockingMove(run, move, k);
      k := k + 1;
    }
    if k < j {
      LockingMove(run, move, k);
    }
  }

  /** Statements, waits counting as one, before the call in progress returns. */
  function CallRank(m: MainPc): nat {
    match m
    case Locking(_) => 8
    case PendInput(_) => 6
    case SendInput => 5
    case TermOld(_) => 7
    case PendWindow(_) => 6
    case SendInit(_) => 5
    case SendState(_) => 5
    case ClearSaved => 6
    case SendSave => 5
    case SendDestroy => 5
    case Testing(_) => 4
    case Asleep(_) => 4
    case Woken(_) => 4
    case Taking => 3
    case Unlocking(_) => 2
    case Releasing => 1
    case _ => 0
  }

  /**
   Every call returns: in every fair run, however the framework orders its calls, the main
   thread gets from any point of any of them back to the framework.
   */
  lemma {:induction false} CallReturns(run: nat -> State, move: nat -> Move, i: nat) returns (k: nat)
    requires FairRun(run, move)
    ensures i <= k && (run(k).main == Idle || run(k).main == Gone)
    decreases CallRank(run(i).main)
  {
    var m := run(i).main;
    if m == Idle || m == Gone {
      k := i;
    } else if Waits(m) {
      k := WaitEnds(run, move, i);
      k := CallReturns(run, move, k);
    } else if m.Locking? {
      k := LockIsTaken(run, move, i);
      k := CallReturns(run, move, k);
    } else {
      k := CallGoesOn(run, move, i);
      k := CallReturns(run, move, k);
    }
  }

  /** A main thread that neither waits nor has to lock takes its next statement. */
  lemma CallGoesOn(run: nat -> State, move: nat -> Move, i: nat) returns (k: nat)
    requires FairRun(run, move)
    requires var m := run(i).main; m != Idle && m != Gone && !Waits(m) && !m.Locking?
    ensures i < k && CallRank(run(k).main) < CallRank(run(i).main)
  {
    var j := MainActs(run, move, i);
    assert Moves(run(j), move(j), run(j + 1));
    k := j + 1;
  }
}
