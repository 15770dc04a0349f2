/**
 What every step of the glue protocol keeps, and the whole-run facts that follow: mutual
 exclusion, no lost wake-up, ownership of saved-state buffers and lifetime of the struct.
 None of this assumes anything about the order of framework calls or about when
 `android_main` returns.
 */
module GlueSafety {
  import opened GlueProtocol

  /** The command the app thread has read and whose effect is still to come. */
  function Held(a: AppPc): (h: seq<Cmd>) {
    match a
    case Crit(Pre(c), Lock) => [c]
    case Crit(Pre(c), Write) => [c]
    case Crit(Fin(c), Lock) => [c]
    case Crit(Fin(c), Write) => [c]
    case Crit(Drop(OnRead), _) => [SaveState]
    case PreExec(c) => [c]
    case UserCode(c) => if c == TermWindow || c == SaveState then [c] else []
    case _ => []
  }

  /** All commands whose effect is still to come, oldest first. */
  function Pending(s: State): seq<Cmd> {
    Held(s.app) + s.pipe
  }

  /** The value `window` will have when `cmds` have taken effect, if `pendingWindow` stays `pw`. */
  function FinalWindow(w: Ptr, cmds: seq<Cmd>, pw: Ptr): Ptr
    decreases |cmds|
  {
    if cmds == [] then w
    else FinalWindow(
           if cmds[0] == InitWindow then pw else if cmds[0] == TermWindow then NULL else w, cmds[1..], pw)
  }

  /** The value `activityState` will have when `cmds` have taken effect. */
  function FinalState(a: Cmd, cmds: seq<Cmd>): Cmd
    decreases |cmds|
  {
    if cmds == [] then a else FinalState(if Lifecycle(cmds[0]) then cmds[0] else a, cmds[1..])
  }

  lemma {:induction false} FinalWindowSnoc(w: Ptr, cmds: seq<Cmd>, pw: Ptr, c: Cmd)
    ensures FinalWindow(w, cmds + [c], pw)
         == if c == InitWindow then pw else if c == TermWindow then NULL else FinalWindow(w, cmds, pw)
    decreases |cmds|
  {
    if cmds == [] {
    } else {
      assert (cmds + [c])[1..] == cmds[1..] + [c];
      FinalWindowSnoc(if cmds[0] == InitWindow then pw else if cmds[0] == TermWindow then NULL else w,
                      cmds[1..], pw, c);
    }
  }

  lemma {:induction false} FinalStateSnoc(a: Cmd, cmds: seq<Cmd>, c: Cmd)
    ensures FinalState(a, cmds + [c]) == if Lifecycle(c) then c else FinalState(a, cmds)
    decreases |cmds|
  {
    if cmds == [] {
    } else {
      assert (cmds + [c])[1..] == cmds[1..] + [c];
      FinalStateSnoc(if Lifecycle(cmds[0]) then cmds[0] else a, cmds[1..], c);
    }
  }

  /** The main thread is in one of the wait loops. */
  predicate Waits(m: MainPc) {
    m.Testing? || m.Asleep? || m.Woken?
  }

  predicate InWait(m: MainPc, w: Wait) {
    Waits(m) && m.wait == w
  }

  /** Program counters that the code can produce. */
  predicate Shape(s: State) {
    MainShape(s.main) && AppShape(s.app)
  }

  predicate MainShape(m: MainPc) {
    && (m.Locking? ==> !m.call.Post? && (m.call.SetState? ==> Lifecycle(m.call.state)))
    && (m.SendState? ==> Lifecycle(m.state))
    && (Waits(m) && m.wait.ForState? ==> Lifecycle(m.wait.state))
  }

  predicate AppShape(a: AppPc) {
    match a
    case Crit(Pre(c), _) => c == InputChanged || c == InitWindow || Lifecycle(c)
    case Crit(Fin(c), _) => c == TermWindow || c == SaveState
    case Crit(Drop(_), p) => p != Broadcast
    case PreExec(c) => c != InputChanged && c != InitWindow && !Lifecycle(c)
    case _ => true
  }

  /** The mutex is held by exactly the thread whose program counter says so. */
  predicate Exclusion(s: State) {
    && s.mutex == (if MainHolds(s.main) then MainThread else if AppHolds(s.app) then AppThread else Nobody)
    && !(MainHolds(s.main) && AppHolds(s.app))
  }

  predicate Starting(s: State) {
    s.main == Locking(Create) || InWait(s.main, ForRunning)
  }

  /** The main thread is past the point where it saw `destroyed`. */
  predicate Leaving(s: State) {
    s.main == Unlocking(ForDestroyed) || s.main == Releasing || s.main == Gone
  }

  predicate Dead(a: AppPc) {
    a == Exited || a == Crit(Exit, Broadcast) || a == Crit(Exit, Unlock)
  }

  predicate Lifetime(s: State) {
    && (s.live <==> s.main != Gone)
    && (s.g.destroyed <==> Dead(s.app))
    && (Leaving(s) ==> s.app == Exited)
    && (s.g.running <==> !(s.app == Crit(Run, Lock) || s.app == Crit(Run, Write)))
    && (!Starting(s) ==> s.g.running)
  }

  predicate InputOwed(s: State) {
    s.main == SendInput || s.g.inputQueue == s.g.pendingInputQueue || InputChanged in Pending(s)
  }

  predicate WindowOwed(s: State) {
    match s.main
    case PendWindow(w) => FinalWindow(s.g.window, Pending(s), NULL) == NULL
    case SendInit(w) => s.g.pendingWindow == w && (w == NULL ==> FinalWindow(s.g.window, Pending(s), NULL) == NULL)
    case _ =>
      && FinalWindow(s.g.window, Pending(s), s.g.pendingWindow) == s.g.pendingWindow
      && (Waits(s.main) && s.main.wait.ForWindow? ==> s.g.pendingWindow == s.main.wait.win)
  }

  predicate StateOwed(s: State) {
    Waits(s.main) && s.main.wait.ForState? ==> FinalState(s.g.activityState, Pending(s)) == s.main.wait.state
  }

  predicate Exiting(a: AppPc) {
    a == Exited || (a.Crit? && (a.section == Exit || a.section == Drop(OnExit)))
  }

  predicate DestroyOwed(s: State) {
    InWait(s.main, ForDestroyed) ==> s.g.destroyRequested || Exiting(s.app) || Destroy in Pending(s)
  }

  /** The main thread is inside onSaveInstanceState, between sending SAVE_STATE and taking the buffer. */
  predicate Saving(m: MainPc) {
    InWait(m, ForSaved) || m == Taking
  }

  /** SAVE_STATE has been read and its post-exec has not yet run. */
  predicate HandlingSave(a: AppPc) {
    || a == PreExec(SaveState) || a == UserCode(SaveState)
    || a == Crit(Fin(SaveState), Lock) || a == Crit(Fin(SaveState), Write)
  }

  /**
   At most one SAVE_STATE is in flight, it is the newest command, and it is there exactly while
   onSaveInstanceState waits for it.
   */
  predicate SaveOwed(s: State) {
    SaveOwedIn(Saving(s.main), s.g.stateSaved, Pending(s))
  }

  predicate SaveOwedIn(saving: bool, saved: bool, p: seq<Cmd>) {
    if saving && !saved then SaveLast(p)
    else if saving then p == []
    else SaveState !in p
  }

  predicate SaveLast(p: seq<Cmd>) {
    p != [] && p[|p| - 1] == SaveState && SaveState !in p[..|p| - 1]
  }

  /** What `savedState` holds while a SAVE_STATE is under way: what user code stored in it. */
  predicate SaveStored(s: State) {
    && SaveStarts(s)
    && (HandlingSave(s.app) ==> s.g.savedState == s.h.stored)
    && (s.app == Crit(Drop(OnRead), Unlock) || s.app == PreExec(SaveState) ==> s.g.savedState == NULL)
    && (Saving(s.main) && s.g.stateSaved ==> s.g.savedState == NULL || s.g.savedState == s.h.stored)
  }

  /** Nothing is stored before SAVE_STATE has been read. */
  predicate SaveStarts(s: State) {
    && (s.main == SendSave ==> !s.g.stateSaved && s.h.stored == NULL)
    && (s.main == Taking ==> s.g.stateSaved)
    && (Saving(s.main) && !s.g.stateSaved && !HandlingSave(s.app) ==> s.h.stored == NULL)
  }

  /** The app thread has run the last `free_saved_state`. */
  predicate Dropped(a: AppPc) {
    a == Crit(Drop(OnExit), Unlock) || a == Exited || (a.Crit? && a.section == Exit)
  }

  /** Every buffer ever allocated is stored, freed once or handed over once. */
  ghost predicate Buffers(s: State) {
    && s.h.nextBuffer >= 1
    && s.g.savedState < s.h.nextBuffer
    && (forall b: Ptr :: s.h.freed[b] + s.h.handed[b] + (if b == s.g.savedState && b != NULL then 1 else 0)
                         == if 1 <= b < s.h.nextBuffer then 1 else 0)
    && (Dropped(s.app) ==> s.g.savedState == NULL)
  }

  /** A sleeping main thread's condition is false, or the app thread is about to broadcast. */
  predicate WakeUp(s: State) {
    s.main.Asleep? && Satisfied(s.g, s.main.wait) ==> s.app.Crit? && s.app.phase == Broadcast
  }

  ghost predicate Inv(s: State) {
    && Shape(s) && Exclusion(s) && Lifetime(s)
    && InputOwed(s) && WindowOwed(s) && StateOwed(s) && DestroyOwed(s)
    && SaveOwed(s) && SaveStored(s) && Buffers(s) && WakeUp(s)
  }

  lemma InitInv(s: State)
    requires Init(s)
    ensures Inv(s)
  {
  }

  lemma ShapeMain(s: State, call: Call)
    requires Shape(s) && MainEnabled(s.main, call, s.mutex)
    ensures Shape(MainStep(s, call))
  {
  }

  lemma ShapeApp(s: State)
    requires Shape(s) && AppEnabled(s.app, s.pipe, s.mutex)
    ensures Shape(AppStep(s))
  {
  }

  lemma ExclusionMain(s: State, call: Call)
    requires Shape(s) && Exclusion(s) && MainEnabled(s.main, call, s.mutex)
    ensures Exclusion(MainStep(s, call))
  {
  }

  lemma ExclusionApp(s: State)
    requires Shape(s) && Exclusion(s) && AppEnabled(s.app, s.pipe, s.mutex)
    ensures Exclusion(AppStep(s))
  {
  }

  lemma LifetimeMain(s: State, call: Call)
    requires Exclusion(s) && Lifetime(s) && MainEnabled(s.main, call, s.mutex)
    ensures Lifetime(MainStep(s, call))
  {
  }

  lemma LifetimeApp(s: State)
    requires Exclusion(s) && Lifetime(s) && AppEnabled(s.app, s.pipe, s.mutex)
    ensures Lifetime(AppStep(s))
  {
  }

  lemma WakeUpMain(s: State, call: Call)
    requires Shape(s) && Exclusion(s) && WakeUp(s) && MainEnabled(s.main, call, s.mutex)
    ensures WakeUp(MainStep(s, call))
  {
  }

  lemma WakeUpApp(s: State)
    requires Shape(s) && Exclusion(s) && WakeUp(s) && AppEnabled(s.app, s.pipe, s.mutex)
    ensures WakeUp(AppStep(s))
  {
  }

  lemma BuffersMain(s: State, call: Call)
    requires Shape(s) && Buffers(s) && MainEnabled(s.main, call, s.mutex)
    ensures Buffers(MainStep(s, call))
  {
  }

  /** free_saved_state is the only app statement that concerns a buffer. */
  lemma BuffersKept(s: State)
    requires AppShape(s.app) && AppEnabled(s.app, s.pipe, s.mutex)
    requires !(s.app.Crit? && s.app.section.Drop? && s.app.phase == Write)
    ensures var t := AppStep(s);
      t.h == s.h && t.g.savedState == s.g.savedState && (Dropped(t.app) ==> Dropped(s.app))
  {
  }

  lemma BuffersApp(s: State)
    requires Shape(s) && Buffers(s) && AppEnabled(s.app, s.pipe, s.mutex)
    ensures Buffers(AppStep(s))
  {
    if !(s.app.Crit? && s.app.section.Drop? && s.app.phase == Write) {
      BuffersKept(s);
    }
  }

  lemma InputOwedMain(s: State, call: Call)
    requires Shape(s) && InputOwed(s) && MainEnabled(s.main, call, s.mutex)
    ensures InputOwed(MainStep(s, call))
  {
  }

  lemma InputOwedApp(s: State)
    requires Shape(s) && InputOwed(s) && AppEnabled(s.app, s.pipe, s.mutex)
    ensures InputOwed(AppStep(s))
  {
  }

  lemma DestroyOwedMain(s: State, call: Call)
    requires Shape(s) && DestroyOwed(s) && MainEnabled(s.main, call, s.mutex)
    ensures DestroyOwed(MainStep(s, call))
  {
  }

  lemma DestroyOwedApp(s: State)
    requires Shape(s) && DestroyOwed(s) && AppEnabled(s.app, s.pipe, s.mutex)
    ensures DestroyOwed(AppStep(s))
  {
  }

  /** The main thread only adds commands, at the young end. */
  lemma PendingMain(s: State, call: Call)
    requires MainEnabled(s.main, call, s.mutex)
    ensures var t := MainStep(s, call);
      t.app == s.app && s.pipe <= t.pipe && Pending(t) == Pending(s) + t.pipe[|s.pipe|..]
  {
  }

  /** The app thread takes a command from the pipe into its hand, keeps it, or settles it. */
  lemma HeldNext(a: AppPc, pipe: seq<Cmd>)
    requires AppShape(a) && (a == Polling ==> pipe != [])
    ensures a == Polling ==> Held(a) == [] && Held(AppNext(a, pipe)) == [pipe[0]]
    ensures a != Polling ==> Held(AppNext(a, pipe)) == Held(a) || Held(AppNext(a, pipe)) == []
  {
  }

  /** The app thread moves commands from the pipe to its hand, or settles the oldest. */
  lemma PendingApp(s: State)
    requires AppShape(s.app) && AppEnabled(s.app, s.pipe, s.mutex)
    ensures var t := AppStep(s);
      if Held(s.app) != [] && Held(t.app) == [] then Pending(s) == Held(s.app) + Pending(t)
      else Pending(t) == Pending(s)
  {
    HeldNext(s.app, s.pipe);
    if s.app == Polling {
      assert s.pipe == [s.pipe[0]] + s.pipe[1..];
    }
  }

  lemma WindowOwedMain(s: State, call: Call)
    requires Shape(s) && WindowOwed(s) && MainEnabled(s.main, call, s.mutex)
    ensures WindowOwed(MainStep(s, call))
  {
    var t := MainStep(s, call);
    PendingMain(s, call);
    if t.pipe != s.pipe {
      var c := t.pipe[|s.pipe|];
      assert t.pipe[|s.pipe|..] == [c];
      FinalWindowSnoc(s.g.window, Pending(s), t.g.pendingWindow, c);
      FinalWindowSnoc(s.g.window, Pending(s), NULL, c);
    } else {
      assert Pending(t) == Pending(s);
    }
  }

  /** `window` changes exactly when INIT_WINDOW or TERM_WINDOW is settled. */
  lemma AppWindow(s: State)
    requires AppShape(s.app) && AppEnabled(s.app, s.pipe, s.mutex)
    ensures var t := AppStep(s);
      var init, term := s.app == Crit(Pre(InitWindow), Write), s.app == Crit(Fin(TermWindow), Write);
      && t.g.window == (if init then s.g.pendingWindow else if term then NULL else s.g.window)
      && (init || term ==> Held(s.app) != [] && Held(t.app) == [])
      && (Held(s.app) != [] && Held(t.app) == [] ==>
            (init <==> Held(s.app)[0] == InitWindow) && (term <==> Held(s.app)[0] == TermWindow))
  {
  }

  /** An app step moves `window` towards the value it will finally have. */
  lemma FinalWindowApp(s: State, pw: Ptr)
    requires AppShape(s.app) && AppEnabled(s.app, s.pipe, s.mutex)
    requires s.app == Crit(Pre(InitWindow), Write) ==> pw == s.g.pendingWindow
    ensures FinalWindow(AppStep(s).g.window, Pending(AppStep(s)), pw) == FinalWindow(s.g.window, Pending(s), pw)
  {
    AppWindow(s);
    PendingApp(s);
    var p, q := Pending(s), Pending(AppStep(s));
    if Held(s.app) != [] && Held(AppStep(s).app) == [] {
      assert p != [] && p[0] == Held(s.app)[0] && p[1..] == q;
    }
  }

  lemma WindowOwedApp(s: State)
    requires Shape(s) && Exclusion(s) && WindowOwed(s) && AppEnabled(s.app, s.pipe, s.mutex)
    ensures WindowOwed(AppStep(s))
  {
    FinalWindowApp(s, if s.main.PendWindow? || s.main.SendInit? then NULL else s.g.pendingWindow);
  }

  lemma StateOwedMain(s: State, call: Call)
    requires Shape(s) && StateOwed(s) && MainEnabled(s.main, call, s.mutex)
    ensures StateOwed(MainStep(s, call))
  {
    PendingMain(s, call);
    if s.main.SendState? {
      FinalStateSnoc(s.g.activityState, Pending(s), s.main.state);
    } else if Waits(s.main) {
      assert Pending(MainStep(s, call)) == Pending(s);
    }
  }

  lemma StateOwedApp(s: State)
    requires Shape(s) && StateOwed(s) && AppEnabled(s.app, s.pipe, s.mutex)
    ensures StateOwed(AppStep(s))
  {
    PendingApp(s);
    if Held(s.app) != [] && Held(AppStep(s).app) == [] {
      assert Pending(s)[1..] == Pending(AppStep(s));
    }
  }

  lemma SaveLastTail(p: seq<Cmd>)
    requires SaveLast(p)
    ensures if p[0] == SaveState then |p| == 1 else SaveLast(p[1..])
  {
    if p[0] != SaveState {
      assert p[1..][..|p| - 2] == p[1..|p| - 1];
    }
  }

  lemma SendsOneCommand(m: MainPc, call: Call, g: AndroidApp, mutex: Holder)
    requires MainShape(m) && MainEnabled(m, call, mutex)
    ensures var sent := MainSends(m, call, g);
      sent == [] || (|sent| == 1 && !Saving(m) && (sent[0] == SaveState <==> m == SendSave))
    ensures Saving(MainNext(m, call, g)) <==> m == SendSave || (Saving(m) && m != Taking)
    ensures MainWrites(m, g).stateSaved == (g.stateSaved && m != ClearSaved)
  {
  }

  /** SAVE_STATE is sent when none is in flight, and nothing else is sent behind it. */
  lemma SavesSent(saving: bool, saved: bool, p: seq<Cmd>, sent: seq<Cmd>, saving': bool, saved': bool)
    requires SaveOwedIn(saving, saved, p)
    requires sent == [] || (|sent| == 1 && !saving)
    requires if sent == [SaveState] then saving' && !saved' else
             SaveState !in sent && (saving' ==> saving && saved' == saved) && (saving && !saving' ==> saved)
    ensures SaveOwedIn(saving', saved', p + sent)
  {
    if sent == [SaveState] {
      assert (p + sent)[..|p + sent| - 1] == p;
    } else if sent == [] {
      assert p + sent == p;
    }
  }

  lemma SaveOwedMain(s: State, call: Call)
    requires MainShape(s.main) && SaveOwed(s) && (s.main == SendSave ==> !s.g.stateSaved)
    requires s.main == Taking ==> s.g.stateSaved
    requires MainEnabled(s.main, call, s.mutex)
    ensures SaveOwed(MainStep(s, call))
  {
    var t, sent := MainStep(s, call), MainSends(s.main, call, s.g);
    PendingMain(s, call);
    SendsOneCommand(s.main, call, s.g, s.mutex);
    assert t.pipe == s.pipe + sent && Pending(t) == Pending(s) + sent;
    assert SaveState in sent <==> s.main == SendSave;
    SavesSent(Saving(s.main), s.g.stateSaved, Pending(s), sent, Saving(t.main), t.g.stateSaved);
  }

  /** Only the post-exec of SAVE_STATE settles it and says that the state is saved. */
  lemma AppSaves(s: State)
    requires AppShape(s.app) && AppEnabled(s.app, s.pipe, s.mutex)
    ensures var t, fin := AppStep(s), s.app == Crit(Fin(SaveState), Write);
      && Saving(t.main) == Saving(s.main) && t.g.stateSaved == (s.g.stateSaved || fin)
      && (Held(s.app) != [] && Held(t.app) == [] ==> (fin <==> Held(s.app)[0] == SaveState))
      && (fin ==> Held(s.app) != [] && Held(t.app) == [])
  {
  }

  lemma SettleSave(saving: bool, saved: bool, p: seq<Cmd>, q: seq<Cmd>, fin: bool)
    requires SaveOwedIn(saving, saved, p)
    requires (q == p && !fin) || (p != [] && q == p[1..] && (fin <==> p[0] == SaveState))
    ensures SaveOwedIn(saving, saved || fin, q)
  {
    if saving && !saved && q != p {
      SaveLastTail(p);
    }
  }

  lemma SaveOwedApp(s: State)
    requires AppShape(s.app) && SaveOwed(s) && AppEnabled(s.app, s.pipe, s.mutex)
    ensures SaveOwed(AppStep(s))
  {
    AppSaves(s);
    PendingApp(s);
    SettleSave(Saving(s.main), s.g.stateSaved, Pending(s), Pending(AppStep(s)), s.app == Crit(Fin(SaveState), Write));
  }

  lemma SaveStoredMain(s: State, call: Call)
    requires Shape(s) && SaveOwed(s) && SaveStored(s) && MainEnabled(s.main, call, s.mutex)
    ensures SaveStored(MainStep(s, call))
  {
  }

  lemma SaveStartsApp(s: State)
    requires AppShape(s.app) && SaveOwed(s) && SaveStarts(s) && AppEnabled(s.app, s.pipe, s.mutex)
    requires HandlingSave(s.app) ==> s.g.savedState == s.h.stored
    ensures SaveStarts(AppStep(s))
  {
    AppSaves(s);
  }

  lemma SaveStoredApp(s: State)
    requires Shape(s) && SaveOwed(s) && SaveStored(s) && AppEnabled(s.app, s.pipe, s.mutex)
    ensures SaveStored(AppStep(s))
  {
    SaveStartsApp(s);
  }

  lemma MainInv(s: State, call: Call)
    requires Inv(s) && MainEnabled(s.main, call, s.mutex)
    ensures Inv(MainStep(s, call))
  {
    ShapeMain(s, call);
    ExclusionMain(s, call);
    LifetimeMain(s, call);
    WakeUpMain(s, call);
    BuffersMain(s, call);
    InputOwedMain(s, call);
    WindowOwedMain(s, call);
    StateOwedMain(s, call);
    DestroyOwedMain(s, call);
    SaveOwedMain(s, call);
    SaveStoredMain(s, call);
  }

  lemma AppInv(s: State)
    requires Inv(s) && AppEnabled(s.app, s.pipe, s.mutex)
    ensures Inv(AppStep(s))
  {
    ShapeApp(s);
    ExclusionApp(s);
    LifetimeApp(s);
    WakeUpApp(s);
    BuffersApp(s);
    InputOwedApp(s);
    WindowOwedApp(s);
    StateOwedApp(s);
    DestroyOwedApp(s);
    SaveOwedApp(s);
    SaveStoredApp(s);
  }

  lemma SpuriousInv(s: State)
    requires Inv(s) && Enabled(s, Spurious)
    ensures Inv(Step(s, Spurious))
  {
  }

  lemma StoresInv(s: State)
    requires Inv(s) && Enabled(s, UserStores)
    ensures Inv(Step(s, UserStores))
  {
  }

  lemma ReturnsInv(s: State)
    requires Inv(s) && Enabled(s, MainReturns)
    ensures Inv(Step(s, MainReturns))
  {
    assert Pending(Step(s, MainReturns)) == Pending(s);
  }

  /** Every step of either thread keeps the invariant. */
  lemma StepInv(s: State, l: Label)
    requires Inv(s) && Enabled(s, l)
    ensures Inv(Step(s, l))
  {
    match l
    case Main(call) => MainInv(s, call);
    case App => AppInv(s);
    case Spurious => SpuriousInv(s);
    case UserStores => StoresInv(s);
    case MainReturns => ReturnsInv(s);
  }

  lemma {:induction false} RunInv(states: seq<State>, labels: seq<Label>, i: nat)
    requires IsRun(states, labels) && i <= |labels|
    ensures Inv(states[i])
  {
    if i == 0 {
      InitInv(states[0]);
    } else {
      RunInv(states, labels, i - 1);
      assert TakesStep(states, labels, i - 1);
      StepInv(states[i - 1], labels[i - 1]);
    }
  }
}
