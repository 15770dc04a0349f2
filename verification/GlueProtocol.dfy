/**
 The two-thread protocol of native_app_glue, one transition per statement that another
 thread can observe.

 The main thread runs the activity callbacks; the app thread runs `android_main` and the
 command processing it calls.  They share the fields of `struct android_app`, a mutex, a
 condition variable and a FIFO pipe of one-byte commands.  A step of a run is named by a
 `Label`; `Enabled` says when it may happen and `Step` what it does.

 Fields that do not exist in the C struct (`freed`, `handed`, `stored`, `returned`,
 `terminating`) are history: steps write them and no step reads them.  `nextBuffer` numbers the
 buffers that malloc returns; user code that stores one reads it and nothing else does.
 */
module GlueProtocol {

  /** A pointer value; NULL is zero. */
  type Ptr = nat

  const NULL: Ptr := 0

  datatype Cmd =
    | InputChanged | InitWindow | TermWindow | GainedFocus | LostFocus | ConfigChanged
    | LowMemory | Start | Resume | SaveState | Pause | Stop | Destroy

  /** The four commands sent by `android_app_set_activity_state`. */
  predicate Lifecycle(c: Cmd) {
    c == Start || c == Resume || c == Pause || c == Stop
  }

  /** The commands a callback only writes, without the mutex and without waiting. */
  predicate PostOnly(c: Cmd) {
    c == GainedFocus || c == LostFocus || c == ConfigChanged || c == LowMemory
  }

  /** A framework call into the glue. */
  datatype Call =
    | Create | SetInput(queue: Ptr) | SetWindow(win: Ptr) | SetState(state: Cmd) | Save | Free
    | Post(cmd: Cmd)

  /** Which of the six wait loops the main thread is in. */
  datatype Wait =
    | ForRunning | ForInput | ForWindow(win: Ptr) | ForState(state: Cmd) | ForSaved | ForDestroyed

  /** Program counter of the main thread. */
  datatype MainPc =
    | Idle
    | Locking(call: Call)
    | PendInput(queue: Ptr) | SendInput
    | TermOld(win: Ptr) | PendWindow(win: Ptr) | SendInit(win: Ptr)
    | SendState(state: Cmd)
    | ClearSaved | SendSave
    | SendDestroy
    | Testing(wait: Wait)    // evaluates the loop guard, holding the mutex
    | Asleep(wait: Wait)     // inside pthread_cond_wait, not yet signalled
    | Woken(wait: Wait)      // signalled, has to take the mutex again
    | Taking                 // onSaveInstanceState takes the buffer
    | Unlocking(wait: Wait)
    | Releasing              // android_app_free after the unlock
    | Gone

  datatype Reason = OnRead | OnResume | OnExit

  /** A critical section of the app thread. */
  datatype Section = Run | Pre(cmd: Cmd) | Fin(cmd: Cmd) | Drop(why: Reason) | Exit

  datatype Phase = Lock | Write | Broadcast | Unlock

  /** Program counter of the app thread. */
  datatype AppPc =
    | Crit(section: Section, phase: Phase)
    | Polling                // in android_main, between commands
    | PreExec(cmd: Cmd)      // pre-exec of the commands that take no lock there
    | UserCode(cmd: Cmd)     // inside onAppCmd
    | Exited

  datatype Holder = Nobody | MainThread | AppThread

  /** The fields of `struct android_app` that the protocol uses. */
  datatype AndroidApp = AndroidApp(
    running: bool,
    stateSaved: bool,
    destroyed: bool,
    destroyRequested: bool,
    activityState: Cmd,
    inputQueue: Ptr,
    pendingInputQueue: Ptr,
    window: Ptr,
    pendingWindow: Ptr,
    savedState: Ptr)

  /** History: what happened to saved-state buffers, and the window being terminated. */
  datatype History = History(
    nextBuffer: Ptr,
    freed: multiset<Ptr>,
    handed: multiset<Ptr>,
    stored: Ptr,
    returned: Ptr,
    terminating: Ptr)

  datatype State = State(
    g: AndroidApp,
    live: bool,
    mutex: Holder,
    pipe: seq<Cmd>,
    main: MainPc,
    app: AppPc,
    h: History)

  /**
   The state `android_app_create` leaves when it starts the thread: everything zero, except
   that a saved state passed in has been copied into buffer 1.
   */
  predicate Init(s: State) {
    && !s.g.running && !s.g.stateSaved && !s.g.destroyed && !s.g.destroyRequested
    && s.g.activityState == InputChanged   // memset: command number 0
    && s.g.inputQueue == NULL && s.g.pendingInputQueue == NULL
    && s.g.window == NULL && s.g.pendingWindow == NULL
    && ((s.g.savedState == NULL && s.h.nextBuffer == 1) || (s.g.savedState == 1 && s.h.nextBuffer == 2))
    && s.live && s.mutex == Nobody && s.pipe == []
    && s.main == Locking(Create) && s.app == Crit(Run, Lock)
    && s.h.freed == multiset{} && s.h.handed == multiset{}
    && s.h.stored == NULL && s.h.returned == NULL && s.h.terminating == NULL
  }

  /** The negation of each wait loop's guard. */
  predicate Satisfied(g: AndroidApp, w: Wait) {
    match w
    case ForRunning => g.running
    case ForInput => g.inputQueue == g.pendingInputQueue
    case ForWindow(_) => g.window == g.pendingWindow
    case ForState(c) => g.activityState == c
    case ForSaved => g.stateSaved
    case ForDestroyed => g.destroyed
  }

  datatype Label =
    | Main(call: Call)   // the main thread's next statement; `call` matters only when idle
    | Spurious           // pthread_cond_wait returns without a signal
    | App                // the app thread's next statement
    | UserStores         // user code handling SAVE_STATE mallocs a buffer into savedState
    | MainReturns        // android_main returns

  predicate AppLabel(l: Label) {
    l == App || l == UserStores || l == MainReturns
  }

  predicate MainHolds(m: MainPc) {
    match m
    case Idle | Locking(_) | Asleep(_) | Woken(_) | Releasing | Gone => false
    case _ => true
  }

  predicate AppHolds(a: AppPc) {
    a.Crit? && a.phase != Lock
  }

  predicate Enabled(s: State, l: Label) {
    match l
    case Main(call) => MainEnabled(s.main, call, s.mutex)
    case Spurious => s.main.Asleep?
    case App => AppEnabled(s.app, s.pipe, s.mutex)
    case UserStores => s.app == UserCode(SaveState) && s.g.savedState == NULL
    case MainReturns => s.app == Polling
  }

  predicate MainEnabled(m: MainPc, call: Call, mutex: Holder) {
    match m
    case Idle =>
      !call.Create? && (call.SetState? ==> Lifecycle(call.state)) && (call.Post? ==> PostOnly(call.cmd))
    case Locking(_) => mutex == Nobody
    case Woken(_) => mutex == Nobody
    case Asleep(_) => false
    case Gone => false
    case _ => true
  }

  predicate AppEnabled(a: AppPc, pipe: seq<Cmd>, mutex: Holder) {
    match a
    case Crit(_, Lock) => mutex == Nobody
    case Polling => pipe != []
    case Exited => false
    case _ => true
  }

  function Step(s: State, l: Label): State
    requires Enabled(s, l)
  {
    match l
    case Main(call) => MainStep(s, call)
    case Spurious => s.(main := Woken(s.main.wait))
    case App => AppStep(s)
    case UserStores => s.(g := s.g.(savedState := s.h.nextBuffer), h := Allocated(s.h))
    case MainReturns => s.(app := Crit(Drop(OnExit), Lock))
  }

  function Allocated(h: History): History {
    h.(stored := h.nextBuffer, nextBuffer := h.nextBuffer + 1)
  }

  // ----- the main thread, component by component

  function MainStep(s: State, call: Call): State
    requires MainEnabled(s.main, call, s.mutex)
  {
    State(MainWrites(s.main, s.g), s.live && s.main != Releasing, MainLocks(s.main, s.g, s.mutex),
          s.pipe + MainSends(s.main, call, s.g), MainNext(s.main, call, s.g), s.app, MainNotes(s.main, s.g, s.h))
  }

  /** First statement of a call after it has the mutex. */
  function FirstPc(call: Call): MainPc {
    match call
    case Create => Testing(ForRunning)
    case SetInput(q) => PendInput(q)
    case SetWindow(w) => TermOld(w)
    case SetState(c) => SendState(c)
    case Save => ClearSaved
    case Free => SendDestroy
    case Post(_) => Idle
  }

  function MainNext(m: MainPc, call: Call, g: AndroidApp): MainPc {
    match m
    case Idle => if call.Post? then Idle else Locking(call)
    case Locking(c) => FirstPc(c)
    case PendInput(_) => SendInput
    case SendInput => Testing(ForInput)
    case TermOld(w) => PendWindow(w)
    case PendWindow(w) => SendInit(w)
    case SendInit(w) => Testing(ForWindow(w))
    case SendState(c) => Testing(ForState(c))
    case ClearSaved => SendSave
    case SendSave => Testing(ForSaved)
    case SendDestroy => Testing(ForDestroyed)
    case Testing(w) => if !Satisfied(g, w) then Asleep(w) else if w == ForSaved then Taking else Unlocking(w)
    case Woken(w) => Testing(w)
    case Taking => Unlocking(ForSaved)
    case Unlocking(w) => if w == ForDestroyed then Releasing else Idle
    case Releasing => Gone
    case Asleep(_) => m
    case Gone => m
  }

  /** Bytes written into the pipe. */
  function MainSends(m: MainPc, call: Call, g: AndroidApp): seq<Cmd> {
    match m
    case Idle => if call.Post? then [call.cmd] else []
    case SendInput => [InputChanged]
    case TermOld(_) => if g.pendingWindow != NULL then [TermWindow] else []
    case SendInit(w) => if w != NULL then [InitWindow] else []
    case SendState(c) => [c]
    case SendSave => [SaveState]
    case SendDestroy => [Destroy]
    case _ => []
  }

  function MainWrites(m: MainPc, g: AndroidApp): AndroidApp {
    match m
    case PendInput(q) => g.(pendingInputQueue := q)
    case PendWindow(w) => g.(pendingWindow := w)
    case ClearSaved => g.(stateSaved := false)
    case Taking => g.(savedState := NULL)
    case _ => g
  }

  /** pthread_mutex_lock, pthread_mutex_unlock, and the release inside pthread_cond_wait. */
  function MainLocks(m: MainPc, g: AndroidApp, mutex: Holder): Holder {
    match m
    case Locking(_) => MainThread
    case Woken(_) => MainThread
    case Testing(w) => if !Satisfied(g, w) then Nobody else mutex
    case Unlocking(_) => Nobody
    case _ => mutex
  }

  function MainNotes(m: MainPc, g: AndroidApp, h: History): History {
    match m
    case TermOld(_) => if g.pendingWindow != NULL then h.(terminating := g.pendingWindow) else h
    case ClearSaved => h.(stored := NULL)
    case Taking =>
      if g.savedState != NULL
      then h.(returned := g.savedState, handed := h.handed + multiset{g.savedState})
      else h.(returned := NULL)
    case _ => h
  }

  // ----- the app thread, component by component

  function AppStep(s: State): State
    requires AppEnabled(s.app, s.pipe, s.mutex)
  {
    State(AppWrites(s.app, s.g), s.live, AppLocks(s.app, s.mutex),
          if s.app == Polling then s.pipe[1..] else s.pipe,
          if Broadcasts(s.app) then Wake(s.main) else s.main,
          AppNext(s.app, s.pipe), AppNotes(s.app, s.g, s.h))
  }

  /** Where `process_cmd` goes with a command just read from the pipe. */
  function AfterRead(c: Cmd): AppPc {
    if c == SaveState then Crit(Drop(OnRead), Lock)
    else if c == InputChanged || c == InitWindow || Lifecycle(c) then Crit(Pre(c), Lock)
    else PreExec(c)
  }

  /** Where `process_cmd` goes when `onAppCmd` returns. */
  function AfterUser(c: Cmd): AppPc {
    if c == TermWindow || c == SaveState then Crit(Fin(c), Lock)
    else if c == Resume then Crit(Drop(OnResume), Lock)
    else Polling
  }

  /** Where the app thread goes after unlocking. */
  function AfterSection(sec: Section): AppPc {
    match sec
    case Run => Polling
    case Pre(c) => UserCode(c)
    case Fin(c) => Polling
    case Drop(OnRead) => PreExec(SaveState)
    case Drop(OnResume) => Polling
    case Drop(OnExit) => Crit(Exit, Lock)
    case Exit => Exited
  }

  function AppNext(a: AppPc, pipe: seq<Cmd>): AppPc
    requires a == Polling ==> pipe != []
  {
    match a
    case Crit(sec, Lock) => Crit(sec, Write)
    case Crit(sec, Write) => Crit(sec, if sec.Drop? then Unlock else Broadcast)
    case Crit(sec, Broadcast) => Crit(sec, Unlock)
    case Crit(sec, Unlock) => AfterSection(sec)
    case Polling => AfterRead(pipe[0])
    case PreExec(c) => UserCode(c)
    case UserCode(c) => AfterUser(c)
    case Exited => Exited
  }

  /** The assignments of a critical section. */
  function SectionWrites(sec: Section, g: AndroidApp): AndroidApp {
    match sec
    case Run => g.(running := true)
    case Pre(c) =>
      if c == InputChanged then g.(inputQueue := g.pendingInputQueue)
      else if c == InitWindow then g.(window := g.pendingWindow)
      else g.(activityState := c)
    case Fin(c) => if c == TermWindow then g.(window := NULL) else g.(stateSaved := true)
    case Drop(_) => g.(savedState := NULL)
    case Exit => g.(destroyed := true)
  }

  function AppWrites(a: AppPc, g: AndroidApp): AndroidApp {
    match a
    case Crit(sec, Write) => SectionWrites(sec, g)
    case PreExec(c) => if c == Destroy then g.(destroyRequested := true) else g
    case _ => g
  }

  function AppLocks(a: AppPc, mutex: Holder): Holder {
    match a
    case Crit(_, Lock) => AppThread
    case Crit(_, Unlock) => Nobody
    case _ => mutex
  }

  /** The broadcast of a critical section, and the one TERM_WINDOW makes without the mutex. */
  predicate Broadcasts(a: AppPc) {
    (a.Crit? && a.phase == Broadcast) || a == PreExec(TermWindow)
  }

  /** pthread_cond_broadcast: a sleeping main thread becomes eligible for the mutex. */
  function Wake(m: MainPc): MainPc {
    if m.Asleep? then Woken(m.wait) else m
  }

  function AppNotes(a: AppPc, g: AndroidApp, h: History): History {
    match a
    case Crit(Drop(_), Write) =>
      if g.savedState != NULL then h.(freed := h.freed + multiset{g.savedState}) else h
    case _ => h
  }

  ghost predicate TakesStep(states: seq<State>, labels: seq<Label>, i: nat)
    requires i < |labels| < |states|
  {
    Enabled(states[i], labels[i]) && states[i + 1] == Step(states[i], labels[i])
  }

  /** A finite run from start-up. */
  ghost predicate IsRun(states: seq<State>, labels: seq<Label>) {
    && |states| == |labels| + 1
    && Init(states[0])
    && forall i :: 0 <= i < |labels| ==> TakesStep(states, labels, i)
  }

  /** The app returns from `android_main` only once it has been asked to. */
  predicate Polite(s: State, l: Label) {
    l == MainReturns ==> s.g.destroyRequested
  }
}
