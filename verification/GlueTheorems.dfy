/** What the invariant of the glue means for whole runs. */
module GlueTheorems {
  import opened GlueProtocol
  import opened GlueSafety

  /** No two threads are ever both inside a critical section. */
  lemma MutualExclusion(states: seq<State>, labels: seq<Label>, i: nat)
    requires IsRun(states, labels) && i <= |labels|
    ensures !(MainHolds(states[i].main) && AppHolds(states[i].app))
  {
    RunInv(states, labels, i);
  }

  /**
   No lost wake-up: whenever the main thread sleeps on a condition that already holds, the app
   thread holds the mutex at a broadcast, and that broadcast wakes the main thread.
   */
  lemma NoLostWakeUp(states: seq<State>, labels: seq<Label>, i: nat)
    requires IsRun(states, labels) && i <= |labels|
    requires states[i].main.Asleep? && Satisfied(states[i].g, states[i].main.wait)
    ensures states[i].mutex == AppThread && Enabled(states[i], App)
    ensures Step(states[i], App).main == Woken(states[i].main.wait)
  {
    RunInv(states, labels, i);
  }

  /** Once the main thread has freed the struct, the app thread can take no step at all. */
  lemma NoUseAfterFree(states: seq<State>, labels: seq<Label>, i: nat, l: Label)
    requires IsRun(states, labels) && i <= |labels|
    requires !states[i].live && AppLabel(l)
    ensures !Enabled(states[i], l) && states[i].mutex == Nobody
  {
    RunInv(states, labels, i);
  }

  /** A buffer is never freed twice, handed over twice, or both. */
  lemma FreedOrHandedOnce(states: seq<State>, labels: seq<Label>, i: nat, b: Ptr)
    requires IsRun(states, labels) && i <= |labels|
    ensures states[i].h.freed[b] + states[i].h.handed[b] <= 1
    ensures b == states[i].g.savedState && b != NULL ==> states[i].h.freed[b] + states[i].h.handed[b] == 0
  {
    RunInv(states, labels, i);
  }

  /** Nothing leaks: at the end every buffer ever allocated has been freed or handed over. */
  lemma NoBufferLeaks(states: seq<State>, labels: seq<Label>, i: nat, b: Ptr)
    requires IsRun(states, labels) && i <= |labels|
    requires !states[i].live && 1 <= b < states[i].h.nextBuffer
    ensures states[i].h.freed[b] + states[i].h.handed[b] == 1
  {
    RunInv(states, labels, i);
  }

  /** Only a user store records a buffer, and starting a new save forgets it. */
  lemma StoredKept(s: State, l: Label)
    requires Enabled(s, l) && l != UserStores && Step(s, l).h.stored != NULL
    ensures s.h.stored == Step(s, l).h.stored && !(s.main == ClearSaved && l.Main?)
  {
  }

  /** A recorded store was made by user code since the current onSaveInstanceState began. */
  lemma {:induction false} StoredSince(states: seq<State>, labels: seq<Label>, i: nat) returns (j: nat)
    requires IsRun(states, labels) && i <= |labels| && states[i].h.stored != NULL
    ensures j < i && labels[j] == UserStores && states[j].app == UserCode(SaveState)
    ensures states[j + 1].g.savedState == states[i].h.stored
    ensures forall k :: j < k < i ==> !(states[k].main == ClearSaved && labels[k].Main?)
  {
    assert i == 0 || TakesStep(states, labels, i - 1);
    if labels[i - 1] == UserStores {
      j := i - 1;
    } else {
      StoredKept(states[i - 1], labels[i - 1]);
      j := StoredSince(states, labels, i - 1);
    }
  }

  /**
   What onSaveInstanceState returns is NULL or the buffer that user code stored while handling
   the SAVE_STATE of this very call; it has not been freed and is handed over this once.
   */
  lemma ReturnedIsStored(states: seq<State>, labels: seq<Label>, i: nat) returns (j: nat)
    requires IsRun(states, labels) && i < |labels|
    requires states[i].main == Taking && labels[i].Main?
    ensures var r := states[i + 1].h.returned;
      r != NULL ==>
        && j < i && labels[j] == UserStores && states[j].app == UserCode(SaveState)
        && states[j + 1].g.savedState == r
        && (forall k :: j < k < i ==> !(states[k].main == ClearSaved && labels[k].Main?))
        && states[i + 1].h.freed[r] == 0 && states[i + 1].h.handed[r] == 1
        && states[i + 1].g.savedState == NULL
  {
    RunInv(states, labels, i);
    RunInv(states, labels, i + 1);
    assert TakesStep(states, labels, i);
    j := 0;
    if states[i + 1].h.returned != NULL {
      j := StoredSince(states, labels, i);
    }
  }
}
