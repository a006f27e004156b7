/**
 * The queue of database tasks: one worker, any number of other threads that add tasks, flush and
 * shut down, one mutex and one condition variable, interleaved step by step.
 */
module TaskQueue {
  import opened Options

  type Tid = nat
  const WORKER: Tid := 0

  datatype ThreadState = RUNNING | CLOSING | TERMINATED

  // Where a thread is. The index carried while a task is in hand says which accepted task it is.
  datatype Pc<T> =
    | Idle
    // threadMain
    | WorkerTest | WorkerLock | WorkerLook | WorkerParked | WorkerWoken | WorkerTake | WorkerHand(k: nat) | WorkerDone
    // addTask
    | AddLock(task: T) | AddTest(task: T) | AddPush(task: T, signal: bool) | AddUnlock(signal: bool) | AddNotify
    // flush, alone or as the end of shutdown
    | FlushLock(final: bool) | FlushLook(final: bool) | FlushHand(k: nat, final: bool)
    // shutdown
    | ShutLock | ShutSet | ShutNotify

  // The shared state and every thread's place, with the history of the queue: the tasks accepted,
  // those taken off the front, and the order in which they were handed to runTask.
  datatype State<T> = State(
    state: ThreadState, lock: Option<Tid>, queue: seq<T>, pcs: map<Tid, Pc<T>>,
    accepted: seq<T>, taken: seq<T>, handed: seq<nat>, ended: bool, drained: bool)

  // A step: a thread goes on from where it is, an idle thread begins a call, or the worker wakes
  // up without being notified.
  datatype Step<T> = Go(t: Tid) | Add(t: Tid, task: T) | Flush(t: Tid) | Shutdown(t: Tid) | Stop(t: Tid) | Spurious

  predicate NeedsLock<T>(pc: Pc<T>) {
    pc.WorkerLock? || pc.WorkerWoken? || pc.AddLock? || pc.FlushLock? || pc.ShutLock?
  }

  predicate HoldsLock<T>(pc: Pc<T>) {
    pc.WorkerLook? || pc.WorkerTake? || pc.AddTest? || pc.AddPush? || pc.AddUnlock? || pc.FlushLook? || pc.ShutSet?
  }

  predicate ForWorker<T>(pc: Pc<T>) {
    || pc.WorkerTest? || pc.WorkerLock? || pc.WorkerLook? || pc.WorkerParked? || pc.WorkerWoken?
    || pc.WorkerTake? || pc.WorkerHand? || pc.WorkerDone?
  }

  predicate Enabled<T>(s: State<T>, step: Step<T>) {
    match step
    case Go(t) =>
      t in s.pcs && !s.pcs[t].Idle? && !s.pcs[t].WorkerParked? && !s.pcs[t].WorkerDone?
      && (NeedsLock(s.pcs[t]) ==> s.lock == None)
    case Add(t, task) => t in s.pcs && s.pcs[t].Idle?
    case Flush(t) => t in s.pcs && s.pcs[t].Idle?
    case Shutdown(t) => t in s.pcs && s.pcs[t].Idle?
    case Stop(t) => t in s.pcs && s.pcs[t].Idle?
    case Spurious => WORKER in s.pcs && s.pcs[WORKER].WorkerParked?
  }

  function Apply<T>(s: State<T>, step: Step<T>): State<T>
    requires Enabled(s, step)
  {
    match step
    case Go(t) => Next(s, t)
    case Add(t, task) => At(s, t, AddLock(task))
    case Flush(t) => At(s, t, FlushLock(false))
    case Shutdown(t) => At(s, t, ShutLock)
    case Stop(t) => s.(state := CLOSING)
    case Spurious => At(s, WORKER, WorkerWoken)
  }

  function At<T>(s: State<T>, t: Tid, pc: Pc<T>): State<T> {
    s.(pcs := s.pcs[t := pc])
  }

  function Locked<T>(s: State<T>, t: Tid, pc: Pc<T>): State<T> {
    At(s, t, pc).(lock := Some(t))
  }

  function Unlocked<T>(s: State<T>, t: Tid, pc: Pc<T>): State<T> {
    At(s, t, pc).(lock := None)
  }

  // notify_one: only the worker ever waits.
  function Notified<T>(s: State<T>): State<T> {
    if WORKER in s.pcs && s.pcs[WORKER].WorkerParked? then At(s, WORKER, WorkerWoken) else s
  }

  function Popped<T>(s: State<T>): State<T>
    requires s.queue != []
  {
    s.(taken := s.taken + [s.queue[0]], queue := s.queue[1..])
  }

  // One atomic step of threadMain.
  function WorkerNext<T>(s: State<T>, t: Tid): State<T>
    requires t in s.pcs && ForWorker(s.pcs[t])
  {
    match s.pcs[t]
    case WorkerTest => At(s, t, if s.state != TERMINATED then WorkerLock else WorkerDone)
    case WorkerLock => Locked(s, t, WorkerLook)
    case WorkerLook => if s.queue == [] then Unlocked(s, t, WorkerParked) else At(s, t, WorkerTake)
    case WorkerWoken => Locked(s, t, WorkerTake)
    case WorkerTake =>
      if s.queue == [] then Unlocked(s, t, WorkerTest) else Unlocked(Popped(s), t, WorkerHand(|s.taken|))
    case WorkerHand(k) => At(s, t, WorkerTest).(handed := s.handed + [k])
    case _ => s
  }

  // One atomic step of addTask.
  function AddNext<T>(s: State<T>, t: Tid): State<T>
    requires t in s.pcs
  {
    match s.pcs[t]
    case AddLock(task) => Locked(s, t, AddTest(task))
    case AddTest(task) => At(s, t, if s.state == RUNNING then AddPush(task, s.queue == []) else AddUnlock(false))
    case AddPush(task, signal) =>
      At(s, t, AddUnlock(signal)).(queue := s.queue + [task], accepted := s.accepted + [task])
    case AddUnlock(signal) => Unlocked(s, t, if signal then AddNotify else Idle)
    case AddNotify => Notified(At(s, t, Idle))
    case _ => s
  }

  // One atomic step of flush.
  function FlushNext<T>(s: State<T>, t: Tid): State<T>
    requires t in s.pcs
  {
    match s.pcs[t]
    case FlushLock(final) => Locked(s, t, FlushLook(final))
    case FlushLook(final) =>
      if s.queue != [] then Unlocked(Popped(s), t, FlushHand(|s.taken|, final))
      else if final then Unlocked(s, t, ShutNotify).(drained := true)
      else Unlocked(s, t, Idle)
    case FlushHand(k, final) => At(s, t, FlushLock(final)).(handed := s.handed + [k])
    case _ => s
  }

  // One atomic step of shutdown before and after its flush.
  function ShutNext<T>(s: State<T>, t: Tid): State<T>
    requires t in s.pcs
  {
    match s.pcs[t]
    case ShutLock => Locked(s, t, ShutSet)
    case ShutSet => Unlocked(s, t, FlushLock(true)).(state := TERMINATED, ended := true)
    case ShutNotify => Notified(At(s, t, Idle))
    case _ => s
  }

  predicate ForAdd<T>(pc: Pc<T>) {
    pc.AddLock? || pc.AddTest? || pc.AddPush? || pc.AddUnlock? || pc.AddNotify?
  }

  predicate ForFlush<T>(pc: Pc<T>) {
    pc.FlushLock? || pc.FlushLook? || pc.FlushHand?
  }

  predicate ForShut<T>(pc: Pc<T>) {
    pc.ShutLock? || pc.ShutSet? || pc.ShutNotify?
  }

  function Next<T>(s: State<T>, t: Tid): State<T>
    requires t in s.pcs
  {
    if ForWorker(s.pcs[t]) then WorkerNext(s, t)
    else if ForAdd(s.pcs[t]) then AddNext(s, t)
    else if ForFlush(s.pcs[t]) then FlushNext(s, t)
    else ShutNext(s, t)
  }

  // ---- What every run keeps ----

  // The lock is held by the one thread that is where it holds it, and only the worker works.
  ghost predicate Placed<T>(s: State<T>, t: Tid)
    requires t in s.pcs
  {
    && (HoldsLock(s.pcs[t]) <==> s.lock == Some(t))
    && (ForWorker(s.pcs[t]) <==> t == WORKER)
  }

  predicate InHand<T>(pc: Pc<T>) {
    pc.WorkerHand? || pc.FlushHand?
  }

  // A task in hand was taken and not handed over yet, and is in no other hand.
  ghost predicate Held<T>(s: State<T>, t: Tid)
    requires t in s.pcs
  {
    InHand(s.pcs[t]) ==> s.pcs[t].k < |s.taken| && s.pcs[t].k !in s.handed
  }

  ghost predicate NotBoth<T>(s: State<T>, t: Tid, u: Tid)
    requires t in s.pcs && u in s.pcs
  {
    t != u && InHand(s.pcs[t]) && InHand(s.pcs[u]) ==> s.pcs[t].k != s.pcs[u].k
  }

  // A task that was taken has been handed over, or is in a hand.
  ghost predicate Kept<T>(s: State<T>, i: nat) {
    i in s.handed || exists t :: InHandOf(s, t, i)
  }

  predicate InHandOf<T>(s: State<T>, t: Tid, i: nat) {
    t in s.pcs && InHand(s.pcs[t]) && s.pcs[t].k == i
  }

  ghost predicate Once(handed: seq<nat>, taken: nat) {
    && (forall i | 0 <= i < |handed| :: handed[i] < taken)
    && forall i, j | 0 <= i < j < |handed| :: handed[i] != handed[j]
  }

  // A producer about to push knows whether the queue was empty, and pushes into a live queue; a
  // shutting-down thread has ended the intake.
  ghost predicate Informed<T>(s: State<T>, t: Tid)
    requires t in s.pcs
  {
    match s.pcs[t]
    case AddPush(_, signal) => signal == (s.queue == []) && !s.ended
    case FlushLock(final) => final ==> s.ended
    case FlushLook(final) => final ==> s.ended
    case FlushHand(_, final) => final ==> s.ended
    case _ => true
  }

  // A producer that still has to notify.
  predicate Owes<T>(s: State<T>, t: Tid)
    requires t in s.pcs
  {
    s.pcs[t].AddNotify? || (s.pcs[t].AddUnlock? && s.pcs[t].signal)
  }

  // If the worker waits unnotified while there are tasks, somebody is about to notify it.
  ghost predicate NoLostWakeup<T>(s: State<T>) {
    WORKER in s.pcs && s.pcs[WORKER].WorkerParked? && s.queue != [] ==> exists t :: t in s.pcs && Owes(s, t)
  }

  // Locking.
  ghost predicate Orderly<T>(s: State<T>) {
    && WORKER in s.pcs && (s.lock.Some? ==> s.lock.value in s.pcs)
    && forall t {:trigger Placed(s, t)} | t in s.pcs :: Placed(s, t)
  }

  // Tasks leave in the order they were accepted, none is handed over twice, and none is lost.
  ghost predicate Accounted<T>(s: State<T>) {
    && s.accepted == s.taken + s.queue
    && Once(s.handed, |s.taken|)
    && (forall t {:trigger Held(s, t)} | t in s.pcs :: Held(s, t))
    && (forall t, u {:trigger NotBoth(s, t, u)} | t in s.pcs && u in s.pcs :: NotBoth(s, t, u))
    && forall i: nat {:trigger Kept(s, i)} | i < |s.taken| :: Kept(s, i)
  }

  // After the flush of a shutdown the queue stays empty.
  ghost predicate Ending<T>(s: State<T>) {
    && (s.ended ==> s.state != RUNNING)
    && (s.drained ==> s.ended && s.queue == [])
    && forall t {:trigger Informed(s, t)} | t in s.pcs :: Informed(s, t)
  }

  ghost predicate Safe<T>(s: State<T>) {
    Orderly(s) && Accounted(s) && Ending(s) && NoLostWakeup(s)
  }

  function Start<T>(threads: set<Tid>): State<T> {
    State(RUNNING, None, [], map t | t in threads + {WORKER} :: if t == WORKER then WorkerTest else Idle,
          [], [], [], false, false)
  }

  lemma StartIsSafe<T>(threads: set<Tid>)
    ensures Safe(Start<T>(threads))
  {
  }

  // Another thread is where it was, unless it is the worker and was woken.
  ghost predicate Elsewhere<T>(s: State<T>, u: State<T>, t: Tid, v: Tid) {
    && v in s.pcs && v in u.pcs
    && (u.pcs[v] == s.pcs[v] || (v == WORKER && s.pcs[v].WorkerParked? && u.pcs[v].WorkerWoken?))
  }

  lemma OthersStay<T>(s: State<T>, t: Tid, v: Tid)
    requires t in s.pcs && v in s.pcs && v != t
    ensures Elsewhere(s, Next(s, t), t, v)
  {
    if ForWorker(s.pcs[t]) {
      WorkerMovesAlone(s, t, v);
    } else if ForAdd(s.pcs[t]) {
      AddMovesAlone(s, t, v);
    }
  }

  lemma WorkerMovesAlone<T>(s: State<T>, t: Tid, v: Tid)
    requires t in s.pcs && v in s.pcs && v != t && ForWorker(s.pcs[t])
    ensures Elsewhere(s, WorkerNext(s, t), t, v)
  {
  }

  lemma AddMovesAlone<T>(s: State<T>, t: Tid, v: Tid)
    requires t in s.pcs && v in s.pcs && v != t
    ensures Elsewhere(s, AddNext(s, t), t, v)
  {
  }

  // The mutex goes to or from the thread that moves, and it knows.
  ghost predicate LockMoved<T>(s: State<T>, u: State<T>, t: Tid) {
    && u.pcs.Keys == s.pcs.Keys && t in u.pcs && Placed(u, t)
    && (u.lock == s.lock || (s.lock == None && u.lock == Some(t)) || (s.lock == Some(t) && u.lock == None))
  }

  lemma WorkerLockMoves<T>(s: State<T>, t: Tid)
    requires Enabled(s, Go(t)) && Placed(s, t) && ForWorker(s.pcs[t])
    ensures LockMoved(s, WorkerNext(s, t), t)
  {
  }

  lemma AddLockMoves<T>(s: State<T>, t: Tid)
    requires Enabled(s, Go(t)) && Placed(s, t) && ForAdd(s.pcs[t])
    ensures LockMoved(s, AddNext(s, t), t)
  {
  }

  lemma FlushLockMoves<T>(s: State<T>, t: Tid)
    requires Enabled(s, Go(t)) && Placed(s, t) && ForFlush(s.pcs[t])
    ensures LockMoved(s, FlushNext(s, t), t)
  {
  }

  lemma ShutLockMoves<T>(s: State<T>, t: Tid)
    requires Enabled(s, Go(t)) && Placed(s, t) && ForShut(s.pcs[t])
    ensures LockMoved(s, ShutNext(s, t), t)
  {
  }

  lemma LockMoves<T>(s: State<T>, t: Tid)
    requires Enabled(s, Go(t)) && Placed(s, t)
    ensures LockMoved(s, Next(s, t), t)
  {
    if ForWorker(s.pcs[t]) {
      WorkerLockMoves(s, t);
    } else if ForAdd(s.pcs[t]) {
      AddLockMoves(s, t);
    } else if ForFlush(s.pcs[t]) {
      FlushLockMoves(s, t);
    } else {
      ShutLockMoves(s, t);
    }
  }

  lemma OrderlyStep<T>(s: State<T>, step: Step<T>)
    requires Orderly(s) && Enabled(s, step)
    ensures Orderly(Apply(s, step))
  {
    var u := Apply(s, step);
    if step.Go? {
      var m := step.t;
      assert Placed(s, m);
      LockMoves(s, m);
      forall t | t in u.pcs ensures Placed(u, t) {
        assert Placed(s, t);
        if t != m {
          OthersStay(s, m, t);
        }
      }
    } else {
      forall t | t in u.pcs ensures Placed(u, t) {
        assert Placed(s, t);
      }
    }
  }

  // The intake ends for good, and only the holder of the lock touches the queue or ends it.
  ghost predicate EndMoved<T>(s: State<T>, u: State<T>, t: Tid) {
    && t in u.pcs && Informed(u, t)
    && (u.ended ==> u.state != RUNNING) && (u.drained ==> u.ended && u.queue == [])
    && (s.ended ==> u.ended) && (s.drained ==> u.drained && u.accepted == s.accepted)
    && ((u.queue == s.queue && u.ended == s.ended) || s.lock == Some(t))
  }

  ghost predicate Sealed<T>(s: State<T>) {
    (s.ended ==> s.state != RUNNING) && (s.drained ==> s.ended && s.queue == [])
  }

  lemma WorkerEnds<T>(s: State<T>, t: Tid)
    requires t in s.pcs && Placed(s, t) && Sealed(s) && ForWorker(s.pcs[t])
    ensures EndMoved(s, WorkerNext(s, t), t)
  {
  }

  lemma AddEnds<T>(s: State<T>, t: Tid)
    requires t in s.pcs && Placed(s, t) && Sealed(s) && Informed(s, t) && ForAdd(s.pcs[t])
    ensures EndMoved(s, AddNext(s, t), t)
  {
  }

  lemma FlushEnds<T>(s: State<T>, t: Tid)
    requires t in s.pcs && Placed(s, t) && Sealed(s) && Informed(s, t) && ForFlush(s.pcs[t])
    ensures EndMoved(s, FlushNext(s, t), t)
  {
  }

  lemma ShutEnds<T>(s: State<T>, t: Tid)
    requires t in s.pcs && Placed(s, t) && Sealed(s) && !ForWorker(s.pcs[t]) && !ForAdd(s.pcs[t]) && !ForFlush(s.pcs[t])
    ensures EndMoved(s, ShutNext(s, t), t)
  {
  }

  lemma Ends<T>(s: State<T>, t: Tid)
    requires t in s.pcs && Placed(s, t) && Sealed(s) && Informed(s, t)
    ensures EndMoved(s, Next(s, t), t)
  {
    if ForWorker(s.pcs[t]) {
      WorkerEnds(s, t);
    } else if ForAdd(s.pcs[t]) {
      AddEnds(s, t);
    } else if ForFlush(s.pcs[t]) {
      FlushEnds(s, t);
    } else {
      ShutEnds(s, t);
    }
  }

  lemma EndingStep<T>(s: State<T>, step: Step<T>)
    requires Orderly(s) && Ending(s) && Enabled(s, step)
    ensures Ending(Apply(s, step))
  {
    var u := Apply(s, step);
    if step.Go? {
      var m := step.t;
      assert Placed(s, m) && Informed(s, m);
      Ends(s, m);
      LockMoves(s, m);
      forall t | t in u.pcs ensures Informed(u, t) {
        assert Placed(s, t) && Informed(s, t);
        if t != m {
          OthersStay(s, m, t);
        }
      }
    } else {
      forall t | t in u.pcs ensures Informed(u, t) {
        assert Informed(s, t);
      }
    }
  }

  // A queue becomes non-empty only by a push onto an empty one, and then the producer knows.
  lemma Fills<T>(s: State<T>, m: Tid)
    requires m in s.pcs && Informed(s, m) && s.queue == [] && Next(s, m).queue != []
    ensures m in Next(s, m).pcs && Owes(Next(s, m), m)
  {
    assert s.pcs[m].AddPush? by {
      TasksMove(s, m);
    }
  }

  // A producer that owes goes on owing until it has notified.
  lemma KeepsOwing<T>(s: State<T>, m: Tid)
    requires m in s.pcs && WORKER in s.pcs && m != WORKER && Owes(s, m)
    ensures var u := Next(s, m); m in u.pcs && WORKER in u.pcs && (Owes(u, m) || !u.pcs[WORKER].WorkerParked?)
  {
  }

  // The worker goes to wait only when there is nothing to do.
  lemma ParksIdle<T>(s: State<T>)
    requires WORKER in s.pcs && ForWorker(s.pcs[WORKER]) && !s.pcs[WORKER].WorkerParked?
    requires WORKER in Next(s, WORKER).pcs && Next(s, WORKER).pcs[WORKER].WorkerParked?
    ensures Next(s, WORKER).queue == []
  {
  }

  lemma WakeupStep<T>(s: State<T>, step: Step<T>)
    requires Orderly(s) && Ending(s) && NoLostWakeup(s) && Enabled(s, step)
    ensures NoLostWakeup(Apply(s, step))
  {
    var u := Apply(s, step);
    assert Placed(s, WORKER);
    if step.Go? {
      var m := step.t;
      assert Placed(s, m) && Informed(s, m);
      LockMoves(s, m);
      if u.pcs[WORKER].WorkerParked? && u.queue != [] {
        if m == WORKER {
          ParksIdle(s);
        } else {
          OthersStay(s, m, WORKER);
          if s.queue == [] {
            Fills(s, m);
          } else {
            var t :| t in s.pcs && Owes(s, t);
            if t == m {
              KeepsOwing(s, m);
              assert Owes(u, m);
            } else {
              assert Placed(s, t);
              OthersStay(s, m, t);
              assert Owes(u, t);
            }
          }
        }
      }
    } else if u.pcs[WORKER].WorkerParked? && u.queue != [] {
      var t :| t in s.pcs && Owes(s, t);
      assert Placed(s, t);
      assert t in u.pcs && Owes(u, t);
    }
  }

  // A step takes the first task into the thread's hand, hands it over, adds one, or does nothing
  // to the tasks.
  ghost predicate Takes<T>(s: State<T>, u: State<T>, t: Tid)
    requires t in s.pcs && t in u.pcs
  {
    && !InHand(s.pcs[t]) && s.queue != [] && u.taken == s.taken + [s.queue[0]] && u.queue == s.queue[1..]
    && u.accepted == s.accepted
    && u.handed == s.handed && InHand(u.pcs[t]) && u.pcs[t].k == |s.taken|
  }

  ghost predicate HandsOver<T>(s: State<T>, u: State<T>, t: Tid)
    requires t in s.pcs && t in u.pcs
  {
    && u.taken == s.taken && u.queue == s.queue && u.accepted == s.accepted
    && InHand(s.pcs[t]) && u.handed == s.handed + [s.pcs[t].k] && !InHand(u.pcs[t])
  }

  ghost predicate Adds<T>(s: State<T>, u: State<T>, t: Tid)
    requires t in s.pcs && t in u.pcs
  {
    && !InHand(s.pcs[t]) && u.taken == s.taken && u.handed == s.handed && !InHand(u.pcs[t])
    && s.queue <= u.queue && u.accepted == s.accepted + u.queue[|s.queue|..]
  }

  ghost predicate TasksMoved<T>(s: State<T>, u: State<T>, t: Tid)
    requires t in s.pcs
  {
    t in u.pcs && (Takes(s, u, t) || HandsOver(s, u, t) || Adds(s, u, t))
  }

  lemma NoTasksMove<T>(s: State<T>, u: State<T>, t: Tid)
    requires t in s.pcs && t in u.pcs && !InHand(s.pcs[t]) && !InHand(u.pcs[t])
    requires u.queue == s.queue && u.taken == s.taken && u.accepted == s.accepted && u.handed == s.handed
    ensures TasksMoved(s, u, t)
  {
  }

  lemma WorkerTasksMove<T>(s: State<T>, t: Tid)
    requires t in s.pcs && ForWorker(s.pcs[t])
    ensures TasksMoved(s, WorkerNext(s, t), t)
  {
    var u := WorkerNext(s, t);
    if !s.pcs[t].WorkerHand? && !(s.pcs[t].WorkerTake? && s.queue != []) {
      NoTasksMove(s, u, t);
    }
  }

  lemma AddTasksMove<T>(s: State<T>, t: Tid)
    requires t in s.pcs && ForAdd(s.pcs[t])
    ensures TasksMoved(s, AddNext(s, t), t)
  {
    var u := AddNext(s, t);
    if s.pcs[t].AddPush? {
      assert u.queue[|s.queue|..] == [s.pcs[t].task];
    } else {
      NoTasksMove(s, u, t);
    }
  }

  lemma FlushTasksMove<T>(s: State<T>, t: Tid)
    requires t in s.pcs && ForFlush(s.pcs[t])
    ensures TasksMoved(s, FlushNext(s, t), t)
  {
    var u := FlushNext(s, t);
    if !s.pcs[t].FlushHand? && !(s.pcs[t].FlushLook? && s.queue != []) {
      NoTasksMove(s, u, t);
    }
  }

  lemma TasksMove<T>(s: State<T>, t: Tid)
    requires t in s.pcs
    ensures TasksMoved(s, Next(s, t), t)
  {
    if ForWorker(s.pcs[t]) {
      WorkerTasksMove(s, t);
    } else if ForAdd(s.pcs[t]) {
      AddTasksMove(s, t);
    } else if ForFlush(s.pcs[t]) {
      FlushTasksMove(s, t);
    } else {
      NoTasksMove(s, Next(s, t), t);
    }
  }

  lemma QueueAccounted<T>(s: State<T>, u: State<T>, t: Tid)
    requires t in s.pcs && t in u.pcs && Accounted(s) && Held(s, t)
    requires Takes(s, u, t) || HandsOver(s, u, t) || Adds(s, u, t)
    ensures u.accepted == u.taken + u.queue && Once(u.handed, |u.taken|)
  {
  }

  lemma AccountedStep<T>(s: State<T>, step: Step<T>)
    requires Orderly(s) && Accounted(s) && Enabled(s, step)
    ensures Accounted(Apply(s, step))
  {
    var u := Apply(s, step);
    if step.Go? {
      var m := step.t;
      assert Held(s, m) && Placed(s, m);
      LockMoves(s, m);
      TasksMove(s, m);
      QueueAccounted(s, u, m);
      forall t | t in u.pcs ensures Held(u, t) {
        HandsStep(s, m, t);
      }
      forall t, v | t in u.pcs && v in u.pcs ensures NotBoth(u, t, v) {
        NotBothStep(s, m, t, v);
      }
      forall i: nat | i < |u.taken| ensures Kept(u, i) {
        KeptStep(s, m, i);
      }
    } else {
      forall t | t in u.pcs ensures Held(u, t) {
        assert Held(s, t);
      }
      forall t, v | t in u.pcs && v in u.pcs ensures NotBoth(u, t, v) {
        assert NotBoth(s, t, v);
      }
      forall i: nat | i < |u.taken| ensures Kept(u, i) {
        assert Kept(s, i);
        if i !in s.handed {
          var t :| InHandOf(s, t, i);
          assert InHandOf(u, t, i);
        }
      }
    }
  }

  // Whatever thread moves, no task that was taken is lost.
  lemma KeptStep<T>(s: State<T>, m: Tid, i: nat)
    requires Accounted(s) && Enabled(s, Go(m)) && i < |Next(s, m).taken|
    ensures Kept(Next(s, m), i)
  {
    var u := Next(s, m);
    TasksMove(s, m);
    if i == |s.taken| {
      assert InHandOf(u, m, i);
    } else {
      assert Kept(s, i);
      if i !in s.handed {
        var t :| InHandOf(s, t, i);
        if t != m {
          OthersStay(s, m, t);
          assert InHandOf(u, t, i);
        }
      }
    }
  }

  lemma HandsStep<T>(s: State<T>, m: Tid, t: Tid)
    requires Accounted(s) && Enabled(s, Go(m)) && t in s.pcs
    ensures t in Next(s, m).pcs && Held(Next(s, m), t)
  {
    assert Held(s, t) && Held(s, m) && NotBoth(s, t, m);
    TasksMove(s, m);
    if t != m {
      OthersStay(s, m, t);
    }
  }

  lemma NotBothStep<T>(s: State<T>, m: Tid, t: Tid, v: Tid)
    requires Accounted(s) && Enabled(s, Go(m)) && t in s.pcs && v in s.pcs
    ensures var u := Next(s, m); t in u.pcs && v in u.pcs && NotBoth(u, t, v)
  {
    assert NotBoth(s, t, v) && Held(s, t) && Held(s, v);
    TasksMove(s, m);
    if t != m {
      OthersStay(s, m, t);
    }
    if v != m {
      OthersStay(s, m, v);
    }
  }

  // ---- Runs ----

  ghost predicate IsRun<T>(run: seq<State<T>>, steps: seq<Step<T>>) {
    && |run| == |steps| + 1
    && forall k {:trigger steps[k]} | 0 <= k < |steps| ::
      Enabled(run[k], steps[k]) && run[k + 1] == Apply(run[k], steps[k])
  }

  /** Under every schedule: tasks are taken in the order in which they were accepted and each is
      handed over at most once; a worker that waits while there are tasks is about to be notified;
      and once a shutdown has flushed, the queue is empty for good. */
  lemma {:induction false} RunIsSafe<T>(threads: set<Tid>, run: seq<State<T>>, steps: seq<Step<T>>, k: nat)
    requires IsRun(run, steps) && run[0] == Start(threads) && k < |run|
    ensures Safe(run[k])
  {
    if k == 0 {
      StartIsSafe<T>(threads);
    } else {
      RunIsSafe(threads, run, steps, k - 1);
      assert Enabled(run[k - 1], steps[k - 1]);
      OrderlyStep(run[k - 1], steps[k - 1]);
      EndingStep(run[k - 1], steps[k - 1]);
      WakeupStep(run[k - 1], steps[k - 1]);
      AccountedStep(run[k - 1], steps[k - 1]);
    }
  }

  /** What a shutdown has flushed stays empty at every later moment, and every task that was ever
      accepted has been handed over or is in a hand. */
  lemma {:induction false} DrainedForEver<T>(threads: set<Tid>, run: seq<State<T>>, steps: seq<Step<T>>, j: nat, k: nat)
    requires IsRun(run, steps) && run[0] == Start(threads) && j <= k < |run| && run[j].drained
    ensures run[k].drained && run[k].queue == [] && run[k].accepted == run[k].taken
    ensures run[k].accepted == run[j].accepted
    ensures forall i: nat | i < |run[k].accepted| :: Kept(run[k], i)
    decreases k - j
  {
    RunIsSafe(threads, run, steps, k);
    if k > j {
      DrainedForEver(threads, run, steps, j, k - 1);
      RunIsSafe(threads, run, steps, k - 1);
      var s, step := run[k - 1], steps[k - 1];
      assert Enabled(s, step);
      if step.Go? {
        assert Informed(s, step.t) && Placed(s, step.t);
        Ends(s, step.t);
      }
    }
  }

  // ---- What each call does ----

  // From k on, t moves next at step m.
  ghost predicate MovesNext<T>(steps: seq<Step<T>>, t: Tid, k: nat, m: nat) {
    k <= m < |steps| && steps[m] == Go(t) && forall j | k <= j < m :: steps[j] != Go(t)
  }

  // While a thread holds the lock nobody else touches the tasks.
  lemma OthersWait<T>(s: State<T>, step: Step<T>, t: Tid)
    requires Orderly(s) && t in s.pcs && HoldsLock(s.pcs[t]) && Enabled(s, step) && step != Go(t)
    ensures var u := Apply(s, step);
      && t in u.pcs && u.pcs[t] == s.pcs[t]
      && u.queue == s.queue && u.accepted == s.accepted && u.taken == s.taken && u.handed <= u.handed
  {
    assert Placed(s, t);
    if step.Go? {
      assert Placed(s, step.t);
    }
  }

  lemma {:induction false} HeldUntilMove<T>(threads: set<Tid>, run: seq<State<T>>, steps: seq<Step<T>>, t: Tid,
                                            k: nat, m: nat)
    requires IsRun(run, steps) && run[0] == Start(threads) && k <= m < |run|
    requires t in run[k].pcs && HoldsLock(run[k].pcs[t]) && forall j | k <= j < m :: steps[j] != Go(t)
    ensures t in run[m].pcs && run[m].pcs[t] == run[k].pcs[t]
    ensures run[m].queue == run[k].queue && run[m].accepted == run[k].accepted && run[m].taken == run[k].taken
    decreases m - k
  {
    if k < m {
      HeldUntilMove(threads, run, steps, t, k, m - 1);
      RunIsSafe(threads, run, steps, m - 1);
      OthersWait(run[m - 1], steps[m - 1], t);
    }
  }

  /** addTask on a running queue: by the caller's second move after the test the task, and nothing
      else, has been accepted and stands at the end of the queue, and the caller is about to notify
      the worker exactly when the queue was empty. */
  lemma AddIsAccepted<T>(threads: set<Tid>, run: seq<State<T>>, steps: seq<Step<T>>, t: Tid, task: T,
                         k: nat, m: nat, n: nat)
    requires IsRun(run, steps) && run[0] == Start(threads) && k < |steps| && steps[k] == Go(t)
    requires t in run[k].pcs && run[k].pcs[t] == AddTest(task) && run[k].state == RUNNING
    requires MovesNext(steps, t, k + 1, m) && MovesNext(steps, t, m + 1, n)
    ensures run[n + 1].accepted == run[k].accepted + [task]
    ensures run[n + 1].queue == run[k].queue + [task]
    ensures t in run[n + 1].pcs && run[n + 1].pcs[t] == if run[k].queue == [] then AddNotify else Idle
  {
    RunIsSafe(threads, run, steps, k);
    assert Placed(run[k], t);
    HeldUntilMove(threads, run, steps, t, k + 1, m);
    HeldUntilMove(threads, run, steps, t, m + 1, n);
  }

  /** On a queue that is not running the caller's next move ends the call, and nothing is accepted. */
  lemma AddIsRefused<T>(threads: set<Tid>, run: seq<State<T>>, steps: seq<Step<T>>, t: Tid, task: T, k: nat, m: nat)
    requires IsRun(run, steps) && run[0] == Start(threads) && k < |steps| && steps[k] == Go(t)
    requires t in run[k].pcs && run[k].pcs[t] == AddTest(task) && run[k].state != RUNNING
    requires MovesNext(steps, t, k + 1, m)
    ensures run[m + 1].accepted == run[k].accepted && run[m + 1].queue == run[k].queue
    ensures t in run[m + 1].pcs && run[m + 1].pcs[t] == Idle
  {
    RunIsSafe(threads, run, steps, k);
    assert Placed(run[k], t);
    HeldUntilMove(threads, run, steps, t, k + 1, m);
  }

  // The call may still have its task accepted.
  predicate Brings<T>(pc: Pc<T>) {
    pc.AddLock? || pc.AddTest? || pc.AddPush?
  }

  ghost predicate Asked<T>(steps: seq<Step<T>>, k: nat, task: T) {
    exists j, t :: 0 <= j < k && j < |steps| && steps[j] == Add(t, task)
  }

  ghost predicate FromCalls<T>(s: State<T>, steps: seq<Step<T>>, k: nat) {
    && (forall i | 0 <= i < |s.accepted| :: Asked(steps, k, s.accepted[i]))
    && forall t | t in s.pcs && Brings(s.pcs[t]) :: Asked(steps, k, s.pcs[t].task)
  }

  /** Every accepted task was brought by a call of the run. */
  lemma {:induction false} AcceptedWasAdded<T>(threads: set<Tid>, run: seq<State<T>>, steps: seq<Step<T>>, k: nat)
    requires IsRun(run, steps) && run[0] == Start(threads) && k < |run|
    ensures FromCalls(run[k], steps, k)
  {
    if k > 0 {
      AcceptedWasAdded(threads, run, steps, k - 1);
      RunIsSafe(threads, run, steps, k - 1);
      FromCallsStep(run[k - 1], run[k], steps, k - 1);
    }
  }

  // A call that can bring a task did so before, or has just begun.
  lemma BringsBefore<T>(s: State<T>, step: Step<T>, v: Tid)
    requires Orderly(s) && Enabled(s, step) && v in Apply(s, step).pcs && Brings(Apply(s, step).pcs[v])
    ensures var pc := Apply(s, step).pcs[v];
      step == Add(v, pc.task) || (v in s.pcs && Brings(s.pcs[v]) && s.pcs[v].task == pc.task)
  {
    if step.Go? {
      assert Placed(s, step.t);
      LockMoves(s, step.t);
      if v == step.t {
        BringsOwn(s, v);
      } else {
        OthersStay(s, step.t, v);
      }
    }
  }

  lemma BringsOwn<T>(s: State<T>, t: Tid)
    requires t in s.pcs && t in Next(s, t).pcs && Brings(Next(s, t).pcs[t])
    ensures Brings(s.pcs[t]) && s.pcs[t].task == Next(s, t).pcs[t].task
  {
    match s.pcs[t]
    case AddLock(task) =>
    case AddTest(task) =>
    case _ =>
  }

  // Only a call that brings a task has one accepted.
  lemma AcceptedNow<T>(s: State<T>, step: Step<T>)
    requires Enabled(s, step)
    ensures var u := Apply(s, step);
      || u.accepted == s.accepted
      || (step.Go? && Brings(s.pcs[step.t]) && u.accepted == s.accepted + [s.pcs[step.t].task])
  {
  }

  lemma FromCallsStep<T>(s: State<T>, u: State<T>, steps: seq<Step<T>>, k: nat)
    requires Orderly(s) && FromCalls(s, steps, k) && k < |steps| && Enabled(s, steps[k]) && u == Apply(s, steps[k])
    ensures FromCalls(u, steps, k + 1)
  {
    AcceptedNow(s, steps[k]);
    forall i | 0 <= i < |u.accepted| ensures Asked(steps, k + 1, u.accepted[i]) {
      assert u.accepted[i] == if i < |s.accepted| then s.accepted[i] else s.pcs[steps[k].t].task;
      StillAsked(steps, k, u.accepted[i]);
    }
    forall t | t in u.pcs && Brings(u.pcs[t]) ensures Asked(steps, k + 1, u.pcs[t].task) {
      BringsBefore(s, steps[k], t);
      if steps[k] != Add(t, u.pcs[t].task) {
        StillAsked(steps, k, u.pcs[t].task);
      }
    }
  }

  lemma StillAsked<T>(steps: seq<Step<T>>, k: nat, task: T)
    requires Asked(steps, k, task)
    ensures Asked(steps, k + 1, task)
  {
  }

  // Nobody else moves a thread that is in the middle of a call, unless it is parked.
  lemma {:induction false} StaysUntilMove<T>(threads: set<Tid>, run: seq<State<T>>, steps: seq<Step<T>>, t: Tid,
                                             k: nat, m: nat)
    requires IsRun(run, steps) && run[0] == Start(threads) && k <= m < |run|
    requires t in run[k].pcs && !run[k].pcs[t].Idle? && !run[k].pcs[t].WorkerParked?
    requires forall j | k <= j < m :: steps[j] != Go(t)
    ensures t in run[m].pcs && run[m].pcs[t] == run[k].pcs[t]
    decreases m - k
  {
    if k < m {
      StaysUntilMove(threads, run, steps, t, k, m - 1);
      var s, step := run[m - 1], steps[m - 1];
      assert Enabled(s, step);
      if step.Go? {
        OthersStay(s, step.t, t);
      }
    }
  }

  /** A flush that looks at the queue, or the worker that woke or found tasks, takes the first task if
      there is one, and by its next move has run it: exactly that task is handed over. */
  lemma FirstIsHandedOver<T>(threads: set<Tid>, run: seq<State<T>>, steps: seq<Step<T>>, t: Tid, k: nat, m: nat)
    requires IsRun(run, steps) && run[0] == Start(threads) && k < |steps| && steps[k] == Go(t)
    requires t in run[k].pcs && (run[k].pcs[t].FlushLook? || run[k].pcs[t].WorkerTake?) && run[k].queue != []
    requires MovesNext(steps, t, k + 1, m)
    ensures run[k + 1].taken == run[k].taken + [run[k].queue[0]] && run[k + 1].queue == run[k].queue[1..]
    ensures run[k + 1].lock == None
    ensures run[m + 1].handed == run[m].handed + [|run[k].taken|]
  {
    RunIsSafe(threads, run, steps, k);
    assert Placed(run[k], t) && Enabled(run[k], steps[k]);
    StaysUntilMove(threads, run, steps, t, k + 1, m);
  }

  /** A flush goes on exactly while it finds tasks; the one that ends a shutdown then notifies. */
  lemma FlushEndsEmpty<T>(run: seq<State<T>>, steps: seq<Step<T>>, t: Tid, k: nat)
    requires IsRun(run, steps) && k < |steps| && steps[k] == Go(t)
    requires t in run[k].pcs && run[k].pcs[t].FlushLook?
    ensures t in run[k + 1].pcs
    ensures run[k].queue == [] ==> run[k + 1].pcs[t] == if run[k].pcs[t].final then ShutNotify else Idle
    ensures run[k].queue == [] && run[k].pcs[t].final ==> run[k + 1].drained
    ensures run[k].queue != [] ==> run[k + 1].pcs[t].FlushHand?
  {
    assert Enabled(run[k], steps[k]);
  }

  /** The worker ends exactly when it finds the queue terminated. */
  lemma WorkerFinishes<T>(run: seq<State<T>>, steps: seq<Step<T>>, k: nat)
    requires IsRun(run, steps) && k < |steps| && steps[k] == Go(WORKER)
    requires WORKER in run[k].pcs && run[k].pcs[WORKER].WorkerTest?
    ensures WORKER in run[k + 1].pcs && (run[k + 1].pcs[WORKER].WorkerDone? <==> run[k].state == TERMINATED)
  {
    assert Enabled(run[k], steps[k]);
  }

  /** It waits exactly when it finds no task. */
  lemma WorkerRests<T>(run: seq<State<T>>, steps: seq<Step<T>>, k: nat)
    requires IsRun(run, steps) && k < |steps| && steps[k] == Go(WORKER)
    requires WORKER in run[k].pcs && run[k].pcs[WORKER].WorkerLook?
    ensures WORKER in run[k + 1].pcs
    ensures run[k].queue == [] ==> run[k + 1].pcs[WORKER].WorkerParked?
    ensures run[k].queue != [] ==> run[k + 1].pcs[WORKER].WorkerTake?
  {
    assert Enabled(run[k], steps[k]);
  }

  /** A notification wakes the worker, if it waits. */
  lemma NotificationWakes<T>(run: seq<State<T>>, steps: seq<Step<T>>, t: Tid, k: nat)
    requires IsRun(run, steps) && k < |steps| && steps[k] == Go(t) && t in run[k].pcs && WORKER in run[k].pcs
    requires t != WORKER && (run[k].pcs[t].AddNotify? || run[k].pcs[t].ShutNotify?)
    ensures WORKER in run[k + 1].pcs && !run[k + 1].pcs[WORKER].WorkerParked?
    ensures t in run[k + 1].pcs && run[k + 1].pcs[t] == Idle
  {
    assert Enabled(run[k], steps[k]);
  }

  /** From the moment a shutdown sets the state on, nothing is accepted any more. */
  lemma {:induction false} ShutdownEndsIntake<T>(threads: set<Tid>, run: seq<State<T>>, steps: seq<Step<T>>, t: Tid,
                                                 k: nat, n: nat)
    requires IsRun(run, steps) && run[0] == Start(threads) && k < |steps| && steps[k] == Go(t)
    requires t in run[k].pcs && run[k].pcs[t] == ShutSet && k < n < |run|
    ensures run[k + 1].state == TERMINATED
    ensures run[n].ended && run[n].accepted == run[k].accepted
    decreases n
  {
    var s, step := run[n - 1], steps[n - 1];
    assert Enabled(run[k], steps[k]);
    if n > k + 1 {
      ShutdownEndsIntake(threads, run, steps, t, k, n - 1);
      RunIsSafe(threads, run, steps, n - 1);
      assert Enabled(s, step);
      AcceptedNow(s, step);
      if step.Go? {
        assert Informed(s, step.t);
        Ends(s, step.t);
        NothingMore(s, step.t);
      }
    }
  }

  // Once the intake has ended no move accepts a task.
  lemma NothingMore<T>(s: State<T>, t: Tid)
    requires t in s.pcs && s.ended && Informed(s, t)
    ensures Next(s, t).accepted == s.accepted
  {
  }
}
