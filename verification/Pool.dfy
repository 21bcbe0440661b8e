/** The thread pool as a step system: any number of workers in run_task and any number of clients calling
    SubmitTask, WaitForTask and Stop, interleaved at every lock operation. */
module Pool {
  import opened Collections

  datatype Agent = Nobody | W(i: nat) | C(j: nat)

  /** Where a worker is in run_task. */
  datatype Worker =
    | Check             // at check_stop
    | WantQ | InQ       // before and inside the queue_lock section
    | Run(t: int)       // has popped t
    | Ran(t: int)       // Run has returned
    | WantM(t: int)     // t is deleted
    | InM(t: int)       // holds map_lock, before the status is set
    | Signal(t: int)    // before pthread_cond_signal
    | Unlock            // before map_lock is given back
    | Exited

  /** Where a client is. */
  datatype Client =
    | Idle
    | SubWantQ(t: int) | SubInQ(t: int) | SubWantM(t: int) | SubInM(t: int) | SubOut(t: int)
    | WaitWantM(t: int) | WaitInM(t: int) | Asleep(t: int)
    | Joining | Stopped

  // The life of a task, which only moves forward.
  const NEW: nat := 0      // SubmitTask has begun
  const PUSHED: nat := 1   // in the queue, not in the maps
  const QUEUED: nat := 2   // in the queue and in the maps
  const POPPED: nat := 3
  const RAN: nat := 4
  const DELETED: nat := 5
  const DONE: nat := 6     // its status is 1
  const WAITED: nat := 7   // WaitForTask has returned

  datatype State = State(
    queue: seq<int>,              // task_queue
    status: map<int, bool>,       // taskname_to_status; true is 1
    condvars: set<int>,           // the keys of taskname_to_condvar
    stopCalled: bool,
    qlock: Agent, mlock: Agent,   // queue_lock and map_lock
    workers: seq<Worker>, clients: seq<Client>,
    // history
    phase: map<int, int>, submitted: seq<int>, popped: seq<int>, ran: seq<int>, deleted: seq<int>)

  datatype Step =
    | WorkerStep(i: nat)
    | ClientStep(j: nat)
    | Submit(j: nat, t: int)  // a client calls SubmitTask, with a new name
    | Wait(j: nat, t: int)    // a client calls WaitForTask, for a submitted task nobody else waits for
    | Stop(j: nat)            // a client calls Stop, when every task has been waited for
    | Wake(j: nat)            // pthread_cond_wait returns without a signal

  function SetWorker(s: State, i: nat, w: Worker): State
    requires i < |s.workers|
  {
    s.(workers := s.workers[i := w])
  }

  function SetClient(s: State, j: nat, c: Client): State
    requires j < |s.clients|
  {
    s.(clients := s.clients[j := c])
  }

  predicate Waiting(c: Client, t: int) {
    (c.WaitWantM? || c.WaitInM? || c.Asleep?) && c.t == t
  }

  predicate Submitting(c: Client) {
    c.SubWantQ? || c.SubInQ? || c.SubWantM? || c.SubInM? || c.SubOut?
  }

  predicate Submits(c: Client, t: int) {
    Submitting(c) && c.t == t
  }

  // ----- what may happen next -----

  predicate WorkerEnabled(s: State, w: Worker) {
    match w
    case WantQ => s.qlock == Nobody
    case WantM(_) => s.mlock == Nobody
    case Exited => false
    case _ => true
  }

  predicate ClientEnabled(s: State, c: Client) {
    match c
    case SubWantQ(_) => s.qlock == Nobody
    case SubWantM(_) => s.mlock == Nobody
    case WaitWantM(_) => s.mlock == Nobody
    case Idle => false
    case Stopped => false
    case Asleep(_) => false
    case Joining => forall i :: 0 <= i < |s.workers| ==> s.workers[i] == Exited
    case _ => true
  }

  ghost predicate Enabled(s: State, a: Step) {
    match a
    case WorkerStep(i) => i < |s.workers| && WorkerEnabled(s, s.workers[i])
    case ClientStep(j) => j < |s.clients| && ClientEnabled(s, s.clients[j])
    case Submit(j, t) => j < |s.clients| && s.clients[j] == Idle && t !in s.phase && !s.stopCalled
    case Wait(j, t) =>
      && j < |s.clients| && s.clients[j] == Idle && t in s.phase && QUEUED <= s.phase[t] < WAITED
      && forall k :: 0 <= k < |s.clients| ==> !Waiting(s.clients[k], t) && s.clients[k] != SubOut(t)
    case Stop(j) =>
      && j < |s.clients| && s.clients[j] == Idle && !s.stopCalled
      && (forall t :: t in s.phase ==> s.phase[t] == WAITED) && forall k :: 0 <= k < |s.clients| ==>
          !Submitting(s.clients[k])
    case Wake(j) => j < |s.clients| && s.clients[j].Asleep?
  }

  /** pthread_cond_signal: the first client asleep on t, if there is one, goes back for the lock. */
  function Signalled(cs: seq<Client>, t: int): (r: seq<Client>)
    ensures |r| == |cs|
  {
    if cs == [] then []
    else if cs[0] == Asleep(t) then [WaitWantM(t)] + cs[1..]
    else [cs[0]] + Signalled(cs[1..], t)
  }

  function DoWorker(s: State, i: nat): State
    requires i < |s.workers| && WorkerEnabled(s, s.workers[i])
  {
    match s.workers[i]
    case Check => SetWorker(s, i, if s.stopCalled then Exited else WantQ)
    case WantQ => SetWorker(s, i, InQ).(qlock := W(i))
    case InQ =>
      if s.queue == [] then SetWorker(s, i, Check).(qlock := Nobody)
      else
        var t := s.queue[0];
        SetWorker(s, i, Run(t)).(qlock := Nobody, queue := s.queue[1..], popped := s.popped + [t],
            phase := s.phase[t := POPPED])
    case Run(t) => SetWorker(s, i, Ran(t)).(ran := s.ran + [t], phase := s.phase[t := RAN])
    case Ran(t) => SetWorker(s, i, WantM(t)).(deleted := s.deleted + [t], phase := s.phase[t := DELETED])
    case WantM(t) => SetWorker(s, i, InM(t)).(mlock := W(i))
    case InM(t) => SetWorker(s, i, Signal(t)).(status := s.status[t := true], phase := s.phase[t := DONE])
    case Signal(t) => SetWorker(s, i, Unlock).(condvars := s.condvars + {t}, clients := Signalled(s.clients, t))
    case Unlock => SetWorker(s, i, Check).(mlock := Nobody)
  }

  function DoClient(s: State, j: nat): State
    requires j < |s.clients| && ClientEnabled(s, s.clients[j])
  {
    match s.clients[j]
    case SubWantQ(t) => SetClient(s, j, SubInQ(t)).(qlock := C(j))
    case SubInQ(t) => SetClient(s, j, SubWantM(t)).(queue := s.queue + [t], submitted := s.submitted + [t],
        phase := s.phase[t := PUSHED])
    case SubWantM(t) => SetClient(s, j, SubInM(t)).(mlock := C(j))
    case SubInM(t) =>
      SetClient(s, j, SubOut(t)).(mlock := Nobody, status := if t in s.status then s.status else s.status[t := false],
                                  condvars := s.condvars + {t}, phase := s.phase[t := QUEUED])
    case SubOut(t) => SetClient(s, j, Idle).(qlock := Nobody)
    case WaitWantM(t) => SetClient(s, j, WaitInM(t)).(mlock := C(j))
    case WaitInM(t) =>
      if t in s.status && !s.status[t] then SetClient(s, j, Asleep(t)).(mlock := Nobody)
      else SetClient(s, j, Idle).(mlock := Nobody, status := s.status - {t}, condvars := s.condvars - {t},
          phase := s.phase[t := WAITED])
    case Joining => SetClient(s, j, Stopped)
  }

  function Do(s: State, a: Step): State
    requires Enabled(s, a)
  {
    match a
    case WorkerStep(i) => DoWorker(s, i)
    case ClientStep(j) => DoClient(s, j)
    case Submit(j, t) => SetClient(s, j, SubWantQ(t)).(phase := s.phase[t := NEW])
    case Wait(j, t) => SetClient(s, j, WaitWantM(t))
    case Stop(j) => SetClient(s, j, Joining).(stopCalled := true)
    case Wake(j) => SetClient(s, j, WaitWantM(s.clients[j].t))
  }

  // ----- what every step keeps -----

  predicate HasQ(c: Client) {
    c.SubInQ? || c.SubWantM? || c.SubInM? || c.SubOut?
  }

  predicate ClientHasM(c: Client) {
    c.SubInM? || c.WaitInM?
  }

  predicate WorkerHasM(w: Worker) {
    w.InM? || w.Signal? || w.Unlock?
  }

  predicate Known(s: State, a: Agent) {
    match a
    case Nobody => true
    case W(i) => i < |s.workers|
    case C(j) => j < |s.clients|
  }

  /** Who is inside a critical section, holds its lock. */
  ghost predicate QLock(s: State) {
    && (forall i :: 0 <= i < |s.workers| ==> (s.workers[i].InQ? <==> s.qlock == W(i)))
    && (forall j :: 0 <= j < |s.clients| ==> (HasQ(s.clients[j]) <==> s.qlock == C(j)))
    && Known(s, s.qlock)
  }

  ghost predicate MLock(s: State) {
    && (forall i :: 0 <= i < |s.workers| ==> (WorkerHasM(s.workers[i]) <==> s.mlock == W(i)))
    && (forall j :: 0 <= j < |s.clients| ==> (ClientHasM(s.clients[j]) <==> s.mlock == C(j)))
    && Known(s, s.mlock)
  }

  ghost predicate PhaseOf(s: State, t: int, lo: int, hi: int) {
    t in s.phase && lo <= s.phase[t] <= hi
  }

  ghost predicate WorkerFits(s: State, w: Worker) {
    match w
    case Run(t) => PhaseOf(s, t, POPPED, POPPED)
    case Ran(t) => PhaseOf(s, t, RAN, RAN)
    case WantM(t) => PhaseOf(s, t, DELETED, DELETED)
    case InM(t) => PhaseOf(s, t, DELETED, DELETED)
    case Signal(t) => PhaseOf(s, t, DONE, DONE)
    case _ => true
  }

  /** The queue entry that a worker has taken and not yet marked as done. */
  predicate Carries(w: Worker, t: int) {
    (w.Run? || w.Ran? || w.WantM? || w.InM?) && w.t == t
  }

  ghost predicate ClientFits(s: State, c: Client) {
    match c
    case SubWantQ(t) => PhaseOf(s, t, NEW, NEW)
    case SubInQ(t) => PhaseOf(s, t, NEW, NEW)
    case SubWantM(t) => PhaseOf(s, t, PUSHED, PUSHED)
    case SubInM(t) => PhaseOf(s, t, PUSHED, PUSHED)
    case SubOut(t) => PhaseOf(s, t, QUEUED, QUEUED)
    case WaitWantM(t) => PhaseOf(s, t, QUEUED, DONE)
    case WaitInM(t) => PhaseOf(s, t, QUEUED, DONE)
    case Asleep(t) => PhaseOf(s, t, QUEUED, DONE)
        && (s.phase[t] == DONE ==> s.mlock.W? && s.mlock.i < |s.workers| && s.workers[s.mlock.i] == Signal(t))
    case _ => true
  }

  /** The queue is first in, first out; everything happens to a task once. */
  ghost predicate History(s: State) {
    && s.popped + s.queue == s.submitted
    && NoDup(s.submitted) && NoDup(s.ran) && NoDup(s.deleted)
    && (forall t :: t in s.submitted <==> PhaseOf(s, t, PUSHED, WAITED))
    && (forall t :: t in s.popped <==> PhaseOf(s, t, POPPED, WAITED))
    && (forall t :: t in s.ran <==> PhaseOf(s, t, RAN, WAITED))
    && (forall t :: t in s.deleted <==> PhaseOf(s, t, DELETED, WAITED))
  }

  /** The maps hold every task between submission and the return of its wait, with status 1 when they are done. */
  ghost predicate Maps(s: State) {
    && (forall t :: t in s.status <==> PhaseOf(s, t, QUEUED, DONE))
    && (forall t :: t in s.status ==> (s.status[t] <==> s.phase[t] == DONE))
    && (forall t :: t in s.condvars <==> t in s.status)
  }

  ghost predicate WorkersFit(s: State) {
    forall i :: 0 <= i < |s.workers| ==> WorkerFits(s, s.workers[i])
  }

  ghost predicate ClientsFit(s: State) {
    forall j :: 0 <= j < |s.clients| ==> ClientFits(s, s.clients[j])
  }

  ghost predicate OneCarrier(s: State) {
    forall i, k, t ::
          0 <= i < |s.workers| && 0 <= k < |s.workers| && Carries(s.workers[i], t)
          && Carries(s.workers[k], t) ==>
            i == k
  }

  ghost predicate OneWaiter(s: State) {
    forall j, k, t ::
          0 <= j < |s.clients| && 0 <= k < |s.clients| && Waiting(s.clients[j], t)
          && Waiting(s.clients[k], t) ==>
            j == k
  }

  ghost predicate OneSubmitter(s: State) {
    forall j, k, t ::
          0 <= j < |s.clients| && 0 <= k < |s.clients| && Submits(s.clients[j], t)
          && Submits(s.clients[k], t) ==>
            j == k
  }

  ghost predicate Fits(s: State) {
    WorkersFit(s) && ClientsFit(s) && OneCarrier(s) && OneWaiter(s) && OneSubmitter(s)
  }

  /** No task gets lost: one that is popped and not done is in the hands of a worker, one that is pushed and not
      in the maps belongs to a client inside SubmitTask. */
  ghost predicate Kept(s: State) {
    && (forall t :: PhaseOf(s, t, POPPED, DELETED) ==> exists i :: 0 <= i < |s.workers| && Carries(s.workers[i], t))
    && (forall t :: PhaseOf(s, t, PUSHED, PUSHED) ==>
        exists j :: 0 <= j < |s.clients| && (s.clients[j] == SubWantM(t) || s.clients[j] == SubInM(t)))
    && (s.stopCalled ==> forall t :: t in s.phase ==> s.phase[t] == WAITED)
    && (forall j :: 0 <= j < |s.clients| && (s.clients[j].Joining? || s.clients[j].Stopped?) ==> s.stopCalled)
  }

  ghost predicate Inv(s: State) {
    QLock(s) && MLock(s) && Fits(s) && History(s) && Maps(s) && Kept(s)
  }

  function Start(workers: nat, clients: nat): State {
    State([], map[], {}, false, Nobody, Nobody, seq(workers, i => Check), seq(clients, j => Idle), map[], [], [], [],
        [])
  }

  lemma StartOk(workers: nat, clients: nat)
    ensures Inv(Start(workers, clients))
  {
  }
}
