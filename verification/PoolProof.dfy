/** The pool's invariant holds in every interleaving, and what follows from it. */
module PoolProof {
  import opened Collections
  import opened Pool

  // ----- locks -----

  /** A worker's second half: after its task has been deleted. */
  predicate Late(w: Worker) {
    w.WantM? || w.InM? || w.Signal? || w.Unlock?
  }

  /** A lock stays, is taken when free, or is given back by its owner. */
  predicate Handed(before: Agent, after: Agent, a: Agent, was: bool, is_: bool) {
    || (after == before && was == is_)
    || (before == Nobody && after == a && is_)
    || (before == a && after == Nobody && !is_)
  }

  lemma QLockWorker(s: State, s': State, i: nat)
    requires QLock(s) && i < |s.workers| && |s'.workers| == |s.workers| && s'.workers == s.workers[i := s'.workers[i]]
    requires |s'.clients| == |s.clients| && forall j :: 0 <= j < |s.clients| ==>
              HasQ(s'.clients[j]) == HasQ(s.clients[j])
    requires Handed(s.qlock, s'.qlock, W(i), s.workers[i].InQ?, s'.workers[i].InQ?)
    ensures QLock(s')
  {
  }

  lemma MLockWorker(s: State, s': State, i: nat)
    requires MLock(s) && i < |s.workers| && |s'.workers| == |s.workers| && s'.workers == s.workers[i := s'.workers[i]]
    requires |s'.clients| == |s.clients| && forall j :: 0 <= j < |s.clients| ==>
              ClientHasM(s'.clients[j]) == ClientHasM(s.clients[j])
    requires Handed(s.mlock, s'.mlock, W(i), WorkerHasM(s.workers[i]), WorkerHasM(s'.workers[i]))
    ensures MLock(s')
  {
  }

  lemma QLockClient(s: State, s': State, j: nat)
    requires QLock(s) && j < |s.clients| && s'.workers == s.workers && |s'.clients| == |s.clients|
        && s'.clients == s.clients[j := s'.clients[j]]
    requires Handed(s.qlock, s'.qlock, C(j), HasQ(s.clients[j]), HasQ(s'.clients[j]))
    ensures QLock(s')
  {
  }

  lemma MLockClient(s: State, s': State, j: nat)
    requires MLock(s) && j < |s.clients| && s'.workers == s.workers && |s'.clients| == |s.clients|
        && s'.clients == s.clients[j := s'.clients[j]]
    requires Handed(s.mlock, s'.mlock, C(j), ClientHasM(s.clients[j]), ClientHasM(s'.clients[j]))
    ensures MLock(s')
  {
  }

  lemma WorkerQLate(s: State, i: nat, s': State)
    requires i < |s.workers| && WorkerEnabled(s, s.workers[i]) && (s.workers[i].InQ? <==> s.qlock == W(i))
    requires s' == DoWorker(s, i)
    requires Late(s.workers[i])
    ensures |s'.workers| == |s.workers|
    ensures Handed(s.qlock, s'.qlock, W(i), s.workers[i].InQ?, s'.workers[i].InQ?)
  {
  }

  lemma WorkerQEarly(s: State, i: nat, s': State)
    requires i < |s.workers| && WorkerEnabled(s, s.workers[i]) && (s.workers[i].InQ? <==> s.qlock == W(i))
    requires s' == DoWorker(s, i)
    requires !Late(s.workers[i])
    ensures |s'.workers| == |s.workers|
    ensures Handed(s.qlock, s'.qlock, W(i), s.workers[i].InQ?, s'.workers[i].InQ?)
  {
  }

  lemma WorkerQ(s: State, i: nat, s': State)
    requires i < |s.workers| && WorkerEnabled(s, s.workers[i]) && (s.workers[i].InQ? <==> s.qlock == W(i))
    requires s' == DoWorker(s, i)
    ensures |s'.workers| == |s.workers|
    ensures Handed(s.qlock, s'.qlock, W(i), s.workers[i].InQ?, s'.workers[i].InQ?)
  {
    hide DoWorker;
    if Late(s.workers[i]) { WorkerQLate(s, i, s'); } else { WorkerQEarly(s, i, s'); }
  }

  lemma WorkerSlot(s: State, i: nat, s': State)
    requires i < |s.workers| && WorkerEnabled(s, s.workers[i]) && s' == DoWorker(s, i)
    ensures |s'.workers| == |s.workers| && s'.workers == s.workers[i := s'.workers[i]]
  {
  }

  lemma WorkerMLate(s: State, i: nat, s': State)
    requires i < |s.workers| && WorkerEnabled(s, s.workers[i]) && (WorkerHasM(s.workers[i]) <==> s.mlock == W(i))
    requires s' == DoWorker(s, i) && |s'.workers| == |s.workers|
    requires Late(s.workers[i])
    ensures Handed(s.mlock, s'.mlock, W(i), WorkerHasM(s.workers[i]), WorkerHasM(s'.workers[i]))
  {
  }

  lemma WorkerMEarly(s: State, i: nat, s': State)
    requires i < |s.workers| && WorkerEnabled(s, s.workers[i]) && (WorkerHasM(s.workers[i]) <==> s.mlock == W(i))
    requires s' == DoWorker(s, i) && |s'.workers| == |s.workers|
    requires !Late(s.workers[i])
    ensures Handed(s.mlock, s'.mlock, W(i), WorkerHasM(s.workers[i]), WorkerHasM(s'.workers[i]))
  {
  }

  lemma WorkerM(s: State, i: nat, s': State)
    requires i < |s.workers| && WorkerEnabled(s, s.workers[i]) && (WorkerHasM(s.workers[i]) <==> s.mlock == W(i))
    requires s' == DoWorker(s, i)
    ensures |s'.workers| == |s.workers| && s'.workers == s.workers[i := s'.workers[i]]
    ensures Handed(s.mlock, s'.mlock, W(i), WorkerHasM(s.workers[i]), WorkerHasM(s'.workers[i]))
  {
    hide DoWorker;
    WorkerSlot(s, i, s');
    if Late(s.workers[i]) { WorkerMLate(s, i, s'); } else { WorkerMEarly(s, i, s'); }
  }

  /** A signal moves at most one client, from sleep to the lock. */
  lemma {:induction false} SignalledKeeps(cs: seq<Client>, t: int)
    ensures forall k :: 0 <= k < |cs| ==>
              Signalled(cs, t)[k] == cs[k] || (cs[k] == Asleep(t) && Signalled(cs, t)[k] == WaitWantM(t))
    ensures (exists k :: 0 <= k < |cs| && cs[k] == Asleep(t)) ==>
              exists k :: 0 <= k < |cs| && cs[k] == Asleep(t) && Signalled(cs, t)[k] == WaitWantM(t)
  {
    if cs != [] && cs[0] != Asleep(t) {
      SignalledKeeps(cs[1..], t);
      var r, q := Signalled(cs, t), Signalled(cs[1..], t);
      forall k | 0 <= k < |cs|
        ensures r[k] == cs[k] || (cs[k] == Asleep(t) && r[k] == WaitWantM(t))
      {
        if k > 0 { assert r[k] == q[k - 1] && cs[k] == cs[1..][k - 1]; }
      }
      if k :| 0 <= k < |cs| && cs[k] == Asleep(t) {
        assert cs[1..][k - 1] == Asleep(t);
        var l :| 0 <= l < |cs[1..]| && cs[1..][l] == Asleep(t) && q[l] == WaitWantM(t);
        assert cs[l + 1] == Asleep(t) && r[l + 1] == WaitWantM(t);
      }
    }
  }

  /** A worker changes no client except by waking it. */
  lemma SleepersOnly(s: State, i: nat, s': State)
    requires i < |s.workers| && WorkerEnabled(s, s.workers[i])
    requires s' == DoWorker(s, i)
    ensures |s'.clients| == |s.clients|
    ensures forall j :: 0 <= j < |s.clients| ==>
              s'.clients[j] == s.clients[j] ||
              (s.clients[j].Asleep? && s'.clients[j] == WaitWantM(s.clients[j].t))
  {
    if s.workers[i].Signal? {
      SignalledKeeps(s.clients, s.workers[i].t);
    } else {
      assert s'.clients == s.clients;
    }
  }

  lemma WorkerLocks(s: State, i: nat)
    requires QLock(s) && MLock(s) && i < |s.workers| && WorkerEnabled(s, s.workers[i])
    ensures QLock(DoWorker(s, i)) && MLock(DoWorker(s, i))
  {
    var s' := DoWorker(s, i);
    assert s.workers[i].InQ? <==> s.qlock == W(i);
    assert WorkerHasM(s.workers[i]) <==> s.mlock == W(i);
    hide QLock, MLock;
    WorkerQ(s, i, DoWorker(s, i));
    WorkerM(s, i, DoWorker(s, i));
    SleepersOnly(s, i, DoWorker(s, i));
    hide DoWorker;
    QLockWorker(s, s', i);
    MLockWorker(s, s', i);
  }

  lemma ClientLocks(s: State, j: nat)
    requires QLock(s) && MLock(s) && j < |s.clients| && ClientEnabled(s, s.clients[j])
    ensures QLock(DoClient(s, j)) && MLock(DoClient(s, j))
  {
    var s' := DoClient(s, j);
    assert HasQ(s.clients[j]) <==> s.qlock == C(j);
    assert ClientHasM(s.clients[j]) <==> s.mlock == C(j);
    hide QLock, MLock;
    QLockClient(s, s', j);
    MLockClient(s, s', j);
  }

  // ----- history -----

  /** A task moves on without entering any of the lists. */
  lemma MoveHistory(s: State, s': State, t: int, p: int)
    requires History(s) && s'.queue == s.queue && s'.popped == s.popped && s'.submitted == s.submitted
        && s'.ran == s.ran && s'.deleted == s.deleted
    requires s'.phase == s.phase[t := p]
    requires (t !in s.phase && p == NEW) || PhaseOf(s, t, p, p) || (PhaseOf(s, t, PUSHED, PUSHED) && p == QUEUED)
        || (PhaseOf(s, t, DELETED, DONE) && DONE <= p <= WAITED)
    ensures History(s')
  {
  }

  lemma SameHistory(s: State, s': State)
    requires History(s) && s'.queue == s.queue && s'.popped == s.popped && s'.submitted == s.submitted
        && s'.ran == s.ran && s'.deleted == s.deleted
    requires s'.phase == s.phase
    ensures History(s')
  {
  }

  lemma Appended(q: seq<int>, t: int)
    requires NoDup(q) && t !in q
    ensures NoDup(q + [t])
  {
  }

  lemma PushHistory(s: State, s': State, t: int)
    requires History(s) && PhaseOf(s, t, NEW, NEW) && s'.queue == s.queue + [t] && s'.submitted == s.submitted + [t]
    requires s'.popped == s.popped && s'.ran == s.ran && s'.deleted == s.deleted && s'.phase == s.phase[t := PUSHED]
    ensures History(s')
  {
    Appended(s.submitted, t);
    assert s'.popped + s'.queue == s.submitted + [t];
  }

  lemma RanHistory(s: State, s': State, t: int)
    requires History(s) && PhaseOf(s, t, POPPED, POPPED) && s'.ran == s.ran + [t]
    requires s'.queue == s.queue && s'.popped == s.popped && s'.submitted == s.submitted && s'.deleted == s.deleted
        && s'.phase == s.phase[t := RAN]
    ensures History(s')
  {
    Appended(s.ran, t);
  }

  lemma DeletedHistory(s: State, s': State, t: int)
    requires History(s) && PhaseOf(s, t, RAN, RAN) && s'.deleted == s.deleted + [t]
    requires s'.queue == s.queue && s'.popped == s.popped && s'.submitted == s.submitted && s'.ran == s.ran
        && s'.phase == s.phase[t := DELETED]
    ensures History(s')
  {
    Appended(s.deleted, t);
  }

  lemma PopHistory(s: State, s': State)
    requires History(s) && s.queue != []
    requires s'.queue == s.queue[1..] && s'.popped == s.popped + [s.queue[0]] && s'.submitted == s.submitted
        && s'.ran == s.ran && s'.deleted == s.deleted
    requires s'.phase == s.phase[s.queue[0] := POPPED]
    ensures History(s')
    ensures PhaseOf(s, s.queue[0], PUSHED, QUEUED)
  {
    var t := s.queue[0];
    assert s.submitted[|s.popped|] == t;
    assert t in s.submitted;
    forall k | 0 <= k < |s.popped|
      ensures s.popped[k] != t
    {
      assert s.submitted[k] == s.popped[k];
    }
    assert t !in s.popped;
    assert s'.popped + s'.queue == s.submitted;
  }

  lemma WorkerHistory(s: State, i: nat, s': State)
    requires History(s) && i < |s.workers| && WorkerEnabled(s, s.workers[i]) && WorkerFits(s, s.workers[i])
    requires s' == DoWorker(s, i)
    ensures History(s')
  {
    hide History;
    match s.workers[i]
    case InQ => if s.queue != [] { PopHistory(s, s'); } else { SameHistory(s, s'); }
    case Run(t) => RanHistory(s, s', t);
    case Ran(t) => DeletedHistory(s, s', t);
    case InM(t) => MoveHistory(s, s', t, DONE);
    case _ => SameHistory(s, s');
  }

  /** The entry that WaitForTask looks up with at() is there, and it leaves only when that task is done. */
  lemma WaitEnds(s: State, t: int)
    requires Maps(s) && PhaseOf(s, t, QUEUED, DONE)
    ensures t in s.status && t in s.condvars && (s.status[t] <==> s.phase[t] == DONE)
  {
  }

  lemma ClientHistory(s: State, j: nat, s': State)
    requires History(s) && Maps(s) && j < |s.clients| && ClientEnabled(s, s.clients[j]) && ClientFits(s, s.clients[j])
    requires s' == DoClient(s, j)
    ensures History(s')
  {
    if s.clients[j].WaitInM? { WaitEnds(s, s.clients[j].t); }
    hide History, Maps;
    match s.clients[j]
    case SubInQ(t) => PushHistory(s, s', t);
    case SubInM(t) => MoveHistory(s, s', t, QUEUED);
    case WaitInM(t) => if s.status[t] { MoveHistory(s, s', t, WAITED); } else { SameHistory(s, s'); }
    case _ => SameHistory(s, s');
  }

  // ----- maps -----

  lemma WorkerMapsEarly(s: State, i: nat, s': State)
    requires Maps(s) && i < |s.workers| && WorkerEnabled(s, s.workers[i]) && WorkerFits(s, s.workers[i])
    requires s.workers[i].InQ? && s.queue != [] ==> PhaseOf(s, s.queue[0], QUEUED, QUEUED)
    requires s' == DoWorker(s, i)
    requires !Late(s.workers[i])
    ensures Maps(s')
  {
  }

  lemma WorkerMapsLate(s: State, i: nat, s': State)
    requires Maps(s) && i < |s.workers| && WorkerEnabled(s, s.workers[i]) && WorkerFits(s, s.workers[i])
    requires s.workers[i].InQ? && s.queue != [] ==> PhaseOf(s, s.queue[0], QUEUED, QUEUED)
    requires s' == DoWorker(s, i)
    requires Late(s.workers[i])
    ensures Maps(s')
  {
  }

  lemma WorkerMaps(s: State, i: nat, s': State)
    requires Maps(s) && i < |s.workers| && WorkerEnabled(s, s.workers[i]) && WorkerFits(s, s.workers[i])
    requires s.workers[i].InQ? && s.queue != [] ==> PhaseOf(s, s.queue[0], QUEUED, QUEUED)
    requires s' == DoWorker(s, i)
    ensures Maps(s')
  {
    hide DoWorker;
    if Late(s.workers[i]) { WorkerMapsLate(s, i, s'); } else { WorkerMapsEarly(s, i, s'); }
  }

  /** Whoever pops a task holds queue_lock, so that no client is between the push and the map entry. */
  lemma PopQueued(s: State, i: nat)
    requires Inv(s) && i < |s.workers| && s.workers[i].InQ? && s.queue != []
    ensures PhaseOf(s, s.queue[0], QUEUED, QUEUED)
  {
    var t := s.queue[0];
    PopHistory(s, s.(queue := s.queue[1..], popped := s.popped + [t], phase := s.phase[t := POPPED]));
    forall j | 0 <= j < |s.clients|
      ensures s.clients[j] != SubWantM(t) && s.clients[j] != SubInM(t)
    {
      assert s.qlock == W(i);
      assert !HasQ(s.clients[j]);
    }
    assert !PhaseOf(s, t, PUSHED, PUSHED);
  }

  lemma ClientMaps(s: State, j: nat, s': State)
    requires Maps(s) && j < |s.clients| && ClientEnabled(s, s.clients[j]) && ClientFits(s, s.clients[j])
    requires s' == DoClient(s, j)
    ensures Maps(s')
  {
  }

  lemma WorkerKeptEarly(s: State, i: nat, s': State)
    requires Kept(s) && i < |s.workers| && WorkerEnabled(s, s.workers[i]) && WorkerFits(s, s.workers[i])
    requires s.workers[i].InQ? && s.queue != [] ==> PhaseOf(s, s.queue[0], QUEUED, QUEUED)
    requires s' == DoWorker(s, i)
    requires !Late(s.workers[i])
    ensures Kept(s')
  {
    var w := s.workers[i];
    forall t | PhaseOf(s', t, POPPED, DELETED)
      ensures exists k :: 0 <= k < |s'.workers| && Carries(s'.workers[k], t)
    {
      if !Carries(s'.workers[i], t) {
        assert PhaseOf(s, t, POPPED, DELETED);
        var k :| 0 <= k < |s.workers| && Carries(s.workers[k], t);
        assert s'.workers[k] == s.workers[k];
      }
    }
    forall t | PhaseOf(s', t, PUSHED, PUSHED)
      ensures exists j :: 0 <= j < |s'.clients| && (s'.clients[j] == SubWantM(t) || s'.clients[j] == SubInM(t))
    {
      assert PhaseOf(s, t, PUSHED, PUSHED);
      var j :| 0 <= j < |s.clients| && (s.clients[j] == SubWantM(t) || s.clients[j] == SubInM(t));
      assert s'.clients[j] == s.clients[j];
    }
    SleepersOnly(s, i, s');
  }

  lemma WorkerKeptLate(s: State, i: nat, s': State)
    requires Kept(s) && i < |s.workers| && WorkerEnabled(s, s.workers[i]) && WorkerFits(s, s.workers[i])
    requires s.workers[i].InQ? && s.queue != [] ==> PhaseOf(s, s.queue[0], QUEUED, QUEUED)
    requires s' == DoWorker(s, i)
    requires Late(s.workers[i])
    ensures Kept(s')
  {
    var w := s.workers[i];
    if w.Signal? { SignalledKeeps(s.clients, w.t); }
    forall t | PhaseOf(s', t, POPPED, DELETED)
      ensures exists k :: 0 <= k < |s'.workers| && Carries(s'.workers[k], t)
    {
      if !Carries(s'.workers[i], t) {
        assert PhaseOf(s, t, POPPED, DELETED);
        var k :| 0 <= k < |s.workers| && Carries(s.workers[k], t);
        assert s'.workers[k] == s.workers[k];
      }
    }
    forall t | PhaseOf(s', t, PUSHED, PUSHED)
      ensures exists j :: 0 <= j < |s'.clients| && (s'.clients[j] == SubWantM(t) || s'.clients[j] == SubInM(t))
    {
      assert PhaseOf(s, t, PUSHED, PUSHED);
      var j :| 0 <= j < |s.clients| && (s.clients[j] == SubWantM(t) || s.clients[j] == SubInM(t));
      assert s'.clients[j] == s.clients[j];
    }
    SleepersOnly(s, i, s');
  }

  lemma WorkerKept(s: State, i: nat, s': State)
    requires Kept(s) && i < |s.workers| && WorkerEnabled(s, s.workers[i]) && WorkerFits(s, s.workers[i])
    requires s.workers[i].InQ? && s.queue != [] ==> PhaseOf(s, s.queue[0], QUEUED, QUEUED)
    requires s' == DoWorker(s, i)
    ensures Kept(s')
  {
    hide DoWorker;
    if Late(s.workers[i]) { WorkerKeptLate(s, i, s'); } else { WorkerKeptEarly(s, i, s'); }
  }

  lemma ClientKept(s: State, j: nat, s': State)
    requires Kept(s) && Maps(s) && j < |s.clients| && ClientEnabled(s, s.clients[j]) && ClientFits(s, s.clients[j])
    requires s' == DoClient(s, j)
    ensures Kept(s')
  {
    var c := s.clients[j];
    if c.WaitInM? { WaitEnds(s, c.t); }
    hide Maps;
    forall t | PhaseOf(s', t, POPPED, DELETED)
      ensures exists k :: 0 <= k < |s'.workers| && Carries(s'.workers[k], t)
    {
      assert PhaseOf(s, t, POPPED, DELETED);
    }
    forall t | PhaseOf(s', t, PUSHED, PUSHED)
      ensures exists k :: 0 <= k < |s'.clients| && (s'.clients[k] == SubWantM(t) || s'.clients[k] == SubInM(t))
    {
      if c == SubInQ(t) || c == SubWantM(t) {
        assert s'.clients[j] == SubWantM(t) || s'.clients[j] == SubInM(t);
      } else {
        assert PhaseOf(s, t, PUSHED, PUSHED);
        var k :| 0 <= k < |s.clients| && (s.clients[k] == SubWantM(t) || s.clients[k] == SubInM(t));
        assert k != j ==> s'.clients[k] == s.clients[k];
      }
    }
  }

  // ----- who is where -----

  /** What a step of this worker moves on. */
  function Moved(s: State, w: Worker): set<int> {
    if w.InQ? && s.queue != [] then {s.queue[0]} else if w.Run? || w.Ran? || w.InM? then {w.t} else {}
  }

  predicate Mentions(w: Worker, t: int) {
    (w.Run? || w.Ran? || w.WantM? || w.InM? || w.Signal?) && w.t == t
  }

  predicate ClientMentions(c: Client, t: int) {
    Submits(c, t) || Waiting(c, t)
  }

  /** Outside of `moved` every task is where it was. */
  ghost predicate SamePhases(s: State, s': State, moved: set<int>) {
    forall t :: t !in moved ==> (t in s'.phase <==> t in s.phase) && (t in s.phase ==> s'.phase[t] == s.phase[t])
  }

  lemma WorkerShape(s: State, i: nat, s': State)
    requires i < |s.workers| && WorkerEnabled(s, s.workers[i]) && WorkerFits(s, s.workers[i])
    requires s' == DoWorker(s, i)
    ensures |s'.workers| == |s.workers| && s'.workers == s.workers[i := s'.workers[i]] && |s'.clients| == |s.clients|
      && (!s.workers[i].Signal? ==> s'.clients == s.clients)
  {
  }

  lemma WorkerPhasesLate(s: State, i: nat, s': State)
    requires i < |s.workers| && WorkerEnabled(s, s.workers[i]) && WorkerFits(s, s.workers[i])
    requires s.workers[i].InQ? && s.queue != [] ==> PhaseOf(s, s.queue[0], QUEUED, QUEUED)
    requires s' == DoWorker(s, i)
    requires Late(s.workers[i])
    ensures |s'.workers| == |s.workers| && SamePhases(s, s', Moved(s, s.workers[i])) && WorkerFits(s', s'.workers[i])
      && (forall t :: t in Moved(s, s.workers[i]) ==>
          PhaseOf(s, t, QUEUED, DELETED) && t in s'.phase && s'.phase[t] == s.phase[t] + 1)
      && (forall t :: Carries(s'.workers[i], t) ==> Carries(s.workers[i], t) || t in Moved(s, s.workers[i]))
  {
  }

  lemma WorkerPhasesEarly(s: State, i: nat, s': State)
    requires i < |s.workers| && WorkerEnabled(s, s.workers[i]) && WorkerFits(s, s.workers[i])
    requires s.workers[i].InQ? && s.queue != [] ==> PhaseOf(s, s.queue[0], QUEUED, QUEUED)
    requires s' == DoWorker(s, i)
    requires !Late(s.workers[i])
    ensures |s'.workers| == |s.workers| && SamePhases(s, s', Moved(s, s.workers[i])) && WorkerFits(s', s'.workers[i])
      && (forall t :: t in Moved(s, s.workers[i]) ==>
          PhaseOf(s, t, QUEUED, DELETED) && t in s'.phase && s'.phase[t] == s.phase[t] + 1)
      && (forall t :: Carries(s'.workers[i], t) ==> Carries(s.workers[i], t) || t in Moved(s, s.workers[i]))
  {
  }

  lemma WorkerPhases(s: State, i: nat, s': State)
    requires i < |s.workers| && WorkerEnabled(s, s.workers[i]) && WorkerFits(s, s.workers[i])
    requires s.workers[i].InQ? && s.queue != [] ==> PhaseOf(s, s.queue[0], QUEUED, QUEUED)
    requires s' == DoWorker(s, i)
    ensures |s'.workers| == |s.workers| && SamePhases(s, s', Moved(s, s.workers[i])) && WorkerFits(s', s'.workers[i])
      && (forall t :: t in Moved(s, s.workers[i]) ==>
          PhaseOf(s, t, QUEUED, DELETED) && t in s'.phase && s'.phase[t] == s.phase[t] + 1)
      && (forall t :: Carries(s'.workers[i], t) ==> Carries(s.workers[i], t) || t in Moved(s, s.workers[i]))
  {
    hide DoWorker;
    if Late(s.workers[i]) { WorkerPhasesLate(s, i, s'); } else { WorkerPhasesEarly(s, i, s'); }
  }

  lemma WorkerEffect(s: State, i: nat)
    requires i < |s.workers| && WorkerEnabled(s, s.workers[i]) && WorkerFits(s, s.workers[i])
    requires s.workers[i].InQ? && s.queue != [] ==> PhaseOf(s, s.queue[0], QUEUED, QUEUED)
    ensures var s' := DoWorker(s, i);
      && |s'.workers| == |s.workers| && s'.workers == s.workers[i := s'.workers[i]] && |s'.clients| == |s.clients|
      && SamePhases(s, s', Moved(s, s.workers[i])) && WorkerFits(s', s'.workers[i])
      && (forall t :: t in Moved(s, s.workers[i]) ==>
          PhaseOf(s, t, QUEUED, DELETED) && t in s'.phase && s'.phase[t] == s.phase[t] + 1)
      && (forall t :: Carries(s'.workers[i], t) ==> Carries(s.workers[i], t) || t in Moved(s, s.workers[i]))
      && (!s.workers[i].Signal? ==> s'.clients == s.clients)
  {
    WorkerShape(s, i, DoWorker(s, i));
    WorkerPhases(s, i, DoWorker(s, i));
    hide DoWorker, SamePhases;
  }

  lemma OtherWorker(s: State, s': State, w: Worker, moved: set<int>)
    requires WorkerFits(s, w) && SamePhases(s, s', moved) && forall t :: t in moved ==> !Mentions(w, t)
    ensures WorkerFits(s', w)
  {
  }

  /** Nobody else has a task that one worker moves on. */
  lemma NotMine(s: State, i: nat, k: nat, t: int)
    requires WorkersFit(s) && OneCarrier(s) && i < |s.workers| && k < |s.workers| && k != i
        && t in Moved(s, s.workers[i])
    requires s.workers[i].InQ? && s.queue != [] ==> PhaseOf(s, s.queue[0], QUEUED, QUEUED)
    ensures !Mentions(s.workers[k], t)
  {
    assert WorkerFits(s, s.workers[k]) && WorkerFits(s, s.workers[i]);
    if Carries(s.workers[i], t) { assert !Carries(s.workers[k], t); }
  }

  lemma WorkerWorkers(s: State, i: nat)
    requires WorkersFit(s) && OneCarrier(s) && i < |s.workers| && WorkerEnabled(s, s.workers[i])
    requires s.workers[i].InQ? && s.queue != [] ==> PhaseOf(s, s.queue[0], QUEUED, QUEUED)
    ensures WorkersFit(DoWorker(s, i)) && OneCarrier(DoWorker(s, i))
  {
    var s', moved := DoWorker(s, i), Moved(s, s.workers[i]);
    assert WorkerFits(s, s.workers[i]);
    WorkerEffect(s, i);
    hide DoWorker, Moved, SamePhases;
    forall k | 0 <= k < |s.workers| && k != i
      ensures WorkerFits(s', s'.workers[k]) && forall t :: t in moved ==> !Mentions(s'.workers[k], t)
    {
      assert s'.workers[k] == s.workers[k] && WorkerFits(s, s.workers[k]);
      forall t | t in moved
        ensures !Mentions(s.workers[k], t)
      {
        NotMine(s, i, k, t);
      }
      hide WorkerFits;
      OtherWorker(s, s', s.workers[k], moved);
    }
    hide WorkerFits;
    forall k, t | 0 <= k < |s.workers| && k != i && Carries(s'.workers[i], t)
      ensures !Carries(s'.workers[k], t)
    {
      if Carries(s.workers[i], t) { assert !Carries(s.workers[k], t); } else { assert !Mentions(s'.workers[k], t); }
    }
  }

  /** A task moves forward in the hands of a worker: what the clients rely on still holds. */
  lemma OtherClient(s: State, s': State, c: Client, moved: set<int>)
    requires ClientFits(s, c) && SamePhases(s, s', moved)
    requires forall t :: t in moved ==>
              PhaseOf(s, t, QUEUED, DELETED) && t in s'.phase && s'.phase[t] == s.phase[t] + 1 && c != SubOut(t)
    requires c.Asleep? && PhaseOf(s', c.t, DONE, DONE) ==>
              s'.mlock.W? && s'.mlock.i < |s'.workers| && s'.workers[s'.mlock.i] == Signal(c.t)
    ensures ClientFits(s', c)
  {
    if ClientMentions(c, if c.Idle? || c.Joining? || c.Stopped? then 0 else c.t) {
      var t := c.t;
      assert t in moved || (t in s.phase ==> s'.phase[t] == s.phase[t]);
    }
  }

  /** pthread_cond_signal wakes the one client that sleeps on this task. */
  lemma SignalWakes(s: State, t: int)
    requires OneWaiter(s)
    ensures forall j :: 0 <= j < |s.clients| ==> Signalled(s.clients, t)[j] != Asleep(t)
  {
    SignalledKeeps(s.clients, t);
    forall j | 0 <= j < |s.clients|
      ensures Signalled(s.clients, t)[j] != Asleep(t)
    {
      if s.clients[j] == Asleep(t) {
        var k :| 0 <= k < |s.clients| && s.clients[k] == Asleep(t) && Signalled(s.clients, t)[k] == WaitWantM(t);
        assert Waiting(s.clients[j], t) && Waiting(s.clients[k], t);
      }
    }
  }

  /** A sleeper whose task is done is about to be signalled. */
  lemma SleeperSafe(s: State, i: nat, j: nat)
    requires ClientsFit(s) && WorkersFit(s) && MLock(s) && OneWaiter(s) && i < |s.workers| && j < |s.clients|
        && WorkerEnabled(s, s.workers[i])
    requires s.workers[i].InQ? && s.queue != [] ==> PhaseOf(s, s.queue[0], QUEUED, QUEUED)
    ensures var s' := DoWorker(s, i);
      j < |s'.clients| && (s'.clients[j].Asleep? && PhaseOf(s', s'.clients[j].t, DONE, DONE) ==>
        s'.mlock.W? && s'.mlock.i < |s'.workers| && s'.workers[s'.mlock.i] == Signal(s'.clients[j].t))
  {
    var s', w := DoWorker(s, i), s.workers[i];
    assert ClientFits(s, s.clients[j]) && WorkerFits(s, w);
    assert WorkerHasM(w) <==> s.mlock == W(i);
    if w.Signal? {
      SignalledKeeps(s.clients, w.t);
      SignalWakes(s, w.t);
    }
  }

  lemma WorkerClient(s: State, i: nat, j: nat)
    requires ClientsFit(s) && WorkersFit(s) && QLock(s) && MLock(s) && OneWaiter(s)
    requires i < |s.workers| && WorkerEnabled(s, s.workers[i]) && j < |s.clients|
    requires s.workers[i].InQ? && s.queue != [] ==> PhaseOf(s, s.queue[0], QUEUED, QUEUED)
    ensures j < |DoWorker(s, i).clients| && ClientFits(DoWorker(s, i), DoWorker(s, i).clients[j])
  {
    var s', w, c := DoWorker(s, i), s.workers[i], s.clients[j];
    assert WorkerFits(s, w) && ClientFits(s, c);
    assert w.InQ? ==> !HasQ(c);
    SleeperSafe(s, i, j);
    WorkerEffect(s, i);
    if w.Signal? {
      SignalledKeeps(s.clients, w.t);
    } else {
      forall t | t in Moved(s, w)
        ensures c != SubOut(t)
      {
        assert w.InQ? || PhaseOf(s, t, POPPED, DELETED);
      }
      hide DoWorker, WorkerFits, ClientFits, Moved, SamePhases;
      OtherClient(s, s', c, Moved(s, w));
    }
  }

  lemma SameClaims(s: State, s': State)
    requires OneWaiter(s) && OneSubmitter(s) && |s'.clients| == |s.clients|
    requires forall k :: 0 <= k < |s.clients| ==>
              s'.clients[k] == s.clients[k] || (s.clients[k].Asleep? && s'.clients[k] == WaitWantM(s.clients[k].t))
    ensures OneWaiter(s') && OneSubmitter(s')
  {
    forall k, t | 0 <= k < |s.clients| && Waiting(s'.clients[k], t)
      ensures Waiting(s.clients[k], t)
    {
    }
    forall k, t | 0 <= k < |s.clients| && Submits(s'.clients[k], t)
      ensures Submits(s.clients[k], t)
    {
    }
  }

  lemma WorkerClients(s: State, i: nat)
    requires ClientsFit(s) && WorkersFit(s) && QLock(s) && MLock(s) && OneWaiter(s) && OneSubmitter(s)
    requires i < |s.workers| && WorkerEnabled(s, s.workers[i])
    requires s.workers[i].InQ? && s.queue != [] ==> PhaseOf(s, s.queue[0], QUEUED, QUEUED)
    ensures ClientsFit(DoWorker(s, i)) && OneWaiter(DoWorker(s, i)) && OneSubmitter(DoWorker(s, i))
  {
    var s', w := DoWorker(s, i), s.workers[i];
    assert WorkerFits(s, w);
    WorkerEffect(s, i);
    if w.Signal? { SignalledKeeps(s.clients, w.t); }
    forall j | 0 <= j < |s.clients|
      ensures ClientFits(s', s'.clients[j])
    {
      WorkerClient(s, i, j);
    }
    SameClaims(s, s');
  }

  // ----- steps of clients -----

  predicate PhaseIs(s: State, t: int, p: int) {
    t in s.phase && s.phase[t] == p
  }

  function ClientMoved(s: State, c: Client): set<int> {
    if c.SubInQ? || c.SubInM? || (c.WaitInM? && PhaseIs(s, c.t, DONE)) then {c.t} else {}
  }

  lemma ClientShape(s: State, j: nat, s': State)
    requires j < |s.clients| && ClientEnabled(s, s.clients[j])
    requires s' == DoClient(s, j)
    ensures s'.workers == s.workers && |s'.clients| == |s.clients| && s'.clients == s.clients[j := s'.clients[j]]
    ensures s'.mlock == s.mlock || (s.mlock == Nobody && s'.mlock == C(j))
              || (s'.mlock == Nobody && ClientHasM(s.clients[j]))
  {
  }

  lemma ClientKeepsTask(s: State, j: nat, s': State)
    requires j < |s.clients| && ClientEnabled(s, s.clients[j])
    requires s' == DoClient(s, j) && |s'.clients| == |s.clients|
    ensures forall t :: Waiting(s'.clients[j], t) ==> Waiting(s.clients[j], t)
    ensures forall t :: Submits(s'.clients[j], t) ==> Submits(s.clients[j], t)
  {
  }

  lemma ClientPhases(s: State, j: nat, s': State)
    requires j < |s.clients| && ClientEnabled(s, s.clients[j]) && ClientFits(s, s.clients[j]) && Maps(s)
    requires s' == DoClient(s, j)
    ensures   |s'.clients| == |s.clients| && SamePhases(s, s', ClientMoved(s, s.clients[j]))
        && ClientFits(s', s'.clients[j])
  {
    if s.clients[j].WaitInM? { WaitEnds(s, s.clients[j].t); }
    hide Maps;
  }

  lemma ClientEffect(s: State, j: nat)
    requires j < |s.clients| && ClientEnabled(s, s.clients[j]) && ClientFits(s, s.clients[j]) && Maps(s)
    ensures var s' := DoClient(s, j);
      && s'.workers == s.workers && |s'.clients| == |s.clients| && s'.clients == s.clients[j := s'.clients[j]]
      && SamePhases(s, s', ClientMoved(s, s.clients[j])) && ClientFits(s', s'.clients[j])
      && (forall t :: Waiting(s'.clients[j], t) ==> Waiting(s.clients[j], t))
      && (forall t :: Submits(s'.clients[j], t) ==> Submits(s.clients[j], t))
      && (s'.mlock == s.mlock || (s.mlock == Nobody && s'.mlock == C(j))
          || (s'.mlock == Nobody && ClientHasM(s.clients[j])))
  {
    ClientShape(s, j, DoClient(s, j));
    ClientKeepsTask(s, j, DoClient(s, j));
    ClientPhases(s, j, DoClient(s, j));
    hide DoClient, SamePhases, Maps, ClientFits;
  }

  lemma NotMineEither(s: State, j: nat, k: nat, t: int)
    requires ClientsFit(s) && OneWaiter(s) && OneSubmitter(s) && j < |s.clients| && k < |s.clients| && k != j
        && t in ClientMoved(s, s.clients[j])
    ensures !ClientMentions(s.clients[k], t)
  {
    assert ClientFits(s, s.clients[k]) && ClientFits(s, s.clients[j]);
    if Submits(s.clients[j], t) {
      assert !Submits(s.clients[k], t);
    } else {
      assert Waiting(s.clients[j], t) && !Waiting(s.clients[k], t);
    }
  }

  lemma NoWorkerHas(s: State, j: nat, i: nat, t: int)
    requires ClientsFit(s) && WorkersFit(s) && MLock(s) && j < |s.clients| && i < |s.workers|
        && t in ClientMoved(s, s.clients[j])
    ensures !Mentions(s.workers[i], t)
  {
    assert ClientFits(s, s.clients[j]) && WorkerFits(s, s.workers[i]);
    assert ClientHasM(s.clients[j]) ==> !WorkerHasM(s.workers[i]);
  }

  /** A client that mentions none of the tasks that move. */
  lemma BystanderClient(s: State, s': State, j: nat, c: Client, moved: set<int>)
    requires ClientFits(s, c) && SamePhases(s, s', moved) && (forall t :: t in moved ==> !ClientMentions(c, t))
        && s'.workers == s.workers
    requires s'.mlock == s.mlock || !s.mlock.W?
    ensures ClientFits(s', c)
  {
    if !(c.Idle? || c.Joining? || c.Stopped?) {
      assert ClientMentions(c, c.t);
      assert c.t !in moved;
    }
  }

  lemma ClientFitsAll(s: State, j: nat)
    requires ClientsFit(s) && WorkersFit(s) && MLock(s) && OneWaiter(s) && OneSubmitter(s) && Maps(s)
    requires j < |s.clients| && ClientEnabled(s, s.clients[j])
    ensures WorkersFit(DoClient(s, j)) && ClientsFit(DoClient(s, j))
  {
    var s', moved := DoClient(s, j), ClientMoved(s, s.clients[j]);
    assert ClientFits(s, s.clients[j]);
    ClientEffect(s, j);
    assert s'.mlock == s.mlock || !s.mlock.W? by {
      assert ClientHasM(s.clients[j]) <==> s.mlock == C(j);
    }
    hide DoClient, ClientMoved, SamePhases, MLock, Maps;
    forall i | 0 <= i < |s.workers|
      ensures WorkerFits(s', s'.workers[i])
    {
      forall t | t in moved
        ensures !Mentions(s.workers[i], t)
      {
        NoWorkerHas(s, j, i, t);
      }
      assert WorkerFits(s, s.workers[i]);
      OtherWorker(s, s', s.workers[i], moved);
    }
    forall k | 0 <= k < |s.clients| && k != j
      ensures ClientFits(s', s'.clients[k])
    {
      forall t | t in moved
        ensures !ClientMentions(s.clients[k], t)
      {
        NotMineEither(s, j, k, t);
      }
      assert ClientFits(s, s.clients[k]) && s'.clients[k] == s.clients[k];
      hide ClientFits;
      BystanderClient(s, s', j, s.clients[k], moved);
    }
  }

  lemma ClientClaims(s: State, j: nat)
    requires OneWaiter(s) && OneSubmitter(s) && OneCarrier(s) && Maps(s)
    requires j < |s.clients| && ClientEnabled(s, s.clients[j]) && ClientFits(s, s.clients[j])
    ensures OneWaiter(DoClient(s, j)) && OneSubmitter(DoClient(s, j)) && OneCarrier(DoClient(s, j))
  {
    var s' := DoClient(s, j);
    ClientEffect(s, j);
    hide DoClient, Maps, ClientFits;
    forall k, t | 0 <= k < |s.clients| && Waiting(s'.clients[k], t)
      ensures Waiting(s.clients[k], t)
    {
      assert k != j ==> s'.clients[k] == s.clients[k];
    }
    forall k, t | 0 <= k < |s.clients| && Submits(s'.clients[k], t)
      ensures Submits(s.clients[k], t)
    {
      assert k != j ==> s'.clients[k] == s.clients[k];
    }
    hide Waiting, Submits;
  }

  // ----- calls and wake-ups -----

  lemma CallLocks(s: State, s': State, j: nat)
    requires QLock(s) && MLock(s) && j < |s.clients| && s'.workers == s.workers && |s'.clients| == |s.clients|
        && s'.clients == s.clients[j := s'.clients[j]]
    requires s'.qlock == s.qlock && s'.mlock == s.mlock
    requires !HasQ(s.clients[j]) && !HasQ(s'.clients[j]) && !ClientHasM(s.clients[j]) && !ClientHasM(s'.clients[j])
    ensures QLock(s') && MLock(s')
  {
    QLockClient(s, s', j);
    MLockClient(s, s', j);
  }

  lemma CallHistory(s: State, a: Step)
    requires History(s) && Enabled(s, a) && (a.Submit? || a.Wait? || a.Stop? || a.Wake?)
    ensures History(Do(s, a))
  {
    if a.Submit? { MoveHistory(s, Do(s, a), a.t, NEW); } else { SameHistory(s, Do(s, a)); }
  }

  lemma CallMaps(s: State, a: Step)
    requires Maps(s) && Enabled(s, a) && (a.Submit? || a.Wait? || a.Stop? || a.Wake?)
    ensures Maps(Do(s, a))
  {
  }

  lemma CallKept(s: State, a: Step)
    requires Kept(s) && Enabled(s, a) && (a.Submit? || a.Wait? || a.Stop? || a.Wake?)
    ensures Kept(Do(s, a))
  {
    var s', j := Do(s, a), a.j;
    forall t | PhaseOf(s', t, POPPED, DELETED)
      ensures exists k :: 0 <= k < |s'.workers| && Carries(s'.workers[k], t)
    {
      assert PhaseOf(s, t, POPPED, DELETED);
    }
    forall t | PhaseOf(s', t, PUSHED, PUSHED)
      ensures exists k :: 0 <= k < |s'.clients| && (s'.clients[k] == SubWantM(t) || s'.clients[k] == SubInM(t))
    {
      assert PhaseOf(s, t, PUSHED, PUSHED);
      var k :| 0 <= k < |s.clients| && (s.clients[k] == SubWantM(t) || s.clients[k] == SubInM(t));
      assert k != j && s'.clients[k] == s.clients[k];
    }
  }

  lemma CallClaims(s: State, s': State, a: Step)
    requires Fits(s) && Enabled(s, a) && (a.Submit? || a.Wait? || a.Stop? || a.Wake?) && s' == Do(s, a)
    requires a.Submit? ==> forall k :: 0 <= k < |s.clients| && k != a.j ==> !ClientMentions(s.clients[k], a.t)
    ensures OneWaiter(s') && OneSubmitter(s')
  {
    var j := a.j;
    forall k, t | 0 <= k < |s.clients| && k != j && Waiting(s'.clients[j], t)
      ensures !Waiting(s'.clients[k], t)
    {
      assert s'.clients[k] == s.clients[k];
      if a.Wake? { assert Waiting(s.clients[j], t); }
    }
    forall k, t | 0 <= k < |s.clients| && k != j && Submits(s'.clients[j], t)
      ensures !Submits(s'.clients[k], t)
    {
      assert s'.clients[k] == s.clients[k] && !ClientMentions(s.clients[k], t);
    }
  }

  lemma CallFits(s: State, a: Step)
    requires Fits(s) && Enabled(s, a) && (a.Submit? || a.Wait? || a.Stop? || a.Wake?)
    ensures Fits(Do(s, a))
  {
    var s', j := Do(s, a), a.j;
    var moved := if a.Submit? then {a.t} else {};
    assert SamePhases(s, s', moved);
    forall i | 0 <= i < |s.workers|
      ensures WorkerFits(s', s'.workers[i])
    {
      assert WorkerFits(s, s.workers[i]);
      OtherWorker(s, s', s.workers[i], moved);
    }
    assert ClientFits(s, s.clients[j]);
    forall k | 0 <= k < |s.clients| && k != j
      ensures ClientFits(s', s'.clients[k]) && (a.Submit? ==> !ClientMentions(s.clients[k], a.t))
    {
      assert ClientFits(s, s.clients[k]);
      BystanderClient(s, s', j, s.clients[k], moved);
    }
    CallClaims(s, s', a);
  }

  /** The steps that only let a client begin something, or go back for the lock. */
  lemma CallKeeps(s: State, a: Step)
    requires Inv(s) && Enabled(s, a) && (a.Submit? || a.Wait? || a.Stop? || a.Wake?)
    ensures Inv(Do(s, a))
  {
    var s', j := Do(s, a), a.j;
    assert ClientFits(s, s.clients[j]);
    assert !HasQ(s.clients[j]) && !ClientHasM(s.clients[j]);
    CallLocks(s, s', j);
    CallHistory(s, a);
    CallMaps(s, a);
    CallKept(s, a);
    CallFits(s, a);
  }

  // ----- every interleaving -----

  /** Every step of every thread keeps the invariant. */
  lemma StepKeeps(s: State, a: Step)
    requires Inv(s) && Enabled(s, a)
    ensures Inv(Do(s, a))
  {
    match a
    case WorkerStep(i) =>
      assert WorkerFits(s, s.workers[i]);
      if s.workers[i].InQ? && s.queue != [] { PopQueued(s, i); }
      hide WorkerFits, ClientFits, History, Maps, Kept, WorkersFit, ClientsFit, OneCarrier, OneWaiter, OneSubmitter,
          QLock, MLock, DoWorker, PhaseOf;
      WorkerLocks(s, i);
      WorkerHistory(s, i, DoWorker(s, i));
      WorkerMaps(s, i, DoWorker(s, i));
      WorkerKept(s, i, DoWorker(s, i));
      WorkerWorkers(s, i);
      WorkerClients(s, i);
    case ClientStep(j) =>
      assert ClientFits(s, s.clients[j]);
      hide WorkerFits, ClientFits, History, Maps, Kept, WorkersFit, ClientsFit, OneCarrier, OneWaiter, OneSubmitter,
          QLock, MLock, DoClient, PhaseOf;
      ClientLocks(s, j);
      ClientHistory(s, j, DoClient(s, j));
      ClientMaps(s, j, DoClient(s, j));
      ClientKept(s, j, DoClient(s, j));
      ClientFitsAll(s, j);
      ClientClaims(s, j);
    case _ => CallKeeps(s, a);
  }

  ghost predicate Runs(s: State, steps: seq<Step>)
    decreases |steps|
  {
    steps == [] || (Enabled(s, steps[0]) && Runs(Do(s, steps[0]), steps[1..]))
  }

  ghost function After(s: State, steps: seq<Step>): State
    requires Runs(s, steps)
    decreases |steps|
  {
    if steps == [] then s else After(Do(s, steps[0]), steps[1..])
  }

  lemma {:induction false} RunKeeps(s: State, steps: seq<Step>)
    requires Inv(s) && Runs(s, steps)
    ensures Inv(After(s, steps))
    decreases |steps|
  {
    if steps != [] {
      StepKeeps(s, steps[0]);
      hide Inv, Do, Enabled;
      RunKeeps(Do(s, steps[0]), steps[1..]);
    }
  }

  // ----- what the invariant means -----

  /** Tasks leave the queue in the order of submission, and each is run once and deleted once, after its run. */
  lemma OnceInOrder(workers: nat, clients: nat, steps: seq<Step>)
    requires Runs(Start(workers, clients), steps)
    ensures var s := After(Start(workers, clients), steps);
      s.popped <= s.submitted && NoDup(s.submitted) && NoDup(s.ran) && NoDup(s.deleted)
      && (forall t :: t in s.deleted ==> t in s.ran) && (forall t :: t in s.ran ==> t in s.popped)
  {
    StartOk(workers, clients);
    hide Start, Do, Enabled;
    RunKeeps(Start(workers, clients), steps);
  }

  /** When WaitForTask returns, its task's Run has finished and that task has been deleted; the entry that it
      looks up is always there. */
  lemma WaitReturnsAfterRun(s: State, j: nat)
    requires Inv(s) && j < |s.clients| && s.clients[j].WaitInM?
    ensures s.clients[j].t in s.status && s.clients[j].t in s.condvars
    ensures DoClient(s, j).clients[j] == Idle ==> s.clients[j].t in s.ran && s.clients[j].t in s.deleted
  {
    assert ClientFits(s, s.clients[j]);
    WaitEnds(s, s.clients[j].t);
  }

  /** A popped task has its map entries until its wait returns. */
  lemma PoppedHasEntry(s: State, i: nat, t: int)
    requires Inv(s) && i < |s.workers| && Mentions(s.workers[i], t)
    ensures t in s.popped && t in s.status && t in s.condvars
  {
    assert WorkerFits(s, s.workers[i]);
  }

  /** No wakeup is lost: whoever sleeps on a task waits for one that is still in the queue, or in the hands of a
      worker, or whose worker is about to signal. */
  lemma NoLostWakeup(s: State, j: nat)
    requires Inv(s) && j < |s.clients| && s.clients[j].Asleep?
    ensures var t := s.clients[j].t;
      t in s.queue || exists i :: 0 <= i < |s.workers| && (Carries(s.workers[i], t) || s.workers[i] == Signal(t))
  {
    var t := s.clients[j].t;
    assert ClientFits(s, s.clients[j]);
    if PhaseOf(s, t, POPPED, DELETED) {
    } else if PhaseOf(s, t, QUEUED, QUEUED) {
      assert t in s.submitted && t !in s.popped;
      assert t in s.popped + s.queue;
    } else {
      assert s.workers[s.mlock.i] == Signal(t);
    }
  }

  /** No deadlock: the owner of map_lock can move; the owner of queue_lock can move unless it waits for map_lock.
      queue_lock is never asked for by a thread that has map_lock. */
  lemma NoDeadlock(s: State)
    requires Inv(s)
    ensures s.mlock != Nobody ==> exists a ::
              Enabled(s, a)
              && (a == WorkerStep(if s.mlock.W? then s.mlock.i else 0)
              || a == ClientStep(if s.mlock.C? then s.mlock.j else 0))
    ensures s.mlock == Nobody && s.qlock != Nobody ==>
              exists a :: Enabled(s, a)
                  && (a == WorkerStep(if s.qlock.W? then s.qlock.i else 0)
                      || a == ClientStep(if s.qlock.C? then s.qlock.j else 0))
    ensures forall i :: 0 <= i < |s.workers| && s.workers[i].WantQ? ==> s.mlock != W(i)
    ensures forall j :: 0 <= j < |s.clients| && s.clients[j].SubWantQ? ==> s.mlock != C(j)
  {
    match s.mlock
    case W(i) => assert Enabled(s, WorkerStep(i));
    case C(j) => assert Enabled(s, ClientStep(j));
    case Nobody =>
      match s.qlock
      case W(i) => assert Enabled(s, WorkerStep(i));
      case C(j) => assert Enabled(s, ClientStep(j));
      case Nobody =>
  }

  /** When Stop returns, every worker has exited and every task that was ever submitted has been run and waited
      for: none is left in the queue. */
  lemma StopIsComplete(s: State, j: nat)
    requires Inv(s) && j < |s.clients| && s.clients[j] == Joining && ClientEnabled(s, s.clients[j])
    ensures s.queue == [] && (forall t :: t in s.submitted ==> t in s.ran && t in s.deleted)
    ensures forall i :: 0 <= i < |s.workers| ==> s.workers[i] == Exited
  {
    if s.queue != [] {
      var t := s.queue[0];
      PopHistory(s, s.(queue := s.queue[1..], popped := s.popped + [t], phase := s.phase[t := POPPED]));
      assert false;
    }
  }
}
