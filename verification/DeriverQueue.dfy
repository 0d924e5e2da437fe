/**
 The deriver queue under interleaving: producers append, workers take batches, flushes pop one item
 at a time, each under the lock; pipelines run outside it. A ticket's serial number only tells equal
 items apart; the code never looks at it.
 */
module DeriverQueue {
  import opened Options
  import opened Text

  datatype Ticket = Ticket(serial: nat, memoryId: string, content: string)
  type ActorId = nat

  const MAX_BATCH := 5

  datatype Actor =
    | Worker(running: Option<Ticket>, waiting: seq<Ticket>)
    | Flush(max: int, processed: nat, running: Option<Ticket>)
    | Exited(processed: nat)

  /** enqueued, started and finished are histories, in the order of the events. */
  datatype State = State(
    enqueued: seq<Ticket>, queue: seq<Ticket>, actors: map<ActorId, Actor>,
    started: seq<Ticket>, finished: seq<Ticket>)

  datatype Label =
    | Append(memoryId: string, content: string)
    | StartWorker(a: ActorId)
    | StartFlush(a: ActorId, max: int)
    | TakeBatch(a: ActorId)
    | Pop(a: ActorId)
    | Begin(a: ActorId)
    | Finish(a: ActorId, raised: bool)

  function Running(r: Option<Ticket>): seq<Ticket> {
    if r.Some? then [r.value] else []
  }

  /** Taken by the actor and not finished. */
  function Holding(x: Actor): seq<Ticket> {
    match x
    case Worker(running, waiting) => Running(running) + waiting
    case Flush(_, _, running) => Running(running)
    case Exited(_) => []
  }

  function RunningOf(x: Actor): Option<Ticket> {
    if x.Exited? then None else x.running
  }

  function Smaller(n: nat, m: nat): nat {
    if n < m then n else m
  }

  // ----- steps -----

  predicate Enabled(s: State, l: Label) {
    match l
    case Append(_, _) => true
    case StartWorker(a) => a !in s.actors
    case StartFlush(a, _) => a !in s.actors
    case TakeBatch(a) => a in s.actors && s.actors[a].Worker? && Holding(s.actors[a]) == []
    case Pop(a) => a in s.actors && s.actors[a].Flush? && s.actors[a].running.None?
    case Begin(a) => a in s.actors && s.actors[a].Worker? && s.actors[a].running.None? && s.actors[a].waiting != []
    case Finish(a, _) => a in s.actors && RunningOf(s.actors[a]).Some?
  }

  /** The tickets a step removes from the front of the queue. */
  function TakenBy(s: State, l: Label): nat
    requires Enabled(s, l)
    ensures TakenBy(s, l) <= |s.queue|
  {
    match l
    case TakeBatch(_) => Smaller(MAX_BATCH, |s.queue|)
    case Pop(a) => if s.actors[a].processed < s.actors[a].max && s.queue != [] then 1 else 0
    case _ => 0
  }

  function ActorAfter(s: State, l: Label): Actor
    requires Enabled(s, l) && !l.Append?
  {
    match l
    case StartWorker(_) => Worker(None, [])
    case StartFlush(_, max) => Flush(max, 0, None)
    case TakeBatch(a) => if s.queue == [] then Exited(0) else Worker(None, s.queue[..TakenBy(s, l)])
    case Pop(a) =>
      var f := s.actors[a];
      if TakenBy(s, l) == 0 then Exited(f.processed) else Flush(f.max, f.processed, Some(s.queue[0]))
    case Begin(a) => var w := s.actors[a]; Worker(Some(w.waiting[0]), w.waiting[1..])
    case Finish(a, raised) =>
      var x := s.actors[a];
      if x.Worker? then Worker(None, x.waiting)
      else Flush(x.max, x.processed + if raised then 0 else 1, None)
  }

  /** A worker starts an item with Begin; a flush starts it as soon as it has popped it. */
  function StartedBy(s: State, l: Label): seq<Ticket>
    requires Enabled(s, l)
  {
    match l
    case Begin(a) => [s.actors[a].waiting[0]]
    case Pop(_) => s.queue[..TakenBy(s, l)]
    case _ => []
  }

  function FinishedBy(s: State, l: Label): seq<Ticket>
    requires Enabled(s, l)
  {
    if l.Finish? then [RunningOf(s.actors[l.a]).value] else []
  }

  function AppendedBy(s: State, l: Label): seq<Ticket> {
    if l.Append? then [Ticket(|s.enqueued|, l.memoryId, l.content)] else []
  }

  function Effect(s: State, l: Label): State
    requires Enabled(s, l)
  {
    State(
      s.enqueued + AppendedBy(s, l),
      s.queue[TakenBy(s, l)..] + AppendedBy(s, l),
      if l.Append? then s.actors else s.actors[l.a := ActorAfter(s, l)],
      s.started + StartedBy(s, l),
      s.finished + FinishedBy(s, l))
  }

  ghost predicate Init(s: State) {
    s == State([], [], map[], [], [])
  }

  ghost predicate StepAt(labels: seq<Label>, states: seq<State>, i: nat)
    requires i < |labels| < |states|
  {
    Enabled(states[i], labels[i]) && states[i + 1] == Effect(states[i], labels[i])
  }

  ghost predicate Run(labels: seq<Label>, states: seq<State>) {
    |states| == |labels| + 1 && Init(states[0]) && forall i: nat :: i < |labels| ==> StepAt(labels, states, i)
  }

  // ----- first in, first out -----

  /** What has left the queue, in the order it left. */
  function TakenFrom(enqueued: seq<Ticket>, queue: seq<Ticket>): seq<Ticket> {
    if |queue| <= |enqueued| then enqueued[..|enqueued| - |queue|] else []
  }

  function Taken(s: State): seq<Ticket> {
    TakenFrom(s.enqueued, s.queue)
  }

  ghost predicate Numbered(enqueued: seq<Ticket>) {
    forall k :: 0 <= k < |enqueued| ==> enqueued[k].serial == k
  }

  /** What has been taken, followed by what is queued, is what was enqueued. */
  ghost predicate Fifo(s: State) {
    Numbered(s.enqueued) && |s.queue| <= |s.enqueued| && s.enqueued == Taken(s) + s.queue
  }

  lemma TakeFront(enqueued: seq<Ticket>, queue: seq<Ticket>, added: seq<Ticket>, k: nat)
    requires |queue| <= |enqueued| && enqueued == TakenFrom(enqueued, queue) + queue && k <= |queue|
    ensures var enqueued', queue' := enqueued + added, queue[k..] + added;
      && TakenFrom(enqueued', queue') == TakenFrom(enqueued, queue) + queue[..k]
      && enqueued' == TakenFrom(enqueued', queue') + queue'
  {
    assert queue == queue[..k] + queue[k..];
    assert enqueued + added == (TakenFrom(enqueued, queue) + queue[..k]) + (queue[k..] + added);
  }

  /** Every step takes from the front of the queue only. */
  lemma FifoStep(s: State, l: Label)
    requires Fifo(s) && Enabled(s, l)
    ensures Fifo(Effect(s, l))
    ensures Taken(Effect(s, l)) == Taken(s) + s.queue[..TakenBy(s, l)]
  {
    TakeFront(s.enqueued, s.queue, AppendedBy(s, l), TakenBy(s, l));
  }

  lemma QueuedIsNotTaken(s: State, t: Ticket)
    requires Fifo(s) && t in s.queue
    ensures t !in Taken(s)
  {
    var i :| 0 <= i < |s.queue| && s.queue[i] == t;
    assert s.enqueued[|Taken(s)| + i] == t;
    forall j | 0 <= j < |Taken(s)| ensures Taken(s)[j] != t {
      assert Taken(s)[j] == s.enqueued[j];
    }
  }

  lemma NumberedUnrepeated(xs: seq<Ticket>)
    requires Numbered(xs)
    ensures Unrepeated(xs)
  {
  }

  // ----- one place at a time -----

  function Hands(s: State, a: ActorId): seq<Ticket> {
    if a in s.actors then Holding(s.actors[a]) else []
  }

  ghost predicate HeldBy(s: State, a: ActorId, t: Ticket) {
    t in Hands(s, a)
  }

  ghost predicate Held(s: State, t: Ticket) {
    exists a :: HeldBy(s, a, t)
  }

  ghost predicate HandsApart(s: State) {
    forall a, b, t :: HeldBy(s, a, t) && HeldBy(s, b, t) ==> a == b
  }

  /** Every ticket taken is in exactly one pair of hands, or finished. */
  ghost predicate InOnePlace(s: State) {
    && HandsApart(s)
    && (forall a :: Unrepeated(Hands(s, a)))
    && Unrepeated(s.finished)
    && (forall a, t :: HeldBy(s, a, t) ==> t in Taken(s) && t !in s.finished)
    && (forall t :: t in s.finished ==> t in Taken(s))
    && (forall t :: t in Taken(s) ==> t in s.finished || Held(s, t))
  }

  ghost predicate MovesActor(l: Label, b: ActorId) {
    !l.Append? && l.a == b
  }

  /** A step drops what it finished from the front of the actor's hands and adds what it took. */
  lemma HandsStep(s: State, l: Label, b: ActorId)
    requires Enabled(s, l)
    ensures !MovesActor(l, b) ==> Hands(Effect(s, l), b) == Hands(s, b)
    ensures MovesActor(l, b) ==> FinishedBy(s, l) <= Hands(s, b)
    ensures MovesActor(l, b) ==>
      Hands(Effect(s, l), b) == Hands(s, b)[|FinishedBy(s, l)|..] + s.queue[..TakenBy(s, l)]
  {
    if MovesActor(l, b) {
      assert Hands(Effect(s, l), b) == Holding(ActorAfter(s, l));
      if l.Finish? {
        FinishDrops(s, l);
      } else if l.Begin? {
        BeginKeeps(s, l);
      } else {
        TakeFills(s, l);
      }
    }
  }

  lemma FinishDrops(s: State, l: Label)
    requires Enabled(s, l) && l.Finish?
    ensures FinishedBy(s, l) <= Hands(s, l.a) && |FinishedBy(s, l)| == 1
    ensures Holding(ActorAfter(s, l)) == Hands(s, l.a)[1..] + s.queue[..TakenBy(s, l)]
  {
    var held := Hands(s, l.a);
    assert held == [held[0]] + held[1..];
  }

  lemma BeginKeeps(s: State, l: Label)
    requires Enabled(s, l) && l.Begin?
    ensures FinishedBy(s, l) == [] && Holding(ActorAfter(s, l)) == Hands(s, l.a)[0..] + s.queue[..TakenBy(s, l)]
  {
    var w := s.actors[l.a].waiting;
    assert [w[0]] + w[1..] == w;
  }

  lemma TakeFills(s: State, l: Label)
    requires Enabled(s, l) && !l.Append? && !l.Finish? && !l.Begin?
    ensures FinishedBy(s, l) == [] && Hands(s, l.a) == []
    ensures Holding(ActorAfter(s, l)) == s.queue[..TakenBy(s, l)]
  {
  }

  ghost predicate TakenNow(s: State, l: Label, t: Ticket)
    requires Enabled(s, l)
  {
    t in s.queue[..TakenBy(s, l)]
  }

  lemma DropFront(hands: seq<Ticket>, gone: seq<Ticket>, t: Ticket)
    requires Unrepeated(hands) && gone <= hands
    ensures t in hands[|gone|..] <==> t in hands && t !in gone
  {
    assert hands == gone + hands[|gone|..];
  }

  lemma HeldStep(s: State, l: Label, b: ActorId, t: Ticket)
    requires InOnePlace(s) && Enabled(s, l)
    ensures HeldBy(Effect(s, l), b, t) <==>
      (HeldBy(s, b, t) && t !in FinishedBy(s, l)) || (MovesActor(l, b) && TakenNow(s, l, t))
    ensures t in FinishedBy(s, l) ==> l.Finish? && HeldBy(s, l.a, t)
  {
    HandsStep(s, l, b);
    FinishedIsHeld(s, l, t);
    if MovesActor(l, b) {
      DropFront(Hands(s, b), FinishedBy(s, l), t);
    } else if l.Finish? {
      OneHolder(s, l.a, b, t);
    }
  }

  lemma OneHolder(s: State, a: ActorId, b: ActorId, t: Ticket)
    requires HandsApart(s) && a != b
    ensures !(HeldBy(s, a, t) && HeldBy(s, b, t))
  {
  }

  lemma FinishedIsHeld(s: State, l: Label, t: Ticket)
    requires Enabled(s, l)
    ensures t in FinishedBy(s, l) ==> l.Finish? && HeldBy(s, l.a, t)
  {
    if l.Finish? {
      HandsStep(s, l, l.a);
    }
  }

  lemma TakenNowIsNew(s: State, l: Label, t: Ticket)
    requires Fifo(s) && Enabled(s, l) && TakenNow(s, l, t)
    ensures t in s.queue && t !in Taken(s)
  {
    QueuedIsNotTaken(s, t);
  }

  lemma HandsApartStep(s: State, l: Label)
    requires Fifo(s) && InOnePlace(s) && Enabled(s, l)
    ensures HandsApart(Effect(s, l))
  {
    forall a, b, t | HeldBy(Effect(s, l), a, t) && HeldBy(Effect(s, l), b, t) ensures a == b {
      HeldStep(s, l, a, t);
      HeldStep(s, l, b, t);
      if TakenNow(s, l, t) {
        TakenNowIsNew(s, l, t);
      }
    }
  }

  lemma HandsUnrepeatedStep(s: State, l: Label, b: ActorId)
    requires Fifo(s) && InOnePlace(s) && Enabled(s, l)
    ensures Unrepeated(Hands(Effect(s, l), b))
  {
    HandsStep(s, l, b);
    if MovesActor(l, b) {
      QueueUnrepeated(s);
      forall t | t in s.queue ensures t !in Hands(s, b) {
        QueuedIsNotTaken(s, t);
        assert !HeldBy(s, b, t);
      }
      JoinParts(Hands(s, b), |FinishedBy(s, l)|, s.queue, TakenBy(s, l));
    }
  }

  lemma JoinParts(hands: seq<Ticket>, f: nat, queue: seq<Ticket>, k: nat)
    requires Unrepeated(hands) && Unrepeated(queue) && f <= |hands| && k <= |queue|
    requires forall t :: t in queue ==> t !in hands
    ensures Unrepeated(hands[f..] + queue[..k])
  {
    assert hands == hands[..f] + hands[f..] && queue == queue[..k] + queue[k..];
    forall t | t in queue[..k] ensures t !in hands[f..] {
      assert t in queue;
    }
    JoinUnrepeated(hands[f..], queue[..k]);
  }

  lemma QueueUnrepeated(s: State)
    requires Fifo(s)
    ensures Unrepeated(s.queue)
  {
    forall i, j | 0 <= i < j < |s.queue| ensures s.queue[i] != s.queue[j] {
      assert s.enqueued[|Taken(s)| + i] == s.queue[i] && s.enqueued[|Taken(s)| + j] == s.queue[j];
    }
  }

  lemma JoinUnrepeated(xs: seq<Ticket>, ys: seq<Ticket>)
    requires Unrepeated(xs) && Unrepeated(ys) && forall t :: t in ys ==> t !in xs
    ensures Unrepeated(xs + ys)
  {
    forall i, j | 0 <= i < j < |xs + ys| ensures (xs + ys)[i] != (xs + ys)[j] {
      if i < |xs| <= j {
        assert ys[j - |xs|] in ys && xs[i] in xs;
      }
    }
  }

  lemma InOnePlaceStep(s: State, l: Label)
    requires Fifo(s) && InOnePlace(s) && Enabled(s, l)
    ensures InOnePlace(Effect(s, l))
  {
    var s' := Effect(s, l);
    FifoStep(s, l);
    HandsApartStep(s, l);
    forall a ensures Unrepeated(Hands(s', a)) {
      HandsUnrepeatedStep(s, l, a);
    }
    forall a, t | HeldBy(s', a, t) ensures t in Taken(s') && t !in s'.finished {
      PlaceOfHeld(s, l, a, t);
    }
    forall t | t in s'.finished ensures t in Taken(s') {
      PlaceOfFinished(s, l, t);
    }
    forall t | t in Taken(s') ensures t in s'.finished || Held(s', t) {
      PlaceOfTaken(s, l, t);
    }
    FinishedUnrepeatedStep(s, l);
  }

  lemma PlaceOfHeld(s: State, l: Label, a: ActorId, t: Ticket)
    requires Fifo(s) && InOnePlace(s) && Enabled(s, l) && HeldBy(Effect(s, l), a, t)
    ensures t in Taken(Effect(s, l)) && t !in Effect(s, l).finished
  {
    FifoStep(s, l);
    HeldStep(s, l, a, t);
    if TakenNow(s, l, t) {
      TakenNowIsNew(s, l, t);
    }
  }

  lemma PlaceOfFinished(s: State, l: Label, t: Ticket)
    requires Fifo(s) && InOnePlace(s) && Enabled(s, l) && t in Effect(s, l).finished
    ensures t in Taken(Effect(s, l))
  {
    FifoStep(s, l);
    HeldStep(s, l, 0, t);
  }

  lemma PlaceOfTaken(s: State, l: Label, t: Ticket)
    requires Fifo(s) && InOnePlace(s) && Enabled(s, l) && t in Taken(Effect(s, l))
    ensures t in Effect(s, l).finished || Held(Effect(s, l), t)
  {
    FifoStep(s, l);
    if TakenNow(s, l, t) {
      HeldStep(s, l, l.a, t);
    } else if t !in s.finished && t !in FinishedBy(s, l) {
      var a :| HeldBy(s, a, t);
      HeldStep(s, l, a, t);
    }
  }

  lemma FinishedUnrepeatedStep(s: State, l: Label)
    requires InOnePlace(s) && Enabled(s, l)
    ensures Unrepeated(Effect(s, l).finished)
  {
    var done := FinishedBy(s, l);
    if done != [] {
      HeldStep(s, l, l.a, done[0]);
      assert HeldBy(s, l.a, done[0]);
    }
    JoinUnrepeated(s.finished, done);
  }

  // ----- started at most once -----

  ghost predicate IsRunning(s: State, a: ActorId, t: Ticket) {
    a in s.actors && RunningOf(s.actors[a]) == Some(t)
  }

  ghost predicate SomeoneRuns(s: State, t: Ticket) {
    exists a :: IsRunning(s, a, t)
  }

  /** Started are exactly the finished and the running, each once. */
  ghost predicate StartedOnce(s: State) {
    Unrepeated(s.started) && forall t :: t in s.started <==> t in s.finished || SomeoneRuns(s, t)
  }

  lemma RunningIsHeld(s: State, a: ActorId, t: Ticket)
    requires IsRunning(s, a, t)
    ensures HeldBy(s, a, t)
  {
    assert Hands(s, a)[0] == t;
  }

  lemma RunningStep(s: State, l: Label, b: ActorId, t: Ticket)
    requires InOnePlace(s) && Enabled(s, l)
    ensures IsRunning(Effect(s, l), b, t) <==>
      (IsRunning(s, b, t) && t !in FinishedBy(s, l)) || (MovesActor(l, b) && t in StartedBy(s, l))
    ensures t in FinishedBy(s, l) ==> IsRunning(s, l.a, t)
  {
    if l.Finish? && b != l.a && IsRunning(s, b, t) && t in FinishedBy(s, l) {
      RunningIsHeld(s, b, t);
      RunningIsHeld(s, l.a, t);
    }
  }

  lemma StartsOnlyNew(s: State, l: Label, t: Ticket)
    requires Inv(s) && Enabled(s, l) && t in StartedBy(s, l)
    ensures t !in s.started
  {
    if l.Pop? {
      TakenNowIsNew(s, l, t);
      forall a ensures !IsRunning(s, a, t) {
        if IsRunning(s, a, t) {
          RunningIsHeld(s, a, t);
        }
      }
    } else {
      assert Hands(s, l.a)[0] == t;
      assert HeldBy(s, l.a, t);
      forall a ensures !IsRunning(s, a, t) {
        if IsRunning(s, a, t) {
          RunningIsHeld(s, a, t);
        }
      }
    }
  }

  lemma StartedOnceStep(s: State, l: Label)
    requires Inv(s) && Enabled(s, l)
    ensures StartedOnce(Effect(s, l))
  {
    var s', now := Effect(s, l), StartedBy(s, l);
    forall t | t in now ensures t !in s.started {
      StartsOnlyNew(s, l, t);
    }
    JoinUnrepeated(s.started, now);
    forall t ensures t in s'.started <==> t in s'.finished || SomeoneRuns(s', t) {
      StartedExactly(s, l, t);
    }
  }

  lemma StartedExactly(s: State, l: Label, t: Ticket)
    requires Inv(s) && Enabled(s, l)
    ensures t in Effect(s, l).started <==> t in Effect(s, l).finished || SomeoneRuns(Effect(s, l), t)
  {
    var s' := Effect(s, l);
    if SomeoneRuns(s', t) {
      var a :| IsRunning(s', a, t);
      RunningStep(s, l, a, t);
    }
    if t in FinishedBy(s, l) {
      RunningStep(s, l, l.a, t);
      assert SomeoneRuns(s, t);
    }
    if t in StartedBy(s, l) {
      RunningStep(s, l, l.a, t);
      assert IsRunning(s', l.a, t);
    }
    if SomeoneRuns(s, t) && t !in FinishedBy(s, l) {
      var a :| IsRunning(s, a, t);
      RunningStep(s, l, a, t);
      assert IsRunning(s', a, t);
    }
  }

  // ----- over whole runs -----

  ghost predicate Inv(s: State) {
    Fifo(s) && InOnePlace(s) && StartedOnce(s)
  }

  lemma InitInv(s: State)
    requires Init(s)
    ensures Inv(s)
  {
  }

  lemma {:induction false} InvAlways(labels: seq<Label>, states: seq<State>, n: nat)
    requires Run(labels, states) && n <= |labels|
    ensures Inv(states[n])
  {
    if n == 0 {
      InitInv(states[0]);
    } else {
      InvAlways(labels, states, n - 1);
      assert StepAt(labels, states, n - 1);
      FifoStep(states[n - 1], labels[n - 1]);
      InOnePlaceStep(states[n - 1], labels[n - 1]);
      StartedOnceStep(states[n - 1], labels[n - 1]);
    }
  }

  /** Histories only grow, so items leave the queue in the order in which they entered it. */
  lemma {:induction false} OrderOfLeaving(labels: seq<Label>, states: seq<State>, m: nat, n: nat)
    requires Run(labels, states) && m <= n <= |labels|
    ensures Taken(states[m]) <= Taken(states[n]) <= states[n].enqueued
    ensures states[m].enqueued <= states[n].enqueued && states[m].started <= states[n].started
    decreases n
  {
    InvAlways(labels, states, n);
    if m < n {
      OrderOfLeaving(labels, states, m, n - 1);
      InvAlways(labels, states, n - 1);
      assert StepAt(labels, states, n - 1);
      HistoriesGrow(states[n - 1], labels[n - 1]);
    }
  }

  lemma HistoriesGrow(s: State, l: Label)
    requires Fifo(s) && Enabled(s, l)
    ensures Taken(s) <= Taken(Effect(s, l)) && s.enqueued <= Effect(s, l).enqueued && s.started <= Effect(s, l).started
  {
    FifoStep(s, l);
  }

  /** Tickets in somebody's hands. */
  ghost function InFlight(s: State): set<Ticket> {
    set a, t | a in s.actors && t in Holding(s.actors[a]) :: t
  }

  lemma {:induction false} UnrepeatedSize<T>(xs: seq<T>)
    requires Unrepeated(xs)
    ensures |Elements(xs)| == |xs|
  {
    if xs != [] {
      var n := |xs| - 1;
      UnrepeatedSize(xs[..n]);
      assert xs == xs[..n] + [xs[n]];
      ElementsSnoc(xs[..n], xs[n]);
      UnrepeatedSnoc(xs[..n], xs[n]);
    }
  }

  /** Nothing is lost and nothing is done twice: enqueued = queued + in flight + finished, and no
      item starts its pipeline more than once. */
  lemma Conservation(s: State)
    requires Inv(s)
    ensures |s.enqueued| == |s.queue| + |InFlight(s)| + |s.finished|
    ensures Unrepeated(s.started)
  {
    assert Elements(Taken(s)) == InFlight(s) + Elements(s.finished) by {
      forall t ensures t in Taken(s) <==> t in InFlight(s) || t in s.finished {
        if t in InFlight(s) {
          var a :| a in s.actors && t in Holding(s.actors[a]);
          assert HeldBy(s, a, t);
        }
        if t in Taken(s) && t !in s.finished {
          var a :| HeldBy(s, a, t);
        }
      }
    }
    assert InFlight(s) !! Elements(s.finished) by {
      forall t | t in InFlight(s) ensures t !in s.finished {
        var a :| a in s.actors && t in Holding(s.actors[a]);
        assert HeldBy(s, a, t);
      }
    }
    NumberedUnrepeated(Taken(s));
    UnrepeatedSize(Taken(s));
    UnrepeatedSize(s.finished);
  }

  // ----- the queue as an object -----

  /** From s, the first `taken` queued tickets are taken and the first `done` of them finished, all by a. */
  function Through(s: State, taken: nat, done: nat, a: ActorId, x: Actor): State
    requires done <= taken <= |s.queue|
  {
    State(s.enqueued, s.queue[taken..], s.actors[a := x], s.started + s.queue[..done], s.finished + s.queue[..done])
  }

  lemma ThroughNothing(s: State, a: ActorId)
    requires a in s.actors
    ensures Through(s, 0, 0, a, s.actors[a]) == s
  {
  }

  lemma FlushStarts(s: State, a: ActorId, max: int)
    requires a !in s.actors
    ensures Effect(s, StartFlush(a, max)) == Through(s, 0, 0, a, Flush(max, 0, None))
  {
  }

  lemma FlushPasses(s: State, k: nat, a: ActorId, max: int, processed: nat, raised: bool)
    requires k < |s.queue| && processed < max
    ensures var t := Through(s, k, k, a, Flush(max, processed, None));
      && Enabled(t, Pop(a)) && Enabled(Effect(t, Pop(a)), Finish(a, raised))
      && Effect(Effect(t, Pop(a)), Finish(a, raised))
           == Through(s, k + 1, k + 1, a, Flush(max, processed + if raised then 0 else 1, None))
  {
    var t := Through(s, k, k, a, Flush(max, processed, None));
    assert s.queue[..k + 1] == s.queue[..k] + [s.queue[k]];
    assert t.queue[..1] == [s.queue[k]] && t.queue[1..] == s.queue[k + 1..];
    assert Effect(t, Pop(a)).actors == s.actors[a := Flush(max, processed, Some(s.queue[k]))];
  }

  lemma FlushEnds(s: State, k: nat, a: ActorId, max: int, processed: nat)
    requires k <= |s.queue| && (processed >= max || k == |s.queue|)
    ensures var t := Through(s, k, k, a, Flush(max, processed, None));
      Enabled(t, Pop(a)) && Effect(t, Pop(a)) == Through(s, k, k, a, Exited(processed))
  {
  }

  lemma WorkerTakes(s: State, k: nat, a: ActorId)
    requires k <= |s.queue|
    ensures var t, n := Through(s, k, k, a, Worker(None, [])), Smaller(MAX_BATCH, |s.queue| - k);
      && |t.queue| == |s.queue| - k && t.queue[..n] == s.queue[k..k + n] && Enabled(t, TakeBatch(a))
      && Effect(t, TakeBatch(a)) == Through(s, k + n, k, a, if n == 0 then Exited(0) else Worker(None, s.queue[k..k + n]))
  {
    var t, n := Through(s, k, k, a, Worker(None, [])), Smaller(MAX_BATCH, |s.queue| - k);
    assert t.queue[..n] == s.queue[k..k + n] && t.queue[n..] == s.queue[k + n..];
  }

  lemma WorkerPasses(s: State, taken: nat, i: nat, a: ActorId, raised: bool)
    requires i < taken <= |s.queue|
    ensures var t := Through(s, taken, i, a, Worker(None, s.queue[i..taken]));
      && Enabled(t, Begin(a)) && Enabled(Effect(t, Begin(a)), Finish(a, raised))
      && Effect(Effect(t, Begin(a)), Finish(a, raised))
           == Through(s, taken, i + 1, a, Worker(None, s.queue[i + 1..taken]))
  {
    var t := Through(s, taken, i, a, Worker(None, s.queue[i..taken]));
    assert s.queue[..i + 1] == s.queue[..i] + [s.queue[i]];
    assert s.queue[i..taken][1..] == s.queue[i + 1..taken];
    assert Effect(t, Begin(a)).actors == s.actors[a := Worker(Some(s.queue[i]), s.queue[i + 1..taken])];
  }

  /** The successes among the first k tickets. */
  function Successes(queue: seq<Ticket>, raises: Ticket -> bool, k: nat): nat
    requires k <= |queue|
  {
    if k == 0 then 0 else Successes(queue, raises, k - 1) + if raises(queue[k - 1]) then 0 else 1
  }

  lemma {:induction false} FewerBefore(queue: seq<Ticket>, raises: Ticket -> bool, k: nat, max: int)
    requires k <= |queue| && (k > 0 ==> Successes(queue, raises, k - 1) < max)
    ensures forall j: nat :: j < k ==> Successes(queue, raises, j) < max
  {
    if k > 1 {
      FewerBefore(queue, raises, k - 1, max);
    }
  }

  /** labels and states are the run that the queue has been through, with all who work on it. */
  class SharedQueue {
    var queue: seq<Ticket>
    var count: nat
    ghost var labels: seq<Label>
    ghost var states: seq<State>

    /** The past is a run, and the run has come to the present queue. */
    ghost predicate Valid()
      reads this
    {
      Run(labels, states) && queue == Now().queue && count == |Now().enqueued|
    }

    ghost function Now(): State
      reads this
      requires |states| == |labels| + 1
    {
      states[|labels|]
    }

    constructor ()
      ensures Valid() && labels == []
    {
      queue, count := [], 0;
      labels, states := [], [State([], [], map[], [], [])];
    }

    lemma NothingLost()
      requires Valid()
      ensures count == |queue| + |InFlight(Now())| + |Now().finished| && Unrepeated(Now().started)
    {
      InvAlways(labels, states, |labels|);
      Conservation(Now());
    }

    ghost method Record(l: Label)
      requires Run(labels, states) && Enabled(Now(), l)
      modifies this`labels, this`states
      ensures Run(labels, states)
      ensures labels == old(labels) + [l] && states == old(states) + [Effect(old(Now()), l)]
    {
      ghost var s := Now();
      forall i: nat | i <= |labels| ensures StepAt(labels + [l], states + [Effect(s, l)], i) {
        assert i < |labels| ==> StepAt(labels, states, i);
      }
      labels, states := labels + [l], states + [Effect(s, l)];
    }

    /** enrich_async: the locked append, then a worker is started unless one is seen alive. */
    method EnrichAsync(memoryId: string, content: string, alive: bool, ghost a: ActorId)
      requires Valid() && a !in Now().actors
      modifies this
      ensures Valid() && old(states) <= states
      ensures labels == old(labels) + if alive then [Append(memoryId, content)] else [Append(memoryId, content), StartWorker(a)]
      ensures queue == old(queue) + [Ticket(old(count), memoryId, content)]
    {
      Record(Append(memoryId, content));
      queue := queue + [Ticket(count, memoryId, content)];
      count := count + 1;
      if !alive {
        Record(StartWorker(a));
      }
    }

    /** The locked part of the worker's loop. */
    method TakeBatch(ghost a: ActorId) returns (batch: seq<Ticket>)
      requires Valid() && Enabled(Now(), Label.TakeBatch(a))
      modifies this`queue, this`labels, this`states
      ensures Valid() && old(states) <= states
      ensures labels == old(labels) + [Label.TakeBatch(a)] && Now() == Effect(old(Now()), Label.TakeBatch(a))
      ensures old(queue) == batch + queue && |batch| <= 5 && (|batch| < 5 ==> queue == [])
    {
      Record(Label.TakeBatch(a));
      var n := Smaller(MAX_BATCH, |queue|);
      batch := queue[..n];
      queue := queue[n..];
    }

    /** The locked part of a round of the flush. */
    method PopItem(ghost a: ActorId) returns (item: Ticket)
      requires Valid() && Enabled(Now(), Pop(a)) && Now().actors[a].processed < Now().actors[a].max && queue != []
      modifies this`queue, this`labels, this`states
      ensures Valid() && old(states) <= states
      ensures labels == old(labels) + [Pop(a)] && Now() == Effect(old(Now()), Pop(a))
      ensures old(queue) == [item] + queue
    {
      Record(Pop(a));
      item := queue[0];
      queue := queue[1..];
    }

    /** The background worker with nobody else at work: a run in which it finishes the whole queue in
        order, whatever raises, and exits. */
    method RunWorker(ghost a: ActorId, raises: Ticket -> bool)
      requires Valid() && a in Now().actors && Now().actors[a] == Worker(None, [])
      modifies this`queue, this`labels, this`states
      ensures Valid() && old(labels) <= labels && old(states) <= states
      ensures queue == [] && Now() == Through(old(Now()), |old(queue)|, |old(queue)|, a, Exited(0))
    {
      ghost var s := Now();
      ghost var k: nat := 0;
      ThroughNothing(s, a);
      while true
        invariant Valid() && old(labels) <= labels && old(states) <= states
        invariant k <= |s.queue| && Now() == Through(s, k, k, a, Worker(None, []))
        decreases |queue|
      {
        var n := Round(a, raises, s, k);
        if n == 0 {
          return;
        }
        k := k + n;
      }
    }

    /** A batch is taken and worked off, or the worker exits. */
    method Round(ghost a: ActorId, raises: Ticket -> bool, ghost s: State, ghost k: nat) returns (n: nat)
      requires Valid() && k <= |s.queue| && Now() == Through(s, k, k, a, Worker(None, []))
      modifies this`queue, this`labels, this`states
      ensures Valid() && old(labels) <= labels && old(states) <= states
      ensures n == Smaller(MAX_BATCH, |s.queue| - k)
      ensures Now() == Through(s, k + n, k + n, a, if n == 0 then Exited(0) else Worker(None, []))
    {
      WorkerTakes(s, k, a);
      ghost var waiting := queue;
      var batch := TakeBatch(a);
      n := |batch|;
      assert batch == waiting[..n];
      if n > 0 {
        RunBatch(a, batch, raises, s, k);
      }
    }

    ghost method RecordItem(s: State, taken: nat, i: nat, a: ActorId, raised: bool)
      requires Valid() && i < taken <= |s.queue| && Now() == Through(s, taken, i, a, Worker(None, s.queue[i..taken]))
      modifies this`labels, this`states
      ensures Valid() && old(labels) <= labels && old(states) <= states
      ensures Now() == Through(s, taken, i + 1, a, Worker(None, s.queue[i + 1..taken]))
    {
      WorkerPasses(s, taken, i, a, raised);
      Record(Begin(a));
      Record(Finish(a, raised));
    }

    /** The loop over a batch, the tickets from k on. */
    method RunBatch(ghost a: ActorId, batch: seq<Ticket>, raises: Ticket -> bool, ghost s: State, ghost k: nat)
      requires Valid() && k + |batch| <= |s.queue| && batch == s.queue[k..k + |batch|]
      requires Now() == Through(s, k + |batch|, k, a, Worker(None, batch))
      modifies this`labels, this`states
      ensures Valid() && old(labels) <= labels && old(states) <= states
      ensures Now() == Through(s, k + |batch|, k + |batch|, a, Worker(None, []))
    {
      for i := 0 to |batch|
        invariant Valid() && old(labels) <= labels && old(states) <= states
        invariant Now() == Through(s, k + |batch|, k + i, a, Worker(None, s.queue[k + i..k + |batch|]))
      {
        RecordItem(s, k + |batch|, k + i, a, raises(batch[i]));
      }
      assert s.queue[k + |batch|..k + |batch|] == [];
    }

    /** A round of the flush, from taking an item to the end of its pipeline. */
    method FlushItem(ghost a: ActorId, maxItems: int, processed: nat, raises: Ticket -> bool, ghost s: State, ghost k: nat)
      returns (raised: bool)
      requires Valid() && k < |s.queue| && processed < maxItems
      requires Now() == Through(s, k, k, a, Flush(maxItems, processed, None))
      modifies this`queue, this`labels, this`states
      ensures Valid() && old(labels) <= labels && old(states) <= states && raised == raises(s.queue[k])
      ensures Now() == Through(s, k + 1, k + 1, a, Flush(maxItems, processed + if raised then 0 else 1, None))
    {
      FlushPasses(s, k, a, maxItems, processed, raises(queue[0]));
      var item := PopItem(a);
      raised := raises(item);
      Record(Finish(a, raised));
    }

    /** flush_deriver_queue with nobody else at work: a run that takes a prefix of the queue and
        finishes each item before it takes the next. It counts the pipelines that did not raise, and
        stops only when the queue is empty or that count is reached, which then the last item it took
        brought about. */
    method FlushQueue(ghost a: ActorId, maxItems: int, raises: Ticket -> bool) returns (processed: nat, ghost k: nat)
      requires Valid() && a !in Now().actors
      modifies this`queue, this`labels, this`states
      ensures Valid() && old(labels) <= labels && old(states) <= states
      ensures k <= |old(queue)| && Now() == Through(old(Now()), k, k, a, Exited(processed))
      ensures processed == Successes(old(queue), raises, k)
      ensures queue == [] || processed >= maxItems
      ensures forall j: nat :: j < k ==> Successes(old(queue), raises, j) < maxItems
    {
      ghost var s := Now();
      FlushStarts(s, a, maxItems);
      Record(StartFlush(a, maxItems));
      processed, k := 0, 0;
      while processed < maxItems
        invariant Valid() && old(labels) <= labels && old(states) <= states
        invariant k <= |s.queue| && Now() == Through(s, k, k, a, Flush(maxItems, processed, None))
        invariant processed == Successes(s.queue, raises, k)
        invariant k > 0 ==> Successes(s.queue, raises, k - 1) < maxItems
        decreases |queue|
      {
        if queue == [] {
          break;
        }
        var raised := FlushItem(a, maxItems, processed, raises, s, k);
        k := k + 1;
        if !raised {
          processed := processed + 1;
        }
      }
      FewerBefore(s.queue, raises, k, maxItems);
      FlushEnds(s, k, a, maxItems, processed);
      Record(Pop(a));
    }
  }
}
