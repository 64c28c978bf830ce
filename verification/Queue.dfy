/** The worker queue as interleaved steps of submitters, workers and one shutdown: every job
    that is accepted gets exactly one answer, and shutting down always comes to an end. */
module Queue {
  import opened Ints
  import opened Requests
  import opened Incarnations
  import opened Service
  import Planner

  datatype Task = PlanTask | ValidateTask(plan: RecoveryPlan)

  datatype Job = Job(id: nat, request: PlanRequest, task: Task)

  // Where a worker stands with the job it has taken.
  datatype Phase =
    | Idle
    | Taken(job: Job)
    | Attempted(job: Job)
    | Decided(job: Job, result: Planner.PlanningResult)
    | Finished(job: Job, answer: Answer)
    | Left

  // Records in the order in which they were appended.
  datatype Entry = AttemptOf(id: nat) | PlanOf(id: nat, plan: RecoveryPlan) | OutcomeOf(id: nat) | LineageOf(id: nat)

  datatype Delivery = Delivery(id: nat, answer: Answer)

  datatype Shutdown = Running | Closing(pending: seq<Job>) | Stopped

  // accepted lists the jobs in the order in which they were accepted.
  datatype State = State(
    depth: nat,
    stored: bool,
    mine: Incarnation,
    queue: seq<Job>,
    shutdown: Shutdown,
    workers: seq<Phase>,
    accepted: seq<nat>,
    delivered: seq<Delivery>,
    log: seq<Entry>)

  function Started(depth: nat, stored: bool, mine: Incarnation, threads: nat): State {
    State(depth, stored, mine, [], Running, seq(if threads == 0 then 1 else threads, i => Idle), [], [], [])
  }

  // ---- Steps ----------------------------------------------------------------

  datatype Step =
    | Submit(job: Job)
    | Take(w: nat)
    | Refuse(w: nat)
    | Begin(w: nat, ok: bool)
    | Decide(w: nat, result: Planner.PlanningResult)
    | Commit(w: nat, ok: bool)
    | Check(w: nat, valid: bool, ok: bool)
    | Deliver(w: nat)
    | Leave(w: nat)
    | Stop
    | Close
    | Join

  predicate At(s: State, w: nat) {
    w < |s.workers|
  }

  // An append can only be refused when there is a store to refuse it.
  predicate May(s: State, ok: bool) {
    ok || s.stored
  }

  predicate Consistent(result: Planner.PlanningResult) {
    result.decision == Planner.PlanFound <==> result.plan.Some?
  }

  predicate CanStep(s: State, step: Step) {
    match step
    case Submit(job) => s.shutdown.Running? && |s.queue| < s.depth && job.id !in s.accepted
    case Take(w) => At(s, w) && s.workers[w].Idle? && |s.queue| > 0
    case Refuse(w) =>
      At(s, w) && s.workers[w].Taken? && s.workers[w].job.task.PlanTask? && Foreign(s.workers[w].job.request, s.mine)
    case Begin(w, ok) =>
      At(s, w) && s.workers[w].Taken? && s.workers[w].job.task.PlanTask? && !Foreign(s.workers[w].job.request, s.mine)
      && May(s, ok)
    case Decide(w, result) => At(s, w) && s.workers[w].Attempted? && Consistent(result)
    case Commit(w, ok) => At(s, w) && s.workers[w].Decided? && May(s, ok)
    case Check(w, _, ok) => At(s, w) && s.workers[w].Taken? && s.workers[w].job.task.ValidateTask? && May(s, ok)
    case Deliver(w) => At(s, w) && s.workers[w].Finished?
    case Leave(w) => At(s, w) && s.workers[w].Idle? && s.queue == [] && !s.shutdown.Running?
    case Stop => s.shutdown.Running?
    case Close => s.shutdown.Closing? && |s.shutdown.pending| > 0
    case Join => s.shutdown == Closing([]) && forall w :: 0 <= w < |s.workers| ==> s.workers[w].Left?
  }

  function Logged(s: State, ok: bool, entry: Entry): seq<Entry> {
    if ok && s.stored then s.log + [entry] else s.log
  }

  function OutcomeEntry(id: nat, result: Planner.PlanningResult): Entry {
    if result.plan.Some? then PlanOf(id, result.plan.value) else OutcomeOf(id)
  }

  function Moved(s: State, w: nat, phase: Phase): State
    requires At(s, w)
  {
    s.(workers := s.workers[w := phase])
  }

  function Stepped(s: State, step: Step): State
    requires CanStep(s, step)
  {
    match step
    case Submit(job) => s.(queue := s.queue + [job], accepted := s.accepted + [job.id])
    case Take(w) => Moved(s, w, Taken(s.queue[0])).(queue := s.queue[1..])
    case Refuse(w) => Moved(s, w, Finished(s.workers[w].job, Result(FENCED)))
    case Begin(w, ok) =>
      var job := s.workers[w].job;
      Moved(s, w, if ok then Attempted(job) else Finished(job, Unrecorded)).(log := Logged(s, ok, AttemptOf(job.id)))
    case Decide(w, result) => Moved(s, w, Decided(s.workers[w].job, result))
    case Commit(w, ok) =>
      var job, result := s.workers[w].job, s.workers[w].result;
      Moved(s, w, Finished(job, if ok then Result(result) else Unrecorded))
      .(log := Logged(s, ok, OutcomeEntry(job.id, result)))
    case Check(w, valid, ok) =>
      var job := s.workers[w].job;
      Moved(s, w, Finished(job, Report(valid))).(log := Logged(s, ok, LineageOf(job.id)))
    case Deliver(w) =>
      Moved(s, w, Idle).(delivered := s.delivered + [Delivery(s.workers[w].job.id, s.workers[w].answer)])
    case Leave(w) => Moved(s, w, Left)
    case Stop => s.(shutdown := Closing(s.queue), queue := [])
    case Close =>
      s.(shutdown := Closing(s.shutdown.pending[1..]),
         delivered := s.delivered + [Delivery(s.shutdown.pending[0].id, Closed)])
    case Join => s.(shutdown := Stopped)
  }

  ghost predicate IsRun(run: seq<State>, first: State) {
    && |run| > 0 && run[0] == first
    && forall i :: 0 <= i < |run| - 1 ==> Next(run[i], run[i + 1])
  }

  ghost predicate Next(s: State, t: State) {
    exists step :: CanStep(s, step) && t == Stepped(s, step)
  }

  // ---- Where a job is -------------------------------------------------------

  function Ids(jobs: seq<Job>): (ids: seq<nat>)
    ensures |ids| == |jobs|
  {
    seq(|jobs|, i requires 0 <= i < |jobs| => jobs[i].id)
  }

  function DeliveredIds(delivered: seq<Delivery>): (ids: seq<nat>)
    ensures |ids| == |delivered|
  {
    seq(|delivered|, i requires 0 <= i < |delivered| => delivered[i].id)
  }

  function Holds(phase: Phase): seq<nat> {
    if phase.Idle? || phase.Left? then [] else [phase.job.id]
  }

  function HeldBy(workers: seq<Phase>): multiset<nat> {
    if |workers| == 0 then multiset{} else multiset(Holds(workers[0])) + HeldBy(workers[1..])
  }

  function PendingJobs(s: State): seq<Job> {
    if s.shutdown.Closing? then s.shutdown.pending else []
  }

  // Waiting to be taken, or to be closed.
  function Waiting(s: State): seq<Job> {
    s.queue + PendingJobs(s)
  }

  function Everywhere(s: State): multiset<nat> {
    multiset(Ids(Waiting(s))) + HeldBy(s.workers) + multiset(DeliveredIds(s.delivered))
  }

  lemma Regroup(first: multiset<nat>, a: multiset<nat>, b: multiset<nat>, c: multiset<nat>, d: multiset<nat>)
    requires a + b == c + d
    ensures (first + a) + b == (first + c) + d
  {
    assert (first + a) + b == first + (a + b);
  }

  lemma {:induction false} HeldByMoved(workers: seq<Phase>, w: nat, phase: Phase)
    requires w < |workers|
    ensures HeldBy(workers[w := phase]) + multiset(Holds(workers[w])) == HeldBy(workers) + multiset(Holds(phase))
  {
    if w == 0 {
      assert workers[w := phase][1..] == workers[1..];
    } else {
      var rest, first := workers[1..], multiset(Holds(workers[0]));
      HeldByMoved(rest, w - 1, phase);
      assert workers[w := phase][1..] == rest[w - 1 := phase];
      Regroup(first, HeldBy(rest[w - 1 := phase]), multiset(Holds(workers[w])), HeldBy(rest), multiset(Holds(phase)));
    }
  }

  lemma {:induction false} HeldByOne(workers: seq<Phase>, w: nat)
    requires w < |workers|
    ensures multiset(Holds(workers[w])) <= HeldBy(workers)
  {
    if w > 0 {
      HeldByOne(workers[1..], w - 1);
    }
  }

  lemma {:induction false} NoneHeld(workers: seq<Phase>)
    requires forall w :: 0 <= w < |workers| ==> workers[w].Idle? || workers[w].Left?
    ensures HeldBy(workers) == multiset{}
  {
    if |workers| > 0 {
      assert workers[0].Idle? || workers[0].Left?;
      NoneHeld(workers[1..]);
    }
  }

  lemma IdsSplit(jobs: seq<Job>)
    requires |jobs| > 0
    ensures Ids(jobs) == [jobs[0].id] + Ids(jobs[1..])
  {
  }

  lemma IdsSnoc(jobs: seq<Job>, job: Job)
    ensures Ids(jobs + [job]) == Ids(jobs) + [job.id]
  {
  }

  lemma DeliveredSnoc(delivered: seq<Delivery>, d: Delivery)
    ensures DeliveredIds(delivered + [d]) == DeliveredIds(delivered) + [d.id]
  {
  }

  // ---- What every step keeps ------------------------------------------------

  ghost predicate Once(m: multiset<nat>) {
    forall id :: m[id] <= 1
  }

  // Every accepted job is in exactly one place.
  ghost predicate Conserved(s: State) {
    Everywhere(s) == multiset(s.accepted) && Once(multiset(s.accepted))
  }

  ghost predicate Bounded(s: State) {
    && |s.queue| <= s.depth
    && (!s.shutdown.Running? ==> s.queue == [])
    && (s.shutdown.Running? ==> forall w :: 0 <= w < |s.workers| ==> !s.workers[w].Left?)
    && (s.shutdown.Stopped? ==> forall w :: 0 <= w < |s.workers| ==> s.workers[w].Left?)
  }

  // What is waiting is what was accepted last, in that order.
  predicate InOrder(s: State) {
    var waiting := Ids(Waiting(s));
    |waiting| <= |s.accepted| && waiting == s.accepted[|s.accepted| - |waiting|..]
  }

  lemma BoundedKept(s: State, step: Step)
    requires Bounded(s) && CanStep(s, step)
    ensures Bounded(Stepped(s, step))
  {
  }

  lemma SameOrder(s: State, t: State)
    requires InOrder(s) && Waiting(t) == Waiting(s) && t.accepted == s.accepted
    ensures InOrder(t)
  {
  }

  lemma FirstGone(s: State, t: State)
    requires InOrder(s) && |Waiting(s)| > 0 && Waiting(t) == Waiting(s)[1..] && t.accepted == s.accepted
    ensures InOrder(t)
  {
    hide Waiting;
    IdsSplit(Waiting(s));
    hide Ids;
  }

  lemma LastCome(s: State, t: State, job: Job)
    requires InOrder(s) && Waiting(t) == Waiting(s) + [job] && t.accepted == s.accepted + [job.id]
    ensures InOrder(t)
  {
    hide Waiting;
    IdsSnoc(Waiting(s), job);
    hide Ids;
  }

  lemma InOrderKept(s: State, step: Step)
    requires Bounded(s) && InOrder(s) && CanStep(s, step)
    ensures InOrder(Stepped(s, step))
  {
    hide InOrder, Ids;
    var t := Stepped(s, step);
    match step
    case Submit(job) => LastCome(s, t, job);
    case Take(_) => FirstGone(s, t);
    case Close => FirstGone(s, t);
    case _ => SameOrder(s, t);
  }

  // A worker goes on with what it holds.
  lemma WorkingKept(s: State, t: State, w: nat)
    requires Conserved(s) && At(s, w) && |t.workers| == |s.workers|
    requires Holds(t.workers[w]) == Holds(s.workers[w]) && t.workers == s.workers[w := t.workers[w]]
    requires Waiting(t) == Waiting(s) && t.delivered == s.delivered && t.accepted == s.accepted
    ensures Conserved(t)
  {
    hide Waiting, Holds;
    HeldByMoved(s.workers, w, t.workers[w]);
    SameHeld(HeldBy(s.workers), HeldBy(t.workers), multiset(Holds(s.workers[w])));
  }

  lemma SameHeld(a: multiset<nat>, b: multiset<nat>, x: multiset<nat>)
    requires b + x == a + x
    ensures a == b
  {
    forall id | true
      ensures a[id] == b[id]
    {
      assert (a + x)[id] == (b + x)[id];
    }
  }

  lemma HandedOver(a: multiset<nat>, b: multiset<nat>, c: multiset<nat>, d: multiset<nat>, x: multiset<nat>,
                   rest: multiset<nat>)
    requires b + x == a && d == c + x
    ensures a + c + rest == b + d + rest && rest + a + c == rest + b + d
  {
  }

  lemma SubmitConserves(s: State, job: Job)
    requires Conserved(s) && Bounded(s) && CanStep(s, Submit(job))
    ensures Conserved(Stepped(s, Submit(job)))
  {
    hide HeldBy, DeliveredIds;
    var t := Stepped(s, Submit(job));
    assert Waiting(s) == s.queue && Waiting(t) == s.queue + [job];
    IdsSnoc(s.queue, job);
    hide Ids;
    assert multiset(t.accepted) == multiset(s.accepted) + multiset{job.id};
  }

  lemma TakeConserves(s: State, w: nat)
    requires Conserved(s) && Bounded(s) && CanStep(s, Take(w))
    ensures Conserved(Stepped(s, Take(w)))
  {
    hide HeldBy, DeliveredIds;
    var t := Stepped(s, Take(w));
    assert Waiting(s) == s.queue && Waiting(t) == s.queue[1..];
    IdsSplit(s.queue);
    hide Ids;
    HeldByMoved(s.workers, w, Taken(s.queue[0]));
    assert multiset(Ids(s.queue)) == multiset{s.queue[0].id} + multiset(Ids(s.queue[1..]));
    assert HeldBy(t.workers) == HeldBy(s.workers) + multiset{s.queue[0].id};
    HandedOver(multiset(Ids(s.queue)), multiset(Ids(t.queue)), HeldBy(s.workers), HeldBy(t.workers),
               multiset{s.queue[0].id}, multiset(DeliveredIds(s.delivered)));
  }

  lemma DeliverConserves(s: State, w: nat)
    requires Conserved(s) && CanStep(s, Deliver(w))
    ensures Conserved(Stepped(s, Deliver(w)))
  {
    hide HeldBy, Ids;
    var t := Stepped(s, Deliver(w));
    assert Waiting(t) == Waiting(s);
    DeliveredSnoc(s.delivered, Delivery(s.workers[w].job.id, s.workers[w].answer));
    hide DeliveredIds, Waiting;
    HeldByMoved(s.workers, w, Idle);
    var id := s.workers[w].job.id;
    assert multiset(DeliveredIds(t.delivered)) == multiset(DeliveredIds(s.delivered)) + multiset{id};
    assert HeldBy(t.workers) + multiset{id} == HeldBy(s.workers);
    HandedOver(HeldBy(s.workers), HeldBy(t.workers), multiset(DeliveredIds(s.delivered)),
               multiset(DeliveredIds(t.delivered)), multiset{id}, multiset(Ids(Waiting(s))));
  }

  lemma CloseConserves(s: State)
    requires Conserved(s) && Bounded(s) && CanStep(s, Close)
    ensures Conserved(Stepped(s, Close))
  {
    hide HeldBy;
    var t := Stepped(s, Close);
    assert Waiting(s) == s.shutdown.pending && Waiting(t) == s.shutdown.pending[1..];
    IdsSplit(s.shutdown.pending);
    DeliveredSnoc(s.delivered, Delivery(s.shutdown.pending[0].id, Closed));
    hide Ids, DeliveredIds;
  }

  lemma ConservedKept(s: State, step: Step)
    requires Conserved(s) && Bounded(s) && CanStep(s, step)
    ensures Conserved(Stepped(s, step))
  {
    hide Conserved, HeldBy, Ids, DeliveredIds;
    match step
    case Submit(job) => SubmitConserves(s, job);
    case Take(w) => TakeConserves(s, w);
    case Deliver(w) => DeliverConserves(s, w);
    case Close => CloseConserves(s);
    case Stop => SameConserves(s, Stepped(s, step));
    case Join => SameConserves(s, Stepped(s, step));
    case Refuse(w) => WorkingKept(s, Stepped(s, step), w);
    case Begin(w, _) => WorkingKept(s, Stepped(s, step), w);
    case Decide(w, _) => WorkingKept(s, Stepped(s, step), w);
    case Commit(w, _) => WorkingKept(s, Stepped(s, step), w);
    case Check(w, _, _) => WorkingKept(s, Stepped(s, step), w);
    case Leave(w) => WorkingKept(s, Stepped(s, step), w);
  }

  lemma SameConserves(s: State, t: State)
    requires Conserved(s) && t.workers == s.workers && t.delivered == s.delivered && t.accepted == s.accepted
    requires Waiting(t) == Waiting(s)
    ensures Conserved(t)
  {
  }

  // A job that a worker holds is neither waiting nor delivered.
  lemma HeldElsewhere(s: State, w: nat)
    requires Conserved(s) && At(s, w) && Holds(s.workers[w]) != []
    ensures s.workers[w].job.id in s.accepted
    ensures s.workers[w].job.id !in Ids(Waiting(s)) && s.workers[w].job.id !in DeliveredIds(s.delivered)
  {
    hide Ids, DeliveredIds, Waiting, HeldBy;
    var id := s.workers[w].job.id;
    HeldByOne(s.workers, w);
    assert multiset(Holds(s.workers[w]))[id] == 1;
    assert HeldBy(s.workers)[id] >= 1;
    assert Everywhere(s)[id] <= 1;
    assert id in multiset(s.accepted);
    assert multiset(Ids(Waiting(s)))[id] == 0 && multiset(DeliveredIds(s.delivered))[id] == 0;
  }

  // ---- What is durable when an answer is given ------------------------------

  // A plan that is answered is on record.
  ghost predicate Backed(s: State, id: nat, answer: Answer) {
    answer.Result? ==>
      && Consistent(answer.result)
      && (s.stored && answer.result.plan.Some? ==> PlanOf(id, answer.result.plan.value) in s.log)
  }

  ghost predicate Recorded(s: State, phase: Phase) {
    match phase
    case Attempted(job) => s.stored ==> AttemptOf(job.id) in s.log
    case Decided(job, result) => Consistent(result) && (s.stored ==> AttemptOf(job.id) in s.log)
    case Finished(job, answer) => !answer.Closed? && Backed(s, job.id, answer)
    case _ => true
  }

  // Every plan on record comes after the attempt to make it.
  predicate Preceded(log: seq<Entry>) {
    forall j :: 0 <= j < |log| && log[j].PlanOf? ==> AttemptOf(log[j].id) in log[..j]
  }

  ghost predicate Durable(s: State) {
    && (forall w :: 0 <= w < |s.workers| ==> Recorded(s, s.workers[w]))
    && (forall k :: 0 <= k < |s.delivered| ==> Backed(s, s.delivered[k].id, s.delivered[k].answer))
    && Preceded(s.log)
  }

  lemma DurableGrows(s: State, t: State, w: nat)
    requires Durable(s) && At(s, w) && |t.workers| == |s.workers| && t.stored == s.stored
    requires t.workers == s.workers[w := t.workers[w]] && s.log <= t.log && t.delivered == s.delivered
    requires Recorded(t, t.workers[w]) && Preceded(t.log)
    ensures Durable(t)
  {
    hide Preceded;
    forall v | 0 <= v < |t.workers|
      ensures Recorded(t, t.workers[v])
    {
      assert v != w ==> t.workers[v] == s.workers[v] && Recorded(s, s.workers[v]);
    }
    forall k | 0 <= k < |t.delivered|
      ensures Backed(t, t.delivered[k].id, t.delivered[k].answer)
    {
      assert Backed(s, s.delivered[k].id, s.delivered[k].answer);
    }
  }

  lemma DurableDelivered(s: State, t: State, d: Delivery)
    requires Durable(s) && t.stored == s.stored && t.log == s.log && t.delivered == s.delivered + [d]
    requires Backed(s, d.id, d.answer)
    requires forall v :: 0 <= v < |t.workers| ==> Recorded(s, t.workers[v])
    ensures Durable(t)
  {
    hide Preceded;
    forall v | 0 <= v < |t.workers|
      ensures Recorded(t, t.workers[v])
    {
      assert Recorded(s, t.workers[v]);
    }
    forall k | 0 <= k < |t.delivered|
      ensures Backed(t, t.delivered[k].id, t.delivered[k].answer)
    {
      assert k < |s.delivered| ==> Backed(s, s.delivered[k].id, s.delivered[k].answer);
    }
  }

  lemma DurableSame(s: State, t: State)
    requires Durable(s) && t.stored == s.stored && t.log == s.log && t.delivered == s.delivered
    requires t.workers == s.workers
    ensures Durable(t)
  {
    hide Preceded;
    assert forall w :: 0 <= w < |t.workers| ==> Recorded(s, s.workers[w]) ==> Recorded(t, t.workers[w]);
  }

  lemma LoggedKeepsOrder(s: State, ok: bool, entry: Entry)
    requires Preceded(s.log) && (entry.PlanOf? && s.stored ==> AttemptOf(entry.id) in s.log)
    ensures Preceded(Logged(s, ok, entry)) && s.log <= Logged(s, ok, entry)
    ensures ok && s.stored ==> entry in Logged(s, ok, entry)
  {
    var after := Logged(s, ok, entry);
    forall j | 0 <= j < |after| && after[j].PlanOf?
      ensures AttemptOf(after[j].id) in after[..j]
    {
      if j < |s.log| {
        assert after[..j] == s.log[..j];
      } else {
        assert after[..j] == s.log;
      }
    }
  }

  lemma BeginDurable(s: State, w: nat, ok: bool)
    requires Durable(s) && CanStep(s, Begin(w, ok))
    ensures Durable(Stepped(s, Begin(w, ok)))
  {
    hide Durable, Preceded, Logged;
    DurableLog(s);
    LoggedKeepsOrder(s, ok, AttemptOf(s.workers[w].job.id));
    DurableGrows(s, Stepped(s, Begin(w, ok)), w);
  }

  lemma DurableLog(s: State)
    requires Durable(s)
    ensures Preceded(s.log)
    ensures forall w :: 0 <= w < |s.workers| ==> Recorded(s, s.workers[w])
  {
  }

  lemma CommitDurable(s: State, w: nat, ok: bool)
    requires Durable(s) && CanStep(s, Commit(w, ok))
    ensures Durable(Stepped(s, Commit(w, ok)))
  {
    hide Durable, Preceded, Logged;
    DurableLog(s);
    assert Recorded(s, s.workers[w]);
    LoggedKeepsOrder(s, ok, OutcomeEntry(s.workers[w].job.id, s.workers[w].result));
    DurableGrows(s, Stepped(s, Commit(w, ok)), w);
  }

  lemma CheckDurable(s: State, w: nat, valid: bool, ok: bool)
    requires Durable(s) && CanStep(s, Check(w, valid, ok))
    ensures Durable(Stepped(s, Check(w, valid, ok)))
  {
    hide Durable, Preceded, Logged;
    DurableLog(s);
    LoggedKeepsOrder(s, ok, LineageOf(s.workers[w].job.id));
    DurableGrows(s, Stepped(s, Check(w, valid, ok)), w);
  }

  lemma DeliverDurable(s: State, w: nat)
    requires Durable(s) && CanStep(s, Deliver(w))
    ensures Durable(Stepped(s, Deliver(w)))
  {
    hide Durable, Preceded;
    DurableLog(s);
    assert Recorded(s, s.workers[w]);
    DurableDelivered(s, Stepped(s, Deliver(w)), Delivery(s.workers[w].job.id, s.workers[w].answer));
  }

  lemma CloseDurable(s: State)
    requires Durable(s) && CanStep(s, Close)
    ensures Durable(Stepped(s, Close))
  {
    hide Durable, Preceded;
    DurableLog(s);
    DurableDelivered(s, Stepped(s, Close), Delivery(s.shutdown.pending[0].id, Closed));
  }

  lemma DurableKept(s: State, step: Step)
    requires Durable(s) && CanStep(s, step)
    ensures Durable(Stepped(s, step))
  {
    hide Durable, Preceded;
    DurableLog(s);
    match step
    case Begin(w, ok) => BeginDurable(s, w, ok);
    case Commit(w, ok) => CommitDurable(s, w, ok);
    case Check(w, valid, ok) => CheckDurable(s, w, valid, ok);
    case Deliver(w) => DeliverDurable(s, w);
    case Close => CloseDurable(s);
    case Take(w) => DurableGrows(s, Stepped(s, step), w);
    case Refuse(w) => DurableGrows(s, Stepped(s, step), w);
    case Decide(w, _) =>
      assert Recorded(s, s.workers[w]);
      DurableGrows(s, Stepped(s, step), w);
    case Leave(w) => DurableGrows(s, Stepped(s, step), w);
    case Submit(_) => DurableSame(s, Stepped(s, step));
    case Stop => DurableSame(s, Stepped(s, step));
    case Join => DurableSame(s, Stepped(s, step));
  }

  // ---- What has not run leaves no trace -------------------------------------

  predicate NoTrace(log: seq<Entry>, id: nat) {
    forall j :: 0 <= j < |log| ==> log[j].id != id
  }

  ghost predicate Untouched(s: State) {
    && (forall j :: 0 <= j < |s.log| ==> s.log[j].id in s.accepted)
    && (forall k :: 0 <= k < |Waiting(s)| ==> NoTrace(s.log, Waiting(s)[k].id))
    && (forall k :: 0 <= k < |s.delivered| && s.delivered[k].answer.Closed? ==> NoTrace(s.log, s.delivered[k].id))
  }

  lemma LoggedUntouched(s: State, t: State, w: nat, ok: bool, entry: Entry)
    requires Untouched(s) && Conserved(s) && At(s, w) && Holds(s.workers[w]) != []
    requires entry.id == s.workers[w].job.id && t.log == Logged(s, ok, entry)
    requires Waiting(t) == Waiting(s) && t.delivered == s.delivered && t.accepted == s.accepted
    ensures Untouched(t)
  {
    hide Waiting, Conserved, Holds;
    HeldElsewhere(s, w);
    forall k | 0 <= k < |Waiting(t)|
      ensures NoTrace(t.log, Waiting(t)[k].id)
    {
      assert Ids(Waiting(s))[k] == Waiting(s)[k].id;
      assert NoTrace(s.log, Waiting(s)[k].id);
    }
    forall k | 0 <= k < |t.delivered| && t.delivered[k].answer.Closed?
      ensures NoTrace(t.log, t.delivered[k].id)
    {
      assert DeliveredIds(s.delivered)[k] == s.delivered[k].id;
      assert NoTrace(s.log, s.delivered[k].id);
    }
  }

  lemma UntouchedKept(s: State, step: Step)
    requires Untouched(s) && Conserved(s) && Bounded(s) && Durable(s) && CanStep(s, step)
    ensures Untouched(Stepped(s, step))
  {
    hide Conserved, Durable, Logged;
    var t := Stepped(s, step);
    match step
    case Begin(w, ok) => LoggedUntouched(s, t, w, ok, AttemptOf(s.workers[w].job.id));
    case Commit(w, ok) => LoggedUntouched(s, t, w, ok, OutcomeEntry(s.workers[w].job.id, s.workers[w].result));
    case Check(w, _, ok) => LoggedUntouched(s, t, w, ok, LineageOf(s.workers[w].job.id));
    case Deliver(w) =>
      DurableLog(s);
      assert Recorded(s, s.workers[w]);
      assert Waiting(t) == Waiting(s);
    case Close =>
      assert Waiting(s) == s.shutdown.pending && Waiting(t) == s.shutdown.pending[1..];
      assert NoTrace(s.log, Waiting(s)[0].id);
    case Submit(job) =>
      assert Waiting(t) == Waiting(s) + [job];
      assert NoTrace(s.log, job.id);
    case Take(_) => assert Waiting(t) == Waiting(s)[1..];
    case _ => assert Waiting(t) == Waiting(s);
  }

  // ---- Whole runs -----------------------------------------------------------

  ghost predicate Orderly(s: State) {
    Bounded(s) && Conserved(s) && InOrder(s) && Durable(s) && Untouched(s)
  }

  lemma StartedOrderly(depth: nat, stored: bool, mine: Incarnation, threads: nat)
    ensures Orderly(Started(depth, stored, mine, threads))
  {
    var s := Started(depth, stored, mine, threads);
    NoneHeld(s.workers);
  }

  lemma NextKeeps(s: State, t: State)
    requires Orderly(s) && Next(s, t)
    ensures Orderly(t)
  {
    hide Bounded, Conserved, InOrder, Durable, Untouched, CanStep, Stepped;
    var step :| CanStep(s, step) && t == Stepped(s, step);
    BoundedKept(s, step);
    ConservedKept(s, step);
    InOrderKept(s, step);
    DurableKept(s, step);
    UntouchedKept(s, step);
  }

  lemma {:induction false} RunIsOrderly(run: seq<State>, depth: nat, stored: bool, mine: Incarnation, threads: nat,
                                        i: nat)
    requires IsRun(run, Started(depth, stored, mine, threads)) && i < |run|
    ensures Orderly(run[i]) && run[i].depth == depth && run[i].stored == stored
    decreases i
  {
    hide Orderly;
    if i == 0 {
      StartedOrderly(depth, stored, mine, threads);
    } else {
      RunIsOrderly(run, depth, stored, mine, threads, i - 1);
      assert Next(run[i - 1], run[i - 1 + 1]);
      NextKeeps(run[i - 1], run[i]);
      SettingsStay(run[i - 1], run[i]);
    }
  }

  lemma SettingsStay(s: State, t: State)
    requires Next(s, t)
    ensures t.depth == s.depth && t.stored == s.stored && |t.workers| == |s.workers|
  {
  }

  function Answers(s: State, id: nat): nat {
    multiset(DeliveredIds(s.delivered))[id]
  }

  /** Exactly-once delivery, in every interleaving: the queue stays within its bound, only what
      was accepted is answered, nothing is answered twice, and once the service has stopped
      nothing is left waiting or held and every accepted job has had its one answer. */
  lemma ExactlyOnce(run: seq<State>, depth: nat, stored: bool, mine: Incarnation, threads: nat, i: nat, id: nat)
    requires IsRun(run, Started(depth, stored, mine, threads)) && i < |run|
    ensures |run[i].queue| <= depth
    ensures Answers(run[i], id) <= if id in run[i].accepted then 1 else 0
    ensures run[i].shutdown.Stopped? ==>
              && Waiting(run[i]) == [] && HeldBy(run[i].workers) == multiset{}
              && Answers(run[i], id) == if id in run[i].accepted then 1 else 0
  {
    hide DeliveredIds, HeldBy, IsRun;
    RunIsOrderly(run, depth, stored, mine, threads, i);
    var s := run[i];
    assert Everywhere(s)[id] == multiset(s.accepted)[id];
    assert multiset(s.accepted)[id] <= 1;
    assert id in s.accepted <==> id in multiset(s.accepted);
    if s.shutdown.Stopped? {
      NoneHeld(s.workers);
    }
  }

  /** A plan is delivered only when it has been recorded, after the attempt to make it. */
  lemma DeliveredIsRecorded(run: seq<State>, depth: nat, mine: Incarnation, threads: nat, i: nat, k: nat)
    returns (attempt: nat, commit: nat)
    requires IsRun(run, Started(depth, true, mine, threads)) && i < |run| && k < |run[i].delivered|
    requires run[i].delivered[k].answer.Result?
    requires run[i].delivered[k].answer.result.decision == Planner.PlanFound
    ensures var d := run[i].delivered[k];
            && d.answer.result.plan.Some? && attempt < commit < |run[i].log|
            && run[i].log[attempt] == AttemptOf(d.id) && run[i].log[commit] == PlanOf(d.id, d.answer.result.plan.value)
  {
    hide IsRun;
    RunIsOrderly(run, depth, true, mine, threads, i);
    hide Bounded, Conserved, InOrder, Untouched;
    var s := run[i];
    assert Backed(s, s.delivered[k].id, s.delivered[k].answer);
    commit :| commit < |s.log| && s.log[commit] == PlanOf(s.delivered[k].id, s.delivered[k].answer.result.plan.value);
    attempt :| attempt < commit && s.log[..commit][attempt] == AttemptOf(s.delivered[k].id);
  }

  /** A job that is told the service has closed never ran: nothing on record is about it. */
  lemma ClosedNeverRan(run: seq<State>, depth: nat, stored: bool, mine: Incarnation, threads: nat, i: nat, k: nat)
    requires IsRun(run, Started(depth, stored, mine, threads)) && i < |run| && k < |run[i].delivered|
    requires run[i].delivered[k].answer.Closed?
    ensures NoTrace(run[i].log, run[i].delivered[k].id)
  {
    hide IsRun;
    RunIsOrderly(run, depth, stored, mine, threads, i);
  }

  // ---- Shutting down ends ---------------------------------------------------

  // How many steps a worker has before it can only leave or take another job.
  function StepsLeft(phase: Phase): nat {
    match phase
    case Taken(_) => 5
    case Attempted(_) => 4
    case Decided(_, _) => 3
    case Finished(_, _) => 2
    case Idle => 1
    case Left => 0
  }

  function Effort(workers: seq<Phase>): nat {
    if |workers| == 0 then 0 else StepsLeft(workers[0]) + Effort(workers[1..])
  }

  function Remaining(s: State): nat {
    Effort(s.workers) + |PendingJobs(s)| + if s.shutdown.Stopped? then 0 else 1
  }

  lemma {:induction false} EffortMoved(workers: seq<Phase>, w: nat, phase: Phase)
    requires w < |workers|
    ensures Effort(workers[w := phase]) == Effort(workers) - StepsLeft(workers[w]) + StepsLeft(phase)
  {
    if w == 0 {
      assert workers[w := phase][1..] == workers[1..];
    } else {
      EffortMoved(workers[1..], w - 1, phase);
      assert workers[w := phase][1..] == workers[1..][w - 1 := phase];
    }
  }

  // Once it has begun, every step brings the end nearer.
  lemma ClosingProgresses(s: State, step: Step)
    requires Bounded(s) && !s.shutdown.Running? && CanStep(s, step)
    ensures !Stepped(s, step).shutdown.Running? && Remaining(Stepped(s, step)) < Remaining(s)
  {
    hide Effort;
    var t := Stepped(s, step);
    match step
    case Refuse(w) => EffortMoved(s.workers, w, t.workers[w]);
    case Begin(w, _) => EffortMoved(s.workers, w, t.workers[w]);
    case Decide(w, _) => EffortMoved(s.workers, w, t.workers[w]);
    case Commit(w, _) => EffortMoved(s.workers, w, t.workers[w]);
    case Check(w, _, _) => EffortMoved(s.workers, w, t.workers[w]);
    case Deliver(w) => EffortMoved(s.workers, w, t.workers[w]);
    case Leave(w) => EffortMoved(s.workers, w, t.workers[w]);
    case _ =>
  }

  // A step that the worker can take next, whatever the others do.
  function NextOf(s: State, w: nat): Step
    requires At(s, w)
  {
    match s.workers[w]
    case Idle => Leave(w)
    case Taken(job) =>
      if job.task.ValidateTask? then Check(w, true, true)
      else if Foreign(job.request, s.mine) then Refuse(w)
      else Begin(w, true)
    case Attempted(_) => Decide(w, FENCED)
    case Decided(_, _) => Commit(w, true)
    case Finished(_, _) => Deliver(w)
    case Left => Join
  }

  lemma ClosingGoesOn(s: State) returns (step: Step)
    requires Bounded(s) && s.shutdown.Closing?
    ensures CanStep(s, step)
  {
    if |s.shutdown.pending| > 0 {
      step := Close;
    } else if w :| 0 <= w < |s.workers| && !s.workers[w].Left? {
      step := NextOf(s, w);
    } else {
      step := Join;
    }
  }

  /** Shutting down always comes to an end: in every interleaving there are at most as many
      steps as there is work left, and where no step is left the service has stopped. */
  lemma {:induction false} ShutdownEnds(run: seq<State>, s: State)
    requires Bounded(s) && !s.shutdown.Running? && IsRun(run, s)
    ensures |run| - 1 <= Remaining(s)
    ensures var last := run[|run| - 1];
            (forall step :: !CanStep(last, step)) ==> last.shutdown.Stopped?
    decreases |run|
  {
    hide Bounded, CanStep, Stepped, Remaining;
    if |run| == 1 {
      if s.shutdown.Closing? {
        var step := ClosingGoesOn(s);
      }
    } else {
      assert Next(run[0], run[0 + 1]);
      var step :| CanStep(s, step) && run[1] == Stepped(s, step);
      BoundedKept(s, step);
      ClosingProgresses(s, step);
      var rest := run[1..];
      forall i | 0 <= i < |rest| - 1
        ensures Next(rest[i], rest[i + 1])
      {
        assert Next(run[i + 1], run[i + 1 + 1]);
      }
      ShutdownEnds(rest, run[1]);
    }
  }
}
