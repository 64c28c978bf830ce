/** The planner service: a bounded queue, workers that plan and validate, the order in which
    they make outcomes durable and deliver them, and a shutdown that drops nothing. */
module Service {
  import opened Ints
  import opened Canonical
  import opened Requests
  import opened Definition
  import opened Domain
  import opened Dynamics
  import opened Problems
  import opened InitialStates
  import opened Framing
  import opened Recovery
  import opened Incarnations
  import opened Store
  import Planner
  import Validate

  // ---- One request on a worker ----------------------------------------------

  // What the caller is told: the outcome of planning, that it could not be recorded, whether
  // a plan is valid, or that the service shut down before the job ran.
  datatype Answer =
    | Result(result: Planner.PlanningResult)
    | Unrecorded
    | Report(valid: bool)
    | Closed

  // How plans and other outcomes are written into records.
  datatype Writing = Writing(
    plan: RecoveryPlan -> Bytes,
    outcome: (PlanRequest, Planner.PlanningResult) -> Bytes,
    report: (PlanRequest, RecoveryPlan, bool) -> Bytes)

  predicate Foreign(request: PlanRequest, mine: Incarnation) {
    request.epoch != mine.epoch || request.boot != mine.boot
  }

  const FENCED: Planner.PlanningResult := Planner.PlanningResult(Planner.RejectedFenced, None, None, {})

  function AttemptPayload(h: Hashing, request: PlanRequest): Bytes {
    var digest := h.request(request);
    [] + U64Bytes(request.id) + U64Bytes(request.attempt) + U64Bytes(request.epoch) + U64Bytes(request.boot)
    + U64Bytes(digest.hi) + U64Bytes(digest.lo)
  }

  method EncodeAttempt(h: Hashing, request: PlanRequest) returns (payload: Bytes)
    ensures payload == AttemptPayload(h, request)
  {
    hide U64Bytes;
    var w := new CanonicalWriter();
    w.WriteU64(request.id);
    w.WriteU64(request.attempt);
    w.WriteU64(request.epoch);
    w.WriteU64(request.boot);
    var digest := h.request(request);
    w.WriteU64(digest.hi);
    w.WriteU64(digest.lo);
    payload := w.buffer;
  }

  function OutcomeKind(result: Planner.PlanningResult): RecordType {
    if result.plan.Some? then CommittedPlan else Infeasibility
  }

  function OutcomePayload(writing: Writing, request: PlanRequest, result: Planner.PlanningResult): Bytes {
    if result.plan.Some? then writing.plan(result.plan.value) else writing.outcome(request, result)
  }

  // Appends to the store, if there is one.
  method AppendDurable(store: DurableStore?, kind: RecordType, payload: Bytes) returns (ok: bool)
    requires store != null ==> store.Valid()
    modifies if store == null then {} else {store, store.disk}
    ensures store != null ==> store.Valid()
    ensures store != null ==>
              store.records == if ok then Appended(old(store.records), kind, payload) else old(store.records)
    ensures store != null ==>
              (ok <==> |payload| <= store.limits.maxRecordBytes && |old(store.records)| < store.limits.maxRecords)
    ensures store == null ==> ok
  {
    if store == null {
      return true;
    }
    var sequence := store.Append(kind, payload);
    ok := sequence.Some?;
  }

  /** Plans a request and makes its outcome durable before anything is told.  A request of
      another incarnation leaves no trace.  A plan is answered only when the attempt and then
      the plan itself have been appended, and with no record of the plan there is no plan. */
  method RunPlan(h: Hashing, limits: ModelLimits, writing: Writing, store: DurableStore?, mine: Incarnation,
                 request: PlanRequest)
    returns (answer: Answer, ghost p: Problem)
    requires store != null ==> store.Valid()
    modifies if store == null then {} else {store, store.disk}
    ensures store != null ==> store.Valid()
    ensures answer.Result? || answer.Unrecorded?
    ensures Foreign(request, mine) ==> answer == Result(FENCED)
    ensures Foreign(request, mine) && store != null ==> store.records == old(store.records)
    ensures store == null ==> answer.Result?
    ensures answer.Result? ==> (answer.result.decision == Planner.PlanFound <==> answer.result.plan.Some?)
    ensures store != null && !Foreign(request, mine) && answer.Result? ==>
              store.records == Appended(Appended(old(store.records), Attempt, AttemptPayload(h, request)),
                                        OutcomeKind(answer.result), OutcomePayload(writing, request, answer.result))
    ensures store != null && answer.Unrecorded? ==>
              (store.records == old(store.records)
               || store.records == Appended(old(store.records), Attempt, AttemptPayload(h, request)))
    ensures answer.Result? && !Foreign(request, mine) ==>
              (Planner.IsRejection(answer.result.decision) <==> !Planner.Admitted(limits, request))
    ensures answer.Result? && !Foreign(request, mine) && Planner.Admitted(limits, request) ==>
              Shaped(p.def, p.start) && Planner.Sound(h, limits, request, answer.result, p)
  {
    hide Planner.Admitted, Appended, AttemptPayload, Planner.Decisive, Planner.Sound;
    p := Problem(request.definition, request.policy, Blank(request.definition));
    if Foreign(request, mine) {
      return Result(FENCED), p;
    }
    var payload := EncodeAttempt(h, request);
    var appended := AppendDurable(store, Attempt, payload);
    if !appended {
      return Unrecorded, p;
    }
    var result;
    ghost var table;
    result, p, table := Planner.Plan(h, limits, request);
    var committed := AppendDurable(store, OutcomeKind(result), OutcomePayload(writing, request, result));
    if !committed {
      return Unrecorded, p;
    }
    answer := Result(result);
  }

  /** Validates a plan; the verdict is delivered whether or not the lineage could be recorded. */
  method RunValidate(h: Hashing, writing: Writing, store: DurableStore?, request: PlanRequest, plan: RecoveryPlan)
    returns (answer: Answer)
    requires store != null ==> store.Valid()
    modifies if store == null then {} else {store, store.disk}
    ensures store != null ==> store.Valid()
    ensures answer.Report?
    ensures Validate.Accountable(request.definition) ==> (answer.valid <==> Validate.Conforms(h, request, plan))
    ensures Validate.Conforms(h, request, plan) && Validate.Tidy(request, plan) ==> answer.valid
    ensures store != null ==>
              (store.records == old(store.records)
               || store.records == Appended(old(store.records), EvidenceLineage,
                                            writing.report(request, plan, answer.valid)))
  {
    hide Validate.Conforms, Validate.Accountable, Appended;
    var found := Validate.ValidatePlan(h, request, plan);
    answer := Report(found == []);
    var recorded := AppendDurable(store, EvidenceLineage, writing.report(request, plan, answer.valid));
  }
}
