/** The egress deep scan: admission by one slot, one model lock shared with the ingress scans, a
    worker thread, a deadline, and the rule by which the caller accepts the worker's result. */
module DeepScan {
  import opened Common

  type Finding = string

  datatype Gap = Oversize | Unavailable | Busy | Timeout

  // ---- running the expensive detectors -------------------------------------------------

  /** One detector's behaviour in one scan: whether it is available before and after, and what its
      scan returns; no findings at all means that the scan raised. */
  datatype Detector = Detector(before: bool, found: Option<seq<Finding>>, after: bool)

  predicate Supplies(d: Detector) {
    d.before && d.found.Some? && d.after
  }

  predicate Breaks(d: Detector) {
    d.before && d.found.None?
  }

  ghost function Supplied(ds: seq<Detector>): seq<Finding> {
    if ds == [] then []
    else Supplied(ds[..|ds| - 1]) + (if Supplies(ds[|ds| - 1]) then ds[|ds| - 1].found.value else [])
  }

  /** Exactly the findings of detectors that were available before and after a scan that did not raise. */
  lemma {:induction false} SuppliedExactly(ds: seq<Detector>, x: Finding)
    ensures x in Supplied(ds)
       <==> exists d :: d in ds && d.before && d.after && d.found.Some? && x in d.found.value
  {
    if ds == [] {
    } else {
      SuppliedExactly(ds[..|ds| - 1], x);
      assert forall d :: d in ds <==> d in ds[..|ds| - 1] || d == ds[|ds| - 1];
    }
  }

  /** Runs every available detector in order. A detector that goes unavailable during its scan has
      supplied nothing, however clean its result looks. */
  method RunExpensive(ds: seq<Detector>, before: seq<Finding>)
    returns (found: seq<Finding>, outcome: Result<Option<Gap>, ()>)
    ensures outcome.Err? <==> exists d :: d in ds && d.before && d.found.None?
    ensures outcome.Ok? ==> found == before + Supplied(ds)
    ensures outcome.Ok? ==> forall x :: x in found <==>
              x in before || exists d :: d in ds && d.before && d.after && d.found.Some? && x in d.found.value
    ensures outcome.Ok? ==>
              outcome.value == if exists d :: d in ds && d.before && d.found.Some? && d.after then None
                               else Some(Unavailable)
  {
    found := before;
    var ranAny := false;
    assert before + Supplied(ds[..0]) == before;
    for i := 0 to |ds|
      invariant forall d :: d in ds[..i] ==> !Breaks(d)
      invariant found == before + Supplied(ds[..i])
      invariant ranAny <==> exists d :: d in ds[..i] && Supplies(d)
    {
      var d := ds[i];
      assert ds[..i + 1][..i] == ds[..i] && ds[..i + 1][i] == d;
      if d.before {
        if d.found.None? {
          assert d in ds && Breaks(d);
          return found, Err(());
        }
        if d.after {
          found := found + d.found.value;
          ranAny := true;
        }
      }
    }
    assert ds[..|ds|] == ds;
    forall x { SuppliedExactly(ds, x); }
    outcome := Ok(if ranAny then None else Some(Unavailable));
  }

  // ---- the threads and what they share ---------------------------------------------------

  datatype Verdict = Accepted | Gave(gap: Gap) | Raised

  datatype CallerPc = Created | Admitted | Waiting | Woken | Returned(verdict: Verdict)

  datatype WorkerPc =
    | NotStarted | Entered | Acquiring | HasModel | Checked | Inferring | Stamping
    | LeavingModel(failed: bool) | Failing | Signalling | LeavingSlot | Gone

  /** The handoff object: the worker writes it, the caller reads it. */
  datatype Task = Task(findings: seq<Finding>, outcome: Option<Gap>, error: bool, finishedAt: Option<real>, done: bool)

  const FRESH := Task([], Some(Timeout), false, None, false)

  /** `checkedAt` is the worker's last reading of the clock before it starts inference, and `startedAt`
      the time at which inference started. */
  datatype Egress = Egress(
    deadline: real, cheap: seq<Finding>, findings: seq<Finding>,
    caller: CallerPc, worker: WorkerPc, task: Task, checkedAt: Option<real>, startedAt: Option<real>)

  datatype IngressPc = Queued | Scanning | Left

  datatype Holder = Free | Egressing(id: nat) | Ingressing(id: nat)

  /** `slot` also names the scan that took the semaphore; the semaphore's own value is `slot.Some?`. */
  datatype State = State(
    now: real, slot: Option<nat>, model: Holder, egress: map<nat, Egress>, ingress: map<nat, IngressPc>)

  datatype Action =
    | Tick(elapsed: real)
    | Call(budget: real, cheap: seq<Finding>)
    | Admit | Spawn(starts: bool) | WakeDone | WakeTimeout | Judge
    | Enter | Acquire | GiveUp | Check | Begin | Infer(found: seq<Finding>, outcome: Option<Gap>) | Break
    | Stamp | LeaveModel | RecordError | Signal | LeaveSlot
    | Arrive | TakeModel | Depart

  predicate IsWorkers(a: Action) {
    a.Enter? || a.Acquire? || a.GiveUp? || a.Check? || a.Begin? || a.Infer? || a.Break? || a.Stamp?
    || a.LeaveModel? || a.RecordError? || a.Signal? || a.LeaveSlot?
  }

  predicate IsCallers(a: Action) {
    a.Admit? || a.Spawn? || a.WakeDone? || a.WakeTimeout? || a.Judge?
  }

  predicate WorkersStep(id: nat, step: (nat, Action)) {
    step.0 == id && IsWorkers(step.1)
  }

  predicate CallersStep(id: nat, step: (nat, Action)) {
    step.0 == id && IsCallers(step.1)
  }

  predicate CallerMay(e: Egress, a: Action) {
    match a
    case Admit => e.caller.Created?
    case Spawn(_) => e.caller.Admitted?
    case WakeDone => e.caller.Waiting? && e.task.done
    case WakeTimeout => e.caller.Waiting?
    case Judge => e.caller.Woken?
    case _ => false
  }

  /** The worker's place allows the step. */
  predicate Ready(e: Egress, a: Action) {
    match a
    case Enter => e.worker.Entered?
    case Acquire => e.worker.Acquiring?
    case GiveUp => e.worker.Acquiring?
    case Check => e.worker.HasModel?
    case Begin => e.worker.Checked?
    case Infer(_, _) => e.worker.Inferring?
    case Break => e.worker.Inferring?
    case Stamp => e.worker.Stamping?
    case LeaveModel => e.worker.LeavingModel?
    case RecordError => e.worker.Failing?
    case Signal => e.worker.Signalling?
    case LeaveSlot => e.worker.LeavingSlot?
    case _ => false
  }

  predicate WorkerMay(s: State, e: Egress, a: Action) {
    Ready(e, a) && (a.Acquire? ==> s.model.Free?) && (a.GiveUp? ==> s.now >= e.deadline)
  }

  predicate Enabled(s: State, id: nat, a: Action) {
    if IsCallers(a) then id in s.egress && CallerMay(s.egress[id], a)
    else if IsWorkers(a) then id in s.egress && WorkerMay(s, s.egress[id], a)
    else
      match a
      case Tick(elapsed) => elapsed > 0.0
      case Call(_, _) => id !in s.egress
      case Arrive => id !in s.ingress
      case TakeModel => id in s.ingress && s.ingress[id].Queued? && s.model.Free?
      case Depart => id in s.ingress && s.ingress[id].Scanning?
      case _ => false
  }

  predicate InTime(finishedAt: Option<real>, deadline: real) {
    finishedAt.Some? && finishedAt.value <= deadline
  }

  /** What the caller does with a completed task. */
  function Judged(e: Egress): Egress {
    if e.task.error then e.(caller := Returned(Raised))
    else if e.task.outcome.None? && InTime(e.task.finishedAt, e.deadline) then
      e.(caller := Returned(Accepted), findings := e.findings + e.task.findings)
    else e.(caller := Returned(Gave(if e.task.outcome.Some? then e.task.outcome.value else Timeout)))
  }

  /** What a caller's step makes of its scan. */
  function Called(e: Egress, slotFree: bool, a: Action): Egress {
    match a
    case Admit => e.(caller := if slotFree then Admitted else Returned(Gave(Busy)))
    case Spawn(starts) =>
      if starts then e.(caller := Waiting, worker := Entered) else e.(caller := Returned(Raised))
    case WakeDone => e.(caller := Woken)
    case WakeTimeout => e.(caller := Returned(Gave(Timeout)))
    case Judge => Judged(e)
    case _ => e
  }

  function CallerNext(s: State, id: nat, a: Action): State
    requires id in s.egress && CallerMay(s.egress[id], a)
  {
    s.(slot := if a.Admit? && s.slot.None? then Some(id) else if a == Spawn(false) then None else s.slot,
       egress := s.egress[id := Called(s.egress[id], s.slot.None?, a)])
  }

  /** What a worker's step makes of its scan at a time; it writes the task and its place, and nothing of
      the caller's. */
  function Worked(e: Egress, now: real, a: Action): Egress {
    match a
    case Enter => e.(worker := if e.deadline - now <= 0.0 then Signalling else Acquiring)
    case Acquire => e.(worker := HasModel)
    case GiveUp => e.(worker := Signalling)
    case Check =>
      if now >= e.deadline then e.(worker := LeavingModel(false)) else e.(worker := Checked, checkedAt := Some(now))
    case Begin => e.(worker := Inferring, startedAt := Some(now))
    case Infer(found, outcome) => e.(worker := Stamping, task := e.task.(findings := found, outcome := outcome))
    case Break => e.(worker := LeavingModel(true))
    case Stamp => e.(worker := LeavingModel(false), task := e.task.(finishedAt := Some(now)))
    case LeaveModel => e.(worker := if e.worker == LeavingModel(true) then Failing else Signalling)
    case RecordError => e.(worker := Signalling, task := e.task.(error := true))
    case Signal => e.(worker := LeavingSlot, task := e.task.(done := true))
    case LeaveSlot => e.(worker := Gone)
    case _ => e
  }

  function WorkerNext(s: State, id: nat, a: Action): State
    requires id in s.egress && WorkerMay(s, s.egress[id], a)
  {
    s.(slot := if a.LeaveSlot? then None else s.slot,
       model := if a.Acquire? then Egressing(id) else if a.LeaveModel? then Free else s.model,
       egress := s.egress[id := Worked(s.egress[id], s.now, a)])
  }

  function Next(s: State, id: nat, a: Action): State
    requires Enabled(s, id, a)
  {
    if IsCallers(a) then CallerNext(s, id, a)
    else if IsWorkers(a) then WorkerNext(s, id, a)
    else
      match a
      case Tick(elapsed) => s.(now := s.now + elapsed)
      case Call(budget, cheap) =>
        s.(egress := s.egress[id := Egress(s.now + budget, cheap, cheap, Created, NotStarted, FRESH, None, None)])
      case Arrive => s.(ingress := s.ingress[id := Queued])
      case TakeModel => s.(model := Ingressing(id), ingress := s.ingress[id := Scanning])
      case Depart => s.(model := Free, ingress := s.ingress[id := Left])
  }

  predicate Initial(s: State) {
    s.slot.None? && s.model.Free? && s.egress == map[] && s.ingress == map[]
  }

  ghost predicate Step(s: State, s': State) {
    exists id, a :: Enabled(s, id, a) && s' == Next(s, id, a)
  }

  ghost predicate Run(ss: seq<State>) {
    && ss != [] && Initial(ss[0])
    && forall i :: 0 <= i < |ss| - 1 ==> Step(ss[i], ss[i + 1])
  }

  /** A run that may start anywhere. */
  ghost predicate Path(ss: seq<State>) {
    ss != [] && forall i :: 0 <= i < |ss| - 1 ==> Step(ss[i], ss[i + 1])
  }

  lemma SinglePath(s: State)
    ensures Path([s])
  {
  }

  lemma StepFirst(s: State, ss: seq<State>)
    requires Path(ss) && Step(s, ss[0])
    ensures Path([s] + ss)
  {
    hide Step;
  }

  // ---- what every state of every run satisfies ------------------------------------------------

  predicate Works(w: WorkerPc) {
    !w.NotStarted? && !w.Gone?
  }

  predicate AtModel(w: WorkerPc) {
    w.HasModel? || w.Checked? || w.Inferring? || w.Stamping? || w.LeavingModel?
  }

  /** The scan is answerable for the slot: its caller is about to start the worker, or the worker runs. */
  predicate Owns(e: Egress) {
    e.caller.Admitted? || Works(e.worker)
  }

  /** What one scan's caller, worker and task satisfy on their own. */
  predicate Sound(e: Egress) {
    && (e.caller.Created? || e.caller.Admitted? ==> e.worker.NotStarted?)
    && (e.caller.Waiting? || e.caller.Woken? ==> !e.worker.NotStarted?)
    && (e.task.done <==> e.worker.LeavingSlot? || e.worker.Gone?)
    && (e.caller.Woken? ==> e.task.done)
    && (if e.caller == Returned(Accepted)
        then e.task.done && !e.task.error && e.task.outcome.None? && InTime(e.task.finishedAt, e.deadline)
          && e.findings == e.cheap + e.task.findings
        else e.findings == e.cheap)
  }

  /** A worker reads the clock before its deadline, then starts inference, then finishes it. */
  predicate Timed(e: Egress, now: real) {
    && (e.checkedAt.Some? ==> e.checkedAt.value < e.deadline && e.checkedAt.value <= now)
    && (e.startedAt.Some? ==> e.checkedAt.Some? && e.checkedAt.value <= e.startedAt.value <= now)
    && (e.task.finishedAt.Some? ==> e.startedAt.Some? && e.startedAt.value <= e.task.finishedAt.value <= now)
    && (e.worker.NotStarted? || e.worker.Entered? || e.worker.Acquiring? || e.worker.HasModel? ==> e.checkedAt.None?)
    && (e.checkedAt.None? || e.worker.Checked? ==> e.startedAt.None?)
    && (e.startedAt.None? || e.worker.Inferring? || e.worker.Stamping? ==> e.task.finishedAt.None?)
    && (e.worker.Checked? ==> e.checkedAt.Some?)
    && (e.worker.Inferring? || e.worker.Stamping? ==> e.startedAt.Some?)
  }

  predicate EgressInv(s: State, id: nat)
    requires id in s.egress
  {
    && Sound(s.egress[id]) && Timed(s.egress[id], s.now)
    && (Owns(s.egress[id]) <==> s.slot == Some(id))
    && (AtModel(s.egress[id].worker) <==> s.model == Egressing(id))
  }

  ghost predicate Inv(s: State) {
    && (forall id :: id in s.egress ==> EgressInv(s, id))
    && (forall id :: id in s.ingress ==> (s.ingress[id].Scanning? <==> s.model == Ingressing(id)))
    && (s.slot.Some? ==> s.slot.value in s.egress)
    && (s.model.Egressing? ==> s.model.id in s.egress)
    && (s.model.Ingressing? ==> s.model.id in s.ingress)
  }

  lemma CalledStaysSound(e: Egress, slotFree: bool, a: Action)
    requires Sound(e) && CallerMay(e, a)
    ensures Sound(Called(e, slotFree, a))
    ensures forall now :: Timed(e, now) ==> Timed(Called(e, slotFree, a), now)
    ensures AtModel(Called(e, slotFree, a).worker) == AtModel(e.worker)
    ensures Owns(Called(e, slotFree, a)) == if a.Admit? then slotFree else Owns(e) && a != Spawn(false)
  {
  }

  lemma WorkedStaysSound(e: Egress, now: real, a: Action)
    requires Sound(e) && Ready(e, a)
    ensures Sound(Worked(e, now, a))
    ensures Owns(Worked(e, now, a)) == !a.LeaveSlot?
    ensures AtModel(Worked(e, now, a).worker) == (a.Acquire? || (AtModel(e.worker) && !a.LeaveModel?))
  {
  }

  lemma WorkedStaysTimed(e: Egress, now: real, a: Action)
    requires Timed(e, now) && Ready(e, a)
    ensures Timed(Worked(e, now, a), now)
  {
  }

  lemma CallerKeepsInv(s: State, id: nat, a: Action)
    requires Inv(s) && id in s.egress && CallerMay(s.egress[id], a)
    ensures EgressInv(CallerNext(s, id, a), id)
    ensures CallerNext(s, id, a).model == s.model
    ensures forall y :: y != id ==> (CallerNext(s, id, a).slot == Some(y) <==> s.slot == Some(y))
  {
    assert EgressInv(s, id);
    assert !s.egress[id].worker.Gone? || !s.egress[id].caller.Admitted?;
    assert s.egress[id].caller.Created? || s.egress[id].caller.Admitted? ==> s.egress[id].worker.NotStarted?;
    assert a.Admit? || a.Spawn? ==> s.egress[id].worker.NotStarted?;
    CalledStaysSound(s.egress[id], s.slot.None?, a);
    hide Called, Sound, Timed, Inv;
  }

  lemma WorkerKeepsInv(s: State, id: nat, a: Action)
    requires Inv(s) && id in s.egress && WorkerMay(s, s.egress[id], a)
    ensures EgressInv(WorkerNext(s, id, a), id)
  {
    assert EgressInv(s, id);
    WorkedStaysSound(s.egress[id], s.now, a);
    WorkedStaysTimed(s.egress[id], s.now, a);
    hide Worked, Sound, Timed, Inv;
  }

  lemma WorkerMovesOnlyItsOwn(s: State, id: nat, a: Action)
    requires Inv(s) && id in s.egress && WorkerMay(s, s.egress[id], a)
    ensures forall y :: y != id ==> (WorkerNext(s, id, a).slot == Some(y) <==> s.slot == Some(y))
    ensures forall y :: y != id ==> (WorkerNext(s, id, a).model == Egressing(y) <==> s.model == Egressing(y))
    ensures forall y :: WorkerNext(s, id, a).model == Ingressing(y) <==> s.model == Ingressing(y)
    ensures WorkerNext(s, id, a).ingress == s.ingress
    ensures WorkerNext(s, id, a).egress == s.egress[id := WorkerNext(s, id, a).egress[id]]
  {
    assert EgressInv(s, id);
  }

  lemma CallerStepKeepsInv(s: State, id: nat, a: Action)
    requires Inv(s) && id in s.egress && CallerMay(s.egress[id], a)
    ensures Inv(CallerNext(s, id, a))
  {
    CallerKeepsInv(s, id, a);
    var s' := CallerNext(s, id, a);
    assert s'.egress == s.egress[id := s'.egress[id]] && s'.ingress == s.ingress;
    forall x | x in s'.egress && x != id ensures EgressInv(s', x) {
      assert EgressInv(s, x);
    }
    hide CallerNext, CallerMay, Sound;
  }

  lemma WorkerStepKeepsInv(s: State, id: nat, a: Action)
    requires Inv(s) && id in s.egress && WorkerMay(s, s.egress[id], a)
    ensures Inv(WorkerNext(s, id, a))
  {
    WorkerKeepsInv(s, id, a);
    WorkerMovesOnlyItsOwn(s, id, a);
    hide WorkerNext, WorkerMay, Sound;
    var s' := WorkerNext(s, id, a);
    forall x | x in s'.egress && x != id ensures EgressInv(s', x) {
      assert EgressInv(s, x);
    }
    assert forall y :: s'.slot == Some(y) ==> y == id || s.slot == Some(y);
    assert forall y :: s'.model == Egressing(y) ==> y == id || s.model == Egressing(y);
  }

  lemma NextKeepsInv(s: State, id: nat, a: Action)
    requires Inv(s) && Enabled(s, id, a)
    ensures Inv(Next(s, id, a))
  {
    if IsCallers(a) {
      CallerStepKeepsInv(s, id, a);
    } else if IsWorkers(a) {
      WorkerStepKeepsInv(s, id, a);
    } else {
      hide Sound, CallerMay, WorkerMay, CallerNext, WorkerNext;
      var s' := Next(s, id, a);
      forall x | x in s'.egress ensures EgressInv(s', x) {
        if x in s.egress {
          assert EgressInv(s, x);
        } else {
          FreshIsSound(s, id, a);
        }
      }
    }
  }

  lemma FreshIsSound(s: State, id: nat, a: Action)
    requires Inv(s) && Enabled(s, id, a) && a.Call?
    ensures EgressInv(Next(s, id, a), id)
  {
  }

  lemma {:induction false} RunKeepsInv(ss: seq<State>, i: nat)
    requires Run(ss) && i < |ss|
    ensures Inv(ss[i])
  {
    if i == 0 {
    } else {
      RunKeepsInv(ss, i - 1);
      assert Step(ss[i - 1], ss[i - 1 + 1]);
      var id, a :| Enabled(ss[i - 1], id, a) && ss[i] == Next(ss[i - 1], id, a);
      NextKeepsInv(ss[i - 1], id, a);
    }
  }

  // ---- what one thread's steps leave to the others ----------------------------------------------

  /** What the worker and its task look like, apart from its caller. */
  predicate SameWork(e: Egress, e': Egress) {
    e'.worker == e.worker && e'.task == e.task && e'.deadline == e.deadline
    && e'.checkedAt == e.checkedAt && e'.startedAt == e.startedAt
  }

  /** What the caller of a scan sees of itself. */
  predicate SameCall(e: Egress, e': Egress) {
    e'.caller == e.caller && e'.findings == e.findings && e'.cheap == e.cheap && e'.deadline == e.deadline
  }

  lemma WorkedKeepsCall(e: Egress, now: real, a: Action)
    ensures SameCall(e, Worked(e, now, a))
  {
  }

  lemma CalledKeepsWork(e: Egress, slotFree: bool, a: Action)
    requires Sound(e) && CallerMay(e, a) && !e.worker.NotStarted?
    ensures SameWork(e, Called(e, slotFree, a))
  {
  }

  /** Nobody else moves a started worker or touches its task. */
  lemma OthersLeaveWorkAlone(s: State, id: nat, a: Action, x: nat)
    requires Inv(s) && Enabled(s, id, a) && x in s.egress && !s.egress[x].worker.NotStarted? && !WorkersStep(x, (id, a))
    ensures x in Next(s, id, a).egress && SameWork(s.egress[x], Next(s, id, a).egress[x])
  {
    if IsCallers(a) && id == x {
      assert EgressInv(s, x);
      CalledKeepsWork(s.egress[x], s.slot.None?, a);
    }
    hide Inv, Called, Worked, Sound, Timed;
  }

  /** Nobody else moves a caller or touches its findings. */
  lemma OthersLeaveCallsAlone(s: State, id: nat, a: Action, x: nat)
    requires Enabled(s, id, a) && x in s.egress && !CallersStep(x, (id, a))
    ensures x in Next(s, id, a).egress && SameCall(s.egress[x], Next(s, id, a).egress[x])
  {
    if IsWorkers(a) && id == x {
      WorkedKeepsCall(s.egress[x], s.now, a);
    }
    hide Called, Worked;
  }

  // ---- safety -------------------------------------------------------------------------------------

  predicate Infers(s: State, h: Holder) {
    match h
    case Free => false
    case Egressing(id) => id in s.egress && s.egress[id].worker.Inferring?
    case Ingressing(id) => id in s.ingress && s.ingress[id].Scanning?
  }

  /** In every state of every run the slot is taken exactly while one scan answers for it, at most
      one thread runs inference, and that thread last read the clock before its deadline. */
  lemma SlotAndModelAreExclusive(ss: seq<State>, i: nat, x: nat, h: Holder, h': Holder)
    requires Run(ss) && i < |ss|
    ensures ss[i].slot.Some? <==> exists id :: id in ss[i].egress && Owns(ss[i].egress[id])
    ensures x in ss[i].egress && Owns(ss[i].egress[x]) ==> ss[i].slot == Some(x)
    ensures Infers(ss[i], h) && Infers(ss[i], h') ==> h == h'
    ensures x in ss[i].egress && ss[i].egress[x].worker.Inferring?
      ==> ss[i].egress[x].checkedAt.Some? && ss[i].egress[x].checkedAt.value < ss[i].egress[x].deadline
  {
    RunKeepsInv(ss, i);
    assert x in ss[i].egress ==> EgressInv(ss[i], x);
    assert ss[i].slot.Some? ==> EgressInv(ss[i], ss[i].slot.value);
    assert h.Egressing? && h.id in ss[i].egress ==> EgressInv(ss[i], h.id);
    assert h'.Egressing? && h'.id in ss[i].egress ==> EgressInv(ss[i], h'.id);
    if exists id :: id in ss[i].egress && Owns(ss[i].egress[id]) {
      var id :| id in ss[i].egress && Owns(ss[i].egress[id]);
      assert EgressInv(ss[i], id);
    }
  }

  /** What a caller whose wait reported completion must report, and the findings it must have. */
  predicate Decided(before: seq<Finding>, e: Egress) {
    var t := e.task;
    && t.done
    && (e.caller == Returned(Accepted) <==> !t.error && t.outcome.None? && InTime(t.finishedAt, e.deadline))
    && (e.caller == Returned(Raised) <==> t.error)
    && (!t.error && t.outcome.Some? ==> e.caller == Returned(Gave(t.outcome.value)))
    && (!t.error && t.outcome.None? && !InTime(t.finishedAt, e.deadline) ==> e.caller == Returned(Gave(Timeout)))
    && e.findings == before + (if e.caller == Returned(Accepted) then t.findings else [])
  }

  const HELD_UP := Egress(1.0, [], [], Waiting, Checked, FRESH, Some(0.0), None)

  /** A worker held up for two seconds after it read the clock starts inference past its deadline. */
  lemma LateStartIsPossible() returns (ss: seq<State>)
    ensures Run(ss)
    ensures ss[|ss| - 1].egress == map[0 := HELD_UP.(worker := Inferring, startedAt := Some(2.0))]
    ensures 2.0 > HELD_UP.deadline
  {
    ss := ReadsTheClock();
    var s := ss[|ss| - 1];
    ss := Then(ss, 0, Tick(2.0), s.(now := 2.0));
    var late := HELD_UP.(worker := Inferring, startedAt := Some(2.0));
    ss := Then(ss, 0, Begin, s.(now := 2.0, egress := map[0 := late]));
  }

  lemma ReadsTheClock() returns (ss: seq<State>)
    ensures Run(ss) && ss[|ss| - 1] == State(0.0, Some(0), Egressing(0), map[0 := HELD_UP], map[])
  {
    ss := EntersAlone();
    var s := ss[|ss| - 1].(model := Egressing(0));
    ss := Then(ss, 0, Acquire, s.(egress := map[0 := HELD_UP.(worker := HasModel, checkedAt := None)]));
    ss := Then(ss, 0, Check, s.(egress := map[0 := HELD_UP]));
  }

  lemma EntersAlone() returns (ss: seq<State>)
    ensures Run(ss)
    ensures ss[|ss| - 1]
         == State(0.0, Some(0), Free, map[0 := HELD_UP.(worker := Acquiring, checkedAt := None)], map[])
  {
    ss := IsAdmittedAlone();
    var s := ss[|ss| - 1];
    var e := HELD_UP.(worker := Entered, checkedAt := None);
    ss := Then(ss, 0, Spawn(true), s.(egress := map[0 := e]));
    ss := Then(ss, 0, Enter, s.(egress := map[0 := e.(worker := Acquiring)]));
  }

  lemma IsAdmittedAlone() returns (ss: seq<State>)
    ensures Run(ss)
    ensures var e := HELD_UP.(caller := Admitted, worker := NotStarted, checkedAt := None);
            ss[|ss| - 1] == State(0.0, Some(0), Free, map[0 := e], map[])
  {
    var s := State(0.0, None, Free, map[], map[]);
    var e := HELD_UP.(caller := Created, worker := NotStarted, checkedAt := None);
    ss := Then([s], 0, Call(1.0, []), s.(egress := map[0 := e]));
    ss := Then(ss, 0, Admit, s.(slot := Some(0), egress := map[0 := e.(caller := Admitted)]));
  }

  lemma Then(ss: seq<State>, id: nat, a: Action, next: State) returns (longer: seq<State>)
    requires Run(ss) && Enabled(ss[|ss| - 1], id, a) && Next(ss[|ss| - 1], id, a) == next
    ensures Run(longer) && longer[|longer| - 1] == next
  {
    longer := ss + [next];
    hide Enabled, Next;
  }

  /** Late work is never used: in every state of every run, an accepted task's inference began after a
      timely reading of the clock and both started and finished by the deadline. */
  lemma LateWorkIsNeverAccepted(ss: seq<State>, i: nat, x: nat)
    requires Run(ss) && i < |ss| && x in ss[i].egress && ss[i].egress[x].caller == Returned(Accepted)
    ensures var e := ss[i].egress[x];
            && e.checkedAt.Some? && e.startedAt.Some? && e.task.finishedAt.Some?
            && e.checkedAt.value < e.deadline
            && e.checkedAt.value <= e.startedAt.value <= e.task.finishedAt.value <= e.deadline
  {
    RunKeepsInv(ss, i);
    assert EgressInv(ss[i], x);
  }

  /** The caller's judgement, both ways: it accepts exactly a task free of error and without a gap that
      finished by the deadline, raises exactly a failed one, and otherwise reports the gap, or a timeout
      when there is none. */
  lemma JudgementIsExact(ss: seq<State>, i: nat, x: nat)
    requires Run(ss) && i < |ss| && Enabled(ss[i], x, Judge)
    ensures Decided(ss[i].egress[x].cheap, Next(ss[i], x, Judge).egress[x])
  {
    RunKeepsInv(ss, i);
    assert EgressInv(ss[i], x);
  }

  /** A caller's findings change in one way only: it accepts a task that is complete, free of error,
      without a gap and finished by the deadline, and it returns at once. */
  lemma FindingsChangeOnlyByAcceptance(ss: seq<State>, i: nat, x: nat, id: nat, a: Action)
    requires Run(ss) && i < |ss| && Enabled(ss[i], id, a) && x in ss[i].egress
    requires Next(ss[i], id, a).egress[x].findings != ss[i].egress[x].findings
    ensures a.Judge? && x == id && ss[i].egress[x].caller.Woken?
    ensures var e := ss[i].egress[x];
      && e.task.done && !e.task.error && e.task.outcome.None? && InTime(e.task.finishedAt, e.deadline)
      && Next(ss[i], id, a).egress[x] == e.(caller := Returned(Accepted), findings := e.cheap + e.task.findings)
  {
    RunKeepsInv(ss, i);
    assert EgressInv(ss[i], x);
  }

  lemma ReturnedStays(s: State, id: nat, a: Action, x: nat)
    requires Enabled(s, id, a) && x in s.egress && s.egress[x].caller.Returned?
    ensures x in Next(s, id, a).egress && Next(s, id, a).egress[x].caller == s.egress[x].caller
    ensures Next(s, id, a).egress[x].findings == s.egress[x].findings
  {
    OthersLeaveCallsAlone(s, id, a, x);
    hide Next;
  }

  lemma {:induction false} ReturnedStaysInRun(ss: seq<State>, i: nat, k: nat, x: nat)
    requires Run(ss) && i <= k < |ss| && x in ss[i].egress && ss[i].egress[x].caller.Returned?
    ensures x in ss[k].egress && ss[k].egress[x].caller == ss[i].egress[x].caller
    ensures ss[k].egress[x].findings == ss[i].egress[x].findings
  {
    hide Enabled, Next;
    if i == k {
    } else {
      ReturnedStaysInRun(ss, i, k - 1, x);
      assert Step(ss[k - 1], ss[k - 1 + 1]);
      var id, a :| Enabled(ss[k - 1], id, a) && ss[k] == Next(ss[k - 1], id, a);
      ReturnedStays(ss[k - 1], id, a, x);
    }
  }

  /** Whatever its worker does later, a caller that returned keeps its verdict and its findings, and
      a verdict other than acceptance left the findings as the cheap detectors made them. */
  lemma ReturnedIsFinal(ss: seq<State>, i: nat, k: nat, x: nat)
    requires Run(ss) && i <= k < |ss| && x in ss[i].egress && ss[i].egress[x].caller.Returned?
    ensures x in ss[k].egress && ss[k].egress[x].caller == ss[i].egress[x].caller
    ensures ss[k].egress[x].findings == ss[i].egress[x].findings
    ensures ss[i].egress[x].caller != Returned(Accepted) ==> ss[k].egress[x].findings == ss[i].egress[x].cheap
  {
    ReturnedStaysInRun(ss, i, k, x);
    RunKeepsInv(ss, i);
    assert EgressInv(ss[i], x);
    hide Run, Inv;
  }

  // ---- the slot comes back --------------------------------------------------------------------------

  /** An upper bound on the steps a worker still takes. */
  function StepsLeft(w: WorkerPc): nat {
    match w
    case NotStarted => 11
    case Entered => 10
    case Acquiring => 9
    case HasModel => 8
    case Checked => 7
    case Inferring => 6
    case Stamping => 5
    case LeavingModel(_) => 4
    case Failing => 3
    case Signalling => 2
    case LeavingSlot => 1
    case Gone => 0
  }

  /** Each step of a worker brings it closer to its end. */
  lemma WorkersAdvance(e: Egress, now: real, a: Action)
    requires Ready(e, a)
    ensures StepsLeft(Worked(e, now, a).worker) < StepsLeft(e.worker)
    ensures Worked(e, now, a).deadline == e.deadline && !Worked(e, now, a).worker.NotStarted?
    ensures a.LeaveSlot? <==> !Works(Worked(e, now, a).worker)
  {
  }

  /** A run together with the steps it takes. */
  ghost predicate Traced(ss: seq<State>, steps: seq<(nat, Action)>) {
    && |ss| == |steps| + 1
    && forall i :: 0 <= i < |steps| ==>
          Enabled(ss[i], steps[i].0, steps[i].1) && ss[i + 1] == Next(ss[i], steps[i].0, steps[i].1)
  }

  function OwnSteps(steps: seq<(nat, Action)>, x: nat): nat {
    if steps == [] then 0
    else OwnSteps(steps[..|steps| - 1], x) + if WorkersStep(x, steps[|steps| - 1]) then 1 else 0
  }

  /** However its steps interleave with all others, a started worker takes at most ten: each brings it
      closer to its end, where it no longer answers for the slot. */
  lemma {:induction false} OwnStepsAreBounded(ss: seq<State>, steps: seq<(nat, Action)>, x: nat)
    requires Traced(ss, steps) && Inv(ss[0]) && x in ss[0].egress && !ss[0].egress[x].worker.NotStarted?
    ensures var last := ss[|steps|];
      && Inv(last) && x in last.egress && !last.egress[x].worker.NotStarted?
      && OwnSteps(steps, x) + StepsLeft(last.egress[x].worker) <= StepsLeft(ss[0].egress[x].worker) <= 10
      && (last.egress[x].worker.Gone? ==> last.slot != Some(x))
    decreases |steps|
  {
    hide Enabled, Next;
    var n := |steps|;
    if n == 0 {
    } else {
      OwnStepsAreBounded(ss[..n], steps[..n - 1], x);
      var (id, a) := steps[n - 1];
      assert ss[..n][n - 1] == ss[n - 1];
      NextKeepsInv(ss[n - 1], id, a);
      OneStepCloser(ss[n - 1], id, a, x);
    }
    assert EgressInv(ss[n], x);
  }

  lemma OneStepCloser(s: State, id: nat, a: Action, x: nat)
    requires Inv(s) && Enabled(s, id, a) && x in s.egress && !s.egress[x].worker.NotStarted?
    ensures var t := Next(s, id, a);
      && x in t.egress && !t.egress[x].worker.NotStarted?
      && StepsLeft(t.egress[x].worker) <= StepsLeft(s.egress[x].worker) - if WorkersStep(x, (id, a)) then 1 else 0
  {
    if WorkersStep(x, (id, a)) {
      WorkersAdvance(s.egress[x], s.now, a);
      hide Inv, Worked, StepsLeft;
    } else {
      OthersLeaveWorkAlone(s, id, a, x);
      hide Next, Inv, Enabled;
    }
  }

  // ---- when inference begins ---------------------------------------------------------------------------

  /** The time the steps of a trace let pass. */
  function Elapsed(steps: seq<(nat, Action)>): real {
    if steps == [] then 0.0
    else
      var last := steps[|steps| - 1].1;
      Elapsed(steps[..|steps| - 1]) + if last.Tick? then last.elapsed else 0.0
  }

  lemma OnlyTicksMoveTheClock(s: State, id: nat, a: Action)
    requires Enabled(s, id, a)
    ensures Next(s, id, a).now == s.now + if a.Tick? then a.elapsed else 0.0
  {
  }

  /** The clock shows what has passed. */
  lemma {:induction false} ClockShowsElapsed(ss: seq<State>, steps: seq<(nat, Action)>, j: nat, i: nat)
    requires Traced(ss, steps) && j <= i <= |steps|
    ensures ss[i].now == ss[j].now + Elapsed(steps[j..i])
  {
    if j == i {
      assert steps[j..i] == [];
    } else {
      ClockShowsElapsed(ss, steps, j, i - 1);
      assert steps[j..i][..i - 1 - j] == steps[j..i - 1] && steps[j..i][i - 1 - j] == steps[i - 1];
      var (id, a) := steps[i - 1];
      assert ss[i - 1 + 1] == Next(ss[i - 1], id, a);
      OnlyTicksMoveTheClock(ss[i - 1], id, a);
      hide Enabled, Next;
    }
  }

  predicate IsChecked(s: State, x: nat) {
    x in s.egress && s.egress[x].worker.Checked?
  }

  predicate IsInferring(s: State, x: nat) {
    x in s.egress && s.egress[x].worker.Inferring?
  }

  lemma OnlyACheckChecks(e: Egress, slotFree: bool, now: real, a: Action)
    ensures Called(e, slotFree, a).worker.Checked? ==> e.worker.Checked?
    ensures Called(e, slotFree, a).deadline == e.deadline == Worked(e, now, a).deadline
    ensures Worked(e, now, a).worker.Checked? && !e.worker.Checked? ==> a.Check? && now < e.deadline
  {
  }

  /** A worker comes to be past its check only by a check that found it in time. */
  lemma BecomesChecked(s: State, id: nat, a: Action, x: nat)
    requires Enabled(s, id, a) && IsChecked(Next(s, id, a), x) && !IsChecked(s, x)
    ensures id == x && a.Check? && x in s.egress && s.now < s.egress[x].deadline
    ensures Next(s, id, a).egress[x].deadline == s.egress[x].deadline
  {
    if id in s.egress {
      OnlyACheckChecks(s.egress[id], s.slot.None?, s.now, a);
    }
    hide Called, Worked, Ready, CallerMay;
  }

  lemma StaysChecked(s: State, id: nat, a: Action, x: nat)
    requires Enabled(s, id, a) && IsChecked(Next(s, id, a), x) && IsChecked(s, x)
    ensures Next(s, id, a).egress[x].deadline == s.egress[x].deadline
  {
    if id in s.egress {
      OnlyACheckChecks(s.egress[id], s.slot.None?, s.now, a);
    }
    hide Called, Worked, Ready, CallerMay;
  }

  lemma BeginsFromChecked(s: State, id: nat, a: Action, x: nat)
    requires Inv(s) && Enabled(s, id, a) && IsInferring(Next(s, id, a), x) && !IsInferring(s, x)
    ensures id == x && a.Begin? && IsChecked(s, x) && s.model == Egressing(x)
  {
    if x in s.egress {
      assert EgressInv(s, x);
    }
  }

  /** Step j is the worker's check, which found it in time, and from there to i it stays checked. */
  ghost predicate CheckedSince(ss: seq<State>, steps: seq<(nat, Action)>, j: nat, i: nat, x: nat)
    requires Traced(ss, steps) && i <= |steps|
  {
    && j < i && steps[j] == (x, Check) && x in ss[j].egress && ss[j].now < ss[j].egress[x].deadline
    && forall k :: j < k <= i ==> IsChecked(ss[k], x) && ss[k].egress[x].deadline == ss[j].egress[x].deadline
  }

  lemma {:induction false} FindCheck(ss: seq<State>, steps: seq<(nat, Action)>, i: nat, x: nat) returns (j: nat)
    requires Traced(ss, steps) && Initial(ss[0]) && i <= |steps| && IsChecked(ss[i], x)
    ensures CheckedSince(ss, steps, j, i, x)
  {
    assert i > 0;
    var (id, a) := steps[i - 1];
    assert ss[i - 1 + 1] == Next(ss[i - 1], id, a);
    if IsChecked(ss[i - 1], x) {
      j := FindCheck(ss, steps, i - 1, x);
      StaysChecked(ss[i - 1], id, a, x);
    } else {
      j := i - 1;
      BecomesChecked(ss[i - 1], id, a, x);
    }
    hide Enabled, Next;
  }

  lemma {:induction false} TraceKeepsInv(ss: seq<State>, steps: seq<(nat, Action)>, i: nat)
    requires Traced(ss, steps) && Initial(ss[0]) && i <= |steps|
    ensures Inv(ss[i])
  {
    if i == 0 {
    } else {
      TraceKeepsInv(ss, steps, i - 1);
      assert ss[i - 1 + 1] == Next(ss[i - 1], steps[i - 1].0, steps[i - 1].1);
      NextKeepsInv(ss[i - 1], steps[i - 1].0, steps[i - 1].1);
    }
  }

  /** Whenever a worker begins inference it holds the model lock and made, earlier in the run, a check that
      found it in time; it begins late exactly when the steps since that check let at least the time pass
      that the check had left. */
  lemma BeginsAfterTimelyCheck(ss: seq<State>, steps: seq<(nat, Action)>, i: nat, x: nat) returns (j: nat)
    requires Traced(ss, steps) && Initial(ss[0]) && i < |steps| && !IsInferring(ss[i], x) && IsInferring(ss[i + 1], x)
    ensures steps[i] == (x, Begin) && ss[i].model == Egressing(x)
    ensures CheckedSince(ss, steps, j, i, x)
    ensures ss[i].now >= ss[i].egress[x].deadline <==> Elapsed(steps[j + 1..i]) >= ss[j].egress[x].deadline - ss[j].now
  {
    TraceKeepsInv(ss, steps, i);
    assert ss[i + 1] == Next(ss[i], steps[i].0, steps[i].1);
    BeginsFromChecked(ss[i], steps[i].0, steps[i].1, x);
    j := FindCheck(ss, steps, i, x);
    assert ss[j + 1] == Next(ss[j], x, Check);
    OnlyTicksMoveTheClock(ss[j], x, Check);
    ClockShowsElapsed(ss, steps, j + 1, i);
    hide Enabled, Next, Inv, Initial, Elapsed;
  }

  /** A worker is never stuck, except behind the model lock before its deadline. */
  lemma WorkersCanMove(s: State, x: nat) returns (a: Action)
    requires Inv(s) && x in s.egress && Works(s.egress[x].worker)
    requires s.egress[x].worker.Acquiring? && !s.model.Free? ==> s.now >= s.egress[x].deadline
    ensures IsWorkers(a) && Enabled(s, x, a)
  {
    match s.egress[x].worker
    case Entered => a := Enter;
    case Acquiring => a := if s.model.Free? then Acquire else GiveUp;
    case HasModel => a := Check;
    case Checked => a := Begin;
    case Inferring => a := Infer([], None);
    case Stamping => a := Stamp;
    case LeavingModel(_) => a := LeaveModel;
    case Failing => a := RecordError;
    case Signalling => a := Signal;
    case LeavingSlot => a := LeaveSlot;
  }

  lemma OwnStep(s: State, x: nat, a: Action)
    requires Inv(s) && IsWorkers(a) && Enabled(s, x, a)
    ensures var t := Next(s, x, a);
            && Step(s, t) && Inv(t) && t.now == s.now && x in t.egress
            && t.egress[x].deadline == s.egress[x].deadline
            && StepsLeft(t.egress[x].worker) < StepsLeft(s.egress[x].worker)
            && (Works(t.egress[x].worker) || (t.egress[x].worker.Gone? && t.slot.None?))
  {
    NextKeepsInv(s, x, a);
    WorkersAdvance(s.egress[x], s.now, a);
    hide Inv, Worked, StepsLeft;
  }

  /** From every reachable state, once the deadline has passed, at most ten steps of the worker alone
      free the slot; the clock may have to be waited for, never another thread. */
  lemma {:induction false} WorkerFreesSlot(s: State, x: nat) returns (ss: seq<State>)
    requires Inv(s) && x in s.egress && Works(s.egress[x].worker) && s.now >= s.egress[x].deadline
    ensures 1 < |ss| <= 1 + StepsLeft(s.egress[x].worker) && ss[0] == s
    ensures Path(ss)
    ensures ss[|ss| - 1].slot.None? && x in ss[|ss| - 1].egress && ss[|ss| - 1].egress[x].worker.Gone?
    decreases StepsLeft(s.egress[x].worker)
  {
    var a := WorkersCanMove(s, x);
    var t := Next(s, x, a);
    OwnStep(s, x, a);
    hide Next, Inv, Enabled, Step, StepsLeft, Path;
    var rest := [t];
    SinglePath(t);
    if Works(t.egress[x].worker) {
      rest := WorkerFreesSlot(t, x);
    }
    StepFirst(s, rest);
    ss := [s] + rest;
  }

  // ---- the threads' own code -------------------------------------------------------------------------

  /** What one thread meets between two of its steps: steps of other threads and of the clock. */
  type Schedule = seq<(nat, Action)>

  /** A step, if it can be taken. */
  function Acts(s: State, step: (nat, Action)): State {
    if Enabled(s, step.0, step.1) then Next(s, step.0, step.1) else s
  }

  /** Where a schedule leads; a step that cannot be taken is passed over. */
  function After(s: State, others: Schedule): State
    decreases |others|
  {
    if others == [] then s else After(Acts(s, others[0]), others[1..])
  }

  lemma AfterNothing(s: State)
    ensures After(s, []) == s
  {
  }

  /** No other thread and no time comes between. */
  predicate Undisturbed(others: seq<Schedule>) {
    forall i :: 0 <= i < |others| ==> others[i] == []
  }

  /** What the detectors do when the worker runs them. */
  datatype Scan = Scans(found: seq<Finding>, outcome: Option<Gap>) | ScanRaises

  /** The task of a worker that has left the model: untouched unless the detectors were run, after a
      reading of the clock before the deadline; then it has their error, once it is caught, or their
      stamped result. */
  predicate Recorded(e: Egress, scan: Scan, caught: bool, done: bool) {
    && (e.startedAt.Some? ==> e.checkedAt.Some? && e.checkedAt.value < e.deadline)
    && (e.startedAt.Some? && scan.Scans? ==> e.task.finishedAt.Some?)
    && e.task == (
      if e.startedAt.None? then FRESH.(done := done)
      else if scan.ScanRaises? then FRESH.(error := caught, done := done)
      else Task(scan.found, scan.outcome, false, e.task.finishedAt, done))
  }

  /** A worker's steps from its entry into inference, and from its result to its end. */
  function UpToInference(id: nat): Schedule {
    [(id, Enter), (id, Acquire), (id, Check), (id, Begin)]
  }

  function FromResult(id: nat, found: seq<Finding>): Schedule {
    [(id, Infer(found, None)), (id, Stamp), (id, LeaveModel), (id, Signal), (id, LeaveSlot)]
  }

  lemma {:induction false} AfterBoth(s: State, first: Schedule, second: Schedule)
    ensures After(s, first + second) == After(After(s, first), second)
    decreases |first|
  {
    hide Acts;
    if first == [] {
      assert first + second == second;
    } else {
      AfterBoth(Acts(s, first[0]), first[1..], second);
      assert (first + second)[1..] == first[1..] + second;
    }
  }

  lemma OwnStepFirst(s: State, id: nat, a: Action, rest: Schedule) returns (t: State)
    requires id in s.egress && IsWorkers(a) && WorkerMay(s, s.egress[id], a)
    ensures After(s, [(id, a)] + rest) == After(t, rest)
    ensures t.now == s.now && id in t.egress && t.egress[id] == Worked(s.egress[id], s.now, a)
    ensures !a.Acquire? && s.model.Free? ==> t.model.Free?
  {
    t := WorkerNext(s, id, a);
    assert ([(id, a)] + rest)[1..] == rest;
    hide Worked, Ready, CallerMay;
  }

  lemma ReachesInference(s: State, id: nat)
    requires id in s.egress && s.egress[id].worker.Entered? && s.model.Free? && s.now < s.egress[id].deadline
    ensures var t := After(s, UpToInference(id));
            && t.now == s.now && id in t.egress
            && t.egress[id] == s.egress[id].(worker := Inferring, checkedAt := Some(s.now), startedAt := Some(s.now))
  {
    hide After;
    var t := OwnStepFirst(s, id, Enter, [(id, Acquire), (id, Check), (id, Begin)]);
    t := OwnStepFirst(t, id, Acquire, [(id, Check), (id, Begin)]);
    t := OwnStepFirst(t, id, Check, [(id, Begin)]);
    t := OwnStepFirst(t, id, Begin, []);
    AfterNothing(t);
    assert UpToInference(id) == [(id, Enter)] + [(id, Acquire), (id, Check), (id, Begin)];
    assert [(id, Acquire), (id, Check), (id, Begin)] == [(id, Acquire)] + [(id, Check), (id, Begin)];
    assert [(id, Check), (id, Begin)] == [(id, Check)] + [(id, Begin)] && [(id, Begin)] == [(id, Begin)] + [];
  }

  lemma EndsWithResult(s: State, id: nat, found: seq<Finding>)
    requires id in s.egress && s.egress[id].worker.Inferring? && !s.egress[id].task.error
    ensures var t := After(s, FromResult(id, found));
            && id in t.egress
            && t.egress[id] == s.egress[id].(worker := Gone, task := Task(found, None, false, Some(s.now), true))
  {
    hide After;
    var stamps := [(id, Stamp), (id, LeaveModel)] + [(id, Signal), (id, LeaveSlot)];
    var t := OwnStepFirst(s, id, Infer(found, None), stamps);
    t := OwnStepFirst(t, id, Stamp, [(id, LeaveModel)] + [(id, Signal), (id, LeaveSlot)]);
    t := OwnStepFirst(t, id, LeaveModel, [(id, Signal), (id, LeaveSlot)]);
    t := OwnStepFirst(t, id, Signal, [(id, LeaveSlot)]);
    t := OwnStepFirst(t, id, LeaveSlot, []);
    AfterNothing(t);
    assert FromResult(id, found) == [(id, Infer(found, None))] + stamps;
    assert stamps == [(id, Stamp)] + ([(id, LeaveModel)] + [(id, Signal), (id, LeaveSlot)]);
    assert [(id, Signal), (id, LeaveSlot)] == [(id, Signal)] + [(id, LeaveSlot)];
    assert [(id, LeaveSlot)] == [(id, LeaveSlot)] + [];
  }

  /** Alone with a free model and time left, a worker completes its task in time. */
  lemma WorksAlone(s: State, id: nat, found: seq<Finding>)
    requires id in s.egress && s.egress[id].worker.Entered? && s.egress[id].task == FRESH
    requires s.model.Free? && s.now < s.egress[id].deadline
    ensures var t := After(s, UpToInference(id) + FromResult(id, found));
            && id in t.egress && t.egress[id].task == Task(found, None, false, Some(s.now), true)
            && t.egress[id].deadline == s.egress[id].deadline && t.egress[id].caller == s.egress[id].caller
            && t.egress[id].findings == s.egress[id].findings
  {
    ReachesInference(s, id);
    EndsWithResult(After(s, UpToInference(id)), id, found);
    AfterBoth(s, UpToInference(id), FromResult(id, found));
    hide After, UpToInference, FromResult;
  }

  /** The slot and the model are free, there is time, and while the caller waits its worker alone takes its
      steps; the detectors return these findings. */
  predicate WorksMeanwhile(s: State, id: nat, budget: real, found: seq<Finding>, others: seq<Schedule>) {
    s.slot.None? && s.model.Free? && budget > 0.0 && others == [UpToInference(id) + FromResult(id, found), []]
  }

  lemma ResultIsAccepted(before: seq<Finding>, e: Egress, found: seq<Finding>, at: real)
    requires Decided(before, e) && e.task == Task(found, None, false, Some(at), true) && at <= e.deadline
    ensures e.caller == Returned(Accepted) && e.findings == before + found
  {
  }

  /** The worker that enters here runs its detectors: there is time left, the model is free when it
      reaches the lock, and there is still time left when it looks at the clock again. */
  predicate Runs(s: State, id: nat, others: seq<Schedule>)
    requires id in s.egress && |others| >= 2
  {
    var reached := After(Acts(s, (id, Enter)), others[0]);
    && s.now < s.egress[id].deadline && reached.model.Free?
    && After(Acts(reached, (id, Acquire)), others[1]).now < s.egress[id].deadline
  }

  /** No time has passed since then, and a result recorded meanwhile is stamped with it. */
  predicate Prompt(since: real, s: State, id: nat)
    requires id in s.egress
  {
    s.now == since && (s.egress[id].task.finishedAt.Some? ==> s.egress[id].task.finishedAt.value == since)
  }

  /** The process the scans run in, with the run that led to its present state. */
  class Scanner {
    var state: State
    ghost var past: seq<State>

    ghost predicate Valid()
      reads this
    {
      Run(past) && past[|past| - 1] == state
    }

    /** Any reachable state is the state of some process. */
    constructor (state: State, ghost past: seq<State>)
      requires Run(past) && past[|past| - 1] == state
      ensures Valid() && this.state == state && this.past == past
    {
      this.state, this.past := state, past;
    }

    method Do(id: nat, a: Action)
      requires Valid() && Enabled(state, id, a)
      modifies this
      ensures Valid() && old(past) < past && state == Next(old(state), id, a)
    {
      state := Next(state, id, a);
      past := past + [state];
      assert Step(past[|past| - 2], past[|past| - 1]);
    }

    /** A step of this worker. */
    method Work(id: nat, a: Action)
      requires Valid() && id in state.egress && IsWorkers(a) && WorkerMay(state, state.egress[id], a)
      modifies this
      ensures Valid() && old(past) < past && id in state.egress && state.now == old(state).now
      ensures state == Acts(old(state), (id, a)) && state.egress[id] == Worked(old(state).egress[id], state.now, a)
      ensures a.Enter? ==> state.model == old(state).model
      ensures a.LeaveSlot? ==> state.slot.None?
    {
      Do(id, a);
    }

    /** Time passes. */
    method Wait(elapsed: real)
      requires Valid() && elapsed > 0.0
      modifies this
      ensures Valid() && old(past) < past && state == old(state).(now := old(state).now + elapsed)
    {
      Do(0, Tick(elapsed));
    }

    lemma ReachedInv()
      requires Valid()
      ensures Inv(state)
    {
      RunKeepsInv(past, |past| - 1);
    }

    /** Whatever other threads do, a running worker stays where it is. */
    method BesideWorker(id: nat, others: Schedule)
      requires Valid() && id in state.egress && Works(state.egress[id].worker)
      requires forall k :: 0 <= k < |others| ==> !WorkersStep(id, others[k])
      modifies this
      ensures Valid() && old(past) <= past && state == After(old(state), others)
      ensures others == [] ==> state == old(state)
      ensures id in state.egress && SameWork(old(state).egress[id], state.egress[id])
    {
      hide Valid, Run, Inv, Next, Enabled, WorkersStep;
      for k := 0 to |others|
        invariant Valid() && old(past) <= past && After(old(state), others) == After(state, others[k..])
        invariant id in state.egress && SameWork(old(state).egress[id], state.egress[id])
      {
        assert others[k..][0] == others[k] && others[k..][1..] == others[k + 1..];
        if Enabled(state, others[k].0, others[k].1) {
          ReachedInv();
          OthersLeaveWorkAlone(state, others[k].0, others[k].1, id);
          Do(others[k].0, others[k].1);
        }
      }
    }

    /** The detectors' part of the worker. */
    method RunDetectors(id: nat, scan: Scan, others: Schedule)
      requires Valid() && id in state.egress && state.egress[id].worker.Inferring? && state.egress[id].task == FRESH
      requires forall k :: 0 <= k < |others| ==> !WorkersStep(id, others[k])
      modifies this
      ensures Valid() && old(past) < past
      ensures id in state.egress && state.egress[id].worker == LeavingModel(scan.ScanRaises?)
      ensures state.egress[id].checkedAt == old(state).egress[id].checkedAt
      ensures state.egress[id].startedAt == old(state).egress[id].startedAt
      ensures state.egress[id].deadline == old(state).egress[id].deadline
      ensures others == [] ==> state.now == old(state).now
      ensures others == [] && scan.Scans? ==> state.egress[id].task.finishedAt == Some(old(state).now)
      ensures scan.ScanRaises? ==> state.egress[id].task == FRESH
      ensures scan.Scans? ==>
                var t := state.egress[id].task;
                t.finishedAt.Some? && t == Task(scan.found, scan.outcome, false, t.finishedAt, false)
    {
      hide Valid, Run, Inv, Next, Enabled, WorkersStep;
      if scan.ScanRaises? {
        Work(id, Break);
      } else {
        Work(id, Infer(scan.found, scan.outcome));
        BesideWorker(id, others);
        Work(id, Stamp);
      }
    }

    /** The last look at the clock, and the detectors unless it is too late. */
    method CheckAndRun(id: nat, scan: Scan, others: seq<Schedule>)
      requires Valid() && id in state.egress && state.egress[id].worker.HasModel? && state.egress[id].task == FRESH
      requires state.egress[id].startedAt.None?
      requires |others| == 4 && forall i, k :: 0 <= i < 4 && 0 <= k < |others[i]| ==> !WorkersStep(id, others[i][k])
      modifies this
      ensures Valid() && old(past) < past && id in state.egress
      ensures state.egress[id].worker == LeavingModel(state.egress[id].startedAt.Some? && scan.ScanRaises?)
      ensures state.egress[id].deadline == old(state).egress[id].deadline
      ensures Recorded(state.egress[id], scan, false, false)
      ensures state.egress[id].startedAt.Some? <==> After(old(state), others[0]).now < state.egress[id].deadline
      ensures Undisturbed(others) ==> Prompt(old(state).now, state, id)
    {
      hide Valid, Run, Inv, Next, Enabled, WorkersStep, Acts;
      BesideWorker(id, others[0]);
      Work(id, Check);
      if state.egress[id].worker.Checked? {
        BesideWorker(id, others[1]);
        Work(id, Begin);
        BesideWorker(id, others[2]);
        RunDetectors(id, scan, others[3]);
      }
    }

    /** The worker while it holds the model lock; the lock is given back however the detectors end. */
    method RunUnderModel(id: nat, scan: Scan, others: seq<Schedule>)
      requires Valid() && id in state.egress && state.egress[id].worker.HasModel? && state.egress[id].task == FRESH
      requires state.egress[id].startedAt.None?
      requires |others| == 5 && forall i, k :: 0 <= i < 5 && 0 <= k < |others[i]| ==> !WorkersStep(id, others[i][k])
      modifies this
      ensures Valid() && old(past) < past && id in state.egress && state.egress[id].worker.Signalling?
      ensures state.egress[id].deadline == old(state).egress[id].deadline
      ensures Recorded(state.egress[id], scan, true, false)
      ensures state.egress[id].startedAt.Some? <==> After(old(state), others[0]).now < state.egress[id].deadline
      ensures Undisturbed(others) ==> Prompt(old(state).now, state, id)
    {
      hide Valid, Run, Inv, Next, Enabled, WorkersStep, Acts;
      CheckAndRun(id, scan, others[..4]);
      BesideWorker(id, others[4]);
      Work(id, LeaveModel);
      if state.egress[id].worker.Failing? {
        Work(id, RecordError);
      }
    }

    /** The worker waits for the model, at most until its deadline. */
    method EnterAndAcquire(id: nat, others: Schedule)
      requires Valid() && id in state.egress && state.egress[id].worker.Entered?
      requires forall k :: 0 <= k < |others| ==> !WorkersStep(id, others[k])
      modifies this
      ensures Valid() && old(past) < past && id in state.egress
      ensures state.egress[id].worker.HasModel? || state.egress[id].worker.Signalling?
      ensures state.egress[id].worker.Signalling? ==> state.now >= state.egress[id].deadline
      ensures SameWork(old(state).egress[id].(worker := state.egress[id].worker), state.egress[id])
      ensures var reached, e := After(Acts(old(state), (id, Enter)), others), state.egress[id];
              && (e.worker.HasModel? <==> old(state).now < e.deadline && reached.model.Free?)
              && (e.worker.HasModel? ==> state == Acts(reached, (id, Acquire)) && state.now == reached.now)
      ensures others == [] && old(state).model.Free? && old(state).now < state.egress[id].deadline ==>
                state.egress[id].worker.HasModel? && state.now == old(state).now
    {
      hide Valid, Run, Inv, Next, Enabled, WorkersStep, Acts;
      Work(id, Enter);
      if state.egress[id].worker.Acquiring? {
        BesideWorker(id, others);
        if !state.model.Free? && state.now < state.egress[id].deadline {
          Wait(state.egress[id].deadline - state.now);
        }
        Work(id, if state.model.Free? then Acquire else GiveUp);
      }
    }

    /** Whatever happened, the worker signals and gives the slot back. */
    method SignalAndLeave(id: nat, others: seq<Schedule>)
      requires Valid() && id in state.egress && state.egress[id].worker.Signalling?
      requires |others| == 2 && forall i, k :: 0 <= i < 2 && 0 <= k < |others[i]| ==> !WorkersStep(id, others[i][k])
      modifies this
      ensures Valid() && old(past) < past && id in state.egress && state.slot.None?
      ensures var e := old(state).egress[id];
              SameWork(e.(worker := Gone, task := e.task.(done := true)), state.egress[id])
      ensures Undisturbed(others) ==> state.now == old(state).now
    {
      hide Valid, Run, Inv, Next, Enabled, WorkersStep, Acts, After;
      BesideWorker(id, others[0]);
      Work(id, Signal);
      BesideWorker(id, others[1]);
      Work(id, LeaveSlot);
    }

    /** The worker's whole body, with other threads running before its steps. It always ends with its task
        signalled and the slot given back; the task holds the detectors' result, stamped, exactly when
        they were run to their end, and they are run only before the deadline. */
    method DeepScanWorker(id: nat, scan: Scan, others: seq<Schedule>)
      requires Valid() && id in state.egress && state.egress[id].worker.Entered? && state.egress[id].task == FRESH
      requires state.egress[id].startedAt.None?
      requires |others| == 8 && forall i, k :: 0 <= i < 8 && 0 <= k < |others[i]| ==> !WorkersStep(id, others[i][k])
      modifies this
      ensures Valid() && old(past) < past && id in state.egress && state.egress[id].worker.Gone? && state.slot.None?
      ensures Recorded(state.egress[id], scan, true, true)
      ensures state.egress[id].startedAt.Some? <==> Runs(old(state), id, others)
      ensures Undisturbed(others) && old(state).model.Free? && old(state).now < state.egress[id].deadline ==>
                state.egress[id].startedAt.Some? && Prompt(old(state).now, state, id)
    {
      hide Valid, Run, Inv, Next, Enabled, WorkersStep, Acts, After;
      EnterAndAcquire(id, others[0]);
      AfterNothing(state);
      if state.egress[id].worker.HasModel? {
        RunUnderModel(id, scan, others[1..6]);
      }
      SignalAndLeave(id, others[6..]);
    }

    /** Whatever other threads do, a caller that waits keeps its place and its findings. */
    method BesideCaller(id: nat, others: Schedule)
      requires Valid() && id in state.egress
      requires forall k :: 0 <= k < |others| ==> !CallersStep(id, others[k])
      modifies this
      ensures Valid() && old(past) <= past && state == After(old(state), others)
      ensures others == [] ==> state == old(state)
      ensures id in state.egress && SameCall(old(state).egress[id], state.egress[id])
    {
      hide Valid, Run, Inv, Next, Enabled, CallersStep;
      for k := 0 to |others|
        invariant Valid() && old(past) <= past && After(old(state), others) == After(state, others[k..])
        invariant id in state.egress && SameCall(old(state).egress[id], state.egress[id])
      {
        assert others[k..][0] == others[k] && others[k..][1..] == others[k + 1..];
        if Enabled(state, others[k].0, others[k].1) {
          OthersLeaveCallsAlone(state, others[k].0, others[k].1, id);
          Do(others[k].0, others[k].1);
        }
      }
    }

    /** The wait and the acceptance rule. The wait reports completion unless it comes too late or there
        is none to report. */
    method WaitAndJudge(id: nat, late: bool, others: seq<Schedule>) returns (woken: bool)
      requires Valid() && id in state.egress && state.egress[id].caller.Waiting?
      requires |others| == 2 && forall i, k :: 0 <= i < 2 && 0 <= k < |others[i]| ==> !CallersStep(id, others[i][k])
      modifies this
      ensures Valid() && old(past) < past && id in state.egress && state.egress[id].caller.Returned?
      ensures woken <==> !late && state.egress[id].task.done
      ensures woken ==> Decided(old(state).egress[id].findings, state.egress[id])
      ensures !woken ==> state.egress[id].caller == Returned(Gave(Timeout))
      ensures !woken ==> state.egress[id].findings == old(state).egress[id].findings
      ensures state.egress[id].deadline == old(state).egress[id].deadline
      ensures var waited := After(old(state), others[0]);
              && id in waited.egress && (woken <==> !late && waited.egress[id].task.done)
              && (woken && others[1] == [] ==> state.egress[id].task == waited.egress[id].task)
    {
      hide Valid, Run, Inv, CallersStep, After;
      BesideCaller(id, others[0]);
      woken := state.egress[id].task.done && !late;
      Do(id, if woken then WakeDone else WakeTimeout);
      if woken {
        BesideCaller(id, others[1]);
        DoneWhenWoken(id);
        Do(id, Judge);
      }
    }

    lemma DoneWhenWoken(id: nat)
      requires Valid() && id in state.egress && state.egress[id].caller.Woken?
      ensures state.egress[id].task.done
    {
      ReachedInv();
      assert EgressInv(state, id);
    }

    /** The caller's whole body: it is told busy exactly when another scan answers for the slot, a worker
        that cannot be started gives the slot back at once, and otherwise the wait decides. `late` is a
        wait that reports no completion although there is one. */
    method DeepScanOnADeadline(id: nat, budget: real, cheap: seq<Finding>, starts: bool, late: bool,
                               others: seq<Schedule>)
      returns (verdict: Verdict, findings: seq<Finding>, woken: bool)
      requires Valid() && id !in state.egress
      requires |others| == 2 && forall i, k :: 0 <= i < 2 && 0 <= k < |others[i]| ==> !CallersStep(id, others[i][k])
      modifies this
      ensures Valid() && old(past) < past && id in state.egress && state.egress[id].caller == Returned(verdict)
      ensures findings == state.egress[id].findings && state.egress[id].deadline == old(state).now + budget
      ensures old(state).slot.Some? ==> verdict == Gave(Busy) && findings == cheap && state.slot == old(state).slot
      ensures old(state).slot.None? && !starts ==> verdict == Raised && findings == cheap && state.slot.None?
      ensures old(state).slot.None? && starts ==> (woken <==> !late && state.egress[id].task.done)
      ensures old(state).slot.None? && starts && woken ==> Decided(cheap, state.egress[id])
      ensures old(state).slot.None? && starts && !woken ==> verdict == Gave(Timeout) && findings == cheap
      ensures forall found :: WorksMeanwhile(old(state), id, budget, found, others) && starts && !late ==>
                verdict == Accepted && findings == cheap + found
    {
      hide Valid, Run, Inv, CallersStep, Decided, After, UpToInference, FromResult;
      woken := false;
      Do(id, Call(budget, cheap));
      Do(id, Admit);
      if state.egress[id].caller.Admitted? {
        Do(id, Spawn(starts));
      }
      if state.egress[id].caller.Waiting? {
        ghost var waiting := state;
        woken := WaitAndJudge(id, late, others);
        forall found | WorksMeanwhile(old(state), id, budget, found, others) && !late
          ensures state.egress[id].caller == Returned(Accepted) && state.egress[id].findings == cheap + found
        {
          WorksAlone(waiting, id, found);
          ResultIsAccepted(cheap, state.egress[id], found, waiting.now);
        }
      }
      verdict, findings := state.egress[id].caller.verdict, state.egress[id].findings;
    }
  }
}
