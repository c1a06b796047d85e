/** The durable indexing run as a machine that performs one effect per step and may crash between
    any two (`backend/orchestration/workflow.py`, `backend/summarise/driver.py`). A crash loses the
    in-memory state and the program point; the world and the last checkpoint survive. */
module CrashMachine {
  import opened Persistence
  import opened Driver
  import opened Workflow

  datatype Config = Config(settings: Settings, estate: Estate, perRun: int)

  /** Where the worker stands; `k` is the file of the current service being treated. */
  datatype Phase =
    | Ready                                         // at the head of the workflow loop
    | Working(k: nat, held: bool)                   // at the head of the file loop
    | Calling(k: nat)                               // approved, gateway call in flight
    | Charged(k: nat, tokens: nat, body: Body)      // pool charged, reply not yet parsed
    | Failed(k: nat, tokens: nat, kind: string)     // content failure, dead-letter row not yet written
    | LedgerDue(k: nat, tokens: nat)                // dead-letter row written, ledger row not yet
    | Saved(k: nat, tokens: nat)                    // summary text stored, ledger row not yet
    | Completed                                     // service completed in memory, not checkpointed
    | Counted                                       // continue-as-new counted, not checkpointed
    | Parking                                       // parked in memory, not checkpointed
    | Stopped(outcome: WorkflowOutcome)
    | Down

  /** Tokens charged for a call whose file is not yet in the ledger. */
  datatype Charge = Charge(file: FileKey, tokens: nat)

  /** `paid`, `buried`, `lost` and `crashes` are the history of the run. */
  datatype Machine = Machine(
    world: World, checkpoint: State, mem: State, processed: nat, today: int, phase: Phase,
    paid: map<FileKey, nat>, buried: seq<Charge>, lost: seq<Charge>, crashes: nat)

  /** `Go` performs the next effect, `reply` being what the gateway answers if it is a call. */
  datatype Action = Go(reply: Reply) | Crash | Resume(today: int)

  function Start(w: World, checkpoint: State, today: int): Machine {
    Machine(w, checkpoint, checkpoint, 0, today, Ready, map[], [], [], 0)
  }

  /** Between the charge and the ledger write. */
  predicate InGap(phase: Phase) {
    phase.Charged? || phase.Failed? || phase.LedgerDue? || phase.Saved?
  }

  function InFlight(phase: Phase): nat { if InGap(phase) then phase.tokens else 0 }

  predicate InService(phase: Phase) { phase.Working? || phase.Calling? || InGap(phase) }

  function CurrentFiles(c: Config, m: Machine): seq<SourceFile> {
    if m.mem.pending == [] then [] else FilesOf(c.estate, m.mem.pending[0])
  }

  /** The machine's program point makes sense. */
  predicate WellPlaced(c: Config, m: Machine) {
    && (InService(m.phase) ==> m.mem.pending != [] && m.phase.k <= |CurrentFiles(c, m)|)
    && (m.phase.Calling? || InGap(m.phase) ==> m.phase.k < |CurrentFiles(c, m)|)
  }

  function Crashed(c: Config, m: Machine): Machine
    requires WellPlaced(c, m)
  {
    m.(phase := Down, crashes := m.crashes + 1,
       lost := if InGap(m.phase) then m.lost + [Charge(CurrentFiles(c, m)[m.phase.k].Key(), m.phase.tokens)]
           else m.lost)
  }

  function Step(c: Config, m: Machine, a: Action): Machine
    requires c.settings.quota.Valid() && WellPlaced(c, m)
  {
    match a
    case Crash => if m.phase.Down? then m else Crashed(c, m)
    case Resume(today) =>
      if m.phase.Down? || m.phase.Stopped?
      then m.(mem := m.checkpoint, processed := 0, phase := Ready, today := today)
      else m
    case Go(reply) => Advanced(c, m, reply)
  }

  /** The next effect of the worker. */
  function Advanced(c: Config, m: Machine, reply: Reply): Machine
    requires c.settings.quota.Valid() && WellPlaced(c, m)
  {
    var s, w := c.settings, m.world;
    match m.phase
    case Ready =>
      if m.mem.pending == [] then m.(phase := Stopped(Done))
      else
        var cost := CostOf(s, CurrentFiles(c, m));
        if s.Approves(w.spent, cost, m.today) then m.(phase := Working(0, false))
        else m.(mem := m.mem.Parked(TrancheExhausted(cost, s.quota.Available(s.periodStart, w.spent, m.today))),
            phase := Parking)
    case Parking => m.(checkpoint := m.mem, phase := Stopped(ParkedOnQuota))
    case Working(k, held) =>
      if k == |CurrentFiles(c, m)| then m.(mem := m.mem.CompleteCurrent(), phase := Completed)
      else
        var file := CurrentFiles(c, m)[k];
        if held then m.(phase := Working(k + 1, true))
        else if s.IsDone(w.rows, file) then m.(phase := Working(k + 1, false))
        else if !s.Approves(w.spent, s.Estimate(file), m.today) then m.(phase := Working(k + 1, true))
        else if s.Oversized(file) then m.(phase := Failed(k, 0, "oversized_file"))
        else m.(phase := Calling(k))
    case Calling(k) =>
      var called := m.(world := w.(calls := w.calls + 1));
      (match reply
       case Answer(tokens, body) =>
         called.(world := called.world.(spent := w.spent + tokens), phase := Charged(k, tokens, body))
       case Rejected(kind) => called.(phase := Failed(k, 0, kind))
       case Exhausted => called.(phase := Working(k + 1, false))
       case Fault => called.(phase := Down, crashes := m.crashes + 1))
    case Charged(k, tokens, body) =>
      var file := CurrentFiles(c, m)[k];
      (match body
       case NotJson => m.(phase := Failed(k, tokens, "malformed_json"))
       case BadShape => m.(phase := Failed(k, tokens, "schema_mismatch"))
       case Summary(text) =>
         m.(world := w.(summaries := w.summaries[SummaryKeyOf(file) := s.RecordOf(file, text)]), phase :=
             Saved(k, tokens)))
    case Failed(k, tokens, kind) =>
      var file := CurrentFiles(c, m)[k];
      m.(world := w.(deadLetters := w.deadLetters + [DeadLetterEntry(file.Key(), kind)]), phase := LedgerDue(k, tokens))
    case LedgerDue(k, tokens) =>
      var file := CurrentFiles(c, m)[k];
      m.(world := w.(rows := w.rows[file.Key() := s.DeadRow(file)]), phase := Working(k + 1, false),
         buried := m.buried + [Charge(file.Key(), tokens)])
    case Saved(k, tokens) =>
      var file := CurrentFiles(c, m)[k];
      m.(world := w.(rows := w.rows[file.Key() := s.DoneRow(file)]), phase := Working(k + 1, false),
         paid := m.paid[file.Key() := tokens])
    case Completed =>
      var saved := m.(checkpoint := m.mem, processed := m.processed + 1, phase := Ready);
      if m.processed + 1 >= c.perRun && m.mem.pending != []
      then saved.(mem := m.mem.(runCount := m.mem.runCount + 1), phase := Counted)
      else saved
    case Counted => m.(checkpoint := m.mem, processed := 0, phase := Ready)
    case Stopped(_) => m
    case Down => m
  }

  lemma StepWellPlaced(c: Config, m: Machine, a: Action)
    requires c.settings.quota.Valid() && WellPlaced(c, m)
    ensures WellPlaced(c, Step(c, m, a))
  {}

  /** Only a crash of a live worker, or a fault, is counted, and as one. */
  lemma CrashesAreCounted(c: Config, m: Machine, a: Action)
    requires c.settings.quota.Valid() && WellPlaced(c, m)
    ensures var ends := (a.Crash? && !m.phase.Down?) || (a.Go? && m.phase.Calling? && a.reply.Fault?);
            Step(c, m, a).crashes == m.crashes + if ends then 1 else 0
  {}

  /** Every run: the fold of any sequence of actions. */
  function Execute(c: Config, m: Machine, actions: seq<Action>): (r: Machine)
    requires c.settings.quota.Valid() && WellPlaced(c, m)
    ensures WellPlaced(c, r)
    decreases |actions|
  {
    if actions == [] then m
    else
      StepWellPlaced(c, m, actions[0]);
      Execute(c, Step(c, m, actions[0]), actions[1..])
  }
}
