/** The workflow program is an uninterrupted run of the crash machine: what holds of every run of the
    machine holds of `Drive`, and so of `IndexingWorkflow.DriveToEnd`. */
module WorkflowIsARun {
  import opened Driver
  import opened Workflow
  import opened CrashMachine

  /** Only steps of the worker itself: no crash and no resumption. */
  ghost predicate Uninterrupted(actions: seq<Action>) { forall a <- actions :: a.Go? }

  lemma ExecuteCons(c: Config, m: Machine, a: Action, rest: seq<Action>)
    requires c.settings.quota.Valid() && WellPlaced(c, m) && WellPlaced(c, Step(c, m, a))
    ensures Execute(c, m, [a] + rest) == Execute(c, Step(c, m, a), rest)
  {
    assert ([a] + rest)[1..] == rest;
  }

  lemma {:induction false} ExecuteAppend(c: Config, m: Machine, a: seq<Action>, b: seq<Action>)
    requires c.settings.quota.Valid() && WellPlaced(c, m)
    ensures Execute(c, m, a + b) == Execute(c, Execute(c, m, a), b)
    decreases |a|
  {
    if a == [] {
      assert [] + b == b;
    } else {
      StepWellPlaced(c, m, a[0]);
      ExecuteAppend(c, Step(c, m, a[0]), a[1..], b);
      assert a + b == [a[0]] + (a[1..] + b);
      ExecuteCons(c, m, a[0], a[1..] + b);
    }
  }

  /** The worker's steps while the gateway would answer `reply`. */
  function Repeat(reply: Reply, n: nat): seq<Action> {
    if n == 0 then [] else [Go(reply)] + Repeat(reply, n - 1)
  }

  lemma {:induction false} RepeatUninterrupted(reply: Reply, n: nat)
    ensures Uninterrupted(Repeat(reply, n))
  {
    if n > 0 {
      RepeatUninterrupted(reply, n - 1);
    }
  }

  /** n steps with the same pending reply. */
  function Steps(c: Config, m: Machine, reply: Reply, n: nat): (r: Machine)
    requires c.settings.quota.Valid() && WellPlaced(c, m)
    ensures WellPlaced(c, r)
    decreases n
  {
    if n == 0 then m
    else
      StepWellPlaced(c, m, Go(reply));
      Steps(c, Advanced(c, m, reply), reply, n - 1)
  }

  lemma {:induction false} RepeatIsSteps(c: Config, m: Machine, reply: Reply, n: nat)
    requires c.settings.quota.Valid() && WellPlaced(c, m)
    ensures Execute(c, m, Repeat(reply, n)) == Steps(c, m, reply, n)
    decreases n
  {
    if n > 0 {
      StepWellPlaced(c, m, Go(reply));
      RepeatIsSteps(c, Advanced(c, m, reply), reply, n - 1);
      ExecuteCons(c, m, Go(reply), Repeat(reply, n - 1));
    }
  }

  /** Two machines that differ at most in world, program point and history. */
  ghost predicate SamePlace(m: Machine, n: Machine) {
    n.mem == m.mem && n.checkpoint == m.checkpoint && n.processed == m.processed && n.today == m.today
  }

  /** How many steps an approved call takes. */
  function StepsOfCall(reply: Reply): nat {
    match reply
    case Answer(_, body) => if body.Summary? then 3 else 4
    case Rejected(_) => 3
    case _ => 1
  }

  /** How many steps one file takes. */
  function StepsOfFile(s: Settings, w: World, file: SourceFile, reply: Reply, today: int, held: bool): nat
    requires s.quota.Valid()
  {
    if held || s.IsDone(w.rows, file) || !s.Approves(w.spent, s.Estimate(file), today) then 1
    else if s.Oversized(file) then 3
    else StepsOfCall(reply) + 1
  }

  lemma StepsFirst(c: Config, m: Machine, reply: Reply, n: nat)
    requires c.settings.quota.Valid() && WellPlaced(c, m) && n > 0
    ensures WellPlaced(c, Advanced(c, m, reply))
    ensures Steps(c, m, reply, n) == Steps(c, Advanced(c, m, reply), reply, n - 1)
  {
    StepWellPlaced(c, m, Go(reply));
  }

  /** Steps from a content failure to the next head of the loop. */
  lemma FailedFileIsSteps(c: Config, m: Machine, reply: Reply)
    requires c.settings.quota.Valid() && WellPlaced(c, m) && m.phase.Failed?
    ensures var n, file := Steps(c, m, reply, 2), CurrentFiles(c, m)[m.phase.k];
            && SamePlace(m, n) && n.world == Buried(c.settings, m.world, file, m.phase.kind)
            && n.phase == Working(m.phase.k + 1, false)
  {
    assert Steps(c, m, reply, 2) == Steps(c, Advanced(c, m, reply), reply, 1);
  }

  /** Steps from a charge to the next head of the loop. */
  lemma ChargedFileIsSteps(c: Config, m: Machine, reply: Reply)
    requires c.settings.quota.Valid() && WellPlaced(c, m) && m.phase.Charged?
    ensures var n, file := Steps(c, m, reply, if m.phase.body.Summary? then 2 else 3), CurrentFiles(c, m)[m.phase.k];
            && SamePlace(m, n) && n.phase == Working(m.phase.k + 1, false)
            && n.world == match m.phase.body
                 case Summary(text) => Stored(c.settings, m.world, file, text)
                 case NotJson => Buried(c.settings, m.world, file, "malformed_json")
                 case BadShape => Buried(c.settings, m.world, file, "schema_mismatch")
  {
    var next := Advanced(c, m, reply);
    if m.phase.body.Summary? {
      assert Steps(c, m, reply, 2) == Steps(c, next, reply, 1);
    } else {
      FailedFileIsSteps(c, next, reply);
    }
  }

  lemma CalledFileIsSteps(c: Config, g: Gateway, m: Machine)
    requires c.settings.quota.Valid() && WellPlaced(c, m) && m.phase.Calling?
    requires !c.settings.Oversized(CurrentFiles(c, m)[m.phase.k])
    ensures var s, file := c.settings, CurrentFiles(c, m)[m.phase.k];
            var reply := g(s.RenderTier1Prompt(file), m.world.calls);
            var n := Steps(c, m, reply, StepsOfCall(reply));
            var one := SummarisedOne(s, g, m.world, file);
            && SamePlace(m, n) && n.world == one.world
            && n.phase == if one.fault then Down else Working(m.phase.k + 1, false)
  {
    var reply := g(c.settings.RenderTier1Prompt(CurrentFiles(c, m)[m.phase.k]), m.world.calls);
    StepsFirst(c, m, reply, StepsOfCall(reply));
    if reply.Answer? {
      ChargedFileIsSteps(c, Advanced(c, m, reply), reply);
    } else if reply.Rejected? {
      FailedFileIsSteps(c, Advanced(c, m, reply), reply);
    }
  }

  /** One pass of the file loop is a few steps of the machine. */
  lemma FileIsSteps(c: Config, g: Gateway, m: Machine)
    requires c.settings.quota.Valid() && WellPlaced(c, m) && m.phase.Working? && m.phase.k < |CurrentFiles(c, m)|
    ensures var s, file := c.settings, CurrentFiles(c, m)[m.phase.k];
            var reply := g(s.RenderTier1Prompt(file), m.world.calls);
            var n := Steps(c, m, reply, StepsOfFile(s, m.world, file, reply, m.today, m.phase.held));
            var pass := Treated(s, g, m.world, file, m.today, m.phase.held);
            && SamePlace(m, n) && n.world == pass.world
            && n.phase == if pass.fault then Down else Working(m.phase.k + 1, pass.held)
  {
    var s, file := c.settings, CurrentFiles(c, m)[m.phase.k];
    var reply := g(s.RenderTier1Prompt(file), m.world.calls);
    var m1 := Advanced(c, m, reply);
    FirstStepOfFile(c, m, reply);
    if m1.phase.Calling? {
      CalledFileIsSteps(c, g, m1);
    } else if m1.phase.Failed? {
      FailedFileIsSteps(c, m1, reply);
    }
  }

  /** The loop body's guards, in order. */
  lemma FirstStepOfFile(c: Config, m: Machine, reply: Reply)
    requires c.settings.quota.Valid() && WellPlaced(c, m) && m.phase.Working? && m.phase.k < |CurrentFiles(c, m)|
    ensures var s, file, n := c.settings, CurrentFiles(c, m)[m.phase.k], Advanced(c, m, reply);
            var done, approved := s.IsDone(m.world.rows, file), s.Approves(m.world.spent, s.Estimate(file), m.today);
            && n == m.(phase := n.phase)
            && n.phase == if m.phase.held then Working(m.phase.k + 1, true)
                          else if done then Working(m.phase.k + 1, false)
                          else if !approved then Working(m.phase.k + 1, true)
                          else if s.Oversized(file) then Failed(m.phase.k, 0, "oversized_file")
                          else Calling(m.phase.k)
  {}

  /** The file loop is a run of the machine. */
  lemma {:induction false} BatchIsARun(c: Config, g: Gateway, m: Machine) returns (actions: seq<Action>)
    requires c.settings.quota.Valid() && WellPlaced(c, m) && m.phase.Working?
    ensures Uninterrupted(actions)
    ensures var files, n := CurrentFiles(c, m), Execute(c, m, actions);
            var batch := SummarisedAll(c.settings, g, m.world, files[m.phase.k..], m.today, m.phase.held);
            && SamePlace(m, n) && n.world == batch.world
            && (batch.fault ==> n.phase == Down)
            && (!batch.fault ==> n.phase.Working? && n.phase.k == |files|)
    decreases |CurrentFiles(c, m)| - m.phase.k
  {
    var files, k := CurrentFiles(c, m), m.phase.k;
    if k == |files| {
      return [];
    }
    var reply := g(c.settings.RenderTier1Prompt(files[k]), m.world.calls);
    var count := StepsOfFile(c.settings, m.world, files[k], reply, m.today, m.phase.held);
    var n := Steps(c, m, reply, count);
    FileIsSteps(c, g, m);
    RepeatIsSteps(c, m, reply, count);
    RepeatUninterrupted(reply, count);
    actions := Repeat(reply, count);
    assert files[k..][0] == files[k] && files[k..][1..] == files[k + 1..];
    if n.phase.Working? {
      var rest := BatchIsARun(c, g, n);
      ExecuteAppend(c, m, actions, rest);
      actions := actions + rest;
    }
  }

  /** One approved service: from the head of the workflow loop to its next head, or down. */
  lemma ServiceIsARun(c: Config, g: Gateway, m: Machine) returns (actions: seq<Action>)
    requires c.settings.quota.Valid() && WellPlaced(c, m) && m.phase.Ready? && m.mem.pending != []
    requires c.settings.Approves(m.world.spent, CostOf(c.settings, CurrentFiles(c, m)), m.today)
    ensures Uninterrupted(actions)
    ensures var n := Execute(c, m, actions);
            var batch := SummarisedAll(c.settings, g, m.world, CurrentFiles(c, m), m.today, false);
            var onward := Onward(c.perRun, m.mem, m.processed);
            && n.world == batch.world && n.today == m.today
            && (batch.fault ==> n.phase == Down && n.mem == m.mem && n.checkpoint == m.checkpoint)
            && (!batch.fault ==>
                  n.phase == Ready && n.mem == onward && n.checkpoint == onward
                  && n.processed == ProcessedAfter(c.perRun, m.mem, m.processed))
  {
    var go := Go(Fault);
    var working := Step(c, m, go);
    assert working == m.(phase := Working(0, false));
    var rest := BatchIsARun(c, g, working);
    assert CurrentFiles(c, m)[0..] == CurrentFiles(c, m);
    ExecuteCons(c, m, go, rest);
    var after := Execute(c, working, rest);
    actions := [go] + rest;
    if after.phase.Working? {
      var finish := if AtBoundary(c.perRun, m.mem, m.processed) then 3 else 2;
      FinishIsSteps(c, after);
      RepeatIsSteps(c, after, Fault, finish);
      RepeatUninterrupted(Fault, finish);
      ExecuteAppend(c, m, actions, Repeat(Fault, finish));
      actions := actions + Repeat(Fault, finish);
    }
  }

  /** Completing, checkpointing and, at the boundary, counting a continue-as-new. */
  lemma FinishIsSteps(c: Config, m: Machine)
    requires c.settings.quota.Valid() && WellPlaced(c, m) && m.phase.Working? && m.phase.k == |CurrentFiles(c, m)|
    ensures var onward := Onward(c.perRun, m.mem, m.processed);
            Steps(c, m, Fault, if AtBoundary(c.perRun, m.mem, m.processed) then 3 else 2)
            == m.(mem := onward, checkpoint := onward, phase := Ready,
                  processed := ProcessedAfter(c.perRun, m.mem, m.processed))
  {
    var m1 := Advanced(c, m, Fault);
    assert m1 == m.(mem := m.mem.CompleteCurrent(), phase := Completed);
    var m2 := Advanced(c, m1, Fault);
    var m3 := Advanced(c, m2, Fault);
    assert Steps(c, m, Fault, 2) == Steps(c, m1, Fault, 1) == m2;
    assert Steps(c, m, Fault, 3) == Steps(c, m1, Fault, 2) == Steps(c, m2, Fault, 1) == m3;
  }

  /** A worker that is down or has stopped goes on, once resumed, as a drive from the last checkpoint would: in memory
      it has what was checkpointed, and the world is as it was left. */
  lemma ResumeIsADrive(c: Config, g: Gateway, m: Machine, today: int) returns (actions: seq<Action>)
    requires c.settings.quota.Valid() && WellPlaced(c, m) && (m.phase.Down? || m.phase.Stopped?)
    ensures |actions| > 0 && actions[0] == Resume(today) && Uninterrupted(actions[1..])
    ensures var n := Execute(c, m, actions);
            var r := Drive(c.settings, g, c.estate, c.perRun, today, m.world, m.checkpoint, m.checkpoint, 0);
            && n.world == r.world && n.checkpoint == r.checkpoint && n.mem == r.state
            && n.phase == if r.outcome.Crashed? then Down else Stopped(r.outcome)
  {
    var resumed := Step(c, m, Resume(today));
    assert resumed == m.(mem := m.checkpoint, processed := 0, phase := Ready, today := today);
    var rest := DriveIsARun(c, g, resumed);
    ExecuteCons(c, m, Resume(today), rest);
    actions := [Resume(today)] + rest;
  }

  lemma ParkIsSteps(c: Config, m: Machine)
    requires c.settings.quota.Valid() && WellPlaced(c, m) && m.phase.Ready? && m.mem.pending != []
    requires !c.settings.Approves(m.world.spent, CostOf(c.settings, CurrentFiles(c, m)), m.today)
    ensures var s, cost := c.settings, CostOf(c.settings, CurrentFiles(c, m));
            var parked := m.mem.Parked(TrancheExhausted(cost,
                s.quota.Available(s.periodStart, m.world.spent, m.today)));
            Steps(c, m, Fault, 2) == m.(mem := parked, checkpoint := parked, phase := Stopped(ParkedOnQuota))
  {
    assert Steps(c, m, Fault, 2) == Steps(c, Advanced(c, m, Fault), Fault, 1);
  }

  /** `Drive`, for every gateway, cadence and starting state, is an uninterrupted run of the machine. */
  lemma {:induction false} DriveIsARun(c: Config, g: Gateway, m: Machine) returns (actions: seq<Action>)
    requires c.settings.quota.Valid() && WellPlaced(c, m) && m.phase.Ready?
    ensures Uninterrupted(actions)
    ensures var n := Execute(c, m, actions);
            var r := Drive(c.settings, g, c.estate, c.perRun, m.today, m.world, m.mem, m.checkpoint, m.processed);
            && n.world == r.world && n.checkpoint == r.checkpoint && n.mem == r.state
            && n.phase == if r.outcome.Crashed? then Down else Stopped(r.outcome)
    decreases |m.mem.pending|
  {
    var go := Go(Fault);
    DriveStops(c.settings, g, c.estate, c.perRun, m.today, m.world, m.mem, m.checkpoint, m.processed);
    if m.mem.pending == [] {
      actions := [go];
      ExecuteCons(c, m, go, []);
    } else if !c.settings.Approves(m.world.spent, CostOf(c.settings, CurrentFiles(c, m)), m.today) {
      actions := Repeat(Fault, 2);
      RepeatUninterrupted(Fault, 2);
      RepeatIsSteps(c, m, Fault, 2);
      ParkIsSteps(c, m);
    } else {
      actions := ServiceIsARun(c, g, m);
      var n := Execute(c, m, actions);
      if n.phase.Ready? {
        DriveUnfolds(c.settings, g, c.estate, c.perRun, m.today, m.world, m.mem, m.checkpoint, m.processed);
        var rest := DriveIsARun(c, g, n);
        ExecuteAppend(c, m, actions, rest);
        actions := actions + rest;
      }
    }
  }
}
