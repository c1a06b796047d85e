/** Exactly how much room an approved service needs so that overruns never hold one of its files
    (`backend/summarise/driver.py`, `backend/orchestration/workflow.py`). */
module OverrunBound {
  import opened Persistence
  import opened Driver
  import opened PyramidCascade
  import opened ServiceAtomicity

  /** Indexing tokens unlocked and not spent; negative once overspent. */
  function Room(s: Settings, spent: int, today: int): int
    requires s.quota.Valid()
  {
    s.quota.Allowance(s.periodStart, today) - spent
  }

  /** In order, every file not yet done fits the room left when each call before it overran by o. A file too
      large for a prompt asks for its estimate as well, but is buried without a call and takes no room. */
  predicate Fits(s: Settings, rows: LedgerRows, files: seq<SourceFile>, room: int, o: nat) {
    if files == [] then true
    else if s.IsDone(rows, files[0]) then Fits(s, rows, files[1..], room, o)
    else
      && s.Estimate(files[0]) <= room
      && Fits(s, rows, files[1..], if s.Oversized(files[0]) then room else room - s.Estimate(files[0]) - o, o)
  }

  /** Estimates of the files the batch will call, in order. */
  function CallEstimates(s: Settings, rows: LedgerRows, files: seq<SourceFile>): seq<nat> {
    if files == [] then []
    else (if s.IsDone(rows, files[0]) || s.Oversized(files[0]) then [] else [s.Estimate(files[0])])
         + CallEstimates(s, rows, files[1..])
  }

  // ----- Gateways that answer, overrunning by at most o -----

  /** The reply to a call for the file. */
  ghost predicate Within(s: Settings, reply: Reply, file: SourceFile, o: nat) {
    !reply.Fault? && !reply.Exhausted? && (reply.Answer? ==> reply.tokens <= s.Estimate(file) + o)
  }

  /** The loop calls the gateway for this file. */
  predicate Calls(s: Settings, w: World, file: SourceFile, today: int, held: bool)
    requires s.quota.Valid()
  {
    !held && !s.IsDone(w.rows, file) && s.Approves(w.spent, s.Estimate(file), today) && !s.Oversized(file)
  }

  /** Every call of the batch is answered or rejected, and charges at most o beyond the file's estimate. */
  ghost predicate Overruns(s: Settings, g: Gateway, w: World, files: seq<SourceFile>, today: int, held: bool, o: nat)
    requires s.quota.Valid()
    decreases |files|
  {
    files == [] ||
    (&& (Calls(s, w, files[0], today, held) ==> Within(s, g(s.RenderTier1Prompt(files[0]), w.calls), files[0], o))
     && var pass := Treated(s, g, w, files[0], today, held);
        !pass.fault ==> Overruns(s, g, pass.world, files[1..], today, pass.held, o))
  }

  ghost predicate NoneHeld(batch: Batch) {
    !batch.fault && forall i :: 0 <= i < |batch.rows| ==> batch.rows[i].outcome != WasHeld
  }

  lemma HeadAndRest(row: ResultRow, rest: seq<ResultRow>, world: World)
    ensures NoneHeld(Batch(world, [row] + rest, false)) <==>
        row.outcome != WasHeld && NoneHeld(Batch(world, rest, false))
  {
    var all := [row] + rest;
    assert all[0] == row && forall i :: 0 <= i < |rest| ==> all[i + 1] == rest[i];
  }

  // ----- One file at a time -----

  /** The ledger is the same at every key but one. */
  ghost predicate SameButAt(a: LedgerRows, b: LedgerRows, own: FileKey) {
    forall key | key != own :: SameRow(a, b, key)
  }

  ghost predicate NoneHasKey(files: seq<SourceFile>, own: FileKey) {
    forall i :: 0 <= i < |files| ==> files[i].Key() != own
  }

  /** Treating one file leaves every other file as due as it was. */
  lemma {:induction false} OthersStayDue(s: Settings, a: LedgerRows, b: LedgerRows, own: FileKey,
                                         files: seq<SourceFile>, room: int, o: nat)
    requires NoneHasKey(files, own) && SameButAt(a, b, own)
    ensures Fits(s, a, files, room, o) <==> Fits(s, b, files, room, o)
    ensures CallEstimates(s, a, files) == CallEstimates(s, b, files)
  {
    if files != [] {
      assert files[0].Key() != own && SameRow(a, b, files[0].Key());
      assert NoneHasKey(files[1..], own);
      OthersStayDue(s, a, b, own, files[1..], room, o);
      OthersStayDue(s, a, b, own, files[1..],
                    if s.Oversized(files[0]) then room else room - s.Estimate(files[0]) - o, o);
    }
  }

  lemma RestHasOtherKeys(files: seq<SourceFile>)
    requires files != [] && DistinctKeys(files)
    ensures DistinctKeys(files[1..]) && NoneHasKey(files[1..], files[0].Key())
  {
    forall i | 0 <= i < |files| - 1 ensures files[1..][i].Key() != files[0].Key() {
      assert files[0].Key() != files[i + 1].Key();
    }
  }

  /** One pass, not after a hold. */
  lemma PassOf(s: Settings, g: Gateway, w: World, file: SourceFile, today: int)
    requires s.quota.Valid()
    ensures var pass, due := Treated(s, g, w, file, today, false), !s.IsDone(w.rows, file);
            var fits := s.Estimate(file) <= Room(s, w.spent, today);
            && SameButAt(w.rows, pass.world.rows, file.Key())
            && (due && !fits ==> pass.row.outcome == WasHeld && !pass.fault && pass.held && pass.world == w)
            && (!due || (fits && s.Oversized(file)) ==>
                  && pass.row.outcome != WasHeld && !pass.held && !pass.fault
                  && pass.world.spent == w.spent && pass.world.calls == w.calls)
  {}

  /** One pass that calls. */
  lemma CallOf(s: Settings, g: Gateway, w: World, file: SourceFile, today: int)
    requires s.quota.Valid() && !s.IsDone(w.rows, file) && !s.Oversized(file)
    requires s.Estimate(file) <= Room(s, w.spent, today)
    ensures var pass, reply := Treated(s, g, w, file, today, false), g(s.RenderTier1Prompt(file), w.calls);
            && Calls(s, w, file, today, false) && pass.world.calls == w.calls + 1 && !pass.held
            && (pass.fault <==> reply.Fault?)
            && (pass.row.outcome == WasHeld <==> reply.Fault? || reply.Exhausted?)
            && pass.world.spent == w.spent + Charge(reply)
  {}

  lemma {:induction false} MoreRoomFits(s: Settings, rows: LedgerRows, files: seq<SourceFile>, room: int, more: int,
                                        o: nat)
    requires Fits(s, rows, files, room, o) && room <= more
    ensures Fits(s, rows, files, more, o)
  {
    if files != [] {
      if s.IsDone(rows, files[0]) || s.Oversized(files[0]) {
        MoreRoomFits(s, rows, files[1..], room, more, o);
      } else {
        var e := s.Estimate(files[0]);
        MoreRoomFits(s, rows, files[1..], room - e - o, more - e - o, o);
      }
    }
  }

  // ----- Enough room -----

  /** With room for the worst case nothing is held, whatever the gateway. */
  lemma {:induction false} FittingHoldsNothing(s: Settings, g: Gateway, w: World, files: seq<SourceFile>, today: int,
                                               o: nat)
    requires s.quota.Valid() && DistinctKeys(files) && Overruns(s, g, w, files, today, false, o)
    requires Fits(s, w.rows, files, Room(s, w.spent, today), o)
    ensures NoneHeld(SummarisedAll(s, g, w, files, today, false))
    decreases |files|
  {
    if files != [] {
      var pass := Treated(s, g, w, files[0], today, false);
      FittingPass(s, g, w, files, today, o);
      FittingHoldsNothing(s, g, pass.world, files[1..], today, o);
      var rest := SummarisedAll(s, g, pass.world, files[1..], today, false);
      HeadAndRest(pass.row, rest.rows, rest.world);
    }
  }

  lemma FittingPass(s: Settings, g: Gateway, w: World, files: seq<SourceFile>, today: int, o: nat)
    requires s.quota.Valid() && files != [] && DistinctKeys(files) && Overruns(s, g, w, files, today, false, o)
    requires Fits(s, w.rows, files, Room(s, w.spent, today), o)
    ensures var pass := Treated(s, g, w, files[0], today, false);
            && pass.row.outcome != WasHeld && !pass.held && !pass.fault && DistinctKeys(files[1..])
            && Fits(s, pass.world.rows, files[1..], Room(s, pass.world.spent, today), o)
  {
    var pass, room := Treated(s, g, w, files[0], today, false), Room(s, w.spent, today);
    var e := s.Estimate(files[0]);
    PassOf(s, g, w, files[0], today);
    RestHasOtherKeys(files);
    OthersStayDue(s, w.rows, pass.world.rows, files[0].Key(), files[1..], Room(s, pass.world.spent, today), o);
    if !s.IsDone(w.rows, files[0]) && !s.Oversized(files[0]) {
      CallOf(s, g, w, files[0], today);
      MoreRoomFits(s, w.rows, files[1..], room - e - o, Room(s, pass.world.spent, today), o);
    }
  }

  // ----- The worst gateway -----

  /** Answers the k-th call after `base` with the k-th estimate and the whole overrun. */
  function WorstGateway(estimates: seq<nat>, base: nat, o: nat): Gateway {
    (prompt, n) => Answer(if base <= n < base + |estimates| then estimates[n - base] + o else 0, Summary(""))
  }

  /** The calls made so far and those to come make up the estimates the worst gateway knows. */
  ghost predicate OnCourse(s: Settings, estimates: seq<nat>, base: nat, w: World, files: seq<SourceFile>) {
    && base <= w.calls <= base + |estimates|
    && estimates[w.calls - base..] == CallEstimates(s, w.rows, files)
  }

  /** Against the worst gateway a pass that does not hold stays on course, and takes the whole worst case. */
  lemma WorstPass(s: Settings, estimates: seq<nat>, base: nat, w: World, files: seq<SourceFile>, today: int, o: nat)
    requires s.quota.Valid() && DistinctKeys(files) && files != [] && OnCourse(s, estimates, base, w, files)
    ensures var pass := Treated(s, WorstGateway(estimates, base, o), w, files[0], today, false);
            var due, e := !s.IsDone(w.rows, files[0]), s.Estimate(files[0]);
            && !pass.fault && (pass.row.outcome == WasHeld <==> pass.held) && DistinctKeys(files[1..])
            && SameButAt(w.rows, pass.world.rows, files[0].Key()) && NoneHasKey(files[1..], files[0].Key())
            && (pass.held <==> due && e > Room(s, w.spent, today))
            && (!pass.held ==>
                  && OnCourse(s, estimates, base, pass.world, files[1..])
                  && pass.world.spent == w.spent + if due && !s.Oversized(files[0]) then e + o else 0)
  {
    var g := WorstGateway(estimates, base, o);
    var pass := Treated(s, g, w, files[0], today, false);
    PassOf(s, g, w, files[0], today);
    RestHasOtherKeys(files);
    OthersStayDue(s, w.rows, pass.world.rows, files[0].Key(), files[1..], 0, o);
    if !s.IsDone(w.rows, files[0]) && !s.Oversized(files[0]) && s.Estimate(files[0]) <= Room(s, w.spent, today) {
      CallOf(s, g, w, files[0], today);
      FirstOfEstimates(s, estimates, base, w, files);
    }
  }

  lemma FirstOfEstimates(s: Settings, estimates: seq<nat>, base: nat, w: World, files: seq<SourceFile>)
    requires files != [] && OnCourse(s, estimates, base, w, files)
    requires !s.IsDone(w.rows, files[0]) && !s.Oversized(files[0])
    ensures w.calls < base + |estimates| && estimates[w.calls - base] == s.Estimate(files[0])
    ensures estimates[w.calls + 1 - base..] == CallEstimates(s, w.rows, files[1..])
  {
    var here := estimates[w.calls - base..];
    assert here == [s.Estimate(files[0])] + CallEstimates(s, w.rows, files[1..]);
    assert here[0] == s.Estimate(files[0]) && here[1..] == CallEstimates(s, w.rows, files[1..]);
    assert estimates[w.calls + 1 - base..] == here[1..];
  }

  lemma {:induction false} WorstGatewayOverruns(s: Settings, estimates: seq<nat>, base: nat, w: World,
                                                files: seq<SourceFile>, today: int, o: nat)
    requires s.quota.Valid() && DistinctKeys(files) && OnCourse(s, estimates, base, w, files)
    ensures Overruns(s, WorstGateway(estimates, base, o), w, files, today, false, o)
    decreases |files|
  {
    if files != [] {
      var g := WorstGateway(estimates, base, o);
      var pass := Treated(s, g, w, files[0], today, false);
      WorstPass(s, estimates, base, w, files, today, o);
      if pass.held {
        HeldCallsNothing(s, g, pass.world, files[1..], today, o);
      } else {
        WorstGatewayOverruns(s, estimates, base, pass.world, files[1..], today, o);
      }
      if Calls(s, w, files[0], today, false) {
        FirstOfEstimates(s, estimates, base, w, files);
      }
    }
  }

  /** When the rest fits the room the worst gateway leaves, the whole fits the room before it. */
  lemma WorstPassFits(s: Settings, estimates: seq<nat>, base: nat, w: World, files: seq<SourceFile>, today: int, o: nat)
    requires s.quota.Valid() && DistinctKeys(files) && files != [] && OnCourse(s, estimates, base, w, files)
    requires var pass := Treated(s, WorstGateway(estimates, base, o), w, files[0], today, false);
             !pass.held && Fits(s, pass.world.rows, files[1..], Room(s, pass.world.spent, today), o)
    ensures Fits(s, w.rows, files, Room(s, w.spent, today), o)
  {
    var pass := Treated(s, WorstGateway(estimates, base, o), w, files[0], today, false);
    WorstPass(s, estimates, base, w, files, today, o);
    OthersStayDue(s, w.rows, pass.world.rows, files[0].Key(), files[1..], Room(s, pass.world.spent, today), o);
  }

  /** The worst gateway holds a file when the worst case does not fit. */
  lemma {:induction false} WorstGatewayHolds(s: Settings, estimates: seq<nat>, base: nat, w: World,
                                             files: seq<SourceFile>, today: int, o: nat)
    requires s.quota.Valid() && DistinctKeys(files) && OnCourse(s, estimates, base, w, files)
    ensures NoneHeld(SummarisedAll(s, WorstGateway(estimates, base, o), w, files, today, false)) ==>
              Fits(s, w.rows, files, Room(s, w.spent, today), o)
    decreases |files|
  {
    if files != [] {
      var g := WorstGateway(estimates, base, o);
      var pass := Treated(s, g, w, files[0], today, false);
      WorstPass(s, estimates, base, w, files, today, o);
      var rest := SummarisedAll(s, g, pass.world, files[1..], today, pass.held);
      HeadAndRest(pass.row, rest.rows, rest.world);
      if !pass.held {
        WorstGatewayHolds(s, estimates, base, pass.world, files[1..], today, o);
        if NoneHeld(rest) {
          WorstPassFits(s, estimates, base, w, files, today, o);
        }
      }
    }
  }

  lemma {:induction false} HeldCallsNothing(s: Settings, g: Gateway, w: World, files: seq<SourceFile>, today: int,
                                            o: nat)
    requires s.quota.Valid()
    ensures Overruns(s, g, w, files, today, true, o)
    ensures !SummarisedAll(s, g, w, files, today, true).fault
    decreases |files|
  {
    if files != [] {
      HeldCallsNothing(s, g, w, files[1..], today, o);
    }
  }

  lemma SomeGatewayHolds(s: Settings, w: World, files: seq<SourceFile>, today: int, o: nat)
    requires s.quota.Valid() && DistinctKeys(files) && !Fits(s, w.rows, files, Room(s, w.spent, today), o)
    ensures exists g ::
        Overruns(s, g, w, files, today, false, o) && !NoneHeld(SummarisedAll(s, g, w, files, today, false))
  {
    var estimates := CallEstimates(s, w.rows, files);
    assert estimates[w.calls - w.calls..] == estimates;
    WorstGatewayHolds(s, estimates, w.calls, w, files, today, o);
    WorstGatewayOverruns(s, estimates, w.calls, w, files, today, o);
    assert Overruns(s, WorstGateway(estimates, w.calls, o), w, files, today, false, o);
  }

  /** The exact condition, known before the first call: nothing in the service is held by ANY gateway whose calls
      overrun their estimates by at most o, if and only if the worst case fits. */
  lemma NothingHeldIffFits(s: Settings, w: World, files: seq<SourceFile>, today: int, o: nat)
    requires s.quota.Valid() && DistinctKeys(files)
    ensures (forall g | Overruns(s, g, w, files, today, false, o) ::
                NoneHeld(SummarisedAll(s, g, w, files, today, false)))
            <==> Fits(s, w.rows, files, Room(s, w.spent, today), o)
  {
    if Fits(s, w.rows, files, Room(s, w.spent, today), o) {
      forall g | Overruns(s, g, w, files, today, false, o)
        ensures NoneHeld(SummarisedAll(s, g, w, files, today, false))
      {
        FittingHoldsNothing(s, g, w, files, today, o);
      }
    } else {
      SomeGatewayHolds(s, w, files, today, o);
    }
  }

  // ----- Services without oversized files -----

  function Sum(xs: seq<nat>): nat { if xs == [] then 0 else xs[0] + Sum(xs[1..]) }

  /** No due file is too large for a prompt, so each is called. */
  ghost predicate AllCallable(s: Settings, rows: LedgerRows, files: seq<SourceFile>) {
    forall i :: 0 <= i < |files| ==> s.IsDone(rows, files[i]) || !s.Oversized(files[i])
  }

  /** The same on the estimates alone. */
  predicate EstimatesFit(estimates: seq<nat>, room: int, o: nat) {
    estimates == [] || (estimates[0] <= room && EstimatesFit(estimates[1..], room - estimates[0] - o, o))
  }

  lemma FirstEstimateFits(first: nat, rest: seq<nat>, room: int, o: nat)
    ensures EstimatesFit([first] + rest, room, o) <==> first <= room && EstimatesFit(rest, room - first - o, o)
  {
    assert ([first] + rest)[1..] == rest;
  }

  lemma {:induction false} FitsByEstimates(s: Settings, rows: LedgerRows, files: seq<SourceFile>, room: int, o: nat)
    requires AllCallable(s, rows, files)
    ensures Fits(s, rows, files, room, o) <==> EstimatesFit(CallEstimates(s, rows, files), room, o)
  {
    if files != [] {
      var due, rest := CallEstimates(s, rows, files), CallEstimates(s, rows, files[1..]);
      if s.IsDone(rows, files[0]) {
        FitsByEstimates(s, rows, files[1..], room, o);
        assert due == rest;
      } else {
        FitsByEstimates(s, rows, files[1..], room - s.Estimate(files[0]) - o, o);
        assert due[0] == s.Estimate(files[0]) && due[1..] == rest;
      }
    }
  }

  lemma {:induction false} EstimatesFitInClosedForm(estimates: seq<nat>, room: int, o: nat)
    requires estimates != []
    ensures EstimatesFit(estimates, room, o) <==> Sum(estimates) + (|estimates| - 1) * o <= room
  {
    if |estimates| > 1 {
      EstimatesFitInClosedForm(estimates[1..], room - estimates[0] - o, o);
      assert (|estimates| - 1) * o == (|estimates| - 2) * o + o;
    } else {
      assert estimates[1..] == [];
    }
  }

  lemma {:induction false} EstimatesArePositive(s: Settings, rows: LedgerRows, files: seq<SourceFile>)
    ensures CallEstimates(s, rows, files) != [] ==> Sum(CallEstimates(s, rows, files)) > 0
  {
    if files != [] {
      EstimatesArePositive(s, rows, files[1..]);
      var due, rest := CallEstimates(s, rows, files), CallEstimates(s, rows, files[1..]);
      assert due == rest || (due[0] == s.Estimate(files[0]) && due[1..] == rest);
    }
  }

  lemma AvailableIsRoom(s: Settings, spent: int, today: int, need: int)
    requires s.quota.Valid() && need > 0
    ensures need <= s.quota.Available(s.periodStart, spent, today) <==> need <= Room(s, spent, today)
  {}

  /** Without oversized files: nothing is held by any such gateway if and only if the due estimates and an overrun
      for each call but the last fit what is available. */
  lemma NothingHeldIffOverrunsFit(s: Settings, w: World, files: seq<SourceFile>, today: int, o: nat)
    requires s.quota.Valid() && DistinctKeys(files) && AllCallable(s, w.rows, files)
    requires CallEstimates(s, w.rows, files) != []
    ensures var due := CallEstimates(s, w.rows, files);
            (forall g | Overruns(s, g, w, files, today, false, o) ::
                NoneHeld(SummarisedAll(s, g, w, files, today, false)))
            <==> Sum(due) + (|due| - 1) * o <= s.quota.Available(s.periodStart, w.spent, today)
  {
    NothingHeldIffFits(s, w, files, today, o);
    FitsInClosedForm(s, w, files, today, o);
  }

  lemma FitsInClosedForm(s: Settings, w: World, files: seq<SourceFile>, today: int, o: nat)
    requires s.quota.Valid() && AllCallable(s, w.rows, files) && CallEstimates(s, w.rows, files) != []
    ensures var due := CallEstimates(s, w.rows, files);
            Fits(s, w.rows, files, Room(s, w.spent, today), o) <==>
            Sum(due) + (|due| - 1) * o <= s.quota.Available(s.periodStart, w.spent, today)
  {
    var due := CallEstimates(s, w.rows, files);
    FitsByEstimates(s, w.rows, files, Room(s, w.spent, today), o);
    EstimatesFitInClosedForm(due, Room(s, w.spent, today), o);
    EstimatesArePositive(s, w.rows, files);
    NeedIsPositive(due, o);
    AvailableIsRoom(s, w.spent, today, Sum(due) + (|due| - 1) * o);
  }

  lemma NeedIsPositive(estimates: seq<nat>, o: nat)
    requires estimates != [] && Sum(estimates) > 0
    ensures Sum(estimates) + (|estimates| - 1) * o > 0
  {
    assert (|estimates| - 1) * o >= 0;
  }

  /** When nothing is held, the ledger shows every file at its content, summarised or dead-lettered. */
  lemma {:induction false} NoneHeldSettles(s: Settings, g: Gateway, w: World, files: seq<SourceFile>, today: int)
    requires s.quota.Valid() && DistinctKeys(files) && NoneHeld(SummarisedAll(s, g, w, files, today, false))
    ensures AllSettled(s, SummarisedAll(s, g, w, files, today, false).world.rows, files, false)
    decreases |files|
  {
    if files != [] {
      var f, pass := files[0], Treated(s, g, w, files[0], today, false);
      var rest := SummarisedAll(s, g, pass.world, files[1..], today, pass.held);
      HeadAndRest(pass.row, rest.rows, rest.world);
      assert Settled(s, pass.world.rows, f, false) && !pass.held;
      forall h <- files[1..] ensures h.Key() != f.Key() {
        var i :| 0 <= i < |files| - 1 && files[1..][i] == h;
        assert files[0].Key() != files[i + 1].Key();
      }
      RowsElsewhere(s, g, pass.world, files[1..], today, false, f.Key());
      NoneHeldSettles(s, g, pass.world, files[1..], today);
      forall h <- files ensures Settled(s, rest.world.rows, h, false) {
        assert h == f || h in files[1..];
      }
    }
  }

  /** An exhausted quota after approval is the other way to hold a file: that one is held, with or without room. */
  lemma ExhaustedQuotaHolds(s: Settings, g: Gateway, w: World, file: SourceFile, files: seq<SourceFile>, today: int)
    requires s.quota.Valid() && Calls(s, w, file, today, false) && g(s.RenderTier1Prompt(file), w.calls).Exhausted?
    ensures var batch := SummarisedAll(s, g, w, [file] + files, today, false);
            !NoneHeld(batch) && (!batch.fault ==>
                batch.rows != [] && batch.rows[0] == ResultRow(file.Key(), WasHeld, 0))
  {
    assert ([file] + files)[1..] == files;
    var pass := Treated(s, g, w, file, today, false);
    var rest := SummarisedAll(s, g, pass.world, files, today, pass.held);
    HeadAndRest(pass.row, rest.rows, rest.world);
  }
}
