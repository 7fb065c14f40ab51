/** The session reaper's sweep: which sessions' compute may be released, and how one pass
    spends its per-lane budgets before its deadline. The decision is a function of a row,
    its workflow and the clock; the pass is a fold of it over the scanned rows; and a series
    of passes drains a lane's backlog at the rate of its budget. */
module SessionSweep {
  import opened Text

  // ----- the decision -----

  /** A timestamp field: missing or unreadable, a moment, or a time without an offset, which
      cannot be subtracted from an aware clock. */
  datatype Stamp = NoStamp | At(seconds: int) | Naive

  /** Missing ids are empty strings. */
  datatype Row = Row(sessionId: string, runtimeArn: string, workflowId: string, workflowOrigin: bool,
                     updatedAt: Stamp, createdAt: Stamp)

  datatype Workflow = Workflow(phase: string, terminalAt: Stamp)

  datatype Knobs = Knobs(graceCp: nat, graceEfs: nat, idleCp: nat, missingWorkflow: nat)

  datatype Lane = Cp | Efs

  datatype Decision = Keep | Due(reason: string) | Raises

  predicate Terminal(phase: string) { phase in {"complete", "error", "cancelled", "deploy-blocked", "static-ci-only"} }

  function LastTouch(row: Row): Stamp { if row.updatedAt.NoStamp? then row.createdAt else row.updatedAt }

  predicate OlderThan(t: Stamp, now: int, limit: int) { t.At? && now - t.seconds > limit }

  /** _decide */
  function Decide(row: Row, workflows: map<string, Workflow>, lane: Lane, now: int, k: Knobs): Decision {
    if LastTouch(row).Naive? then Raises
    else if row.workflowId != "" || row.workflowOrigin then
      if row.workflowId == "" || row.workflowId !in workflows then
        if OlderThan(LastTouch(row), now, k.missingWorkflow) then Due("workflow-missing") else Keep
      else
        var wf := workflows[row.workflowId];
        if !Terminal(wf.phase) then Keep
        else if wf.terminalAt.Naive? then Raises
        else if wf.terminalAt.NoStamp? || OlderThan(wf.terminalAt, now, if lane == Cp then k.graceCp else k.graceEfs)
        then Due("workflow-" + wf.phase) else Keep
    else if lane == Cp && OlderThan(LastTouch(row), now, k.idleCp) then Due("idle")
    else Keep
  }

  /** For fixed rows time only ever turns Keep into Due: what is due stays due, for the
      same reason. */
  lemma DueStaysDue(row: Row, workflows: map<string, Workflow>, lane: Lane, now: int, later: int, k: Knobs)
    requires now <= later && Decide(row, workflows, lane, now, k).Due?
    ensures Decide(row, workflows, lane, later, k) == Decide(row, workflows, lane, now, k)
  {
  }

  /** When a session's release falls due, for rows that stand as they are. */
  datatype DueTime = Never | Always | After(moment: int) | Unreadable

  function SinceStamp(t: Stamp, limit: int, missing: DueTime): DueTime {
    match t
    case NoStamp => missing
    case At(seconds) => After(seconds + limit)
    case Naive => Unreadable
  }

  /** A session of a run waits for the run to end and for the lane's grace, one whose run is
      gone for its own age, and a person's only in the control-plane lane for its idleness;
      a run that ended at no known time is due at once. */
  function DueTimeOf(row: Row, workflows: map<string, Workflow>, lane: Lane, k: Knobs): DueTime {
    var touched := if row.updatedAt == NoStamp then row.createdAt else row.updatedAt;
    var ofRun := row.workflowId != "" || row.workflowOrigin;
    if touched == Naive then Unreadable
    else if ofRun && row.workflowId in workflows && row.workflowId != "" then
      var run := workflows[row.workflowId];
      if run.phase !in {"complete", "error", "cancelled", "deploy-blocked", "static-ci-only"} then Never
      else SinceStamp(run.terminalAt, match lane case Cp => k.graceCp case Efs => k.graceEfs, Always)
    else if ofRun then SinceStamp(touched, k.missingWorkflow, Never)
    else match lane
      case Efs => Never
      case Cp => SinceStamp(touched, k.idleCp, Never)
  }

  /** A release is decided at a moment exactly when it is past the session's time, and the
      decision raises exactly when that time cannot be read. */
  lemma DueExactlyFrom(row: Row, workflows: map<string, Workflow>, lane: Lane, now: int, k: Knobs)
    ensures Decide(row, workflows, lane, now, k).Due? <==>
            match DueTimeOf(row, workflows, lane, k)
            case Never => false
            case Always => true
            case After(moment) => now > moment
            case Unreadable => false
    ensures Decide(row, workflows, lane, now, k).Raises? <==> DueTimeOf(row, workflows, lane, k).Unreadable?
  {
  }

  // ----- one pass -----

  /** What the environment answers for a row: the runtime lookup, whether the time left is
      below the margin when asked, and whether the release and its stamp went through. */
  datatype Answers = Answers(lookup: Option<Lane>, late: bool, released: bool)

  datatype Outcome = Kept | Skipped | LookupError | Failed(lane: Lane) | Planned(lane: Lane)
                    | Deferred(lane: Lane) | Released(lane: Lane)

  /** The pass so far: budgets left, the deadline flag, and each row's outcome. */
  datatype Pass = Pass(cp: nat, efs: nat, deadlineHit: bool, outcomes: seq<Outcome>)

  datatype Sweep = Sweep(workflows: map<string, Workflow>, now: int, knobs: Knobs, defaultArn: string, dryRun: bool)

  function Left(p: Pass, lane: Lane): nat { if lane == Cp then p.cp else p.efs }

  function Spend(p: Pass, lane: Lane): Pass
    requires Left(p, lane) > 0
  {
    if lane == Cp then p.(cp := p.cp - 1) else p.(efs := p.efs - 1)
  }

  function Note(p: Pass, o: Outcome): Pass { p.(outcomes := p.outcomes + [o]) }

  /** A row whose release is due, in its lane. */
  function Serve(p: Pass, lane: Lane, dryRun: bool, a: Answers): Pass {
    if Left(p, lane) == 0 then Note(p, Skipped)
    else
      var spent := Spend(p, lane);
      if dryRun then Note(spent, Planned(lane))
      else
        var timed := spent.(deadlineHit := spent.deadlineHit || a.late);
        if timed.deadlineHit then Note(timed, Deferred(lane))
        else if a.released then Note(timed, Released(lane))
        else Note(timed, Failed(lane))
  }

  function Nameless(row: Row, s: Sweep): bool { row.sessionId == "" || (row.runtimeArn == "" && s.defaultArn == "") }

  /** The pass after one row; None when the decision raises, which ends the sweep. */
  function Step(p: Pass, row: Row, s: Sweep, a: Answers): Option<Pass> {
    if Nameless(row, s) then Some(Note(p, Skipped))
    else if a.lookup.None? then Some(Note(p, LookupError))
    else match Decide(row, s.workflows, a.lookup.value, s.now, s.knobs)
      case Raises => None
      case Keep => Some(Note(p, Kept))
      case Due(_) => Some(Serve(p, a.lookup.value, s.dryRun, a))
  }

  /** The pass over the first n rows. */
  function Swept(rows: seq<Row>, answers: seq<Answers>, n: nat, s: Sweep, start: Pass): Option<Pass>
    requires n <= |rows| == |answers|
  {
    if n == 0 then Some(start)
    else match Swept(rows, answers, n - 1, s, start)
      case None => None
      case Some(p) => Step(p, rows[n - 1], s, answers[n - 1])
  }

  function StartOf(maxCp: nat, maxEfs: nat): Pass { Pass(maxCp, maxEfs, false, []) }

  function Count(outcomes: seq<Outcome>, o: Outcome): nat { multiset(outcomes)[o] }

  function Errors(outcomes: seq<Outcome>): nat {
    Count(outcomes, LookupError) + Count(outcomes, Failed(Cp)) + Count(outcomes, Failed(Efs))
  }

  datatype Summary = Summary(scanned: nat, releasedCp: nat, releasedEfs: nat, planned: seq<(string, Lane)>,
                             skipped: nat, errors: nat, deferred: nat, deadlineHit: bool)

  /** The summary's counters are those of the outcomes. */
  ghost predicate Tallies(m: Summary, p: Pass) {
    && m.releasedCp == Count(p.outcomes, Released(Cp)) && m.releasedEfs == Count(p.outcomes, Released(Efs))
    && |m.planned| == Count(p.outcomes, Planned(Cp)) + Count(p.outcomes, Planned(Efs))
    && m.skipped == Count(p.outcomes, Skipped) && m.errors == Errors(p.outcomes)
    && m.deferred == Count(p.outcomes, Deferred(Cp)) + Count(p.outcomes, Deferred(Efs))
    && m.deadlineHit == p.deadlineHit
  }

  /** The row's effect on the summary, given its outcome. */
  function Tally(m: Summary, row: Row, o: Outcome, deadlineHit: bool): Summary {
    var noted := match o
      case Kept => m
      case Skipped => m.(skipped := m.skipped + 1)
      case LookupError => m.(errors := m.errors + 1)
      case Failed(_) => m.(errors := m.errors + 1)
      case Planned(lane) => m.(planned := m.planned + [(row.sessionId, lane)])
      case Deferred(_) => m.(deferred := m.deferred + 1)
      case Released(Cp) => m.(releasedCp := m.releasedCp + 1)
      case Released(Efs) => m.(releasedEfs := m.releasedEfs + 1);
    noted.(deadlineHit := deadlineHit)
  }

  lemma CountOne(outcomes: seq<Outcome>, o: Outcome, x: Outcome)
    ensures Count(outcomes + [o], x) == Count(outcomes, x) + if o == x then 1 else 0
  {
    assert multiset(outcomes + [o]) == multiset(outcomes) + multiset{o};
  }

  lemma CountLanes(outcomes: seq<Outcome>, o: Outcome, lane: Lane)
    ensures Count(outcomes + [o], Released(lane)) == Count(outcomes, Released(lane)) + if o == Released(lane) then 1 else 0
    ensures Count(outcomes + [o], Planned(lane)) == Count(outcomes, Planned(lane)) + if o == Planned(lane) then 1 else 0
    ensures Count(outcomes + [o], Deferred(lane)) == Count(outcomes, Deferred(lane)) + if o == Deferred(lane) then 1 else 0
    ensures Count(outcomes + [o], Failed(lane)) == Count(outcomes, Failed(lane)) + if o == Failed(lane) then 1 else 0
  {
    hide Count;
    CountOne(outcomes, o, Released(lane));
    CountOne(outcomes, o, Planned(lane));
    CountOne(outcomes, o, Deferred(lane));
    CountOne(outcomes, o, Failed(lane));
  }

  lemma TallyOne(m: Summary, p: Pass, row: Row, o: Outcome, q: Pass)
    requires Tallies(m, p) && q.outcomes == p.outcomes + [o]
    ensures Tallies(Tally(m, row, o, q.deadlineHit), q)
  {
    hide Count;
    assert o.Failed? || o.Planned? || o.Deferred? || o.Released? ==> o.lane == Cp || o.lane == Efs;
    CountOne(p.outcomes, o, Skipped);
    CountOne(p.outcomes, o, LookupError);
    CountLanes(p.outcomes, o, Cp);
    CountLanes(p.outcomes, o, Efs);
  }

  /** The part of the loop that spends a lane's budget on a due row. */
  method ServeRow(row: Row, lane: Lane, a: Answers, dryRun: bool, budgetCp: nat, budgetEfs: nat, before: Summary,
                  ghost p: Pass)
    returns (ghost o: Outcome, cp: nat, efs: nat, m: Summary)
    requires p.cp == budgetCp && p.efs == budgetEfs && before.deadlineHit == p.deadlineHit
    ensures var q := Serve(p, lane, dryRun, a);
            q.outcomes == p.outcomes + [o] && q.cp == cp && q.efs == efs && m == Tally(before, row, o, q.deadlineHit)
    ensures m.scanned == before.scanned
  {
    cp, efs, m := budgetCp, budgetEfs, before;
    if (if lane == Cp then cp else efs) == 0 {
      m := m.(skipped := m.skipped + 1);
      return Skipped, cp, efs, m;
    }
    if lane == Cp {
      cp := cp - 1;
    } else {
      efs := efs - 1;
    }
    if dryRun {
      m := m.(planned := m.planned + [(row.sessionId, lane)]);
      return Planned(lane), cp, efs, m;
    }
    if !m.deadlineHit && a.late {
      m := m.(deadlineHit := true);
    }
    if m.deadlineHit {
      m := m.(deferred := m.deferred + 1);
      return Deferred(lane), cp, efs, m;
    }
    if !a.released {
      m := m.(errors := m.errors + 1);
      return Failed(lane), cp, efs, m;
    }
    if lane == Cp {
      m := m.(releasedCp := m.releasedCp + 1);
    } else {
      m := m.(releasedEfs := m.releasedEfs + 1);
    }
    return Released(lane), cp, efs, m;
  }

  /** One turn of the sweep's loop. */
  method SweepRow(row: Row, a: Answers, s: Sweep, budgetCp: nat, budgetEfs: nat, before: Summary, ghost p: Pass)
    returns (raised: bool, ghost o: Outcome, cp: nat, efs: nat, m: Summary)
    requires p.cp == budgetCp && p.efs == budgetEfs && before.deadlineHit == p.deadlineHit
    ensures m.scanned == before.scanned
    ensures raised <==> Step(p, row, s, a).None?
    ensures !raised ==> var q := Step(p, row, s, a).value;
                        q.outcomes == p.outcomes + [o] && q.cp == cp && q.efs == efs
                        && m == Tally(before, row, o, q.deadlineHit)
  {
    hide Decide, Serve;
    raised, o, cp, efs, m := false, Kept, budgetCp, budgetEfs, before;
    if Nameless(row, s) {
      o := Skipped;
      m := m.(skipped := m.skipped + 1);
      return;
    }
    if a.lookup.None? {
      o := LookupError;
      m := m.(errors := m.errors + 1);
      return;
    }
    var lane := a.lookup.value;
    var decision := Decide(row, s.workflows, lane, s.now, s.knobs);
    if decision.Raises? {
      raised := true;
    } else if decision.Due? {
      o, cp, efs, m := ServeRow(row, lane, a, s.dryRun, cp, efs, m, p);
    }
  }

  /** _sweep over its scanned rows; None when a decision raises. */
  method SweepRows(rows: seq<Row>, answers: seq<Answers>, s: Sweep, maxCp: nat, maxEfs: nat)
    returns (summary: Option<Summary>)
    requires |rows| == |answers|
    ensures var pass := Swept(rows, answers, |rows|, s, StartOf(maxCp, maxEfs));
            && (summary.None? <==> pass.None?)
            && (summary.Some? ==> summary.value.scanned == |rows| && Tallies(summary.value, pass.value))
  {
    var budgetCp, budgetEfs := maxCp, maxEfs;
    var m := Summary(|rows|, 0, 0, [], 0, 0, 0, false);
    ghost var start := StartOf(maxCp, maxEfs);
    TallyNothing(m, start);
    hide Tallies, Step, Swept;
    SweptNone(rows, answers, s, start);
    for i := 0 to |rows|
      invariant m.scanned == |rows| && InStep(Swept(rows, answers, i, s, start), budgetCp, budgetEfs, m)
    {
      ghost var p := Swept(rows, answers, i, s, start).value;
      DeadlineOf(m, p);
      SweptNext(rows, answers, i, s, start);
      ghost var before := m;
      var raised;
      ghost var o;
      raised, o, budgetCp, budgetEfs, m := SweepRow(rows[i], answers[i], s, budgetCp, budgetEfs, m, p);
      if raised {
        SweptStuck(rows, answers, i, |rows|, s, start);
        return None;
      }
      TallyOne(before, p, rows[i], o, Swept(rows, answers, i + 1, s, start).value);
    }
    return Some(m);
  }

  /** The loop's variables are those of the pass so far. */
  ghost predicate InStep(pass: Option<Pass>, cp: nat, efs: nat, m: Summary) {
    pass.Some? && pass.value.cp == cp && pass.value.efs == efs && Tallies(m, pass.value)
  }

  lemma SweptNone(rows: seq<Row>, answers: seq<Answers>, s: Sweep, start: Pass)
    requires |rows| == |answers|
    ensures Swept(rows, answers, 0, s, start) == Some(start)
  {
  }

  lemma SweptNext(rows: seq<Row>, answers: seq<Answers>, i: nat, s: Sweep, start: Pass)
    requires i < |rows| == |answers| && Swept(rows, answers, i, s, start).Some?
    ensures Swept(rows, answers, i + 1, s, start) == Step(Swept(rows, answers, i, s, start).value, rows[i], s, answers[i])
  {
  }

  lemma TallyNothing(m: Summary, p: Pass)
    requires m == Summary(m.scanned, 0, 0, [], 0, 0, 0, false) && p.outcomes == [] && !p.deadlineHit
    ensures Tallies(m, p)
  {
  }

  lemma DeadlineOf(m: Summary, p: Pass)
    requires Tallies(m, p)
    ensures m.deadlineHit == p.deadlineHit
  {
  }

  lemma {:induction false} SweptStuck(rows: seq<Row>, answers: seq<Answers>, i: nat, n: nat, s: Sweep, start: Pass)
    requires i < n <= |rows| == |answers| && Swept(rows, answers, i + 1, s, start).None?
    ensures Swept(rows, answers, n, s, start).None?
  {
    if i + 1 < n {
      SweptStuck(rows, answers, i, n - 1, s, start);
    }
  }

  // ----- what a pass keeps -----

  function Charged(outcomes: seq<Outcome>, lane: Lane): nat {
    Count(outcomes, Planned(lane)) + Count(outcomes, Deferred(lane))
    + Count(outcomes, Released(lane)) + Count(outcomes, Failed(lane))
  }

  lemma ChargedOne(outcomes: seq<Outcome>, o: Outcome, lane: Lane)
    ensures Charged(outcomes + [o], lane) ==
            Charged(outcomes, lane) + if o in {Planned(lane), Deferred(lane), Released(lane), Failed(lane)} then 1 else 0
  {
    assert multiset(outcomes + [o]) == multiset(outcomes) + multiset{o};
  }

  /** Every scanned row gets exactly one outcome, and what a lane was charged plus what it
      has left is its budget. */
  lemma {:induction false} BudgetsBalance(rows: seq<Row>, answers: seq<Answers>, n: nat, s: Sweep, maxCp: nat,
                                          maxEfs: nat)
    requires n <= |rows| == |answers| && Swept(rows, answers, n, s, StartOf(maxCp, maxEfs)).Some?
    ensures var p := Swept(rows, answers, n, s, StartOf(maxCp, maxEfs)).value;
            |p.outcomes| == n
            && Charged(p.outcomes, Cp) + p.cp == maxCp && Charged(p.outcomes, Efs) + p.efs == maxEfs
  {
    hide Step, Charged;
    if n > 0 {
      BudgetsBalance(rows, answers, n - 1, s, maxCp, maxEfs);
      StepBalances(Swept(rows, answers, n - 1, s, StartOf(maxCp, maxEfs)).value, rows[n - 1], s, answers[n - 1]);
    } else {
      NothingCharged();
    }
  }

  lemma StepBalances(p: Pass, row: Row, s: Sweep, a: Answers)
    requires Step(p, row, s, a).Some?
    ensures var q := Step(p, row, s, a).value;
            |q.outcomes| == |p.outcomes| + 1
            && Charged(q.outcomes, Cp) + q.cp == Charged(p.outcomes, Cp) + p.cp
            && Charged(q.outcomes, Efs) + q.efs == Charged(p.outcomes, Efs) + p.efs
  {
    hide Decide, Charged, Nameless;
    var q := Step(p, row, s, a).value;
    var o := q.outcomes[|p.outcomes|];
    assert q.outcomes == p.outcomes + [o];
    ChargedOne(p.outcomes, o, Cp);
    ChargedOne(p.outcomes, o, Efs);
  }

  lemma NothingCharged()
    ensures Charged([], Cp) == 0 && Charged([], Efs) == 0
  {
  }

  predicate Attempted(o: Outcome) { o.Released? || o.Failed? }

  /** A release is attempted only for a row that is due in that lane, and in earnest. */
  predicate Rightful(row: Row, a: Answers, s: Sweep, o: Outcome) {
    (Attempted(o) ==>
       !s.dryRun && !Nameless(row, s) && a.lookup == Some(o.lane)
       && Decide(row, s.workflows, o.lane, s.now, s.knobs).Due?)
    && (o.Deferred? ==> !s.dryRun)
  }

  /** No release after a deferral; and a deferral means the deadline flag is up. */
  ghost predicate DeadlineKept(p: Pass) {
    (forall i | 0 <= i < |p.outcomes| && p.outcomes[i].Deferred? :: p.deadlineHit)
    && forall i, j | 0 <= i < j < |p.outcomes| && p.outcomes[i].Deferred? :: !Attempted(p.outcomes[j])
  }

  lemma StepAdds(p: Pass, row: Row, s: Sweep, a: Answers)
    requires Step(p, row, s, a).Some? && DeadlineKept(p)
    ensures var q := Step(p, row, s, a).value;
            DeadlineKept(q)
            && exists o :: q.outcomes == p.outcomes + [o] && Rightful(row, a, s, o)
  {
    hide Decide;
    var q := Step(p, row, s, a).value;
    var o := q.outcomes[|p.outcomes|];
    assert q.outcomes == p.outcomes + [o] && Rightful(row, a, s, o);
    assert p.deadlineHit ==> q.deadlineHit && !Attempted(o);
  }

  /** No release starts once a row was deferred, none at all in a dry run, and none for a
      row whose decision is not due. */
  lemma {:induction false} ReleasesAreDue(rows: seq<Row>, answers: seq<Answers>, n: nat, s: Sweep, maxCp: nat,
                                          maxEfs: nat)
    requires n <= |rows| == |answers| && Swept(rows, answers, n, s, StartOf(maxCp, maxEfs)).Some?
    ensures var p := Swept(rows, answers, n, s, StartOf(maxCp, maxEfs)).value;
            |p.outcomes| == n && DeadlineKept(p)
            && forall i | 0 <= i < n :: Rightful(rows[i], answers[i], s, p.outcomes[i])
  {
    if n > 0 {
      ReleasesAreDue(rows, answers, n - 1, s, maxCp, maxEfs);
      var p := Swept(rows, answers, n - 1, s, StartOf(maxCp, maxEfs)).value;
      StepAdds(p, rows[n - 1], s, answers[n - 1]);
      hide Step, Rightful, DeadlineKept;
    }
  }

  /** The sweep ends early exactly when some row's decision compares a time without an
      offset; then no later row is even looked at. */
  lemma {:induction false} RaisesExactly(rows: seq<Row>, answers: seq<Answers>, n: nat, s: Sweep, start: Pass)
    requires n <= |rows| == |answers|
    ensures Swept(rows, answers, n, s, start).None? <==> exists i | 0 <= i < n :: RowRaises(rows[i], answers[i], s)
  {
    hide Decide;
    if n > 0 {
      RaisesExactly(rows, answers, n - 1, s, start);
      assert Step(start, rows[n - 1], s, answers[n - 1]).None? <==> RowRaises(rows[n - 1], answers[n - 1], s);
    }
  }

  predicate RowRaises(row: Row, a: Answers, s: Sweep) {
    !Nameless(row, s) && a.lookup.Some? && Decide(row, s.workflows, a.lookup.value, s.now, s.knobs).Raises?
  }

  // ----- draining a backlog -----

  /** A scanned row, the lane its runtime puts it in, and whether it counts as backlog. */
  datatype Entry = Entry(row: Row, lane: Lane, due: bool)

  type Scan = seq<Entry>

  predicate DueIn(e: Entry, s: Sweep) {
    !Nameless(e.row, s) && Decide(e.row, s.workflows, e.lane, s.now, s.knobs).Due?
  }

  /** Passed over: without a name, or kept. */
  predicate IdleIn(e: Entry, s: Sweep) {
    Nameless(e.row, s) || Decide(e.row, s.workflows, e.lane, s.now, s.knobs).Keep?
  }

  ghost predicate DuesDue(b: Scan, s: Sweep) {
    forall i | 0 <= i < |b| && b[i].due :: DueIn(b[i], s)
  }

  ghost predicate RestIdle(b: Scan, s: Sweep) {
    forall i | 0 <= i < |b| && !b[i].due :: IdleIn(b[i], s)
  }

  predicate Counts(e: Entry, lane: Lane) { e.due && e.lane == lane }

  /** The backlog of a lane in a scan. */
  function InLane(b: Scan, lane: Lane): nat {
    if b == [] then 0 else (if Counts(Last(b), lane) then 1 else 0) + InLane(Init(b), lane)
  }

  /** The backlog itself, in scan order. */
  function Dues(b: Scan): Scan {
    if b == [] then [] else Dues(Init(b)) + if Last(b).due then [Last(b)] else []
  }

  function RowsOf(b: Scan): seq<Row> { seq(|b|, i requires 0 <= i < |b| => b[i].row) }

  /** Lookups and releases succeed and there is time. */
  function Granted(b: Scan): seq<Answers> { seq(|b|, i requires 0 <= i < |b| => Answers(Some(b[i].lane), false, true)) }

  /** What is still there of the first n: the rows a sweep did not stamp. */
  function Unstamped(b: Scan, outcomes: seq<Outcome>, n: nat): Scan
    requires n <= |b| && n <= |outcomes|
  {
    if n == 0 then []
    else Unstamped(b, outcomes, n - 1) + if outcomes[n - 1].Released? then [] else [b[n - 1]]
  }

  function Minus(n: nat, k: nat): nat { if n >= k then n - k else 0 }

  function PassOver(b: Scan, n: nat, s: Sweep, maxCp: nat, maxEfs: nat): Option<Pass>
    requires n <= |b|
  {
    Swept(RowsOf(b), Granted(b), n, s, StartOf(maxCp, maxEfs))
  }

  lemma {:induction false} UnstampedMore(b: Scan, outcomes: seq<Outcome>, o: Outcome, n: nat)
    requires n <= |b| && n <= |outcomes|
    ensures Unstamped(b, outcomes + [o], n) == Unstamped(b, outcomes, n)
  {
    if n > 0 {
      UnstampedMore(b, outcomes, o, n - 1);
    }
  }

  lemma InLaneOne(b: Scan, e: Entry, lane: Lane)
    ensures InLane(b + [e], lane) == InLane(b, lane) + if Counts(e, lane) then 1 else 0
  {
    assert Init(b + [e]) == b;
  }

  function Served(p: Pass, e: Entry, s: Sweep): Pass {
    if !e.due then Note(p, if Nameless(e.row, s) then Skipped else Kept)
    else if Left(p, e.lane) == 0 then Note(p, Skipped)
    else Note(Spend(p, e.lane), Released(e.lane))
  }

  lemma StepServes(p: Pass, e: Entry, s: Sweep)
    requires !s.dryRun && !p.deadlineHit && (if e.due then DueIn(e, s) else IdleIn(e, s))
    ensures Step(p, e.row, s, Answers(Some(e.lane), false, true)) == Some(Served(p, e, s))
  {
    hide Decide, Nameless;
  }

  lemma PassNext(b: Scan, n: nat, s: Sweep, maxCp: nat, maxEfs: nat)
    requires n < |b| && DuesDue(b, s) && RestIdle(b, s) && !s.dryRun
    requires PassOver(b, n, s, maxCp, maxEfs).Some? && !PassOver(b, n, s, maxCp, maxEfs).value.deadlineHit
    ensures PassOver(b, n + 1, s, maxCp, maxEfs) == Some(Served(PassOver(b, n, s, maxCp, maxEfs).value, b[n], s))
  {
    StepServes(PassOver(b, n, s, maxCp, maxEfs).value, b[n], s);
    hide Step, DueIn, IdleIn;
  }

  /** The pass and what it leaves are as the budgets say. */
  ghost predicate Drawn(b: Scan, n: nat, pass: Option<Pass>, maxCp: nat, maxEfs: nat)
    requires n <= |b|
  {
    pass.Some? && |pass.value.outcomes| == n && !pass.value.deadlineHit
    && pass.value.cp == Minus(maxCp, InLane(b[..n], Cp)) && pass.value.efs == Minus(maxEfs, InLane(b[..n], Efs))
    && var left := Unstamped(b, pass.value.outcomes, n);
       InLane(left, Cp) == Minus(InLane(b[..n], Cp), maxCp)
       && InLane(left, Efs) == Minus(InLane(b[..n], Efs), maxEfs)
  }

  lemma CountsNext(b: Scan, n: nat, outcomes: seq<Outcome>, o: Outcome, lane: Lane)
    requires n < |b| && |outcomes| == n
    ensures InLane(b[..n + 1], lane) == InLane(b[..n], lane) + if Counts(b[n], lane) then 1 else 0
    ensures InLane(Unstamped(b, outcomes + [o], n + 1), lane) ==
            InLane(Unstamped(b, outcomes, n), lane) + if Counts(b[n], lane) && !o.Released? then 1 else 0
  {
    assert b[..n + 1] == b[..n] + [b[n]];
    InLaneOne(b[..n], b[n], lane);
    UnstampedMore(b, outcomes, o, n);
    var left := Unstamped(b, outcomes, n);
    InLaneOne(left, b[n], lane);
    assert left + [] == left;
  }

  lemma DrawnNext(b: Scan, n: nat, s: Sweep, p: Pass, maxCp: nat, maxEfs: nat)
    requires n < |b| && Drawn(b, n, Some(p), maxCp, maxEfs)
    ensures Drawn(b, n + 1, Some(Served(p, b[n], s)), maxCp, maxEfs)
  {
    hide InLane, Unstamped, Nameless;
    var q := Served(p, b[n], s);
    var o := q.outcomes[n];
    assert q.outcomes == p.outcomes + [o];
    CountsNext(b, n, p.outcomes, o, Cp);
    CountsNext(b, n, p.outcomes, o, Efs);
  }

  /** One granted sweep releases each lane's budget's worth of its backlog. */
  lemma {:induction false} OneSweep(b: Scan, n: nat, s: Sweep, maxCp: nat, maxEfs: nat)
    requires n <= |b| && DuesDue(b, s) && RestIdle(b, s) && !s.dryRun
    ensures Drawn(b, n, PassOver(b, n, s, maxCp, maxEfs), maxCp, maxEfs)
  {
    if n > 0 {
      OneSweep(b, n - 1, s, maxCp, maxEfs);
      PassNext(b, n - 1, s, maxCp, maxEfs);
      DrawnNext(b, n - 1, s, PassOver(b, n - 1, s, maxCp, maxEfs).value, maxCp, maxEfs);
      hide Drawn, PassOver, DuesDue, RestIdle;
    }
  }

  /** The rows a sweep leaves unstamped; all of them if it raised. */
  function LeftAfter(b: Scan, s: Sweep, maxCp: nat, maxEfs: nat): Scan {
    var pass := PassOver(b, |b|, s, maxCp, maxEfs);
    if pass.Some? && |pass.value.outcomes| == |b| then Unstamped(b, pass.value.outcomes, |b|) else b
  }

  /** Sweeps of the same world at later and later times. */
  ghost predicate Series(sweeps: seq<Sweep>) {
    forall i, j | 0 <= i < j < |sweeps| :: sweeps[i].now <= sweeps[j].now && sweeps[j] == sweeps[i].(now := sweeps[j].now)
  }

  /** What sweep k scans: the backlog left by the one before, in any order, among any rows
      that it passes over. The last scan is what is left in the end. */
  ghost predicate Course(scans: seq<Scan>, sweeps: seq<Sweep>, maxCp: nat, maxEfs: nat) {
    && |scans| == |sweeps| + 1
    && (forall k | 0 <= k < |sweeps| :: RestIdle(scans[k], sweeps[k]) && !sweeps[k].dryRun)
    && forall k | 0 <= k < |sweeps| :: Handed(scans[k], sweeps[k], scans[k + 1], maxCp, maxEfs)
  }

  ghost predicate Handed(b: Scan, s: Sweep, next: Scan, maxCp: nat, maxEfs: nat) {
    multiset(Dues(next)) == multiset(Dues(LeftAfter(b, s, maxCp, maxEfs)))
  }

  lemma {:induction false} DuesAre(b: Scan, e: Entry)
    ensures e in Dues(b) <==> e in b && e.due
  {
    if b != [] {
      DuesAre(Init(b), e);
      assert b == Init(b) + [Last(b)];
    }
  }

  lemma {:induction false} UnstampedFrom(b: Scan, outcomes: seq<Outcome>, n: nat, e: Entry)
    requires n <= |b| && n <= |outcomes| && e in Unstamped(b, outcomes, n)
    ensures e in b
  {
    if n > 0 && e != b[n - 1] {
      UnstampedFrom(b, outcomes, n - 1, e);
    }
  }

  /** The backlog handed on is due at the next sweep too. */
  lemma StillDue(b: Scan, s: Sweep, next: Scan, s': Sweep, maxCp: nat, maxEfs: nat)
    requires DuesDue(b, s) && Handed(b, s, next, maxCp, maxEfs) && s.now <= s'.now && s' == s.(now := s'.now)
    ensures DuesDue(next, s')
  {
    hide Decide, PassOver;
    var left := LeftAfter(b, s, maxCp, maxEfs);
    forall i | 0 <= i < |next| && next[i].due ensures DueIn(next[i], s') {
      var e := next[i];
      DuesAre(next, e);
      assert e in multiset(Dues(next));
      DuesAre(left, e);
      var pass := PassOver(b, |b|, s, maxCp, maxEfs);
      if pass.Some? && |pass.value.outcomes| == |b| {
        UnstampedFrom(b, pass.value.outcomes, |b|, e);
      }
      DueStaysDue(e.row, s.workflows, e.lane, s.now, s'.now, s.knobs);
    }
  }

  lemma {:induction false} InLaneDues(b: Scan, lane: Lane)
    ensures InLane(b, lane) == InLane(Dues(b), lane)
  {
    if b != [] {
      InLaneDues(Init(b), lane);
      InLaneOne(Dues(Init(b)), Last(b), lane);
      assert Dues(Init(b)) + [] == Dues(Init(b));
    }
  }

  lemma {:induction false} InLaneWithout(a: Scan, i: nat, lane: Lane)
    requires i < |a|
    ensures InLane(a, lane) == InLane(a[..i] + a[i + 1..], lane) + if Counts(a[i], lane) then 1 else 0
    decreases |a|
  {
    if i < |a| - 1 {
      InLaneWithout(Init(a), i, lane);
      assert a[..i] + a[i + 1..] == (Init(a)[..i] + Init(a)[i + 1..]) + [Last(a)];
      InLaneOne(Init(a)[..i] + Init(a)[i + 1..], Last(a), lane);
    } else {
      assert a[..i] + a[i + 1..] == Init(a);
    }
  }

  /** A lane's backlog does not depend on the order of the scan. */
  lemma {:induction false} InLaneAnyOrder(a: Scan, b: Scan, lane: Lane)
    requires multiset(a) == multiset(b)
    ensures InLane(a, lane) == InLane(b, lane)
    decreases |a|
  {
    assert |a| == |multiset(a)| == |multiset(b)| == |b|;
    if b != [] {
      var i := WithoutLast(a, b);
      hide InLane;
      InLaneWithout(a, i, lane);
      InLaneAnyOrder(a[..i] + a[i + 1..], Init(b), lane);
      InLaneOne(Init(b), Last(b), lane);
      assert b == Init(b) + [Last(b)];
    }
  }

  lemma WithoutLast(a: Scan, b: Scan) returns (i: nat)
    requires multiset(a) == multiset(b) && b != []
    ensures i < |a| && a[i] == Last(b) && multiset(a[..i] + a[i + 1..]) == multiset(Init(b))
  {
    assert b == Init(b) + [Last(b)];
    assert Last(b) in multiset(a);
    i :| 0 <= i < |a| && a[i] == Last(b);
    var rest := a[..i] + a[i + 1..];
    assert a == (a[..i] + [a[i]]) + a[i + 1..];
    assert multiset(a) == multiset(rest) + multiset{a[i]};
    assert multiset(b) == multiset(Init(b)) + multiset{Last(b)};
    assert multiset(rest) == multiset(a) - multiset{a[i]};
    assert multiset(Init(b)) == multiset(b) - multiset{a[i]};
  }

  lemma HandedCounts(b: Scan, s: Sweep, next: Scan, maxCp: nat, maxEfs: nat)
    requires DuesDue(b, s) && RestIdle(b, s) && !s.dryRun && Handed(b, s, next, maxCp, maxEfs)
    ensures InLane(next, Cp) == Minus(InLane(b, Cp), maxCp) && InLane(next, Efs) == Minus(InLane(b, Efs), maxEfs)
  {
    hide PassOver, InLane, Dues, Unstamped;
    OneSweep(b, |b|, s, maxCp, maxEfs);
    assert b[..|b|] == b;
    var left := LeftAfter(b, s, maxCp, maxEfs);
    forall lane: Lane ensures InLane(next, lane) == InLane(left, lane) {
      InLaneDues(next, lane);
      InLaneDues(left, lane);
      InLaneAnyOrder(Dues(next), Dues(left), lane);
    }
  }

  /** With every lookup and release granted, k sweeps leave a lane of n due sessions with
      n less k budgets, whatever order the scans have and whatever rows without a name or a
      due decision come and go: it is empty after ceil(n / budget) sweeps and not before. */
  lemma {:induction false} LaneDrains(scans: seq<Scan>, sweeps: seq<Sweep>, maxCp: nat, maxEfs: nat)
    requires Series(sweeps) && Course(scans, sweeps, maxCp, maxEfs)
    requires sweeps != [] ==> DuesDue(scans[0], sweeps[0])
    ensures InLane(Last(scans), Cp) == Minus(InLane(scans[0], Cp), |sweeps| * maxCp)
    ensures InLane(Last(scans), Efs) == Minus(InLane(scans[0], Efs), |sweeps| * maxEfs)
    decreases |sweeps|
  {
    if sweeps != [] {
      hide Handed, DuesDue, RestIdle, InLane, Course, Minus;
      CourseFirst(scans, sweeps, maxCp, maxEfs);
      HandedCounts(scans[0], sweeps[0], scans[1], maxCp, maxEfs);
      if |sweeps| > 1 {
        StillDue(scans[0], sweeps[0], scans[1], sweeps[1], maxCp, maxEfs);
      }
      CourseRest(scans, sweeps, maxCp, maxEfs);
      LaneDrains(scans[1..], sweeps[1..], maxCp, maxEfs);
      MinusTwice(InLane(scans[0], Cp), maxCp, |sweeps|);
      MinusTwice(InLane(scans[0], Efs), maxEfs, |sweeps|);
    }
  }

  lemma CourseFirst(scans: seq<Scan>, sweeps: seq<Sweep>, maxCp: nat, maxEfs: nat)
    requires sweeps != [] && Course(scans, sweeps, maxCp, maxEfs)
    ensures |scans| == |sweeps| + 1 && RestIdle(scans[0], sweeps[0]) && !sweeps[0].dryRun
    ensures Handed(scans[0], sweeps[0], scans[1], maxCp, maxEfs)
  {
    hide Handed, RestIdle;
    assert Handed(scans[0], sweeps[0], scans[0 + 1], maxCp, maxEfs);
  }

  lemma CourseRest(scans: seq<Scan>, sweeps: seq<Sweep>, maxCp: nat, maxEfs: nat)
    requires sweeps != [] && Course(scans, sweeps, maxCp, maxEfs)
    ensures Course(scans[1..], sweeps[1..], maxCp, maxEfs)
  {
    hide Handed, RestIdle;
    forall k | 0 <= k < |sweeps[1..]|
      ensures Handed(scans[1..][k], sweeps[1..][k], scans[1..][k + 1], maxCp, maxEfs)
    {
      assert Handed(scans[k + 1], sweeps[k + 1], scans[k + 1 + 1], maxCp, maxEfs);
    }
  }

  lemma MinusTwice(n: nat, budget: nat, k: nat)
    requires k > 0
    ensures Minus(Minus(n, budget), (k - 1) * budget) == Minus(n, k * budget)
  {
    assert k * budget == (k - 1) * budget + budget;
    assert (k - 1) * budget >= 0;
  }
}
