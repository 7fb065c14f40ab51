/** Async coding turns on one microVM, from submit to poll, over the in-memory table and the turn directories. */
module TurnProtocol {
  import opened Text

  // Each action below is one access to the shared state; runner and timer threads
  // interleave freely with each other and with the one handler the event loop runs.

  // ----- state -----

  /** Who published a terminal record: the runner, its backstop timer, or the handler's
      setup-failure path. */
  datatype Author = ByRunner | ByBackstop | BySetup

  datatype Verdict = Verdict(claim: nat, turn: string, author: Author)

  /** An entry of _ACTIVE_TURNS. A missing session id is the empty string. */
  datatype Record = Running(session: string) | Done(verdict: Verdict)

  datatype Phase = Launched | Listed(stale: set<string>) | Swept | Marked | Streaming | Unwound | Ended

  datatype Timer = Off | Armed | Elapsed | Stopped

  /** The critical section runner and timer share: writing done.json, then recording in
      memory, then `finished`. The lock is held exactly in Writing and Recording. */
  datatype Stage = Deciding | Writing(author: Author) | Recording(author: Author) | Finished(author: Author)

  datatype Runner = Runner(claim: nat, turn: string, session: string,
                           phase: Phase, timer: Timer, stage: Stage, cliExited: bool)

  /** The handler's claim between submit and its answer; Failing once done.json was tried. */
  datatype Slot = Idle | Setup(claim: nat, turn: string, session: string, registered: bool, failing: bool)

  datatype Publication = Publication(onDisk: bool, verdict: Verdict)

  /** `dirs` maps a directory to its done.json, if any. The last three fields are history:
      claims made so far, terminal records published in order, and turns whose handler
      raised before it answered, until a sweep drops their record. */
  datatype State = State(mem: map<string, Record>, dirs: map<string, Option<Verdict>>,
                         runners: seq<Runner>, slot: Slot,
                         claims: nat, log: seq<Publication>, lost: set<string>)

  function Start(dirs: map<string, Option<Verdict>>): State {
    State(map[], dirs, [], Idle, 0, [], {})
  }

  // ----- turn directories -----

  predicate KeptInNames(c: char) {
    'A' <= c <= 'Z' || 'a' <= c <= 'z' || '0' <= c <= '9' || c in {'.', '_', '-'}
  }

  function Sanitised(id: string): (r: string)
    ensures |r| == |id|
  {
    if id == "" then "" else [if KeptInNames(id[0]) then id[0] else '-'] + Sanitised(id[1..])
  }

  /** _turn_dir: distinct turn ids may share a directory. */
  function DirOf(turn: string): string {
    var safe := Sanitised(turn);
    if |safe| <= 80 then safe else safe[..80]
  }

  lemma {:induction false} SanitisedAt(id: string, i: nat)
    requires i < |id|
    ensures Sanitised(id)[i] == if KeptInNames(id[i]) then id[i] else '-'
  {
    if i > 0 {
      SanitisedAt(id[1..], i - 1);
    }
  }

  /** Two characters at one place of a name come out the same. */
  predicate SameInNames(c: char, d: char) {
    c == d || ((c == '-' || !KeptInNames(c)) && (d == '-' || !KeptInNames(d)))
  }

  /** Two turns share a directory exactly when their first eighty characters agree, but
      for those a name does not keep, and neither is longer within them. */
  lemma ShareADirectory(turn: string, other: string)
    ensures DirOf(turn) == DirOf(other) <==>
            (|turn| == |other| || (|turn| >= 80 && |other| >= 80))
            && forall i | 0 <= i < 80 && i < |turn| && i < |other| :: SameInNames(turn[i], other[i])
  {
    forall i | 0 <= i < |turn| ensures Sanitised(turn)[i] == if KeptInNames(turn[i]) then turn[i] else '-' {
      SanitisedAt(turn, i);
    }
    forall i | 0 <= i < |other| ensures Sanitised(other)[i] == if KeptInNames(other[i]) then other[i] else '-' {
      SanitisedAt(other, i);
    }
    var d, e := DirOf(turn), DirOf(other);
    hide Sanitised;
    assert |d| == (if |turn| <= 80 then |turn| else 80) && |e| == if |other| <= 80 then |other| else 80;
    forall i | 0 <= i < |d| ensures d[i] == Sanitised(turn)[i] {}
    forall i | 0 <= i < |e| ensures e[i] == Sanitised(other)[i] {}
    if d != e && |d| == |e| {
      var i :| 0 <= i < |d| && d[i] != e[i];
      assert !SameInNames(turn[i], other[i]);
    }
  }

  /** How far a write into a turn directory got. */
  datatype Disk = Complete | DirOnly | Nothing

  function Touch(dirs: map<string, Option<Verdict>>, d: string): map<string, Option<Verdict>> {
    if d in dirs then dirs else dirs[d := None]
  }

  function WriteDone(dirs: map<string, Option<Verdict>>, v: Verdict, disk: Disk): map<string, Option<Verdict>> {
    match disk
    case Complete => dirs[DirOf(v.turn) := Some(v)]
    case DirOnly => Touch(dirs, DirOf(v.turn))
    case Nothing => dirs
  }

  // ----- actions -----

  datatype Action =
    | Submit(turn: string, minted: string, session: string, known: bool, pruned: set<string>, meta: Disk)
    | SetupWrite(done: Disk)
    | SetupRecord
    | Abandon
    | Launch
    | AnswerUnknownCli
    | HandlerRaises
    | List(r: nat, stale: set<string>)
    | Pop(r: nat)
    | Mark(r: nat)
    | Meta(r: nat, meta: Disk)
    | CliExit(r: nat)
    | StreamEnd(r: nat)
    | Lock(r: nat)
    | Elapse(r: nat)
    | TimerLock(r: nat)
    | Write(r: nat, done: Disk)
    | Record(r: nat)

  predicate Actor(s: State, a: Action) {
    a.Submit? || a.SetupWrite? || a.SetupRecord? || a.Abandon? || a.Launch? || a.AnswerUnknownCli?
    || a.HandlerRaises? || a.r < |s.runners|
  }

  predicate Busy(mem: map<string, Record>, session: string, turn: string) {
    session != "" && exists t | t in mem :: t != turn && mem[t] == Running(session)
  }

  /** The turn a submit is about: a caller without an id gets a freshly minted one. */
  function TurnOf(turn: string, minted: string): string { if turn == "" then minted else turn }

  predicate Retained(s: State, turn: string) { turn in s.mem || DirOf(turn) in s.dirs }

  predicate Enabled(s: State, a: Action) {
    Actor(s, a)
    && match a
       case Submit(_, minted, _, _, _, _) => s.slot.Idle? && minted != ""
       case SetupWrite(_) => s.slot.Setup? && !s.slot.failing
       case SetupRecord => s.slot.Setup? && s.slot.failing
       case Abandon => s.slot.Setup? && !s.slot.failing
       case Launch => s.slot.Setup? && !s.slot.failing && s.slot.registered
       case AnswerUnknownCli => s.slot.Setup? && !s.slot.failing && !s.slot.registered
       case HandlerRaises => s.slot.Setup? && !s.slot.failing
       case List(r, stale) => s.runners[r].phase.Launched? && forall t | t in stale :: t in s.mem && s.mem[t].Done?
       case Pop(r) => s.runners[r].phase.Listed?
       case Mark(r) => s.runners[r].phase.Swept?
       case Meta(r, _) => s.runners[r].phase.Marked?
       case CliExit(r) => s.runners[r].phase.Streaming?
       case StreamEnd(r) => s.runners[r].phase.Streaming?
       case Lock(r) => s.runners[r].phase.Unwound? && LockFree(s.runners[r])
       case Elapse(r) => s.runners[r].timer.Armed?
       case TimerLock(r) => s.runners[r].timer.Elapsed? && LockFree(s.runners[r])
       case Write(r, _) => s.runners[r].stage.Writing?
       case Record(r) => s.runners[r].stage.Recording?
  }

  predicate LockFree(r: Runner) { r.stage.Deciding? || r.stage.Finished? }

  function SlotVerdict(slot: Slot): Verdict
    requires slot.Setup?
  {
    Verdict(slot.claim, slot.turn, BySetup)
  }

  function RunnerVerdict(r: Runner): Verdict
    requires !r.stage.Deciding?
  {
    Verdict(r.claim, r.turn, r.stage.author)
  }

  function AfterSubmit(s: State, turn0: string, minted: string, session: string,
                       known: bool, pruned: set<string>, meta: Disk): State {
    var turn := TurnOf(turn0, minted);
    if Busy(s.mem, session, turn0) || Retained(s, turn) then s
    else if !known then s.(slot := Setup(s.claims, turn, session, false, false), claims := s.claims + 1)
    else
      var dirs := s.dirs - pruned;
      match meta
      case Complete =>
        s.(mem := s.mem[turn := Running(session)], dirs := Touch(dirs, DirOf(turn)),
           slot := Setup(s.claims, turn, session, true, false), claims := s.claims + 1)
      case DirOnly => s.(dirs := Touch(dirs, DirOf(turn)))
      case Nothing => s.(dirs := dirs)
  }

  function AfterLock(r: Runner): Runner {
    if r.stage.Finished? then r.(phase := Ended) else r.(stage := Writing(ByRunner))
  }

  function AfterTimerLock(r: Runner): Runner {
    if r.stage.Finished? || r.cliExited then r.(timer := Stopped) else r.(stage := Writing(ByBackstop))
  }

  function AfterRecord(r: Runner): Runner
    requires r.stage.Recording?
  {
    var published := r.(stage := Finished(r.stage.author));
    if r.stage.author == ByRunner then published.(phase := Ended) else published.(timer := Stopped)
  }

  function Filed(log: seq<Publication>, v: Verdict, disk: Disk): seq<Publication> {
    if disk.Complete? then log + [Publication(true, v)] else log
  }

  function Set(s: State, i: nat, r: Runner): State
    requires i < |s.runners|
  {
    s.(runners := s.runners[i := r])
  }

  /** The state after one action. */
  function Apply(s: State, a: Action): State
    requires Enabled(s, a)
  {
    match a
    case Submit(turn, minted, session, known, pruned, meta) =>
      AfterSubmit(s, turn, minted, session, known, pruned, meta)
    case SetupWrite(disk) =>
      s.(dirs := WriteDone(s.dirs, SlotVerdict(s.slot), disk), slot := s.slot.(failing := true),
         log := Filed(s.log, SlotVerdict(s.slot), disk))
    case SetupRecord =>
      s.(mem := s.mem[s.slot.turn := Done(SlotVerdict(s.slot))], slot := Idle,
         log := s.log + [Publication(false, SlotVerdict(s.slot))])
    case Abandon => s.(mem := s.mem - {s.slot.turn}, slot := Idle)
    case Launch =>
      s.(runners := s.runners + [Runner(s.slot.claim, s.slot.turn, s.slot.session, Launched, Off, Deciding, false)],
         slot := Idle)
    case AnswerUnknownCli => s.(slot := Idle)
    case HandlerRaises => s.(slot := Idle, lost := if s.slot.registered then s.lost + {s.slot.turn} else s.lost)
    case List(r, stale) => Set(s, r, s.runners[r].(phase := Listed(stale)))
    case Pop(r) =>
      Set(s, r, s.runners[r].(phase := Swept))
      .(mem := s.mem - s.runners[r].phase.stale, lost := s.lost - s.runners[r].phase.stale)
    case Mark(r) =>
      Set(s, r, s.runners[r].(phase := Marked)).(mem := s.mem[s.runners[r].turn := Running(s.runners[r].session)])
    case Meta(r, disk) =>
      Set(s, r, s.runners[r].(phase := Streaming, timer := Armed))
      .(dirs := if disk.Nothing? then s.dirs else Touch(s.dirs, DirOf(s.runners[r].turn)))
    case CliExit(r) => Set(s, r, s.runners[r].(cliExited := true))
    case StreamEnd(r) =>
      Set(s, r, s.runners[r].(phase := Unwound, timer := if s.runners[r].timer.Armed? then Stopped else s.runners[r].timer))
    case Lock(r) => Set(s, r, AfterLock(s.runners[r]))
    case Elapse(r) => Set(s, r, s.runners[r].(timer := Elapsed))
    case TimerLock(r) => Set(s, r, AfterTimerLock(s.runners[r]))
    case Write(r, disk) =>
      Set(s, r, s.runners[r].(stage := Recording(s.runners[r].stage.author)))
      .(dirs := WriteDone(s.dirs, RunnerVerdict(s.runners[r]), disk),
        log := Filed(s.log, RunnerVerdict(s.runners[r]), disk))
    case Record(r) =>
      Set(s, r, AfterRecord(s.runners[r]))
      .(mem := s.mem[s.runners[r].turn := Done(RunnerVerdict(s.runners[r]))],
        log := s.log + [Publication(false, RunnerVerdict(s.runners[r]))])
  }

  // ----- what every step keeps: the table -----

  predicate Live(r: Runner) { !r.stage.Finished? }

  predicate HoldsClaim(s: State, turn: string, session: string) {
    turn in s.mem && s.mem[turn] == Running(session)
  }

  /** Someone answers for the turn: the handler, an unfinished runner, or a handler that raised. */
  ghost predicate Owned(s: State, turn: string) {
    (s.slot.Setup? && s.slot.registered && s.slot.turn == turn)
    || turn in s.lost
    || exists i | 0 <= i < |s.runners| :: Live(s.runners[i]) && s.runners[i].turn == turn
  }

  ghost predicate NoLive(s: State, turn: string) {
    forall i | 0 <= i < |s.runners| && Live(s.runners[i]) :: s.runners[i].turn != turn
  }

  ghost predicate RunnersHold(s: State) {
    (forall i | 0 <= i < |s.runners| && Live(s.runners[i]) :: HoldsClaim(s, s.runners[i].turn, s.runners[i].session))
    && forall i, j | 0 <= i < j < |s.runners| && Live(s.runners[i]) && Live(s.runners[j]) ::
         s.runners[i].turn != s.runners[j].turn
  }

  /** A failing setup may have lost its record to a sweep; it is about to replace it. */
  ghost predicate SlotHolds(s: State) {
    s.slot.Setup? ==>
      s.slot.turn != ""
      && if s.slot.registered then
           NoLive(s, s.slot.turn)
           && (HoldsClaim(s, s.slot.turn, s.slot.session) || (s.slot.failing && s.slot.turn !in s.mem))
         else s.slot.turn !in s.mem
  }

  ghost predicate LostHold(s: State) {
    forall t | t in s.lost ::
      t in s.mem && s.mem[t].Running? && NoLive(s, t) && !(s.slot.Setup? && s.slot.turn == t)
  }

  ghost predicate OnePerSession(mem: map<string, Record>) {
    forall t, u | t in mem && u in mem && t != u && mem[t].Running? && mem[u].Running? ::
      mem[t].session == mem[u].session ==> mem[t].session == ""
  }

  ghost predicate TableInv(s: State) {
    RunnersHold(s) && SlotHolds(s) && LostHold(s) && OnePerSession(s.mem)
    && "" !in s.mem
    && (forall t | t in s.mem && s.mem[t].Running? :: Owned(s, t))
    && forall t | t in s.mem && s.mem[t].Done? :: s.mem[t].verdict.turn == t
  }

  /** The turn has an unfinished runner, or a handler that may still start one. */
  ghost predicate Held(s: State, turn: string) {
    (s.slot.Setup? && s.slot.registered && !s.slot.failing && s.slot.turn == turn) || !NoLive(s, turn)
  }

  /** A sweep that drops no running record of a turn that is held. Listing and dropping
      are two steps, so this is a condition on the interleaving. */
  ghost predicate Clean(s: State, a: Action)
    requires Enabled(s, a)
  {
    a.Pop? ==> forall t | t in s.runners[a.r].phase.stale && t in s.mem && s.mem[t].Running? :: !Held(s, t)
  }

  /** A step that touches one runner's own fields and nothing of the table. */
  lemma OwnStep(s: State, i: nat, r: Runner, s': State)
    requires TableInv(s) && i < |s.runners| && s'.runners == s.runners[i := r]
    requires r.turn == s.runners[i].turn && r.session == s.runners[i].session && Live(r) == Live(s.runners[i])
    requires s'.mem == s.mem && s'.slot == s.slot && s'.lost == s.lost
    ensures TableInv(s')
  {
    forall t | t in s'.mem && s'.mem[t].Running? ensures Owned(s', t) {
      assert Owned(s, t);
      if !(s.slot.Setup? && s.slot.registered && s.slot.turn == t) && t !in s.lost {
        var k :| 0 <= k < |s.runners| && Live(s.runners[k]) && s.runners[k].turn == t;
        assert Live(s'.runners[k]) && s'.runners[k].turn == t;
      }
    }
  }

  /** Dropping what nobody holds takes nothing from anyone. */
  lemma SweepStep(s: State, stale: set<string>, s': State)
    requires TableInv(s) && s' == s.(mem := s.mem - stale, lost := s.lost - stale)
    requires forall t | t in stale && t in s.mem && s.mem[t].Running? :: !Held(s, t)
    ensures TableInv(s')
  {
    forall t | t in s'.mem && s'.mem[t].Running? ensures Owned(s', t) {
      assert Owned(s, t);
    }
  }

  /** The claim's holder records its verdict and lets go. */
  lemma RecordStep(s: State, i: nat, r: Runner, s': State)
    requires TableInv(s) && i < |s.runners| && Live(s.runners[i]) && s'.runners == s.runners[i := r]
    requires r.turn == s.runners[i].turn && !Live(r)
    requires exists v: Verdict :: v.turn == r.turn && s'.mem == s.mem[r.turn := Done(v)]
    requires s'.slot == s.slot && s'.lost == s.lost
    ensures TableInv(s')
  {
    assert HoldsClaim(s, s.runners[i].turn, s.runners[i].session);
    forall t | t in s'.mem && s'.mem[t].Running? ensures Owned(s', t) {
      assert Owned(s, t);
      if !(s.slot.Setup? && s.slot.registered && s.slot.turn == t) && t !in s.lost {
        var k :| 0 <= k < |s.runners| && Live(s.runners[k]) && s.runners[k].turn == t;
        assert Live(s'.runners[k]) && s'.runners[k].turn == t;
      }
    }
  }

  lemma SubmitStep(s: State, turn: string, minted: string, session: string, known: bool, pruned: set<string>,
                   meta: Disk)
    requires TableInv(s) && s.slot.Idle? && minted != ""
    ensures TableInv(AfterSubmit(s, turn, minted, session, known, pruned, meta))
  {
    var s' := AfterSubmit(s, turn, minted, session, known, pruned, meta);
    forall t | t in s'.mem && s'.mem[t].Running? ensures Owned(s', t) {
      if t in s.mem && s.mem[t].Running? {
        assert Owned(s, t);
      }
    }
  }

  lemma HandlerStep(s: State, a: Action)
    requires TableInv(s) && Enabled(s, a)
    requires a.SetupWrite? || a.SetupRecord? || a.Abandon? || a.AnswerUnknownCli? || a.HandlerRaises?
    ensures TableInv(Apply(s, a))
  {
    var s' := Apply(s, a);
    forall t | t in s'.mem && s'.mem[t].Running? ensures Owned(s', t) {
      assert Owned(s, t);
    }
  }

  lemma LaunchStep(s: State)
    requires TableInv(s) && Enabled(s, Launch)
    ensures TableInv(Apply(s, Launch))
  {
    var s' := Apply(s, Launch);
    var n := |s.runners|;
    assert Live(s'.runners[n]) && s'.runners[n].turn == s.slot.turn;
    forall t | t in s'.mem && s'.mem[t].Running? ensures Owned(s', t) {
      assert Owned(s, t);
      if t != s.slot.turn && t !in s.lost {
        var k :| 0 <= k < n && Live(s.runners[k]) && s.runners[k].turn == t;
        assert Live(s'.runners[k]) && s'.runners[k].turn == t;
      }
    }
  }

  // ----- what every step keeps: the critical section -----

  /** The lock's holder is a thread that can hold it; before the CLI starts there is
      nothing to publish, and a runner that has ended left a verdict behind. */
  ghost predicate StageOk(r: Runner) {
    (r.stage.Deciding? || r.phase.Streaming? || r.phase.Unwound? || r.phase.Ended?)
    && (r.stage.Deciding? || r.stage.author != BySetup)
    && (r.phase.Ended? ==> r.stage.Finished?)
    && (r.stage == Finished(ByRunner) ==> r.phase.Ended?)
    && (r.stage.Writing? || r.stage.Recording? ==>
          if r.stage.author == ByRunner then r.phase.Unwound? else r.timer.Elapsed?)
    && (r.timer.Off? <==> !r.phase.Streaming? && !r.phase.Unwound? && !r.phase.Ended?)
    && (r.timer.Armed? ==> r.phase.Streaming? && r.stage.Deciding?)
  }

  ghost predicate StageInv(s: State) { forall i | 0 <= i < |s.runners| :: StageOk(s.runners[i]) }

  /** An action of one runner or its timer. */
  predicate Threaded(a: Action) {
    a.List? || a.Pop? || a.Mark? || a.Meta? || a.CliExit? || a.StreamEnd? || a.Lock? || a.Elapse?
    || a.TimerLock? || a.Write? || a.Record?
  }

  lemma ThreadStep(s: State, a: Action)
    requires Enabled(s, a) && Threaded(a) && StageOk(s.runners[a.r])
    ensures var s' := Apply(s, a);
            var before, after := s.runners[a.r], s'.runners[a.r];
            && s'.runners == s.runners[a.r := after] && StageOk(after)
            && (after.claim, after.turn, after.session) == (before.claim, before.turn, before.session)
            && s'.slot == s.slot && s'.claims == s.claims
  {
  }

  lemma HandlerRunners(s: State, a: Action)
    requires Enabled(s, a) && !Threaded(a)
    ensures Apply(s, a).runners == s.runners
            || (a.Launch? && Apply(s, a).runners == s.runners +
                  [Runner(s.slot.claim, s.slot.turn, s.slot.session, Launched, Off, Deciding, false)])
  {
  }

  lemma StageStep(s: State, a: Action)
    requires StageInv(s) && Enabled(s, a)
    ensures StageInv(Apply(s, a))
  {
    if Threaded(a) {
      ThreadStep(s, a);
      hide Apply, Enabled, StageOk;
    } else {
      HandlerRunners(s, a);
      hide Apply, Enabled;
    }
  }

  /** The actions of a runner or its timer that leave the table alone. */
  predicate Private(a: Action) {
    a.List? || a.Meta? || a.CliExit? || a.StreamEnd? || a.Lock? || a.Elapse? || a.TimerLock? || a.Write?
  }

  lemma PrivateStep(s: State, a: Action)
    requires StageInv(s) && Enabled(s, a) && Private(a)
    ensures var s' := Apply(s, a);
            var before, after := s.runners[a.r], s'.runners[a.r];
            && s'.runners == s.runners[a.r := after]
            && (after.claim, after.turn, after.session) == (before.claim, before.turn, before.session)
            && Live(after) == Live(before)
            && s'.mem == s.mem && s'.slot == s.slot && s'.lost == s.lost && s'.claims == s.claims
  {
  }

  lemma TableStep(s: State, a: Action)
    requires TableInv(s) && StageInv(s) && Enabled(s, a) && Clean(s, a)
    ensures TableInv(Apply(s, a))
  {
    hide TableInv, HoldsClaim, Owned;
    if Private(a) {
      PrivateStep(s, a);
      hide Apply, Enabled;
      OwnStep(s, a.r, Apply(s, a).runners[a.r], Apply(s, a));
    } else if a.Pop? || a.Mark? || a.Record? {
      TurnStep(s, a);
    } else if a.Submit? {
      SubmitStep(s, a.turn, a.minted, a.session, a.known, a.pruned, a.meta);
    } else if a.Launch? {
      LaunchStep(s);
    } else {
      HandlerStep(s, a);
    }
  }

  lemma TurnStep(s: State, a: Action)
    requires TableInv(s) && StageInv(s) && Enabled(s, a) && Clean(s, a)
    requires a.Pop? || a.Mark? || a.Record?
    ensures TableInv(Apply(s, a))
  {
    hide TableInv, HoldsClaim, Owned;
    var s' := Apply(s, a);
    if a.Pop? {
      SweepStep(s, s.runners[a.r].phase.stale, s.(mem := s'.mem, lost := s'.lost));
      OwnStep(s.(mem := s'.mem, lost := s'.lost), a.r, s'.runners[a.r], s');
    } else if a.Mark? {
      assert StageOk(s.runners[a.r]);
      RemarkChangesNothing(s, a.r);
      OwnStep(s, a.r, s'.runners[a.r], s');
    } else {
      assert s'.mem == s.mem[s.runners[a.r].turn := Done(RunnerVerdict(s.runners[a.r]))];
      RecordStep(s, a.r, s'.runners[a.r], s');
    }
  }

  /** The runner's own `running` record is the one its submit already made. */
  lemma RemarkChangesNothing(s: State, r: nat)
    requires TableInv(s) && r < |s.runners| && Live(s.runners[r])
    ensures s.mem[s.runners[r].turn := Running(s.runners[r].session)] == s.mem
  {
    assert HoldsClaim(s, s.runners[r].turn, s.runners[r].session);
  }

  // ----- what every step keeps: claims and published records -----

  ghost predicate ClaimInv(s: State) {
    (forall i | 0 <= i < |s.runners| :: s.runners[i].claim < s.claims)
    && (forall i, j | 0 <= i < j < |s.runners| :: s.runners[i].claim != s.runners[j].claim)
    && (s.slot.Setup? ==>
          s.slot.claim < s.claims && forall i | 0 <= i < |s.runners| :: s.runners[i].claim != s.slot.claim)
  }

  lemma HandlerClaims(s: State, a: Action)
    requires Enabled(s, a) && !Threaded(a)
    ensures var s' := Apply(s, a);
            && s'.claims >= s.claims
            && (s'.slot.Setup? ==> (s'.slot.claim == s.claims < s'.claims)
                                   || (!a.Launch? && s.slot.Setup? && s'.slot.claim == s.slot.claim))
            && (a.Launch? ==> s.slot.Setup?)
  {
  }

  lemma ThreadClaims(s: State, i: nat, r: Runner, s': State)
    requires ClaimInv(s) && i < |s.runners| && s'.runners == s.runners[i := r] && r.claim == s.runners[i].claim
    requires s'.slot == s.slot && s'.claims == s.claims
    ensures ClaimInv(s')
  {
  }

  lemma ClaimStep(s: State, a: Action)
    requires ClaimInv(s) && StageInv(s) && Enabled(s, a)
    ensures ClaimInv(Apply(s, a))
  {
    if Threaded(a) {
      assert StageOk(s.runners[a.r]);
      ThreadStep(s, a);
      hide Apply, Enabled, ClaimInv, StageInv;
      ThreadClaims(s, a.r, Apply(s, a).runners[a.r], Apply(s, a));
    } else {
      HandlerRunners(s, a);
      HandlerClaims(s, a);
      hide Apply, Enabled;
    }
  }

  /** A published record of a runner's claim is the verdict its critical section settled. */
  ghost predicate RunnerPublished(r: Runner, p: Publication) {
    p.verdict.claim == r.claim ==>
      (r.stage.Finished? || (r.stage.Recording? && p.onDisk)) && p.verdict == RunnerVerdict(r)
  }

  ghost predicate SlotPublished(slot: Slot, p: Publication) {
    slot.Setup? && p.verdict.claim == slot.claim ==> slot.failing && p.onDisk && p.verdict == SlotVerdict(slot)
  }

  /** Two records of one claim: its done.json, then the same verdict in memory. */
  ghost predicate SameVerdict(p: Publication, q: Publication) {
    p.verdict.claim == q.verdict.claim ==> p.verdict == q.verdict && p.onDisk && !q.onDisk
  }

  ghost predicate LogInv(s: State) {
    (forall k | 0 <= k < |s.log| :: s.log[k].verdict.claim < s.claims && SlotPublished(s.slot, s.log[k]))
    && (forall k, i | 0 <= k < |s.log| && 0 <= i < |s.runners| :: RunnerPublished(s.runners[i], s.log[k]))
    && forall j, k | 0 <= j < k < |s.log| :: SameVerdict(s.log[j], s.log[k])
  }

  /** A thread's step that publishes nothing. */
  lemma QuietLog(s: State, i: nat, r: Runner, s': State)
    requires LogInv(s) && i < |s.runners| && s'.runners == s.runners[i := r] && r.claim == s.runners[i].claim
    requires s'.log == s.log && s'.slot == s.slot && s'.claims == s.claims
    requires s.runners[i].stage.Deciding? || r.stage == s.runners[i].stage || (s.runners[i].stage.Writing? && r.stage.Recording?)
    requires r.turn == s.runners[i].turn
    ensures LogInv(s')
  {
    forall k, j | 0 <= k < |s'.log| && 0 <= j < |s'.runners| ensures RunnerPublished(s'.runners[j], s'.log[k]) {
      assert RunnerPublished(s.runners[j], s.log[k]);
    }
  }

  /** A thread's step that publishes its claim's verdict: to disk on entering Recording,
      to memory on leaving it. */
  lemma LoudLog(s: State, i: nat, r: Runner, p: Publication, s': State)
    requires LogInv(s) && ClaimInv(s) && i < |s.runners| && s'.runners == s.runners[i := r]
    requires (r.claim, r.turn) == (s.runners[i].claim, s.runners[i].turn)
    requires s'.log == s.log + [p] && s'.slot == s.slot && s'.claims == s.claims
    requires if p.onDisk then s.runners[i].stage.Writing? && r.stage == Recording(s.runners[i].stage.author)
             else s.runners[i].stage.Recording? && r.stage == Finished(s.runners[i].stage.author)
    requires p.verdict == RunnerVerdict(r)
    ensures LogInv(s')
  {
    forall k, j | 0 <= k < |s'.log| && 0 <= j < |s'.runners| ensures RunnerPublished(s'.runners[j], s'.log[k]) {
      if k < |s.log| {
        assert RunnerPublished(s.runners[j], s.log[k]);
      } else if j != i {
        assert s.runners[j].claim != s.runners[i].claim;
      }
    }
    forall k | 0 <= k < |s.log| ensures SameVerdict(s.log[k], p) {
      assert RunnerPublished(s.runners[i], s.log[k]);
    }
  }

  lemma HandlerLog(s: State, a: Action)
    requires LogInv(s) && ClaimInv(s) && Enabled(s, a) && !Threaded(a)
    ensures LogInv(Apply(s, a))
  {
    HandlerRunners(s, a);
    var s' := Apply(s, a);
    forall k, j | 0 <= k < |s'.log| && 0 <= j < |s'.runners| ensures RunnerPublished(s'.runners[j], s'.log[k]) {
      if k < |s.log| {
        assert SlotPublished(s.slot, s.log[k]);
        assert j < |s.runners| ==> RunnerPublished(s.runners[j], s.log[k]);
      }
    }
    forall j, k | 0 <= j < k < |s'.log| ensures SameVerdict(s'.log[j], s'.log[k]) {
      assert SlotPublished(s.slot, s.log[j]);
    }
  }

  lemma LogStep(s: State, a: Action)
    requires LogInv(s) && ClaimInv(s) && StageInv(s) && Enabled(s, a)
    ensures LogInv(Apply(s, a))
  {
    hide LogInv, ClaimInv;
    if Threaded(a) {
      assert StageOk(s.runners[a.r]);
      ThreadStep(s, a);
      var s' := Apply(s, a);
      var r := s'.runners[a.r];
      if a.Record? {
        LoudLog(s, a.r, r, Publication(false, RunnerVerdict(r)), s');
      } else if a.Write? && a.done.Complete? {
        LoudLog(s, a.r, r, Publication(true, RunnerVerdict(r)), s');
      } else {
        QuietLog(s, a.r, r, s');
      }
    } else {
      HandlerLog(s, a);
    }
  }

  // ----- runs -----

  /** Every interleaving: any sequence of actions, each enabled where it happens. */
  ghost predicate Run(s: State, actions: seq<Action>)
    decreases |actions|
  {
    actions == [] || (Enabled(s, actions[0]) && Run(Apply(s, actions[0]), actions[1..]))
  }

  ghost function After(s: State, actions: seq<Action>): State
    requires Run(s, actions)
    decreases |actions|
  {
    if actions == [] then s else After(Apply(s, actions[0]), actions[1..])
  }

  ghost predicate CleanRun(s: State, actions: seq<Action>)
    requires Run(s, actions)
    decreases |actions|
  {
    actions == [] || (Clean(s, actions[0]) && CleanRun(Apply(s, actions[0]), actions[1..]))
  }

  /** Some run leads from one state to the other. */
  ghost predicate Leads(s: State, end: State) {
    exists actions | Run(s, actions) :: After(s, actions) == end
  }

  ghost predicate CleanlyLeads(s: State, end: State) {
    exists actions | Run(s, actions) && CleanRun(s, actions) :: After(s, actions) == end
  }

  ghost predicate Reachable(s: State) { exists dirs :: Leads(Start(dirs), s) }

  /** Reachable by a run in which no sweep drops the running record of a held turn. */
  ghost predicate CleanlyReachable(s: State) { exists dirs :: CleanlyLeads(Start(dirs), s) }

  lemma {:induction false} RunThen(s: State, actions: seq<Action>, a: Action)
    requires Run(s, actions) && Enabled(After(s, actions), a)
    ensures Run(s, actions + [a]) && After(s, actions + [a]) == Apply(After(s, actions), a)
    ensures CleanRun(s, actions) && Clean(After(s, actions), a) ==> CleanRun(s, actions + [a])
    ensures ApartRun(s, actions) && Apart(After(s, actions), a) ==> ApartRun(s, actions + [a])
    decreases |actions|
  {
    hide Apply, Enabled, Clean, Apart;
    if actions == [] {
      assert [a][1..] == [];
    } else {
      assert (actions + [a])[1..] == actions[1..] + [a];
      RunThen(Apply(s, actions[0]), actions[1..], a);
    }
  }

  lemma LeadsNowhere(s: State)
    ensures CleanlyLeads(s, s)
  {
    assert Run(s, []) && CleanRun(s, []) && After(s, []) == s;
  }

  lemma LeadsThen(s: State, mid: State, a: Action)
    requires CleanlyLeads(s, mid) && Enabled(mid, a) && Clean(mid, a)
    ensures CleanlyLeads(s, Apply(mid, a))
  {
    hide Apply, Enabled, Clean;
    var actions :| Run(s, actions) && CleanRun(s, actions) && After(s, actions) == mid;
    RunThen(s, actions, a);
  }

  /** What needs no condition on the sweeps. */
  ghost predicate RecordInv(s: State) { StageInv(s) && ClaimInv(s) && LogInv(s) }

  ghost predicate Inv(s: State) { TableInv(s) && RecordInv(s) }

  lemma RecordInvStep(s: State, a: Action)
    requires RecordInv(s) && Enabled(s, a)
    ensures RecordInv(Apply(s, a))
  {
    hide StageInv, ClaimInv, LogInv, Apply, Enabled;
    StageStep(s, a);
    ClaimStep(s, a);
    LogStep(s, a);
  }

  lemma InvStep(s: State, a: Action)
    requires Inv(s) && Enabled(s, a) && Clean(s, a)
    ensures Inv(Apply(s, a))
  {
    hide TableInv, StageInv, ClaimInv, LogInv, Apply, Enabled, Clean;
    TableStep(s, a);
    RecordInvStep(s, a);
  }

  lemma {:induction false} RecordInvRun(s: State, actions: seq<Action>)
    requires RecordInv(s) && Run(s, actions)
    ensures RecordInv(After(s, actions))
    decreases |actions|
  {
    hide RecordInv, Apply, Enabled;
    if actions != [] {
      RecordInvStep(s, actions[0]);
      RecordInvRun(Apply(s, actions[0]), actions[1..]);
    }
  }

  lemma {:induction false} InvRun(s: State, actions: seq<Action>)
    requires Inv(s) && Run(s, actions) && CleanRun(s, actions)
    ensures Inv(After(s, actions))
    decreases |actions|
  {
    hide Inv, Apply, Enabled, Clean;
    if actions != [] {
      InvStep(s, actions[0]);
      InvRun(Apply(s, actions[0]), actions[1..]);
    }
  }

  lemma ReachableRecords(s: State)
    requires Reachable(s)
    ensures RecordInv(s)
  {
    var dirs :| Leads(Start(dirs), s);
    var actions :| Run(Start(dirs), actions) && After(Start(dirs), actions) == s;
    assert RecordInv(Start(dirs));
    RecordInvRun(Start(dirs), actions);
  }

  lemma CleanInv(s: State, end: State)
    requires Inv(s) && CleanlyLeads(s, end)
    ensures Inv(end)
  {
    var actions :| Run(s, actions) && CleanRun(s, actions) && After(s, actions) == end;
    InvRun(s, actions);
  }

  lemma ReachableInv(s: State)
    requires CleanlyReachable(s)
    ensures Inv(s)
  {
    var dirs :| CleanlyLeads(Start(dirs), s);
    assert Inv(Start(dirs));
    CleanInv(Start(dirs), s);
  }

  // ----- one CLI per session -----

  /** No session has two turns marked running, and no two unfinished runners share a turn
      or a session. */
  ghost predicate OneEach(s: State) {
    OnePerSession(s.mem)
    && forall i, j | 0 <= i < j < |s.runners| && Live(s.runners[i]) && Live(s.runners[j]) ::
         s.runners[i].turn != s.runners[j].turn
         && (s.runners[i].session == s.runners[j].session ==> s.runners[i].session == "")
  }

  lemma InvOneEach(s: State)
    requires Inv(s)
    ensures OneEach(s)
  {
    forall i, j | 0 <= i < j < |s.runners| && Live(s.runners[i]) && Live(s.runners[j])
      ensures s.runners[i].session == s.runners[j].session ==> s.runners[i].session == ""
    {
      assert HoldsClaim(s, s.runners[i].turn, s.runners[i].session);
      assert HoldsClaim(s, s.runners[j].turn, s.runners[j].session);
    }
  }

  lemma OneTurnPerSession(s: State)
    requires CleanlyReachable(s)
    ensures OneEach(s)
  {
    ReachableInv(s);
    InvOneEach(s);
  }

  predicate Driving(r: Runner) { r.phase.Streaming? || r.phase.Unwound? }

  /** Two runner threads drive a CLI in one session only after a backstop published for one. */
  lemma OnlyAForcedRunnerShares(s: State, i: nat, j: nat)
    requires CleanlyReachable(s) && i < j < |s.runners| && Driving(s.runners[i]) && Driving(s.runners[j])
    requires s.runners[i].session == s.runners[j].session != ""
    ensures s.runners[i].stage == Finished(ByBackstop) || s.runners[j].stage == Finished(ByBackstop)
  {
    OneTurnPerSession(s);
    ReachableInv(s);
    assert StageOk(s.runners[i]) && StageOk(s.runners[j]);
  }

  /** `session_busy` is never an error of bookkeeping: a turn is marked running exactly
      while the handler, an unfinished runner, or a handler that raised owns it, a setup
      failure whose record a sweep has dropped apart. */
  lemma RunningMeansOwned(s: State, turn: string)
    requires CleanlyReachable(s)
    ensures turn in s.mem && s.mem[turn].Running? <==>
            Owned(s, turn) && !(s.slot.Setup? && s.slot.failing && s.slot.turn == turn && turn !in s.mem)
  {
    ReachableInv(s);
    if Owned(s, turn) && !(s.slot.Setup? && s.slot.registered && s.slot.turn == turn) && turn !in s.lost {
      var i :| 0 <= i < |s.runners| && Live(s.runners[i]) && s.runners[i].turn == turn;
      assert HoldsClaim(s, turn, s.runners[i].session);
    }
  }

  // ----- what a sweep may drop -----

  /** The turn has a runner but no record, and no other turn of its session is running. */
  ghost predicate Robbed(s: State, i: nat, turn: string) {
    i < |s.runners| && Live(s.runners[i]) && s.runners[i].turn == turn && turn != "" && turn !in s.mem
    && !Busy(s.mem, s.runners[i].session, turn)
  }

  /** The handler finishes with its claim. */
  lemma FreeTheSlot(from: State, s: State, turn: string, session: string, unused: string)
    returns (end: State, i: nat)
    requires CleanlyLeads(from, s) && turn != "" && turn !in s.mem && !Busy(s.mem, session, turn)
    requires !Retained(s, unused) && NotInSetup(s, unused)
    requires if s.slot.Setup? && s.slot.turn == turn
             then s.slot.registered && !s.slot.failing && s.slot.session == session
             else exists k | 0 <= k < |s.runners| :: Live(s.runners[k]) && s.runners[k].turn == turn
                                                     && s.runners[k].session == session
    ensures CleanlyLeads(from, end) && end.slot.Idle? && Robbed(end, i, turn) && end.runners[i].session == session
    ensures !Retained(end, unused)
  {
    hide DirOf, CleanlyLeads;
    var a := if s.slot.Idle? then Launch
             else if s.slot.failing then SetupRecord
             else if s.slot.registered then Launch else AnswerUnknownCli;
    if s.slot.Setup? {
      LeadsThen(from, s, a);
      end := Apply(s, a);
    } else {
      end := s;
    }
    if s.slot.Setup? && s.slot.turn == turn {
      i := |s.runners|;
    } else {
      i :| 0 <= i < |s.runners| && Live(s.runners[i]) && s.runners[i].turn == turn && s.runners[i].session == session;
    }
  }

  /** A prune takes the directory, in a submit whose claim is then abandoned. */
  lemma PruneFor(from: State, s: State, turn: string, unused: string) returns (end: State)
    requires CleanlyLeads(from, s) && s.slot.Idle? && turn !in s.mem && unused != "" && !Retained(s, unused)
    ensures CleanlyLeads(from, end) && end.slot.Idle? && end.runners == s.runners && end.mem == s.mem
    ensures !Retained(end, turn)
  {
    hide DirOf, CleanlyLeads;
    end := s;
    if DirOf(turn) in s.dirs {
      var claim := Submit(unused, unused, "", true, {DirOf(turn)}, Complete);
      LeadsThen(from, s, claim);
      var claimed := Apply(s, claim);
      LeadsThen(from, claimed, Abandon);
      end := Apply(claimed, Abandon);
      assert end.mem == s.mem;
    }
  }

  /** A turn that lost its record can be claimed again beside its own runner. */
  lemma ClaimedTwice(from: State, s: State, i: nat, turn: string, unused: string) returns (end: State, j: nat)
    requires CleanlyLeads(from, s) && s.slot.Idle? && Robbed(s, i, turn) && unused != "" && !Retained(s, unused)
    ensures CleanlyLeads(from, end) && TwoRunners(end, i, j, turn)
  {
    hide DirOf, CleanlyLeads;
    var pruned := PruneFor(from, s, turn, unused);
    var claim := Submit(turn, turn, s.runners[i].session, true, {}, Complete);
    LeadsThen(from, pruned, claim);
    var claimed := Apply(pruned, claim);
    LeadsThen(from, claimed, Launch);
    end, j := Apply(claimed, Launch), |s.runners|;
    assert end.runners[i] == s.runners[i];
  }

  ghost predicate TwoRunners(s: State, i: nat, j: nat, turn: string) {
    i < j < |s.runners| && Live(s.runners[i]) && Live(s.runners[j]) && s.runners[i].turn == s.runners[j].turn == turn
  }

  lemma UncleanBreaks(s: State, r: nat, unused: string) returns (end: State, i: nat, j: nat, turn: string)
    requires Inv(s) && Enabled(s, Pop(r)) && !Clean(s, Pop(r))
    requires unused != "" && !Retained(s, unused) && NotInSetup(s, unused)
    ensures CleanlyLeads(Apply(s, Pop(r)), end) && TwoRunners(end, i, j, turn)
  {
    turn :| turn in s.runners[r].phase.stale && turn in s.mem && s.mem[turn].Running? && Held(s, turn);
    var session := s.mem[turn].session;
    var swept := Apply(s, Pop(r));
    if !(s.slot.Setup? && s.slot.turn == turn) {
      var k :| 0 <= k < |s.runners| && Live(s.runners[k]) && s.runners[k].turn == turn;
      assert HoldsClaim(s, s.runners[k].turn, s.runners[k].session);
      assert Live(swept.runners[k]) && swept.runners[k].turn == turn && swept.runners[k].session == session;
    }
    LeadsNowhere(swept);
    hide DirOf, Inv, CleanlyLeads, Held;
    var free;
    free, i := FreeTheSlot(swept, swept, turn, session, unused);
    end, j := ClaimedTwice(swept, free, i, turn, unused);
  }

  /** The side condition is exact: as long as some unused turn id is left, a sweep keeps
      one turn per session and one runner per turn for good if and only if it drops no
      running record of a held turn. */
  lemma CleanIsExact(s: State, r: nat, unused: string)
    requires CleanlyReachable(s) && Enabled(s, Pop(r))
    requires unused != "" && !Retained(s, unused) && NotInSetup(s, unused)
    ensures Clean(s, Pop(r)) <==> forall end | CleanlyLeads(Apply(s, Pop(r)), end) :: OneEach(end)
  {
    ReachableInv(s);
    if Clean(s, Pop(r)) {
      InvStep(s, Pop(r));
      forall end | CleanlyLeads(Apply(s, Pop(r)), end) ensures OneEach(end) {
        CleanInv(Apply(s, Pop(r)), end);
        InvOneEach(end);
      }
    } else {
      var end, i, j, turn := UncleanBreaks(s, r, unused);
      assert !OneEach(end);
    }
  }

  // ----- one verdict per claim -----

  /** A claim publishes at most its done.json and then one record in memory, and both say
      the same: forced, normal and setup verdicts exclude each other. */
  lemma OneVerdictPerClaim(s: State, j: nat, k: nat)
    requires Reachable(s) && j < k < |s.log|
    ensures s.log[j].verdict.claim == s.log[k].verdict.claim ==>
              s.log[j].verdict == s.log[k].verdict && s.log[j].onDisk && !s.log[k].onDisk
  {
    ReachableRecords(s);
    assert SameVerdict(s.log[j], s.log[k]);
  }

  /** No step replaces a verdict held in memory: it stays or is swept. */
  lemma VerdictKept(s: State, a: Action, turn: string)
    requires CleanlyReachable(s) && Enabled(s, a) && turn in s.mem && s.mem[turn].Done?
    ensures var s' := Apply(s, a); turn in s'.mem ==> s'.mem[turn] == s.mem[turn]
  {
    ReachableInv(s);
    if a.Mark? || a.Record? {
      assert StageOk(s.runners[a.r]);
      assert HoldsClaim(s, s.runners[a.r].turn, s.runners[a.r].session);
    }
  }

  ghost predicate StoodDown(s: State, i: nat) {
    i < |s.runners| && s.runners[i].timer.Stopped?
    && (s.runners[i].stage.Deciding? || s.runners[i].stage.author == ByRunner)
  }

  lemma StoodDownStep(s: State, a: Action, i: nat)
    requires StageInv(s) && Enabled(s, a) && StoodDown(s, i)
    ensures StoodDown(Apply(s, a), i)
  {
    assert StageOk(s.runners[i]);
    if !Threaded(a) {
      HandlerRunners(s, a);
    }
  }

  lemma {:induction false} StoodDownRun(s: State, actions: seq<Action>, i: nat)
    requires RecordInv(s) && Run(s, actions) && StoodDown(s, i)
    ensures StoodDown(After(s, actions), i) && RecordInv(After(s, actions))
    decreases |actions|
  {
    if actions != [] {
      hide Apply, Enabled, StoodDown;
      StoodDownStep(s, actions[0], i);
      RecordInvStep(s, actions[0]);
      StoodDownRun(Apply(s, actions[0]), actions[1..], i);
    }
  }

  /** A backstop that takes the lock after the CLI was reaped publishes nothing, then or
      at any later point of any run. */
  lemma BackstopStandsDown(s: State, i: nat, end: State)
    requires Reachable(s) && Enabled(s, TimerLock(i)) && s.runners[i].cliExited
    requires s.runners[i].stage.Deciding?
    requires Leads(Apply(s, TimerLock(i)), end)
    ensures forall k | 0 <= k < |end.log| ::
              end.log[k].verdict.claim == s.runners[i].claim ==> end.log[k].verdict.author == ByRunner
  {
    ReachableRecords(s);
    RecordInvStep(s, TimerLock(i));
    SilentFrom(Apply(s, TimerLock(i)), i, end);
  }

  /** The same holds of a backstop the runner cancels in time, when its stream has ended. */
  lemma CancelledBackstopIsSilent(s: State, i: nat, end: State)
    requires Reachable(s) && Enabled(s, StreamEnd(i)) && s.runners[i].timer.Armed?
    requires Leads(Apply(s, StreamEnd(i)), end)
    ensures forall k | 0 <= k < |end.log| ::
              end.log[k].verdict.claim == s.runners[i].claim ==> end.log[k].verdict.author == ByRunner
  {
    ReachableRecords(s);
    assert StageOk(s.runners[i]);
    RecordInvStep(s, StreamEnd(i));
    SilentFrom(Apply(s, StreamEnd(i)), i, end);
  }

  lemma SilentFrom(s: State, i: nat, end: State)
    requires RecordInv(s) && StoodDown(s, i) && Leads(s, end)
    ensures forall k | 0 <= k < |end.log| ::
              end.log[k].verdict.claim == s.runners[i].claim ==> end.log[k].verdict.author == ByRunner
  {
    var actions :| Run(s, actions) && After(s, actions) == end;
    StoodDownRun(s, actions, i);
    ClaimsStay(s, actions, i);
    forall k | 0 <= k < |end.log| && end.log[k].verdict.claim == s.runners[i].claim
      ensures end.log[k].verdict.author == ByRunner
    {
      assert RunnerPublished(end.runners[i], end.log[k]);
    }
  }

  lemma {:induction false} ClaimsStay(s: State, actions: seq<Action>, i: nat)
    requires Run(s, actions) && i < |s.runners| && StageInv(s)
    ensures var end := After(s, actions); i < |end.runners| && end.runners[i].claim == s.runners[i].claim
    decreases |actions|
  {
    if actions != [] {
      var a := actions[0];
      StageStep(s, a);
      if Threaded(a) {
        assert StageOk(s.runners[a.r]);
        ThreadStep(s, a);
      } else {
        HandlerRunners(s, a);
      }
      hide Apply, Enabled;
      ClaimsStay(Apply(s, a), actions[1..], i);
    }
  }

  /** The step replaces one verdict in memory by another. */
  ghost predicate Replaces(s: State, a: Action, turn: string)
    requires Enabled(s, a)
  {
    turn in s.mem && s.mem[turn].Done? && turn in Apply(s, a).mem && Apply(s, a).mem[turn] != s.mem[turn]
  }

  lemma GetsToRecord(from: State, s: State, i: nat) returns (end: State)
    requires ApartLeads(from, s) && StageInv(s) && i < |s.runners| && Live(s.runners[i])
    ensures ApartLeads(from, end) && StageInv(end) && |end.runners| == |s.runners|
    ensures end.runners[i].stage.Recording?
    ensures (end.runners[i].claim, end.runners[i].turn) == (s.runners[i].claim, s.runners[i].turn)
    ensures forall k | 0 <= k < |s.runners| && k != i :: end.runners[k] == s.runners[k]
  {
    hide ApartLeads, DirOf;
    end := s;
    if YetToWrite(s.runners[i]) {
      end := GetsToWrite(from, s, i);
      ApartThen(from, end, Write(i, Nothing));
      StageStep(end, Write(i, Nothing));
      end := Apply(end, Write(i, Nothing));
    }
  }

  /** Two runners of one turn: each publishes, and the second verdict replaces the first. */
  lemma SecondVerdictWins(s: State, i: nat, j: nat, turn: string) returns (end: State, a: Action)
    requires StageInv(s) && TwoRunners(s, i, j, turn) && s.runners[i].claim != s.runners[j].claim
    ensures Leads(s, end) && Enabled(end, a) && Replaces(end, a, turn)
  {
    assert Run(s, []) && ApartRun(s, []) && After(s, []) == s;
    hide ApartLeads, DirOf, StageInv, Replaces, Apply;
    var one := GetsToRecord(s, s, i);
    var both := GetsToRecord(s, one, j);
    RecordTwice(both, i, j, turn);
    ApartThen(s, both, Record(j));
    end, a := Apply(both, Record(j)), Record(i);
    ApartIsARun(s, end);
  }

  lemma RecordTwice(s: State, i: nat, j: nat, turn: string)
    requires i < j < |s.runners| && s.runners[i].turn == s.runners[j].turn == turn
    requires s.runners[i].stage.Recording? && s.runners[j].stage.Recording? && s.runners[i].claim != s.runners[j].claim
    ensures Enabled(s, Record(j)) && Enabled(Apply(s, Record(j)), Record(i))
    ensures Replaces(Apply(s, Record(j)), Record(i), turn)
  {
    var recorded := Apply(s, Record(j));
    assert recorded.mem[turn] == Done(RunnerVerdict(s.runners[j]));
    assert Apply(recorded, Record(i)).mem[turn] == Done(RunnerVerdict(s.runners[i]));
  }

  lemma ApartIsARun(s: State, end: State)
    requires ApartLeads(s, end)
    ensures Leads(s, end)
  {
  }

  lemma CleanIsARun(s: State, end: State)
    requires CleanlyLeads(s, end)
    ensures Leads(s, end)
  {
  }

  lemma {:induction false} RunTwo(s: State, a: seq<Action>, b: seq<Action>)
    requires Run(s, a) && Run(After(s, a), b)
    ensures Run(s, a + b) && After(s, a + b) == After(After(s, a), b)
    decreases |a|
  {
    hide Apply, Enabled;
    if a == [] {
      assert a + b == b;
    } else {
      assert (a + b)[1..] == a[1..] + b;
      RunTwo(Apply(s, a[0]), a[1..], b);
    }
  }

  lemma LeadsOn(s: State, mid: State, end: State)
    requires Leads(s, mid) && Leads(mid, end)
    ensures Leads(s, end)
  {
    var a :| Run(s, a) && After(s, a) == mid;
    var b :| Run(mid, b) && After(mid, b) == end;
    RunTwo(s, a, b);
  }

  lemma LeadsRecords(s: State, end: State)
    requires RecordInv(s) && Leads(s, end)
    ensures RecordInv(end)
  {
    var actions :| Run(s, actions) && After(s, actions) == end;
    RecordInvRun(s, actions);
  }

  /** VerdictKept needs its condition: after any sweep that drops the running record of a
      held turn, some run goes on to replace a verdict held in memory. */
  lemma UncleanSweepCostsAVerdict(s: State, r: nat, unused: string) returns (end: State, a: Action, turn: string)
    requires CleanlyReachable(s) && Enabled(s, Pop(r)) && !Clean(s, Pop(r))
    requires unused != "" && !Retained(s, unused) && NotInSetup(s, unused)
    ensures Leads(Apply(s, Pop(r)), end) && Enabled(end, a) && Replaces(end, a, turn)
  {
    ReachableInv(s);
    var swept := Apply(s, Pop(r));
    RecordInvStep(s, Pop(r));
    hide Apply, Enabled, Clean, Inv, RecordInv;
    var twice, i, j;
    twice, i, j, turn := UncleanBreaks(s, r, unused);
    CleanIsARun(swept, twice);
    LeadsRecords(swept, twice);
    assert StageInv(twice) && twice.runners[i].claim != twice.runners[j].claim by {
      ClaimsDiffer(twice, i, j);
    }
    end, a := SecondVerdictWins(twice, i, j, turn);
    LeadsOn(swept, twice, end);
  }

  lemma ClaimsDiffer(s: State, i: nat, j: nat)
    requires RecordInv(s) && i < j < |s.runners|
    ensures StageInv(s) && s.runners[i].claim != s.runners[j].claim
  {
  }

  // ----- poll, and resubmitting a known turn -----

  datatype Answer = AnsweredDone(verdict: Verdict) | AnsweredRunning | AnsweredUnknown

  /** _poll_turn: memory first, then done.json. */
  function Poll(s: State, turn: string): Answer {
    if turn in s.mem then
      if s.mem[turn].Done? then AnsweredDone(s.mem[turn].verdict) else AnsweredRunning
    else if DirOf(turn) in s.dirs && s.dirs[DirOf(turn)].Some? then AnsweredDone(s.dirs[DirOf(turn)].value)
    else AnsweredUnknown
  }

  /** A done.json was there at the start, or is one the run filed, in its turn's directory. */
  ghost predicate FiledOrThere(s: State, start: map<string, Option<Verdict>>, d: string, v: Verdict) {
    (d in start && start[d] == Some(v)) || (Publication(true, v) in s.log && DirOf(v.turn) == d)
  }

  ghost predicate Recorded(s: State, turn: string, v: Verdict) { Publication(false, v) in s.log && v.turn == turn }

  /** Nothing but what the run published, or found, is on disk or in memory. */
  ghost predicate Traced(s: State, start: map<string, Option<Verdict>>) {
    (forall d | d in s.dirs && s.dirs[d].Some? :: FiledOrThere(s, start, d, s.dirs[d].value))
    && forall t | t in s.mem && s.mem[t].Done? :: Recorded(s, t, s.mem[t].verdict)
  }

  /** The step publishes what it leaves: a filed verdict is the one in done.json, a recorded
      one the one in memory. */
  lemma PublishesWhatItLeaves(s: State, a: Action)
    requires Enabled(s, a)
    ensures var s' := Apply(s, a);
            || s'.log == s.log
            || (|s'.log| == |s.log| + 1 && s'.log[..|s.log|] == s.log
                && var p := s'.log[|s.log|];
                   if p.onDisk then DirOf(p.verdict.turn) in s'.dirs && s'.dirs[DirOf(p.verdict.turn)] == Some(p.verdict)
                   else p.verdict.turn in s'.mem && s'.mem[p.verdict.turn] == Done(p.verdict))
  {
    hide DirOf;
  }

  lemma LogGrows(s: State, a: Action, p: Publication)
    requires Enabled(s, a) && p in s.log
    ensures p in Apply(s, a).log
  {
    PublishesWhatItLeaves(s, a);
    hide Apply, Enabled;
    var k :| 0 <= k < |s.log| && s.log[k] == p;
  }

  /** What the step newly leaves on disk, it filed. */
  lemma NewOnDisk(s: State, a: Action, d: string)
    requires Enabled(s, a) && d in Apply(s, a).dirs && Apply(s, a).dirs[d].Some?
    requires d in s.dirs ==> s.dirs[d] != Apply(s, a).dirs[d]
    ensures var v := Apply(s, a).dirs[d].value; DirOf(v.turn) == d && Publication(true, v) in Apply(s, a).log
  {
    hide DirOf;
  }

  lemma NewInMemory(s: State, a: Action, t: string)
    requires Enabled(s, a) && t in Apply(s, a).mem && Apply(s, a).mem[t].Done?
    requires t in s.mem ==> s.mem[t] != Apply(s, a).mem[t]
    ensures Recorded(Apply(s, a), t, Apply(s, a).mem[t].verdict)
  {
    hide DirOf;
  }

  /** A done.json goes only with its directory, or to a verdict filed in its place. */
  lemma ReplacedByFiling(s: State, a: Action, d: string)
    requires Enabled(s, a) && d in s.dirs && s.dirs[d].Some? && d in Apply(s, a).dirs && Apply(s, a).dirs[d] != s.dirs[d]
    ensures var s' := Apply(s, a);
            s'.dirs[d].Some? && s'.log == s.log + [Publication(true, s'.dirs[d].value)]
            && DirOf(s'.dirs[d].value.turn) == d
  {
    hide DirOf;
  }

  lemma TracedStep(s: State, a: Action, start: map<string, Option<Verdict>>)
    requires Traced(s, start) && Enabled(s, a)
    ensures Traced(Apply(s, a), start)
  {
    hide Apply, Enabled, DirOf;
    var s' := Apply(s, a);
    forall d | d in s'.dirs && s'.dirs[d].Some? ensures FiledOrThere(s', start, d, s'.dirs[d].value) {
      if d in s.dirs && s.dirs[d] == s'.dirs[d] {
        if Publication(true, s.dirs[d].value) in s.log {
          LogGrows(s, a, Publication(true, s.dirs[d].value));
        }
      } else {
        NewOnDisk(s, a, d);
      }
    }
    forall t | t in s'.mem && s'.mem[t].Done? ensures Recorded(s', t, s'.mem[t].verdict) {
      if t in s.mem && s.mem[t] == s'.mem[t] {
        LogGrows(s, a, Publication(false, s.mem[t].verdict));
      } else {
        NewInMemory(s, a, t);
      }
    }
  }

  lemma {:induction false} TracedRun(s: State, actions: seq<Action>, start: map<string, Option<Verdict>>)
    requires Traced(s, start) && Run(s, actions)
    ensures Traced(After(s, actions), start)
    decreases |actions|
  {
    if actions != [] {
      hide Apply, Enabled, Traced;
      TracedStep(s, actions[0], start);
      TracedRun(Apply(s, actions[0]), actions[1..], start);
    }
  }

  /** On every run: a poll that answers done gives a verdict of that turn the run recorded,
      or one it filed in that turn's directory, or the done.json found there at the start. */
  lemma PollAnswersWhatWasPublished(start: map<string, Option<Verdict>>, s: State, turn: string)
    requires Leads(Start(start), s) && Poll(s, turn).AnsweredDone?
    ensures if turn in s.mem then Recorded(s, turn, Poll(s, turn).verdict)
            else FiledOrThere(s, start, DirOf(turn), Poll(s, turn).verdict)
  {
    var actions :| Run(Start(start), actions) && After(Start(start), actions) == s;
    TracedRun(Start(start), actions, start);
  }

  lemma {:induction false} LogGrowsRun(s: State, actions: seq<Action>, p: Publication)
    requires Run(s, actions) && p in s.log
    ensures p in After(s, actions).log
    decreases |actions|
  {
    if actions != [] {
      LogGrows(s, actions[0], p);
      hide Apply, Enabled;
      LogGrowsRun(Apply(s, actions[0]), actions[1..], p);
    }
  }

  /** Whatever is polled, now or later, from memory or from disk: on a VM that started
      without verdicts, two done answers about one claim are the same answer. */
  lemma PollsAgree(start: map<string, Option<Verdict>>, s: State, turn: string, later: State, turn': string)
    requires (forall d | d in start :: start[d].None?) && Leads(Start(start), s) && Leads(s, later)
    requires Poll(s, turn).AnsweredDone? && Poll(later, turn').AnsweredDone?
    requires Poll(s, turn).verdict.claim == Poll(later, turn').verdict.claim
    ensures Poll(s, turn) == Poll(later, turn')
  {
    LeadsOn(Start(start), s, later);
    PollAnswersWhatWasPublished(start, s, turn);
    PollAnswersWhatWasPublished(start, later, turn');
    ReachableRecords(later);
    var p := Publication(turn !in s.mem, Poll(s, turn).verdict);
    var q := Publication(turn' !in later.mem, Poll(later, turn').verdict);
    var actions :| Run(s, actions) && After(s, actions) == later;
    LogGrowsRun(s, actions, p);
    LogAgrees(later, p, q);
  }

  lemma LogAgrees(s: State, p: Publication, q: Publication)
    requires LogInv(s) && p in s.log && q in s.log && p.verdict.claim == q.verdict.claim
    ensures p.verdict == q.verdict
  {
    var j :| 0 <= j < |s.log| && s.log[j] == p;
    var k :| 0 <= k < |s.log| && s.log[k] == q;
    assert j < k ==> SameVerdict(s.log[j], s.log[k]);
    assert k < j ==> SameVerdict(s.log[k], s.log[j]);
  }

  /** The record or the directory is there before every step of the run. */
  ghost predicate RetainedThrough(s: State, actions: seq<Action>, turn: string)
    requires Run(s, actions)
    decreases |actions|
  {
    actions == [] || (Retained(s, turn) && RetainedThrough(Apply(s, actions[0]), actions[1..], turn))
  }

  ghost predicate Settled(s: State, turn: string) { !(turn in s.mem && s.mem[turn].Running?) }

  /** A turn comes to be marked running by its submit or by its runner. */
  lemma ComesToRun(s: State, a: Action, turn: string)
    requires Enabled(s, a) && Settled(s, turn) && !Settled(Apply(s, a), turn)
    ensures (a.Submit? && !Retained(s, turn))
            || (a.Mark? && s.runners[a.r].phase.Swept? && s.runners[a.r].turn == turn)
  {
    hide DirOf, WriteDone, Filed;
  }

  lemma SettledStep(s: State, a: Action, turn: string)
    requires Inv(s) && Enabled(s, a) && Retained(s, turn) && Settled(s, turn)
    ensures Settled(Apply(s, a), turn)
  {
    hide Apply, DirOf;
    if a.Mark? {
      assert StageOk(s.runners[a.r]);
      assert HoldsClaim(s, s.runners[a.r].turn, s.runners[a.r].session);
    }
    if !Settled(Apply(s, a), turn) {
      ComesToRun(s, a, turn);
    }
  }

  lemma {:induction false} SettledRun(s: State, actions: seq<Action>, turn: string)
    requires Inv(s) && Run(s, actions) && CleanRun(s, actions)
    requires RetainedThrough(s, actions, turn) && Settled(s, turn)
    ensures Settled(After(s, actions), turn)
    decreases |actions|
  {
    if actions != [] {
      hide Apply, Enabled, Settled, Inv;
      SettledStep(s, actions[0], turn);
      InvStep(s, actions[0]);
      SettledRun(Apply(s, actions[0]), actions[1..], turn);
    }
  }

  /** A poll that answered done never later answers running while the turn's record or
      its directory is retained. */
  lemma PollNeverGoesBack(s: State, actions: seq<Action>, turn: string)
    requires CleanlyReachable(s) && Run(s, actions) && CleanRun(s, actions) && RetainedThrough(s, actions, turn)
    requires Poll(s, turn).AnsweredDone?
    ensures !Poll(After(s, actions), turn).AnsweredRunning?
  {
    ReachableInv(s);
    SettledRun(s, actions, turn);
  }

  ghost function RunnersOf(s: State, turn: string): set<nat> {
    set i: nat | i < |s.runners| && s.runners[i].turn == turn
  }

  ghost predicate NotInSetup(s: State, turn: string) { !(s.slot.Setup? && s.slot.turn == turn) }

  lemma NoNewRunnerStep(s: State, a: Action, turn: string)
    requires StageInv(s) && Enabled(s, a) && Retained(s, turn) && NotInSetup(s, turn)
    ensures NotInSetup(Apply(s, a), turn) && RunnersOf(Apply(s, a), turn) == RunnersOf(s, turn)
  {
    if Threaded(a) {
      assert StageOk(s.runners[a.r]);
      ThreadStep(s, a);
    } else {
      HandlerRunners(s, a);
    }
  }

  lemma {:induction false} NoNewRunnerRun(s: State, actions: seq<Action>, turn: string)
    requires StageInv(s) && Run(s, actions) && RetainedThrough(s, actions, turn) && NotInSetup(s, turn)
    ensures RunnersOf(After(s, actions), turn) == RunnersOf(s, turn)
    decreases |actions|
  {
    if actions != [] {
      hide Apply, Enabled, NotInSetup, RunnersOf;
      NoNewRunnerStep(s, actions[0], turn);
      StageStep(s, actions[0]);
      NoNewRunnerRun(Apply(s, actions[0]), actions[1..], turn);
    }
  }

  /** A same-id resubmit starts no second runner while the record or the directory survives. */
  lemma ResubmitStartsNothing(s: State, actions: seq<Action>, turn: string)
    requires Reachable(s) && Run(s, actions) && RetainedThrough(s, actions, turn) && NotInSetup(s, turn)
    ensures RunnersOf(After(s, actions), turn) == RunnersOf(s, turn)
  {
    ReachableRecords(s);
    NoNewRunnerRun(s, actions, turn);
  }

  // ----- done.json -----

  /** The claim has still to write its done.json. */
  predicate YetToWrite(r: Runner) { r.stage.Deciding? || r.stage.Writing? }

  predicate Unwritten(dirs: map<string, Option<Verdict>>, d: string) { d in dirs ==> dirs[d].None? }

  /** Claims that have still to write do so into different directories, and first. */
  ghost predicate ApartInv(s: State) {
    (forall i | 0 <= i < |s.runners| && YetToWrite(s.runners[i]) :: Unwritten(s.dirs, DirOf(s.runners[i].turn)))
    && (forall i, j | 0 <= i < j < |s.runners| && YetToWrite(s.runners[i]) && YetToWrite(s.runners[j]) ::
          DirOf(s.runners[i].turn) != DirOf(s.runners[j].turn))
    && (s.slot.Setup? && !s.slot.failing ==>
          Unwritten(s.dirs, DirOf(s.slot.turn))
          && forall i | 0 <= i < |s.runners| && YetToWrite(s.runners[i]) :: DirOf(s.runners[i].turn) != DirOf(s.slot.turn))
  }

  predicate Accepted(s: State, a: Action) {
    a.Submit? && !Busy(s.mem, a.session, a.turn) && !Retained(s, TurnOf(a.turn, a.minted))
    && (a.known ==> a.meta.Complete?)
  }

  /** A submit whose directory no runner has still to write into. */
  ghost predicate Apart(s: State, a: Action) {
    Accepted(s, a) ==>
      forall i | 0 <= i < |s.runners| && YetToWrite(s.runners[i]) ::
        DirOf(s.runners[i].turn) != DirOf(TurnOf(a.turn, a.minted))
  }

  /** The step replaces one done.json by another. */
  ghost predicate Rewrites(s: State, a: Action)
    requires Enabled(s, a)
  {
    exists d | d in s.dirs && s.dirs[d].Some? :: d in Apply(s, a).dirs && Apply(s, a).dirs[d] != s.dirs[d]
  }

  lemma HandlerApart(s: State, a: Action)
    requires ApartInv(s) && Enabled(s, a) && !Threaded(a) && Apart(s, a)
    ensures ApartInv(Apply(s, a))
  {
    hide DirOf;
    HandlerRunners(s, a);
  }

  /** A thread's step that leaves every done.json as it is. */
  lemma QuietApart(s: State, i: nat, r: Runner, s': State)
    requires ApartInv(s) && i < |s.runners| && s'.runners == s.runners[i := r] && r.turn == s.runners[i].turn
    requires YetToWrite(r) ==> YetToWrite(s.runners[i])
    requires forall d :: Unwritten(s.dirs, d) ==> Unwritten(s'.dirs, d)
    requires s'.slot == s.slot
    ensures ApartInv(s')
  {
    hide DirOf;
  }

  lemma WriteApart(s: State, i: nat, r: Runner, v: Verdict, disk: Disk, s': State)
    requires ApartInv(s) && i < |s.runners| && s'.runners == s.runners[i := r] && r.turn == s.runners[i].turn
    requires YetToWrite(s.runners[i]) && !YetToWrite(r) && v.turn == r.turn
    requires s'.dirs == WriteDone(s.dirs, v, disk) && s'.slot == s.slot
    ensures ApartInv(s')
  {
    hide DirOf;
  }

  lemma ApartStep(s: State, a: Action)
    requires ApartInv(s) && StageInv(s) && Enabled(s, a) && Apart(s, a)
    ensures ApartInv(Apply(s, a))
  {
    hide DirOf, ApartInv;
    if Threaded(a) {
      assert StageOk(s.runners[a.r]);
      ThreadStep(s, a);
      var s' := Apply(s, a);
      if a.Write? {
        WriteApart(s, a.r, s'.runners[a.r], RunnerVerdict(s.runners[a.r]), a.done, s');
      } else {
        QuietApart(s, a.r, s'.runners[a.r], s');
      }
    } else {
      HandlerApart(s, a);
    }
  }

  lemma ApartWrites(s: State, a: Action)
    requires ApartInv(s) && Enabled(s, a)
    ensures !Rewrites(s, a)
  {
    hide DirOf;
    if a.Write? {
      assert YetToWrite(s.runners[a.r]);
    }
  }

  ghost predicate ApartRun(s: State, actions: seq<Action>)
    requires Run(s, actions)
    decreases |actions|
  {
    actions == [] || (Apart(s, actions[0]) && ApartRun(Apply(s, actions[0]), actions[1..]))
  }

  lemma {:induction false} ApartInvRun(s: State, actions: seq<Action>)
    requires ApartInv(s) && StageInv(s) && Run(s, actions) && ApartRun(s, actions)
    ensures ApartInv(After(s, actions)) && StageInv(After(s, actions))
    decreases |actions|
  {
    if actions != [] {
      hide Apply, Enabled, ApartInv, StageInv, Apart;
      ApartStep(s, actions[0]);
      StageStep(s, actions[0]);
      ApartInvRun(Apply(s, actions[0]), actions[1..]);
    }
  }

  ghost predicate ApartLeads(s: State, end: State) {
    exists actions | Run(s, actions) && ApartRun(s, actions) :: After(s, actions) == end
  }

  lemma ApartLeadsInv(s: State, end: State)
    requires ApartInv(s) && StageInv(s) && ApartLeads(s, end)
    ensures ApartInv(end) && StageInv(end)
  {
    var actions :| Run(s, actions) && ApartRun(s, actions) && After(s, actions) == end;
    ApartInvRun(s, actions);
  }

  /** While every accepted submit has a directory to itself, a done.json once written is
      never rewritten: every later step leaves it as it is or prunes it whole. */
  lemma DoneFileKept(dirs: map<string, Option<Verdict>>, s: State, a: Action)
    requires ApartLeads(Start(dirs), s) && Enabled(s, a)
    ensures !Rewrites(s, a)
  {
    ApartLeadsInv(Start(dirs), s);
    ApartWrites(s, a);
  }

  lemma ApartThen(s: State, mid: State, a: Action)
    requires ApartLeads(s, mid) && Enabled(mid, a) && !a.Submit?
    ensures ApartLeads(s, Apply(mid, a))
  {
    var actions :| Run(s, actions) && ApartRun(s, actions) && After(s, actions) == mid;
    assert Apart(mid, a);
    hide Apply, Enabled, Apart;
    RunThen(s, actions, a);
  }

  /** What an unfinished runner does next on its way to its done.json. */
  function Onward(r: Runner, i: nat): Action {
    match r.phase
    case Launched => List(i, {})
    case Listed(_) => Pop(i)
    case Swept => Mark(i)
    case Marked => Meta(i, Nothing)
    case Streaming => StreamEnd(i)
    case Unwound => Lock(i)
    case Ended => Lock(i)
  }

  function StepsLeft(r: Runner): nat {
    if !r.stage.Deciding? then 0
    else
      match r.phase
      case Launched => 6
      case Listed(_) => 5
      case Swept => 4
      case Marked => 3
      case Streaming => 2
      case Unwound => 1
      case Ended => 0
  }

  /** A runner that has still to write gets to its write whatever the directories hold. */
  lemma {:induction false} GetsToWrite(from: State, s: State, i: nat) returns (end: State)
    requires ApartLeads(from, s) && StageInv(s) && i < |s.runners| && YetToWrite(s.runners[i])
    ensures ApartLeads(from, end) && i < |end.runners| && end.runners[i].stage.Writing?
    ensures end.dirs == s.dirs && end.slot == s.slot && StageInv(end)
    ensures |end.runners| == |s.runners| && (end.runners[i].claim, end.runners[i].turn) == (s.runners[i].claim, s.runners[i].turn)
    ensures forall k | 0 <= k < |s.runners| && k != i :: end.runners[k] == s.runners[k]
    decreases StepsLeft(s.runners[i])
  {
    hide ApartLeads;
    if s.runners[i].stage.Writing? {
      end := s;
    } else {
      assert StageOk(s.runners[i]);
      var a := Onward(s.runners[i], i);
      ApartThen(from, s, a);
      StageStep(s, a);
      end := GetsToWrite(from, Apply(s, a), i);
    }
  }

  /** A second claim in the directory of a runner that has still to write: its setup fails,
      the runner finishes, and one verdict replaces the other. */
  lemma SharedDirIsRewritten(s: State, a: Action) returns (end: State, b: Action)
    requires StageInv(s) && Enabled(s, a) && !Apart(s, a)
    ensures ApartLeads(Apply(s, a), end) && Enabled(end, b) && Rewrites(end, b)
  {
    var turn := TurnOf(a.turn, a.minted);
    var i :| 0 <= i < |s.runners| && YetToWrite(s.runners[i]) && DirOf(s.runners[i].turn) == DirOf(turn);
    var claimed := Apply(s, a);
    StageStep(s, a);
    assert claimed.slot.Setup? && !claimed.slot.failing && claimed.slot.turn == turn;
    assert claimed.runners == s.runners;
    hide ApartLeads, DirOf, Apart, Accepted, AfterSubmit;
    end, b := SlotThenRunner(claimed, i);
  }

  lemma SlotThenRunner(s: State, i: nat) returns (end: State, b: Action)
    requires StageInv(s) && s.slot.Setup? && !s.slot.failing && i < |s.runners| && YetToWrite(s.runners[i])
    requires DirOf(s.runners[i].turn) == DirOf(s.slot.turn)
    ensures ApartLeads(s, end) && Enabled(end, b) && Rewrites(end, b)
  {
    assert Run(s, []) && ApartRun(s, []) && After(s, []) == s;
    hide ApartLeads, DirOf;
    var failed := Apply(s, SetupWrite(Complete));
    ApartThen(s, s, SetupWrite(Complete));
    StageStep(s, SetupWrite(Complete));
    var d := DirOf(s.slot.turn);
    assert failed.dirs[d] == Some(SlotVerdict(s.slot));
    end := GetsToWrite(s, failed, i);
    b := Write(i, Complete);
    assert StageOk(end.runners[i]);
    assert Apply(end, b).dirs[d] == Some(RunnerVerdict(end.runners[i]));
  }

  /** The condition is exact: a submit leaves every done.json safe for good if and only if
      no runner has still to write into its directory. */
  lemma ApartIsExact(dirs: map<string, Option<Verdict>>, s: State, a: Action)
    requires ApartLeads(Start(dirs), s) && Enabled(s, a) && a.Submit?
    ensures Apart(s, a) <==>
            forall end, b | ApartLeads(Apply(s, a), end) && Enabled(end, b) :: !Rewrites(end, b)
  {
    ApartLeadsInv(Start(dirs), s);
    if Apart(s, a) {
      ApartStep(s, a);
      StageStep(s, a);
      forall end, b | ApartLeads(Apply(s, a), end) && Enabled(end, b) ensures !Rewrites(end, b) {
        ApartLeadsInv(Apply(s, a), end);
        ApartWrites(end, b);
      }
    } else {
      var end, b := SharedDirIsRewritten(s, a);
    }
  }

  /** The daily prune spares the directories of turns that have still to write. */
  ghost predicate Tidy(s: State, a: Action) {
    a.Submit? ==> forall i | 0 <= i < |s.runners| && YetToWrite(s.runners[i]) :: DirOf(s.runners[i].turn) !in a.pruned
  }

  ghost predicate TidyRun(s: State, actions: seq<Action>)
    requires Run(s, actions)
    decreases |actions|
  {
    actions == [] || (Tidy(s, actions[0]) && TidyRun(Apply(s, actions[0]), actions[1..]))
  }

  ghost predicate DirsThere(s: State) {
    (forall i | 0 <= i < |s.runners| && YetToWrite(s.runners[i]) :: DirOf(s.runners[i].turn) in s.dirs)
    && (s.slot.Setup? && s.slot.registered ==> DirOf(s.slot.turn) in s.dirs)
  }

  lemma ThreadsKeepDirs(s: State, a: Action, d: string)
    requires Enabled(s, a) && Threaded(a) && d in s.dirs
    ensures d in Apply(s, a).dirs
  {
  }

  lemma TidyThread(s: State, a: Action)
    requires DirsThere(s) && StageInv(s) && Enabled(s, a) && Threaded(a)
    ensures DirsThere(Apply(s, a))
  {
    assert StageOk(s.runners[a.r]);
    ThreadStep(s, a);
    var s' := Apply(s, a);
    forall d | d in s.dirs ensures d in s'.dirs {
      ThreadsKeepDirs(s, a, d);
    }
    assert YetToWrite(s'.runners[a.r]) ==> YetToWrite(s.runners[a.r]);
    hide DirOf, Apply, Enabled, StageInv;
  }

  lemma TidyStep(s: State, a: Action)
    requires DirsThere(s) && StageInv(s) && Enabled(s, a) && Tidy(s, a)
    ensures Apart(s, a) && DirsThere(Apply(s, a))
  {
    hide DirOf;
    if Threaded(a) {
      TidyThread(s, a);
    } else {
      HandlerRunners(s, a);
    }
  }

  /** Prunes that spare the directories of unfinished turns are enough. */
  lemma {:induction false} TidyIsApart(s: State, actions: seq<Action>)
    requires DirsThere(s) && StageInv(s) && Run(s, actions) && TidyRun(s, actions)
    ensures ApartRun(s, actions)
    decreases |actions|
  {
    if actions != [] {
      hide Apply, Enabled, DirsThere, StageInv, Tidy, Apart;
      TidyStep(s, actions[0]);
      StageStep(s, actions[0]);
      TidyIsApart(Apply(s, actions[0]), actions[1..]);
    }
  }

  // ----- what a directory stands for -----

  /** A claim that has not finished has this directory name. */
  ghost predicate ClaimOn(s: State, d: string) {
    (s.slot.Setup? && DirOf(s.slot.turn) == d)
    || exists i | 0 <= i < |s.runners| :: Live(s.runners[i]) && DirOf(s.runners[i].turn) == d
  }

  /** Whatever makes a directory other than a submit that fails in meta.json makes it for
      a claim. */
  lemma MadeForAClaim(s: State, a: Action, d: string)
    requires StageInv(s) && Enabled(s, a) && d !in s.dirs && d in Apply(s, a).dirs
    ensures ClaimOn(Apply(s, a), d) <==> ClaimOn(s, d) || !(a.Submit? && a.known && a.meta.DirOnly?)
  {
    hide DirOf;
    if Threaded(a) {
      assert StageOk(s.runners[a.r]);
      ThreadStep(s, a);
      assert Live(Apply(s, a).runners[a.r]);
    } else {
      HandlerRunners(s, a);
    }
  }

  /** An empty directory no claim stands behind. */
  ghost predicate Stray(s: State, d: string) {
    d in s.dirs && s.dirs[d].None? && !ClaimOn(s, d)
  }

  lemma StrayStep(s: State, a: Action, d: string)
    requires StageInv(s) && Enabled(s, a) && Stray(s, d) && d in Apply(s, a).dirs
    ensures Stray(Apply(s, a), d)
    ensures forall turn | DirOf(turn) == d && turn !in s.mem :: turn !in Apply(s, a).mem
  {
    hide DirOf;
    if Threaded(a) {
      assert StageOk(s.runners[a.r]);
      ThreadStep(s, a);
    } else {
      HandlerRunners(s, a);
    }
  }

  /** The directory is there after every step of the run. */
  ghost predicate DirStays(s: State, actions: seq<Action>, d: string)
    requires Run(s, actions)
    decreases |actions|
  {
    d in s.dirs && (actions == [] || DirStays(Apply(s, actions[0]), actions[1..], d))
  }

  /** A claim with this directory name is there at some point of the run. */
  ghost predicate EverClaimed(s: State, actions: seq<Action>, d: string)
    requires Run(s, actions)
    decreases |actions|
  {
    ClaimOn(s, d) || (actions != [] && EverClaimed(Apply(s, actions[0]), actions[1..], d))
  }

  lemma {:induction false} StrayRun(s: State, actions: seq<Action>, d: string, turn: string)
    requires StageInv(s) && Run(s, actions) && DirStays(s, actions, d) && Stray(s, d) && DirOf(turn) == d
    ensures !EverClaimed(s, actions, d) && Stray(After(s, actions), d)
    ensures turn !in s.mem ==> turn !in After(s, actions).mem
    decreases |actions|
  {
    hide ClaimOn, DirOf;
    if actions != [] {
      StrayStep(s, actions[0], d);
      StageStep(s, actions[0]);
      hide Apply, Enabled, StageInv, Stray;
      StrayRun(Apply(s, actions[0]), actions[1..], d, turn);
    }
  }

  /** A turn that is not in memory is deduped onto its directory. Over any run from the
      step that made the directory, and for as long as it lasts, a claim stands behind it
      at some point if and only if it was not made by a submit that failed in meta.json
      with no such claim around. Where none does, every poll answers unknown and every
      submit changes nothing. */
  lemma DedupedExactly(s: State, a: Action, actions: seq<Action>, turn: string)
    requires Reachable(s) && Enabled(s, a) && turn != "" && DirOf(turn) !in s.dirs
    requires Run(Apply(s, a), actions) && DirStays(Apply(s, a), actions, DirOf(turn))
    ensures EverClaimed(Apply(s, a), actions, DirOf(turn)) <==>
            ClaimOn(s, DirOf(turn)) || !(a.Submit? && a.known && a.meta.DirOnly?)
    ensures turn !in s.mem && !EverClaimed(Apply(s, a), actions, DirOf(turn)) ==>
              var end := After(Apply(s, a), actions);
              Poll(end, turn).AnsweredUnknown?
              && forall minted, session, known, pruned, meta ::
                   AfterSubmit(end, turn, minted, session, known, pruned, meta) == end
  {
    ReachableRecords(s);
    MadeForAClaim(s, a, DirOf(turn));
    StageStep(s, a);
    if !ClaimOn(Apply(s, a), DirOf(turn)) {
      StrayRun(Apply(s, a), actions, DirOf(turn), turn);
    }
  }

  // ----- what the side conditions exclude -----

  lemma Step(s: State, a: Action) returns (s': State)
    requires CleanlyReachable(s) && Enabled(s, a) && Clean(s, a)
    ensures s' == Apply(s, a) && CleanlyReachable(s')
  {
    hide Apply, Enabled, Clean, CleanlyLeads;
    var dirs :| CleanlyLeads(Start(dirs), s);
    LeadsThen(Start(dirs), s, a);
    s' := Apply(s, a);
  }

  lemma Begin() returns (s: State)
    ensures s == Start(map[]) && CleanlyReachable(s)
  {
    s := Start(map[]);
    LeadsNowhere(s);
  }

  /** From launch to a running CLI, nothing swept. */
  lemma StartCli(s: State, r: nat) returns (s': State)
    requires CleanlyReachable(s) && r < |s.runners| && s.runners[r].phase.Launched?
    ensures CleanlyReachable(s') && s'.slot == s.slot && s'.dirs == Touch(s.dirs, DirOf(s.runners[r].turn))
    ensures s'.runners == s.runners[r := s.runners[r].(phase := Streaming, timer := Armed)]
    ensures s'.mem == s.mem[s.runners[r].turn := Running(s.runners[r].session)]
  {
    hide CleanlyReachable;
    s' := Step(s, List(r, {}));
    s' := Step(s', Pop(r));
    s' := Step(s', Mark(r));
    s' := Step(s', Meta(r, Complete));
  }

  lemma SubmitAndLaunch(s: State, turn: string, session: string, pruned: set<string>) returns (s': State)
    requires CleanlyReachable(s) && s.slot.Idle? && turn != "" && !Busy(s.mem, session, turn) && !Retained(s, turn)
    ensures CleanlyReachable(s') && s'.slot.Idle? && s'.dirs == Touch(s.dirs - pruned, DirOf(turn))
    ensures s'.mem == s.mem[turn := Running(session)]
    ensures |s'.runners| == |s.runners| + 1 && s'.runners[..|s.runners|] == s.runners
    ensures var r := s'.runners[|s.runners|];
            r == Runner(r.claim, turn, session, Launched, Off, Deciding, false)
  {
    hide CleanlyReachable, DirOf;
    s' := Step(s, Submit(turn, turn, session, true, pruned, Complete));
    s' := Step(s', Launch);
  }

  lemma Names()
    ensures DirOf("a") == "a" && DirOf("b") == "b" && DirOf("c") == "c" && DirOf("d") == "d"
    ensures DirOf("a b") == "a-b" == DirOf("a-b")
  {
    assert Sanitised("b") == "b" && Sanitised(" b") == "-b" && Sanitised("-b") == "-b";
  }

  /** A forced verdict frees the session while its wedged runner still drives a CLI:
      the next turn's CLI then runs beside it. */
  lemma AForcedRunnerCanShare() returns (s: State)
    ensures CleanlyReachable(s) && |s.runners| == 2 && Driving(s.runners[0]) && Driving(s.runners[1])
    ensures s.runners[0].session == s.runners[1].session != ""
  {
    hide CleanlyReachable, DirOf;
    Names();
    s := Begin();
    s := SubmitAndLaunch(s, "a", "s", {});
    s := StartCli(s, 0);
    s := Step(s, Elapse(0));
    s := Step(s, TimerLock(0));
    s := Step(s, Write(0, Complete));
    s := Step(s, Record(0));
    s := SubmitAndLaunch(s, "b", "s", {});
    s := StartCli(s, 1);
  }

  /** Distinct turn ids can share a directory, so a prune that takes a live turn's
      directory lets a second turn in, and then one's done.json replaces the other's. */
  lemma APrunedLiveDirIsRewritten() returns (s: State, a: Action)
    ensures CleanlyReachable(s) && Enabled(s, a) && "a-b" in s.dirs && s.dirs["a-b"].Some?
    ensures var s' := Apply(s, a);
            "a-b" in s'.dirs && s'.dirs["a-b"].Some? && s'.dirs["a-b"].value.turn != s.dirs["a-b"].value.turn
  {
    hide CleanlyReachable, DirOf;
    Names();
    s := Begin();
    s := SubmitAndLaunch(s, "a b", "", {});
    s := SubmitAndLaunch(s, "c", "", {"a-b"});
    s := Step(s, Submit("a-b", "a-b", "", true, {}, Complete));
    s := Step(s, SetupWrite(Complete));
    s := Step(s, SetupRecord);
    s := StartCli(s, 0);
    s := Step(s, StreamEnd(0));
    s := Step(s, Lock(0));
    a := Write(0, Complete);
  }

  /** A directory made by a claim whose meta.json then failed answers every resubmit of
      that id with `deduped`, though no turn ever ran. */
  lemma AHalfMadeClaimDedupes() returns (s: State)
    ensures CleanlyReachable(s) && s.claims == 0 && s.slot.Idle?
    ensures forall session, known, pruned, meta ::
              AfterSubmit(s, "a", "x", session, known, pruned, meta) == s
  {
    Names();
    hide DirOf;
    s := Begin();
    s := Step(s, Submit("a", "x", "", true, {}, DirOnly));
  }

  /** Turn "a" is finished and its directory pruned; two sweeps have listed it and one has
      dropped it. */
  lemma TwoSweeps() returns (s: State)
    ensures CleanlyReachable(s) && s.slot.Idle? && |s.runners| == 2 && s.runners[1].phase == Listed({"a"})
    ensures s.mem == map["b" := Running(""), "c" := Running("")] && "a" !in s.dirs && "d" !in s.dirs
  {
    hide CleanlyReachable, DirOf;
    Names();
    s := Begin();
    s := Step(s, Submit("a", "x", "", true, {}, Complete));
    s := Step(s, SetupWrite(Complete));
    s := Step(s, SetupRecord);
    s := SubmitAndLaunch(s, "b", "", {});
    s := SubmitAndLaunch(s, "c", "", {"a"});
    s := Step(s, List(0, {"a"}));
    s := Step(s, List(1, {"a"}));
    s := Step(s, Pop(0));
  }

  lemma Resubmitted() returns (s: State)
    ensures CleanlyReachable(s) && s.slot.Idle? && |s.runners| == 3 && s.runners[1].phase == Listed({"a"})
    ensures s.runners[2].phase == Swept && s.runners[2].turn == "a" && s.runners[2].session == "s"
    ensures Live(s.runners[2])
    ensures s.mem == map["b" := Running(""), "c" := Running(""), "a" := Running("s")] && "d" !in s.dirs
  {
    hide CleanlyReachable, DirOf;
    Names();
    s := TwoSweeps();
    s := SubmitAndLaunch(s, "a", "s", {});
    s := Step(s, List(2, {}));
    s := Step(s, Pop(2));
  }

  /** Two sweeps that listed the same finished turn: the second drops the record of the
      turn resubmitted in between, and then two turns of one session are running. */
  lemma SweepDropsAClaim() returns (s: State, a: Action, rest: seq<Action>)
    ensures CleanlyReachable(s) && Enabled(s, a) && !Clean(s, a)
    ensures Run(Apply(s, a), rest) && !OnePerSession(After(Apply(s, a), rest).mem)
  {
    hide CleanlyReachable, DirOf;
    s := Resubmitted();
    a := Pop(1);
    assert s.mem["a"] == Running("s");
    rest := SecondClaim(Apply(s, a));
  }

  lemma SecondClaim(s: State) returns (rest: seq<Action>)
    requires s.slot.Idle? && |s.runners| == 3 && "a" !in s.mem && "d" !in s.mem && "d" !in s.dirs
    requires s.runners[2].phase == Swept && s.runners[2].turn == "a" && s.runners[2].session == "s"
    requires forall t | t in s.mem :: s.mem[t] == Running("")
    ensures Run(s, rest) && !OnePerSession(After(s, rest).mem)
  {
    hide DirOf;
    Names();
    var submit := Submit("d", "d", "s", true, {}, Complete);
    var submitted := Apply(s, submit);
    var marked := Apply(submitted, Mark(2));
    rest := [submit, Mark(2)];
    assert rest[1..] == [Mark(2)] && [Mark(2)][1..] == [];
    assert Run(marked, []) && Run(submitted, [Mark(2)]);
    assert marked.mem["a"] == Running("s") && marked.mem["d"] == Running("s");
  }

  // ----- the process -----

  datatype Reply = SessionBusy(turn: string) | Deduped(turn: string) | Unwritable | Claimed(turn: string)

  function FinishedAmong(mem: map<string, Record>, aged: set<string>): set<string> {
    set t | t in mem && mem[t].Done? && t in aged
  }

  class Vm {
    var activeTurns: map<string, Record>
    var turnDirs: map<string, Option<Verdict>>
    var threads: seq<Runner>
    var handler: Slot
    var nextClaim: nat
    ghost var published: seq<Publication>
    ghost var raised: set<string>

    ghost function Model(): State
      reads this
    {
      State(activeTurns, turnDirs, threads, handler, nextClaim, published, raised)
    }

    constructor (dirs: map<string, Option<Verdict>>)
      ensures Model() == Start(dirs)
    {
      activeTurns, turnDirs, threads, handler, nextClaim, published, raised := map[], dirs, [], Idle, 0, [], {};
    }

    /** _session_busy_turn */
    method SessionBusyTurn(session: string, turn: string) returns (busy: Option<string>)
      ensures busy.Some? <==> Busy(activeTurns, session, turn)
      ensures busy.Some? ==> busy.value != turn && HoldsClaim(Model(), busy.value, session)
    {
      if session == "" {
        return None;
      }
      var items := activeTurns.Keys;
      while items != {}
        invariant items <= activeTurns.Keys
        invariant forall t | t in activeTurns && t !in items :: t == turn || activeTurns[t] != Running(session)
        decreases items
      {
        var t :| t in items;
        if t != turn && activeTurns[t] == Running(session) {
          return Some(t);
        }
        items := items - {t};
      }
      return None;
    }

    /** _prune_turn_dirs, `aged` being the names past the cutoff. */
    method PruneTurnDirs(aged: set<string>)
      modifies this`turnDirs
      ensures turnDirs == old(turnDirs) - aged
    {
      var names := turnDirs.Keys;
      while names != {}
        invariant names <= old(turnDirs).Keys
        invariant turnDirs == old(turnDirs) - (aged - names)
        decreases names
      {
        var name :| name in names;
        if name in aged {
          turnDirs := turnDirs - {name};
        }
        names := names - {name};
      }
      assert aged - names == aged;
    }

    /** _register_turn */
    method RegisterTurn(turn: string, session: string, pruned: set<string>, meta: Disk) returns (ok: bool)
      modifies this`turnDirs, this`activeTurns
      ensures ok <==> meta.Complete?
      ensures turnDirs == if meta.Nothing? then old(turnDirs) - pruned else Touch(old(turnDirs) - pruned, DirOf(turn))
      ensures activeTurns == if ok then old(activeTurns)[turn := Running(session)] else old(activeTurns)
    {
      PruneTurnDirs(pruned);
      if !meta.Nothing? {
        turnDirs := Touch(turnDirs, DirOf(turn));
      }
      if !meta.Complete? {
        return false;
      }
      activeTurns := activeTurns[turn := Running(session)];
      return true;
    }

    /** The async prefix of a submit. */
    method SubmitTurn(turn: string, minted: string, session: string, known: bool, pruned: set<string>, meta: Disk)
      returns (reply: Reply)
      requires Enabled(Model(), Submit(turn, minted, session, known, pruned, meta))
      modifies this
      ensures Model() == Apply(old(Model()), Submit(turn, minted, session, known, pruned, meta))
      ensures reply.SessionBusy? <==> Busy(old(activeTurns), session, turn)
      ensures reply.SessionBusy? ==> HoldsClaim(old(Model()), reply.turn, session) && reply.turn != turn
      ensures reply.Deduped? ==> reply.turn == TurnOf(turn, minted) && Retained(old(Model()), reply.turn)
      ensures reply.Claimed? <==> handler.Setup?
      ensures reply.Claimed? ==> handler.turn == reply.turn == TurnOf(turn, minted)
    {
      var busy := SessionBusyTurn(session, turn);
      if busy.Some? {
        return SessionBusy(busy.value);
      }
      var id := TurnOf(turn, minted);
      if id in activeTurns || DirOf(id) in turnDirs {
        return Deduped(id);
      }
      if known {
        var ok := RegisterTurn(id, session, pruned, meta);
        if !ok {
          return Unwritable;
        }
      }
      handler, nextClaim := Setup(nextClaim, id, session, known, false), nextClaim + 1;
      return Claimed(id);
    }

    /** _finish_turn's two writes, for a setup failure. */
    method FailSetupOnDisk(disk: Disk)
      requires Enabled(Model(), SetupWrite(disk))
      modifies this
      ensures Model() == Apply(old(Model()), SetupWrite(disk))
    {
      turnDirs := WriteDone(turnDirs, SlotVerdict(handler), disk);
      published := Filed(published, SlotVerdict(handler), disk);
      handler := handler.(failing := true);
    }

    method FailSetupInMemory()
      requires Enabled(Model(), SetupRecord)
      modifies this
      ensures Model() == Apply(old(Model()), SetupRecord)
    {
      activeTurns := activeTurns[handler.turn := Done(SlotVerdict(handler))];
      published := published + [Publication(false, SlotVerdict(handler))];
      handler := Idle;
    }

    /** _abandon_turn */
    method AbandonTurn()
      requires Enabled(Model(), Abandon)
      modifies this
      ensures Model() == Apply(old(Model()), Abandon)
    {
      activeTurns := activeTurns - {handler.turn};
      handler := Idle;
    }

    method StartRunner()
      requires Enabled(Model(), Launch)
      modifies this
      ensures Model() == Apply(old(Model()), Launch)
    {
      threads := threads + [Runner(handler.claim, handler.turn, handler.session, Launched, Off, Deciding, false)];
      handler := Idle;
    }

    /** The sweep a starting runner does: list the records finished before the cutoff... */
    method ListStale(r: nat, aged: set<string>)
      requires r < |threads| && threads[r].phase.Launched?
      modifies this`threads
      ensures Enabled(old(Model()), List(r, FinishedAmong(old(activeTurns), aged)))
      ensures Model() == Apply(old(Model()), List(r, FinishedAmong(old(activeTurns), aged)))
    {
      var stale, items := {}, activeTurns.Keys;
      while items != {}
        invariant items <= activeTurns.Keys
        invariant forall t :: t in stale <==> t in FinishedAmong(activeTurns, aged) && t !in items
        decreases items
      {
        var t :| t in items;
        if activeTurns[t].Done? && t in aged {
          stale := stale + {t};
        }
        items := items - {t};
      }
      assert stale == FinishedAmong(activeTurns, aged);
      threads := threads[r := threads[r].(phase := Listed(stale))];
    }

    /** ... and drop each. */
    method DropStale(r: nat)
      requires Enabled(Model(), Pop(r))
      modifies this
      ensures Model() == Apply(old(Model()), Pop(r))
    {
      var stale := threads[r].phase.stale;
      var left := stale;
      while left != {}
        invariant left <= stale && threads == old(threads) && handler == old(handler)
        invariant nextClaim == old(nextClaim) && published == old(published) && raised == old(raised)
        invariant turnDirs == old(turnDirs) && activeTurns == old(activeTurns) - (stale - left)
        decreases left
      {
        var t :| t in left;
        activeTurns := activeTurns - {t};
        left := left - {t};
      }
      assert stale - left == stale;
      raised := raised - stale;
      threads := threads[r := threads[r].(phase := Swept)];
    }

    method MarkRunning(r: nat)
      requires Enabled(Model(), Mark(r))
      modifies this
      ensures Model() == Apply(old(Model()), Mark(r))
    {
      activeTurns := activeTurns[threads[r].turn := Running(threads[r].session)];
      threads := threads[r := threads[r].(phase := Marked)];
    }

    method WriteMetaAndArm(r: nat, disk: Disk)
      requires Enabled(Model(), Meta(r, disk))
      modifies this
      ensures Model() == Apply(old(Model()), Meta(r, disk))
    {
      if !disk.Nothing? {
        turnDirs := Touch(turnDirs, DirOf(threads[r].turn));
      }
      threads := threads[r := threads[r].(phase := Streaming, timer := Armed)];
    }

    /** The runner at the end of its stream: take the lock, unless a verdict is out. */
    method RunnerLock(r: nat)
      requires Enabled(Model(), Lock(r))
      modifies this
      ensures Model() == Apply(old(Model()), Lock(r))
    {
      if threads[r].stage.Finished? {
        threads := threads[r := threads[r].(phase := Ended)];
      } else {
        threads := threads[r := threads[r].(stage := Writing(ByRunner))];
      }
    }

    /** _force_terminal up to its decision. */
    method ForceTerminal(r: nat) returns (forces: bool)
      requires Enabled(Model(), TimerLock(r))
      modifies this
      ensures Model() == Apply(old(Model()), TimerLock(r))
      ensures forces <==> threads[r].stage == Writing(ByBackstop)
      ensures old(threads[r].cliExited) ==> !forces
    {
      if threads[r].stage.Finished? {
        threads := threads[r := threads[r].(timer := Stopped)];
        return false;
      }
      if threads[r].cliExited {
        threads := threads[r := threads[r].(timer := Stopped)];
        return false;
      }
      threads := threads[r := threads[r].(stage := Writing(ByBackstop))];
      return true;
    }

    /** _finish_turn's two writes, for whichever thread holds the lock. */
    method FinishOnDisk(r: nat, disk: Disk)
      requires Enabled(Model(), Write(r, disk))
      modifies this
      ensures Model() == Apply(old(Model()), Write(r, disk))
    {
      turnDirs := WriteDone(turnDirs, RunnerVerdict(threads[r]), disk);
      published := Filed(published, RunnerVerdict(threads[r]), disk);
      threads := threads[r := threads[r].(stage := Recording(threads[r].stage.author))];
    }

    method FinishInMemory(r: nat)
      requires Enabled(Model(), Record(r))
      modifies this
      ensures Model() == Apply(old(Model()), Record(r))
    {
      activeTurns := activeTurns[threads[r].turn := Done(RunnerVerdict(threads[r]))];
      published := published + [Publication(false, RunnerVerdict(threads[r]))];
      threads := threads[r := AfterRecord(threads[r])];
    }

    /** _poll_turn */
    method PollTurn(turn: string) returns (answer: Answer)
      ensures answer == Poll(Model(), turn)
    {
      if turn in activeTurns {
        if activeTurns[turn].Done? {
          return AnsweredDone(activeTurns[turn].verdict);
        }
        return AnsweredRunning;
      }
      if DirOf(turn) in turnDirs && turnDirs[DirOf(turn)].Some? {
        return AnsweredDone(turnDirs[DirOf(turn)].value);
      }
      return AnsweredUnknown;
    }
  }
}
