/** The lock file microVMs share: exclusive create, a steal of a stale file by rename, a release by token. */
module MirrorLock {
  import opened Text

  // Every filesystem call is one step, any number of processes interleave, and each may
  // crash anywhere.

  // ----- one process -----

  datatype Phase =
    | Trying | Created | Holding                      // create, token write, critical section
    | Stating | Renaming(seen: nat) | Scrapping       // the stale check and the steal
    | Pausing                                         // deadline check, then sleep
    | Reading | Unlinking                             // release
    | GaveUp | Released | Crashed

  /** What a filesystem call, or the clock, answered. */
  datatype Outcome = Fine | Exists | Failed | Stale(file: nat) | Young | TimeUp | TimeLeft | Mine | NotMine

  /** _acquire_mirror_lock and _release_mirror_lock: the next call, given the last answer. */
  function React(phase: Phase, outcome: Outcome): Phase {
    match (phase, outcome)
    case (Trying, Fine) => Created
    case (Trying, Exists) => Stating
    case (Trying, _) => GaveUp
    case (Created, Fine) => Holding
    case (Created, _) => GaveUp
    case (Stating, Stale(file)) => Renaming(file)
    case (Stating, _) => Pausing
    case (Renaming(_), Fine) => Scrapping
    case (Renaming(_), _) => Pausing
    case (Scrapping, Fine) => Trying
    case (Scrapping, _) => Pausing
    case (Pausing, TimeUp) => GaveUp
    case (Pausing, _) => Trying
    case (Reading, Mine) => Unlinking
    case (Reading, _) => Released
    case (Unlinking, _) => Released
    case _ => phase
  }

  function ReactAll(phase: Phase, outcomes: seq<Outcome>): Phase
    decreases |outcomes|
  {
    if outcomes == [] then phase else ReactAll(React(phase, outcomes[0]), outcomes[1..])
  }

  lemma {:induction false} ReactMore(phase: Phase, outcomes: seq<Outcome>, next: Outcome)
    ensures ReactAll(phase, outcomes + [next]) == React(ReactAll(phase, outcomes), next)
    decreases |outcomes|
  {
    if outcomes == [] {
      assert [next][1..] == [];
    } else {
      assert (outcomes + [next])[1..] == outcomes[1..] + [next];
      ReactMore(React(phase, outcomes[0]), outcomes[1..], next);
    }
  }

  /** The acquire loop, run against the answers its calls get: it ends by holding the lock
      or giving up, or is still waiting when the answers run out. */
  method AcquireMirrorLock(answers: seq<Outcome>) returns (held: bool, used: nat)
    ensures used <= |answers|
    ensures held <==> ReactAll(Trying, answers[..used]) == Holding
    ensures !held && used < |answers| ==> ReactAll(Trying, answers[..used]) == GaveUp
  {
    var i := 0;
    while i < |answers|
      invariant i <= |answers|
      invariant ReactAll(Trying, answers[..i]) == Trying
      decreases |answers| - i
    {
      i := Ask(answers, i);
      if answers[i - 1].Fine? {
        if i == |answers| {
          return false, i;
        }
        i := Ask(answers, i);
        return answers[i - 1].Fine?, i;
      }
      if !answers[i - 1].Exists? {
        return false, i;
      }
      if i == |answers| {
        return false, i;
      }
      i := Ask(answers, i);
      if answers[i - 1].Stale? {
        if i == |answers| {
          return false, i;
        }
        i := Ask(answers, i);
        if answers[i - 1].Fine? {
          if i == |answers| {
            return false, i;
          }
          i := Ask(answers, i);
          if answers[i - 1].Fine? {
            continue;
          }
        }
      }
      if i == |answers| {
        return false, i;
      }
      i := Ask(answers, i);
      if answers[i - 1].TimeUp? {
        return false, i;
      }
    }
    return false, i;
  }

  /** One more call and its answer. */
  method Ask(answers: seq<Outcome>, i: nat, ghost from: Phase := Trying) returns (next: nat)
    requires i < |answers|
    ensures next == i + 1
    ensures ReactAll(from, answers[..next]) == React(ReactAll(from, answers[..i]), answers[i])
  {
    assert answers[..i + 1] == answers[..i] + [answers[i]];
    ReactMore(from, answers[..i], answers[i]);
    return i + 1;
  }

  /** _release_mirror_lock, run the same way: it asks for the unlink exactly when the file
      it read holds its own token. */
  method ReleaseMirrorLock(answers: seq<Outcome>) returns (asked: bool, used: nat)
    ensures used <= |answers|
    ensures used < |answers| ==> ReactAll(Reading, answers[..used]) == Released
    ensures asked <==> answers != [] && answers[0].Mine?
    ensures asked && used < |answers| ==> used == 2
  {
    var i := 0;
    if i == |answers| {
      return false, i;
    }
    i := Ask(answers, i, Reading);
    if !answers[i - 1].Mine? {
      return false, i;
    }
    if i == |answers| {
      return true, i;
    }
    i := Ask(answers, i, Reading);
    return true, i;
  }

  // ----- all of them, and the directory -----

  /** The file at the lock path: `id` stands for its inode, `token` for its content, once
      written, which names the process that created it. */
  datatype File = File(id: nat, owner: nat, written: bool, mtime: int)

  datatype Proc = Proc(phase: Phase, since: int, deadline: int)

  datatype State = State(lock: Option<File>, procs: seq<Proc>, files: nat, now: int)

  datatype Action =
    | Arrive(wait: nat)
    | Create(p: nat, error: bool)
    | WriteToken(p: nat, ok: bool)
    | Stat(p: nat, error: bool)
    | Rename(p: nat, error: bool)
    | Scrap(p: nat, ok: bool)
    | Pause(p: nat)
    | StartRelease(p: nat)
    | Read(p: nat, error: bool)
    | Unlink(p: nat, error: bool)
    | Crash(p: nat)
    | Tick(seconds: nat)

  predicate Enabled(s: State, a: Action) {
    (a.Arrive? || a.Tick? || a.p < |s.procs|)
    && match a
       case Arrive(_) => true
       case Tick(_) => true
       case Create(p, _) => s.procs[p].phase.Trying?
       case WriteToken(p, _) => s.procs[p].phase.Created?
       case Stat(p, _) => s.procs[p].phase.Stating?
       case Rename(p, _) => s.procs[p].phase.Renaming?
       case Scrap(p, _) => s.procs[p].phase.Scrapping?
       case Pause(p) => s.procs[p].phase.Pausing?
       case StartRelease(p) => s.procs[p].phase.Holding?
       case Read(p, _) => s.procs[p].phase.Reading?
       case Unlink(p, _) => s.procs[p].phase.Unlinking?
       case Crash(p) => !Ended(s.procs[p])
  }

  predicate Ended(r: Proc) { r.phase.GaveUp? || r.phase.Released? || r.phase.Crashed? }

  /** What the directory answers the call. */
  function Answer(s: State, a: Action, stale: int): Outcome
    requires Enabled(s, a)
  {
    match a
    case Create(_, error) => if error then Failed else if s.lock.Some? then Exists else Fine
    case WriteToken(_, ok) => if ok then Fine else Failed
    case Stat(_, error) =>
      if error || s.lock.None? then Failed
      else if s.now - s.lock.value.mtime > stale then Stale(s.lock.value.id) else Young
    case Rename(_, error) => if error || s.lock.None? then Failed else Fine
    case Scrap(_, ok) => if ok then Fine else Failed
    case Unlink(_, error) => if error then Failed else Fine
    case Pause(p) => if s.now >= s.procs[p].deadline then TimeUp else TimeLeft
    case Read(p, error) =>
      if !error && s.lock.Some? && s.lock.value.written && s.lock.value.owner == p then Mine else NotMine
    case _ => Fine
  }

  function Put(s: State, p: nat, phase: Phase): State
    requires p < |s.procs|
  {
    s.(procs := s.procs[p := s.procs[p].(phase := phase)])
  }

  /** A call that succeeded, as the directory sees it. */
  function Effect(s: State, a: Action): State
    requires Enabled(s, a)
  {
    if a.Create? then
      s.(lock := Some(File(s.files, a.p, false, s.now)), files := s.files + 1,
         procs := s.procs[a.p := s.procs[a.p].(since := s.now)])
    else if a.WriteToken? then
      if s.lock.Some? && s.lock.value.owner == a.p then s.(lock := Some(s.lock.value.(written := true, mtime := s.now)))
      else s
    else if a.Rename? || a.Unlink? then s.(lock := None)
    else s
  }

  /** The state after one call; `stale` is the bound the stale check uses. */
  function Apply(s: State, a: Action, stale: int): State
    requires Enabled(s, a)
  {
    if a.Arrive? then s.(procs := s.procs + [Proc(Trying, s.now, s.now + a.wait)])
    else if a.Tick? then s.(now := s.now + a.seconds)
    else if a.Crash? then Put(s, a.p, Crashed)
    else if a.StartRelease? then Put(s, a.p, Reading)
    else
      var answer := Answer(s, a, stale);
      Put(if answer.Fine? then Effect(s, a) else s, a.p, React(s.procs[a.p].phase, answer))
  }

  function Start(now: int): State { State(None, [], 0, now) }

  ghost predicate Run(s: State, actions: seq<Action>, stale: int)
    decreases |actions|
  {
    actions == [] || (Enabled(s, actions[0]) && Run(Apply(s, actions[0], stale), actions[1..], stale))
  }

  ghost function After(s: State, actions: seq<Action>, stale: int): State
    requires Run(s, actions, stale)
    decreases |actions|
  {
    if actions == [] then s else After(Apply(s, actions[0], stale), actions[1..], stale)
  }

  // ----- exclusion -----

  /** A process that believes the lock is its own. */
  predicate Owns(r: Proc) { r.phase.Created? || r.phase.Holding? || r.phase.Unlinking? }

  ghost predicate Exclusive(s: State) {
    forall p, q | 0 <= p < q < |s.procs| :: !(s.procs[p].phase.Holding? && s.procs[q].phase.Holding?)
  }

  /** Whoever believes so is right. */
  ghost predicate OwnersOwn(s: State) {
    forall p | 0 <= p < |s.procs| && Owns(s.procs[p]) :: s.lock.Some? && s.lock.value.owner == p
  }

  /** The call takes the lock file of another process that owns it. */
  predicate Theft(s: State, a: Action) {
    a.Rename? && !a.error && s.lock.Some? && s.lock.value.owner < |s.procs| && Owns(s.procs[s.lock.value.owner])
  }

  lemma OwnersStep(s: State, a: Action, stale: int)
    requires OwnersOwn(s) && Enabled(s, a) && !Theft(s, a)
    ensures OwnersOwn(Apply(s, a, stale))
  {
  }

  ghost predicate NoTheft(s: State, actions: seq<Action>, stale: int)
    requires Run(s, actions, stale)
    decreases |actions|
  {
    actions == []
    || (!Theft(s, actions[0]) && NoTheft(Apply(s, actions[0], stale), actions[1..], stale))
  }

  /** In every run without a theft the owners own, so at most one process holds the lock. */
  lemma {:induction false} NoTheftMeansExclusion(s: State, actions: seq<Action>, stale: int)
    requires OwnersOwn(s) && Run(s, actions, stale) && NoTheft(s, actions, stale)
    ensures OwnersOwn(After(s, actions, stale)) && Exclusive(After(s, actions, stale))
    decreases |actions|
  {
    if actions == [] {
      OwnersExclude(s);
    } else {
      OwnersStep(s, actions[0], stale);
      hide Apply, Enabled, OwnersOwn, Exclusive;
      NoTheftMeansExclusion(Apply(s, actions[0], stale), actions[1..], stale);
    }
  }

  lemma OwnersExclude(s: State)
    requires OwnersOwn(s)
    ensures Exclusive(s)
  {
    forall p, q | 0 <= p < q < |s.procs| ensures !(s.procs[p].phase.Holding? && s.procs[q].phase.Holding?) {
      assert Owns(s.procs[p]) && Owns(s.procs[q]) ==> p == q;
    }
  }

  // ----- when no lock passes the stale bound -----

  /** No lock file, whoever made it, is older than the bound. */
  predicate NoneStale(s: State, stale: int) { s.lock.Some? ==> s.now - s.lock.value.mtime <= stale }

  ghost predicate NeverStale(s: State, actions: seq<Action>, stale: int)
    requires Run(s, actions, stale)
    decreases |actions|
  {
    NoneStale(s, stale)
    && (actions == [] || NeverStale(Apply(s, actions[0], stale), actions[1..], stale))
  }

  ghost predicate NobodySteals(s: State) {
    forall p | 0 <= p < |s.procs| :: !s.procs[p].phase.Renaming?
  }

  lemma NobodyStealsStep(s: State, a: Action, stale: int)
    requires NobodySteals(s) && Enabled(s, a) && NoneStale(s, stale)
    ensures !Theft(s, a) && NobodySteals(Apply(s, a, stale))
  {
  }

  lemma {:induction false} NeverStaleMeansNoTheft(s: State, actions: seq<Action>, stale: int)
    requires NobodySteals(s) && Run(s, actions, stale) && NeverStale(s, actions, stale)
    ensures NoTheft(s, actions, stale)
    decreases |actions|
  {
    if actions != [] {
      NobodyStealsStep(s, actions[0], stale);
      hide Apply, Enabled, NobodySteals, NoneStale;
      NeverStaleMeansNoTheft(Apply(s, actions[0], stale), actions[1..], stale);
    }
  }

  /** For any number of processes and any interleaving: while no lock file's age passes the
      stale bound, at most one process holds the lock. */
  lemma ExclusionWhileNothingIsStale(now: int, actions: seq<Action>, stale: int)
    requires Run(Start(now), actions, stale) && NeverStale(Start(now), actions, stale)
    ensures Exclusive(After(Start(now), actions, stale))
  {
    NeverStaleMeansNoTheft(Start(now), actions, stale);
    NoTheftMeansExclusion(Start(now), actions, stale);
  }

  // ----- when stealing happens -----

  /** From its create to the end of its release. */
  predicate InHold(r: Proc) { Owns(r) || r.phase.Reading? }

  /** Every hold so far is within `hold` seconds of its create. */
  ghost predicate HoldsWithin(s: State, hold: int) {
    forall p | 0 <= p < |s.procs| && InHold(s.procs[p]) :: s.now - s.procs[p].since <= hold
  }

  /** A rename takes the very file its stat looked at. */
  predicate SameFile(s: State, a: Action) {
    a.Rename? && a.p < |s.procs| && s.procs[a.p].phase.Renaming? && s.lock.Some? ==>
      s.lock.value.id == s.procs[a.p].phase.seen
  }

  ghost predicate Disciplined(s: State, actions: seq<Action>, stale: int, hold: int)
    requires Run(s, actions, stale)
    decreases |actions|
  {
    HoldsWithin(s, hold)
    && (actions == []
        || (SameFile(s, actions[0]) && Disciplined(Apply(s, actions[0], stale), actions[1..], stale, hold)))
  }

  /** A file that some process is about to steal belongs to no hold. */
  ghost predicate PreyIsDead(s: State) {
    forall p | 0 <= p < |s.procs| && s.procs[p].phase.Renaming? ::
      s.procs[p].phase.seen < s.files
      && (s.lock.Some? && s.lock.value.id == s.procs[p].phase.seen ==>
            0 <= s.lock.value.owner < |s.procs| && !InHold(s.procs[s.lock.value.owner]))
  }

  ghost predicate FileOk(s: State) {
    s.lock.Some? ==>
      s.lock.value.id < s.files && s.lock.value.owner < |s.procs| && s.lock.value.mtime <= s.now
      && s.procs[s.lock.value.owner].since <= s.lock.value.mtime
  }

  lemma FileStep(s: State, a: Action, stale: int)
    requires FileOk(s) && Enabled(s, a)
    ensures FileOk(Apply(s, a, stale))
  {
  }

  lemma PreyStep(s: State, a: Action, stale: int, hold: int)
    requires PreyIsDead(s) && FileOk(s) && HoldsWithin(s, hold) && hold <= stale && Enabled(s, a)
    ensures PreyIsDead(Apply(s, a, stale))
  {
  }

  lemma {:induction false} DisciplineMeansNoTheft(s: State, actions: seq<Action>, stale: int, hold: int)
    requires PreyIsDead(s) && FileOk(s) && Run(s, actions, stale) && hold <= stale
    requires Disciplined(s, actions, stale, hold)
    ensures NoTheft(s, actions, stale)
    decreases |actions|
  {
    if actions != [] {
      PreyStep(s, actions[0], stale, hold);
      FileStep(s, actions[0], stale);
      assert !Theft(s, actions[0]);
      hide Apply, Enabled, PreyIsDead, FileOk, HoldsWithin, SameFile;
      DisciplineMeansNoTheft(Apply(s, actions[0], stale), actions[1..], stale, hold);
    }
  }

  /** With stealing: if no hold outlives the stale bound and every rename takes the file
      its stat saw, at most one process holds the lock. */
  lemma ExclusionWithStealing(now: int, actions: seq<Action>, stale: int, hold: int)
    requires Run(Start(now), actions, stale) && hold <= stale
    requires Disciplined(Start(now), actions, stale, hold)
    ensures Exclusive(After(Start(now), actions, stale))
  {
    DisciplineMeansNoTheft(Start(now), actions, stale, hold);
    NoTheftMeansExclusion(Start(now), actions, stale);
  }

  // ----- what a release leaves behind -----

  /** The call ends p's hold without taking its file away. */
  predicate Fails(a: Action, p: nat) {
    a == Crash(p) || a == WriteToken(p, false) || a == Read(p, true) || a == Unlink(p, true)
  }

  ghost predicate FailedIn(actions: seq<Action>, p: nat) { exists a | a in actions :: Fails(a, p) }

  predicate HasFile(s: State, p: nat) { s.lock.Some? && s.lock.value.owner == p }

  /** The lock file belongs to a hold, or to one of `failed`; a hold past its token write
      has a written file. */
  ghost predicate Accounted(s: State, failed: set<nat>) {
    s.lock.Some? ==>
      var p := s.lock.value.owner;
      && p < |s.procs|
      && (InHold(s.procs[p]) || p in failed)
      && (InHold(s.procs[p]) && !s.procs[p].phase.Created? ==> s.lock.value.written)
  }

  lemma AccountedStep(s: State, a: Action, stale: int, failed: set<nat>)
    requires Accounted(s, failed) && Enabled(s, a)
    ensures Accounted(Apply(s, a, stale), if a.Crash? || a.WriteToken? || a.Read? || a.Unlink? then
                                            if Fails(a, a.p) then failed + {a.p} else failed else failed)
  {
  }

  lemma {:induction false} AccountedRun(s: State, actions: seq<Action>, stale: int, failed: set<nat>)
    requires Accounted(s, failed) && Run(s, actions, stale)
    ensures var end := After(s, actions, stale);
            end.lock.Some? ==>
              var p := end.lock.value.owner;
              p < |end.procs| && (InHold(end.procs[p]) || p in failed || FailedIn(actions, p))
    decreases |actions|
  {
    if actions != [] {
      var a := actions[0];
      AccountedStep(s, a, stale, failed);
      hide Apply, Enabled, Accounted;
      var more := if a.Crash? || a.WriteToken? || a.Read? || a.Unlink? then
                    if Fails(a, a.p) then failed + {a.p} else failed else failed;
      AccountedRun(Apply(s, a, stale), actions[1..], stale, more);
      assert forall b | b in actions[1..] :: b in actions;
    }
  }

  /** On every run, thefts included, a lock file is that of a process still at it, or of one
      whose token write, release read or release unlink failed, or that crashed. */
  lemma FileIsAccountedFor(now: int, actions: seq<Action>, stale: int)
    requires Run(Start(now), actions, stale)
    ensures var s := After(Start(now), actions, stale);
            s.lock.Some? ==>
              var p := s.lock.value.owner;
              p < |s.procs| && (InHold(s.procs[p]) || FailedIn(actions, p))
  {
    AccountedRun(Start(now), actions, stale, {});
  }

  /** So once every holder has released in good order the lock is free: the next create
      succeeds. */
  lemma FreeOnceReleased(now: int, actions: seq<Action>, stale: int, q: nat)
    requires Run(Start(now), actions, stale)
    requires var s := After(Start(now), actions, stale);
             && q < |s.procs| && s.procs[q].phase.Trying?
             && forall p | 0 <= p < |s.procs| :: !InHold(s.procs[p]) && !FailedIn(actions, p)
    ensures var s := Apply(After(Start(now), actions, stale), Create(q, false), stale);
            HasFile(s, q) && s.procs[q].phase.Created?
  {
    FileIsAccountedFor(now, actions, stale);
  }

  /** p makes the file at some point of the run, or a rename takes it from the lock path. */
  ghost predicate Makes(s: State, actions: seq<Action>, stale: int, p: nat)
    requires Run(s, actions, stale)
    decreases |actions|
  {
    actions != [] && ((actions[0] == Create(p, false) && s.lock.None?)
                      || Makes(Apply(s, actions[0], stale), actions[1..], stale, p))
  }

  ghost predicate Loses(s: State, actions: seq<Action>, stale: int, p: nat)
    requires Run(s, actions, stale)
    decreases |actions|
  {
    actions != [] && ((actions[0].Rename? && !actions[0].error && HasFile(s, p))
                      || Loses(Apply(s, actions[0], stale), actions[1..], stale, p))
  }

  predicate IsEnded(s: State, p: nat) { p < |s.procs| && Ended(s.procs[p]) }

  lemma EndedStep(s: State, a: Action, stale: int, p: nat)
    requires Enabled(s, a) && IsEnded(s, p)
    ensures IsEnded(Apply(s, a, stale), p) && !Fails(a, p) && a != Create(p, false)
    ensures OwnersOwn(s) && HasFile(s, p) && !(a.Rename? && !a.error) ==> HasFile(Apply(s, a, stale), p)
  {
  }

  lemma {:induction false} EndedRun(s: State, actions: seq<Action>, stale: int, p: nat)
    requires Run(s, actions, stale) && IsEnded(s, p)
    ensures !FailedIn(actions, p) && !Makes(s, actions, stale, p)
    ensures OwnersOwn(s) && NoTheft(s, actions, stale) && HasFile(s, p) && !Loses(s, actions, stale, p) ==>
              HasFile(After(s, actions, stale), p)
    decreases |actions|
  {
    if actions != [] {
      EndedStep(s, actions[0], stale, p);
      if OwnersOwn(s) && !Theft(s, actions[0]) {
        OwnersStep(s, actions[0], stale);
      }
      hide Apply, Enabled, OwnersOwn, HasFile, IsEnded;
      EndedRun(Apply(s, actions[0], stale), actions[1..], stale, p);
      assert forall a | a in actions :: a == actions[0] || a in actions[1..];
    }
  }

  /** The owner of the file after one call: it has it still, or has just unlinked it. */
  lemma OwnerStep(s: State, a: Action, stale: int, p: nat)
    requires OwnersOwn(s) && Enabled(s, a) && HasFile(s, p) && p < |s.procs| && !(a.Rename? && !a.error)
    ensures var s' := Apply(s, a, stale);
            if a == Unlink(p, false) then IsEnded(s', p)
            else HasFile(s', p) && p < |s'.procs| && (Fails(a, p) ==> IsEnded(s', p))
  {
  }

  lemma {:induction false} OwnerRun(s: State, actions: seq<Action>, stale: int, p: nat)
    requires OwnersOwn(s) && Run(s, actions, stale) && NoTheft(s, actions, stale) && !Loses(s, actions, stale, p)
    requires HasFile(s, p) && p < |s.procs| && FailedIn(actions, p)
    ensures HasFile(After(s, actions, stale), p)
    decreases |actions|
  {
    var a := actions[0];
    OwnerStep(s, a, stale, p);
    OwnersStep(s, a, stale);
    hide Apply, Enabled, OwnersOwn, HasFile, IsEnded;
    assert forall b | b in actions :: b == a || b in actions[1..];
    if IsEnded(Apply(s, a, stale), p) {
      EndedRun(Apply(s, a, stale), actions[1..], stale, p);
    } else {
      OwnerRun(Apply(s, a, stale), actions[1..], stale, p);
    }
  }

  /** Before it has made a file a process has none, and nothing of its hold can fail. */
  predicate Unmade(s: State, p: nat) {
    p < |s.procs| ==>
      !InHold(s.procs[p]) && !Ended(s.procs[p])
  }

  lemma UnmadeStep(s: State, a: Action, stale: int, p: nat)
    requires Enabled(s, a) && Unmade(s, p)
    ensures var s' := Apply(s, a, stale);
            if a == Create(p, false) && s.lock.None? then HasFile(s', p) && p < |s'.procs| && !Fails(a, p)
            else IsEnded(s', p) || (Unmade(s', p) && !Fails(a, p))
  {
  }

  lemma {:induction false} MakerRun(s: State, actions: seq<Action>, stale: int, p: nat)
    requires OwnersOwn(s) && Run(s, actions, stale) && NoTheft(s, actions, stale) && !Loses(s, actions, stale, p)
    requires Unmade(s, p) && Makes(s, actions, stale, p) && FailedIn(actions, p)
    ensures HasFile(After(s, actions, stale), p)
    decreases |actions|
  {
    var a := actions[0];
    UnmadeStep(s, a, stale, p);
    OwnersStep(s, a, stale);
    hide Apply, Enabled, OwnersOwn, HasFile, IsEnded, Unmade;
    assert forall b | b in actions :: b == a || b in actions[1..];
    if a == Create(p, false) && s.lock.None? {
      OwnerRun(Apply(s, a, stale), actions[1..], stale, p);
    } else {
      if IsEnded(Apply(s, a, stale), p) {
        EndedRun(Apply(s, a, stale), actions[1..], stale, p);
      }
      MakerRun(Apply(s, a, stale), actions[1..], stale, p);
    }
  }

  /** On every theft-free run a process that made the lock file, has ended, and was not
      renamed away, leaves the file behind if and only if its token write, its release read
      or its release unlink failed, or it crashed. */
  lemma LeftBehindExactly(now: int, actions: seq<Action>, stale: int, p: nat)
    requires Run(Start(now), actions, stale) && NoTheft(Start(now), actions, stale)
    requires IsEnded(After(Start(now), actions, stale), p)
    requires Makes(Start(now), actions, stale, p) && !Loses(Start(now), actions, stale, p)
    ensures HasFile(After(Start(now), actions, stale), p) <==> FailedIn(actions, p)
  {
    FileIsAccountedFor(now, actions, stale);
    if FailedIn(actions, p) {
      MakerRun(Start(now), actions, stale, p);
    }
  }

  // ----- the bounds in use -----

  function Max(a: int, b: int): int { if a >= b then a else b }

  function MirrorStale(build: nat): int { Max(1800, build + 300) }

  /** One build or fetch under its timeout, and three git-config calls of 30 s. */
  function MirrorHold(build: nat): int { build + 3 * 30 }

  /** The longest legal hold of the mirror lock is below its stale bound for every build
      timeout, so only the two-step steal can break its exclusion. */
  lemma MirrorLockExcludes(build: nat, now: int, actions: seq<Action>)
    requires Run(Start(now), actions, MirrorStale(build))
    requires Disciplined(Start(now), actions, MirrorStale(build), MirrorHold(build))
    ensures MirrorHold(build) < MirrorStale(build)
    ensures Exclusive(After(Start(now), actions, MirrorStale(build)))
  {
    ExclusionWithStealing(now, actions, MirrorStale(build), MirrorHold(build));
  }

  // ----- the bound on holds is exact -----

  /** Reachable with every hold within `hold` seconds and every rename on the file its stat saw. */
  ghost predicate DisciplinedReachable(s: State, stale: int, hold: int) {
    exists now, actions | Run(Start(now), actions, stale) && Disciplined(Start(now), actions, stale, hold) ::
      After(Start(now), actions, stale) == s
  }

  lemma {:induction false} DisciplinedThen(s: State, actions: seq<Action>, a: Action, stale: int, hold: int)
    requires Run(s, actions, stale) && Disciplined(s, actions, stale, hold)
    requires Enabled(After(s, actions, stale), a) && SameFile(After(s, actions, stale), a)
    requires HoldsWithin(Apply(After(s, actions, stale), a, stale), hold)
    ensures Run(s, actions + [a], stale) && Disciplined(s, actions + [a], stale, hold)
    ensures After(s, actions + [a], stale) == Apply(After(s, actions, stale), a, stale)
    decreases |actions|
  {
    hide Apply, Enabled, HoldsWithin, SameFile;
    if actions == [] {
      assert [a][1..] == [];
    } else {
      assert (actions + [a])[1..] == actions[1..] + [a];
      DisciplinedThen(Apply(s, actions[0], stale), actions[1..], a, stale, hold);
    }
  }

  lemma DisciplinedStep(s: State, a: Action, stale: int, hold: int) returns (s': State)
    requires DisciplinedReachable(s, stale, hold) && Enabled(s, a) && SameFile(s, a)
    requires HoldsWithin(Apply(s, a, stale), hold)
    ensures s' == Apply(s, a, stale) && DisciplinedReachable(s', stale, hold)
  {
    hide Apply, Enabled, HoldsWithin, SameFile;
    var now, actions :| Run(Start(now), actions, stale) && Disciplined(Start(now), actions, stale, hold)
                        && After(Start(now), actions, stale) == s;
    DisciplinedThen(Start(now), actions, a, stale, hold);
    s' := Apply(s, a, stale);
  }

  /** A holder at work one second past the bound, and a process that has just come. */
  lemma ALongHold(stale: nat, hold: int) returns (s: State)
    requires hold > stale
    ensures DisciplinedReachable(s, stale, hold)
    ensures s == State(Some(File(0, 0, true, 0)), [Proc(Holding, 0, 0), Proc(Trying, stale + 1, stale + 1)], 1, stale + 1)
  {
    s := Start(0);
    assert Run(s, [], stale) && Disciplined(s, [], stale, hold) && After(s, [], stale) == s;
    hide DisciplinedReachable;
    s := DisciplinedStep(s, Arrive(0), stale, hold);
    s := DisciplinedStep(s, Create(0, false), stale, hold);
    s := DisciplinedStep(s, WriteToken(0, true), stale, hold);
    s := DisciplinedStep(s, Tick(stale + 1), stale, hold);
    s := DisciplinedStep(s, Arrive(0), stale, hold);
  }

  /** It finds the lock stale and takes it: the file is the one it looked at. */
  lemma ALongHoldIsStolen(stale: nat, hold: int) returns (s: State)
    requires hold > stale
    ensures DisciplinedReachable(s, stale, hold) && !Exclusive(s)
  {
    hide DisciplinedReachable;
    s := ALongHold(stale, hold);
    s := DisciplinedStep(s, Create(1, false), stale, hold);
    s := DisciplinedStep(s, Stat(1, false), stale, hold);
    s := DisciplinedStep(s, Rename(1, false), stale, hold);
    s := DisciplinedStep(s, Scrap(1, true), stale, hold);
    s := DisciplinedStep(s, Create(1, false), stale, hold);
    s := DisciplinedStep(s, WriteToken(1, true), stale, hold);
    assert s.procs[0].phase.Holding? && s.procs[1].phase.Holding?;
  }

  /** A bound on holds keeps exclusion, over every disciplined run, if and only if it does
      not exceed the stale bound. */
  lemma HoldBoundIsExact(stale: nat, hold: int)
    ensures hold <= stale <==> forall s | DisciplinedReachable(s, stale, hold) :: Exclusive(s)
  {
    if hold <= stale {
      forall s | DisciplinedReachable(s, stale, hold) ensures Exclusive(s) {
        var now, actions :| Run(Start(now), actions, stale) && Disciplined(Start(now), actions, stale, hold)
                            && After(Start(now), actions, stale) == s;
        ExclusionWithStealing(now, actions, stale, hold);
      }
    } else {
      var s := ALongHoldIsStolen(stale, hold);
    }
  }

  /** The dependency lock is held across an install and a pack, or two installs, each under
      the build timeout, or across one extraction under a timeout of its own. */
  function DepsHold(build: nat, extract: nat): int { Max(2 * build, extract) }

  /** Its legal holds fit the bound, and so keep exclusion, exactly when the build timeout
      is at most 900 s and the extract timeout within the bound. */
  lemma DepsLockExcludes(build: nat, extract: nat)
    ensures build <= 900 && extract <= MirrorStale(build) <==>
            forall s | DisciplinedReachable(s, MirrorStale(build), DepsHold(build, extract)) :: Exclusive(s)
  {
    HoldBoundIsExact(MirrorStale(build), DepsHold(build, extract));
    assert DepsHold(build, extract) <= MirrorStale(build) <==> build <= 900 && extract <= MirrorStale(build);
  }

  // ----- every theft can be completed -----

  lemma RunFirst(s: State, a: Action, rest: seq<Action>, stale: int)
    requires Enabled(s, a) && Run(Apply(s, a, stale), rest, stale)
    ensures Run(s, [a] + rest, stale) && After(s, [a] + rest, stale) == After(Apply(s, a, stale), rest, stale)
  {
    assert ([a] + rest)[1..] == rest;
  }

  predicate BothHold(s: State, p: nat, q: nat) {
    p != q && p < |s.procs| && q < |s.procs| && s.procs[p].phase.Holding? && s.procs[q].phase.Holding?
  }

  lemma BothHoldBreaks(s: State, p: nat, q: nat)
    requires BothHold(s, p, q)
    ensures !Exclusive(s)
  {
    assert if p < q then s.procs[p].phase.Holding? && s.procs[q].phase.Holding?
           else s.procs[q].phase.Holding? && s.procs[p].phase.Holding?;
  }

  /** Having renamed the file away, the thief scraps it, creates its own and holds the lock. */
  lemma ThiefTakes(s: State, p: nat, stale: int) returns (s': State, rest: seq<Action>)
    requires p < |s.procs| && s.procs[p].phase.Scrapping? && s.lock.None?
    ensures Run(s, rest, stale) && After(s, rest, stale) == s' && |s'.procs| == |s.procs|
    ensures s'.procs[p].phase.Holding? && forall q | 0 <= q < |s.procs| && q != p :: s'.procs[q] == s.procs[q]
  {
    var s1 := Apply(s, Scrap(p, true), stale);
    var s2 := Apply(s1, Create(p, false), stale);
    s' := Apply(s2, WriteToken(p, true), stale);
    assert Run(s', [], stale) && After(s', [], stale) == s';
    hide Run, After;
    RunFirst(s2, WriteToken(p, true), [], stale);
    RunFirst(s1, Create(p, false), [WriteToken(p, true)] + [], stale);
    RunFirst(s, Scrap(p, true), [Create(p, false)] + ([WriteToken(p, true)] + []), stale);
    rest := [Scrap(p, true)] + ([Create(p, false)] + ([WriteToken(p, true)] + []));
  }

  lemma {:induction false} RunTwo(s: State, a: seq<Action>, b: seq<Action>, stale: int)
    requires Run(s, a, stale) && Run(After(s, a, stale), b, stale)
    ensures Run(s, a + b, stale) && After(s, a + b, stale) == After(After(s, a, stale), b, stale)
    decreases |a|
  {
    hide Apply, Enabled;
    if a == [] {
      assert a + b == b;
    } else {
      assert (a + b)[1..] == a[1..] + b;
      RunTwo(Apply(s, a[0], stale), a[1..], b, stale);
    }
  }

  lemma NewcomerTakes(s: State, stale: int) returns (s': State, rest: seq<Action>)
    requires s.lock.None?
    ensures Run(s, rest, stale) && After(s, rest, stale) == s' && |s'.procs| == |s.procs| + 1
    ensures s'.procs[|s.procs|].phase.Holding? && s'.procs[..|s.procs|] == s.procs
  {
    var p := |s.procs|;
    var s1 := Apply(s, Arrive(0), stale);
    var s2 := Apply(s1, Create(p, false), stale);
    s' := Apply(s2, WriteToken(p, true), stale);
    assert Run(s', [], stale) && After(s', [], stale) == s';
    hide Run, After;
    RunFirst(s2, WriteToken(p, true), [], stale);
    RunFirst(s1, Create(p, false), [WriteToken(p, true)] + [], stale);
    RunFirst(s, Arrive(0), [Create(p, false)] + ([WriteToken(p, true)] + []), stale);
    rest := [Arrive(0)] + ([Create(p, false)] + ([WriteToken(p, true)] + []));
  }

  /** Whatever its owner is doing, a file taken from it lets some later run break exclusion:
      an owner at work is joined by the thief, one still to write its token goes on to hold,
      and one about to unlink removes the thief's file and lets a third process in. */
  lemma TheftBreaksExclusion(s: State, p: nat, stale: int) returns (rest: seq<Action>)
    requires Enabled(s, Rename(p, false)) && Theft(s, Rename(p, false))
    ensures var stolen := Apply(s, Rename(p, false), stale);
            Run(stolen, rest, stale) && !Exclusive(After(stolen, rest, stale))
  {
    var q := s.lock.value.owner;
    var stolen := Apply(s, Rename(p, false), stale);
    var taken, first := ThiefTakes(stolen, p, stale);
    if s.procs[q].phase.Holding? {
      BothHoldBreaks(taken, p, q);
      rest := first;
    } else {
      var finish := if s.procs[q].phase.Created? then WriteToken(q, true) else Unlink(q, false);
      var finished := Apply(taken, finish, stale);
      assert finished.procs[p].phase.Holding?;
      var last := [];
      var end := finished;
      if finish.Unlink? {
        end, last := NewcomerTakes(finished, stale);
        assert end.procs[p] == finished.procs[p];
        BothHoldBreaks(end, p, |finished.procs|);
      } else {
        BothHoldBreaks(end, p, q);
      }
      assert Run(finished, last, stale) && After(finished, last, stale) == end;
      hide Run, After, Apply;
      RunFirst(taken, finish, last, stale);
      RunTwo(stolen, first, [finish] + last, stale);
      rest := first + ([finish] + last);
    }
  }

  ghost predicate Reachable(s: State, stale: int) {
    exists now, actions | Run(Start(now), actions, stale) :: After(Start(now), actions, stale) == s
  }

  lemma Step(s: State, a: Action, stale: int) returns (s': State)
    requires Reachable(s, stale) && Enabled(s, a)
    ensures s' == Apply(s, a, stale) && Reachable(s', stale)
  {
    hide Apply, Enabled;
    var now, actions :| Run(Start(now), actions, stale) && After(Start(now), actions, stale) == s;
    s' := Apply(s, a, stale);
    assert [a][1..] == [] && Run(s', [], stale);
    RunTwo(Start(now), actions, [a], stale);
  }

  /** A holder that died, its lock past the bound. */
  lemma ADeadHolder(stale: nat) returns (s: State)
    ensures Reachable(s, stale)
    ensures s == State(Some(File(0, 0, false, 0)), [Proc(Crashed, 0, 0)], 1, stale + 1)
  {
    s := Start(0);
    assert Run(s, [], stale) && After(s, [], stale) == s;
    hide Reachable, Run, After;
    s := Step(s, Arrive(0), stale);
    s := Step(s, Create(0, false), stale);
    s := Step(s, Crash(0), stale);
    s := Step(s, Tick(stale + 1), stale);
  }

  /** Two waiters that have both found it stale. */
  lemma TwoWaiters(stale: nat) returns (s: State)
    ensures Reachable(s, stale) && |s.procs| == 3 && s.lock.Some? && s.files == 1
    ensures s.procs[0].phase.Crashed? && s.procs[1].phase == Renaming(0) && s.procs[2].phase == Renaming(0)
  {
    hide Reachable;
    s := ADeadHolder(stale);
    s := Step(s, Arrive(0), stale);
    s := Step(s, Arrive(0), stale);
    s := Step(s, Create(1, false), stale);
    s := Step(s, Create(2, false), stale);
    s := Step(s, Stat(1, false), stale);
    s := Step(s, Stat(2, false), stale);
  }

  /** Stat and rename being two calls, the second waiter takes the first one's new lock:
      every hold is zero seconds old, and still the rename is a theft. */
  lemma StatThenRenameSteals(stale: nat) returns (s: State)
    ensures Reachable(s, stale) && HoldsWithin(s, 0)
    ensures s.procs != [] && Enabled(s, Rename(2, false)) && !SameFile(s, Rename(2, false)) && Theft(s, Rename(2, false))
  {
    hide Reachable;
    s := TwoWaiters(stale);
    s := Step(s, Rename(1, false), stale);
    s := Step(s, Scrap(1, true), stale);
    s := Step(s, Create(1, false), stale);
    s := Step(s, WriteToken(1, true), stale);
    assert s.procs[1].phase.Holding? && s.procs[1].since == s.now;
  }

  /** So exclusion does fail, for every stale bound, with no hold near it. */
  lemma TwoHolders(stale: nat) returns (s: State)
    ensures Reachable(s, stale) && !Exclusive(s)
  {
    var before := StatThenRenameSteals(stale);
    var rest := TheftBreaksExclusion(before, 2, stale);
    var stolen := Step(before, Rename(2, false), stale);
    hide Apply, Exclusive;
    var now, actions :| Run(Start(now), actions, stale) && After(Start(now), actions, stale) == stolen;
    RunTwo(Start(now), actions, rest, stale);
    s := After(stolen, rest, stale);
  }
}
