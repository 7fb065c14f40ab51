/** The rule that binds a codex thread to one model, over any number of turns: the session
    map on the shared volume, the rollouts codex writes, and the resume guard. */
module ThreadBinding {
  import opened Text

  /** An entry of the session map; an absent model is the empty string, as is an absent id. */
  datatype Entry = Entry(repo: string, model: string)

  type SessionMap = map<string, Entry>

  /** The map; per thread, the distinct models its rollout's turn contexts name; and, as
      history, the threads started on this volume. */
  datatype State = State(entries: SessionMap, rollouts: map<string, seq<string>>, born: set<string>)

  /** How a write of the map ends: done; refused before the file was opened; cut short after
      the open emptied it, which the next load reads as no map; or done from a copy loaded
      before another process wrote. */
  datatype Save = Saved | Refused | Torn | Stale(loaded: SessionMap)

  // ----- the guard -----

  const AMBIGUOUS := "<ambiguous>"

  function Recorded(s: State, thread: string): Option<string> {
    if thread in s.entries && s.entries[thread].model != "" then Some(s.entries[thread].model) else None
  }

  function Contexts(s: State, thread: string): seq<string> {
    if thread in s.rollouts then s.rollouts[thread] else []
  }

  /** _codex_rollout_model; `readable`: the rollout is on this volume and opens. */
  function RolloutModel(s: State, thread: string, readable: bool): Option<string> {
    var models := Contexts(s, thread);
    if !readable || models == [] then None else if |models| > 1 then Some(AMBIGUOUS) else Some(models[0])
  }

  /** _codex_bound_model: what the guard checks and the resume hint carries. */
  function BoundModel(s: State, thread: string, force: bool, readable: bool): Option<string> {
    if Recorded(s, thread).Some? then Recorded(s, thread)
    else if force then None
    else RolloutModel(s, thread, readable)
  }

  /** _codex_resume_id */
  function ResumeId(s: State, asked: string, model: string, force: bool, readable: bool): string {
    if asked == "" then ""
    else
      var bound := BoundModel(s, asked, force, readable);
      if bound.Some? && bound.value != model then "" else asked
  }

  // ----- turns -----

  /** _remember_session's new map, without a failure. */
  function Remember(entries: SessionMap, thread: string, repo: string, model: string): SessionMap {
    var kept := if thread in entries then entries[thread].model else "";
    entries[thread := Entry(repo, if model != "" then model else kept)]
  }

  function Written(entries: SessionMap, thread: string, repo: string, model: string, save: Save): SessionMap {
    if thread == "" then entries
    else match save
      case Saved => Remember(entries, thread, repo, model)
      case Refused => entries
      case Torn => map[]
      case Stale(loaded) => Remember(loaded, thread, repo, model)
  }

  /** A codex turn: what was asked for, what the CLI started if it resumed nothing, whether
      its rollout got a turn context, and whether it completed. `force` marks a thread
      ported from a laptop. Other turns write the map without a model. */
  datatype Turn =
    | Codex(asked: string, model: string, force: bool, readable: bool, started: string,
            wrote: bool, completed: bool, repo: string, save: Save)
    | Other(thread: string, repo: string, save: Save)

  function ThreadOf(s: State, t: Turn): string
    requires t.Codex?
  {
    var resumed := ResumeId(s, t.asked, t.model, t.force, t.readable);
    if resumed != "" then resumed else t.started
  }

  predicate Fresh(s: State, thread: string) {
    thread !in s.entries && thread !in s.rollouts && thread !in s.born
  }

  /** Real model ids, in an old copy of the map too, fresh ids for new threads, and only
      ported threads forced. */
  predicate Enabled(s: State, t: Turn) {
    && (t.save.Stale? ==> forall thread | thread in t.save.loaded :: t.save.loaded[thread].model != AMBIGUOUS)
    && (t.Codex? ==>
      t.model != "" && t.model != AMBIGUOUS && Fresh(s, t.started) && (t.completed ==> t.wrote)
      && (t.force ==> t.asked !in s.born))
  }

  function AddContext(models: seq<string>, model: string): seq<string> {
    if model in models then models else models + [model]
  }

  function Apply(s: State, t: Turn): State {
    match t
    case Other(thread, repo, save) => s.(entries := Written(s.entries, thread, repo, "", save))
    case Codex(_, model, _, _, started, wrote, completed, repo, save) =>
      var thread := ThreadOf(s, t);
      State(if completed then Written(s.entries, thread, repo, model, save) else s.entries,
            if wrote && thread != "" then s.rollouts[thread := AddContext(Contexts(s, thread), model)] else s.rollouts,
            if thread == started && thread != "" then s.born + {thread} else s.born)
  }

  ghost predicate Run(s: State, turns: seq<Turn>)
    decreases |turns|
  {
    turns == [] || (Enabled(s, turns[0]) && Run(Apply(s, turns[0]), turns[1..]))
  }

  ghost function After(s: State, turns: seq<Turn>): State
    decreases |turns|
  {
    if turns == [] then s else After(Apply(s, turns[0]), turns[1..])
  }

  /** Session-map writes one at a time, each done or refused whole. */
  ghost predicate Serial(turns: seq<Turn>) {
    forall k | 0 <= k < |turns| :: turns[k].save.Saved? || turns[k].save.Refused?
  }

  // ----- the binding -----

  lemma RecordedStays(s: State, t: Turn, thread: string)
    requires Enabled(s, t) && (t.save.Saved? || t.save.Refused?)
    requires Recorded(s, thread).Some? && thread != ""
    ensures Recorded(Apply(s, t), thread) == Recorded(s, thread)
  {
  }

  lemma {:induction false} RecordedForever(s: State, turns: seq<Turn>, thread: string)
    requires Run(s, turns) && Serial(turns) && Recorded(s, thread).Some? && thread != ""
    ensures Recorded(After(s, turns), thread) == Recorded(s, thread)
    decreases |turns|
  {
    if turns != [] {
      RecordedStays(s, turns[0], thread);
      hide Apply, Enabled, Recorded;
      RecordedForever(Apply(s, turns[0]), turns[1..], thread);
    }
  }

  /** Once a turn has recorded a thread's model, it never changes, and no later turn resumes
      the thread under another: a ported thread's exemption is spent, and the hint written
      before a turn carries the model the guard will check. */
  lemma BoundForLife(s: State, turns: seq<Turn>, thread: string, model: string, force: bool, readable: bool)
    requires Run(s, turns) && Serial(turns) && Recorded(s, thread).Some? && thread != ""
    ensures var end := After(s, turns);
            && Recorded(end, thread) == BoundModel(end, thread, force, readable) == Recorded(s, thread)
            && (ResumeId(end, thread, model, force, readable) == thread <==> model == Recorded(s, thread).value)
  {
    RecordedForever(s, turns, thread);
  }

  /** A thread started here has met at most one model, the recorded one if any. */
  ghost predicate OneModel(s: State, thread: string) {
    thread != ""
    && |Contexts(s, thread)| <= 1
    && (forall m | m in Contexts(s, thread) :: m != AMBIGUOUS)
    && (Recorded(s, thread).Some? ==> Contexts(s, thread) == [Recorded(s, thread).value])
  }

  ghost predicate BornOk(s: State) { forall thread | thread in s.born :: OneModel(s, thread) }

  lemma BornStep(s: State, t: Turn)
    requires BornOk(s) && Enabled(s, t) && (t.Codex? ==> t.readable) && (t.save.Saved? || t.save.Refused?)
    ensures BornOk(Apply(s, t))
  {
    var s' := Apply(s, t);
    forall thread | thread in s'.born ensures OneModel(s', thread) {
      if t.Codex? && thread == ThreadOf(s, t) {
        TurnOnThread(s, t);
      } else {
        assert OneModel(s, thread);
      }
    }
  }

  /** The turn's own thread: new, or resumed under the model it is bound to. */
  lemma TurnOnThread(s: State, t: Turn)
    requires t.Codex? && BornOk(s) && Enabled(s, t) && t.readable && (t.save.Saved? || t.save.Refused?)
    requires ThreadOf(s, t) in Apply(s, t).born
    ensures OneModel(Apply(s, t), ThreadOf(s, t))
  {
    var thread := ThreadOf(s, t);
    if thread in s.born {
      assert OneModel(s, thread);
      assert thread == t.asked && !t.force;
      assert Contexts(s, thread) == [] || Contexts(s, thread) == [t.model];
    } else {
      assert thread == t.started && Contexts(s, thread) == [];
    }
    assert AddContext([], t.model) == [t.model] && AddContext([t.model], t.model) == [t.model];
  }

  /** On every run with readable rollouts and serial writes, a thread started on the volume
      only ever runs under one model, failed turns and turns never recorded included. */
  lemma {:induction false} OneModelPerThread(s: State, turns: seq<Turn>)
    requires BornOk(s) && Run(s, turns) && Serial(turns)
    requires forall k | 0 <= k < |turns| && turns[k].Codex? :: turns[k].readable
    ensures BornOk(After(s, turns))
    decreases |turns|
  {
    if turns != [] {
      BornStep(s, turns[0]);
      hide Apply, Enabled, BornOk;
      OneModelPerThread(Apply(s, turns[0]), turns[1..]);
    }
  }

  // ----- which writes keep a record -----

  /** The thread whose entry the turn writes, if it writes the map at all. */
  function Target(s: State, t: Turn): string {
    match t
    case Other(thread, _, _) => thread
    case Codex(_, _, _, _, _, _, completed, _, _) => if completed then ThreadOf(s, t) else ""
  }

  function ModelIn(entries: SessionMap, thread: string): string {
    if thread in entries then entries[thread].model else ""
  }

  /** The write, if there is one, is whole and from the newest copy, or refused; or the copy
      it is from has the thread's model already, or it records that model itself. */
  predicate Keeps(s: State, t: Turn, thread: string) {
    Target(s, t) == "" || t.save.Saved? || t.save.Refused?
    || (t.save.Stale?
        && (ModelIn(t.save.loaded, thread) == ModelIn(s.entries, thread) || (t.Codex? && Target(s, t) == thread)))
  }

  /** A thread's recorded model survives a turn exactly when the turn's write is such. */
  lemma KeptExactly(s: State, t: Turn, thread: string)
    requires Enabled(s, t) && thread != "" && Recorded(s, thread).Some?
    ensures Recorded(Apply(s, t), thread) == Recorded(s, thread) <==> Keeps(s, t, thread)
  {
  }

  /** The turn resumes the thread under another model. */
  predicate Rebinds(s: State, t: Turn, thread: string, model: string) {
    Enabled(s, t) && t.Codex? && t.model != model
    && ResumeId(s, t.asked, t.model, t.force, t.readable) == thread
  }

  /** For a ported thread that is the whole protection: right after a turn, whatever the
      state, some turn can resume it under another model if and only if the record was lost. */
  lemma LostRecordRebindsExactly(s: State, t: Turn, thread: string, unused: string)
    requires Enabled(s, t) && thread != "" && Recorded(s, thread).Some? && thread !in s.born
    requires Fresh(Apply(s, t), unused)
    ensures Keeps(s, t, thread) <==> forall u :: !Rebinds(Apply(s, t), u, thread, Recorded(s, thread).value)
  {
    KeptExactly(s, t, thread);
    if !Keeps(s, t, thread) {
      var u := Rebinder(s, t, thread, unused);
    }
  }

  lemma Rebinder(s: State, t: Turn, thread: string, unused: string) returns (u: Turn)
    requires Enabled(s, t) && thread != "" && Recorded(s, thread).Some? && thread !in s.born
    requires Fresh(Apply(s, t), unused) && Recorded(Apply(s, t), thread) != Recorded(s, thread)
    ensures Rebinds(Apply(s, t), u, thread, Recorded(s, thread).value)
  {
    var now := Recorded(Apply(s, t), thread);
    var model := if now.Some? then now.value else if Recorded(s, thread).value == "a" then "b" else "a";
    u := Codex(thread, model, true, true, unused, true, true, "r", Saved);
  }

  // ----- what the side conditions exclude -----

  /** A write of another conversation that is torn, or made from a copy loaded too early,
      forgets a ported thread's model, and the next turn resumes it under another. */
  lemma LostRecordRebinds(save: Save) returns (turns: seq<Turn>)
    requires save == Torn || save == Stale(map[])
    ensures Run(State(map[], map[], {}), turns)
    ensures var s := After(State(map[], map[], {}), turns); "p" in s.rollouts && s.rollouts["p"] == ["a", "b"]
  {
    var start := State(map[], map[], {});
    var first := Codex("p", "a", true, true, "n", true, true, "r", Saved);
    var other := Other("c", "r", save);
    var second := Codex("p", "b", true, true, "n", true, true, "r", Saved);
    var s1 := Apply(start, first);
    var s2 := Apply(s1, other);
    var s3 := Apply(s2, second);
    turns := [first, other, second];
    assert turns[1..] == [other, second] && [other, second][1..] == [second] && [second][1..] == [];
    assert Run(s3, []) && Run(s2, [second]) && Run(s1, [other, second]);
    assert After(s2, [second]) == s3 && After(s1, [other, second]) == s3;
  }

  // ----- the session map on the volume -----

  class Volume {
    var sessionMap: SessionMap

    constructor ()
      ensures sessionMap == map[]
    {
      sessionMap := map[];
    }

    /** _remember_session, its load and its write in one go. */
    method RememberSession(thread: string, repo: string, model: string, save: Save)
      modifies this
      ensures sessionMap == Written(old(sessionMap), thread, repo, model, save)
    {
      if thread == "" {
        return;
      }
      var m := if save.Stale? then save.loaded else sessionMap;
      var entry := if thread in m then m[thread] else Entry("", "");
      entry := entry.(repo := repo);
      if model != "" {
        entry := entry.(model := model);
      }
      m := m[thread := entry];
      match save {
        case Refused =>
        case Torn => sessionMap := map[];
        case _ => sessionMap := m;
      }
    }
  }
}
