/** Publishing a mirror, a tarball or an extracted copy: builders share one directory, write
    under temporary names and rename, whatever the lock does, and crash between any two calls. */
module Publication {
  import opened Text

  /** A tarball is a file, which opening for a build empties, a rename replaces and an
      unlink removes whole. A mirror and an extracted copy are directories, onto which a
      rename succeeds only while they are empty and which go file by file. */
  datatype Kind = Tarball | Mirror | LocalCopy

  /** Names are what the random suffix of a temporary makes of them. */
  datatype Path = Published | Temp(name: nat)

  /** What is at a path: the files there, and all that a reader may rely on finding.
      `torn` once an eviction has unlinked one of those. */
  datatype Copy = Copy(files: set<nat>, whole: set<nat>, torn: bool)

  datatype Phase = Building | Built | Cleaning | Gone

  /** `wrote`: what its own tool has written; the tool looks at nothing else. */
  datatype Builder = Builder(phase: Phase, name: nat, whole: set<nat>, wrote: set<nat>)

  /** `used` is history: the names builders have taken. */
  datatype State = State(fs: map<Path, Copy>, builders: seq<Builder>, used: set<nat>)

  datatype Action =
    | Begin(name: nat, whole: set<nat>)
    | Grow(b: nat, file: nat)
    | Finish(b: nat)
    | Fail(b: nat)
    | Publish(b: nat)
    | Clean(b: nat, file: nat)
    | CleanRoot(b: nat)
    | Crash(b: nat)
    | Sweep
    | Fetch(file: nat)
    | Prune(file: nat)
    | Evict(file: nat)
    | EvictRoot

  function Start(): State { State(map[], [], {}) }

  predicate Has(s: State, p: Path, file: nat) { p in s.fs && file in s.fs[p].files }

  predicate Emptied(s: State, p: Path) { p in s.fs && s.fs[p].files == {} }

  predicate InPhase(s: State, b: nat, phase: Phase) { b < |s.builders| && s.builders[b].phase == phase }

  predicate Enabled(kind: Kind, s: State, a: Action) {
    match a
    case Begin(_, _) => true
    case Grow(b, file) =>
      InPhase(s, b, Building) && file in s.builders[b].whole && Temp(s.builders[b].name) in s.fs
    case Finish(b) => InPhase(s, b, Building) && s.builders[b].wrote == s.builders[b].whole
    case Fail(b) => InPhase(s, b, Building)
    case Publish(b) => InPhase(s, b, Built)
    case Clean(b, file) => InPhase(s, b, Cleaning) && !kind.Tarball? && Has(s, Temp(s.builders[b].name), file)
    case CleanRoot(b) =>
      InPhase(s, b, Cleaning)
      && (kind.Tarball? || Temp(s.builders[b].name) !in s.fs || Emptied(s, Temp(s.builders[b].name)))
    case Crash(b) => b < |s.builders|
    case Sweep => kind.Tarball? && Published in s.fs
    case Fetch(_) => kind.Mirror? && Published in s.fs
    case Prune(file) => kind.Mirror? && Has(s, Published, file)
    case Evict(file) => kind.LocalCopy? && Has(s, Published, file)
    case EvictRoot => kind.LocalCopy? && Emptied(s, Published)
  }

  /** os.rename of the temporary onto the published path. */
  predicate RenameWorks(kind: Kind, s: State, from: Path) {
    from in s.fs && (kind.Tarball? || Published !in s.fs || Emptied(s, Published))
  }

  function To(s: State, b: nat, phase: Phase): State
    requires b < |s.builders|
  {
    s.(builders := s.builders[b := s.builders[b].(phase := phase)])
  }

  function Without(s: State, p: Path, file: nat): State
    requires p in s.fs
  {
    s.(fs := s.fs[p := s.fs[p].(files := s.fs[p].files - {file})])
  }

  /** A clone refuses a directory with something in it; tar's output file is emptied; an
      extraction goes into whatever is there. */
  function Opened(kind: Kind, s: State, name: nat, whole: set<nat>): State {
    var p := Temp(name);
    var refused := kind.Mirror? && p in s.fs && s.fs[p].files != {};
    State(if refused || (kind.LocalCopy? && p in s.fs) then s.fs else s.fs[p := Copy({}, whole, false)],
          s.builders + [Builder(if refused then Cleaning else Building, name, whole, {})],
          s.used + {name})
  }

  function Apply(kind: Kind, s: State, a: Action): State
    requires Enabled(kind, s, a)
  {
    match a
    case Begin(name, whole) => Opened(kind, s, name, whole)
    case Grow(b, file) =>
      var r := s.builders[b];
      var temp := s.fs[Temp(r.name)];
      s.(fs := s.fs[Temp(r.name) := temp.(files := temp.files + {file})],
         builders := s.builders[b := r.(wrote := r.wrote + {file})])
    case Finish(b) => To(s, b, Built)
    case Fail(b) => To(s, b, Cleaning)
    case Publish(b) =>
      var temp := Temp(s.builders[b].name);
      if RenameWorks(kind, s, temp) then To(s.(fs := s.fs[Published := s.fs[temp]] - {temp}), b, Cleaning)
      else To(s, b, Cleaning)
    case Clean(b, file) => Without(s, Temp(s.builders[b].name), file)
    case CleanRoot(b) => To(s.(fs := s.fs - {Temp(s.builders[b].name)}), b, Gone)
    case Crash(b) => To(s, b, Gone)
    case Sweep => s.(fs := s.fs - {Published})
    case Fetch(file) => s.(fs := s.fs[Published := s.fs[Published].(files := s.fs[Published].files + {file})])
    case Prune(file) =>
      s.(fs := s.fs[Published := s.fs[Published].(files := s.fs[Published].files - {file},
                                                  whole := s.fs[Published].whole - {file})])
    case Evict(file) =>
      var copy := s.fs[Published];
      s.(fs := s.fs[Published := copy.(files := copy.files - {file}, torn := copy.torn || file in copy.whole)])
    case EvictRoot => s.(fs := s.fs - {Published})
  }

  ghost predicate Run(kind: Kind, s: State, actions: seq<Action>)
    decreases |actions|
  {
    actions == [] || (Enabled(kind, s, actions[0]) && Run(kind, Apply(kind, s, actions[0]), actions[1..]))
  }

  ghost function After(kind: Kind, s: State, actions: seq<Action>): State
    requires Run(kind, s, actions)
    decreases |actions|
  {
    if actions == [] then s else After(kind, Apply(kind, s, actions[0]), actions[1..])
  }

  /** Every random suffix is new. */
  predicate NewName(s: State, a: Action) { a.Begin? ==> a.name !in s.used }

  ghost predicate NewNames(kind: Kind, s: State, actions: seq<Action>)
    requires Run(kind, s, actions)
    decreases |actions|
  {
    actions == [] || (NewName(s, actions[0]) && NewNames(kind, Apply(kind, s, actions[0]), actions[1..]))
  }

  // ----- what readers find -----

  predicate Complete(copy: Copy) { copy.whole <= copy.files }

  /** The builder at work has at its name what its tool has written, and nothing else. */
  predicate OwnsTemp(s: State, r: Builder) {
    r.name in s.used
    && (r.phase.Building? || r.phase.Built? ==>
          Temp(r.name) in s.fs && s.fs[Temp(r.name)] == Copy(r.wrote, r.whole, false))
    && (r.phase.Built? ==> r.wrote == r.whole)
  }

  predicate PublishedOk(kind: Kind, s: State) {
    Published in s.fs ==>
      (s.fs[Published].torn <==> !Complete(s.fs[Published])) && (s.fs[Published].torn ==> kind.LocalCopy?)
  }

  ghost predicate Inv(kind: Kind, s: State) {
    PublishedOk(kind, s)
    && (forall b | 0 <= b < |s.builders| :: OwnsTemp(s, s.builders[b]))
    && (forall b, c | 0 <= b < c < |s.builders| :: s.builders[b].name != s.builders[c].name)
    && forall p | p in s.fs && p.Temp? :: p.name in s.used
  }

  lemma BuilderStep(kind: Kind, s: State, a: Action)
    requires Inv(kind, s) && Enabled(kind, s, a)
    requires a.Grow? || a.Finish? || a.Fail? || a.Publish? || a.Clean? || a.CleanRoot? || a.Crash?
    ensures Inv(kind, Apply(kind, s, a))
  {
    var r := s.builders[a.b];
    assert OwnsTemp(s, r);
    var s' := Apply(kind, s, a);
    forall b | 0 <= b < |s'.builders| ensures OwnsTemp(s', s'.builders[b]) {
      assert OwnsTemp(s, s.builders[b]);
      if b != a.b {
        assert s.builders[b].name != r.name;
      }
    }
  }

  lemma InvStep(kind: Kind, s: State, a: Action)
    requires Inv(kind, s) && Enabled(kind, s, a) && NewName(s, a)
    ensures Inv(kind, Apply(kind, s, a))
  {
    if a.Begin? {
      assert Temp(a.name) !in s.fs;
    } else if !(a.Sweep? || a.Fetch? || a.Prune? || a.Evict? || a.EvictRoot?) {
      BuilderStep(kind, s, a);
    } else {
      var s' := Apply(kind, s, a);
      forall b | 0 <= b < |s'.builders| ensures OwnsTemp(s', s'.builders[b]) {
        assert OwnsTemp(s, s.builders[b]);
      }
    }
  }

  lemma {:induction false} InvRun(kind: Kind, s: State, actions: seq<Action>)
    requires Inv(kind, s) && Run(kind, s, actions) && NewNames(kind, s, actions)
    ensures Inv(kind, After(kind, s, actions))
    decreases |actions|
  {
    if actions != [] {
      InvStep(kind, s, actions[0]);
      hide Apply, Enabled, Inv;
      InvRun(kind, Apply(kind, s, actions[0]), actions[1..]);
    }
  }

  /** At every point of every run with new names, with a crash or a clean-up anywhere and a
      mirror refreshed in place, what a reader finds at the published path is whole, unless
      it is a copy on local disk of which an eviction has unlinked a file: exactly then it
      is not. */
  lemma NeverHalfBuilt(kind: Kind, actions: seq<Action>)
    requires Run(kind, Start(), actions) && NewNames(kind, Start(), actions)
    ensures PublishedOk(kind, After(kind, Start(), actions))
  {
    InvRun(kind, Start(), actions);
  }

  /** A later builder's rename never replaces a directory in use: the first one stands. */
  lemma FirstDirectoryStands(kind: Kind, s: State, a: Action)
    requires Enabled(kind, s, a) && !kind.Tarball? && Published in s.fs && s.fs[Published].files != {}
    requires !a.Evict? && !a.Fetch? && !a.Prune?
    ensures Published in Apply(kind, s, a).fs && Apply(kind, s, a).fs[Published] == s.fs[Published]
  {
  }

  // ----- what the side condition excludes, and what a torn copy does -----

  ghost predicate Reachable(kind: Kind, s: State) {
    exists actions | Run(kind, Start(), actions) :: After(kind, Start(), actions) == s
  }

  lemma {:induction false} RunThen(kind: Kind, s: State, actions: seq<Action>, a: Action)
    requires Run(kind, s, actions) && Enabled(kind, After(kind, s, actions), a)
    ensures Run(kind, s, actions + [a])
    ensures After(kind, s, actions + [a]) == Apply(kind, After(kind, s, actions), a)
    decreases |actions|
  {
    hide Apply, Enabled;
    if actions == [] {
      assert [a][1..] == [];
    } else {
      assert (actions + [a])[1..] == actions[1..] + [a];
      RunThen(kind, Apply(kind, s, actions[0]), actions[1..], a);
    }
  }

  lemma Step(kind: Kind, s: State, a: Action) returns (s': State)
    requires Reachable(kind, s) && Enabled(kind, s, a)
    ensures s' == Apply(kind, s, a) && Reachable(kind, s')
  {
    hide Apply, Enabled;
    var actions :| Run(kind, Start(), actions) && After(kind, Start(), actions) == s;
    RunThen(kind, Start(), actions, a);
    s' := Apply(kind, s, a);
  }

  function Alone(phase: Phase, wrote: set<nat>): State {
    State(map[Temp(0) := Copy(wrote, {0, 1}, false)], [Builder(phase, 0, {0, 1}, wrote)], {0})
  }

  lemma OneWrites(kind: Kind, wrote: set<nat>, file: nat) returns (s: State)
    requires Reachable(kind, Alone(Building, wrote)) && file in {0, 1}
    ensures s == Alone(Building, wrote + {file}) && Reachable(kind, s)
  {
    hide Reachable;
    s := Step(kind, Alone(Building, wrote), Grow(0, file));
  }

  /** One builder, done and about to rename. */
  lemma OneBuilt(kind: Kind) returns (s: State)
    ensures Reachable(kind, s) && s == Alone(Built, {0, 1})
  {
    s := Start();
    assert Run(kind, s, []) && After(kind, s, []) == s;
    hide Reachable;
    s := Step(kind, s, Begin(0, {0, 1}));
    assert s == Alone(Building, {});
    s := OneWrites(kind, {}, 0);
    s := OneWrites(kind, {} + {0}, 1);
    assert {} + {0} + {1} == {0, 1};
    s := Step(kind, s, Finish(0));
  }

  /** Were a name taken twice, every kind could publish something half built: the second
      tar empties the first one's file, and a second build that fails, as a clone into a
      directory in use does at once, cleans the first one's directory. */
  lemma SharedNameBreaks(kind: Kind) returns (s: State)
    ensures Reachable(kind, s) && Published in s.fs && !Complete(s.fs[Published]) && !s.fs[Published].torn
  {
    s := OneBuilt(kind);
    hide Reachable;
    s := Step(kind, s, Begin(0, {0, 1}));
    if !kind.Tarball? {
      if kind.LocalCopy? {
        s := Step(kind, s, Fail(1));
      }
      s := Step(kind, s, Clean(1, 0));
    }
    assert 0 !in s.fs[Temp(0)].files && s.fs[Temp(0)].whole == {0, 1};
    s := Step(kind, s, Publish(0));
  }

  /** The check a checkout makes before it links a copy: there is something in it. */
  predicate Usable(s: State) { Published in s.fs && s.fs[Published].files != {} }

  /** It does not see an eviction that died halfway: whatever whole copy an eviction has
      begun to delete, while anything is left it passes, and no build can take its place. */
  lemma TornCopyIsUsable(s: State, file: nat, from: Path)
    requires Published in s.fs && file in s.fs[Published].whole && Complete(s.fs[Published])
    requires s.fs[Published].files != {file}
    ensures Enabled(LocalCopy, s, Evict(file))
    ensures var s' := Apply(LocalCopy, s, Evict(file));
            Usable(s') && !Complete(s'.fs[Published]) && !RenameWorks(LocalCopy, s', from)
  {
    var other :| other in s.fs[Published].files && other != file;
    assert other in Apply(LocalCopy, s, Evict(file)).fs[Published].files;
  }

  /** Such a copy, after an eviction. */
  lemma ATornCopy() returns (s: State)
    ensures Reachable(LocalCopy, s) && Usable(s) && !Complete(s.fs[Published])
    ensures forall from :: !RenameWorks(LocalCopy, s, from)
  {
    s := OneBuilt(LocalCopy);
    hide Reachable;
    s := Step(LocalCopy, s, Publish(0));
    TornCopyIsUsable(s, 0, Published);
    s := Step(LocalCopy, s, Evict(0));
  }
}
