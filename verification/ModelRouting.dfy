/** Validating a registry document's routing targets, and resolving names through it. The
    validator walks an index, the resolver the rows; they are meant to agree. */
module ModelRouting {
  import opened Text
  import opened PyText
  import opened ModelRegistry

  // ----- why a target cannot be routed to -----

  /** _target_reason */
  function TargetReason(f: Folded, quarantine: set<string>, v: Value): Option<Reason> {
    if v.NotText? || !ModelId(v.text) then Some(BadModelId)
    else if v.text in quarantine then Some(IsQuarantined)
    else match LookUp(f.rows, f.owner, v.text)
      case None => Some(UnknownModel)
      case Some(row) =>
        if row.readOnly then Some(ReadOnly)
        else if row.status == Quarantined then Some(IsQuarantined)
        else if row.status == Retired then Some(Inactive)
        else if !row.priced then Some(Unpriced)
        else if row.status == Candidate && !row.probed then Some(Unprobed)
        else None
  }

  function ReasonFor(doc: Doc, v: Value): Option<Reason> { TargetReason(Normal(doc), doc.quarantine, v) }

  function LegacyReason(doc: Doc, alias: string, v: Value): Option<Reason> {
    if !ModelId(alias) then Some(BadModelId) else ReasonFor(doc, v)
  }

  predicate Fatal(r: Reason) { r != UnknownAgent && r != Unprobed }

  /** No reason, or one that does not keep the document from being served. */
  predicate Tolerated(r: Option<Reason>) { r.Some? ==> !Fatal(r.value) }

  // ----- the errors by field path, the last write to a path standing -----

  function After(prefix: string, path: string): string
    requires prefix <= path
  {
    path[|prefix|..]
  }

  function SectionError(doc: Doc, prefix: string, m: map<string, Value>, path: string): Option<Reason> {
    if prefix <= path && After(prefix, path) in m then ReasonFor(doc, m[After(prefix, path)]) else None
  }

  function LegacyError(doc: Doc, path: string): Option<Reason> {
    var prefix := "legacyAliases.";
    if prefix <= path && After(prefix, path) in doc.legacy
    then LegacyReason(doc, After(prefix, path), doc.legacy[After(prefix, path)]) else None
  }

  function TierPath(cli: string): string { "tiers." + cli }

  function OneTierError(doc: Doc, tier: (string, Option<map<string, Value>>), path: string): Option<Reason> {
    if tier.1.None? then if path == TierPath(tier.0) then Some(NotAnObject) else None
    else SectionError(doc, TierPath(tier.0) + ".", tier.1.value, path)
  }

  function TierError(doc: Doc, n: nat, path: string): Option<Reason>
    requires n <= |doc.tiers|
  {
    if n == 0 then None
    else if OneTierError(doc, doc.tiers[n - 1], path).Some? then OneTierError(doc, doc.tiers[n - 1], path)
    else TierError(doc, n - 1, path)
  }

  const EXEMPT_AGENT := "telegram_intake"

  predicate InRoster(roster: Option<set<string>>, agent: string) {
    roster.None? || agent in roster.value || agent == EXEMPT_AGENT
  }

  function RosterError(doc: Doc, roster: Option<set<string>>, path: string): Option<Reason> {
    var prefix := "agents.";
    if prefix <= path && After(prefix, path) in doc.agents && !InRoster(roster, After(prefix, path))
    then Some(UnknownAgent) else None
  }

  function CatalogError(doc: Doc, path: string): Option<Reason> {
    var errors := Claimed(doc).1.errors;
    if path in errors then Some(errors[path]) else None
  }

  function Else(first: Option<Reason>, second: Option<Reason>): Option<Reason> {
    if first.Some? then first else second
  }

  /** What validate_registry's error map ends up holding at a path. */
  function ErrorAt(doc: Doc, roster: Option<set<string>>, path: string): Option<Reason> {
    Else(RosterError(doc, roster, path),
      Else(LegacyError(doc, path),
        Else(SectionError(doc, "agents.", doc.agents, path),
          Else(TierError(doc, |doc.tiers|, path),
            Else(SectionError(doc, "defaults.", doc.defaults, path), CatalogError(doc, path))))))
  }

  ghost predicate Served(doc: Doc, roster: Option<set<string>>) {
    forall path :: Tolerated(ErrorAt(doc, roster, path))
  }

  // ----- the validator -----

  /** The pass over one object of targets. */
  method CheckSection(doc: Doc, f: Folded, before: map<string, Reason>, prefix: string, m: map<string, Value>)
    returns (errors: map<string, Reason>)
    requires f == Normal(doc)
    ensures forall path :: Holds(errors, path, Else(SectionError(doc, prefix, m, path), At(before, path)))
  {
    hide Normal, ModelId, LookUp;
    errors := before;
    var keys := m.Keys;
    while keys != {}
      invariant keys <= m.Keys
      invariant forall path :: Holds(errors, path,
                  if prefix <= path && After(prefix, path) in keys then At(before, path)
                  else Else(SectionError(doc, prefix, m, path), At(before, path)))
      decreases keys
    {
      var key :| key in keys;
      var reason := TargetReason(f, doc.quarantine, m[key]);
      PathOfKey(prefix, key);
      if reason.Some? {
        errors := errors[prefix + key := reason.value];
      }
      keys := keys - {key};
    }
  }

  lemma PathOfKey(prefix: string, key: string)
    ensures prefix <= prefix + key && After(prefix, prefix + key) == key
    ensures forall path: string :: prefix <= path && After(prefix, path) == key ==> path == prefix + key
  {
    forall path: string | prefix <= path && After(prefix, path) == key ensures path == prefix + key {
      assert path == prefix + After(prefix, path);
    }
  }

  function At(errors: map<string, Reason>, path: string): Option<Reason> {
    if path in errors then Some(errors[path]) else None
  }

  predicate Holds(errors: map<string, Reason>, path: string, r: Option<Reason>) { At(errors, path) == r }

  method CheckLegacy(doc: Doc, f: Folded, before: map<string, Reason>) returns (errors: map<string, Reason>)
    requires f == Normal(doc)
    ensures forall path :: Holds(errors, path, Else(LegacyError(doc, path), At(before, path)))
  {
    hide Normal, ModelId, LookUp;
    errors := before;
    var prefix := "legacyAliases.";
    var keys := doc.legacy.Keys;
    while keys != {}
      invariant keys <= doc.legacy.Keys
      invariant forall path :: Holds(errors, path,
                  if prefix <= path && After(prefix, path) in keys then At(before, path)
                  else Else(LegacyError(doc, path), At(before, path)))
      decreases keys
    {
      var alias :| alias in keys;
      PathOfKey(prefix, alias);
      if !ModelId(alias) {
        errors := errors[prefix + alias := BadModelId];
      } else {
        var reason := TargetReason(f, doc.quarantine, doc.legacy[alias]);
        if reason.Some? {
          errors := errors[prefix + alias := reason.value];
        }
      }
      keys := keys - {alias};
    }
  }

  method CheckRoster(doc: Doc, roster: Option<set<string>>,
                     before: map<string, Reason>) returns (errors: map<string, Reason>)
    ensures forall path :: Holds(errors, path, Else(RosterError(doc, roster, path), At(before, path)))
  {
    errors := before;
    if roster.None? {
      return;
    }
    var prefix := "agents.";
    var keys := doc.agents.Keys;
    while keys != {}
      invariant keys <= doc.agents.Keys
      invariant forall path :: Holds(errors, path,
                  if prefix <= path && After(prefix, path) in keys then At(before, path)
                  else Else(RosterError(doc, roster, path), At(before, path)))
      decreases keys
    {
      var agent :| agent in keys;
      PathOfKey(prefix, agent);
      if agent !in roster.value && agent != EXEMPT_AGENT {
        errors := errors[prefix + agent := UnknownAgent];
      }
      keys := keys - {agent};
    }
  }

  method CheckTiers(doc: Doc, f: Folded, before: map<string, Reason>) returns (errors: map<string, Reason>)
    requires f == Normal(doc)
    ensures forall path :: Holds(errors, path, Else(TierError(doc, |doc.tiers|, path), At(before, path)))
  {
    hide Normal, TargetReason;
    errors := before;
    for n := 0 to |doc.tiers|
      invariant forall path :: Holds(errors, path, Else(TierError(doc, n, path), At(before, path)))
    {
      var (cli, mapping) := doc.tiers[n];
      match mapping {
        case None => errors := errors[TierPath(cli) := NotAnObject];
        case Some(m) => errors := CheckSection(doc, f, errors, TierPath(cli) + ".", m);
      }
    }
  }

  /** validate_registry, for a document that is an object with a catalog list. */
  method ValidateRegistry(doc: Doc, roster: Option<set<string>>) returns (served: bool, errors: map<string, Reason>)
    ensures forall path :: Holds(errors, path, ErrorAt(doc, roster, path))
    ensures served <==> Served(doc, roster)
  {
    var rows, aliasOwner;
    rows, aliasOwner, errors := ParseRegistry(doc);
    var f := Folded(rows, aliasOwner);
    hide Normal, Claimed, RosterError, LegacyError, SectionError, TierError;
    errors := CheckSection(doc, f, errors, "defaults.", doc.defaults);
    errors := CheckTiers(doc, f, errors);
    errors := CheckSection(doc, f, errors, "agents.", doc.agents);
    errors := CheckLegacy(doc, f, errors);
    errors := CheckRoster(doc, roster, errors);
    assert forall path :: Holds(errors, path, ErrorAt(doc, roster, path));
    hide ErrorAt;
    served := forall path | path in errors :: !Fatal(errors[path]);
    forall path | served ensures Tolerated(ErrorAt(doc, roster, path)) {
      assert Holds(errors, path, ErrorAt(doc, roster, path));
    }
    if path :| path in errors && Fatal(errors[path]) {
      assert Holds(errors, path, ErrorAt(doc, roster, path));
    }
  }

  // ----- what a served document's targets are good for -----

  predicate TiersKeyed(doc: Doc) {
    forall i, j | 0 <= i < j < |doc.tiers| :: doc.tiers[i].0 != doc.tiers[j].0
  }

  /** No tier map's key has a dot: two tiers then never share an error path. */
  predicate PlainTierKeys(doc: Doc) { forall i | 0 <= i < |doc.tiers| :: '.' !in doc.tiers[i].0 }

  /** Every target outside the tiers has a tolerated reason, taken one by one; an agent the
      roster does not know is refused for that alone. */
  ghost predicate SectionsRoutable(doc: Doc, roster: Option<set<string>>) {
    Claimed(doc).1.errors == map[]
    && (forall k | k in doc.defaults :: Tolerated(ReasonFor(doc, doc.defaults[k])))
    && (forall k | k in doc.agents && InRoster(roster, k) :: Tolerated(ReasonFor(doc, doc.agents[k])))
    && forall k | k in doc.legacy :: Tolerated(LegacyReason(doc, k, doc.legacy[k]))
  }

  ghost predicate TiersRoutable(doc: Doc) {
    forall i | 0 <= i < |doc.tiers| ::
      doc.tiers[i].1.Some?
      && forall k | k in doc.tiers[i].1.value :: Tolerated(ReasonFor(doc, doc.tiers[i].1.value[k]))
  }

  /** A later tier map writes a tolerated reason to the same path. */
  ghost predicate TierHidden(doc: Doc, i: nat, path: string) {
    exists j | i < j < |doc.tiers| ::
      OneTierError(doc, doc.tiers[j], path).Some? && Tolerated(OneTierError(doc, doc.tiers[j], path))
  }

  /** Every fatal reason of a tier map is hidden behind a later one. */
  ghost predicate TiersServed(doc: Doc) {
    forall i, path | 0 <= i < |doc.tiers| ::
      Tolerated(OneTierError(doc, doc.tiers[i], path)) || TierHidden(doc, i, path)
  }

  ghost predicate AllFatal(errors: map<string, Reason>) { forall path | path in errors :: Fatal(errors[path]) }

  lemma {:induction false} AliasErrorsFatal(id: string, aliases: seq<Value>, k: nat, legacy: set<string>, c: Claims)
    requires k <= |aliases| && AllFatal(c.errors)
    ensures AllFatal(ClaimRest(id, aliases, k, legacy, c).1.errors)
    decreases |aliases| - k
  {
    hide ModelId, AliasPath;
    if k < |aliases| {
      AliasErrorsFatal(id, aliases, k + 1, legacy, ClaimOne(id, aliases[k], legacy, c));
    }
  }

  lemma {:induction false} CatalogErrorsFatal(rows: seq<Row>, n: nat, legacy: set<string>)
    requires n <= |rows|
    ensures AllFatal(ClaimRows(rows, n, legacy).1.errors)
  {
    hide ClaimRest;
    if n > 0 {
      CatalogErrorsFatal(rows, n - 1, legacy);
      AliasErrorsFatal(rows[n - 1].id, rows[n - 1].aliases, 0, legacy, ClaimRows(rows, n - 1, legacy).1);
    }
  }

  lemma {:induction false} NoTierError(doc: Doc, n: nat, path: string)
    requires n <= |doc.tiers| && (path == "" || path[0] != 't')
    ensures TierError(doc, n, path) == None
  {
    hide ReasonFor;
    if n > 0 {
      NoTierError(doc, n - 1, path);
      assert TierPath(doc.tiers[n - 1].0)[0] == 't';
      assert (TierPath(doc.tiers[n - 1].0) + ".")[0] == 't';
    }
  }

  /** A key without dots that ends at a dot, or at the end, of one is that one. */
  lemma SameKey(cli: string, other: string, tail: string)
    requires '.' !in cli && '.' !in other && (tail == "" || tail[0] == '.')
    requires other <= cli + tail && (|other| == |cli + tail| || (cli + tail)[|other|] == '.')
    ensures other == cli
  {
    var all := cli + tail;
    assert all[..|cli|] == cli && all[..|other|] == other;
  }

  /** Tier keys without dots keep their paths apart. */
  lemma OtherTierSilent(doc: Doc, other: (string, Option<map<string, Value>>), cli: string, tail: string)
    requires '.' !in cli && '.' !in other.0 && cli != other.0 && (tail == "" || tail[0] == '.')
    ensures OneTierError(doc, other, TierPath(cli) + tail) == None
  {
    hide ReasonFor;
    var path, mine := TierPath(cli) + tail, TierPath(other.0);
    var n := |"tiers."|;
    assert path[n..] == cli + tail && mine[n..] == other.0;
    assert mine <= path ==> other.0 == path[n..][..|other.0|];
    assert mine + "." <= path ==> mine <= path && path[|mine|] == (mine + ".")[|mine|];
    if OneTierError(doc, other, path).Some? {
      SameKey(cli, other.0, tail);
    }
  }

  /** The reason that stands is that of the last tier map that wrote one. */
  lemma {:induction false} LastTierError(doc: Doc, n: nat, path: string) returns (last: nat)
    requires n <= |doc.tiers|
    ensures TierError(doc, n, path).None? ==> forall j | 0 <= j < n :: OneTierError(doc, doc.tiers[j], path).None?
    ensures TierError(doc, n, path).Some? ==>
              last < n && OneTierError(doc, doc.tiers[last], path) == TierError(doc, n, path)
              && forall j | last < j < n :: OneTierError(doc, doc.tiers[j], path).None?
  {
    hide OneTierError;
    last := 0;
    if n > 0 {
      if OneTierError(doc, doc.tiers[n - 1], path).Some? {
        last := n - 1;
      } else {
        last := LastTierError(doc, n - 1, path);
      }
    }
  }

  lemma TiersServedExactly(doc: Doc)
    ensures TiersServed(doc) <==> forall path :: Tolerated(TierError(doc, |doc.tiers|, path))
  {
    hide OneTierError, TierError;
    if TiersServed(doc) {
      forall path ensures Tolerated(TierError(doc, |doc.tiers|, path)) {
        var last := LastTierError(doc, |doc.tiers|, path);
      }
    } else {
      var i, path :| 0 <= i < |doc.tiers| && !Tolerated(OneTierError(doc, doc.tiers[i], path)) && !TierHidden(doc, i, path);
      var last := LastTierError(doc, |doc.tiers|, path);
      assert !Tolerated(TierError(doc, |doc.tiers|, path));
    }
  }

  /** With keys that have no dot nothing hides: each tier target counts by itself. */
  lemma PlainTiersHideNothing(doc: Doc)
    requires TiersKeyed(doc) && PlainTierKeys(doc)
    ensures TiersServed(doc) <==> TiersRoutable(doc)
  {
    hide ReasonFor, OneTierError;
    if TiersRoutable(doc) {
      forall i, path | 0 <= i < |doc.tiers| ensures Tolerated(OneTierError(doc, doc.tiers[i], path)) {
        OneTierTolerated(doc, i, path);
      }
    }
    if TiersServed(doc) {
      forall i | 0 <= i < |doc.tiers| ensures doc.tiers[i].1.Some? {
        NotHidden(doc, i, "");
        if doc.tiers[i].1.None? {
          NotAnObjectAt(doc, i);
        }
      }
      forall i, k | 0 <= i < |doc.tiers| && k in doc.tiers[i].1.value
        ensures Tolerated(ReasonFor(doc, doc.tiers[i].1.value[k]))
      {
        NotHidden(doc, i, "." + k);
        TargetAt(doc, i, k);
      }
    }
  }

  lemma OneTierTolerated(doc: Doc, i: nat, path: string)
    requires TiersRoutable(doc) && i < |doc.tiers|
    ensures Tolerated(OneTierError(doc, doc.tiers[i], path))
  {
    hide ReasonFor;
  }

  lemma NotHidden(doc: Doc, i: nat, tail: string)
    requires TiersKeyed(doc) && PlainTierKeys(doc) && TiersServed(doc) && i < |doc.tiers|
    requires tail == "" || tail[0] == '.'
    ensures Tolerated(OneTierError(doc, doc.tiers[i], TierPath(doc.tiers[i].0) + tail))
  {
    hide OneTierError;
    var path := TierPath(doc.tiers[i].0) + tail;
    forall j | i < j < |doc.tiers| ensures OneTierError(doc, doc.tiers[j], path).None? {
      OtherTierSilent(doc, doc.tiers[j], doc.tiers[i].0, tail);
    }
  }

  lemma NotAnObjectAt(doc: Doc, i: nat)
    requires i < |doc.tiers| && doc.tiers[i].1.None?
    ensures !Tolerated(OneTierError(doc, doc.tiers[i], TierPath(doc.tiers[i].0) + ""))
  {
    assert TierPath(doc.tiers[i].0) + "" == TierPath(doc.tiers[i].0);
  }

  lemma TargetAt(doc: Doc, i: nat, k: string)
    requires i < |doc.tiers| && doc.tiers[i].1.Some? && k in doc.tiers[i].1.value
    ensures OneTierError(doc, doc.tiers[i], TierPath(doc.tiers[i].0) + ("." + k))
         == ReasonFor(doc, doc.tiers[i].1.value[k])
  {
    hide ReasonFor;
    var prefix := TierPath(doc.tiers[i].0) + ".";
    assert TierPath(doc.tiers[i].0) + ("." + k) == prefix + k;
    PathOfKey(prefix, k);
  }

  lemma KeyErrors(doc: Doc, roster: Option<set<string>>, k: string)
    ensures k in doc.defaults ==>
              Else(ErrorAt(doc, roster, "defaults." + k), None) == Else(ReasonFor(doc, doc.defaults[k]), CatalogError(doc, "defaults." + k))
    ensures k in doc.agents && InRoster(roster, k) && ReasonFor(doc, doc.agents[k]).Some? ==>
              ErrorAt(doc, roster, "agents." + k) == ReasonFor(doc, doc.agents[k])
    ensures k in doc.legacy && LegacyReason(doc, k, doc.legacy[k]).Some? ==>
              ErrorAt(doc, roster, "legacyAliases." + k) == LegacyReason(doc, k, doc.legacy[k])
  {
    hide ReasonFor, LegacyReason, TierError, CatalogError;
    PathOfKey("defaults.", k);
    PathOfKey("agents.", k);
    PathOfKey("legacyAliases.", k);
    var d, a, l := "defaults." + k, "agents." + k, "legacyAliases." + k;
    assert d[0] == 'd' && a[0] == 'a' && l[0] == 'l';
    NoTierError(doc, |doc.tiers|, d);
  }

  lemma ServedOneByOne(doc: Doc, roster: Option<set<string>>)
    requires Served(doc, roster)
    ensures SectionsRoutable(doc, roster) && forall path :: Tolerated(TierError(doc, |doc.tiers|, path))
  {
    hide ReasonFor, LegacyReason, TierError;
    forall k | k in doc.defaults ensures Tolerated(ReasonFor(doc, doc.defaults[k])) {
      KeyErrors(doc, roster, k);
      assert Tolerated(ErrorAt(doc, roster, "defaults." + k));
    }
    forall k | k in doc.agents && InRoster(roster, k) ensures Tolerated(ReasonFor(doc, doc.agents[k])) {
      KeyErrors(doc, roster, k);
      assert Tolerated(ErrorAt(doc, roster, "agents." + k));
    }
    forall k | k in doc.legacy ensures Tolerated(LegacyReason(doc, k, doc.legacy[k])) {
      KeyErrors(doc, roster, k);
      assert Tolerated(ErrorAt(doc, roster, "legacyAliases." + k));
    }
    forall path ensures Tolerated(TierError(doc, |doc.tiers|, path)) {
      if TierError(doc, |doc.tiers|, path).Some? {
        if path == "" || path[0] != 't' {
          NoTierError(doc, |doc.tiers|, path);
        } else {
          TierPathError(doc, roster, path);
          assert Tolerated(ErrorAt(doc, roster, path));
        }
      }
    }
    ServedCatalog(doc, roster);
  }

  lemma TierPathError(doc: Doc, roster: Option<set<string>>, path: string)
    requires path != "" && path[0] == 't' && TierError(doc, |doc.tiers|, path).Some?
    ensures ErrorAt(doc, roster, path) == TierError(doc, |doc.tiers|, path)
  {
    hide ReasonFor, LegacyReason, TierError, CatalogError;
  }

  lemma CatalogPathError(doc: Doc, roster: Option<set<string>>, path: string)
    requires path != "" && path[0] == 'c'
    ensures ErrorAt(doc, roster, path) == CatalogError(doc, path)
  {
    hide ReasonFor, LegacyReason, TierError, CatalogError;
    NoTierError(doc, |doc.tiers|, path);
  }

  ghost predicate CatalogPaths(errors: map<string, Reason>) {
    forall path | path in errors :: path != "" && path[0] == 'c'
  }

  lemma {:induction false} AliasErrorPaths(id: string, aliases: seq<Value>, k: nat, legacy: set<string>, c: Claims)
    requires k <= |aliases| && CatalogPaths(c.errors)
    ensures CatalogPaths(ClaimRest(id, aliases, k, legacy, c).1.errors)
    decreases |aliases| - k
  {
    hide ModelId;
    if k < |aliases| {
      assert AliasPath(id, aliases[k])[0] == 'c';
      AliasErrorPaths(id, aliases, k + 1, legacy, ClaimOne(id, aliases[k], legacy, c));
    }
  }

  lemma {:induction false} CatalogErrorPaths(rows: seq<Row>, n: nat, legacy: set<string>)
    requires n <= |rows|
    ensures CatalogPaths(ClaimRows(rows, n, legacy).1.errors)
  {
    hide ClaimRest;
    if n > 0 {
      CatalogErrorPaths(rows, n - 1, legacy);
      AliasErrorPaths(rows[n - 1].id, rows[n - 1].aliases, 0, legacy, ClaimRows(rows, n - 1, legacy).1);
    }
  }

  lemma ServedCatalog(doc: Doc, roster: Option<set<string>>)
    requires Served(doc, roster)
    ensures Claimed(doc).1.errors == map[]
  {
    var errors := Claimed(doc).1.errors;
    CatalogErrorsFatal(UsableRows(doc), |UsableRows(doc)|, doc.legacy.Keys);
    CatalogErrorPaths(UsableRows(doc), |UsableRows(doc)|, doc.legacy.Keys);
    hide ErrorAt;
    if path :| path in errors {
      assert Tolerated(ErrorAt(doc, roster, path));
      CatalogPathError(doc, roster, path);
    }
  }

  /** The one error map stands for the targets: a document is served exactly when each
      target can be routed to, but for agents the roster does not know and for tier targets
      whose fatal reason a later tier map overwrites at the same path. */
  lemma ServedExactly(doc: Doc, roster: Option<set<string>>)
    ensures Served(doc, roster) <==> SectionsRoutable(doc, roster) && TiersServed(doc)
  {
    TiersServedExactly(doc);
    if Served(doc, roster) {
      ServedOneByOne(doc, roster);
    }
    if SectionsRoutable(doc, roster) && TiersServed(doc) {
      forall path ensures Tolerated(ErrorAt(doc, roster, path)) {
        assert Tolerated(TierError(doc, |doc.tiers|, path));
        hide ReasonFor, LegacyReason, TierError, TiersServed;
      }
    }
  }

  // ----- resolving a name -----

  /** What the resolver reads: a document and its normal rows. No registry at all reads as
      one that is empty. */
  datatype Registry = Registry(doc: Doc, rows: seq<Row>)

  const NO_REGISTRY := Registry(Doc([], map[], [], map[], map[], {}), [])

  function Normalized(doc: Doc): Registry { Registry(doc, Normal(doc).rows) }

  function TierMap(tiers: seq<(string, Option<map<string, Value>>)>, cli: string): map<string, Value> {
    if tiers == [] then map[]
    else if tiers[0].0 == cli then if tiers[0].1.Some? then tiers[0].1.value else map[]
    else TierMap(tiers[1..], cli)
  }

  function Remap(m: map<string, Value>, name: Value): Value {
    if name.Text? && name.text in m then m[name.text] else name
  }

  /** The name after the tier map of the CLI and the legacy names. */
  function Reached(doc: Doc, name: string, codex: bool): Value {
    Remap(doc.legacy, Remap(TierMap(doc.tiers, if codex then "codex" else "claude"), Text(name)))
  }

  /** resolve_model; a target that is not text resolves to nothing. */
  function Resolve(reg: Registry, name: Value, codex: bool): Option<string> {
    if name.NotText? then None
    else
      var word := Strip(name.text);
      if word == "" || word in reg.doc.quarantine then None
      else
        var reached := Reached(reg.doc, word, codex);
        if reached.NotText? || reached.text in reg.doc.quarantine then None
        else match FindRow(reg.rows, reached.text)
          case Some(row) =>
            if row.status == Quarantined || row.id in reg.doc.quarantine then None
            else if row.status == Active || row.status == Candidate then Some(row.id)
            else None
          case None => if '.' in reached.text && ModelId(reached.text) then Some(reached.text) else None
  }

  // ----- what a name resolves to -----

  type Tier = (string, Option<map<string, Value>>)

  predicate TierHas(tier: Tier, codex: bool, name: string) {
    tier.0 == (if codex then "codex" else "claude") && tier.1.Some? && name in tier.1.value
  }

  /** What the tiers make of a name: the word's meaning in the caller's own tier map, or
      the name itself. */
  ghost predicate TierMeaning(doc: Doc, codex: bool, name: string, v: Value) {
    if exists i | 0 <= i < |doc.tiers| :: TierHas(doc.tiers[i], codex, name)
    then exists i | 0 <= i < |doc.tiers| && TierHas(doc.tiers[i], codex, name) :: v == doc.tiers[i].1.value[name]
    else v == Text(name)
  }

  predicate LegacyMeaning(doc: Doc, v: Value, w: Value) {
    if v.Text? && v.text in doc.legacy then w == doc.legacy[v.text] else w == v
  }

  /** The id of the row so named, if it is in service and not listed; with no row, the name
      itself if it has a dot and looks like an id. */
  ghost predicate CatalogMeaning(reg: Registry, w: Value, answer: Option<string>) {
    if w.NotText? || w.text in reg.doc.quarantine then answer == None
    else if exists i | 0 <= i < |reg.rows| :: HasName(reg.rows[i], w.text) then
      exists i | 0 <= i < |reg.rows| && HasName(reg.rows[i], w.text) ::
        answer == if reg.rows[i].id !in reg.doc.quarantine && reg.rows[i].status in {Active, Candidate}
                  then Some(reg.rows[i].id) else None
    else answer == if '.' in w.text && ModelId(w.text) then Some(w.text) else None
  }

  lemma {:induction false} TierMapMeans(tiers: seq<Tier>, codex: bool, name: string)
    requires forall i, j | 0 <= i < j < |tiers| :: tiers[i].0 != tiers[j].0
    ensures var m := TierMap(tiers, if codex then "codex" else "claude");
            && (name in m <==> exists i | 0 <= i < |tiers| :: TierHas(tiers[i], codex, name))
            && forall i | 0 <= i < |tiers| && TierHas(tiers[i], codex, name) ::
                 name in m && m[name] == tiers[i].1.value[name]
  {
    if tiers != [] {
      TierMapMeans(tiers[1..], codex, name);
      assert forall i | 1 <= i < |tiers| :: tiers[i] == tiers[1..][i - 1];
      if exists i | 0 <= i < |tiers[1..]| :: TierHas(tiers[1..][i], codex, name) {
        var i :| 0 <= i < |tiers[1..]| && TierHas(tiers[1..][i], codex, name);
        assert TierHas(tiers[i + 1], codex, name);
      }
    }
  }

  /** resolve_model in the terms of the document: a blank or listed word resolves to nothing;
      any other has a meaning in its own CLI's tier map, then among the legacy names, then in
      the catalog. */
  lemma ResolvesExactly(reg: Registry, name: string, codex: bool, v: Value, w: Value)
    requires TiersKeyed(reg.doc) && TierMeaning(reg.doc, codex, Strip(name), v) && LegacyMeaning(reg.doc, v, w)
    ensures if Strip(name) == "" || Strip(name) in reg.doc.quarantine then Resolve(reg, Text(name), codex) == None
            else CatalogMeaning(reg, w, Resolve(reg, Text(name), codex))
  {
    TierMapMeans(reg.doc.tiers, codex, Strip(name));
    hide TierMap, Strip, ModelId, TierHas;
    assert Reached(reg.doc, Strip(name), codex) == w;
    if w.Text? {
      FindRowIs(reg.rows, w.text);
    }
  }

  /** A word of one CLI's tiers means nothing to the other: over the same rows, documents that
      differ only in the other CLI's tier map resolve every name alike. */
  lemma OtherTierMeansNothing(a: Registry, b: Registry, name: string, codex: bool)
    requires a.rows == b.rows && a.doc.legacy == b.doc.legacy && a.doc.quarantine == b.doc.quarantine
    requires TiersKeyed(a.doc) && TiersKeyed(b.doc)
    requires forall tier: Tier | tier.0 == (if codex then "codex" else "claude") :: tier in a.doc.tiers <==> tier in b.doc.tiers
    ensures Resolve(a, Text(name), codex) == Resolve(b, Text(name), codex)
  {
    var cli, word := if codex then "codex" else "claude", Strip(name);
    SameTierMap(a.doc.tiers, b.doc.tiers, codex, word);
    SameTierMap(b.doc.tiers, a.doc.tiers, codex, word);
    hide TierMap, Strip, ModelId, FindRow;
    assert Remap(TierMap(a.doc.tiers, cli), Text(word)) == Remap(TierMap(b.doc.tiers, cli), Text(word));
  }

  lemma SameTierMap(a: seq<Tier>, b: seq<Tier>, codex: bool, name: string)
    requires forall i, j | 0 <= i < j < |a| :: a[i].0 != a[j].0
    requires forall i, j | 0 <= i < j < |b| :: b[i].0 != b[j].0
    requires forall tier: Tier | tier.0 == (if codex then "codex" else "claude") :: tier in a ==> tier in b
    ensures var cli := if codex then "codex" else "claude";
            name in TierMap(a, cli) ==> name in TierMap(b, cli) && TierMap(a, cli)[name] == TierMap(b, cli)[name]
  {
    TierMapMeans(a, codex, name);
    TierMapMeans(b, codex, name);
    var cli := if codex then "codex" else "claude";
    hide TierMap;
    if name in TierMap(a, cli) {
      var i :| 0 <= i < |a| && TierHas(a[i], codex, name);
      assert a[i] in b;
      var j :| 0 <= j < |b| && b[j] == a[i];
      assert TierHas(b[j], codex, name);
    }
  }

  /** Over the rows each document normalises to that holds while both route at the same ids. */
  lemma OtherTierKeepsNames(a: Doc, b: Doc, name: string, codex: bool)
    requires a.catalog == b.catalog && a.legacy == b.legacy && a.quarantine == b.quarantine
    requires RoutingTargets(a) == RoutingTargets(b) && TiersKeyed(a) && TiersKeyed(b)
    requires forall tier: Tier | tier.0 == (if codex then "codex" else "claude") :: tier in a.tiers <==> tier in b.tiers
    ensures Resolve(Normalized(a), Text(name), codex) == Resolve(Normalized(b), Text(name), codex)
  {
    hide RoutingTargets, Resolve, FoldFirst, ClaimRows, Usable;
    assert Normal(a) == Normal(b);
    OtherTierMeansNothing(Normalized(a), Normalized(b), name, codex);
  }

  /** It fails where the other CLI's tier map routes at a dated snapshot: that keeps the
      snapshot's own row, which is otherwise folded into its base. */
  lemma OtherTierKeepsASnapshot(a: Doc, b: Doc, p: Row, q: Row)
    requires p == Row("mm", Active, [], false, true, true) && q == Row("mm-20250101", Active, [], false, true, true)
    requires a == Doc([Raw(p), Raw(q)], map["persona" := Text("mm")], [], map[], map[], {})
    requires b == a.(tiers := [("codex", Some(map["w" := Text("mm-20250101")]))])
    ensures Resolve(Normalized(a), Text("mm-20250101"), false) == Some("mm")
    ensures Resolve(Normalized(b), Text("mm-20250101"), false) == Some("mm-20250101")
  {
    SnapshotId(q.id);
    TwoUsable(p, q);
    TwoClaimed(p, q, {});
    SnapshotTargets(a, b);
    assert PlainId(q.id);
    PlainIdIsStripped(q.id);
    hide ModelId, DatedBase, Usable, ClaimRows, FoldFirst, TargetsOf, RoutingTargets, Strip, PlainId;
    assert a.legacy.Keys == {} && b.legacy.Keys == {};
    SnapshotFolds(p, q, {"mm"});
    SnapshotStays(p, q, {"mm", "mm-20250101"});
    assert FindRow([p, q], q.id) == Some(q) by {
      assert [p, q][1..] == [q];
    }
    var grown := p.(aliases := p.aliases + [Text(q.id)]);
    assert Text(q.id) in grown.aliases;
    assert FindRow([grown], q.id) == Some(grown);
    assert TierMap(b.tiers, "claude") == map[] by {
      assert b.tiers[1..] == [];
    }
  }

  lemma SnapshotTargets(a: Doc, b: Doc)
    requires a.defaults == map["persona" := Text("mm")] && a.tiers == [] && a.agents == a.legacy == map[]
    requires b == a.(tiers := [("codex", Some(map["w" := Text("mm-20250101")]))])
    ensures RoutingTargets(a) == {"mm"} && RoutingTargets(b) == {"mm", "mm-20250101"}
  {
    TargetsOfFew("persona", "mm");
    TargetsOfFew("w", "mm-20250101");
    assert b.tiers[1..] == [];
  }

  lemma SnapshotStays(p: Row, q: Row, targets: set<string>)
    requires p.id in targets && q.id in targets
    ensures FoldFirst([p, q], 2, map[], targets).rows == [p, q]
  {
    hide DatedBase;
    var order := [p, q];
    assert FoldFirst(order, 0, map[], targets) == Folded(order, map[]);
    assert FoldFirst(order, 1, map[], targets) == Folded(order, map[]);
  }

  /** What resolve_model answers is never quarantined, by list or by status. */
  lemma NeverQuarantined(doc: Doc, name: Value, codex: bool)
    requires Resolve(Normalized(doc), name, codex).Some?
    ensures var id := Resolve(Normalized(doc), name, codex).value;
            var row := FindRow(Normal(doc).rows, id);
            id !in doc.quarantine
            && (row.Some? ==> row.value.id == id && (row.value.status == Active || row.value.status == Candidate))
  {
    var rows := Normal(doc).rows;
    var id := Resolve(Normalized(doc), name, codex).value;
    var reached := Reached(doc, Strip(name.text), codex).text;
    NormalIndexed(doc);
    FindRowIs(rows, reached);
    FindRowIs(rows, id);
    hide Normal, Indexed, Strip, Reached, ModelId;
    if FindRow(rows, reached).Some? {
      OneNamed(rows, Normal(doc).owner, FindRow(rows, reached).value, FindRow(rows, id).value, id);
    }
  }

  // ----- the validator's word is the resolver's -----

  lemma PlainIdIsStripped(s: string)
    requires PlainId(s)
    ensures Strip(s) == s && s != ""
  {
    assert IdChar(Last(s)) && !IsSpace(Last(s)) && !IsSpace(s[0]);
  }

  /** A target of the document, wherever it stands; agents the roster does not know apart. */
  ghost predicate Target(doc: Doc, roster: Option<set<string>>, v: Value) {
    (exists k | k in doc.defaults :: doc.defaults[k] == v)
    || (exists k | k in doc.agents && InRoster(roster, k) :: doc.agents[k] == v)
    || (exists k | k in doc.legacy :: doc.legacy[k] == v)
    || exists i, k | 0 <= i < |doc.tiers| && doc.tiers[i].1.Some? && k in doc.tiers[i].1.value ::
         doc.tiers[i].1.value[k] == v
  }

  lemma TargetTolerated(doc: Doc, roster: Option<set<string>>, v: Value)
    requires SectionsRoutable(doc, roster) && TiersRoutable(doc) && Target(doc, roster, v)
    ensures Tolerated(ReasonFor(doc, v))
  {
    hide ReasonFor, ModelId;
    assert forall k | k in doc.legacy :: Tolerated(LegacyReason(doc, k, doc.legacy[k]));
  }

  lemma {:induction false} TierMapTargets(doc: Doc, roster: Option<set<string>>, n: nat, cli: string, k: string)
    requires n <= |doc.tiers| && k in TierMap(doc.tiers[n..], cli)
    ensures Target(doc, roster, TierMap(doc.tiers[n..], cli)[k])
    decreases |doc.tiers| - n
  {
    if doc.tiers[n].0 == cli {
      assert doc.tiers[n].1.value[k] == TierMap(doc.tiers[n..], cli)[k];
    } else {
      assert doc.tiers[n..][1..] == doc.tiers[n + 1..];
      TierMapTargets(doc, roster, n + 1, cli, k);
    }
  }

  /** Remapping a target gives a target. */
  lemma ReachedIsTarget(doc: Doc, roster: Option<set<string>>, name: string, codex: bool)
    requires Target(doc, roster, Text(name))
    ensures Target(doc, roster, Reached(doc, name, codex))
  {
    var cli := if codex then "codex" else "claude";
    assert doc.tiers[0..] == doc.tiers;
    if name in TierMap(doc.tiers, cli) {
      TierMapTargets(doc, roster, 0, cli, name);
    }
    hide TierMap;
    var once := Remap(TierMap(doc.tiers, cli), Text(name));
    assert Target(doc, roster, once);
    if once.Text? && once.text in doc.legacy {
      assert doc.legacy[once.text] == Reached(doc, name, codex);
    }
  }

  /** A tolerated target names a row in service. */
  lemma ToleratedRow(doc: Doc, v: Value)
    requires Tolerated(ReasonFor(doc, v))
    ensures v.Text? && ModelId(v.text) && v.text !in doc.quarantine
    ensures var row := FindRow(Normal(doc).rows, v.text);
            row.Some? && (row.value.status == Active || row.value.status == Candidate)
  {
    if v.Text? {
      LookupsAgree(doc, v.text);
    }
    hide Normal, LookUp, ModelId;
  }

  predicate InUse(row: Row) { !row.readOnly && row.priced && row.status in {Active, Candidate} }

  /** A target is tolerated exactly when it is an id, not listed, that names a writable,
      priced row in service; and then flagged exactly when that is a candidate not probed. */
  lemma ToleratedExactly(doc: Doc, v: Value)
    ensures Tolerated(ReasonFor(doc, v)) <==>
            v.Text? && ModelId(v.text) && v.text !in doc.quarantine
            && exists i | 0 <= i < |Normal(doc).rows| :: HasName(Normal(doc).rows[i], v.text) && InUse(Normal(doc).rows[i])
    ensures Tolerated(ReasonFor(doc, v)) ==>
              forall i | 0 <= i < |Normal(doc).rows| && HasName(Normal(doc).rows[i], v.text) ::
                ReasonFor(doc, v) == if Normal(doc).rows[i].status == Candidate && !Normal(doc).rows[i].probed
                                     then Some(Unprobed) else None
  {
    if v.Text? {
      var rows, owner := Normal(doc).rows, Normal(doc).owner;
      LookupsAgree(doc, v.text);
      NormalIndexed(doc);
      FindRowIs(rows, v.text);
      hide Normal, LookUp, ModelId, Indexed, FindRow;
      forall i | 0 <= i < |rows| && HasName(rows[i], v.text) ensures FindRow(rows, v.text) == Some(rows[i]) {
        OneNamed(rows, owner, rows[i], FindRow(rows, v.text).value, v.text);
      }
    }
  }

  /** On a served document every default, tier, agent and legacy target that is a plain id
      resolves to the id of an active or candidate row, exactly when the row it reaches is
      not itself quarantined under its own id. */
  lemma ServedTargetsResolve(doc: Doc, roster: Option<set<string>>, target: string, codex: bool)
    requires TiersKeyed(doc) && PlainTierKeys(doc) && Served(doc, roster)
    requires Target(doc, roster, Text(target)) && PlainId(target)
    ensures Reached(doc, target, codex).Text?
    ensures var row := FindRow(Normal(doc).rows, Reached(doc, target, codex).text);
            && row.Some? && (row.value.status == Active || row.value.status == Candidate)
            && Resolve(Normalized(doc), Text(target), codex) ==
                 if row.value.id in doc.quarantine then None else Some(row.value.id)
  {
    ServedExactly(doc, roster);
    PlainTiersHideNothing(doc);
    var reached := Reached(doc, target, codex);
    ReachedIsTarget(doc, roster, target, codex);
    TargetTolerated(doc, roster, Text(target));
    TargetTolerated(doc, roster, reached);
    ToleratedRow(doc, Text(target));
    ToleratedRow(doc, reached);
    PlainIdIsStripped(target);
    hide Normal, Strip, Reached, Target, SectionsRoutable, TiersRoutable, TiersServed, Served, ReasonFor, ModelId, PlainId;
  }

  // ----- the two top-level resolvers -----

  const LITERAL_PERSONA := "us.anthropic.claude-fable-5-1"
  const LITERAL_CODING_CLAUDE := "us.anthropic.claude-fable-5-1"
  const LITERAL_CODING_CODEX := "openai.gpt-5.5"

  function Field(m: map<string, Value>, key: string): Value { if key in m then m[key] else NotText("None") }

  function FirstResolved(reg: Registry, candidates: seq<Value>, codex: bool): Option<string> {
    if candidates == [] then None
    else if Resolve(reg, candidates[0], codex).Some? then Resolve(reg, candidates[0], codex)
    else FirstResolved(reg, candidates[1..], codex)
  }

  /** An environment override: resolved, else as it is unless it is quarantined. */
  function FromEnv(reg: Registry, env: string, codex: bool): Option<string> {
    var id := Strip(env);
    if id == "" then None
    else if Resolve(reg, Text(id), codex).Some? then Resolve(reg, Text(id), codex)
    else if !ModelId(id) || id in reg.doc.quarantine then None
    else Some(id)
  }

  function FirstFromEnv(reg: Registry, envs: seq<string>, codex: bool): Option<string> {
    if envs == [] then None
    else if FromEnv(reg, envs[0], codex).Some? then FromEnv(reg, envs[0], codex)
    else FirstFromEnv(reg, envs[1..], codex)
  }

  /** resolve_agent_model; the environment holds MODEL_ID. */
  function AgentModel(reg: Registry, agent: string, override: Value, env: string): string {
    var pin := if agent == "" then NotText("None") else Field(reg.doc.agents, agent);
    var named := FirstResolved(reg, [override, pin, Field(reg.doc.defaults, "persona")], false);
    if named.Some? then named.value
    else if FromEnv(reg, env, false).Some? then FromEnv(reg, env, false).value
    else LITERAL_PERSONA
  }

  /** The id _with_endpoint answers for a resolved model. */
  function WithRow(reg: Registry, id: string): string {
    if FindRow(reg.rows, id).Some? then FindRow(reg.rows, id).value.id else id
  }

  /** resolve_coding_model's id; `envs` in the order they are tried. */
  function CodingModel(reg: Registry, argument: Value, codex: bool, envs: seq<string>): string {
    var named := FirstResolved(reg, [argument, Field(reg.doc.defaults, if codex then "codingCodex" else "codingClaude")], codex);
    if named.Some? then WithRow(reg, named.value)
    else if FirstFromEnv(reg, envs, codex).Some? then WithRow(reg, FirstFromEnv(reg, envs, codex).value)
    else WithRow(reg, if codex then LITERAL_CODING_CODEX else LITERAL_CODING_CLAUDE)
  }

  // ----- the kill switch -----

  /** The name is withdrawn: it is listed, or it is a name of a row that is listed or out
      of service. */
  predicate Withdrawn(doc: Doc, name: string) {
    var row := FindRow(Normal(doc).rows, name);
    name in doc.quarantine
    || (row.Some? && (row.value.id in doc.quarantine || row.value.status == Quarantined || row.value.status == Retired))
  }

  /** What the resolver answers never is. */
  lemma ResolvedIsInService(doc: Doc, name: Value, codex: bool)
    requires Resolve(Normalized(doc), name, codex).Some?
    ensures var id := Resolve(Normalized(doc), name, codex).value;
            !Withdrawn(doc, id) && WithRow(Normalized(doc), id) == id
  {
    NeverQuarantined(doc, name, codex);
    hide Resolve, Normal;
  }

  /** A row's name and its id are withdrawn together, unless the name itself is listed. */
  lemma RowIsWithdrawn(doc: Doc, name: string)
    requires name !in doc.quarantine
    ensures Withdrawn(doc, WithRow(Normalized(doc), name)) <==> Withdrawn(doc, name)
  {
    var rows := Normal(doc).rows;
    NormalIndexed(doc);
    FindRowIs(rows, name);
    hide Normal, Indexed;
    if FindRow(rows, name).Some? {
      var id := FindRow(rows, name).value.id;
      FindRowIs(rows, id);
      OneNamed(rows, Normal(doc).owner, FindRow(rows, name).value, FindRow(rows, id).value, id);
    }
  }

  lemma {:induction false} FirstResolvedInService(doc: Doc, candidates: seq<Value>, codex: bool)
    requires FirstResolved(Normalized(doc), candidates, codex).Some?
    ensures var id := FirstResolved(Normalized(doc), candidates, codex).value;
            !Withdrawn(doc, id) && WithRow(Normalized(doc), id) == id
  {
    hide Resolve, Normal, Withdrawn;
    if Resolve(Normalized(doc), candidates[0], codex).Some? {
      ResolvedIsInService(doc, candidates[0], codex);
    } else {
      FirstResolvedInService(doc, candidates[1..], codex);
    }
  }

  /** An environment value the resolver refuses is used as it is: it looks like an id and
      is not itself listed. */
  predicate UsedRaw(reg: Registry, env: string, codex: bool) {
    Resolve(reg, Text(Strip(env)), codex).None?
    && Strip(env) != "" && ModelId(Strip(env)) && Strip(env) !in reg.doc.quarantine
  }

  lemma EnvWithdrawn(doc: Doc, env: string, codex: bool)
    requires FromEnv(Normalized(doc), env, codex).Some?
    ensures var id := FromEnv(Normalized(doc), env, codex).value;
            && id !in doc.quarantine
            && (Withdrawn(doc, id) <==> UsedRaw(Normalized(doc), env, codex) && Withdrawn(doc, Strip(env)))
  {
    hide Resolve, Normal, Strip, ModelId, Withdrawn;
    if Resolve(Normalized(doc), Text(Strip(env)), codex).Some? {
      ResolvedIsInService(doc, Text(Strip(env)), codex);
      NeverQuarantined(doc, Text(Strip(env)), codex);
    }
  }

  /** The first environment value that gives anything is used raw and names a withdrawn row. */
  predicate WithdrawnInEnv(doc: Doc, envs: seq<string>, codex: bool) {
    envs != []
    && if FromEnv(Normalized(doc), envs[0], codex).Some?
       then UsedRaw(Normalized(doc), envs[0], codex) && Withdrawn(doc, Strip(envs[0]))
       else WithdrawnInEnv(doc, envs[1..], codex)
  }

  lemma {:induction false} FirstFromEnvWithdrawn(doc: Doc, envs: seq<string>, codex: bool)
    requires FirstFromEnv(Normalized(doc), envs, codex).Some?
    ensures Withdrawn(doc, WithRow(Normalized(doc), FirstFromEnv(Normalized(doc), envs, codex).value)) <==>
            WithdrawnInEnv(doc, envs, codex)
  {
    hide FromEnv, Normal, Strip, Withdrawn, UsedRaw, WithRow;
    if FromEnv(Normalized(doc), envs[0], codex).Some? {
      EnvWithdrawn(doc, envs[0], codex);
      RowIsWithdrawn(doc, FromEnv(Normalized(doc), envs[0], codex).value);
    } else {
      FirstFromEnvWithdrawn(doc, envs[1..], codex);
    }
  }

  lemma {:induction false} NothingInEnv(doc: Doc, envs: seq<string>, codex: bool)
    requires FirstFromEnv(Normalized(doc), envs, codex).None?
    ensures !WithdrawnInEnv(doc, envs, codex)
  {
    hide FromEnv, Normal, Strip, Withdrawn, UsedRaw;
    if envs != [] {
      NothingInEnv(doc, envs[1..], codex);
    }
  }

  function AgentNames(doc: Doc, agent: string, override: Value): seq<Value> {
    [override, if agent == "" then NotText("None") else Field(doc.agents, agent), Field(doc.defaults, "persona")]
  }

  /** The agent resolver answers a withdrawn name exactly when no override, pin or default
      resolves and either MODEL_ID, used raw, names a withdrawn row, or it gives nothing and
      the literal is withdrawn. A listed name it answers only as the literal. */
  lemma AgentModelClean(doc: Doc, agent: string, override: Value, env: string)
    ensures Withdrawn(doc, AgentModel(Normalized(doc), agent, override, env)) <==>
            && FirstResolved(Normalized(doc), AgentNames(doc, agent, override), false).None?
            && if FromEnv(Normalized(doc), env, false).None? then Withdrawn(doc, LITERAL_PERSONA)
               else UsedRaw(Normalized(doc), env, false) && Withdrawn(doc, Strip(env))
    ensures AgentModel(Normalized(doc), agent, override, env) in doc.quarantine ==>
              AgentModel(Normalized(doc), agent, override, env) == LITERAL_PERSONA
  {
    hide Resolve, FromEnv, FirstResolved, Normal, UsedRaw, Strip;
    var reg := Normalized(doc);
    var candidates := AgentNames(doc, agent, override);
    if FirstResolved(reg, candidates, false).Some? {
      FirstResolvedInService(doc, candidates, false);
    } else if FromEnv(reg, env, false).Some? {
      EnvWithdrawn(doc, env, false);
    }
  }

  function CodingNames(doc: Doc, argument: Value, codex: bool): seq<Value> {
    [argument, Field(doc.defaults, if codex then "codingCodex" else "codingClaude")]
  }

  /** And the coding resolver a withdrawn id exactly when neither argument nor default
      resolves and either the first environment value that gives anything is used raw and
      names a withdrawn row, or none does and the literal's id is withdrawn. */
  lemma CodingModelClean(doc: Doc, argument: Value, codex: bool, envs: seq<string>)
    ensures Withdrawn(doc, CodingModel(Normalized(doc), argument, codex, envs)) <==>
            && FirstResolved(Normalized(doc), CodingNames(doc, argument, codex), codex).None?
            && if FirstFromEnv(Normalized(doc), envs, codex).Some? then WithdrawnInEnv(doc, envs, codex)
               else Withdrawn(doc, WithRow(Normalized(doc), if codex then LITERAL_CODING_CODEX else LITERAL_CODING_CLAUDE))
  {
    hide Resolve, FirstFromEnv, FirstResolved, Normal, WithdrawnInEnv, Withdrawn, WithRow;
    var reg := Normalized(doc);
    var candidates := CodingNames(doc, argument, codex);
    if FirstResolved(reg, candidates, codex).Some? {
      FirstResolvedInService(doc, candidates, codex);
    } else if FirstFromEnv(reg, envs, codex).Some? {
      FirstFromEnvWithdrawn(doc, envs, codex);
    }
  }

  // ----- what the side conditions exclude -----

  type Tiers = seq<Tier>

  /** A document of one row, and its normal form. */
  function OneRow(row: Row, defaults: map<string, Value>, tiers: Tiers, quarantine: set<string>): Doc {
    Doc([Raw(row)], defaults, tiers, map[], map[], quarantine)
  }

  lemma OneRowUsable(row: Row)
    requires ModelId(row.id)
    ensures Usable([Raw(row)], 1) == [row] && Ids([row]) == {row.id}
  {
    hide ModelId, Usable;
    NothingUsable([Raw(row)]);
    UsableNext([Raw(row)], 0);
    assert [] + [row] == [row];
    IdsPlus([], row);
  }

  lemma NothingClaimed(rows: seq<Row>)
    ensures var claimed := ClaimRows(rows, 0, {});
            claimed.0 == [] && claimed.1 == Claims(map id | id in Ids(rows) :: id, map[], map[])
  {
  }

  /** At most one alias, other than its own id. */
  predicate SimpleAliases(row: Row) {
    row.aliases == []
    || (|row.aliases| == 1 && row.aliases[0].Text? && ModelId(row.aliases[0].text) && row.aliases[0].text != row.id)
  }

  lemma OneRowClaimed(row: Row)
    requires Ids([row]) == {row.id} && SimpleAliases(row)
    ensures var claimed := ClaimRows([row], 1, {}); claimed.0 == [row] && claimed.1.errors == map[]
  {
    hide ModelId, AliasPath;
    NothingClaimed([row]);
    var c := ClaimRows([row], 0, {}).1;
    if row.aliases == [] {
      assert ClaimRest(row.id, row.aliases, 0, {}, c).0 == row.aliases;
    } else {
      var c' := ClaimOne(row.id, row.aliases[0], {}, c);
      assert ClaimRest(row.id, row.aliases, 1, {}, c').0 == [];
      assert row.aliases == [row.aliases[0]] + [];
    }
    assert ClaimRows([row], 1, {}).0 == [] + [row.(aliases := row.aliases)];
  }

  lemma OneRowStays(row: Row, owner: map<string, string>, targets: set<string>)
    requires Ids([row]) == {row.id}
    ensures FoldFirst([row], 1, owner, targets) == Folded([row], owner)
  {
    hide DatedAt, Ids;
    assert FoldFirst([row], 0, owner, targets) == Folded([row], owner);
    assert !Foldable(row.id, {row.id}, targets);
  }

  lemma OneRowNormal(row: Row, defaults: map<string, Value>, tiers: Tiers, quarantine: set<string>)
    requires ModelId(row.id) && SimpleAliases(row)
    ensures Normal(OneRow(row, defaults, tiers, quarantine)).rows == [row]
    ensures Claimed(OneRow(row, defaults, tiers, quarantine)).1.errors == map[]
    ensures Ids([row]) == {row.id}
  {
    var doc := OneRow(row, defaults, tiers, quarantine);
    OneRowUsable(row);
    OneRowClaimed(row);
    assert doc.legacy.Keys == {};
    OneRowStays(row, Claimed(doc).1.owner, RoutingTargets(doc));
    hide ModelId, Usable, ClaimRows, FoldFirst, Ids;
  }

  lemma OneRowReason(row: Row, defaults: map<string, Value>, tiers: Tiers, name: string)
    requires ModelId(row.id) && row.aliases == [] && ModelId(name) && row.status == Candidate && row.priced && !row.readOnly
    ensures ReasonFor(OneRow(row, defaults, tiers, {}), Text(name)) ==
              if name != row.id then Some(UnknownModel) else if row.probed then None else Some(Unprobed)
  {
    var doc := OneRow(row, defaults, tiers, {});
    OneRowNormal(row, defaults, tiers, {});
    LookupsAgree(doc, name);
    hide Normal, ModelId, LookUp;
    assert FindRow([row][1..], name) == None;
  }

  lemma StripNewline()
    ensures PlainId("m1") && ModelId("m1\n") && Strip("m1\n") == "m1"
  {
    assert Init("m1\n") == "m1";
    assert RStrip("m1\n") == RStrip("m1") == "m1";
  }

  lemma NewlineIsLost(doc: Doc)
    requires Normal(doc).rows == [Row("m1\n", Candidate, [], false, true, true)] && doc.tiers == [] && doc.legacy == map[]
    ensures Resolve(Normalized(doc), Text("m1\n"), false) == None
  {
    StripNewline();
    hide Normal, ModelId, PlainId, Strip;
    assert Reached(doc, "m1", false) == Text("m1");
    assert FindRow(Normal(doc).rows[1..], "m1") == None;
  }

  lemma DefaultsServe(doc: Doc)
    requires doc.tiers == [] && doc.agents == map[] && doc.legacy == map[] && Claimed(doc).1.errors == map[]
    requires forall k | k in doc.defaults :: Tolerated(ReasonFor(doc, doc.defaults[k]))
    ensures Served(doc, None)
  {
    hide Claimed, ReasonFor, LegacyReason, OneTierError;
    assert SectionsRoutable(doc, None) && TiersServed(doc);
    hide SectionsRoutable, TiersServed, Served;
    ServedExactly(doc, None);
  }

  /** A target that ends in a newline passes the id pattern and names a row, but the
      resolver strips it and finds nothing. */
  lemma NewlineTargetIsServed(doc: Doc)
    requires doc == OneRow(Row("m1\n", Candidate, [], false, true, true), map["persona" := Text("m1\n")], [], {})
    ensures Served(doc, None) && Target(doc, None, Text("m1\n"))
    ensures Resolve(Normalized(doc), Text("m1\n"), false) == None
  {
    var row := doc.catalog[0].row;
    StripNewline();
    OneRowNormal(row, doc.defaults, [], {});
    OneRowReason(row, doc.defaults, [], "m1\n");
    NewlineIsLost(doc);
    hide Normal, Claimed, ModelId, PlainId, Strip, ReasonFor, LegacyReason, Resolve;
    assert doc.defaults["persona"] == Text("m1\n");
    DefaultsServe(doc);
  }

  /** A roster verdict on an agent overwrites the reason its target was refused for. */
  lemma RosterHidesAReason(doc: Doc)
    requires doc == Doc([], map[], [], map["ghost" := Text("zz")], map[], {})
    ensures Served(doc, Some({})) && ReasonFor(doc, doc.agents["ghost"]) == Some(UnknownModel)
  {
    assert PlainId("zz");
    hide DatedAt, ModelId, PlainId;
    assert Usable(doc.catalog, 0) == [] && Normal(doc).rows == [] && Normal(doc).owner == map[];
    assert Claimed(doc).1.errors == map[];
    hide Normal, Claimed, ReasonFor;
    forall path ensures Tolerated(ErrorAt(doc, Some({}), path)) {
      if "agents." <= path && After("agents.", path) in doc.agents {
        assert RosterError(doc, Some({}), path) == Some(UnknownAgent);
      }
    }
  }

  /** Two tiers whose keys and names join to one path: the later, tolerated reason hides
      that the earlier target names nothing. */
  lemma DottedTierHidesAReason(doc: Doc)
    requires doc == OneRow(Row("cc", Candidate, [], false, true, false), map[],
                           [("a", Some(map["b.c" := Text("zz")])), ("a.b", Some(map["c" := Text("cc")]))], {})
    ensures Served(doc, None) && ReasonFor(doc, doc.tiers[0].1.value["b.c"]) == Some(UnknownModel)
  {
    assert PlainId("zz") && PlainId("cc");
    var row := doc.catalog[0].row;
    OneRowNormal(row, map[], doc.tiers, {});
    OneRowReason(row, map[], doc.tiers, "zz");
    OneRowReason(row, map[], doc.tiers, "cc");
    hide Normal, Claimed, ModelId, PlainId, ReasonFor, LegacyReason, TierError;
    forall path ensures Tolerated(ErrorAt(doc, None, path)) {
      TwoTiers(doc, path);
    }
  }

  lemma TwoTiers(doc: Doc, path: string)
    requires |doc.tiers| == 2
    requires doc.tiers[0] == ("a", Some(map["b.c" := Text("zz")])) && doc.tiers[1] == ("a.b", Some(map["c" := Text("cc")]))
    requires ReasonFor(doc, Text("cc")) == Some(Unprobed)
    ensures Tolerated(TierError(doc, 2, path))
  {
    hide ReasonFor;
    assert TierError(doc, 0, path) == None;
    var first, second := TierPath("a") + ".", TierPath("a.b") + ".";
    assert first == "tiers.a." && second == "tiers.a.b.";
    if first <= path && After(first, path) == "b.c" {
      assert path == first + After(first, path);
      assert path == second + "c";
      assert After(second, path) == "c";
    }
  }

  /** The kill switch has a way around it: an environment value that is an alias of the
      listed row. */
  lemma EnvAliasGetsThrough(doc: Doc)
    requires doc == OneRow(Row("qq", Active, [Text("aa")], false, true, true), map[], [], {"qq"})
    ensures CodingModel(Normalized(doc), NotText("None"), true, ["aa"]) == "qq"
  {
    OneRowRaw(doc, "aa");
    hide Normal, Strip, ModelId, PlainId, Resolve, FromEnv;
    NothingNamed(Normalized(doc), true);
  }

  /** And a second one: a row quarantined by its status alone is answered to whoever has its
      own id in the environment, by both resolvers, on a document that is served. */
  lemma EnvIdGetsThrough(doc: Doc)
    requires doc == OneRow(Row("qq", Quarantined, [], false, true, true), map[], [], {})
    ensures Served(doc, None)
    ensures AgentModel(Normalized(doc), "", NotText("None"), "qq") == "qq"
    ensures CodingModel(Normalized(doc), NotText("None"), true, ["qq"]) == "qq"
  {
    OneRowRaw(doc, "qq");
    hide Normal, Strip, ModelId, PlainId, Resolve, FromEnv;
    NothingNamed(Normalized(doc), true);
    NothingNamed(Normalized(doc), false);
    DefaultsServe(doc);
  }

  lemma OneRowRaw(doc: Doc, name: string)
    requires (name == "aa" && doc == OneRow(Row("qq", Active, [Text("aa")], false, true, true), map[], [], {"qq"}))
             || (name == "qq" && doc == OneRow(Row("qq", Quarantined, [], false, true, true), map[], [], {}))
    ensures FindRow(Normal(doc).rows, name) == Some(doc.catalog[0].row) && Claimed(doc).1.errors == map[]
    ensures forall codex :: FromEnv(Normalized(doc), name, codex) == Some(name)
  {
    assert PlainId("aa") && PlainId("qq");
    PlainIdIsStripped(name);
    OneRowNormal(doc.catalog[0].row, map[], [], doc.quarantine);
    hide Normal, Strip, ModelId, PlainId, Claimed;
    var reg := Normalized(doc);
    forall codex ensures FromEnv(reg, name, codex) == Some(name) {
      assert Resolve(reg, Text(name), codex) == None;
    }
  }

  lemma NothingNamed(reg: Registry, codex: bool)
    requires reg.doc.defaults == map[]
    ensures FirstResolved(reg, [NotText("None"), NotText("None")], codex) == None
    ensures FirstResolved(reg, [NotText("None"), NotText("None"), NotText("None")], codex) == None
  {
    var two, three := [NotText("None"), NotText("None")], [NotText("None"), NotText("None"), NotText("None")];
    assert two[1..][1..] == [] && three[1..] == two;
    assert FirstResolved(reg, two[1..], codex) == None;
  }
}
