/** The model registry document and its normal form: usable rows, aliases with one owner
    each, and dated snapshots folded into the model they are snapshots of. */
module ModelRegistry {
  import opened Text

  // ----- the document -----

  /** A JSON value where the registry expects a string; `shown` is how a message prints it. */
  datatype Value = Text(text: string) | NotText(shown: string)

  datatype Status = Active | Candidate | Retired | Quarantined

  /** What the algorithms read of a catalog row. `probed`: both probe planes answered ok. */
  datatype Row = Row(id: string, status: Status, aliases: seq<Value>, readOnly: bool, priced: bool, probed: bool)

  /** A row of the document: not an object, or with a status, region or aliases field of the
      wrong shape; or a row whose id is yet to be checked. */
  datatype RawRow = Malformed | Raw(row: Row)

  /** Objects of the document are maps; `tiers` keeps its order, and a tier map that is not
      an object is None. Absent objects are empty. */
  datatype Doc = Doc(catalog: seq<RawRow>, defaults: map<string, Value>,
                     tiers: seq<(string, Option<map<string, Value>>)>,
                     agents: map<string, Value>, legacy: map<string, Value>, quarantine: set<string>)

  datatype Reason = BadModelId | IsQuarantined | UnknownModel | ReadOnly | Inactive | Unpriced | Unprobed
                  | DuplicateAlias | UnknownAgent | NotAnObject

  // ----- ids -----

  predicate AlphaNumeric(c: char) { 'A' <= c <= 'Z' || 'a' <= c <= 'z' || '0' <= c <= '9' }

  predicate IdChar(c: char) { AlphaNumeric(c) || c in {'.', '_', ':', '-'} }

  predicate PlainId(s: string) {
    2 <= |s| <= 128 && AlphaNumeric(s[0]) && forall k | 1 <= k < |s| :: IdChar(s[k])
  }

  /** MODEL_ID_RE.match: the pattern's end also matches before a final newline. */
  predicate ModelId(s: string) { PlainId(s) || (s != "" && Last(s) == '\n' && PlainId(Init(s))) }

  predicate Digits(s: string) { s != "" && forall k | 0 <= k < |s| :: '0' <= s[k] <= '9' }

  /** -dddddddd, and then nothing, -vN or -vN:N. */
  predicate DateTail(s: string) {
    |s| >= 9 && s[0] == '-' && Digits(s[1..9])
    && (|s| == 9
        || ("-v" <= s[9..]
            && (Digits(s[11..]) || exists k | 11 <= k < |s| :: s[k] == ':' && Digits(s[11..k]) && Digits(s[k + 1..]))))
  }

  predicate DatedAt(id: string, k: nat)
    requires k <= |id|
  {
    '\n' !in id[..k] && (DateTail(id[k..]) || (k < |id| && Last(id) == '\n' && DateTail(Init(id[k..]))))
  }

  /** DATED_DUPLICATE_RE's first group: the longest front that leaves such a tail. */
  function DatedBase(id: string, upTo: nat): (base: Option<string>)
    requires upTo <= |id|
    ensures base.Some? ==> |base.value| < |id|
  {
    if DatedAt(id, upTo) then Some(id[..upTo]) else if upTo == 0 then None else DatedBase(id, upTo - 1)
  }

  // ----- the first pass: usable rows -----

  ghost predicate HasId(rows: seq<Row>, id: string) { exists i | 0 <= i < |rows| :: rows[i].id == id }

  function Ids(rows: seq<Row>): set<string> { set i | 0 <= i < |rows| :: rows[i].id }

  /** The first n rows of the catalog, without malformed rows and repeated ids. */
  function Usable(catalog: seq<RawRow>, n: nat): seq<Row>
    requires n <= |catalog|
  {
    if n == 0 then []
    else
      var rows := Usable(catalog, n - 1);
      if catalog[n - 1].Raw? && ModelId(catalog[n - 1].row.id) && catalog[n - 1].row.id !in Ids(rows)
      then rows + [catalog[n - 1].row] else rows
  }

  ghost predicate Distinct(rows: seq<Row>) {
    forall i, j | 0 <= i < j < |rows| :: rows[i].id != rows[j].id
  }

  lemma {:induction false} UsableDistinct(catalog: seq<RawRow>, n: nat)
    requires n <= |catalog|
    ensures Distinct(Usable(catalog, n))
    ensures forall i | 0 <= i < |Usable(catalog, n)| :: ModelId(Usable(catalog, n)[i].id)
  {
    hide ModelId;
    if n > 0 {
      UsableDistinct(catalog, n - 1);
    }
  }

  // ----- the second pass: one owner per alias -----

  /** claimed, alias_owner and the errors so far. */
  datatype Claims = Claims(claimed: map<string, string>, owner: map<string, string>, errors: map<string, Reason>)

  function AliasPath(id: string, alias: Value): string {
    "catalog." + id + ".aliases." + if alias.Text? then alias.text else alias.shown
  }

  predicate AliasKept(id: string, alias: Value, legacy: set<string>, c: Claims) {
    alias.Text? && ModelId(alias.text)
    && (alias.text in c.claimed ==> c.claimed[alias.text] == id)
    && alias.text !in legacy
  }

  function ClaimOne(id: string, alias: Value, legacy: set<string>, c: Claims): Claims {
    if !(alias.Text? && ModelId(alias.text)) then c.(errors := c.errors[AliasPath(id, alias) := BadModelId])
    else if alias.text in c.claimed && c.claimed[alias.text] != id then
      c.(errors := c.errors[AliasPath(id, alias) := DuplicateAlias])
    else if alias.text in legacy then c
    else Claims(c.claimed[alias.text := id], c.owner[alias.text := id], c.errors)
  }

  /** A row's aliases from the k-th on: those kept, and the claims after them. */
  function ClaimRest(id: string, aliases: seq<Value>, k: nat, legacy: set<string>, c: Claims): (seq<Value>, Claims)
    requires k <= |aliases|
    decreases |aliases| - k
  {
    if k == |aliases| then ([], c)
    else
      var rest := ClaimRest(id, aliases, k + 1, legacy, ClaimOne(id, aliases[k], legacy, c));
      ((if AliasKept(id, aliases[k], legacy, c) then [aliases[k]] else []) + rest.0, rest.1)
  }

  /** The first n rows with the aliases they keep, and the claims after them. */
  function ClaimRows(rows: seq<Row>, n: nat, legacy: set<string>): (seq<Row>, Claims)
    requires n <= |rows|
  {
    if n == 0 then ([], Claims(map id | id in Ids(rows) :: id, map[], map[]))
    else
      var done := ClaimRows(rows, n - 1, legacy);
      var kept := ClaimRest(rows[n - 1].id, rows[n - 1].aliases, 0, legacy, done.1);
      (done.0 + [rows[n - 1].(aliases := kept.0)], kept.1)
  }

  // ----- the third pass: dated snapshots -----

  predicate Foldable(id: string, ids: set<string>, targets: set<string>) {
    id !in targets
    && var base := DatedBase(id, |id|); base.Some? && base.value in ids
  }

  datatype Folded = Folded(rows: seq<Row>, owner: map<string, string>)

  function IndexById(rows: seq<Row>, id: string): (i: nat)
    requires id in Ids(rows)
    ensures i < |rows| && rows[i].id == id
  {
    if rows[0].id == id then 0 else
      assert forall k | 0 <= k < |rows| && rows[k].id == id :: rows[1..][k - 1] == rows[k];
      1 + IndexById(rows[1..], id)
  }

  function Without(rows: seq<Row>, id: string): (r: seq<Row>)
    ensures forall i | 0 <= i < |r| :: r[i].id != id
  {
    if rows == [] then []
    else (if rows[0].id == id then [] else [rows[0]]) + Without(rows[1..], id)
  }

  function AddAlias(rows: seq<Row>, i: nat, alias: string): seq<Row>
    requires i < |rows|
  {
    rows[i := rows[i].(aliases := rows[i].aliases + [Text(alias)])]
  }

  function FoldOne(f: Folded, id: string, targets: set<string>): Folded {
    if !Foldable(id, Ids(f.rows), targets) then f
    else
      var base := DatedBase(id, |id|).value;
      if id in f.owner then f.(rows := Without(f.rows, id))
      else Folded(Without(AddAlias(f.rows, IndexById(f.rows, base), id), id), f.owner[id := base])
  }

  /** After the first n rows of the list as it was before any fold. */
  function FoldFirst(order: seq<Row>, n: nat, owner: map<string, string>, targets: set<string>): Folded
    requires n <= |order|
  {
    if n == 0 then Folded(order, owner) else FoldOne(FoldFirst(order, n - 1, owner, targets), order[n - 1].id, targets)
  }

  /** _routing_targets */
  function TargetsOf(m: map<string, Value>): set<string> {
    set k | k in m && m[k].Text? && m[k].text != "" :: m[k].text
  }

  function TierTargets(tiers: seq<(string, Option<map<string, Value>>)>): set<string> {
    if tiers == [] then {}
    else (if tiers[0].1.Some? then TargetsOf(tiers[0].1.value) else {}) + TierTargets(tiers[1..])
  }

  function RoutingTargets(doc: Doc): set<string> {
    TargetsOf(doc.defaults) + TargetsOf(doc.agents) + TargetsOf(doc.legacy) + TierTargets(doc.tiers)
  }

  // ----- the normal form -----

  function UsableRows(doc: Doc): seq<Row> { Usable(doc.catalog, |doc.catalog|) }

  /** Rows, alias owners and errors before dated snapshots are folded. */
  function Claimed(doc: Doc): (seq<Row>, Claims) {
    ClaimRows(UsableRows(doc), |UsableRows(doc)|, doc.legacy.Keys)
  }

  function Normal(doc: Doc): Folded {
    var claimed := Claimed(doc);
    FoldFirst(claimed.0, |claimed.0|, claimed.1.owner, RoutingTargets(doc))
  }

  // ----- every name has one row -----

  predicate HasName(row: Row, name: string) { row.id == name || Text(name) in row.aliases }

  /** Ids are distinct; an alias is on the row that owns it and on no other; and a row's id
      is nobody else's alias. */
  ghost predicate Indexed(rows: seq<Row>, owner: map<string, string>) {
    Distinct(rows)
    && (forall i, a | 0 <= i < |rows| && a in rows[i].aliases ::
          a.Text? && ModelId(a.text) && a.text in owner && owner[a.text] == rows[i].id)
    && (forall i, a | 0 <= i < |rows| && a in owner && owner[a] == rows[i].id :: Text(a) in rows[i].aliases)
    && (forall i | 0 <= i < |rows| && rows[i].id in owner :: owner[rows[i].id] == rows[i].id)
    && (forall i | 0 <= i < |rows| :: ModelId(rows[i].id))
  }

  // ----- the alias pass gives every alias one owner -----

  /** Every row claims its own id, and an alias is claimed by its owner. */
  ghost predicate ClaimsOk(rows: seq<Row>, c: Claims) {
    (forall i | 0 <= i < |rows| :: rows[i].id in c.claimed && c.claimed[rows[i].id] == rows[i].id)
    && forall a | a in c.owner :: a in c.claimed && c.claimed[a] == c.owner[a]
  }

  /** What a row's aliases add to the claims: entries of its own, nothing taken away. */
  ghost predicate Added(c: Claims, id: string, kept: seq<Value>, c': Claims) {
    (forall a | a in c.claimed :: a in c'.claimed && c'.claimed[a] == c.claimed[a])
    && (forall a | a in c.owner :: a in c'.owner && c'.owner[a] == c.owner[a])
    && (forall a | a in c'.owner :: (a in c.owner && c.owner[a] == c'.owner[a]) || (c'.owner[a] == id && Text(a) in kept))
    && (forall a | a in kept :: a.Text? && ModelId(a.text) && a.text in c'.owner && c'.owner[a.text] == id)
  }

  lemma ClaimOneAdds(rows: seq<Row>, id: string, alias: Value, legacy: set<string>, c: Claims)
    requires ClaimsOk(rows, c)
    ensures var c' := ClaimOne(id, alias, legacy, c);
            ClaimsOk(rows, c') && Added(c, id, if AliasKept(id, alias, legacy, c) then [alias] else [], c')
  {
    hide ModelId, AliasPath;
  }

  lemma AddedThen(c: Claims, id: string, k1: seq<Value>, c1: Claims, k2: seq<Value>, c2: Claims)
    requires Added(c, id, k1, c1) && Added(c1, id, k2, c2)
    ensures Added(c, id, k1 + k2, c2)
  {
    hide ModelId;
  }

  lemma {:induction false} ClaimRestAdds(rows: seq<Row>, id: string, aliases: seq<Value>, k: nat, legacy: set<string>,
                                         c: Claims)
    requires k <= |aliases| && ClaimsOk(rows, c)
    ensures var kept := ClaimRest(id, aliases, k, legacy, c);
            ClaimsOk(rows, kept.1) && Added(c, id, kept.0, kept.1)
    decreases |aliases| - k
  {
    hide ClaimsOk, Added, ClaimOne, AliasKept;
    if k == |aliases| {
      NothingAdded(c, id);
    } else {
      var c' := ClaimOne(id, aliases[k], legacy, c);
      ClaimOneAdds(rows, id, aliases[k], legacy, c);
      ClaimRestAdds(rows, id, aliases, k + 1, legacy, c');
      var rest := ClaimRest(id, aliases, k + 1, legacy, c');
      AddedThen(c, id, if AliasKept(id, aliases[k], legacy, c) then [aliases[k]] else [], c', rest.0, rest.1);
    }
  }

  lemma NothingAdded(c: Claims, id: string)
    ensures Added(c, id, [], c)
  {
  }

  /** The rows done so far own exactly the aliases they list. */
  ghost predicate OwnersListed(done: seq<Row>, rows: seq<Row>, c: Claims) {
    |done| <= |rows|
    && (forall i | 0 <= i < |done| :: done[i].id == rows[i].id)
    && (forall i, a | 0 <= i < |done| && a in done[i].aliases ::
          a.Text? && ModelId(a.text) && a.text in c.owner && c.owner[a.text] == done[i].id)
    && (forall a | a in c.owner :: exists i | 0 <= i < |done| :: done[i].id == c.owner[a] && Text(a) in done[i].aliases)
  }

  lemma OneMoreRow(done: seq<Row>, rows: seq<Row>, c: Claims, row: Row, c': Claims)
    requires OwnersListed(done, rows, c) && |done| < |rows| && row.id == rows[|done|].id
    requires Added(c, row.id, row.aliases, c')
    ensures OwnersListed(done + [row], rows, c')
  {
    hide ModelId;
    var all := done + [row];
    forall a | a in c'.owner ensures exists i | 0 <= i < |all| :: all[i].id == c'.owner[a] && Text(a) in all[i].aliases {
      if a in c.owner && c.owner[a] == c'.owner[a] {
        var i :| 0 <= i < |done| && done[i].id == c.owner[a] && Text(a) in done[i].aliases;
        assert all[i] == done[i];
      } else {
        assert all[|done|] == row;
      }
    }
  }

  lemma {:induction false} ClaimRowsOk(rows: seq<Row>, n: nat, legacy: set<string>)
    requires n <= |rows|
    ensures var done := ClaimRows(rows, n, legacy);
            |done.0| == n && ClaimsOk(rows, done.1) && OwnersListed(done.0, rows, done.1)
  {
    hide ClaimsOk, OwnersListed, Added, ClaimRest;
    if n == 0 {
      FirstClaims(rows);
    } else {
      ClaimRowsOk(rows, n - 1, legacy);
      var done := ClaimRows(rows, n - 1, legacy);
      var kept := ClaimRest(rows[n - 1].id, rows[n - 1].aliases, 0, legacy, done.1);
      ClaimRestAdds(rows, rows[n - 1].id, rows[n - 1].aliases, 0, legacy, done.1);
      OneMoreRow(done.0, rows, done.1, rows[n - 1].(aliases := kept.0), kept.1);
    }
  }

  lemma FirstClaims(rows: seq<Row>)
    ensures var c := Claims(map id | id in Ids(rows) :: id, map[], map[]);
            ClaimsOk(rows, c) && OwnersListed([], rows, c)
  {
    forall i | 0 <= i < |rows| ensures rows[i].id in Ids(rows) {
    }
  }

  lemma ListedIndexed(done: seq<Row>, rows: seq<Row>, c: Claims)
    requires OwnersListed(done, rows, c) && |done| == |rows| && ClaimsOk(rows, c) && Distinct(rows)
    requires forall i | 0 <= i < |rows| :: ModelId(rows[i].id)
    ensures Indexed(done, c.owner)
  {
    hide ModelId;
    assert Distinct(done);
    forall i, a | 0 <= i < |done| && a in c.owner && c.owner[a] == done[i].id ensures Text(a) in done[i].aliases {
      var j :| 0 <= j < |done| && done[j].id == c.owner[a] && Text(a) in done[j].aliases;
      assert i == j;
    }
    forall i | 0 <= i < |done| && done[i].id in c.owner ensures c.owner[done[i].id] == done[i].id {
      assert c.claimed[rows[i].id] == rows[i].id;
    }
  }

  lemma ClaimedIndexed(doc: Doc)
    ensures Indexed(Claimed(doc).0, Claimed(doc).1.owner)
    ensures |Claimed(doc).0| == |UsableRows(doc)|
    ensures forall i | 0 <= i < |UsableRows(doc)| :: Claimed(doc).0[i].id == UsableRows(doc)[i].id
  {
    var rows := UsableRows(doc);
    UsableDistinct(doc.catalog, |doc.catalog|);
    ClaimRowsOk(rows, |rows|, doc.legacy.Keys);
    var done := ClaimRows(rows, |rows|, doc.legacy.Keys);
    hide ModelId, ClaimRows, Usable, ClaimsOk, Indexed;
    ListedIndexed(done.0, rows, done.1);
  }

  // ----- folding keeps it so -----

  lemma {:induction false} WithoutMember(rows: seq<Row>, id: string, row: Row)
    ensures row in Without(rows, id) <==> row in rows && row.id != id
  {
    if rows != [] {
      WithoutMember(rows[1..], id, row);
      assert row in rows <==> row == rows[0] || row in rows[1..];
    }
  }

  lemma {:induction false} WithoutDistinct(rows: seq<Row>, id: string)
    requires Distinct(rows)
    ensures Distinct(Without(rows, id))
  {
    if rows != [] {
      WithoutDistinct(rows[1..], id);
      var rest := Without(rows[1..], id);
      forall i | 0 <= i < |rest| ensures rest[i].id != rows[0].id {
        WithoutMember(rows[1..], id, rest[i]);
      }
    }
  }

  /** The row is dropped; its id, if nobody lists it yet, becomes the base's alias. */
  lemma FoldOneIndexed(f: Folded, id: string, targets: set<string>)
    requires Indexed(f.rows, f.owner) && ModelId(id)
    ensures var f' := FoldOne(f, id, targets); Indexed(f'.rows, f'.owner)
  {
    hide ModelId;
    if Foldable(id, Ids(f.rows), targets) {
      if id in f.owner {
        DropIndexed(f.rows, f.owner, id);
      } else {
        var base := DatedBase(id, |id|).value;
        var b := IndexById(f.rows, base);
        AliasThenDrop(f.rows, f.owner, id, b);
      }
    }
  }

  /** Indexed, but the row named id may be someone's alias by now. */
  ghost predicate IndexedExcept(rows: seq<Row>, owner: map<string, string>, id: string) {
    Distinct(rows)
    && (forall i, a | 0 <= i < |rows| && a in rows[i].aliases ::
          a.Text? && ModelId(a.text) && a.text in owner && owner[a.text] == rows[i].id)
    && (forall i, a | 0 <= i < |rows| && a in owner && owner[a] == rows[i].id :: Text(a) in rows[i].aliases)
    && (forall i | 0 <= i < |rows| && rows[i].id in owner && rows[i].id != id :: owner[rows[i].id] == rows[i].id)
    && (forall i | 0 <= i < |rows| :: ModelId(rows[i].id))
  }

  lemma DropIndexed(rows: seq<Row>, owner: map<string, string>, id: string)
    requires IndexedExcept(rows, owner, id)
    ensures Indexed(Without(rows, id), owner)
  {
    hide ModelId;
    var left := Without(rows, id);
    WithoutDistinct(rows, id);
    forall i | 0 <= i < |left| ensures left[i] in rows {
      WithoutMember(rows, id, left[i]);
    }
    hide Without;
  }

  lemma AliasGrown(rows: seq<Row>, owner: map<string, string>, id: string, b: nat)
    requires Indexed(rows, owner) && ModelId(id) && id !in owner && b < |rows| && rows[b].id != id
    ensures IndexedExcept(AddAlias(rows, b, id), owner[id := rows[b].id], id)
  {
    hide ModelId;
    var grown, owner' := AddAlias(rows, b, id), owner[id := rows[b].id];
    forall i, a | 0 <= i < |rows| && a in grown[i].aliases
      ensures a.Text? && ModelId(a.text) && a.text in owner' && owner'[a.text] == rows[i].id
    {
      assert a in rows[i].aliases || (i == b && a == Text(id));
    }
    forall i, a | 0 <= i < |rows| && a in owner' && owner'[a] == rows[i].id ensures Text(a) in grown[i].aliases {
      if a == id {
        assert i == b;
        assert grown[b].aliases == rows[b].aliases + [Text(id)];
      }
    }
  }

  lemma AliasThenDrop(rows: seq<Row>, owner: map<string, string>, id: string, b: nat)
    requires Indexed(rows, owner) && ModelId(id) && id !in owner && b < |rows| && rows[b].id != id
    ensures Indexed(Without(AddAlias(rows, b, id), id), owner[id := rows[b].id])
  {
    AliasGrown(rows, owner, id, b);
    hide Indexed, IndexedExcept, AddAlias;
    DropIndexed(AddAlias(rows, b, id), owner[id := rows[b].id], id);
  }

  lemma {:induction false} FoldIndexed(order: seq<Row>, n: nat, owner: map<string, string>, targets: set<string>)
    requires n <= |order| && Indexed(order, owner)
    ensures var f := FoldFirst(order, n, owner, targets); Indexed(f.rows, f.owner)
  {
    hide ModelId;
    if n > 0 {
      FoldIndexed(order, n - 1, owner, targets);
      assert ModelId(order[n - 1].id);
      hide Indexed, FoldOne;
      FoldOneIndexed(FoldFirst(order, n - 1, owner, targets), order[n - 1].id, targets);
    }
  }

  /** In every normal form an id or alias names at most one row. */
  lemma NameHasOneRow(doc: Doc, i: nat, j: nat, name: string)
    requires i < j < |Normal(doc).rows|
    ensures Indexed(Normal(doc).rows, Normal(doc).owner)
    ensures !(HasName(Normal(doc).rows[i], name) && HasName(Normal(doc).rows[j], name))
  {
    ClaimedIndexed(doc);
    FoldIndexed(Claimed(doc).0, |Claimed(doc).0|, Claimed(doc).1.owner, RoutingTargets(doc));
    hide ModelId, Normal;
    var f := Normal(doc);
    assert f.rows[i].id != f.rows[j].id;
  }

  // ----- the two lookups agree -----

  /** _find_row: the first row with the name. */
  function FindRow(rows: seq<Row>, name: string): Option<Row> {
    if rows == [] then None
    else if rows[0].id == name || Text(name) in rows[0].aliases then Some(rows[0])
    else FindRow(rows[1..], name)
  }

  /** The index the validator walks: by id, else by the alias's owner. */
  function LookUp(rows: seq<Row>, owner: map<string, string>, name: string): Option<Row> {
    if name in Ids(rows) then Some(rows[IndexById(rows, name)])
    else if name in owner && owner[name] in Ids(rows) then Some(rows[IndexById(rows, owner[name])])
    else None
  }

  lemma {:induction false} FindRowIs(rows: seq<Row>, name: string)
    ensures FindRow(rows, name).Some? ==> FindRow(rows, name).value in rows && HasName(FindRow(rows, name).value, name)
    ensures FindRow(rows, name).None? ==> forall i | 0 <= i < |rows| :: !HasName(rows[i], name)
  {
    if rows != [] {
      FindRowIs(rows[1..], name);
      assert forall i | 1 <= i < |rows| :: rows[i] == rows[1..][i - 1];
    }
  }

  lemma LookUpIs(rows: seq<Row>, owner: map<string, string>, name: string)
    requires Indexed(rows, owner)
    ensures var r := LookUp(rows, owner, name);
            && (r.Some? ==> r.value in rows && HasName(r.value, name))
            && (r.None? ==> forall i | 0 <= i < |rows| :: !HasName(rows[i], name))
  {
    hide ModelId;
    forall i | 0 <= i < |rows| && HasName(rows[i], name) ensures LookUp(rows, owner, name).Some? {
      if rows[i].id != name {
        assert Text(name) in rows[i].aliases;
        assert owner[name] == rows[i].id;
      }
    }
  }

  lemma OneNamed(rows: seq<Row>, owner: map<string, string>, p: Row, q: Row, name: string)
    requires Indexed(rows, owner) && p in rows && q in rows && HasName(p, name) && HasName(q, name)
    ensures p == q
  {
    hide ModelId;
    var i :| 0 <= i < |rows| && rows[i] == p;
    var j :| 0 <= j < |rows| && rows[j] == q;
    assert rows[i].id == rows[j].id;
  }

  /** The resolver's linear walk and the validator's index find the same row. */
  lemma LookupsAgree(doc: Doc, name: string)
    ensures FindRow(Normal(doc).rows, name) == LookUp(Normal(doc).rows, Normal(doc).owner, name)
  {
    NormalIndexed(doc);
    hide Normal, Indexed, HasName;
    var f := Normal(doc);
    FindRowIs(f.rows, name);
    LookUpIs(f.rows, f.owner, name);
    if FindRow(f.rows, name).Some? && LookUp(f.rows, f.owner, name).Some? {
      OneNamed(f.rows, f.owner, FindRow(f.rows, name).value, LookUp(f.rows, f.owner, name).value, name);
    }
  }

  lemma NormalIndexed(doc: Doc)
    ensures Indexed(Normal(doc).rows, Normal(doc).owner)
  {
    ClaimedIndexed(doc);
    hide Indexed, Claimed;
    FoldIndexed(Claimed(doc).0, |Claimed(doc).0|, Claimed(doc).1.owner, RoutingTargets(doc));
  }

  // ----- normalising again -----

  /** The document with its rows replaced by normal ones. */
  function WithRows(doc: Doc, rows: seq<Row>): Doc {
    doc.(catalog := seq(|rows|, i requires 0 <= i < |rows| => Raw(rows[i])))
  }

  lemma {:induction false} UsableAgain(doc: Doc, rows: seq<Row>, n: nat)
    requires Distinct(rows) && n <= |rows| && forall i | 0 <= i < |rows| :: ModelId(rows[i].id)
    ensures Usable(WithRows(doc, rows).catalog, n) == rows[..n]
  {
    hide ModelId;
    if n > 0 {
      UsableAgain(doc, rows, n - 1);
      var front := rows[..n - 1];
      assert rows[..n] == front + [rows[n - 1]];
      assert forall i | 0 <= i < |front| :: front[i] == rows[i] && front[i].id != rows[n - 1].id;
    }
  }

  /** The claims hold no name of this row for anyone else. */
  ghost predicate FreeFor(c: Claims, row: Row) {
    forall a | a in row.aliases :: a.Text? && ModelId(a.text) && (a.text in c.claimed ==> c.claimed[a.text] == row.id)
  }

  function NotLegacy(aliases: seq<Value>, k: nat, legacy: set<string>): seq<Value>
    requires k <= |aliases|
    decreases |aliases| - k
  {
    if k == |aliases| then []
    else (if aliases[k].Text? && aliases[k].text in legacy then [] else [aliases[k]]) + NotLegacy(aliases, k + 1, legacy)
  }

  /** All its aliases are kept but those that are legacy names, and only it claims them. */
  lemma {:induction false} ClaimFree(row: Row, k: nat, legacy: set<string>, c: Claims)
    requires k <= |row.aliases| && FreeFor(c, row)
    ensures var kept := ClaimRest(row.id, row.aliases, k, legacy, c);
            kept.0 == NotLegacy(row.aliases, k, legacy)
            && forall a | a in kept.1.claimed :: (a in c.claimed && c.claimed[a] == kept.1.claimed[a])
                                                 || (kept.1.claimed[a] == row.id && Text(a) in row.aliases)
    decreases |row.aliases| - k
  {
    hide ModelId, AliasPath;
    if k < |row.aliases| {
      ClaimFree(row, k + 1, legacy, ClaimOne(row.id, row.aliases[k], legacy, c));
    }
  }

  function AllNotLegacy(rows: seq<Row>, n: nat, legacy: set<string>): seq<Row>
    requires n <= |rows|
  {
    if n == 0 then []
    else AllNotLegacy(rows, n - 1, legacy) + [rows[n - 1].(aliases := NotLegacy(rows[n - 1].aliases, 0, legacy))]
  }

  /** Every claim so far is a row's own id, or an alias that row lists. */
  ghost predicate ClaimsListed(rows: seq<Row>, c: Claims) {
    forall a | a in c.claimed ::
      exists i | 0 <= i < |rows| :: c.claimed[a] == rows[i].id && HasName(rows[i], a)
  }

  lemma ListedFree(rows: seq<Row>, owner: map<string, string>, c: Claims, n: nat)
    requires Indexed(rows, owner) && ClaimsListed(rows, c) && n < |rows|
    ensures FreeFor(c, rows[n])
  {
    hide ModelId;
    forall a | a in rows[n].aliases ensures a.Text? && ModelId(a.text) && (a.text in c.claimed ==> c.claimed[a.text] == rows[n].id) {
      if a.text in c.claimed {
        var i :| 0 <= i < |rows| && c.claimed[a.text] == rows[i].id && HasName(rows[i], a.text);
        OneNamed(rows, owner, rows[i], rows[n], a.text);
      }
    }
  }

  lemma {:induction false} ClaimRowsAgain(rows: seq<Row>, owner: map<string, string>, n: nat, legacy: set<string>)
    requires Indexed(rows, owner) && n <= |rows|
    ensures ClaimRows(rows, n, legacy).0 == AllNotLegacy(rows, n, legacy)
    ensures ClaimsListed(rows, ClaimRows(rows, n, legacy).1)
  {
    hide Indexed, ClaimRest, FreeFor, NotLegacy;
    if n > 0 {
      ClaimRowsAgain(rows, owner, n - 1, legacy);
      var c := ClaimRows(rows, n - 1, legacy).1;
      ListedFree(rows, owner, c, n - 1);
      ClaimFree(rows[n - 1], 0, legacy, c);
      var c' := ClaimRows(rows, n, legacy).1;
      assert c' == ClaimRest(rows[n - 1].id, rows[n - 1].aliases, 0, legacy, c).1;
      forall a | a in c'.claimed ensures exists i | 0 <= i < |rows| :: c'.claimed[a] == rows[i].id && HasName(rows[i], a) {
        if !(a in c.claimed && c.claimed[a] == c'.claimed[a]) {
          assert c'.claimed[a] == rows[n - 1].id && HasName(rows[n - 1], a);
        }
      }
    }
  }

  lemma {:induction false} WithoutIds(rows: seq<Row>, id: string)
    ensures Ids(Without(rows, id)) == Ids(rows) - {id}
  {
    forall x ensures x in Ids(Without(rows, id)) <==> x in Ids(rows) - {id} {
      if x in Ids(Without(rows, id)) {
        var i :| 0 <= i < |Without(rows, id)| && Without(rows, id)[i].id == x;
        WithoutMember(rows, id, Without(rows, id)[i]);
      }
      if x in Ids(rows) - {id} {
        var i :| 0 <= i < |rows| && rows[i].id == x;
        WithoutMember(rows, id, rows[i]);
      }
    }
  }

  lemma AddAliasIds(rows: seq<Row>, b: nat, alias: string)
    requires b < |rows|
    ensures Ids(AddAlias(rows, b, alias)) == Ids(rows)
  {
    var grown := AddAlias(rows, b, alias);
    assert forall i | 0 <= i < |rows| :: grown[i].id == rows[i].id;
    forall x | x in Ids(rows) ensures x in Ids(grown) {
      var i :| 0 <= i < |rows| && rows[i].id == x;
      assert grown[i].id == x;
    }
  }

  lemma FoldOneIds(f: Folded, id: string, targets: set<string>)
    ensures Ids(FoldOne(f, id, targets).rows) ==
            if Foldable(id, Ids(f.rows), targets) then Ids(f.rows) - {id} else Ids(f.rows)
  {
    hide Ids, DatedBase;
    if Foldable(id, Ids(f.rows), targets) {
      if id in f.owner {
        WithoutIds(f.rows, id);
      } else {
        var b := IndexById(f.rows, DatedBase(id, |id|).value);
        WithoutIds(AddAlias(f.rows, b, id), id);
        AddAliasIds(f.rows, b, id);
      }
    }
  }

  /** What was looked at and is still there cannot be folded any more: ids only go away. */
  lemma {:induction false} FoldSettles(order: seq<Row>, n: nat, owner: map<string, string>, targets: set<string>)
    requires n <= |order|
    ensures var ids := Ids(FoldFirst(order, n, owner, targets).rows);
            ids <= Ids(order)
            && forall k | 0 <= k < n :: order[k].id in ids ==> !Foldable(order[k].id, ids, targets)
  {
    hide FoldOne, DatedBase;
    if n > 0 {
      FoldSettles(order, n - 1, owner, targets);
      FoldOneIds(FoldFirst(order, n - 1, owner, targets), order[n - 1].id, targets);
      hide Ids;
    }
  }

  lemma {:induction false} FoldNothing(order: seq<Row>, n: nat, owner: map<string, string>, targets: set<string>)
    requires n <= |order| && forall k | 0 <= k < |order| :: !Foldable(order[k].id, Ids(order), targets)
    ensures FoldFirst(order, n, owner, targets) == Folded(order, owner)
  {
    hide Ids, Foldable;
    if n > 0 {
      FoldNothing(order, n - 1, owner, targets);
    }
  }

  lemma {:induction false} AllNotLegacyIs(rows: seq<Row>, n: nat, legacy: set<string>)
    requires n <= |rows|
    ensures var done := AllNotLegacy(rows, n, legacy);
            |done| == n
            && forall i | 0 <= i < n :: done[i] == rows[i].(aliases := NotLegacy(rows[i].aliases, 0, legacy))
  {
    if n > 0 {
      AllNotLegacyIs(rows, n - 1, legacy);
    }
  }

  lemma {:induction false} NotLegacyIs(aliases: seq<Value>, k: nat, legacy: set<string>)
    requires k <= |aliases|
    ensures NotLegacy(aliases, k, legacy) == aliases[k..] <==>
            forall j | k <= j < |aliases| :: aliases[j].Text? ==> aliases[j].text !in legacy
    ensures |NotLegacy(aliases, k, legacy)| <= |aliases| - k
    decreases |aliases| - k
  {
    if k < |aliases| {
      NotLegacyIs(aliases, k + 1, legacy);
      assert aliases[k..] == [aliases[k]] + aliases[k + 1..];
      if aliases[k].Text? && aliases[k].text in legacy {
        assert |NotLegacy(aliases, k, legacy)| < |aliases[k..]|;
      } else {
        assert NotLegacy(aliases, k, legacy)[1..] == NotLegacy(aliases, k + 1, legacy);
        assert aliases[k..][1..] == aliases[k + 1..];
      }
    }
  }

  ghost predicate NoLegacyAlias(rows: seq<Row>, legacy: set<string>) {
    forall i, j | 0 <= i < |rows| && 0 <= j < |rows[i].aliases| ::
      rows[i].aliases[j].Text? ==> rows[i].aliases[j].text !in legacy
  }

  lemma NoLegacyMeansSame(rows: seq<Row>, legacy: set<string>)
    ensures AllNotLegacy(rows, |rows|, legacy) == rows <==> NoLegacyAlias(rows, legacy)
  {
    AllNotLegacyIs(rows, |rows|, legacy);
    forall i | 0 <= i < |rows|
      ensures NotLegacy(rows[i].aliases, 0, legacy) == rows[i].aliases <==>
              forall j | 0 <= j < |rows[i].aliases| :: rows[i].aliases[j].Text? ==> rows[i].aliases[j].text !in legacy
    {
      NotLegacyIs(rows[i].aliases, 0, legacy);
      assert rows[i].aliases[0..] == rows[i].aliases;
    }
    hide AllNotLegacy, NotLegacy;
  }

  /** A second pass over a normal form drops the aliases that are legacy names and does
      nothing else. */
  lemma RowsAgain(doc: Doc)
    ensures Normal(WithRows(doc, Normal(doc).rows)).rows
         == AllNotLegacy(Normal(doc).rows, |Normal(doc).rows|, doc.legacy.Keys)
  {
    var f := Normal(doc);
    var again := WithRows(doc, f.rows);
    var targets := RoutingTargets(doc);
    NormalIndexed(doc);
    UsableAgain(doc, f.rows, |f.rows|);
    assert f.rows[..|f.rows|] == f.rows;
    ClaimRowsAgain(f.rows, f.owner, |f.rows|, doc.legacy.Keys);
    var order := AllNotLegacy(f.rows, |f.rows|, doc.legacy.Keys);
    AllNotLegacyIs(f.rows, |f.rows|, doc.legacy.Keys);
    SameIds(f.rows, order);
    NormalSettled(doc);
    hide ModelId, Foldable, Indexed, FoldFirst, ClaimRows, Usable, AllNotLegacy, Normal, Ids;
    FoldNothing(order, |order|, Claimed(again).1.owner, targets);
    NormalIs(again);
  }

  lemma NormalIs(doc: Doc)
    ensures Normal(doc) == FoldFirst(Claimed(doc).0, |Claimed(doc).0|, Claimed(doc).1.owner, RoutingTargets(doc))
  {
  }

  lemma SameIds(p: seq<Row>, q: seq<Row>)
    requires |p| == |q| && forall i | 0 <= i < |p| :: p[i].id == q[i].id
    ensures Ids(p) == Ids(q)
  {
    forall x ensures x in Ids(p) <==> x in Ids(q) {
      if x in Ids(p) {
        var i :| 0 <= i < |p| && p[i].id == x;
        assert q[i].id == x;
      }
    }
  }

  lemma NormalSettled(doc: Doc)
    ensures var rows := Normal(doc).rows;
            forall i | 0 <= i < |rows| :: !Foldable(rows[i].id, Ids(rows), RoutingTargets(doc))
  {
    var order, rows := Claimed(doc).0, Normal(doc).rows;
    FoldSettles(order, |order|, Claimed(doc).1.owner, RoutingTargets(doc));
    forall i | 0 <= i < |rows| ensures !Foldable(rows[i].id, Ids(rows), RoutingTargets(doc)) {
      assert rows[i].id in Ids(rows);
      var k :| 0 <= k < |order| && order[k].id == rows[i].id;
    }
  }

  /** Normalising a normal form changes no row, exactly when none of its aliases is a
      legacyAliases key. */
  lemma NormalAgain(doc: Doc)
    ensures Normal(WithRows(doc, Normal(doc).rows)).rows == Normal(doc).rows
            <==> NoLegacyAlias(Normal(doc).rows, doc.legacy.Keys)
  {
    RowsAgain(doc);
    NoLegacyMeansSame(Normal(doc).rows, doc.legacy.Keys);
  }

  // ----- what folding changes -----

  /** The row is p with more aliases, each the id of a row folded into it. */
  ghost predicate GrewFrom(p: Row, row: Row, was: set<string>, ids: set<string>, targets: set<string>) {
    row == p.(aliases := row.aliases)
    && forall a | a in row.aliases ::
         a in p.aliases
         || (a.Text? && a.text in was && a.text !in ids && a.text !in targets
             && DatedBase(a.text, |a.text|) == Some(row.id))
  }

  ghost predicate Grew(order: seq<Row>, row: Row, ids: set<string>, targets: set<string>) {
    exists k | 0 <= k < |order| :: GrewFrom(order[k], row, Ids(order), ids, targets)
  }

  ghost predicate AllGrew(order: seq<Row>, rows: seq<Row>, targets: set<string>) {
    forall i | 0 <= i < |rows| :: Grew(order, rows[i], Ids(rows), targets)
  }

  lemma StillGrew(order: seq<Row>, row: Row, ids: set<string>, targets: set<string>, fewer: set<string>)
    requires Grew(order, row, ids, targets) && fewer <= ids
    ensures Grew(order, row, fewer, targets)
  {
    hide DatedBase, Ids;
    var k :| 0 <= k < |order| && GrewFrom(order[k], row, Ids(order), ids, targets);
    assert GrewFrom(order[k], row, Ids(order), fewer, targets);
  }

  lemma OneMoreAlias(order: seq<Row>, row: Row, ids: set<string>, targets: set<string>, id: string)
    requires Grew(order, row, ids, targets) && id in Ids(order) && id !in targets && id !in ids
    requires DatedBase(id, |id|) == Some(row.id)
    ensures Grew(order, row.(aliases := row.aliases + [Text(id)]), ids, targets)
  {
    hide DatedBase, Ids;
    var k :| 0 <= k < |order| && GrewFrom(order[k], row, Ids(order), ids, targets);
    assert GrewFrom(order[k], row.(aliases := row.aliases + [Text(id)]), Ids(order), ids, targets);
  }

  lemma DropGrew(order: seq<Row>, rows: seq<Row>, targets: set<string>, id: string)
    requires AllGrew(order, rows, targets)
    ensures AllGrew(order, Without(rows, id), targets)
  {
    hide DatedBase, Ids, Grew;
    var left := Without(rows, id);
    WithoutIds(rows, id);
    forall i | 0 <= i < |left| ensures Grew(order, left[i], Ids(left), targets) {
      WithoutMember(rows, id, left[i]);
      var j :| 0 <= j < |rows| && rows[j] == left[i];
      StillGrew(order, rows[j], Ids(rows), targets, Ids(left));
    }
  }

  lemma AliasGrew(order: seq<Row>, rows: seq<Row>, targets: set<string>, id: string, b: nat)
    requires AllGrew(order, rows, targets) && id in Ids(order) && id !in targets
    requires b < |rows| && DatedBase(id, |id|) == Some(rows[b].id)
    ensures AllGrew(order, Without(AddAlias(rows, b, id), id), targets)
  {
    hide DatedBase, Ids, Grew;
    var grown := AddAlias(rows, b, id);
    var left := Without(grown, id);
    WithoutIds(grown, id);
    AddAliasIds(rows, b, id);
    forall i | 0 <= i < |left| ensures Grew(order, left[i], Ids(left), targets) {
      WithoutMember(grown, id, left[i]);
      var j :| 0 <= j < |grown| && grown[j] == left[i];
      StillGrew(order, rows[j], Ids(rows), targets, Ids(left));
      if j == b {
        OneMoreAlias(order, rows[b], Ids(left), targets, id);
      }
    }
  }

  lemma {:induction false} FoldGrew(order: seq<Row>, n: nat, owner: map<string, string>, targets: set<string>)
    requires n <= |order|
    ensures AllGrew(order, FoldFirst(order, n, owner, targets).rows, targets)
  {
    hide AllGrew, Ids, DatedBase;
    if n == 0 {
      AllGrewAtFirst(order, targets);
    } else {
      FoldGrew(order, n - 1, owner, targets);
      var f, id := FoldFirst(order, n - 1, owner, targets), order[n - 1].id;
      IdIn(order, n - 1);
      if Foldable(id, Ids(f.rows), targets) {
        if id in f.owner {
          DropGrew(order, f.rows, targets, id);
        } else {
          AliasGrew(order, f.rows, targets, id, IndexById(f.rows, DatedBase(id, |id|).value));
        }
      }
    }
  }

  lemma IdIn(rows: seq<Row>, i: nat)
    requires i < |rows|
    ensures rows[i].id in Ids(rows)
  {
  }

  lemma GrewFromItself(p: Row, was: set<string>, ids: set<string>, targets: set<string>)
    ensures GrewFrom(p, p, was, ids, targets)
  {
  }

  lemma AllGrewAtFirst(order: seq<Row>, targets: set<string>)
    ensures AllGrew(order, order, targets)
  {
    forall i | 0 <= i < |order| ensures Grew(order, order[i], Ids(order), targets) {
      GrewFromItself(order[i], Ids(order), Ids(order), targets);
    }
  }

  /** Folding never changes what a routing target finds: a row the target names after
      folding is, but for folded ids among its aliases, the row it named before. */
  lemma FoldingKeepsTargets(doc: Doc, target: string)
    requires target in RoutingTargets(doc) && FindRow(Normal(doc).rows, target).Some?
    ensures var before := FindRow(Claimed(doc).0, target);
            var after := FindRow(Normal(doc).rows, target).value;
            before.Some? && after == before.value.(aliases := after.aliases)
  {
    var order, rows := Claimed(doc).0, Normal(doc).rows;
    var after := FindRow(rows, target).value;
    FindRowIs(rows, target);
    FindRowIs(order, target);
    ClaimedIndexed(doc);
    FoldGrew(order, |order|, Claimed(doc).1.owner, RoutingTargets(doc));
    NormalIs(doc);
    hide Normal, Claimed, Indexed, RoutingTargets, Ids, DatedBase, FoldFirst;
    var i :| 0 <= i < |rows| && rows[i] == after;
    assert Grew(order, rows[i], Ids(rows), RoutingTargets(doc));
    var k :| 0 <= k < |order| && GrewFrom(order[k], rows[i], Ids(order), Ids(rows), RoutingTargets(doc));
    assert HasName(order[k], target);
    OneNamed(order, Claimed(doc).1.owner, order[k], FindRow(order, target).value, target);
  }

  lemma {:induction false} KeptNotLegacy(id: string, aliases: seq<Value>, k: nat, legacy: set<string>, c: Claims)
    requires k <= |aliases|
    ensures forall a | a in ClaimRest(id, aliases, k, legacy, c).0 :: a.Text? && a.text !in legacy
    decreases |aliases| - k
  {
    hide ModelId, ClaimOne;
    if k < |aliases| {
      KeptNotLegacy(id, aliases, k + 1, legacy, ClaimOne(id, aliases[k], legacy, c));
    }
  }

  lemma {:induction false} ClaimedNotLegacy(rows: seq<Row>, n: nat, legacy: set<string>)
    requires n <= |rows|
    ensures forall i, a | 0 <= i < |ClaimRows(rows, n, legacy).0| && a in ClaimRows(rows, n, legacy).0[i].aliases ::
              a.Text? && a.text !in legacy
  {
    hide ClaimRest;
    if n > 0 {
      ClaimedNotLegacy(rows, n - 1, legacy);
      KeptNotLegacy(rows[n - 1].id, rows[n - 1].aliases, 0, legacy, ClaimRows(rows, n - 1, legacy).1);
    }
  }

  /** An alias of a normal row that is a legacyAliases key is the id of a dated snapshot
      folded into that row: what NormalAgain excludes happens no other way. */
  lemma LegacyAliasIsFolded(doc: Doc, i: nat, a: Value)
    requires i < |Normal(doc).rows| && a in Normal(doc).rows[i].aliases && a.Text? && a.text in doc.legacy
    ensures a.text in Ids(UsableRows(doc)) && a.text !in Ids(Normal(doc).rows)
    ensures DatedBase(a.text, |a.text|) == Some(Normal(doc).rows[i].id)
  {
    var order, rows := Claimed(doc).0, Normal(doc).rows;
    ClaimedNotLegacy(UsableRows(doc), |UsableRows(doc)|, doc.legacy.Keys);
    ClaimedIndexed(doc);
    SameIds(order, UsableRows(doc));
    FoldGrew(order, |order|, Claimed(doc).1.owner, RoutingTargets(doc));
    NormalIs(doc);
    hide Normal, Indexed, RoutingTargets, Ids, DatedBase, FoldFirst, ClaimRows;
    assert Grew(order, rows[i], Ids(rows), RoutingTargets(doc));
    var k :| 0 <= k < |order| && GrewFrom(order[k], rows[i], Ids(order), Ids(rows), RoutingTargets(doc));
    assert a !in order[k].aliases;
  }

  // ----- a legacy name that is a snapshot's id -----

  lemma {:induction false} DatedBaseIs(id: string, k: nat, upTo: nat)
    requires k <= upTo <= |id| && DatedAt(id, k) && forall m | k < m <= upTo :: !DatedAt(id, m)
    ensures DatedBase(id, upTo) == Some(id[..k])
    decreases upTo
  {
    hide DatedAt;
    if k < upTo {
      assert !DatedAt(id, upTo);
      DatedBaseIs(id, k, upTo - 1);
    }
  }

  /** A row and a snapshot of it that nothing routes at: one row is left, with the
      snapshot's id for an alias. */
  lemma SnapshotFolds(p: Row, q: Row, targets: set<string>)
    requires p.id in targets && q.id !in targets && DatedBase(q.id, |q.id|) == Some(p.id)
    ensures FoldFirst([p, q], 2, map[], targets).rows == [p.(aliases := p.aliases + [Text(q.id)])]
  {
    hide DatedBase;
    var order := [p, q];
    assert FoldFirst(order, 0, map[], targets) == Folded(order, map[]);
    assert FoldFirst(order, 1, map[], targets) == Folded(order, map[]);
    assert order[0].id in Ids(order) && order[1].id in Ids(order);
    assert IndexById(order, p.id) == 0;
    var grown := AddAlias(order, 0, q.id);
    assert grown[1..] == [q] && [q][1..] == [];
    assert Without([q], q.id) == [];
    assert Without(grown, q.id) == [grown[0]];
  }

  lemma TwoUsable(p: Row, q: Row)
    requires ModelId(p.id) && ModelId(q.id) && p.id != q.id
    ensures Usable([Raw(p), Raw(q)], 2) == [p, q]
  {
    hide ModelId;
    var catalog := [Raw(p), Raw(q)];
    assert Usable(catalog, 0) == [];
    assert Usable(catalog, 1) == [p];
  }

  lemma TwoClaimed(p: Row, q: Row, legacy: set<string>)
    requires p.aliases == [] && q.aliases == []
    ensures ClaimRows([p, q], 2, legacy).0 == [p, q] && ClaimRows([p, q], 2, legacy).1.owner == map[]
  {
    hide ModelId, AliasPath;
    var zero := ClaimRows([p, q], 0, legacy);
    assert zero.0 == [] && zero.1.owner == map[];
    assert ClaimRest(p.id, [], 0, legacy, zero.1).0 == [];
    assert p.(aliases := []) == p && q.(aliases := []) == q;
    var one := ClaimRows([p, q], 1, legacy);
    assert one.0 == [p] && one.1 == zero.1;
    assert ClaimRest(q.id, [], 0, legacy, one.1).0 == [];
  }

  lemma TargetsOfFew(k: string, v: string)
    requires v != ""
    ensures TargetsOf(map[]) == {} && TargetsOf(map[k := Text(v)]) == {v}
  {
    var m := map[k := Text(v)];
    assert k in m && m[k] == Text(v);
  }

  lemma ShortTail(id: string, m: nat)
    requires m <= |id| < m + 9 && id != "" && Last(id) != '\n'
    ensures !DatedAt(id, m)
  {
  }

  lemma SnapshotDate(id: string)
    requires id == "mm-20250101"
    ensures DatedAt(id, 2) && id[..2] == "mm"
  {
    assert id[2..] == "-20250101";
  }

  lemma SnapshotId(id: string)
    requires id == "mm-20250101"
    ensures ModelId("mm") && ModelId(id) && DatedBase(id, |id|) == Some("mm")
  {
    assert PlainId("mm") && PlainId(id);
    SnapshotDate(id);
    hide ModelId, PlainId, DatedAt, DateTail;
    forall m | 2 < m <= |id| ensures !DatedAt(id, m) {
      ShortTail(id, m);
    }
    DatedBaseIs(id, 2, |id|);
  }

  /** So a document with such a legacy name normalises to rows that normalise once more. */
  lemma LegacySnapshotNotSettled(doc: Doc, p: Row, q: Row)
    requires p == Row("mm", Active, [], false, true, true) && q == Row("mm-20250101", Active, [], false, true, true)
    requires doc == Doc([Raw(p), Raw(q)], map[], [], map[], map["mm-20250101" := Text("mm")], {})
    ensures Normal(WithRows(doc, Normal(doc).rows)).rows != Normal(doc).rows
  {
    SnapshotId(q.id);
    TwoUsable(p, q);
    TwoClaimed(p, q, doc.legacy.Keys);
    hide ModelId, DatedBase, Usable, ClaimRows, FoldFirst, TargetsOf;
    TargetsOfFew("mm-20250101", "mm");
    assert TierTargets([]) == {};
    assert RoutingTargets(doc) == {"mm"};
    hide RoutingTargets;
    SnapshotFolds(p, q, {"mm"});
    var row := Normal(doc).rows[0];
    assert row.aliases[0] == Text(q.id) && q.id in doc.legacy.Keys;
    assert !NoLegacyAlias(Normal(doc).rows, doc.legacy.Keys);
    NormalAgain(doc);
  }

  // ----- the parse -----

  lemma UsableNext(catalog: seq<RawRow>, n: nat)
    requires n < |catalog|
    ensures var rows := Usable(catalog, n);
            var raw := catalog[n];
            Usable(catalog, n + 1) ==
              if raw.Raw? && ModelId(raw.row.id) && raw.row.id !in Ids(rows) then rows + [raw.row] else rows
  {
  }

  lemma IdsPlus(rows: seq<Row>, row: Row)
    ensures Ids(rows + [row]) == Ids(rows) + {row.id}
  {
    var all := rows + [row];
    forall x | x in Ids(rows) ensures x in Ids(all) {
      var i :| 0 <= i < |rows| && rows[i].id == x;
      assert all[i].id == x;
    }
    assert all[|rows|] == row;
  }

  method CollectRows(catalog: seq<RawRow>) returns (rows: seq<Row>, seenIds: set<string>)
    ensures rows == Usable(catalog, |catalog|) && seenIds == Ids(rows)
  {
    hide ModelId, Usable, Ids;
    rows, seenIds := [], {};
    NothingUsable(catalog);
    for idx := 0 to |catalog|
      invariant rows == Usable(catalog, idx) && seenIds == Ids(rows)
    {
      UsableNext(catalog, idx);
      match catalog[idx] {
        case Malformed =>
        case Raw(row) =>
          if ModelId(row.id) && row.id !in seenIds {
            IdsPlus(rows, row);
            seenIds := seenIds + {row.id};
            rows := rows + [row];
          }
      }
    }
  }

  lemma NothingUsable(catalog: seq<RawRow>)
    ensures Usable(catalog, 0) == [] && Ids([]) == {}
  {
  }

  /** One row's aliases. */
  method ClaimAliases(id: string, aliases: seq<Value>, legacy: set<string>, before: Claims)
    returns (kept: seq<Value>, c: Claims)
    ensures kept == ClaimRest(id, aliases, 0, legacy, before).0 && c == ClaimRest(id, aliases, 0, legacy, before).1
  {
    hide ModelId, AliasPath;
    c := before;
    kept := [];
    for k := 0 to |aliases|
      invariant ClaimRest(id, aliases, 0, legacy, before).0 == kept + ClaimRest(id, aliases, k, legacy, c).0
      invariant ClaimRest(id, aliases, 0, legacy, before).1 == ClaimRest(id, aliases, k, legacy, c).1
    {
      var alias := aliases[k];
      var rest := ClaimRest(id, aliases, k + 1, legacy, ClaimOne(id, alias, legacy, c));
      AppendAssociates(kept, if AliasKept(id, alias, legacy, c) then [alias] else [], rest.0);
      if !(alias.Text? && ModelId(alias.text)) {
        c := c.(errors := c.errors[AliasPath(id, alias) := BadModelId]);
        continue;
      }
      if alias.text in c.claimed && c.claimed[alias.text] != id {
        c := c.(errors := c.errors[AliasPath(id, alias) := DuplicateAlias]);
        continue;
      }
      if alias.text in legacy {
        continue;
      }
      c := Claims(c.claimed[alias.text := id], c.owner[alias.text := id], c.errors);
      kept := kept + [alias];
    }
    assert kept + [] == kept;
  }

  /** _parse_registry, for a document that is an object with a catalog list. */
  method ParseRegistry(doc: Doc) returns (rows: seq<Row>, aliasOwner: map<string, string>, errors: map<string, Reason>)
    ensures Folded(rows, aliasOwner) == Normal(doc)
    ensures errors == Claimed(doc).1.errors
  {
    hide ModelId, Usable, ClaimRest, FoldOne;
    var usable, seenIds := CollectRows(doc.catalog);
    var c := Claims(map id | id in seenIds :: id, map[], map[]);
    rows := [];
    for n := 0 to |usable|
      invariant (rows, c) == ClaimRows(usable, n, doc.legacy.Keys)
    {
      var kept;
      kept, c := ClaimAliases(usable[n].id, usable[n].aliases, doc.legacy.Keys, c);
      rows := rows + [usable[n].(aliases := kept)];
    }
    var order := rows;
    aliasOwner := c.owner;
    errors := c.errors;
    var targets := RoutingTargets(doc);
    for n := 0 to |order|
      invariant Folded(rows, aliasOwner) == FoldFirst(order, n, c.owner, targets)
    {
      rows, aliasOwner := FoldRow(rows, aliasOwner, order[n].id, targets);
    }
  }

  method FoldRow(before: seq<Row>, ownerBefore: map<string, string>, id: string, targets: set<string>)
    returns (rows: seq<Row>, aliasOwner: map<string, string>)
    ensures Folded(rows, aliasOwner) == FoldOne(Folded(before, ownerBefore), id, targets)
  {
    hide Ids, Without, AddAlias, DatedAt;
    rows, aliasOwner := before, ownerBefore;
    if id in targets {
      return;
    }
    var base := DatedBase(id, |id|);
    if base.Some? && base.value in Ids(rows) {
      if id !in aliasOwner {
        var b := IndexById(rows, base.value);
        rows := AddAlias(rows, b, id);
        aliasOwner := aliasOwner[id := base.value];
      }
      rows := Without(rows, id);
    }
  }
}
