/** Two selections the runtime makes under caps: the artifacts a turn sends home,
    smallest first, and the dependency copies a VM evicts, newest kept. Each is a
    loop over a sorted list; what it selects is compared with every other choice
    the caps would have allowed, or with a second run of the loop. */
module Selection {
  import opened Text

  // ----- the artifact harvest -----

  datatype Artifact = Artifact(path: string, bytes: nat)

  function Sum(s: seq<Artifact>): nat {
    if s == [] then 0 else Last(s).bytes + Sum(Init(s))
  }

  ghost predicate Ascending(s: seq<Artifact>) {
    forall i, j | 0 <= i < j < |s| :: s[i].bytes <= s[j].bytes
  }

  /** Insert after every artifact of the same size or smaller: the sort is stable. */
  function Insert(s: seq<Artifact>, a: Artifact): (r: seq<Artifact>)
    ensures multiset(r) == multiset(s) + multiset{a}
  {
    if s == [] || Last(s).bytes <= a.bytes then s + [a]
    else
      assert s == Init(s) + [Last(s)];
      Insert(Init(s), a) + [Last(s)]
  }

  /** out.sort(key=bytes) */
  function BySize(s: seq<Artifact>): (r: seq<Artifact>)
    ensures multiset(r) == multiset(s)
  {
    if s == [] then []
    else
      assert s == Init(s) + [Last(s)];
      Insert(BySize(Init(s)), Last(s))
  }

  lemma {:induction false} InsertAscending(s: seq<Artifact>, a: Artifact)
    requires Ascending(s)
    ensures Ascending(Insert(s, a))
    ensures forall k | 0 <= k < |Insert(s, a)| ::
              Insert(s, a)[k] == a || exists i | 0 <= i < |s| :: s[i] == Insert(s, a)[k]
  {
    if s != [] && a.bytes < Last(s).bytes {
      InsertAscending(Init(s), a);
      var front := Insert(Init(s), a);
      forall k | 0 <= k < |front| ensures front[k].bytes <= Last(s).bytes {
        assert front[k] == a || exists i | 0 <= i < |Init(s)| :: Init(s)[i] == front[k];
      }
      forall k | 0 <= k < |Insert(s, a)|
        ensures Insert(s, a)[k] == a || exists i | 0 <= i < |s| :: s[i] == Insert(s, a)[k]
      {
        if k < |front| && front[k] != a {
          var i :| 0 <= i < |Init(s)| && Init(s)[i] == front[k];
          assert s[i] == Insert(s, a)[k];
        } else if k == |front| {
          assert s[|s| - 1] == Insert(s, a)[k];
        }
      }
    }
  }

  lemma {:induction false} BySizeAscending(s: seq<Artifact>)
    ensures Ascending(BySize(s))
  {
    if s != [] {
      BySizeAscending(Init(s));
      InsertAscending(BySize(Init(s)), Last(s));
    }
  }

  /** A selection the caps allow. */
  predicate Fits(s: seq<Artifact>, countCap: nat, totalCap: nat) { |s| <= countCap && Sum(s) <= totalCap }

  lemma {:induction false} SumPrefixGrows(s: seq<Artifact>, i: nat, j: nat)
    requires i <= j <= |s|
    ensures Sum(s[..i]) <= Sum(s[..j])
    decreases j
  {
    if i < j {
      assert Init(s[..j]) == s[..j - 1];
      SumPrefixGrows(s, i, j - 1);
    }
  }

  lemma SumAppend(s: seq<Artifact>, a: Artifact)
    ensures Sum(s + [a]) == Sum(s) + a.bytes
  {
    assert Init(s + [a]) == s;
  }

  lemma {:induction false} SumRemove(s: seq<Artifact>, k: nat)
    requires k < |s|
    ensures Sum(s) == Sum(s[..k] + s[k + 1..]) + s[k].bytes
    decreases |s|
  {
    if k == |s| - 1 {
      assert s[..k] + s[k + 1..] == Init(s);
    } else {
      SumRemove(Init(s), k);
      assert s[..k] + s[k + 1..] == (Init(s)[..k] + Init(s)[k + 1..]) + [Last(s)];
      SumAppend(Init(s)[..k] + Init(s)[k + 1..], Last(s));
    }
  }

  /** No choice of m artifacts is smaller in total than the first m in size order. */
  lemma {:induction false} FirstAreSmallest(s: seq<Artifact>, chosen: seq<Artifact>)
    requires Ascending(s) && multiset(chosen) <= multiset(s)
    ensures |chosen| <= |s| && Sum(s[..|chosen|]) <= Sum(chosen)
    decreases |s|
  {
    hide Sum;
    if s == [] {
      assert |multiset(chosen)| == |chosen|;
      assert s[..|chosen|] == chosen;
    } else if multiset(chosen) <= multiset(Init(s)) {
      FirstAreSmallest(Init(s), chosen);
      assert Init(s)[..|chosen|] == s[..|chosen|];
    } else {
      var k := IndexOf(chosen, s);
      var others := chosen[..k] + chosen[k + 1..];
      OthersComeBefore(s, chosen, k);
      FirstAreSmallest(Init(s), others);
      SumRemove(chosen, k);
      var m := |chosen|;
      assert Init(s)[..m - 1] == s[..m - 1] && s[..m] == s[..m - 1] + [s[m - 1]];
      SumAppend(s[..m - 1], s[m - 1]);
    }
  }

  lemma OthersComeBefore(s: seq<Artifact>, chosen: seq<Artifact>, k: nat)
    requires s != [] && multiset(chosen) <= multiset(s) && k < |chosen| && chosen[k] == Last(s)
    ensures multiset(chosen[..k] + chosen[k + 1..]) <= multiset(Init(s))
  {
    assert s == Init(s) + [Last(s)];
    var others := chosen[..k] + chosen[k + 1..];
    assert chosen == chosen[..k] + [chosen[k]] + chosen[k + 1..];
    assert multiset(chosen) == multiset(others) + multiset{Last(s)};
    assert multiset(s) == multiset(Init(s)) + multiset{Last(s)};
    WithoutOne(multiset(others), multiset(Init(s)), Last(s));
  }

  lemma WithoutOne(a: multiset<Artifact>, b: multiset<Artifact>, x: Artifact)
    requires a + multiset{x} <= b + multiset{x}
    ensures a <= b
  {
    forall y | y in a ensures a[y] <= b[y] {
      assert (a + multiset{x})[y] <= (b + multiset{x})[y];
    }
  }

  /** What is chosen from s but not from its front includes its last. */
  lemma IndexOf(chosen: seq<Artifact>, s: seq<Artifact>) returns (k: nat)
    requires s != [] && multiset(chosen) <= multiset(s) && !(multiset(chosen) <= multiset(Init(s)))
    ensures k < |chosen| && chosen[k] == Last(s)
  {
    assert s == Init(s) + [Last(s)];
    assert multiset(s) == multiset(Init(s)) + multiset{Last(s)};
    assert Last(s) in multiset(chosen);
    k :| 0 <= k < |chosen| && chosen[k] == Last(s);
  }

  /** The kept artifacts of a list already in size order: as many as the caps let in. */
  ghost predicate Harvested(sorted: seq<Artifact>, kept: seq<Artifact>, countCap: nat, totalCap: nat) {
    kept <= sorted && Fits(kept, countCap, totalCap)
    && (|kept| < |sorted| ==> !Fits(sorted[..|kept| + 1], countCap, totalCap))
  }

  lemma LaterIsNoSmaller(sorted: seq<Artifact>, n: nat, i: nat)
    requires Ascending(sorted) && n <= i < |sorted|
    ensures sorted[n].bytes <= sorted[i].bytes
  {
  }

  /** _detect_cloud_artifacts, from its sort on. The loop skips what does not fit and goes
      on; since sizes only grow, what it keeps is still a prefix of the size order. */
  method Harvest(found: seq<Artifact>, countCap: nat, totalCap: nat) returns (kept: seq<Artifact>)
    ensures Harvested(BySize(found), kept, countCap, totalCap)
  {
    hide BySize, Sum, Ascending;
    var sorted := BySize(found);
    BySizeAscending(found);
    kept := [];
    var running := 0;
    NothingWeighsNothing();
    for i := 0 to |sorted|
      invariant |kept| <= i && kept == sorted[..|kept|]
      invariant running == Sum(kept) && |kept| <= countCap && running <= totalCap
      invariant |kept| < i ==> |kept| >= countCap || running + sorted[|kept|].bytes > totalCap
    {
      LaterIsNoSmaller(sorted, |kept|, i);
      var c := sorted[i];
      if |kept| >= countCap || running + c.bytes > totalCap {
        continue;
      }
      SumAppend(kept, c);
      kept := kept + [c];
      running := running + c.bytes;
    }
    if |kept| < |sorted| {
      assert sorted[..|kept| + 1] == kept + [sorted[|kept|]];
      SumAppend(kept, sorted[|kept|]);
    }
  }

  lemma NothingWeighsNothing()
    ensures Sum([]) == 0
  {
  }

  /** The harvest is optimal: no selection of the candidates within both caps has more
      files than it keeps. */
  lemma HarvestIsOptimal(found: seq<Artifact>, kept: seq<Artifact>, chosen: seq<Artifact>, countCap: nat, totalCap: nat)
    requires Harvested(BySize(found), kept, countCap, totalCap)
    requires multiset(chosen) <= multiset(found) && Fits(chosen, countCap, totalCap)
    ensures |chosen| <= |kept|
  {
    var sorted := BySize(found);
    BySizeAscending(found);
    FirstAreSmallest(sorted, chosen);
    if |kept| < |chosen| {
      SumPrefixGrows(sorted, |kept| + 1, |chosen|);
    }
  }

  // ----- eviction of a VM's extracted copies -----

  /** `held`: the copy being published, or one that a checkout links to. */
  datatype Extracted = Extracted(name: string, mtime: int, held: bool)

  predicate Evicted(newestFirst: seq<Extracted>, i: nat, keep: int)
    requires i < |newestFirst|
  {
    keep > 0 && i >= keep && !newestFirst[i].held
  }

  function Survivors(newestFirst: seq<Extracted>, upTo: nat, keep: int): seq<Extracted>
    requires upTo <= |newestFirst|
  {
    if upTo == 0 then []
    else Survivors(newestFirst, upTo - 1, keep)
         + if Evicted(newestFirst, upTo - 1, keep) then [] else [newestFirst[upTo - 1]]
  }

  /** _sweep_deps_local over its sorted entries: what is left on the disk. */
  method SweepDepsLocal(newestFirst: seq<Extracted>, keep: int) returns (left: seq<Extracted>)
    ensures left == Survivors(newestFirst, |newestFirst|, keep)
  {
    if keep <= 0 {
      AllSurvive(newestFirst, |newestFirst|, keep);
      return newestFirst;
    }
    left := [];
    var kept := 0;
    for i := 0 to |newestFirst|
      invariant kept == i && left == Survivors(newestFirst, i, keep)
    {
      var entry := newestFirst[i];
      kept := kept + 1;
      if entry.held || kept <= keep {
        left := left + [entry];
      }
    }
  }

  lemma {:induction false} AllSurvive(newestFirst: seq<Extracted>, upTo: nat, keep: int)
    requires upTo <= |newestFirst| && forall i: nat | i < upTo :: !Evicted(newestFirst, i, keep)
    ensures Survivors(newestFirst, upTo, keep) == newestFirst[..upTo]
  {
    if upTo > 0 {
      AllSurvive(newestFirst, upTo - 1, keep);
      assert newestFirst[..upTo] == newestFirst[..upTo - 1] + [newestFirst[upTo - 1]];
    }
  }

  /** The first `keep` entries survive in place, and what survives after them is held. */
  lemma {:induction false} SurvivorsShape(newestFirst: seq<Extracted>, upTo: nat, keep: int)
    requires upTo <= |newestFirst| && keep > 0
    ensures var left := Survivors(newestFirst, upTo, keep);
            && (if upTo <= keep then left == newestFirst[..upTo] else newestFirst[..keep] <= left)
            && forall k | keep <= k < |left| :: left[k].held
  {
    if upTo > 0 {
      SurvivorsShape(newestFirst, upTo - 1, keep);
      assert newestFirst[..upTo] == newestFirst[..upTo - 1] + [newestFirst[upTo - 1]];
    }
  }

  /** A second sweep evicts nothing, and an entry is only evicted while `keep` survivors
      are at least as new. */
  lemma SweepSettles(newestFirst: seq<Extracted>, keep: int, evicted: nat)
    requires keep > 0 && forall i, j | 0 <= i < j < |newestFirst| :: newestFirst[i].mtime >= newestFirst[j].mtime
    requires evicted < |newestFirst| && Evicted(newestFirst, evicted, keep)
    ensures var left := Survivors(newestFirst, |newestFirst|, keep);
            && Survivors(left, |left|, keep) == left
            && |left| >= keep && forall k | 0 <= k < keep :: left[k].mtime >= newestFirst[evicted].mtime
  {
    SurvivorsShape(newestFirst, |newestFirst|, keep);
    var left := Survivors(newestFirst, |newestFirst|, keep);
    AllSurvive(left, |left|, keep);
    assert left[..|left|] == left;
    forall k | 0 <= k < keep ensures left[k].mtime >= newestFirst[evicted].mtime {
      assert left[k] == newestFirst[..keep][k] == newestFirst[k];
    }
  }
}
