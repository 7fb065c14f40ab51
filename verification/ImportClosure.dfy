/** The import-closure checks of the deploy-surface manifest: a worklist over local imports
    that reports every module a lambda's zip or a harness's paths would miss. Which modules
    a file imports is given; reachability through the files that may be walked is the
    reference the loops are compared with. */
module ImportClosure {
  import opened Text

  /** The local modules each readable file imports; other files import nothing. */
  type Imports = map<string, seq<string>>

  function Next(g: Imports, name: string): seq<string> { if name in g then g[name] else [] }

  predicate UnderAny(name: string, prefixes: seq<string>) { exists k | 0 <= k < |prefixes| :: prefixes[k] <= name }

  predicate EndsWith(s: string, tail: string) { |s| >= |tail| && s[|s| - |tail|..] == tail }

  // ----- reachability -----

  /** A chain of imports from a root, through modules that are walked. */
  ghost predicate Chain(g: Imports, roots: seq<string>, stops: set<string>, path: seq<string>) {
    path != [] && path[0] in roots
    && forall i | 0 <= i < |path| - 1 :: path[i] !in stops && path[i + 1] in Next(g, path[i])
  }

  ghost predicate Reachable(g: Imports, roots: seq<string>, stops: set<string>, name: string) {
    exists path :: Chain(g, roots, stops, path) && Last(path) == name
  }

  lemma RootReachable(g: Imports, roots: seq<string>, stops: set<string>, name: string)
    requires name in roots
    ensures Reachable(g, roots, stops, name)
  {
    assert Chain(g, roots, stops, [name]) && Last([name]) == name;
  }

  lemma ImportReachable(g: Imports, roots: seq<string>, stops: set<string>, name: string, next: string)
    requires Reachable(g, roots, stops, name) && name !in stops && next in Next(g, name)
    ensures Reachable(g, roots, stops, next)
  {
    var path :| Chain(g, roots, stops, path) && Last(path) == name;
    assert Chain(g, roots, stops, path + [next]) && Last(path + [next]) == next;
  }

  /** What holds the roots and is closed under the walked imports holds all that is reachable. */
  ghost predicate Closed(g: Imports, roots: seq<string>, stops: set<string>, seen: set<string>) {
    (forall r | r in roots :: r in seen)
    && forall name, next | name in seen && name !in stops && next in Next(g, name) :: next in seen
  }

  lemma {:induction false} ClosedHoldsChain(g: Imports, roots: seq<string>, stops: set<string>, seen: set<string>,
                                            path: seq<string>)
    requires Closed(g, roots, stops, seen) && Chain(g, roots, stops, path)
    ensures Last(path) in seen
    decreases |path|
  {
    if |path| > 1 {
      assert Chain(g, roots, stops, Init(path));
      ClosedHoldsChain(g, roots, stops, seen, Init(path));
    }
  }

  function Imported(g: Imports): set<string> { set n, k | n in g && 0 <= k < |g[n]| :: g[n][k] }

  /** Every name the walk can meet. */
  function Universe(g: Imports, roots: seq<string>): set<string> {
    (set k | 0 <= k < |roots| :: roots[k]) + Imported(g)
  }

  lemma NextIn(g: Imports, roots: seq<string>, name: string)
    ensures forall next | next in Next(g, name) :: next in Universe(g, roots)
  {
    forall next | next in Next(g, name) ensures next in Imported(g) {
      var k :| 0 <= k < |g[name]| && g[name][k] == next;
    }
  }

  // ----- the worklist -----

  /** Where the walk stands: what was popped, what is queued. */
  ghost predicate Walked(g: Imports, roots: seq<string>, stops: set<string>, done: set<string>, queue: seq<string>) {
    (forall r | r in roots :: r in done || r in queue)
    && (forall name, next | name in done && name !in stops && next in Next(g, name) :: next in done || next in queue)
    && (forall name | name in done :: Reachable(g, roots, stops, name))
    && (forall name | name in queue :: Reachable(g, roots, stops, name))
    && done <= Universe(g, roots) && forall name | name in queue :: name in Universe(g, roots)
  }

  lemma WalkStarts(g: Imports, roots: seq<string>, stops: set<string>)
    ensures Walked(g, roots, stops, {}, roots)
  {
    forall name | name in roots ensures Reachable(g, roots, stops, name) {
      RootReachable(g, roots, stops, name);
    }
  }

  /** A name popped a second time. */
  lemma WalkSkips(g: Imports, roots: seq<string>, stops: set<string>, done: set<string>, queue: seq<string>)
    requires Walked(g, roots, stops, done, queue) && queue != [] && queue[0] in done
    ensures Walked(g, roots, stops, done, queue[1..])
  {
    hide Reachable;
  }

  /** A name popped for the first time, its imports queued unless the walk stops there. */
  lemma WalkAdds(g: Imports, roots: seq<string>, stops: set<string>, done: set<string>, queue: seq<string>)
    requires Walked(g, roots, stops, done, queue) && queue != []
    ensures Walked(g, roots, stops, done + {queue[0]},
                   queue[1..] + if queue[0] in stops then [] else Next(g, queue[0]))
  {
    var name := queue[0];
    NextIn(g, roots, name);
    forall next | name !in stops && next in Next(g, name) ensures Reachable(g, roots, stops, next) {
      ImportReachable(g, roots, stops, name, next);
    }
    hide Reachable, Universe, Next;
    assert forall n | n in queue[1..] :: n in queue;
    assert forall n | n in queue :: n == name || n in queue[1..];
  }

  /** When the queue is empty exactly the reachable modules were popped. */
  lemma WalkEnds(g: Imports, roots: seq<string>, stops: set<string>, done: set<string>, name: string)
    requires Walked(g, roots, stops, done, [])
    ensures name in done <==> Reachable(g, roots, stops, name)
  {
    hide Universe;
    assert Closed(g, roots, stops, done);
    hide Closed;
    if Reachable(g, roots, stops, name) {
      var path :| Chain(g, roots, stops, path) && Last(path) == name;
      ClosedHoldsChain(g, roots, stops, done, path);
    }
  }

  ghost predicate NoRepeats(s: seq<string>) { forall i, j | 0 <= i < j < |s| :: s[i] != s[j] }

  /** The report lists each such module once and nothing else. */
  ghost predicate Reports(gaps: seq<string>, done: set<string>, covered: string -> bool) {
    NoRepeats(gaps) && forall name :: name in gaps <==> name in done && !covered(name)
  }

  lemma ReportOne(gaps: seq<string>, done: set<string>, covered: string -> bool, name: string)
    requires Reports(gaps, done, covered) && name !in done
    ensures Reports(if covered(name) then gaps else gaps + [name], done + {name}, covered)
  {
  }

  // ----- a lambda's zip -----

  predicate IsDir(f: string) { EndsWith(f, "/") }

  predicate IsModule(f: string) { EndsWith(f, ".mjs") }

  function Filtered(files: seq<string>, keep: string -> bool): seq<string> {
    if files == [] then []
    else (if keep(files[0]) then [files[0]] else []) + Filtered(files[1..], keep)
  }

  predicate InZip(files: seq<string>, name: string) { name in files || UnderAny(name, Filtered(files, IsDir)) }

  /** Inside a listed directory, which ships whole, and not listed itself: not walked. */
  function ShipsUnwalked(g: Imports, files: seq<string>): set<string> {
    set n | n in Universe(g, Filtered(files, IsModule)) && UnderAny(n, Filtered(files, IsDir)) && n !in files
  }

  /** import_closure_gaps: the modules left out of the zip are exactly those reachable from
      a listed module, through walked ones, and not shipped; each is reported once. */
  method ImportClosureGaps(g: Imports, files: seq<string>) returns (gaps: seq<string>)
    ensures NoRepeats(gaps)
    ensures forall name :: name in gaps <==>
              Reachable(g, Filtered(files, IsModule), ShipsUnwalked(g, files), name) && !InZip(files, name)
  {
    hide Reachable, Filtered, Next;
    var dirs, roots := Filtered(files, IsDir), Filtered(files, IsModule);
    ghost var stops := ShipsUnwalked(g, files);
    ghost var covered := n => InZip(files, n);
    var seen: set<string>, queue := {}, roots;
    gaps := [];
    WalkStarts(g, roots, stops);
    while queue != []
      invariant Walked(g, roots, stops, seen, queue) && Reports(gaps, seen, covered)
      decreases Universe(g, roots) - seen, |queue|
    {
      var name := queue[0];
      if name in seen {
        WalkSkips(g, roots, stops, seen, queue);
        queue := queue[1..];
        continue;
      }
      WalkAdds(g, roots, stops, seen, queue);
      ReportOne(gaps, seen, covered, name);
      queue := queue[1..];
      seen := seen + {name};
      if name !in files && !UnderAny(name, dirs) {
        gaps := gaps + [name];
      }
      if UnderAny(name, dirs) && name !in files {
        assert queue + [] == queue;
        continue;
      }
      queue := queue + Next(g, name);
    }
    forall name ensures name in gaps <==> Reachable(g, roots, stops, name) && !InZip(files, name) {
      WalkEnds(g, roots, stops, seen, name);
    }
  }

  // ----- a harness's paths -----

  predicate IsTest(f: string) { EndsWith(f, ".test.mjs") }

  function Tests(g: Imports, script: string): set<string> {
    set n | n in Universe(g, [script]) && IsTest(n)
  }

  /** harness_import_closure_gaps: exactly the modules, tests aside, that the script reaches
      without passing through a test, and that no path covers; each once. */
  method HarnessImportClosureGaps(g: Imports, script: string, paths: seq<string>) returns (gaps: seq<string>)
    ensures NoRepeats(gaps)
    ensures forall name :: name in gaps <==>
              Reachable(g, [script], Tests(g, script), name) && !IsTest(name) && !UnderAny(name, paths)
  {
    var seen: set<string>, queue := {}, [script];
    gaps := [];
    ghost var stops := Tests(g, script);
    ghost var covered := n => IsTest(n) || UnderAny(n, paths);
    ghost var done: set<string> := {};
    WalkStarts(g, queue, stops);
    while queue != []
      invariant Walked(g, [script], stops, done, queue) && Reports(gaps, done, covered)
      invariant forall n :: n in seen <==> n in done && !IsTest(n)
      decreases Universe(g, [script]) - done, |queue|
    {
      var rel := queue[0];
      if rel in seen || IsTest(rel) {
        if rel in done {
          WalkSkips(g, [script], stops, done, queue);
        } else {
          WalkAdds(g, [script], stops, done, queue);
          ReportOne(gaps, done, covered, rel);
          done := done + {rel};
          assert queue[1..] + [] == queue[1..];
        }
        queue := queue[1..];
        continue;
      }
      WalkAdds(g, [script], stops, done, queue);
      ReportOne(gaps, done, covered, rel);
      queue := queue[1..];
      seen := seen + {rel};
      done := done + {rel};
      if !UnderAny(rel, paths) {
        gaps := gaps + [rel];
      }
      queue := queue + Next(g, rel);
    }
    forall name ensures name in gaps <==>
              Reachable(g, [script], stops, name) && !IsTest(name) && !UnderAny(name, paths)
    {
      WalkEnds(g, [script], stops, done, name);
    }
  }
}
