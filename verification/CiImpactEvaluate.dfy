/** The impact selector as it runs, and what its results have in common over all change sets. */
module CiImpactEvaluate {
  import opened Support
  import opened CiImpact

  // ---------- the loops ----------

  method FullResult(fs: Files, m: Manifest, changed: seq<string>, reason: string) returns (r: Impact)
    ensures r.changedFiles == changed && r.fallbackReason == reason
    ensures r.testMatrix == m.services && r.buildMatrix == m.services
    ensures (r.hasTests <==> m.services != []) && (r.hasBuilds <==> m.services != [])
    ensures r.requiresProtoCheck <==> exists f :: f in changed && fs.agentProto(fs.clean(f))
  {
    var requiresProtoCheck := false;
    for i := 0 to |changed|
      invariant !requiresProtoCheck && forall j :: 0 <= j < i ==> !fs.agentProto(fs.clean(changed[j]))
    {
      if fs.agentProto(fs.clean(changed[i])) {
        requiresProtoCheck := true;
        assert changed[i] in changed;
        break;
      }
    }
    return Impact(changed, m.services, m.services, |m.services| > 0, |m.services| > 0, requiresProtoCheck, reason);
  }

  /** A file put in its place in a sorted list. */
  function Inserted(s: seq<string>, file: string): (r: seq<string>)
    requires Sorted(s) && file !in s
    ensures Sorted(r) && forall f :: f in r <==> f in s || f == file
  {
    if s == [] then [file]
    else if Less(file, s[0]) then
      assert forall j :: 0 < j < |s| ==> Less(file, s[j]) by { InsertedFirst(s, file); }
      [file] + s
    else
      var rest := Inserted(s[1..], file);
      assert Less(s[0], file) by { LessTotal(s[0], file); }
      assert forall f :: f in s[1..] ==> Less(s[0], f);
      assert forall j :: 0 <= j < |rest| ==> rest[j] in rest;
      assert forall f :: f in s <==> f == s[0] || f in s[1..];
      [s[0]] + rest
  }

  lemma InsertedFirst(s: seq<string>, file: string)
    requires Sorted(s) && s != [] && Less(file, s[0])
    ensures forall j :: 0 < j < |s| ==> Less(file, s[j])
  {
    forall j | 0 < j < |s|
      ensures Less(file, s[j])
    {
      LessTransitive(file, s[0], s[j]);
    }
  }

  method ChangedPaths(fs: Files, changes: seq<Change>) returns (files: seq<string>)
    ensures Sorted(files) && forall f :: f in files <==> ChangedFile(fs, changes, f)
  {
    var found: set<string> := {};
    for i := 0 to |changes|
      invariant forall f :: f in found <==> ChangedFile(fs, changes[..i], f)
    {
      ghost var before := found;
      if changes[i].oldPath != "" { found := found + {fs.clean(changes[i].oldPath)}; }
      if changes[i].path != "" { found := found + {fs.clean(changes[i].path)}; }
      forall f
        ensures f in found <==> ChangedFile(fs, changes[..i + 1], f)
      {
        OneMoreFile(fs, changes[..i + 1], f);
        assert changes[..i + 1][..i] == changes[..i];
        assert f in found <==> f in before || Names(fs, changes[i], f);
      }
    }
    assert changes[..|changes|] == changes;
    files := SortStrings(found);
  }

  method SortStrings(found: set<string>) returns (files: seq<string>)
    ensures Sorted(files) && forall f :: f in files <==> f in found
  {
    files := [];
    var rest := found;
    while rest != {}
      invariant Sorted(files) && forall f :: f in files ==> f !in rest
      invariant forall f :: f in files || f in rest <==> f in found
      decreases |rest|
    {
      var file :| file in rest;
      files, rest := Inserted(files, file), rest - {file};
    }
  }

  lemma OneMoreFile(fs: Files, changes: seq<Change>, f: string)
    requires changes != []
    ensures var k := |changes| - 1; ChangedFile(fs, changes, f) <==> ChangedFile(fs, changes[..k], f) || Names(fs, changes[k], f)
  {
    var k := |changes| - 1;
    if i :| 0 <= i < k && Names(fs, changes[..k][i], f) {
      assert Names(fs, changes[i], f);
    }
    if i :| 0 <= i < |changes| && Names(fs, changes[i], f) && i != k {
      assert Names(fs, changes[..k][i], f);
    }
  }

  ghost function AllOf(names: set<string>): iset<string> {
    iset n | n in names
  }

  method SelectedServices(m: Manifest, names: set<string>) returns (services: seq<Service>)
    ensures services == Selected(m.services, AllOf(names))
  {
    services := [];
    for i := 0 to |m.services|
      invariant services == Selected(m.services[..i], AllOf(names))
    {
      assert m.services[..i + 1][..i] == m.services[..i];
      if m.services[i].service in names {
        services := services + [m.services[i]];
      }
    }
    assert m.services[..|m.services|] == m.services;
  }

  /** One file against every service of the manifest. */
  method MatchServices(m: Manifest, g: Graph, package: string, testFile: bool)
    returns (tests: set<string>, builds: set<string>, matched: bool)
    ensures forall n :: n in tests <==> Listed(m.services, n) && (InRuntime(g, n, package) || InTests(g, n, package))
    ensures forall n :: n in builds <==> Listed(m.services, n) && !testFile && InRuntime(g, n, package)
    ensures matched <==> InSomeClosure(m.services, g, package)
  {
    tests, builds, matched := {}, {}, false;
    for k := 0 to |m.services|
      invariant forall n :: n in tests <==> Listed(m.services[..k], n) && (InRuntime(g, n, package) || InTests(g, n, package))
      invariant forall n :: n in builds <==> Listed(m.services[..k], n) && !testFile && InRuntime(g, n, package)
      invariant matched <==> InSomeClosure(m.services[..k], g, package)
    {
      var name := m.services[k].service;
      OneMoreService(m.services, k, g, package);
      if InRuntime(g, name, package) {
        tests := tests + {name};
        if !testFile { builds := builds + {name}; }
        matched := true;
      } else if InTests(g, name, package) {
        tests := tests + {name};
        matched := true;
      }
    }
    assert m.services[..|m.services|] == m.services;
  }

  lemma OneMoreService(services: seq<Service>, k: nat, g: Graph, package: string)
    requires k < |services|
    ensures forall n :: Listed(services[..k + 1], n) <==> Listed(services[..k], n) || n == services[k].service
    ensures InSomeClosure(services[..k + 1], g, package) <==>
      InSomeClosure(services[..k], g, package) || InRuntime(g, services[k].service, package) || InTests(g, services[k].service, package)
  {
    var more, some := services[..k + 1], services[..k];
    assert more == some + [services[k]];
    forall n
      ensures Listed(more, n) <==> Listed(some, n) || n == services[k].service
    {
      if i :| 0 <= i < |some| && some[i].service == n {
        assert more[i].service == n;
      }
      if i :| 0 <= i < |more| && more[i].service == n && i != k {
        assert some[i].service == n;
      }
      assert more[k] == services[k];
    }
    if i :| 0 <= i < |some| && (InRuntime(g, some[i].service, package) || InTests(g, some[i].service, package)) {
      assert more[i] == some[i];
    }
    if i :| 0 <= i < |more| && (InRuntime(g, more[i].service, package) || InTests(g, more[i].service, package)) && i != k {
      assert more[i] == some[i];
    }
  }

  lemma OneMoreTests(fs: Files, m: Manifest, g: Graph, changes: seq<Change>, i: nat, n: string)
    requires i < |changes|
    ensures SomeTests(fs, m, g, changes[..i + 1], n) <==>
      SomeTests(fs, m, g, changes[..i], n) || Tests(fs, m, g, fs.clean(changes[i].path), n)
  {
    var more, some := changes[..i + 1], changes[..i];
    assert more[i] == changes[i] && forall j :: 0 <= j < i ==> more[j] == some[j];
    if j :| 0 <= j < |some| && Tests(fs, m, g, fs.clean(some[j].path), n) {
      assert more[j] == some[j];
    }
  }

  lemma OneMoreBuilds(fs: Files, m: Manifest, g: Graph, changes: seq<Change>, i: nat, n: string)
    requires i < |changes|
    ensures SomeBuilds(fs, m, g, changes[..i + 1], n) <==>
      SomeBuilds(fs, m, g, changes[..i], n) || Builds(fs, m, g, fs.clean(changes[i].path), n)
  {
    var more, some := changes[..i + 1], changes[..i];
    assert more[i] == changes[i] && forall j :: 0 <= j < i ==> more[j] == some[j];
    if j :| 0 <= j < |some| && Builds(fs, m, g, fs.clean(some[j].path), n) {
      assert more[j] == some[j];
    }
  }

  lemma OneMoreProto(fs: Files, changes: seq<Change>, i: nat)
    requires i < |changes|
    ensures var file := fs.clean(changes[i].path);
      SomeProto(fs, changes[..i + 1]) <==> SomeProto(fs, changes[..i]) || (!fs.ignorable(file) && fs.agentProto(file))
  {
    var more, some := changes[..i + 1], changes[..i];
    assert more[i] == changes[i] && forall j :: 0 <= j < i ==> more[j] == some[j];
    if j :| 0 <= j < |some| && !fs.ignorable(fs.clean(some[j].path)) && fs.agentProto(fs.clean(some[j].path)) {
      assert more[j] == some[j];
    }
  }

  /** What one more change adds. */
  lemma OneMoreChange(fs: Files, m: Manifest, g: Graph, changes: seq<Change>, i: nat)
    requires i < |changes|
    ensures forall n :: SomeTests(fs, m, g, changes[..i + 1], n) <==>
      SomeTests(fs, m, g, changes[..i], n) || Tests(fs, m, g, fs.clean(changes[i].path), n)
    ensures forall n :: SomeBuilds(fs, m, g, changes[..i + 1], n) <==>
      SomeBuilds(fs, m, g, changes[..i], n) || Builds(fs, m, g, fs.clean(changes[i].path), n)
  {
    forall n
      ensures SomeTests(fs, m, g, changes[..i + 1], n) <==>
        SomeTests(fs, m, g, changes[..i], n) || Tests(fs, m, g, fs.clean(changes[i].path), n)
      ensures SomeBuilds(fs, m, g, changes[..i + 1], n) <==>
        SomeBuilds(fs, m, g, changes[..i], n) || Builds(fs, m, g, fs.clean(changes[i].path), n)
    {
      OneMoreTests(fs, m, g, changes, i, n);
      OneMoreBuilds(fs, m, g, changes, i, n);
    }
  }

  /** One-letter statuses differ from statuses that start with another letter. */
  lemma OtherLetter(status: string, letter: string)
    requires HasPrefix(status, letter) && letter in {"D", "R", "C"}
    ensures status !in {"A", "M", "T"}
  {
    assert status[0] == status[..1][0] == letter[0];
  }

  /** The first loop: a change that is not ignorable must have a status that can be mapped. */
  method CheckStatuses(fs: Files, changes: seq<Change>) returns (reason: Option<string>)
    ensures StatusVerdict(fs, changes, reason)
  {
    for i := 0 to |changes|
      invariant forall j :: 0 <= j < i ==> !StatusFallback(fs, changes[j])
    {
      var change := changes[i];
      if ChangeIsIgnorable(fs, change) { continue; }
      if HasPrefix(change.status, "D") {
        OtherLetter(change.status, "D");
        return Some("deleted file cannot be mapped safely: " + change.path);
      }
      if HasPrefix(change.status, "R") || HasPrefix(change.status, "C") {
        OtherLetter(change.status, if HasPrefix(change.status, "R") then "R" else "C");
        return Some("renamed or copied file cannot be mapped safely: " + change.path);
      }
      if change.status != "A" && change.status != "M" && change.status != "T" {
        return Some("unsupported git change status: " + change.status);
      }
    }
    return None;
  }

  /** The second loop's work on one file: map its package into the closures of the services. */
  method MapFile(fs: Files, m: Manifest, g: Graph, file: string)
    returns (reason: Option<string>, tests: set<string>, builds: set<string>, proto: bool)
    ensures reason.Some? <==> FileFallback(fs, m, g, file)
    ensures reason.Some? ==> reason.value == FileReason(fs, g, file)
    ensures reason.None? ==> forall n :: n in tests <==> Tests(fs, m, g, file, n)
    ensures reason.None? ==> forall n :: n in builds <==> Builds(fs, m, g, file, n)
    ensures reason.None? ==> (proto <==> !fs.ignorable(file) && fs.agentProto(file))
  {
    reason, tests, builds, proto := None, {}, {}, false;
    if fs.ignorable(file) { return; }
    if fs.rebuildsAll(file) {
      reason := Some("");
      return;
    }
    if fs.agentProto(file) {
      tests, builds, proto := {"agentchat"}, {"agentchat"}, true;
      return;
    }
    if fs.dir(file) !in g.packages {
      reason := Some("file cannot be mapped to a Go package: " + file);
      return;
    }
    var package := g.packages[fs.dir(file)];
    var matched;
    tests, builds, matched := MatchServices(m, g, package, fs.testFile(file));
    if !matched {
      reason := Some("package is outside every service dependency closure: " + package);
    }
  }

  /** The second loop. */
  method MapFiles(fs: Files, m: Manifest, changes: seq<Change>, g: Graph)
    returns (reason: Option<string>, tests: set<string>, builds: set<string>, requiresProtoCheck: bool)
    ensures FileVerdict(fs, m, g, changes, reason)
    ensures reason.None? ==>
      && (forall n :: n in tests <==> SomeTests(fs, m, g, changes, n))
      && (forall n :: n in builds <==> SomeBuilds(fs, m, g, changes, n))
      && (requiresProtoCheck <==> SomeProto(fs, changes))
  {
    reason, tests, builds, requiresProtoCheck := None, {}, {}, false;
    for i := 0 to |changes|
      invariant reason.None? && forall j :: 0 <= j < i ==> !PathFallback(fs, m, g, changes[j])
      invariant forall n :: n in tests <==> SomeTests(fs, m, g, changes[..i], n)
      invariant forall n :: n in builds <==> SomeBuilds(fs, m, g, changes[..i], n)
      invariant requiresProtoCheck <==> SomeProto(fs, changes[..i])
    {
      OneMoreChange(fs, m, g, changes, i);
      OneMoreProto(fs, changes, i);
      var t, b, proto;
      reason, t, b, proto := MapFile(fs, m, g, fs.clean(changes[i].path));
      if reason.Some? { return; }
      tests, builds, requiresProtoCheck := tests + t, builds + b, requiresProtoCheck || proto;
    }
    assert changes[..|changes|] == changes;
  }

  /** The name sets the loop collected select the same services as their meaning. */
  lemma SameSelection(services: seq<Service>, a: iset<string>, b: iset<string>)
    requires forall n :: n in a <==> n in b
    ensures Selected(services, a) == Selected(services, b)
  {
    assert a == b;
  }

  method Evaluate(fs: Files, m: Manifest, changes: seq<Change>, g: Graph) returns (r: Impact)
    ensures Selection(fs, m, g, changes, r) && Explained(fs, m, g, changes, r)
  {
    var changed := ChangedPaths(fs, changes);
    var reason := CheckStatuses(fs, changes);
    if reason.Some? {
      r := FullResult(fs, m, changed, reason.value);
      return;
    }
    var tests, builds, requiresProtoCheck;
    reason, tests, builds, requiresProtoCheck := MapFiles(fs, m, changes, g);
    if reason.Some? {
      r := FullResult(fs, m, changed, reason.value);
      return;
    }
    var testMatrix := SelectedServices(m, tests);
    var buildMatrix := SelectedServices(m, builds);
    SameSelection(m.services, AllOf(tests), TestNames(fs, m, g, changes));
    SameSelection(m.services, AllOf(builds), BuildNames(fs, m, g, changes));
    return Impact(changed, testMatrix, buildMatrix, |testMatrix| > 0, |buildMatrix| > 0, requiresProtoCheck, "");
  }

  // ---------- all results ----------

  ghost predicate Within(a: seq<Change>, b: seq<Change>) {
    forall i :: 0 <= i < |a| ==> a[i] in b
  }

  lemma WithinKeeps(fs: Files, m: Manifest, g: Graph, a: seq<Change>, b: seq<Change>, name: string)
    requires Within(a, b)
    ensures Full(fs, m, g, a) ==> Full(fs, m, g, b)
    ensures SomeTests(fs, m, g, a, name) ==> SomeTests(fs, m, g, b, name)
    ensures SomeBuilds(fs, m, g, a, name) ==> SomeBuilds(fs, m, g, b, name)
    ensures SomeProto(fs, a) ==> SomeProto(fs, b)
    ensures ChangedFile(fs, a, name) ==> ChangedFile(fs, b, name)
  {
    if i :| 0 <= i < |a| && (StatusFallback(fs, a[i]) || PathFallback(fs, m, g, a[i])) {
      var j :| 0 <= j < |b| && b[j] == a[i];
    }
    if i :| 0 <= i < |a| && Tests(fs, m, g, fs.clean(a[i].path), name) {
      var j :| 0 <= j < |b| && b[j] == a[i];
    }
    if i :| 0 <= i < |a| && Builds(fs, m, g, fs.clean(a[i].path), name) {
      var j :| 0 <= j < |b| && b[j] == a[i];
    }
    if i :| 0 <= i < |a| && !fs.ignorable(fs.clean(a[i].path)) && fs.agentProto(fs.clean(a[i].path)) {
      var j :| 0 <= j < |b| && b[j] == a[i];
    }
    if i :| 0 <= i < |a| && Names(fs, a[i], name) {
      var j :| 0 <= j < |b| && b[j] == a[i];
    }
  }

  /** The order and repetition of the changes decide nothing but the reason. */
  lemma OrderDoesNotMatter(fs: Files, m: Manifest, g: Graph, a: seq<Change>, b: seq<Change>, ra: Impact, rb: Impact)
    requires Within(a, b) && Within(b, a)
    requires Selection(fs, m, g, a, ra) && Selection(fs, m, g, b, rb)
    ensures ra.(fallbackReason := "") == rb.(fallbackReason := "")
  {
    forall n
      ensures SomeTests(fs, m, g, a, n) <==> SomeTests(fs, m, g, b, n)
      ensures SomeBuilds(fs, m, g, a, n) <==> SomeBuilds(fs, m, g, b, n)
      ensures ChangedFile(fs, a, n) <==> ChangedFile(fs, b, n)
    {
      WithinKeeps(fs, m, g, a, b, n);
      WithinKeeps(fs, m, g, b, a, n);
    }
    WithinKeeps(fs, m, g, a, b, "");
    WithinKeeps(fs, m, g, b, a, "");
    SortedOnce(ra.changedFiles, rb.changedFiles);
    SameSelection(m.services, TestNames(fs, m, g, a), TestNames(fs, m, g, b));
    SameSelection(m.services, BuildNames(fs, m, g, a), BuildNames(fs, m, g, b));
  }

  /** The service is in the matrices exactly when the specification says so. */
  lemma InMatrixIff(fs: Files, m: Manifest, g: Graph, changes: seq<Change>, r: Impact, s: Service)
    requires Selection(fs, m, g, changes, r)
    ensures s in r.testMatrix <==> s in m.services && (Full(fs, m, g, changes) || SomeTests(fs, m, g, changes, s.service))
    ensures s in r.buildMatrix <==> s in m.services && (Full(fs, m, g, changes) || SomeBuilds(fs, m, g, changes, s.service))
  {
    SelectedAre(m.services, TestNames(fs, m, g, changes), s);
    SelectedAre(m.services, BuildNames(fs, m, g, changes), s);
  }

  /** Whatever is built is tested. */
  lemma BuiltIsTested(fs: Files, m: Manifest, g: Graph, changes: seq<Change>, r: Impact, s: Service)
    requires Selection(fs, m, g, changes, r) && s in r.buildMatrix
    ensures s in r.testMatrix
  {
    InMatrixIff(fs, m, g, changes, r, s);
    if i :| 0 <= i < |changes| && Builds(fs, m, g, fs.clean(changes[i].path), s.service) {
      assert Tests(fs, m, g, fs.clean(changes[i].path), s.service);
    }
  }

  /** Cleaning the change's path twice is cleaning it once. */
  predicate CleansOnce(fs: Files, c: Change) {
    c.path != "" && fs.clean(fs.clean(c.path)) == fs.clean(c.path)
  }

  /** More changes never test, build or report less; nor, where cleaning twice is cleaning once, do they drop the protocol check. */
  lemma MoreChangesMoreWork(fs: Files, m: Manifest, g: Graph, a: seq<Change>, b: seq<Change>, ra: Impact, rb: Impact)
    requires Within(a, b)
    requires Selection(fs, m, g, a, ra) && Selection(fs, m, g, b, rb)
    ensures forall s :: s in ra.testMatrix ==> s in rb.testMatrix
    ensures forall s :: s in ra.buildMatrix ==> s in rb.buildMatrix
    ensures forall f :: f in ra.changedFiles ==> f in rb.changedFiles
    ensures (forall c :: c in a ==> CleansOnce(fs, c)) && ra.requiresProtoCheck ==> rb.requiresProtoCheck
  {
    forall s: Service
      ensures s in ra.testMatrix ==> s in rb.testMatrix
      ensures s in ra.buildMatrix ==> s in rb.buildMatrix
    {
      InMatrixIff(fs, m, g, a, ra, s);
      InMatrixIff(fs, m, g, b, rb, s);
      WithinKeeps(fs, m, g, a, b, s.service);
    }
    forall f
      ensures f in ra.changedFiles ==> f in rb.changedFiles
    {
      WithinKeeps(fs, m, g, a, b, f);
    }
    if forall c :: c in a ==> CleansOnce(fs, c) {
      ProtoStays(fs, m, g, a, b, ra, rb);
    }
  }

  lemma ProtoStays(fs: Files, m: Manifest, g: Graph, a: seq<Change>, b: seq<Change>, ra: Impact, rb: Impact)
    requires Within(a, b)
    requires Selection(fs, m, g, a, ra) && Selection(fs, m, g, b, rb)
    requires forall f :: f in ra.changedFiles ==> f in rb.changedFiles
    requires forall c :: c in a ==> CleansOnce(fs, c)
    ensures ra.requiresProtoCheck ==> rb.requiresProtoCheck
  {
    WithinKeeps(fs, m, g, a, b, "");
    if Full(fs, m, g, b) && !Full(fs, m, g, a) && SomeProto(fs, a) {
      var i :| 0 <= i < |a| && !fs.ignorable(fs.clean(a[i].path)) && fs.agentProto(fs.clean(a[i].path));
      assert CleansOnce(fs, a[i]) && Names(fs, a[i], fs.clean(a[i].path));
      assert ChangedFile(fs, a, fs.clean(a[i].path));
    }
  }

  // ---------- what kinds of changes select ----------

  /** A change set of ignorable changes selects nothing. */
  lemma IgnorableSelectsNothing(fs: Files, m: Manifest, g: Graph, changes: seq<Change>, r: Impact)
    requires Selection(fs, m, g, changes, r) && forall c :: c in changes ==> ChangeIsIgnorable(fs, c)
    ensures !Full(fs, m, g, changes) && r.testMatrix == [] && r.buildMatrix == [] && !r.requiresProtoCheck
  {
    assert forall i :: 0 <= i < |changes| ==> changes[i] in changes && ChangeIsIgnorable(fs, changes[i]);
    NothingSelected(m.services, TestNames(fs, m, g, changes));
    NothingSelected(m.services, BuildNames(fs, m, g, changes));
  }

  /** Test files alone, unless they force a full run, build nothing. */
  lemma TestFilesBuildNothing(fs: Files, m: Manifest, g: Graph, changes: seq<Change>, r: Impact)
    requires Selection(fs, m, g, changes, r) && !Full(fs, m, g, changes)
    requires forall i :: 0 <= i < |changes| ==>
      var file := fs.clean(changes[i].path); fs.ignorable(file) || (fs.testFile(file) && !fs.agentProto(file))
    ensures r.buildMatrix == [] && !r.hasBuilds
  {
    NothingSelected(m.services, BuildNames(fs, m, g, changes));
  }

  lemma {:induction false} NothingSelected(services: seq<Service>, names: iset<string>)
    requires forall n :: n !in names
    ensures Selected(services, names) == []
  {
    if services != [] {
      NothingSelected(services[..|services| - 1], names);
    }
  }

  /** In this repository a change of documentation alone selects nothing. */
  lemma DocsSelectNothing(lib: Lib, m: Manifest, g: Graph, changes: seq<Change>, r: Impact)
    requires Selection(RepoFiles(lib), m, g, changes, r)
    requires forall c :: c in changes ==>
      HasPrefix(CleanPath(lib, c.path), "docs/") && (c.oldPath == "" || HasPrefix(CleanPath(lib, c.oldPath), "docs/"))
    ensures !Full(RepoFiles(lib), m, g, changes) && r.testMatrix == [] && r.buildMatrix == []
  {
    IgnorableSelectsNothing(RepoFiles(lib), m, g, changes, r);
  }

  /** In this repository a change of the module file, or of another file that is part of every build or
      of the selection itself, selects every service for both. */
  lemma SharedFileSelectsAll(lib: Lib, m: Manifest, g: Graph, changes: seq<Change>, r: Impact, i: nat)
    requires Selection(RepoFiles(lib), m, g, changes, r) && i < |changes|
    requires !Ignorable(lib, CleanPath(lib, changes[i].path)) && RebuildsAll(CleanPath(lib, changes[i].path))
    ensures r.testMatrix == m.services && r.buildMatrix == m.services
  {
    assert PathFallback(RepoFiles(lib), m, g, changes[i]);
  }

  // ---------- this repository's own classification, written out ----------

  /** Under the directory of the agent protocol. */
  ghost predicate InAgentProto(file: string) {
    |file| >= 12 && file[..12] == "proto/agent/"
  }

  ghost predicate IsGoTest(file: string) {
    |file| >= 8 && file[|file| - 8..] == "_test.go"
  }

  /** The file's package is one of the closure's. */
  ghost predicate InClosure(lib: Lib, g: Graph, closures: map<string, set<string>>, service: string, file: string) {
    service in closures && lib.dir(file) in g.packages && g.packages[lib.dir(file)] in closures[service]
  }

  ghost predicate BuildsFor(lib: Lib, g: Graph, file: string, service: string) {
    && !Ignorable(lib, file)
    && (|| (InAgentProto(file) && service == "agentchat")
        || (!InAgentProto(file) && !IsGoTest(file) && InClosure(lib, g, g.runtime, service, file)))
  }

  ghost predicate TestsFor(lib: Lib, g: Graph, file: string, service: string) {
    && !Ignorable(lib, file)
    && (|| (InAgentProto(file) && service == "agentchat")
        || (!InAgentProto(file) && (InClosure(lib, g, g.runtime, service, file) || InClosure(lib, g, g.tests, service, file))))
  }

  lemma RepoFileIff(lib: Lib, m: Manifest, g: Graph, file: string, s: Service)
    requires s in m.services
    ensures Builds(RepoFiles(lib), m, g, file, s.service) <==> BuildsFor(lib, g, file, s.service)
    ensures Tests(RepoFiles(lib), m, g, file, s.service) <==> TestsFor(lib, g, file, s.service)
  {
    var k :| 0 <= k < |m.services| && m.services[k] == s;
    assert Listed(m.services, s.service);
    assert |"proto/agent/"| == 12 && |"_test.go"| == 8;
  }

  /** In this repository, unless the run is full, a service is built exactly for a changed source file of its
      runtime closure that is neither ignorable nor a Go test, or as agentchat for the agent protocol. */
  lemma RepoBuildIff(lib: Lib, m: Manifest, g: Graph, changes: seq<Change>, r: Impact, s: Service)
    requires Selection(RepoFiles(lib), m, g, changes, r) && !Full(RepoFiles(lib), m, g, changes) && s in m.services
    ensures s in r.buildMatrix <==> exists i :: 0 <= i < |changes| && BuildsFor(lib, g, CleanPath(lib, changes[i].path), s.service)
  {
    InMatrixIff(RepoFiles(lib), m, g, changes, r, s);
    forall i | 0 <= i < |changes|
      ensures Builds(RepoFiles(lib), m, g, RepoFiles(lib).clean(changes[i].path), s.service) <==>
        BuildsFor(lib, g, CleanPath(lib, changes[i].path), s.service)
    {
      RepoFileIff(lib, m, g, CleanPath(lib, changes[i].path), s);
    }
  }

  /** And tested exactly for a changed file of its runtime or test closure that is not ignorable. */
  lemma RepoTestIff(lib: Lib, m: Manifest, g: Graph, changes: seq<Change>, r: Impact, s: Service)
    requires Selection(RepoFiles(lib), m, g, changes, r) && !Full(RepoFiles(lib), m, g, changes) && s in m.services
    ensures s in r.testMatrix <==> exists i :: 0 <= i < |changes| && TestsFor(lib, g, CleanPath(lib, changes[i].path), s.service)
  {
    InMatrixIff(RepoFiles(lib), m, g, changes, r, s);
    forall i | 0 <= i < |changes|
      ensures Tests(RepoFiles(lib), m, g, RepoFiles(lib).clean(changes[i].path), s.service) <==>
        TestsFor(lib, g, CleanPath(lib, changes[i].path), s.service)
    {
      RepoFileIff(lib, m, g, CleanPath(lib, changes[i].path), s);
    }
  }

  /** In this repository a change that matters and is not an addition, a modification or a change of type
      selects everything. */
  lemma OtherStatusSelectsAll(lib: Lib, m: Manifest, g: Graph, changes: seq<Change>, r: Impact, i: nat)
    requires Selection(RepoFiles(lib), m, g, changes, r) && i < |changes|
    requires changes[i].status != "A" && changes[i].status != "M" && changes[i].status != "T"
    requires !Ignorable(lib, CleanPath(lib, changes[i].path))
      || (changes[i].oldPath != "" && !Ignorable(lib, CleanPath(lib, changes[i].oldPath)))
    ensures r.testMatrix == m.services && r.buildMatrix == m.services
  {
    assert StatusFallback(RepoFiles(lib), changes[i]);
  }

  /** A file outside every closure, or outside every package, selects everything too. */
  lemma UnmappedSelectsAll(lib: Lib, m: Manifest, g: Graph, changes: seq<Change>, r: Impact, i: nat)
    requires Selection(RepoFiles(lib), m, g, changes, r) && i < |changes|
    requires var file := CleanPath(lib, changes[i].path);
      && !Ignorable(lib, file) && !InAgentProto(file)
      && forall s :: s in m.services ==> !InClosure(lib, g, g.runtime, s.service, file) && !InClosure(lib, g, g.tests, s.service, file)
    ensures r.testMatrix == m.services && r.buildMatrix == m.services
  {
    assert |"proto/agent/"| == 12;
    assert PathFallback(RepoFiles(lib), m, g, changes[i]);
  }

  /** Both paths of a change are listed, cleaned, and nothing else is. */
  lemma ListsBothPaths(lib: Lib, m: Manifest, g: Graph, changes: seq<Change>, r: Impact, file: string)
    requires Selection(RepoFiles(lib), m, g, changes, r)
    ensures file in r.changedFiles <==>
      exists i :: 0 <= i < |changes| && ((changes[i].oldPath != "" && file == CleanPath(lib, changes[i].oldPath))
                                         || (changes[i].path != "" && file == CleanPath(lib, changes[i].path)))
  {
    if i :| 0 <= i < |changes| && Names(RepoFiles(lib), changes[i], file) {
      assert ChangedFile(RepoFiles(lib), changes, file);
    }
  }

  /** Files under these directories are ignorable, whatever they are called. */
  lemma IgnoredDirectories(lib: Lib, rest: string)
    ensures Ignorable(lib, "docs/" + rest) && Ignorable(lib, ".github/ISSUE_TEMPLATE/" + rest)
    ensures Ignorable(lib, "configs/ecampus-crm/" + rest) && Ignorable(lib, "cmd/ecampus-crm/" + rest)
    ensures Ignorable(lib, "internal/app/ecampuscrm/" + rest) && Ignorable(lib, "cmd/ecampus/" + rest)
    ensures Ignorable(lib, "deployments/ecampus/" + rest) && Ignorable(lib, "deployments/ecampus-crm/" + rest)
    ensures Ignorable(lib, "LICENSE") && Ignorable(lib, ".github/workflows/deploy.yml")
  {}

  /** Files under these directories, and these files, concern every service. */
  lemma SharedFiles(rest: string)
    ensures RebuildsAll("configs/ecampus/" + rest) && RebuildsAll("internal/ciimpact/" + rest)
    ensures RebuildsAll("cmd/ecampus-impact/" + rest) && RebuildsAll("cmd/ecampus-service-check/" + rest)
    ensures RebuildsAll("scripts/ci/run-service-checks" + rest) && RebuildsAll("scripts/ci/services.json")
    ensures RebuildsAll("go.mod") && RebuildsAll("go.sum") && RebuildsAll("go.work") && RebuildsAll("go.work.sum")
    ensures RebuildsAll(".dockerignore") && RebuildsAll("build/Dockerfile.go-service")
  {}

  const CHAT: string := "internal/chat/service.go"

  /** A source file of the chat service is neither ignorable nor shared: changed alone, it builds exactly
      the services whose runtime closure holds its package. */
  lemma SourceFileBuilds(lib: Lib, m: Manifest, g: Graph, r: Impact, s: Service)
    requires CleanPath(lib, CHAT) == CHAT && lib.dir(CHAT) == "internal/chat" && lib.lower(lib.ext(CHAT)) == ".go"
    requires Selection(RepoFiles(lib), m, g, [Change("M", "", CHAT)], r) && s in m.services
    requires exists x :: x in m.services && InClosure(lib, g, g.runtime, x.service, CHAT)
    ensures !Ignorable(lib, CHAT) && !Full(RepoFiles(lib), m, g, [Change("M", "", CHAT)])
    ensures s in r.buildMatrix <==> InClosure(lib, g, g.runtime, s.service, CHAT)
  {
    var changes := [Change("M", "", CHAT)];
    ChatIsSource(lib);
    ChatIsMapped(lib, m, g);
    RepoBuildIff(lib, m, g, changes, r, s);
    assert changes[0].path == CHAT;
  }

  lemma ChatIsMapped(lib: Lib, m: Manifest, g: Graph)
    requires CleanPath(lib, CHAT) == CHAT && lib.dir(CHAT) == "internal/chat" && lib.lower(lib.ext(CHAT)) == ".go"
    requires exists x :: x in m.services && InClosure(lib, g, g.runtime, x.service, CHAT)
    ensures !Full(RepoFiles(lib), m, g, [Change("M", "", CHAT)])
  {
    var changes := [Change("M", "", CHAT)];
    ChatIsSource(lib);
    var x :| x in m.services && InClosure(lib, g, g.runtime, x.service, CHAT);
    var k :| 0 <= k < |m.services| && m.services[k] == x;
    assert InRuntime(g, m.services[k].service, g.packages["internal/chat"]);
    assert InSomeClosure(m.services, g, g.packages["internal/chat"]);
    assert !StatusFallback(RepoFiles(lib), changes[0]) && !PathFallback(RepoFiles(lib), m, g, changes[0]);
  }

  /** Nothing to trim, and no "./" in front. */
  ghost predicate PlainPath(lib: Lib, path: string) {
    && lib.trim(Slashes("./" + path)) == "./" + Slashes(path) && lib.trim(Slashes(path)) == Slashes(path)
    && !HasPrefix(Slashes(path), "./")
  }

  /** Backslashes and a leading "./" make no difference to a path. */
  lemma CleanIgnoresSpelling(lib: Lib, path: string)
    ensures CleanPath(lib, Slashes(path)) == CleanPath(lib, path)
    ensures PlainPath(lib, path) ==> CleanPath(lib, "./" + path) == CleanPath(lib, path)
  {
    assert Slashes(Slashes(path)) == Slashes(path);
    assert ("./" + Slashes(path))[2..] == Slashes(path);
  }

  lemma ChatIsSource(lib: Lib)
    requires lib.dir(CHAT) == "internal/chat" && lib.lower(lib.ext(CHAT)) == ".go"
    ensures !Ignorable(lib, CHAT) && !RebuildsAll(CHAT) && !InAgentProto(CHAT) && !IsGoTest(CHAT)
  {
    ChatIsOwn();
    assert CHAT[0] == 'i' && CHAT[9] == 'c';
    assert ".go"[1] == 'g' && ".md"[1] == 'm' && ".mdx"[1] == 'm';
    assert "internal/chat"[9] == 'c' && "internal/app/ecampus"[9] == 'a';
  }

  lemma ChatIsOwn()
    ensures !RebuildsAll(CHAT) && !InAgentProto(CHAT) && !IsGoTest(CHAT)
  {
    assert CHAT[0] == 'i' && CHAT[9] == 'c' && CHAT[10] == 'h' && |CHAT| == 24 && CHAT[16] == 'r';
  }
}
