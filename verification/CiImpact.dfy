/** Which services a change set makes CI test and build.  Cleaning and taking apart paths is the path
    library's business and enters as arbitrary functions; and what the selector promises holds
    however files are classified, so the classification is a parameter, with `RepoFiles` for this
    repository's own. */
module CiImpact {
  import opened Support

  /** The functions of Go's path and strings packages the selector relies on. */
  datatype Lib = Lib(clean: string -> string, dir: string -> string, ext: string -> string,
                     trim: string -> string, lower: string -> string)

  datatype Service = Service(service: string, entrypoint: string, image: string, configDir: string, port: int)

  datatype Manifest = Manifest(services: seq<Service>)

  datatype Change = Change(status: string, oldPath: string, path: string)

  datatype Graph = Graph(packages: map<string, string>, runtime: map<string, set<string>>, tests: map<string, set<string>>)

  datatype Impact = Impact(
    changedFiles: seq<string>,
    testMatrix: seq<Service>,
    buildMatrix: seq<Service>,
    hasTests: bool,
    hasBuilds: bool,
    requiresProtoCheck: bool,
    fallbackReason: string)

  // ---------- paths ----------

  predicate HasPrefix(s: string, prefix: string) {
    |prefix| <= |s| && s[..|prefix|] == prefix
  }

  predicate HasSuffix(s: string, suffix: string) {
    |suffix| <= |s| && s[|s| - |suffix|..] == suffix
  }

  function Slashes(s: string): string {
    seq(|s|, i requires 0 <= i < |s| => if s[i] == '\\' then '/' else s[i])
  }

  function TrimPrefix(s: string, prefix: string): string {
    if HasPrefix(s, prefix) then s[|prefix|..] else s
  }

  function CleanPath(lib: Lib, value: string): string {
    lib.clean(TrimPrefix(lib.trim(Slashes(value)), "./"))
  }

  const FULL_BUILD_FILES: set<string> := {
    "go.mod", "go.sum", "go.work", "go.work.sum", ".dockerignore", "build/Dockerfile.go-service", "scripts/ci/services.json"}

  predicate Ignorable(lib: Lib, file: string) {
    || file == ".github/workflows/deploy.yml" || HasPrefix(file, "docs/") || HasPrefix(file, ".github/ISSUE_TEMPLATE/")
    || HasPrefix(file, "configs/ecampus-crm/") || HasPrefix(file, "cmd/ecampus-crm/") || HasPrefix(file, "internal/app/ecampuscrm/")
    || HasPrefix(file, "cmd/ecampus/") || HasPrefix(file, "deployments/ecampus/") || HasPrefix(file, "deployments/ecampus-crm/")
    || lib.dir(file) == "internal/app/ecampus"
    || lib.lower(lib.ext(file)) in {".md", ".mdx"} || file == "LICENSE"
  }

  predicate CiContractFile(file: string) {
    || HasPrefix(file, "internal/ciimpact/") || HasPrefix(file, "cmd/ecampus-impact/")
    || HasPrefix(file, "cmd/ecampus-service-check/") || HasPrefix(file, "scripts/ci/run-service-checks")
  }

  predicate RebuildsAll(file: string) {
    file in FULL_BUILD_FILES || HasPrefix(file, "configs/ecampus/") || CiContractFile(file)
  }

  /** How files are classified: the selector's own view of a path. */
  datatype Files = Files(clean: string -> string, dir: string -> string, ignorable: string -> bool,
                         rebuildsAll: string -> bool, agentProto: string -> bool, testFile: string -> bool)

  function RepoFiles(lib: Lib): Files {
    Files(path => CleanPath(lib, path), lib.dir, file => Ignorable(lib, file), RebuildsAll,
          file => HasPrefix(file, "proto/agent/"), file => HasSuffix(file, "_test.go"))
  }

  predicate ChangeIsIgnorable(fs: Files, c: Change) {
    fs.ignorable(fs.clean(c.path)) && (c.oldPath == "" || fs.ignorable(fs.clean(c.oldPath)))
  }

  // ---------- what the selector promises ----------

  function Closure(closures: map<string, set<string>>, service: string): set<string> {
    if service in closures then closures[service] else {}
  }

  predicate InRuntime(g: Graph, name: string, package: string) {
    package in Closure(g.runtime, name)
  }

  predicate InTests(g: Graph, name: string, package: string) {
    package in Closure(g.tests, name)
  }

  /** The manifest lists a service of that name. */
  ghost predicate Listed(services: seq<Service>, name: string) {
    exists k :: 0 <= k < |services| && services[k].service == name
  }

  /** A change that deletes, renames, copies or does something unknown to a file that matters. */
  predicate StatusFallback(fs: Files, c: Change) {
    !ChangeIsIgnorable(fs, c) && c.status !in {"A", "M", "T"}
  }

  ghost predicate InSomeClosure(services: seq<Service>, g: Graph, package: string) {
    exists k :: 0 <= k < |services| && (InRuntime(g, services[k].service, package) || InTests(g, services[k].service, package))
  }

  /** A file that rebuilds everything, or that no service closure accounts for. */
  ghost predicate FileFallback(fs: Files, m: Manifest, g: Graph, file: string) {
    && !fs.ignorable(file)
    && (fs.rebuildsAll(file)
        || (!fs.agentProto(file)
            && (fs.dir(file) !in g.packages || !InSomeClosure(m.services, g, g.packages[fs.dir(file)]))))
  }

  ghost predicate PathFallback(fs: Files, m: Manifest, g: Graph, c: Change) {
    FileFallback(fs, m, g, fs.clean(c.path))
  }

  /** The package a file maps to lies in the named service's closure. */
  predicate MapsInto(fs: Files, closure: set<string>, g: Graph, file: string) {
    fs.dir(file) in g.packages && g.packages[fs.dir(file)] in closure
  }

  /** This file puts the named service into the test matrix. */
  ghost predicate Tests(fs: Files, m: Manifest, g: Graph, file: string, name: string) {
    && !fs.ignorable(file)
    && if fs.agentProto(file) then name == "agentchat"
       else Listed(m.services, name)
            && (MapsInto(fs, Closure(g.runtime, name), g, file) || MapsInto(fs, Closure(g.tests, name), g, file))
  }

  /** This file puts the named service into the build matrix. */
  ghost predicate Builds(fs: Files, m: Manifest, g: Graph, file: string, name: string) {
    && !fs.ignorable(file)
    && if fs.agentProto(file) then name == "agentchat"
       else Listed(m.services, name) && !fs.testFile(file) && MapsInto(fs, Closure(g.runtime, name), g, file)
  }

  ghost predicate SomeTests(fs: Files, m: Manifest, g: Graph, changes: seq<Change>, name: string) {
    exists i :: 0 <= i < |changes| && Tests(fs, m, g, fs.clean(changes[i].path), name)
  }

  ghost predicate SomeBuilds(fs: Files, m: Manifest, g: Graph, changes: seq<Change>, name: string) {
    exists i :: 0 <= i < |changes| && Builds(fs, m, g, fs.clean(changes[i].path), name)
  }

  ghost function TestNames(fs: Files, m: Manifest, g: Graph, changes: seq<Change>): iset<string> {
    iset name | SomeTests(fs, m, g, changes, name)
  }

  ghost function BuildNames(fs: Files, m: Manifest, g: Graph, changes: seq<Change>): iset<string> {
    iset name | SomeBuilds(fs, m, g, changes, name)
  }

  ghost predicate SomeProto(fs: Files, changes: seq<Change>) {
    exists i :: 0 <= i < |changes| && !fs.ignorable(fs.clean(changes[i].path)) && fs.agentProto(fs.clean(changes[i].path))
  }

  ghost predicate Full(fs: Files, m: Manifest, g: Graph, changes: seq<Change>) {
    exists i :: 0 <= i < |changes| && (StatusFallback(fs, changes[i]) || PathFallback(fs, m, g, changes[i]))
  }

  /** The services a name set selects, in manifest order. */
  ghost function Selected(services: seq<Service>, names: iset<string>): seq<Service> {
    if services == [] then []
    else
      var k := |services| - 1;
      Selected(services[..k], names) + (if services[k].service in names then [services[k]] else [])
  }

  lemma {:induction false} SelectedAre(services: seq<Service>, names: iset<string>, s: Service)
    ensures s in Selected(services, names) <==> s in services && s.service in names
  {
    if services != [] {
      var k := |services| - 1;
      SelectedAre(services[..k], names, s);
      assert services == services[..k] + [services[k]];
    }
  }

  ghost predicate ChangedFile(fs: Files, changes: seq<Change>, file: string) {
    exists i :: 0 <= i < |changes| && Names(fs, changes[i], file)
  }

  predicate Names(fs: Files, c: Change, file: string) {
    (c.oldPath != "" && file == fs.clean(c.oldPath)) || (c.path != "" && file == fs.clean(c.path))
  }

  function StatusReason(c: Change): string {
    if HasPrefix(c.status, "D") then "deleted file cannot be mapped safely: " + c.path
    else if HasPrefix(c.status, "R") || HasPrefix(c.status, "C") then "renamed or copied file cannot be mapped safely: " + c.path
    else "unsupported git change status: " + c.status
  }

  function FileReason(fs: Files, g: Graph, file: string): string {
    if fs.rebuildsAll(file) then ""
    else if fs.dir(file) !in g.packages then "file cannot be mapped to a Go package: " + file
    else "package is outside every service dependency closure: " + g.packages[fs.dir(file)]
  }

  /** The reason the first loop gives: that of the first change with an unmappable status. */
  ghost predicate StatusVerdict(fs: Files, changes: seq<Change>, reason: Option<string>) {
    if reason.None? then forall i :: 0 <= i < |changes| ==> !StatusFallback(fs, changes[i])
    else exists i :: 0 <= i < |changes| && StatusFallback(fs, changes[i]) && reason.value == StatusReason(changes[i])
                     && forall j :: 0 <= j < i ==> !StatusFallback(fs, changes[j])
  }

  /** The reason the second loop gives: that of the first file that forces a full run. */
  ghost predicate FileVerdict(fs: Files, m: Manifest, g: Graph, changes: seq<Change>, reason: Option<string>) {
    if reason.None? then forall i :: 0 <= i < |changes| ==> !PathFallback(fs, m, g, changes[i])
    else exists i :: 0 <= i < |changes| && PathFallback(fs, m, g, changes[i])
                     && reason.value == FileReason(fs, g, fs.clean(changes[i].path))
                     && forall j :: 0 <= j < i ==> !PathFallback(fs, m, g, changes[j])
  }

  /** Everything but the reason. */
  ghost predicate Selection(fs: Files, m: Manifest, g: Graph, changes: seq<Change>, r: Impact) {
    && Sorted(r.changedFiles) && (forall f :: f in r.changedFiles <==> ChangedFile(fs, changes, f))
    && (r.hasTests <==> r.testMatrix != []) && (r.hasBuilds <==> r.buildMatrix != [])
    && if Full(fs, m, g, changes) then
         && r.testMatrix == m.services && r.buildMatrix == m.services
         && (r.requiresProtoCheck <==> exists f :: f in r.changedFiles && fs.agentProto(fs.clean(f)))
       else
         && r.testMatrix == Selected(m.services, TestNames(fs, m, g, changes))
         && r.buildMatrix == Selected(m.services, BuildNames(fs, m, g, changes))
         && (r.requiresProtoCheck <==> SomeProto(fs, changes))
  }

  /** The reason of a full run names the first change with an unmappable status, or else the first
      file that forces a full run; other runs give none. */
  ghost predicate Explained(fs: Files, m: Manifest, g: Graph, changes: seq<Change>, r: Impact) {
    if Full(fs, m, g, changes) then
      || StatusVerdict(fs, changes, Some(r.fallbackReason))
      || (StatusVerdict(fs, changes, None) && FileVerdict(fs, m, g, changes, Some(r.fallbackReason)))
    else r.fallbackReason == ""
  }

  // ---------- sorted file lists ----------

  /** The order sort.Strings uses. */
  predicate Less(a: string, b: string) {
    b != [] && (a == [] || a[0] < b[0] || (a[0] == b[0] && Less(a[1..], b[1..])))
  }

  ghost predicate Sorted(s: seq<string>) {
    forall i, j :: 0 <= i < j < |s| ==> Less(s[i], s[j])
  }

  lemma {:induction false} LessTransitive(a: string, b: string, c: string)
    requires Less(a, b) && Less(b, c)
    ensures Less(a, c)
  {
    if a != [] && a[0] == b[0] && b[0] == c[0] {
      LessTransitive(a[1..], b[1..], c[1..]);
    }
  }

  lemma {:induction false} LessTotal(a: string, b: string)
    ensures a == b || Less(a, b) || Less(b, a)
    ensures !(Less(a, b) && (a == b || Less(b, a)))
  {
    if a != [] && b != [] && a[0] == b[0] {
      LessTotal(a[1..], b[1..]);
      assert a == [a[0]] + a[1..] && b == [b[0]] + b[1..];
    }
  }

  /** Two sorted lists of the same files are the same list. */
  lemma {:induction false} SortedOnce(a: seq<string>, b: seq<string>)
    requires Sorted(a) && Sorted(b) && forall f :: f in a <==> f in b
    ensures a == b
  {
    assert forall i :: 0 <= i < |a| ==> a[i] in b;
    assert forall i :: 0 <= i < |b| ==> b[i] in a;
    if a != [] {
      LessTotal(a[0], b[0]);
      assert a[0] == b[0];
      forall f
        ensures f in a[1..] <==> f in b[1..]
      {
        LessTotal(f, a[0]);
        assert f in a <==> f == a[0] || f in a[1..];
        assert f in b <==> f == b[0] || f in b[1..];
      }
      SortedOnce(a[1..], b[1..]);
    }
  }
}
