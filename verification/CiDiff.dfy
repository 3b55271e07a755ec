/** Reading `git diff --name-status` output, and what parsed diffs guarantee the selector. */
module CiDiff {
  import opened Support
  import opened CiImpact

  // ---------- lines ----------

  /** strings.Split at tabs: always at least one field. */
  function SplitTabs(s: string): (fields: seq<string>)
    ensures |fields| >= 1
  {
    if s == [] then [[]]
    else
      var rest := SplitTabs(s[1..]);
      if s[0] == '\t' then [[]] + rest else [[s[0]] + rest[0]] + rest[1..]
  }

  function JoinTabs(fields: seq<string>): string
    requires |fields| >= 1
  {
    if |fields| == 1 then fields[0] else fields[0] + "\t" + JoinTabs(fields[1..])
  }

  /** Splitting loses nothing. */
  lemma {:induction false} SplitJoins(s: string)
    ensures JoinTabs(SplitTabs(s)) == s && forall i :: 0 <= i < |SplitTabs(s)| ==> '\t' !in SplitTabs(s)[i]
  {
    if s != [] {
      SplitJoins(s[1..]);
      var rest := SplitTabs(s[1..]);
      if s[0] == '\t' {
        assert SplitTabs(s)[1..] == rest;
      } else if |rest| > 1 {
        assert SplitTabs(s)[1..] == rest[1..];
        assert [s[0]] + (rest[0] + "\t" + JoinTabs(rest[1..])) == ([s[0]] + rest[0]) + "\t" + JoinTabs(rest[1..]);
      }
    }
  }

  /** A tab-free field in front of a tab is the first field. */
  lemma {:induction false} SplitFirst(field: string, s: string)
    requires '\t' !in field
    ensures SplitTabs(field + "\t" + s) == [field] + SplitTabs(s)
  {
    var whole := field + "\t" + s;
    if field == [] {
      assert whole[1..] == s;
    } else {
      assert whole[1..] == field[1..] + "\t" + s;
      SplitFirst(field[1..], s);
      assert [field[0]] + field[1..] == field;
    }
  }

  lemma {:induction false} SplitOne(field: string)
    requires '\t' !in field
    ensures SplitTabs(field) == [field]
  {
    if field != [] {
      SplitOne(field[1..]);
      assert [field[0]] + field[1..] == field;
    }
  }

  predicate Renames(status: string) {
    HasPrefix(status, "R") || HasPrefix(status, "C")
  }

  predicate LineOk(line: string) {
    var fields := SplitTabs(line);
    |fields| >= 2 && (Renames(fields[0]) ==> |fields| == 3)
  }

  function ChangeOf(fs: Files, line: string): (c: Change)
    requires LineOk(line)
    ensures Renames(c.status) || c.oldPath == ""
  {
    var fields := SplitTabs(line);
    if Renames(fields[0]) then Change(fields[0], fs.clean(fields[1]), fs.clean(fields[2]))
    else Change(fields[0], "", fs.clean(fields[1]))
  }

  /** The lines that are not blank, trimmed. */
  ghost function Written(trim: string -> string, lines: seq<string>): seq<string> {
    if lines == [] then []
    else
      var k := |lines| - 1;
      Written(trim, lines[..k]) + (if trim(lines[k]) == "" then [] else [trim(lines[k])])
  }

  /** The changes read from well-formed lines, one for each line that is not blank, in order. */
  ghost predicate Reads(fs: Files, trim: string -> string, lines: seq<string>, changes: seq<Change>) {
    var written := Written(trim, lines);
    && |changes| == |written|
    && forall i :: 0 <= i < |written| ==> LineOk(written[i]) && changes[i] == ChangeOf(fs, written[i])
  }

  /** All lines before the malformed one are well formed. */
  ghost predicate FirstBad(fs: Files, trim: string -> string, lines: seq<string>, bad: string) {
    && bad != "" && !LineOk(bad)
    && exists i, changes :: 0 <= i < |lines| && trim(lines[i]) == bad && Reads(fs, trim, lines[..i], changes)
  }

  /** Either every line is well formed and the changes are read off, or the first line that is not is
      reported. */
  method ParseNameStatus(fs: Files, trim: string -> string, lines: seq<string>) returns (res: Result<seq<Change>, string>)
    ensures res.Ok? ==> Reads(fs, trim, lines, res.value)
    ensures res.Err? ==> FirstBad(fs, trim, lines, res.error)
  {
    var changes := [];
    for i := 0 to |lines|
      invariant Reads(fs, trim, lines[..i], changes)
    {
      assert lines[..i + 1][..i] == lines[..i];
      var line := trim(lines[i]);
      if line == "" { continue; }
      var fields := SplitTabs(line);
      if |fields| < 2 { return Err(line); }
      var change := Change(fields[0], "", "");
      if Renames(change.status) {
        if |fields| != 3 { return Err(line); }
        change := change.(oldPath := fs.clean(fields[1]), path := fs.clean(fields[2]));
      } else {
        change := change.(path := fs.clean(fields[1]));
      }
      changes := changes + [change];
    }
    assert lines[..|lines|] == lines;
    return Ok(changes);
  }

  // ---------- round trip ----------

  /** The line git writes for a change. */
  function LineOf(c: Change): string {
    if Renames(c.status) then c.status + "\t" + (c.oldPath + "\t" + c.path) else c.status + "\t" + c.path
  }

  /** A change as git reports it: paths already clean and without tabs, an old path only for renames
      and copies. */
  ghost predicate Reported(fs: Files, c: Change) {
    && '\t' !in c.status && '\t' !in c.path && '\t' !in c.oldPath
    && fs.clean(c.path) == c.path
    && (if Renames(c.status) then fs.clean(c.oldPath) == c.oldPath else c.oldPath == "")
  }

  /** Reading back a written change yields the change. */
  lemma LineRoundTrip(fs: Files, c: Change)
    requires Reported(fs, c)
    ensures LineOk(LineOf(c)) && ChangeOf(fs, LineOf(c)) == c
  {
    SplitOne(c.path);
    if Renames(c.status) {
      SplitFirst(c.oldPath, c.path);
      SplitFirst(c.status, c.oldPath + "\t" + c.path);
    } else {
      SplitFirst(c.status, c.path);
    }
  }

  function LinesOf(changes: seq<Change>): (lines: seq<string>)
    ensures |lines| == |changes| && forall i :: 0 <= i < |lines| ==> lines[i] == LineOf(changes[i])
  {
    seq(|changes|, i requires 0 <= i < |changes| => LineOf(changes[i]))
  }

  lemma {:induction false} WrittenAll(trim: string -> string, lines: seq<string>)
    requires forall i :: 0 <= i < |lines| ==> trim(lines[i]) == lines[i] && lines[i] != ""
    ensures Written(trim, lines) == lines
  {
    if lines != [] {
      var k := |lines| - 1;
      WrittenAll(trim, lines[..k]);
      assert lines == lines[..k] + [lines[k]];
    }
  }

  /** A diff written out and read back is the diff. */
  lemma DiffRoundTrip(fs: Files, trim: string -> string, changes: seq<Change>, back: seq<Change>)
    requires forall i :: 0 <= i < |changes| ==> Reported(fs, changes[i]) && trim(LineOf(changes[i])) == LineOf(changes[i])
    requires Reads(fs, trim, LinesOf(changes), back)
    ensures back == changes
  {
    WrittenAll(trim, LinesOf(changes));
    forall i | 0 <= i < |changes|
      ensures back[i] == changes[i]
    {
      LineRoundTrip(fs, changes[i]);
    }
  }

  // ---------- parsed diffs and the selector ----------

  /** In a parsed diff an old path cannot slip by: unless the run is full, every change that has one
      touches ignorable files only, and every other change that matters has a status that maps. */
  lemma NoRenameSlipsBy(fs: Files, trim: string -> string, lines: seq<string>, changes: seq<Change>, m: Manifest, g: Graph, i: nat)
    requires Reads(fs, trim, lines, changes) && i < |changes| && !Full(fs, m, g, changes)
    ensures changes[i].oldPath != "" ==> fs.ignorable(fs.clean(changes[i].path)) && fs.ignorable(fs.clean(changes[i].oldPath))
    ensures fs.ignorable(fs.clean(changes[i].path)) || changes[i].status in {"A", "M", "T"}
  {
    assert !StatusFallback(fs, changes[i]);
    var c := changes[i];
    assert c == ChangeOf(fs, Written(trim, lines)[i]);
    if c.oldPath != "" {
      assert c.status[0] in {'R', 'C'} by {
        assert c.status[0] == c.status[..1][0];
      }
    }
  }
}
