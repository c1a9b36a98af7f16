/**
  `apply`: validate every module of a backport manifest, then replace the files
  one by one and delete their cached bytecode.  The replace phase may be cut off
  after any number of effects; `steps` is how many it gets.
*/
module Backports {
  import opened Text
  import opened Replacing

  type Bytes = seq<bv8>
  type Digest = string
  type Name = string

  const NAMES: set<Name> := {"poplib.py", "tarfile.py", "tempfile.py", "shutil.py"}

  datatype Patch = Patch(oldText: Bytes, newText: Bytes)

  datatype Row = Row(name: Name, before: Digest, after: Digest, patches: seq<Patch>)

  datatype Action = AlreadyApplied | Applied | Verified

  datatype Outcome = Done(actions: seq<(Name, Action)>) | Refused | Interrupted

  /** The digest and the compiler, about which nothing is assumed. */
  datatype Tools = Tools(digest: Bytes -> Digest, compiles: Bytes -> bool)

  // ----------------------------------------------------------- specification

  predicate IsDigest(d: Digest) {
    |d| == 64 && forall c :: c in d ==> '0' <= c <= '9' || 'a' <= c <= 'f'
  }

  /** 64 lower-case hexadecimal digits. */
  lemma DigestIsHex(d: Digest)
    ensures IsDigest(d) <==> |d| == 64 && forall i :: 0 <= i < 64 ==> d[i] in "0123456789abcdef"
  {
    if IsDigest(d) {
      forall i | 0 <= i < 64 ensures d[i] in "0123456789abcdef" {
        assert d[i] in d;
        HexDigit(d[i]);
      }
    }
    if |d| == 64 && forall i :: 0 <= i < 64 ==> d[i] in "0123456789abcdef" {
      forall c | c in d ensures '0' <= c <= '9' || 'a' <= c <= 'f' { HexDigit(c); }
    }
  }

  lemma HexDigit(c: char)
    ensures c in "0123456789abcdef" <==> '0' <= c <= '9' || 'a' <= c <= 'f'
  {
    var digits := "0123456789abcdef";
    if '0' <= c <= '9' { assert digits[c as int - '0' as int] == c; }
    if 'a' <= c <= 'f' { assert digits[10 + c as int - 'a' as int] == c; }
  }

  predicate PatchOk(p: Patch) {
    p.oldText != [] && p.newText != [] && p.oldText != p.newText
  }

  predicate RowOk(row: Row) {
    && IsDigest(row.before) && IsDigest(row.after) && row.before != row.after
    && 1 <= |row.patches| <= 16
    && forall i :: 0 <= i < |row.patches| ==> PatchOk(row.patches[i])
  }

  function NamesOf(rows: seq<Row>): set<Name> {
    set r | r in rows :: r.name
  }

  predicate ManifestOk(rows: seq<Row>) {
    && |rows| == 4 && NamesOf(rows) == NAMES
    && forall r :: r in rows ==> RowOk(r)
  }

  /** Every context must match exactly once in what the patches before it produced. */
  function Patched(content: Bytes, patches: seq<Patch>): Option<Bytes>
    requires forall i :: 0 <= i < |patches| ==> PatchOk(patches[i])
    decreases patches
  {
    if patches == [] then Some(content)
    else
      assert PatchOk(patches[0]);
      if Count(content, patches[0].oldText) != 1 then None
      else Patched(ReplaceFirst(content, patches[0].oldText, patches[0].newText), patches[1..])
  }

  /** What validation plans for one module: its new content, or a refusal. */
  function Plan(row: Row, content: Bytes, verifyOnly: bool, tools: Tools): Option<Bytes>
    requires RowOk(row)
  {
    var patched := if tools.digest(content) == row.after then Some(content)
                   else if tools.digest(content) == row.before && !verifyOnly then Patched(content, row.patches)
                   else None;
    if patched.Some? && tools.digest(patched.value) == row.after && tools.compiles(patched.value) then patched else None
  }

  /** One after the other, each patch's context occurs exactly once and is replaced where it occurs. */
  ghost predicate Applies(content: Bytes, patches: seq<Patch>, result: Bytes)
    decreases |patches|
  {
    if patches == [] then result == content
    else exists mid :: Swapped(content, mid, patches[0].oldText, patches[0].newText) && Applies(mid, patches[1..], result)
  }

  lemma {:induction false} PatchedIsExact(content: Bytes, patches: seq<Patch>, result: Bytes)
    requires forall i :: 0 <= i < |patches| ==> PatchOk(patches[i])
    ensures Patched(content, patches) == Some(result) <==> Applies(content, patches, result)
    decreases |patches|
  {
    if patches != [] {
      var p := patches[0];
      assert PatchOk(p);
      var mid := ReplaceFirst(content, p.oldText, p.newText);
      SwapIsExact(content, mid, p.oldText, p.newText);
      PatchedIsExact(mid, patches[1..], result);
      if Applies(content, patches, result) {
        var m :| Swapped(content, m, p.oldText, p.newText) && Applies(m, patches[1..], result);
        SwapIsExact(content, m, p.oldText, p.newText);
      }
    }
  }

  /**
    What is planned compiles and has the reviewed digest: the content itself if it
    has that digest already, and otherwise, unless only verifying, what the patches
    make of a content with the digest from before.  There is a plan whenever there
    is such a result.
  */
  lemma PlanIsExact(row: Row, content: Bytes, verifyOnly: bool, tools: Tools, planned: Bytes)
    requires RowOk(row)
    ensures Plan(row, content, verifyOnly, tools) == Some(planned) <==>
              && tools.digest(planned) == row.after && tools.compiles(planned)
              && if tools.digest(content) == row.after then planned == content
                 else !verifyOnly && tools.digest(content) == row.before && Applies(content, row.patches, planned)
  {
    PatchedIsExact(content, row.patches, planned);
  }

  ghost predicate Plannable(rows: seq<Row>, modules: map<Name, Bytes>, verifyOnly: bool, tools: Tools) {
    forall r :: r in rows ==> RowOk(r) && r.name in modules && Plan(r, modules[r.name], verifyOnly, tools).Some?
  }

  /** Somewhere between two contents: every listed module is as before or as planned, all else is as before. */
  ghost predicate Between(rows: seq<Row>, from: map<Name, Bytes>, now: map<Name, Bytes>, tools: Tools)
    requires Plannable(rows, from, false, tools)
  {
    && now.Keys == from.Keys
    && (forall n :: n in from && n !in NamesOf(rows) ==> now[n] == from[n])
    && (forall r :: r in rows ==> now[r.name] == from[r.name] || now[r.name] == Plan(r, from[r.name], false, tools).value)
  }

  lemma PlanIsStable(row: Row, content: Bytes, tools: Tools)
    requires RowOk(row) && Plan(row, content, false, tools).Some?
    ensures var planned := Plan(row, content, false, tools).value;
            && tools.digest(planned) == row.after
            && Plan(row, planned, false, tools) == Some(planned) && Plan(row, planned, true, tools) == Some(planned)
  {
  }

  /** Whatever an interruption left, validation passes again and plans the same result. */
  lemma ReplanAgrees(rows: seq<Row>, from: map<Name, Bytes>, now: map<Name, Bytes>, tools: Tools)
    requires Plannable(rows, from, false, tools) && Between(rows, from, now, tools)
    ensures Plannable(rows, now, false, tools)
    ensures forall r :: r in rows ==> Plan(r, now[r.name], false, tools) == Plan(r, from[r.name], false, tools)
  {
    forall r | r in rows ensures Plan(r, now[r.name], false, tools) == Plan(r, from[r.name], false, tools) {
      PlanIsStable(r, from[r.name], tools);
    }
  }

  lemma NamesAppend(init: seq<Row>, last: Row)
    ensures NamesOf(init + [last]) == NamesOf(init) + {last.name}
  {
    assert last in init + [last];
  }

  lemma {:induction false} DistinctNames(rows: seq<Row>)
    ensures |NamesOf(rows)| <= |rows|
    ensures |NamesOf(rows)| == |rows| ==> forall i, j :: 0 <= i < j < |rows| ==> rows[i].name != rows[j].name
  {
    if rows != [] {
      var init, last := rows[..|rows| - 1], rows[|rows| - 1];
      assert rows == init + [last];
      NamesAppend(init, last);
      DistinctNames(init);
      if |NamesOf(rows)| == |rows| {
        assert last.name !in NamesOf(init);
        forall i, j | 0 <= i < j < |rows| ensures rows[i].name != rows[j].name {
          assert rows[i] == init[i] && init[i] in init;
        }
      }
    }
  }

  // ------------------------------------------------------------------- apply

  datatype Planned = Planned(name: Name, original: Bytes, patched: Bytes, bytecode: set<string>, action: Action)

  function Cached(cache: map<Name, set<string>>, name: Name): set<string> {
    if name in cache then cache[name] else {}
  }

  /** The plan that validation makes for a row of the manifest. */
  ghost predicate PlannedFor(p: Planned, row: Row, modules: map<Name, Bytes>, cache: map<Name, set<string>>,
                             verifyOnly: bool, tools: Tools)
    requires RowOk(row)
  {
    && p.name == row.name && row.name in modules && p.original == modules[row.name]
    && Plan(row, modules[row.name], verifyOnly, tools) == Some(p.patched)
    && p.bytecode == Cached(cache, row.name)
    && p.action == if tools.digest(p.original) == row.after then AlreadyApplied else Applied
  }

  class Stdlib {
    var modules: map<Name, Bytes>
    var cache: map<Name, set<string>>

    const sound: bool          // the library and its cache are real directories
    const linked: set<Name>    // modules that are not regular, unshared files
    const odd: set<string>     // cached files that are not

    constructor (modules: map<Name, Bytes>, cache: map<Name, set<string>>, sound: bool, linked: set<Name>, odd: set<string>)
      ensures this.modules == modules && this.cache == cache
      ensures this.sound == sound && this.linked == linked && this.odd == odd
    {
      this.modules, this.cache, this.sound, this.linked, this.odd := modules, cache, sound, linked, odd;
    }

    /** Every file that a run looks at is regular and unshared. */
    ghost predicate Regular(rows: seq<Row>)
      reads this
    {
      sound && forall r :: r in rows ==> r.name !in linked && Cached(cache, r.name) !! odd
    }

    /** The first loop: plan every module, touch nothing. */
    method Validate(rows: seq<Row>, verifyOnly: bool, tools: Tools) returns (r: Option<seq<Planned>>)
      ensures r.Some? <==> ManifestOk(rows) && Regular(rows) && Plannable(rows, modules, verifyOnly, tools)
      ensures r.Some? ==> |r.value| == |rows|
                          && forall i :: 0 <= i < |rows| ==> PlannedFor(r.value[i], rows[i], modules, cache, verifyOnly, tools)
    {
      if !ManifestOk(rows) || !sound { return None; }
      var plans: seq<Planned> := [];
      for i := 0 to |rows|
        invariant |plans| == i
        invariant forall k :: 0 <= k < i ==> rows[k].name !in linked && Cached(cache, rows[k].name) !! odd
        invariant forall k :: 0 <= k < i ==> PlannedFor(plans[k], rows[k], modules, cache, verifyOnly, tools)
      {
        var row := rows[i];
        assert row in rows;
        if row.name in linked || row.name !in modules { return None; }
        var original := modules[row.name];
        var plan := Plan(row, original, verifyOnly, tools);
        if plan.None? || !(Cached(cache, row.name) !! odd) { return None; }
        var action := if tools.digest(original) == row.after then AlreadyApplied else Applied;
        plans := plans + [Planned(row.name, original, plan.value, Cached(cache, row.name), action)];
      }
      return Some(plans);
    }

    /** Replace one module and delete its bytecode, one effect at a time. */
    method Install(p: Planned, steps: nat) returns (done: bool, left: nat)
      requires p.name in modules && modules[p.name] == p.original && p.bytecode == Cached(cache, p.name)
      requires p.action == Applied || p.patched == p.original
      modifies this
      ensures modules == old(modules) || modules == old(modules)[p.name := p.patched]
      ensures forall n :: n != p.name ==> Cached(cache, n) == Cached(old(cache), n)
      ensures Cached(cache, p.name) <= Cached(old(cache), p.name)
      ensures done ==> modules == old(modules)[p.name := p.patched] && Cached(cache, p.name) == {}
      ensures steps >= 1 + |p.bytecode| ==> done && left >= steps - 1 - |p.bytecode|
      ensures done ==> left == steps - |p.bytecode| - if p.action == Applied then 1 else 0
    {
      left := steps;
      if p.action == Applied {
        if left == 0 { return false, left; }
        left := left - 1;
        modules := modules[p.name := p.patched];
      }
      assert modules == old(modules)[p.name := p.patched];
      var entries := p.bytecode;
      while entries != {}
        invariant entries <= p.bytecode && Cached(cache, p.name) == entries
        invariant modules == old(modules)[p.name := p.patched]
        invariant forall n :: n != p.name ==> Cached(cache, n) == Cached(old(cache), n)
        invariant left + |p.bytecode| - |entries| + (if p.action == Applied then 1 else 0) == steps
        decreases entries
      {
        if left == 0 { return false, left; }
        var entry :| entry in entries;
        left, entries := left - 1, entries - {entry};
        cache := cache[p.name := entries];
      }
      return true, left;
    }

    /** One module of the second loop, in terms of what the run began with. */
    method InstallRow(rows: seq<Row>, i: nat, p: Planned, tools: Tools, steps: nat,
                      ghost from: map<Name, Bytes>, ghost cached: map<Name, set<string>>)
      returns (done: bool, left: nat)
      requires i < |rows| && forall a, b :: 0 <= a < b < |rows| ==> rows[a].name != rows[b].name
      requires Plannable(rows, from, false, tools) && RowOk(rows[i])
      requires Halfway(rows, NamesOf(rows[..i]), from, cached, modules, cache, tools)
      requires PlannedFor(p, rows[i], from, cached, false, tools)
      modifies this
      ensures Between(rows, from, modules, tools)
      ensures forall n :: n !in NamesOf(rows) ==> Cached(cache, n) == Cached(cached, n)
      ensures Shrunk(cache, cached)
      ensures done ==> Halfway(rows, NamesOf(rows[..i + 1]), from, cached, modules, cache, tools)
      ensures steps >= 1 + |Cached(cached, rows[i].name)| ==> done && left >= steps - 1 - |Cached(cached, rows[i].name)|
    {
      NamesStep(rows, i);
      HalfwayIsBetween(rows, NamesOf(rows[..i]), rows[i], from, cached, modules, cache, tools);
      done, left := Install(p, steps);
      CacheShrinks(rows, NamesOf(rows[..i]), rows[i].name, from, cached, old(modules), old(cache), cache, tools);
      if done {
        HalfwayStep(rows, NamesOf(rows[..i]), rows[i], from, cached, old(modules), old(cache), cache, tools);
      }
    }

    /** The second loop: install module after module until done or out of steps. */
    method InstallAll(rows: seq<Row>, plans: seq<Planned>, tools: Tools, steps: nat) returns (done: bool)
      requires Plannable(rows, modules, false, tools) && |plans| == |rows| == |NamesOf(rows)|
      requires forall i :: 0 <= i < |rows| ==> PlannedFor(plans[i], rows[i], modules, cache, false, tools)
      modifies this
      ensures Between(rows, old(modules), modules, tools)
      ensures forall n :: n !in NamesOf(rows) ==> Cached(cache, n) == Cached(old(cache), n)
      ensures Shrunk(cache, old(cache))
      ensures done ==> Halfway(rows, NamesOf(rows), old(modules), old(cache), modules, cache, tools)
      ensures steps >= Work(rows, old(cache)) ==> done
    {
      DistinctNames(rows);
      var left: nat := steps;
      assert NamesOf(rows[..0]) == {};
      for i := 0 to |rows|
        invariant Halfway(rows, NamesOf(rows[..i]), old(modules), old(cache), modules, cache, tools)
        invariant steps >= Work(rows, old(cache)) ==> left + Work(rows[..i], old(cache)) >= Work(rows, old(cache))
      {
        WorkGrows(rows, i + 1, old(cache));
        WorkStep(rows, i, old(cache));
        done, left := InstallRow(rows, i, plans[i], tools, left, old(modules), old(cache));
        if !done {
          return false;
        }
      }
      assert rows[..|rows|] == rows;
      HalfwayEnd(rows, old(modules), old(cache), modules, cache, tools);
      return true;
    }

    /** `apply` as a whole; `steps` effects may happen before the process dies. */
    method Apply(rows: seq<Row>, verifyOnly: bool, tools: Tools, steps: nat) returns (r: Outcome)
      modifies this
      ensures r.Refused? <==> !(ManifestOk(rows) && old(Regular(rows)) && Plannable(rows, old(modules), verifyOnly, tools))
      ensures Shrunk(cache, old(cache))
      ensures r.Refused? || verifyOnly ==> modules == old(modules) && cache == old(cache)
      ensures !r.Refused? && !verifyOnly ==> Between(rows, old(modules), modules, tools)
      ensures forall n :: n !in NamesOf(rows) ==> Cached(cache, n) == Cached(old(cache), n)
      ensures r.Done? && !verifyOnly ==> Installed(rows, old(modules), modules, cache, tools)
      ensures r.Done? ==> r.actions == Actions(rows, old(modules), verifyOnly, tools)
      ensures !r.Refused? && (verifyOnly || steps >= Work(rows, old(cache))) ==> r.Done?
    {
      var validated := Validate(rows, verifyOnly, tools);
      if validated.None? { return Refused; }
      var actions := Actions(rows, modules, verifyOnly, tools);
      if verifyOnly { return Done(actions); }
      assert |NAMES| == 4;
      var done := InstallAll(rows, validated.value, tools, steps);
      if !done { return Interrupted; }
      HalfwayEnd(rows, old(modules), old(cache), modules, cache, tools);
      return Done(actions);
    }
  }

  /** Every listed module has its planned content and no cached bytecode. */
  ghost predicate Installed(rows: seq<Row>, from: map<Name, Bytes>, now: map<Name, Bytes>, cache: map<Name, set<string>>, tools: Tools)
    requires Plannable(rows, from, false, tools)
  {
    forall r :: r in rows ==>
      r.name in now && now[r.name] == Plan(r, from[r.name], false, tools).value && Cached(cache, r.name) == {}
  }

  /** A complete run reports `Applied` for exactly the modules that it changes. */
  lemma ActionsAreRight(rows: seq<Row>, modules: map<Name, Bytes>, tools: Tools, i: nat)
    requires Plannable(rows, modules, false, tools) && i < |rows|
    ensures var action := Actions(rows, modules, false, tools)[i];
            && action.0 == rows[i].name && rows[i] in rows
            && action.1 == if Plan(rows[i], modules[rows[i].name], false, tools).value == modules[rows[i].name]
                           then AlreadyApplied else Applied
  {
    assert rows[i] in rows;
    var content := modules[rows[i].name];
    PlanIsExact(rows[i], content, false, tools, Plan(rows[i], content, false, tools).value);
  }

  /** What a complete run reports, row by row. */
  function Actions(rows: seq<Row>, modules: map<Name, Bytes>, verifyOnly: bool, tools: Tools): seq<(Name, Action)>
    requires forall r :: r in rows ==> r.name in modules
  {
    seq(|rows|, i requires 0 <= i < |rows| => assert rows[i] in rows;
      (rows[i].name, if verifyOnly then Verified
                     else if tools.digest(modules[rows[i].name]) == rows[i].after then AlreadyApplied else Applied))
  }

  /** The effects a complete run may need: one file and all its bytecode, module by module. */
  function Work(rows: seq<Row>, cache: map<Name, set<string>>): nat {
    if rows == [] then 0
    else Work(rows[..|rows| - 1], cache) + 1 + |Cached(cache, rows[|rows| - 1].name)|
  }

  lemma WorkStep(rows: seq<Row>, i: nat, cache: map<Name, set<string>>)
    requires i < |rows|
    ensures Work(rows[..i + 1], cache) == Work(rows[..i], cache) + 1 + |Cached(cache, rows[i].name)|
  {
    assert rows[..i + 1][..i] == rows[..i];
  }

  lemma {:induction false} WorkGrows(rows: seq<Row>, i: nat, cache: map<Name, set<string>>)
    requires i <= |rows|
    ensures Work(rows[..i], cache) <= Work(rows, cache)
    decreases |rows| - i
  {
    if i == |rows| {
      assert rows[..i] == rows;
    } else {
      WorkStep(rows, i, cache);
      WorkGrows(rows, i + 1, cache);
    }
  }

  /** Bytecode is only ever deleted. */
  ghost predicate Shrunk(cache: map<Name, set<string>>, cached: map<Name, set<string>>) {
    forall n :: Cached(cache, n) <= Cached(cached, n)
  }

  /** The modules named in `done` are installed and their bytecode is gone; the others are untouched. */
  ghost predicate Halfway(rows: seq<Row>, done: set<Name>, from: map<Name, Bytes>, cached: map<Name, set<string>>,
                          now: map<Name, Bytes>, cache: map<Name, set<string>>, tools: Tools)
    requires Plannable(rows, from, false, tools)
  {
    && done <= NamesOf(rows) && now.Keys == from.Keys
    && (forall n :: n in from && n !in done ==> now[n] == from[n])
    && (forall n :: n !in done ==> Cached(cache, n) == Cached(cached, n))
    && (forall r :: r in rows && r.name in done ==>
          Plan(r, from[r.name], false, tools) == Some(now[r.name]) && Cached(cache, r.name) == {})
  }

  ghost predicate NamedOnce(rows: seq<Row>, row: Row) {
    row in rows && forall r :: r in rows && r.name == row.name ==> r == row
  }

  lemma HalfwayStep(rows: seq<Row>, done: set<Name>, row: Row, from: map<Name, Bytes>, cached: map<Name, set<string>>,
                    now: map<Name, Bytes>, cache: map<Name, set<string>>, cache': map<Name, set<string>>, tools: Tools)
    requires Plannable(rows, from, false, tools) && Halfway(rows, done, from, cached, now, cache, tools)
    requires NamedOnce(rows, row) && row.name !in done && Cached(cache', row.name) == {}
    requires forall n :: n != row.name ==> Cached(cache', n) == Cached(cache, n)
    ensures Halfway(rows, done + {row.name}, from, cached,
                    now[row.name := Plan(row, from[row.name], false, tools).value], cache', tools)
  {
    assert row.name in NamesOf(rows);
    var now' := now[row.name := Plan(row, from[row.name], false, tools).value];
    forall r | r in rows && r.name in done + {row.name}
      ensures Plan(r, from[r.name], false, tools) == Some(now'[r.name]) && Cached(cache', r.name) == {}
    {
      if r.name == row.name {
        assert r == row;
      } else {
        assert r.name in done;
      }
    }
    assert forall n :: n !in done + {row.name} ==> n !in done && n != row.name;
  }

  /** Deleting bytecode of one of the rows. */
  lemma CacheShrinks(rows: seq<Row>, done: set<Name>, name: Name, from: map<Name, Bytes>, cached: map<Name, set<string>>,
                     now: map<Name, Bytes>, cache: map<Name, set<string>>, cache': map<Name, set<string>>, tools: Tools)
    requires Plannable(rows, from, false, tools) && Halfway(rows, done, from, cached, now, cache, tools)
    requires name in NamesOf(rows) && Cached(cache', name) <= Cached(cache, name)
    requires forall n :: n != name ==> Cached(cache', n) == Cached(cache, n)
    ensures Shrunk(cache', cached) && forall n :: n !in NamesOf(rows) ==> Cached(cache', n) == Cached(cached, n)
  {
    forall n ensures Cached(cache', n) <= Cached(cached, n) {
      if n in done {
        var r :| r in rows && r.name == n;
      }
    }
  }

  lemma HalfwayIsBetween(rows: seq<Row>, done: set<Name>, row: Row, from: map<Name, Bytes>, cached: map<Name, set<string>>,
                         now: map<Name, Bytes>, cache: map<Name, set<string>>, tools: Tools)
    requires Plannable(rows, from, false, tools) && Halfway(rows, done, from, cached, now, cache, tools)
    requires NamedOnce(rows, row) && row.name !in done
    ensures Between(rows, from, now, tools)
    ensures Between(rows, from, now[row.name := Plan(row, from[row.name], false, tools).value], tools)
  {
    assert row.name in NamesOf(rows);
    forall r | r in rows
      ensures now[r.name] == from[r.name] || now[r.name] == Plan(r, from[r.name], false, tools).value
    {
      assert r.name in done ==> Plan(r, from[r.name], false, tools) == Some(now[r.name]);
    }
  }

  lemma HalfwayEnd(rows: seq<Row>, from: map<Name, Bytes>, cached: map<Name, set<string>>,
                   now: map<Name, Bytes>, cache: map<Name, set<string>>, tools: Tools)
    requires Plannable(rows, from, false, tools) && Halfway(rows, NamesOf(rows), from, cached, now, cache, tools)
    ensures Between(rows, from, now, tools)
    ensures forall r :: r in rows ==>
              now[r.name] == Plan(r, from[r.name], false, tools).value && Cached(cache, r.name) == {}
  {
    assert forall r :: r in rows ==> r.name in NamesOf(rows);
  }

  lemma NamesStep(rows: seq<Row>, i: nat)
    requires i < |rows| && forall a, b :: 0 <= a < b < |rows| ==> rows[a].name != rows[b].name
    ensures NamesOf(rows[..i + 1]) == NamesOf(rows[..i]) + {rows[i].name}
    ensures rows[i].name !in NamesOf(rows[..i]) && NamedOnce(rows, rows[i])
    ensures rows[i].name in NamesOf(rows)
  {
    assert rows[..i + 1] == rows[..i] + [rows[i]];
  }

  // ------------------------------------------------------------- convergence

  lemma BetweenComposes(rows: seq<Row>, from: map<Name, Bytes>, mid: map<Name, Bytes>, now: map<Name, Bytes>, tools: Tools)
    requires Plannable(rows, from, false, tools) && Between(rows, from, mid, tools)
    requires Plannable(rows, mid, false, tools) && Between(rows, mid, now, tools)
    ensures Between(rows, from, now, tools)
  {
    ReplanAgrees(rows, from, mid, tools);
  }

  /** Every listed module has its reviewed content. */
  ghost predicate AllAfter(rows: seq<Row>, modules: map<Name, Bytes>, tools: Tools) {
    forall r :: r in rows ==> r.name in modules && tools.digest(modules[r.name]) == r.after
  }

  /**
    Any number of runs cut off anywhere, with Python caching bytecode again in
    between, and then one complete run: every listed module is at its reviewed
    digest with its bytecode gone, nothing else was touched; one more run finds
    everything already applied, and verification passes.
  */
  method PatchRuns(lib: Stdlib, rows: seq<Row>, tools: Tools, budgets: seq<nat>) returns (again: Outcome, verified: Outcome)
    requires ManifestOk(rows) && lib.Regular(rows) && Plannable(rows, lib.modules, false, tools)
    modifies lib
    ensures AllAfter(rows, lib.modules, tools) && Installed(rows, old(lib.modules), lib.modules, lib.cache, tools)
    ensures Between(rows, old(lib.modules), lib.modules, tools)
    ensures again.Done? && (forall a :: a in again.actions ==> a.1 == AlreadyApplied)
    ensures verified.Done?
  {
    for i := 0 to |budgets|
      invariant Between(rows, old(lib.modules), lib.modules, tools) && lib.Regular(rows)
    {
      Step(lib, rows, tools, budgets[i], old(lib.modules));
    }
    CompleteRun(lib, rows, tools, old(lib.modules));
    InstalledIsAfter(rows, old(lib.modules), lib.modules, lib.cache, tools);
    again, verified := Recheck(lib, rows, tools);
  }

  /** Another run over installed modules, and a verification: both succeed and neither changes a module. */
  method Recheck(lib: Stdlib, rows: seq<Row>, tools: Tools) returns (again: Outcome, verified: Outcome)
    requires ManifestOk(rows) && lib.Regular(rows)
    requires Plannable(rows, lib.modules, false, tools) && Plannable(rows, lib.modules, true, tools)
    requires forall r :: r in rows ==> Plan(r, lib.modules[r.name], false, tools) == Some(lib.modules[r.name])
    requires forall r :: r in rows ==> Cached(lib.cache, r.name) == {}
    modifies lib
    ensures lib.modules == old(lib.modules) && again.Done? && verified.Done?
    ensures again.actions == Actions(rows, old(lib.modules), false, tools)
    ensures forall r :: r in rows ==> Cached(lib.cache, r.name) == {}
  {
    again := lib.Apply(rows, false, tools, Work(rows, lib.cache));
    assert lib.modules == old(lib.modules) by {
      forall n | n in lib.modules ensures lib.modules[n] == old(lib.modules)[n] {
        if n in NamesOf(rows) {
          var r :| r in rows && r.name == n;
          assert Plan(r, old(lib.modules)[r.name], false, tools) == Some(old(lib.modules)[r.name]);
        }
      }
    }
    verified := lib.Apply(rows, true, tools, 0);
  }

  /** One run that is not cut off, whatever was left by those before it. */
  method CompleteRun(lib: Stdlib, rows: seq<Row>, tools: Tools, ghost from: map<Name, Bytes>)
    requires ManifestOk(rows) && lib.Regular(rows)
    requires Plannable(rows, from, false, tools) && Between(rows, from, lib.modules, tools)
    modifies lib
    ensures lib.Regular(rows)
    ensures Between(rows, from, lib.modules, tools) && Installed(rows, from, lib.modules, lib.cache, tools)
  {
    ghost var before := lib.modules;
    ReplanAgrees(rows, from, before, tools);
    var r := lib.Apply(rows, false, tools, Work(rows, lib.cache));
    BetweenComposes(rows, from, before, lib.modules, tools);
  }

  /** Python caches bytecode anew, in regular files. */
  method CacheAgain(lib: Stdlib, rows: seq<Row>)
    requires lib.Regular(rows)
    modifies lib`cache
    ensures lib.Regular(rows)
  {
    var again: map<Name, set<string>> := *;
    if forall r :: r in rows ==> Cached(again, r.name) !! lib.odd { lib.cache := again; }
  }

  /** One interrupted run, after bytecode was cached anew. */
  method Step(lib: Stdlib, rows: seq<Row>, tools: Tools, steps: nat, ghost from: map<Name, Bytes>)
    requires ManifestOk(rows) && lib.Regular(rows)
    requires Plannable(rows, from, false, tools) && Between(rows, from, lib.modules, tools)
    modifies lib
    ensures lib.Regular(rows) && Between(rows, from, lib.modules, tools)
  {
    CacheAgain(lib, rows);
    ghost var before := lib.modules;
    ReplanAgrees(rows, from, before, tools);
    var r := lib.Apply(rows, false, tools, steps);
    BetweenComposes(rows, from, before, lib.modules, tools);
  }

  /** Installed modules are at their digests, need no further change and pass verification. */
  lemma InstalledIsAfter(rows: seq<Row>, from: map<Name, Bytes>, now: map<Name, Bytes>,
                                            cache: map<Name, set<string>>, tools: Tools)
    requires Plannable(rows, from, false, tools) && Installed(rows, from, now, cache, tools)
    ensures AllAfter(rows, now, tools)
    ensures Plannable(rows, now, false, tools) && Plannable(rows, now, true, tools)
    ensures forall r :: r in rows ==> Plan(r, now[r.name], false, tools) == Some(now[r.name])
    ensures forall a :: a in Actions(rows, now, false, tools) ==> a.1 == AlreadyApplied
  {
    forall r | r in rows
      ensures r.name in now && tools.digest(now[r.name]) == r.after
      ensures Plan(r, now[r.name], false, tools) == Some(now[r.name]) && Plan(r, now[r.name], true, tools) == Some(now[r.name])
    {
      PlanIsStable(r, from[r.name], tools);
    }
    forall a | a in Actions(rows, now, false, tools) ensures a.1 == AlreadyApplied {
      var i :| 0 <= i < |rows| && Actions(rows, now, false, tools)[i] == a;
      assert rows[i] in rows;
    }
  }
}
