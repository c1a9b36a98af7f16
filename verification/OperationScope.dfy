/**
  Nested operations of the migration's database handle: each may shorten the
  deadline and change the workspace for what runs inside it, and undoes both when
  it is left, normally or by an exception.
*/
module OperationScope {
  import opened Text

  /** What a program does with one handle; the reals are the clock readings it makes. */
  datatype Action =
    | Dispatch(at: real)
    | Operation(entered: real, checked: real, finished: real, deadline: Option<real>, workspace: Option<string>, body: seq<Action>)
    | Raise

  datatype Dispatched = Dispatched(deadline: real, workspace: Option<string>)

  /** An operation that is still open. */
  datatype Scope = Scope(end: real, workspace: Option<string>)

  function Min(a: real, b: real): real {
    if a <= b then a else b
  }

  // ----------------------------------------------------------- specification

  /** The earliest end of all open operations. */
  function Earliest(scopes: seq<Scope>): Option<real> {
    if scopes == [] then None
    else
      var outer, end := Earliest(scopes[..|scopes| - 1]), scopes[|scopes| - 1].end;
      Some(if outer.None? then end else Min(end, outer.value))
  }

  /** The workspace of the innermost open operation that names one. */
  function Innermost(scopes: seq<Scope>): Option<string> {
    if scopes == [] then None
    else if scopes[|scopes| - 1].workspace.Some? then scopes[|scopes| - 1].workspace
    else Innermost(scopes[..|scopes| - 1])
  }

  datatype Trace = Trace(dispatched: seq<Dispatched>, ok: bool)

  function ScopeOf(a: Action, seconds: real): Scope
    requires a.Operation?
  {
    Scope(if a.deadline.None? then a.entered + seconds else a.deadline.value, a.workspace)
  }

  /** What a program means under the operations that are open around it: no state, nothing to undo. */
  function Meaning(actions: seq<Action>, scopes: seq<Scope>, timeout: real, seconds: real): Trace
    decreases actions
  {
    if actions == [] then Trace([], true)
    else
      var first := MeaningOf(actions[0], scopes, timeout, seconds);
      if !first.ok then first
      else
        var rest := Meaning(actions[1..], scopes, timeout, seconds);
        Trace(first.dispatched + rest.dispatched, rest.ok)
  }

  function MeaningOf(a: Action, scopes: seq<Scope>, timeout: real, seconds: real): Trace
    decreases a
  {
    match a
    case Raise => Trace([], false)
    case Dispatch(at) => Trace([Dispatched(Allowed(at + timeout, scopes), Innermost(scopes))], true)
    case Operation(_, checked, finished, _, _, body) =>
      var inside := scopes + [ScopeOf(a, seconds)];
      if !Open(checked, inside) then Trace([], false)
      else
        var t := Meaning(body, inside, timeout, seconds);
        Trace(t.dispatched, t.ok && Open(finished, inside))
  }

  predicate Open(now: real, scopes: seq<Scope>) {
    Earliest(scopes).Some? ==> now < Earliest(scopes).value
  }

  /** This end, unless an open operation ends earlier. */
  function Allowed(end: real, scopes: seq<Scope>): real {
    if Earliest(scopes).None? then end else Min(end, Earliest(scopes).value)
  }

  /** A program did what a trace says. */
  ghost predicate Did(before: seq<Dispatched>, after: seq<Dispatched>, ok: bool, t: Trace) {
    after == before + t.dispatched && ok == t.ok
  }

  /** The end and the workspace of one more open operation. */
  lemma EnterScope(scopes: seq<Scope>, s: Scope)
    ensures var outer := Earliest(scopes);
            Earliest(scopes + [s]) == Some(if outer.None? then s.end else Min(s.end, outer.value))
    ensures Innermost(scopes + [s]) == if s.workspace.Some? then s.workspace else Innermost(scopes)
  {
    assert (scopes + [s])[..|scopes|] == scopes;
  }

  /** An operation means nothing if it starts too late, and otherwise its body, unless it ends too late. */
  lemma OperationMeans(a: Action, scopes: seq<Scope>, timeout: real, seconds: real)
    requires a.Operation?
    ensures var inside := scopes + [ScopeOf(a, seconds)];
            var body := Meaning(a.body, inside, timeout, seconds);
            MeaningOf(a, scopes, timeout, seconds)
            == if Open(a.checked, inside) then Trace(body.dispatched, body.ok && Open(a.finished, inside)) else Trace([], false)
  {
  }

  // ------------------------------------------------------------------ handle

  class Database {
    const timeout: real
    const operationSeconds: real
    var operationDeadline: Option<real>
    var workspace: Option<string>
    var dispatched: seq<Dispatched>

    constructor (timeout: real, operationSeconds: real)
      ensures this.timeout == timeout && this.operationSeconds == operationSeconds
      ensures operationDeadline == Earliest([]) && workspace == Innermost([]) && dispatched == []
    {
      this.timeout, this.operationSeconds := timeout, operationSeconds;
      operationDeadline, workspace, dispatched := None, None, [];
    }

    /** Run a program; whatever it nests and wherever it fails, the handle is left as it was found. */
    method Perform(actions: seq<Action>, ghost scopes: seq<Scope>) returns (ok: bool)
      requires operationDeadline == Earliest(scopes) && workspace == Innermost(scopes)
      modifies this`operationDeadline, this`workspace, this`dispatched
      ensures operationDeadline == old(operationDeadline) && workspace == old(workspace)
      ensures Did(old(dispatched), dispatched, ok, Meaning(actions, scopes, timeout, operationSeconds))
      decreases actions
    {
      if actions == [] { return true; }
      ok := PerformOne(actions[0], scopes);
      if ok {
        ok := Perform(actions[1..], scopes);
      }
    }

    method PerformOne(a: Action, ghost scopes: seq<Scope>) returns (ok: bool)
      requires operationDeadline == Earliest(scopes) && workspace == Innermost(scopes)
      modifies this`operationDeadline, this`workspace, this`dispatched
      ensures operationDeadline == old(operationDeadline) && workspace == old(workspace)
      ensures Did(old(dispatched), dispatched, ok, MeaningOf(a, scopes, timeout, operationSeconds))
      decreases a, 1
    {
      match a {
        case Raise => ok := false;
        case Dispatch(at) =>
          var end := if operationDeadline.None? then at + timeout else Min(at + timeout, operationDeadline.value);
          dispatched := dispatched + [Dispatched(end, workspace)];
          ok := true;
        case Operation(_, _, _, _, _, _) => ok := Within(a, scopes);
      }
    }

    /** `operation`: save, shorten, run the body between two checks, restore. */
    method Within(a: Action, ghost scopes: seq<Scope>) returns (ok: bool)
      requires a.Operation? && operationDeadline == Earliest(scopes) && workspace == Innermost(scopes)
      modifies this`operationDeadline, this`workspace, this`dispatched
      ensures operationDeadline == old(operationDeadline) && workspace == old(workspace)
      ensures Did(old(dispatched), dispatched, ok, MeaningOf(a, scopes, timeout, operationSeconds))
      decreases a, 0
    {
      var deadline, outer := operationDeadline, workspace;
      ghost var scope := ScopeOf(a, operationSeconds);
      EnterScope(scopes, scope);
      OperationMeans(a, scopes, timeout, operationSeconds);
      var end := if a.deadline.None? then a.entered + operationSeconds else a.deadline.value;
      var limit := if deadline.None? then end else Min(end, deadline.value);
      operationDeadline := Some(limit);
      if a.workspace.Some? { workspace := a.workspace; }
      ok := a.checked < limit;
      if ok {
        ok := Perform(a.body, scopes + [scope]);
        ok := ok && a.finished < limit;
      }
      operationDeadline, workspace := deadline, outer;
    }
  }

  // -------------------------------------------------------- what nesting means

  lemma {:induction false} EarliestBounds(scopes: seq<Scope>, s: Scope)
    requires s in scopes
    ensures Earliest(scopes).Some? && Earliest(scopes).value <= s.end
  {
    var n := |scopes| - 1;
    if s != scopes[n] { EarliestBounds(scopes[..n], s); }
  }

  /** The earliest end is the end of some open operation, and no other is earlier. */
  lemma {:induction false} EarliestIsLeast(scopes: seq<Scope>, end: real)
    ensures Earliest(scopes) == Some(end) <==>
              && (exists i :: 0 <= i < |scopes| && scopes[i].end == end)
              && (forall i :: 0 <= i < |scopes| ==> end <= scopes[i].end)
  {
    if scopes != [] {
      var n := |scopes| - 1;
      EarliestIsLeast(scopes[..n], end);
      if n > 0 { EarliestIsLeast(scopes[..n], Earliest(scopes[..n]).value); }
      assert forall i :: 0 <= i < n ==> scopes[..n][i] == scopes[i];
    }
  }

  /** The workspace in force is that of the last open operation that names one. */
  lemma {:induction false} InnermostIsLast(scopes: seq<Scope>, workspace: string)
    ensures Innermost(scopes) == Some(workspace) <==>
              exists i :: 0 <= i < |scopes| && scopes[i].workspace == Some(workspace)
                          && forall j :: i < j < |scopes| ==> scopes[j].workspace.None?
  {
    if scopes != [] {
      var n := |scopes| - 1;
      InnermostIsLast(scopes[..n], workspace);
      assert forall i :: 0 <= i < n ==> scopes[..n][i] == scopes[i];
    }
  }

  /** A command's deadline is its own timeout or the end of an open operation, whichever is earliest. */
  lemma DispatchIsExact(at: real, scopes: seq<Scope>, timeout: real, seconds: real) returns (d: Dispatched)
    ensures MeaningOf(Dispatch(at), scopes, timeout, seconds) == Trace([d], true)
    ensures d.deadline <= at + timeout && forall i :: 0 <= i < |scopes| ==> d.deadline <= scopes[i].end
    ensures d.deadline == at + timeout || exists i :: 0 <= i < |scopes| && scopes[i].end == d.deadline
  {
    d := Dispatched(Allowed(at + timeout, scopes), Innermost(scopes));
    EarliestIsSome(scopes);
    if scopes != [] { EarliestIsLeast(scopes, Earliest(scopes).value); }
  }

  lemma EarliestIsSome(scopes: seq<Scope>)
    ensures Earliest(scopes).Some? <==> scopes != []
  {
  }

  /** At this time no open operation has ended. */
  ghost predicate AllOpen(now: real, scopes: seq<Scope>) {
    forall i :: 0 <= i < |scopes| ==> now < scopes[i].end
  }

  lemma OpenIsAllOpen(now: real, scopes: seq<Scope>)
    ensures Open(now, scopes) <==> AllOpen(now, scopes)
  {
    EarliestIsSome(scopes);
    if scopes != [] { EarliestIsLeast(scopes, Earliest(scopes).value); }
  }

  /** Nothing is raised, and every operation is entered and finished while it and all around it are open. */
  ghost predicate InTime(actions: seq<Action>, scopes: seq<Scope>, seconds: real)
    decreases actions
  {
    actions != [] ==> InTimeOne(actions[0], scopes, seconds) && InTime(actions[1..], scopes, seconds)
  }

  ghost predicate InTimeOne(a: Action, scopes: seq<Scope>, seconds: real)
    decreases a
  {
    match a
    case Raise => false
    case Dispatch(_) => true
    case Operation(_, checked, finished, _, _, body) =>
      var inside := scopes + [ScopeOf(a, seconds)];
      AllOpen(checked, inside) && InTime(body, inside, seconds) && AllOpen(finished, inside)
  }

  /** A program ends normally if and only if nothing in it is raised or late. */
  lemma {:induction false} OkIsInTime(actions: seq<Action>, scopes: seq<Scope>, timeout: real, seconds: real)
    ensures Meaning(actions, scopes, timeout, seconds).ok <==> InTime(actions, scopes, seconds)
    decreases actions
  {
    if actions != [] {
      OkIsInTimeOne(actions[0], scopes, timeout, seconds);
      OkIsInTime(actions[1..], scopes, timeout, seconds);
    }
  }

  lemma {:induction false} OkIsInTimeOne(a: Action, scopes: seq<Scope>, timeout: real, seconds: real)
    ensures MeaningOf(a, scopes, timeout, seconds).ok <==> InTimeOne(a, scopes, seconds)
    decreases a
  {
    if a.Operation? {
      var inside := scopes + [ScopeOf(a, seconds)];
      OpenIsAllOpen(a.checked, inside);
      OpenIsAllOpen(a.finished, inside);
      OkIsInTime(a.body, inside, timeout, seconds);
    }
  }

  /** Where no operation of a program names a workspace, all its commands run in the one in force around it. */
  lemma {:induction false} WorkspaceIsInherited(actions: seq<Action>, scopes: seq<Scope>, timeout: real, seconds: real, d: Dispatched)
    requires NamesNone(actions) && d in Meaning(actions, scopes, timeout, seconds).dispatched
    ensures d.workspace == Innermost(scopes)
    decreases actions
  {
    if d in MeaningOf(actions[0], scopes, timeout, seconds).dispatched {
      if actions[0].Operation? {
        EnterScope(scopes, ScopeOf(actions[0], seconds));
        WorkspaceIsInherited(actions[0].body, scopes + [ScopeOf(actions[0], seconds)], timeout, seconds, d);
      }
    } else {
      WorkspaceIsInherited(actions[1..], scopes, timeout, seconds, d);
    }
  }

  ghost predicate NamesNone(actions: seq<Action>)
    decreases actions
  {
    actions != [] ==>
      && (actions[0].Operation? ==> actions[0].workspace.None? && NamesNone(actions[0].body))
      && NamesNone(actions[1..])
  }

  /** No command is dispatched with a deadline past the end of any operation open around it. */
  lemma {:induction false} NestingOnlyShortens(actions: seq<Action>, scopes: seq<Scope>, timeout: real, seconds: real, s: Scope, d: Dispatched)
    requires s in scopes && d in Meaning(actions, scopes, timeout, seconds).dispatched
    ensures d.deadline <= s.end
    decreases actions
  {
    if d in MeaningOf(actions[0], scopes, timeout, seconds).dispatched {
      match actions[0] {
        case Dispatch(_) => EarliestBounds(scopes, s);
        case Operation(_, _, _, _, _, body) =>
          NestingOnlyShortens(body, scopes + [ScopeOf(actions[0], seconds)], timeout, seconds, s, d);
      }
    } else {
      NestingOnlyShortens(actions[1..], scopes, timeout, seconds, s, d);
    }
  }
}
