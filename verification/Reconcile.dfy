/** Reconciliation of the messages and results that an inventory found. */
module Reconcile {
  import opened Totals

  datatype Location = Queued | Reserved

  datatype Message = Message(taskId: string, db: nat, execution: string, location: Location)

  datatype Status = Pending | Received | Started | Success | Failure | Retry | Revoked
  {
    predicate Terminal() {
      Success? || Failure? || Revoked?
    }
  }

  datatype Outcome = Outcome(taskId: string, metadata: string, status: Status)

  datatype Reason =
    | DuplicateTaskId | CrossDatabaseDuplicate | ConflictingExecution | QueuedReservedOverlap
    | ConflictingMetadata | TerminalResultPresent | CompletionUnknown | ManualDecisionRequired

  datatype Review = Review(taskId: string, reasons: seq<Reason>, messageCopies: nat, resultCopies: nat)

  /** The messages, or the results, of one task, in the order they were found. */
  function Jobs(messages: seq<Message>, id: string): seq<Message> {
    if messages == [] then []
    else
      var last := messages[|messages| - 1];
      Jobs(messages[..|messages| - 1], id) + if last.taskId == id then [last] else []
  }

  function Outcomes(results: seq<Outcome>, id: string): seq<Outcome> {
    if results == [] then []
    else
      var last := results[|results| - 1];
      Outcomes(results[..|results| - 1], id) + if last.taskId == id then [last] else []
  }

  function Ids(messages: seq<Message>, results: seq<Outcome>): set<string> {
    (set m | m in messages :: m.taskId) + (set r | r in results :: r.taskId)
  }

  // ------------------------------------------------------------------ grouping

  method GroupJobs(messages: seq<Message>) returns (groups: map<string, seq<Message>>)
    ensures forall id :: (id in groups <==> Jobs(messages, id) != []) && (id in groups ==> groups[id] == Jobs(messages, id))
  {
    groups := map[];
    for i := 0 to |messages|
      invariant forall id :: (id in groups <==> Jobs(messages[..i], id) != [])
                             && (id in groups ==> groups[id] == Jobs(messages[..i], id))
    {
      var id := messages[i].taskId;
      assert messages[..i + 1][..i] == messages[..i];
      groups := groups[id := (if id in groups then groups[id] else []) + [messages[i]]];
    }
    assert messages[..|messages|] == messages;
  }

  method GroupOutcomes(results: seq<Outcome>) returns (groups: map<string, seq<Outcome>>)
    ensures forall id :: (id in groups <==> Outcomes(results, id) != [])
                         && (id in groups ==> groups[id] == Outcomes(results, id))
  {
    groups := map[];
    for i := 0 to |results|
      invariant forall id :: (id in groups <==> Outcomes(results[..i], id) != [])
                             && (id in groups ==> groups[id] == Outcomes(results[..i], id))
    {
      var id := results[i].taskId;
      assert results[..i + 1][..i] == results[..i];
      groups := groups[id := (if id in groups then groups[id] else []) + [results[i]]];
    }
    assert results[..|results|] == results;
  }

  function If(condition: bool, reason: Reason): seq<Reason> {
    if condition then [reason] else []
  }

  /** The first five reasons, in the order they are listed. */
  function Conflicts(copies: bool, databases: bool, executions: bool, locations: bool, metadata: bool): seq<Reason> {
    If(copies, DuplicateTaskId) + If(databases, CrossDatabaseDuplicate) + If(executions, ConflictingExecution)
    + If(locations, QueuedReservedOverlap) + If(metadata, ConflictingMetadata)
  }

  /** The reasons that every task with messages has. */
  function Decisions(jobs: seq<Message>, outcomes: seq<Outcome>): seq<Reason> {
    if jobs == [] then []
    else [if exists r :: r in outcomes && r.status.Terminal() then TerminalResultPresent else CompletionUnknown,
          ManualDecisionRequired]
  }

  /** The reasons to review one task, in the order they are listed. */
  function Reasons(jobs: seq<Message>, outcomes: seq<Outcome>): seq<Reason> {
    Conflicts(|jobs| > 1, |set j | j in jobs :: j.db| > 1, |set j | j in jobs :: j.execution| > 1,
              (set j | j in jobs :: j.location) == {Queued, Reserved}, |set r | r in outcomes :: r.metadata| > 1)
    + Decisions(jobs, outcomes)
  }

  function ReviewOf(messages: seq<Message>, results: seq<Outcome>, id: string): Review {
    var jobs, outcomes := Jobs(messages, id), Outcomes(results, id);
    Review(id, Reasons(jobs, outcomes), |jobs|, |outcomes|)
  }

  function TotalCopies(reviews: seq<Review>): nat {
    if reviews == [] then 0 else TotalCopies(reviews[..|reviews| - 1]) + reviews[|reviews| - 1].messageCopies
  }

  /** The messages whose task is still among these. */
  function Remaining(messages: seq<Message>, ids: set<string>): nat {
    if messages == [] then 0
    else Remaining(messages[..|messages| - 1], ids) + if messages[|messages| - 1].taskId in ids then 1 else 0
  }

  lemma {:induction false} RemainingStep(messages: seq<Message>, ids: set<string>, id: string)
    requires id in ids
    ensures Remaining(messages, ids) == Remaining(messages, ids - {id}) + |Jobs(messages, id)|
  {
    if messages != [] { RemainingStep(messages[..|messages| - 1], ids, id); }
  }

  lemma {:induction false} RemainingAll(messages: seq<Message>, ids: set<string>)
    ensures (forall m :: m in messages ==> m.taskId in ids) ==> Remaining(messages, ids) == |messages|
    ensures ids == {} ==> Remaining(messages, ids) == 0
  {
    if messages != [] {
      RemainingAll(messages[..|messages| - 1], ids);
      assert messages[|messages| - 1] in messages;
    }
  }

  // ----------------------------------------------------------------- task order

  /** The order of strings by code points. */
  predicate Before(a: string, b: string) {
    b != "" && (a == "" || a[0] < b[0] || (a[0] == b[0] && Before(a[1..], b[1..])))
  }

  lemma {:induction false} BeforeIsTotal(a: string, b: string)
    ensures a == b || Before(a, b) || Before(b, a)
    ensures !(Before(a, b) && Before(b, a)) && !Before(a, a)
  {
    if a != "" && b != "" && a[0] == b[0] {
      BeforeIsTotal(a[1..], b[1..]);
      assert a == [a[0]] + a[1..] && b == [b[0]] + b[1..];
    }
    if a != "" { BeforeItself(a); }
  }

  lemma {:induction false} BeforeItself(a: string)
    ensures !Before(a, a)
  {
    if a != "" { BeforeItself(a[1..]); }
  }

  lemma {:induction false} BeforeIsTransitive(a: string, b: string, c: string)
    requires Before(a, b) && Before(b, c)
    ensures Before(a, c)
  {
    if a != "" && a[0] == b[0] && b[0] == c[0] { BeforeIsTransitive(a[1..], b[1..], c[1..]); }
  }

  /** The first of these in order. */
  method First(ids: set<string>) returns (id: string)
    requires ids != {}
    ensures id in ids && forall x :: x in ids && x != id ==> Before(id, x)
  {
    id :| id in ids;
    var left := ids - {id};
    while left != {}
      invariant left <= ids && id in ids && id !in left
      invariant forall x :: x in ids && x !in left && x != id ==> Before(id, x)
      decreases left
    {
      var next :| next in left;
      left := left - {next};
      BeforeIsTotal(id, next);
      if Before(next, id) {
        forall x | x in ids && x !in left && x != next ensures Before(next, x) {
          if x != id { BeforeIsTransitive(next, id, x); }
        }
        id := next;
      }
    }
  }

  /** Of these tasks, each that `review` has reasons for is listed, once and in order, and nothing else is. */
  ghost predicate Lists(reviews: seq<Review>, review: string -> Review, ids: set<string>) {
    && (forall i, j :: 0 <= i < j < |reviews| ==> Before(reviews[i].taskId, reviews[j].taskId))
    && (forall r :: r in reviews ==> r.taskId in ids && r == review(r.taskId) && r.reasons != [])
    && (forall id :: id in ids && review(id).reasons != [] ==> review(id) in reviews)
  }

  lemma ListsNext(reviews: seq<Review>, review: string -> Review, ids: set<string>, id: string)
    requires Lists(reviews, review, ids) && review(id).taskId == id && forall x :: x in ids ==> Before(x, id)
    ensures Lists(if review(id).reasons != [] then reviews + [review(id)] else reviews, review, ids + {id})
  {
    var r := review(id);
    if r.reasons != [] {
      var more := reviews + [r];
      assert r in more;
      assert forall s :: s in reviews ==> s in more;
      forall i, j | 0 <= i < j < |more| ensures Before(more[i].taskId, more[j].taskId) {
        assert more[i] == reviews[i] && reviews[i] in reviews;
      }
    }
  }

  ghost function Reviewer(messages: seq<Message>, results: seq<Outcome>): string -> Review {
    id => ReviewOf(messages, results, id)
  }

  lemma CopiesAppend(reviews: seq<Review>, r: Review)
    ensures TotalCopies(reviews + [r]) == TotalCopies(reviews) + r.messageCopies
  {
    assert (reviews + [r])[..|reviews|] == reviews;
  }

  ghost predicate Grouped(jobsOf: map<string, seq<Message>>, outcomesOf: map<string, seq<Outcome>>,
                          messages: seq<Message>, results: seq<Outcome>) {
    && (forall id :: (id in jobsOf <==> Jobs(messages, id) != []) && (id in jobsOf ==> jobsOf[id] == Jobs(messages, id)))
    && (forall id :: (id in outcomesOf <==> Outcomes(results, id) != [])
                     && (id in outcomesOf ==> outcomesOf[id] == Outcomes(results, id)))
  }

  ghost predicate AllBefore(done: set<string>, left: set<string>) {
    forall x, y :: x in done && y in left ==> Before(x, y)
  }

  lemma OneMoreDone(done: set<string>, left: set<string>, id: string)
    requires AllBefore(done, left) && id in left && forall x :: x in left && x != id ==> Before(id, x)
    ensures AllBefore(done + {id}, left - {id}) && forall x :: x in done ==> Before(x, id)
  {
  }

  /** Of these tasks all but the ones left are reviewed, and no message is lost or counted twice. */
  ghost predicate Progress(reviews: seq<Review>, messages: seq<Message>, results: seq<Outcome>, ids: set<string>, left: set<string>) {
    && left <= ids && AllBefore(ids - left, left) && Lists(reviews, Reviewer(messages, results), ids - left)
    && TotalCopies(reviews) + Remaining(messages, left) == Remaining(messages, ids)
  }

  lemma ListsMore(reviews: seq<Review>, next: Review, review: string -> Review, ids: set<string>, left: set<string>, id: string)
    requires left <= ids && AllBefore(ids - left, left) && Lists(reviews, review, ids - left)
    requires id in left && (forall x :: x in left && x != id ==> Before(id, x)) && next == review(id) && next.taskId == id
    ensures AllBefore(ids - (left - {id}), left - {id})
    ensures Lists(if next.reasons != [] then reviews + [next] else reviews, review, ids - (left - {id}))
  {
    OneMoreDone(ids - left, left, id);
    ListsNext(reviews, review, ids - left, id);
    assert ids - (left - {id}) == ids - left + {id};
  }

  lemma CopiesMore(reviews: seq<Review>, next: Review, messages: seq<Message>, ids: set<string>, left: set<string>, id: string)
    requires id in left && TotalCopies(reviews) + Remaining(messages, left) == Remaining(messages, ids)
    requires next.messageCopies == |Jobs(messages, id)| && (next.reasons == [] ==> next.messageCopies == 0)
    ensures TotalCopies(if next.reasons != [] then reviews + [next] else reviews) + Remaining(messages, left - {id})
         == Remaining(messages, ids)
  {
    RemainingStep(messages, left, id);
    CopiesAppend(reviews, next);
  }

  /** Review one more task. */
  method AddReview(jobsOf: map<string, seq<Message>>, outcomesOf: map<string, seq<Outcome>>,
                   ghost messages: seq<Message>, ghost results: seq<Outcome>, id: string,
                   before: seq<Review>, ghost ids: set<string>, ghost left: set<string>) returns (reviews: seq<Review>)
    requires Grouped(jobsOf, outcomesOf, messages, results)
    requires Progress(before, messages, results, ids, left) && id in left
    requires forall x :: x in left && x != id ==> Before(id, x)
    ensures Progress(reviews, messages, results, ids, left - {id})
  {
    var next := ReviewTask(jobsOf, outcomesOf, messages, results, id);
    ListsMore(before, next, Reviewer(messages, results), ids, left, id);
    CopiesMore(before, next, messages, ids, left, id);
    reviews := if next.reasons != [] then before + [next] else before;
  }

  /** Review these tasks in order. */
  method ReviewAll(jobsOf: map<string, seq<Message>>, outcomesOf: map<string, seq<Outcome>>,
                   ghost messages: seq<Message>, ghost results: seq<Outcome>, ids: set<string>) returns (reviews: seq<Review>)
    requires Grouped(jobsOf, outcomesOf, messages, results)
    ensures Progress(reviews, messages, results, ids, {})
  {
    reviews := [];
    var left := ids;
    while left != {}
      invariant Progress(reviews, messages, results, ids, left)
      decreases left
    {
      var id := First(left);
      reviews := AddReview(jobsOf, outcomesOf, messages, results, id, reviews, ids, left);
      left := left - {id};
    }
  }

  /**
    `reconcile`: one review per task that has a reason, in task order, and the
    message copies of all reviews add up to the messages.
  */
  method ReconcileAll(messages: seq<Message>, results: seq<Outcome>) returns (reviews: seq<Review>)
    ensures Lists(reviews, Reviewer(messages, results), Ids(messages, results))
    ensures TotalCopies(reviews) == |messages|
  {
    var jobsOf := GroupJobs(messages);
    var outcomesOf := GroupOutcomes(results);
    reviews := ReviewAll(jobsOf, outcomesOf, messages, results, Ids(messages, results));
    RemainingAll(messages, Ids(messages, results));
    RemainingAll(messages, {});
    assert Ids(messages, results) - {} == Ids(messages, results);
  }

  method ReviewTask(jobsOf: map<string, seq<Message>>, outcomesOf: map<string, seq<Outcome>>,
                    ghost messages: seq<Message>, ghost results: seq<Outcome>, id: string) returns (review: Review)
    requires (id in jobsOf <==> Jobs(messages, id) != []) && (id in jobsOf ==> jobsOf[id] == Jobs(messages, id))
    requires (id in outcomesOf <==> Outcomes(results, id) != []) && (id in outcomesOf ==> outcomesOf[id] == Outcomes(results, id))
    ensures review == Reviewer(messages, results)(id) && review.taskId == id
    ensures review.messageCopies == |Jobs(messages, id)| && (review.reasons == [] ==> review.messageCopies == 0)
  {
    var jobs := if id in jobsOf then jobsOf[id] else [];
    var outcomes := if id in outcomesOf then outcomesOf[id] else [];
    review := Review(id, Reasons(jobs, outcomes), |jobs|, |outcomes|);
  }

  // ------------------------------------------------------- what a review means

  lemma {:induction false} JobsAreMessages(messages: seq<Message>, id: string, m: Message)
    ensures m in Jobs(messages, id) <==> m in messages && m.taskId == id
  {
    if messages != [] {
      assert messages == messages[..|messages| - 1] + [messages[|messages| - 1]];
      JobsAreMessages(messages[..|messages| - 1], id, m);
    }
  }

  lemma {:induction false} OutcomesAreResults(results: seq<Outcome>, id: string, r: Outcome)
    ensures r in Outcomes(results, id) <==> r in results && r.taskId == id
  {
    if results != [] {
      assert results == results[..|results| - 1] + [results[|results| - 1]];
      OutcomesAreResults(results[..|results| - 1], id, r);
    }
  }

  lemma ReasonsOf(jobs: seq<Message>, outcomes: seq<Outcome>)
    ensures jobs != [] <==> ManualDecisionRequired in Reasons(jobs, outcomes)
    ensures TerminalResultPresent in Reasons(jobs, outcomes) <==>
              jobs != [] && exists r :: r in outcomes && r.status.Terminal()
    ensures CompletionUnknown in Reasons(jobs, outcomes) <==>
              jobs != [] && !exists r :: r in outcomes && r.status.Terminal()
    ensures jobs == [] ==> (Reasons(jobs, outcomes) != [] <==> |set r | r in outcomes :: r.metadata| > 1)
  {
    assert (set j: Message | j in jobs :: j.location) == {Queued, Reserved} ==> Queued in {Queued, Reserved};
    if jobs == [] {
      assert (set j: Message | j in jobs :: j.db) == {} && (set j: Message | j in jobs :: j.execution) == {};
      assert (set j: Message | j in jobs :: j.location) == {};
      assert Queued in {Queued, Reserved};
    }
  }

  /**
    Every task with a message demands a manual decision and says exactly one of
    "terminal result present" and "completion unknown": the former if and only if
    one of its own results is terminal.  A task without messages is reviewed only
    if its results contradict each other.
  */
  lemma ReviewIsSound(messages: seq<Message>, results: seq<Outcome>, id: string)
    ensures var reasons := ReviewOf(messages, results, id).reasons;
            var queued := exists m :: m in messages && m.taskId == id;
            var finished := exists r :: r in results && r.taskId == id && r.status in {Success, Failure, Revoked};
            && (ManualDecisionRequired in reasons <==> queued)
            && (TerminalResultPresent in reasons <==> queued && finished)
            && (CompletionUnknown in reasons <==> queued && !finished)
            && (!queued ==> (reasons != [] <==> exists r, s ::
                  r in results && s in results && r.taskId == id && s.taskId == id && r.metadata != s.metadata))
  {
    var jobs, outcomes := Jobs(messages, id), Outcomes(results, id);
    ReasonsOf(jobs, outcomes);
    forall m ensures m in jobs <==> m in messages && m.taskId == id { JobsAreMessages(messages, id, m); }
    forall r ensures r in outcomes <==> r in results && r.taskId == id { OutcomesAreResults(results, id, r); }
    assert jobs != [] <==> exists m :: m in messages && m.taskId == id by {
      if jobs != [] { assert jobs[0] in jobs; }
    }
    SeveralMetadata(outcomes);
  }

  lemma SeveralMetadata(outcomes: seq<Outcome>)
    ensures |set r | r in outcomes :: r.metadata| > 1 <==>
            exists r, s :: r in outcomes && s in outcomes && r.metadata != s.metadata
  {
    var all := set r | r in outcomes :: r.metadata;
    Several(all);
    if r, s :| r in outcomes && s in outcomes && r.metadata != s.metadata {
      assert r.metadata in all && s.metadata in all;
    }
  }

  /** More than one element. */
  lemma Several<T>(all: set<T>)
    ensures |all| > 1 <==> exists x, y :: x in all && y in all && x != y
  {
    if x, y :| x in all && y in all && x != y {
      assert {x, y} <= all;
      SubsetSize({x, y}, all);
    } else if all != {} {
      var x :| x in all;
      assert all == {x};
    }
  }

  // -------------------------------------------------- what every reason means

  /** A task's messages keep their order; these are their positions. */
  lemma {:induction false} JobsInOrder(messages: seq<Message>, id: string) returns (at: seq<nat>)
    ensures |at| == |Jobs(messages, id)| && (forall i, j :: 0 <= i < j < |at| ==> at[i] < at[j])
    ensures forall i :: 0 <= i < |at| ==> at[i] < |messages| && Jobs(messages, id)[i] == messages[at[i]]
    ensures forall i :: 0 <= i < |at| ==> messages[at[i]].taskId == id
    ensures forall k :: 0 <= k < |messages| && messages[k].taskId == id ==> k in at
  {
    if messages == [] { return []; }
    var n := |messages| - 1;
    at := JobsInOrder(messages[..n], id);
    if messages[n].taskId == id { at := at + [n]; }
  }

  /** Two messages of the task at different places. */
  ghost predicate TwoOf(messages: seq<Message>, id: string) {
    exists i, j :: 0 <= i < j < |messages| && messages[i].taskId == id && messages[j].taskId == id
  }

  lemma SeveralJobs(messages: seq<Message>, id: string)
    ensures |Jobs(messages, id)| > 1 <==> TwoOf(messages, id)
  {
    var at := JobsInOrder(messages, id);
    if |at| > 1 { assert at[0] < at[1]; }
    if TwoOf(messages, id) {
      var i, j :| 0 <= i < j < |messages| && messages[i].taskId == id && messages[j].taskId == id;
      assert i in at && j in at;
    }
  }

  /** Messages of this task that differ in what `of` says of them. */
  ghost predicate Differ<T(!new)>(messages: seq<Message>, id: string, of: Message -> T) {
    exists m, n :: m in messages && n in messages && m.taskId == id && n.taskId == id && of(m) != of(n)
  }

  lemma SeveralOf<T(!new)>(messages: seq<Message>, id: string, of: Message -> T)
    ensures |set j | j in Jobs(messages, id) :: of(j)| > 1 <==> Differ(messages, id, of)
  {
    var all := set j | j in Jobs(messages, id) :: of(j);
    Several(all);
    forall m ensures m in Jobs(messages, id) <==> m in messages && m.taskId == id { JobsAreMessages(messages, id, m); }
    if |all| > 1 {
      var x, y :| x in all && y in all && x != y;
      var m :| m in Jobs(messages, id) && of(m) == x;
      var n :| n in Jobs(messages, id) && of(n) == y;
      assert of(m) != of(n);
    }
    if Differ(messages, id, of) {
      var m, n :| m in messages && n in messages && m.taskId == id && n.taskId == id && of(m) != of(n);
      assert of(m) in all && of(n) in all;
    }
  }

  /** The results of a task, likewise. */
  lemma {:induction false} OutcomesInOrder(results: seq<Outcome>, id: string) returns (at: seq<nat>)
    ensures |at| == |Outcomes(results, id)| && (forall i, j :: 0 <= i < j < |at| ==> at[i] < at[j])
    ensures forall i :: 0 <= i < |at| ==> at[i] < |results| && Outcomes(results, id)[i] == results[at[i]]
    ensures forall k :: 0 <= k < |results| && results[k].taskId == id ==> k in at
  {
    if results == [] { return []; }
    var n := |results| - 1;
    at := OutcomesInOrder(results[..n], id);
    if results[n].taskId == id { at := at + [n]; }
  }

  lemma InReasons(jobs: seq<Message>, outcomes: seq<Outcome>, conflicts: seq<Reason>, r: Reason)
    requires Reasons(jobs, outcomes) == conflicts + Decisions(jobs, outcomes) && r !in Decisions(jobs, outcomes)
    ensures r in Reasons(jobs, outcomes) <==> r in conflicts
  {
  }

  lemma ReasonsListed(jobs: seq<Message>, outcomes: seq<Outcome>)
    ensures DuplicateTaskId in Reasons(jobs, outcomes) <==> |jobs| > 1
    ensures CrossDatabaseDuplicate in Reasons(jobs, outcomes) <==> |set j | j in jobs :: j.db| > 1
    ensures ConflictingExecution in Reasons(jobs, outcomes) <==> |set j | j in jobs :: j.execution| > 1
    ensures QueuedReservedOverlap in Reasons(jobs, outcomes) <==> (set j | j in jobs :: j.location) == {Queued, Reserved}
    ensures ConflictingMetadata in Reasons(jobs, outcomes) <==> |set r | r in outcomes :: r.metadata| > 1
  {
    var copies, databases, executions := |jobs| > 1, |set j | j in jobs :: j.db| > 1, |set j | j in jobs :: j.execution| > 1;
    var locations, metadata := (set j | j in jobs :: j.location) == {Queued, Reserved}, |set r | r in outcomes :: r.metadata| > 1;
    var conflicts := Conflicts(copies, databases, executions, locations, metadata);
    ConflictsListed(copies, databases, executions, locations, metadata);
    InReasons(jobs, outcomes, conflicts, DuplicateTaskId);
    InReasons(jobs, outcomes, conflicts, CrossDatabaseDuplicate);
    InReasons(jobs, outcomes, conflicts, ConflictingExecution);
    InReasons(jobs, outcomes, conflicts, QueuedReservedOverlap);
    InReasons(jobs, outcomes, conflicts, ConflictingMetadata);
  }

  lemma ConflictsListed(copies: bool, databases: bool, executions: bool, locations: bool, metadata: bool)
    ensures var reasons := Conflicts(copies, databases, executions, locations, metadata);
            && (DuplicateTaskId in reasons <==> copies) && (CrossDatabaseDuplicate in reasons <==> databases)
            && (ConflictingExecution in reasons <==> executions) && (QueuedReservedOverlap in reasons <==> locations)
            && (ConflictingMetadata in reasons <==> metadata)
  {
  }

  lemma BothLocations(jobs: seq<Message>)
    ensures (set j | j in jobs :: j.location) == {Queued, Reserved} <==> |set j | j in jobs :: j.location| > 1
  {
    var all := set j | j in jobs :: j.location;
    Several(all);
    if x, y :| x in all && y in all && x != y {
      assert Queued in all && Reserved in all by { assert x == Queued || y == Queued; }
      assert all == {Queued, Reserved};
    }
    if all == {Queued, Reserved} { assert Queued in all && Reserved in all; }
  }

  /**
    The first five reasons, in terms of the messages and the results: the same task
    twice; two of its messages in different databases, with different payloads, or
    one queued and one reserved; two of its results with different metadata.
  */
  lemma ReasonsMean(messages: seq<Message>, results: seq<Outcome>, id: string)
    ensures var reasons := ReviewOf(messages, results, id).reasons;
            && (DuplicateTaskId in reasons <==> TwoOf(messages, id))
            && (CrossDatabaseDuplicate in reasons <==> Differ(messages, id, (m: Message) => m.db))
            && (ConflictingExecution in reasons <==> Differ(messages, id, (m: Message) => m.execution))
            && (QueuedReservedOverlap in reasons <==> Differ(messages, id, (m: Message) => m.location))
            && (ConflictingMetadata in reasons <==> exists r, s ::
                  r in results && s in results && r.taskId == id && s.taskId == id && r.metadata != s.metadata)
  {
    var jobs, outcomes := Jobs(messages, id), Outcomes(results, id);
    ReasonsListed(jobs, outcomes);
    SeveralJobs(messages, id);
    Different(messages, id);
    BothLocations(jobs);
    SeveralMetadata(outcomes);
    forall r ensures r in outcomes <==> r in results && r.taskId == id { OutcomesAreResults(results, id, r); }
  }

  lemma Different(messages: seq<Message>, id: string)
    ensures |set j | j in Jobs(messages, id) :: j.db| > 1 <==> Differ(messages, id, (m: Message) => m.db)
    ensures |set j | j in Jobs(messages, id) :: j.execution| > 1 <==> Differ(messages, id, (m: Message) => m.execution)
    ensures |set j | j in Jobs(messages, id) :: j.location| > 1 <==> Differ(messages, id, (m: Message) => m.location)
  {
    var jobs := Jobs(messages, id);
    var db, execution, location := (m: Message) => m.db, (m: Message) => m.execution, (m: Message) => m.location;
    SeveralOf(messages, id, db);
    SeveralOf(messages, id, execution);
    SeveralOf(messages, id, location);
    assert (set j | j in jobs :: j.db) == set j | j in jobs :: db(j);
    assert (set j | j in jobs :: j.execution) == set j | j in jobs :: execution(j);
    assert (set j | j in jobs :: j.location) == set j | j in jobs :: location(j);
  }
}
