/**
  `split`: contiguous parts of whole test files, balanced by weight.  Weights are
  exact reals.
*/
module TestSplit {

  /** `node.split("::", 1)[0]` */
  function FileOf(node: string): string {
    if node == "" || (|node| >= 2 && node[..2] == "::") then "" else [node[0]] + FileOf(node[1..])
  }

  /** The keys of `counts_by_file`, in the order of first appearance. */
  function Files(nodes: seq<string>): seq<string> {
    if nodes == [] then []
    else
      var before := Files(nodes[..|nodes| - 1]);
      var name := FileOf(nodes[|nodes| - 1]);
      if name in before then before else before + [name]
  }

  function Count(nodes: seq<string>, name: string): nat {
    if nodes == [] then 0
    else Count(nodes[..|nodes| - 1], name) + if FileOf(nodes[|nodes| - 1]) == name then 1 else 0
  }

  function Repeat(name: string, n: nat): seq<string> {
    seq(n, _ => name)
  }

  /** Every file's tests, file by file: the run order that `split` insists on. */
  function Expanded(nodes: seq<string>, files: seq<string>): seq<string> {
    if files == [] then []
    else Expanded(nodes, files[..|files| - 1]) + Repeat(files[|files| - 1], Count(nodes, files[|files| - 1]))
  }

  function Names(nodes: seq<string>): seq<string> {
    seq(|nodes|, i requires 0 <= i < |nodes| => FileOf(nodes[i]))
  }

  predicate Contiguous(nodes: seq<string>) {
    Names(nodes) == Expanded(nodes, Files(nodes))
  }

  // ----------------------------------------------------- the required run order

  /** Between two tests of one file there are only tests of that file. */
  ghost predicate Together(nodes: seq<string>) {
    forall i, j, k :: 0 <= i < j < k < |nodes| && FileOf(nodes[i]) == FileOf(nodes[k]) ==> FileOf(nodes[j]) == FileOf(nodes[i])
  }

  /** In the expanded order the files come one after the other; these are their positions. */
  lemma {:induction false} ExpandedInOrder(nodes: seq<string>, files: seq<string>) returns (at: seq<nat>)
    ensures |at| == |Expanded(nodes, files)|
    ensures forall i :: 0 <= i < |at| ==> at[i] < |files| && Expanded(nodes, files)[i] == files[at[i]]
    ensures forall i, j :: 0 <= i < j < |at| ==> at[i] <= at[j]
  {
    if files == [] { return []; }
    var n := |files| - 1;
    var before := ExpandedInOrder(nodes, files[..n]);
    at := before + seq(Count(nodes, files[n]), _ => n);
  }

  lemma ContiguousIsTogether(nodes: seq<string>)
    requires Contiguous(nodes)
    ensures Together(nodes)
  {
    var files := Files(nodes);
    var at := ExpandedInOrder(nodes, files);
    FilesDistinct(nodes);
    assert forall i :: 0 <= i < |nodes| ==> Names(nodes)[i] == FileOf(nodes[i]);
    SortedIsTogether(Names(nodes), files, at);
  }

  /** Names at nondecreasing positions of a list without repetition. */
  lemma SortedIsTogether(names: seq<string>, files: seq<string>, at: seq<nat>)
    requires |at| == |names| && forall i :: 0 <= i < |at| ==> at[i] < |files| && names[i] == files[at[i]]
    requires forall i, j :: 0 <= i < j < |at| ==> at[i] <= at[j]
    requires forall a, b :: 0 <= a < b < |files| ==> files[a] != files[b]
    ensures forall i, j, k :: 0 <= i < j < k < |names| && names[i] == names[k] ==> names[j] == names[i]
  {
    forall i, j, k | 0 <= i < j < k < |names| && names[i] == names[k] ensures names[j] == names[i] {
      assert at[i] <= at[j] <= at[k];
    }
  }

  lemma {:induction false} FilesAreNames(nodes: seq<string>, name: string)
    ensures name in Files(nodes) <==> exists i :: 0 <= i < |nodes| && FileOf(nodes[i]) == name
  {
    if nodes != [] {
      var init := nodes[..|nodes| - 1];
      assert forall i :: 0 <= i < |init| ==> init[i] == nodes[i];
      FilesAreNames(init, name);
    }
  }

  lemma TogetherBefore(nodes: seq<string>)
    requires Together(nodes) && nodes != []
    ensures Together(nodes[..|nodes| - 1])
  {
    var init := nodes[..|nodes| - 1];
    assert forall i :: 0 <= i < |init| ==> init[i] == nodes[i];
  }

  /** The file of the last test is the last one to have appeared. */
  lemma {:induction false} LastFile(nodes: seq<string>)
    requires Together(nodes) && nodes != []
    ensures Files(nodes) != [] && Files(nodes)[|Files(nodes)| - 1] == FileOf(nodes[|nodes| - 1])
  {
    var n := |nodes| - 1;
    var init, name := nodes[..n], FileOf(nodes[n]);
    if name in Files(init) {
      FilesAreNames(init, name);
      var i :| 0 <= i < |init| && FileOf(init[i]) == name;
      assert i < n - 1 ==> FileOf(nodes[n - 1]) == FileOf(nodes[i]);
      TogetherBefore(nodes);
      LastFile(init);
    }
  }

  /** One more test of a file that is not among these. */
  lemma {:induction false} ExpandedOther(nodes: seq<string>, files: seq<string>)
    requires nodes != [] && FileOf(nodes[|nodes| - 1]) !in files
    ensures Expanded(nodes, files) == Expanded(nodes[..|nodes| - 1], files)
  {
    if files != [] {
      assert files == files[..|files| - 1] + [files[|files| - 1]];
      ExpandedOther(nodes, files[..|files| - 1]);
    }
  }

  /** One more test of the last of these files. */
  lemma ExpandedLast(nodes: seq<string>, files: seq<string>, name: string)
    requires nodes != [] && FileOf(nodes[|nodes| - 1]) == name && name !in files
    ensures Expanded(nodes, files + [name]) == Expanded(nodes[..|nodes| - 1], files + [name]) + [name]
  {
    var init := nodes[..|nodes| - 1];
    ExpandedOther(nodes, files);
    assert (files + [name])[..|files|] == files;
    assert Repeat(name, Count(nodes, name)) == Repeat(name, Count(init, name)) + [name];
  }

  lemma ExpandedNew(nodes: seq<string>, files: seq<string>, name: string)
    requires Count(nodes, name) == 0
    ensures Expanded(nodes, files + [name]) == Expanded(nodes, files)
  {
    assert (files + [name])[..|files|] == files;
  }

  lemma {:induction false} TogetherIsContiguous(nodes: seq<string>)
    requires Together(nodes)
    ensures Contiguous(nodes)
  {
    if nodes != [] {
      var n := |nodes| - 1;
      var init, name := nodes[..n], FileOf(nodes[n]);
      TogetherBefore(nodes);
      TogetherIsContiguous(init);
      assert Names(nodes) == Names(init) + [name];
      LastFile(nodes);
      FilesDistinct(nodes);
      FilesDistinct(init);
      var files := Files(nodes);
      var rest := files[..|files| - 1];
      assert files == rest + [name] && name !in rest;
      ExpandedLast(nodes, rest, name);
      if name !in Files(init) {
        assert rest == Files(init);
        ExpandedNew(init, rest, name);
      }
    }
  }

  /** The order that `split` insists on: the tests of each file are together. */
  lemma ContiguousIsExact(nodes: seq<string>)
    ensures Contiguous(nodes) <==> Together(nodes)
  {
    if Contiguous(nodes) { ContiguousIsTogether(nodes); }
    if Together(nodes) { TogetherIsContiguous(nodes); }
  }

  // ----------------------------------------------------------------- weights

  function Sum(ws: seq<real>): real {
    if ws == [] then 0.0 else Sum(ws[..|ws| - 1]) + ws[|ws| - 1]
  }

  function KnownSeconds(files: seq<string>, seconds: map<string, real>): real {
    if files == [] then 0.0
    else
      var f := files[|files| - 1];
      KnownSeconds(files[..|files| - 1], seconds) + if f in seconds then seconds[f] else 0.0
  }

  function KnownTests(nodes: seq<string>, files: seq<string>, seconds: map<string, real>): nat {
    if files == [] then 0
    else
      var f := files[|files| - 1];
      KnownTests(nodes, files[..|files| - 1], seconds) + if f in seconds then Count(nodes, f) else 0
  }

  function PerTest(nodes: seq<string>, seconds: map<string, real>): real {
    var files := Files(nodes);
    var tests := KnownTests(nodes, files, seconds);
    if tests > 0 then KnownSeconds(files, seconds) / tests as real else 1.0
  }

  ghost predicate NonNegative(seconds: map<string, real>) {
    forall f :: f in seconds ==> seconds[f] >= 0.0
  }

  lemma {:induction false} FilesDistinct(nodes: seq<string>)
    ensures forall i, j :: 0 <= i < j < |Files(nodes)| ==> Files(nodes)[i] != Files(nodes)[j]
    ensures forall f :: f in Files(nodes) ==> Count(nodes, f) >= 1
    ensures forall f :: f !in Files(nodes) ==> Count(nodes, f) == 0
  {
    if nodes != [] {
      FilesDistinct(nodes[..|nodes| - 1]);
    }
  }

  lemma {:induction false} KnownNonNegative(nodes: seq<string>, files: seq<string>, seconds: map<string, real>)
    requires NonNegative(seconds)
    ensures KnownSeconds(files, seconds) >= 0.0
  {
    if files != [] {
      KnownNonNegative(nodes, files[..|files| - 1], seconds);
    }
  }

  ghost predicate AllNonNegative(ws: seq<real>) {
    forall i :: 0 <= i < |ws| ==> ws[i] >= 0.0
  }

  function Weights(nodes: seq<string>, seconds: map<string, real>): (ws: seq<real>)
    requires NonNegative(seconds)
    ensures |ws| == |Files(nodes)| && AllNonNegative(ws)
  {
    var files, perTest := Files(nodes), PerTest(nodes, seconds);
    KnownNonNegative(nodes, files, seconds);
    seq(|files|, i requires 0 <= i < |files| => Weight(files[i], Count(nodes, files[i]), seconds, perTest))
  }

  /** A recorded time, or an estimate for this many tests. */
  function Weight(name: string, tests: nat, seconds: map<string, real>, perTest: real): (w: real)
    requires NonNegative(seconds) && perTest >= 0.0
    ensures w >= 0.0 && w == if name in seconds then seconds[name] else tests as real * perTest
  {
    if name in seconds then seconds[name] else tests as real * perTest
  }

  // -------------------------------------------------- what the weights mean

  /** The tests whose file has a recorded time. */
  function RecordedTests(nodes: seq<string>, seconds: map<string, real>): nat {
    if nodes == [] then 0
    else RecordedTests(nodes[..|nodes| - 1], seconds) + if FileOf(nodes[|nodes| - 1]) in seconds then 1 else 0
  }

  /** The recorded times, and nothing for the other files. */
  function RecordedWeights(files: seq<string>, seconds: map<string, real>): seq<real> {
    seq(|files|, i requires 0 <= i < |files| => if files[i] in seconds then seconds[files[i]] else 0.0)
  }

  lemma {:induction false} KnownSecondsIsSum(files: seq<string>, seconds: map<string, real>)
    ensures KnownSeconds(files, seconds) == Sum(RecordedWeights(files, seconds))
  {
    if files != [] {
      var n := |files| - 1;
      KnownSecondsIsSum(files[..n], seconds);
      assert RecordedWeights(files, seconds)[..n] == RecordedWeights(files[..n], seconds);
    }
  }

  lemma {:induction false} KnownTestsNext(nodes: seq<string>, files: seq<string>, seconds: map<string, real>)
    requires nodes != [] && forall i, j :: 0 <= i < j < |files| ==> files[i] != files[j]
    ensures var name := FileOf(nodes[|nodes| - 1]);
            KnownTests(nodes, files, seconds)
            == KnownTests(nodes[..|nodes| - 1], files, seconds) + if name in files && name in seconds then 1 else 0
  {
    if files != [] {
      var init, last := files[..|files| - 1], files[|files| - 1];
      assert forall i :: 0 <= i < |init| ==> init[i] == files[i];
      KnownTestsNext(nodes, init, seconds);
      assert files == init + [last] && last !in init;
    }
  }

  lemma KnownTestsOneMore(nodes: seq<string>, files: seq<string>, name: string, seconds: map<string, real>)
    requires Count(nodes, name) == 0
    ensures KnownTests(nodes, files + [name], seconds) == KnownTests(nodes, files, seconds)
  {
    assert (files + [name])[..|files|] == files;
  }

  lemma KnownTestsStep(nodes: seq<string>, before: seq<string>, files: seq<string>, name: string, seconds: map<string, real>)
    requires nodes != [] && name == FileOf(nodes[|nodes| - 1])
    requires forall i, j :: 0 <= i < j < |files| ==> files[i] != files[j]
    requires name in files && (files == before || (files == before + [name] && Count(nodes[..|nodes| - 1], name) == 0))
    ensures KnownTests(nodes, files, seconds)
         == KnownTests(nodes[..|nodes| - 1], before, seconds) + if name in seconds then 1 else 0
  {
    KnownTestsNext(nodes, files, seconds);
    if files != before { KnownTestsOneMore(nodes[..|nodes| - 1], before, name, seconds); }
  }

  lemma FilesNext(nodes: seq<string>)
    requires nodes != []
    ensures var before, name := Files(nodes[..|nodes| - 1]), FileOf(nodes[|nodes| - 1]);
            && name in Files(nodes)
            && (Files(nodes) == before || (Files(nodes) == before + [name] && Count(nodes[..|nodes| - 1], name) == 0))
  {
    FilesDistinct(nodes[..|nodes| - 1]);
  }

  lemma {:induction false} KnownTestsIsRecorded(nodes: seq<string>, seconds: map<string, real>)
    ensures KnownTests(nodes, Files(nodes), seconds) == RecordedTests(nodes, seconds)
  {
    if nodes != [] {
      KnownTestsIsRecorded(nodes[..|nodes| - 1], seconds);
      FilesNext(nodes);
      FilesDistinct(nodes);
      KnownTestsStep(nodes, Files(nodes[..|nodes| - 1]), Files(nodes), FileOf(nodes[|nodes| - 1]), seconds);
    }
  }

  /** The mean time of all tests whose file has a recorded time, or one. */
  function MeanTime(nodes: seq<string>, seconds: map<string, real>): real {
    var recorded := RecordedTests(nodes, seconds);
    if recorded == 0 then 1.0 else Sum(RecordedWeights(Files(nodes), seconds)) / recorded as real
  }

  lemma PerTestIsMean(nodes: seq<string>, seconds: map<string, real>)
    ensures PerTest(nodes, seconds) == MeanTime(nodes, seconds)
  {
    KnownTestsIsRecorded(nodes, seconds);
    KnownSecondsIsSum(Files(nodes), seconds);
  }

  /**
    A file with a recorded time weighs that time.  Any other weighs its tests times
    the mean time of all tests whose file has one, or its tests if none has.
  */
  lemma WeightIsMean(nodes: seq<string>, seconds: map<string, real>, i: nat)
    requires NonNegative(seconds) && i < |Files(nodes)|
    ensures MeanTime(nodes, seconds) >= 0.0
    ensures var name := Files(nodes)[i];
            Weights(nodes, seconds)[i] == Weight(name, Count(nodes, name), seconds, MeanTime(nodes, seconds))
  {
    PerTestIsMean(nodes, seconds);
    KnownNonNegative(nodes, Files(nodes), seconds);
  }

  /** A "::" begins here. */
  predicate Separates(node: string, k: nat) {
    k + 2 <= |node| && node[k] == ':' && node[k + 1] == ':'
  }

  /** The file of a test id is what stands before its first "::", or all of it. */
  lemma {:induction false} FileOfIsPrefix(node: string)
    ensures FileOf(node) <= node && (FileOf(node) == node || Separates(node, |FileOf(node)|))
    ensures forall k :: 0 <= k < |FileOf(node)| ==> !Separates(node, k)
  {
    if node != "" && !Separates(node, 0) {
      FileOfIsPrefix(node[1..]);
      assert FileOf(node) == [node[0]] + FileOf(node[1..]);
      forall k: nat | 0 < k < |FileOf(node)| ensures !Separates(node, k) {
        assert !Separates(node[1..], k - 1);
      }
    }
  }

  /** `sum(weight.values()) or 1.0` */
  function Total(ws: seq<real>): real {
    if Sum(ws) == 0.0 then 1.0 else Sum(ws)
  }

  /** The centre of file `i` on the line of all weights. */
  function Middle(ws: seq<real>, i: nat): real
    requires i < |ws|
  {
    Sum(ws[..i]) + ws[i] / 2.0
  }

  lemma SumStep(ws: seq<real>, i: nat)
    requires i < |ws|
    ensures Sum(ws[..i + 1]) == Sum(ws[..i]) + ws[i]
  {
    assert ws[..i + 1][..i] == ws[..i];
  }

  lemma {:induction false} SumsGrow(ws: seq<real>, i: nat, j: nat)
    requires i <= j <= |ws| && AllNonNegative(ws)
    ensures Sum(ws[..i]) <= Sum(ws[..j])
    decreases j - i
  {
    if i < j {
      SumsGrow(ws, i, j - 1);
      SumStep(ws, j - 1);
    }
  }

  lemma MiddleGrows(ws: seq<real>, i: nat, j: nat)
    requires i <= j < |ws| && AllNonNegative(ws)
    ensures Middle(ws, i) <= Middle(ws, j)
  {
    if i < j {
      SumStep(ws, i);
      SumsGrow(ws, i + 1, j);
    }
  }

  lemma MiddleRange(ws: seq<real>, i: nat)
    requires i < |ws| && AllNonNegative(ws)
    ensures 0.0 <= Middle(ws, i) <= Sum(ws) <= Total(ws)
  {
    SumsGrow(ws, 0, i);
    SumStep(ws, i);
    SumsGrow(ws, i + 1, |ws|);
    assert ws[..|ws|] == ws;
  }

  lemma TotalPositive(ws: seq<real>)
    requires AllNonNegative(ws)
    ensures Sum(ws) >= 0.0 && Total(ws) > 0.0
  {
    SumsGrow(ws, 0, |ws|);
    assert ws[..|ws|] == ws;
  }

  // ----------------------------------------------------------------- buckets

  function Quotient(middle: real, parts: nat, total: real): real
    requires total > 0.0
  {
    middle * parts as real / total
  }

  /** `min(parts - 1, int(middle * parts / total))` */
  function Bucket(middle: real, parts: nat, total: real): (k: int)
    requires total > 0.0 && parts > 0
    ensures k < parts
  {
    var position := Quotient(middle, parts, total).Floor;
    if position < parts - 1 then position else parts - 1
  }

  /** Where slot `k` begins on the line of all weights. */
  function Edge(k: int, parts: nat, total: real): real
    requires parts > 0
  {
    k as real * total / parts as real
  }

  lemma Scaled(a: real, b: real, t: real)
    requires t > 0.0
    ensures a >= b <==> a * t >= b * t
  {
    if a >= b {
      assert (a - b) * t >= 0.0;
    } else {
      assert (b - a) * t > 0.0;
    }
  }

  lemma Slots(k: int, parts: nat, total: real)
    requires parts > 0
    ensures Edge(0, parts, total) == 0.0 && Edge(parts, parts, total) == total
    ensures Edge(k + 1, parts, total) - Edge(k, parts, total) == total / parts as real
  {
    var n := parts as real;
    assert (k + 1) as real * total == k as real * total + total;
    assert (k as real * total + total) / n == k as real * total / n + total / n;
  }

  lemma AtOrPast(middle: real, parts: nat, total: real, k: int)
    requires parts > 0 && total > 0.0
    ensures Quotient(middle, parts, total).Floor >= k <==> middle >= Edge(k, parts, total)
  {
    var n := parts as real;
    var q, e := Quotient(middle, parts, total), Edge(k, parts, total);
    var x, y := middle * n, k as real * total;
    assert q * total == x by { assert x / total * total == x; }
    assert e * n == y by { assert y / n * n == y; }
    Scaled(q, k as real, total);
    Scaled(middle, e, n);
    assert q.Floor >= k <==> q >= k as real;
    assert q >= k as real <==> x >= y;
    assert middle >= e <==> x >= y;
  }

  /** A centre lies in the slot of its bucket. */
  lemma BucketIsSlot(middle: real, parts: nat, total: real)
    requires parts > 0 && total > 0.0 && 0.0 <= middle <= total
    ensures var k := Bucket(middle, parts, total);
            0 <= k && Edge(k, parts, total) <= middle <= Edge(k + 1, parts, total)
  {
    var k := Bucket(middle, parts, total);
    Slots(k, parts, total);
    AtOrPast(middle, parts, total, 0);
    AtOrPast(middle, parts, total, k);
    AtOrPast(middle, parts, total, k + 1);
  }

  /** A later centre never goes to an earlier part. */
  lemma BucketGrows(a: real, b: real, parts: nat, total: real)
    requires a <= b && total > 0.0 && parts > 0
    ensures Bucket(a, parts, total) <= Bucket(b, parts, total)
  {
    var k := Bucket(a, parts, total);
    AtOrPast(a, parts, total, k);
    AtOrPast(b, parts, total, k);
  }

  function Buckets(ws: seq<real>, parts: nat): seq<int>
    requires parts > 0 && AllNonNegative(ws)
  {
    TotalPositive(ws);
    seq(|ws|, i requires 0 <= i < |ws| => Bucket(Middle(ws, i), parts, Total(ws)))
  }

  ghost predicate Sorted(bs: seq<int>) {
    forall i, j :: 0 <= i <= j < |bs| ==> bs[i] <= bs[j]
  }

  /** The edges of the slots, and every centre in its slot. */
  ghost predicate InSlots(ws: seq<real>, bs: seq<int>, edges: seq<real>, share: real) {
    && |bs| == |ws| && edges != [] && edges[0] == 0.0 && edges[|edges| - 1] == Sum(ws)
    && (forall k :: 0 < k < |edges| ==> edges[k] - edges[k - 1] == share)
    && (forall k, l :: 0 <= k <= l < |edges| ==> edges[k] <= edges[l])
    && (forall i :: 0 <= i < |bs| ==> 0 <= bs[i] < |edges| - 1)
    && (forall i :: 0 <= i < |bs| ==> edges[bs[i]] <= Middle(ws, i) <= edges[bs[i] + 1])
  }

  lemma BucketsSorted(ws: seq<real>, parts: nat)
    requires parts > 0 && AllNonNegative(ws)
    ensures Sorted(Buckets(ws, parts))
    ensures forall i :: 0 <= i < |ws| ==> 0 <= Buckets(ws, parts)[i] < parts
  {
    TotalPositive(ws);
    var bs := Buckets(ws, parts);
    forall i, j | 0 <= i <= j < |ws| ensures bs[i] <= bs[j] {
      MiddleGrows(ws, i, j);
      BucketGrows(Middle(ws, i), Middle(ws, j), parts, Total(ws));
    }
    forall i | 0 <= i < |ws| ensures 0 <= bs[i] < parts {
      MiddleRange(ws, i);
      BucketIsSlot(Middle(ws, i), parts, Total(ws));
    }
  }

  function Edges(parts: nat, total: real): seq<real>
    requires parts > 0
  {
    seq(parts + 1, k requires 0 <= k => Edge(k, parts, total))
  }

  lemma {:induction false} EdgesGrow(edges: seq<real>, share: real, k: nat, l: nat)
    requires share >= 0.0 && k <= l < |edges|
    requires forall j :: 0 < j < |edges| ==> edges[j] - edges[j - 1] == share
    ensures edges[k] <= edges[l]
    decreases l
  {
    if k < l { EdgesGrow(edges, share, k, l - 1); }
  }

  lemma BucketsInSlots(ws: seq<real>, parts: nat)
    requires parts > 0 && AllNonNegative(ws) && Sum(ws) > 0.0
    ensures InSlots(ws, Buckets(ws, parts), Edges(parts, Sum(ws)), Sum(ws) / parts as real)
  {
    var edges, share := Edges(parts, Sum(ws)), Sum(ws) / parts as real;
    assert share >= 0.0;
    Slots(0, parts, Sum(ws));
    forall k | 0 < k < |edges| ensures edges[k] - edges[k - 1] == share {
      Slots(k - 1, parts, Sum(ws));
    }
    forall k, l | 0 <= k <= l < |edges| ensures edges[k] <= edges[l] {
      EdgesGrow(edges, share, k, l);
    }
    BucketsSorted(ws, parts);
    forall i | 0 <= i < |ws| ensures edges[Buckets(ws, parts)[i]] <= Middle(ws, i) <= edges[Buckets(ws, parts)[i] + 1] {
      MiddleRange(ws, i);
      BucketIsSlot(Middle(ws, i), parts, Sum(ws));
    }
  }

  // ------------------------------------------------------------------- parts

  /** The files among the first `n` that go to part `k`, and their weight. */
  function Pick(files: seq<string>, bs: seq<int>, k: int, n: nat): seq<string>
    requires n <= |files| == |bs|
  {
    if n == 0 then []
    else Pick(files, bs, k, n - 1) + if bs[n - 1] == k then [files[n - 1]] else []
  }

  function Load(ws: seq<real>, bs: seq<int>, k: int, n: nat): real
    requires n <= |ws| == |bs|
  {
    if n == 0 then 0.0
    else Load(ws, bs, k, n - 1) + if bs[n - 1] == k then ws[n - 1] else 0.0
  }

  /** How many of the first `n` files go to parts before `k`. */
  function Below(bs: seq<int>, k: int, n: nat): (b: nat)
    requires n <= |bs|
    ensures b <= n
  {
    if n == 0 then 0 else Below(bs, k, n - 1) + if bs[n - 1] < k then 1 else 0
  }

  lemma {:induction false} BelowIsCut(bs: seq<int>, k: int, n: nat)
    requires n <= |bs| && Sorted(bs)
    ensures forall i :: 0 <= i < n ==> (bs[i] < k <==> i < Below(bs, k, n))
  {
    if n > 0 { BelowIsCut(bs, k, n - 1); }
  }

  /** One file more: the cut moves exactly for the files before part `k`. */
  lemma BelowNext(bs: seq<int>, k: int, n: nat)
    requires 0 < n <= |bs| && Sorted(bs)
    ensures Below(bs, k, n) == if bs[n - 1] < k then n else Below(bs, k, n - 1)
    ensures bs[n - 1] < k ==> Below(bs, k, n - 1) == n - 1
  {
    BelowIsCut(bs, k, n);
    BelowIsCut(bs, k, n - 1);
  }

  /** Each part is one contiguous slice of the run order. */
  lemma {:induction false} PartIsSlice(files: seq<string>, bs: seq<int>, k: int, n: nat)
    requires n <= |files| == |bs| && Sorted(bs)
    ensures Below(bs, k, n) <= Below(bs, k + 1, n) <= n
    ensures Pick(files, bs, k, n) == files[Below(bs, k, n)..Below(bs, k + 1, n)]
  {
    if n > 0 {
      PartIsSlice(files, bs, k, n - 1);
      BelowNext(bs, k, n);
      BelowNext(bs, k + 1, n);
    }
  }

  lemma {:induction false} LoadIsSlice(ws: seq<real>, bs: seq<int>, k: int, n: nat)
    requires n <= |ws| == |bs| && Sorted(bs)
    ensures Below(bs, k, n) <= Below(bs, k + 1, n) <= n
    ensures Load(ws, bs, k, n) == Sum(ws[..Below(bs, k + 1, n)]) - Sum(ws[..Below(bs, k, n)])
  {
    if n > 0 {
      LoadIsSlice(ws, bs, k, n - 1);
      BelowNext(bs, k, n);
      BelowNext(bs, k + 1, n);
      SumStep(ws, n - 1);
    }
  }

  function Flatten(lists: seq<seq<string>>): seq<string> {
    if lists == [] then [] else Flatten(lists[..|lists| - 1]) + lists[|lists| - 1]
  }

  function Picks(files: seq<string>, bs: seq<int>, upto: nat, n: nat): seq<seq<string>>
    requires n <= |files| == |bs|
  {
    seq(upto, k requires 0 <= k => Pick(files, bs, k, n))
  }

  lemma {:induction false} FlattenPicks(files: seq<string>, bs: seq<int>, upto: nat)
    requires |files| == |bs| && Sorted(bs) && (forall i :: 0 <= i < |bs| ==> 0 <= bs[i])
    ensures Flatten(Picks(files, bs, upto, |files|)) == files[..Below(bs, upto, |files|)]
  {
    BelowIsCut(bs, upto, |files|);
    if upto > 0 {
      var picks := Picks(files, bs, upto, |files|);
      assert picks[..upto - 1] == Picks(files, bs, upto - 1, |files|);
      FlattenPicks(files, bs, upto - 1);
      PartIsSlice(files, bs, upto - 1, |files|);
      assert picks[upto - 1] == Pick(files, bs, upto - 1, |files|);
      var lo, hi := Below(bs, upto - 1, |files|), Below(bs, upto, |files|);
      assert files[..lo] + files[lo..hi] == files[..hi];
    } else {
      assert files != [] ==> !(bs[0] < 0);
    }
  }

  /** Concatenating the parts gives every collected file once, in run order. */
  lemma PartsCoverAll(files: seq<string>, ws: seq<real>, parts: nat)
    requires |files| == |ws| && parts > 0 && AllNonNegative(ws)
    ensures Flatten(Picks(files, Buckets(ws, parts), parts, |files|)) == files
  {
    var bs := Buckets(ws, parts);
    BucketsSorted(ws, parts);
    FlattenPicks(files, bs, parts);
    BelowIsCut(bs, parts, |files|);
    assert files != [] ==> bs[|files| - 1] < parts;
  }

  // ----------------------------------------------------------------- balance

  lemma UpperBound(ws: seq<real>, bs: seq<int>, edges: seq<real>, share: real, k: nat, lo: nat, hi: nat)
    requires InSlots(ws, bs, edges, share) && k + 1 < |edges|
    requires lo < hi <= |ws| && bs[lo] == k && bs[hi - 1] == k
    ensures Sum(ws[..hi]) - Sum(ws[..lo]) <= share + ws[lo] / 2.0 + ws[hi - 1] / 2.0
  {
    assert edges[k] <= Middle(ws, lo) && Middle(ws, hi - 1) <= edges[k + 1];
    SumStep(ws, hi - 1);
  }

  lemma LowerBound(ws: seq<real>, bs: seq<int>, edges: seq<real>, share: real, k: nat, lo: nat, hi: nat)
    requires InSlots(ws, bs, edges, share) && k + 1 < |edges|
    requires lo <= hi <= |ws| && (lo > 0 ==> bs[lo - 1] < k) && (hi < |ws| ==> bs[hi] > k)
    ensures Sum(ws[..hi]) - Sum(ws[..lo]) >= share
              - (if lo > 0 then ws[lo - 1] / 2.0 else 0.0) - (if hi < |ws| then ws[hi] / 2.0 else 0.0)
  {
    assert edges[k + 1] - edges[k] == share;
    if lo > 0 {
      assert Middle(ws, lo - 1) <= edges[bs[lo - 1] + 1] <= edges[k];
      SumStep(ws, lo - 1);
    }
    if hi < |ws| {
      assert Middle(ws, hi) >= edges[bs[hi]] >= edges[k + 1];
    } else {
      assert ws[..hi] == ws && Sum(ws) >= edges[k + 1];
    }
    assert ws[..0] == [];
  }

  /** Part `k` is the slice `[lo, hi)` of the files, and its weight is within half a file of `share` at each end. */
  ghost predicate Fair(files: seq<string>, ws: seq<real>, bs: seq<int>, share: real, k: nat)
    requires |files| == |ws| == |bs|
  {
    var lo, hi := Below(bs, k, |ws|), Below(bs, k + 1, |ws|);
    lo < hi && Pick(files, bs, k, |ws|) == files[lo..hi] && FairLoad(ws, Load(ws, bs, k, |ws|), share, lo, hi)
  }

  ghost predicate FairLoad(ws: seq<real>, load: real, share: real, lo: nat, hi: nat)
    requires lo < hi <= |ws|
  {
    && load <= share + ws[lo] / 2.0 + ws[hi - 1] / 2.0
    && load >= share - (if lo > 0 then ws[lo - 1] / 2.0 else 0.0) - (if hi < |ws| then ws[hi] / 2.0 else 0.0)
  }

  lemma Neighbours(bs: seq<int>, k: nat) returns (lo: nat, hi: nat)
    requires Sorted(bs) && Below(bs, k, |bs|) < Below(bs, k + 1, |bs|)
    ensures lo == Below(bs, k, |bs|) < hi == Below(bs, k + 1, |bs|) <= |bs|
    ensures bs[lo] == k && bs[hi - 1] == k
    ensures (lo > 0 ==> bs[lo - 1] < k) && (hi < |bs| ==> bs[hi] > k)
  {
    BelowIsCut(bs, k, |bs|);
    BelowIsCut(bs, k + 1, |bs|);
    lo, hi := Below(bs, k, |bs|), Below(bs, k + 1, |bs|);
  }

  lemma SliceBounds(files: seq<string>, ws: seq<real>, bs: seq<int>, edges: seq<real>, share: real, k: nat)
    requires |files| == |ws| == |bs| && Sorted(bs) && InSlots(ws, bs, edges, share) && k + 1 < |edges|
    requires Pick(files, bs, k, |ws|) != []
    ensures Fair(files, ws, bs, share, k)
  {
    PartIsSlice(files, bs, k, |ws|);
    LoadIsSlice(ws, bs, k, |ws|);
    SliceLoad(ws, bs, edges, share, k);
  }

  lemma SliceLoad(ws: seq<real>, bs: seq<int>, edges: seq<real>, share: real, k: nat)
    requires |ws| == |bs| && Sorted(bs) && InSlots(ws, bs, edges, share) && k + 1 < |edges|
    requires Below(bs, k, |bs|) < Below(bs, k + 1, |bs|)
    ensures var lo, hi := Below(bs, k, |bs|), Below(bs, k + 1, |bs|);
            FairLoad(ws, Sum(ws[..hi]) - Sum(ws[..lo]), share, lo, hi)
  {
    var lo, hi := Neighbours(bs, k);
    UpperBound(ws, bs, edges, share, k, lo, hi);
    LowerBound(ws, bs, edges, share, k, lo, hi);
  }

  lemma WeightlessBounds(files: seq<string>, ws: seq<real>, bs: seq<int>, k: nat)
    requires |files| == |ws| == |bs| && Sorted(bs) && AllNonNegative(ws) && Sum(ws) == 0.0
    requires Pick(files, bs, k, |ws|) != []
    ensures Fair(files, ws, bs, 0.0, k)
  {
    PartIsSlice(files, bs, k, |ws|);
    LoadIsSlice(ws, bs, k, |ws|);
    assert ws[..|ws|] == ws && ws[..0] == [];
    SumsGrow(ws, 0, Below(bs, k, |ws|));
    SumsGrow(ws, Below(bs, k, |ws|), |ws|);
    SumsGrow(ws, 0, Below(bs, k + 1, |ws|));
    SumsGrow(ws, Below(bs, k + 1, |ws|), |ws|);
  }

  /**
    No part is heavier than its fair share plus half its first and half its last
    file; and none is lighter than its fair share less half the last file before
    it and half the first file after it.
  */
  lemma Balanced(files: seq<string>, ws: seq<real>, parts: nat, k: nat)
    requires |files| == |ws| && parts > 0 && AllNonNegative(ws) && k < parts
    requires Pick(files, Buckets(ws, parts), k, |ws|) != []
    ensures Fair(files, ws, Buckets(ws, parts), Sum(ws) / parts as real, k)
  {
    var bs, share := Buckets(ws, parts), Sum(ws) / parts as real;
    BucketsSorted(ws, parts);
    TotalPositive(ws);
    if Sum(ws) == 0.0 {
      assert share == 0.0;
      WeightlessBounds(files, ws, bs, k);
    } else {
      BucketsInSlots(ws, parts);
      SliceBounds(files, ws, bs, Edges(parts, Sum(ws)), share, k);
    }
  }

  // ------------------------------------------------------------------- split

  datatype Part = Part(names: seq<string>, tests: nat)

  datatype Result = Parts(files: seq<string>, parts: seq<Part>) | NotContiguous | EmptyPart

  function Tests(nodes: seq<string>, names: seq<string>): nat {
    if names == [] then 0 else Tests(nodes, names[..|names| - 1]) + Count(nodes, names[|names| - 1])
  }

  lemma {:induction false} ExpandedLength(nodes: seq<string>, files: seq<string>)
    ensures |Expanded(nodes, files)| == Tests(nodes, files)
  {
    if files != [] { ExpandedLength(nodes, files[..|files| - 1]); }
  }

  lemma {:induction false} TestsConcat(nodes: seq<string>, a: seq<string>, b: seq<string>)
    ensures Tests(nodes, a + b) == Tests(nodes, a) + Tests(nodes, b)
  {
    if b == [] {
      assert a + b == a;
    } else {
      assert (a + b)[..|a + b| - 1] == a + b[..|b| - 1];
      TestsConcat(nodes, a, b[..|b| - 1]);
    }
  }

  function NamesOf(parts: seq<Part>): seq<seq<string>> {
    seq(|parts|, i requires 0 <= i < |parts| => parts[i].names)
  }

  function TotalTests(parts: seq<Part>): nat {
    if parts == [] then 0 else TotalTests(parts[..|parts| - 1]) + parts[|parts| - 1].tests
  }

  lemma {:induction false} TotalIsTests(nodes: seq<string>, parts: seq<Part>)
    requires forall i :: 0 <= i < |parts| ==> parts[i].tests == Tests(nodes, parts[i].names)
    ensures TotalTests(parts) == Tests(nodes, Flatten(NamesOf(parts)))
  {
    if parts != [] {
      var init := parts[..|parts| - 1];
      TotalIsTests(nodes, init);
      assert NamesOf(parts)[..|parts| - 1] == NamesOf(init);
      TestsConcat(nodes, Flatten(NamesOf(init)), parts[|parts| - 1].names);
    }
  }

  /** The parts that the exact weights prescribe. */
  function Prescribed(nodes: seq<string>, count: nat, seconds: map<string, real>): seq<seq<string>>
    requires count > 0 && NonNegative(seconds)
  {
    Picks(Files(nodes), Buckets(Weights(nodes, seconds), count), count, |Files(nodes)|)
  }

  /** Each nonempty part of a split lies within half a file of its fair share at both ends. */
  lemma SplitIsBalanced(nodes: seq<string>, count: nat, seconds: map<string, real>, k: nat)
    requires count > 0 && NonNegative(seconds) && k < count
    ensures Prescribed(nodes, count, seconds)[k] != [] ==>
              var ws := Weights(nodes, seconds);
              Fair(Files(nodes), ws, Buckets(ws, count), Sum(ws) / count as real, k)
  {
    if Prescribed(nodes, count, seconds)[k] != [] {
      Balanced(Files(nodes), Weights(nodes, seconds), count, k);
    }
  }

  /** The loop of `split`: one file after the other into the part that holds its middle. */
  method Distribute(files: seq<string>, ws: seq<real>, count: nat) returns (chosen: seq<seq<string>>)
    requires |files| == |ws| && count > 0 && AllNonNegative(ws)
    ensures chosen == Picks(files, Buckets(ws, count), count, |files|)
  {
    TotalPositive(ws);
    BucketsSorted(ws, count);
    ghost var bs := Buckets(ws, count);
    var total, start := Total(ws), 0.0;
    chosen := seq(count, _ => []);
    for i := 0 to |files|
      invariant start == Sum(ws[..i]) && |chosen| == count
      invariant forall k :: 0 <= k < count ==> chosen[k] == Pick(files, bs, k, i)
    {
      var middle := start + ws[i] / 2.0;
      var k := Bucket(middle, count, total);
      assert k == bs[i];
      chosen := chosen[k := chosen[k] + [files[i]]];
      SumStep(ws, i);
      start := start + ws[i];
    }
  }

  /**
    `split`.  On success the parts concatenate to the collected files, in run
    order and each once, none is empty, and their test counts add up to the
    collection; `SplitIsBalanced` bounds their weights.  It refuses exactly when a
    file's tests are not together or some part would be empty.
  */
  method Split(nodes: seq<string>, count: nat, seconds: map<string, real>) returns (r: Result)
    requires count > 0 && NonNegative(seconds)
    ensures r.NotContiguous? <==> !Contiguous(nodes)
    ensures r.EmptyPart? <==> Contiguous(nodes) && [] in Prescribed(nodes, count, seconds)
    ensures r.Parts? ==>
              && r.files == Files(nodes) == Flatten(NamesOf(r.parts))
              && NamesOf(r.parts) == Prescribed(nodes, count, seconds)
              && |r.parts| == count && TotalTests(r.parts) == |nodes|
              && forall k :: 0 <= k < count ==>
                   r.parts[k].names != [] && r.parts[k].tests == Tests(nodes, r.parts[k].names)
  {
    var files := Files(nodes);
    if Names(nodes) != Expanded(nodes, files) { return NotContiguous; }
    var ws := Weights(nodes, seconds);
    var chosen := Distribute(files, ws, count);
    if [] in chosen { return EmptyPart; }
    var parts := seq(count, k requires 0 <= k < count => Part(chosen[k], Tests(nodes, chosen[k])));
    assert NamesOf(parts) == chosen;
    PartsCoverAll(files, ws, count);
    TotalIsTests(nodes, parts);
    ExpandedLength(nodes, files);
    return Parts(files, parts);
  }
}
