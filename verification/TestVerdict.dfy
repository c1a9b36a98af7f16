/**
  `verify`: the verdict over the manifests and reports that the parts left
  behind.  The digest function is a parameter; where a property needs it to be
  collision-free it says so.
*/
module TestVerdict {
  import opened Text
  import opened TestSplit

  /** `"\n".join(lines)` */
  function Join(lines: seq<string>): string {
    if lines == [] then ""
    else if |lines| == 1 then lines[0]
    else lines[0] + "\n" + Join(lines[1..])
  }

  datatype Manifest = Manifest(part: int, parts: int, collected: int, collectionSha: string,
                               filesSha: string, tests: int, files: seq<string>)

  datatype Counts = Counts(tests: int, failures: int, errors: int, skipped: int, cases: int)

  /** One `part.json` and the JUnit report beside it, if there is one. */
  datatype Evidence = Evidence(manifest: Manifest, report: Option<Counts>)

  datatype Verdict = Accepted(passed: int, skipped: int) | Rejected | Crashed

  // ----------------------------------------------------------- specification

  ghost predicate DistinctParts(evidence: seq<Evidence>) {
    forall i, j :: 0 <= i < j < |evidence| ==> evidence[i].manifest.part != evidence[j].manifest.part
  }

  function Numbers(evidence: seq<Evidence>): set<int> {
    set i | 0 <= i < |evidence| :: evidence[i].manifest.part
  }

  /** `set(range(1, parts + 1))` */
  function UpTo(parts: int): (s: set<int>)
    ensures forall k :: k in s <==> 1 <= k <= parts
  {
    if parts <= 0 then {} else UpTo(parts - 1) + {parts}
  }

  /** The dictionary of manifests: a later one replaces an earlier one of the same number. */
  function ByNumber(evidence: seq<Evidence>): (m: map<int, Evidence>)
    ensures m.Keys == Numbers(evidence)
  {
    if evidence == [] then map[]
    else
      var last := evidence[|evidence| - 1];
      var before := evidence[..|evidence| - 1];
      assert Numbers(evidence) == Numbers(before) + {last.manifest.part} by {
        assert evidence == before + [last];
      }
      ByNumber(before)[last.manifest.part := last]
  }

  /** The evidence of parts 1 to `parts`, in that order. */
  function Present(evidence: seq<Evidence>, parts: nat): seq<Evidence>
    requires Numbers(evidence) == UpTo(parts)
  {
    seq(parts, k requires 0 <= k < parts => assert k + 1 in UpTo(parts); ByNumber(evidence)[k + 1])
  }

  function AllFiles(present: seq<Evidence>): seq<string> {
    if present == [] then [] else AllFiles(present[..|present| - 1]) + present[|present| - 1].manifest.files
  }

  function AllTests(present: seq<Evidence>): int {
    if present == [] then 0 else AllTests(present[..|present| - 1]) + present[|present| - 1].manifest.tests
  }

  function AllCases(present: seq<Evidence>): int {
    if present == [] then 0
    else
      var report := present[|present| - 1].report;
      AllCases(present[..|present| - 1]) + if report.Some? then report.value.cases else 0
  }

  function AllSkipped(present: seq<Evidence>): int {
    if present == [] then 0
    else
      var report := present[|present| - 1].report;
      AllSkipped(present[..|present| - 1]) + if report.Some? then report.value.skipped else 0
  }

  ghost predicate SameCollection(a: Manifest, b: Manifest) {
    a.parts == b.parts && a.collected == b.collected && a.collectionSha == b.collectionSha && a.filesSha == b.filesSha
  }

  ghost predicate Green(e: Evidence) {
    && e.report.Some?
    && e.report.value.tests == e.report.value.cases == e.manifest.tests
    && e.report.value.failures == 0 && e.report.value.errors == 0
  }

  /** What a green verdict is supposed to mean. */
  ghost predicate Complete(evidence: seq<Evidence>, parts: int, upstream: Option<string>, hash: string -> string) {
    && (upstream.None? || upstream.value == "success")
    && parts >= 1 && DistinctParts(evidence) && Numbers(evidence) == UpTo(parts)
    && Consistent(Present(evidence, parts), hash)
  }

  /** The parts saw one collection, ran all of it and are green. */
  ghost predicate Consistent(present: seq<Evidence>, hash: string -> string)
    requires present != []
  {
    && (forall e :: e in present ==> SameCollection(present[0].manifest, e.manifest) && Green(e))
    && hash(Join(AllFiles(present))) == present[0].manifest.filesSha
    && AllTests(present) == present[0].manifest.collected
  }

  // ------------------------------------------------------------------ verify

  lemma ByNumberAppend(evidence: seq<Evidence>, i: nat)
    requires i < |evidence|
    ensures ByNumber(evidence[..i + 1]) == ByNumber(evidence[..i])[evidence[i].manifest.part := evidence[i]]
  {
    assert evidence[..i + 1][..i] == evidence[..i];
  }

  lemma DistinctAppend(evidence: seq<Evidence>, i: nat)
    requires i < |evidence|
    ensures DistinctParts(evidence[..i + 1]) <==>
              DistinctParts(evidence[..i]) && evidence[i].manifest.part !in Numbers(evidence[..i])
  {
    var init, all := evidence[..i], evidence[..i + 1];
    assert forall j :: 0 <= j < i ==> init[j] == all[j];
    assert all[i] == evidence[i];
    if all[i].manifest.part in Numbers(init) {
      var j :| 0 <= j < i && init[j].manifest.part == all[i].manifest.part;
      assert all[j].manifest.part == all[i].manifest.part;
    } else {
      assert forall j :: 0 <= j < i ==> init[j].manifest.part in Numbers(init);
    }
  }

  /** Collect the manifests; a number seen twice is a problem. */
  method Collect(evidence: seq<Evidence>) returns (manifests: map<int, Evidence>, problems: nat)
    ensures manifests == ByNumber(evidence)
    ensures problems == 0 <==> DistinctParts(evidence)
  {
    manifests, problems := map[], 0;
    for i := 0 to |evidence|
      invariant manifests == ByNumber(evidence[..i])
      invariant problems == 0 <==> DistinctParts(evidence[..i])
    {
      var number := evidence[i].manifest.part;
      ByNumberAppend(evidence, i);
      DistinctAppend(evidence, i);
      if number in manifests {
        problems := problems + 1;
      }
      manifests := manifests[number := evidence[i]];
    }
    assert evidence[..|evidence|] == evidence;
  }

  /** The parts must agree on what they ran. */
  method Agree(present: seq<Evidence>) returns (problems: nat)
    ensures problems == 0 <==> forall e :: e in present ==> SameCollection(present[0].manifest, e.manifest)
  {
    problems := 0;
    if present == [] { return; }
    var first := present[0].manifest;
    for i := 0 to |present|
      invariant problems == 0 <==> forall e :: e in present[..i] ==> SameCollection(first, e.manifest)
    {
      var m := present[i].manifest;
      if m.parts != first.parts || m.collected != first.collected
         || m.collectionSha != first.collectionSha || m.filesSha != first.filesSha {
        problems := problems + 1;
      }
      assert present[..i + 1] == present[..i] + [present[i]];
    }
    assert present[..|present|] == present;
  }

  /** Each part's report must account for its tests without failure or error. */
  method Reports(present: seq<Evidence>) returns (problems: nat, passed: int, skipped: int)
    ensures problems == 0 <==> forall e :: e in present ==> Green(e)
    ensures problems == 0 ==> passed + skipped == AllTests(present) == AllCases(present)
    ensures skipped == AllSkipped(present)
  {
    problems, passed, skipped := 0, 0, 0;
    for i := 0 to |present|
      invariant problems == 0 <==> forall e :: e in present[..i] ==> Green(e)
      invariant problems == 0 ==> passed + skipped == AllTests(present[..i]) == AllCases(present[..i])
      invariant skipped == AllSkipped(present[..i])
    {
      var e := present[i];
      assert present[..i + 1] == present[..i] + [e];
      assert present[..i + 1][..i] == present[..i];
      if e.report.None? {
        problems := problems + 1;
        assert !Green(e);
      } else {
        var counts := e.report.value;
        ghost var before := problems;
        if counts.tests != e.manifest.tests || counts.cases != e.manifest.tests { problems := problems + 1; }
        if counts.failures != 0 || counts.errors != 0 { problems := problems + 1; }
        assert problems == before <==> Green(e);
        passed := passed + counts.tests - counts.failures - counts.errors - counts.skipped;
        skipped := skipped + counts.skipped;
      }
    }
    assert present[..|present|] == present;
  }

  lemma SomeNumber(evidence: seq<Evidence>)
    ensures evidence == [] <==> Numbers(evidence) == {}
  {
    if evidence != [] {
      assert evidence[0].manifest.part in Numbers(evidence);
    }
  }

  /**
    `verify` returns 0 if and only if the evidence is complete, and then the
    passed and skipped tests add up to the collected ones.  Without any part
    to expect or to see it ends in an index error instead of a verdict.
  */
  method Verify(evidence: seq<Evidence>, parts: int, upstream: Option<string>, hash: string -> string)
    returns (r: Verdict)
    ensures r.Accepted? <==> Complete(evidence, parts, upstream, hash)
    ensures r.Accepted? ==>
              r.passed + r.skipped == AllCases(Present(evidence, parts)) == Present(evidence, parts)[0].manifest.collected
    ensures r.Accepted? ==> r.skipped == AllSkipped(Present(evidence, parts))
    ensures r.Crashed? <==> parts <= 0 && evidence == [] && (upstream.None? || upstream.value == "success")
  {
    var problems := if upstream.None? || upstream.value == "success" then 0 else 1;
    var manifests, repeated := Collect(evidence);
    SomeNumber(evidence);
    assert parts <= 0 <==> 1 !in UpTo(parts);
    problems := problems + repeated;
    var missing, extra := UpTo(parts) - manifests.Keys, manifests.Keys - UpTo(parts);
    assert missing == {} && extra == {} <==> Numbers(evidence) == UpTo(parts) by {
      assert UpTo(parts) == missing + UpTo(parts) * manifests.Keys;
      assert manifests.Keys == extra + UpTo(parts) * manifests.Keys;
    }
    if missing != {} || extra != {} {
      // Whatever the reports say, the verdict is already a refusal.
      return Rejected;
    }
    if parts <= 0 {
      return if problems > 0 then Rejected else Crashed;
    }
    var present := seq(parts, k requires 0 <= k < parts => assert k + 1 in UpTo(parts); manifests[k + 1]);
    assert present == Present(evidence, parts);
    var more, passed, skipped := Assess(present, hash);
    if problems + more > 0 { return Rejected; }
    return Accepted(passed, skipped);
  }

  /** The checks on the parts that are present: agreement, coverage, counts and reports. */
  method Assess(present: seq<Evidence>, hash: string -> string) returns (problems: nat, passed: int, skipped: int)
    requires present != []
    ensures problems == 0 <==> Consistent(present, hash)
    ensures problems == 0 ==> passed + skipped == AllCases(present) == present[0].manifest.collected
    ensures problems == 0 ==> skipped == AllSkipped(present)
  {
    problems := Agree(present);
    var first := present[0].manifest;
    if hash(Join(AllFiles(present))) != first.filesSha { problems := problems + 1; }
    if AllTests(present) != first.collected { problems := problems + 1; }
    var failures;
    failures, passed, skipped := Reports(present);
    problems := problems + failures;
  }

  // --------------------------------------------------- what the digests prove

  ghost predicate Injective(hash: string -> string) {
    forall a, b :: hash(a) == hash(b) ==> a == b
  }

  ghost predicate OneLine(s: string) {
    '\n' !in s
  }

  ghost predicate AllOneLine(lines: seq<string>) {
    forall l :: l in lines ==> OneLine(l)
  }

  lemma FirstNewline(a: string, s: string)
    requires OneLine(a)
    ensures (a + "\n" + s)[|a|] == '\n' && forall i :: 0 <= i < |a| ==> (a + "\n" + s)[i] != '\n'
  {
    forall i | 0 <= i < |a| ensures (a + "\n" + s)[i] != '\n' {
      assert (a + "\n" + s)[i] == a[i];
    }
  }

  lemma FirstLineEqual(a: string, s: string, b: string, t: string)
    requires OneLine(a) && OneLine(b) && a + "\n" + s == b + "\n" + t
    ensures a == b && s == t
  {
    var text := a + "\n" + s;
    FirstNewline(a, s);
    FirstNewline(b, t);
    assert a == text[..|a|] && b == text[..|b|];
    assert s == text[|a| + 1..] && t == text[|b| + 1..];
  }

  /** Newlines separate: nonempty lists of newline-free lines are determined by their join. */
  lemma {:induction false} JoinIsInjective(a: seq<string>, b: seq<string>)
    requires a != [] && b != [] && AllOneLine(a) && AllOneLine(b) && Join(a) == Join(b)
    ensures a == b
    decreases |a|
  {
    JoinNewlines(a);
    JoinNewlines(b);
    assert a[0] in a && b[0] in b;
    if |a| == 1 {
      assert a == [a[0]] && b == [b[0]];
    } else {
      FirstLineEqual(a[0], Join(a[1..]), b[0], Join(b[1..]));
      JoinIsInjective(a[1..], b[1..]);
      assert a == [a[0]] + a[1..] && b == [b[0]] + b[1..];
    }
  }

  lemma JoinNewlines(a: seq<string>)
    requires a != [] && AllOneLine(a)
    ensures |a| == 1 <==> OneLine(Join(a))
    ensures |a| == 1 ==> Join(a) == a[0]
  {
    assert a[0] in a;
    if |a| > 1 {
      assert Join(a)[|a[0]|] == '\n';
    }
  }

  /** The empty list and the list of one empty line are the only two that a join confuses. */
  ghost predicate Confused(a: seq<string>, b: seq<string>) {
    (a == [] && b == [""]) || (a == [""] && b == [])
  }

  lemma JoinIsExact(a: seq<string>, b: seq<string>)
    requires AllOneLine(a) && AllOneLine(b)
    ensures Join(a) == Join(b) <==> a == b || Confused(a, b)
  {
    if Join(a) == Join(b) {
      if a != [] && b != [] {
        JoinIsInjective(a, b);
      } else if a != [] {
        JoinNewlines(a);
        assert a == [a[0]];
      } else if b != [] {
        JoinNewlines(b);
        assert b == [b[0]];
      }
    }
  }

  /**
    With a collision-free digest and newline-free names, an accepted run covers
    every collected file exactly once and in order.  The one exception is a
    collection whose only file has the empty name, which an empty run matches.
  */
  lemma AcceptedCoversCollection(evidence: seq<Evidence>, parts: int, upstream: Option<string>,
                                 hash: string -> string, collected: seq<string>)
    requires Complete(evidence, parts, upstream, hash) && Injective(hash)
    requires hash(Join(collected)) == Present(evidence, parts)[0].manifest.filesSha
    requires AllOneLine(collected) && AllOneLine(AllFiles(Present(evidence, parts)))
    ensures AllFiles(Present(evidence, parts)) == collected <==> !Confused(AllFiles(Present(evidence, parts)), collected)
  {
    JoinIsExact(AllFiles(Present(evidence, parts)), collected);
  }

  /** A run that is accepted for a collection of these files, by its digest. */
  ghost predicate AcceptedFor(evidence: seq<Evidence>, parts: int, upstream: Option<string>, hash: string -> string,
                              collected: seq<string>)
  {
    && Complete(evidence, parts, upstream, hash)
    && hash(Join(collected)) == Present(evidence, parts)[0].manifest.filesSha
    && AllOneLine(AllFiles(Present(evidence, parts)))
  }

  ghost predicate Covers(evidence: seq<Evidence>, parts: int, collected: seq<string>) {
    parts >= 0 && Numbers(evidence) == UpTo(parts) && AllFiles(Present(evidence, parts)) == collected
  }

  /** One part that ran no test, with a green report. */
  function Solo(files: seq<string>, hash: string -> string): seq<Evidence> {
    [Evidence(Manifest(1, 1, 0, "", hash(Join(files)), 0, files), Some(Counts(0, 0, 0, 0, 0)))]
  }

  lemma OnlyOne(e: Evidence)
    ensures AllFiles([e]) == e.manifest.files && AllTests([e]) == e.manifest.tests
  {
    var rest := [e][..0];
    assert rest == [];
    assert AllFiles(rest) == [] && AllTests(rest) == 0;
    assert AllFiles([e]) == AllFiles(rest) + e.manifest.files;
    assert AllTests([e]) == AllTests(rest) + e.manifest.tests;
  }

  lemma SoloIsAccepted(files: seq<string>, hash: string -> string)
    ensures Complete(Solo(files, hash), 1, None, hash)
    ensures AllFiles(Present(Solo(files, hash), 1)) == files
  {
    var solo := Solo(files, hash);
    assert UpTo(1) == UpTo(0) + {1} == {1};
    assert solo[0].manifest.part in Numbers(solo);
    assert Numbers(solo) == {1};
    assert solo[..0] == [] && ByNumber(solo) == map[1 := solo[0]];
    var present := Present(solo, 1);
    assert present == [solo[0]];
    OnlyOne(solo[0]);
  }

  /** A run that is accepted for the files it does not cover: it ran none for one empty name, or the other way round. */
  lemma AcceptedWithoutCovering(hash: string -> string)
    ensures AcceptedFor(Solo([], hash), 1, None, hash, [""]) && !Covers(Solo([], hash), 1, [""])
    ensures AcceptedFor(Solo([""], hash), 1, None, hash, []) && !Covers(Solo([""], hash), 1, [])
  {
    SoloIsAccepted([], hash);
    SoloIsAccepted([""], hash);
  }

  /**
    With a collision-free digest, every accepted run covers the collection, each
    file once and in order, if and only if the collection is neither empty nor one
    file with the empty name.
  */
  lemma CoverageIsCertain(collected: seq<string>, hash: string -> string)
    requires Injective(hash) && AllOneLine(collected)
    ensures (forall evidence, parts, upstream ::
               AcceptedFor(evidence, parts, upstream, hash, collected) ==> Covers(evidence, parts, collected))
            <==> collected != [] && collected != [""]
  {
    if collected == [] || collected == [""] {
      AcceptedWithoutCovering(hash);
    } else {
      forall evidence, parts, upstream | AcceptedFor(evidence, parts, upstream, hash, collected)
        ensures Covers(evidence, parts, collected)
      {
        AcceptedCoversCollection(evidence, parts, upstream, hash, collected);
      }
    }
  }

  /** The parts that are looked at are the evidence that there is. */
  lemma PresentIsEvidence(evidence: seq<Evidence>, parts: nat, e: Evidence)
    requires DistinctParts(evidence) && Numbers(evidence) == UpTo(parts)
    ensures e in Present(evidence, parts) <==> e in evidence
  {
    if e in evidence { EvidenceIsPresent(evidence, parts, e); }
    if e in Present(evidence, parts) {
      var k :| 0 <= k < parts && Present(evidence, parts)[k] == e;
      HeardIsEvidence(evidence, k + 1);
    }
  }

  lemma EvidenceIsPresent(evidence: seq<Evidence>, parts: nat, e: Evidence)
    requires DistinctParts(evidence) && Numbers(evidence) == UpTo(parts) && e in evidence
    ensures e in Present(evidence, parts)
  {
    var number := e.manifest.part;
    NumberOf(evidence, e);
    AcceptedHearsEveryPart(evidence, e);
    assert Present(evidence, parts)[number - 1] == e;
  }

  lemma NumberOf(evidence: seq<Evidence>, e: Evidence)
    requires e in evidence
    ensures e.manifest.part in Numbers(evidence)
  {
    var i :| 0 <= i < |evidence| && evidence[i] == e;
  }

  lemma {:induction false} HeardIsEvidence(evidence: seq<Evidence>, number: int)
    requires number in ByNumber(evidence)
    ensures ByNumber(evidence)[number] in evidence
  {
    var n := |evidence| - 1;
    assert evidence == evidence[..n] + [evidence[n]];
    if evidence[n].manifest.part != number { HeardIsEvidence(evidence[..n], number); }
  }

  /**
    What a complete run says of all its evidence: every part reports as many tests and
    cases as it lists, without failure or error, and any two parts name the same
    number of parts, the same number of collected tests and the same two digests.
  */
  lemma CompleteMeans(evidence: seq<Evidence>, parts: int, upstream: Option<string>, hash: string -> string,
                      a: Evidence, b: Evidence)
    requires Complete(evidence, parts, upstream, hash) && a in evidence && b in evidence
    ensures 1 <= a.manifest.part <= parts && a.report.Some?
    ensures a.report.value.tests == a.manifest.tests && a.report.value.cases == a.manifest.tests
    ensures a.report.value.failures == 0 && a.report.value.errors == 0
    ensures a.manifest.parts == b.manifest.parts && a.manifest.collected == b.manifest.collected
    ensures a.manifest.collectionSha == b.manifest.collectionSha && a.manifest.filesSha == b.manifest.filesSha
  {
    PresentIsEvidence(evidence, parts, a);
    PresentIsEvidence(evidence, parts, b);
    NumberOf(evidence, a);
  }

  /** Each of parts 1 to N left exactly one manifest, and every one of them is heard. */
  lemma {:induction false} AcceptedHearsEveryPart(evidence: seq<Evidence>, e: Evidence)
    requires DistinctParts(evidence) && e in evidence
    ensures ByNumber(evidence)[e.manifest.part] == e
  {
    var n := |evidence| - 1;
    assert evidence == evidence[..n] + [evidence[n]];
    if e != evidence[n] {
      AcceptedHearsEveryPart(evidence[..n], e);
    } else {
      assert ByNumber(evidence)[evidence[n].manifest.part] == evidence[n];
    }
  }

  // ------------------------------------------- one collection, same files and counts

  function Decimal(n: nat): (s: string)
    ensures s != "" && forall c :: c in s ==> '0' <= c <= '9'
  {
    if n < 10 then ["0123456789"[n]] else Decimal(n / 10) + ["0123456789"[n % 10]]
  }

  lemma DecimalLength(n: nat)
    ensures n < 10 <==> |Decimal(n)| == 1
  {
  }

  lemma {:induction false} DecimalIsInjective(m: nat, n: nat)
    requires Decimal(m) == Decimal(n)
    ensures m == n
  {
    var a, b := Decimal(m), Decimal(n);
    DecimalLength(m);
    DecimalLength(n);
    if m >= 10 && n >= 10 {
      assert a[..|a| - 1] == Decimal(m / 10) && b[..|b| - 1] == Decimal(n / 10);
      assert a[|a| - 1] == "0123456789"[m % 10] && b[|b| - 1] == "0123456789"[n % 10];
      DecimalIsInjective(m / 10, n / 10);
    }
  }

  /** The lines that `collection_digest` hashes. */
  function CollectionLines(nodes: seq<string>): seq<string> {
    var files := Files(nodes);
    seq(|files|, i requires 0 <= i < |files| => files[i] + " " + Decimal(Count(nodes, files[i])))
  }

  lemma LastSpace(a: string, m: nat)
    ensures var text := a + " " + Decimal(m);
            text[|a|] == ' ' && forall i :: |a| < i < |text| ==> text[i] != ' '
  {
    var text := a + " " + Decimal(m);
    forall i | |a| < i < |text| ensures text[i] != ' ' {
      assert text[i] == Decimal(m)[i - |a| - 1];
      assert text[i] in Decimal(m);
    }
  }

  lemma LineIsInjective(a: string, m: nat, b: string, n: nat)
    requires a + " " + Decimal(m) == b + " " + Decimal(n)
    ensures a == b && m == n
  {
    var text := a + " " + Decimal(m);
    var x, y := |a|, |b|;
    LastSpace(a, m);
    LastSpace(b, n);
    assert a == text[..x] && b == text[..y];
    assert Decimal(m) == text[x + 1..] && Decimal(n) == text[y + 1..];
    DecimalIsInjective(m, n);
  }

  /** One collection digest means the same files in the same order with the same test counts, and nothing more. */
  lemma CollectionDigestIsExact(a: seq<string>, b: seq<string>, hash: string -> string)
    requires Injective(hash) && AllOneLine(Files(a)) && AllOneLine(Files(b))
    ensures hash(Join(CollectionLines(a))) == hash(Join(CollectionLines(b))) <==>
            Files(a) == Files(b) && forall f :: f in Files(a) ==> Count(a, f) == Count(b, f)
  {
    var x, y := CollectionLines(a), CollectionLines(b);
    LinesOneLine(a);
    LinesOneLine(b);
    JoinIsExact(x, y);
    if x == y {
      forall i | 0 <= i < |x| ensures Files(a)[i] == Files(b)[i] && Count(a, Files(a)[i]) == Count(b, Files(a)[i]) {
        assert x[i] == y[i];
        LineIsInjective(Files(a)[i], Count(a, Files(a)[i]), Files(b)[i], Count(b, Files(b)[i]));
      }
      assert Files(a) == Files(b);
    }
    if Files(a) == Files(b) && forall f :: f in Files(a) ==> Count(a, f) == Count(b, f) {
      assert forall i :: 0 <= i < |x| ==> Files(a)[i] in Files(a);
      assert x == y;
    }
  }

  lemma LinesOneLine(nodes: seq<string>)
    requires AllOneLine(Files(nodes))
    ensures AllOneLine(CollectionLines(nodes)) && "" !in CollectionLines(nodes)
  {
    forall i | 0 <= i < |Files(nodes)| ensures OneLine(CollectionLines(nodes)[i]) && CollectionLines(nodes)[i] != "" {
      assert Files(nodes)[i] in Files(nodes);
    }
  }

  // --------------------------------------------------------- honest evidence

  /** The manifest that `run` writes for part `k` of a split. */
  function ManifestOf(nodes: seq<string>, parts: seq<Part>, k: int, hash: string -> string): Manifest
    requires 1 <= k <= |parts|
  {
    Manifest(k, |parts|, |nodes|, hash(Join(CollectionLines(nodes))), hash(Join(Files(nodes))),
             parts[k - 1].tests, parts[k - 1].names)
  }

  lemma {:induction false} LookupIsMember(evidence: seq<Evidence>, k: int)
    requires k in ByNumber(evidence)
    ensures ByNumber(evidence)[k] in evidence && ByNumber(evidence)[k].manifest.part == k
  {
    var n := |evidence| - 1;
    assert evidence == evidence[..n] + [evidence[n]];
    if evidence[n].manifest.part != k {
      LookupIsMember(evidence[..n], k);
    }
  }

  lemma {:induction false} HonestSums(nodes: seq<string>, parts: seq<Part>, present: seq<Evidence>, hash: string -> string, n: nat)
    requires n <= |parts| == |present|
    requires forall i :: 0 <= i < |parts| ==> present[i].manifest == ManifestOf(nodes, parts, i + 1, hash)
    ensures AllFiles(present[..n]) == Flatten(NamesOf(parts)[..n]) && AllTests(present[..n]) == TotalTests(parts[..n])
  {
    if n > 0 {
      HonestSums(nodes, parts, present, hash, n - 1);
      assert present[..n][..n - 1] == present[..n - 1];
      assert parts[..n][..n - 1] == parts[..n - 1];
      assert NamesOf(parts)[..n][..n - 1] == NamesOf(parts)[..n - 1];
      assert present[n - 1].manifest == ManifestOf(nodes, parts, n, hash);
    }
  }

  /** What one part of this split leaves behind when it ran to the end without a failure. */
  ghost predicate Honest(nodes: seq<string>, parts: seq<Part>, e: Evidence, hash: string -> string) {
    Green(e) && 1 <= e.manifest.part <= |parts| && e.manifest == ManifestOf(nodes, parts, e.manifest.part, hash)
  }

  /** Part by part, the manifest of this split and a green report. */
  ghost predicate HonestParts(nodes: seq<string>, parts: seq<Part>, present: seq<Evidence>, hash: string -> string) {
    && |present| == |parts|
    && forall i :: 0 <= i < |parts| ==> present[i].manifest == ManifestOf(nodes, parts, i + 1, hash) && Green(present[i])
  }

  lemma {:induction false} HonestPresent(nodes: seq<string>, parts: seq<Part>, evidence: seq<Evidence>, hash: string -> string)
    requires Numbers(evidence) == UpTo(|parts|)
    requires forall e :: e in evidence ==> Honest(nodes, parts, e, hash)
    ensures HonestParts(nodes, parts, Present(evidence, |parts|), hash)
  {
    var present := Present(evidence, |parts|);
    forall i | 0 <= i < |parts|
      ensures present[i].manifest == ManifestOf(nodes, parts, i + 1, hash) && Green(present[i])
    {
      assert i + 1 in UpTo(|parts|);
      LookupIsMember(evidence, i + 1);
      assert Honest(nodes, parts, present[i], hash);
    }
  }

  lemma HonestPartsAgree(nodes: seq<string>, parts: seq<Part>, present: seq<Evidence>, hash: string -> string)
    requires parts != [] && HonestParts(nodes, parts, present, hash)
    requires Flatten(NamesOf(parts)) == Files(nodes) && TotalTests(parts) == |nodes|
    ensures forall e :: e in present ==> SameCollection(present[0].manifest, e.manifest) && Green(e)
    ensures hash(Join(AllFiles(present))) == present[0].manifest.filesSha
    ensures AllTests(present) == present[0].manifest.collected
  {
    HonestSums(nodes, parts, present, hash, |parts|);
    assert present[..|parts|] == present && parts[..|parts|] == parts && NamesOf(parts)[..|parts|] == NamesOf(parts);
    assert present[0].manifest == ManifestOf(nodes, parts, 1, hash);
  }

  /**
    Every honest run is accepted: if each part of one split left its own
    manifest, in whatever order they are found, and a green report, then the
    evidence is complete.  Nothing is asked of the digest here.
  */
  lemma {:induction false} HonestRunIsAccepted(nodes: seq<string>, parts: seq<Part>, evidence: seq<Evidence>, hash: string -> string)
    requires parts != [] && Flatten(NamesOf(parts)) == Files(nodes) && TotalTests(parts) == |nodes|
    requires DistinctParts(evidence) && Numbers(evidence) == UpTo(|parts|)
    requires forall e :: e in evidence ==> Honest(nodes, parts, e, hash)
    ensures Complete(evidence, |parts|, Some("success"), hash)
  {
    HonestPresent(nodes, parts, evidence, hash);
    HonestPartsAgree(nodes, parts, Present(evidence, |parts|), hash);
  }
}
