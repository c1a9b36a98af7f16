/** Searching and replacing inside byte strings the way Python's `bytes` does it. */
module Replacing {

  predicate StartsWith<T(==)>(data: seq<T>, marker: seq<T>) {
    marker <= data
  }

  /** `data.count(marker)`: non-overlapping occurrences, found from the left. */
  function Count<T(==)>(data: seq<T>, marker: seq<T>): nat
    requires marker != []
  {
    if data == [] then 0
    else if StartsWith(data, marker) then 1 + Count(data[|marker|..], marker)
    else Count(data[1..], marker)
  }

  /** `data.replace(marker, sub)` */
  function Replace<T(==)>(data: seq<T>, marker: seq<T>, sub: seq<T>): seq<T>
    requires marker != []
  {
    if data == [] then []
    else if StartsWith(data, marker) then sub + Replace(data[|marker|..], marker, sub)
    else [data[0]] + Replace(data[1..], marker, sub)
  }

  /** `data.replace(marker, sub, 1)` */
  function ReplaceFirst<T(==)>(data: seq<T>, marker: seq<T>, sub: seq<T>): seq<T>
    requires marker != []
  {
    if data == [] then []
    else if StartsWith(data, marker) then sub + data[|marker|..]
    else [data[0]] + ReplaceFirst(data[1..], marker, sub)
  }

  /** One step of the scan, for all three functions at once. */
  lemma ScanStep<T>(data: seq<T>, marker: seq<T>, sub: seq<T>)
    requires marker != [] && data != []
    ensures StartsWith(data, marker) ==>
              && Count(data, marker) == 1 + Count(data[|marker|..], marker)
              && Replace(data, marker, sub) == sub + Replace(data[|marker|..], marker, sub)
    ensures !StartsWith(data, marker) ==>
              && Count(data, marker) == Count(data[1..], marker)
              && Replace(data, marker, sub) == [data[0]] + Replace(data[1..], marker, sub)
  {
  }

  lemma OneMore(n: nat, d: int)
    ensures (1 + n) * d == d + n * d
  {
  }

  /** The length after replacement is known before anything is replaced. */
  lemma {:induction false} ReplacedLength<T>(data: seq<T>, marker: seq<T>, sub: seq<T>)
    requires marker != []
    ensures |Replace(data, marker, sub)| == |data| + Count(data, marker) * (|sub| - |marker|)
    decreases |data|
  {
    if data == [] {
      return;
    }
    ScanStep(data, marker, sub);
    if StartsWith(data, marker) {
      ReplacedLength(data[|marker|..], marker, sub);
      OneMore(Count(data[|marker|..], marker), |sub| - |marker|);
    } else {
      ReplacedLength(data[1..], marker, sub);
    }
  }

  // ------------------------------------------------ what replacing means

  /** These pieces with `sep` between them. */
  function Join<T>(pieces: seq<seq<T>>, sep: seq<T>): seq<T>
    requires pieces != []
  {
    if |pieces| == 1 then pieces[0] else pieces[0] + sep + Join(pieces[1..], sep)
  }

  /** The first occurrence of the marker in `piece + marker` is the one at the end. */
  ghost predicate Early<T>(piece: seq<T>, marker: seq<T>) {
    forall k :: 0 <= k < |piece| ==> !(marker <= (piece + marker)[k..])
  }

  ghost predicate Free<T>(piece: seq<T>, marker: seq<T>) {
    forall k :: 0 <= k <= |piece| ==> !(marker <= piece[k..])
  }

  /** The text between the markers that a scan from the left finds. */
  ghost predicate Split<T>(pieces: seq<seq<T>>, marker: seq<T>) {
    && pieces != [] && Free(pieces[|pieces| - 1], marker)
    && forall i :: 0 <= i < |pieces| - 1 ==> Early(pieces[i], marker)
  }

  lemma EarlyGrows<T>(x: T, piece: seq<T>, marker: seq<T>, rest: seq<T>)
    requires Early(piece, marker) && !(marker <= [x] + piece + marker + rest)
    ensures Early([x] + piece, marker)
  {
    forall k | 0 <= k < |[x] + piece| ensures !(marker <= ([x] + piece + marker)[k..]) {
      if k > 0 {
        assert ([x] + piece + marker)[k..] == (piece + marker)[k - 1..];
      } else {
        assert ([x] + piece + marker)[0..] == [x] + piece + marker;
        if marker <= [x] + piece + marker { assert marker <= [x] + piece + marker + rest; }
      }
    }
  }

  lemma FreeGrows<T>(x: T, piece: seq<T>, marker: seq<T>)
    requires Free(piece, marker) && !(marker <= [x] + piece)
    ensures Free([x] + piece, marker)
  {
    forall k | 0 <= k <= |[x] + piece| ensures !(marker <= ([x] + piece)[k..]) {
      if k > 0 {
        assert ([x] + piece)[k..] == piece[k - 1..];
      } else {
        assert ([x] + piece)[0..] == [x] + piece;
      }
    }
  }

  /** One more element in front of the first piece. */
  function Grown<T>(x: T, pieces: seq<seq<T>>): seq<seq<T>>
    requires pieces != []
  {
    [[x] + pieces[0]] + pieces[1..]
  }

  lemma JoinGrows<T>(x: T, pieces: seq<seq<T>>, sep: seq<T>)
    requires pieces != []
    ensures Join(Grown(x, pieces), sep) == [x] + Join(pieces, sep)
  {
    assert Grown(x, pieces)[1..] == pieces[1..];
    if |pieces| > 1 {
      var rest := Join(pieces[1..], sep);
      assert ([x] + pieces[0]) + sep + rest == [x] + (pieces[0] + sep + rest);
    }
  }

  lemma SplitGrows<T>(x: T, pieces: seq<seq<T>>, marker: seq<T>)
    requires Split(pieces, marker) && !(marker <= [x] + Join(pieces, marker))
    ensures Split(Grown(x, pieces), marker)
  {
    if |pieces| == 1 {
      FreeGrows(x, pieces[0], marker);
    } else {
      var rest := Join(pieces[1..], marker);
      assert [x] + Join(pieces, marker) == [x] + pieces[0] + marker + rest;
      EarlyGrows(x, pieces[0], marker, rest);
    }
  }

  lemma NewFirstPiece<T>(pieces: seq<seq<T>>, marker: seq<T>, sub: seq<T>)
    requires Split(pieces, marker)
    ensures var more := [[]] + pieces;
            Split(more, marker) && Join(more, marker) == marker + Join(pieces, marker) && Join(more, sub) == sub + Join(pieces, sub)
  {
    var more: seq<seq<T>> := [[]] + pieces;
    assert more[1..] == pieces;
    assert [] + marker == marker && [] + sub == sub;
  }

  /** Counting and replacing, in terms of the pieces between the markers. */
  lemma {:induction false} ReplaceIsJoin<T>(data: seq<T>, marker: seq<T>, sub: seq<T>) returns (pieces: seq<seq<T>>)
    requires marker != []
    ensures Split(pieces, marker) && Join(pieces, marker) == data
    ensures Count(data, marker) == |pieces| - 1 && Replace(data, marker, sub) == Join(pieces, sub)
    decreases |data|
  {
    if data == [] { return [[]]; }
    ScanStep(data, marker, sub);
    if StartsWith(data, marker) {
      pieces := ReplaceIsJoin(data[|marker|..], marker, sub);
      NewFirstPiece(pieces, marker, sub);
      assert data == marker + data[|marker|..];
      pieces := [[]] + pieces;
    } else {
      pieces := ReplaceIsJoin(data[1..], marker, sub);
      assert data == [data[0]] + data[1..];
      SplitGrows(data[0], pieces, marker);
      JoinGrows(data[0], pieces, marker);
      JoinGrows(data[0], pieces, sub);
      pieces := Grown(data[0], pieces);
    }
  }

  /** `y` is `x` with its only occurrence of the marker, as a scan from the left counts, replaced. */
  ghost predicate Swapped<T(!new)>(x: seq<T>, y: seq<T>, marker: seq<T>, sub: seq<T>) {
    exists a, b :: SwappedAt(x, y, marker, sub, a, b)
  }

  ghost predicate SwappedAt<T>(x: seq<T>, y: seq<T>, marker: seq<T>, sub: seq<T>, a: seq<T>, b: seq<T>) {
    x == a + marker + b && y == a + sub + b && Early(a, marker) && Free(b, marker)
  }

  lemma {:induction false} CountFree<T>(data: seq<T>, marker: seq<T>)
    requires marker != [] && Free(data, marker)
    ensures Count(data, marker) == 0
  {
    if data != [] {
      assert data[0..] == data;
      assert forall k :: 0 <= k <= |data[1..]| ==> data[1..][k..] == data[k + 1..];
      CountFree(data[1..], marker);
    }
  }

  lemma {:induction false} CountOne<T>(a: seq<T>, b: seq<T>, marker: seq<T>, sub: seq<T>)
    requires marker != [] && Early(a, marker) && Free(b, marker)
    ensures Count(a + marker + b, marker) == 1 && ReplaceFirst(a + marker + b, marker, sub) == a + sub + b
  {
    var data := a + marker + b;
    if a == [] {
      assert data[|marker|..] == b && marker <= data;
      CountFree(b, marker);
    } else {
      assert (a + marker)[0..] == a + marker;
      assert data[1..] == a[1..] + marker + b;
      assert !(marker <= data) by { if marker <= data { assert marker <= a + marker; } }
      assert forall k :: 0 <= k < |a[1..]| ==> (a[1..] + marker)[k..] == (a + marker)[k + 1..];
      CountOne(a[1..], b, marker, sub);
      assert [data[0]] + (a[1..] + sub + b) == a + sub + b;
    }
  }

  lemma JoinTwo<T>(pieces: seq<seq<T>>, sep: seq<T>)
    requires |pieces| == 2
    ensures Join(pieces, sep) == pieces[0] + sep + pieces[1]
  {
    assert pieces[1..] == [pieces[1]];
  }

  /** A context that matches exactly once is found, and replacing it splits the data around it. */
  lemma ReplaceOnce<T>(data: seq<T>, marker: seq<T>, sub: seq<T>) returns (a: seq<T>, b: seq<T>)
    requires marker != [] && Count(data, marker) == 1
    ensures SwappedAt(data, ReplaceFirst(data, marker, sub), marker, sub, a, b)
    ensures Replace(data, marker, sub) == ReplaceFirst(data, marker, sub)
  {
    var pieces := ReplaceIsJoin(data, marker, sub);
    JoinTwo(pieces, marker);
    JoinTwo(pieces, sub);
    a, b := pieces[0], pieces[1];
    CountOne(a, b, marker, sub);
  }

  /** A context that occurs exactly once is replaced where it occurs; there is no other way to read one replacement. */
  lemma SwapIsExact<T(!new)>(x: seq<T>, y: seq<T>, marker: seq<T>, sub: seq<T>)
    requires marker != []
    ensures Count(x, marker) == 1 && ReplaceFirst(x, marker, sub) == y <==> Swapped(x, y, marker, sub)
  {
    if Count(x, marker) == 1 && ReplaceFirst(x, marker, sub) == y {
      var a, b := ReplaceOnce(x, marker, sub);
      assert SwappedAt(x, y, marker, sub, a, b);
    }
    if Swapped(x, y, marker, sub) {
      var a, b :| SwappedAt(x, y, marker, sub, a, b);
      CountOne(a, b, marker, sub);
    }
  }
}
