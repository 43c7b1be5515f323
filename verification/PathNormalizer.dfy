/** The URL path normaliser: segments that look variable become `?`. Paths are Go strings, so any bytes at all. */
module PathNormalizer {
  import opened ByteStrings
  import opened Utf8

  const SLASH: Byte := 47
  const QUESTION: Byte := 63
  const LOWER_V: Byte := 118
  const UPPER_V: Byte := 86

  /** A non-empty run of bytes other than '/'. */
  type Segment = s: Bytes | s != [] && forall i | 0 <= i < |s| :: s[i] != SLASH witness [0]

  /** `unicode.IsDigit(rune(b))` of a byte: in Latin-1 only the ASCII digits. */
  predicate IsDigit(b: Byte) {
    48 <= b <= 57
  }

  /** `hasNumber` */
  predicate HasNumber(s: Bytes) {
    exists i | 0 <= i < |s| :: IsDigit(s[i])
  }

  predicate IsVersion(seg: Segment) {
    2 <= |seg| <= 3 && (seg[0] == LOWER_V || seg[0] == UPPER_V) && forall j | 1 <= j < |seg| :: IsDigit(seg[j])
  }

  /** What one segment becomes. */
  function NormalizeSegment(seg: Segment): (r: Segment)
    ensures |r| <= 24
    ensures HasNumber(r) ==> IsVersion(r)
    ensures r == seg || r == [QUESTION]
  {
    if IsVersion(seg) || (2 <= |seg| <= 24 && !HasNumber(seg)) then seg else [QUESTION]
  }

  /** The maximal runs of bytes other than '/', in order. */
  function Segments(path: Bytes): seq<Segment>
    decreases |path|
  {
    if path == [] then []
    else if path[0] == SLASH then Segments(path[1..])
    else
      var n := SegmentEnd(path, 0);
      [path[..n]] + Segments(path[n..])
  }

  /** The index of the first '/' at or after `i`, or the end. */
  function SegmentEnd(path: Bytes, i: nat): (n: nat)
    requires i <= |path|
    ensures i <= n <= |path|
    ensures forall k | i <= k < n :: path[k] != SLASH
    ensures n < |path| ==> path[n] == SLASH
    ensures i < |path| && path[i] != SLASH ==> i < n
    decreases |path| - i
  {
    if i == |path| || path[i] == SLASH then i else SegmentEnd(path, i + 1)
  }

  function Join(segs: seq<Segment>): Bytes {
    if segs == [] then [] else [SLASH] + segs[0] + Join(segs[1..])
  }

  function NormalizeAll(segs: seq<Segment>): (r: seq<Segment>)
    ensures |r| == |segs| && forall i | 0 <= i < |r| :: r[i] == NormalizeSegment(segs[i])
  {
    if segs == [] then [] else [NormalizeSegment(segs[0])] + NormalizeAll(segs[1..])
  }

  /** The segment-by-segment meaning of the normaliser. */
  function Normalize(path: Bytes): Bytes {
    var r := Join(NormalizeAll(Segments(path)));
    if r == [] then [SLASH] else r
  }

  // ----- laws

  /** Splitting a joined list of segments gives the list back. */
  lemma {:induction false} SegmentsOfJoin(segs: seq<Segment>)
    ensures Segments(Join(segs)) == segs
    decreases |segs|
  {
    if segs != [] {
      var rest := Join(segs[1..]);
      var s := segs[0] + rest;
      assert Join(segs) == [SLASH] + s;
      assert Join(segs)[1..] == s;
      assert rest != [] ==> rest[0] == SLASH && s[|segs[0]|] == SLASH;
      assert SegmentEnd(s, 0) == |segs[0]|;
      assert s[..|segs[0]|] == segs[0] && s[|segs[0]|..] == rest;
      SegmentsOfJoin(segs[1..]);
    }
  }

  /** A normalised segment is left alone. */
  lemma SegmentIdempotent(seg: Segment)
    ensures NormalizeSegment(NormalizeSegment(seg)) == NormalizeSegment(seg)
  {
  }

  /** Normalising twice is normalising once. */
  lemma Idempotent(path: Bytes)
    ensures Normalize(Normalize(path)) == Normalize(path)
  {
    var segs := NormalizeAll(Segments(path));
    SegmentsOfNormalized(path);
    forall i | 0 <= i < |segs| ensures NormalizeAll(segs)[i] == segs[i] {
      SegmentIdempotent(Segments(path)[i]);
    }
    assert NormalizeAll(segs) == segs;
  }

  /** The segments of a normalised path are the normalised segments. */
  lemma SegmentsOfNormalized(path: Bytes)
    ensures Segments(Normalize(path)) == NormalizeAll(Segments(path))
  {
    var segs := NormalizeAll(Segments(path));
    SegmentsOfJoin(segs);
    if Join(segs) == [] {
      assert segs == [];
      assert [SLASH][1..] == [];
    }
  }

  /**
   * The shape of every result: it is "/" or '/'-led segments, each of 1 to 24 bytes and with a digit only if it is a
   * version, `v` or `V` and one or two digits.
   */
  lemma ResultShape(path: Bytes)
    ensures var r, segs := Normalize(path), Segments(Normalize(path));
            && r != [] && r[0] == SLASH
            && (if segs == [] then r == [SLASH] else r == Join(segs))
            && forall i | 0 <= i < |segs| ::
                 && 1 <= |segs[i]| <= 24
                 && (HasNumber(segs[i]) ==> IsVersion(segs[i]))
  {
    SegmentsOfNormalized(path);
  }

  /**
   * The segments that keep their text: `?`, `v` or `V` with one or two digits, and 2 to 24 bytes without a digit.
   */
  predicate Stays(seg: Segment) {
    || seg == [63]
    || (2 <= |seg| <= 3 && seg[0] in {118, 86} && forall i | 1 <= i < |seg| :: 48 <= seg[i] <= 57)
    || (2 <= |seg| <= 24 && forall i | 0 <= i < |seg| :: !(48 <= seg[i] <= 57))
  }

  lemma SegmentStays(seg: Segment)
    ensures NormalizeSegment(seg) == if Stays(seg) then seg else [63]
  {
    assert HasNumber(seg) <==> exists i | 0 <= i < |seg| :: IsDigit(seg[i]);
  }

  /** Every path keeps its segments one for one: those that stay, and `?` for each of the others. */
  lemma EachSegment(path: Bytes)
    ensures var before, after := Segments(path), Segments(Normalize(path));
            && |after| == |before|
            && forall i | 0 <= i < |after| :: after[i] == if Stays(before[i]) then before[i] else [63]
  {
    hide Segments, Normalize, Stays, NormalizeSegment;
    SegmentsOfNormalized(path);
    forall i | 0 <= i < |Segments(path)|
      ensures NormalizeAll(Segments(path))[i] == if Stays(Segments(path)[i]) then Segments(path)[i] else [63]
    {
      SegmentStays(Segments(path)[i]);
    }
  }

  /** A path is left alone exactly when it is "/" or '/'-led segments that all stay. */
  lemma PathStaysIff(path: Bytes)
    ensures Normalize(path) == path
       <==> path == [SLASH] || exists segs: seq<Segment> | segs != [] :: path == Join(segs) && AllStay(segs)
  {
    hide Segments, Join, Stays;
    var segs := Segments(path);
    EachSegment(path);
    ResultShape(path);
    if Normalize(path) == path && path != [SLASH] {
      QuestionStays();
      assert AllStay(segs) && segs != [] && path == Join(segs);
    }
    if path == [SLASH] {
      OnlySlash();
    }
    forall segs: seq<Segment> | segs != [] && path == Join(segs) && AllStay(segs) ensures Normalize(path) == path {
      SegmentsOfJoin(segs);
      AllStayed(segs);
      JoinNotEmpty(segs);
    }
  }

  predicate AllStay(segs: seq<Segment>) {
    forall i | 0 <= i < |segs| :: Stays(segs[i])
  }

  lemma AllStayed(segs: seq<Segment>)
    requires AllStay(segs)
    ensures NormalizeAll(segs) == segs
  {
    hide Stays, NormalizeSegment;
    forall i | 0 <= i < |segs| ensures NormalizeAll(segs)[i] == segs[i] {
      SegmentStays(segs[i]);
    }
  }

  lemma JoinNotEmpty(segs: seq<Segment>)
    requires segs != []
    ensures Join(segs) != []
  {
  }

  lemma QuestionStays()
    ensures Stays([63])
  {
  }

  lemma OnlySlash()
    ensures Normalize([SLASH]) == [SLASH]
  {
    var path: Bytes := [SLASH];
    assert path[1..] == [];
    assert Segments(path) == [];
  }

  /** What is on the two sides of a slash has its segments on its own, so runs of slashes count as one. */
  lemma {:induction false} SegmentsAcross(a: Bytes, b: Bytes)
    ensures Segments(a + [SLASH] + b) == Segments(a) + Segments(b)
    decreases |a|
  {
    var s := a + [SLASH] + b;
    if a == [] {
      assert s[1..] == b;
    } else if a[0] == SLASH {
      assert s[1..] == a[1..] + [SLASH] + b;
      SegmentsAcross(a[1..], b);
    } else {
      var n := SegmentEnd(a, 0);
      EndAcross(a, [SLASH] + b, 0);
      assert s == a + ([SLASH] + b);
      assert s[..n] == a[..n];
      assert s[n..] == a[n..] + [SLASH] + b;
      SegmentsAcross(a[n..], b);
    }
  }

  lemma {:induction false} EndAcross(a: Bytes, after: Bytes, i: nat)
    requires i <= |a| && after != [] && after[0] == SLASH
    ensures SegmentEnd(a + after, i) == SegmentEnd(a, i)
    decreases |a| - i
  {
    if i < |a| && a[i] != SLASH {
      EndAcross(a, after, i + 1);
    }
  }

  lemma OneSegment(seg: Segment)
    ensures Segments(seg) == [seg]
  {
    assert SegmentEnd(seg, 0) == |seg|;
    assert seg[..|seg|] == seg && seg[|seg|..] == [];
  }

  // ----- the loop

  /** `findSplitters`: the indices of the slashes, and the end unless the path ends in one. */
  method FindSplitters(path: Bytes) returns (positions: seq<nat>)
    requires path != []
    ensures positions == Splitters(path, |path|) + LastEnd(path)
  {
    positions := [];
    var idx := 0;
    while idx < |path|
      invariant 0 <= idx <= |path|
      invariant positions == Splitters(path, idx)
    {
      var w := Width(path, idx);
      if path[idx] == SLASH {
        positions := positions + [idx];
      }
      NoSplitters(path, idx + 1, idx + w);
      idx := idx + w;
    }
    if path[|path| - 1] != SLASH {
      positions := positions + [|path|];
    }
  }

  /** The indices below `n` of the slashes in `path`. */
  function Splitters(path: Bytes, n: nat): seq<nat>
    requires n <= |path|
  {
    if n == 0 then []
    else if path[n - 1] == SLASH then Splitters(path, n - 1) + [n - 1]
    else Splitters(path, n - 1)
  }

  lemma {:induction false} NoSplitters(path: Bytes, from: nat, upTo: nat)
    requires from <= upTo <= |path| && forall k | from <= k < upTo :: path[k] != SLASH
    ensures Splitters(path, upTo) == Splitters(path, from)
    decreases upTo
  {
    if from < upTo {
      NoSplitters(path, from, upTo - 1);
    }
  }

  method FindNumber(s: Bytes) returns (found: bool)
    ensures found == HasNumber(s)
  {
    found := false;
    var idx := 0;
    while idx < |s|
      invariant 0 <= idx <= |s| && forall k | 0 <= k < idx :: !IsDigit(s[k])
    {
      found := IsDigit(s[idx]);
      if found {
        break;
      }
      idx := idx + Width(s, idx);
    }
  }

  /** The branches on one segment `path[start..end]`. */
  method WriteSegment(seg: Segment) returns (r: Bytes)
    ensures r == NormalizeSegment(seg)
  {
    var number := FindNumber(seg);
    if 1 < |seg| <= 3 {
      if seg[0] == LOWER_V || seg[0] == UPPER_V {
        var isVersionNum := true;
        var j := 1;
        while j < |seg|
          invariant 1 <= j <= |seg|
          invariant isVersionNum == forall k | 1 <= k < j :: IsDigit(seg[k])
        {
          isVersionNum := isVersionNum && IsDigit(seg[j]);
          j := j + 1;
        }
        if isVersionNum || !number {
          return seg;
        } else {
          return [QUESTION];
        }
      } else {
        if number {
          return [QUESTION];
        } else {
          return seg;
        }
      }
    } else if 3 < |seg| <= 24 {
      if number {
        return [QUESTION];
      } else {
        return seg;
      }
    } else {
      return [QUESTION];
    }
  }

  /** The ends of the segments from `start` on, empty segments included. */
  function Ends(path: Bytes, start: nat): seq<nat>
    requires start <= |path|
    decreases |path| - start
  {
    if start == |path| then []
    else
      var n := SegmentEnd(path, start);
      if n == |path| then [n] else [n] + Ends(path, n + 1)
  }

  /** The end of the path counts as a splitter unless the path ends in one. */
  function LastEnd(path: Bytes): seq<nat>
    requires path != []
  {
    if path[|path| - 1] != SLASH then [|path|] else []
  }

  lemma {:induction false} SplittersAreEnds(path: Bytes, start: nat)
    requires start <= |path| && path != [] && (start == |path| ==> path[start - 1] == SLASH)
    ensures Splitters(path, |path|) + LastEnd(path) == Splitters(path, start) + Ends(path, start)
    decreases |path| - start
  {
    hide Splitters, Ends, SegmentEnd, LastEnd;
    if start == |path| || SegmentEnd(path, start) == |path| {
      NoMoreSplitters(path, start);
    } else {
      var n := SegmentEnd(path, start);
      SplittersAreEnds(path, n + 1);
      NoSplitters(path, start, n);
      SplitterAt(path, n);
      MoreEnds(path, start);
      Regroup(Splitters(path, n), [n], Ends(path, n + 1));
    }
  }

  lemma NoMoreSplitters(path: Bytes, start: nat)
    requires start <= |path| && path != [] && (start == |path| ==> path[start - 1] == SLASH)
    requires start == |path| || SegmentEnd(path, start) == |path|
    ensures Splitters(path, |path|) == Splitters(path, start) && LastEnd(path) == Ends(path, start)
  {
    if start < |path| {
      NoSplitters(path, start, |path|);
    }
  }

  lemma MoreEnds(path: Bytes, start: nat)
    requires start < |path| && SegmentEnd(path, start) < |path|
    ensures var n := SegmentEnd(path, start); Ends(path, start) == [n] + Ends(path, n + 1)
  {
  }

  lemma SplitterAt(path: Bytes, n: nat)
    requires n < |path| && path[n] == SLASH
    ensures Splitters(path, n + 1) == Splitters(path, n) + [n]
  {
  }

  lemma {:induction false} SegmentEndShift(path: Bytes, start: nat, i: nat)
    requires start + i <= |path|
    ensures start + SegmentEnd(path[start..], i) == SegmentEnd(path, start + i)
    decreases |path| - start - i
  {
    if start + i < |path| && path[start + i] != SLASH {
      SegmentEndShift(path, start, i + 1);
    }
  }

  /** The segment that starts at `start`, if there is one. */
  function FirstSegment(path: Bytes, start: nat): seq<Segment>
    requires start < |path|
  {
    var n := SegmentEnd(path, start);
    if start < n then [path[start..n]] else []
  }

  /** The segments from `start` on: the one there and those after its end. */
  lemma SegmentAt(path: Bytes, start: nat)
    requires start < |path|
    ensures var n := SegmentEnd(path, start);
            Segments(path[start..])
            == FirstSegment(path, start) + (if n < |path| then Segments(path[n + 1..]) else [])
  {
    var n := SegmentEnd(path, start);
    var s := path[start..];
    SegmentEndShift(path, start, 0);
    if start < n {
      assert s[..n - start] == path[start..n] && s[n - start..] == path[n..];
    }
    if n < |path| {
      assert path[n..][0] == SLASH && path[n..][1..] == path[n + 1..];
    }
  }

  /** What the normalised segments from `start` on contribute. */
  function Rest(path: Bytes, start: nat): Bytes {
    if start >= |path| then [] else Join(NormalizeAll(Segments(path[start..])))
  }

  lemma NoSegments(path: Bytes, start: nat)
    requires start >= |path|
    ensures Rest(path, start) == [] && Join(NormalizeAll(Segments([]))) == []
  {
  }

  lemma {:induction false} JoinAppend(xs: seq<Segment>, ys: seq<Segment>)
    ensures Join(NormalizeAll(xs + ys)) == Join(NormalizeAll(xs)) + Join(NormalizeAll(ys))
    decreases |xs|
  {
    hide NormalizeSegment;
    if xs == [] {
      assert xs + ys == ys;
    } else {
      assert (xs + ys)[1..] == xs[1..] + ys;
      JoinAppend(xs[1..], ys);
    }
  }

  lemma JoinOne(seg: Segment)
    ensures Join(NormalizeAll([seg])) == [SLASH] + NormalizeSegment(seg)
    ensures Join(NormalizeAll([])) == []
  {
    hide NormalizeSegment;
    assert [seg][1..] == [];
  }

  lemma RestAfter(path: Bytes, n: nat)
    requires n <= |path|
    ensures Rest(path, n + 1) == Join(NormalizeAll(if n < |path| then Segments(path[n + 1..]) else []))
  {
    NoSegments(path, |path|);
    assert Segments([]) == [];
    if n + 1 == |path| {
      assert path[n + 1..] == [];
    }
  }

  lemma RestStep(path: Bytes, start: nat)
    requires start < |path|
    ensures Rest(path, start)
         == Join(NormalizeAll(FirstSegment(path, start))) + Rest(path, SegmentEnd(path, start) + 1)
  {
    hide Segments, FirstSegment, SegmentEnd, Join, NormalizeAll;
    var n := SegmentEnd(path, start);
    SegmentAt(path, start);
    RestAfter(path, n);
    JoinAppend(FirstSegment(path, start), if n < |path| then Segments(path[n + 1..]) else []);
  }

  lemma RestWhole(path: Bytes)
    requires path != []
    ensures Normalize(path) == if Rest(path, 0) == [] then [SLASH] else Rest(path, 0)
  {
    assert path[0..] == path;
  }

  /** The split positions of a path are the ends of its segments. */
  lemma PositionsAreEnds(path: Bytes)
    requires path != []
    ensures Splitters(path, |path|) + LastEnd(path) == Ends(path, 0)
  {
    hide SegmentEnd, Ends;
    SplittersAreEnds(path, 0);
    assert Splitters(path, 0) == [];
  }

  lemma EndsStep(path: Bytes, start: nat)
    requires start <= |path| && Ends(path, start) != []
    ensures start < |path| && Ends(path, start)[0] == SegmentEnd(path, start)
    ensures var n := SegmentEnd(path, start);
            Ends(path, start)[1..] == if n + 1 <= |path| then Ends(path, n + 1) else []
  {
  }

  lemma EndsOver(path: Bytes, start: nat)
    requires start <= |path| && Ends(path, start) == []
    ensures start == |path|
  {
  }

  /** What one turn of the loop writes: the separator and the segment that ends at `end`, if it is not empty. */
  method WriteNext(path: Bytes, start: nat, end: nat) returns (part: Bytes)
    requires start < |path| && end == SegmentEnd(path, start)
    ensures part == Join(NormalizeAll(FirstSegment(path, start)))
  {
    hide Join, NormalizeAll, NormalizeSegment, SegmentEnd;
    part := [];
    if start < end {
      var seg := WriteSegment(path[start..end]);
      part := [SLASH] + seg;
      JoinOne(path[start..end]);
    } else {
      JoinOne([QUESTION]);
    }
  }

  /** `defaultPathNormalizer` */
  method DefaultPathNormalizer(path: Bytes) returns (r: Bytes)
    ensures r == Normalize(path)
  {
    hide Join, NormalizeAll, Segments, FirstSegment, Normalize, Rest, Ends, Splitters, SegmentEnd;
    if |path| == 0 {
      EmptyPath();
      return [SLASH];
    }
    var positions := FindSplitters(path);
    r := [];
    var start: nat, p := 0, 0;
    PositionsAreEnds(path);
    assert positions[0..] == positions;
    ghost var whole := Rest(path, 0);
    while p < |positions|
      invariant 0 <= p <= |positions|
      invariant positions[p..] == if start <= |path| then Ends(path, start) else []
      invariant r + Rest(path, start) == whole
    {
      var end := positions[p];
      assert positions[p..][0] == end && positions[p..][1..] == positions[p + 1..];
      EndsStep(path, start);
      RestMoves(path, start, r, whole);
      var part := WriteNext(path, start, end);
      r := r + part;
      start := end + 1;
      p := p + 1;
    }
    if start <= |path| {
      EndsOver(path, start);
    }
    NoSegments(path, start);
    RestWhole(path);
    if |r| == 0 {
      return [SLASH];
    }
  }

  lemma RestMoves(path: Bytes, start: nat, r: Bytes, whole: Bytes)
    requires start < |path| && r + Rest(path, start) == whole
    ensures r + Join(NormalizeAll(FirstSegment(path, start))) + Rest(path, SegmentEnd(path, start) + 1) == whole
  {
    hide Rest, FirstSegment, SegmentEnd, Join, NormalizeAll;
    RestStep(path, start);
  }

  lemma EmptyPath()
    ensures Normalize([]) == [SLASH]
  {
  }
}
