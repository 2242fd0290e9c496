/** The server side of the `/upload` handler: for every detected face, pick one
    roughly horizontal pair of eyes and emit a record with the two eye centres,
    their distance and the face box. The two Haar-cascade detectors are not
    modelled; their outputs (face boxes, and per face the eye boxes relative to
    the face) are the input. */
module EyePairs {
  import opened Wrappers

  /** A box as the detectors report it: corner (x, y), width w, height h. */
  datatype Rect = Rect(x: int, y: int, w: int, h: int)

  /** A pixel position in image coordinates. */
  datatype Point = Point(x: int, y: int)

  /** One detected face: its box in the image, and the eye boxes found inside
      it, each relative to the face's corner. */
  datatype Detection = Detection(face: Rect, eyes: seq<Rect>)

  /** The record emitted for one face. The handler reports the Euclidean
      distance of the two centres as a float; the model keeps its square. */
  datatype EyeData = EyeData(
    leftEye: Point,
    rightEye: Point,
    eyeDistanceSq: int,
    faceX: int,
    faceY: int,
    faceWidth: int,
    faceHeight: int)

  /** A face needs at least this many eye boxes to be considered. */
  const MinEyes: nat := 2

  /** Two eyes count as level when their top edges are less than this far apart. */
  const MaxYGap: int := 10

  function Abs(n: int): nat
  {
    if n < 0 then -n else n
  }

  // ---------------------------------------------------------------------------
  // Sorting the eye boxes by their top edge, stably (Python's `sorted` with key `e[1]`)
  // ---------------------------------------------------------------------------

  /** Each box's top edge is at or above the next one's. */
  predicate SortedByY(s: seq<Rect>)
  {
    forall i :: 0 <= i < |s| - 1 ==> s[i].y <= s[i + 1].y
  }

  /** Sorted by neighbours means sorted throughout. */
  lemma {:induction false} SortedByYOrdersAll(s: seq<Rect>, i: nat, j: nat)
    requires SortedByY(s)
    requires i <= j < |s|
    ensures s[i].y <= s[j].y
    decreases j - i
  {
    if i < j {
      SortedByYOrdersAll(s, i + 1, j);
    }
  }

  /** The boxes of `s` whose top edge is at `k`, in the order they appear in `s`. */
  function WithY(s: seq<Rect>, k: int): seq<Rect>
  {
    if s == [] then [] else (if s[0].y == k then [s[0]] else []) + WithY(s[1..], k)
  }

  /** Inserts `e` in front of the first box whose top edge is not above it. */
  function InsertByY(e: Rect, s: seq<Rect>): (r: seq<Rect>)
    ensures |r| == |s| + 1
    ensures multiset(r) == multiset(s) + multiset{e}
    ensures r[0] == e || (s != [] && r[0] == s[0])
  {
    if s == [] || e.y <= s[0].y then
      [e] + s
    else
      assert s == [s[0]] + s[1..];
      [s[0]] + InsertByY(e, s[1..])
  }

  /** Inserting into a sorted sequence keeps it sorted. */
  lemma {:induction false} InsertByYSorted(e: Rect, s: seq<Rect>)
    requires SortedByY(s)
    ensures SortedByY(InsertByY(e, s))
  {
    if s != [] && e.y > s[0].y {
      var rest := InsertByY(e, s[1..]);
      InsertByYSorted(e, s[1..]);
      var r := [s[0]] + rest;
      assert InsertByY(e, s) == r;
      forall i | 0 <= i < |r| - 1
        ensures r[i].y <= r[i + 1].y
      {
        if i > 0 {
          assert r[i] == rest[i - 1] && r[i + 1] == rest[i];
        }
      }
    }
  }

  /** The eye boxes ordered by top edge, with boxes that share a top edge kept
      in their input order. */
  function SortByY(s: seq<Rect>): (r: seq<Rect>)
    ensures |r| == |s|
    ensures multiset(r) == multiset(s)
    ensures SortedByY(r)
  {
    if s == [] then [] else
      assert s == [s[0]] + s[1..];
      InsertByYSorted(s[0], SortByY(s[1..]));
      InsertByY(s[0], SortByY(s[1..]))
  }

  /** Dropping the first box keeps a sequence sorted. */
  lemma SortedByYTail(s: seq<Rect>)
    requires s != [] && SortedByY(s)
    ensures SortedByY(s[1..])
  {
    var t := s[1..];
    forall i | 0 <= i < |t| - 1
      ensures t[i].y <= t[i + 1].y
    {
      assert t[i] == s[i + 1] && t[i + 1] == s[i + 2];
    }
  }

  /** Sorting leaves an already sorted sequence as it is, so sorting twice
      is sorting once. */
  lemma {:induction false} SortByYKeepsSorted(s: seq<Rect>)
    requires SortedByY(s)
    ensures SortByY(s) == s
  {
    if s != [] {
      var t := s[1..];
      SortedByYTail(s);
      SortByYKeepsSorted(t);
      assert SortByY(s) == InsertByY(s[0], t);
      if t != [] {
        assert s[0].y <= t[0].y by { assert t[0] == s[1]; }
      }
      assert InsertByY(s[0], t) == [s[0]] + t;
      assert s == [s[0]] + t;
    }
  }

  /** Filtering by top edge distributes over a leading box. */
  lemma WithYCons(x: Rect, s: seq<Rect>, k: int)
    ensures WithY([x] + s, k) == (if x.y == k then [x] else []) + WithY(s, k)
  {
    assert ([x] + s)[0] == x && ([x] + s)[1..] == s;
  }

  lemma {:induction false} WithYInsert(e: Rect, s: seq<Rect>, k: int)
    ensures WithY(InsertByY(e, s), k) == (if e.y == k then [e] else []) + WithY(s, k)
  {
    if s == [] || e.y <= s[0].y {
      WithYCons(e, s, k);
    } else {
      var t := s[1..];
      var rest := InsertByY(e, t);
      assert InsertByY(e, s) == [s[0]] + rest;
      WithYCons(s[0], rest, k);
      WithYInsert(e, t, k);
      assert s == [s[0]] + t;
      WithYCons(s[0], t, k);
      if e.y == k {
        assert s[0].y != k;
      }
    }
  }

  /** The sort is stable: for every top edge `k`, the boxes at `k` come out in
      the order they went in. */
  lemma {:induction false} SortByYIsStable(s: seq<Rect>, k: int)
    ensures WithY(SortByY(s), k) == WithY(s, k)
  {
    if s != [] {
      SortByYIsStable(s[1..], k);
      WithYInsert(s[0], SortByY(s[1..]), k);
    }
  }

  // ---------------------------------------------------------------------------
  // Choosing the pair
  // ---------------------------------------------------------------------------

  /** The pair test of the scan: top edges less than MaxYGap apart. */
  predicate Level(a: Rect, b: Rect)
  {
    Abs(a.y - b.y) < MaxYGap
  }

  /** The adjacent boxes at `i` and `i + 1` exist and are level. */
  predicate LevelAt(s: seq<Rect>, i: int)
  {
    0 <= i < |s| - 1 && Level(s[i], s[i + 1])
  }

  /** The first index `i >= from` at which the adjacent boxes `i` and `i + 1`
      are level, if any. */
  function FirstLevelPair(eyes: seq<Rect>, from: nat): (r: Option<nat>)
    decreases |eyes| - from
    ensures r.Some? ==> from <= r.value && LevelAt(eyes, r.value)
    ensures r.Some? ==> forall i :: from <= i < r.value ==> !LevelAt(eyes, i)
    ensures r.None? ==> forall i :: from <= i < |eyes| - 1 ==> !LevelAt(eyes, i)
  {
    if from + 1 >= |eyes| then None
    else if Level(eyes[from], eyes[from + 1]) then Some(from)
    else FirstLevelPair(eyes, from + 1)
  }

  /** Centre of eye box `e` of the face with box `f`, in image coordinates.
      Python's `//` floors; Dafny's `/` agrees with it for the positive divisor 2. */
  function EyeCentre(f: Rect, e: Rect): (c: Point)
    ensures 0 <= e.w ==> f.x + e.x <= c.x <= f.x + e.x + e.w
    ensures 0 <= e.h ==> f.y + e.y <= c.y <= f.y + e.y + e.h
    ensures e.w - 1 <= 2 * (c.x - f.x - e.x) <= e.w
    ensures e.h - 1 <= 2 * (c.y - f.y - e.y) <= e.h
  {
    Point(f.x + e.x + e.w / 2, f.y + e.y + e.h / 2)
  }

  /** The square of the Euclidean distance between two points. */
  function SquaredDistance(p: Point, q: Point): (d: int)
    ensures d >= 0
    ensures d == 0 <==> p == q
  {
    var dx, dy := p.x - q.x, p.y - q.y;
    assert dx * dx >= 0 && dy * dy >= 0;
    assert dx * dx == 0 ==> dx == 0;
    assert dy * dy == 0 ==> dy == 0;
    dx * dx + dy * dy
  }

  lemma SquaredDistanceSymmetric(p: Point, q: Point)
    ensures SquaredDistance(p, q) == SquaredDistance(q, p)
  {
    var dx, dy := p.x - q.x, p.y - q.y;
    assert (-dx) * (-dx) == dx * dx;
    assert (-dy) * (-dy) == dy * dy;
  }

  /** The record built for the face `f` from the accepted eye boxes `e1`
      (earlier in y order) and `e2`. */
  function Emit(f: Rect, e1: Rect, e2: Rect): EyeData
  {
    var c1, c2 := EyeCentre(f, e1), EyeCentre(f, e2);
    EyeData(c1, c2, SquaredDistance(c1, c2), f.x, f.y, f.w, f.h)
  }

  /** What one face contributes: nothing when it has fewer than two eyes or
      when no adjacent pair in y order is level, otherwise the record for the
      first level pair. */
  function FaceResult(d: Detection): Option<EyeData>
  {
    if |d.eyes| < MinEyes then None
    else
      var sorted := SortByY(d.eyes);
      match FirstLevelPair(sorted, 0)
      case None => None
      case Some(i) => Some(Emit(d.face, sorted[i], sorted[i + 1]))
  }

  /** `i` is the index the scan stops at: the adjacent boxes `i` and `i + 1` of
      the sorted eyes are level, and no earlier adjacent pair is. */
  predicate IsFirstLevelPair(sorted: seq<Rect>, i: nat)
  {
    && LevelAt(sorted, i)
    && forall j :: 0 <= j < i ==> !LevelAt(sorted, j)
  }

  /** The scan finds the first level pair: started at or before it, it stops there. */
  lemma {:induction false} FirstLevelPairFinds(sorted: seq<Rect>, from: nat, i: nat)
    requires from <= i
    requires IsFirstLevelPair(sorted, i)
    ensures FirstLevelPair(sorted, from) == Some(i)
    decreases i - from
  {
    if from < i {
      assert !LevelAt(sorted, from);
      FirstLevelPairFinds(sorted, from + 1, i);
    }
  }

  /** The scan finds nothing when no adjacent pair from `from` on is level. */
  lemma {:induction false} FirstLevelPairMisses(sorted: seq<Rect>, from: nat)
    requires forall j :: from <= j < |sorted| - 1 ==> !LevelAt(sorted, j)
    ensures FirstLevelPair(sorted, from) == None
    decreases |sorted| - from
  {
    if from + 1 < |sorted| {
      FirstLevelPairMisses(sorted, from + 1);
    }
  }

  /** No adjacent pair of `s` is level. */
  predicate NoLevelPair(s: seq<Rect>)
  {
    forall j :: 0 <= j < |s| - 1 ==> !LevelAt(s, j)
  }

  /** A face yields nothing exactly when it has fewer than two eyes or no
      adjacent pair in y order is level: there is no fallback. */
  lemma {:induction false} FaceResultNone(d: Detection)
    ensures FaceResult(d).None? <==> (|d.eyes| < MinEyes || NoLevelPair(SortByY(d.eyes)))
  {
    if |d.eyes| >= MinEyes {
      var sorted := SortByY(d.eyes);
      if NoLevelPair(sorted) {
        FirstLevelPairMisses(sorted, 0);
      } else {
        var j :| 0 <= j < |sorted| - 1 && LevelAt(sorted, j);
        assert FirstLevelPair(sorted, 0).Some?;
      }
    }
  }

  /** When the scan stops at `i`, the face yields exactly one record: the left
      eye is the centre of the earlier box in y order (so its top edge is not
      below the right eye's), the centres use floor division, the distance is
      the squared distance of the two centres and the face box is copied. */
  lemma {:induction false} FaceResultAt(d: Detection, i: nat)
    requires IsFirstLevelPair(SortByY(d.eyes), i)
    ensures var s, r := SortByY(d.eyes), FaceResult(d);
      && s[i].y <= s[i + 1].y
      && s[i + 1].y - s[i].y < MaxYGap
      && r.Some?
      && r.value.leftEye == Point(d.face.x + s[i].x + s[i].w / 2, d.face.y + s[i].y + s[i].h / 2)
      && r.value.rightEye == Point(d.face.x + s[i + 1].x + s[i + 1].w / 2, d.face.y + s[i + 1].y + s[i + 1].h / 2)
      && r.value.eyeDistanceSq == SquaredDistance(r.value.leftEye, r.value.rightEye)
      && r.value.faceX == d.face.x && r.value.faceY == d.face.y
      && r.value.faceWidth == d.face.w && r.value.faceHeight == d.face.h
  {
    var s := SortByY(d.eyes);
    FirstLevelPairFinds(s, 0, i);
    assert FaceResult(d) == Some(Emit(d.face, s[i], s[i + 1]));
  }

  // ---------------------------------------------------------------------------
  // The handler's loop over faces
  // ---------------------------------------------------------------------------

  /** What each face contributes, in face order. */
  function Contributions(ds: seq<Detection>): seq<Option<EyeData>>
  {
    seq(|ds|, i requires 0 <= i < |ds| => FaceResult(ds[i]))
  }

  /** The records of all faces, in face order. */
  function Results(ds: seq<Detection>): (r: seq<EyeData>)
    ensures |r| <= |ds|
  {
    Present(Contributions(ds))
  }

  /** The indices of the faces that contribute a record, in face order. */
  function Producers(ds: seq<Detection>): seq<nat>
  {
    PresentIndices(Contributions(ds))
  }

  /** The k-th record is the one the k-th producing face yields; producing
      faces are listed in increasing order, so records keep the faces' order
      and no face contributes twice; and a face is listed exactly when it
      yields a record. */
  lemma ResultsFollowFaces(ds: seq<Detection>)
    ensures |Producers(ds)| == |Results(ds)|
    ensures forall k :: 0 <= k < |Producers(ds)| ==>
      Producers(ds)[k] < |ds| && FaceResult(ds[Producers(ds)[k]]) == Some(Results(ds)[k])
    ensures forall k, l :: 0 <= k < l < |Producers(ds)| ==> Producers(ds)[k] < Producers(ds)[l]
    ensures forall i :: 0 <= i < |ds| ==> (FaceResult(ds[i]).Some? <==> i in Producers(ds))
  {
    var cs := Contributions(ds);
    PresentAtIndices(cs);
    PresentIndicesIncrease(cs);
    PresentIndicesExact(cs);
  }

  /** The body of the handler's loop for one face: sort its eyes by top edge,
      scan the adjacent pairs and build the record for the first level pair.
      Returning from the scan stands for the handler's `break`. */
  method ScanFace(face: Rect, eyes: seq<Rect>) returns (r: Option<EyeData>)
    ensures r == FaceResult(Detection(face, eyes))
  {
    if |eyes| < MinEyes {
      return None;
    }
    var sorted := SortByY(eyes);
    var i := 0;
    while i < |sorted| - 1
      invariant 0 <= i <= |sorted| - 1
      invariant forall j :: 0 <= j < i ==> !LevelAt(sorted, j)
    {
      var eye1, eye2 := sorted[i], sorted[i + 1];
      if Abs(eye1.y - eye2.y) < MaxYGap {
        var c1, c2 := EyeCentre(face, eye1), EyeCentre(face, eye2);
        FirstLevelPairFinds(sorted, 0, i);
        return Some(EyeData(c1, c2, SquaredDistance(c1, c2), face.x, face.y, face.w, face.h));
      }
      i := i + 1;
    }
    FirstLevelPairMisses(sorted, 0);
    return None;
  }

  /** The handler's loop over faces, appending each face's record in turn. */
  method Upload(ds: seq<Detection>) returns (results: seq<EyeData>)
    ensures results == Results(ds)
  {
    ghost var cs := Contributions(ds);
    results := [];
    for n := 0 to |ds|
      invariant results == Present(cs[..n])
    {
      assert cs[..n + 1][..n] == cs[..n];
      var pair := ScanFace(ds[n].face, ds[n].eyes);
      assert pair == cs[n];
      if pair.Some? {
        results := results + [pair.value];
      }
    }
    assert cs[..|ds|] == cs;
  }

  // ---------------------------------------------------------------------------
  // Worked cases
  // ---------------------------------------------------------------------------

  /** Nothing orders the pair by x: here the left eye lies to the right. */
  lemma LeftEyeMayLieRight()
    ensures var r := FaceResult(Detection(Rect(100, 50, 200, 200), [Rect(30, 60, 30, 30), Rect(120, 55, 30, 30)]));
      r.Some? && r.value.leftEye == Point(235, 120) && r.value.rightEye == Point(145, 125)
      && r.value.leftEye.x > r.value.rightEye.x
  {
    var eyes := [Rect(30, 60, 30, 30), Rect(120, 55, 30, 30)];
    assert eyes[1..] == [Rect(120, 55, 30, 30)];
    assert SortByY(eyes[1..]) == [Rect(120, 55, 30, 30)];
    assert SortByY(eyes) == [Rect(120, 55, 30, 30), Rect(30, 60, 30, 30)];
  }

  /** The first level pair wins even when a later one is more level. */
  lemma FirstPairNotClosest()
    ensures var r := FaceResult(Detection(Rect(0, 0, 100, 100), [Rect(0, 0, 10, 10), Rect(40, 9, 10, 10), Rect(80, 10, 10, 10)]));
      r.Some? && r.value.leftEye == Point(5, 5) && r.value.rightEye == Point(45, 14)
  {
    var eyes := [Rect(0, 0, 10, 10), Rect(40, 9, 10, 10), Rect(80, 10, 10, 10)];
    var d := Detection(Rect(0, 0, 100, 100), eyes);
    assert SortedByY(eyes);
    SortByYKeepsSorted(eyes);
    assert LevelAt(eyes, 0);
    assert FirstLevelPair(eyes, 0) == Some(0);
    assert FaceResult(d) == Some(Emit(d.face, eyes[0], eyes[1]));
  }

  /** Two eyes exactly MaxYGap apart are not a pair, and there is no fallback. */
  lemma NoFallback()
    ensures FaceResult(Detection(Rect(0, 0, 100, 100), [Rect(10, 20, 10, 10), Rect(60, 30, 10, 10)])) == None
  {
    var eyes := [Rect(10, 20, 10, 10), Rect(60, 30, 10, 10)];
    SortByYKeepsSorted(eyes);
    assert !LevelAt(eyes, 0);
  }
}
