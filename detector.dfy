/**
 * The plate-candidate detector of TCC.py (`detectar_placa`).
 *
 * The image pipeline (grey conversion, bilateral filter, Canny edges,
 * contour extraction) is outside the model: the detector is given the
 * contours of one frame as a sequence of an abstract type `C`, and the
 * four OpenCV measurements it applies to them as the fields of a
 * `Vision<C>` value. What is modelled is what the detector does with those
 * measurements: the stable ranking by area, the cut to the ten largest,
 * and the scan for the first four-sided polygon with a plate-like ratio.
 */
module Detector {

  /** A vertex of a polygon, in pixel coordinates. */
  datatype Point = Point(x: int, y: int)

  /** An axis-aligned bounding box `(x, y, w, h)` as `cv2.boundingRect` returns it. */
  datatype Box = Box(x: int, y: int, w: nat, h: nat)

  /**
   * The OpenCV primitives the detector calls, left uninterpreted:
   * `cv2.contourArea`, `cv2.arcLength(c, True)`,
   * `cv2.approxPolyDP(c, epsilon, True)` and `cv2.boundingRect`.
   */
  datatype Vision<!C> = Vision(
    contourArea: C -> real,
    arcLength: C -> real,
    approxPolyDP: (C, real) -> seq<Point>,
    boundingRect: seq<Point> -> Box)

  /** How many of the largest contours are examined. */
  const MaxCandidates: nat := 10

  /** The approximation tolerance, as a fraction of the perimeter. */
  const ApproxTolerance: real := 0.018

  /** What one call of the detector ends with. `DivisionByZero` is the
      exception Python raises on `w / h` when the box has zero height. */
  datatype Detection = Found(box: Box) | NotFound | DivisionByZero

  // ---------------------------------------------------------------------
  // Ranking: `sorted(contours, key=cv2.contourArea, reverse=True)`
  // ---------------------------------------------------------------------

  /** Areas never increase along `s`. */
  ghost predicate SortedDesc<C>(v: Vision<C>, s: seq<C>) {
    forall i, j :: 0 <= i < j < |s| ==> v.contourArea(s[i]) >= v.contourArea(s[j])
  }

  /** The contours of `s` whose area is exactly `a`, in their order in `s`. */
  function WithArea<C>(v: Vision<C>, s: seq<C>, a: real): (r: seq<C>)
    ensures |r| <= |s|
    ensures forall i :: 0 <= i < |r| ==> v.contourArea(r[i]) == a
  {
    if s == [] then []
    else if v.contourArea(s[0]) == a then [s[0]] + WithArea(v, s[1..], a)
    else WithArea(v, s[1..], a)
  }

  /** Puts `c` in front of the first contour of `s` whose area is not larger. */
  function Insert<C(==)>(v: Vision<C>, c: C, s: seq<C>): (r: seq<C>)
    ensures |r| == |s| + 1
    ensures multiset(r) == multiset(s) + multiset{c}
    ensures SortedDesc(v, s) ==> SortedDesc(v, r)
    ensures r[0] == c || (s != [] && r[0] == s[0])
  {
    if s == [] || v.contourArea(c) >= v.contourArea(s[0]) then [c] + s
    else
      assert s == [s[0]] + s[1..];
      var t := Insert(v, c, s[1..]);
      assert SortedDesc(v, s) ==> SortedDesc(v, [s[0]] + t) by {
        if SortedDesc(v, s) {
          SortedTail(v, s);
          SortedCons(v, s[0], t);
        }
      }
      [s[0]] + t
  }

  /** The tail of a sorted sequence is sorted. */
  lemma SortedTail<C>(v: Vision<C>, s: seq<C>)
    requires s != [] && SortedDesc(v, s)
    ensures SortedDesc(v, s[1..])
    ensures |s| > 1 ==> v.contourArea(s[0]) >= v.contourArea(s[1])
  {
  }

  /** Putting a contour no smaller than the head in front keeps the order. */
  lemma SortedCons<C>(v: Vision<C>, x: C, t: seq<C>)
    requires SortedDesc(v, t)
    requires t == [] || v.contourArea(x) >= v.contourArea(t[0])
    ensures SortedDesc(v, [x] + t)
  {
    var r := [x] + t;
    forall i, j | 0 <= i < j < |r| ensures v.contourArea(r[i]) >= v.contourArea(r[j]) {
      if i == 0 {
        assert r[j] == t[j - 1];
      } else {
        assert r[i] == t[i - 1] && r[j] == t[j - 1];
      }
    }
  }

  /**
   * The contours in decreasing order of area, ties kept in their input
   * order, as Python's stable `sorted(..., reverse=True)` gives them.
   */
  function Ranked<C(==)>(v: Vision<C>, cs: seq<C>): (r: seq<C>)
    ensures |r| == |cs|
    ensures multiset(r) == multiset(cs)
    ensures SortedDesc(v, r)
  {
    if cs == [] then []
    else assert cs == [cs[0]] + cs[1..]; Insert(v, cs[0], Ranked(v, cs[1..]))
  }

  /** Inserting `c` adds it in front of the contours of its own area. */
  lemma {:induction false} InsertWithArea<C>(v: Vision<C>, c: C, s: seq<C>, a: real)
    ensures WithArea(v, Insert(v, c, s), a)
         == if v.contourArea(c) == a then [c] + WithArea(v, s, a) else WithArea(v, s, a)
  {
    if s == [] || v.contourArea(c) >= v.contourArea(s[0]) {
      assert Insert(v, c, s)[1..] == s;
    } else {
      var r := Insert(v, c, s);
      assert r[0] == s[0] && r[1..] == Insert(v, c, s[1..]);
      InsertWithArea(v, c, s[1..], a);
    }
  }

  /** Stability: contours of equal area keep their input order. */
  lemma {:induction false} RankedIsStable<C>(v: Vision<C>, cs: seq<C>, a: real)
    ensures WithArea(v, Ranked(v, cs), a) == WithArea(v, cs, a)
  {
    if cs != [] {
      RankedIsStable(v, cs[1..], a);
      InsertWithArea(v, cs[0], Ranked(v, cs[1..]), a);
    }
  }

  /** The head of `s` leads the contours of its own area. */
  lemma {:induction false} WithAreaHead<C>(v: Vision<C>, s: seq<C>)
    requires s != []
    ensures WithArea(v, s, v.contourArea(s[0])) == [s[0]] + WithArea(v, s[1..], v.contourArea(s[0]))
  {
  }

  /** A contour of area `a` in `s` makes `WithArea(v, s, a)` non-empty. */
  lemma {:induction false} WithAreaNonEmpty<C>(v: Vision<C>, s: seq<C>, i: nat)
    requires i < |s|
    ensures WithArea(v, s, v.contourArea(s[i])) != []
  {
    if i > 0 && v.contourArea(s[0]) != v.contourArea(s[i]) {
      WithAreaNonEmpty(v, s[1..], i - 1);
    }
  }

  /** A sorted sequence has no contour of an area above that of its head. */
  lemma {:induction false} WithAreaAbove<C>(v: Vision<C>, s: seq<C>, a: real)
    requires SortedDesc(v, s)
    requires s != [] ==> a > v.contourArea(s[0])
    ensures WithArea(v, s, a) == []
  {
    if |s| > 1 {
      SortedTail(v, s);
      WithAreaAbove(v, s[1..], a);
    }
  }

  /**
   * Ranked is the only stable descending order: two different orderings
   * that are both sorted by decreasing area disagree on the order within
   * some area `a`. With RankedIsStable this says `Ranked` is exactly
   * Python's `sorted(contours, key=cv2.contourArea, reverse=True)`.
   */
  lemma {:induction false} StableOrderIsUnique<C>(v: Vision<C>, r: seq<C>, s: seq<C>) returns (a: real)
    requires SortedDesc(v, r) && SortedDesc(v, s)
    requires r != s
    ensures WithArea(v, r, a) != WithArea(v, s, a)
  {
    if r == [] {
      a := v.contourArea(s[0]);
      WithAreaNonEmpty(v, s, 0);
    } else if s == [] {
      a := v.contourArea(r[0]);
      WithAreaNonEmpty(v, r, 0);
    } else if v.contourArea(r[0]) > v.contourArea(s[0]) {
      a := v.contourArea(r[0]);
      WithAreaNonEmpty(v, r, 0);
      WithAreaAbove(v, s, a);
    } else if v.contourArea(s[0]) > v.contourArea(r[0]) {
      a := v.contourArea(s[0]);
      WithAreaNonEmpty(v, s, 0);
      WithAreaAbove(v, r, a);
    } else if r[0] != s[0] {
      a := v.contourArea(r[0]);
      WithAreaHead(v, r);
      WithAreaHead(v, s);
      assert WithArea(v, r, a)[0] != WithArea(v, s, a)[0];
    } else {
      assert r == [r[0]] + r[1..] && s == [s[0]] + s[1..];
      SortedTail(v, r);
      SortedTail(v, s);
      a := StableOrderIsUnique(v, r[1..], s[1..]);
      if a == v.contourArea(r[0]) {
        WithAreaHead(v, r);
        WithAreaHead(v, s);
        assert WithArea(v, r, a)[1..] == WithArea(v, r[1..], a);
        assert WithArea(v, s, a)[1..] == WithArea(v, s[1..], a);
      } else {
        assert WithArea(v, r, a) == WithArea(v, r[1..], a);
        assert WithArea(v, s, a) == WithArea(v, s[1..], a);
      }
    }
  }

  // ---------------------------------------------------------------------
  // Scan of the candidates: the `for contorno in contornos` loop
  // ---------------------------------------------------------------------

  /** `cv2.approxPolyDP(c, 0.018 * cv2.arcLength(c, True), True)`. */
  function Approximation<C>(v: Vision<C>, c: C): seq<Point> {
    v.approxPolyDP(c, ApproxTolerance * v.arcLength(c))
  }

  /** The approximation of `c` has exactly four vertices. */
  predicate FourSided<C>(v: Vision<C>, c: C) {
    |Approximation(v, c)| == 4
  }

  /** The bounding box of the approximation of `c`. */
  function BoxOf<C>(v: Vision<C>, c: C): Box {
    v.boundingRect(Approximation(v, c))
  }

  /** `proporcao = w / h`, defined only where Python does not raise. */
  function Ratio(b: Box): (r: real)
    requires b.h != 0
    ensures r * (b.h as real) == b.w as real
  {
    (b.w as real) / (b.h as real)
  }

  /** The ratio test `2 < proporcao < 6` stated without division. */
  predicate PlateShaped(b: Box) {
    b.h > 0 && 2 * b.h < b.w < 6 * b.h
  }

  /** The source's float test agrees with the division-free one. */
  lemma RatioTest(b: Box)
    requires b.h != 0
    ensures (2.0 < Ratio(b) < 6.0) <==> PlateShaped(b)
  {
    var w, h := b.w as real, b.h as real;
    QuotientBounds(w, h, Ratio(b));
    assert (2 * b.h) as real == 2.0 * h && (6 * b.h) as real == 6.0 * h;
  }

  /** For a positive divisor, bounds on a quotient are bounds on the dividend. */
  lemma QuotientBounds(w: real, h: real, q: real)
    requires h > 0.0 && q == w / h
    ensures (2.0 < q) == (2.0 * h < w)
    ensures (q < 6.0) == (w < 6.0 * h)
  {
    assert q * h == w;
    if q >= 6.0 {
      var d := q - 6.0;
      assert w == 6.0 * h + d * h;
      assert d * h >= 0.0;
    }
  }

  /** A contour at which the scan stops: four-sided, and then either its
      box has zero height (Python raises) or it passes the ratio test. */
  predicate Decisive<C>(v: Vision<C>, c: C) {
    FourSided(v, c) && (BoxOf(v, c).h == 0 || PlateShaped(BoxOf(v, c)))
  }

  /** A contour that passes both tests of the loop: four vertices, then the ratio. */
  predicate Qualifies<C>(v: Vision<C>, c: C) {
    FourSided(v, c) && PlateShaped(BoxOf(v, c))
  }

  /** What the scan ends with when it stops at a decisive contour `c`. */
  function Verdict<C>(v: Vision<C>, c: C): Detection {
    if BoxOf(v, c).h == 0 then DivisionByZero else Found(BoxOf(v, c))
  }

  /**
   * The loop of `detectar_placa` over the candidates, in order: return the
   * box of the first four-sided one whose ratio is between 2 and 6.
   */
  function Scan<C>(v: Vision<C>, cs: seq<C>): (r: Detection)
    ensures r.Found? ==> PlateShaped(r.box)
    ensures r.Found? ==> exists c :: c in cs && FourSided(v, c) && r.box == BoxOf(v, c)
  {
    if cs == [] then NotFound
    else
      var approx := Approximation(v, cs[0]);
      if |approx| == 4 then
        var b := v.boundingRect(approx);
        if b.h == 0 then DivisionByZero
        else if 2.0 < Ratio(b) < 6.0 then RatioTest(b); assert cs[0] in cs; Found(b)
        else Scan(v, cs[1..])
      else Scan(v, cs[1..])
  }

  /** The scan stops at the first decisive contour. */
  lemma {:induction false} ScanStopsAtFirstDecisive<C>(v: Vision<C>, cs: seq<C>, k: nat)
    requires k < |cs| && Decisive(v, cs[k])
    requires forall j :: 0 <= j < k ==> !Decisive(v, cs[j])
    ensures Scan(v, cs) == Verdict(v, cs[k])
  {
    var b := BoxOf(v, cs[0]);
    if b.h != 0 { RatioTest(b); }
    if k > 0 {
      assert !Decisive(v, cs[0]);
      ScanStopsAtFirstDecisive(v, cs[1..], k - 1);
    }
  }

  /** The scan finds nothing exactly when no contour is decisive. */
  lemma {:induction false} ScanNotFound<C>(v: Vision<C>, cs: seq<C>)
    ensures Scan(v, cs) == NotFound <==> forall i :: 0 <= i < |cs| ==> !Decisive(v, cs[i])
  {
    if cs != [] {
      var b := BoxOf(v, cs[0]);
      if b.h != 0 { RatioTest(b); }
      ScanNotFound(v, cs[1..]);
      assert forall i :: 0 < i < |cs| ==> cs[i] == cs[1..][i - 1];
    }
  }

  /** Whenever the scan does not find nothing, it stopped at a first decisive contour. */
  lemma ScanStoppedSomewhere<C>(v: Vision<C>, cs: seq<C>) returns (k: nat)
    requires Scan(v, cs) != NotFound
    ensures k < |cs| && Decisive(v, cs[k])
    ensures forall j :: 0 <= j < k ==> !Decisive(v, cs[j])
    ensures Scan(v, cs) == Verdict(v, cs[k])
  {
    ScanNotFound(v, cs);
    k := 0;
    while !Decisive(v, cs[k])
      invariant k < |cs|
      invariant forall j :: 0 <= j < k ==> !Decisive(v, cs[j])
      invariant exists i :: k <= i < |cs| && Decisive(v, cs[i])
      decreases |cs| - k
    {
      k := k + 1;
    }
    ScanStopsAtFirstDecisive(v, cs, k);
  }

  // ---------------------------------------------------------------------
  // The detector: `detectar_placa`
  // ---------------------------------------------------------------------

  /** The contours the loop examines: the ten largest, in ranked order. */
  function Candidates<C(==)>(v: Vision<C>, contours: seq<C>): (r: seq<C>)
    ensures |r| == if |contours| < MaxCandidates then |contours| else MaxCandidates
    ensures forall i :: 0 <= i < |r| ==> r[i] == Ranked(v, contours)[i]
  {
    var ranked := Ranked(v, contours);
    if |ranked| <= MaxCandidates then ranked else ranked[..MaxCandidates]
  }

  /**
   * `detectar_placa`: the box of the first plate-shaped quadrilateral among
   * the ten largest contours, `NotFound` if there is none.
   */
  function Detect<C(==)>(v: Vision<C>, contours: seq<C>): (r: Detection)
    ensures r.Found? ==> PlateShaped(r.box)
    ensures r.Found? ==> exists k :: 0 <= k < MaxCandidates && k < |contours|
                          && FourSided(v, Ranked(v, contours)[k])
                          && r.box == BoxOf(v, Ranked(v, contours)[k])
  {
    Scan(v, Candidates(v, contours))
  }

  /** The result is decided by the first decisive candidate, in ranked order. */
  lemma DetectFirstDecisive<C>(v: Vision<C>, contours: seq<C>, k: nat)
    requires k < MaxCandidates && k < |contours|
    requires Decisive(v, Ranked(v, contours)[k])
    requires forall j :: 0 <= j < k ==> !Decisive(v, Ranked(v, contours)[j])
    ensures Detect(v, contours) == Verdict(v, Ranked(v, contours)[k])
  {
    ScanStopsAtFirstDecisive(v, Candidates(v, contours), k);
  }

  /** No plate is found exactly when none of the ten largest contours is decisive. */
  lemma DetectNotFound<C>(v: Vision<C>, contours: seq<C>)
    ensures Detect(v, contours) == NotFound
        ==> forall i :: 0 <= i < MaxCandidates && i < |contours| ==> !Decisive(v, Ranked(v, contours)[i])
    ensures (forall i :: 0 <= i < MaxCandidates && i < |contours| ==> !Decisive(v, Ranked(v, contours)[i]))
        ==> Detect(v, contours) == NotFound
  {
    var ranked, cands := Ranked(v, contours), Candidates(v, contours);
    assert Detect(v, contours) == Scan(v, cands);
    ScanNotFound(v, cands);
    if forall i :: 0 <= i < |cands| ==> !Decisive(v, cands[i]) {
      forall i | 0 <= i < MaxCandidates && i < |contours| ensures !Decisive(v, ranked[i]) {
        assert cands[i] == ranked[i];
      }
    } else {
      var i :| 0 <= i < |cands| && Decisive(v, cands[i]);
      assert i < MaxCandidates && i < |contours| && Decisive(v, ranked[i]);
      assert Detect(v, contours) != NotFound;
    }
  }

  /**
   * The top-ten cut: a contour ranked eleventh or lower is never looked at,
   * so if every decisive contour ranks there, nothing is found.
   */
  lemma TopTenOnly<C>(v: Vision<C>, contours: seq<C>)
    requires forall i :: 0 <= i < |contours| && Decisive(v, Ranked(v, contours)[i]) ==> i >= MaxCandidates
    ensures Detect(v, contours) == NotFound
  {
    DetectNotFound(v, contours);
  }

  /**
   * With the zero-height case ruled out (as `cv2.boundingRect` rules it out
   * for a non-empty polygon), the result is `Found(b)` exactly when `b` is
   * the box of the first four-sided, plate-shaped candidate, and `NotFound`
   * exactly when there is no such candidate.
   */
  lemma DetectWithoutFlatBoxes<C>(v: Vision<C>, contours: seq<C>)
    requires forall c :: c in contours && FourSided(v, c) ==> BoxOf(v, c).h > 0
    ensures Detect(v, contours) != DivisionByZero
    ensures Detect(v, contours) == NotFound ==>
              forall i :: 0 <= i < MaxCandidates && i < |contours| ==> !Qualifies(v, Ranked(v, contours)[i])
    ensures (forall i :: 0 <= i < MaxCandidates && i < |contours| ==> !Qualifies(v, Ranked(v, contours)[i])) ==>
              Detect(v, contours) == NotFound
  {
    var ranked := Ranked(v, contours);
    forall i | 0 <= i < |ranked| ensures Decisive(v, ranked[i]) == Qualifies(v, ranked[i]) {
      assert ranked[i] in multiset(contours);
    }
    DetectNotFound(v, contours);
    if Detect(v, contours) != NotFound {
      var cands := Candidates(v, contours);
      var k := ScanStoppedSomewhere(v, cands);
      assert cands[k] == ranked[k];
    }
  }

  /**
   * Where a found box comes from: the first decisive contour among the ten
   * largest, and no contour of the frame with a strictly larger area is
   * decisive (larger contours are preferred).
   */
  lemma DetectFoundOrigin<C>(v: Vision<C>, contours: seq<C>) returns (k: nat)
    requires Detect(v, contours).Found?
    ensures k < MaxCandidates && k < |contours|
    ensures FourSided(v, Ranked(v, contours)[k])
    ensures Detect(v, contours).box == BoxOf(v, Ranked(v, contours)[k])
    ensures forall j :: 0 <= j < k ==> !Decisive(v, Ranked(v, contours)[j])
    ensures forall d :: d in contours && v.contourArea(d) > v.contourArea(Ranked(v, contours)[k]) ==> !Decisive(v, d)
  {
    var ranked := Ranked(v, contours);
    var cands := Candidates(v, contours);
    k := ScanStoppedSomewhere(v, cands);
    assert cands[k] == ranked[k];
    forall j | 0 <= j < k ensures !Decisive(v, ranked[j]) {
      assert cands[j] == ranked[j];
    }
    forall d | d in contours && v.contourArea(d) > v.contourArea(ranked[k]) ensures !Decisive(v, d) {
      var j := IndexOf(ranked, d);
      assert j < k;
      assert cands[j] == d;
    }
  }

  /** A position of an element of a permutation of `s`. */
  lemma IndexOf<C>(s: seq<C>, d: C) returns (j: nat)
    requires d in multiset(s)
    ensures j < |s| && s[j] == d
  {
    j :| 0 <= j < |s| && s[j] == d;
  }
}
