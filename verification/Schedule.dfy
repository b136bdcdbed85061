/**
  Weekly opening hours, breaks and date overrides, and the arithmetic of business time.

  Instants are integer seconds. A zone is a fixed offset, so local day `d` starts at the
  instant `d * DAY - offset`. Day 0 is a Thursday, and Monday is weekday 0.
*/
module Schedule {
  import opened Basics

  const DAY: int := 86400

  datatype ScheduleError = InvalidSchedule | InvalidRequest

  datatype Span = Span(start: int, end: int)

  datatype IntervalType = Open | Break

  datatype RawInterval = Interval(weekday: int, start: int, end: int, kind: IntervalType)
  {
    predicate Valid() {
      0 <= weekday <= 6 && 0 <= start < end < DAY
    }
  }

  type Interval = i: RawInterval | i.Valid() witness Interval(0, 0, 1, Open)

  datatype Override = Override(startsOn: int, endsOn: int, closed: bool, intervals: seq<Interval>)

  datatype BusinessSchedule = BusinessSchedule(
    offset: int,
    intervals: seq<Interval>,
    overrides: seq<Override>,
    active: bool)

  function Weekday(day: int): int { (day + 3) % 7 }

  /** The ordinal Python gives to 1970-01-01; ordinal 1 is a Monday. */
  const EPOCH_ORDINAL: int := 719163

  /** Weekdays run from Monday to Sunday and over again, day 0 is a Thursday, and ordinals agree. */
  lemma Calendar(day: int, w: int)
    requires 0 <= w <= 6
    ensures 0 <= Weekday(day) <= 6 && Weekday(0) == 3 && Weekday(day + 1) == (Weekday(day) + 1) % 7
    ensures Weekday(day) == (day + EPOCH_ORDINAL + 6) % 7
    ensures Weekday(day) == w <==> (day - w) % 7 == 4
  {
    assert day + EPOCH_ORDINAL + 6 == day + 3 + 7 * 102738;
  }

  // --- Opening hours minus breaks ---------------------------------------------------------

  predicate Within(i: Interval, t: int) { i.start <= t < i.end }

  predicate InSpan(p: Span, t: int) { p.start <= t < p.end }

  /** How many of the spans contain `t`. */
  ghost function Depth(spans: seq<Span>, t: int): nat {
    if spans == [] then 0
    else Depth(spans[..|spans| - 1], t) + if InSpan(spans[|spans| - 1], t) then 1 else 0
  }

  /** How many of the intervals contain `t`. */
  ghost function Layers(intervals: seq<Interval>, t: int): nat {
    if intervals == [] then 0
    else Layers(intervals[..|intervals| - 1], t) + if Within(intervals[|intervals| - 1], t) then 1 else 0
  }

  ghost predicate AnyWithin(intervals: seq<Interval>, t: int) {
    exists i :: i in intervals && Within(i, t)
  }

  ghost predicate WellFormedSpans(spans: seq<Span>) {
    forall i :: 0 <= i < |spans| ==> 0 <= spans[i].start < spans[i].end < DAY
  }

  ghost predicate Disjoint(spans: seq<Span>) {
    forall i, j :: 0 <= i < j < |spans| ==> spans[i].end <= spans[j].start
  }

  predicate NoOverlap(spans: seq<Span>) {
    forall i :: 0 <= i < |spans| - 1 ==> spans[i].end <= spans[i + 1].start
  }

  function CutPiece(p: Span, pause: Interval): seq<Span> {
    if pause.end <= p.start || p.end <= pause.start then [p]
    else
      (if p.start < pause.start then [Span(p.start, pause.start)] else [])
      + (if pause.end < p.end then [Span(pause.end, p.end)] else [])
  }

  function Cut(pieces: seq<Span>, pause: Interval): seq<Span> {
    if pieces == [] then []
    else Cut(pieces[..|pieces| - 1], pause) + CutPiece(pieces[|pieces| - 1], pause)
  }

  function CutAll(opening: Interval, breaks: seq<Interval>): seq<Span> {
    if breaks == [] then [Span(opening.start, opening.end)]
    else Cut(CutAll(opening, breaks[..|breaks| - 1]), breaks[|breaks| - 1])
  }

  function Remains(openings: seq<Interval>, breaks: seq<Interval>): seq<Span> {
    if openings == [] then []
    else Remains(openings[..|openings| - 1], breaks) + CutAll(openings[|openings| - 1], breaks)
  }

  function StartKey(): Interval -> int { (i: Interval) => i.start }

  /** The order of Python pairs `(start, end)` with both ends inside one day. */
  function SpanKey(): Span -> int { (p: Span) => p.start * DAY + p.end }

  function Subtract(openings: seq<Interval>, breaks: seq<Interval>): Result<seq<Span>, ScheduleError> {
    var ordered := SortBy(Remains(SortBy(openings, StartKey()), SortBy(breaks, StartKey())), SpanKey());
    if NoOverlap(ordered) then Ok(ordered) else Err(InvalidSchedule)
  }

  /** One pass of the inner loop: the pieces left after one break. */
  method RevisePieces(pieces: seq<Span>, pause: Interval) returns (revised: seq<Span>)
    ensures revised == Cut(pieces, pause)
  {
    revised := [];
    for k := 0 to |pieces|
      invariant revised == Cut(pieces[..k], pause)
    {
      assert pieces[..k + 1][..k] == pieces[..k];
      var p := pieces[k];
      if pause.end <= p.start || pause.start >= p.end {
        revised := revised + [p];
      } else {
        if pause.start > p.start {
          revised := revised + [Span(p.start, pause.start)];
        }
        if pause.end < p.end {
          revised := revised + [Span(pause.end, p.end)];
        }
      }
    }
    assert pieces[..|pieces|] == pieces;
  }

  method SubtractBreaks(openings: seq<Interval>, breaks: seq<Interval>)
    returns (r: Result<seq<Span>, ScheduleError>)
    ensures r == Subtract(openings, breaks)
  {
    hide SortBy, Cut;
    var opens := SortBy(openings, StartKey());
    var pauses := SortBy(breaks, StartKey());
    var result: seq<Span> := [];
    for i := 0 to |opens|
      invariant result == Remains(opens[..i], pauses)
    {
      var pieces := [Span(opens[i].start, opens[i].end)];
      for j := 0 to |pauses|
        invariant pieces == CutAll(opens[i], pauses[..j])
      {
        assert pauses[..j + 1][..j] == pauses[..j];
        pieces := RevisePieces(pieces, pauses[j]);
      }
      assert pauses[..|pauses|] == pauses && opens[..i + 1][..i] == opens[..i];
      result := result + pieces;
    }
    assert opens[..|opens|] == opens;
    r := Ordered(result);
  }

  /** The closing check: neighbours in start order must not overlap. */
  method Ordered(pieces: seq<Span>) returns (r: Result<seq<Span>, ScheduleError>)
    ensures r == var ordered := SortBy(pieces, SpanKey());
                 if NoOverlap(ordered) then Ok(ordered) else Err(InvalidSchedule)
  {
    hide SortBy, SpanKey;
    var ordered := SortBy(pieces, SpanKey());
    var k := 0;
    while k + 1 < |ordered|
      invariant 0 <= k && (k < |ordered| || k == 0)
      invariant forall m :: 0 <= m < k ==> ordered[m].end <= ordered[m + 1].start
    {
      if ordered[k].end > ordered[k + 1].start {
        return Err(InvalidSchedule);
      }
      k := k + 1;
    }
    return Ok(ordered);
  }

  // --- What the subtraction computes -------------------------------------------------------

  lemma DepthConcat(a: seq<Span>, b: seq<Span>, t: int)
    ensures Depth(a + b, t) == Depth(a, t) + Depth(b, t)
  {
    if b == [] {
      assert a + b == a;
    } else {
      assert (a + b)[..|a + b| - 1] == a + b[..|b| - 1];
      DepthConcat(a, b[..|b| - 1], t);
    }
  }

  lemma DepthOne(p: Span, t: int)
    ensures Depth([p], t) == if InSpan(p, t) then 1 else 0
  {
    assert [p][..0] == [];
  }

  lemma DepthCutPiece(p: Span, pause: Interval, t: int)
    ensures Depth(CutPiece(p, pause), t) == if InSpan(p, t) && !Within(pause, t) then 1 else 0
  {
    var left, right := Span(p.start, pause.start), Span(pause.end, p.end);
    DepthOne(p, t);
    DepthOne(left, t);
    DepthOne(right, t);
    DepthConcat([left], [right], t);
    assert [left] + [] == [left] && [] + [right] == [right];
  }

  lemma DepthCut(pieces: seq<Span>, pause: Interval, t: int)
    ensures Depth(Cut(pieces, pause), t) == if Within(pause, t) then 0 else Depth(pieces, t)
  {
    if pieces != [] {
      var init, last := pieces[..|pieces| - 1], pieces[|pieces| - 1];
      DepthCut(init, pause, t);
      DepthCutPiece(last, pause, t);
      DepthConcat(Cut(init, pause), CutPiece(last, pause), t);
    }
  }

  lemma DepthCutAll(opening: Interval, breaks: seq<Interval>, t: int)
    ensures Depth(CutAll(opening, breaks), t) ==
            if Within(opening, t) && !AnyWithin(breaks, t) then 1 else 0
  {
    if breaks == [] {
      DepthOne(Span(opening.start, opening.end), t);
    } else {
      var init, last := breaks[..|breaks| - 1], breaks[|breaks| - 1];
      DepthCutAll(opening, init, t);
      DepthCut(CutAll(opening, init), last, t);
      assert breaks == init + [last];
    }
  }

  lemma DepthRemains(openings: seq<Interval>, breaks: seq<Interval>, t: int)
    ensures Depth(Remains(openings, breaks), t) ==
            if AnyWithin(breaks, t) then 0 else Layers(openings, t)
  {
    if openings != [] {
      var init, last := openings[..|openings| - 1], openings[|openings| - 1];
      DepthRemains(init, breaks, t);
      DepthCutAll(last, breaks, t);
      DepthConcat(Remains(init, breaks), CutAll(last, breaks), t);
    }
  }

  lemma DepthHead(s: seq<Span>, t: int)
    requires s != []
    ensures Depth(s, t) == (if InSpan(s[0], t) then 1 else 0) + Depth(s[1..], t)
  {
    assert s == [s[0]] + s[1..];
    DepthConcat([s[0]], s[1..], t);
    DepthOne(s[0], t);
  }

  lemma DepthInsert(p: Span, s: seq<Span>, t: int)
    requires Sorted(s, SpanKey())
    ensures Depth(InsertBy(p, s, SpanKey()), t) == (if InSpan(p, t) then 1 else 0) + Depth(s, t)
  {
    var r := InsertBy(p, s, SpanKey());
    DepthHead(r, t);
    if s != [] && SpanKey()(s[0]) < SpanKey()(p) {
      DepthInsert(p, s[1..], t);
      DepthHead(s, t);
      assert r[1..] == InsertBy(p, s[1..], SpanKey());
    } else {
      assert r[1..] == s;
    }
  }

  /** Sorting moves the pieces around without changing what they cover. */
  lemma DepthSort(s: seq<Span>, t: int)
    ensures Depth(SortBy(s, SpanKey()), t) == Depth(s, t)
  {
    if s != [] {
      DepthSort(s[1..], t);
      DepthInsert(s[0], SortBy(s[1..], SpanKey()), t);
      DepthHead(s, t);
    }
  }

  lemma LayersConcat(a: seq<Interval>, b: seq<Interval>, t: int)
    ensures Layers(a + b, t) == Layers(a, t) + Layers(b, t)
  {
    if b == [] {
      assert a + b == a;
    } else {
      assert (a + b)[..|a + b| - 1] == a + b[..|b| - 1];
      LayersConcat(a, b[..|b| - 1], t);
    }
  }

  lemma LayersHead(s: seq<Interval>, t: int)
    requires s != []
    ensures Layers(s, t) == (if Within(s[0], t) then 1 else 0) + Layers(s[1..], t)
  {
    assert s == [s[0]] + s[1..];
    LayersConcat([s[0]], s[1..], t);
    assert [s[0]][..0] == [];
  }

  lemma LayersInsert(p: Interval, s: seq<Interval>, t: int)
    requires Sorted(s, StartKey())
    ensures Layers(InsertBy(p, s, StartKey()), t) == (if Within(p, t) then 1 else 0) + Layers(s, t)
  {
    var r := InsertBy(p, s, StartKey());
    LayersHead(r, t);
    if s != [] && StartKey()(s[0]) < StartKey()(p) {
      LayersInsert(p, s[1..], t);
      LayersHead(s, t);
      assert r[1..] == InsertBy(p, s[1..], StartKey());
    } else {
      assert r[1..] == s;
    }
  }

  lemma LayersSort(s: seq<Interval>, t: int)
    ensures Layers(SortBy(s, StartKey()), t) == Layers(s, t)
  {
    if s != [] {
      LayersSort(s[1..], t);
      LayersInsert(s[0], SortBy(s[1..], StartKey()), t);
      LayersHead(s, t);
    }
  }

  lemma CutWellFormed(pieces: seq<Span>, pause: Interval)
    requires WellFormedSpans(pieces)
    ensures WellFormedSpans(Cut(pieces, pause))
  {
    if pieces != [] {
      CutWellFormed(pieces[..|pieces| - 1], pause);
      assert WellFormedSpans(CutPiece(pieces[|pieces| - 1], pause));
    }
  }

  lemma CutAllWellFormed(opening: Interval, breaks: seq<Interval>)
    ensures WellFormedSpans(CutAll(opening, breaks))
  {
    if breaks != [] {
      CutAllWellFormed(opening, breaks[..|breaks| - 1]);
      CutWellFormed(CutAll(opening, breaks[..|breaks| - 1]), breaks[|breaks| - 1]);
    }
  }

  lemma RemainsWellFormed(openings: seq<Interval>, breaks: seq<Interval>)
    ensures WellFormedSpans(Remains(openings, breaks))
  {
    if openings != [] {
      RemainsWellFormed(openings[..|openings| - 1], breaks);
      CutAllWellFormed(openings[|openings| - 1], breaks);
    }
  }

  lemma NoOverlapIsDisjoint(spans: seq<Span>)
    requires WellFormedSpans(spans) && NoOverlap(spans)
    ensures Disjoint(spans)
  {
    if spans != [] {
      var init := spans[..|spans| - 1];
      NoOverlapIsDisjoint(init);
      forall i, j | 0 <= i < j < |spans| ensures spans[i].end <= spans[j].start {
        if j < |init| {
          assert init[i].end <= init[j].start;
        } else if i < j - 1 {
          assert init[i].end <= init[j - 1].start;
        }
      }
    }
  }

  lemma DisjointDepth(spans: seq<Span>, t: int)
    requires WellFormedSpans(spans) && Disjoint(spans)
    ensures Depth(spans, t) <= 1
    ensures Depth(spans, t) == 1 <==> exists i :: 0 <= i < |spans| && InSpan(spans[i], t)
  {
    if spans != [] {
      var init, last := spans[..|spans| - 1], spans[|spans| - 1];
      DisjointDepth(init, t);
      if i :| 0 <= i < |init| && InSpan(init[i], t) {
        assert InSpan(spans[i], t) && spans[i].end <= last.start;
      }
    }
  }

  lemma DepthTwo(spans: seq<Span>, i: int, j: int, t: int)
    requires 0 <= i < j < |spans| && InSpan(spans[i], t) && InSpan(spans[j], t)
    ensures Depth(spans, t) >= 2
  {
    var init := spans[..|spans| - 1];
    if j < |init| {
      DepthTwo(init, i, j, t);
    } else {
      DepthAtLeastOne(init, i, t);
    }
  }

  lemma DepthAtLeastOne(spans: seq<Span>, i: int, t: int)
    requires 0 <= i < |spans| && InSpan(spans[i], t)
    ensures Depth(spans, t) >= 1
  {
    if i < |spans| - 1 {
      DepthAtLeastOne(spans[..|spans| - 1], i, t);
    }
  }

  /** Pieces in start order overlap somewhere exactly when two neighbours do. */
  lemma NoOverlapIffDepth(spans: seq<Span>)
    requires WellFormedSpans(spans) && Sorted(spans, SpanKey())
    ensures NoOverlap(spans) <==> forall t :: Depth(spans, t) <= 1
  {
    if NoOverlap(spans) {
      NoOverlapIsDisjoint(spans);
      forall t ensures Depth(spans, t) <= 1 {
        DisjointDepth(spans, t);
      }
    } else {
      var k :| 0 <= k < |spans| - 1 && spans[k].end > spans[k + 1].start;
      assert SpanKey()(spans[k]) <= SpanKey()(spans[k + 1]);
      assert spans[k].start <= spans[k + 1].start;
      DepthTwo(spans, k, k + 1, spans[k + 1].start);
    }
  }

  /** Some instant outside every break lies in two openings at once. */
  ghost predicate DoubleBooked(openings: seq<Interval>, breaks: seq<Interval>) {
    exists t :: Layers(openings, t) >= 2 && !AnyWithin(breaks, t)
  }

  /**
    The subtraction is pointwise set difference: the pieces are sorted, disjoint and cover exactly
    the instants of the openings outside the breaks. It fails exactly when two openings share an
    instant that no break removes.
  */
  lemma SubtractMeaning(openings: seq<Interval>, breaks: seq<Interval>)
    ensures Subtract(openings, breaks).Err? <==> DoubleBooked(openings, breaks)
    ensures Subtract(openings, breaks).Ok? ==>
              var spans := Subtract(openings, breaks).value;
              && WellFormedSpans(spans) && Disjoint(spans)
              && forall t :: (exists i :: 0 <= i < |spans| && InSpan(spans[i], t))
                             <==> (AnyWithin(openings, t) && !AnyWithin(breaks, t))
  {
    var pieces := Remains(SortBy(openings, StartKey()), SortBy(breaks, StartKey()));
    var spans := SortBy(pieces, SpanKey());
    RemainsWellFormed(SortBy(openings, StartKey()), SortBy(breaks, StartKey()));
    assert WellFormedSpans(spans) by {
      assert forall i :: 0 <= i < |spans| ==> spans[i] in spans && spans[i] in pieces;
    }
    NoOverlapIffDepth(spans);
    forall t ensures Depth(spans, t) == if AnyWithin(breaks, t) then 0 else Layers(openings, t) {
      DepthSort(pieces, t);
      DepthRemains(SortBy(openings, StartKey()), SortBy(breaks, StartKey()), t);
      LayersSort(openings, t);
    }
    if NoOverlap(spans) {
      NoOverlapIsDisjoint(spans);
      forall t ensures (exists i :: 0 <= i < |spans| && InSpan(spans[i], t))
                       <==> (AnyWithin(openings, t) && !AnyWithin(breaks, t)) {
        DisjointDepth(spans, t);
        LayersPositive(openings, t);
      }
      forall t ensures !(Layers(openings, t) >= 2 && !AnyWithin(breaks, t)) {
        assert Depth(spans, t) <= 1;
      }
    } else {
      var t :| Depth(spans, t) > 1;
      assert Layers(openings, t) >= 2 && !AnyWithin(breaks, t);
    }
  }

  lemma LayersPositive(s: seq<Interval>, t: int)
    ensures Layers(s, t) > 0 <==> AnyWithin(s, t)
  {
    if s != [] {
      var init := s[..|s| - 1];
      LayersPositive(init, t);
      assert s == init + [s[|s| - 1]];
    }
  }

  // --- Stretches of time ------------------------------------------------------------------

  /** One of the spans holds the whole stretch from `a` to `b`. */
  ghost predicate Holds(spans: seq<Span>, a: int, b: int) {
    exists p :: p in spans && p.start <= a && b <= p.end
  }

  lemma HoldsConcat(x: seq<Span>, y: seq<Span>, a: int, b: int)
    ensures Holds(x + y, a, b) <==> Holds(x, a, b) || Holds(y, a, b)
  {
    forall p ensures p in x + y <==> p in x || p in y {}
  }

  lemma HoldsCutPiece(p: Span, pause: Interval, a: int, b: int)
    requires a < b
    ensures Holds(CutPiece(p, pause), a, b) <==> p.start <= a && b <= p.end && (b <= pause.start || pause.end <= a)
  {
    var before, after := Span(p.start, pause.start), Span(pause.end, p.end);
    var pieces := CutPiece(p, pause);
    if pause.end <= p.start || p.end <= pause.start {
      assert p in pieces;
    } else {
      assert p.start < pause.start ==> before in pieces;
      assert pause.end < p.end ==> after in pieces;
    }
  }

  lemma HoldsCut(pieces: seq<Span>, pause: Interval, a: int, b: int)
    requires a < b
    ensures Holds(Cut(pieces, pause), a, b) <==> Holds(pieces, a, b) && (b <= pause.start || pause.end <= a)
  {
    if pieces != [] {
      var init, last := pieces[..|pieces| - 1], pieces[|pieces| - 1];
      HoldsCut(init, pause, a, b);
      HoldsConcat(Cut(init, pause), CutPiece(last, pause), a, b);
      HoldsCutPiece(last, pause, a, b);
      HoldsLast(pieces, a, b);
    }
  }

  lemma HoldsLast(spans: seq<Span>, a: int, b: int)
    requires spans != []
    ensures var last := spans[|spans| - 1];
            Holds(spans, a, b) <==> Holds(spans[..|spans| - 1], a, b) || (last.start <= a && b <= last.end)
  {
    assert spans == spans[..|spans| - 1] + [spans[|spans| - 1]];
    HoldsConcat(spans[..|spans| - 1], [spans[|spans| - 1]], a, b);
  }

  /** No break meets the stretch. */
  ghost predicate Clear(breaks: seq<Interval>, a: int, b: int) {
    forall i :: i in breaks ==> b <= i.start || i.end <= a
  }

  lemma ClearLast(breaks: seq<Interval>, a: int, b: int)
    requires breaks != []
    ensures var last := breaks[|breaks| - 1];
            Clear(breaks, a, b) <==> Clear(breaks[..|breaks| - 1], a, b) && (b <= last.start || last.end <= a)
  {
    var init, last := breaks[..|breaks| - 1], breaks[|breaks| - 1];
    assert breaks == init + [last];
    forall i ensures i in breaks <==> i in init || i == last {}
  }

  lemma HoldsCutAll(opening: Interval, breaks: seq<Interval>, a: int, b: int)
    requires a < b
    ensures Holds(CutAll(opening, breaks), a, b) <==> opening.start <= a && b <= opening.end && Clear(breaks, a, b)
  {
    if breaks == [] {
      assert Span(opening.start, opening.end) in CutAll(opening, breaks);
    } else {
      HoldsCutAll(opening, breaks[..|breaks| - 1], a, b);
      HoldsCut(CutAll(opening, breaks[..|breaks| - 1]), breaks[|breaks| - 1], a, b);
      ClearLast(breaks, a, b);
    }
  }

  lemma HoldsRemains(openings: seq<Interval>, breaks: seq<Interval>, a: int, b: int)
    requires a < b
    ensures Holds(Remains(openings, breaks), a, b) <==>
            Clear(breaks, a, b) && exists o :: o in openings && o.start <= a && b <= o.end
  {
    if openings != [] {
      var init, last := openings[..|openings| - 1], openings[|openings| - 1];
      HoldsRemains(init, breaks, a, b);
      HoldsCutAll(last, breaks, a, b);
      HoldsConcat(Remains(init, breaks), CutAll(last, breaks), a, b);
      assert openings == init + [last];
      forall o ensures o in openings <==> o in init || o == last {}
    }
  }

  /**
    A stretch lies in one piece of the result exactly when it lies in one opening and meets no break.
    This is more than being covered: pieces that touch stay apart.
  */
  lemma SubtractHolds(openings: seq<Interval>, breaks: seq<Interval>, a: int, b: int)
    requires a < b && Subtract(openings, breaks).Ok?
    ensures Holds(Subtract(openings, breaks).value, a, b) <==>
            Clear(breaks, a, b) && exists o :: o in openings && o.start <= a && b <= o.end
  {
    HoldsRemains(SortBy(openings, StartKey()), SortBy(breaks, StartKey()), a, b);
  }
}
