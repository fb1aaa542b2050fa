/** Timespans and the splitting of a timespan into days or other units of the calendar (Timespan.ts,
    ValueUtils.ts). Instants are integers. */
module Timespans {
  import opened Sorting

  /** Comparing with an absent time answers neither less nor greater. */
  function CompareAscending(a: Option<int>, b: Option<int>): int {
    if a.None? || b.None? then 0
    else if a.value < b.value then -1
    else if b.value < a.value then 1
    else 0
  }

  function CompareDescending(a: Option<int>, b: Option<int>): int { CompareAscending(b, a) }

  function PreferNull(compare: (Option<int>, Option<int>) -> int): (Option<int>, Option<int>) -> int {
    (a: Option<int>, b: Option<int>) => if a.None? then -1 else if b.None? then 1 else compare(a, b)
  }

  /** `chooseAmong` of two values: the first after a stable sort; `None` where it is undefined. */
  function ChooseAmong(a: Option<int>, b: Option<int>, compare: (Option<int>, Option<int>) -> int,
                       allowNull: bool): Option<int>
  {
    if !allowNull && a.None? then b
    else if !allowNull && b.None? then a
    else if compare(b, a) < 0 then b else a
  }

  datatype Timespan = Timespan(start: Option<int>, finish: Option<int>) {
    /** What the constructor insists on. */
    ghost predicate Valid() { start.Some? && finish.Some? ==> start.value <= finish.value }

    predicate IsFinite() { start.Some? && finish.Some? }

    predicate IncludesTime(t: int) {
      (start.None? || start.value <= t) && (finish.None? || finish.value > t)
    }

    predicate IncludesTimespan(other: Timespan) {
      (start.None? || (other.start.Some? && start.value <= other.start.value)) &&
      (finish.None? || (other.finish.Some? && finish.value >= other.finish.value))
    }

    predicate OverlapsTimespan(other: Timespan) {
      (start.None? || other.finish.None? || start.value < other.finish.value) &&
      (finish.None? || other.start.None? || other.start.value < finish.value)
    }

    /** The constructor never throws here; the result holds exactly the common instants. */
    function Intersection(other: Timespan): (both: Option<Timespan>)
      ensures both.Some? && Valid() && other.Valid() ==> both.value.Valid()
      ensures both.Some? ==> forall t :: both.value.IncludesTime(t) <==> IncludesTime(t) && other.IncludesTime(t)
      ensures both.None? ==> forall t :: !(IncludesTime(t) && other.IncludesTime(t))
    {
      if !OverlapsTimespan(other) then None
      else
        Some(Timespan(ChooseAmong(start, other.start, CompareDescending, false),
                      ChooseAmong(finish, other.finish, CompareAscending, false)))
    }

    /** The least timespan that includes both. */
    function Union(other: Timespan): (union: Timespan)
      ensures Valid() && other.Valid() ==> union.Valid()
      ensures union.IncludesTimespan(this) && union.IncludesTimespan(other)
      ensures forall c: Timespan :: c.IncludesTimespan(this) && c.IncludesTimespan(other) ==> c.IncludesTimespan(union)
    {
      var starts, finishes := PreferNull(CompareAscending), PreferNull(CompareDescending);
      assert starts(other.start, start) ==
             if other.start.None? then -1 else if start.None? then 1 else CompareAscending(other.start, start);
      assert finishes(other.finish, finish) ==
             if other.finish.None? then -1 else if finish.None? then 1 else CompareDescending(other.finish, finish);
      Timespan(ChooseAmong(start, other.start, starts, true), ChooseAmong(finish, other.finish, finishes, true))
    }
  }

  ghost predicate NonEmpty(a: Timespan) {
    exists t :: a.IncludesTime(t)
  }

  lemma NonEmptyMeans(a: Timespan)
    ensures NonEmpty(a) <==> (a.IsFinite() ==> a.start.value < a.finish.value)
  {
    var t := if a.start.Some? then a.start.value else if a.finish.Some? then a.finish.value - 1 else 0;
    assert a.IncludesTime(t) <==> (a.IsFinite() ==> a.start.value < a.finish.value);
  }

  /** Between timespans that hold an instant, overlapping means having a common one. */
  lemma OverlapIsCommon(a: Timespan, b: Timespan)
    requires NonEmpty(a) && NonEmpty(b)
    ensures a.OverlapsTimespan(b) <==> exists t :: a.IncludesTime(t) && b.IncludesTime(t)
  {
    NonEmptyMeans(a);
    NonEmptyMeans(b);
    if a.OverlapsTimespan(b) {
      var both := a.Intersection(b).value;
      NonEmptyMeans(both);
      var t :| both.IncludesTime(t);
    }
  }

  /** Including a timespan that holds an instant is including each of its instants. */
  lemma IncludingIsPointwise(a: Timespan, b: Timespan)
    requires NonEmpty(b)
    ensures a.IncludesTimespan(b) <==> forall t :: b.IncludesTime(t) ==> a.IncludesTime(t)
  {
    NonEmptyMeans(b);
    if !a.IncludesTimespan(b) {
      var inside :| b.IncludesTime(inside);
      if !(a.start.None? || (b.start.Some? && a.start.value <= b.start.value)) {
        var t := if b.start.Some? then b.start.value
                 else if inside < a.start.value then inside else a.start.value - 1;
        assert b.IncludesTime(t) && !a.IncludesTime(t);
      } else {
        var t := if b.finish.Some? then b.finish.value - 1
                 else if inside > a.finish.value then inside else a.finish.value;
        assert b.IncludesTime(t) && !a.IncludesTime(t);
      }
    }
  }

  // ------------------------------------------------------------------------- splitting into days

  /**
   * A calendar unit in a time zone: where its `k`th period begins, and which period an instant lies
   * in. Periods may differ in length, as months do, and days when the clocks change.
   */
  datatype Calendar = Calendar(boundary: int -> int, index: int -> int) {
    /** Later periods begin later. */
    ghost predicate InOrder(j: int, k: int) { j < k ==> boundary(j) < boundary(k) }

    /** The instant lies in the period it is said to lie in. */
    ghost predicate Within(t: int) { boundary(index(t)) <= t < boundary(index(t) + 1) }

    ghost predicate Valid() { (forall j, k :: InOrder(j, k)) && forall t :: Within(t) }

    /** `startOf` */
    function StartOf(t: int): int { boundary(index(t)) }

    /** `plus` for the start of a period: the start of the period `n` later. */
    function Plus(t: int, n: int): int { boundary(index(t) + n) }
  }

  /** Going on leads forward. */
  lemma PlusForward(c: Calendar, t: int, n: int)
    requires c.Valid() && n >= 1
    ensures c.Plus(t, n) > t
  {
    assert c.Within(t) && c.InOrder(c.index(t) + 1, c.index(t) + n);
  }

  /** Periods of a fixed length, counted from `phase`. */
  function FixedLength(length: int, phase: int): Calendar
    requires length >= 1
  {
    Calendar((k: int) => phase + k * length, (t: int) => if length >= 1 then (t - phase) / length else 0)
  }

  lemma FixedLengthIsCalendar(length: int, phase: int)
    requires length >= 1
    ensures FixedLength(length, phase).Valid()
  {
    var c := FixedLength(length, phase);
    forall j, k ensures c.InOrder(j, k) {
      if j < k {
        Multiples(j, k, length);
      }
    }
    forall t ensures c.Within(t) {
      var q := (t - phase) / length;
      Multiples(q, q + 1, length);
      assert t - phase == q * length + (t - phase) % length;
    }
  }

  lemma {:induction false} Multiples(j: int, k: int, length: int)
    requires j < k && length >= 1
    ensures j * length < k * length && (k == j + 1 ==> k * length == j * length + length)
    decreases k - j
  {
    assert k * length == (k - 1) * length + length;
    if j + 1 < k {
      Multiples(j, k - 1, length);
    }
  }

  /** A unit of time in a time zone: where the period of an instant begins, and what adding a number of
      units, whole or not, makes of an instant. */
  datatype Unit = Unit(startOf: int -> int, plus: (int, real) -> int)

  /** A duration that is added to instants and taken away again. It may be of calendar length. */
  datatype Offset = Offset(plus: int -> int, minus: int -> int)

  datatype HopOptions = HopOptions(unit: Unit, offset: Option<Offset>, duration: Option<real>) {
    function Step(t: int): int { unit.plus(t, if duration.Some? then duration.value else 1.0) }

    function Shift(t: int): int { if offset.Some? then offset.value.plus(t) else t }

    function Unshift(t: int): int { if offset.Some? then offset.value.minus(t) else t }

    /** Where `rounds` steps lead. */
    function Reached(t: int, rounds: nat): int {
      if rounds == 0 then t else Step(Reached(t, rounds - 1))
    }

    /** The `k`th hop of a timespan that starts at `start`. */
    function Hop(start: int, k: nat): int { Shift(Reached(unit.startOf(start), k)) }

    ghost predicate Begins(t: int) { unit.startOf(t) <= t }

    ghost predicate Forward(t: int) { Step(t) > t }

    /** Where the steps from the start of the period of `t` lead, the offset keeps their order, and
        taking it away undoes adding it. */
    ghost predicate Shifts(t: int, rounds: nat) {
      var now := Reached(unit.startOf(t), rounds);
      Unshift(Shift(now)) == now && Shift(now) < Shift(Step(now))
    }

    ghost predicate Valid() {
      (forall t :: Begins(t)) && (forall t :: Forward(t)) && forall t, rounds: nat :: Shifts(t, rounds)
    }

    /** The offset does not lead back from the instant. */
    ghost predicate MovesOn(t: int) { Shift(t) >= t }
  }

  /** A unit that adds whole numbers of periods of a calendar. */
  function UnitOf(c: Calendar): Unit {
    Unit((t: int) => c.StartOf(t), (t: int, n: real) => c.Plus(t, n.Floor))
  }

  /** Any calendar, whole numbers of its periods, and no offset will do. */
  lemma CalendarWillDo(c: Calendar, duration: Option<real>)
    requires c.Valid() && (duration.Some? ==> duration.value >= 1.0)
    ensures HopOptions(UnitOf(c), None, duration).Valid()
  {
    var options := HopOptions(UnitOf(c), None, duration);
    var n := if duration.Some? then duration.value else 1.0;
    forall t ensures options.Begins(t) && options.Forward(t) {
      assert c.Within(t);
      PlusForward(c, t, n.Floor);
    }
    forall t, rounds: nat ensures options.Shifts(t, rounds) {
      assert options.Forward(options.Reached(options.unit.startOf(t), rounds));
    }
  }

  lemma IndexOfBoundary(c: Calendar, j: int)
    requires c.Valid()
    ensures c.index(c.boundary(j)) == j
  {
    var i := c.index(c.boundary(j));
    assert c.Within(c.boundary(j)) && c.InOrder(j, i) && c.InOrder(i + 1, j);
  }

  /** The hops are then every so many period beginnings, every one unless a duration is given. */
  lemma {:induction false} CalendarHops(c: Calendar, duration: Option<real>, start: int, k: nat)
    requires c.Valid() && (duration.Some? ==> duration.value >= 1.0)
    ensures HopOptions(UnitOf(c), None, duration).Hop(start, k) ==
            c.boundary(c.index(start) + if duration.Some? then k * duration.value.Floor else k)
  {
    if k > 0 {
      CalendarHops(c, duration, start, k - 1);
      var n := if duration.Some? then duration.value.Floor else 1;
      IndexOfBoundary(c, c.index(start) + (k - 1) * n);
      assert k * n == (k - 1) * n + n;
    }
  }

  /** Without a duration, every period beginning after the start is a later hop, and nothing else is. */
  lemma CalendarCuts(c: Calendar, start: int, t: int)
    requires c.Valid()
    ensures LaterHop(HopOptions(UnitOf(c), None, None), start, 0, t) <==> t > start && t == c.StartOf(t)
  {
    var options := HopOptions(UnitOf(c), None, None);
    var first, last := c.index(start), c.index(t);
    assert c.Within(start);
    if k: nat :| k > 0 && t == options.Hop(start, k) {
      CalendarHops(c, None, start, k);
      IndexOfBoundary(c, first + k);
      assert c.InOrder(first + 1, first + k);
    }
    if t > start && t == c.StartOf(t) {
      assert c.InOrder(last, first) && last != first;
      CalendarHops(c, None, start, last - first);
    }
  }

  /** Step by step from `now`, the first instant that is not before `finish`. */
  ghost function FirstNotBefore(options: HopOptions, now: int, finish: int): (r: int)
    requires options.Valid()
    ensures r >= finish
    decreases finish - now
  {
    if now >= finish then now
    else
      assert options.Forward(now);
      FirstNotBefore(options, options.Step(now), finish)
  }

  /** A loop whose steps do not lead forward, and that begins before the finish, is still before it after
      any number of rounds: it never ends. */
  lemma {:induction false} LoopNeverEnds(options: HopOptions, now: int, finish: int, rounds: nat)
    requires now < finish && forall t :: !options.Forward(t)
    ensures options.Reached(now, rounds) < finish
  {
    if rounds > 0 {
      LoopNeverEnds(options, now, finish, rounds - 1);
      assert !options.Forward(options.Reached(now, rounds - 1));
    }
  }

  /** Where the hops of a timespan end: a step after the last hop. */
  ghost function LastBoundary(span: Timespan, options: HopOptions): int
    requires span.IsFinite() && options.Valid()
  {
    options.Shift(FirstNotBefore(options, options.unit.startOf(span.start.value), span.finish.value))
  }

  ghost predicate HopsOf(hops: seq<int>, start: int, options: HopOptions) {
    forall k :: 0 <= k < |hops| ==> hops[k] == options.Hop(start, k)
  }

  /** From the start of the period the timespan starts in, step by step up to the finish, shifted. */
  ghost predicate AreHops(hops: seq<int>, span: Timespan, options: HopOptions)
    requires span.IsFinite()
  {
    var first, finish := options.unit.startOf(span.start.value), span.finish.value;
    HopsOf(hops, span.start.value, options) &&
    (forall k :: 0 <= k < |hops| ==> options.Reached(first, k) < finish) && options.Reached(first, |hops|) >= finish
  }

  method GetTimeHopsWithin(span: Timespan, options: HopOptions) returns (hops: Option<seq<int>>)
    requires options.Valid()
    ensures hops.Some? <==> span.IsFinite()
    ensures hops.Some? ==> AreHops(hops.value, span, options)
  {
    if !span.IsFinite() {
      return None;
    }
    var timeBlocks := [];
    var finish := span.finish.value;
    var now := options.unit.startOf(span.start.value);
    ghost var first := now;
    while now < finish
      invariant now == options.Reached(first, |timeBlocks|) && HopsOf(timeBlocks, span.start.value, options)
      invariant forall k :: 0 <= k < |timeBlocks| ==> options.Reached(first, k) < finish
      decreases finish - now
    {
      assert options.Forward(now);
      var timeHop := now;
      if options.offset.Some? {
        timeHop := options.offset.value.plus(timeHop);
      }
      timeBlocks := timeBlocks + [timeHop];
      now := options.Step(now);
    }
    return Some(timeBlocks);
  }

  /** The boundary after the last hop. */
  lemma {:induction false} LastIsNext(options: HopOptions, first: int, k: nat, n: nat, finish: int)
    requires options.Valid() && k <= n && options.Reached(first, n) >= finish
    requires forall j :: k <= j < n ==> options.Reached(first, j) < finish
    ensures FirstNotBefore(options, options.Reached(first, k), finish) == options.Reached(first, n)
    decreases n - k
  {
    if k < n {
      LastIsNext(options, first, k + 1, n, finish);
    }
  }

  /** Hops are in order. */
  lemma {:induction false} HopsAscend(options: HopOptions, start: int, j: nat, k: nat)
    requires options.Valid() && j < k
    ensures options.Hop(start, j) < options.Hop(start, k)
    decreases k - j
  {
    assert options.Shifts(start, j);
    if j + 1 < k {
      HopsAscend(options, start, j + 1, k);
    }
  }

  /** The constructor, where it does not throw. */
  function FiniteTimespan(start: int, finish: int): Timespan
    requires start <= finish
  {
    Timespan(Some(start), Some(finish))
  }

  function EffectiveStart(hops: seq<int>, i: nat, span: Timespan): int
    requires i < |hops| && span.IsFinite()
  {
    if i == 0 && hops[0] > span.start.value then span.start.value else hops[i]
  }

  function SpanFinish(hops: seq<int>, i: nat, options: HopOptions): int
    requires i < |hops|
  {
    if i < |hops| - 1 then hops[i + 1]
    else
      match options.offset
      case None => options.Step(hops[i])
      case Some(offset) => offset.plus(options.Step(offset.minus(hops[i])))
  }

  lemma SpansForward(hops: seq<int>, i: nat, span: Timespan, options: HopOptions)
    requires i < |hops| && span.IsFinite() && options.Valid() && HopsOf(hops, span.start.value, options)
    ensures SpanFinish(hops, i, options) == options.Hop(span.start.value, i + 1) > hops[i]
    ensures EffectiveStart(hops, i, span) < SpanFinish(hops, i, options)
  {
    assert options.Shifts(span.start.value, i);
  }

  /** The timespans from the `i`th hop on; those that do not overlap the whole are left out. */
  function SpansFrom(hops: seq<int>, i: nat, span: Timespan, options: HopOptions): seq<Timespan>
    requires i <= |hops| && span.IsFinite() && options.Valid() && HopsOf(hops, span.start.value, options)
    decreases |hops| - i
  {
    if i == |hops| then []
    else
      SpansForward(hops, i, span, options);
      var part := FiniteTimespan(EffectiveStart(hops, i, span), SpanFinish(hops, i, options)).Intersection(span);
      (if part.Some? then [part.value] else []) + SpansFrom(hops, i + 1, span, options)
  }

  /** Non-empty timespans, end to end, from `a` to `b`. */
  ghost predicate Tiles(spans: seq<Timespan>, a: int, b: int) {
    spans != [] && spans[0].start == Some(a) && spans[|spans| - 1].finish == Some(b) &&
    (forall i :: 0 <= i < |spans| ==> spans[i].IsFinite() && spans[i].start.value < spans[i].finish.value) &&
    forall i :: 0 <= i < |spans| - 1 ==> spans[i].finish == spans[i + 1].start
  }

  lemma {:induction false} TilesAscend(spans: seq<Timespan>, a: int, b: int, i: nat, j: nat)
    requires Tiles(spans, a, b) && i < j < |spans|
    ensures spans[i].finish.value <= spans[j].start.value
    decreases j - i
  {
    if i + 1 < j {
      TilesAscend(spans, a, b, i + 1, j);
    }
  }

  lemma {:induction false} TilesFind(spans: seq<Timespan>, a: int, b: int, t: int) returns (i: nat)
    requires Tiles(spans, a, b) && a <= t < b
    ensures i < |spans| && spans[i].IncludesTime(t)
    decreases |spans|
  {
    if t < spans[0].finish.value {
      i := 0;
    } else {
      i := TilesFind(spans[1..], spans[0].finish.value, b, t);
      i := i + 1;
    }
  }

  /** Every instant from `a` to `b` lies in exactly one of the timespans, any other in none. */
  lemma TilesPartition(spans: seq<Timespan>, a: int, b: int, t: int)
    requires Tiles(spans, a, b)
    ensures a <= t < b <==> exists i :: 0 <= i < |spans| && spans[i].IncludesTime(t)
    ensures forall i, j :: 0 <= i < |spans| && 0 <= j < |spans| && spans[i].IncludesTime(t) && spans[j].IncludesTime(t) ==> i == j
  {
    forall i, j | 0 <= i < j < |spans| && spans[i].IncludesTime(t) ensures !spans[j].IncludesTime(t) {
      TilesAscend(spans, a, b, i, j);
    }
    if a <= t < b {
      var i := TilesFind(spans, a, b, t);
    }
    forall i | 0 <= i < |spans| && spans[i].IncludesTime(t) ensures a <= t < b {
      if i > 0 {
        TilesAscend(spans, a, b, 0, i);
      }
      if i < |spans| - 1 {
        TilesAscend(spans, a, b, i, |spans| - 1);
      }
    }
  }

  function Max(a: int, b: int): int { if a > b then a else b }
  function Min(a: int, b: int): int { if a < b then a else b }

  /** Some timespan but the first begins at the instant. */
  ghost predicate CutAt(spans: seq<Timespan>, t: int) {
    exists m :: 0 < m < |spans| && spans[m].start == Some(t)
  }

  /** The instant is a hop later than the `i`th. */
  ghost predicate LaterHop(options: HopOptions, start: int, i: nat, t: int) {
    exists k: nat :: k > i && t == options.Hop(start, k)
  }

  /** Cut at every later hop between these instants, and nowhere else. */
  ghost predicate CutAtHops(spans: seq<Timespan>, options: HopOptions, start: int, i: nat, from: int, to: int) {
    forall t :: CutAt(spans, t) <==> LaterHop(options, start, i, t) && from < t < to
  }

  lemma LaterHops(options: HopOptions, start: int, i: nat, t: int)
    requires options.Valid()
    ensures LaterHop(options, start, i, t) <==> t == options.Hop(start, i + 1) || LaterHop(options, start, i + 1, t)
    ensures LaterHop(options, start, i, t) ==> t >= options.Hop(start, i + 1)
  {
    if k: nat :| k > i && t == options.Hop(start, k) {
      if k > i + 1 {
        HopsAscend(options, start, i + 1, k);
      }
    }
  }

  lemma CutCons(first: Timespan, rest: seq<Timespan>, t: int)
    requires rest != []
    ensures CutAt([first] + rest, t) <==> rest[0].start == Some(t) || CutAt(rest, t)
  {
    var spans := [first] + rest;
    assert spans[1] == rest[0];
    if m :| 0 < m < |rest| && rest[m].start == Some(t) {
      assert spans[m + 1].start == Some(t);
    }
    if m :| 0 < m < |spans| && spans[m].start == Some(t) {
      assert rest[m - 1].start == Some(t);
    }
  }

  /** One more part in front of parts that are cut at the hops, or none. */
  lemma CutsCons(part: Option<Timespan>, rest: seq<Timespan>, options: HopOptions, start: int, i: nat,
                 from: int, next: int, to: int)
    requires options.Valid() && next == options.Hop(start, i + 1)
    requires CutAtHops(rest, options, start, i + 1, next, to) && (part.Some? ==> from < next)
    requires (rest != [] ==> rest[0].start == Some(next) && next < to) && (part.Some? && rest == [] ==> to <= next)
    requires part.None? ==> rest == [] && to <= from
    ensures CutAtHops((if part.Some? then [part.value] else []) + rest, options, start, i, from, to)
  {
    var spans := (if part.Some? then [part.value] else []) + rest;
    forall t ensures CutAt(spans, t) <==> LaterHop(options, start, i, t) && from < t < to {
      LaterHops(options, start, i, t);
      if part.Some? && rest != [] {
        CutCons(part.value, rest, t);
      }
    }
  }

  /** Before the timespan begins there is nothing to cut. */
  lemma CutsLater(spans: seq<Timespan>, options: HopOptions, start: int, i: nat, from: int, to: int)
    requires options.Valid() && options.Hop(start, i + 1) <= from
    requires CutAtHops(spans, options, start, i + 1, from, to)
    ensures CutAtHops(spans, options, start, i, from, to)
  {
    forall t ensures CutAt(spans, t) <==> LaterHop(options, start, i, t) && from < t < to {
      LaterHops(options, start, i, t);
    }
  }

  /** The hops clipped to the timespan: end to end, and cut exactly at the later hops in between. */
  lemma {:induction false} SpansTile(hops: seq<int>, i: nat, span: Timespan, options: HopOptions)
    requires i < |hops| && span.IsFinite() && span.start.value < span.finish.value && options.Valid()
    requires HopsOf(hops, span.start.value, options)
    ensures var spans, start := SpansFrom(hops, i, span, options), span.start.value;
            var from := Max(EffectiveStart(hops, i, span), start);
            var to := Min(options.Hop(start, |hops|), span.finish.value);
            (if from < to then Tiles(spans, from, to) else spans == []) &&
            CutAtHops(spans, options, start, i, from, to)
    decreases |hops| - i
  {
    var s, f := span.start.value, span.finish.value;
    SpansForward(hops, i, span, options);
    var from, next, to := EffectiveStart(hops, i, span), SpanFinish(hops, i, options), Min(options.Hop(s, |hops|), f);
    var rest := SpansFrom(hops, i + 1, span, options);
    var part := FiniteTimespan(from, next).Intersection(span);
    if i + 1 < |hops| {
      SpansTile(hops, i + 1, span, options);
      HopsAscend(options, s, i + 1, |hops|);
    } else {
      NothingToCut(options, s, i + 1, Max(next, s), to);
    }
    if next <= s {
      CutsLater(rest, options, s, i, s, to);
      assert SpansFrom(hops, i, span, options) == rest;
    } else {
      assert part.Some? ==> part.value == Timespan(Some(Max(from, s)), Some(Min(next, f)));
      CutsCons(part, rest, options, s, i, Max(from, s), next, to);
      if part.Some? && rest != [] {
        TilesCons(part.value, rest, next, to);
      }
    }
  }

  lemma NothingToCut(options: HopOptions, start: int, i: nat, from: int, to: int)
    requires to <= from
    ensures CutAtHops([], options, start, i, from, to)
  {}

  lemma TilesCons(first: Timespan, rest: seq<Timespan>, middle: int, b: int)
    requires first.IsFinite() && first.start.value < first.finish.value == middle && Tiles(rest, middle, b)
    ensures Tiles([first] + rest, first.start.value, b)
  {
    var spans := [first] + rest;
    forall k | 0 <= k < |spans| - 1 ensures spans[k].finish == spans[k + 1].start {
      if k > 0 {
        assert spans[k] == rest[k - 1] && spans[k + 1] == rest[k];
      }
    }
  }

  ghost predicate AnyHop(options: HopOptions, start: int, t: int) {
    exists k: nat :: t == options.Hop(start, k)
  }

  /** Where the timespan is cut at its later hops, it is cut at all its hops exactly when the first one does
      not lie inside it. */
  lemma FirstHopIsCutExactly(spans: seq<Timespan>, options: HopOptions, start: int, to: int)
    requires options.Valid() && CutAtHops(spans, options, start, 0, start, to)
    ensures (forall t :: CutAt(spans, t) <==> AnyHop(options, start, t) && start < t < to) <==>
            !(start < options.Hop(start, 0) < to)
  {
    var first := options.Hop(start, 0);
    assert AnyHop(options, start, first);
    LaterHops(options, start, 0, first);
    HopsAscend(options, start, 0, 1);
    forall t ensures AnyHop(options, start, t) <==> t == first || LaterHop(options, start, 0, t) {
    }
  }

  /** Periods of a length, counted from 0, with an offset. */
  function Delayed(length: int, delay: int): HopOptions
    requires length >= 1
  {
    HopOptions(UnitOf(FixedLength(length, 0)), Some(Offset((t: int) => t + delay, (t: int) => t - delay)), None)
  }

  /** A first hop that lies inside: periods that begin later than the timespan does. */
  lemma FirstHopInside(length: int, delay: int)
    requires 0 < delay < length
    ensures Delayed(length, delay).Valid() && 0 < Delayed(length, delay).Hop(0, 0) < length
  {
    var c, options := FixedLength(length, 0), Delayed(length, delay);
    FixedLengthIsCalendar(length, 0);
    forall t ensures options.Begins(t) && options.Forward(t) {
      assert c.Within(t);
      PlusForward(c, t, 1);
    }
    forall t, rounds: nat ensures options.Shifts(t, rounds) {
      assert options.Forward(options.Reached(options.unit.startOf(t), rounds));
    }
  }

  /** The instant lies between the `k`th hop and the next, and the loop gets there. */
  ghost predicate StrictlyIn(options: HopOptions, t: int, k: nat) {
    options.Reached(options.unit.startOf(t), k) < t && options.Hop(t, k) < t < options.Hop(t, k + 1)
  }

  /** A timespan of no length is its own only part if it lies between two hops, and has none otherwise. */
  lemma {:induction false} NoLength(hops: seq<int>, i: nat, span: Timespan, options: HopOptions)
    requires i <= |hops| && span.IsFinite() && span.start == span.finish && options.Valid()
    requires AreHops(hops, span, options)
    ensures SpansFrom(hops, i, span, options) ==
            if exists k: nat :: i <= k < |hops| && StrictlyIn(options, span.start.value, k) then [span] else []
    decreases |hops| - i
  {
    if i < |hops| {
      var s := span.start.value;
      SpansForward(hops, i, span, options);
      NoLength(hops, i + 1, span, options);
      if k: nat :| i < k < |hops| && StrictlyIn(options, s, k) {
        if i + 1 < k {
          HopsAscend(options, s, i + 1, k);
        }
      }
      var part := FiniteTimespan(EffectiveStart(hops, i, span), SpanFinish(hops, i, options)).Intersection(span);
      assert part.Some? <==> StrictlyIn(options, s, i);
      assert part.Some? ==> part.value == span;
    }
  }

  lemma NoHopMissed(hops: seq<int>, span: Timespan, options: HopOptions)
    requires span.IsFinite() && options.Valid() && AreHops(hops, span, options) && span.start == span.finish
    ensures forall k: nat :: StrictlyIn(options, span.start.value, k) ==> k < |hops|
  {
    var s := span.start.value;
    forall k: nat | k > |hops| ensures options.Reached(options.unit.startOf(s), k) >= s {
      StepsAscend(options, options.unit.startOf(s), |hops|, k);
    }
  }

  lemma {:induction false} StepsAscend(options: HopOptions, first: int, j: nat, k: nat)
    requires options.Valid() && j < k
    ensures options.Reached(first, j) < options.Reached(first, k)
    decreases k - j
  {
    assert options.Forward(options.Reached(first, j));
    if j + 1 < k {
      StepsAscend(options, first, j + 1, k);
    }
  }

  lemma LastMovesOn(span: Timespan, options: HopOptions)
    requires span.IsFinite() && options.Valid()
    ensures (forall t :: options.MovesOn(t)) ==> LastBoundary(span, options) >= span.finish.value
  {
    var last := FirstNotBefore(options, options.unit.startOf(span.start.value), span.finish.value);
    assert options.MovesOn(last) ==> LastBoundary(span, options) >= span.finish.value;
  }

  /**
   * The timespan is split into non-empty timespans, end to end, from its start to its finish,
   * exactly when the offset does not pull the last boundary before the finish. In particular every
   * offset that never leads back will do. Otherwise the end of the timespan, or all of it, is lost.
   * It is cut exactly at the hops in between, the first hop aside.
   */
  method GetTimespansWithin(span: Timespan, options: HopOptions) returns (spans: Option<seq<Timespan>>)
    requires span.Valid() && options.Valid()
    ensures spans.Some? <==> span.IsFinite()
    ensures spans.Some? && span.start.value < span.finish.value ==>
              var s, f := span.start.value, span.finish.value;
              (Tiles(spans.value, s, f) <==> LastBoundary(span, options) >= f) &&
              ((forall t :: options.MovesOn(t)) ==> Tiles(spans.value, s, f)) &&
              (s < LastBoundary(span, options) < f ==> Tiles(spans.value, s, LastBoundary(span, options))) &&
              (LastBoundary(span, options) <= s ==> spans.value == [])
    ensures spans.Some? && span.start.value < span.finish.value ==>
              forall t :: CutAt(spans.value, t) <==>
                          LaterHop(options, span.start.value, 0, t) &&
                          span.start.value < t < Min(LastBoundary(span, options), span.finish.value)
    ensures spans.Some? && span.start == span.finish ==>
              spans.value == if exists k: nat :: StrictlyIn(options, span.start.value, k) then [span] else []
  {
    var hops := GetTimeHopsWithin(span, options);
    if hops.None? {
      return None;
    }
    spans := Some(SpansFrom(hops.value, 0, span, options));
    if span.start.value < span.finish.value {
      assert options.Begins(span.start.value);
      LastIsNext(options, options.unit.startOf(span.start.value), 0, |hops.value|, span.finish.value);
      LastMovesOn(span, options);
      SpansTile(hops.value, 0, span, options);
    } else {
      NoLength(hops.value, 0, span, options);
      NoHopMissed(hops.value, span, options);
    }
  }
}
