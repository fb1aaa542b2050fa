/** Compacting the log of form response changes (compacting_form_response_changes_presenter.rb). */
module Compaction {
  import opened Sorting

  type Value = string

  /** `response` stands for the type and id of the response; `current` is the new value. */
  datatype Change = Change(
    response: string, profile: int, field: string, previous: Value, current: Value,
    createdAt: int, updatedAt: int, notifiedAt: Option<int>, compacted: bool)

  const HOUR := 3600

  datatype GroupId = GroupId(profile: int, field: string, unnotified: bool)

  function IdOf(c: Change): GroupId { GroupId(c.profile, c.field, c.notifiedAt.None?) }

  /** Changes are of one group when one person made them to one field and either a notice went out for
      both or for neither. */
  predicate Together(c: Change, d: Change) {
    c.profile == d.profile && c.field == d.field && (c.notifiedAt == None <==> d.notifiedAt == None)
  }

  function Within(id: GroupId): Change -> bool { (c: Change) => IdOf(c) == id }

  function Created(c: Change): Rank { Rank(c.createdAt, 0, 0) }

  /** The keys `group_by` gives, in order of first appearance. */
  function Ids(changes: seq<Change>): seq<GroupId> {
    if changes == [] then []
    else
      var ids := Ids(changes[..|changes| - 1]);
      var last := IdOf(changes[|changes| - 1]);
      if last in ids then ids else ids + [last]
  }

  predicate Solid(slices: seq<seq<Change>>) { forall i :: 0 <= i < |slices| ==> |slices[i]| > 0 }

  /** `slice_when`: cuts before every change an hour or more after the one before it. */
  function Slices(xs: seq<Change>): (slices: seq<seq<Change>>)
    ensures slices == [] <==> xs == []
    ensures Solid(slices)
    ensures xs != [] ==> slices[0][0] == xs[0]
  {
    if |xs| <= 1 then if xs == [] then [] else [xs]
    else
      var rest := Slices(xs[1..]);
      if xs[1].createdAt - xs[0].createdAt >= HOUR then [[xs[0]]] + rest
      else [[xs[0]] + rest[0]] + rest[1..]
  }

  /** `notified_at.compact.max` */
  function LatestNotified(slice: seq<Change>): Option<int> {
    if slice == [] then None
    else
      var rest := LatestNotified(slice[1..]);
      if slice[0].notifiedAt.None? then rest
      else if rest.None? || rest.value < slice[0].notifiedAt.value then slice[0].notifiedAt
      else rest
  }

  function Omnibus(slice: seq<Change>): Change
    requires slice != []
  {
    var first, last := slice[0], slice[|slice| - 1];
    Change(first.response, first.profile, first.field, first.previous, last.current,
           first.createdAt, last.updatedAt, LatestNotified(slice), true)
  }

  /** One change for every slice, except for those that come to nothing. */
  function Kept(slices: seq<seq<Change>>): seq<Change>
    requires Solid(slices)
  {
    if slices == [] then []
    else
      (if slices[0][0].previous == slices[0][|slices[0]| - 1].current then [] else [Omnibus(slices[0])]) +
      Kept(slices[1..])
  }

  function CompactedGroup(group: seq<Change>): seq<Change> {
    Kept(Slices(SortBy(group, Created)))
  }

  function CompactedGroups(changes: seq<Change>, ids: seq<GroupId>): seq<Change> {
    if ids == [] then []
    else CompactedGroup(Filter(changes, Within(ids[0]))) + CompactedGroups(changes, ids[1..])
  }

  /** `compacted_changes` */
  function Compacted(changes: seq<Change>): seq<Change> {
    SortBy(CompactedGroups(changes, Ids(changes)), Created)
  }

  // ------------------------------------------------------------------------------- one group

  /** The changes lead from `v` to `w`, each beginning where the one before it ended. */
  ghost predicate Leads(xs: seq<Change>, v: Value, w: Value) {
    if xs == [] then v == w else xs[0].previous == v && Leads(xs[1..], xs[0].current, w)
  }

  lemma LeadsCons(c: Change, xs: seq<Change>, v: Value, w: Value)
    ensures Leads([c] + xs, v, w) <==> c.previous == v && Leads(xs, c.current, w)
  {
    assert ([c] + xs)[1..] == xs;
  }

  /** Chained changes are compacted to chained changes with the same first and last value. */
  lemma {:induction false} SlicingLeads(xs: seq<Change>, v: Value, w: Value)
    requires Leads(xs, v, w)
    ensures Leads(Kept(Slices(xs)), v, w)
  {
    if |xs| == 1 {
      assert Kept([xs][1..]) == [];
    } else if |xs| > 1 {
      var rest := Slices(xs[1..]);
      SlicingLeads(xs[1..], xs[0].current, w);
      var slices := Slices(xs);
      if xs[1].createdAt - xs[0].createdAt >= HOUR {
        assert slices[1..] == rest && slices[0] == [xs[0]];
        assert [] + Kept(rest) == Kept(rest);
        LeadsCons(Omnibus(slices[0]), Kept(rest), v, w);
      } else {
        assert slices[1..] == rest[1..];
        assert slices[0][|slices[0]| - 1] == rest[0][|rest[0]| - 1];
        var tail := Kept(rest[1..]);
        LeadsCons(Omnibus(rest[0]), tail, xs[0].current, w);
        LeadsCons(Omnibus(slices[0]), tail, v, w);
        assert [] + tail == tail && xs[1..][0] == rest[0][0];
        assert Leads(tail, rest[0][|rest[0]| - 1].current, w);
      }
    }
  }

  ghost predicate Apart(xs: seq<Change>) {
    forall i, j :: 0 <= i < j < |xs| ==> xs[j].createdAt - xs[i].createdAt >= 60 * 60
  }

  ghost predicate StartApart(slices: seq<seq<Change>>) {
    Solid(slices) &&
    forall i, j :: 0 <= i < j < |slices| ==> slices[j][0].createdAt - slices[i][0].createdAt >= HOUR
  }

  lemma ConsApart(first: seq<Change>, rest: seq<seq<Change>>)
    requires first != [] && StartApart(rest)
    requires rest != [] ==> rest[0][0].createdAt - first[0].createdAt >= HOUR
    ensures StartApart([first] + rest)
  {
    var slices: seq<seq<Change>> := [first] + rest;
    forall j: nat | 0 < j < |slices| ensures slices[j][0].createdAt - first[0].createdAt >= HOUR {
      assert slices[j] == rest[j - 1];
      assert j > 1 ==> rest[j - 1][0].createdAt - rest[0][0].createdAt >= HOUR;
    }
  }

  lemma {:induction false} SlicesStartApart(xs: seq<Change>)
    requires Sorted(xs, Created)
    ensures StartApart(Slices(xs))
  {
    if |xs| > 1 {
      var rest := Slices(xs[1..]);
      SlicesStartApart(xs[1..]);
      assert Le(Created(xs[0]), Created(xs[1]));
      if xs[1].createdAt - xs[0].createdAt >= HOUR {
        ConsApart([xs[0]], rest);
      } else {
        ConsApart([xs[0]] + rest[0], rest[1..]);
      }
    }
  }

  /** What a kept change is like. */
  ghost predicate IsOmnibus(c: Change) { c.compacted && c.previous != c.current }

  /** Every kept change comes from a slice, and every slice that changes something is kept. */
  lemma {:induction false} KeptFrom(slices: seq<seq<Change>>, c: Change) returns (m: nat)
    requires Solid(slices) && c in Kept(slices)
    ensures m < |slices| && c == Omnibus(slices[m]) && IsOmnibus(c)
  {
    if c in Kept(slices[1..]) {
      m := KeptFrom(slices[1..], c);
      m := m + 1;
    } else {
      m := 0;
    }
  }

  lemma {:induction false} KeepsChanging(slices: seq<seq<Change>>, m: nat)
    requires Solid(slices) && m < |slices| && IsOmnibus(Omnibus(slices[m]))
    ensures Omnibus(slices[m]) in Kept(slices)
  {
    if m > 0 {
      KeepsChanging(slices[1..], m - 1);
    }
  }

  lemma ApartCons(c: Change, xs: seq<Change>)
    requires Apart(xs) && forall d :: d in xs ==> d.createdAt - c.createdAt >= HOUR
    ensures Apart([c] + xs)
  {
    var ys := [c] + xs;
    forall j | 0 < j < |ys| ensures ys[j].createdAt - c.createdAt >= HOUR {
      assert ys[j] in xs;
    }
  }

  lemma {:induction false} KeptApart(slices: seq<seq<Change>>)
    requires StartApart(slices)
    ensures Apart(Kept(slices))
  {
    if slices != [] {
      var rest := slices[1..];
      KeptApart(rest);
      forall c | c in Kept(rest) ensures c.createdAt - slices[0][0].createdAt >= HOUR {
        var m := KeptFrom(rest, c);
        assert slices[m + 1] == rest[m];
      }
      ApartCons(Omnibus(slices[0]), Kept(rest));
    }
  }

  lemma {:induction false} NotifiedAlike(slice: seq<Change>)
    requires forall c, d :: c in slice && d in slice ==> c.notifiedAt.None? == d.notifiedAt.None?
    ensures slice != [] ==> LatestNotified(slice).None? == slice[0].notifiedAt.None?
  {
    if |slice| > 1 {
      assert slice[1] in slice && slice[0] in slice;
      NotifiedAlike(slice[1..]);
    }
  }

  lemma {:induction false} SlicesHold(xs: seq<Change>)
    ensures forall i, c :: 0 <= i < |Slices(xs)| && c in Slices(xs)[i] ==> c in xs
  {
    if |xs| > 1 {
      SlicesHold(xs[1..]);
      var slices, rest := Slices(xs), Slices(xs[1..]);
      var cut := xs[1].createdAt - xs[0].createdAt >= HOUR;
      forall i, c | 0 <= i < |slices| && c in slices[i] ensures c in xs {
        if cut {
          assert slices[i] == if i == 0 then [xs[0]] else rest[i - 1];
        } else {
          assert slices[i] == if i == 0 then [xs[0]] + rest[0] else rest[i];
          assert c in rest[i] || c == xs[0];
        }
        assert c == xs[0] || c in xs[1..];
      }
    }
  }

  /** What compacting a group keeps of it is sorted, at least an hour apart, and of the group. */
  lemma GroupCompacts(group: seq<Change>, id: GroupId)
    requires forall c :: c in group ==> IdOf(c) == id
    ensures Apart(CompactedGroup(group)) && Sorted(CompactedGroup(group), Created)
    ensures forall c :: c in CompactedGroup(group) ==> IdOf(c) == id && IsOmnibus(c)
  {
    var sorted := SortBy(group, Created);
    SortSorts(group, Created);
    SlicesStartApart(sorted);
    SlicesHold(sorted);
    KeptApart(Slices(sorted));
    forall c | c in CompactedGroup(group) ensures IdOf(c) == id && IsOmnibus(c) {
      var slices := Slices(sorted);
      var i := KeptFrom(slices, c);
      assert slices[i][0] in slices[i];
      forall d | d in slices[i] ensures IdOf(d) == id {
        assert d in sorted && d in group;
      }
      NotifiedAlike(slices[i]);
    }
  }

  // ------------------------------------------------------------- which changes are put together

  function Joined(slices: seq<seq<Change>>): seq<Change> {
    if slices == [] then [] else slices[0] + Joined(slices[1..])
  }

  /** Each change comes less than an hour after the one before it. */
  ghost predicate Burst(xs: seq<Change>) {
    xs != [] && forall k :: 0 < k < |xs| ==> xs[k].createdAt - xs[k - 1].createdAt < 60 * 60
  }

  /** Consecutive bursts are an hour or more apart, from the end of one to the start of the next. */
  ghost predicate Bursts(slices: seq<seq<Change>>) {
    (forall m :: 0 <= m < |slices| ==> Burst(slices[m])) &&
    forall m :: 0 < m < |slices| ==>
      slices[m][0].createdAt - slices[m - 1][|slices[m - 1]| - 1].createdAt >= 60 * 60
  }

  lemma BurstsCons(first: seq<Change>, rest: seq<seq<Change>>)
    requires Burst(first) && Bursts(rest)
    requires rest != [] ==> rest[0][0].createdAt - first[|first| - 1].createdAt >= HOUR
    ensures Bursts([first] + rest) && Joined([first] + rest) == first + Joined(rest)
  {
    var slices := [first] + rest;
    assert slices[1..] == rest;
    assert forall m: nat :: 0 < m < |slices| ==> slices[m] == rest[m - 1];
  }

  /** Slicing cuts the changes into bursts, as long as they can be. */
  lemma {:induction false} SlicesAreBursts(xs: seq<Change>)
    ensures Bursts(Slices(xs)) && Joined(Slices(xs)) == xs
  {
    if |xs| == 1 {
      BurstsCons(xs, []);
      assert [xs] + [] == [xs];
    } else if |xs| > 1 {
      var rest := Slices(xs[1..]);
      SlicesAreBursts(xs[1..]);
      if xs[1].createdAt - xs[0].createdAt >= HOUR {
        BurstsCons([xs[0]], rest);
      } else {
        assert rest == [rest[0]] + rest[1..];
        FirstGrows(xs[0], rest[0], rest[1..]);
      }
      assert xs == [xs[0]] + xs[1..];
    }
  }

  lemma BurstGrows(x: Change, burst: seq<Change>)
    requires Burst(burst) && burst[0].createdAt - x.createdAt < HOUR
    ensures Burst([x] + burst) && ([x] + burst)[|burst|] == burst[|burst| - 1]
  {
    var longer := [x] + burst;
    forall k | 0 < k < |longer| ensures longer[k].createdAt - longer[k - 1].createdAt < HOUR {
      assert k > 1 ==> longer[k - 1] == burst[k - 2];
    }
  }

  lemma TailBursts(first: seq<Change>, rest: seq<seq<Change>>)
    requires Bursts([first] + rest)
    ensures Burst(first) && Bursts(rest)
    ensures rest != [] ==> rest[0][0].createdAt - first[|first| - 1].createdAt >= HOUR
  {
    var slices := [first] + rest;
    assert slices[0] == first;
    assert forall m: nat :: m < |rest| ==> rest[m] == slices[m + 1];
  }

  lemma FirstGrows(x: Change, first: seq<Change>, rest: seq<seq<Change>>)
    requires Bursts([first] + rest) && first != [] && first[0].createdAt - x.createdAt < HOUR
    ensures Bursts([[x] + first] + rest)
    ensures Joined([[x] + first] + rest) == [x] + (first + Joined(rest))
  {
    TailBursts(first, rest);
    BurstGrows(x, first);
    BurstsCons([x] + first, rest);
  }

  /** One change that stands for several: from the first value to the last, told about when the
      latest notice went out. */
  ghost predicate Summarises(c: Change, slice: seq<Change>)
    requires slice != []
  {
    var first, last := slice[0], slice[|slice| - 1];
    c.previous == first.previous && c.current == last.current && c.createdAt == first.createdAt &&
    c.updatedAt == last.updatedAt && c.response == first.response && c.profile == first.profile &&
    c.field == first.field && c.compacted &&
    (forall d :: d in slice && d.notifiedAt.Some? ==> c.notifiedAt.Some? && d.notifiedAt.value <= c.notifiedAt.value) &&
    (c.notifiedAt.Some? ==> exists d :: d in slice && d.notifiedAt == c.notifiedAt)
  }

  lemma {:induction false} LatestIsMax(slice: seq<Change>)
    ensures forall d :: d in slice && d.notifiedAt.Some? ==>
              LatestNotified(slice).Some? && d.notifiedAt.value <= LatestNotified(slice).value
    ensures LatestNotified(slice).Some? ==> exists d :: d in slice && d.notifiedAt == LatestNotified(slice)
  {
    if slice != [] {
      LatestIsMax(slice[1..]);
      assert slice == [slice[0]] + slice[1..];
    }
  }

  lemma OmnibusSummarises(slice: seq<Change>)
    requires slice != []
    ensures Summarises(Omnibus(slice), slice)
  {
    LatestIsMax(slice);
  }

  /**
   * Of changes in order of time, cut into bursts, exactly the bursts that change something are
   * kept, each summarised by one change.
   */
  lemma KeptAreBursts(xs: seq<Change>)
    ensures forall c :: c in Kept(Slices(xs)) ==>
              exists m :: 0 <= m < |Slices(xs)| && Summarises(c, Slices(xs)[m]) && c.previous != c.current
    ensures forall m :: 0 <= m < |Slices(xs)| &&
                        Slices(xs)[m][0].previous != Slices(xs)[m][|Slices(xs)[m]| - 1].current ==>
              exists c :: c in Kept(Slices(xs)) && Summarises(c, Slices(xs)[m])
  {
    var slices := Slices(xs);
    forall c | c in Kept(slices)
      ensures exists m :: 0 <= m < |slices| && Summarises(c, slices[m]) && c.previous != c.current
    {
      var m := KeptFrom(slices, c);
      OmnibusSummarises(slices[m]);
    }
    forall m | 0 <= m < |slices| && slices[m][0].previous != slices[m][|slices[m]| - 1].current
      ensures exists c :: c in Kept(slices) && Summarises(c, slices[m])
    {
      OmnibusSummarises(slices[m]);
      KeepsChanging(slices, m);
    }
  }

  /** Changes an hour apart that are compacted already are compacted to themselves. */
  lemma {:induction false} ApartIsCompacted(xs: seq<Change>)
    requires Apart(xs) && forall c :: c in xs ==> IsOmnibus(c)
    ensures Kept(Slices(xs)) == xs
  {
    if xs != [] {
      ApartIsCompacted(xs[1..]);
      assert Slices(xs)[0] == [xs[0]];
      assert Slices(xs)[1..] == Slices(xs[1..]);
      OmnibusOfOne(xs[0]);
      assert xs == [xs[0]] + xs[1..];
    }
  }

  lemma OmnibusOfOne(c: Change)
    requires IsOmnibus(c)
    ensures Omnibus([c]) == c
  {
    assert LatestNotified([c][1..]) == None;
  }

  // -------------------------------------------------------------------------- all the groups

  lemma {:induction false} IdsAre(changes: seq<Change>)
    ensures forall id :: id in Ids(changes) <==> exists c :: c in changes && IdOf(c) == id
    ensures forall i, j :: 0 <= i < j < |Ids(changes)| ==> Ids(changes)[i] != Ids(changes)[j]
  {
    if changes != [] {
      var n := |changes| - 1;
      IdsAre(changes[..n]);
      assert forall c :: c in changes <==> c in changes[..n] || c == changes[n];
    }
  }

  lemma GroupIsWithin(changes: seq<Change>, id: GroupId)
    ensures forall c :: c in CompactedGroup(Filter(changes, Within(id))) ==> IdOf(c) == id && IsOmnibus(c)
    ensures Apart(CompactedGroup(Filter(changes, Within(id)))) && Sorted(CompactedGroup(Filter(changes, Within(id))), Created)
  {
    forall c | c in Filter(changes, Within(id)) ensures IdOf(c) == id {
      assert Within(id)(c);
    }
    GroupCompacts(Filter(changes, Within(id)), id);
  }

  lemma {:induction false} GroupOfGroups(changes: seq<Change>, ids: seq<GroupId>, id: GroupId)
    requires forall i, j :: 0 <= i < j < |ids| ==> ids[i] != ids[j]
    ensures Filter(CompactedGroups(changes, ids), Within(id)) ==
            if id in ids then CompactedGroup(Filter(changes, Within(id))) else []
  {
    if ids != [] {
      var first := CompactedGroup(Filter(changes, Within(ids[0])));
      GroupOfGroups(changes, ids[1..], id);
      GroupIsWithin(changes, ids[0]);
      FilterAppend(first, CompactedGroups(changes, ids[1..]), Within(id));
      if ids[0] == id {
        FilterAll(first, Within(id));
      } else {
        FilterEmpty(first, Within(id));
      }
    }
  }

  /** The compacted changes of a group are what compacting the group gives. */
  lemma CompactedOfGroup(changes: seq<Change>, id: GroupId)
    ensures Filter(Compacted(changes), Within(id)) == CompactedGroup(Filter(changes, Within(id)))
  {
    var group := Filter(changes, Within(id));
    IdsAre(changes);
    GroupOfGroups(changes, Ids(changes), id);
    SortFilter(CompactedGroups(changes, Ids(changes)), Created, Within(id));
    GroupIsWithin(changes, id);
    SortedStays(CompactedGroup(group), Created);
    if id !in Ids(changes) {
      FilterEmpty(changes, Within(id));
    }
  }

  /**
   * When the changes of a group, by time, lead from one value to another, so do its compacted
   * changes, even where slices that come to nothing were dropped; and they are at least an hour
   * apart.
   */
  lemma CompactionPreserves(changes: seq<Change>, id: GroupId, v: Value, w: Value)
    requires Leads(SortBy(Filter(changes, Within(id)), Created), v, w)
    ensures Leads(Filter(Compacted(changes), Within(id)), v, w)
    ensures Apart(Filter(Compacted(changes), Within(id)))
    ensures Sorted(Compacted(changes), Created)
  {
    CompactedOfGroup(changes, id);
    SlicingLeads(SortBy(Filter(changes, Within(id)), Created), v, w);
    GroupIsWithin(changes, id);
    SortSorts(CompactedGroups(changes, Ids(changes)), Created);
  }

  function With(x: Change): Change -> bool { (c: Change) => Together(x, c) }

  /** One change for each slice that changes something, in order. */
  ghost predicate Tells(told: seq<Change>, slices: seq<seq<Change>>)
    requires Solid(slices)
  {
    if slices == [] then told == []
    else if slices[0][0].previous == slices[0][|slices[0]| - 1].current then Tells(told, slices[1..])
    else told != [] && Summarises(told[0], slices[0]) && Tells(told[1..], slices[1..])
  }

  lemma {:induction false} KeptTells(slices: seq<seq<Change>>)
    requires Solid(slices)
    ensures Tells(Kept(slices), slices)
  {
    if slices != [] {
      KeptTells(slices[1..]);
      OmnibusSummarises(slices[0]);
      assert Kept(slices) == Kept(slices[1..]) || Kept(slices)[1..] == Kept(slices[1..]);
    }
  }

  lemma FilterWith(changes: seq<Change>, x: Change)
    ensures Filter(changes, Within(IdOf(x))) == Filter(changes, With(x))
  {
    FilterAll(changes, (c: Change) => true);
    FilterFuse(changes, (c: Change) => true, Within(IdOf(x)), With(x));
  }

  /**
   * What compacting makes of the changes one person made to one field, told about or not: by time,
   * they fall into bursts, cut where an hour or more passes, and each burst that changes something
   * becomes one change. The result is in order of time.
   */
  lemma CompactionTells(changes: seq<Change>, x: Change) returns (slices: seq<seq<Change>>)
    ensures Solid(slices) && Bursts(slices) && Joined(slices) == SortBy(Filter(changes, With(x)), Created)
    ensures Tells(Filter(Compacted(changes), With(x)), slices)
    ensures forall i, j :: 0 <= i < j < |Compacted(changes)| ==>
              Compacted(changes)[i].createdAt <= Compacted(changes)[j].createdAt
  {
    FilterWith(changes, x);
    FilterWith(Compacted(changes), x);
    CompactedOfGroup(changes, IdOf(x));
    slices := Slices(SortBy(Filter(changes, With(x)), Created));
    SlicesAreBursts(SortBy(Filter(changes, With(x)), Created));
    KeptTells(slices);
    SortSorts(CompactedGroups(changes, Ids(changes)), Created);
    forall i, j | 0 <= i < j < |Compacted(changes)|
      ensures Compacted(changes)[i].createdAt <= Compacted(changes)[j].createdAt
    {
      assert Le(Created(Compacted(changes)[i]), Created(Compacted(changes)[j]));
    }
  }

  /** Compacting again changes no group. */
  lemma CompactingAgain(changes: seq<Change>, id: GroupId)
    ensures Filter(Compacted(Compacted(changes)), Within(id)) == Filter(Compacted(changes), Within(id))
  {
    var once := Filter(Compacted(changes), Within(id));
    CompactedOfGroup(changes, id);
    CompactedOfGroup(Compacted(changes), id);
    GroupIsWithin(changes, id);
    SortedStays(once, Created);
    ApartIsCompacted(once);
  }

  // ------------------------------------------------------------------ the order of a second pass

  function Position(ids: seq<GroupId>, id: GroupId): nat {
    if ids == [] || ids[0] == id then 0 else 1 + Position(ids[1..], id)
  }

  function ByPosition(ids: seq<GroupId>): Change -> Rank {
    (c: Change) => Rank(Position(ids, IdOf(c)), 0, 0)
  }

  function CreatedThenPosition(ids: seq<GroupId>): Change -> Rank {
    (c: Change) => Rank(c.createdAt, Position(ids, IdOf(c)), 0)
  }

  lemma {:induction false} PositionFinds(ids: seq<GroupId>, i: nat)
    requires i < |ids| && forall j, k :: 0 <= j < k < |ids| ==> ids[j] != ids[k]
    ensures Position(ids, ids[i]) == i
  {
    if i > 0 {
      PositionFinds(ids[1..], i - 1);
    }
  }

  lemma {:induction false} InsertByBoth(x: Change, xs: seq<Change>, ids: seq<GroupId>)
    requires forall y :: y in xs ==> Position(ids, IdOf(x)) <= Position(ids, IdOf(y))
    ensures Insert(x, xs, Created) == Insert(x, xs, CreatedThenPosition(ids))
  {
    if xs != [] {
      assert xs[0] in xs;
      InsertByBoth(x, xs[1..], ids);
    }
  }

  /** Sorting by time keeps the order of the groups among changes of the same time. */
  lemma {:induction false} SortByBoth(xs: seq<Change>, ids: seq<GroupId>)
    requires Sorted(xs, ByPosition(ids))
    ensures SortBy(xs, Created) == SortBy(xs, CreatedThenPosition(ids))
  {
    if xs != [] {
      SortByBoth(xs[1..], ids);
      SortSorts(xs[1..], Created);
      forall y | y in xs[1..] ensures Position(ids, IdOf(xs[0])) <= Position(ids, IdOf(y)) {
        var j :| 0 <= j < |xs[1..]| && xs[1..][j] == y;
        assert Le(ByPosition(ids)(xs[0]), ByPosition(ids)(xs[j + 1]));
      }
      InsertByBoth(xs[0], SortBy(xs[1..], Created), ids);
    }
  }

  lemma {:induction false} GroupsByPosition(changes: seq<Change>, ids: seq<GroupId>, k: nat)
    requires k <= |ids| && forall i, j :: 0 <= i < j < |ids| ==> ids[i] != ids[j]
    ensures Sorted(CompactedGroups(changes, ids[k..]), ByPosition(ids))
    ensures forall c :: c in CompactedGroups(changes, ids[k..]) ==> Position(ids, IdOf(c)) >= k
    decreases |ids| - k
  {
    if k < |ids| {
      var first := CompactedGroup(Filter(changes, Within(ids[k])));
      var rest := CompactedGroups(changes, ids[k + 1..]);
      GroupsByPosition(changes, ids, k + 1);
      GroupIsWithin(changes, ids[k]);
      PositionFinds(ids, k);
      assert ids[k..][1..] == ids[k + 1..];
      var all := first + rest;
      forall i, j | 0 <= i < j < |all| ensures Le(ByPosition(ids)(all[i]), ByPosition(ids)(all[j])) {
        assert all[i] in if i < |first| then first else rest;
        assert all[j] in if j < |first| then first else rest;
        if i >= |first| {
          assert Le(ByPosition(ids)(rest[i - |first|]), ByPosition(ids)(rest[j - |first|]));
        }
      }
    }
  }

  /** The same changes of every group, ordered alike. */
  ghost predicate Alike(xs: seq<Change>, ys: seq<Change>, ids: seq<GroupId>) {
    (forall id :: Filter(xs, Within(id)) == Filter(ys, Within(id))) &&
    Sorted(xs, CreatedThenPosition(ids)) && Sorted(ys, CreatedThenPosition(ids)) &&
    forall c, d :: c in xs && d in ys && Position(ids, IdOf(c)) == Position(ids, IdOf(d)) ==> IdOf(c) == IdOf(d)
  }

  lemma AlikeIsSame(xs: seq<Change>, ys: seq<Change>, ids: seq<GroupId>)
    requires Alike(xs, ys, ids)
    ensures xs == ys
  {
    if ys != [] {
      HeadIsFirst(ys, xs, ids);
    }
    if xs != [] {
      HeadIsFirst(xs, ys, ids);
      assert xs[0] in xs && ys[0] in ys;
      SameHead(xs, ys);
      TailsAlike(xs, ys, ids);
      AlikeIsSame(xs[1..], ys[1..], ids);
    }
  }

  lemma TailsAlike(xs: seq<Change>, ys: seq<Change>, ids: seq<GroupId>)
    requires xs != [] && ys != [] && xs[0] == ys[0] && Alike(xs, ys, ids)
    ensures Alike(xs[1..], ys[1..], ids)
  {
    forall id ensures Filter(xs[1..], Within(id)) == Filter(ys[1..], Within(id)) {
      SameTail(xs, ys, id);
    }
    assert forall c :: c in xs[1..] ==> c in xs;
    assert forall d :: d in ys[1..] ==> d in ys;
  }

  lemma SameHead(xs: seq<Change>, ys: seq<Change>)
    requires xs != [] && ys != [] && IdOf(xs[0]) == IdOf(ys[0])
    requires Filter(xs, Within(IdOf(xs[0]))) == Filter(ys, Within(IdOf(xs[0])))
    ensures xs[0] == ys[0]
  {
    assert Filter(xs, Within(IdOf(xs[0])))[0] == xs[0];
    assert Filter(ys, Within(IdOf(xs[0])))[0] == ys[0];
  }

  lemma SameTail(xs: seq<Change>, ys: seq<Change>, id: GroupId)
    requires xs != [] && ys != [] && xs[0] == ys[0] && Filter(xs, Within(id)) == Filter(ys, Within(id))
    ensures Filter(xs[1..], Within(id)) == Filter(ys[1..], Within(id))
  {
    if Within(id)(xs[0]) {
      assert Filter(xs[1..], Within(id)) == Filter(xs, Within(id))[1..];
    }
  }

  lemma HeadIsFirst(xs: seq<Change>, ys: seq<Change>, ids: seq<GroupId>)
    requires xs != [] && Filter(xs, Within(IdOf(xs[0]))) == Filter(ys, Within(IdOf(xs[0])))
    requires Sorted(ys, CreatedThenPosition(ids))
    ensures ys != [] && Le(CreatedThenPosition(ids)(ys[0]), CreatedThenPosition(ids)(xs[0]))
  {
    assert xs[0] in Filter(xs, Within(IdOf(xs[0])));
    assert xs[0] in ys;
    var j :| 0 <= j < |ys| && ys[j] == xs[0];
    assert j == 0 || Le(CreatedThenPosition(ids)(ys[0]), CreatedThenPosition(ids)(ys[j]));
  }

  /** Changes of the same time stand in the order in which their groups first appear. */
  ghost predicate TiesInOrder(xs: seq<Change>) {
    forall i, j :: 0 <= i < j < |xs| && xs[i].createdAt == xs[j].createdAt ==>
      Position(Ids(xs), IdOf(xs[i])) <= Position(Ids(xs), IdOf(xs[j]))
  }

  lemma TiesMeanSorted(xs: seq<Change>)
    requires Sorted(xs, Created)
    ensures Sorted(xs, CreatedThenPosition(Ids(xs))) <==> TiesInOrder(xs)
  {
    var both := CreatedThenPosition(Ids(xs));
    forall i, j | 0 <= i < j < |xs|
      ensures Le(both(xs[i]), both(xs[j])) <==>
              (xs[i].createdAt == xs[j].createdAt ==>
                 Position(Ids(xs), IdOf(xs[i])) <= Position(Ids(xs), IdOf(xs[j])))
    {
      assert Le(Created(xs[i]), Created(xs[j]));
    }
  }

  /**
   * Compacting again changes nothing at all exactly when the changes of the same time stand in
   * the order in which their groups first appear; otherwise only such changes trade places.
   */
  lemma CompactingAgainExactly(changes: seq<Change>)
    ensures Compacted(Compacted(changes)) == Compacted(changes) <==> TiesInOrder(Compacted(changes))
  {
    var once := Compacted(changes);
    var twice := Compacted(once);
    var ids := Ids(once);
    SortSorts(CompactedGroups(changes, Ids(changes)), Created);
    TiesMeanSorted(once);
    IdsAre(once);
    GroupsByPosition(once, ids, 0);
    assert ids[0..] == ids;
    SortByBoth(CompactedGroups(once, ids), ids);
    SortSorts(CompactedGroups(once, ids), CreatedThenPosition(ids));
    if TiesInOrder(once) {
      forall id ensures Filter(twice, Within(id)) == Filter(once, Within(id)) {
        CompactingAgain(changes, id);
      }
      forall c, d | c in twice && d in once && Position(ids, IdOf(c)) == Position(ids, IdOf(d))
        ensures IdOf(c) == IdOf(d)
      {
        assert c in Filter(twice, Within(IdOf(c)));
        assert c in Filter(once, Within(IdOf(c)));
        SamePosition(ids, IdOf(c), IdOf(d));
      }
      AlikeIsSame(twice, once, ids);
    }
  }

  lemma SamePosition(ids: seq<GroupId>, a: GroupId, b: GroupId)
    requires a in ids && b in ids && Position(ids, a) == Position(ids, b)
    requires forall i, j :: 0 <= i < j < |ids| ==> ids[i] != ids[j]
    ensures a == b
  {
    var i :| 0 <= i < |ids| && ids[i] == a;
    var j :| 0 <= j < |ids| && ids[j] == b;
    PositionFinds(ids, i);
    PositionFinds(ids, j);
  }

  function Renaming(field: string, createdAt: int): Change {
    Change("event", 1, field, "before", "after", createdAt, createdAt, None, true)
  }

  lemma PutFirst(a: Change, b: Change, c: Change)
    requires b.createdAt < a.createdAt == c.createdAt
    ensures SortBy([a, b, c], Created) == [b, a, c]
  {
    assert [a, b, c][1..] == [b, c] && [b, c][1..] == [c] && [c][1..] == [];
    assert SortBy([c], Created) == [c];
    assert SortBy([b, c], Created) == [b, c];
    assert Insert(a, [c], Created) == [a, c];
    assert Insert(a, [b, c], Created) == [b] + Insert(a, [c], Created);
  }

  /** Three changes that a first pass leaves alone and a second pass would put in another order. */
  lemma CompactingAgainReorders()
    ensures var a, b, c := Renaming("title", 7200), Renaming("author", 0), Renaming("author", 7200);
            Compacted([a, b, c]) == [b, a, c] && Compacted([b, a, c]) != [b, a, c]
  {
    var a, b, c := Renaming("title", 7200), Renaming("author", 0), Renaming("author", 7200);
    var titles, authors := IdOf(a), IdOf(b);
    PutFirst(a, b, c);
    IdsOfThree(a, b, c);
    IdsOfThree(b, a, c);
    GroupsOfThree(a, b, c);
    assert Compacted([a, b, c]) == [b, a, c];
    CompactingAgainExactly([a, b, c]);
    var once := [b, a, c];
    assert Position([authors, titles], titles) == 1 + Position([authors, titles][1..], titles);
    assert once[1].createdAt == once[2].createdAt;
  }

  lemma IdsOfThree(x: Change, y: Change, z: Change)
    requires IdOf(x) != IdOf(y) && (IdOf(z) == IdOf(x) || IdOf(z) == IdOf(y))
    ensures Ids([x, y, z]) == [IdOf(x), IdOf(y)]
  {
    assert [x, y, z][..2] == [x, y] && [x, y][..1] == [x] && [x][..0] == [];
    assert Ids([x]) == [IdOf(x)];
    assert Ids([x, y]) == [IdOf(x), IdOf(y)];
  }

  lemma GroupsOfThree(a: Change, b: Change, c: Change)
    requires IdOf(a) != IdOf(b) && IdOf(c) == IdOf(b) && IsOmnibus(a) && IsOmnibus(b) && IsOmnibus(c)
    requires c.createdAt - b.createdAt >= HOUR
    ensures CompactedGroups([a, b, c], [IdOf(a), IdOf(b)]) == [a, b, c]
  {
    FirstOfThree(a, b, c);
    LastOfThree(a, b, c);
    CompactedAlready([a]);
    CompactedAlready([b, c]);
    TwoGroups([a, b, c], IdOf(a), IdOf(b));
    OneAndTwo(a, b, c);
  }

  lemma OneAndTwo(a: Change, b: Change, c: Change)
    ensures [a] + [b, c] == [a, b, c]
  {}

  lemma FirstOfThree(a: Change, b: Change, c: Change)
    requires IdOf(a) != IdOf(b) && IdOf(c) == IdOf(b)
    ensures Filter([a, b, c], Within(IdOf(a))) == [a]
  {
    FilterThree(a, b, c, Within(IdOf(a)));
  }

  lemma LastOfThree(a: Change, b: Change, c: Change)
    requires IdOf(a) != IdOf(b) && IdOf(c) == IdOf(b)
    ensures Filter([a, b, c], Within(IdOf(b))) == [b, c]
  {
    FilterThree(a, b, c, Within(IdOf(b)));
  }

  lemma CompactedAlready(xs: seq<Change>)
    requires Apart(xs) && Sorted(xs, Created) && forall c :: c in xs ==> IsOmnibus(c)
    ensures CompactedGroup(xs) == xs
  {
    SortedStays(xs, Created);
    ApartIsCompacted(xs);
  }

  lemma FilterThree(a: Change, b: Change, c: Change, keep: Change -> bool)
    ensures Filter([a, b, c], keep) ==
            (if keep(a) then [a] else []) + (if keep(b) then [b] else []) + (if keep(c) then [c] else [])
  {
    assert [a, b, c][1..] == [b, c] && [b, c][1..] == [c] && [c][1..] == [];
    assert Filter([c], keep) == if keep(c) then [c] else [];
    assert Filter([b, c], keep) == (if keep(b) then [b] else []) + Filter([c], keep);
  }

  lemma TwoGroups(changes: seq<Change>, x: GroupId, y: GroupId)
    ensures CompactedGroups(changes, [x, y]) ==
            CompactedGroup(Filter(changes, Within(x))) + CompactedGroup(Filter(changes, Within(y)))
  {
    assert [x, y][1..] == [y] && [y][1..] == [];
    assert CompactedGroups(changes, [y]) == CompactedGroup(Filter(changes, Within(y))) + CompactedGroups(changes, []);
  }
}
