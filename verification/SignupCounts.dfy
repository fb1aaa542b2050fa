/** Signup counts from grouped data (signup_count_presenter.rb) and the availability shown from
    them (run_availability_presenter.rb), against counting the signups of the run (run.rb). */
module SignupCounts {
  import opened Sorting
  import opened Registration

  /** What signups are grouped by in the database. */
  datatype Group = Group(state: SignupState, bucketKey: Option<Key>, requested: Option<Key>, counted: bool)

  function GroupOf(s: Signup): Group { Group(s.state, s.bucketKey, s.requested, s.counted) }

  /** `effective_bucket_key` */
  function EffectiveKey(g: Group): Option<Key> {
    if g.state.Waitlisted? then g.requested else g.bucketKey
  }

  datatype Counts = Counts(counted: nat, notCounted: nat) {
    function Plus(counted: bool, n: nat): Counts {
      if counted then this.(counted := this.counted + n) else this.(notCounted := notCounted + n)
    }

    function Total(): nat { counted + notCounted }
  }

  /** A Ruby hash from bucket keys to counts, in insertion order. */
  type Hash = seq<(Option<Key>, Counts)>

  predicate HasKey(h: Hash, key: Option<Key>) { exists e :: e in h && e.0 == key }

  ghost predicate UniqueKeys(h: Hash) { forall i, j :: 0 <= i < j < |h| ==> h[i].0 != h[j].0 }

  /** `hash[key] ||= zero; hash[key][counted] += n` */
  function Increment(h: Hash, key: Option<Key>, counted: bool, n: nat): Hash {
    if h == [] then [(key, Counts(0, 0).Plus(counted, n))]
    else if h[0].0 == key then [(key, h[0].1.Plus(counted, n))] + h[1..]
    else [h[0]] + Increment(h[1..], key, counted, n)
  }

  function EmptyHash(buckets: seq<Bucket>): Hash {
    if buckets == [] then [(None, Counts(0, 0))]
    else Increment(EmptyHash(buckets[..|buckets| - 1]), Some(buckets[|buckets| - 1].key), true, 0)
  }

  datatype Table = Table(confirmed: Hash, waitlisted: Hash, withdrawn: Hash) {
    function Of(state: SignupState): Hash {
      match state
      case Confirmed => confirmed
      case Waitlisted => waitlisted
      case Withdrawn => withdrawn
    }

    function Add(g: Group, n: nat): Table {
      var h := Increment(Of(g.state), EffectiveKey(g), g.counted, n);
      match g.state
      case Confirmed => this.(confirmed := h)
      case Waitlisted => this.(waitlisted := h)
      case Withdrawn => this.(withdrawn := h)
    }
  }

  /** The arguments of `signup_count`; an omitted one selects everything. */
  datatype Selector = Selector(state: Option<SignupState>, bucketKey: Option<Key>, counted: Option<bool>)

  predicate Selects(sel: Selector, g: Group) {
    (sel.state.None? || sel.state == Some(g.state)) &&
    (sel.bucketKey.None? || sel.bucketKey == EffectiveKey(g)) &&
    (sel.counted.None? || sel.counted.value == g.counted)
  }

  function CountsSelected(c: Counts, counted: Option<bool>): nat {
    (if counted.None? || counted.value then c.counted else 0) +
    (if counted.None? || !counted.value then c.notCounted else 0)
  }

  function HashSelected(h: Hash, bucketKey: Option<Key>, counted: Option<bool>): nat {
    if h == [] then 0
    else
      (if bucketKey.None? || bucketKey == h[0].0 then CountsSelected(h[0].1, counted) else 0) +
      HashSelected(h[1..], bucketKey, counted)
  }

  function StateSelected(table: Table, state: SignupState, sel: Selector): nat {
    if sel.state.None? || sel.state == Some(state) then HashSelected(table.Of(state), sel.bucketKey, sel.counted) else 0
  }

  /** `signup_count` */
  function SignupCount(table: Table, sel: Selector): nat {
    StateSelected(table, Confirmed, sel) + StateSelected(table, Waitlisted, sel) + StateSelected(table, Withdrawn, sel)
  }

  type Data = seq<(Group, nat)>

  /** The counts of the selected groups. */
  function Selected(data: Data, sel: Selector): nat {
    if data == [] then 0
    else
      Selected(data[..|data| - 1], sel) +
      (if Selects(sel, data[|data| - 1].0) then data[|data| - 1].1 else 0)
  }

  /** Counting the selected signups one by one. */
  function Direct(signups: seq<Signup>, sel: Selector): nat {
    if signups == [] then 0
    else
      Direct(signups[..|signups| - 1], sel) +
      (if Selects(sel, GroupOf(signups[|signups| - 1])) then 1 else 0)
  }

  // ------------------------------------------------------------------------- filling the table

  lemma {:induction false} IncrementAdds(h: Hash, key: Option<Key>, counted: bool, n: nat,
                                         selected: Option<Key>, selectedCounted: Option<bool>)
    ensures HashSelected(Increment(h, key, counted, n), selected, selectedCounted) ==
            HashSelected(h, selected, selectedCounted) +
            (if (selected.None? || selected == key) && (selectedCounted.None? || selectedCounted.value == counted) then n else 0)
  {
    if h == [] {
      assert HashSelected([], selected, selectedCounted) == 0;
    } else if h[0].0 != key {
      IncrementAdds(h[1..], key, counted, n, selected, selectedCounted);
    } else {
      var after := Increment(h, key, counted, n);
      assert after[1..] == h[1..] && after[0] == (key, h[0].1.Plus(counted, n));
    }
  }

  lemma {:induction false} IncrementKeys(h: Hash, key: Option<Key>, counted: bool, n: nat)
    ensures forall k :: HasKey(Increment(h, key, counted, n), k) <==> HasKey(h, k) || k == key
    ensures UniqueKeys(h) ==> UniqueKeys(Increment(h, key, counted, n))
  {
    var after := Increment(h, key, counted, n);
    if h == [] {
      assert after[0] in after;
    } else if h[0].0 == key {
      assert after[0] in after && h[0] in h;
      assert forall e :: e in h[1..] ==> e in h && e in after;
    } else {
      var rest := Increment(h[1..], key, counted, n);
      IncrementKeys(h[1..], key, counted, n);
      assert after == [h[0]] + rest;
      forall k ensures HasKey(after, k) <==> HasKey(h, k) || k == key {
        assert HasKey(h, k) <==> h[0].0 == k || HasKey(h[1..], k);
        assert HasKey(after, k) <==> h[0].0 == k || HasKey(rest, k);
      }
      if UniqueKeys(h) {
        forall e | e in rest ensures e.0 != h[0].0 {
          assert HasKey(rest, e.0);
          if e.0 != key {
            assert HasKey(h[1..], e.0);
          }
        }
      }
    }
  }

  lemma {:induction false} EmptyHashIsEmpty(buckets: seq<Bucket>, selected: Option<Key>, counted: Option<bool>)
    ensures HashSelected(EmptyHash(buckets), selected, counted) == 0
    ensures UniqueKeys(EmptyHash(buckets)) && HasKey(EmptyHash(buckets), None)
    ensures forall b :: b in buckets ==> HasKey(EmptyHash(buckets), Some(b.key))
  {
    if buckets != [] {
      var n := |buckets| - 1;
      EmptyHashIsEmpty(buckets[..n], selected, counted);
      IncrementAdds(EmptyHash(buckets[..n]), Some(buckets[n].key), true, 0, selected, counted);
      IncrementKeys(EmptyHash(buckets[..n]), Some(buckets[n].key), true, 0);
    }
  }

  lemma TableAdds(table: Table, g: Group, n: nat, sel: Selector)
    ensures SignupCount(table.Add(g, n), sel) == SignupCount(table, sel) + (if Selects(sel, g) then n else 0)
  {
    IncrementAdds(table.Of(g.state), EffectiveKey(g), g.counted, n, sel.bucketKey, sel.counted);
  }

  /** Every bucket of the policy has its own entry, and so do the signups without one. */
  ghost predicate ReadyHash(h: Hash, buckets: seq<Bucket>) {
    UniqueKeys(h) && HasKey(h, None) && forall b :: b in buckets ==> HasKey(h, Some(b.key))
  }

  ghost predicate Ready(table: Table, buckets: seq<Bucket>) {
    ReadyHash(table.confirmed, buckets) && ReadyHash(table.waitlisted, buckets) && ReadyHash(table.withdrawn, buckets)
  }

  lemma ReadyAdds(table: Table, buckets: seq<Bucket>, g: Group, n: nat)
    requires Ready(table, buckets)
    ensures Ready(table.Add(g, n), buckets)
  {
    IncrementKeys(table.Of(g.state), EffectiveKey(g), g.counted, n);
  }

  /** `process_signup_count_data`: whatever is selected, the table has the counts of the data. */
  method ProcessSignupCountData(buckets: seq<Bucket>, data: Data) returns (table: Table)
    ensures forall sel :: SignupCount(table, sel) == Selected(data, sel)
    ensures Ready(table, buckets)
  {
    var empty := EmptyHash(buckets);
    table := Table(empty, empty, empty);
    forall selected, counted
      ensures HashSelected(empty, selected, counted) == 0 && Ready(table, buckets)
    {
      EmptyHashIsEmpty(buckets, selected, counted);
    }
    assert HashSelected(empty, None, None) == 0;
    for i := 0 to |data|
      invariant forall sel :: SignupCount(table, sel) == Selected(data[..i], sel)
      invariant Ready(table, buckets)
    {
      var (g, n) := data[i];
      assert data[..i + 1][..i] == data[..i];
      forall sel ensures SignupCount(table.Add(g, n), sel) == Selected(data[..i + 1], sel) {
        TableAdds(table, g, n, sel);
      }
      ReadyAdds(table, buckets, g, n);
      table := table.Add(g, n);
    }
    assert data[..|data|] == data;
  }

  // --------------------------------------------------------------------- grouped data of a run

  function GroupSize(signups: seq<Signup>, g: Group): nat {
    if signups == [] then 0
    else GroupSize(signups[..|signups| - 1], g) + (if GroupOf(signups[|signups| - 1]) == g then 1 else 0)
  }

  /** What grouping the signups and counting each group answers, in any order of the groups. */
  ghost predicate Groups(data: Data, signups: seq<Signup>) {
    (forall i, j :: 0 <= i < j < |data| ==> data[i].0 != data[j].0) &&
    (forall d :: d in data ==> d.1 == GroupSize(signups, d.0)) &&
    (forall s :: s in signups ==> exists d :: d in data && d.0 == GroupOf(s))
  }

  lemma {:induction false} SelectedUpdate(data: Data, i: nat, n: nat, sel: Selector)
    requires i < |data|
    ensures Selected(data[i := (data[i].0, n)], sel) ==
            Selected(data, sel) + (if Selects(sel, data[i].0) then n - data[i].1 else 0)
  {
    var m := |data| - 1;
    if i < m {
      assert data[i := (data[i].0, n)][..m] == data[..m][i := (data[i].0, n)];
      SelectedUpdate(data[..m], i, n, sel);
    } else {
      assert data[i := (data[i].0, n)][..m] == data[..m];
    }
  }

  lemma {:induction false} SelectedZero(data: Data, sel: Selector)
    requires forall d :: d in data ==> d.1 == 0
    ensures Selected(data, sel) == 0
  {
    if data != [] {
      SelectedZero(data[..|data| - 1], sel);
    }
  }

  /** Without the last signup, its group is one smaller. */
  lemma GroupsOfRest(data: Data, signups: seq<Signup>, i: nat)
    requires Groups(data, signups) && signups != [] && i < |data| && data[i].0 == GroupOf(signups[|signups| - 1])
    ensures data[i].1 > 0 && Groups(data[i := (data[i].0, data[i].1 - 1)], signups[..|signups| - 1])
  {
    assert data[i] in data;
    var rest, less := signups[..|signups| - 1], data[i := (data[i].0, data[i].1 - 1)];
    forall e | e in less ensures e.1 == GroupSize(rest, e.0) {
      var j :| 0 <= j < |less| && less[j] == e;
      assert data[j] in data;
    }
    forall r | r in rest ensures exists e :: e in less && e.0 == GroupOf(r) {
      assert r in signups;
      var e :| e in data && e.0 == GroupOf(r);
      var j :| 0 <= j < |data| && data[j] == e;
      assert less[j] in less && less[j].0 == GroupOf(r);
    }
  }

  /** Selecting from grouped data is counting the signups. */
  lemma {:induction false} GroupedIsDirect(data: Data, signups: seq<Signup>, sel: Selector)
    requires Groups(data, signups)
    ensures Selected(data, sel) == Direct(signups, sel)
    decreases |signups|
  {
    if signups == [] {
      SelectedZero(data, sel);
    } else {
      var n := |signups| - 1;
      assert signups[n] in signups;
      var d :| d in data && d.0 == GroupOf(signups[n]);
      var i :| 0 <= i < |data| && data[i] == d;
      GroupsOfRest(data, signups, i);
      GroupedIsDirect(data[i := (d.0, d.1 - 1)], signups[..n], sel);
      SelectedUpdate(data, i, d.1 - 1, sel);
    }
  }

  /** A signup is matched by its state, its flag, and the bucket it sits in or, while it waits, asks for. */
  predicate Matches(sel: Selector, s: Signup) {
    (sel.state.Some? ==> s.state == sel.state.value) && (sel.counted.Some? ==> s.counted == sel.counted.value) &&
    (sel.bucketKey.Some? ==> sel.bucketKey == if s.state == Waitlisted then s.requested else s.bucketKey)
  }

  function Matching(signups: seq<Signup>, sel: Selector): set<nat> {
    set i | 0 <= i < |signups| && Matches(sel, signups[i])
  }

  lemma {:induction false} DirectIsNumber(signups: seq<Signup>, sel: Selector)
    ensures Direct(signups, sel) == |Matching(signups, sel)|
  {
    if signups != [] {
      var n := |signups| - 1;
      DirectIsNumber(signups[..n], sel);
      assert Matching(signups, sel) == Matching(signups[..n], sel) + if Matches(sel, signups[n]) then {n} else {};
    }
  }

  lemma {:induction false} DirectAll(signups: seq<Signup>)
    ensures Direct(signups, Selector(None, None, None)) == |signups|
  {
    if signups != [] {
      DirectAll(signups[..|signups| - 1]);
    }
  }

  /** The presenter of a run: a table filled from its grouped signups. */
  ghost predicate Presents(table: Table, buckets: seq<Bucket>, signups: seq<Signup>) {
    Ready(table, buckets) && exists data: Data :: Groups(data, signups) && forall sel :: SignupCount(table, sel) == Selected(data, sel)
  }

  lemma CountsDirect(table: Table, buckets: seq<Bucket>, signups: seq<Signup>, sel: Selector)
    requires Presents(table, buckets, signups)
    ensures SignupCount(table, sel) == Direct(signups, sel)
  {
    var data: Data :| Groups(data, signups) && forall any :: SignupCount(table, any) == Selected(data, any);
    GroupedIsDirect(data, signups, sel);
  }

  /** Whatever is given and whatever omitted, `signup_count` answers the number of matching
      signups; and all the counts together are the number of signups. */
  lemma CountsAgree(table: Table, buckets: seq<Bucket>, signups: seq<Signup>, sel: Selector)
    requires Presents(table, buckets, signups)
    ensures SignupCount(table, sel) == |Matching(signups, sel)|
    ensures SignupCount(table, Selector(None, None, None)) == |signups|
  {
    CountsDirect(table, buckets, signups, sel);
    DirectIsNumber(signups, sel);
    CountsDirect(table, buckets, signups, Selector(None, None, None));
    DirectAll(signups);
  }

  // ----------------------------------------------------------------------------- availability

  function Fetch(h: Hash, key: Option<Key>): Counts
    requires HasKey(h, key)
  {
    if h[0].0 == key then h[0].1 else Fetch(h[1..], key)
  }

  lemma {:induction false} NotSelected(h: Hash, key: Key)
    requires !HasKey(h, Some(key))
    ensures HashSelected(h, Some(key), None) == 0
  {
    if h != [] {
      assert h[0] in h;
      NotSelected(h[1..], key);
    }
  }

  lemma {:induction false} FetchSelects(h: Hash, key: Key)
    requires UniqueKeys(h) && HasKey(h, Some(key))
    ensures Fetch(h, Some(key)).Total() == HashSelected(h, Some(key), None)
  {
    if h[0].0 == Some(key) {
      NotSelected(h[1..], key);
    } else {
      FetchSelects(h[1..], key);
    }
  }

  /** `BucketAvailability` */
  function ConfirmedCount(table: Table, b: Bucket): nat
    requires HasKey(table.confirmed, Some(b.key))
  {
    Fetch(table.confirmed, Some(b.key)).Total()
  }

  function AvailableSlots(table: Table, b: Bucket): Option<int>
    requires HasKey(table.confirmed, Some(b.key))
  {
    if !b.slotsLimited then None else Some(b.totalSlots - ConfirmedCount(table, b))
  }

  predicate HasAvailability(table: Table, b: Bucket)
    requires HasKey(table.confirmed, Some(b.key))
  {
    !b.slotsLimited || AvailableSlots(table, b).value > 0
  }

  predicate Full(table: Table, b: Bucket)
    requires HasKey(table.confirmed, Some(b.key))
  {
    !HasAvailability(table, b)
  }

  /** `signups_by_bucket_key` of a run, at one key */
  function InKey(signups: seq<Signup>, key: Option<Key>): seq<Signup> {
    Filter(signups, (s: Signup) => s.bucketKey == key)
  }

  /** `bucket_full?` and `available_slots_by_bucket_key` of a run, for a bucket of its policy */
  predicate RunBucketFull(signups: seq<Signup>, b: Bucket) { b.Full(InKey(signups, Some(b.key))) }

  function RunAvailableSlots(signups: seq<Signup>, b: Bucket): Option<nat> {
    b.AvailableSlots(InKey(signups, Some(b.key)))
  }

  lemma {:induction false} DirectIsCount(signups: seq<Signup>, key: Key)
    ensures Direct(signups, Selector(Some(Confirmed), Some(key), None)) == Count(signups, InBucket(key))
  {
    if signups != [] {
      DirectIsCount(signups[..|signups| - 1], key);
    }
  }

  /** The presenter and the run agree on which buckets are full, and on the free slots of every
      bucket that is not over-full. */
  lemma AvailabilityAgrees(table: Table, buckets: seq<Bucket>, signups: seq<Signup>, b: Bucket)
    requires Presents(table, buckets, signups) && b in buckets
    ensures Full(table, b) <==> RunBucketFull(signups, b)
    ensures RunAvailableSlots(signups, b) == AvailableSlots(table, b) <==>
            (b.slotsLimited ==> Count(signups, InBucket(b.key)) <= b.totalSlots)
    ensures RunBucketFull(signups, b) <==> b.Full(signups)
  {
    var sel := Selector(Some(Confirmed), Some(b.key), None);
    CountsDirect(table, buckets, signups, sel);
    DirectIsCount(signups, b.key);
    FetchSelects(table.confirmed, b.key);
    CountFilter(signups, (s: Signup) => s.bucketKey == Some(b.key), InBucket(b.key));
  }
}
