/** Buckets, registration policies and signups (bucket.rb, registration_policy.rb, signup.rb). */
module Registration {
  import opened Sorting

  /** A bucket key, already normalised (lower case, other characters replaced) and not blank. */
  type Key = string
  type Profile = int

  datatype SignupState = Confirmed | Waitlisted | Withdrawn

  /** One row of the signups table of a run. `id` is its position among the signups of the run. */
  datatype Signup = Signup(
    id: nat, profile: Profile, state: SignupState, bucketKey: Option<Key>,
    requested: Option<Key>, counted: bool, createdAt: int)
  {
    predicate NoPreference() { requested.None? }

    predicate ConfirmedIn(key: Key) { state.Confirmed? && bucketKey == Some(key) }
  }

  predicate IsCountedConfirmed(s: Signup) { s.counted && s.state.Confirmed? }

  /** `run.signups.counted.confirmed` */
  function CountedConfirmed(signups: seq<Signup>): seq<Signup> {
    Filter(signups, IsCountedConfirmed)
  }

  /** The kinds of signup that are counted anywhere in the allocator. */
  datatype Tally = InBucket(key: Key) | CountedIn(key: Key) | AnyConfirmed

  predicate Has(s: Signup, t: Tally) {
    match t
    case InBucket(k) => s.ConfirmedIn(k)
    case CountedIn(k) => s.ConfirmedIn(k) && s.counted
    case AnyConfirmed => s.state.Confirmed?
  }

  function Count(signups: seq<Signup>, t: Tally): nat {
    if signups == [] then 0
    else Count(signups[..|signups| - 1], t) + (if Has(signups[|signups| - 1], t) then 1 else 0)
  }

  datatype Bucket = Bucket(
    key: Key, totalSlots: nat, slotsLimited: bool, anything: bool, notCounted: bool)
  {
    predicate Counted() { !notCounted }

    predicate CountedLimited() { slotsLimited && Counted() }

    /** `None` stands for the nil an unlimited bucket answers. */
    function AvailableSlots(signups: seq<Signup>): Option<nat> {
      if !slotsLimited then None
      else
        var free := totalSlots - Count(signups, InBucket(key));
        Some(if free > 0 then free else 0)
    }

    predicate Full(signups: seq<Signup>) { AvailableSlots(signups) == Some(0) }
  }

  predicate IsCountedLimited(b: Bucket) { b.CountedLimited() }
  predicate IsAnything(b: Bucket) { b.anything }

  datatype Policy = Policy(buckets: seq<Bucket>, preventNoPreference: bool) {
    /** Lookup in the index by key, in which a later bucket replaces an earlier one. */
    function BucketWithKey(key: Option<Key>): Option<Bucket> {
      if key.None? then None else Lookup(buckets, key.value)
    }

    function AnythingBucket(): Option<Bucket> {
      var found := Filter(buckets, IsAnything);
      if found == [] then None else Some(found[0])
    }

    /** The two validations of a registration policy. */
    ghost predicate Valid() {
      (forall i, j :: 0 <= i < j < |buckets| ==> buckets[i].key != buckets[j].key) &&
      (forall i, j :: 0 <= i < j < |buckets| ==> !(buckets[i].anything && buckets[j].anything))
    }

    /** No bucket is both limited and not counted. */
    ghost predicate LimitedBucketsCount() {
      forall b :: b in buckets && b.slotsLimited ==> b.Counted()
    }

    /** No bucket has a limited number of slots, at least one, and does not count who is in them. */
    ghost predicate HidesNoSlots() {
      forall b :: b in buckets && b.slotsLimited && b.notCounted ==> b.totalSlots == 0
    }
  }

  function Lookup(buckets: seq<Bucket>, key: Key): (r: Option<Bucket>)
    ensures r.Some? ==> r.value in buckets && r.value.key == key
    ensures r.None? ==> forall b :: b in buckets ==> b.key != key
  {
    if buckets == [] then None
    else
      var last := buckets[|buckets| - 1];
      if last.key == key then Some(last) else Lookup(buckets[..|buckets| - 1], key)
  }

  /** In a valid policy a bucket is found under its own key. */
  lemma LookupFinds(p: Policy, b: Bucket)
    requires p.Valid() && b in p.buckets
    ensures p.BucketWithKey(Some(b.key)) == Some(b)
  {
    var found := Lookup(p.buckets, b.key).value;
    var i :| 0 <= i < |p.buckets| && p.buckets[i] == b;
    var j :| 0 <= j < |p.buckets| && p.buckets[j] == found;
  }

  lemma AnythingUnique(p: Policy, b: Bucket)
    requires p.Valid() && b in p.buckets && b.anything
    ensures p.AnythingBucket() == Some(b)
  {
    var found := Filter(p.buckets, IsAnything);
    assert b in found;
    var a := found[0];
    assert a in found;
    var i :| 0 <= i < |p.buckets| && p.buckets[i] == b;
    var j :| 0 <= j < |p.buckets| && p.buckets[j] == a;
  }

  lemma {:induction false} CountAppend(xs: seq<Signup>, ys: seq<Signup>, t: Tally)
    ensures Count(xs + ys, t) == Count(xs, t) + Count(ys, t)
  {
    if ys == [] {
      assert xs + ys == xs;
    } else {
      assert (xs + ys)[..|xs + ys| - 1] == xs + ys[..|ys| - 1];
      CountAppend(xs, ys[..|ys| - 1], t);
    }
  }

  lemma CountOne(xs: seq<Signup>, s: Signup, t: Tally)
    ensures Count(xs + [s], t) == Count(xs, t) + (if Has(s, t) then 1 else 0)
  {
    assert (xs + [s])[..|xs|] == xs;
  }

  lemma {:induction false} CountUpdate(xs: seq<Signup>, i: nat, s: Signup, t: Tally)
    requires i < |xs|
    ensures Count(xs[i := s], t) ==
            Count(xs, t) - (if Has(xs[i], t) then 1 else 0) + (if Has(s, t) then 1 else 0)
  {
    var n := |xs| - 1;
    if i < n {
      assert xs[i := s][..n] == xs[..n][i := s];
      CountUpdate(xs[..n], i, s, t);
    } else {
      assert xs[i := s][..n] == xs[..n];
    }
  }

  lemma {:induction false} CountPointwise(xs: seq<Signup>, ys: seq<Signup>, t: Tally, u: Tally)
    requires |xs| == |ys|
    requires forall i :: 0 <= i < |xs| ==> (Has(xs[i], t) ==> Has(ys[i], u))
    ensures Count(xs, t) <= Count(ys, u)
  {
    if xs != [] {
      var n := |xs| - 1;
      CountPointwise(xs[..n], ys[..n], t, u);
    }
  }

  lemma {:induction false} CountZero(xs: seq<Signup>, t: Tally)
    requires forall s :: s in xs ==> !Has(s, t)
    ensures Count(xs, t) == 0
  {
    if xs != [] {
      CountZero(xs[..|xs| - 1], t);
    }
  }

  /** What the finder sees in a bucket: the counted confirmed signups. */
  lemma {:induction false} CountCounted(xs: seq<Signup>, k: Key)
    ensures Count(CountedConfirmed(xs), InBucket(k)) == Count(xs, CountedIn(k))
  {
    if xs != [] {
      var n := |xs| - 1;
      CountCounted(xs[..n], k);
      FilterAppend(xs[..n], [xs[n]], IsCountedConfirmed);
      assert xs == xs[..n] + [xs[n]];
      assert [xs[n]][1..] == [];
      CountAppend(CountedConfirmed(xs[..n]), CountedConfirmed([xs[n]]), InBucket(k));
      assert CountedConfirmed([xs[n]]) == if IsCountedConfirmed(xs[n]) then [xs[n]] else [];
      CountOne([], xs[n], InBucket(k));
      assert [] + [xs[n]] == [xs[n]];
    }
  }

  lemma {:induction false} CountPositive(xs: seq<Signup>, s: Signup, t: Tally)
    requires s in xs && Has(s, t)
    ensures Count(xs, t) > 0
  {
    if xs[|xs| - 1] != s {
      CountPositive(xs[..|xs| - 1], s, t);
    }
  }

  lemma CountSplit(xs: seq<Signup>, i: nat, t: Tally)
    requires i < |xs|
    ensures Count(xs, t) == Count(xs[..i] + xs[i + 1..], t) + (if Has(xs[i], t) then 1 else 0)
  {
    assert xs == xs[..i] + ([xs[i]] + xs[i + 1..]);
    CountAppend(xs[..i], [xs[i]] + xs[i + 1..], t);
    CountAppend([xs[i]], xs[i + 1..], t);
    CountAppend(xs[..i], xs[i + 1..], t);
    CountOne([], xs[i], t);
    assert [] + [xs[i]] == [xs[i]];
  }

  lemma MultisetWithout(xs: seq<Signup>, i: nat)
    requires i < |xs|
    ensures multiset(xs[..i] + xs[i + 1..]) == multiset(xs) - multiset{xs[i]}
  {
    assert xs == xs[..i] + [xs[i]] + xs[i + 1..];
  }

  lemma {:induction false} CountPermutation(xs: seq<Signup>, ys: seq<Signup>, t: Tally)
    requires multiset(xs) == multiset(ys)
    ensures Count(xs, t) == Count(ys, t)
  {
    if xs == [] {
      assert |multiset(ys)| == 0;
    } else {
      var n := |xs| - 1;
      assert xs[n] in multiset(ys);
      var i :| 0 <= i < |ys| && ys[i] == xs[n];
      MultisetWithout(xs, n);
      MultisetWithout(ys, i);
      assert xs[..n] + xs[n + 1..] == xs[..n];
      CountPermutation(xs[..n], ys[..i] + ys[i + 1..], t);
      CountSplit(ys, i, t);
    }
  }

  lemma {:induction false} CountFilter(xs: seq<Signup>, keep: Signup -> bool, t: Tally)
    requires forall s :: s in xs && Has(s, t) ==> keep(s)
    ensures Count(Filter(xs, keep), t) == Count(xs, t)
  {
    if xs != [] {
      CountFilter(xs[1..], keep, t);
      assert xs == [xs[0]] + xs[1..];
      CountAppend([xs[0]], xs[1..], t);
      CountAppend([xs[0]], Filter(xs[1..], keep), t);
      CountOne([], xs[0], t);
      assert [] + [xs[0]] == [xs[0]];
    }
  }
}
