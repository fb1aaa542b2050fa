/** Filling a vacancy by a chain of moves (event_vacancy_fill_service.rb), on signup rows. */
module VacancyFill {
  import opened Sorting
  import opened Registration

  /** SignupMoveResult of a chain; the new state is always confirmed. */
  datatype Move = Move(id: nat, prevState: SignupState, prevBucket: Option<Key>, toBucket: Key)

  /** `Raised` stands for an exception, which rolls the whole service call back. */
  datatype Outcome = Done(signups: seq<Signup>, moves: seq<Move>) | Raised

  function PriorityRank(s: Signup): Rank {
    Rank(if s.state.Confirmed? then 1 else 0,
         if s.NoPreference() && s.state.Confirmed? then 1 else 0,
         s.createdAt * (if s.state.Confirmed? then -1 else 1))
  }

  /** `all_signups`: neither withdrawn nor belonging to a team member */
  function Active(signups: seq<Signup>, team: set<Profile>): seq<Signup> {
    Filter(signups, (s: Signup) => !s.state.Withdrawn? && s.profile !in team)
  }

  function AllOrdered(signups: seq<Signup>, team: set<Profile>): seq<Signup> {
    SortBy(Active(signups, team), PriorityRank)
  }

  /** `signups_ordered`: the ones neither moved yet nor immovable */
  function Unmoved(ordered: seq<Signup>, moved: set<nat>): seq<Signup> {
    Filter(ordered, (s: Signup) => s.id !in moved)
  }

  function Without(candidates: seq<Signup>, id: nat): seq<Signup> {
    Filter(candidates, (s: Signup) => s.id != id)
  }

  predicate CanFill(p: Policy, s: Signup, vacancy: Bucket) {
    var current := p.BucketWithKey(s.bucketKey);
    (current.None? || current.value.CountedLimited()) &&
    ((s.NoPreference() && vacancy.CountedLimited()) ||
     s.requested == Some(vacancy.key) ||
     vacancy.anything)
  }

  predicate AlreadyInBestSlot(s: Signup) { s.state.Confirmed? && s.requested == s.bucketKey }

  predicate CanTake(p: Policy, s: Signup, vacancy: Bucket) {
    s.bucketKey != Some(vacancy.key) && CanFill(p, s, vacancy) && !AlreadyInBestSlot(s)
  }

  /** The candidates for a vacancy, best first. */
  function Takers(p: Policy, candidates: seq<Signup>, vacancy: Bucket): seq<Signup> {
    Filter(candidates, (s: Signup) => CanTake(p, s, vacancy))
  }

  /** The validation of a saved row: a counted active signup names only existing buckets. */
  predicate SavesCleanly(p: Policy, s: Signup) {
    s.counted && !s.state.Withdrawn? ==>
      s.bucketKey.Some? && p.BucketWithKey(s.bucketKey).Some? &&
      (s.requested.Some? ==> p.BucketWithKey(s.requested).Some?)
  }

  function Seat(s: Signup, b: Bucket): Signup {
    s.(state := Confirmed, bucketKey := Some(b.key), counted := b.Counted())
  }

  /** Candidates are active signups of the run as they are now. */
  ghost predicate Located(candidates: seq<Signup>, signups: seq<Signup>) {
    forall c :: c in candidates ==> c.id < |signups| && signups[c.id] == c && !c.state.Withdrawn?
  }

  /** Signups keep their identity and nobody comes back from withdrawal. */
  ghost predicate Evolves(before: seq<Signup>, after: seq<Signup>) {
    |before| <= |after| &&
    forall i :: 0 <= i < |before| ==>
      after[i] == before[i].(state := after[i].state, bucketKey := after[i].bucketKey, counted := after[i].counted) &&
      (before[i].state.Withdrawn? ==> after[i].state.Withdrawn?)
  }

  /** `fill_bucket_vacancy`; every link takes its mover off the candidate list. */
  function Fill(p: Policy, signups: seq<Signup>, candidates: seq<Signup>, key: Option<Key>): (r: Outcome)
    requires Located(candidates, signups)
    ensures r.Done? ==> |r.signups| == |signups| && Evolves(signups, r.signups)
    decreases |candidates|
  {
    match p.BucketWithKey(key)
    case None => if candidates == [] then Done(signups, []) else Raised
    case Some(b) =>
      var takers := Takers(p, candidates, b);
      if takers == [] then Done(signups, [])
      else
        var s := takers[0];
        TakerIsCandidate(p, candidates, b, s);
        var seated := Seat(s, b);
        if !SavesCleanly(p, seated) then Raised
        else
          var move := Move(s.id, s.state, s.bucketKey, b.key);
          var after := signups[s.id := seated];
          if !s.state.Confirmed? then Done(after, [move])
          else
            match Fill(p, after, Without(candidates, s.id), s.bucketKey)
            case Raised => Raised
            case Done(rest, moves) => Done(rest, [move] + moves)
  }

  lemma TakerIsCandidate(p: Policy, candidates: seq<Signup>, b: Bucket, s: Signup)
    requires s in Takers(p, candidates, b)
    ensures s in candidates && CanTake(p, s, b)
    ensures |Without(candidates, s.id)| < |candidates|
    ensures forall c :: c in Without(candidates, s.id) <==> c in candidates && c.id != s.id
  {
    FilterShrinks(candidates, (c: Signup) => c.id != s.id, s);
  }

  lemma {:induction false} FilterShrinks<T(!new)>(xs: seq<T>, keep: T -> bool, x: T)
    requires x in xs && !keep(x)
    ensures |Filter(xs, keep)| < |xs|
  {
    if xs[0] != x {
      FilterShrinks(xs[1..], keep, x);
    }
  }

  /** `inner_call`: a vacancy in an unlimited bucket is left alone. */
  function FillVacancy(p: Policy, signups: seq<Signup>, team: set<Profile>, immovable: set<nat>,
                       key: Option<Key>): (r: Outcome)
    requires forall i :: 0 <= i < |signups| ==> signups[i].id == i
    ensures r.Done? ==> |r.signups| == |signups| && Evolves(signups, r.signups)
  {
    match p.BucketWithKey(key)
    case None => Raised
    case Some(b) =>
      if !b.slotsLimited then Done(signups, [])
      else
        OrderedIsLocated(signups, team, immovable);
        Fill(p, signups, Unmoved(AllOrdered(signups, team), immovable), key)
  }

  lemma OrderedIsLocated(signups: seq<Signup>, team: set<Profile>, immovable: set<nat>)
    requires forall i :: 0 <= i < |signups| ==> signups[i].id == i
    ensures Located(Unmoved(AllOrdered(signups, team), immovable), signups)
    ensures forall s :: s in Unmoved(AllOrdered(signups, team), immovable) <==>
                        s in signups && !s.state.Withdrawn? && s.profile !in team && s.id !in immovable
  {
    SortSorts(Active(signups, team), PriorityRank);
  }
}
