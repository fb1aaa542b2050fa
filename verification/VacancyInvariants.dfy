/** What a vacancy-filling chain keeps: shape, preferences, and above all that nobody waits who
    could be placed. Also: the order memoised before the chain is the order at every step. */
module VacancyInvariants {
  import opened Sorting
  import opened Registration
  import opened BucketFinder
  import opened Allocation
  import opened VacancyFill
  import opened VacancyChain

  lemma SeatKeepsShape(p: Policy, team: set<Profile>, s: Signup, after: Signup)
    requires p.Valid() && SeatedFrom(p, s, after) && s.profile !in team
    ensures ShapedRow(p, team, after)
  {
    var b :| b in p.buckets && b.CountedLimited() && CanTake(p, s, b) && after == Seat(s, b) &&
             SavesCleanly(p, after);
    LookupFinds(p, b);
  }

  /** With a preference, only into the requested bucket or the anything bucket. */
  lemma SeatKeepsPreference(p: Policy, s: Signup, after: Signup)
    requires p.Valid() && SeatedFrom(p, s, after) && KnownRequest(p, s)
    ensures KnownRequest(p, after) && SeatedAsAsked(p, after)
  {
    var b :| b in p.buckets && b.CountedLimited() && CanTake(p, s, b) && after == Seat(s, b) &&
             SavesCleanly(p, after);
    LookupFinds(p, b);
  }

  /** The shape and the numbering of the signups survive a chain. */
  lemma VacancyKeepsShape(p: Policy, team: set<Profile>, signups: seq<Signup>, immovable: set<nat>,
                          key: Option<Key>)
    requires p.Valid() && Shaped(p, team, signups)
    requires p.BucketWithKey(key).Some? && p.BucketWithKey(key).value.Counted()
    requires FillVacancy(p, signups, team, immovable, key).Done?
    ensures Shaped(p, team, FillVacancy(p, signups, team, immovable, key).signups)
  {
    var after := FillVacancy(p, signups, team, immovable, key).signups;
    if p.BucketWithKey(key).value.slotsLimited {
      var candidates := Unmoved(AllOrdered(signups, team), immovable);
      OrderedIsLocated(signups, team, immovable);
      FillRows(p, signups, candidates, key);
      forall i | 0 <= i < |after| ensures after[i].id == i && ShapedRow(p, team, after[i]) {
        assert signups[i] in signups;
        if after[i] != signups[i] {
          SeatKeepsShape(p, team, signups[i], after[i]);
        }
      }
    }
  }

  /** Preferences survive a chain, and a signup sitting where it asked to be is not moved. */
  lemma VacancyKeepsPreferences(p: Policy, team: set<Profile>, signups: seq<Signup>, immovable: set<nat>,
                                key: Option<Key>)
    requires p.Valid() && Shaped(p, team, signups) && Preferring(p, signups)
    requires p.BucketWithKey(key).Some? && p.BucketWithKey(key).value.Counted()
    requires FillVacancy(p, signups, team, immovable, key).Done?
    ensures var after := FillVacancy(p, signups, team, immovable, key).signups;
            Preferring(p, after) && |after| == |signups| &&
            forall i :: 0 <= i < |after| ==>
              (signups[i].state.Confirmed? && signups[i].bucketKey == signups[i].requested ==>
                 after[i] == signups[i]) &&
              (after[i] != signups[i] && signups[i].state.Confirmed? && !signups[i].NoPreference() ==>
                 after[i].bucketKey == signups[i].requested)
  {
    var after := FillVacancy(p, signups, team, immovable, key).signups;
    if p.BucketWithKey(key).value.slotsLimited {
      var candidates := Unmoved(AllOrdered(signups, team), immovable);
      OrderedIsLocated(signups, team, immovable);
      FillRows(p, signups, candidates, key);
      forall i | 0 <= i < |after|
        ensures KnownRequest(p, after[i]) && SeatedAsAsked(p, after[i])
        ensures signups[i].state.Confirmed? && signups[i].bucketKey == signups[i].requested ==>
                  after[i] == signups[i]
        ensures after[i] != signups[i] && signups[i].state.Confirmed? && !signups[i].NoPreference() ==>
                  after[i].bucketKey == signups[i].requested
      {
        assert signups[i] in signups;
        if after[i] != signups[i] {
          SeatKeepsPreference(p, signups[i], after[i]);
          AskedOrAnything(p, team, signups[i], after[i]);
        }
      }
    }
  }

  lemma AskedOrAnything(p: Policy, team: set<Profile>, s: Signup, after: Signup)
    requires p.Valid() && SeatedFrom(p, s, after) && ShapedRow(p, team, s) && s.profile !in team
    requires KnownRequest(p, s) && SeatedAsAsked(p, s)
    ensures s.state.Confirmed? && !s.NoPreference() ==> after.bucketKey == s.requested
  {
    var b :| b in p.buckets && b.CountedLimited() && CanTake(p, s, b) && after == Seat(s, b) &&
             SavesCleanly(p, after);
    if s.state.Confirmed? && !s.NoPreference() && b.anything {
      AnythingUnique(p, b);
      AnythingUnique(p, p.BucketWithKey(s.bucketKey).value);
    }
  }

  /** A chain raises only over a candidate whose request names a bucket the policy does not have. */
  lemma {:induction false} FillCompletes(p: Policy, signups: seq<Signup>, candidates: seq<Signup>, key: Option<Key>)
    requires p.Valid() && Located(candidates, signups) && p.BucketWithKey(key).Some?
    requires forall c :: c in candidates ==>
               (c.requested.Some? ==> p.BucketWithKey(c.requested).Some?) &&
               (c.state.Confirmed? ==> p.BucketWithKey(c.bucketKey).Some?)
    ensures Fill(p, signups, candidates, key).Done?
    decreases |candidates|
  {
    var b := p.BucketWithKey(key).value;
    LookupFinds(p, b);
    if Takers(p, candidates, b) != [] {
      FirstLink(p, signups, candidates, key);
      var s := Takers(p, candidates, b)[0];
      if s.state.Confirmed? {
        FillCompletes(p, signups[s.id := Seat(s, b)], Without(candidates, s.id), s.bucketKey);
      }
    }
  }

  lemma VacancyCompletes(p: Policy, team: set<Profile>, signups: seq<Signup>, immovable: set<nat>, key: Option<Key>)
    requires p.Valid() && Shaped(p, team, signups) && p.BucketWithKey(key).Some?
    requires forall s :: s in signups ==> (s.requested.Some? ==> p.BucketWithKey(s.requested).Some?)
    ensures FillVacancy(p, signups, team, immovable, key).Done?
  {
    OrderedIsLocated(signups, team, immovable);
    FillCompletes(p, signups, Unmoved(AllOrdered(signups, team), immovable), key);
  }

  // ---------------------------------------------------------------- stability of the waitlist

  function CountBack(b: Bucket, signups: seq<Signup>, key: Option<Key>): nat {
    Count(signups, CountedIn(b.key)) + (if key == Some(b.key) then 1 else 0)
  }

  /** While a chain has a vacancy open at `key`: every bucket a waiting signup may be given is full,
      counting the open slot as taken, and every waiting signup is a candidate. */
  ghost predicate WaitersShutOut(p: Policy, signups: seq<Signup>, candidates: seq<Signup>, key: Option<Key>) {
    forall w :: w in signups && w.state.Waitlisted? ==>
      w in candidates &&
      forall b :: b in Prioritized(p, w.requested) ==>
        b.slotsLimited && CountBack(b, signups, key) >= b.totalSlots
  }

  ghost predicate OutOfReach(p: Policy, signups: seq<Signup>, n: Signup) {
    forall w, b :: w in signups && w.state.Waitlisted? && b in Prioritized(p, w.requested) ==>
      !n.ConfirmedIn(b.key)
  }

  /** No-preference signups already moved sit in no bucket a waiting signup may be given. */
  ghost predicate MovedOutOfReach(p: Policy, signups: seq<Signup>, candidates: seq<Signup>) {
    forall n :: n in signups && n.counted && n.NoPreference() && n !in candidates ==>
      OutOfReach(p, signups, n)
  }

  /** Either no counted limited bucket was free before the vacancy opened, or every waiting signup
      has a preference and no no-preference signup sits in a bucket one may be given. */
  ghost predicate NothingToBump(p: Policy, signups: seq<Signup>, key: Option<Key>) {
    (forall c :: c in p.buckets && c.CountedLimited() ==> CountBack(c, signups, key) >= c.totalSlots) ||
    ((forall w :: w in signups && w.state.Waitlisted? ==> !w.NoPreference()) &&
     (forall n :: n in signups && n.counted && n.NoPreference() ==> OutOfReach(p, signups, n)))
  }

  ghost predicate VacancyOpen(p: Policy, team: set<Profile>, signups: seq<Signup>,
                              candidates: seq<Signup>, key: Option<Key>)
  {
    Located(candidates, signups) && Sorted(candidates, PriorityRank) &&
    Shaped(p, team, signups) &&
    (forall c :: c in candidates ==> c.profile !in team) &&
    p.BucketWithKey(key).Some? && p.BucketWithKey(key).value.CountedLimited() &&
    WaitersShutOut(p, signups, candidates, key) &&
    MovedOutOfReach(p, signups, candidates) &&
    NothingToBump(p, signups, key)
  }

  /** A waiting signup that may be given the bucket with the vacancy can take it. */
  lemma WaiterCanTake(p: Policy, team: set<Profile>, w: Signup, b: Bucket)
    requires p.Valid() && ShapedRow(p, team, w) && w.state.Waitlisted?
    requires b.CountedLimited() && b in Prioritized(p, w.requested)
    ensures CanTake(p, w, b)
  {
    if w.requested.Some? {
      PrioritizedRequested(p, w.requested.value, b);
    }
  }

  /** When the best taker is confirmed, no waiting signup may be given the bucket. */
  lemma ConfirmedTakerMeansNoWaiter(p: Policy, team: set<Profile>, signups: seq<Signup>,
                                    candidates: seq<Signup>, key: Option<Key>, w: Signup)
    requires p.Valid() && VacancyOpen(p, team, signups, candidates, key)
    requires var takers := Takers(p, candidates, p.BucketWithKey(key).value);
             takers == [] || takers[0].state.Confirmed?
    requires w in signups && w.state.Waitlisted?
    ensures forall b :: b in Prioritized(p, w.requested) ==> Some(b.key) != key
  {
    var v := p.BucketWithKey(key).value;
    forall b | b in Prioritized(p, w.requested) ensures Some(b.key) != key {
      if Some(b.key) == key {
        PrioritizedInPolicy(p, w.requested, b);
        LookupFinds(p, b);
        WaiterCanTake(p, team, w, b);
        assert w in Takers(p, candidates, v);
        BestTaker(p, candidates, v);
        assert false;
      }
    }
  }

  /** A no-preference signup in a limited counted bucket can take a vacancy elsewhere. */
  lemma NoPreferenceCanTake(p: Policy, team: set<Profile>, n: Signup, b: Bucket, v: Bucket)
    requires p.Valid() && ShapedRow(p, team, n) && n.counted && n.NoPreference()
    requires b in p.buckets && b.slotsLimited && v.CountedLimited() && b.key != v.key
    ensures n.ConfirmedIn(b.key) ==> CanTake(p, n, v)
  {
    LookupFinds(p, b);
  }

  /** When nobody can take the vacancy, nobody who waits has room. */
  lemma NoTakerIsStable(p: Policy, team: set<Profile>, signups: seq<Signup>, candidates: seq<Signup>, key: Option<Key>)
    requires p.Valid() && VacancyOpen(p, team, signups, candidates, key)
    requires Takers(p, candidates, p.BucketWithKey(key).value) == []
    ensures Stable(p, signups)
  {
    StableAtRun(p, signups);
    forall w | w in signups && w.state.Waitlisted? ensures NoRoomAtRun(p, w.requested, signups) {
      ConfirmedTakerMeansNoWaiter(p, team, signups, candidates, key, w);
      forall b | b in Prioritized(p, w.requested) ensures !HoldsNoPreference(b, signups) {
        NobodyToBump(p, team, signups, candidates, key, w, b);
      }
    }
  }

  lemma NobodyToBump(p: Policy, team: set<Profile>, signups: seq<Signup>, candidates: seq<Signup>,
                     key: Option<Key>, w: Signup, b: Bucket)
    requires p.Valid() && VacancyOpen(p, team, signups, candidates, key)
    requires Takers(p, candidates, p.BucketWithKey(key).value) == []
    requires w in signups && w.state.Waitlisted? && b in Prioritized(p, w.requested) && Some(b.key) != key
    ensures !HoldsNoPreference(b, signups)
  {
    var v := p.BucketWithKey(key).value;
    PrioritizedInPolicy(p, w.requested, b);
    forall n | n in signups && n.counted && n.NoPreference() ensures !n.ConfirmedIn(b.key) {
      assert n in Takers(p, candidates, v) <==> n in candidates && CanTake(p, n, v);
      if n in candidates {
        NoPreferenceCanTake(p, team, n, b, v);
      } else {
        assert OutOfReach(p, signups, n);
      }
    }
  }

  /** Promoting a waiting signup into the vacancy leaves the others without room. */
  lemma PromotionIsStable(p: Policy, team: set<Profile>, signups: seq<Signup>, candidates: seq<Signup>,
                          key: Option<Key>, s: Signup)
    requires p.Valid() && VacancyOpen(p, team, signups, candidates, key)
    requires s in candidates && s.state.Waitlisted?
    ensures Stable(p, signups[s.id := Seat(s, p.BucketWithKey(key).value)])
  {
    var v := p.BucketWithKey(key).value;
    var seat := Seat(s, v);
    var after := signups[s.id := seat];
    StableAtRun(p, after);
    CountsAfterSeat(p, signups, s, v);
    assert s in signups;
    forall w | w in after && w.state.Waitlisted? ensures NoRoomAtRun(p, w.requested, after) {
      assert w in signups;
      PromotionShutsOut(p, signups, candidates, key, s, v, w);
    }
  }

  lemma PromotionShutsOut(p: Policy, signups: seq<Signup>, candidates: seq<Signup>, key: Option<Key>,
                          s: Signup, v: Bucket, w: Signup)
    requires s.id < |signups| && signups[s.id] == s && s.state.Waitlisted? && v.Counted()
    requires key == Some(v.key) && WaitersShutOut(p, signups, candidates, key) && NothingToBump(p, signups, key)
    requires w in signups && w.state.Waitlisted?
    ensures NoRoomAtRun(p, w.requested, signups[s.id := Seat(s, v)])
  {
    var after := signups[s.id := Seat(s, v)];
    CountsAfterSeat(p, signups, s, v);
    if forall c :: c in p.buckets && c.CountedLimited() ==> CountBack(c, signups, key) >= c.totalSlots {
    } else {
      assert s in signups;
      forall n | n in after && n.counted && n.NoPreference() ensures OutOfReach(p, signups, n) {
        assert n != Seat(s, v);
        assert n in signups;
      }
    }
  }

  lemma CountsAfterSeat(p: Policy, signups: seq<Signup>, s: Signup, v: Bucket)
    requires s.id < |signups| && signups[s.id] == s && v.Counted()
    ensures forall k :: Count(signups[s.id := Seat(s, v)], CountedIn(k)) ==
                        Count(signups, CountedIn(k)) + (if k == v.key then 1 else 0)
                        - (if s.ConfirmedIn(k) && s.counted then 1 else 0)
  {
    forall k ensures Count(signups[s.id := Seat(s, v)], CountedIn(k)) ==
                     Count(signups, CountedIn(k)) + (if k == v.key then 1 else 0)
                     - (if s.ConfirmedIn(k) && s.counted then 1 else 0)
    {
      CountUpdate(signups, s.id, Seat(s, v), CountedIn(k));
    }
  }

  /** What handing on a vacancy does to no-preference signups out of reach of the waitlist. */
  lemma StillOutOfReach(p: Policy, signups: seq<Signup>, s: Signup, v: Bucket)
    requires s.id < |signups| && signups[s.id] == s && s.state.Confirmed?
    requires forall w, b :: w in signups && w.state.Waitlisted? && b in Prioritized(p, w.requested) ==>
               b.key != v.key
    ensures var after := signups[s.id := Seat(s, v)];
            OutOfReach(p, after, Seat(s, v)) &&
            (forall n :: n in after && n != Seat(s, v) ==> n in signups) &&
            (forall w :: w in after && w.state.Waitlisted? ==> w in signups) &&
            forall n :: OutOfReach(p, signups, n) ==> OutOfReach(p, after, n)
  {
  }

  /** Moving a confirmed signup hands the vacancy on. */
  lemma VacancyHandedOn(p: Policy, team: set<Profile>, signups: seq<Signup>, candidates: seq<Signup>, key: Option<Key>)
    requires p.Valid() && VacancyOpen(p, team, signups, candidates, key)
    requires Takers(p, candidates, p.BucketWithKey(key).value) != []
    requires Takers(p, candidates, p.BucketWithKey(key).value)[0].state.Confirmed?
    ensures var v := p.BucketWithKey(key).value;
            var s := Takers(p, candidates, v)[0];
            s.id < |signups| &&
            VacancyOpen(p, team, signups[s.id := Seat(s, v)], Without(candidates, s.id), s.bucketKey)
  {
    var v := p.BucketWithKey(key).value;
    var s := Takers(p, candidates, v)[0];
    FirstLink(p, signups, candidates, key);
    assert s in signups;
    FilterSorted(candidates, PriorityRank, (c: Signup) => c.id != s.id);
    forall w | w in signups && w.state.Waitlisted?
      ensures forall b :: b in Prioritized(p, w.requested) ==> Some(b.key) != key
    {
      ConfirmedTakerMeansNoWaiter(p, team, signups, candidates, key, w);
    }
    StillOutOfReach(p, signups, s, v);
    BackAfterSeat(p, signups, s, v);
    WaitersStayShutOut(p, signups, candidates, key, s, v);
    StillNothingToBump(p, signups, candidates, key, s, v);
    SeatedShape(p, team, signups, s, v);
  }

  lemma SeatedShape(p: Policy, team: set<Profile>, signups: seq<Signup>, s: Signup, v: Bucket)
    requires p.Valid() && v in p.buckets && Shaped(p, team, signups)
    requires s.id < |signups| && signups[s.id] == s && s.profile !in team
    ensures Shaped(p, team, signups[s.id := Seat(s, v)])
  {
    LookupFinds(p, v);
    forall x | x in signups[s.id := Seat(s, v)] ensures ShapedRow(p, team, x) {
      assert x == Seat(s, v) || x in signups;
    }
  }

  lemma WaitersStayShutOut(p: Policy, signups: seq<Signup>, candidates: seq<Signup>, key: Option<Key>,
                           s: Signup, v: Bucket)
    requires s.id < |signups| && signups[s.id] == s && s.state.Confirmed?
    requires WaitersShutOut(p, signups, candidates, key)
    requires forall b: Bucket :: CountBack(b, signups, key) <= CountBack(b, signups[s.id := Seat(s, v)], s.bucketKey)
    requires forall c :: c in Without(candidates, s.id) <==> c in candidates && c.id != s.id
    requires Located(candidates, signups)
    ensures WaitersShutOut(p, signups[s.id := Seat(s, v)], Without(candidates, s.id), s.bucketKey)
  {
    var after := signups[s.id := Seat(s, v)];
    forall w | w in after && w.state.Waitlisted?
      ensures w in signups && w in Without(candidates, s.id)
    {
      assert w != Seat(s, v) && w in signups;
    }
  }

  lemma StillNothingToBump(p: Policy, signups: seq<Signup>, candidates: seq<Signup>, key: Option<Key>,
                           s: Signup, v: Bucket)
    requires s.id < |signups| && signups[s.id] == s && s.state.Confirmed?
    requires MovedOutOfReach(p, signups, candidates) && NothingToBump(p, signups, key)
    requires forall b: Bucket :: CountBack(b, signups, key) <= CountBack(b, signups[s.id := Seat(s, v)], s.bucketKey)
    requires forall c :: c in Without(candidates, s.id) <==> c in candidates && c.id != s.id
    requires forall w, b :: w in signups && w.state.Waitlisted? && b in Prioritized(p, w.requested) ==>
               b.key != v.key
    requires Located(candidates, signups) && Numbered(signups)
    ensures MovedOutOfReach(p, signups[s.id := Seat(s, v)], Without(candidates, s.id))
    ensures NothingToBump(p, signups[s.id := Seat(s, v)], s.bucketKey)
  {
    var after := signups[s.id := Seat(s, v)];
    StillOutOfReach(p, signups, s, v);
    forall n | n in after && n.counted && n.NoPreference() && n !in Without(candidates, s.id)
      ensures OutOfReach(p, after, n)
    {
      if n != Seat(s, v) {
        var j :| 0 <= j < |after| && after[j] == n;
        assert n.id == j && j != s.id;
        assert n !in candidates;
        assert OutOfReach(p, signups, n);
      }
    }
    if forall c :: c in p.buckets && c.CountedLimited() ==> CountBack(c, signups, key) >= c.totalSlots {
    } else {
      forall n | n in after && n.counted && n.NoPreference() ensures OutOfReach(p, after, n) {
        if n != Seat(s, v) {
          assert OutOfReach(p, signups, n);
        }
      }
    }
  }


  lemma BackAfterSeat(p: Policy, signups: seq<Signup>, s: Signup, v: Bucket)
    requires p.Valid() && v in p.buckets && v.Counted() && s.id < |signups| && signups[s.id] == s
    requires s.state.Confirmed?
    ensures forall b: Bucket :: CountBack(b, signups, Some(v.key)) <= CountBack(b, signups[s.id := Seat(s, v)], s.bucketKey)
  {
    CountsAfterSeat(p, signups, s, v);
  }

  /** From an open vacancy, a chain that completes leaves nobody waiting who could be placed. */
  lemma {:induction false} FillStabilises(p: Policy, team: set<Profile>, signups: seq<Signup>,
                                          candidates: seq<Signup>, key: Option<Key>)
    requires p.Valid() && VacancyOpen(p, team, signups, candidates, key)
    requires Fill(p, signups, candidates, key).Done?
    ensures Stable(p, Fill(p, signups, candidates, key).signups)
    decreases |candidates|
  {
    var v := p.BucketWithKey(key).value;
    var takers := Takers(p, candidates, v);
    if takers == [] {
      NoTakerIsStable(p, team, signups, candidates, key);
    } else {
      FirstLink(p, signups, candidates, key);
      var s := takers[0];
      if s.state.Confirmed? {
        VacancyHandedOn(p, team, signups, candidates, key);
        FillStabilises(p, team, signups[s.id := Seat(s, v)], Without(candidates, s.id), s.bucketKey);
      } else {
        PromotionIsStable(p, team, signups, candidates, key, s);
      }
    }
  }

  // ------------------------------------------------- the memoised order is the order re-sorted

  /** The chain that sorts the signups still to be moved anew at every link. */
  function FillResorting(p: Policy, signups: seq<Signup>, team: set<Profile>, moved: set<nat>,
                         key: Option<Key>): Outcome
    requires Numbered(signups)
    decreases |Unmoved(AllOrdered(signups, team), moved)|
  {
    OrderedIsLocated(signups, team, moved);
    var candidates := Unmoved(AllOrdered(signups, team), moved);
    match p.BucketWithKey(key)
    case None => if candidates == [] then Done(signups, []) else Raised
    case Some(b) =>
      var takers := Takers(p, candidates, b);
      if takers == [] then Done(signups, [])
      else
        var s := takers[0];
        TakerIsCandidate(p, candidates, b, s);
        var seated := Seat(s, b);
        if !SavesCleanly(p, seated) then Raised
        else
          var move := Move(s.id, s.state, s.bucketKey, b.key);
          var after := signups[s.id := seated];
          if !s.state.Confirmed? then Done(after, [move])
          else
            ResortedWithout(signups, team, moved, s, seated);
            match FillResorting(p, after, team, moved + {s.id}, s.bucketKey)
            case Raised => Raised
            case Done(rest, moves) => Done(rest, [move] + moves)
  }

  /** Re-sorting after a move gives the previous order without the mover. */
  lemma ResortedWithout(signups: seq<Signup>, team: set<Profile>, moved: set<nat>, s: Signup, seated: Signup)
    requires Numbered(signups) && s in signups && seated.id == s.id
    ensures Unmoved(AllOrdered(signups[s.id := seated], team), moved + {s.id})
            == Without(Unmoved(AllOrdered(signups, team), moved), s.id)
  {
    var after := signups[s.id := seated];
    var active := (x: Signup) => !x.state.Withdrawn? && x.profile !in team;
    var unmoved := (x: Signup) => x.id !in moved;
    var still := (x: Signup) => x.id !in moved + {s.id};
    var other := (x: Signup) => x.id != s.id;
    var both := (x: Signup) => active(x) && still(x);
    FilterFuse(AllOrdered(signups, team), unmoved, other, still);
    SortFilter(Active(signups, team), PriorityRank, still);
    SortFilter(Active(after, team), PriorityRank, still);
    FilterFuse(signups, active, still, both);
    FilterFuse(after, active, still, both);
    FilterAgree(signups, after, both);
  }

  /** Sorting once before the chain and sorting at every link give the same chain. */
  lemma {:induction false} MemoisedOrderAgrees(p: Policy, signups: seq<Signup>, team: set<Profile>,
                                               moved: set<nat>, key: Option<Key>)
    requires Numbered(signups) && Located(Unmoved(AllOrdered(signups, team), moved), signups)
    ensures FillResorting(p, signups, team, moved, key)
            == Fill(p, signups, Unmoved(AllOrdered(signups, team), moved), key)
    decreases |Unmoved(AllOrdered(signups, team), moved)|
  {
    var candidates := Unmoved(AllOrdered(signups, team), moved);
    var b := p.BucketWithKey(key);
    if b.Some? && Takers(p, candidates, b.value) != [] {
      FirstLink(p, signups, candidates, key);
      var s := Takers(p, candidates, b.value)[0];
      if s.state.Confirmed? && SavesCleanly(p, Seat(s, b.value)) {
        ResortedWithout(signups, team, moved, s, Seat(s, b.value));
        MemoisedOrderAgrees(p, signups[s.id := Seat(s, b.value)], team, moved + {s.id}, s.bucketKey);
      }
    }
  }
}
