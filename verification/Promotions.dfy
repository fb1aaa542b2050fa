/** Who a chain of moves will move, told from the rows before the call; and so when withdrawing or
    becoming a team member raises. */
module Promotions {
  import opened Sorting
  import opened Registration
  import opened Allocation
  import opened VacancyFill
  import opened VacancyChain
  import opened Vacating

  /** The best taker of the vacancy and, if it is confirmed, of the one it leaves, and so on. */
  function Movers(p: Policy, candidates: seq<Signup>, key: Option<Key>): (movers: seq<Signup>)
    ensures forall m :: m in movers ==> m in candidates
    decreases |candidates|
  {
    match p.BucketWithKey(key)
    case None => []
    case Some(b) =>
      var takers := Takers(p, candidates, b);
      if takers == [] then []
      else
        TakerIsCandidate(p, candidates, b, takers[0]);
        [takers[0]] +
        if takers[0].state.Confirmed? then Movers(p, Without(candidates, takers[0].id), takers[0].bucketKey) else []
  }

  /** The waiting signup that ends a list of movers, if that is how it ends. */
  function LastWaiting(movers: seq<Signup>): (s: Option<Signup>)
    ensures s.Some? ==> s.value in movers && !s.value.state.Confirmed?
  {
    if movers == [] || movers[|movers| - 1].state.Confirmed? then None else Some(movers[|movers| - 1])
  }

  /** Who will be promoted from the waitlist. */
  function Promotee(p: Policy, candidates: seq<Signup>, key: Option<Key>): Option<Signup> {
    LastWaiting(Movers(p, candidates, key))
  }

  /** Each move is of the signup that stands in its place. */
  ghost predicate MovesOf(moves: seq<Move>, movers: seq<Signup>) {
    |moves| == |movers| &&
    forall k :: 0 <= k < |movers| ==> moves[k].id == movers[k].id && moves[k].prevState == movers[k].state
  }

  lemma MovesOfCons(m: Move, moves: seq<Move>, s: Signup, movers: seq<Signup>)
    requires MovesOf(moves, movers) && m.id == s.id && m.prevState == s.state
    ensures MovesOf([m] + moves, [s] + movers)
  {}

  /** A chain that completes moves exactly these, in this order. */
  lemma {:induction false} FillMovers(p: Policy, signups: seq<Signup>, candidates: seq<Signup>, key: Option<Key>)
    requires Located(candidates, signups) && Fill(p, signups, candidates, key).Done?
    ensures MovesOf(Fill(p, signups, candidates, key).moves, Movers(p, candidates, key))
    decreases |candidates|
  {
    var b := p.BucketWithKey(key);
    if b.Some? && Takers(p, candidates, b.value) != [] {
      FirstLink(p, signups, candidates, key);
      var s := Takers(p, candidates, b.value)[0];
      var move := Move(s.id, s.state, s.bucketKey, b.value.key);
      if s.state.Confirmed? {
        var seated, rest := signups[s.id := Seat(s, b.value)], Without(candidates, s.id);
        FillMovers(p, seated, rest, s.bucketKey);
        MovesOfCons(move, Fill(p, seated, rest, s.bucketKey).moves, s, Movers(p, rest, s.bucketKey));
      }
    }
  }

  /** All movers but the last are confirmed. */
  lemma {:induction false} OnlyLastWaits(p: Policy, candidates: seq<Signup>, key: Option<Key>, k: nat)
    requires k < |Movers(p, candidates, key)| && !Movers(p, candidates, key)[k].state.Confirmed?
    ensures k == |Movers(p, candidates, key)| - 1
    decreases |candidates|
  {
    var b := p.BucketWithKey(key).value;
    var s := Takers(p, candidates, b)[0];
    assert s in Takers(p, candidates, b);
    TakerIsCandidate(p, candidates, b, s);
    if s.state.Confirmed? {
      OnlyLastWaits(p, Without(candidates, s.id), s.bucketKey, k - 1);
    }
  }

  lemma NamedMover(signups: seq<Signup>, candidates: seq<Signup>, moves: seq<Move>, movers: seq<Signup>, i: nat)
    returns (k: nat)
    requires Located(candidates, signups) && MovesOf(moves, movers) && Named(moves, i)
    requires forall s :: s in movers ==> s in candidates
    ensures i < |signups| && k < |movers| && movers[k] == signups[i]
  {
    var m :| m in moves && m.id == i;
    k :| 0 <= k < |moves| && moves[k] == m;
    assert movers[k] in candidates;
  }

  lemma {:induction false} ConfirmedIsPromotee(p: Policy, signups: seq<Signup>, candidates: seq<Signup>, key: Option<Key>, i: nat)
    requires Located(candidates, signups) && Fill(p, signups, candidates, key).Done? && Numbered(signups)
    requires i < |signups| && signups[i].state.Waitlisted? && Fill(p, signups, candidates, key).signups[i].state.Confirmed?
    ensures Promotee(p, candidates, key) == Some(signups[i])
  {
    FillMoves(p, signups, candidates, key);
    FillMovers(p, signups, candidates, key);
    var k := NamedMover(signups, candidates, Fill(p, signups, candidates, key).moves, Movers(p, candidates, key), i);
    OnlyLastWaits(p, candidates, key, k);
  }

  /** Of those who wait, a chain confirms exactly the promotee. */
  lemma PromoteeIsConfirmed(p: Policy, signups: seq<Signup>, candidates: seq<Signup>, key: Option<Key>, i: nat)
    requires Located(candidates, signups) && Fill(p, signups, candidates, key).Done? && Numbered(signups)
    requires i < |signups| && signups[i].state.Waitlisted?
    ensures Fill(p, signups, candidates, key).signups[i].state.Confirmed? <==>
            Promotee(p, candidates, key) == Some(signups[i])
  {
    var r := Fill(p, signups, candidates, key);
    if r.signups[i].state.Confirmed? {
      ConfirmedIsPromotee(p, signups, candidates, key, i);
    }
    if Promotee(p, candidates, key) == Some(signups[i]) {
      FillMoves(p, signups, candidates, key);
      FillMovers(p, signups, candidates, key);
      var k := |r.moves| - 1;
      assert r.moves[k] in r.moves && TrueMove(r.moves[k], signups, candidates, r.signups);
    }
  }

  // -------------------------------------------------------------------------- when a chain raises

  /** The request names a bucket the policy does not have. */
  predicate StaleRequest(p: Policy, s: Signup) {
    s.requested.Some? && p.BucketWithKey(s.requested).None?
  }

  /** In a run whose rows are sound, a chain raises exactly when it would move a stale request. */
  lemma {:induction false} FillRaises(p: Policy, team: set<Profile>, signups: seq<Signup>,
                                      candidates: seq<Signup>, key: Option<Key>)
    requires p.Valid() && Located(candidates, signups)
    requires p.BucketWithKey(key).Some? && p.BucketWithKey(key).value.CountedLimited()
    requires forall c :: c in candidates ==> SoundRow(p, team, c) && c.profile !in team
    ensures Fill(p, signups, candidates, key).Raised? <==>
            exists m :: m in Movers(p, candidates, key) && StaleRequest(p, m)
    decreases |candidates|
  {
    var b := p.BucketWithKey(key).value;
    LookupFinds(p, b);
    if Takers(p, candidates, b) != [] {
      var s := Takers(p, candidates, b)[0];
      assert s in Takers(p, candidates, b);
      TakerIsCandidate(p, candidates, b, s);
      assert SavesCleanly(p, Seat(s, b)) <==> !StaleRequest(p, s);
      assert s in Movers(p, candidates, key);
      if s.state.Confirmed? {
        var rest := Without(candidates, s.id);
        FillRaises(p, team, signups[s.id := Seat(s, b)], rest, s.bucketKey);
        assert forall m :: m in Movers(p, candidates, key) <==> m == s || m in Movers(p, rest, s.bucketKey);
      }
    }
  }

  /** The bucket of the vacancy is one that is filled. */
  predicate Fills(p: Policy, key: Option<Key>) {
    p.BucketWithKey(key).Some? && p.BucketWithKey(key).value.slotsLimited
  }

  function CandidatesIn(signups: seq<Signup>, team: set<Profile>): seq<Signup> {
    Unmoved(AllOrdered(signups, team), {})
  }

  /** Who will move when row `i` withdraws. */
  function WithdrawMovers(p: Policy, team: set<Profile>, signups: seq<Signup>, i: nat): seq<Signup>
    requires i < |signups|
  {
    var s, left := signups[i], signups[i := Withdrawal(signups[i])];
    if s.counted && s.state.Confirmed? && Fills(p, s.bucketKey) && !p.BucketWithKey(s.bucketKey).value.Full(left) then
      Movers(p, CandidatesIn(left, team), s.bucketKey)
    else []
  }

  /** Who will move when row `i` becomes a team member's; `team` already holds the new member. */
  function ConvertMovers(p: Policy, team: set<Profile>, signups: seq<Signup>, i: nat): seq<Signup>
    requires i < |signups|
  {
    var s, left := signups[i], signups[i := Conversion(signups[i])];
    if s.counted && s.state.Confirmed? && Fills(p, s.bucketKey) then Movers(p, CandidatesIn(left, team), s.bucketKey)
    else []
  }

  /** The candidates are sound rows of the run before the slot was given up. */
  lemma SoundCandidates(p: Policy, team: set<Profile>, signups: seq<Signup>, i: nat, x: Signup)
    requires Sound(p, team, signups) && i < |signups| && x.id == i && (x.state.Withdrawn? || x.profile in team)
    ensures var left := signups[i := x];
            Numbered(left) && Located(CandidatesIn(left, team), left) &&
            forall c :: c in CandidatesIn(left, team) ==> c in signups && c in left && SoundRow(p, team, c) && c.profile !in team
  {
    var left := signups[i := x];
    OrderedIsLocated(left, team, {});
    forall c | c in CandidatesIn(left, team) ensures c in signups {
      assert c == x || c in signups;
    }
  }

  /**
   * A withdrawal raises exactly when it would move a signup whose request names a bucket the policy
   * does not have.
   */
  lemma WithdrawRaises(p: Policy, team: set<Profile>, signups: seq<Signup>, i: nat)
    requires p.Valid() && Sound(p, team, signups) && i < |signups|
    ensures Withdraw(p, team, signups, i).Raised? <==>
            exists m :: m in WithdrawMovers(p, team, signups, i) && StaleRequest(p, m)
  {
    var s := signups[i];
    assert s in signups;
    var left := signups[i := Withdrawal(s)];
    SoundCandidates(p, team, signups, i, Withdrawal(s));
    if s.counted && s.state.Confirmed? && Fills(p, s.bucketKey) {
      FillRaises(p, team, left, CandidatesIn(left, team), s.bucketKey);
    }
  }

  /** The same for a signup that becomes a team member's. */
  lemma ConvertRaises(p: Policy, team: set<Profile>, signups: seq<Signup>, i: nat)
    requires p.Valid() && Sound(p, team, signups) && i < |signups| && signups[i].profile in team
    ensures Convert(p, team, signups, i).Raised? <==>
            exists m :: m in ConvertMovers(p, team, signups, i) && StaleRequest(p, m)
  {
    var s := signups[i];
    assert s in signups;
    var left := signups[i := Conversion(s)];
    SoundCandidates(p, team, signups, i, Conversion(s));
    if s.counted && s.state.Confirmed? && Fills(p, s.bucketKey) {
      FillRaises(p, team, left, CandidatesIn(left, team), s.bucketKey);
    }
  }

  /** A counted slot given up where the policy has no such bucket makes either raise. */
  lemma MissingBucketRaises(p: Policy, team: set<Profile>, signups: seq<Signup>, i: nat)
    requires Numbered(signups) && i < |signups| && signups[i].counted && signups[i].state.Confirmed?
    requires forall b :: b in p.buckets ==> signups[i].bucketKey != Some(b.key)
    ensures Withdraw(p, team, signups, i).Raised? && Convert(p, team, signups, i).Raised?
  {
    var found := p.BucketWithKey(signups[i].bucketKey);
    assert found.Some? ==> found.value in p.buckets && signups[i].bucketKey == Some(found.value.key);
  }

  lemma MoversAreActive(p: Policy, team: set<Profile>, signups: seq<Signup>, i: nat, x: Signup, m: Signup)
    requires Sound(p, team, signups) && i < |signups| && x.id == i && (x.state.Withdrawn? || x.profile in team)
    requires m in Movers(p, CandidatesIn(signups[i := x], team), signups[i].bucketKey)
    ensures m in signups && !m.state.Withdrawn?
  {
    SoundCandidates(p, team, signups, i, x);
    OrderedIsLocated(signups[i := x], team, {});
  }

  /** Neither raises while no active signup asks for a bucket the policy does not have. */
  lemma NoStaleNoRaise(p: Policy, team: set<Profile>, signups: seq<Signup>, i: nat)
    requires p.Valid() && Sound(p, team, signups) && i < |signups|
    requires forall s :: s in signups && !s.state.Withdrawn? ==> !StaleRequest(p, s)
    ensures Withdraw(p, team, signups, i).Done?
    ensures signups[i].profile in team ==> Convert(p, team, signups, i).Done?
  {
    WithdrawRaises(p, team, signups, i);
    forall m | m in WithdrawMovers(p, team, signups, i) ensures !StaleRequest(p, m) {
      MoversAreActive(p, team, signups, i, Withdrawal(signups[i]), m);
    }
    if signups[i].profile in team {
      ConvertRaises(p, team, signups, i);
      forall m | m in ConvertMovers(p, team, signups, i) ensures !StaleRequest(p, m) {
        MoversAreActive(p, team, signups, i, Conversion(signups[i]), m);
      }
    }
  }
}
