/** What filling a vacancy means for the people in the run: who is moved before whom, and that
    nobody loses the bucket they asked for. */
module VacancyFairness {
  import opened Sorting
  import opened Registration
  import opened Allocation
  import opened VacancyFill
  import opened VacancyChain
  import opened VacancyInvariants
  import opened Vacating

  /** In a linked chain only the last move can be a promotion. */
  lemma {:induction false} PromotionIsLast(key: Option<Key>, moves: seq<Move>, j: nat)
    requires Linked(key, moves) && j < |moves| && !moves[j].prevState.Confirmed?
    ensures j == |moves| - 1
    decreases |moves|
  {
    if j > 0 {
      PromotionIsLast(moves[0].prevBucket, moves[1..], j - 1);
    }
  }

  /**
   * At every link of the chain, whoever could take the vacancy and was not moved before is not
   * passed over: the mover goes before them. If they wait, the mover waited too, at least as long,
   * and that promotion ends the chain.
   */
  lemma VacancyFair(p: Policy, signups: seq<Signup>, team: set<Profile>, immovable: set<nat>,
                    key: Option<Key>, j: nat, c: Signup)
    requires Numbered(signups) && FillVacancy(p, signups, team, immovable, key).Done?
    requires j < |FillVacancy(p, signups, team, immovable, key).moves|
    requires c in signups && !c.state.Withdrawn? && c.profile !in team && c.id !in immovable
    requires Wants(p, c, FillVacancy(p, signups, team, immovable, key).moves[j].toBucket)
    requires !Named(FillVacancy(p, signups, team, immovable, key).moves[..j], c.id)
    ensures var moves := FillVacancy(p, signups, team, immovable, key).moves;
            moves[j].id < |signups| &&
            var mover := signups[moves[j].id];
            GoesBefore(mover, c) &&
            (c.state.Waitlisted? ==>
               mover.state.Waitlisted? && mover.createdAt <= c.createdAt && j == |moves| - 1)
  {
    var candidates := Unmoved(AllOrdered(signups, team), immovable);
    OrderedIsLocated(signups, team, immovable);
    CandidatesSorted(signups, team, immovable);
    FillFair(p, signups, candidates, key, j, c);
    FillMoves(p, signups, candidates, key);
    var Done(after, moves) := Fill(p, signups, candidates, key);
    assert moves[j] in moves;
    assert TrueMove(moves[j], signups, candidates, after);
    if !moves[j].prevState.Confirmed? {
      PromotionIsLast(key, moves, j);
    }
  }

  /** A chain that stops without a promotion leaves open only a vacancy that is nothing for anybody in
      the run it did not move; and whoever it moved went where there was something for them. */
  lemma VacancyExhausts(p: Policy, signups: seq<Signup>, team: set<Profile>, immovable: set<nat>, key: Option<Key>, c: Signup)
    requires Numbered(signups) && FillVacancy(p, signups, team, immovable, key).Done?
    requires p.BucketWithKey(key).value.slotsLimited
    requires c in signups && !c.state.Withdrawn? && c.profile !in team && c.id !in immovable
    ensures var moves := FillVacancy(p, signups, team, immovable, key).moves;
            (!EndsInPromotion(moves) && OpenKey(key, moves).Some? && !Named(moves, c.id) ==>
               !Wants(p, c, OpenKey(key, moves).value)) &&
            forall m :: m in moves && m.id == c.id ==> Wants(p, c, m.toBucket)
  {
    var candidates := Unmoved(AllOrdered(signups, team), immovable);
    OrderedIsLocated(signups, team, immovable);
    FillWanted(p, signups, candidates, key);
    var moves := Fill(p, signups, candidates, key).moves;
    if !EndsInPromotion(moves) && OpenKey(key, moves).Some? && !Named(moves, c.id) {
      FillExhausts(p, signups, candidates, key, c);
    }
  }

  predicate HasRequested(s: Signup) {
    s.state.Confirmed? && s.requested.Some? && s.bucketKey == s.requested
  }

  function Satisfied(signups: seq<Signup>): nat {
    if signups == [] then 0
    else Satisfied(signups[..|signups| - 1]) + (if HasRequested(signups[|signups| - 1]) then 1 else 0)
  }

  lemma {:induction false} SatisfiedGrows(before: seq<Signup>, after: seq<Signup>)
    requires |before| == |after|
    requires forall i :: 0 <= i < |before| && HasRequested(before[i]) ==> HasRequested(after[i])
    ensures Satisfied(before) <= Satisfied(after)
  {
    if before != [] {
      var n := |before| - 1;
      SatisfiedGrows(before[..n], after[..n]);
    }
  }

  /** The number of signups in the bucket they asked for never drops. */
  lemma VacancySatisfies(p: Policy, signups: seq<Signup>, team: set<Profile>, immovable: set<nat>, key: Option<Key>)
    requires p.Valid() && Shaped(p, team, signups) && Preferring(p, signups)
    requires p.BucketWithKey(key).Some? && p.BucketWithKey(key).value.Counted()
    requires FillVacancy(p, signups, team, immovable, key).Done?
    ensures Satisfied(FillVacancy(p, signups, team, immovable, key).signups) >= Satisfied(signups)
  {
    VacancyKeepsPreferences(p, team, signups, immovable, key);
    SatisfiedGrows(signups, FillVacancy(p, signups, team, immovable, key).signups);
  }

  /** Nobody is withdrawn or loses a confirmed signup by a chain, and it promotes at most one. */
  lemma VacancyHarmsNobody(p: Policy, signups: seq<Signup>, team: set<Profile>, immovable: set<nat>, key: Option<Key>)
    requires Numbered(signups) && FillVacancy(p, signups, team, immovable, key).Done?
    ensures var r := FillVacancy(p, signups, team, immovable, key);
            |r.signups| == |signups| &&
            (forall i :: 0 <= i < |signups| ==>
               r.signups[i] == signups[i] ||
               (r.signups[i].state.Confirmed? && !signups[i].state.Withdrawn? &&
                signups[i].profile !in team && i !in immovable)) &&
            Count(r.signups, AnyConfirmed) == Count(signups, AnyConfirmed) + (if EndsInPromotion(r.moves) then 1 else 0)
  {
    if p.BucketWithKey(key).value.slotsLimited {
      var candidates := Unmoved(AllOrdered(signups, team), immovable);
      OrderedIsLocated(signups, team, immovable);
      FillMoves(p, signups, candidates, key);
      FillConfirms(p, signups, candidates, key);
      var Done(after, moves) := Fill(p, signups, candidates, key);
      forall i | 0 <= i < |signups| && after[i] != signups[i]
        ensures after[i].state.Confirmed? && signups[i] in candidates
      {
        var m :| m in moves && m.id == i;
        assert TrueMove(m, signups, candidates, after);
      }
    }
  }

  /** What a withdrawal does: the one signup is withdrawn, nobody else is, nobody else loses a
      confirmed signup, and at most one is promoted, only for a counted confirmed one that left. */
  lemma WithdrawingHarmsNobody(p: Policy, team: set<Profile>, signups: seq<Signup>, i: nat)
    requires Numbered(signups) && i < |signups| && Withdraw(p, team, signups, i).Done?
    ensures var r := Withdraw(p, team, signups, i);
            |r.signups| == |signups| &&
            r.signups[i] == signups[i].(state := Withdrawn, bucketKey := None, counted := false) &&
            (forall j :: 0 <= j < |signups| && j != i && r.signups[j] != signups[j] ==>
               r.signups[j].state.Confirmed? && !signups[j].state.Withdrawn? &&
               signups[i].counted && signups[i].state.Confirmed?) &&
            Count(r.signups, AnyConfirmed) ==
            Count(signups, AnyConfirmed) - (if signups[i].state.Confirmed? then 1 else 0) +
            (if EndsInPromotion(r.moves) then 1 else 0)
  {
    var s := signups[i];
    var vacated := signups[i := Withdrawal(s)];
    CountUpdate(signups, i, Withdrawal(s), AnyConfirmed);
    if Withdraw(p, team, signups, i) != Done(vacated, []) {
      VacancyHarmsNobody(p, vacated, team, {}, s.bucketKey);
    }
  }

  /** The same for a signup that becomes a team member's. */
  lemma ConvertingHarmsNobody(p: Policy, team: set<Profile>, signups: seq<Signup>, i: nat)
    requires Numbered(signups) && i < |signups| && signups[i].profile in team && Convert(p, team, signups, i).Done?
    ensures var r := Convert(p, team, signups, i);
            |r.signups| == |signups| &&
            r.signups[i] == signups[i].(state := Confirmed, bucketKey := None, counted := false) &&
            (forall j :: 0 <= j < |signups| && j != i && r.signups[j] != signups[j] ==>
               r.signups[j].state.Confirmed? && !signups[j].state.Withdrawn? &&
               signups[i].counted && signups[i].state.Confirmed?) &&
            Count(r.signups, AnyConfirmed) ==
            Count(signups, AnyConfirmed) + (if signups[i].state.Confirmed? then 0 else 1) +
            (if EndsInPromotion(r.moves) then 1 else 0)
  {
    var s := signups[i];
    var vacated := signups[i := Conversion(s)];
    CountUpdate(signups, i, Conversion(s), AnyConfirmed);
    if s.counted && s.state.Confirmed? {
      VacancyHarmsNobody(p, vacated, team, {}, s.bucketKey);
    }
  }

  /** A slot given up in an over-full bucket, or in one without a limit, is not filled again. */
  lemma OverfullShrinks(p: Policy, team: set<Profile>, signups: seq<Signup>, i: nat, b: Bucket)
    requires p.Valid() && Numbered(signups) && i < |signups| && b in p.buckets && signups[i].ConfirmedIn(b.key)
    requires !b.slotsLimited || Count(signups, InBucket(b.key)) > b.totalSlots
    ensures var left := signups[i := signups[i].(state := Withdrawn, bucketKey := None, counted := false)];
            Withdraw(p, team, signups, i) == Done(left, []) &&
            Count(left, InBucket(b.key)) == Count(signups, InBucket(b.key)) - 1
  {
    LookupFinds(p, b);
    CountUpdate(signups, i, Withdrawal(signups[i]), InBucket(b.key));
  }

  /** Otherwise a counted slot given up is filled if it is something for anybody in the run. So is one
      given up by a new team member, and that even in an over-full bucket. */
  lemma {:induction false} SlotsAreFilled(p: Policy, team: set<Profile>, signups: seq<Signup>, i: nat, b: Bucket, c: Signup)
    requires p.Valid() && Numbered(signups) && i < |signups| && b in p.buckets && b.slotsLimited
    requires signups[i].ConfirmedIn(b.key) && signups[i].counted
    requires c in signups && c.id != i && !c.state.Withdrawn? && c.profile !in team && Wants(p, c, b.key)
    ensures Count(signups, InBucket(b.key)) <= b.totalSlots && Withdraw(p, team, signups, i).Done? ==>
              Withdraw(p, team, signups, i).moves != []
    ensures Convert(p, team, signups, i).Done? ==> Convert(p, team, signups, i).moves != []
  {
    LookupFinds(p, b);
    CountUpdate(signups, i, Withdrawal(signups[i]), InBucket(b.key));
    var left, converted := signups[i := Withdrawal(signups[i])], signups[i := Conversion(signups[i])];
    var j :| 0 <= j < |signups| && signups[j] == c;
    assert left[j] == c && converted[j] == c;
    if FillVacancy(p, left, team, {}, Some(b.key)).Done? {
      VacancyExhausts(p, left, team, {}, Some(b.key), c);
    }
    if FillVacancy(p, converted, team, {}, Some(b.key)).Done? {
      VacancyExhausts(p, converted, team, {}, Some(b.key), c);
    }
  }
}
