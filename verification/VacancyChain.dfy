/** What one vacancy-filling chain does: order, fairness, conservation. */
module VacancyChain {
  import opened Sorting
  import opened Registration
  import opened VacancyFill

  /** Priority in words: waiting before confirmed, oldest first; then those with a preference
      before those without, latest first. */
  predicate GoesBefore(a: Signup, c: Signup) {
    if !c.state.Confirmed? then !a.state.Confirmed? && a.createdAt <= c.createdAt
    else
      !a.state.Confirmed? ||
      (!a.NoPreference() && c.NoPreference()) ||
      (a.NoPreference() == c.NoPreference() && a.createdAt >= c.createdAt)
  }

  lemma RankIsPriority(a: Signup, c: Signup)
    ensures Le(PriorityRank(a), PriorityRank(c)) <==> GoesBefore(a, c)
  {}

  /** The mover of a link goes before every other candidate that could take the vacancy. */
  lemma BestTaker(p: Policy, candidates: seq<Signup>, b: Bucket)
    requires Sorted(candidates, PriorityRank) && Takers(p, candidates, b) != []
    ensures forall c :: c in candidates && CanTake(p, c, b) ==>
              GoesBefore(Takers(p, candidates, b)[0], c)
  {
    var takers := Takers(p, candidates, b);
    FilterSorted(candidates, PriorityRank, (s: Signup) => CanTake(p, s, b));
    forall c | c in candidates && CanTake(p, c, b) ensures GoesBefore(takers[0], c) {
      assert c in takers;
      var j :| 0 <= j < |takers| && takers[j] == c;
      assert j == 0 || Le(PriorityRank(takers[0]), PriorityRank(takers[j]));
      RankIsPriority(takers[0], c);
    }
  }

  /** Each move goes into the vacancy the previous one left; only the last may be a promotion. */
  ghost predicate Linked(key: Option<Key>, moves: seq<Move>)
    decreases |moves|
  {
    moves != [] ==>
      key == Some(moves[0].toBucket) &&
      (|moves| > 1 ==> moves[0].prevState.Confirmed? && Linked(moves[0].prevBucket, moves[1..]))
  }

  /** The vacancy nobody filled: where the last confirmed mover came from. */
  function OpenKey(key: Option<Key>, moves: seq<Move>): Option<Key> {
    if moves == [] then key else moves[|moves| - 1].prevBucket
  }

  predicate EndsInPromotion(moves: seq<Move>) {
    moves != [] && !moves[|moves| - 1].prevState.Confirmed?
  }

  ghost predicate SeatedFrom(p: Policy, s: Signup, after: Signup) {
    exists b :: b in p.buckets && b.CountedLimited() && CanTake(p, s, b) && after == Seat(s, b) &&
                SavesCleanly(p, after)
  }

  /** Row by row: a chain leaves a signup alone or seats it once, in a bucket it can take. */
  lemma {:induction false} FillRows(p: Policy, signups: seq<Signup>, candidates: seq<Signup>, key: Option<Key>)
    requires Located(candidates, signups)
    requires p.BucketWithKey(key).Some? ==> p.BucketWithKey(key).value.CountedLimited()
    requires Fill(p, signups, candidates, key).Done?
    ensures var r := Fill(p, signups, candidates, key);
            |r.signups| == |signups| &&
            (forall i :: 0 <= i < |r.signups| ==>
               r.signups[i] == signups[i] ||
               (signups[i] in candidates && signups[i].id == i && SeatedFrom(p, signups[i], r.signups[i])))
    decreases |candidates|
  {
    var b := p.BucketWithKey(key);
    if b.Some? && Takers(p, candidates, b.value) != [] {
      var s := Takers(p, candidates, b.value)[0];
      assert s in Takers(p, candidates, b.value);
      TakerIsCandidate(p, candidates, b.value, s);
      assert SeatedFrom(p, s, Seat(s, b.value));
      if s.state.Confirmed? {
        FillRows(p, signups[s.id := Seat(s, b.value)], Without(candidates, s.id), s.bucketKey);
      }
    }
  }

  /** The first link of a chain that moves a confirmed signup, and the chain that follows it. */
  lemma FirstLink(p: Policy, signups: seq<Signup>, candidates: seq<Signup>, key: Option<Key>)
    requires Located(candidates, signups)
    requires p.BucketWithKey(key).Some?
    requires Takers(p, candidates, p.BucketWithKey(key).value) != []
    ensures var b := p.BucketWithKey(key).value;
            var s := Takers(p, candidates, b)[0];
            s in candidates && CanTake(p, s, b) && Some(b.key) == key &&
            |Without(candidates, s.id)| < |candidates| &&
            (forall c :: c in Without(candidates, s.id) <==> c in candidates && c.id != s.id) &&
            var seated := signups[s.id := Seat(s, b)];
            Located(Without(candidates, s.id), seated) &&
            (Fill(p, signups, candidates, key).Done? ==>
               SavesCleanly(p, Seat(s, b)) &&
               (s.state.Confirmed? ==>
                  var rest := Fill(p, seated, Without(candidates, s.id), s.bucketKey);
                  rest.Done? &&
                  Fill(p, signups, candidates, key) ==
                  Done(rest.signups, [Move(s.id, s.state, s.bucketKey, b.key)] + rest.moves)) &&
               (!s.state.Confirmed? ==>
                  Fill(p, signups, candidates, key) ==
                  Done(seated, [Move(s.id, s.state, s.bucketKey, b.key)])))
  {
    var b := p.BucketWithKey(key).value;
    var s := Takers(p, candidates, b)[0];
    assert s in Takers(p, candidates, b);
    TakerIsCandidate(p, candidates, b, s);
  }

  ghost predicate Named(moves: seq<Move>, id: nat) {
    exists m :: m in moves && m.id == id
  }

  ghost predicate NamedOnce(moves: seq<Move>) {
    moves != [] ==> !Named(moves[1..], moves[0].id) && NamedOnce(moves[1..])
  }

  /** A move tells truly where its mover was before the chain and is after it. */
  ghost predicate TrueMove(m: Move, before: seq<Signup>, candidates: seq<Signup>, after: seq<Signup>) {
    m.id < |before| == |after| && before[m.id] in candidates && before[m.id].id == m.id &&
    m.prevState == before[m.id].state && m.prevBucket == before[m.id].bucketKey &&
    after[m.id].ConfirmedIn(m.toBucket)
  }

  /**
   * The moves of a chain link up, name nobody twice, tell truly where each mover was and is, and
   * signups they do not name are untouched.
   */
  lemma {:induction false} FillMoves(p: Policy, signups: seq<Signup>, candidates: seq<Signup>, key: Option<Key>)
    requires Located(candidates, signups)
    requires Fill(p, signups, candidates, key).Done?
    ensures var r := Fill(p, signups, candidates, key);
            |r.signups| == |signups| && Linked(key, r.moves) && NamedOnce(r.moves) &&
            (forall m :: m in r.moves ==> TrueMove(m, signups, candidates, r.signups)) &&
            (forall i :: 0 <= i < |r.signups| && !Named(r.moves, i) ==> r.signups[i] == signups[i])
    decreases |candidates|
  {
    var b := p.BucketWithKey(key);
    if b.Some? && Takers(p, candidates, b.value) != [] {
      FirstLink(p, signups, candidates, key);
      var s := Takers(p, candidates, b.value)[0];
      var seated := signups[s.id := Seat(s, b.value)];
      var rest := Without(candidates, s.id);
      var Done(after, moves) := Fill(p, signups, candidates, key);
      assert moves[0].id == s.id;
      if s.state.Confirmed? {
        FillMoves(p, seated, rest, s.bucketKey);
        FillLeaves(p, seated, rest, s.bucketKey, s.id);
        assert moves[1..] == Fill(p, seated, rest, s.bucketKey).moves;
        forall m | m in moves ensures TrueMove(m, signups, candidates, after) {
          if m != moves[0] {
            assert m in moves[1..];
            assert TrueMove(m, seated, rest, after);
          }
        }
        forall i | 0 <= i < |after| && !Named(moves, i) ensures after[i] == signups[i] {
          assert moves[0] in moves;
          assert !Named(moves[1..], i);
        }
      } else {
        assert moves[0] in moves;
        assert moves[1..] == [];
      }
    }
  }

  /** A signup that is not a candidate is not moved. */
  lemma {:induction false} FillLeaves(p: Policy, signups: seq<Signup>, candidates: seq<Signup>,
                                      key: Option<Key>, i: nat)
    requires Located(candidates, signups) && i < |signups|
    requires forall c :: c in candidates ==> c.id != i
    requires Fill(p, signups, candidates, key).Done?
    ensures var r := Fill(p, signups, candidates, key);
            |r.signups| == |signups| && r.signups[i] == signups[i] &&
            !Named(r.moves, i)
    decreases |candidates|
  {
    var b := p.BucketWithKey(key);
    if b.Some? && Takers(p, candidates, b.value) != [] {
      var s := Takers(p, candidates, b.value)[0];
      assert s in Takers(p, candidates, b.value);
      TakerIsCandidate(p, candidates, b.value, s);
      if s.state.Confirmed? {
        FillLeaves(p, signups[s.id := Seat(s, b.value)], Without(candidates, s.id), s.bucketKey, i);
      }
    }
  }

  /**
   * Conservation: the bucket with the vacancy gains one signup if anybody moved, every bucket the
   * chain passes through keeps its number, and the bucket the last mover left loses one unless
   * that mover was promoted from the waitlist.
   */
  lemma {:induction false} FillConserves(p: Policy, signups: seq<Signup>, candidates: seq<Signup>,
                                         key: Option<Key>, k: Key)
    requires Located(candidates, signups)
    requires Fill(p, signups, candidates, key).Done?
    ensures var r := Fill(p, signups, candidates, key);
            Count(r.signups, InBucket(k)) ==
            Count(signups, InBucket(k))
            + (if r.moves != [] && key == Some(k) then 1 else 0)
            - (if r.moves != [] && !EndsInPromotion(r.moves) && OpenKey(key, r.moves) == Some(k) then 1 else 0)
    decreases |candidates|
  {
    var b := p.BucketWithKey(key);
    if b.Some? && Takers(p, candidates, b.value) != [] {
      FirstLink(p, signups, candidates, key);
      var s := Takers(p, candidates, b.value)[0];
      var seat := Seat(s, b.value);
      var move := Move(s.id, s.state, s.bucketKey, b.value.key);
      CountUpdate(signups, s.id, seat, InBucket(k));
      assert seat.ConfirmedIn(k) <==> key == Some(k);
      if s.state.Confirmed? {
        var rest := Without(candidates, s.id);
        FillConserves(p, signups[s.id := seat], rest, s.bucketKey, k);
        MovesEnd(key, move, Fill(p, signups[s.id := seat], rest, s.bucketKey).moves);
      } else {
        MovesEnd(key, move, []);
      }
    }
  }

  /** A chain with one more link in front ends where the rest of it ends. */
  lemma MovesEnd(key: Option<Key>, move: Move, rest: seq<Move>)
    ensures OpenKey(key, [move] + rest) == OpenKey(move.prevBucket, rest)
    ensures EndsInPromotion([move] + rest) <==> if rest == [] then !move.prevState.Confirmed? else EndsInPromotion(rest)
    ensures [move] + [] == [move]
  {}

  /** The number of confirmed signups grows by one exactly when the chain ends in a promotion. */
  lemma {:induction false} FillConfirms(p: Policy, signups: seq<Signup>, candidates: seq<Signup>, key: Option<Key>)
    requires Located(candidates, signups)
    requires Fill(p, signups, candidates, key).Done?
    ensures var r := Fill(p, signups, candidates, key);
            Count(r.signups, AnyConfirmed) ==
            Count(signups, AnyConfirmed) + (if EndsInPromotion(r.moves) then 1 else 0)
    decreases |candidates|
  {
    var b := p.BucketWithKey(key);
    if b.Some? && Takers(p, candidates, b.value) != [] {
      FirstLink(p, signups, candidates, key);
      var s := Takers(p, candidates, b.value)[0];
      var seated := signups[s.id := Seat(s, b.value)];
      CountUpdate(signups, s.id, Seat(s, b.value), AnyConfirmed);
      if s.state.Confirmed? {
        FillConfirms(p, seated, Without(candidates, s.id), s.bucketKey);
      }
    }
  }

  /**
   * A vacancy is something for a signup that does not sit there, nor where it asked to; that waits or
   * sits in a limited bucket that counts; and that asked for it, or has no preference and it is limited
   * and counts. The anything bucket is something for everybody.
   */
  predicate Wants(p: Policy, c: Signup, key: Key) {
    var v, current := p.BucketWithKey(Some(key)), p.BucketWithKey(c.bucketKey);
    v.Some? && c.bucketKey != Some(key) && (c.state.Confirmed? ==> c.bucketKey != c.requested) &&
    (current.Some? ==> current.value.slotsLimited && !current.value.notCounted) &&
    (c.requested == Some(key) || v.value.anything ||
     (c.requested.None? && v.value.slotsLimited && !v.value.notCounted))
  }

  lemma TakingIsWanting(p: Policy, c: Signup, v: Bucket)
    requires p.BucketWithKey(Some(v.key)) == Some(v)
    ensures CanTake(p, c, v) <==> Wants(p, c, v.key)
  {}

  /** The first taker is the first candidate the vacancy is something for; there are none exactly when
      it is something for nobody. */
  lemma TakersWant(p: Policy, candidates: seq<Signup>, v: Bucket) returns (i: nat)
    requires p.BucketWithKey(Some(v.key)) == Some(v)
    ensures Takers(p, candidates, v) == [] <==> forall c :: c in candidates ==> !Wants(p, c, v.key)
    ensures Takers(p, candidates, v) != [] ==>
              i < |candidates| && candidates[i] == Takers(p, candidates, v)[0] && Wants(p, candidates[i], v.key) &&
              forall j :: 0 <= j < i ==> !Wants(p, candidates[j], v.key)
  {
    forall c ensures CanTake(p, c, v) <==> Wants(p, c, v.key) {
      TakingIsWanting(p, c, v);
    }
    i := 0;
    if Takers(p, candidates, v) != [] {
      i := FilterFirst(candidates, (s: Signup) => CanTake(p, s, v));
    }
    assert forall c :: c in candidates && CanTake(p, c, v) ==> c in Takers(p, candidates, v);
    assert Takers(p, candidates, v) != [] ==> Takers(p, candidates, v)[0] in Takers(p, candidates, v);
  }

  /**
   * Fairness: at every link the mover goes before every candidate not moved yet that could take
   * the same vacancy.
   */
  lemma {:induction false} FillFair(p: Policy, signups: seq<Signup>, candidates: seq<Signup>,
                                    key: Option<Key>, j: nat, c: Signup)
    requires Located(candidates, signups) && Sorted(candidates, PriorityRank)
    requires Fill(p, signups, candidates, key).Done?
    requires j < |Fill(p, signups, candidates, key).moves| && c in candidates
    requires Wants(p, c, Fill(p, signups, candidates, key).moves[j].toBucket)
    requires !Named(Fill(p, signups, candidates, key).moves[..j], c.id)
    ensures var mover := Fill(p, signups, candidates, key).moves[j].id;
            mover < |signups| && GoesBefore(signups[mover], c)
    decreases |candidates|
  {
    FirstLink(p, signups, candidates, key);
    var b := p.BucketWithKey(key).value;
    var s := Takers(p, candidates, b)[0];
    var moves := Fill(p, signups, candidates, key).moves;
    assert moves[0].id == s.id;
    if j == 0 {
      BestTaker(p, candidates, b);
    } else {
      var rest := Without(candidates, s.id);
      var seated := signups[s.id := Seat(s, b)];
      FilterSorted(candidates, PriorityRank, (d: Signup) => d.id != s.id);
      NamedLater(moves, j, c.id);
      FillFair(p, seated, rest, s.bucketKey, j - 1, c);
      FillMoves(p, seated, rest, s.bucketKey);
    }
  }

  lemma NamedLater(moves: seq<Move>, j: nat, id: nat)
    requires 0 < j < |moves| && !Named(moves[..j], id)
    ensures moves[0].id != id && !Named(moves[1..][..j - 1], id) && moves[j] == moves[1..][j - 1]
  {
    assert moves[0] in moves[..j];
    assert forall m :: m in moves[1..][..j - 1] ==> m in moves[..j];
  }

  /** A chain that stops without a promotion leaves open only a vacancy no candidate can take. */
  lemma {:induction false} FillExhausts(p: Policy, signups: seq<Signup>, candidates: seq<Signup>,
                                        key: Option<Key>, c: Signup)
    requires Located(candidates, signups) && c in candidates
    requires Fill(p, signups, candidates, key).Done?
    requires var moves := Fill(p, signups, candidates, key).moves;
             !EndsInPromotion(moves) && OpenKey(key, moves).Some? &&
             !Named(moves, c.id)
    ensures !Wants(p, c, OpenKey(key, Fill(p, signups, candidates, key).moves).value)
    decreases |candidates|
  {
    var b := p.BucketWithKey(key);
    var moves := Fill(p, signups, candidates, key).moves;
    if b.Some? && Takers(p, candidates, b.value) != [] {
      FirstLink(p, signups, candidates, key);
      var s := Takers(p, candidates, b.value)[0];
      assert moves[0].id == s.id;
      assert moves[0] in moves;
      assert forall m :: m in moves[1..] ==> m in moves;
      FillExhausts(p, signups[s.id := Seat(s, b.value)], Without(candidates, s.id), s.bucketKey, c);
    } else if b.Some? {
      TakingIsWanting(p, c, b.value);
      assert c !in Takers(p, candidates, b.value);
    }
  }

  /** Nobody is moved who does not want it: each move is to a vacancy that is something for its mover. */
  lemma {:induction false} FillWanted(p: Policy, signups: seq<Signup>, candidates: seq<Signup>, key: Option<Key>)
    requires Located(candidates, signups) && Fill(p, signups, candidates, key).Done?
    ensures forall m :: m in Fill(p, signups, candidates, key).moves ==>
              m.id < |signups| && Wants(p, signups[m.id], m.toBucket)
    decreases |candidates|
  {
    var b := p.BucketWithKey(key);
    if b.Some? && Takers(p, candidates, b.value) != [] {
      FirstLink(p, signups, candidates, key);
      var s := Takers(p, candidates, b.value)[0];
      TakingIsWanting(p, s, b.value);
      if s.state.Confirmed? {
        var seated, rest := signups[s.id := Seat(s, b.value)], Without(candidates, s.id);
        FillWanted(p, seated, rest, s.bucketKey);
        FillMoves(p, seated, rest, s.bucketKey);
        forall m | m in Fill(p, seated, rest, s.bucketKey).moves ensures signups[m.id] == seated[m.id] {
          assert TrueMove(m, seated, rest, Fill(p, seated, rest, s.bucketKey).signups);
        }
      }
    }
  }
}
