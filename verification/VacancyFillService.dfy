/** The vacancy-filling service on records (event_vacancy_fill_service.rb), proved to do what the
    chain of VacancyFill describes. */
module VacancyFillService {
  import opened Sorting
  import opened Registration
  import opened Allocation
  import opened VacancyFill
  import opened Records

  class Service {
    const run: RunRecord
    const policy: Policy
    const team: set<Profile>
    const immovable: set<nat>
    var moveResults: seq<Move>
    var ordered: seq<SignupRecord>

    constructor (run: RunRecord, policy: Policy, team: set<Profile>, immovable: set<nat>)
      ensures this.run == run && this.policy == policy && this.team == team && this.immovable == immovable
      ensures moveResults == [] && ordered == []
    {
      this.run, this.policy, this.team, this.immovable := run, policy, team, immovable;
      moveResults, ordered := [], [];
    }

    /** The ids `signup_movable?` refuses. */
    function Taken(): set<nat>
      reads this
    {
      immovable + set m | m in moveResults :: m.id
    }

    /** The memoised list holds distinct active signups of the run, moved ones aside. */
    ghost predicate Memoised()
      reads this, run, ordered
    {
      run.Valid() && (forall r :: r in ordered ==> run.Has(r)) &&
      (forall i, j :: 0 <= i < j < |ordered| ==> ordered[i] != ordered[j]) &&
      (forall r :: r in ordered ==> r.id in Taken() || !r.state.Withdrawn?)
    }

    ghost function Candidates(): (c: seq<Signup>)
      reads this, run, ordered, run.signups
      requires Memoised()
      ensures Located(c, Rows(run.signups))
    {
      var rows := Rows(ordered);
      forall s | s in rows && s.id !in Taken()
        ensures s.id < |run.signups| && Rows(run.signups)[s.id] == s && !s.state.Withdrawn?
      {
        var i :| 0 <= i < |rows| && rows[i] == s;
        assert ordered[i] in ordered;
      }
      Unmoved(rows, Taken())
    }

    /** `best_signup_to_fill_bucket_vacancy` */
    method BestSignup(b: Bucket) returns (best: SignupRecord?)
      requires Memoised()
      ensures best == null ==> Takers(policy, Candidates(), b) == []
      ensures best != null ==> best in ordered && Takers(policy, Candidates(), b) != [] &&
                               Takers(policy, Candidates(), b)[0] == best.Row()
    {
      ghost var rows, taken := Rows(ordered), Taken();
      for i := 0 to |ordered|
        invariant Takers(policy, Unmoved(rows[..i], taken), b) == []
      {
        var row := ordered[i].Row();
        NextTaker(policy, rows, i, taken, b);
        if row.id !in Taken() && CanTake(policy, row, b) {
          return ordered[i];
        }
      }
      assert rows[..|ordered|] == rows;
      return null;
    }

    /** Seats the mover and records the move; from then on it is no candidate. */
    method MoveInto(best: SignupRecord, b: Bucket)
      requires Memoised() && best in ordered && best.id !in Taken()
      modifies this`moveResults, best
      ensures Memoised() && best.Row() == Seat(old(best.Row()), b)
      ensures Rows(run.signups) == old(Rows(run.signups))[best.id := best.Row()]
      ensures moveResults == old(moveResults) +
                             [Move(best.id, old(best.state), old(best.bucketKey), b.key)]
      ensures Candidates() == Without(old(Candidates()), best.id)
    {
      ghost var all, rows, taken := Rows(run.signups), Rows(ordered), Taken();
      var move := Move(best.id, best.state, best.bucketKey, b.key);
      best.Update(Confirmed, Some(b.key), b.Counted());
      moveResults := moveResults + [move];
      RowsAre(run.signups, all[best.id := best.Row()]);
      assert Taken() == taken + {best.id} by {
        assert forall m :: m in moveResults <==> m in old(moveResults) || m == move;
      }
      WithoutMover(rows, Rows(ordered), taken, best.id);
    }

    /** The chain of moves that filling a vacancy at `key` from here amounts to. */
    ghost function Chain(key: Option<Key>): Outcome
      reads this, run, ordered, run.signups
      requires Memoised()
    {
      Fill(policy, Rows(run.signups), Candidates(), key)
    }

    /** `fill_bucket_vacancy`: answers false where the source raises. */
    method FillBucketVacancy(key: Option<Key>) returns (ok: bool)
      requires Memoised()
      modifies this`moveResults, run.signups
      ensures ok == old(Chain(key)).Done?
      ensures ok ==> Memoised() && Rows(run.signups) == old(Chain(key)).signups &&
                     moveResults == old(moveResults) + old(Chain(key)).moves
      decreases |Candidates()|
    {
      var bucket := policy.BucketWithKey(key);
      if bucket.None? {
        return Unmoved(Rows(ordered), Taken()) == [];
      }
      var b := bucket.value;
      var best := BestSignup(b);
      if best == null {
        return true;
      }
      var row := best.Row();
      ChainUnfolds(policy, Rows(run.signups), Candidates(), key, b, row);
      if !SavesCleanly(policy, Seat(row, b)) {
        return false;
      }
      MoveInto(best, b);
      if !row.state.Confirmed? {
        return true;
      }
      ghost var link, rest := Move(row.id, row.state, row.bucketKey, b.key), Chain(row.bucketKey);
      ok := FillBucketVacancy(row.bucketKey);
      if ok {
        AppendAssociates(old(moveResults), [link], rest.moves);
      }
    }

    /** `all_signups_ordered`, remembered before the first move */
    method Memoise()
      requires run.Valid() && moveResults == []
      modifies this`ordered
      ensures Memoised() && Candidates() == Unmoved(AllOrdered(Rows(run.signups), team), immovable)
    {
      var rows := AllOrdered(Rows(run.signups), team);
      OrderDistinct(Rows(run.signups), team);
      ordered := run.RecordsOf(rows);
      forall i | 0 <= i < |rows| ensures !ordered[i].state.Withdrawn? {
        assert ordered[i].Row() == rows[i] && rows[i] in rows;
      }
      assert Taken() == immovable;
    }

    /** `inner_call` */
    method Call(key: Option<Key>) returns (ok: bool)
      requires run.Valid() && moveResults == []
      modifies this, run.signups
      ensures var outcome := FillVacancy(policy, old(run.Table()), team, immovable, key);
              ok == outcome.Done? &&
              (ok ==> run.Valid() && run.Table() == outcome.signups && moveResults == outcome.moves)
    {
      var bucket := policy.BucketWithKey(key);
      if bucket.None? {
        return false;
      }
      if !bucket.value.slotsLimited {
        return true;
      }
      ghost var outcome := FillVacancy(policy, run.Table(), team, immovable, key);
      Memoise();
      assert Chain(key) == outcome;
      ok := FillBucketVacancy(key);
    }
  }

  lemma AppendAssociates(a: seq<Move>, b: seq<Move>, c: seq<Move>)
    ensures a + b + c == a + (b + c)
  {}

  /** The memoised list: the records of the ordered rows. */
  lemma OrderDistinct(signups: seq<Signup>, team: set<Profile>)
    requires Numbered(signups)
    ensures forall s :: s in AllOrdered(signups, team) <==>
              s in signups && !s.state.Withdrawn? && s.profile !in team
    ensures Distinct(AllOrdered(signups, team))
  {
    SortSorts(Active(signups, team), PriorityRank);
    FilterDistinct(signups, (s: Signup) => !s.state.Withdrawn? && s.profile !in team);
    SortDistinct(Active(signups, team), PriorityRank);
  }

  /** One link of a chain and the chain that follows it. */
  lemma ChainUnfolds(p: Policy, signups: seq<Signup>, candidates: seq<Signup>, key: Option<Key>, b: Bucket, s: Signup)
    requires Located(candidates, signups) && p.BucketWithKey(key) == Some(b)
    requires Takers(p, candidates, b) != [] && Takers(p, candidates, b)[0] == s
    ensures s in candidates && |Without(candidates, s.id)| < |candidates|
    ensures !SavesCleanly(p, Seat(s, b)) ==> Fill(p, signups, candidates, key).Raised?
    ensures var after := signups[s.id := Seat(s, b)];
            var move := Move(s.id, s.state, s.bucketKey, b.key);
            SavesCleanly(p, Seat(s, b)) ==>
              if !s.state.Confirmed? then Fill(p, signups, candidates, key) == Done(after, [move])
              else
                Located(Without(candidates, s.id), after) &&
                var rest := Fill(p, after, Without(candidates, s.id), s.bucketKey);
                Fill(p, signups, candidates, key) ==
                if rest.Raised? then Raised else Done(rest.signups, [move] + rest.moves)
  {
    assert s in Takers(p, candidates, b);
    TakerIsCandidate(p, candidates, b, s);
  }

  /** Makes the service and calls it, nothing immovable. */
  method FillVacancyOf(run: RunRecord, policy: Policy, team: set<Profile>, key: Option<Key>)
    returns (ok: bool, moves: seq<Move>)
    requires run.Valid()
    modifies run.signups
    ensures ok == FillVacancy(policy, old(run.Table()), team, {}, key).Done?
    ensures ok ==> run.Valid() && FillVacancy(policy, old(run.Table()), team, {}, key) == Done(run.Table(), moves)
  {
    ghost var rows := run.Table();
    var fill := new Service(run, policy, team, {});
    assert run.Table() == rows;
    ok := fill.Call(key);
    moves := fill.moveResults;
  }

  lemma NextTaker(p: Policy, rows: seq<Signup>, i: nat, taken: set<nat>, b: Bucket)
    requires i < |rows| && Takers(p, Unmoved(rows[..i], taken), b) == []
    ensures if rows[i].id !in taken && CanTake(p, rows[i], b) then
              Takers(p, Unmoved(rows, taken), b) != [] && Takers(p, Unmoved(rows, taken), b)[0] == rows[i]
            else Takers(p, Unmoved(rows[..i + 1], taken), b) == []
  {
    assert rows[..i + 1] == rows[..i] + [rows[i]];
    TakersConcat(p, rows[..i], [rows[i]], taken, b);
    OneTaker(p, rows[i], taken, b);
    assert rows == rows[..i + 1] + rows[i + 1..];
    TakersConcat(p, rows[..i + 1], rows[i + 1..], taken, b);
  }

  lemma TakersConcat(p: Policy, xs: seq<Signup>, ys: seq<Signup>, taken: set<nat>, b: Bucket)
    ensures Takers(p, Unmoved(xs + ys, taken), b) == Takers(p, Unmoved(xs, taken), b) + Takers(p, Unmoved(ys, taken), b)
  {
    FilterAppend(xs, ys, (s: Signup) => s.id !in taken);
    FilterAppend(Unmoved(xs, taken), Unmoved(ys, taken), (s: Signup) => CanTake(p, s, b));
  }

  lemma OneTaker(p: Policy, s: Signup, taken: set<nat>, b: Bucket)
    ensures Takers(p, Unmoved([s], taken), b) == if s.id !in taken && CanTake(p, s, b) then [s] else []
  {
    assert [s][1..] == [];
  }

  /** Once a move is recorded, its mover is off the candidate list. */
  lemma WithoutMover(before: seq<Signup>, after: seq<Signup>, taken: set<nat>, id: nat)
    requires |before| == |after|
    requires forall i :: 0 <= i < |before| ==> after[i] == before[i] || before[i].id == after[i].id == id
    ensures Unmoved(after, taken + {id}) == Without(Unmoved(before, taken), id)
  {
    var still := (s: Signup) => s.id !in taken + {id};
    FilterFuse(before, (s: Signup) => s.id !in taken, (s: Signup) => s.id != id, still);
    FilterAgree(before, after, still);
  }
}
