/** Signing up, withdrawing and becoming a team member, on records (event_signup_service.rb,
    event_withdraw_service.rb, create_team_member_service.rb). A method answers false where the
    source fails or raises; the transaction then undoes what it did. */
module SlotServices {
  import opened Sorting
  import opened Registration
  import opened BucketFinder
  import opened EventSignup
  import opened RunSteps
  import opened Records
  import VacancyFill
  import VacancyFillService
  import Vacating

  class WithdrawService {
    const run: RunRecord
    const signup: SignupRecord
    const policy: Policy
    const team: set<Profile>
    const prevState: SignupState
    const prevBucketKey: Option<Key>
    const prevCounted: bool
    var moveResults: seq<VacancyFill.Move>

    /** The service remembers how the signup was when the service was made. */
    constructor (run: RunRecord, signup: SignupRecord, policy: Policy, team: set<Profile>)
      ensures this.run == run && this.signup == signup && this.policy == policy && this.team == team
      ensures prevState == signup.state && prevBucketKey == signup.bucketKey && prevCounted == signup.counted
      ensures moveResults == []
    {
      this.run, this.signup, this.policy, this.team := run, signup, policy, team;
      prevState, prevBucketKey, prevCounted := signup.state, signup.bucketKey, signup.counted;
      moveResults := [];
    }

    method Call() returns (ok: bool)
      requires run.Valid() && run.Has(signup) && moveResults == []
      requires prevState == signup.state && prevBucketKey == signup.bucketKey && prevCounted == signup.counted
      modifies this, run.signups
      ensures var outcome := Vacating.Withdraw(policy, team, old(run.Table()), signup.id);
              ok == outcome.Done? &&
              (ok ==> run.Valid() && run.Table() == outcome.signups && moveResults == outcome.moves)
    {
      ghost var rows := Rows(run.signups);
      signup.Update(Withdrawn, None, false);
      RowsAre(run.signups, rows[signup.id := Vacating.Withdrawal(rows[signup.id])]);
      ok := MoveSignups();
    }

    /** `move_signups`: fills the vacancy unless the bucket was over-full before. */
    method MoveSignups() returns (ok: bool)
      requires run.Valid() && moveResults == []
      modifies this`moveResults, run.signups
      ensures var outcome := Vacating.MoveSignups(policy, team, old(run.Table()), prevState, prevBucketKey, prevCounted);
              ok == outcome.Done? &&
              (ok ==> run.Valid() && run.Table() == outcome.signups && moveResults == outcome.moves)
    {
      if !(prevCounted && prevState.Confirmed?) {
        return true;
      }
      if prevBucketKey.Some? {
        var bucket := policy.BucketWithKey(prevBucketKey);
        if bucket.Some? && bucket.value.Full(Rows(run.signups)) {
          return true;
        }
      }
      ok, moveResults := VacancyFillService.FillVacancyOf(run, policy, team, prevBucketKey);
    }
  }

  class SignupService {
    const run: RunRecord
    const policy: Policy
    const team: set<Profile>
    const profile: Profile
    const requested: Option<Key>

    constructor (run: RunRecord, policy: Policy, team: set<Profile>, profile: Profile, requested: Option<Key>)
      ensures this.run == run && this.policy == policy && this.team == team
      ensures this.profile == profile && this.requested == requested
    {
      this.run, this.policy, this.team, this.profile, this.requested := run, policy, team, profile, requested;
    }

    /** `inner_call`; `allowed` is the outcome of the validations that look beyond the run. */
    method Call(createdAt: int, allowed: bool) returns (created: SignupRecord?)
      requires policy.Valid() && run.Valid()
      modifies run, run.signups
      ensures var before := old(run.Table());
              var placed := Place(policy, team, before, profile, requested, createdAt);
              (created != null <==> allowed && !SignedUp(before, profile) && placed.Placed?) &&
              (created != null ==>
                 fresh(created) && run.Valid() && run.signups == old(run.signups) + [created] &&
                 run.Table() == placed.signups)
    {
      if !allowed || SignedUp(Rows(run.signups), profile) || !ValidRequest(policy, team, profile, requested) {
        return null;
      }
      var actual := ActualBucket(policy, team, Rows(run.signups), profile, requested);
      if actual.Some? && actual.value.Full(Rows(run.signups)) {
        var moved := MoveSignup(actual.value);
        if !moved {
          return null;
        }
      }
      created := Create(NewSignup(|run.signups|, team, profile, requested, actual, createdAt));
    }

    method Create(row: Signup) returns (created: SignupRecord)
      requires run.Valid() && row.id == |run.signups|
      modifies run
      ensures fresh(created) && run.Valid() && run.signups == old(run.signups) + [created]
      ensures run.Table() == old(run.Table()) + [row]
    {
      ghost var rows := run.Table();
      created := new SignupRecord(run.id, row);
      run.signups := run.signups + [created];
      RowsAre(run.signups, rows + [row]);
    }

    /** `move_signup`: bumps a movable signup out of the bucket. */
    method MoveSignup(b: Bucket) returns (moved: bool)
      requires run.Valid()
      modifies run.signups
      ensures var outcome := EventSignup.MoveSignup(policy, old(run.Table()), b);
              moved == outcome.Placed? && (moved ==> run.Table() == outcome.signups)
    {
      ghost var rows := Rows(run.signups);
      var others := CountedConfirmed(Rows(run.signups));
      var movable := Movable(policy, others, b);
      var destinations := NoPreferenceCapacityExcept(policy, others, b);
      if movable == [] || destinations == [] || movable[0].id >= |run.signups| {
        return false;
      }
      assert movable[0] in movable && movable[0] in others && movable[0] in rows;
      var record := run.signups[movable[0].id];
      record.Update(record.state, Some(destinations[0].key), record.counted);
      RowsAre(run.signups, rows[movable[0].id := movable[0].(bucketKey := Some(destinations[0].key))]);
      return true;
    }
  }

  /** An event: its policy, its team, and its runs, numbered by position. */
  class EventRecord {
    var policy: Policy
    var team: set<Profile>
    const runs: seq<RunRecord>

    constructor (policy: Policy, runs: seq<RunRecord>)
      requires forall r :: 0 <= r < |runs| ==> runs[r].id == r && runs[r].signups == []
      ensures Valid() && this.policy == policy && this.runs == runs && team == {}
    {
      this.policy, this.runs, team := policy, runs, {};
    }

    ghost predicate Valid()
      reads runs
    {
      forall r :: 0 <= r < |runs| ==> runs[r].id == r && runs[r].Valid()
    }

    ghost function Records(): set<SignupRecord>
      reads runs
    {
      set r, s | 0 <= r < |runs| && s in runs[r].signups :: s
    }

    /** The signups of every run, as rows. */
    ghost function Tables(): (tables: seq<seq<Signup>>)
      reads runs, Records()
      requires Valid()
      ensures |tables| == |runs|
    {
      assert forall r, s :: 0 <= r < |runs| && s in runs[r].signups ==> s in Records();
      seq(|runs|, r requires 0 <= r < |runs| && Valid() reads runs, Records() =>
        (assert forall s :: s in runs[r].signups ==> s in Records(); runs[r].Table()))
    }

    /** All runs hold exactly these signups. */
    ghost predicate RunsAre(tables: seq<seq<Signup>>)
      reads runs, Records()
    {
      |tables| == |runs| &&
      forall r :: 0 <= r < |tables| ==>
        runs[r].id == r && runs[r].Valid() &&
        (assert forall s :: s in runs[r].signups ==> s in Records();
         Rows(runs[r].signups) == tables[r])
    }

    lemma TablesAre(tables: seq<seq<Signup>>)
      requires RunsAre(tables)
      ensures Valid() && Tables() == tables
    {
      assert Valid();
      assert forall r :: 0 <= r < |tables| ==> Tables()[r] == tables[r];
    }

    method UpdatePolicy(policy: Policy)
      requires Valid()
      modifies this`policy
      ensures this.policy == policy && Valid() && Tables() == old(Tables())
    {
      this.policy := policy;
    }
  }

  class CreateTeamMemberService {
    const event: EventRecord
    const profile: Profile
    var moveResults: seq<VacancyFill.Move>

    constructor (event: EventRecord, profile: Profile)
      ensures this.event == event && this.profile == profile && moveResults == []
    {
      this.event, this.profile, moveResults := event, profile, [];
    }

    /** The new team member; from here on the conversions see the larger team. */
    method CreateTeamMember() returns (ok: bool)
      requires event.Valid()
      modifies event`team
      ensures ok == (profile !in old(event.team)) && event.team == old(event.team) + {profile}
      ensures event.Valid() && event.RunsAre(old(event.Tables()))
    {
      ok := profile !in event.team;
      event.team := event.team + {profile};
    }

    /** `convert_signup` */
    method ConvertSignup(run: RunRecord, signup: SignupRecord) returns (ok: bool)
      requires run.Valid() && run.Has(signup)
      modifies this`moveResults, run.signups
      ensures var outcome := Vacating.Convert(event.policy, event.team, old(run.Table()), signup.id);
              ok == outcome.Done? &&
              (ok ==> run.Valid() && run.Table() == outcome.signups &&
                      moveResults == old(moveResults) + outcome.moves)
    {
      ghost var rows := Rows(run.signups);
      var createsVacancy := signup.counted && signup.state.Confirmed?;
      var priorBucketKey := signup.bucketKey;
      signup.Update(Confirmed, None, false);
      RowsAre(run.signups, rows[signup.id := Vacating.Conversion(rows[signup.id])]);
      ok := true;
      if createsVacancy {
        var moves;
        ok, moves := VacancyFillService.FillVacancyOf(run, event.policy, event.team, priorBucketKey);
        moveResults := moveResults + moves;
      }
    }

    /** The part of `convert_signups` that concerns one run. */
    method ConvertRun(run: RunRecord) returns (ok: bool)
      requires run.Valid()
      modifies this`moveResults, run.signups
      ensures var outcome := ConvertFrom(event.policy, event.team, old(run.Table()), profile, 0);
              ok == outcome.Done? &&
              (ok ==> run.Valid() && run.Table() == outcome.signups && moveResults == old(moveResults) + outcome.moves)
    {
      ghost var outcome := ConvertFrom(event.policy, event.team, run.Table(), profile, 0);
      for i := 0 to |run.signups|
        invariant run.Valid() && |run.signups| == |old(run.signups)|
        invariant var rest := ConvertFrom(event.policy, event.team, run.Table(), profile, i);
                  outcome.Done? == rest.Done? &&
                  (rest.Done? ==> outcome.signups == rest.signups && moveResults + rest.moves == old(moveResults) + outcome.moves)
      {
        var signup := run.signups[i];
        if signup.profile == profile && !signup.state.Withdrawn? {
          ghost var step := Vacating.Convert(event.policy, event.team, run.Table(), i);
          ghost var sofar := moveResults;
          var done := ConvertSignup(run, signup);
          if !done {
            return false;
          }
          ghost var rest := ConvertFrom(event.policy, event.team, step.signups, profile, i + 1);
          if rest.Done? {
            VacancyFillService.AppendAssociates(sofar, step.moves, rest.moves);
          }
        }
      }
      return true;
    }

    /** One run after the other; the other runs stay as they are. */
    method ConvertNth(r: nat, ghost tables: seq<seq<Signup>>) returns (ok: bool)
      requires event.RunsAre(tables) && r < |tables|
      modifies this`moveResults, event.runs[r].signups
      ensures var outcome := ConvertedRun(event.policy, event.team, tables[r], profile);
              ok == outcome.Done? &&
              (ok ==> event.RunsAre(tables[r := outcome.signups]) && moveResults == old(moveResults) + outcome.moves)
    {
      ok := ConvertRun(event.runs[r]);
      if ok {
        forall o | 0 <= o < |tables| && o != r ensures Rows(event.runs[o].signups) == tables[o] {
          RowsAre(event.runs[o].signups, tables[o]);
        }
      }
    }

    /** `convert_signups` */
    method ConvertSignups(ghost tables: seq<seq<Signup>>) returns (ok: bool)
      requires event.RunsAre(tables)
      modifies this`moveResults, event.Records()
      ensures var after := ConvertedRuns(event.policy, event.team, tables, profile);
              ok == after.Some? &&
              (ok ==> event.RunsAre(after.value) &&
                      moveResults == old(moveResults) + ConvertedMoves(event.policy, event.team, tables, profile))
    {
      ghost var records, now, start := event.Records(), tables, moveResults;
      ghost var policy, team := event.policy, event.team;
      for r := 0 to |event.runs|
        invariant event.RunsAre(now) && ConvertedUpTo(policy, team, tables, profile, r, now)
        invariant moveResults == start + ConvertedMoves(policy, team, tables[..r], profile)
      {
        assert forall s :: s in event.runs[r].signups ==> s in records;
        OneRunMore(policy, team, tables, profile, r, now, start);
        ok := ConvertNth(r, now);
        if !ok {
          return;
        }
        now := now[r := ConvertedRun(policy, team, tables[r], profile).signups];
      }
      ok := true;
      AllConverted(policy, team, tables, profile, now);
    }

    /** `inner_call`: the profile joins the team, and its signups in every run of the event become
        a team member's. */
    method Call() returns (ok: bool)
      requires event.Valid()
      modifies event`team, this`moveResults, event.Records()
      ensures var after := ConvertedRuns(event.policy, old(event.team) + {profile}, old(event.Tables()), profile);
              ok == (profile !in old(event.team) && after.Some?) &&
              (ok ==> event.team == old(event.team) + {profile} && event.Valid() && event.Tables() == after.value &&
                      moveResults == old(moveResults) +
                                     ConvertedMoves(event.policy, old(event.team) + {profile}, old(event.Tables()), profile))
    {
      ghost var tables := event.Tables();
      ok := CreateTeamMember();
      if ok {
        ok := ConvertSignups(tables);
        if ok {
          event.TablesAre(ConvertedRuns(event.policy, event.team, tables, profile).value);
        }
      }
    }
  }

  /** The first runs are converted and the others as they were. */
  ghost predicate ConvertedUpTo(p: Policy, team: set<Profile>, runs: seq<seq<Signup>>, profile: Profile, r: nat, now: seq<seq<Signup>>) {
    |now| == |runs| &&
    forall o :: 0 <= o < |runs| ==>
      if o < r then ConvertedRun(p, team, runs[o], profile).Done? && now[o] == ConvertedRun(p, team, runs[o], profile).signups
      else now[o] == runs[o]
  }

  lemma OneRunMore(p: Policy, team: set<Profile>, runs: seq<seq<Signup>>, profile: Profile, r: nat,
                   now: seq<seq<Signup>>, moves: seq<VacancyFill.Move>)
    requires r < |runs| && ConvertedUpTo(p, team, runs, profile, r, now)
    ensures now[r] == runs[r]
    ensures var outcome := ConvertedRun(p, team, runs[r], profile);
            if outcome.Raised? then ConvertedRuns(p, team, runs, profile).None?
            else
              ConvertedUpTo(p, team, runs, profile, r + 1, now[r := outcome.signups]) &&
              moves + ConvertedMoves(p, team, runs[..r + 1], profile) ==
              moves + ConvertedMoves(p, team, runs[..r], profile) + outcome.moves
  {
    var outcome := ConvertedRun(p, team, runs[r], profile);
    if outcome.Done? {
      assert runs[..r + 1][..r] == runs[..r];
      VacancyFillService.AppendAssociates(moves, ConvertedMoves(p, team, runs[..r], profile), outcome.moves);
    }
  }

  lemma AllConverted(p: Policy, team: set<Profile>, runs: seq<seq<Signup>>, profile: Profile, now: seq<seq<Signup>>)
    requires ConvertedUpTo(p, team, runs, profile, |runs|, now)
    ensures ConvertedRuns(p, team, runs, profile) == Some(now) && runs[..|runs|] == runs
  {
    assert ConvertedRuns(p, team, runs, profile).Some?;
    assert ConvertedRuns(p, team, runs, profile).value == now;
  }
}
