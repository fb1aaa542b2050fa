/** Accepting a signup request on records (accept_signup_request_service.rb): the signup it
    replaces is withdrawn, then the requested one is made, in one transaction. */
module SignupRequests {
  import opened Sorting
  import opened Registration
  import opened Allocation
  import opened EventSignup
  import opened RunSteps
  import opened Records
  import opened SlotServices
  import VacancyFill
  import Vacating

  /** Where a signup is or is to be: a run, and the policy and team of its event. */
  class Venue {
    const run: RunRecord
    const policy: Policy
    const team: set<Profile>

    constructor (run: RunRecord, policy: Policy, team: set<Profile>)
      ensures this.run == run && this.policy == policy && this.team == team
    {
      this.run, this.policy, this.team := run, policy, team;
    }
  }

  datatype RequestState = Pending | Accepted

  class SignupRequestRecord {
    const target: Venue
    const profile: Profile
    const requested: Option<Key>
    const replaced: SignupRecord?
    const replacedVenue: Venue
    var state: RequestState
    var result: SignupRecord?

    constructor (target: Venue, profile: Profile, requested: Option<Key>, replaced: SignupRecord?, replacedVenue: Venue)
      ensures this.target == target && this.profile == profile && this.requested == requested
      ensures this.replaced == replaced && this.replacedVenue == replacedVenue && state == Pending && result == null
    {
      this.target, this.profile, this.requested := target, profile, requested;
      this.replaced, this.replacedVenue, state, result := replaced, replacedVenue, Pending, null;
    }

    ghost predicate Valid()
      reads target.run, replacedVenue.run
    {
      target.policy.Valid() && target.run.Valid() && replacedVenue.run.Valid() &&
      (replaced != null ==> replacedVenue.run.Has(replaced)) &&
      (target.run != replacedVenue.run ==> target.run.id != replacedVenue.run.id)
    }
  }

  /** What withdrawing the replaced signup, if there is one, makes of its run. */
  ghost function AfterWithdrawal(policy: Policy, team: set<Profile>, table: seq<Signup>, replaced: Option<nat>): (r: VacancyFill.Outcome)
    requires Numbered(table) && (replaced.Some? ==> replaced.value < |table|)
    ensures r.Done? ==> |r.signups| == |table| && VacancyFill.Evolves(table, r.signups)
  {
    if replaced.None? then VacancyFill.Done(table, []) else Vacating.Withdraw(policy, team, table, replaced.value)
  }

  function IdOf(signup: SignupRecord?): Option<nat> {
    if signup == null then None else Some(signup.id)
  }

  /** `withdraw_replace_signup` */
  method WithdrawReplaced(request: SignupRequestRecord) returns (ok: bool)
    requires request.Valid()
    modifies request.replacedVenue.run.signups
    ensures var venue := request.replacedVenue;
            var outcome := AfterWithdrawal(venue.policy, venue.team, old(venue.run.Table()), IdOf(request.replaced));
            ok == outcome.Done? &&
            (ok ==> request.Valid() && venue.run.Table() == outcome.signups &&
                    (request.target.run != venue.run ==> request.target.run.Table() == old(request.target.run.Table())))
  {
    ghost var target := request.target.run.Table();
    ok := true;
    if request.replaced != null {
      var venue := request.replacedVenue;
      var service := new WithdrawService(venue.run, request.replaced, venue.policy, venue.team);
      ok := service.Call();
    }
    if ok && request.target.run != request.replacedVenue.run {
      RowsAre(request.target.run.signups, target);
    }
  }

  /** `create_signup`; `allowed` is the outcome of the validations that look beyond the run. */
  method CreateSignup(request: SignupRequestRecord, createdAt: int, allowed: bool) returns (created: SignupRecord?)
    requires request.Valid()
    modifies request.target.run, request.target.run.signups
    ensures var target := request.target;
            var before := old(target.run.Table());
            var placed := Place(target.policy, target.team, before, request.profile, request.requested, createdAt);
            (created != null <==> allowed && !SignedUp(before, request.profile) && placed.Placed?) &&
            (created != null ==>
               request.Valid() && target.run.signups == old(target.run.signups) + [created] &&
               target.run.Table() == placed.signups)
    ensures created != null && request.target.run != request.replacedVenue.run ==>
              request.replacedVenue.run.Table() == old(request.replacedVenue.run.Table())
  {
    ghost var elsewhere := request.replacedVenue.run.Table();
    var service := new SignupService(request.target.run, request.target.policy, request.target.team,
                                     request.profile, request.requested);
    created := service.Call(createdAt, allowed);
    if created != null && request.target.run != request.replacedVenue.run {
      RowsAre(request.replacedVenue.run.signups, elsewhere);
    }
  }

  /** `inner_call`: the withdrawal comes first, so its slot is free when the request is placed. */
  method Accept(request: SignupRequestRecord, createdAt: int, allowed: bool) returns (ok: bool)
    requires request.Valid()
    modifies request, request.target.run, request.target.run.signups, request.replacedVenue.run.signups
    ensures var target, venue := request.target, request.replacedVenue;
            var withdrawn := AfterWithdrawal(venue.policy, venue.team, old(venue.run.Table()), IdOf(request.replaced));
            withdrawn.Raised? ==> !ok
    ensures var target, venue := request.target, request.replacedVenue;
            var withdrawn := AfterWithdrawal(venue.policy, venue.team, old(venue.run.Table()), IdOf(request.replaced));
            withdrawn.Done? ==>
              var before := if target.run == venue.run then withdrawn.signups else old(target.run.Table());
              var placed := Place(target.policy, target.team, before, request.profile, request.requested, createdAt);
              ok == (allowed && !SignedUp(before, request.profile) && placed.Placed?) &&
              (ok ==> request.state == Accepted && request.Valid() && target.run.Table() == placed.signups &&
                      target.run.signups == old(target.run.signups) + [request.result] &&
                      (target.run != venue.run ==> venue.run.Table() == withdrawn.signups))
  {
    ok := WithdrawReplaced(request);
    if ok {
      var created := CreateSignup(request, createdAt, allowed);
      ok := created != null;
      if ok {
        request.state, request.result := Accepted, created;
      }
    }
  }
}
