/** Changing a registration policy on records (event_change_registration_policy_service.rb): all
    signups are re-placed on copies first, and the real records change only when all fit. */
module PolicyChangeService {
  import opened Sorting
  import opened Registration
  import opened BucketFinder
  import opened Allocation
  import opened PolicyChange
  import opened PolicyChangeResults
  import opened Records
  import opened SlotServices
  import VacancyFill

  class SignupSimulator {
    const policy: Policy
    ghost const runId: nat
    /** `new_signups_by_signup_id` in insertion order; each record carries its id. */
    var placed: seq<SignupRecord>
    var immovable: seq<SignupRecord>
    /** The copies made so far. Signups that are kept stand in `placed` uncopied. */
    ghost var copies: set<SignupRecord>

    constructor (policy: Policy, ghost runId: nat)
      ensures this.policy == policy && this.runId == runId && placed == [] && immovable == [] && copies == {}
    {
      this.policy, this.runId, placed, immovable, copies := policy, runId, [], [], {};
    }

    /** Whatever holds a bucket is a copy, so that moving it changes no real signup. */
    ghost predicate Valid()
      reads this, placed
    {
      policy.Valid() &&
      (forall i, j :: 0 <= i < j < |placed| ==> placed[i] != placed[j]) &&
      (forall c :: c in placed ==> c.runId == runId && (c.bucketKey.Some? ==> c in copies)) &&
      (forall s :: s in immovable ==> s.runId == runId)
    }

    /** `move_signup`: moves a copy out of the bucket. */
    method MoveSignup(requested: Option<Key>, from: Bucket)
      requires Valid() && FindBucket(policy, requested, Rows(placed)) == Some(from) && from.Full(Rows(placed))
      modifies copies
      ensures Valid()
      ensures Rows(placed) == Bump(policy, old(Rows(placed)), requested, from)
    {
      ghost var before := Rows(placed);
      var (j, to) := BumpTarget(policy, Rows(placed), requested, from);
      var copy := placed[j];
      assert copy in placed && copy in copies;
      copy.Update(copy.state, Some(to.key), copy.counted);
      RowsAre(placed, before[j := before[j].(bucketKey := Some(to.key))]);
    }

    /** `place_signup`: a fresh copy of the signup takes its place. */
    method PlaceSignup(signup: SignupRecord, d: Bucket)
      requires Valid() && signup !in copies && signup.runId == runId && Destination(policy, Rows(placed), signup.Row()) == Some(d)
      modifies this`placed, this`copies, copies
      ensures Valid() && old(copies) <= copies && fresh(copies - old(copies))
      ensures Rows(placed) == MakeRoom(policy, old(Rows(placed)), old(signup.Row()), d) +
                              [VacancyFill.Seat(old(signup.Row()), d)]
    {
      if d.Full(Rows(placed)) {
        MoveSignup(signup.requested, d);
      }
      ghost var room := Rows(placed);
      var copy := new SignupRecord(signup.runId, VacancyFill.Seat(signup.Row(), d));
      placed := placed + [copy];
      copies := copies + {copy};
      RowsAre(placed, room + [copy.Row()]);
    }

    /** `simulate_signup` */
    method SimulateSignup(signup: SignupRecord)
      requires Valid() && signup !in copies && signup.runId == runId
      modifies this`placed, this`copies, this`immovable, copies
      ensures Valid() && old(copies) <= copies && fresh(copies - old(copies))
      ensures Rows(placed) == PolicyChange.SimulateSignup(policy, old(Rows(placed)), old(signup.Row()))
      ensures immovable == old(immovable) +
                (if signup.state.Confirmed? && Destination(policy, old(Rows(placed)), old(signup.Row())).None?
                 then [signup] else [])
    {
      var destination := Destination(policy, Rows(placed), signup.Row());
      if destination.None? {
        if signup.state.Confirmed? {
          immovable := immovable + [signup];
        }
      } else {
        PlaceSignup(signup, destination.value);
      }
    }

    /** The first half of `simulate_signups`: signups without a bucket are kept as they are, the
        others are to be placed. */
    method Keep(run: RunRecord) returns (toPlace: seq<SignupRecord>)
      requires policy.Valid() && run.Valid() && run.id == runId && placed == [] && copies == {} && immovable == []
      modifies this`placed
      ensures Valid() && Rows(placed) == ToKeep(run.Table())
      ensures Rows(toPlace) == ToPlace(run.Table())
      ensures forall s :: s in toPlace ==> s.runId == runId
    {
      var rows := Rows(run.signups);
      Partition(policy, rows);
      placed := run.RecordsOf(ToKeep(rows));
      toPlace := run.RecordsOf(ToPlace(rows));
      HoldNoBucket(placed, ToKeep(rows));
    }

    /** One round of the second half: real signups are left as they are. */
    method PlaceNth(toPlace: seq<SignupRecord>, i: nat)
      requires Valid() && i < |toPlace|
      requires (forall s :: s in toPlace ==> s !in copies && s.runId == runId) && (forall s :: s in immovable ==> s in toPlace)
      modifies this`placed, this`copies, this`immovable, copies
      ensures Valid() && old(copies) <= copies && fresh(copies - old(copies))
      ensures (forall s :: s in toPlace ==> s !in copies) && (forall s :: s in immovable ==> s in toPlace)
      ensures Rows(toPlace) == old(Rows(toPlace))
      ensures Rows(placed) == PolicyChange.SimulateSignup(policy, old(Rows(placed)), old(Rows(toPlace))[i])
      ensures Rows(immovable) == old(Rows(immovable)) + Stuck(policy, old(Rows(placed)), old(Rows(toPlace))[i])
    {
      ghost var rows, stuck := Rows(toPlace), Rows(immovable);
      ghost var more := Stuck(policy, Rows(placed), rows[i]);
      SimulateSignup(toPlace[i]);
      RowsAre(toPlace, rows);
      RowsAre(immovable, stuck + more);
    }

    /** The second half: one signup after another is placed, and no real signup changes. */
    method PlaceAll(toPlace: seq<SignupRecord>)
      requires Valid() && copies == {} && immovable == [] && forall s :: s in toPlace ==> s.runId == runId
      modifies this`placed, this`copies, this`immovable
      ensures Valid() && fresh(copies)
      ensures Rows(placed) == Simulate(policy, old(Rows(placed)), old(Rows(toPlace)))
      ensures Rows(immovable) == Immovable(policy, old(Rows(placed)), old(Rows(toPlace)))
    {
      ghost var rows, start := Rows(toPlace), Rows(placed);
      for i := 0 to |toPlace|
        invariant Valid() && fresh(copies) && Rows(toPlace) == rows
        invariant (forall s :: s in toPlace ==> s !in copies) && (forall s :: s in immovable ==> s in toPlace)
        invariant Simulate(policy, Rows(placed), rows[i..]) == Simulate(policy, start, rows)
        invariant Rows(immovable) + Immovable(policy, Rows(placed), rows[i..]) == Immovable(policy, start, rows)
      {
        OneMore(policy, Rows(placed), rows, i, Rows(immovable));
        PlaceNth(toPlace, i);
      }
    }
  }

  lemma HoldNoBucket(records: seq<SignupRecord>, rows: seq<Signup>)
    requires Rows(records) == rows && forall s :: s in rows ==> s.bucketKey.None?
    ensures forall c :: c in records ==> c.bucketKey.None?
  {
    forall i | 0 <= i < |records| ensures records[i].bucketKey.None? {
      assert rows[i] == records[i].Row() && rows[i] in rows;
    }
  }

  function Stuck(p: Policy, placed: seq<Signup>, s: Signup): seq<Signup> {
    if s.state.Confirmed? && Destination(p, placed, s).None? then [s] else []
  }

  lemma OneMore(p: Policy, placed: seq<Signup>, rows: seq<Signup>, i: nat, stuck: seq<Signup>)
    requires p.Valid() && i < |rows|
    ensures var next := PolicyChange.SimulateSignup(p, placed, rows[i]);
            Simulate(p, placed, rows[i..]) == Simulate(p, next, rows[i + 1..]) &&
            stuck + Immovable(p, placed, rows[i..]) ==
            stuck + Stuck(p, placed, rows[i]) + Immovable(p, next, rows[i + 1..])
  {
    assert rows[i..][1..] == rows[i + 1..];
    var next := PolicyChange.SimulateSignup(p, placed, rows[i]);
    var more, rest := Stuck(p, placed, rows[i]), Immovable(p, next, rows[i + 1..]);
    assert Immovable(p, placed, rows[i..]) == more + rest;
    Regrouped(stuck, more, rest);
  }

  lemma Regrouped(a: seq<Signup>, b: seq<Signup>, c: seq<Signup>)
    ensures a + (b + c) == a + b + c
  {}

  class ChangeService {
    const event: EventRecord
    const policy: Policy

    constructor (event: EventRecord, policy: Policy)
      ensures this.event == event && this.policy == policy
    {
      this.event, this.policy := event, policy;
    }

    /** Simulates one run; no existing record changes. */
    method SimulateRun(run: RunRecord) returns (simulator: SignupSimulator)
      requires policy.Valid() && run.Valid()
      ensures fresh(simulator) && Simulated(simulator, run.id, run.Table())
    {
      ghost var table := run.Table();
      simulator := new SignupSimulator(policy, run.id);
      assert run.Table() == table;
      var toPlace := simulator.Keep(run);
      simulator.PlaceAll(toPlace);
    }

    /** `apply_changes_for_signup`: writes a copy's state, bucket and flag to the real signup. */
    method ApplyChanges(signup: SignupRecord, copy: SignupRecord)
      modifies signup
      ensures signup.Row() == WithState(old(signup.Row()), old(copy.Row()))
    {
      if copy.state != signup.state || copy.bucketKey != signup.bucketKey || copy.counted != signup.counted {
        signup.Update(copy.state, copy.bucketKey, copy.counted);
      }
    }

    /** The part of `apply_all_changes` that concerns one run. A kept signup is its own copy. */
    method ApplyRun(run: RunRecord, placed: seq<SignupRecord>)
      requires run.Valid() && Distinct(Rows(placed))
      requires forall c :: c in placed ==> c.id < |run.signups|
      modifies run.signups
      ensures run.Valid() && run.Table() == Overlay(old(run.Table()), old(Rows(placed)))
    {
      ghost var table, rows := run.Table(), Rows(placed);
      for i := 0 to |placed|
        invariant run.Valid() && run.Table() == Overlay(table, rows[..i]) && Rows(placed) == rows
      {
        var copy := placed[i];
        assert copy in placed;
        var signup := run.signups[copy.id];
        forall j | 0 <= j < |placed| && placed[j] == signup ensures signup == copy {
          assert placed[j] in placed && rows[j].id == signup.id;
        }
        ghost var before := run.Table();
        ApplyChanges(signup, copy);
        RowsAre(placed, rows);
        RowsAre(run.signups, before[copy.id := WithState(before[copy.id], rows[i])]);
        OverlayOneMore(table, rows, i);
      }
      assert rows[..|placed|] == rows;
    }

    /** The simulator holds exactly these copies, of signups of run `r`. */
    ghost predicate Holds(simulator: SignupSimulator, r: nat, copies: seq<Signup>)
      reads simulator, simulator.placed
    {
      (forall c :: c in simulator.placed ==> c.runId == r) && Rows(simulator.placed) == copies
    }

    ghost predicate Simulated(simulator: SignupSimulator, r: nat, table: seq<Signup>)
      reads simulator, simulator.placed, simulator.immovable
    {
      policy.Valid() && Holds(simulator, r, Replaced(policy, table)) &&
      Rows(simulator.immovable) == Stranded(policy, table)
    }

    /** `simulate_signups`: every run, on copies only */
    method SimulateAll() returns (simulators: seq<SignupSimulator>)
      requires policy.Valid() && event.Valid()
      ensures event.Valid() && event.Tables() == old(event.Tables())
      ensures |simulators| == |event.runs|
      ensures forall r :: 0 <= r < |simulators| ==>
                Simulated(simulators[r], r, event.runs[r].Table())
    {
      ghost var tables := event.Tables();
      simulators := [];
      for r := 0 to |event.runs|
        invariant event.Valid() && event.Tables() == tables && |simulators| == r
        invariant forall o :: 0 <= o < r ==> Simulated(simulators[o], o, tables[o])
      {
        var simulator := SimulateRun(event.runs[r]);
        simulators := simulators + [simulator];
      }
    }

    /** Applies the copies of one run; the other runs stay as they are. */
    method ApplyNth(simulator: SignupSimulator, r: nat, ghost tables: seq<seq<Signup>>, ghost copies: seq<Signup>)
      requires event.RunsAre(tables) && r < |tables| && Holds(simulator, r, copies)
      requires Distinct(copies) && forall c :: c in copies ==> c.id < |tables[r]|
      modifies event.runs[r].signups
      ensures event.RunsAre(tables[r := Overlay(tables[r], copies)])
    {
      forall c | c in simulator.placed ensures c.id < |event.runs[r].signups| {
        var i :| 0 <= i < |simulator.placed| && simulator.placed[i] == c;
        assert copies[i] in copies;
      }
      ApplyRun(event.runs[r], simulator.placed);
      forall o | 0 <= o < |tables| && o != r ensures Rows(event.runs[o].signups) == tables[o] {
        RowsAre(event.runs[o].signups, tables[o]);
      }
    }

    /** `apply_all_changes` */
    method ApplyAll(simulators: seq<SignupSimulator>, ghost tables: seq<seq<Signup>>, ghost copies: seq<seq<Signup>>)
      requires |simulators| == |event.runs| == |tables| == |copies|
      requires forall r :: 0 <= r < |tables| ==>
                 Distinct(copies[r]) && forall c :: c in copies[r] ==> c.id < |tables[r]|
      requires event.RunsAre(tables) && forall r :: 0 <= r < |tables| ==> Holds(simulators[r], r, copies[r])
      modifies event.Records()
      ensures event.RunsAre(seq(|tables|, r requires 0 <= r < |tables| && r < |copies| => Overlay(tables[r], copies[r])))
    {
      ghost var records, now := event.Records(), tables;
      for r := 0 to |event.runs|
        invariant |now| == |tables| && event.RunsAre(now)
        invariant forall o :: r <= o < |tables| ==> now[o] == tables[o] && Holds(simulators[o], o, copies[o])
        invariant forall o :: 0 <= o < r ==> now[o] == Overlay(tables[o], copies[o])
      {
        assert forall s :: s in event.runs[r].signups ==> s in records;
        ApplyNth(simulators[r], r, now, copies[r]);
        now := now[r := Overlay(tables[r], copies[r])];
      }
      assert now == seq(|tables|, r requires 0 <= r < |tables| && r < |copies| => Overlay(tables[r], copies[r]));
    }

    /** Every run becomes what the simulation made of it. */
    method ApplySimulated(simulators: seq<SignupSimulator>, ghost tables: seq<seq<Signup>>)
      requires policy.Valid() && |simulators| == |tables| && event.RunsAre(tables)
      requires forall r :: 0 <= r < |tables| ==> Simulated(simulators[r], r, tables[r])
      modifies event.Records()
      ensures event.Valid() && event.Tables() == ChangedRuns(policy, tables)
    {
      ghost var copies: seq<seq<Signup>> := seq(|tables|, r requires 0 <= r < |tables| => Replaced(policy, tables[r]));
      forall r | 0 <= r < |tables|
        ensures Distinct(copies[r]) && forall c: Signup :: c in copies[r] ==> c.id < |tables[r]|
      {
        assert Simulated(simulators[r], r, tables[r]);
        ReplacedRun(policy, tables[r]);
      }
      ApplyAll(simulators, tables, copies);
      assert ChangedRuns(policy, tables) ==
             seq(|tables|, r requires 0 <= r < |tables| && r < |copies| => Overlay(tables[r], copies[r]));
      event.TablesAre(ChangedRuns(policy, tables));
    }

    /** `inner_call`: all signups of the event and its policy change, or nothing does. */
    method Call() returns (ok: bool)
      requires policy.Valid() && event.Valid()
      modifies event`policy, event.Records()
      ensures event.Valid()
      ensures ok == ChangePolicy(policy, old(event.Tables())).Some?
      ensures ok ==> event.policy == policy && ChangePolicy(policy, old(event.Tables())) == Some(event.Tables())
      ensures !ok ==> event.policy == old(event.policy) && event.Tables() == old(event.Tables())
    {
      ghost var tables := event.Tables();
      var simulators := SimulateAll();
      ok := forall r :: 0 <= r < |simulators| ==> simulators[r].immovable == [];
      AllOrNothing(simulators, tables);
      if ok {
        ApplySimulated(simulators, tables);
        event.UpdatePolicy(policy);
      }
    }

    lemma AllOrNothing(simulators: seq<SignupSimulator>, tables: seq<seq<Signup>>)
      requires policy.Valid() && |simulators| == |tables|
      requires forall r :: 0 <= r < |tables| ==> Simulated(simulators[r], r, tables[r])
      ensures ChangePolicy(policy, tables).Some? <==>
              forall r :: 0 <= r < |simulators| ==> simulators[r].immovable == []
    {
      forall r | 0 <= r < |tables| ensures simulators[r].immovable == [] <==> Stranded(policy, tables[r]) == [] {
        assert |Rows(simulators[r].immovable)| == |Stranded(policy, tables[r])|;
      }
    }
  }

  lemma OverlayOneMore(table: seq<Signup>, rows: seq<Signup>, i: nat)
    requires i < |rows| && rows[i].id < |Overlay(table, rows[..i])|
    ensures var rest := Overlay(table, rows[..i]);
            Overlay(table, rows[..i + 1]) == rest[rows[i].id := WithState(rest[rows[i].id], rows[i])]
  {
    assert rows[..i + 1][..i] == rows[..i];
  }
}
