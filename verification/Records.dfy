/** Signups and runs as the mutable records the services update in place. */
module Records {
  import opened Sorting
  import opened Registration
  import opened Allocation

  class SignupRecord {
    const runId: nat
    const id: nat
    const profile: Profile
    const requested: Option<Key>
    const createdAt: int
    var state: SignupState
    var bucketKey: Option<Key>
    var counted: bool

    constructor (runId: nat, row: Signup)
      ensures Row() == row && this.runId == runId
    {
      this.runId := runId;
      id, profile, requested, createdAt := row.id, row.profile, row.requested, row.createdAt;
      state, bucketKey, counted := row.state, row.bucketKey, row.counted;
    }

    /** The record as a row of the table. */
    function Row(): Signup
      reads this
    {
      Signup(id, profile, state, bucketKey, requested, counted, createdAt)
    }

    method Update(state: SignupState, bucketKey: Option<Key>, counted: bool)
      modifies this
      ensures Row() == old(Row()).(state := state, bucketKey := bucketKey, counted := counted)
    {
      this.state, this.bucketKey, this.counted := state, bucketKey, counted;
    }
  }

  function Rows(records: seq<SignupRecord>): (rows: seq<Signup>)
    reads records
    ensures |rows| == |records| && forall i :: 0 <= i < |rows| ==> rows[i] == records[i].Row()
  {
    seq(|records|, i requires 0 <= i < |records| reads records => records[i].Row())
  }

  lemma RowsAre(records: seq<SignupRecord>, rows: seq<Signup>)
    requires |rows| == |records| && forall i :: 0 <= i < |rows| ==> rows[i] == records[i].Row()
    ensures Rows(records) == rows
  {}

  class RunRecord {
    const id: nat
    var signups: seq<SignupRecord>

    constructor (id: nat)
      ensures this.id == id && signups == [] && Valid()
    {
      this.id, signups := id, [];
    }

    /** Every signup belongs to the run and is found at its id. */
    ghost predicate Valid()
      reads this
    {
      forall i :: 0 <= i < |signups| ==> signups[i].id == i && signups[i].runId == id
    }

    ghost function Table(): (rows: seq<Signup>)
      reads this, signups
      requires Valid()
      ensures |rows| == |signups| && Numbered(rows)
    {
      Rows(signups)
    }

    /** The records of some distinct rows of the run. */
    function RecordsOf(rows: seq<Signup>): (records: seq<SignupRecord>)
      reads this, signups
      requires Valid() && Distinct(rows)
      requires forall s :: s in rows ==> s.id < |signups| && signups[s.id].Row() == s
      ensures Rows(records) == rows
      ensures forall s :: s in records ==> Has(s)
      ensures forall i, j :: 0 <= i < j < |records| ==> records[i] != records[j]
    {
      seq(|rows|, i requires 0 <= i < |rows| && rows[i].id < |signups| reads this => signups[rows[i].id])
    }

    ghost predicate Has(record: SignupRecord)
      reads this
    {
      record.id < |signups| && signups[record.id] == record
    }
  }
}
