/** Rows shared by the three planning phases: the leased job and the captured audience member. */
module PlanningRows {
  import opened Wrappers

  const BATCH_SIZE := 500
  const LEASE_TTL_SECONDS := 120

  datatype JobState = Pending | Processing | Ready | Failed

  datatype Lease = Lease(owner: int, expires: int)

  /** An unfinished job that is free, whose lease ran out, or that the same task delivery already holds. */
  predicate CanClaim(state: JobState, lease: Option<Lease>, owner: int, now: int) {
    && (state == Pending || state == Processing)
    && (lease.None? || lease.value.expires < now || lease.value.owner == owner)
  }

  /** What sets a lease: an execution that starts, or one that stores progress, with its owner and the time. */
  datatype Mark = Taken(owner: int, at: int) | Renewed(owner: int, at: int)

  /** The lease the last mark leaves. */
  function LeaseOf(marks: seq<Mark>): Option<Lease> {
    if marks == [] then None
    else Some(Lease(marks[|marks| - 1].owner, marks[|marks| - 1].at + LEASE_TTL_SECONDS))
  }

  /** Free for this owner: never set, set by this owner last, or longer ago than a lease lives. */
  predicate Free(marks: seq<Mark>, owner: int, now: int) {
    marks == [] || marks[|marks| - 1].owner == owner || now > marks[|marks| - 1].at + LEASE_TTL_SECONDS
  }

  /** Whoever takes the job comes later than the lifetime of the lease that another owner set last. */
  ghost predicate Exclusion(marks: seq<Mark>) {
    forall j | 0 <= j < |marks| && marks[j].Taken? :: Free(marks[..j], marks[j].owner, marks[j].at)
  }

  lemma OneMoreMark(marks: seq<Mark>, m: Mark)
    requires Exclusion(marks) && (m.Taken? ==> Free(marks, m.owner, m.at))
    ensures Exclusion(marks + [m]) && LeaseOf(marks + [m]) == Some(Lease(m.owner, m.at + LEASE_TTL_SECONDS))
  {
    var more := marks + [m];
    forall j | 0 <= j < |more| && more[j].Taken? ensures Free(more[..j], more[j].owner, more[j].at) {
      assert more[..j] == marks[..j];
      if j == |marks| { assert marks[..j] == marks; }
    }
  }

  lemma NoMarksYet()
    ensures Exclusion([]) && LeaseOf([]) == None
  {
  }

  lemma FreeMeansNoLiveLease(marks: seq<Mark>, owner: int, now: int)
    ensures Free(marks, owner, now) <==>
              LeaseOf(marks).None? || LeaseOf(marks).value.expires < now || LeaseOf(marks).value.owner == owner
  {
  }

  datatype Eligibility = Accepted | Excluded(reason: string)

  /** A stored audience member. */
  datatype Member = Member(lead: int, address: int, ordinal: int, revision: int,
                           variables: map<string, string>, eligibility: Eligibility)

  /** The unique keys of the members table: lead, address and ordinal, each within the audience. */
  predicate Clashes(a: Member, b: Member) {
    a.lead == b.lead || a.address == b.address || a.ordinal == b.ordinal
  }
}
