/**
 * PatientStatus: the tracked state of one patient, whose last-updated time only moves forward.
 */
module PatientStatuses {
  import opened Wrappers

  /** The value updateLastUpdatedIfLater leaves: a null timestamp changes nothing, otherwise the later one wins. */
  function Later(current: Option<int>, timestamp: Option<int>): Option<int> {
    if timestamp.None? then current
    else if current.None? || current.value < timestamp.value then timestamp
    else current
  }

  /** Later is the maximum of the non-null values, and null only when both are. */
  lemma LaterIsMax(current: Option<int>, timestamp: Option<int>)
    ensures var r := Later(current, timestamp);
      (r.None? <==> current.None? && timestamp.None?) &&
      (r.Some? ==> (r == current || r == timestamp)) &&
      (r.Some? && current.Some? ==> current.value <= r.value) &&
      (r.Some? && timestamp.Some? ==> timestamp.value <= r.value)
  {
  }

  /** Applying the same timestamp twice is the same as applying it once. */
  lemma LaterIdempotent(current: Option<int>, timestamp: Option<int>)
    ensures Later(Later(current, timestamp), timestamp) == Later(current, timestamp)
  {
  }

  /** The final value does not depend on the order in which two timestamps arrive. */
  lemma LaterCommutes(current: Option<int>, t1: Option<int>, t2: Option<int>)
    ensures Later(Later(current, t1), t2) == Later(Later(current, t2), t1)
  {
  }

  class PatientStatus {
    var patientId: Option<int>
    var lastUpdated: Option<int>
    var deleted: bool

    /** A new status: no patient, no last-updated time, not deleted. */
    constructor()
      ensures patientId.None? && lastUpdated.None? && !deleted
    {
      patientId := None;
      lastUpdated := None;
      deleted := false;
    }

    method UpdateLastUpdatedIfLater(timestamp: Option<int>)
      modifies this
      ensures lastUpdated == Later(old(lastUpdated), timestamp)
      ensures patientId == old(patientId) && deleted == old(deleted)
      ensures old(lastUpdated).Some? ==> lastUpdated.Some? && old(lastUpdated).value <= lastUpdated.value
    {
      if timestamp.Some? {
        if lastUpdated.None? || lastUpdated.value < timestamp.value {
          lastUpdated := timestamp;
        }
      }
    }
  }
}
