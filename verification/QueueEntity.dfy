/** The QueueEntry entity: its lifecycle methods, and the property changes they stand for. */
module QueueEntity {
  import opened QueueTypes

  const MS_PER_MINUTE := 60 * 1000

  const RESPONSE_TIMEOUT_MS := 120 * 1000

  function Seated(e: EntryProps, now: Time): EntryProps {
    e.(status := SEATED, seatedAt := Some(now), position := None, updatedAt := now)
  }

  function Skipped(e: EntryProps, now: Time): EntryProps {
    e.(status := SKIPPED, position := None, updatedAt := now)
  }

  function Cancelled(e: EntryProps, status: QueueStatus, now: Time): EntryProps {
    e.(status := status, cancelledAt := Some(now), position := None, updatedAt := now)
  }

  function Rung(e: EntryProps, now: Time): EntryProps {
    e.(ringCount := e.ringCount + 1, lastRingedAt := Some(now), updatedAt := now)
  }

  /** A new place in line; a missing estimate leaves the stored one alone. */
  function Placed(e: EntryProps, position: int, eta: Option<int>, now: Time): EntryProps {
    e.(position := Some(position),
       estimatedWaitMinutes := if eta.Some? then eta else e.estimatedWaitMinutes,
       updatedAt := now)
  }

  /** Elapsed waiting time in whole minutes, frozen once the party has left the line. */
  function WaitMinutes(e: EntryProps, referenceTime: Time): nat {
    var end :=
      if e.status.SEATED? then (if e.seatedAt.Some? then e.seatedAt.value else e.updatedAt)
      else if !e.status.WAITING? then e.updatedAt
      else referenceTime;
    var minutes := (end - e.joinedAt) / MS_PER_MINUTE;
    if minutes < 0 then 0 else minutes
  }

  function ResponseDeadline(e: EntryProps): Option<Time> {
    if e.lastRingedAt.None? then None else Some(e.lastRingedAt.value + RESPONSE_TIMEOUT_MS)
  }

  /** Of the time from `start` to `end`, m whole minutes of sixty thousand milliseconds have passed. */
  predicate IsMinutes(m: nat, start: Time, end: Time) {
    if end < start then m == 0 else 60000 * m <= end - start < 60000 * (m + 1)
  }

  /** The reported wait of a party that is still in line runs to the present. */
  lemma WaitOfWaiting(e: EntryProps, now: Time)
    requires e.status == WAITING
    ensures IsMinutes(WaitMinutes(e, now), e.joinedAt, now)
  {
  }

  /** That of a seated party runs to its seating, and that of any other to its last change. */
  lemma WaitOfDeparted(e: EntryProps, now: Time)
    requires e.status != WAITING
    ensures IsMinutes(WaitMinutes(e, now), e.joinedAt,
                      if e.status == SEATED && e.seatedAt.Some? then e.seatedAt.value else e.updatedAt)
  {
  }

  /** A ring asks for an answer within two minutes. */
  lemma DeadlineIsTwoMinutes(e: EntryProps)
    ensures ResponseDeadline(e) == None <==> e.lastRingedAt == None
    ensures ResponseDeadline(e).Some? ==> ResponseDeadline(e).value == e.lastRingedAt.value + 120000
  {
  }

  class QueueEntry {
    var props: EntryProps

    constructor (props: EntryProps)
      ensures this.props == props
    {
      this.props := props;
    }

    method Seat(now: Time) returns (error: Option<QueueError>)
      modifies this
      ensures old(props).status.WAITING? ==> error.None? && props == Seated(old(props), now)
      ensures !old(props).status.WAITING? ==>
                error == Some(QueueEntryNotWaiting(old(props).id, old(props).status)) && props == old(props)
    {
      if !props.status.WAITING? {
        return Some(QueueEntryNotWaiting(props.id, props.status));
      }
      props := props.(status := SEATED);
      props := props.(seatedAt := Some(now));
      props := props.(position := None);
      props := props.(updatedAt := now);
      return None;
    }

    method Skip(now: Time) returns (error: Option<QueueError>)
      modifies this
      ensures old(props).status.WAITING? ==> error.None? && props == Skipped(old(props), now)
      ensures !old(props).status.WAITING? ==>
                error == Some(QueueEntryNotWaiting(old(props).id, old(props).status)) && props == old(props)
    {
      if !props.status.WAITING? {
        return Some(QueueEntryNotWaiting(props.id, props.status));
      }
      props := props.(status := SKIPPED);
      props := props.(position := None);
      props := props.(updatedAt := now);
      return None;
    }

    method Cancel(status: QueueStatus, now: Time) returns (error: Option<QueueError>)
      requires status.CANCELLED? || status.NO_SHOW?
      modifies this
      ensures old(props).status.WAITING? ==> error.None? && props == Cancelled(old(props), status, now)
      ensures !old(props).status.WAITING? ==>
                error == Some(QueueEntryNotWaiting(old(props).id, old(props).status)) && props == old(props)
    {
      if !props.status.WAITING? {
        return Some(QueueEntryNotWaiting(props.id, props.status));
      }
      props := props.(status := status);
      props := props.(cancelledAt := Some(now));
      props := props.(position := None);
      props := props.(updatedAt := now);
      return None;
    }

    method UpdatePosition(newPosition: int, newEta: Option<int>, now: Time)
      modifies this
      ensures props == if old(props).status.WAITING? then Placed(old(props), newPosition, newEta, now) else old(props)
    {
      if !props.status.WAITING? {
        return;
      }
      props := props.(position := Some(newPosition));
      if newEta.Some? {
        props := props.(estimatedWaitMinutes := newEta);
      }
      props := props.(updatedAt := now);
    }

    method Ring(now: Time) returns (error: Option<QueueError>)
      modifies this
      ensures !old(props).status.WAITING? ==>
                error == Some(QueueEntryNotWaiting(old(props).id, old(props).status)) && props == old(props)
      ensures old(props).status.WAITING? && old(props).registrationType.WALK_IN? ==>
                error == Some(CannotRingWalkInCustomer(old(props).id)) && props == old(props)
      ensures old(props).status.WAITING? && old(props).registrationType.ONLINE? ==>
                error.None? && props == Rung(old(props), now)
    {
      if !props.status.WAITING? {
        return Some(QueueEntryNotWaiting(props.id, props.status));
      }
      if props.registrationType.WALK_IN? {
        return Some(CannotRingWalkInCustomer(props.id));
      }
      props := props.(ringCount := props.ringCount + 1);
      props := props.(lastRingedAt := Some(now));
      props := props.(updatedAt := now);
      return None;
    }
  }
}
