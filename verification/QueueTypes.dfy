/** The records of the queue service and the answers of the services around it. */
module QueueTypes {

  datatype Option<+T> = None | Some(value: T)

  type Id = string

  /** Milliseconds since the epoch. */
  type Time = nat

  datatype QueueStatus = WAITING | SEATED | SKIPPED | CANCELLED | NO_SHOW

  datatype RegistrationType = ONLINE | WALK_IN

  /** One queue row; the in-memory entity holds the same fields. */
  datatype EntryProps = EntryProps(
    id: Id,
    restaurantId: Id,
    userId: Option<Id>,
    phone: string,
    queueNumber: string,
    partySize: nat,
    registrationType: RegistrationType,
    position: Option<int>,
    estimatedWaitMinutes: Option<int>,
    estimatedWaitMinutesAtJoin: Option<int>,
    status: QueueStatus,
    ringCount: nat,
    lastRingedAt: Option<Time>,
    joinedAt: Time,
    seatedAt: Option<Time>,
    cancelledAt: Option<Time>,
    createdAt: Time,
    updatedAt: Time
  )

  /** The queue table. Rows are never deleted, so a row keeps its slot (its index) for ever. */
  type Rows = seq<EntryProps>

  /** One audit record; `previousStatus` is None only for the record a registration writes. */
  datatype StatusChange = StatusChange(
    queueEntryId: Id,
    previousStatus: Option<QueueStatus>,
    currentStatus: QueueStatus,
    changedBy: string,
    changedAt: Time
  )

  datatype TableAssignment = TableAssignment(
    queueEntryId: Id,
    tableId: Id,
    assignedBy: string,
    assignedAt: Time,
    releasedAt: Option<Time>
  )

  /** The live copy of a waiting party's place, kept in the cache. */
  datatype LiveEntry = LiveEntry(
    queueEntryId: Id,
    restaurantId: Id,
    position: int,
    currentEta: int,
    updatedAt: Time
  )

  datatype QueueError =
    | UpstreamServiceUnavailable
    | RestaurantBlocked
    | QueueProSubscriptionRequired
    | RestaurantNotAcceptingQueue
    | TableAvailable(availableCount: nat)
    | ActiveQueueEntryExists(phone: string)
    | ActiveUserQueueEntryExists
    | QueueEntryNotFound(queueEntryId: Id)
    | QueueEntryNotWaiting(queueEntryId: Id, currentStatus: QueueStatus)
    | CannotRingWalkInCustomer(queueEntryId: Id)
    | InsufficientTableCapacity(partySize: nat, totalCapacity: nat)
    | PersistenceFailure

  datatype Result<+T> = Success(value: T) | Failure(error: QueueError)

  /** A table and the number of seats a step takes or gives back there. */
  datatype TableSeats = TableSeats(tableId: Id, count: nat)

  /**
   * What the steps read besides the tables: the wait-time predictor (a fixed function of
   * restaurant, people ahead and party size) and the local midnight before an instant.
   */
  datatype Env = Env(predict: (Id, nat, nat) -> nat, startOfDay: Time -> Time)

  datatype RestaurantStatus = RestaurantStatus(
    isBlocked: bool,
    isSubscriptionActive: bool,
    subscriptionPlanCode: Option<string>
  )

  datatype TableCheck = TableCheck(
    isOpen: bool,
    acceptsQueue: bool,
    isTableAvailable: bool,
    availableCount: nat
  )

  /** What the restaurant service answers during one call; None is a failed call. */
  datatype RestaurantAnswers = RestaurantAnswers(
    status: Option<RestaurantStatus>,
    tables: Option<TableCheck>
  )

  datatype Registration = Registration(
    restaurantId: Id,
    userId: Option<Id>,
    staffUserId: Option<Id>,
    guestPhone: string,
    partySize: nat,
    registrationType: Option<RegistrationType>
  )

  /** The reasons the cancel request admits. */
  datatype CancelReason = REASON_NO_SHOW | GUEST_CANCELLED | WALK_OUT | OTHER
}
