/** The record shapes of the `couriers`, `users` and `logs` tables and the
    string enumerations the schema validates (`v.union(v.literal(...))`).
    Numbers that are only stored (weight, distance, price) are reals; the
    timestamps are integral milliseconds. */
module Schema {
  import opened Store

  /** The six delivery states a courier record may hold. */
  datatype Status = Pending | PickedUp | InTransit | OutForDelivery | Delivered | Cancelled

  function StatusName(s: Status): string {
    match s
    case Pending => "pending"
    case PickedUp => "picked_up"
    case InTransit => "in_transit"
    case OutForDelivery => "out_for_delivery"
    case Delivered => "delivered"
    case Cancelled => "cancelled"
  }

  /** The `currentStatus` validator: it accepts exactly the six literals. */
  function ParseStatus(x: string): (r: Option<Status>)
    ensures r.Some? ==> StatusName(r.value) == x
    ensures r.None? ==> forall s: Status :: StatusName(s) != x
  {
    if x == "pending" then Some(Pending)
    else if x == "picked_up" then Some(PickedUp)
    else if x == "in_transit" then Some(InTransit)
    else if x == "out_for_delivery" then Some(OutForDelivery)
    else if x == "delivered" then Some(Delivered)
    else if x == "cancelled" then Some(Cancelled)
    else None
  }

  datatype PaymentStatus = Paid | Unpaid | PaymentPending

  function PaymentStatusName(p: PaymentStatus): string {
    match p
    case Paid => "paid"
    case Unpaid => "unpaid"
    case PaymentPending => "pending"
  }

  /** The `paymentStatus` validator: paid, unpaid or pending. */
  function ParsePaymentStatus(x: string): (r: Option<PaymentStatus>)
    ensures r.Some? ==> PaymentStatusName(r.value) == x
    ensures r.None? ==> forall p: PaymentStatus :: PaymentStatusName(p) != x
  {
    if x == "paid" then Some(Paid)
    else if x == "unpaid" then Some(Unpaid)
    else if x == "pending" then Some(PaymentPending)
    else None
  }

  datatype Role = Admin | Agent | Customer

  function RoleName(r: Role): string {
    match r
    case Admin => "admin"
    case Agent => "agent"
    case Customer => "customer"
  }

  /** The `role` validator: admin, agent or customer. */
  function ParseRole(x: string): (r: Option<Role>)
    ensures r.Some? ==> RoleName(r.value) == x
    ensures r.None? ==> forall role: Role :: RoleName(role) != x
  {
    if x == "admin" then Some(Admin)
    else if x == "agent" then Some(Agent)
    else if x == "customer" then Some(Customer)
    else None
  }

  /** A courier (shipment) record. `assignedTo` is a user id. */
  datatype Courier = Courier(
    trackingId: string,
    senderName: string,
    receiverName: string,
    receiverPhone: string,
    pickupAddress: string,
    deliveryAddress: string,
    currentStatus: Status,
    notes: Option<string>,
    expectedDeliveryDate: Option<string>,
    weight: Option<real>,
    distance: Option<real>,
    price: Option<real>,
    paymentStatus: Option<PaymentStatus>,
    assignedTo: Option<nat>,
    createdAt: int,
    updatedAt: int)

  /** A user account; the password is stored as given. */
  datatype User = User(
    name: string,
    email: string,
    password: string,
    role: Role,
    phone: Option<string>,
    createdAt: int)

  /** An activity-log entry; `courierId` and `performedBy` are ids. */
  datatype LogEntry = LogEntry(
    courierId: Option<nat>,
    trackingId: string,
    action: string,
    description: string,
    performedBy: Option<nat>,
    timestamp: int)

  /** Each enumeration's literal reads back as its value, so the validators
      accept every stored value and name no two values alike. */
  lemma NamesRoundTrip(s: Status, p: PaymentStatus, r: Role)
    ensures ParseStatus(StatusName(s)) == Some(s)
    ensures ParsePaymentStatus(PaymentStatusName(p)) == Some(p)
    ensures ParseRole(RoleName(r)) == Some(r)
  {
    match s
    case Pending =>
    case PickedUp =>
    case InTransit =>
    case OutForDelivery =>
    case Delivered =>
    case Cancelled =>
  }
}
