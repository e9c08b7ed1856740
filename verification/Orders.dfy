/** Work orders and the small value types of `mittelwerk/core/models.py`.
    Decimal quantities are exact reals; timestamps, priorities and signatures are not modelled. */
module Orders {
  import opened Options

  datatype Side = Request | Offer {
    function Opposite(): Side {
      if this == Request then Offer else Request
    }

    /** A quantity with the sign of the side: requests count up, offers count down. */
    function Signed(x: real): real {
      if this == Request then x else -x
    }
  }

  datatype Mode = RateCapped | AnyRate | Escalation | EscalationCapped

  datatype Window = Open | Shift | Immediate | Complete | ScheduledEnd

  datatype Status = New | Accepted | PartiallyAssigned | Assigned | Cancelled | Rejected | Expired {
    predicate IsTerminal() {
      this in {Assigned, Cancelled, Rejected, Expired}
    }
  }

  function Min(a: real, b: real): real {
    if a <= b then a else b
  }

  function Abs(a: real): real {
    if a < 0.0 then -a else a
  }

  /** The value of a work order at one moment. */
  datatype Order = Order(
    id: string, org: string, asset: string, side: Side, mode: Mode, window: Window,
    requestedHours: real, cap: Option<real>, escalation: Option<real>,
    status: Status, assignedHours: real, avg: Option<real>)
  {
    function Remaining(): real {
      requestedHours - assignedHours
    }

    predicate FullyAssigned() {
      assignedHours >= requestedHours
    }

    /** What the model class enforces on construction and on every field assignment. */
    predicate Validated() {
      && requestedHours > 0.0
      && 0.0 <= assignedHours <= requestedHours
      && (mode in {RateCapped, EscalationCapped} ==> cap.Some? && cap.value > 0.0)
      && (mode in {Escalation, EscalationCapped} ==> escalation.Some? && escalation.value > 0.0)
    }

    /** The rate limit of the order's own side: a request never pays more, an offer never earns less. */
    predicate Accepts(rate: real) {
      mode == RateCapped && cap.Some? ==> if side == Request then rate <= cap.value else rate >= cap.value
    }

    /** What is required of an order that stands in a queue. */
    predicate Restable() {
      && Validated()
      && mode == RateCapped
      && window == Open
      && status in {Accepted, PartiallyAssigned}
      && Remaining() > 0.0
    }
  }

  /** An executed assignment. */
  datatype Fill = Fill(
    asset: string, requester: string, provider: string, rate: real, hours: real,
    requesterOrg: string, providerOrg: string, initiator: Side)

  /** `_compute_avg_rate`: the volume-weighted average after `hours` more at `rate`. */
  function AverageAfter(avg: Option<real>, hoursBefore: real, rate: real, hours: real): real
    requires hoursBefore >= 0.0 && hours > 0.0
  {
    if avg.None? || hoursBefore == 0.0 then rate
    else (avg.value * hoursBefore + rate * hours) / (hoursBefore + hours)
  }

  /** A mutable work order. Identity and terms are fixed; the engine updates the last three fields. */
  class WorkOrder {
    const id: string
    const org: string
    const asset: string
    const side: Side
    const mode: Mode
    const window: Window
    const requestedHours: real
    const cap: Option<real>
    const escalation: Option<real>
    var status: Status
    var assignedHours: real
    var avg: Option<real>

    function View(): Order
      reads this
    {
      Order(id, org, asset, side, mode, window, requestedHours, cap, escalation, status, assignedHours, avg)
    }

    constructor (o: Order)
      ensures View() == o
    {
      id, org, asset, side, mode, window := o.id, o.org, o.asset, o.side, o.mode, o.window;
      requestedHours, cap, escalation := o.requestedHours, o.cap, o.escalation;
      status, assignedHours, avg := o.status, o.assignedHours, o.avg;
    }
  }
}
