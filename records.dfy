/** The persistent records of esi_leap/objects: an Offer (a resource plus an
    availability window) and a Contract (a booked sub-window of an Offer).
    Timestamps are integers; `properties` and the database `id` are not
    modelled. */
module Records {
  import opened Wrappers

  type Uuid = string

  /** The status values of esi_leap.common.statuses used by the core. */
  datatype Status = Available | Created | Active | Cancelled | Expired

  /** The text stored in the `status` column for each status. */
  function StatusName(s: Status): string
  {
    match s
    case Available => "available"
    case Created => "created"
    case Active => "active"
    case Cancelled => "cancelled"
    case Expired => "expired"
  }

  /** A physical resource, identified by `resource_type` and `resource_uuid`. */
  datatype ResourceKey = ResourceKey(resourceType: string, resourceUuid: string)

  /** A time interval `[start, end)`; the availability calculator returns
      these as `[start, end]` pairs. */
  datatype Span = Span(start: int, end: int)

  datatype Offer = Offer(
    uuid: Uuid,
    name: Option<string>,
    projectId: string,
    resource: ResourceKey,
    startTime: int,
    endTime: int,
    status: Status)

  datatype Contract = Contract(
    uuid: Uuid,
    name: Option<string>,
    projectId: string,
    startTime: int,
    endTime: int,
    status: Status,
    offerUuid: Uuid)
}
