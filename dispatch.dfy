/** Request dispatch: one exchange with the agent and the check on its reply,
    and the single-shot operations built on it. */
module Dispatch {
  import opened Types
  import opened Requests

  /** `sendPacket`: hand the packet to the transport under the session timeout;
      a failed stage becomes an error, and so does a decoded reply without
      variable bindings. */
  function Send(link: Link, packet: SnmpPacket): Result<SnmpPacket>
  {
    match link.transport(packet, link.timeout)
    case Failed(stage) => Err(ExchangeFailed(stage))
    case Delivered(response) =>
      if |response.variables| < 1 then Err(NoResponses) else Ok(response)
  }

  /** A reply is accepted exactly when it arrived and carries at least one
      binding, and then it is returned unchanged; a failed stage is reported
      as such, and an empty reply as having no responses. */
  lemma SendChecksReply(link: Link, packet: SnmpPacket)
    ensures var r := Send(link, packet);
      var x := link.transport(packet, link.timeout);
      && (r.Ok? ==> |r.value.variables| >= 1)
      && (r.Ok? <==> x.Delivered? && |x.response.variables| >= 1)
      && (r.Ok? ==> r.value == x.response)
      && (x.Failed? ==> r == Err(ExchangeFailed(x.stage)))
      && (r.Err? && x.Delivered? ==> r.error == NoResponses)
  {
  }

  function Get(link: Link, oid: string): Result<SnmpPacket>
  {
    Send(link, GetPacket(link.community, oid))
  }

  function GetNext(link: Link, oid: string): Result<SnmpPacket>
  {
    Send(link, GetNextPacket(link.community, oid))
  }

  function GetMulti(link: Link, oids: seq<string>): Result<SnmpPacket>
  {
    Send(link, GetMultiPacket(link.community, oids))
  }

  function GetBulk(link: Link, nonRepeaters: uint8, maxRepetitions: uint8, oids: seq<string>): Result<SnmpPacket>
  {
    Send(link, GetBulkPacket(link.community, nonRepeaters, maxRepetitions, oids))
  }
}
