/** The request packets the session builds: one per operation, each asking for
    its OIDs with one Null placeholder per OID. */
module Requests {
  import opened Types

  /** The version tag every request carries: SNMP v2c, whatever version the
      session was configured with. */
  const WireVersion: SnmpVersion := 1

  /** The query placeholder for one OID. */
  function Placeholder(oid: string): SnmpPdu
  {
    SnmpPdu(oid, Null, Nil)
  }

  /** One placeholder per OID, in order. */
  function Placeholders(oids: seq<string>): (vars: seq<SnmpPdu>)
    ensures |vars| == |oids|
    ensures forall i :: 0 <= i < |oids| ==> vars[i].name == oids[i] && vars[i].berType == Null && vars[i].value == Nil
  {
    if oids == [] then [] else [Placeholder(oids[0])] + Placeholders(oids[1..])
  }

  /** The names carried by a list of bindings. */
  function Names(vars: seq<SnmpPdu>): seq<string>
  {
    if vars == [] then [] else [vars[0].name] + Names(vars[1..])
  }

  /** A binding list that only asks: every entry is a Null placeholder. */
  predicate IsQuery(vars: seq<SnmpPdu>)
  {
    forall i :: 0 <= i < |vars| ==> vars[i].berType == Null && vars[i].value == Nil
  }

  /** Reading the names back out of the placeholders gives the OIDs asked for. */
  lemma {:induction false} NamesOfPlaceholders(oids: seq<string>)
    ensures Names(Placeholders(oids)) == oids
    ensures IsQuery(Placeholders(oids))
  {
    if oids != [] {
      NamesOfPlaceholders(oids[1..]);
    }
  }

  /** A request packet with the fields every builder fixes. */
  function Request(community: string, kind: PduType, nonRepeaters: uint8, maxRepetitions: uint8, oids: seq<string>): SnmpPacket
  {
    SnmpPacket(WireVersion, community, kind, 0, 0, nonRepeaters, maxRepetitions, Placeholders(oids))
  }

  /** The packet `Get(oid)` sends. */
  function GetPacket(community: string, oid: string): SnmpPacket
  {
    SnmpPacket(WireVersion, community, GetRequest, 0, 0, 0, 0, [Placeholder(oid)])
  }

  /** The packet `GetNext(oid)` sends. */
  function GetNextPacket(community: string, oid: string): SnmpPacket
  {
    SnmpPacket(WireVersion, community, GetNextRequest, 0, 0, 0, 0, [Placeholder(oid)])
  }

  /** The packet `GetMulti(oids)` sends. */
  function GetMultiPacket(community: string, oids: seq<string>): SnmpPacket
  {
    Request(community, GetRequest, 0, 0, oids)
  }

  /** The packet `GetBulk(nonRepeaters, maxRepetitions, oids...)` sends. */
  function GetBulkPacket(community: string, nonRepeaters: uint8, maxRepetitions: uint8, oids: seq<string>): SnmpPacket
  {
    Request(community, GetBulkRequest, nonRepeaters, maxRepetitions, oids)
  }

  /** Every builder asks for exactly its OIDs, in order, with Null placeholders,
      under the session's community and version tag 1; only GetBulk carries
      non-zero repetition counters. */
  lemma {:induction false} BuildersAskForTheirOids(community: string, oid: string, oids: seq<string>, nonRepeaters: uint8, maxRepetitions: uint8)
    ensures var p := GetPacket(community, oid);
      p.version == 1 && p.community == community && p.requestType == GetRequest &&
      Names(p.variables) == [oid] && IsQuery(p.variables) && p.nonRepeaters == p.maxRepetitions == 0
    ensures var p := GetNextPacket(community, oid);
      p.version == 1 && p.community == community && p.requestType == GetNextRequest &&
      Names(p.variables) == [oid] && IsQuery(p.variables) && p.nonRepeaters == p.maxRepetitions == 0
    ensures var p := GetMultiPacket(community, oids);
      p.version == 1 && p.community == community && p.requestType == GetRequest &&
      Names(p.variables) == oids && IsQuery(p.variables) && p.nonRepeaters == p.maxRepetitions == 0
    ensures var p := GetBulkPacket(community, nonRepeaters, maxRepetitions, oids);
      p.version == 1 && p.community == community && p.requestType == GetBulkRequest &&
      Names(p.variables) == oids && IsQuery(p.variables) &&
      p.nonRepeaters == nonRepeaters && p.maxRepetitions == maxRepetitions
  {
    NamesOfPlaceholders(oids);
    NamesOfPlaceholders([oid]);
  }

  /** Asking `GetMulti` for one OID sends the same packet as `Get`. */
  lemma GetMultiOfOne(community: string, oid: string)
    ensures GetMultiPacket(community, [oid]) == GetPacket(community, oid)
  {
    assert Placeholders([oid]) == [Placeholder(oid)];
  }

  /** The GetNext packets for a sequence of cursors, one per cursor. */
  function NextPackets(community: string, cursors: seq<string>): (ps: seq<SnmpPacket>)
  {
    seq(|cursors|, i requires 0 <= i < |cursors| => GetNextPacket(community, cursors[i]))
  }

  /** The single-seed GetBulk packets a bulk walk sends for a sequence of seeds. */
  function BulkPackets(community: string, maxRepetitions: uint8, seeds: seq<string>): (ps: seq<SnmpPacket>)
  {
    seq(|seeds|, i requires 0 <= i < |seeds| => GetBulkPacket(community, 0, maxRepetitions, [seeds[i]]))
  }

  /** One more GetNext request adds its packet at the end. */
  lemma NextPacketsSnoc(community: string, cursors: seq<string>, cursor: string)
    ensures NextPackets(community, cursors + [cursor]) == NextPackets(community, cursors) + [GetNextPacket(community, cursor)]
  {
  }

  /** The packets of a bulk walk, after those sent before it: the first
      seed's, then the rest. */
  lemma BulkPacketsCons(before: seq<SnmpPacket>, community: string, maxRepetitions: uint8, seed: string, seeds: seq<string>)
    ensures before + [GetBulkPacket(community, 0, maxRepetitions, [seed])] + BulkPackets(community, maxRepetitions, seeds) ==
            before + BulkPackets(community, maxRepetitions, [seed] + seeds)
    ensures before + [GetBulkPacket(community, 0, maxRepetitions, [seed])] ==
            before + BulkPackets(community, maxRepetitions, [seed])
  {
    assert BulkPackets(community, maxRepetitions, [seed] + seeds) ==
           [GetBulkPacket(community, 0, maxRepetitions, [seed])] + BulkPackets(community, maxRepetitions, seeds);
  }
}
