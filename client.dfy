/** The session object `Conn` and the channels its streaming walks fill. */
module Client {
  import opened Types
  import opened Oids
  import opened Session
  import opened Requests
  import Dispatch
  import opened Walks
  import opened BulkWalks

  /** A Go channel as its single producer sees it: every value sent, in order,
      and how many times it was closed. */
  class Channel<T> {
    ghost var pushed: seq<T>
    ghost var closes: nat

    constructor ()
      ensures pushed == [] && closes == 0
    {
      pushed := [];
      closes := 0;
    }

    /** `c <- v`. Sending on a closed channel panics, so the channel must be open. */
    method Send(v: T)
      requires closes == 0
      modifies this
      ensures pushed == old(pushed) + [v] && closes == 0
    {
      pushed := pushed + [v];
    }

    /** `for _, v := range vs { c <- v }`: every value, in order. */
    method SendAll(vs: seq<T>)
      requires closes == 0
      modifies this
      ensures pushed == old(pushed) + vs && closes == 0
    {
      for k := 0 to |vs|
        invariant closes == 0 && pushed == old(pushed) + vs[..k]
      {
        Send(vs[k]);
        assert vs[..k + 1] == vs[..k] + [vs[k]];
      }
      assert vs[..|vs|] == vs;
    }

    /** `close(c)`. */
    method Close()
      modifies this
      ensures closes == old(closes) + 1 && pushed == old(pushed)
    {
      closes := closes + 1;
    }
  }

  /** Appending in two steps is appending once. */
  lemma AppendTwice<T>(a: seq<T>, b: seq<T>, c: seq<T>)
    ensures a + b + c == a + (b + c)
  {
  }

  /** Opening a datagram transport to an address within a dial timeout. */
  type Dialer = (string, Duration) -> Option<Transport>

  /** One SNMP session. `transport` stands for the open UDP connection;
      `sent` records every packet handed to it. */
  class Conn {
    var target: string
    var community: string
    var version: SnmpVersion
    var timeout: Duration
    var transport: Transport
    ghost var sent: seq<SnmpPacket>

    /** What the next request depends on. */
    function CurrentLink(): Link
      reads this`community, this`timeout, this`transport
    {
      Types.Link(community, timeout, transport)
    }

    constructor (target: string, community: string, version: SnmpVersion, timeout: Duration, transport: Transport)
      ensures this.target == target && this.community == community && this.version == version
      ensures this.timeout == timeout && this.transport == transport && sent == []
    {
      this.target := target;
      this.community := community;
      this.version := version;
      this.timeout := timeout;
      this.transport := transport;
      sent := [];
    }

    /** `Connect`: dial the normalised target with the given timeout, which
        becomes the session timeout unclamped. */
    static method Connect(target: string, community: string, version: SnmpVersion, timeout: int64, dial: Dialer)
      returns (c: Conn?, err: Option<SnmpError>)
      ensures dial(NormalizeTarget(target), Seconds(timeout)).None? ==> c == null && err == Some(DialFailed)
      ensures dial(NormalizeTarget(target), Seconds(timeout)).Some? ==>
        && err == None && c != null && fresh(c)
        && c.target == NormalizeTarget(target) && c.community == community && c.version == version
        && c.timeout == Seconds(timeout) && c.transport == dial(NormalizeTarget(target), Seconds(timeout)).value
        && c.sent == []
    {
      var address := NormalizeTarget(target);
      var dialed := dial(address, Seconds(timeout));
      if dialed.None? {
        return null, Some(DialFailed);
      }
      c := new Conn(address, community, version, Seconds(timeout), dialed.value);
      err := None;
    }

    /** `SetTimeout`: non-positive seconds fall back to five. */
    method SetTimeout(seconds: int64)
      modifies this`timeout
      ensures timeout == TimeoutFor(seconds)
    {
      var s := seconds;
      if s <= 0 {
        s := DefaultTimeoutSeconds;
      }
      timeout := Seconds(s);
    }

    /** `sendPacket`: one exchange; a reply without bindings is an error. */
    method SendPacket(packet: SnmpPacket) returns (r: Result<SnmpPacket>)
      modifies this`sent
      ensures sent == old(sent) + [packet]
      ensures r == Dispatch.Send(CurrentLink(), packet)
    {
      sent := sent + [packet];
      var exchange := transport(packet, timeout);
      match exchange
      case Failed(stage) =>
        r := Err(ExchangeFailed(stage));
      case Delivered(pdu) =>
        if |pdu.variables| < 1 {
          r := Err(NoResponses);
        } else {
          r := Ok(pdu);
        }
    }

    /** `GetNext(oid)`. */
    method GetNext(oid: string) returns (r: Result<SnmpPacket>)
      modifies this`sent
      ensures sent == old(sent) + [GetNextPacket(community, oid)]
      ensures r == Dispatch.GetNext(CurrentLink(), oid)
    {
      var packet := SnmpPacket(WireVersion, community, GetNextRequest, 0, 0, 0, 0, [SnmpPdu(oid, Null, Nil)]);
      r := SendPacket(packet);
    }

    /** `Get(oid)`. */
    method Get(oid: string) returns (r: Result<SnmpPacket>)
      modifies this`sent
      ensures sent == old(sent) + [GetPacket(community, oid)]
      ensures r == Dispatch.Get(CurrentLink(), oid)
    {
      var packet := SnmpPacket(WireVersion, community, GetRequest, 0, 0, 0, 0, [SnmpPdu(oid, Null, Nil)]);
      r := SendPacket(packet);
    }

    /** Fills a fresh binding array with one placeholder per OID. */
    static method FillPlaceholders(oids: seq<string>) returns (vars: seq<SnmpPdu>)
      ensures vars == Placeholders(oids)
    {
      var a := new SnmpPdu[|oids|];
      for i := 0 to |oids|
        invariant forall j :: 0 <= j < i ==> a[j] == SnmpPdu(oids[j], Null, Nil)
      {
        a[i] := SnmpPdu(oids[i], Null, Nil);
      }
      vars := a[..];
    }

    /** `GetMulti(oids)`. */
    method GetMulti(oids: seq<string>) returns (r: Result<SnmpPacket>)
      modifies this`sent
      ensures sent == old(sent) + [GetMultiPacket(community, oids)]
      ensures r == Dispatch.GetMulti(CurrentLink(), oids)
    {
      var vars := FillPlaceholders(oids);
      var packet := SnmpPacket(WireVersion, community, GetRequest, 0, 0, 0, 0, vars);
      r := SendPacket(packet);
    }

    /** `GetBulk(nonRepeaters, maxRepetitions, oids...)`. */
    method GetBulk(nonRepeaters: uint8, maxRepetitions: uint8, oids: seq<string>) returns (r: Result<SnmpPacket>)
      modifies this`sent
      ensures sent == old(sent) + [GetBulkPacket(community, nonRepeaters, maxRepetitions, oids)]
      ensures r == Dispatch.GetBulk(CurrentLink(), nonRepeaters, maxRepetitions, oids)
    {
      var vars := FillPlaceholders(oids);
      var packet := SnmpPacket(WireVersion, community, GetBulkRequest, 0, 0, nonRepeaters, maxRepetitions, vars);
      r := SendPacket(packet);
    }

    /** `Walk(oid)`: GetNext from the root while the first binding of each
        reply contains the root; an empty root is refused before any request. */
    method Walk(oid: string, ghost bound: nat) returns (results: seq<SnmpPdu>, err: Option<SnmpError>)
      requires oid != "" ==> Halts(CurrentLink(), oid, oid, bound)
      modifies this`sent
      ensures oid == "" ==> results == [] && err == Some(NoOidGiven) && sent == old(sent)
      ensures oid != "" ==>
        var w := WalkFrom(CurrentLink(), oid, oid, bound);
        results == w.results && err == w.err && sent == old(sent) + NextPackets(community, w.queried)
    {
      if oid == "" {
        return [], Some(NoOidGiven);
      }
      results := [];
      var requestOid := oid;
      var cursor := oid;
      ghost var link := CurrentLink();
      ghost var asked: seq<string> := [];
      ghost var left := bound;
      while true
        invariant CurrentLink() == link
        invariant sent == old(sent) + NextPackets(community, asked)
        invariant Halts(link, oid, cursor, left)
        invariant Resumes(link, oid, bound, results, asked, cursor, left)
        decreases left
      {
        var res := GetNext(cursor);
        NextPacketsSnoc(community, asked, cursor);
        AppendTwice(old(sent), NextPackets(community, asked), [GetNextPacket(community, cursor)]);
        if res.Err? {
          ResumeEnd(link, oid, bound, results, asked, cursor, left);
          return results, Some(res.error);
        }
        if |res.value.variables| > 0 {
          if Contains(res.value.variables[0].name, requestOid) {
            ResumeStep(link, oid, bound, results, asked, cursor, left);
            results := results + [res.value.variables[0]];
            asked := asked + [cursor];
            left := left - 1;
            cursor := res.value.variables[0].name;
          } else {
            ResumeEnd(link, oid, bound, results, asked, cursor, left);
            break;
          }
        } else {
          ResumeEnd(link, oid, bound, results, asked, cursor, left);
          break;
        }
      }
      err := None;
    }

    /** `StreamWalk(oid, c)`: the walk of `Walk`, each kept binding pushed to
        the channel as it arrives; the channel is closed once on every path. */
    method StreamWalk(oid: string, c: Channel<SnmpPdu>, ghost bound: nat) returns (err: Option<SnmpError>)
      requires c.closes == 0
      requires oid != "" ==> Halts(CurrentLink(), oid, oid, bound)
      modifies this`sent, c
      ensures c.closes == 1
      ensures oid == "" ==> err == Some(NoOidGiven) && c.pushed == old(c.pushed) && sent == old(sent)
      ensures oid != "" ==>
        var w := WalkFrom(CurrentLink(), oid, oid, bound);
        c.pushed == old(c.pushed) + w.results && err == w.err && sent == old(sent) + NextPackets(community, w.queried)
    {
      if oid == "" {
        c.Close();
        return Some(NoOidGiven);
      }
      var requestOid := oid;
      var cursor := oid;
      ghost var link := CurrentLink();
      ghost var results: seq<SnmpPdu> := [];
      ghost var asked: seq<string> := [];
      ghost var left := bound;
      while true
        invariant CurrentLink() == link
        invariant c.closes == 0 && c.pushed == old(c.pushed) + results
        invariant sent == old(sent) + NextPackets(community, asked)
        invariant Halts(link, oid, cursor, left)
        invariant Resumes(link, oid, bound, results, asked, cursor, left)
        decreases left
      {
        var res := GetNext(cursor);
        NextPacketsSnoc(community, asked, cursor);
        AppendTwice(old(sent), NextPackets(community, asked), [GetNextPacket(community, cursor)]);
        if res.Err? {
          ResumeEnd(link, oid, bound, results, asked, cursor, left);
          c.Close();
          return Some(res.error);
        }
        if |res.value.variables| > 0 {
          if Contains(res.value.variables[0].name, requestOid) {
            ResumeStep(link, oid, bound, results, asked, cursor, left);
            c.Send(res.value.variables[0]);
            AppendTwice(old(c.pushed), results, [res.value.variables[0]]);
            results := results + [res.value.variables[0]];
            asked := asked + [cursor];
            left := left - 1;
            cursor := res.value.variables[0].name;
          } else {
            ResumeEnd(link, oid, bound, results, asked, cursor, left);
            break;
          }
        } else {
          ResumeEnd(link, oid, bound, results, asked, cursor, left);
          break;
        }
      }
      c.Close();
      err := None;
    }

    /** `_bulkWalk(maxRepetitions, searchingOID, rootOID)`: one GetBulk batch,
        filtered by prefix and cut at "endOfMib", followed by the walk from its
        last name when that name is in range. */
    method BulkWalkFrom(maxRepetitions: uint8, searchingOid: string, rootOid: string, ghost rank: string -> nat)
      returns (results: seq<SnmpPdu>, err: Option<SnmpError>)
      requires BulkDescends(CurrentLink(), maxRepetitions, rootOid, rank)
      modifies this`sent
      ensures var w := BulkFrom(CurrentLink(), maxRepetitions, searchingOid, rootOid, rank);
        results == w.results && err == w.err && sent == old(sent) + BulkPackets(community, maxRepetitions, w.queried)
      decreases rank(searchingOid)
    {
      ghost var link := CurrentLink();
      var response := GetBulk(0, maxRepetitions, [searchingOid]);
      BulkPacketsCons(old(sent), community, maxRepetitions, searchingOid, []);
      if response.Err? {
        BatchFails(link, maxRepetitions, searchingOid, rootOid, rank);
        return [], Some(response.error);
      }
      results := [];
      var vars := response.value.variables;
      ScanStart(link, maxRepetitions, searchingOid, rootOid);
      ghost var sent0 := sent;
      var i := 0;
      while i < |vars|
        invariant i <= |vars|
        invariant Scanned(link, maxRepetitions, searchingOid, rootOid, vars, i, results)
        invariant sent == sent0
      {
        var v := vars[i];
        if v.value == Text("endOfMib") {
          ScanSentinel(link, maxRepetitions, searchingOid, rootOid, rank, vars, i, results);
          return results, None;
        }
        if HasPrefix(v.name, rootOid) {
          if i == |vars| - 1 {
            // The last binding is still in range: the loop ends after the
            // deeper walk, so its outcome is this frame's outcome.
            ScanDescends(link, maxRepetitions, searchingOid, rootOid, rank, vars, i, results);
            results := results + [v];
            var subResults, subErr := BulkWalkFrom(maxRepetitions, v.name, rootOid, rank);
            BulkPacketsCons(old(sent), community, maxRepetitions, searchingOid,
                            BulkFrom(link, maxRepetitions, v.name, rootOid, rank).queried);
            if subErr.Some? {
              return results, subErr;
            }
            return results + subResults, None;
          }
        }
        ScanStep(link, maxRepetitions, searchingOid, rootOid, vars, i, results);
        if HasPrefix(v.name, rootOid) {
          results := results + [v];
        }
        i := i + 1;
      }
      ScanDone(link, maxRepetitions, searchingOid, rootOid, rank, vars, results);
      err := None;
    }

    /** `BulkWalk(maxRepetitions, oid)`: an empty root is refused before any
        request; otherwise the bulk walk from the root. */
    method BulkWalk(maxRepetitions: uint8, oid: string, ghost rank: string -> nat)
      returns (results: seq<SnmpPdu>, err: Option<SnmpError>)
      requires oid != "" ==> BulkDescends(CurrentLink(), maxRepetitions, oid, rank)
      modifies this`sent
      ensures oid == "" ==> results == [] && err == Some(NoOidGiven) && sent == old(sent)
      ensures oid != "" ==>
        var w := BulkFrom(CurrentLink(), maxRepetitions, oid, oid, rank);
        results == w.results && err == w.err && sent == old(sent) + BulkPackets(community, maxRepetitions, w.queried)
    {
      if oid == "" {
        return [], Some(NoOidGiven);
      }
      results, err := BulkWalkFrom(maxRepetitions, oid, oid, rank);
    }

    /** The deeper part of `StreamBulkWalk`, run when the first batch ends in
        range: `_bulkWalk` from its last name, whose bindings are pushed only
        when it succeeds; the channel is then closed. */
    method StreamDeeper(maxRepetitions: uint8, seed: string, rootOid: string, c: Channel<SnmpPdu>, ghost rank: string -> nat)
      returns (err: Option<SnmpError>)
      requires c.closes == 0
      requires BulkDescends(CurrentLink(), maxRepetitions, rootOid, rank)
      modifies this`sent, c
      ensures c.closes == 1
      ensures var sub := BulkFrom(CurrentLink(), maxRepetitions, seed, rootOid, rank);
        && err == sub.err
        && c.pushed == old(c.pushed) + (if sub.err.None? then sub.results else [])
        && sent == old(sent) + BulkPackets(community, maxRepetitions, sub.queried)
    {
      var subResults, subErr := BulkWalkFrom(maxRepetitions, seed, rootOid, rank);
      if subErr.Some? {
        c.Close();
        return subErr;
      }
      c.SendAll(subResults);
      c.Close();
      err := None;
    }

    /** `StreamBulkWalk(maxRepetitions, oid, c)`: the first batch is pushed
        binding by binding, the deeper batches come from `_bulkWalk` and are
        pushed afterwards; the channel is closed once on every path. There is
        no check for an empty root. */
    method StreamBulkWalk(maxRepetitions: uint8, oid: string, c: Channel<SnmpPdu>, ghost rank: string -> nat)
      returns (err: Option<SnmpError>)
      requires c.closes == 0
      requires BulkDescends(CurrentLink(), maxRepetitions, oid, rank)
      modifies this`sent, c
      ensures c.closes == 1
      ensures var w := BulkFrom(old(CurrentLink()), maxRepetitions, oid, oid, rank);
        c.pushed == old(c.pushed) + w.results && err == w.err
        && sent == old(sent) + BulkPackets(community, maxRepetitions, w.queried)
    {
      ghost var link := CurrentLink();
      var rootOid := oid;
      var response := GetBulk(0, maxRepetitions, [oid]);
      BulkPacketsCons(old(sent), community, maxRepetitions, oid, []);
      if response.Err? {
        BatchFails(link, maxRepetitions, oid, rootOid, rank);
        c.Close();
        return Some(response.error);
      }
      var vars := response.value.variables;
      ghost var results: seq<SnmpPdu> := [];
      ghost var before := c.pushed;
      ghost var sent0 := sent;
      ScanStart(link, maxRepetitions, oid, rootOid);
      var i := 0;
      while i < |vars|
        invariant i <= |vars|
        invariant Scanned(link, maxRepetitions, oid, rootOid, vars, i, results)
        invariant c.closes == 0 && c.pushed == before + results
        invariant sent == sent0
      {
        var v := vars[i];
        if v.value == Text("endOfMib") {
          ScanSentinel(link, maxRepetitions, oid, rootOid, rank, vars, i, results);
          c.Close();
          return None;
        }
        if HasPrefix(v.name, rootOid) {
          c.Send(v);
          AppendTwice(before, results, [v]);
          if i == |vars| - 1 {
            // The last binding is still in range: the loop ends after the
            // deeper walk.
            ScanDescends(link, maxRepetitions, oid, rootOid, rank, vars, i, results);
            results := results + [v];
            ghost var sub := BulkFrom(link, maxRepetitions, v.name, rootOid, rank);
            err := StreamDeeper(maxRepetitions, v.name, rootOid, c, rank);
            BulkPacketsCons(old(sent), community, maxRepetitions, oid, sub.queried);
            AppendTwice(before, results, sub.results);
            return err;
          }
        }
        ScanStep(link, maxRepetitions, oid, rootOid, vars, i, results);
        if HasPrefix(v.name, rootOid) {
          results := results + [v];
        }
        i := i + 1;
      }
      ScanDone(link, maxRepetitions, oid, rootOid, rank, vars, results);
      c.Close();
      err := None;
    }
  }
}
