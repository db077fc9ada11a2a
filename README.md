# gosnmp walk engine in Dafny

This project models the subtree-walking core of the `gosnmp` SNMP v2c client
library (`gosnmp.go`): the session object `Conn` with its timeout and target
address, the request builders `Get`, `GetNext`, `GetMulti` and `GetBulk`, the
reply check in `sendPacket`, the sequential walks `Walk` / `StreamWalk`
(GetNext, section 4.2.2 of RFC 3416) and the bulk walks `BulkWalk` /
`_bulkWalk` / `StreamBulkWalk` (GetBulk, section 4.2.3 of RFC 3416).

The network and the agent behind it are one pure function, `Transport`. It
maps a request packet and the session timeout to either a decoded reply or
the stage that failed (encode, write, read, decode). A `Conn` keeps a ghost
log `sent` of every packet handed to the transport. So "no request is issued"
and "exactly these requests, in this order" are part of the contracts. A Go
channel is a `Channel` object with a ghost log of pushed values and a count
of closes.

Each walk is specified by a recursive function:
- `Walks.WalkFrom` for the sequential walk;
- `BulkWalks.BulkFrom` for `_bulkWalk`.

Each returns the bindings kept, the error reported and the OIDs queried.
Each function is also characterised by a trace predicate (`IsWalk`,
`IsBulkWalk`), and lemmas prove that the function satisfies the trace
predicate and is the only outcome that does. The imperative methods of
`Conn` mirror the Go loops. Their postconditions tie the returned bindings,
the error, the pushed values and the request log to these functions.

Termination of a walk depends on the agent.
- **Sequential walk.** It takes a ghost step bound and requires that the loop
  started at the root ends within it (`Walks.Halts`). This follows only the
  cursors the loop visits. A finite run of the loop exists exactly when some
  bound does (`Walks.WalkFromIsWalk`, `Walks.IsWalkHalts`), and the outcome
  does not depend on which bound is used (`Walks.IsWalkUnique`).
- **Bulk walk.** It takes a ghost ranking `rank: string -> nat` and requires
  that every batch which makes the walk recurse ends on a name ranked
  strictly below its seed (`BulkWalks.BulkDescends`). Take `rank` to be the
  number of the agent's objects after the name. An agent that answers as
  section 4.2.3 of RFC 3416 prescribes, over a finite tree, then meets it:
  a recursing batch ends on one of the agent's objects that comes after its
  seed.

Modules, one per file: `Types` (types.dfy), `Oids` (oids.dfy), `Session`
(session.dfy), `Requests` (requests.dfy), `Dispatch` (dispatch.dfy), `Walks`
(walk.dfy), `BulkWalks` (bulkwalk.dfy), `Client` (client.dfy).

Points where the code behaves in a way that is easy to misread, and which
the model follows as written:
- **Sequential walk membership.** The loop keeps a binding while its name
  contains the root anywhere (`strings.Index(name, root) > -1`), not only as
  a prefix (`Oids.ContainedNotPrefix`). So the sequential and the bulk walk
  need not agree on the same agent (`BulkWalks.WalksDisagree`).
- **End of the agent's tree.** Only the bulk walk checks the end-of-tree
  marker "endOfMib". An agent at the end of its tree answers a GetNext about
  `x` with `x` itself (section 4.2.2 of RFC 3416). When the walked subtree is
  the agent's last, `Walk` appends that same binding forever and `StreamWalk`
  pushes it forever (`Walks.EndOfTreeRepeats`, `Walks.EndOfTreeNeverEnds`).
- **Empty reply.** A reply without bindings is rejected by `sendPacket`, so
  the walk ends with that error instead of stopping cleanly
  (`Walks.EmptyReplyIsAnError`).
- **Nested bulk failure.** When a nested `_bulkWalk` fails, each frame returns
  its own batch's bindings with the error; it does not discard everything. At
  the top this leaves the first batch's bindings (`BulkWalks.IsBulkWalk`).
- **Version tag.** Every request carries version tag 1, whatever version the
  session was opened with.
- **Fault recovery.** The `recover` handlers in the builders assign an error
  that is never returned, so a recovered panic yields no reply and no error
  (see "## Left out").

## Model

| member | source | states |
|---|---|---|
| Oids.Index | gosnmp.go:86 | `strings.Index`: the first character position where the root occurs in the name, or -1 exactly when it occurs nowhere |
| Oids.Contains | gosnmp.go:86 | the sequential walk's membership test, `strings.Index(name, root) > -1` |
| Oids.HasPrefix | gosnmp.go:124 | the bulk walk's membership test, `strings.HasPrefix(name, root)` |
| Oids.ContainsIff | gosnmp.go:191 | the sequential walk's membership test holds exactly when the root occurs somewhere in the name |
| Oids.PrefixContained | gosnmp.go:160 | a name the bulk walk's prefix test accepts is also accepted by the sequential walk's containment test |
| Oids.ContainedNotPrefix | gosnmp.go:191 | the containment test accepts a name holding the root in its middle, which the prefix test rejects |
| Oids.SiblingArcMatches | gosnmp.go:160 | OIDs are compared as text, so `1.3.6.1.2.1.10` passes both tests for root `1.3.6.1.2.1.1` |
| Session.Wrap64 | gosnmp.go:64 | int64 overflow wraps: the result is congruent to the exact value modulo 2^64, and equal to it when it fits |
| Session.Seconds | gosnmp.go:64 | `time.Duration(s) * time.Second` is `s` times 10^9 nanoseconds for every `s` up to the largest that fits, wrapped otherwise |
| Session.TimeoutFor | gosnmp.go:60-65 | a non-positive request gives 5 seconds; a positive one that fits gives exactly that many seconds, positive |
| Session.TimeoutOverflows | gosnmp.go:64 | one second past the largest that fits, the timeout wraps to a negative duration |
| Session.Decimal | gosnmp.go:34 | the `%d` rendering of the port: decimal digits that denote exactly the number, with no leading zero |
| Session.NormalizeTarget | gosnmp.go:33-35 | the target is kept unchanged exactly when it contains ':'; otherwise ":161" is appended; the result always contains ':' and starts with the target |
| Session.NormalizeIdempotent | gosnmp.go:33-35 | normalising an already normalised target changes nothing |
| Requests.Request | gosnmp.go:295-306 | a request packet: the session's community, version tag 1, the operation kind, error fields zero, the counters given and one Null placeholder per OID |
| Requests.GetNextPacket | gosnmp.go:263-270 | the GetNext packet asking about one OID |
| Requests.GetPacket | gosnmp.go:321-328 | the Get packet asking about one OID |
| Requests.GetMultiPacket | gosnmp.go:343-354 | the Get packet asking about each OID, in order |
| Requests.GetBulkPacket | gosnmp.go:295-306 | the GetBulk packet with the given counters asking about each OID, in order |
| Requests.Placeholders | gosnmp.go:304-306 | one placeholder per OID, in order, each Null-typed with no value |
| Requests.NamesOfPlaceholders | gosnmp.go:350-354 | reading the names back from the placeholders gives the OIDs asked for, and every entry is a query |
| Requests.BuildersAskForTheirOids | gosnmp.go:263-270 | every builder uses the session's community, version tag 1 and its own operation kind, and asks for exactly its OIDs in order with Null placeholders; only GetBulk carries the repetition counters |
| Requests.GetMultiOfOne | gosnmp.go:321-353 | `GetMulti` of one OID sends the same packet as `Get` of it |
| Dispatch.Send | gosnmp.go:213-250 | `sendPacket`: the transport's failed stage becomes an error, a delivered reply without bindings the no-responses error, any other reply is returned (its properties are `Dispatch.SendChecksReply`) |
| Dispatch.GetNext | gosnmp.go:254-273 | the checked reply to the GetNext packet for the OID |
| Dispatch.Get | gosnmp.go:312-331 | the checked reply to the Get packet for the OID |
| Dispatch.GetMulti | gosnmp.go:334-357 | the checked reply to the Get packet for the OIDs |
| Dispatch.GetBulk | gosnmp.go:286-309 | the checked reply to the GetBulk packet for the counters and OIDs |
| Dispatch.SendChecksReply | gosnmp.go:213-250 | a reply is accepted exactly when it arrived with at least one binding, and is then returned unchanged; a failed stage is reported as such and an empty reply as having no responses |
| Walks.Continues | gosnmp.go:185-191 | the GetNext reply from the cursor succeeded, has a first binding, and that binding's name contains the root |
| Walks.Halts | gosnmp.go:184-207 | the loop from a cursor ends within a number of continuing steps, following only the cursors it visits |
| Walks.WalkFrom | gosnmp.go:184-208 | the loop of `Walk` as a recursive definition on a loop that ends: a failed request ends it with the error, a continuing reply keeps its first binding and goes on from its name, any other reply ends it without error |
| Walks.IsWalk | gosnmp.go:184-208 | the walk as a trace: the requests, the binding kept at each step, and the stop and error rule (proved equal to `WalkFrom` by `Walks.WalkFromIsWalk` and `Walks.IsWalkUnique`) |
| Walks.WalkFromIsWalk | gosnmp.go:184-208 | the walk asks about the root, then about each kept binding's name; each kept binding is the first binding of the reply before and contains the root; it ends on the first reply that does not continue, reporting the failure when that request failed |
| Walks.IsWalkHalts | gosnmp.go:184-207 | a loop that has a finite run ends within as many steps as it kept bindings, so the bound the walks require exists exactly when the Go loop ends |
| Walks.IsWalkUnique | gosnmp.go:184-208 | any outcome with that trace is the walk's outcome, whatever bound it is computed with, so the trace determines results, error and requests |
| Walks.WalkKeepsOnlyContained | gosnmp.go:191 | every binding the walk returns contains the root |
| Walks.WalkAdvances | gosnmp.go:191-195 | a continuing reply keeps its first binding and the walk goes on from that binding's name |
| Walks.WalkStops | gosnmp.go:185-204 | a reply that does not continue ends the walk after that request, with its error if it failed and with none otherwise |
| Walks.EmptyReplyIsAnError | gosnmp.go:245-249 | a delivered reply without bindings ends the walk with the no-responses error and no bindings |
| Walks.EndOfTreeRepeats | gosnmp.go:184-195 | a cursor containing the root that the agent answers with itself and "endOfMib", as an agent at the end of its tree does, makes the loop keep that binding and ask about it again; no bound suffices |
| Walks.EndOfTreeNeverEnds | gosnmp.go:184-207 | the loop from such a cursor has no finite run |
| Walks.ThreeThenOutside | gosnmp.go:184-208 | three replies inside the subtree then one outside: the loop ends within three steps whatever the agent answers elsewhere, with exactly those three bindings, in order, four requests, no error |
| BulkWalks.EndOfMib | gosnmp.go:156 | the decoder's end-of-tree marker, a value equal to "endOfMib" |
| BulkWalks.InRange | gosnmp.go:160-161 | the bindings of a batch whose names start with the root, in batch order, never more than the batch holds |
| BulkWalks.Kept | gosnmp.go:155-161 | what one batch contributes: its in-range bindings before the first marker |
| BulkWalks.Recurses | gosnmp.go:163 | the batch holds no marker and its last binding is in range, so `_bulkWalk` recurses from that name |
| BulkWalks.BulkFrom | gosnmp.go:150-173 | `_bulkWalk` as a recursive definition: a failed batch gives the error, a recursing batch its kept bindings followed by the deeper walk's (or only its own with the deeper error), any other batch its kept bindings |
| BulkWalks.IsBulkWalk | gosnmp.go:150-173 | the bulk walk as a trace of seeds and batches (proved equal to `BulkFrom` by `BulkWalks.BulkFromIsBulkWalk` and `BulkWalks.IsBulkWalkUnique`) |
| BulkWalks.SentinelIndex | gosnmp.go:156-158 | the position of the first "endOfMib" value: none before it, and it is one unless it is the batch length |
| BulkWalks.InRangeMembers | gosnmp.go:160-161 | a batch keeps exactly the bindings whose name starts with the root |
| BulkWalks.InRangeAppend | gosnmp.go:155-161 | filtering distributes over concatenation, so batch order is kept |
| BulkWalks.BatchFails | gosnmp.go:152-154 | a failed request returns no bindings, the error, and no further request |
| BulkWalks.BatchRecurses | gosnmp.go:163-169 | a batch whose last binding is in range and which holds no marker is followed by the walk from its last name; a failure there keeps only this batch's bindings |
| BulkWalks.ScanSentinel | gosnmp.go:156-158 | at the first marker the walk returns what it has kept, with no error and no further request |
| BulkWalks.ScanDescends | gosnmp.go:163-169 | an in-range last binding makes the walk recurse from its name, with the deeper bindings or the deeper error after the bindings kept so far |
| BulkWalks.ScanDone | gosnmp.go:155-173 | a batch scanned to its end without recursing is the walk's last, with what it kept |
| BulkWalks.BulkFromIsBulkWalk | gosnmp.go:150-173 | each batch is seeded with the last name of the one before while batches recurse; without a failure the result is every batch's contribution in order, and after a failure it is the first batch's contribution with the error |
| BulkWalks.IsBulkWalkUnique | gosnmp.go:150-173 | any outcome with that trace is the bulk walk's outcome |
| BulkWalks.BulkKeepsOnlyInRange | gosnmp.go:156-161 | every binding a bulk walk returns starts with the root and is not the end-of-tree marker |
| BulkWalks.StopsAtSentinel | gosnmp.go:156-158 | a batch with its first marker at `k` ends the walk with the in-range bindings before `k` and one request |
| BulkWalks.StopsOnOutOfRangeTail | gosnmp.go:163 | a batch whose last binding is out of range ends the walk after that one request |
| BulkWalks.WalksDisagree | gosnmp.go:191 | when the first GetNext answer holds the root inside its name but not at its start, the sequential walk returns it first and the bulk walk never returns it, so their results differ |
| Client.Channel.Send | gosnmp.go:87 | `c <- v`: the value is appended to what the channel has carried, which must still be open |
| Client.Channel.Close | gosnmp.go:103 | `close(c)`: the close count goes up by one and nothing is pushed |
| Client.Channel.SendAll | gosnmp.go:134-136 | every value is pushed, in order, and the channel stays open |
| Client.Conn.Connect | gosnmp.go:32-46 | dials the normalised target with the unclamped timeout; a failed dial gives no session and an error, a successful one a fresh session holding the target, community, version, timeout and transport, with no request sent |
| Client.Conn.SetTimeout | gosnmp.go:60-65 | the timeout becomes the clamped duration and no other field changes |
| Client.Conn.SendPacket | gosnmp.go:213-250 | exactly one packet goes to the transport, and the result is the checked reply |
| Client.Conn.GetNext | gosnmp.go:254-273 | sends exactly the GetNext packet for the OID and returns its checked reply |
| Client.Conn.Get | gosnmp.go:312-331 | sends exactly the Get packet for the OID and returns its checked reply |
| Client.Conn.FillPlaceholders | gosnmp.go:350-354 | the loop fills one placeholder per OID, in order |
| Client.Conn.GetMulti | gosnmp.go:334-357 | sends exactly the Get packet for the OIDs and returns its checked reply |
| Client.Conn.GetBulk | gosnmp.go:286-309 | sends exactly the GetBulk packet with the given counters and OIDs and returns its checked reply |
| Client.Conn.Walk | gosnmp.go:177-209 | an empty root gives the no-OID error with no request; otherwise the bindings, error and GetNext requests are those of the walk from the root |
| Client.Conn.StreamWalk | gosnmp.go:70-105 | the channel is closed exactly once on every path; an empty root gives the error with nothing pushed and no request; otherwise the values pushed are exactly the bindings `Walk` returns, with the same error and requests |
| Client.Conn.BulkWalkFrom | gosnmp.go:150-174 | returns the bindings and error of the bulk walk from the seed and sends one single-seed GetBulk per seed it queries, in order |
| Client.Conn.BulkWalk | gosnmp.go:144-149 | an empty root gives the no-OID error with no request; otherwise the outcome is the bulk walk from the root |
| Client.Conn.StreamDeeper | gosnmp.go:127-138 | the deeper walk's bindings are pushed only when it succeeds, its error is returned, and the channel is closed once |
| Client.Conn.StreamBulkWalk | gosnmp.go:111-142 | the channel is closed exactly once on every path; the values pushed are the bindings of the bulk walk from the root, with its error and requests; the empty root is not refused |

## Left out

- UDP I/O: dialing, deadlines, `Write`/`Read` and the 8192-byte receive buffer are the `Transport` and `Dialer` function parameters; a read timeout is one of the failed stages.
- Encoding and decoding (`marshal`, `Unmarshal`) and the `Debug` wrapper are not part of this model; a failure there is the `Encode` or `Decode` stage.
- The logger, `SetVerbose` and `SetDebug`: they only change logging flags.
- The `recover` handlers in the builders: panics are not expressible. A recovered panic (for example in `Unmarshal` on a malformed datagram) makes a builder return no reply and no error, because the error the handler assigns is never returned. The model has no such nil reply. So it does not capture that `Walk` and `StreamWalk` treat a nil reply as a clean end (gosnmp.go:189, 203-205, 84, 98-100) and stop silently with what they have. Nor does it capture that `_bulkWalk`, `BulkWalk` and `StreamBulkWalk` read the nil reply's bindings (gosnmp.go:155, 118) and crash.
- Strings are sequences of characters, not of UTF-8 bytes: `Oids.Index` counts characters where Go's `strings.Index` counts bytes. The walk only tests the result against -1, which does not depend on the difference.
- The text of error messages: errors are the values of `SnmpError`.
- Goroutines and channel buffering: a channel is its ordered log of pushed values plus a close count.
- Go channels of pointers: `StreamBulkWalk` sends `&v`, modelled as sending the value.
- `DefaultPort` is a mutable package variable in Go; here it is the constant 161.
- Request identifiers and the other packet fields defined outside `gosnmp.go` are not part of this model.
- Client.Conn.Walk: requires a ghost bound within which the loop from the root ends (`Walks.Halts`), because a method must terminate. Such a bound exists exactly when the Go loop ends (`Walks.IsWalkHalts`). The runs the contract leaves out are those on which Go never returns, for example when the loop reaches a cursor inside the subtree that the agent answers with itself (`Walks.EndOfTreeNeverEnds`).
- Client.Conn.StreamWalk: requires the same bound as `Walk`, leaving out the same non-ending runs. It also requires an open channel, since closing or sending on a closed one panics in Go.
- Client.Conn.BulkWalk: requires `BulkDescends` for termination of the recursion. It ranges over every seed, not only those reachable from the root, so an agent whose answers to seeds the walk never sends recurse without descending is left out, although the Go recursion ends on it.
- Client.Conn.BulkWalkFrom: requires `BulkDescends` for termination of the recursion, over every seed.
- Client.Conn.StreamBulkWalk: requires `BulkDescends` for termination; also requires an open channel, since sending on a closed one panics in Go.
- Client.Conn.StreamDeeper: is the tail of `StreamBulkWalk` (lines 127-138) made a method of its own; the Go code has it inline.
