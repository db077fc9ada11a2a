/** The bulk walk: GetBulk requests (section 4.2.3 of RFC 3416) with no
    non-repeaters, each seeded with the last name of the batch before. Each
    batch is filtered by string prefix, cut at the first "endOfMib" value, and
    the walk goes on only when the batch's last binding is in range. */
module BulkWalks {
  import opened Types
  import opened Oids
  import opened Dispatch
  import opened Walks

  /** The decoder's end-of-tree marker. */
  predicate EndOfMib(v: SnmpPdu)
  {
    v.value == Text("endOfMib")
  }

  /** The position of the first end-of-tree marker, or the batch length. */
  function SentinelIndex(vars: seq<SnmpPdu>): (k: nat)
    ensures k <= |vars|
    ensures forall i :: 0 <= i < k ==> !EndOfMib(vars[i])
    ensures k < |vars| ==> EndOfMib(vars[k])
  {
    if vars == [] then 0
    else if EndOfMib(vars[0]) then 0
    else 1 + SentinelIndex(vars[1..])
  }

  /** The bindings of a batch whose names start with the root, in batch order. */
  function InRange(vars: seq<SnmpPdu>, root: string): (kept: seq<SnmpPdu>)
    ensures |kept| <= |vars|
  {
    if vars == [] then []
    else
      var last := vars[|vars| - 1];
      InRange(vars[..|vars| - 1], root) + (if HasPrefix(last.name, root) then [last] else [])
  }

  /** Exactly the bindings of the batch that start with the root are kept. */
  lemma {:induction false} InRangeMembers(vars: seq<SnmpPdu>, root: string)
    ensures forall v :: v in InRange(vars, root) <==> v in vars && HasPrefix(v.name, root)
    decreases |vars|
  {
    if vars != [] {
      var last := vars[|vars| - 1];
      InRangeMembers(vars[..|vars| - 1], root);
      assert vars == vars[..|vars| - 1] + [last];
    }
  }

  /** Filtering distributes over concatenation, so batch order is kept. */
  lemma {:induction false} InRangeAppend(a: seq<SnmpPdu>, b: seq<SnmpPdu>, root: string)
    ensures InRange(a + b, root) == InRange(a, root) + InRange(b, root)
    decreases |b|
  {
    if b != [] {
      var last := b[|b| - 1];
      assert (a + b)[..|a + b| - 1] == a + b[..|b| - 1];
      InRangeAppend(a, b[..|b| - 1], root);
    } else {
      assert a + b == a;
    }
  }

  /** What one batch contributes: the in-range bindings before the first marker. */
  function Kept(vars: seq<SnmpPdu>, root: string): seq<SnmpPdu>
  {
    InRange(vars[..SentinelIndex(vars)], root)
  }

  /** The batch holds no marker and ends inside the subtree, so `_bulkWalk`
      recurses from its last name. */
  predicate Recurses(vars: seq<SnmpPdu>, root: string)
  {
    SentinelIndex(vars) == |vars| && |vars| > 0 && HasPrefix(vars[|vars| - 1].name, root)
  }

  /** The reply to a single-seed GetBulk request with no non-repeaters. */
  function Batch(link: Link, maxRepetitions: uint8, seed: string): Result<SnmpPacket>
  {
    GetBulk(link, 0, maxRepetitions, [seed])
  }

  /** The bindings of a successful reply, or none. */
  function BatchVars(link: Link, maxRepetitions: uint8, seed: string): seq<SnmpPdu>
  {
    var r := Batch(link, maxRepetitions, seed);
    if r.Ok? then r.value.variables else []
  }

  /** The reply to `seed` succeeded and makes the walk recurse. */
  predicate BulkContinues(link: Link, maxRepetitions: uint8, root: string, seed: string)
  {
    var r := Batch(link, maxRepetitions, seed);
    r.Ok? && Recurses(r.value.variables, root)
  }

  /** The seed of the next batch: the last name of this one. */
  function NextSeed(link: Link, maxRepetitions: uint8, root: string, seed: string): string
    requires BulkContinues(link, maxRepetitions, root, seed)
  {
    var vars := Batch(link, maxRepetitions, seed).value.variables;
    vars[|vars| - 1].name
  }

  /** The agent eventually leaves the subtree: a batch that makes the walk
      recurse ends on a name ranked strictly below its seed. */
  ghost predicate BulkDescends(link: Link, maxRepetitions: uint8, root: string, rank: string -> nat)
  {
    forall seed :: BulkContinues(link, maxRepetitions, root, seed) ==>
      rank(NextSeed(link, maxRepetitions, root, seed)) < rank(seed)
  }

  /** `_bulkWalk(maxRepetitions, searchingOID, rootOID)`: when a deeper batch
      fails, the frame above returns its own bindings with that error. */
  ghost function BulkFrom(link: Link, maxRepetitions: uint8, seed: string, root: string, rank: string -> nat): Outcome
    requires BulkDescends(link, maxRepetitions, root, rank)
    decreases rank(seed)
  {
    match Batch(link, maxRepetitions, seed)
    case Err(e) => Outcome([], Some(e), [seed])
    case Ok(response) =>
      var vars := response.variables;
      var kept := Kept(vars, root);
      if Recurses(vars, root) then
        assert BulkContinues(link, maxRepetitions, root, seed);
        var sub := BulkFrom(link, maxRepetitions, vars[|vars| - 1].name, root, rank);
        if sub.err.Some? then Outcome(kept, sub.err, [seed] + sub.queried)
        else Outcome(kept + sub.results, None, [seed] + sub.queried)
      else
        Outcome(kept, None, [seed])
  }

  /** Filtering one binding more appends it when it is in range. */
  lemma InRangeSnoc(vars: seq<SnmpPdu>, i: nat, root: string)
    requires i < |vars|
    ensures InRange(vars[..i + 1], root) ==
      InRange(vars[..i], root) + (if HasPrefix(vars[i].name, root) then [vars[i]] else [])
  {
    assert vars[..i + 1][..i] == vars[..i];
  }

  /** The scan of the batch for `seed` has looked at its first `i` bindings,
      met no marker among them, and kept those in range; once it has looked
      at all of them, the batch does not make the walk recurse. */
  ghost predicate Scanned(link: Link, maxRepetitions: uint8, seed: string, root: string,
                          vars: seq<SnmpPdu>, i: nat, results: seq<SnmpPdu>)
  {
    && Batch(link, maxRepetitions, seed).Ok?
    && vars == Batch(link, maxRepetitions, seed).value.variables
    && i <= SentinelIndex(vars)
    && results == InRange(vars[..i], root)
    && (i == |vars| ==> !Recurses(vars, root))
  }

  /** A successful reply starts the scan. */
  lemma ScanStart(link: Link, maxRepetitions: uint8, seed: string, root: string)
    requires Batch(link, maxRepetitions, seed).Ok?
    ensures Scanned(link, maxRepetitions, seed, root, Batch(link, maxRepetitions, seed).value.variables, 0, [])
  {
    var vars := Batch(link, maxRepetitions, seed).value.variables;
    assert vars[..0] == [];
  }

  /** A binding that is no marker, and is not an in-range last binding,
      advances the scan, kept when it is in range. */
  lemma ScanStep(link: Link, maxRepetitions: uint8, seed: string, root: string,
                 vars: seq<SnmpPdu>, i: nat, results: seq<SnmpPdu>)
    requires Scanned(link, maxRepetitions, seed, root, vars, i, results)
    requires i < |vars| && !EndOfMib(vars[i])
    requires i == |vars| - 1 ==> !HasPrefix(vars[i].name, root)
    ensures Scanned(link, maxRepetitions, seed, root, vars, i + 1,
                    results + (if HasPrefix(vars[i].name, root) then [vars[i]] else []))
  {
    InRangeSnoc(vars, i, root);
  }

  /** A marker ends the walk with what the scan kept. */
  lemma ScanSentinel(link: Link, maxRepetitions: uint8, seed: string, root: string, rank: string -> nat,
                     vars: seq<SnmpPdu>, i: nat, results: seq<SnmpPdu>)
    requires BulkDescends(link, maxRepetitions, root, rank)
    requires Scanned(link, maxRepetitions, seed, root, vars, i, results)
    requires i < |vars| && EndOfMib(vars[i])
    ensures BulkFrom(link, maxRepetitions, seed, root, rank) == Outcome(results, None, [seed])
  {
  }

  /** A scan that looked at every binding ends the walk with what it kept. */
  lemma ScanDone(link: Link, maxRepetitions: uint8, seed: string, root: string, rank: string -> nat,
                 vars: seq<SnmpPdu>, results: seq<SnmpPdu>)
    requires BulkDescends(link, maxRepetitions, root, rank)
    requires Scanned(link, maxRepetitions, seed, root, vars, |vars|, results)
    ensures BulkFrom(link, maxRepetitions, seed, root, rank) == Outcome(results, None, [seed])
  {
    assert vars[..|vars|] == vars;
  }

  /** An in-range last binding that is no marker makes the walk recurse from
      its name: a failure there is reported with the bindings kept so far,
      this one included; otherwise the deeper bindings follow them. */
  lemma ScanDescends(link: Link, maxRepetitions: uint8, seed: string, root: string, rank: string -> nat,
                     vars: seq<SnmpPdu>, i: nat, results: seq<SnmpPdu>)
    requires BulkDescends(link, maxRepetitions, root, rank)
    requires Scanned(link, maxRepetitions, seed, root, vars, i, results)
    requires i == |vars| - 1 && !EndOfMib(vars[i]) && HasPrefix(vars[i].name, root)
    ensures rank(vars[i].name) < rank(seed)
    ensures var sub := BulkFrom(link, maxRepetitions, vars[i].name, root, rank);
      BulkFrom(link, maxRepetitions, seed, root, rank) ==
        if sub.err.Some? then Outcome(results + [vars[i]], sub.err, [seed] + sub.queried)
        else Outcome(results + [vars[i]] + sub.results, None, [seed] + sub.queried)
  {
    InRangeSnoc(vars, i, root);
    assert vars[..i + 1] == vars;
    assert BulkContinues(link, maxRepetitions, root, seed);
    BatchRecurses(link, maxRepetitions, seed, root, rank);
  }

  /** A failed first request ends the bulk walk with no bindings. */
  lemma BatchFails(link: Link, maxRepetitions: uint8, seed: string, root: string, rank: string -> nat)
    requires BulkDescends(link, maxRepetitions, root, rank)
    requires Batch(link, maxRepetitions, seed).Err?
    ensures BulkFrom(link, maxRepetitions, seed, root, rank) ==
      Outcome([], Some(Batch(link, maxRepetitions, seed).error), [seed])
  {
  }

  /** A batch that makes the walk recurse is followed by the walk from its
      last name; a failure there keeps only this batch's bindings. */
  lemma BatchRecurses(link: Link, maxRepetitions: uint8, seed: string, root: string, rank: string -> nat)
    requires BulkDescends(link, maxRepetitions, root, rank)
    requires BulkContinues(link, maxRepetitions, root, seed)
    ensures var vars := Batch(link, maxRepetitions, seed).value.variables;
      var sub := BulkFrom(link, maxRepetitions, NextSeed(link, maxRepetitions, root, seed), root, rank);
      BulkFrom(link, maxRepetitions, seed, root, rank) ==
        if sub.err.Some? then Outcome(InRange(vars, root), sub.err, [seed] + sub.queried)
        else Outcome(InRange(vars, root) + sub.results, None, [seed] + sub.queried)
  {
    var vars := Batch(link, maxRepetitions, seed).value.variables;
    assert vars[..SentinelIndex(vars)] == vars;
  }

  /** The bindings the batches of `seeds` contribute, one batch after another. */
  function KeptAlong(link: Link, maxRepetitions: uint8, root: string, seeds: seq<string>): seq<SnmpPdu>
  {
    if seeds == [] then []
    else Kept(BatchVars(link, maxRepetitions, seeds[0]), root) + KeptAlong(link, maxRepetitions, root, seeds[1..])
  }

  /** The bulk walk described by its trace: it seeds the first batch with
      `seed` and each further batch with the last name of the one before, for
      as long as batches make it recurse. When the last batch succeeded, the
      result is every batch's contribution in order, with no error; when it
      failed, the error is reported with the first batch's contribution (none
      if the first request itself failed). */
  ghost predicate IsBulkWalk(link: Link, maxRepetitions: uint8, root: string, seed: string, w: Outcome)
  {
    && |w.queried| >= 1
    && w.queried[0] == seed
    && (forall j :: 0 <= j < |w.queried| - 1 ==>
          BulkContinues(link, maxRepetitions, root, w.queried[j]) &&
          w.queried[j + 1] == NextSeed(link, maxRepetitions, root, w.queried[j]))
    && !BulkContinues(link, maxRepetitions, root, w.queried[|w.queried| - 1])
    && (match Batch(link, maxRepetitions, w.queried[|w.queried| - 1])
        case Err(e) =>
          w.err == Some(e) &&
          w.results == (if |w.queried| == 1 then [] else Kept(BatchVars(link, maxRepetitions, seed), root))
        case Ok(_) =>
          w.err == None && w.results == KeptAlong(link, maxRepetitions, root, w.queried))
  }

  /** The recursive bulk walk has the trace shape. */
  lemma {:induction false} BulkFromIsBulkWalk(link: Link, maxRepetitions: uint8, root: string, seed: string, rank: string -> nat)
    requires BulkDescends(link, maxRepetitions, root, rank)
    ensures IsBulkWalk(link, maxRepetitions, root, seed, BulkFrom(link, maxRepetitions, seed, root, rank))
    decreases rank(seed)
  {
    var w := BulkFrom(link, maxRepetitions, seed, root, rank);
    if BulkContinues(link, maxRepetitions, root, seed) {
      var next := NextSeed(link, maxRepetitions, root, seed);
      var sub := BulkFrom(link, maxRepetitions, next, root, rank);
      BulkFromIsBulkWalk(link, maxRepetitions, root, next, rank);
      assert w.queried == [seed] + sub.queried;
      forall j | 0 <= j < |w.queried| - 1
        ensures BulkContinues(link, maxRepetitions, root, w.queried[j])
        ensures w.queried[j + 1] == NextSeed(link, maxRepetitions, root, w.queried[j])
      {
        if j > 0 {
          assert w.queried[j] == sub.queried[j - 1];
        }
      }
      assert w.queried[|w.queried| - 1] == sub.queried[|sub.queried| - 1];
      if sub.err.None? {
        assert w.queried[1..] == sub.queried;
      }
    }
  }

  /** The outcome a bulk-walk trace leaves for the walk from the second seed on. */
  ghost function TailOf(link: Link, maxRepetitions: uint8, root: string, w: Outcome): Outcome
    requires |w.queried| > 1
  {
    var subQueried := w.queried[1..];
    var last := w.queried[|w.queried| - 1];
    var tailResults :=
      if Batch(link, maxRepetitions, last).Err? then
        (if |subQueried| == 1 then [] else Kept(BatchVars(link, maxRepetitions, subQueried[0]), root))
      else KeptAlong(link, maxRepetitions, root, subQueried);
    Outcome(tailResults, w.err, subQueried)
  }

  /** Dropping the first batch of a bulk-walk trace leaves a bulk-walk trace
      from the second seed. */
  lemma TailIsBulkWalk(link: Link, maxRepetitions: uint8, root: string, seed: string, w: Outcome)
    requires IsBulkWalk(link, maxRepetitions, root, seed, w)
    requires |w.queried| > 1
    ensures BulkContinues(link, maxRepetitions, root, seed)
    ensures IsBulkWalk(link, maxRepetitions, root, NextSeed(link, maxRepetitions, root, seed), TailOf(link, maxRepetitions, root, w))
  {
    var tail := TailOf(link, maxRepetitions, root, w);
    assert tail.queried[|tail.queried| - 1] == w.queried[|w.queried| - 1];
    forall j | 0 <= j < |tail.queried| - 1
      ensures BulkContinues(link, maxRepetitions, root, tail.queried[j])
      ensures tail.queried[j + 1] == NextSeed(link, maxRepetitions, root, tail.queried[j])
    {
      assert tail.queried[j] == w.queried[j + 1];
    }
  }

  /** Only one outcome has the trace shape: the trace determines the bulk walk. */
  lemma {:induction false} IsBulkWalkUnique(link: Link, maxRepetitions: uint8, root: string, seed: string, rank: string -> nat, w: Outcome)
    requires BulkDescends(link, maxRepetitions, root, rank)
    requires IsBulkWalk(link, maxRepetitions, root, seed, w)
    ensures w == BulkFrom(link, maxRepetitions, seed, root, rank)
    decreases rank(seed)
  {
    if |w.queried| > 1 {
      TailIsBulkWalk(link, maxRepetitions, root, seed, w);
      var next := NextSeed(link, maxRepetitions, root, seed);
      var tail := TailOf(link, maxRepetitions, root, w);
      IsBulkWalkUnique(link, maxRepetitions, root, next, rank, tail);
      assert w.queried == [seed] + tail.queried;
      var last := w.queried[|w.queried| - 1];
      if Batch(link, maxRepetitions, last).Ok? {
        assert w.results == Kept(BatchVars(link, maxRepetitions, seed), root) + tail.results;
      }
    } else {
      assert w.queried == [seed];
      assert KeptAlong(link, maxRepetitions, root, [seed]) == Kept(BatchVars(link, maxRepetitions, seed), root);
    }
  }

  /** Every binding a bulk walk returns starts with the root and is not the
      end-of-tree marker. */
  lemma {:induction false} BulkKeepsOnlyInRange(link: Link, maxRepetitions: uint8, seed: string, root: string, rank: string -> nat)
    requires BulkDescends(link, maxRepetitions, root, rank)
    ensures var w := BulkFrom(link, maxRepetitions, seed, root, rank);
      forall v :: v in w.results ==> HasPrefix(v.name, root) && !EndOfMib(v)
    decreases rank(seed)
  {
    var r := Batch(link, maxRepetitions, seed);
    if r.Ok? {
      var vars := r.value.variables;
      var k := SentinelIndex(vars);
      InRangeMembers(vars[..k], root);
      forall v | v in Kept(vars, root)
        ensures HasPrefix(v.name, root) && !EndOfMib(v)
      {
        var i :| 0 <= i < k && vars[..k][i] == v;
      }
      if Recurses(vars, root) {
        assert BulkContinues(link, maxRepetitions, root, seed);
        BulkKeepsOnlyInRange(link, maxRepetitions, vars[|vars| - 1].name, root, rank);
      }
    }
  }

  /** A batch holding the end-of-tree marker at position `k` ends the walk:
      the bindings before `k` that are in range are returned, with no error
      and no further request. */
  lemma StopsAtSentinel(link: Link, maxRepetitions: uint8, seed: string, root: string, rank: string -> nat, k: nat)
    requires BulkDescends(link, maxRepetitions, root, rank)
    requires Batch(link, maxRepetitions, seed).Ok?
    requires var vars := Batch(link, maxRepetitions, seed).value.variables;
      k < |vars| && EndOfMib(vars[k]) && forall i :: 0 <= i < k ==> !EndOfMib(vars[i])
    ensures var vars := Batch(link, maxRepetitions, seed).value.variables;
      BulkFrom(link, maxRepetitions, seed, root, rank) == Outcome(InRange(vars[..k], root), None, [seed])
  {
  }

  /** A batch whose last binding is out of range ends the walk after that one
      request, with that batch's in-range bindings. */
  lemma StopsOnOutOfRangeTail(link: Link, maxRepetitions: uint8, seed: string, root: string, rank: string -> nat)
    requires BulkDescends(link, maxRepetitions, root, rank)
    requires Batch(link, maxRepetitions, seed).Ok?
    requires var vars := Batch(link, maxRepetitions, seed).value.variables;
      !HasPrefix(vars[|vars| - 1].name, root)
    ensures var vars := Batch(link, maxRepetitions, seed).value.variables;
      BulkFrom(link, maxRepetitions, seed, root, rank) == Outcome(Kept(vars, root), None, [seed])
  {
  }

  /** The two walks need not agree on one agent: when the first GetNext answer
      holds the root inside its name but not at its start, the sequential walk
      keeps that binding first, and the bulk walk never returns it. */
  lemma WalksDisagree(link: Link, maxRepetitions: uint8, root: string, bound: nat, bulkRank: string -> nat)
    requires Halts(link, root, root, bound)
    requires BulkDescends(link, maxRepetitions, root, bulkRank)
    requires Continues(link, root, root) && !HasPrefix(Step(link, root, root).name, root)
    ensures WalkFrom(link, root, root, bound).results[0] == Step(link, root, root)
    ensures Step(link, root, root) !in BulkFrom(link, maxRepetitions, root, root, bulkRank).results
    ensures WalkFrom(link, root, root, bound).results != BulkFrom(link, maxRepetitions, root, root, bulkRank).results
  {
    WalkAdvances(link, root, root, bound);
    BulkKeepsOnlyInRange(link, maxRepetitions, root, root, bulkRank);
  }
}
