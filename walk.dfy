/** The sequential walk: GetNext requests (section 4.2.2 of RFC 3416), each
    asking for the successor of the previous answer, while the answer's name
    contains the root OID. */
module Walks {
  import opened Types
  import opened Oids
  import opened Requests
  import opened Dispatch

  /** What a walk produced: the bindings it kept, the error it stopped on (if
      any), and the OIDs it asked about, in request order. */
  datatype Outcome = Outcome(results: seq<SnmpPdu>, err: Option<SnmpError>, queried: seq<string>)

  /** The GetNext reply from `cursor` makes the walk go on: it succeeded, has
      a first binding, and that binding's name contains the root. */
  predicate Continues(link: Link, root: string, cursor: string)
  {
    var r := GetNext(link, cursor);
    r.Ok? && |r.value.variables| > 0 && Contains(r.value.variables[0].name, root)
  }

  /** The binding a continuing step keeps. */
  function Step(link: Link, root: string, cursor: string): SnmpPdu
    requires Continues(link, root, cursor)
  {
    GetNext(link, cursor).value.variables[0]
  }

  /** The loop started at `cursor` ends after at most `bound` continuing
      steps. Only the cursors the loop visits matter. The loop ends exactly
      when some bound exists (`WalkFromIsWalk`, `IsWalkHalts`). */
  predicate Halts(link: Link, root: string, cursor: string, bound: nat)
    decreases bound
  {
    Continues(link, root, cursor) ==> bound > 0 && Halts(link, root, Step(link, root, cursor).name, bound - 1)
  }

  /** The walk from `cursor` (the loop of `Walk`), as a recursive definition. */
  function WalkFrom(link: Link, root: string, cursor: string, bound: nat): Outcome
    requires Halts(link, root, cursor, bound)
    decreases bound
  {
    match GetNext(link, cursor)
    case Err(e) => Outcome([], Some(e), [cursor])
    case Ok(res) =>
      if |res.variables| > 0 && Contains(res.variables[0].name, root) then
        var v := res.variables[0];
        assert Continues(link, root, cursor) && Step(link, root, cursor) == v;
        var rest := WalkFrom(link, root, v.name, bound - 1);
        Outcome([v] + rest.results, rest.err, [cursor] + rest.queried)
      else
        Outcome([], None, [cursor])
  }

  /** Step `i` of a walk trace: the request about `queried[i]` continued,
      its binding is `results[i]`, and the next request is about that
      binding's name. */
  ghost predicate StepAt(link: Link, root: string, queried: seq<string>, results: seq<SnmpPdu>, i: int)
    requires 0 <= i < |results| && |queried| == |results| + 1
  {
    && Continues(link, root, queried[i])
    && Step(link, root, queried[i]) == results[i]
    && queried[i + 1] == results[i].name
  }

  /** The walk described by its trace: it asks first about `cursor`, then
      about the name of each binding it keeps; each kept binding is the first
      binding of the reply to the request before it and contains the root;
      the last request either failed (and that error is reported) or did not
      continue (and no error is reported). */
  ghost predicate IsWalk(link: Link, root: string, cursor: string, w: Outcome)
  {
    && |w.queried| == |w.results| + 1
    && w.queried[0] == cursor
    && (forall i :: 0 <= i < |w.results| ==> StepAt(link, root, w.queried, w.results, i))
    && !Continues(link, root, w.queried[|w.results|])
    && (match GetNext(link, w.queried[|w.results|])
        case Err(e) => w.err == Some(e)
        case Ok(_) => w.err == None)
  }

  /** A continuing step in front of a walk trace from its binding's name is
      a walk trace. */
  lemma ConsIsWalk(link: Link, root: string, cursor: string, rest: Outcome)
    requires Continues(link, root, cursor)
    requires IsWalk(link, root, Step(link, root, cursor).name, rest)
    ensures IsWalk(link, root, cursor,
                   Outcome([Step(link, root, cursor)] + rest.results, rest.err, [cursor] + rest.queried))
  {
    var v := Step(link, root, cursor);
    var w := Outcome([v] + rest.results, rest.err, [cursor] + rest.queried);
    forall i | 0 <= i < |w.results|
      ensures StepAt(link, root, w.queried, w.results, i)
    {
      if i > 0 {
        assert StepAt(link, root, rest.queried, rest.results, i - 1);
        assert w.queried[i] == rest.queried[i - 1] && w.results[i] == rest.results[i - 1];
        assert w.queried[i + 1] == rest.queried[i];
      } else {
        assert w.queried[1] == rest.queried[0];
      }
    }
    assert w.queried[|w.results|] == rest.queried[|rest.results|];
  }

  /** A walk trace that kept a binding continues from its cursor, and what
      follows is a walk trace from that binding's name. */
  lemma TailIsWalk(link: Link, root: string, cursor: string, w: Outcome)
    requires IsWalk(link, root, cursor, w)
    requires |w.results| > 0
    ensures Continues(link, root, cursor) && Step(link, root, cursor) == w.results[0]
    ensures IsWalk(link, root, w.results[0].name, Outcome(w.results[1..], w.err, w.queried[1..]))
  {
    var tail := Outcome(w.results[1..], w.err, w.queried[1..]);
    assert StepAt(link, root, w.queried, w.results, 0);
    forall i | 0 <= i < |tail.results|
      ensures StepAt(link, root, tail.queried, tail.results, i)
    {
      assert StepAt(link, root, w.queried, w.results, i + 1);
      assert tail.queried[i] == w.queried[i + 1] && tail.results[i] == w.results[i + 1];
      assert tail.queried[i + 1] == w.queried[i + 2];
    }
    assert tail.queried[|tail.results|] == w.queried[|w.results|];
  }

  /** The recursive walk has the trace shape: a loop that ends within a
      bound runs as the trace says. */
  lemma {:induction false} WalkFromIsWalk(link: Link, root: string, cursor: string, bound: nat)
    requires Halts(link, root, cursor, bound)
    ensures IsWalk(link, root, cursor, WalkFrom(link, root, cursor, bound))
    decreases bound
  {
    if Continues(link, root, cursor) {
      var v := Step(link, root, cursor);
      WalkFromIsWalk(link, root, v.name, bound - 1);
      ConsIsWalk(link, root, cursor, WalkFrom(link, root, v.name, bound - 1));
    }
  }

  /** A finite trace of the loop bounds it: a loop that ends, ends within the
      number of bindings it kept. */
  lemma {:induction false} IsWalkHalts(link: Link, root: string, cursor: string, w: Outcome)
    requires IsWalk(link, root, cursor, w)
    ensures Halts(link, root, cursor, |w.results|)
    decreases |w.results|
  {
    if |w.results| > 0 {
      TailIsWalk(link, root, cursor, w);
      IsWalkHalts(link, root, w.results[0].name, Outcome(w.results[1..], w.err, w.queried[1..]));
    }
  }

  /** Only one outcome has the trace shape: the trace determines the walk,
      whatever bound it is computed with. */
  lemma {:induction false} IsWalkUnique(link: Link, root: string, cursor: string, bound: nat, w: Outcome)
    requires Halts(link, root, cursor, bound)
    requires IsWalk(link, root, cursor, w)
    ensures w == WalkFrom(link, root, cursor, bound)
    decreases bound
  {
    if |w.results| > 0 {
      TailIsWalk(link, root, cursor, w);
      var tail := Outcome(w.results[1..], w.err, w.queried[1..]);
      IsWalkUnique(link, root, w.results[0].name, bound - 1, tail);
      assert w.results == [w.results[0]] + tail.results;
      assert w.queried == [cursor] + tail.queried;
    }
  }

  /** Every binding the walk keeps contains the root. */
  lemma WalkKeepsOnlyContained(link: Link, root: string, cursor: string, bound: nat)
    requires Halts(link, root, cursor, bound)
    ensures var w := WalkFrom(link, root, cursor, bound);
      forall i :: 0 <= i < |w.results| ==> Contains(w.results[i].name, root)
  {
    var w := WalkFrom(link, root, cursor, bound);
    WalkFromIsWalk(link, root, cursor, bound);
    forall i | 0 <= i < |w.results|
      ensures Contains(w.results[i].name, root)
    {
      assert StepAt(link, root, w.queried, w.results, i);
    }
  }

  /** One continuing step of the walk: it uses one unit of the bound. */
  lemma WalkAdvances(link: Link, root: string, cursor: string, bound: nat)
    requires Halts(link, root, cursor, bound)
    requires Continues(link, root, cursor)
    ensures bound > 0 && Halts(link, root, Step(link, root, cursor).name, bound - 1)
    ensures var v := Step(link, root, cursor);
      var rest := WalkFrom(link, root, v.name, bound - 1);
      WalkFrom(link, root, cursor, bound) == Outcome([v] + rest.results, rest.err, [cursor] + rest.queried)
  {
  }

  /** A step that does not continue ends the walk, whatever the bound,
      reporting the request's error if it failed. */
  lemma WalkStops(link: Link, root: string, cursor: string, bound: nat)
    requires !Continues(link, root, cursor)
    ensures Halts(link, root, cursor, bound)
    ensures WalkFrom(link, root, cursor, bound) ==
      Outcome([], if GetNext(link, cursor).Err? then Some(GetNext(link, cursor).error) else None, [cursor])
  {
  }

  /** A delivered reply without bindings is already an error in `sendPacket`,
      so the walk reports it rather than stopping cleanly: the empty-reply
      branch of the loop is never taken. */
  lemma EmptyReplyIsAnError(link: Link, root: string, cursor: string, bound: nat)
    requires var x := link.transport(GetNextPacket(link.community, cursor), link.timeout);
      x.Delivered? && x.response.variables == []
    ensures Halts(link, root, cursor, bound)
    ensures WalkFrom(link, root, cursor, bound) == Outcome([], Some(NoResponses), [cursor])
  {
  }

  /** A walk from `root`, computed with `bound`, that has kept `results` after
      asking about `asked` and now stands at `cursor`, which ends within
      `left` steps: what remains is the walk from `cursor`. */
  ghost predicate Resumes(link: Link, root: string, bound: nat, results: seq<SnmpPdu>, asked: seq<string>, cursor: string, left: nat)
    requires Halts(link, root, root, bound) && Halts(link, root, cursor, left)
  {
    var rest := WalkFrom(link, root, cursor, left);
    WalkFrom(link, root, root, bound) == Outcome(results + rest.results, rest.err, asked + rest.queried)
  }

  /** Keeping the binding of a continuing step moves the cursor to its name,
      with one step less left. */
  lemma ResumeStep(link: Link, root: string, bound: nat, results: seq<SnmpPdu>, asked: seq<string>, cursor: string, left: nat)
    requires Halts(link, root, root, bound) && Halts(link, root, cursor, left)
    requires Resumes(link, root, bound, results, asked, cursor, left)
    requires Continues(link, root, cursor)
    ensures left > 0
    ensures var v := Step(link, root, cursor);
      && Halts(link, root, v.name, left - 1)
      && Resumes(link, root, bound, results + [v], asked + [cursor], v.name, left - 1)
  {
    var v := Step(link, root, cursor);
    WalkAdvances(link, root, cursor, left);
    var rest := WalkFrom(link, root, v.name, left - 1);
    assert results + ([v] + rest.results) == (results + [v]) + rest.results;
    assert asked + ([cursor] + rest.queried) == (asked + [cursor]) + rest.queried;
  }

  /** A step that does not continue ends the whole walk. */
  lemma ResumeEnd(link: Link, root: string, bound: nat, results: seq<SnmpPdu>, asked: seq<string>, cursor: string, left: nat)
    requires Halts(link, root, root, bound) && Halts(link, root, cursor, left)
    requires Resumes(link, root, bound, results, asked, cursor, left)
    requires !Continues(link, root, cursor)
    ensures WalkFrom(link, root, root, bound) ==
      Outcome(results, if GetNext(link, cursor).Err? then Some(GetNext(link, cursor).error) else None, asked + [cursor])
  {
    WalkStops(link, root, cursor, left);
  }

  /** The loop never tests for the end-of-tree marker. An agent at the end of
      its tree answers a GetNext about `cursor` with `cursor` itself and the
      value "endOfMib" (section 4.2.2 of RFC 3416). When the loop reaches such
      a `cursor` and it contains the root, the loop keeps that binding and
      asks about `cursor` again, with the same answer, forever: no bound
      suffices. */
  lemma {:induction false} EndOfTreeRepeats(link: Link, root: string, cursor: string, bound: nat)
    requires Contains(cursor, root)
    requires var r := GetNext(link, cursor);
      r.Ok? && |r.value.variables| > 0 && r.value.variables[0].name == cursor && r.value.variables[0].value == Text("endOfMib")
    ensures Continues(link, root, cursor) && Step(link, root, cursor).name == cursor
    ensures !Halts(link, root, cursor, bound)
    decreases bound
  {
    assert Continues(link, root, cursor);
    if bound > 0 {
      EndOfTreeRepeats(link, root, cursor, bound - 1);
    }
  }

  /** So the loop from such a cursor has no finite run at all. */
  lemma EndOfTreeNeverEnds(link: Link, root: string, cursor: string, w: Outcome)
    requires Contains(cursor, root)
    requires var r := GetNext(link, cursor);
      r.Ok? && |r.value.variables| > 0 && r.value.variables[0].name == cursor && r.value.variables[0].value == Text("endOfMib")
    ensures !IsWalk(link, root, cursor, w)
  {
    if IsWalk(link, root, cursor, w) {
      IsWalkHalts(link, root, cursor, w);
      EndOfTreeRepeats(link, root, cursor, |w.results|);
    }
  }

  /** An agent that answers three names containing the root and then one that
      does not: the loop ends within three steps, whatever the agent answers
      about names the walk never reaches, and it keeps exactly the first
      three, in order, asks four times, and reports no error. */
  lemma ThreeThenOutside(link: Link, root: string, a: SnmpPdu, b: SnmpPdu, c: SnmpPdu)
    requires Continues(link, root, root) && Step(link, root, root) == a
    requires Continues(link, root, a.name) && Step(link, root, a.name) == b
    requires Continues(link, root, b.name) && Step(link, root, b.name) == c
    requires GetNext(link, c.name).Ok? && !Contains(GetNext(link, c.name).value.variables[0].name, root)
    ensures Halts(link, root, root, 3)
    ensures WalkFrom(link, root, root, 3) == Outcome([a, b, c], None, [root, a.name, b.name, c.name])
  {
    WalkStops(link, root, c.name, 0);
    assert Halts(link, root, b.name, 1);
    assert Halts(link, root, a.name, 2);
    WalkAdvances(link, root, b.name, 1);
    WalkAdvances(link, root, a.name, 2);
    WalkAdvances(link, root, root, 3);
  }
}
