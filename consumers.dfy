/**
 * The two loops that replay a recorded duel against the host driver:
 * `laminate` and `Validator.validate`. Both step the driver, record every
 * duel message, feed the recorded responses one by one after each message
 * that waits for one, and release the duel on every way out.
 *
 * The driver is abstract: `step(k)` is what its k-th `step` call returns and
 * `feed(n)` the outcome of its n-th `feed` call (the acceptance verdict, or an
 * error thrown by the engine). The source loops `while (true)`; here `fuel`
 * bounds the number of `step` calls, and a run that used it all up is
 * reported as still running.
 */
module Consumers {
  import opened Wrappers
  import opened Protocol
  import opened HostMessages
  import opened JsText

  datatype Driver = Driver(step: nat -> seq<HostMessage>, feed: nat -> Result<bool>)

  /** The calls the loop makes on the driver. */
  datatype Call = StepCall | FeedCall(response: seq<bv8>) | ReleaseCall

  /** Why the loop ended. `Rejected(n)`: the driver refused response `n`. */
  datatype Stop = Finished | OutOfResponses | Thrown(error: string) | Rejected(n: nat) | OutOfFuel

  /** A run: messages recorded, driver calls made, host messages looked at, and how it ended. */
  datatype Run = Run(messages: seq<Message>, calls: seq<Call>, seen: seq<HostMessage>, stop: Stop)

  /** What the caller of the loop observes. */
  datatype Outcome = Returned(messages: seq<Message>) | Threw(error: string) | StillRunning(messages: seq<Message>)

  function Close(messages: seq<Message>, calls: seq<Call>, seen: seq<HostMessage>, stop: Stop): Run
  {
    Run(messages, calls + [ReleaseCall], seen, stop)
  }

  /**
   * The loop from a given point: `fuel` step calls left, `k` made so far,
   * the batch of the last step looked at up to `j`, `next` responses fed.
   */
  function Consume(d: Driver, responses: seq<seq<bv8>>, fuel: nat, k: nat, batch: seq<HostMessage>, j: nat,
                   next: nat, messages: seq<Message>, calls: seq<Call>, seen: seq<HostMessage>): Run
    requires j <= |batch|
    decreases fuel, |batch| - j
  {
    if j == |batch| then
      if fuel == 0 then Close(messages, calls, seen, OutOfFuel)
      else Consume(d, responses, fuel - 1, k + 1, d.step(k), 0, next, messages, calls + [StepCall], seen)
    else
      var h := batch[j];
      var seen' := seen + [h];
      if h.HostError? then Close(messages, calls, seen', Thrown(h.error))
      else if h.HostDuelFinished? then Close(messages, calls, seen', Finished)
      else
        var messages' := messages + [h.what];
        if !IsHostAwaitingResponse(h) then
          Consume(d, responses, fuel, k, batch, j + 1, next, messages', calls, seen')
        else if next >= |responses| then Close(messages', calls, seen', OutOfResponses)
        else
          var calls' := calls + [FeedCall(responses[next])];
          match d.feed(next)
          case Err(e) => Close(messages', calls', seen', Thrown(e))
          case Ok(accepted) =>
            if accepted then Consume(d, responses, fuel, k, batch, j + 1, next + 1, messages', calls', seen')
            else Close(messages', calls', seen', Rejected(next))
  }

  /** The run of a whole recorded duel. */
  function Replay(d: Driver, responses: seq<seq<bv8>>, fuel: nat): Run
  {
    Consume(d, responses, fuel, 0, [], 0, 0, [], [], [])
  }

  /** The response-consumption loop of `laminate`. */
  method LaminateLoop(d: Driver, responses: seq<seq<bv8>>, fuel: nat) returns (run: Run)
    ensures run == Replay(d, responses, fuel)
  {
    ghost var target := Replay(d, responses, fuel);
    var messages: seq<Message> := [];
    var calls: seq<Call> := [];
    var seen: seq<HostMessage> := [];
    var next := 0;
    var k := 0;
    var left := fuel;
    var stop := OutOfFuel;
    label retry:
    while left > 0
      invariant target == Consume(d, responses, left, k, [], 0, next, messages, calls, seen)
      decreases left
    {
      var steps := d.step(k);
      calls := calls + [StepCall];
      k := k + 1;
      left := left - 1;
      var j := 0;
      while j < |steps|
        invariant j <= |steps|
        invariant target == Consume(d, responses, left, k, steps, j, next, messages, calls, seen)
      {
        var step := steps[j];
        seen := seen + [step];
        if step.HostError? {
          stop := Thrown(step.error);
          break retry;
        }
        if step.HostDuelFinished? {
          stop := Finished;
          break retry;
        }
        messages := messages + [step.what];
        if IsHostAwaitingResponse(step) {
          if next >= |responses| {
            stop := OutOfResponses;
            break retry;
          }
          calls := calls + [FeedCall(responses[next])];
          var fed := d.feed(next);
          if fed.Err? {
            stop := Thrown(fed.error);
            break retry;
          }
          if !fed.value {
            stop := Rejected(next);
            break retry;
          }
          next := next + 1;
        }
        j := j + 1;
      }
    }
    calls := calls + [ReleaseCall];
    run := Run(messages, calls, seen, stop);
  }

  /** `laminate` rethrows a HOST_ERROR and reports a refused response with the count consumed. */
  function LaminateOutcome(run: Run, responses: seq<seq<bv8>>): Outcome
  {
    match run.stop
    case Thrown(e) => Threw(e)
    case Rejected(n) =>
      Threw("ReplayError: replay responses not all consumed (" + IntToString(n) + "/" + IntToString(|responses|) + ")")
    case OutOfFuel => StillRunning(run.messages)
    case _ => Returned(run.messages)
  }

  /** The loop of `Validator.validate`; `next` is advanced before the response is fed. */
  method ValidateLoop(d: Driver, responses: seq<seq<bv8>>, fuel: nat) returns (outcome: Outcome, calls: seq<Call>)
    ensures outcome == ValidateOutcome(Replay(d, responses, fuel))
    ensures calls == Replay(d, responses, fuel).calls
  {
    ghost var target := Replay(d, responses, fuel);
    var messages: seq<Message> := [];
    calls := [];
    ghost var seen: seq<HostMessage> := [];
    var next := 0;
    var k := 0;
    var left := fuel;
    outcome := StillRunning([]);
    label outer:
    while left > 0
      invariant target == Consume(d, responses, left, k, [], 0, next, messages, calls, seen)
      invariant outcome == StillRunning([])
      decreases left
    {
      var hms := d.step(k);
      calls := calls + [StepCall];
      k := k + 1;
      left := left - 1;
      var j := 0;
      while j < |hms|
        invariant j <= |hms| && outcome == StillRunning([])
        invariant target == Consume(d, responses, left, k, hms, j, next, messages, calls, seen)
      {
        var hm := hms[j];
        seen := seen + [hm];
        if hm.HostError? {
          outcome := Threw(hm.error);
          break outer;
        }
        if hm.HostDuelFinished? {
          outcome := Returned(messages);
          break outer;
        }
        messages := messages + [hm.what];
        if IsHostAwaitingResponse(hm) {
          if next >= |responses| {
            outcome := Returned(messages);
            break outer;
          }
          var response := responses[next];
          next := next + 1;
          calls := calls + [FeedCall(response)];
          var result := d.feed(next - 1);
          if result.Err? {
            outcome := Threw(result.error);
            break outer;
          }
          if !result.value {
            outcome := Threw("ReplayError");
            break outer;
          }
        }
        j := j + 1;
      }
    }
    if outcome == StillRunning([]) {
      outcome := StillRunning(messages);
    }
    calls := calls + [ReleaseCall];
  }

  /** `validate` returns the recorded messages, or throws. */
  function ValidateOutcome(run: Run): Outcome
  {
    match run.stop
    case Thrown(e) => Threw(e)
    case Rejected(_) => Threw("ReplayError")
    case OutOfFuel => StillRunning(run.messages)
    case _ => Returned(run.messages)
  }

  // ------------------------------------------------------------ properties

  /** The duel messages among `hs`, in order. */
  function DuelWhats(hs: seq<HostMessage>): seq<Message>
  {
    if hs == [] then []
    else DuelWhats(hs[..|hs| - 1]) + (if hs[|hs| - 1].HostDuelMessage? then [hs[|hs| - 1].what] else [])
  }

  /** How many of `hs` wait for a response. */
  function Awaiting(hs: seq<HostMessage>): nat
  {
    if hs == [] then 0
    else Awaiting(hs[..|hs| - 1]) + (if IsHostAwaitingResponse(hs[|hs| - 1]) then 1 else 0)
  }

  /** The responses fed, in order. */
  function Feeds(calls: seq<Call>): seq<seq<bv8>>
  {
    if calls == [] then []
    else Feeds(calls[..|calls| - 1]) + (if calls[|calls| - 1].FeedCall? then [calls[|calls| - 1].response] else [])
  }

  function Count(calls: seq<Call>, c: Call): nat
  {
    if calls == [] then 0
    else Count(calls[..|calls| - 1], c) + (if calls[|calls| - 1] == c then 1 else 0)
  }

  /** Everything the first `k` step calls return, in order. */
  function StepStream(d: Driver, k: nat): seq<HostMessage>
  {
    if k == 0 then [] else StepStream(d, k - 1) + d.step(k - 1)
  }

  predicate AllDuelMessages(hs: seq<HostMessage>)
  {
    forall i :: 0 <= i < |hs| ==> hs[i].HostDuelMessage?
  }

  /** The loop's state in the middle of a run. */
  predicate Midway(d: Driver, responses: seq<seq<bv8>>, k: nat, batch: seq<HostMessage>, j: nat,
                   next: nat, messages: seq<Message>, calls: seq<Call>, seen: seq<HostMessage>)
  {
    j <= |batch| && AllDuelMessages(seen) && messages == DuelWhats(seen)
    && next <= |responses| && Feeds(calls) == responses[..next] && Awaiting(seen) == next
    && Count(calls, ReleaseCall) == 0 && Count(calls, StepCall) == k
    && seen + batch[j..] == StepStream(d, k)
  }

  /** What every finished run satisfies, `fuel` being the bound on step calls. */
  predicate RunFacts(d: Driver, responses: seq<seq<bv8>>, fuel: nat, run: Run)
  {
    var fed := |Feeds(run.calls)|;
    // release comes last and comes once
    run.calls != [] && run.calls[|run.calls| - 1] == ReleaseCall && Count(run.calls, ReleaseCall) == 1
    // responses are fed in order, each at most once, one per waiting message
    && fed <= |responses| && Feeds(run.calls) == responses[..fed]
    && fed + (if run.stop == OutOfResponses then 1 else 0) == Awaiting(run.seen)
    // every duel message looked at is recorded, in order, and nothing else
    && run.messages == DuelWhats(run.seen)
    // what was looked at is the driver's output, in order
    && Count(run.calls, StepCall) <= fuel
    && run.seen <= StepStream(d, Count(run.calls, StepCall))
    // only the last message looked at can end the run
    && (forall i :: 0 <= i < |run.seen| - 1 ==> run.seen[i].HostDuelMessage?)
    && (run.stop == Finished <==> run.seen != [] && run.seen[|run.seen| - 1] == HostDuelFinished)
    && (run.seen != [] && run.seen[|run.seen| - 1].HostError? ==> run.stop == Thrown(run.seen[|run.seen| - 1].error))
    && (run.stop == OutOfFuel ==> Count(run.calls, StepCall) == fuel && run.seen == StepStream(d, fuel))
  }

  lemma Snoc<T>(a: seq<T>, x: T)
    ensures (a + [x])[..|a|] == a && (a + [x])[|a|] == x
  {
  }

  /** The bound on step calls is used up after a whole batch. */
  lemma CloseOutOfFuel(d: Driver, responses: seq<seq<bv8>>, fuel: nat, batch: seq<HostMessage>,
                       next: nat, messages: seq<Message>, calls: seq<Call>, seen: seq<HostMessage>)
    requires Midway(d, responses, fuel, batch, |batch|, next, messages, calls, seen)
    ensures RunFacts(d, responses, fuel, Close(messages, calls, seen, OutOfFuel))
  {
    Snoc(calls, ReleaseCall);
  }

  /** Looking at message `j` of the batch keeps the loop's account of the driver's output. */
  lemma LookAt(d: Driver, k: nat, batch: seq<HostMessage>, j: nat, seen: seq<HostMessage>)
    requires j < |batch| && seen + batch[j..] == StepStream(d, k)
    ensures (seen + [batch[j]])[..|seen|] == seen && (seen + [batch[j]])[|seen|] == batch[j]
    ensures (seen + [batch[j]]) + batch[j + 1..] == StepStream(d, k)
  {
    assert batch[j..] == [batch[j]] + batch[j + 1..];
  }

  /** HOST_DUEL_FINISHED or HOST_ERROR ends the run unrecorded. */
  lemma CloseOnHostMessage(d: Driver, responses: seq<seq<bv8>>, fuel: nat, k: nat, batch: seq<HostMessage>, j: nat,
                           next: nat, messages: seq<Message>, calls: seq<Call>, seen: seq<HostMessage>, stop: Stop)
    requires Midway(d, responses, k, batch, j, next, messages, calls, seen) && k <= fuel && j < |batch|
    requires (batch[j] == HostDuelFinished && stop == Finished) || (batch[j].HostError? && stop == Thrown(batch[j].error))
    ensures RunFacts(d, responses, fuel, Close(messages, calls, seen + [batch[j]], stop))
  {
    Snoc(calls, ReleaseCall);
    LookAt(d, k, batch, j, seen);
  }

  /** A message waits for a response when none is left: recorded, and the run ends normally. */
  lemma CloseOutOfResponses(d: Driver, responses: seq<seq<bv8>>, fuel: nat, k: nat, batch: seq<HostMessage>, j: nat,
                            next: nat, messages: seq<Message>, calls: seq<Call>, seen: seq<HostMessage>)
    requires Midway(d, responses, k, batch, j, next, messages, calls, seen) && k <= fuel && j < |batch|
    requires IsHostAwaitingResponse(batch[j]) && next == |responses|
    ensures RunFacts(d, responses, fuel, Close(messages + [batch[j].what], calls, seen + [batch[j]], OutOfResponses))
  {
    Snoc(calls, ReleaseCall);
    LookAt(d, k, batch, j, seen);
  }

  /** Feeding the next response to a waiting message. */
  lemma FeedFacts(responses: seq<seq<bv8>>, next: nat, calls: seq<Call>)
    requires next < |responses| && Feeds(calls) == responses[..next] && Count(calls, ReleaseCall) == 0
    ensures var calls' := calls + [FeedCall(responses[next])];
      Feeds(calls') == responses[..next + 1] && Count(calls', ReleaseCall) == 0 &&
      Count(calls', StepCall) == Count(calls, StepCall)
  {
    Snoc(calls, FeedCall(responses[next]));
    assert responses[..next + 1] == responses[..next] + [responses[next]];
  }

  /** The driver refuses the response fed, or throws while taking it. */
  lemma CloseAfterFeed(d: Driver, responses: seq<seq<bv8>>, fuel: nat, k: nat, batch: seq<HostMessage>, j: nat,
                       next: nat, messages: seq<Message>, calls: seq<Call>, seen: seq<HostMessage>, stop: Stop)
    requires Midway(d, responses, k, batch, j, next, messages, calls, seen) && k <= fuel && j < |batch|
    requires IsHostAwaitingResponse(batch[j]) && next < |responses|
    requires stop.Rejected? || stop.Thrown?
    ensures RunFacts(d, responses, fuel,
      Close(messages + [batch[j].what], calls + [FeedCall(responses[next])], seen + [batch[j]], stop))
  {
    var calls' := calls + [FeedCall(responses[next])];
    FeedFacts(responses, next, calls);
    Snoc(calls', ReleaseCall);
    LookAt(d, k, batch, j, seen);
  }

  /** Every run continued from a state of the loop satisfies the run facts. */
  lemma {:induction false} ConsumeFacts(d: Driver, responses: seq<seq<bv8>>, fuel: nat, k: nat, batch: seq<HostMessage>, j: nat,
                                        next: nat, messages: seq<Message>, calls: seq<Call>, seen: seq<HostMessage>)
    requires Midway(d, responses, k, batch, j, next, messages, calls, seen)
    ensures RunFacts(d, responses, fuel + k, Consume(d, responses, fuel, k, batch, j, next, messages, calls, seen))
    decreases fuel, |batch| - j, 1
  {
    if j == |batch| {
      if fuel == 0 {
        assert Consume(d, responses, fuel, k, batch, j, next, messages, calls, seen) == Close(messages, calls, seen, OutOfFuel);
        CloseOutOfFuel(d, responses, k, batch, next, messages, calls, seen);
      } else {
        NextBatchFacts(d, responses, fuel, k, batch, next, messages, calls, seen);
      }
    } else {
      ElementFacts(d, responses, fuel, k, batch, j, next, messages, calls, seen);
    }
  }

  /** The case of `ConsumeFacts` where the batch is used up and the driver is stepped again. */
  lemma {:induction false} NextBatchFacts(d: Driver, responses: seq<seq<bv8>>, fuel: nat, k: nat, batch: seq<HostMessage>,
                                          next: nat, messages: seq<Message>, calls: seq<Call>, seen: seq<HostMessage>)
    requires Midway(d, responses, k, batch, |batch|, next, messages, calls, seen) && 0 < fuel
    ensures RunFacts(d, responses, fuel + k, Consume(d, responses, fuel, k, batch, |batch|, next, messages, calls, seen))
    decreases fuel, 0, 0
  {
    assert Consume(d, responses, fuel, k, batch, |batch|, next, messages, calls, seen) ==
      Consume(d, responses, fuel - 1, k + 1, d.step(k), 0, next, messages, calls + [StepCall], seen);
    StepFacts(d, responses, k, batch, next, messages, calls, seen);
    ConsumeFacts(d, responses, fuel - 1, k + 1, d.step(k), 0, next, messages, calls + [StepCall], seen);
  }

  /** The case of `ConsumeFacts` where message `j` of the batch is looked at. */
  lemma {:induction false} ElementFacts(d: Driver, responses: seq<seq<bv8>>, fuel: nat, k: nat, batch: seq<HostMessage>, j: nat,
                                        next: nat, messages: seq<Message>, calls: seq<Call>, seen: seq<HostMessage>)
    requires Midway(d, responses, k, batch, j, next, messages, calls, seen) && j < |batch|
    ensures RunFacts(d, responses, fuel + k, Consume(d, responses, fuel, k, batch, j, next, messages, calls, seen))
    decreases fuel, |batch| - j, 0
  {
    var h := batch[j];
    var r := Consume(d, responses, fuel, k, batch, j, next, messages, calls, seen);
    if h.HostError? {
      assert r == Close(messages, calls, seen + [h], Thrown(h.error));
      CloseOnHostMessage(d, responses, fuel + k, k, batch, j, next, messages, calls, seen, Thrown(h.error));
    } else if h.HostDuelFinished? {
      assert r == Close(messages, calls, seen + [h], Finished);
      CloseOnHostMessage(d, responses, fuel + k, k, batch, j, next, messages, calls, seen, Finished);
    } else if !IsHostAwaitingResponse(h) {
      assert r == Consume(d, responses, fuel, k, batch, j + 1, next, messages + [h.what], calls, seen + [h]);
      PassFacts(d, responses, k, batch, j, next, messages, calls, seen);
      ConsumeFacts(d, responses, fuel, k, batch, j + 1, next, messages + [h.what], calls, seen + [h]);
    } else if next >= |responses| {
      assert r == Close(messages + [h.what], calls, seen + [h], OutOfResponses);
      CloseOutOfResponses(d, responses, fuel + k, k, batch, j, next, messages, calls, seen);
    } else {
      var calls' := calls + [FeedCall(responses[next])];
      match d.feed(next)
      case Err(e) =>
        assert r == Close(messages + [h.what], calls', seen + [h], Thrown(e));
        CloseAfterFeed(d, responses, fuel + k, k, batch, j, next, messages, calls, seen, Thrown(e));
      case Ok(accepted) =>
        if accepted {
          assert r == Consume(d, responses, fuel, k, batch, j + 1, next + 1, messages + [h.what], calls', seen + [h]);
          AcceptFacts(d, responses, k, batch, j, next, messages, calls, seen);
          ConsumeFacts(d, responses, fuel, k, batch, j + 1, next + 1, messages + [h.what], calls', seen + [h]);
        } else {
          assert r == Close(messages + [h.what], calls', seen + [h], Rejected(next));
          CloseAfterFeed(d, responses, fuel + k, k, batch, j, next, messages, calls, seen, Rejected(next));
        }
    }
  }

  /** A step call starts the next batch. */
  lemma StepFacts(d: Driver, responses: seq<seq<bv8>>, k: nat, batch: seq<HostMessage>,
                  next: nat, messages: seq<Message>, calls: seq<Call>, seen: seq<HostMessage>)
    requires Midway(d, responses, k, batch, |batch|, next, messages, calls, seen)
    ensures Midway(d, responses, k + 1, d.step(k), 0, next, messages, calls + [StepCall], seen)
  {
    Snoc(calls, StepCall);
    assert d.step(k)[0..] == d.step(k);
  }

  /** A duel message that waits for nothing is recorded and the loop goes on. */
  lemma PassFacts(d: Driver, responses: seq<seq<bv8>>, k: nat, batch: seq<HostMessage>, j: nat,
                  next: nat, messages: seq<Message>, calls: seq<Call>, seen: seq<HostMessage>)
    requires Midway(d, responses, k, batch, j, next, messages, calls, seen) && j < |batch|
    requires batch[j].HostDuelMessage? && !IsHostAwaitingResponse(batch[j])
    ensures Midway(d, responses, k, batch, j + 1, next, messages + [batch[j].what], calls, seen + [batch[j]])
  {
    LookAt(d, k, batch, j, seen);
  }

  /** A waiting message whose response is accepted is recorded and the loop goes on. */
  lemma AcceptFacts(d: Driver, responses: seq<seq<bv8>>, k: nat, batch: seq<HostMessage>, j: nat,
                    next: nat, messages: seq<Message>, calls: seq<Call>, seen: seq<HostMessage>)
    requires Midway(d, responses, k, batch, j, next, messages, calls, seen) && j < |batch|
    requires IsHostAwaitingResponse(batch[j]) && next < |responses|
    ensures Midway(d, responses, k, batch, j + 1, next + 1, messages + [batch[j].what],
      calls + [FeedCall(responses[next])], seen + [batch[j]])
  {
    LookAt(d, k, batch, j, seen);
    FeedFacts(responses, next, calls);
  }

  /**
   * A replayed duel releases the driver exactly once, last; feeds the
   * responses in order, each at most once and one per waiting message;
   * records every duel message it looks at in order; looks at the driver's
   * output in order; and stops only at HOST_DUEL_FINISHED (unrecorded),
   * HOST_ERROR (rethrown), a waiting message with no response left, a
   * response the driver refuses or throws on, or the end of `fuel`.
   */
  lemma ReplayFacts(d: Driver, responses: seq<seq<bv8>>, fuel: nat)
    ensures RunFacts(d, responses, fuel, Replay(d, responses, fuel))
  {
    assert responses[..0] == [];
    ConsumeFacts(d, responses, fuel, 0, [], 0, 0, [], [], []);
  }
}
