/**
 * The duel host's driver: the pull-based queue over the engine's message
 * batches, the order of the engine calls that set a duel up, and the
 * question/response handshake of `step` and `feed`.
 *
 * The engine is reduced to what the driver sees of it: `pump(n)` is the
 * outcome of the n-th `process` call once parsed (a batch of messages, or the
 * parser's error), and the responses handed to `setResponse` are recorded in
 * order.
 */
module HostDriver {
  import opened Wrappers
  import opened Protocol
  import opened HostMessages
  import ReplayPlan
  import CoreApi

  // ------------------------------------------------------------ duel setup

  datatype DeckInfo = DeckInfo(main: seq<int>, extra: seq<int>)

  datatype DuelOptions = DuelOptions(
    seed: int, lp: int, draw: int, start: int, players: seq<DeckInfo>, engineOptions: int)

  /** The engine calls `createDuelState` makes. */
  datatype EngineCall =
    | CreateDuel(seed: int)
    | SetPlayerInfo(player: nat, lp: int, start: int, draw: int)
    | NewCard(code: int, owner: nat, player: nat, location: Location, sequence: nat, position: Position)
    | StartDuel(options: int)

  /** One `newCard` per code, in code order, face-down at sequence 0. */
  function PileCalls(codes: seq<int>, player: nat, location: Location): (r: seq<EngineCall>)
    ensures |r| == |codes|
  {
    if codes == [] then []
    else PileCalls(codes[..|codes| - 1], player, location) + [NewCard(codes[|codes| - 1], player, player, location, 0, FACEDOWN)]
  }

  /** The calls for one player: its info, then its main deck, then its extra deck. */
  function PlayerCalls(o: DuelOptions, player: nat): seq<EngineCall>
    requires player < |o.players|
  {
    [SetPlayerInfo(player, o.lp, o.start, o.draw)]
    + PileCalls(o.players[player].main, player, DECK)
    + PileCalls(o.players[player].extra, player, EXTRA)
  }

  /** The calls for the first `n` players. */
  function PlayersCalls(o: DuelOptions, n: nat): seq<EngineCall>
    requires n <= |o.players|
  {
    if n == 0 then [] else PlayersCalls(o, n - 1) + PlayerCalls(o, n - 1)
  }

  function SetupPlan(o: DuelOptions): seq<EngineCall>
  {
    [CreateDuel(o.seed)] + PlayersCalls(o, |o.players|) + [StartDuel(o.engineOptions)]
  }

  /** The `forEach` over one pile's codes. */
  method RecordPile(calls: seq<EngineCall>, codes: seq<int>, player: nat, location: Location) returns (out: seq<EngineCall>)
    ensures out == calls + PileCalls(codes, player, location)
  {
    out := calls;
    var i := 0;
    while i < |codes|
      invariant 0 <= i <= |codes|
      invariant out == calls + PileCalls(codes[..i], player, location)
    {
      assert codes[..i + 1][..i] == codes[..i];
      out := out + [NewCard(codes[i], player, player, location, 0, FACEDOWN)];
      i := i + 1;
    }
    assert codes[..i] == codes;
  }

  /** The engine calls of `createDuelState`, in the order they are made. */
  method SetupCalls(o: DuelOptions) returns (calls: seq<EngineCall>)
    ensures calls == SetupPlan(o)
  {
    calls := [CreateDuel(o.seed)];
    var player := 0;
    while player < |o.players|
      invariant 0 <= player <= |o.players|
      invariant calls == [CreateDuel(o.seed)] + PlayersCalls(o, player)
    {
      var deck := o.players[player];
      calls := calls + [SetPlayerInfo(player, o.lp, o.start, o.draw)];
      calls := RecordPile(calls, deck.main, player, DECK);
      calls := RecordPile(calls, deck.extra, player, EXTRA);
      player := player + 1;
    }
    calls := calls + [StartDuel(o.engineOptions)];
  }

  /** The player a call concerns and its place in that player's block: info, main deck, extra deck. */
  function Rank(c: EngineCall): (nat, nat)
  {
    match c
    case SetPlayerInfo(p, _, _, _) => (p, 0)
    case NewCard(_, _, p, location, _, _) => (p, if location == DECK then 1 else 2)
    case _ => (0, 0)
  }

  predicate RankLe(a: (nat, nat), b: (nat, nat))
  {
    a.0 < b.0 || (a.0 == b.0 && a.1 <= b.1)
  }

  predicate Ordered(calls: seq<EngineCall>)
  {
    forall i, j :: 0 <= i < j < |calls| ==> RankLe(Rank(calls[i]), Rank(calls[j]))
  }

  /** Every card is created face-down at sequence 0, owned by the player it is given to. */
  predicate FreshCards(calls: seq<EngineCall>)
  {
    forall c :: c in calls && c.NewCard? ==>
      c.sequence == 0 && c.position == FACEDOWN && c.owner == c.player && (c.location == DECK || c.location == EXTRA)
  }

  lemma {:induction false} PileCallsShape(codes: seq<int>, player: nat, location: Location)
    ensures forall i :: 0 <= i < |codes| ==>
      PileCalls(codes, player, location)[i] == NewCard(codes[i], player, player, location, 0, FACEDOWN)
    decreases |codes|
  {
    if codes != [] {
      PileCallsShape(codes[..|codes| - 1], player, location);
    }
  }

  lemma PlayerCallsRanks(o: DuelOptions, player: nat)
    requires player < |o.players|
    ensures Ordered(PlayerCalls(o, player)) && FreshCards(PlayerCalls(o, player))
    ensures forall c :: c in PlayerCalls(o, player) ==> Rank(c).0 == player && !c.CreateDuel? && !c.StartDuel?
  {
    var d := o.players[player];
    PileCallsShape(d.main, player, DECK);
    PileCallsShape(d.extra, player, EXTRA);
    var calls := PlayerCalls(o, player);
    var m := |d.main|;
    assert forall i :: 0 <= i < |calls| ==>
      Rank(calls[i]) == (player, if i == 0 then 0 else if i <= m then 1 else 2);
  }

  lemma {:induction false} PlayersCallsRanks(o: DuelOptions, n: nat)
    requires n <= |o.players|
    ensures Ordered(PlayersCalls(o, n)) && FreshCards(PlayersCalls(o, n))
    ensures forall c :: c in PlayersCalls(o, n) ==> Rank(c).0 < n && !c.CreateDuel? && !c.StartDuel?
  {
    if n > 0 {
      PlayersCallsRanks(o, n - 1);
      PlayerCallsRanks(o, n - 1);
      var a := PlayersCalls(o, n - 1);
      var b := PlayerCalls(o, n - 1);
      assert forall i :: 0 <= i < |a| ==> (a + b)[i] == a[i];
      assert forall i :: |a| <= i < |a| + |b| ==> (a + b)[i] == b[i - |a|];
      assert forall i :: 0 <= i < |a| ==> a[i] in a;
      assert forall i :: 0 <= i < |b| ==> b[i] in b;
    }
  }

  /**
   * The duel is created first and started last, with nothing in between but
   * the players' calls: player by player, each player's info before its main
   * deck and its main deck before its extra deck; every card face-down at
   * sequence 0.
   */
  lemma SetupOrder(o: DuelOptions)
    ensures var s := SetupPlan(o);
      s[0] == CreateDuel(o.seed) && s[|s| - 1] == StartDuel(o.engineOptions) &&
      (forall i :: 0 < i < |s| - 1 ==> !s[i].CreateDuel? && !s[i].StartDuel?) &&
      Ordered(s[1..|s| - 1]) && FreshCards(s)
  {
    PlayersCallsRanks(o, |o.players|);
    var mid := PlayersCalls(o, |o.players|);
    var s := SetupPlan(o);
    assert s[1..|s| - 1] == mid;
    assert forall i :: 0 < i < |s| - 1 ==> s[i] == mid[i - 1];
  }

  // --------------------------------------------------------- message queue

  /** What the engine gives the queue: the outcome of the n-th `pump`. */
  type Pump = nat -> Result<seq<Message>>

  /** The messages of the first `n` batches, in order; a batch that failed to parse adds none. */
  ghost function Pumped(pump: Pump, n: nat): seq<Message>
  {
    if n == 0 then [] else Pumped(pump, n - 1) + (if pump(n - 1).Ok? then pump(n - 1).value else [])
  }

  /** From call `from` on, the engine eventually answers with something other than an empty batch. */
  ghost predicate Productive(pump: Pump, from: nat)
  {
    exists k: nat :: k >= from && pump(k) != Ok([])
  }

  class MessageQueue {
    const pump: Pump
    var queue: seq<Message>
    var index: nat
    /** The number of `pump` calls so far. */
    var pumps: nat
    /** The messages `pull` has returned so far. */
    ghost var delivered: seq<Message>

    /** Nothing pumped is lost or repeated: what was delivered and what is still queued is all that was pumped. */
    ghost predicate Valid()
      reads this
    {
      index <= |queue| && delivered + queue[index..] == Pumped(pump, pumps)
    }

    constructor(pump: Pump)
      ensures this.pump == pump && queue == [] && index == 0 && pumps == 0 && delivered == []
      ensures Valid()
    {
      this.pump := pump;
      queue := [];
      index := 0;
      pumps := 0;
      delivered := [];
    }

    /**
     * `fill`: pumps only when the current batch is exhausted, and again while
     * the engine answers with empty batches.
     */
    method Fill() returns (r: Result<()>)
      requires Valid() && Productive(pump, pumps)
      modifies this
      ensures Valid() && delivered == old(delivered) && pumps >= old(pumps)
      ensures old(index) < old(|queue|) ==> queue == old(queue) && index == old(index) && pumps == old(pumps)
      ensures forall j :: old(pumps) <= j < pumps - 1 ==> pump(j) == Ok([])
      ensures r.Ok? <==> index < |queue|
      ensures r.Ok? && pumps > old(pumps) ==> index == 0 && pump(pumps - 1) == Ok(queue)
      ensures r.Err? ==> pumps > old(pumps) && pump(pumps - 1).Err? && r.error == pump(pumps - 1).error
    {
      ghost var k: nat :| k >= pumps && pump(k) != Ok([]);
      while index == |queue|
        invariant Valid() && delivered == old(delivered) && old(pumps) <= pumps
        invariant index == |queue| ==> pumps <= k
        invariant pumps == old(pumps) ==> queue == old(queue) && index == old(index)
        invariant old(index) < old(|queue|) ==> pumps == old(pumps)
        invariant forall j :: old(pumps) <= j < pumps - 1 ==> pump(j) == Ok([])
        invariant pumps > old(pumps) ==> pump(pumps - 1) == Ok(queue) && index == 0
        decreases k + 1 - pumps
      {
        var pumped := PumpOnce();
        if pumped.Err? {
          return pumped;
        }
      }
      return Ok(());
    }

    /** One `pump` call with the current batch exhausted: a parsed batch becomes the queue. */
    method PumpOnce() returns (r: Result<()>)
      requires Valid() && index == |queue|
      modifies this
      ensures Valid() && delivered == old(delivered) && pumps == old(pumps) + 1
      ensures pump(old(pumps)).Err? ==> r == Err(pump(old(pumps)).error) && queue == old(queue) && index == old(index)
      ensures pump(old(pumps)).Ok? ==> r == Ok(()) && queue == pump(old(pumps)).value && index == 0
    {
      var batch := pump(pumps);
      assert queue[index..] == [];
      Pumping(pumps, delivered);
      pumps := pumps + 1;
      if batch.Err? {
        return Err(batch.error);
      }
      queue := batch.value;
      index := 0;
      return Ok(());
    }

    /** One more batch extends what was pumped by its messages. */
    lemma Pumping(n: nat, before: seq<Message>)
      requires before == Pumped(pump, n)
      ensures pump(n).Ok? ==> before + pump(n).value == Pumped(pump, n + 1)
      ensures pump(n).Err? ==> before == Pumped(pump, n + 1)
    {
    }

    /** `pull`: the next pumped message, delivered exactly once. */
    method Pull() returns (r: Result<Message>)
      requires Valid() && Productive(pump, pumps)
      modifies this
      ensures Valid() && pumps >= old(pumps)
      ensures r.Ok? ==> delivered == old(delivered) + [r.value]
      ensures r.Err? ==> delivered == old(delivered) && pumps > old(pumps) && pump(pumps - 1).Err? && r.error == pump(pumps - 1).error
      ensures old(index) < old(|queue|) ==> r == Ok(old(queue[index])) && pumps == old(pumps)
      ensures forall j :: old(pumps) <= j < pumps - 1 ==> pump(j) == Ok([])
    {
      var filled := Fill();
      if filled.Err? {
        return Err(filled.error);
      }
      r := Ok(queue[index]);
      assert queue[index..] == [queue[index]] + queue[index + 1..];
      delivered := delivered + [queue[index]];
      index := index + 1;
    }

    /** `peek`: the message the next `pull` returns, left in the queue. */
    method Peek() returns (r: Result<Message>)
      requires Valid() && Productive(pump, pumps)
      modifies this
      ensures Valid() && delivered == old(delivered) && pumps >= old(pumps)
      ensures r.Ok? ==> index < |queue| && r.value == queue[index]
      ensures r.Err? ==> pumps > old(pumps) && pump(pumps - 1).Err? && r.error == pump(pumps - 1).error
      ensures old(index) < old(|queue|) ==> r == Ok(old(queue[index])) && pumps == old(pumps) && queue == old(queue)
      ensures forall j :: old(pumps) <= j < pumps - 1 ==> pump(j) == Ok([])
    {
      var filled := Fill();
      if filled.Err? {
        return Err(filled.error);
      }
      r := Ok(queue[index]);
    }
  }

  // ----------------------------------------------------------- duel state

  /** The inflater the driver is given: the host messages for one engine message, or its error. */
  type Inflator = Message -> Result<seq<HostMessage>>

  /** What `step` gives for a pulled message: its inflation, with HOST_DUEL_FINISHED after MSG_WIN. */
  function Inflated(inflate: Inflator, m: Message): Result<seq<HostMessage>>
  {
    match inflate(m)
    case Err(e) => Err(e)
    case Ok(messages) => if m.MsgWin? then Ok(messages + [HostDuelFinished]) else Ok(messages)
  }

  /** The error `step` raises once the duel is over. */
  const FINISHED: string := "Duel finished"

  /** `DuelState` of the host: the pending question and the responses handed to the engine. */
  class DuelState {
    const queue: MessageQueue
    const inflate: Inflator
    var lastQuestion: Option<Message>
    var finished: bool
    /** The buffers passed to `setResponse`, in order. */
    var responses: seq<seq<bv8>>

    ghost predicate Valid()
      reads this, queue
    {
      queue.Valid() && (lastQuestion.Some? ==> IsQuestion(lastQuestion.value))
    }

    constructor(queue: MessageQueue, inflate: Inflator)
      requires queue.Valid()
      ensures this.queue == queue && this.inflate == inflate
      ensures lastQuestion == None && !finished && responses == []
      ensures Valid()
    {
      this.queue := queue;
      this.inflate := inflate;
      lastQuestion := None;
      finished := false;
      responses := [];
    }

    /**
     * What one `feed` of `response` gives and leaves: the response is handed
     * to the engine and nothing is delivered; the verdict is false exactly
     * when the engine's next message is MSG_RETRY, and acceptance clears the
     * pending question. When the engine fails to answer, its error is raised.
     * A response over 64 bytes is still handed over, but `setResponse` then
     * raises its RangeError and the queue is not looked at.
     */
    twostate predicate Fed(response: seq<bv8>, new r: Result<bool>)
      reads this, queue
    {
      && responses == old(responses) + [response] && finished == old(finished)
      && queue.delivered == old(queue.delivered)
      && if |response| > CoreApi.RESPONSE_SIZE then
        r == Err(CoreApi.TOO_LARGE) && unchanged(queue) && lastQuestion == old(lastQuestion)
      else
        && (r.Ok? ==> queue.index < |queue.queue| && (r.value <==> !queue.queue[queue.index].MsgRetry?))
        && (r.Err? ==> queue.pumps > old(queue.pumps) && queue.pump(queue.pumps - 1).Err? && r.error == queue.pump(queue.pumps - 1).error)
        && (r == Ok(true) ==> lastQuestion == None)
        && (r != Ok(true) ==> lastQuestion == old(lastQuestion))
    }

    /**
     * What one `step` gives and leaves. Once finished it raises "Duel
     * finished"; while a question is pending it re-emits it to the player
     * asked and pulls nothing. Otherwise either the engine failed to answer,
     * nothing was delivered and its error is raised, or exactly one message
     * was pulled and the result is its inflation, followed by
     * HOST_DUEL_FINISHED after MSG_WIN; a pulled question becomes the pending
     * one once its inflation succeeds.
     */
    twostate predicate StepOutcome(new r: Result<seq<HostMessage>>)
      reads this, queue
    {
      && responses == old(responses) && finished == old(finished)
      && if old(finished) then
        r == Err(FINISHED) && queue.delivered == old(queue.delivered) && lastQuestion == old(lastQuestion)
      else if old(lastQuestion).Some? then
        old(lastQuestion).value.MsgQuestion? && r == Ok([PendingQuestion(old(lastQuestion).value)]) &&
        queue.delivered == old(queue.delivered) && lastQuestion == old(lastQuestion)
      else if queue.delivered == old(queue.delivered) then
        queue.pumps > old(queue.pumps) && queue.pump(queue.pumps - 1).Err? &&
        r == Err(queue.pump(queue.pumps - 1).error) && lastQuestion == old(lastQuestion)
      else
        |queue.delivered| == |old(queue.delivered)| + 1 &&
        var m := queue.delivered[|queue.delivered| - 1];
        queue.delivered == old(queue.delivered) + [m] && r == Inflated(inflate, m) &&
        lastQuestion == (if r.Ok? && IsQuestion(m) then Some(m) else old(lastQuestion))
    }

    /**
     * `feed`: the response goes to the engine; it is refused (false) when the
     * engine's next message is MSG_RETRY, and otherwise accepted, which
     * clears the pending question. A response over 64 bytes makes
     * `setResponse` raise before the queue is looked at.
     */
    method Feed(response: seq<bv8>) returns (r: Result<bool>)
      requires Valid() && Productive(queue.pump, queue.pumps)
      modifies this, queue
      ensures Valid() && Fed(response, r)
    {
      responses := responses + [response];
      if |response| > CoreApi.RESPONSE_SIZE {
        return Err(CoreApi.TOO_LARGE);
      }
      var next := queue.Peek();
      if next.Err? {
        return Err(next.error);
      }
      if next.value.MsgRetry? {
        return Ok(false);
      }
      lastQuestion := None;
      return Ok(true);
    }

    /**
     * `step`: while a question is pending it is re-emitted to the player asked
     * and nothing is pulled; otherwise the next message is pulled and
     * inflated, a question becomes the pending one, and MSG_WIN is followed
     * by HOST_DUEL_FINISHED.
     */
    method Step() returns (r: Result<seq<HostMessage>>)
      requires Valid() && Productive(queue.pump, queue.pumps)
      modifies this, queue
      ensures Valid() && StepOutcome(r)
    {
      if finished {
        return Err(FINISHED);
      }
      if lastQuestion.Some? {
        return Ok([PendingQuestion(lastQuestion.value)]);
      }
      var pulled := queue.Pull();
      if pulled.Err? {
        return Err(pulled.error);
      }
      var m := pulled.value;
      var inflated := inflate(m);
      if inflated.Err? {
        return Err(inflated.error);
      }
      var messages := inflated.value;
      if IsQuestion(m) {
        lastQuestion := Some(m);
      }
      if m.MsgWin? {
        messages := messages + [HostDuelFinished];
      }
      return Ok(messages);
    }
  }

  // ----------------------------------------------------------- duel driver

  /** `wrapError`: a thrown error becomes the single message HOST_ERROR. */
  function WrapError(r: Result<seq<HostMessage>>): (out: seq<HostMessage>)
    ensures r.Err? ==> out == [HostError(r.error)]
    ensures r.Ok? ==> out == r.value
  {
    match r
    case Ok(messages) => messages
    case Err(e) => [HostError(e)]
  }

  /**
   * `DuelDriver`: the duel state of the duel, inflated by the replay
   * planner; `start` and `step` never throw, `release` ends the duel. The
   * engine's answers to the planner's queries are `data`, and `parse` is the
   * message parser.
   */
  class DuelDriver {
    const state: DuelState
    const data: ReplayPlan.Query -> seq<bv8>
    const parse: seq<bv8> -> Result<seq<Message>>
    var released: bool

    ghost predicate Valid()
      reads this, state, state.queue
    {
      state.Valid()
    }

    /** The duel state over `queue`, with `replayInflate` as its inflater. */
    constructor(queue: MessageQueue, data: ReplayPlan.Query -> seq<bv8>, parse: seq<bv8> -> Result<seq<Message>>)
      requires queue.Valid()
      ensures fresh(state) && state.queue == queue && this.data == data && this.parse == parse
      ensures forall m :: state.inflate(m) == ReplayPlan.Inflate(m, data, parse)
      ensures state.lastQuestion == None && !state.finished && state.responses == []
      ensures !released && Valid()
    {
      state := new DuelState(queue, m => ReplayPlan.Inflate(m, data, parse));
      this.data := data;
      this.parse := parse;
      released := false;
    }

    /** `start`: the wrapped outcome of `replayStart`. */
    method Start() returns (r: seq<HostMessage>)
      ensures r == WrapError(ReplayPlan.Start(data, parse))
    {
      r := WrapError(ReplayPlan.Start(data, parse));
    }

    /**
     * `step`: the wrapped outcome of the state's `step`, `inner`, which
     * `StepOutcome` determines from the state before and after.
     */
    method Step() returns (r: seq<HostMessage>, ghost inner: Result<seq<HostMessage>>)
      requires Valid() && Productive(state.queue.pump, state.queue.pumps)
      modifies state, state.queue
      ensures Valid() && released == old(released)
      ensures state.StepOutcome(inner) && r == WrapError(inner)
    {
      var stepped := state.Step();
      inner := stepped;
      r := WrapError(stepped);
    }

    /** `feed`: the state's verdict on the response. */
    method Feed(response: seq<bv8>) returns (r: Result<bool>)
      requires Valid() && Productive(state.queue.pump, state.queue.pumps)
      modifies state, state.queue
      ensures Valid() && released == old(released)
      ensures state.Fed(response, r)
    {
      r := state.Feed(response);
    }

    /** `release`: `endDuel` on the engine. */
    method Release()
      modifies this
      ensures released
    {
      released := true;
    }
  }
}
