/**
 * The replay inflater of the duel host: after every engine message it plans
 * the follow-up queries that refresh the board, runs them against the engine,
 * and emits the message followed by the refreshed data, all without a
 * recipient. The engine's query calls and the message parser are parameters:
 * `data(q)` is the buffer the engine answers to the query `q`, and
 * `parse(b)` the messages parsed from the buffer `b`, or the parser's error.
 */
module ReplayPlan {
  import opened Wrappers
  import opened Protocol
  import opened HostMessages

  const REFRESH_GRAVE_FLAGS: nat := 0x181FFF
  const REFRESH_DECK_FLAGS: nat := 0x181FFF
  const REFRESH_EXTRA_FLAGS: nat := 0x181FFF
  const REFRESH_SINGLE_FLAGS: nat := 0xF81FFF
  const REFRESH_FLAGS: nat := 0xF81FFF

  /** A query of one zone of one player (`queryFieldCard`) or of one card (`queryCard`). */
  datatype Query =
    | FieldQuery(player: nat, location: Location, flags: nat, cache: bool)
    | CardQuery(player: nat, location: Location, sequence: nat, flags: nat, cache: bool)

  function Refresh1(player: nat, location: Location, flags: nat): seq<Query>
  {
    [FieldQuery(player, location, flags, false)]
  }

  /** The same zone of player 0, then of player 1. */
  function Refresh2(location: Location, flags: nat): seq<Query>
  {
    Refresh1(0, location, flags) + Refresh1(1, location, flags)
  }

  function RefreshSingle(player: nat, location: Location, sequence: nat, flags: nat): seq<Query>
  {
    [CardQuery(player, location, sequence, flags, false)]
  }

  lemma Refresh2Pair(location: Location, flags: nat)
    ensures Refresh2(location, flags) == [FieldQuery(0, location, flags, false), FieldQuery(1, location, flags, false)]
  {
  }

  /** Monster zones, spell zones and hands of both players. */
  function RefreshReplay(flags: nat): seq<Query>
  {
    Refresh2(MZONE, flags) + Refresh2(SZONE, flags) + Refresh2(HAND, flags)
  }

  /** `doReplayStart`: both decks, then both extra decks. */
  function StartPlan(): seq<Query>
  {
    Refresh2(DECK, REFRESH_DECK_FLAGS) + Refresh2(EXTRA, REFRESH_EXTRA_FLAGS)
  }

  /** `handleQuestion`, without the question itself. */
  function QuestionPlan(q: QuestionKind): seq<Query>
  {
    match q
    case SelectBattleCmd => RefreshReplay(REFRESH_FLAGS)
    case SelectIdleCmd => RefreshReplay(REFRESH_FLAGS)
    case SelectOther(_) => []
  }

  /** The messages after which the whole board is refreshed. */
  predicate RefreshesBoard(m: Message)
  {
    m.MsgNewPhase? || m.MsgSummoned? || m.MsgChained? || m.MsgChainSolved?
    || m.MsgChainEnd? || m.MsgDamageStepStart?
  }

  /** The MSG_MOVE condition: a card arrived in a new zone or with a new controller, not as material. */
  predicate MoveRefreshes(m: Message)
    requires m.MsgMove?
  {
    var cl := m.current.location;
    cl != 0 && cl & OVERLAY == 0
    && (cl != m.previous.location || m.current.controller != m.previous.controller)
  }

  /** `handleMessage`, without the message itself; MSG_TAG_SWAP throws. */
  function MessagePlan(m: Message): Result<seq<Query>>
  {
    match m
    case MsgTagSwap => Err("TAG message not supported")
    case MsgReverseDeck => Ok(Refresh2(DECK, REFRESH_DECK_FLAGS))
    case MsgShuffleDeck(player) => Ok(Refresh1(player, DECK, REFRESH_DECK_FLAGS))
    case MsgSwapGraveDeck(player) => Ok(Refresh1(player, GRAVE, REFRESH_GRAVE_FLAGS))
    case MsgMove(_, _, current) =>
      if MoveRefreshes(m)
      then Ok(RefreshSingle(current.controller, current.location, current.sequence, REFRESH_SINGLE_FLAGS))
      else Ok([])
    case _ => if RefreshesBoard(m) then Ok(RefreshReplay(REFRESH_FLAGS)) else Ok([])
  }

  /** The follow-up queries of `replayInflate`. */
  function Plan(m: Message): Result<seq<Query>>
  {
    if IsQuestion(m) then Ok(QuestionPlan(m.question)) else MessagePlan(m)
  }

  function Byte(n: nat): bv8
  {
    (n % 256) as bv8
  }

  /** The bytes `prepend` puts before the engine's answer; `Buffer.from` keeps the low byte of each. */
  function Header(q: Query): seq<bv8>
  {
    match q
    case FieldQuery(player, location, _, _) =>
      [Byte(MSG_UPDATE_DATA), Byte(player), location]
    case CardQuery(player, location, sequence, _, _) =>
      [Byte(MSG_UPDATE_CARD), Byte(player), location, Byte(sequence)]
  }

  /** The buffer `doRefresh`/`doRefreshSingle` hands to the parser. */
  function Synthetic(q: Query, data: seq<bv8>): seq<bv8>
  {
    Header(q) + data
  }

  /** What the parser makes of the engine's answer to `q`. */
  function Answer(q: Query, data: Query -> seq<bv8>, parse: seq<bv8> -> Result<seq<Message>>): Result<seq<Message>>
  {
    parse(Synthetic(q, data(q)))
  }

  /** The queries run in order; the first parser error is rethrown. */
  function RunQueries(qs: seq<Query>, data: Query -> seq<bv8>, parse: seq<bv8> -> Result<seq<Message>>): Result<seq<Message>>
  {
    if qs == [] then Ok([])
    else
      match RunQueries(qs[..|qs| - 1], data, parse)
      case Err(e) => Err(e)
      case Ok(before) =>
        match Answer(qs[|qs| - 1], data, parse)
        case Err(e) => Err(e)
        case Ok(last) => Ok(before + last)
  }

  function WrapAll(ms: seq<Message>): (r: seq<HostMessage>)
    ensures |r| == |ms|
    ensures forall i :: 0 <= i < |ms| ==> r[i] == Wrap(ms[i])
  {
    seq(|ms|, i requires 0 <= i < |ms| => Wrap(ms[i]))
  }

  function Emit(m: Message, qs: seq<Query>, data: Query -> seq<bv8>, parse: seq<bv8> -> Result<seq<Message>>): Result<seq<HostMessage>>
  {
    match RunQueries(qs, data, parse)
    case Err(e) => Err(e)
    case Ok(refreshed) => Ok(WrapAll([m] + refreshed))
  }

  /** `replayInflate`. */
  function Inflate(m: Message, data: Query -> seq<bv8>, parse: seq<bv8> -> Result<seq<Message>>): Result<seq<HostMessage>>
  {
    match Plan(m)
    case Err(e) => Err(e)
    case Ok(qs) => Emit(m, qs, data, parse)
  }

  /** `replayStart`. */
  function Start(data: Query -> seq<bv8>, parse: seq<bv8> -> Result<seq<Message>>): Result<seq<HostMessage>>
  {
    match RunQueries(StartPlan(), data, parse)
    case Err(e) => Err(e)
    case Ok(ms) => Ok(WrapAll(ms))
  }

  // ------------------------------------------------------------ properties

  /** Every synthetic buffer of `qs` parses. */
  predicate AllParse(qs: seq<Query>, data: Query -> seq<bv8>, parse: seq<bv8> -> Result<seq<Message>>)
  {
    forall i :: 0 <= i < |qs| ==> Answer(qs[i], data, parse).Ok?
  }

  /** The messages of every answer, query after query. */
  function Answers(qs: seq<Query>, data: Query -> seq<bv8>, parse: seq<bv8> -> Result<seq<Message>>): seq<Message>
    requires AllParse(qs, data, parse)
  {
    if qs == [] then [] else Answer(qs[0], data, parse).value + Answers(qs[1..], data, parse)
  }

  /**
   * The queries succeed exactly when every synthetic buffer parses, and then
   * give the parsed messages of each query in query order.
   */
  lemma {:induction false} RunQueriesOk(qs: seq<Query>, data: Query -> seq<bv8>, parse: seq<bv8> -> Result<seq<Message>>)
    ensures RunQueries(qs, data, parse).Ok? <==> AllParse(qs, data, parse)
    ensures AllParse(qs, data, parse) ==> RunQueries(qs, data, parse).value == Answers(qs, data, parse)
    decreases |qs|
  {
    if qs != [] {
      var n := |qs| - 1;
      var init := qs[..n];
      RunQueriesOk(init, data, parse);
      AllParseSnoc(qs, data, parse);
      if AllParse(qs, data, parse) {
        AnswersSnoc(qs, data, parse);
      }
    }
  }

  /** Every query parses exactly when all but the last do and the last does. */
  lemma AllParseSnoc(qs: seq<Query>, data: Query -> seq<bv8>, parse: seq<bv8> -> Result<seq<Message>>)
    requires qs != []
    ensures AllParse(qs, data, parse) <==> AllParse(qs[..|qs| - 1], data, parse) && Answer(qs[|qs| - 1], data, parse).Ok?
  {
    var n := |qs| - 1;
    assert forall i :: 0 <= i < n ==> qs[..n][i] == qs[i];
  }

  /** When some buffer does not parse, the error is that of the first such buffer. */
  lemma {:induction false} RunQueriesFirstError(qs: seq<Query>, data: Query -> seq<bv8>, parse: seq<bv8> -> Result<seq<Message>>, i: nat)
    requires i < |qs| && AllParse(qs[..i], data, parse) && Answer(qs[i], data, parse).Err?
    ensures RunQueries(qs, data, parse) == Err(Answer(qs[i], data, parse).error)
    decreases |qs|
  {
    var n := |qs| - 1;
    var init := qs[..n];
    if i < n {
      assert init[i] == qs[i];
      assert init[..i] == qs[..i];
      RunQueriesFirstError(init, data, parse, i);
      assert RunQueries(init, data, parse) == Err(Answer(qs[i], data, parse).error);
    } else {
      assert init == qs[..i];
      RunQueriesOk(init, data, parse);
      assert RunQueries(init, data, parse).Ok?;
    }
  }

  lemma {:induction false} AnswersSnoc(qs: seq<Query>, data: Query -> seq<bv8>, parse: seq<bv8> -> Result<seq<Message>>)
    requires qs != [] && AllParse(qs, data, parse)
    ensures AllParse(qs[..|qs| - 1], data, parse)
    ensures Answers(qs, data, parse) == Answers(qs[..|qs| - 1], data, parse) + Answer(qs[|qs| - 1], data, parse).value
  {
    var n := |qs| - 1;
    var last := [qs[n]];
    assert qs == qs[..n] + last;
    AnswersAppend(qs[..n], last, data, parse);
    assert last[1..] == [];
  }

  /** The answers to two runs of queries, one after the other. */
  lemma {:induction false} AnswersAppend(a: seq<Query>, b: seq<Query>, data: Query -> seq<bv8>, parse: seq<bv8> -> Result<seq<Message>>)
    requires AllParse(a + b, data, parse)
    ensures AllParse(a, data, parse) && AllParse(b, data, parse)
    ensures Answers(a + b, data, parse) == Answers(a, data, parse) + Answers(b, data, parse)
    decreases |a|
  {
    AllParseSplit(a, b, data, parse);
    if a == [] {
      assert a + b == b;
    } else {
      var rest := a[1..] + b;
      assert (a + b)[0] == a[0];
      assert (a + b)[1..] == rest;
      AnswersAppend(a[1..], b, data, parse);
      var first := Answer(a[0], data, parse).value;
      assert Answers(a + b, data, parse) == first + Answers(rest, data, parse);
      assert Answers(a, data, parse) == first + Answers(a[1..], data, parse);
      Assoc(first, Answers(a[1..], data, parse), Answers(b, data, parse));
    }
  }

  lemma Assoc<T>(x: seq<T>, y: seq<T>, z: seq<T>)
    ensures x + (y + z) == (x + y) + z
  {
  }

  /** Every query of two runs parses when every query of both, one after the other, does. */
  lemma AllParseSplit(a: seq<Query>, b: seq<Query>, data: Query -> seq<bv8>, parse: seq<bv8> -> Result<seq<Message>>)
    requires AllParse(a + b, data, parse)
    ensures AllParse(a, data, parse) && AllParse(b, data, parse)
    ensures a != [] ==> AllParse(a[1..] + b, data, parse)
  {
    forall i | 0 <= i < |a|
      ensures Answer(a[i], data, parse).Ok?
    {
      assert (a + b)[i] == a[i];
    }
    forall i | 0 <= i < |b|
      ensures Answer(b[i], data, parse).Ok?
    {
      assert (a + b)[|a| + i] == b[i];
    }
    if a != [] {
      assert a[1..] + b == (a + b)[1..];
      forall i | 0 <= i < |a[1..] + b|
        ensures Answer((a[1..] + b)[i], data, parse).Ok?
      {
        assert (a[1..] + b)[i] == (a + b)[i + 1];
      }
    }
  }

  /**
   * The inflated list is the message itself followed by the refreshed data,
   * every element without a recipient; it fails exactly when the message is
   * refused or some refresh buffer does not parse.
   */
  lemma InflateShape(m: Message, data: Query -> seq<bv8>, parse: seq<bv8> -> Result<seq<Message>>)
    ensures Inflate(m, data, parse).Ok? <==> Plan(m).Ok? && AllParse(Plan(m).value, data, parse)
    ensures Inflate(m, data, parse).Ok? ==>
      var r := Inflate(m, data, parse).value;
      r == WrapAll([m] + Answers(Plan(m).value, data, parse)) && |r| >= 1 && r[0] == Wrap(m) &&
      forall i :: 0 <= i < |r| ==> r[i].HostDuelMessage? && r[i].to == []
  {
    if Plan(m).Ok? {
      RunQueriesOk(Plan(m).value, data, parse);
    }
  }

  /** The start of a replay loads both decks and both extra decks, in that order. */
  lemma StartQueries(data: Query -> seq<bv8>, parse: seq<bv8> -> Result<seq<Message>>)
    ensures StartPlan() == [
      FieldQuery(0, DECK, 0x181FFF, false), FieldQuery(1, DECK, 0x181FFF, false),
      FieldQuery(0, EXTRA, 0x181FFF, false), FieldQuery(1, EXTRA, 0x181FFF, false)]
    ensures Start(data, parse).Ok? <==> AllParse(StartPlan(), data, parse)
    ensures Start(data, parse).Ok? ==> Start(data, parse).value == WrapAll(Answers(StartPlan(), data, parse))
  {
    RunQueriesOk(StartPlan(), data, parse);
  }

  /** Phase changes, summons and chain events refresh monster zones, spell zones and hands of both players. */
  lemma BoardRefresh(m: Message)
    requires RefreshesBoard(m)
    ensures Plan(m) == Ok([
      FieldQuery(0, MZONE, 0xF81FFF, false), FieldQuery(1, MZONE, 0xF81FFF, false),
      FieldQuery(0, SZONE, 0xF81FFF, false), FieldQuery(1, SZONE, 0xF81FFF, false),
      FieldQuery(0, HAND, 0xF81FFF, false), FieldQuery(1, HAND, 0xF81FFF, false)])
  {
    assert Plan(m) == Ok(RefreshReplay(REFRESH_FLAGS));
    Refresh2Pair(MZONE, REFRESH_FLAGS);
    Refresh2Pair(SZONE, REFRESH_FLAGS);
    Refresh2Pair(HAND, REFRESH_FLAGS);
    var a := [FieldQuery(0, MZONE, REFRESH_FLAGS, false), FieldQuery(1, MZONE, REFRESH_FLAGS, false)];
    var b := [FieldQuery(0, SZONE, REFRESH_FLAGS, false), FieldQuery(1, SZONE, REFRESH_FLAGS, false)];
    var c := [FieldQuery(0, HAND, REFRESH_FLAGS, false), FieldQuery(1, HAND, REFRESH_FLAGS, false)];
    assert a + b + c == [a[0], a[1], b[0], b[1], c[0], c[1]];
  }

  /** Reversing refreshes both decks; a shuffle only that player's deck; a swap only that player's grave. */
  lemma DeckAndGraveEvents(player: nat)
    ensures Plan(MsgReverseDeck) == Ok([FieldQuery(0, DECK, 0x181FFF, false), FieldQuery(1, DECK, 0x181FFF, false)])
    ensures Plan(MsgShuffleDeck(player)) == Ok([FieldQuery(player, DECK, 0x181FFF, false)])
    ensures Plan(MsgSwapGraveDeck(player)) == Ok([FieldQuery(player, GRAVE, 0x181FFF, false)])
  {
    assert Plan(MsgReverseDeck) == Ok(Refresh2(DECK, REFRESH_DECK_FLAGS));
    Refresh2Pair(DECK, REFRESH_DECK_FLAGS);
  }

  /**
   * A move refreshes the one card at its destination if and only if the
   * destination is a zone, not an overlay, and differs from the origin in
   * location or controller.
   */
  lemma MoveRefresh(code: int, previous: LocInfo, current: LocInfo)
    ensures var m := MsgMove(code, previous, current);
      Plan(m).Ok? &&
      (Plan(m).value != [] <==>
        current.location != 0 && current.location & OVERLAY == 0 &&
        (current.location != previous.location || current.controller != previous.controller)) &&
      (Plan(m).value != [] ==>
        Plan(m).value == [CardQuery(current.controller, current.location, current.sequence, 0xF81FFF, false)])
  {
  }

  /** Only the battle and idle command questions refresh the board; other questions come alone. */
  lemma QuestionRefresh(q: QuestionKind, player: nat)
    ensures Plan(MsgQuestion(q, player)).Ok?
    ensures Plan(MsgQuestion(q, player)).value != [] <==> q == SelectBattleCmd || q == SelectIdleCmd
    ensures Plan(MsgQuestion(q, player)).value != [] ==> Plan(MsgQuestion(q, player)).value == RefreshReplay(0xF81FFF)
  {
  }

  /** MSG_TAG_SWAP is the one message the inflater refuses, and it queries nothing before refusing. */
  lemma OnlyTagSwapFails(m: Message, data: Query -> seq<bv8>, parse: seq<bv8> -> Result<seq<Message>>)
    ensures Plan(m).Err? <==> m == MsgTagSwap
    ensures m == MsgTagSwap ==> Inflate(m, data, parse) == Err("TAG message not supported")
  {
    PlanCases(m);
  }

  /** Every message kind the planner does not list yields just itself. */
  lemma UnlistedMessagesAlone(m: Message, data: Query -> seq<bv8>, parse: seq<bv8> -> Result<seq<Message>>)
    requires !IsQuestion(m) && !RefreshesBoard(m) && !m.MsgMove? && !m.MsgTagSwap?
    requires !m.MsgReverseDeck? && !m.MsgShuffleDeck? && !m.MsgSwapGraveDeck?
    ensures Plan(m) == Ok([])
    ensures Inflate(m, data, parse) == Ok([Wrap(m)])
  {
    assert Plan(m) == Ok([]);
    assert RunQueries([], data, parse) == Ok([]);
    assert [m] + [] == [m];
    assert WrapAll([m]) == [Wrap(m)];
  }

  /** No query ever asks the engine for cached data. */
  lemma NeverCached(m: Message)
    ensures Plan(m).Ok? ==> forall q :: q in Plan(m).value ==> !q.cache
    ensures forall q :: q in StartPlan() ==> !q.cache
  {
    PlanCases(m);
    RefreshReplayUncached(REFRESH_FLAGS);
  }

  /** The plans there are: none, the board, one zone or both zones of one kind, one card, or the refusal. */
  lemma PlanCases(m: Message)
    ensures IsQuestion(m) ==> Plan(m) == Ok(QuestionPlan(m.question))
    ensures m.MsgMove? ==> Plan(m) == Ok(if MoveRefreshes(m)
      then RefreshSingle(m.current.controller, m.current.location, m.current.sequence, REFRESH_SINGLE_FLAGS) else [])
    ensures m.MsgReverseDeck? ==> Plan(m) == Ok(Refresh2(DECK, REFRESH_DECK_FLAGS))
    ensures m.MsgShuffleDeck? ==> Plan(m) == Ok(Refresh1(m.player, DECK, REFRESH_DECK_FLAGS))
    ensures m.MsgSwapGraveDeck? ==> Plan(m) == Ok(Refresh1(m.player, GRAVE, REFRESH_GRAVE_FLAGS))
    ensures m.MsgTagSwap? ==> Plan(m) == Err("TAG message not supported")
    ensures !IsQuestion(m) && !m.MsgMove? && !m.MsgReverseDeck? && !m.MsgShuffleDeck? && !m.MsgSwapGraveDeck? && !m.MsgTagSwap? ==>
      Plan(m) == Ok(if RefreshesBoard(m) then RefreshReplay(REFRESH_FLAGS) else [])
  {
  }

  lemma RefreshReplayUncached(flags: nat)
    ensures forall q :: q in RefreshReplay(flags) ==> !q.cache
  {
    Refresh2Pair(MZONE, flags);
    Refresh2Pair(SZONE, flags);
    Refresh2Pair(HAND, flags);
  }

  /** A synthetic buffer is the message type, player, location (and sequence) bytes, then the engine's data. */
  lemma SyntheticLayout(q: Query, data: seq<bv8>)
    ensures var b := Synthetic(q, data);
      |b| == |Header(q)| + |data| && b[|Header(q)|..] == data &&
      b[1] == (q.player % 256) as bv8 && b[2] == q.location
    ensures q.FieldQuery? ==> |Header(q)| == 3 && Synthetic(q, data)[0] == 6
    ensures q.CardQuery? ==>
      |Header(q)| == 4 && Synthetic(q, data)[0] == 7 && Synthetic(q, data)[3] == (q.sequence % 256) as bv8
  {
  }
}
