/**
 * What the duel host hands to its consumers: a protocol message addressed to
 * a list of players, an error, or the end of the duel; and the test for a
 * message that waits for a player's response.
 */
module HostMessages {
  import opened Protocol

  datatype HostMessage =
    | HostDuelMessage(to: seq<int>, what: Message)
    | HostError(error: string)
    | HostDuelFinished

  /** `isHostAwaitingResponse`. */
  predicate IsHostAwaitingResponse(m: HostMessage)
  {
    m.HostDuelMessage? && |m.to| == 1 && IsQuestion(m.what)
  }

  /** The shape the driver re-emits for a pending question: the question, to the player asked. */
  function PendingQuestion(q: Message): HostMessage
    requires q.MsgQuestion?
  {
    HostDuelMessage([q.player], q)
  }

  /** What the replay planner emits: a message with no recipient. */
  function Wrap(m: Message): (r: HostMessage)
    ensures r.HostDuelMessage? && r.to == [] && r.what == m
  {
    HostDuelMessage([], m)
  }

  /** Errors and the end of the duel never wait for a response. */
  lemma ErrorsAndFinishNeverAwait(error: string)
    ensures !IsHostAwaitingResponse(HostError(error))
    ensures !IsHostAwaitingResponse(HostDuelFinished)
  {
  }

  /** Only a message with exactly one recipient can wait; a wrapped message never does. */
  lemma RecipientsMatter(to: seq<int>, m: Message)
    ensures |to| != 1 ==> !IsHostAwaitingResponse(HostDuelMessage(to, m))
    ensures !IsHostAwaitingResponse(Wrap(m))
  {
  }

  /** A message that asks nothing never waits, whoever it is addressed to. */
  lemma NonQuestionsNeverAwait(to: seq<int>, m: Message)
    requires !IsQuestion(m)
    ensures !IsHostAwaitingResponse(HostDuelMessage(to, m))
  {
  }

  /** Waiting messages are exactly the re-emitted pending questions, up to the recipient. */
  lemma AwaitingIsPendingShape(h: HostMessage)
    ensures IsHostAwaitingResponse(h) <==>
      h.HostDuelMessage? && h.what.MsgQuestion? && exists p :: h.to == [p]
    ensures forall q: Message :: q.MsgQuestion? ==> IsHostAwaitingResponse(PendingQuestion(q))
  {
    if IsHostAwaitingResponse(h) {
      var p := h.to[0];
      assert h.to == [p];
      assert exists p' :: h.to == [p'];
    }
    forall q: Message | q.MsgQuestion?
      ensures IsHostAwaitingResponse(PendingQuestion(q))
    {
      assert |PendingQuestion(q).to| == 1;
    }
  }
}
