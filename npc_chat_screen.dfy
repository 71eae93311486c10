/**
 * The NPC chat screen: a local list of chat bubbles, the text box, and the id of the NPC
 * reply being typed out. Each send posts only the new text to `POST /npc-chat`.
 */
module NpcChatScreen {
  import opened Common
  import Route = NpcChatRoute

  /** A chat bubble. */
  datatype Message = Message(id: string, from: string, text: string)

  /** One entry of a history payload: `{from_role, text}`. */
  datatype HistoryEntry = HistoryEntry(fromRole: string, text: string)

  /**
   * What the reply request yields: the decoded JSON body's `reply` field (absent on an error
   * payload), or an exception from the fetch or the decoding.
   */
  datatype ReplyCall = Answered(reply: Option<string>) | CallFailed

  const Ellipsis := "..."
  const CannotRespond := "I... can't respond right now."

  /** `getGeminiReply`'s result: the reply when it is a non-empty text, else a fallback. */
  function ReplyText(call: ReplyCall): (text: string)
    ensures text != ""
    ensures call.Answered? && Truthy(call.reply) ==> text == call.reply.value
    // a falsy `reply` gives the ellipsis; an exception gives the apology
    ensures call.Answered? && !Truthy(call.reply) ==> text == Ellipsis
    ensures call.CallFailed? ==> text == CannotRespond
  {
    match call
    case Answered(reply) => if Truthy(reply) then reply.value else Ellipsis
    case CallFailed => CannotRespond
  }

  /** The `reply` field of a body the route sends back. */
  function DecodedReply(response: Route.Response): ReplyCall
  {
    match response.body
    case ReplyBody(reply) => Answered(Some(reply))
    case _ => Answered(None)
  }

  /** History rows become bubbles numbered "0", "1", ... in the same order. */
  function FormatHistory(history: seq<HistoryEntry>): (ms: seq<Message>)
    ensures |ms| == |history|
    ensures forall i :: 0 <= i < |history| ==>
      ms[i].from == history[i].fromRole && ms[i].text == history[i].text && ms[i].id == NatToDecimal(i)
  {
    seq(|history|, i requires 0 <= i < |history| =>
      Message(NatToDecimal(i), history[i].fromRole, history[i].text))
  }

  /** The ids given to history bubbles never collide. */
  lemma FormattedIdsDistinct(history: seq<HistoryEntry>, i: nat, j: nat)
    requires i < j < |history|
    ensures FormatHistory(history)[i].id != FormatHistory(history)[j].id
  {
    NatToDecimalInjective(i, j);
  }

  /**
   * A text the screen sends is never rejected as missing: its trimmed text is non-empty, so
   * the route always gets past validation.
   */
  lemma SentTextPassesValidation(log: seq<Route.Turn>, intros: map<string, string>, playerId: string,
                                 npcId: string, input: string, npcReadFails: bool,
                                 historyReadFails: bool, gen: Route.Generation)
    requires Trim(input) != ""
    ensures var req := Route.ChatRequest(playerId, npcId, Some(Trim(input)));
      Route.Exchange(log, intros, req, npcReadFails, historyReadFails, gen).response.status != 400
  {
  }

  /**
   * The NPC bubble shows the reply the route stored when the exchange succeeded, and "..."
   * when the route answered with an error.
   */
  lemma ShownReplyIsStoredReply(log: seq<Route.Turn>, intros: map<string, string>, req: Route.ChatRequest,
                                npcReadFails: bool, historyReadFails: bool, gen: Route.Generation)
    ensures var x := Route.Exchange(log, intros, req, npcReadFails, historyReadFails, gen);
      ReplyText(DecodedReply(x.response))
      == if x.response.status == 200 then x.log[|x.log| - 1].text else Ellipsis
  {
  }

  class ChatScreen {
    const npcId: string
    /** The signed-in player's id. */
    const playerId: string
    var messages: seq<Message>
    var input: string
    var lastAnimatedId: Option<string>

    constructor (npcId: string, playerId: string)
      ensures this.npcId == npcId && this.playerId == playerId
      ensures messages == [] && input == "" && lastAnimatedId == None
    {
      this.npcId := npcId;
      this.playerId := playerId;
      messages := [];
      input := "";
      lastAnimatedId := None;
    }

    /** Replaces the bubbles with a history payload, only when the payload has one. */
    method LoadHistory(history: Option<seq<HistoryEntry>>)
      modifies this
      ensures messages == if history.Some? then FormatHistory(history.value) else old(messages)
      ensures input == old(input) && lastAnimatedId == old(lastAnimatedId)
    {
      if history.Some? {
        messages := FormatHistory(history.value);
      }
    }

    /**
     * `sendMessage`. A blank input does nothing. Otherwise the trimmed text becomes a player
     * bubble, the input is cleared, the trimmed text alone is posted, and exactly one NPC
     * bubble follows with the reply or a fallback; that bubble is the one to animate.
     * `sentAt` and `repliedAt` are the two clock readings that name the bubbles.
     */
    method SendMessage(reply: ReplyCall, sentAt: nat, repliedAt: nat) returns (request: Option<Route.ChatRequest>)
      modifies this
      ensures Trim(old(input)) == "" ==>
        request == None && messages == old(messages) && input == old(input)
        && lastAnimatedId == old(lastAnimatedId)
      ensures Trim(old(input)) != "" ==>
        request == Some(Route.ChatRequest(playerId, npcId, Some(Trim(old(input)))))
        && input == ""
        && messages == old(messages) + [Message(NatToDecimal(sentAt), "player", Trim(old(input))),
                                        Message(NatToDecimal(repliedAt) + "-npc", "npc", ReplyText(reply))]
        && lastAnimatedId == Some(NatToDecimal(repliedAt) + "-npc")
    {
      var text := Trim(input);
      if text == "" {
        request := None;
        return;
      }
      var userMessage := Message(NatToDecimal(sentAt), "player", text);
      ghost var before := messages;
      messages := messages + [userMessage];
      input := "";

      request := Some(Route.ChatRequest(playerId, npcId, Some(userMessage.text)));
      var npcReplyText := ReplyText(reply);

      var npcReply := Message(NatToDecimal(repliedAt) + "-npc", "npc", npcReplyText);
      messages := messages + [npcReply];
      assert messages == before + [userMessage, npcReply];
      lastAnimatedId := Some(npcReply.id);
    }

    /** The typewriter's completion callback: no bubble is animating any more. */
    method TypingComplete()
      modifies this
      ensures lastAnimatedId == None
      ensures messages == old(messages) && input == old(input)
    {
      lastAnimatedId := None;
    }
  }
}
