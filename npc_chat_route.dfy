/**
 * The backend relay: `GET /health` and `POST /npc-chat`.
 *
 * The `npc_chat_messages` table is an append-only log of turns kept in creation order, so
 * "ordered by created_at ascending" is the log's own order. The `npcs` table is a read-only
 * map from NPC id to intro text. Whether a store read fails, and what the text generator
 * answers, are inputs of the handler.
 */
module NpcChatRoute {
  import opened Common

  /** One row of `npc_chat_messages`. */
  datatype Turn = Turn(playerId: string, npcId: string, fromRole: string, text: string)

  /** The JSON body of a chat request; `playerMessage` may be absent. */
  datatype ChatRequest = ChatRequest(playerId: string, npcId: string, playerMessage: Option<string>)

  datatype Body = TextBody(text: string) | ErrorBody(error: string) | ReplyBody(reply: string)

  datatype Response = Response(status: nat, body: Body)

  /**
   * What the generation call yields: the text found at `candidates[0].content.parts[0].text`
   * (the empty text stands for a missing or empty one), or an exception from the fetch or
   * from decoding its JSON.
   */
  datatype Generation = Generated(reply: string) | Threw

  /** The calls the handler makes to its collaborators, in the order it makes them. */
  datatype Effect =
    | ReadNpcIntro(npcId: string)
    | ReadHistory(playerId: string, npcId: string)
    | InsertTurn(turn: Turn)
    | Generate(parts: seq<string>)

  /** One exchange seen from outside: the response, the new log, and the calls made. */
  datatype Exchanged = Exchanged(response: Response, log: seq<Turn>, effects: seq<Effect>)

  const HistoryLimit: nat := 10
  const NpcRole := "npc"
  const PlayerRole := "player"

  const MissingMessage := "Missing playerMessage"
  const NpcIntroFailed := "Failed to fetch NPC intro"
  const HistoryFailed := "Failed to fetch chat history"
  const NoGeneratorReply := "No response from Gemini"
  const GeneratorFailed := "Failed to get response from Gemini"

  /** `GET /health` answers 200 with the text "OK". */
  function Health(): (r: Response)
    ensures r.status == 200 && r.body == TextBody("OK")
  {
    Response(200, TextBody("OK"))
  }

  predicate InPair(t: Turn, playerId: string, npcId: string)
  {
    t.playerId == playerId && t.npcId == npcId
  }

  /** The turns of one (player, NPC) pair, oldest first. */
  function PairTurns(log: seq<Turn>, playerId: string, npcId: string): (h: seq<Turn>)
    ensures |h| <= |log|
    ensures forall t :: t in h <==> t in log && InPair(t, playerId, npcId)
  {
    if log == [] then []
    else
      var last := log[|log| - 1];
      PairTurns(log[..|log| - 1], playerId, npcId) + (if InPair(last, playerId, npcId) then [last] else [])
  }

  /** Appending a turn extends the history of its own pair and no other. */
  lemma PairTurnsAppend(log: seq<Turn>, t: Turn, playerId: string, npcId: string)
    ensures PairTurns(log + [t], playerId, npcId)
         == PairTurns(log, playerId, npcId) + (if InPair(t, playerId, npcId) then [t] else [])
  {
    assert (log + [t])[..|log|] == log;
  }

  /**
   * The history read: turns of the pair by ascending creation time, at most ten. These are
   * the OLDEST ten turns of the pair, not the most recent ones.
   */
  function HistoryWindow(log: seq<Turn>, playerId: string, npcId: string): (w: seq<Turn>)
    ensures |w| <= HistoryLimit
    ensures w <= PairTurns(log, playerId, npcId)
    ensures |w| < HistoryLimit ==> w == PairTurns(log, playerId, npcId)
  {
    var h := PairTurns(log, playerId, npcId);
    if |h| <= HistoryLimit then h else h[..HistoryLimit]
  }

  /** The speaker tag of a stored turn: "NPC" for role "npc", "Player" for any other role. */
  function SpeakerTag(fromRole: string): string
  {
    if fromRole == NpcRole then "NPC" else "Player"
  }

  function HistoryPart(t: Turn): string
  {
    SpeakerTag(t.fromRole) + ": " + t.text
  }

  /** One prompt part per history turn, in the same order. */
  function HistoryParts(history: seq<Turn>): (parts: seq<string>)
    ensures |parts| == |history|
    ensures forall i :: 0 <= i < |history| ==> parts[i] == HistoryPart(history[i])
  {
    if history == [] then []
    else HistoryParts(history[..|history| - 1]) + [HistoryPart(history[|history| - 1])]
  }

  /** The parts sent to the generator: the intro, the history turns, then the new player line. */
  function PromptParts(intro: string, history: seq<Turn>, playerMessage: string): (parts: seq<string>)
    ensures |parts| == |history| + 2
    ensures parts[0] == intro
    ensures forall i :: 0 <= i < |history| ==> parts[i + 1] == HistoryPart(history[i])
    ensures parts[|history| + 1] == "Player: " + playerMessage
  {
    [intro] + HistoryParts(history) + ["Player: " + playerMessage]
  }

  /** A history part carries the "NPC: " prefix exactly when the turn's role is "npc". */
  lemma NpcPrefixIffNpcRole(intro: string, history: seq<Turn>, playerMessage: string, i: nat)
    requires i < |history|
    ensures var part := PromptParts(intro, history, playerMessage)[i + 1];
      (|part| >= 5 && part[..5] == "NPC: ") <==> history[i].fromRole == NpcRole
  {
    assert PromptParts(intro, history, playerMessage)[i + 1] == HistoryPart(history[i]);
    HistoryPartPrefix(history[i]);
  }

  lemma HistoryPartPrefix(t: Turn)
    ensures var part := HistoryPart(t);
      (|part| >= 5 && part[..5] == "NPC: ") <==> t.fromRole == NpcRole
  {
    var part := HistoryPart(t);
    if t.fromRole == NpcRole {
      assert part == "NPC: " + t.text;
    } else {
      assert part == "Player: " + t.text;
      assert part[0] == 'P';
    }
  }

  function PlayerTurn(req: ChatRequest): Turn
    requires req.playerMessage.Some?
  {
    Turn(req.playerId, req.npcId, PlayerRole, req.playerMessage.value)
  }

  function NpcTurn(req: ChatRequest, reply: string): Turn
  {
    Turn(req.playerId, req.npcId, NpcRole, reply)
  }

  /** The generator was called during the exchange. */
  predicate CalledGenerator(effects: seq<Effect>)
  {
    exists k :: 0 <= k < |effects| && effects[k].Generate?
  }

  /**
   * `POST /npc-chat` on a log `log`: the response, the log afterwards and the calls made.
   * `npcReadFails` and `historyReadFails` say whether those store reads return an error.
   */
  function Exchange(log: seq<Turn>, intros: map<string, string>, req: ChatRequest,
                    npcReadFails: bool, historyReadFails: bool, gen: Generation): (x: Exchanged)
    // the log only grows, and by at most the two turns of one exchange
    ensures log <= x.log && |x.log| <= |log| + 2
    // validation: nothing is read, written or generated
    ensures !Truthy(req.playerMessage) ==>
      x == Exchanged(Response(400, ErrorBody(MissingMessage)), log, [])
    // a failed NPC lookup or history read writes nothing and never reaches the generator
    ensures Truthy(req.playerMessage) && (npcReadFails || req.npcId !in intros) ==>
      x.response == Response(500, ErrorBody(NpcIntroFailed)) && x.log == log
    ensures Truthy(req.playerMessage) && !npcReadFails && req.npcId in intros && historyReadFails ==>
      x.response == Response(500, ErrorBody(HistoryFailed)) && x.log == log
    // the generator is called exactly when the player's turn has been stored, and right after it
    ensures CalledGenerator(x.effects) <==> |x.log| > |log|
    ensures |x.log| > |log| ==> x.log[|log|] == PlayerTurn(req)
    ensures forall k :: 0 <= k < |x.effects| && x.effects[k].Generate? ==>
      k > 0 && x.effects[k - 1] == InsertTurn(PlayerTurn(req))
    // success: exactly two turns, and the reply sent back is the stored NPC text
    ensures x.response.status == 200 <==> |x.log| == |log| + 2
    ensures x.response.status == 200 ==>
      x.response.body.ReplyBody? && x.response.body.reply != ""
      && x.log == log + [PlayerTurn(req), NpcTurn(req, x.response.body.reply)]
    // every other outcome is an error response
    ensures x.response.status != 200 ==> x.response.body.ErrorBody?
    // past validation and both reads: the player's turn is stored, then the generator is asked
    // with the intro, the window read before that insert, and the new line
    ensures Truthy(req.playerMessage) && !npcReadFails && req.npcId in intros && !historyReadFails ==>
      |x.effects| >= 4
      && x.effects[..4] == [ReadNpcIntro(req.npcId), ReadHistory(req.playerId, req.npcId),
                            InsertTurn(PlayerTurn(req)),
                            Generate(PromptParts(intros[req.npcId], HistoryWindow(log, req.playerId, req.npcId),
                                                 req.playerMessage.value))]
    // the generator's outcome decides the rest: a throw or an empty reply is a 500 that keeps
    // the player's turn; a non-empty reply is sent back with 200 and stored as the NPC turn
    ensures Truthy(req.playerMessage) && !npcReadFails && req.npcId in intros && !historyReadFails ==>
      match gen
      case Threw =>
        x.response == Response(500, ErrorBody(GeneratorFailed)) && x.log == log + [PlayerTurn(req)]
        && |x.effects| == 4
      case Generated(reply) =>
        if reply == "" then
          x.response == Response(500, ErrorBody(NoGeneratorReply)) && x.log == log + [PlayerTurn(req)]
          && |x.effects| == 4
        else
          x.response == Response(200, ReplyBody(reply))
          && x.log == log + [PlayerTurn(req), NpcTurn(req, reply)]
          && x.effects == x.effects[..4] + [InsertTurn(NpcTurn(req, reply))]
  {
    if !Truthy(req.playerMessage) then
      Exchanged(Response(400, ErrorBody(MissingMessage)), log, [])
    else if npcReadFails || req.npcId !in intros then
      Exchanged(Response(500, ErrorBody(NpcIntroFailed)), log, [ReadNpcIntro(req.npcId)])
    else if historyReadFails then
      Exchanged(Response(500, ErrorBody(HistoryFailed)), log,
                [ReadNpcIntro(req.npcId), ReadHistory(req.playerId, req.npcId)])
    else
      var message := req.playerMessage.value;
      var prompt := PromptParts(intros[req.npcId], HistoryWindow(log, req.playerId, req.npcId), message);
      var asked := [ReadNpcIntro(req.npcId), ReadHistory(req.playerId, req.npcId),
                    InsertTurn(PlayerTurn(req)), Generate(prompt)];
      assert asked[3].Generate?;
      match gen
      case Threw =>
        Exchanged(Response(500, ErrorBody(GeneratorFailed)), log + [PlayerTurn(req)], asked)
      case Generated(reply) =>
        if reply == "" then
          Exchanged(Response(500, ErrorBody(NoGeneratorReply)), log + [PlayerTurn(req)], asked)
        else
          var npc := NpcTurn(req, reply);
          assert (asked + [InsertTurn(npc)])[3].Generate?;
          Exchanged(Response(200, ReplyBody(reply)), log + [PlayerTurn(req), npc],
                    asked + [InsertTurn(npc)])
  }

  /** The prompt an exchange sends, if it reaches the generator: intro, window, new line. */
  lemma ExchangePrompt(log: seq<Turn>, intros: map<string, string>, req: ChatRequest,
                       npcReadFails: bool, historyReadFails: bool, gen: Generation, k: nat)
    requires var x := Exchange(log, intros, req, npcReadFails, historyReadFails, gen);
      k < |x.effects| && x.effects[k].Generate?
    ensures req.playerMessage.Some? && req.npcId in intros
    ensures var parts := Exchange(log, intros, req, npcReadFails, historyReadFails, gen).effects[k].parts;
      var window := HistoryWindow(log, req.playerId, req.npcId);
      parts == PromptParts(intros[req.npcId], window, req.playerMessage.value)
      && |parts| == |window| + 2 && parts[0] == intros[req.npcId]
      && (forall i :: 0 <= i < |window| ==> parts[i + 1] == HistoryPart(window[i]))
      && parts[|window| + 1] == "Player: " + req.playerMessage.value
  {
  }

  /**
   * After a successful exchange the pair's history has grown by the player's turn and the
   * reply, and the history of every other pair is what it was.
   */
  lemma {:induction false} ExchangeExtendsOnlyItsPair(log: seq<Turn>, intros: map<string, string>,
                                                      req: ChatRequest, npcReadFails: bool,
                                                      historyReadFails: bool, gen: Generation,
                                                      playerId: string, npcId: string)
    requires Exchange(log, intros, req, npcReadFails, historyReadFails, gen).response.status == 200
    ensures var x := Exchange(log, intros, req, npcReadFails, historyReadFails, gen);
      PairTurns(x.log, playerId, npcId)
      == if playerId == req.playerId && npcId == req.npcId
         then PairTurns(log, playerId, npcId) + x.log[|log|..]
         else PairTurns(log, playerId, npcId)
  {
    var x := Exchange(log, intros, req, npcReadFails, historyReadFails, gen);
    var p := PlayerTurn(req);
    var n := NpcTurn(req, x.response.body.reply);
    assert x.log == log + [p, n];
    PairTurnsAppendPair(log, p, n, playerId, npcId);
    assert x.log[|log|..] == [p, n];
  }

  /** Appending a player turn and its reply, which share their pair. */
  lemma PairTurnsAppendPair(log: seq<Turn>, p: Turn, n: Turn, playerId: string, npcId: string)
    requires p.playerId == n.playerId && p.npcId == n.npcId
    ensures PairTurns(log + [p, n], playerId, npcId)
         == if InPair(p, playerId, npcId) then PairTurns(log, playerId, npcId) + [p, n]
            else PairTurns(log, playerId, npcId)
  {
    assert log + [p, n] == (log + [p]) + [n];
    PairTurnsAppend(log, p, playerId, npcId);
    PairTurnsAppend(log + [p], n, playerId, npcId);
  }

  /**
   * With twelve stored turns for the pair the generator receives twelve parts: the intro,
   * the ten OLDEST turns and the new line; the two newest turns are not sent.
   */
  lemma TwelveTurnsGiveTwelveParts(log: seq<Turn>, intros: map<string, string>, req: ChatRequest,
                                   gen: Generation)
    requires |PairTurns(log, req.playerId, req.npcId)| == 12
    requires Truthy(req.playerMessage) && req.npcId in intros
    ensures HistoryWindow(log, req.playerId, req.npcId) == PairTurns(log, req.playerId, req.npcId)[..10]
    ensures var x := Exchange(log, intros, req, false, false, gen);
      |x.effects| >= 4 && x.effects[3].Generate?
      && |x.effects[3].parts| == 12
      && x.effects[3].parts[1..11] == HistoryParts(PairTurns(log, req.playerId, req.npcId)[..10])
  {
    var w := HistoryWindow(log, req.playerId, req.npcId);
    var parts := PromptParts(intros[req.npcId], w, req.playerMessage.value);
    assert parts[1..11] == HistoryParts(w);
  }

  /** The table the handler reads and appends to, with the handler as its method. */
  class ChatStore {
    /** The `npcs` table: NPC id to intro text. */
    const intros: map<string, string>
    /** The `npc_chat_messages` table, in creation order. */
    var turns: seq<Turn>

    constructor (intros: map<string, string>, turns: seq<Turn>)
      ensures this.intros == intros && this.turns == turns
    {
      this.intros := intros;
      this.turns := turns;
    }

    /** The handler of `POST /npc-chat`, step by step. */
    method HandleNpcChat(req: ChatRequest, npcReadFails: bool, historyReadFails: bool, gen: Generation)
      returns (response: Response, effects: seq<Effect>)
      modifies this
      ensures Exchanged(response, turns, effects)
           == Exchange(old(turns), intros, req, npcReadFails, historyReadFails, gen)
    {
      effects := [];
      if !Truthy(req.playerMessage) {
        response := Response(400, ErrorBody(MissingMessage));
        return;
      }

      effects := effects + [ReadNpcIntro(req.npcId)];
      assert effects == [ReadNpcIntro(req.npcId)];
      if npcReadFails || req.npcId !in intros {
        response := Response(500, ErrorBody(NpcIntroFailed));
        return;
      }
      var intro := intros[req.npcId];

      effects := effects + [ReadHistory(req.playerId, req.npcId)];
      assert effects == [ReadNpcIntro(req.npcId), ReadHistory(req.playerId, req.npcId)];
      if historyReadFails {
        response := Response(500, ErrorBody(HistoryFailed));
        return;
      }
      var history := HistoryWindow(turns, req.playerId, req.npcId);

      var message := req.playerMessage.value;
      var parts := PromptParts(intro, history, message);

      var playerTurn := Turn(req.playerId, req.npcId, PlayerRole, message);
      turns := turns + [playerTurn];
      effects := effects + [InsertTurn(playerTurn)];
      assert effects == [ReadNpcIntro(req.npcId), ReadHistory(req.playerId, req.npcId), InsertTurn(playerTurn)];

      effects := effects + [Generate(parts)];
      assert effects == [ReadNpcIntro(req.npcId), ReadHistory(req.playerId, req.npcId),
                         InsertTurn(PlayerTurn(req)), Generate(parts)];
      match gen {
        case Threw =>
          response := Response(500, ErrorBody(GeneratorFailed));
        case Generated(reply) =>
          if reply == "" {
            response := Response(500, ErrorBody(NoGeneratorReply));
            return;
          }
          var npcTurn := Turn(req.playerId, req.npcId, NpcRole, reply);
          turns := turns + [npcTurn];
          assert turns == old(turns) + [PlayerTurn(req), NpcTurn(req, reply)];
          effects := effects + [InsertTurn(npcTurn)];
          response := Response(200, ReplyBody(reply));
      }
    }
  }
}
