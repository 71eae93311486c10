# Encoded: mission table, NPC chat and session rules in Dafny

This project models the rules of a location-based spy game. Players walk to missions pinned on a map, start them, complete them, and chat with non-player characters (NPCs) whose replies come from a text generator. Most of the game is mobile screens. The logic modelled here is what those screens and the single backend route do to a few tables and logs:

- **`POST /npc-chat` turn exchange** (`npc_chat_route.dfy`). The route validates the message, reads the NPC intro, and reads a history window of at most ten turns. It assembles the prompt and stores the player's turn before calling the generator. It stores the NPC turn only when the reply is usable. The turn log (`npc_chat_messages`) is an append-only sequence kept in creation order. `Exchange` is the specification. `ChatStore.HandleNpcChat` does the steps and is proved equal to it. An effect trace records every store read, insert and generator call, in order.
- **The `mission_participation` table** (`participation_table.dfy`). Starting a mission inserts a row (`mission_details.dfy`). The current-mission screen picks the latest-started active row and closes the active rows of a pair (`current_mission.dfy`). The map keeps one row per mission, filters the catalogue, and decides each pin's colour, description and tap behaviour (`map_screen.dfy`).
- **The chat screen's local log** (`npc_chat_screen.dfy`), including lemmas that connect it to the route.
- **The client session** (`user_session.dfy`). It covers the token in secure storage, get-or-create of the player row, sign-out and start-up.
- **The typewriter component** (`typewriter.dfy`): a tick-driven counter that reveals the content.

Behaviour worth noting:

- The history window holds the **oldest** ten turns of the pair (`order created_at ascending, limit 10`). The two newest of twelve turns are not sent (`HistoryWindow`, `TwelveTurnsGiveTwelveParts`).
- The map keeps a completed mission visible only when its status is exactly `"fail"` or `"abandoned"`. Any other status of a completed row, `"failed"` included, hides it (`CompletedFailedRowHides`).
- Starting a mission has no guard against an existing active row for the same pair (`StartTwiceAddsTwoActiveRows`).
- The current-mission screen reads and updates the rows of a fixed mock player id. It does not use the signed-in player, so starts by real players never reach it (`OtherPlayersStartsAreIgnored`).
- The backend defines only `/health` and `/npc-chat`. The chat screen also calls `/npc-chat/first-message` and `/npc-chat/history`, which no route answers.

Inputs that stand for the outside world:

- whether a store call returns an error;
- what the generator answers;
- the distance from the player to a mission;
- clock readings;
- the permission answer;
- the decoding of a token's payload.

## Model

| member | source | states |
|---|---|---|
| `NpcChatRoute.Health` | backend/index.js:16-18 | the health route answers 200 with the text "OK" |
| `NpcChatRoute.PairTurns` | backend/index.js:39-44 | the pair's turns are exactly the log's turns for that player and NPC |
| `NpcChatRoute.PairTurnsAppend` | backend/index.js:60-67 | appending a turn extends the history of its own pair and of no other pair |
| `NpcChatRoute.HistoryWindow` | backend/index.js:39-45 | the window has at most 10 turns and is a prefix of the pair's ascending history, i.e. its oldest turns; it is the whole history when that has fewer than 10 turns |
| `NpcChatRoute.HistoryParts` | backend/index.js:54-56 | one prompt part per history turn, in the same order |
| `NpcChatRoute.PromptParts` | backend/index.js:52-58 | the prompt has \|history\|+2 parts: the intro first, one part per history turn in order, and "Player: " + message last |
| `NpcChatRoute.NpcPrefixIffNpcRole` | backend/index.js:54-56 | a history part starts with "NPC: " if and only if the turn's role is "npc"; every other role is tagged "Player" |
| `NpcChatRoute.Exchange` | backend/index.js:20-102 | the log only grows, by at most two turns. A missing or empty message gives 400 with no reads, writes or generation. A failed or empty NPC lookup gives 500, and so does a failed history read; neither changes the log. The generator is called exactly when the player turn was stored, and right after that insert. Once validation and both reads pass, the calls are: read the intro, read the history, store the player turn, and call the generator with the intro, the window and the new line. A throw gives 500 "Failed to get response from Gemini" and an empty reply 500 "No response from Gemini"; both keep the player turn and store nothing else. A non-empty reply gives 200 with that reply and is stored as the NPC turn. 200 holds exactly when two turns were added, player then NPC |
| `NpcChatRoute.ExchangePrompt` | backend/index.js:52-79 | when the generator is called, its parts are exactly `PromptParts` of the intro, the window read before the player's turn was stored, and the message: the intro, one tagged part per window turn in order, then the new player line |
| `NpcChatRoute.ExchangeExtendsOnlyItsPair` | backend/index.js:60-96 | after a successful exchange the pair's history has grown by exactly the two new turns; the history of every other pair is unchanged |
| `NpcChatRoute.TwelveTurnsGiveTwelveParts` | backend/index.js:39-58 | for every request that reaches the generator with 12 stored turns of its pair, the window is the first 10 and the generator receives 12 parts, the middle ten being those oldest turns in order |
| `NpcChatRoute.ChatStore.HandleNpcChat` | backend/index.js:20-103 | the step-by-step handler yields the response, new log and call trace that `Exchange` specifies |
| `ParticipationTable.StartedRow` | frontend/MissionDetails.js:10-15 | a started row is for the given player and mission, is active, and takes the table's default status and the start time |
| `ParticipationTable.ActiveCount` | frontend/CurrentMission.js:38-40 | the count of active rows of a pair is zero exactly when no row matches the pair with a null completion time |
| `ParticipationTable.ActiveCountAppend` | frontend/MissionDetails.js:10-15 | an appended row adds one to its pair's active count if it is active, and nothing otherwise |
| `ParticipationTable.CloseActive` | frontend/CurrentMission.js:35-40 | only `completed_at` is written. Rows outside the filter (other player, other mission, already completed) are unchanged. Every matching row gets the completion time. Player, mission, status and start time are never changed |
| `ParticipationTable.CloseActiveLeavesNoneActive` | frontend/CurrentMission.js:36-40 | one completion closes every active row of the pair, however many there were |
| `ParticipationTable.CloseActiveIdempotent` | frontend/CurrentMission.js:40 | a second completion matches no row and leaves the table as the first left it |
| `ParticipationTable.CloseActiveKeepsOtherPairs` | frontend/CurrentMission.js:38-40 | a completion leaves every other pair's active count unchanged |
| `ParticipationTable.PlayerRows` | frontend/MapScreen.js:56-59 | the selected rows are exactly the table's rows for the player |
| `ParticipationTable.PlayerRowsAppend` | frontend/MapScreen.js:56-59 | a new row shows up at the end of its player's rows and nowhere else |
| `ParticipationTable.ParticipationStore.Insert` | frontend/MissionDetails.js:10-15 | a successful insert appends exactly one started row and leaves the existing rows; a failed one changes nothing |
| `ParticipationTable.ParticipationStore.CloseActiveRows` | frontend/CurrentMission.js:35-40 | a successful update replaces the rows by `CloseActive`; a failed one changes nothing |
| `MissionDetails.HandleStartMission` | frontend/MissionDetails.js:9-24 | on success, one started row is appended, the success alert is shown and the screen goes back once; on an insert error the table is unchanged, the error alert is shown and the screen stays |
| `MissionDetails.StartTwiceAddsTwoActiveRows` | frontend/MissionDetails.js:10-15 | starting the same mission twice adds two active rows for the pair: there is no duplicate guard |
| `MapScreen.LastByMission` | frontend/MapScreen.js:62-65 | every mission with a row has an entry; each entry is a row of that mission |
| `MapScreen.LastByMissionIsLast` | frontend/MapScreen.js:62-65 | a mission's entry is its last row in query order; later rows overwrite earlier ones |
| `MapScreen.BuildParticipationMap` | frontend/MapScreen.js:62-65 | the `forEach` loop builds exactly `LastByMission` |
| `MapScreen.VisibleMissions` | frontend/MapScreen.js:67-75 | a mission is shown if and only if it is in the catalogue and either has no row, or its row has a null completion time, or its row's status is exactly "fail" or "abandoned" |
| `MapScreen.VisibleMissionsKeepOrder` | frontend/MapScreen.js:67-75 | the shown list is an order-preserving sublist of the catalogue |
| `MapScreen.CompletedFailedRowHides` | frontend/MapScreen.js:72-74 | a completed row with status "failed" hides its mission |
| `MapScreen.StartedMissionIsShown` | frontend/MapScreen.js:56-75 | right after a start, the mission's map entry is the new row and the mission is shown |
| `MapScreen.CompletedMissionHiddenUnlessRetryable` | frontend/MapScreen.js:67-75 | after a completion, the mission's entry has a completion time, and the mission is shown exactly when that row's status is "fail" or "abandoned" |
| `MapScreen.RoundHalfUp` | frontend/MapScreen.js:147 | rounds a non-negative distance to the nearest whole metre, halves up |
| `MapScreen.ChoosePinColor` | frontend/MapScreen.js:133-135 | orange exactly when a row exists; otherwise gray exactly when out of range, and green when in range |
| `MapScreen.RenderPin` | frontend/MapScreen.js:122-157 | a pin opens the mission exactly when it is within range or has a row. Its description is the mission's own text when it opens, and "Too far away (Nm)" when it does not. Its colour follows `ChoosePinColor` |
| `MapScreen.RadiusBoundary` | frontend/MapScreen.js:130 | 100 m is within range, 101 m is not, and 101 m is described as "Too far away (101m)" |
| `MapScreen.MapState.constructor` | frontend/MapScreen.js:27-29 | a new map screen holds no missions, an empty participation map, and is loading |
| `MapScreen.MapState.FetchLocationAndMissions` | frontend/MapScreen.js:39-86 | on success, the participation map is `LastByMission` of the player's rows and the missions are the visible ones. A denied permission alerts. Any failure keeps the old lists, and loading always ends |
| `CurrentMission.LatestActive` | frontend/CurrentMission.js:14-20 | the chosen row is an active row of the player with the greatest start time; there is none exactly when the player has no active row |
| `CurrentMission.CompletedMissionIsNotCurrent` | frontend/CurrentMission.js:35-40 | after a completion the current mission, if any, is a different mission |
| `CurrentMission.NewestStartIsCurrent` | frontend/CurrentMission.js:14-20 | a row started later than every other active row of the player becomes the current one |
| `CurrentMission.OtherPlayersStartsAreIgnored` | frontend/CurrentMission.js:17 | starts by any player other than the mock id never change the screen's choice |
| `CurrentMission.CurrentMissionScreen.constructor` | frontend/CurrentMission.js:9-10 | a new screen holds no mission and is loading |
| `CurrentMission.CurrentMissionScreen.Render` | frontend/CurrentMission.js:51-59 | a spinner is shown exactly while loading; after loading, "No active mission" is shown exactly when no mission is held, and otherwise a card for the held mission |
| `CurrentMission.CurrentMissionScreen.FetchCurrentMission` | frontend/CurrentMission.js:13-29 | the mission becomes the join of the latest active row. With no active row, or on a query error, it stays as it was, and "No active mission" is shown if it was null. When the catalogue is keyed by mission id, a mission taken from the query is the one of the latest active row. Loading ends |
| `CurrentMission.CurrentMissionScreen.CompleteMission` | frontend/CurrentMission.js:34-49 | on success, the mock player's active rows for the mission are closed and the mission becomes null; on an error, the table and the mission are unchanged; each outcome has its alert |
| `NpcChatScreen.ReplyText` | frontend/NPCChat.js:115-118 | the NPC text is never empty: the reply when it is a non-empty text, "..." when the answer has a falsy `reply`, and "I... can't respond right now." when the call throws |
| `NpcChatScreen.FormatHistory` | frontend/NPCChat.js:51-57 | history formatting keeps the order; message i has id `String(i)`, `from` equal to `from_role`, and the same text |
| `NpcChatScreen.FormattedIdsDistinct` | frontend/NPCChat.js:52-53 | no two formatted history messages share an id |
| `NpcChatScreen.SentTextPassesValidation` | frontend/NPCChat.js:71-82 | the trimmed text the screen sends always passes the route's missing-message check |
| `NpcChatScreen.ShownReplyIsStoredReply` | frontend/NPCChat.js:112-115 | the NPC bubble shows the reply the route stored when the route succeeds, and "..." when the route answers with an error |
| `NpcChatScreen.ChatScreen.constructor` | frontend/NPCChat.js:13-16 | a new chat screen has no bubbles, an empty input and no reply being typed out |
| `NpcChatScreen.ChatScreen.LoadHistory` | frontend/NPCChat.js:51-58 | the messages are replaced by the formatted history only when the payload has a `history` field |
| `NpcChatScreen.ChatScreen.SendMessage` | frontend/NPCChat.js:70-96 | blank input changes nothing and sends nothing. Otherwise the player message with the trimmed text is appended and the input is cleared. Only the trimmed text is posted. Exactly one NPC message follows, and its id becomes `lastAnimatedId` |
| `NpcChatScreen.ChatScreen.TypingComplete` | frontend/NPCChat.js:147-150 | the typewriter's completion clears `lastAnimatedId` and nothing else |
| `UserSession.IndexOfDot` | frontend/UserContext.js:49 | the position of the first dot, or the length when there is no dot |
| `UserSession.SecondSegment` | frontend/UserContext.js:49 | there is a second segment exactly when the token has a dot, and that segment contains no dot |
| `UserSession.JwtPayloadIsSecondSegment` | frontend/UserContext.js:49 | for a token `header.payload.signature`, the payload is the second segment |
| `UserSession.UserIdFromJwt` | frontend/UserContext.js:47-55 | a token with no dot gives null; otherwise the result is the `sub` decoded from the second segment, or null |
| `UserSession.StoredCodename` | frontend/UserContext.js:79 | the codename stored for a new player is never empty: the given codename, or "Agent" |
| `UserSession.PlayerStore.FetchById` | frontend/UserContext.js:69-73 | a lookup yields the row, not-found (PGRST116), or another error |
| `UserSession.PlayerStore.Insert` | frontend/UserContext.js:77-79 | a successful insert adds the row; a failed one changes nothing |
| `UserSession.Session.constructor` | frontend/UserContext.js:9-11 | a new session holds no token and no player, is loading, and satisfies the session invariant |
| `UserSession.Session.Init` | frontend/UserContext.js:13-45 | with a usable stored token and a found row, the token and the row are taken over. On every other path both stay as they were. Loading ends on every path, and the session invariant is kept |
| `UserSession.Session.SignIn` | frontend/UserContext.js:57-93 | the token is stored and held even when decoding fails; a failed decode means no lookup. An existing row becomes the player, with no insert. A missing row is inserted with `codename \|\| 'Agent'`, and the player becomes `{id, codename}` with the raw codename. Another fetch error, or an insert error, leaves the player and the table as they were |
| `UserSession.Session.SignOut` | frontend/UserContext.js:95-99 | the stored token, the token and the player are all cleared |
| `Typewriter.Slice` | frontend/components/TypewriterText.js:17 | `slice(0, k)` is a prefix of the text, k characters long or the whole text |
| `Typewriter.Tick` | frontend/components/TypewriterText.js:15-22 | a tick advances the counter by one, shows a prefix of the content, and stops the interval exactly when the counter reaches the content's length |
| `Typewriter.Duration` | frontend/components/TypewriterText.js:16-18 | a run takes at least one tick |
| `Typewriter.AfterTicks` | frontend/components/TypewriterText.js:12-25 | after k ticks the counter is k and the shown text is the first k characters. The interval is still set exactly before the completing tick, `max(1, length)`. The callback has run once at completion if it is a function, and never before |
| `Typewriter.DisplayedIsPrefix` | frontend/components/TypewriterText.js:16-17 | the shown text is always a prefix of the content and never longer than it |
| `Typewriter.CompletedRunShowsAll` | frontend/components/TypewriterText.js:16-21 | a finished run shows the whole content, and empty content finishes on the first tick |
| `Typewriter.TypewriterText.constructor` | frontend/components/TypewriterText.js:10-15 | mounting starts a run: counter 0, nothing shown, interval set |
| `Typewriter.TypewriterText.Restart` | frontend/components/TypewriterText.js:12-25 | a new content or speed clears the old interval and restarts at counter 0 with nothing shown |
| `Typewriter.TypewriterText.OnTick` | frontend/components/TypewriterText.js:15-22 | the interval callback performs `Tick`, fires only while the interval is set, and keeps the shown text a prefix of the content |
| `Typewriter.TypewriterText.Unmount` | frontend/components/TypewriterText.js:24 | unmounting clears the interval, so no further tick runs |
| `Common.NatToDecimal` | frontend/NPCChat.js:53 | the decimal text of a number is non-empty, made of digits, one digit long exactly below 10, and starts with '0' only for zero: no leading zeros |
| `Common.DecimalRoundTrip` | frontend/NPCChat.js:53 | reading back the decimal text gives the number |
| `Common.NatToDecimalInjective` | frontend/NPCChat.js:53 | distinct numbers have distinct decimal texts |
| `Common.TrimStart` | frontend/NPCChat.js:71 | removes exactly the leading ECMAScript white space |
| `Common.TrimEnd` | frontend/NPCChat.js:71 | removes exactly the trailing ECMAScript white space |
| `Common.TrimIsInnerSlice` | frontend/NPCChat.js:76 | the trimmed text is a slice of the input with no white space at either end |
| `Common.TrimBlankIff` | frontend/NPCChat.js:71 | the input is blank after trimming if and only if every character is white space |
| `Common.TrimIdempotent` | frontend/NPCChat.js:71 | trimming twice gives the same text as trimming once |

## Left out

- The haversine distance (frontend/MapScreen.js:11-23) is floating-point trigonometry. The distance is an input of the pin logic, and the location request is reduced to the permission answer.
- The Gemini HTTP call and its JSON path extraction (backend/index.js:70-82) are an input. The input is either the extracted text, with the empty text standing for a missing one, or an exception. JSON values that are not strings are not modelled.
- The results of store inserts in the route (backend/index.js:60, 89) are not checked by the code. The model treats those inserts as succeeding.
- The route's and screens' logging (`console.*`), CORS, JSON body parsing and server start-up are left out. So are the assignment of the access token to the store client (frontend/UserContext.js:21) and the scroll-to-end timers.
- React effect scheduling, the `isActive` cancellation flag, timers and interleavings of concurrent requests are left out. Each operation is one sequential step. In particular, input typed while a reply is pending is not modelled.
- The order of the map's participation query has no `ORDER BY`. The model uses table order.
- `CurrentMission.LatestActive`: rows started at the same instant are ordered by the store in an unspecified way. The model picks the earliest in table order.
- `NpcChatRoute.PairTurns`: `created_at` is taken to increase with insertion, so the log's order is the ascending order of creation times. Ties between timestamps are not modelled.
- Column defaults of `mission_participation` (`status`, `started_at`) are not visible in the code. They are a table constant and a time input.
- The `players` row is reduced to id and codename. Other columns pass through `select('*')` unchanged and are not modelled.
- Base64 and JSON decoding of the token payload is an input function. A thrown exception, a missing `sub` and an empty `sub` all count as no user id.
- Secure-storage calls are taken to succeed. A rejected storage promise would abort `init`, `signIn` or `signOut`; that path is not modelled.
- `UserSession.Session.Init`: a rejected secure-storage read at the start of `init` (frontend/UserContext.js:15) leaves loading on. The contract's "loading ends" holds only when the storage read answers.
- `Typewriter.AfterTicks`: JavaScript's `length` and `slice` count UTF-16 code units, while the model counts Unicode characters. A character outside the Basic Multilingual Plane, such as an emoji, takes one tick here and two in the component, whose first tick shows a lone surrogate. Lone surrogates are not modelled. Text inside the Basic Multilingual Plane is counted the same way by both.
- `speed` only changes the timing of ticks, and it restarts the run when it changes. Time itself is not modelled.
- frontend/ActiveMissionsScreen.js has no stable behaviour to state: its `completeMission` reads `mission.id` on an array and uses an undefined `navigation`. frontend/ActiveMissionsScreen.js is not part of this model.
- The completion-rate percentage of frontend/AgentProfile.js, LoginScreen.js, authApi.js, App.js, MissionList.js, SpyMapStyle.js and the store client files are not part of this model. They are rendering, navigation, configuration or floating-point display.
