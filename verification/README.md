# Cadencia in Dafny

A model of the logic of the Cadencia agent-to-agent trade platform, with proofs of what that logic
promises: the negotiation engine and its session state machine, the escrow with its on-chain
contract, the hash-chained audit log, the live event stream, and the smaller arithmetic around them.
`dafny verify dfyconfig.toml` checks everything: the file takes in every `.dfy` below it by a glob, so a
new module needs no entry of its own.

| module | what it models |
|---|---|
| `AgentTurns`, `NegotiationService` | one agent turn on a stored session, and all use cases on the repository |
| `TurnOutcomes` | what a turn sends and stores, told from its inputs alone |
| `PriceBounds`, `Agreements` | what bounds the price of an offer, and of an agreement |
| `Overlaps` | requests that overlap on one session |
| `Engine` | the four-layer turn: valuation, strategy, the model's reply, guardrail; the belief cache |
| `Session`, `Offers`, `Policies` | the session aggregate, the offers in it, the stateless guards |
| `Strategy`, `Valuation`, `Guardrails`, `Money` | the layers, and decimal rounding |
| `Advice` | the strategist and the valuations in figures |
| `OpponentModel`, `Observations` | Bayesian beliefs, the metrics they are updated with, and their closed forms |
| `EscrowContract`, `EscrowAggregate`, `SettlementService` | the smart contract, the aggregate that records it, the service that acts on both |
| `AuditLog`, `AuditAppend`, `AuditPaging` | hash chain and verifier, concurrent appenders, cursor pagination |
| `SseParser`, `SsePublisher` | the browser's incremental parser, the Redis list and the polling endpoint |
| `TextChunker`, `TextParts` | the greedy text chunker of the memory pipeline, and its cuts put back together |
| `TaxRecords` | FEMA and GST records |
| `Sorting`, `Sequences`, `Texts`, `Wrappers` | shared vocabulary |

Objects that the source updates in place are classes here. Each of their methods is proved against a
function on snapshots of the state, and the properties of whole runs are lemmas about that function.

What is outside the system is an input, and every theorem holds for all its values: the language
model's reply (action, price, confidence, words, or a failure), whether a session has expired, the
value of the exponential deadline curve, clocks, transaction and event ids, which of the fallible
steps of a settlement call fail, and when events are published, trimmed or expired. The digest is any
function from text to 64 hexadecimal characters; what a theorem needs of it is asked of the entries at
hand only. `JSON.parse` is any partial function.

Decimals and floats are exact reals, with the source's roundings written out. Comparisons between a
decimal and a float literal use the literal's exact value.

## What the code does differently from its own words

The model follows the code. These are the places where that matters, each with its lemma.

- `compute_valuation` subtracts risk and margin alike, so a buyer's reservation lies below its target (`Valuation.BuyerThresholds`); the strategies that "concede towards the reservation" move a buyer away from it (`Strategy.BuyerAdviceRange`).
- The Boulware curve is documented as slow first and accelerating; it is fast first and slows down (`Strategy.BoulwareDecelerates`).
- A rejection is tagged `REJECT`, while the dispatch looks for `REJECTED`. A rejection without the right words can end as an agreement (`AgentTurns.RejectionExact`, `AgentTurns.RejectionCanAgree`).
- The round threshold is called a stall threshold, but reaching it agrees to the last offer unless three offers in a row made no concession (`AgentTurns.ProposalEndsExact`, `AgentTurns.ThresholdCanAgreeAlone`, `Agreements.ThresholdTakesAnyAsk`).
- A margin floor above the target margin is a legal profile, yet then the guardrail's own fallback can undercut the reservation it enforces (`PriceBounds.SellerProtectedIff`, `PriceBounds.GreedyFloorIsUndercut`).
- The guardrail sees neither acceptances, rejections nor unknown actions. When such an agreement keeps the ceiling or the reservation is `Agreements.BuyerAgreementIff` and `Agreements.SellerAgreementIff`; inputs for which it does not are `Agreements.AcceptanceCanEscape`, `Agreements.AcceptanceWithoutAsk` and `Agreements.SellerAcceptsAnything`. When an agreement suits both sides is `Agreements.AgreementOfRunIff`.
- `Escrow.unfreeze` always restores FUNDED, and `record_refund` accepts a frozen escrow that the contract refuses: the simulation between the two is asymmetric (`SettlementService.GuardsCompared`, `SettlementService.RefusedRecordExact`). An escrow frozen and thawed before it is funded takes the buyer's money without ever recording it (`SettlementService.ThawLosesFunding`).
- A deployment whose gateway call, answer or last write fails, and a release whose answer, anchoring or last write fails, leave states that no later service call repairs (`SettlementService.FirstDeployStrandedIff`, `SettlementService.ReleaseLostIff`, `SettlementService.ReleaseCanBeLost`).
- The unique constraint on entry hashes spans all escrows, so the first entry of an escrow can be refused because of another escrow (`AuditAppend.CommitRefusedIff`, `AuditAppend.SameOpeningIsRefused`).
- The FEMA form is chosen on the unrounded amount (`TaxRecords.FormAgainstRecordedAmount`, `TaxRecords.FormCanDisagree`).

## Model

| member | source | states |
|---|---|---|
| `AgentTurns.TurnExact` | cadencia-a2a-phases/src/negotiation/application/services.py:113-176 | A completed turn appends exactly its own offer and raises the round by one, to at most 20; the session leaves the active states if and only if the engine called the turn terminal, and then in the state its text and the stall counter select; AGREED carries the price of that offer. A turn that raises stores nothing, except that a session found expired is stored as TIMEOUT; once the offer is in, no handler raises. |
| `AgentTurns.AfterEngineExact` | cadencia-a2a-phases/src/negotiation/application/services.py:156-176 | The same for any engine result that moved only the two counters. |
| `AgentTurns.EndingSucceeds` | cadencia-a2a-phases/src/negotiation/application/services.py:178-292 | From every active state each of the five endings succeeds, leaves the active states, keeps the offers and sets a price only when agreeing. |
| `AgentTurns.EndingExact` | cadencia-a2a-phases/src/negotiation/application/services.py:162-173 | How a terminal turn ends, in terms of what came in: an engine timeout times out, a third violation is a policy breach, anything else is decided by the model's own words and the stall counter; the prefixes the engine adds neither create nor hide a tag. |
| `AgentTurns.RejectionExact` | cadencia-a2a-phases/src/negotiation/infrastructure/neutral_engine.py:282-301 | A REJECT ends in WALK_AWAY if and only if the model's words contain REJECTED or WALK_AWAY; it ends in AGREED exactly when the words carry none of the four tags and the stall counter is below 3, and then at the rejection's own price: the model's, the suggested one if it names none, 1 if that is not positive. |
| `AgentTurns.RejectionCanAgree` | cadencia-a2a-phases/src/negotiation/application/services.py:164-173 | A concrete rejection with empty words that leaves the session AGREED at the price it was rejected with. |
| `AgentTurns.AcceptedPrice` | cadencia-a2a-phases/src/negotiation/infrastructure/neutral_engine.py:272-280 | When an ACCEPT leads to AGREED, the agreed price is the counterparty's own last price, when it has one. |
| `AgentTurns.ProposalEndsExact` | cadencia-a2a-phases/src/negotiation/infrastructure/neutral_engine.py:308-327 | A proposal ends the negotiation exactly when it converges or its round reaches the acting profile's threshold; at that moment, converged or not, it is agreed to when its words carry none of the four tags and the stall counter is below 3. |
| `AgentTurns.ThresholdCanAgreeAlone` | cadencia-a2a-phases/src/negotiation/application/services.py:172-173 | With a legal threshold of one round, the buyer's first offer is agreed to while the seller has made none. |
| `AgentTurns.ThresholdEndsIt` | cadencia-a2a-phases/src/negotiation/infrastructure/neutral_engine.py:321-327 | No session is active after a completed turn whose round reaches the acting side's stall threshold, whatever was replied. |
| `AgentTurns.RunsAreBounded` | cadencia-a2a-phases/src/negotiation/domain/session.py:199-213 | Over every run of turns the round count is the starting one plus the number of completed turns, and never exceeds 20. |
| `AgentTurns.StallCounterExact` | cadencia-a2a-phases/src/negotiation/infrastructure/neutral_engine.py:482-506 | At any point of any run of agent turns on a new session, if the session is active, sides have alternated and stall_counter equals the number of trailing repeated offers. |
| `AgentTurns.TrailingRepeatsExact` | cadencia-a2a-phases/src/negotiation/infrastructure/neutral_engine.py:499-506 | That number is the length of the longest suffix of offers each of which differs by less than the threshold from the offer two positions earlier. |
| `AgentTurns.ConvergenceAgrees` | cadencia-a2a-phases/src/negotiation/domain/session.py:478-489 | The engine's convergence test on the offer to come is the session's own test once the offer is in. |
| `TurnOutcomes.ProposalExact` | cadencia-a2a-phases/src/negotiation/infrastructure/neutral_engine.py:217-270 | For a proposal at price P with confidence c: a schema failure is counted if and only if c < 0.10, or P exceeds a buyer's ceiling, or P is below a seller's reservation; the third is a breach placeholder; before that an objectionable proposal goes out at the strategist's price, for a buyer cut to the ceiling and behind the override prefix, and any other at P itself. |
| `TurnOutcomes.OtherReplyExact` | cadencia-a2a-phases/src/negotiation/infrastructure/neutral_engine.py:272-302 | For any other action: an ACCEPT goes out at the counterparty's last price, a REJECT behind its prefix and at 1 for want of a positive price, an unknown action as named; no failure is counted, a price that is not positive is refused. |
| `TurnOutcomes.EmptyReply` | cadencia-a2a-phases/src/negotiation/infrastructure/neutral_engine.py:212-215 | A reply with no fields is an OFFER at the suggested price with confidence 0.5 and no words. |
| `TurnOutcomes.TimeoutExact` | cadencia-a2a-phases/src/negotiation/infrastructure/neutral_engine.py:528-542 | An expired session gets a placeholder at one rupee from the side to move, tagged TIMEOUT, and nothing else happens. |
| `TurnOutcomes.ContextExact` | cadencia-a2a-phases/src/negotiation/infrastructure/neutral_engine.py:126-146 | With alternating sides the strategist is given the own price from two offers back, the opponent's from the last offer, the number of offers as the round, and the stall counter. |
| `TurnOutcomes.TheirsExact` | cadencia-a2a-phases/src/negotiation/infrastructure/neutral_engine.py:126-134 | The prices a side learns from are every second offer, back from the last. |
| `TurnOutcomes.FlexibilityExact` | cadencia-a2a-phases/src/negotiation/infrastructure/neutral_engine.py:142 | A belief's flexibility is its weight on cooperative and half its weight on strategic. |
| `TurnOutcomes.TerminalExact` | cadencia-a2a-phases/src/negotiation/application/services.py:162-173 | A terminal turn that reached its end stores WALK_AWAY if the model's words contain REJECTED or WALK_AWAY, else POLICY_BREACH or TIMEOUT if they contain that tag, else HUMAN_REVIEW if the stall counter is at least 3, else AGREED. |
| `TurnOutcomes.PlaceholderExact` | cadencia-a2a-phases/src/negotiation/application/services.py:162-171 | A turn that did not reach its end stores TIMEOUT when the engine found the session expired, and POLICY_BREACH otherwise. |
| `TurnOutcomes.CounterExactAtEnd` | cadencia-a2a-phases/src/negotiation/infrastructure/neutral_engine.py:482-506 | In agent-only runs that counter is the number of trailing repeats among the stored offers, the last one included for a proposal and not for an acceptance or a rejection. |
| `TurnOutcomes.StalledProposalExact` | cadencia-a2a-phases/src/negotiation/application/services.py:168-173 | In every agent-only run, a proposal without tags that ends the session leaves it in HUMAN_REVIEW exactly when the stored offers end in three repeats or more, and AGREED otherwise. |
| `TurnOutcomes.RunStatusExact` | cadencia-a2a-phases/src/negotiation/domain/session.py:156-179 | After any agent-only run an active session with no offer is in BUYER_ANCHOR, with one in SELLER_RESPONSE, with more in ROUND_LOOP. |
| `NegotiationService.CreatedSessionsRest` | cadencia-a2a-phases/src/negotiation/application/services.py:69-176 | From creation on, under every sequence of turns, overrides, terminations and clean-ups, each finished before the next begins, a stored session is never INIT or STALLED, has as many offers as rounds and at most 20, an end time if and only if it is terminal, a price if and only if it is AGREED. |
| `NegotiationService.FinishedForGood` | cadencia-a2a-phases/src/negotiation/application/services.py:121-123 | No use case that begins after a session has finished changes it in any field. |
| `NegotiationService.AgreedAtLastOffer` | cadencia-a2a-phases/src/negotiation/application/services.py:186-187 | In every run of use cases one after another, an AGREED session's price is the price of its last offer. |
| `NegotiationService.OverrideExact` | cadencia-a2a-phases/src/negotiation/application/services.py:294-322 | A human's offer is taken exactly when the session is active or under review, has a round left, and amount and currency are valid; it is the buyer's, the session is active afterwards and the seller moves next; otherwise nothing is stored. |
| `NegotiationService.OutsideExact` | cadencia-a2a-phases/src/negotiation/application/services.py:345-387 | A termination makes FAILED of whatever is active or under review, a clean-up EXPIRED of whatever is not finished, and neither changes anything else. |
| `Overlaps.UnspoiledIsSerial` | cadencia-a2a-phases/src/negotiation/application/services.py:113-176 | Requests that overlap on a session behave as if run one after another, in the order of their stores, whenever each store finds the session as its request loaded it. |
| `Overlaps.EveryInterleavingRowSound` | cadencia-a2a-phases/src/negotiation/application/services.py:113-361 | Under every interleaving of any requests no offer is lost or changed, the round stays within 20 and never exceeds the offers, an end time marks exactly the terminal states and a price exactly AGREED, and INIT and STALLED are never stored. |
| `Overlaps.CreatedUnderOverlap` | cadencia-a2a-phases/src/negotiation/application/services.py:69-176 | The same from the creation of a session on. |
| `Overlaps.TurnOverwritesTermination` | cadencia-a2a-phases/src/negotiation/application/services.py:115-159 | A termination stored while a turn waits for the model is overwritten when the turn is stored: the session is not FAILED, whatever the turn comes to. |
| `Overlaps.TerminatedYetAgreed` | cadencia-a2a-phases/src/negotiation/application/services.py:115-159 | A session terminated during its first turn that ends AGREED. |
| `Overlaps.OverlappingTurnsMiscount` | cadencia-a2a-phases/src/negotiation/application/services.py:156-159 | Two turns that overlap leave two offers of the same side and one round. |
| `Overlaps.OverlapCountsIff` | cadencia-a2a-phases/src/negotiation/application/services.py:113-361 | For any two requests that load before either stores, in either order of stores, the round equals the number of offers if and only if the later store changes nothing or the earlier one adds no offer. |
| `Overlaps.TerminationStandsIff` | cadencia-a2a-phases/src/negotiation/application/services.py:345-361 | A termination that overlaps any other request stands if and only if it is stored last or the other stores nothing. |
| `NegotiationService.Service.CreateSession` | cadencia-a2a-phases/src/negotiation/application/services.py:69-105 | A second session for a match is refused; otherwise exactly one session, waiting for the buyer's anchor, is added. |
| `NegotiationService.Service.Conclude` | cadencia-a2a-phases/src/negotiation/application/services.py:156-175 | Adding the offer, storing, and on a terminal turn handling and storing again changes the repository as the turn says. |
| `NegotiationService.Service.Handle` | cadencia-a2a-phases/src/negotiation/application/services.py:178-292 | On an active session every handler succeeds and does what its ending says. |
| `NegotiationService.Service.RunAgentTurn` | cadencia-a2a-phases/src/negotiation/application/services.py:113-176 | The method changes the repository exactly as the turn on the stored session says, for that session only; an unknown session is not found. |
| `NegotiationService.Service.ApplyHumanOverride` | cadencia-a2a-phases/src/negotiation/application/services.py:294-322 | The method is the override of the stored session, and touches no other. |
| `NegotiationService.Service.TerminateSession` | cadencia-a2a-phases/src/negotiation/application/services.py:345-353 | Fails the stored session when its guard allows it, and otherwise changes nothing and says so. |
| `NegotiationService.Service.CleanupExpiredSessions` | cadencia-a2a-phases/src/negotiation/application/services.py:371-387 | Of the first hundred candidates exactly the unfinished ones become EXPIRED, all other sessions stay, and the count is the number of distinct sessions expired. |
| `NegotiationService.Service.RunAuto` | cadencia-a2a-phases/src/negotiation/api/router.py:149-218 | The offers of an automatic run are exactly those appended to the session; there are at most max_rounds of them and at most 20 minus the rounds used; the loop reports terminal whenever the session is no longer active, and otherwise only for a session out of rounds. |
| `PriceBounds.BuyerWithinCeiling` | cadencia-a2a-phases/src/negotiation/infrastructure/neutral_engine.py:217-270 | No OFFER or COUNTER of a buyer that goes through exceeds its budget ceiling, whatever strategy is plugged in. |
| `PriceBounds.SellerBelowReservationExact` | cadencia-a2a-phases/src/negotiation/infrastructure/neutral_engine.py:217-257 | With the engine's own strategies, an OFFER or COUNTER of a seller falls below its computed reservation exactly when the guardrail overrides the model, the reservation lies above the target, and the fallback comes from a curve or from an anchor short of the reservation. |
| `PriceBounds.SellerKeepsReservation` | cadencia-a2a-phases/src/negotiation/infrastructure/neutral_engine.py:217-257 | With the engine's own strategies and a margin floor within the target margin of the risk appetite, no OFFER or COUNTER of a seller goes below its reservation. |
| `PriceBounds.SellerProtectedIff` | cadencia-a2a-phases/src/negotiation/domain/valuation.py:152-189 | With the engine's own strategies, a seller's reservation holds on all its proposals, in every sound session and against every reply, if and only if it does not exceed its target. |
| `PriceBounds.GreedyFloorIsUndercut` | cadencia-a2a-phases/src/negotiation/domain/strategy.py:195-219 | A permitted profile with a 50% margin floor whose first answer goes out at 792000 against a reservation of 900000. |
| `PriceBounds.FallbackWithinCeiling` | cadencia-a2a-phases/src/negotiation/infrastructure/neutral_engine.py:247-270 | From a ceiling of one rupee on, the strategy price the guardrail falls back to never needs the budget guard. |
| `PriceBounds.UnknownActionUnbounded` | cadencia-a2a-phases/src/negotiation/infrastructure/neutral_engine.py:288-290 | An action outside the four known ones goes through exactly when the named or suggested price is positive and the confidence a fraction, and at that price, whatever the bounds. |
| `PriceBounds.AcceptanceAtTheirPrice` | cadencia-a2a-phases/src/negotiation/infrastructure/neutral_engine.py:272-280 | An ACCEPT is terminal and at the counterparty's last price, when it has one. |
| `PriceBounds.BreachExact` | cadencia-a2a-phases/src/negotiation/infrastructure/neutral_engine.py:247-261 | A breach is declared exactly on the third overridden proposal. |
| `PriceBounds.ConvergedAgreement` | cadencia-a2a-phases/src/negotiation/domain/policies.py:39-49 | An agreement by convergence is at the last offer's price, within the ceiling on a buyer's turn and within the tolerance of the buyer's last price on a seller's. |
| `Agreements.AgreedPriceExact` | cadencia-a2a-phases/src/negotiation/infrastructure/neutral_engine.py:202-301 | Only a turn that reached its end agrees, and at a price fixed by what came in: on a proposal the model's price, or the strategy's if the guardrail objects, cut to the ceiling; otherwise the unguarded price of the next row. |
| `Agreements.UnguardedAgreement` | cadencia-a2a-phases/src/negotiation/infrastructure/neutral_engine.py:272-290 | An agreement by anything but OFFER or COUNTER is at the counterparty's last price for an ACCEPT when there is one, at 1 for a REJECT whose named or suggested price is not positive, and otherwise at the named or suggested price. |
| `Agreements.BuyerAgreementIff` | cadencia-a2a-phases/src/negotiation/infrastructure/neutral_engine.py:217-301 | An agreement on the buyer's turn is within its ceiling if and only if the reply is a proposal or the unguarded price is within it. |
| `Agreements.SellerAgreementIff` | cadencia-a2a-phases/src/negotiation/infrastructure/neutral_engine.py:217-301 | An agreement on the seller's turn is at or above its reservation if and only if the fallback does not undercut on a proposal, or the unguarded price is not below it otherwise. |
| `Agreements.CarefulIff` | cadencia-a2a-phases/src/negotiation/infrastructure/neutral_engine.py:217-301 | For every turn that reaches its end, agreed or not, the offer keeps its side's own bound if and only if the turn is careful: a condition on the session and the reply alone. |
| `Agreements.CarefulRunKeeps` | cadencia-a2a-phases/src/negotiation/application/services.py:113-176 | In every run of careful turns between two profiles, all offers of an active or agreed session keep their own side's bound. |
| `Agreements.AcceptableIff` | cadencia-a2a-phases/src/negotiation/application/services.py:172-187 | Where the offers so far keep their sides' bounds, an agreement lies within the ceiling and at or above the reservation if and only if the agreeing turn is careful and either accepts a standing offer or goes out at a price within the other side's bound too. |
| `Agreements.AgreementOfRunIff` | cadencia-a2a-phases/src/negotiation/application/services.py:113-187 | The same for the turn that ends any run of careful turns from a new session. |
| `Agreements.ConvergedNearBoth` | cadencia-a2a-phases/src/negotiation/domain/policies.py:39-49 | A careful proposal that converges misses the other side's bound by less than the tolerance. |
| `Agreements.ThresholdTakesAnyAsk` | cadencia-a2a-phases/src/negotiation/infrastructure/neutral_engine.py:321-327 | In the tenth round, at the default threshold, any ask of the seller from its reservation on is agreed to, whatever the buyer bid. |
| `Agreements.AcceptanceEscapesCeiling` | cadencia-a2a-phases/src/negotiation/infrastructure/neutral_engine.py:272-280 | An ACCEPT on the buyer's turn, with or without a standing ask, is agreed to exactly when its words carry no tag and fewer than three stalled rounds are counted, and then above the ceiling exactly when its unguarded price is. |
| `Agreements.AcceptanceCanEscape` | cadencia-a2a-phases/src/negotiation/infrastructure/neutral_engine.py:272-280 | A buyer with a ceiling of 1000000 whose silent ACCEPT agrees to an ask of 2000000. |
| `Agreements.AcceptanceWithoutAsk` | cadencia-a2a-phases/src/negotiation/infrastructure/neutral_engine.py:272-280 | On a new session without any ask, a silent ACCEPT agrees to any price the model names. |
| `Agreements.SellerAcceptsAnything` | cadencia-a2a-phases/src/negotiation/infrastructure/neutral_engine.py:272-280 | A seller with a reservation of 660000 whose silent ACCEPT agrees to any opening bid. |
| `Engine.NeutralEngine.ProcessTurn` | cadencia-a2a-phases/src/negotiation/infrastructure/neutral_engine.py:90-348 | The four layers in order: result and session counters are those of the turn function, and the belief cache stays what the calls so far make of it, learning only from calls that reach their end. |
| `Engine.NeutralEngine.Advise` | cadencia-a2a-phases/src/negotiation/infrastructure/neutral_engine.py:202-327 | Layers 3 and 4: a failing model raises, otherwise decision and conclusion as the specification says. |
| `Engine.NeutralEngine.Propose` | cadencia-a2a-phases/src/negotiation/infrastructure/neutral_engine.py:217-270 | Envelope, guardrail, fallback, schema-failure count and budget guard as the proposal function says. |
| `Engine.NeutralEngine.Consider` | cadencia-a2a-phases/src/negotiation/infrastructure/neutral_engine.py:208-290 | The branch over all actions, including the unknown ones, which fall through. |
| `Engine.NeutralEngine.Finish` | cadencia-a2a-phases/src/negotiation/infrastructure/neutral_engine.py:292-327 | Offer creation, concession tracking, convergence and stall threshold, in that order. |
| `Engine.NeutralEngine.TrackConcession` | cadencia-a2a-phases/src/negotiation/infrastructure/neutral_engine.py:482-506 | Counts a repeat against the same side's last price and resets otherwise. |
| `Engine.TurnIsRegular` | cadencia-a2a-phases/src/negotiation/infrastructure/neutral_engine.py:90-348 | Every turn leaves the session alone but for its two counters; the offer has the session's id, the next round and the side to move; its text is a placeholder or the model's words behind a known prefix; it is terminal exactly for ACCEPT, REJECT, convergence, the round limit, a breach or an expiry. |
| `Engine.UnguardedExact` | cadencia-a2a-phases/src/negotiation/infrastructure/neutral_engine.py:272-301 | An action outside the guardrail completes exactly when there is a valuation, its price is positive and its confidence a fraction, and then at that price. |
| `Engine.CacheIsFold` | cadencia-a2a-phases/src/negotiation/infrastructure/neutral_engine.py:439-480 | After any sequence of process_turn calls, on any sessions and for both sides in any order, each side's cached belief is the uniform prior folded with that side's own observations: one per call that reached its end and saw two opponent prices or more. |
| `Engine.FlexibilityIsFraction` | cadencia-a2a-phases/src/negotiation/infrastructure/neutral_engine.py:159-168 | The belief a turn works with is a probability distribution, so the flexibility handed to the strategy lies in [0, 1]. |
| `Session.EveryRunSound` | cadencia-a2a-phases/src/negotiation/domain/session.py:135-411 | Whatever is called on a new session in whatever order: rounds equal offers and are at most 20, completed_at is set if and only if the status is terminal, agreed_price if and only if AGREED, SELLER_RESPONSE has an offer and ROUND_LOOP two. |
| `Session.StepKeepsSound` | cadencia-a2a-phases/src/negotiation/domain/session.py:135-436 | Each single lifecycle call keeps that invariant. |
| `Session.TerminalIsFinal` | cadencia-a2a-phases/src/negotiation/domain/session.py:94-101 | After a terminal state no sequence of calls changes status, offers, price, times or rounds. |
| `Session.OffersOnlyGrow` | cadencia-a2a-phases/src/negotiation/domain/session.py:183-227 | Over every sequence of calls the old offers stay a prefix, and each call adds at most one. |
| `Session.AgreementOnlyFromActive` | cadencia-a2a-phases/src/negotiation/domain/session.py:230-257 | AGREED is entered only by mark_agreed, from an active state, with the price given. |
| `Session.AdmittedExact` | cadencia-a2a-phases/src/negotiation/domain/session.py:135-436 | Which lifecycle calls each state admits, as lists of states, the limit of 20 and the session's own id. |
| `Session.ReachedExact` | cadencia-a2a-phases/src/negotiation/domain/session.py:135-436 | Where an admitted call leads: status, offers, price and time. |
| `Session.NegotiationSession.Activate` | cadencia-a2a-phases/src/negotiation/domain/session.py:135-154 | The new state is the specified one under the source's guard; a refused call leaves the object unchanged. |
| `Session.NegotiationSession.Transition` | cadencia-a2a-phases/src/negotiation/domain/session.py:156-179 | Moves the status along the machine for the offer just appended, and touches nothing else. |
| `Session.NegotiationSession.AddOffer` | cadencia-a2a-phases/src/negotiation/domain/session.py:183-228 | Refuses outside the active states and HUMAN_REVIEW, at 20 rounds, and for a foreign offer, leaving the object as it was; otherwise appends, counts and transitions. |
| `Session.NegotiationSession.MarkAgreed` | cadencia-a2a-phases/src/negotiation/domain/session.py:230-257 | The new state is the specified one under the source's guard; a refused call leaves the object unchanged. |
| `Session.NegotiationSession.MarkWalkAway` | cadencia-a2a-phases/src/negotiation/domain/session.py:259-277 | The new state is the specified one under the source's guard; a refused call leaves the object unchanged. |
| `Session.NegotiationSession.MarkFailed` | cadencia-a2a-phases/src/negotiation/domain/session.py:279-297 | The new state is the specified one under the source's guard; a refused call leaves the object unchanged. |
| `Session.NegotiationSession.MarkStalled` | cadencia-a2a-phases/src/negotiation/domain/session.py:299-316 | The new state is the specified one under the source's guard; a refused call leaves the object unchanged. |
| `Session.NegotiationSession.EscalateToHumanReview` | cadencia-a2a-phases/src/negotiation/domain/session.py:318-341 | The new state is the specified one under the source's guard; a refused call leaves the object unchanged. |
| `Session.NegotiationSession.ResumeFromHumanReview` | cadencia-a2a-phases/src/negotiation/domain/session.py:343-355 | The new state is the specified one under the source's guard; a refused call leaves the object unchanged. |
| `Session.NegotiationSession.MarkTimeout` | cadencia-a2a-phases/src/negotiation/domain/session.py:357-373 | The new state is the specified one under the source's guard; a refused call leaves the object unchanged. |
| `Session.NegotiationSession.MarkExpired` | cadencia-a2a-phases/src/negotiation/domain/session.py:375-391 | The new state is the specified one under the source's guard; a refused call leaves the object unchanged. |
| `Session.NegotiationSession.MarkPolicyBreach` | cadencia-a2a-phases/src/negotiation/domain/session.py:393-411 | The new state is the specified one under the source's guard; a refused call leaves the object unchanged. |
| `Session.NegotiationSession.RecordSchemaFailure` | cadencia-a2a-phases/src/negotiation/domain/session.py:413-421 | Counts one failure, changes nothing else, and says whether the third is reached. |
| `Session.NegotiationSession.RecordNoConcession` | cadencia-a2a-phases/src/negotiation/domain/session.py:423-431 | Counts one round, changes nothing else, and says whether the third is reached. |
| `Session.NegotiationSession.ResetStallCounter` | cadencia-a2a-phases/src/negotiation/domain/session.py:433-436 | Zeroes the counter and changes nothing else. |
| `Offers.LastPriceEndsPrices` | cadencia-a2a-phases/src/negotiation/domain/session.py:440-468 | The last price of a side is the last element of its price history. |
| `Offers.OwnLastPrice` | cadencia-a2a-phases/src/negotiation/infrastructure/neutral_engine.py:489-499 | In an alternating history the proposer's own last price stands two positions before the new offer. |
| `Offers.OpponentHistory` | cadencia-a2a-phases/src/negotiation/domain/session.py:440-468 | In an alternating history the k-th last price of the side that spoke last stands 2k positions before the end. |
| `Policies.TurnOrderExact` | cadencia-a2a-phases/src/negotiation/domain/policies.py:52-65 | The side the session names next is the only one the turn order admits, so the check never fails in the engine. |
| `Policies.ConvergedExact` | cadencia-a2a-phases/src/negotiation/domain/policies.py:39-49 | Convergence is a gap below the tolerance times the buyer's price: always up to 2%, never from 2.000000000000001% on. |
| `Policies.ToleranceExact` | cadencia-a2a-phases/src/negotiation/domain/policies.py:43-49 | The gaps that convert to a double of at most 0.02 are those below the middle between that double and the next. |
| `Policies.NoConcessionWithin` | cadencia-a2a-phases/src/negotiation/infrastructure/neutral_engine.py:501-506 | The double 0.002 exceeds the decimal one: a change of exactly 0.2% still counts as no concession. |
| `Guardrails.ValidateEnvelope` | cadencia-a2a-phases/src/negotiation/domain/guardrails.py:121-209 | The list of violations has one entry per broken rule and none else, in the order of the checks. |
| `Guardrails.ViolationsExact` | cadencia-a2a-phases/src/negotiation/domain/guardrails.py:138-209 | Each kind of violation is listed if and only if its rule is broken, and never twice. |
| `Guardrails.Enforce` | cadencia-a2a-phases/src/negotiation/domain/guardrails.py:211-241 | Raises exactly when a ceiling, reservation or margin rule is broken; low confidence alone does not veto. |
| `Guardrails.PassedExact` | cadencia-a2a-phases/src/negotiation/domain/guardrails.py:138-207 | As the engine calls it, with no cost basis, an envelope passes if and only if it is confident enough and within the buyer's ceiling or at least the seller's reservation. |
| `Guardrails.UnderMarginExact` | cadencia-a2a-phases/src/negotiation/domain/guardrails.py:176-198 | With a cost basis, the margin rule is broken exactly by a seller's proposal below cost times one plus the floor. |
| `Strategy.SellerUndercutExact` | cadencia-a2a-phases/src/negotiation/domain/strategy.py:113-408 | Over all strategy branches, the advice undercuts a seller's reservation exactly when the reservation exceeds the target and a curve, or a short anchor, gives it. |
| `Strategy.SellerNeverUndercutIff` | cadencia-a2a-phases/src/negotiation/domain/strategy.py:113-408 | The advice respects the reservation in every situation if and only if the reservation is at most the target. |
| `Strategy.BuyerAdviceRange` | cadencia-a2a-phases/src/negotiation/domain/strategy.py:195-390 | A buyer's advice: anchors stay below the target, the curves start at the target and rise by at most the distance to the reservation, the other strategies keep the reservation. |
| `Strategy.BoulwareCurveRange` | cadencia-a2a-phases/src/negotiation/domain/strategy.py:33-38 | The Boulware fraction stays in [0, 1] and never decreases with the round. |
| `Strategy.BoulwareDecelerates` | cadencia-a2a-phases/src/negotiation/domain/strategy.py:33-38 | The concession of each round is positive and smaller than that of the round before. |
| `Strategy.BoulwareConcedes` | cadencia-a2a-phases/src/negotiation/domain/strategy.py:221-241 | With the same thresholds the curve price of a later round is never better for the side that makes it. |
| `Strategy.TitForTatMoves` | cadencia-a2a-phases/src/negotiation/domain/strategy.py:251-298 | A tit-for-tat offer moves 0.5% to 15% from the side's own last price, up to rounding, unless the reservation stops it, and never past the reservation. |
| `Advice.SelectExact` | cadencia-a2a-phases/src/negotiation/domain/strategy.py:113-192 | Each strategy is chosen in exactly these situations: the anchor on opening, a walk-away on a bid below the reservation, the ultimatum from round 18, hardball on flexibility below 0.15 after two rounds without concession, the deadline in rounds 16 and 17, tit-for-tat above 0.7, Boulware otherwise. |
| `Advice.AnchorPriceExact` | cadencia-a2a-phases/src/negotiation/domain/strategy.py:195-219 | A buyer opens 5% below its target and a seller 10% above, to the nearest paisa. |
| `Advice.UltimatumPriceExact` | cadencia-a2a-phases/src/negotiation/domain/strategy.py:300-330 | The ultimatum is the nearest paisa to the middle of both last prices, or the own price without an opponent's, within the reservation. |
| `Advice.HardballPriceExact` | cadencia-a2a-phases/src/negotiation/domain/strategy.py:332-359 | Hardball concedes one percent, to the nearest paisa and within the reservation. |
| `Advice.TitForTatPriceExact` | cadencia-a2a-phases/src/negotiation/domain/strategy.py:251-298 | Tit-for-tat concedes 85% of the gap as a share of the own price, to the nearest hundredth of a percent, at least 0.5% and at most 15%, or 2% with nothing to mirror. |
| `Advice.BoulwarePriceExact` | cadencia-a2a-phases/src/negotiation/domain/strategy.py:221-249 | In round n the default price has moved 1 - ((20 - n) / 20)^3 of the distance from the target, to the nearest paisa. |
| `Advice.DeadlinePriceExact` | cadencia-a2a-phases/src/negotiation/domain/strategy.py:361-390 | Near the deadline the price has moved the curve's fraction of that distance. |
| `Valuation.BuyerThresholds` | cadencia-a2a-phases/src/negotiation/domain/valuation.py:61-149 | A buyer has a valuation exactly when its ceiling is positive; the reservation is positive, within the ceiling, never above the target, and strictly below it from a ceiling of one rupee on. |
| `Valuation.SellerThresholds` | cadencia-a2a-phases/src/negotiation/domain/valuation.py:152-189 | A seller's prices are whole paise of at least 0.01, and ordered when the margin floor is within the target margin. |
| `Valuation.SellerReversed` | cadencia-a2a-phases/src/negotiation/domain/valuation.py:174-180 | Once the margin floor yields two paise more than the target margin, the reservation is above the target. |
| `Advice.BuyerFigures` | cadencia-a2a-phases/src/negotiation/domain/valuation.py:120-149 | A buyer's target and reservation are 77.6% and 76%, 76% and 72%, or 72% and 64% of its ceiling for the low, medium and high appetite. |
| `Advice.SellerReservation` | cadencia-a2a-phases/src/negotiation/domain/valuation.py:174-176 | A seller's reservation is 60% of its ceiling plus its margin floor. |
| `Advice.SellerTargetFigures` | cadencia-a2a-phases/src/negotiation/domain/valuation.py:164-180 | A seller's target is 69%, 72% or 78% of its ceiling. |
| `Money.RoundCentExact` | cadencia-a2a-phases/src/negotiation/domain/valuation.py:99-104 | ROUND_HALF_UP to 0.01 is the nearest whole number of paise, the one farther from zero on a tie, and nothing else. |
| `Money.RoundCentBounds` | cadencia-a2a-phases/src/negotiation/domain/strategy.py:240-241 | Rounding never crosses a whole number of paise. |
| `SettlementService.StepKeepsSimIff` | cadencia-a2a-phases/src/settlement/application/services.py:86-420 | One service call keeps the agreement of contract and aggregate (settled states, frozen flags while unsettled, FUNDED implying FUNDED or FROZEN, settlements) exactly when it does not lose a record that the aggregate would have taken. |
| `SettlementService.RunKeepsSim` | cadencia-a2a-phases/src/settlement/application/services.py:86-420 | So does every run of service calls in which the gateway's answers, anchoring and the last write work. |
| `SettlementService.SettlementsMatchChain` | cadencia-a2a-phases/src/settlement/application/services.py:228-300 | After every such run there is one settlement, of the full amount, exactly when the contract is RELEASED, and a release or refund the chain accepts cannot fail to be recorded. |
| `SettlementService.PartiesAlwaysAgree` | cadencia-a2a-phases/src/settlement/application/services.py:86-168 | After every run of service calls with any faults, the contract, when there is one, has a row that names the same buyer, seller and amount. |
| `SettlementService.DeployExact` | cadencia-a2a-phases/src/settlement/application/services.py:86-168 | A first deployment whose row is saved names the buyer, the seller and the price of the order, even if the gateway then fails; the contract names the same; application and transaction are recorded exactly when no later step fails. |
| `SettlementService.CallExact` | cadencia-a2a-phases/src/settlement/application/services.py:170-420 | Any other call: the chain executes what it accepts, for the row's amount and with the given root or reason; row and settlements change exactly when the call returns normally, and then by its own transaction id. |
| `SettlementService.RowTellsReturned` | cadencia-a2a-phases/src/settlement/application/services.py:170-420 | Over every run with any faults the row holds the transaction ids and the root of exactly the calls that returned normally, in order. |
| `SettlementService.RecordedRootIsPaid` | cadencia-a2a-phases/src/settlement/application/services.py:228-303 | In every run the root in the row, if any, is the note of the payout the contract made to the seller. |
| `SettlementService.GuardsCompared` | cadencia-a2a-phases/contracts/escrow_contract.py:138-160 | The aggregate would record a release or refund exactly when the contract accepts it, or the contract was never funded, or a frozen escrow is refunded. |
| `SettlementService.RefusedRecordExact` | cadencia-a2a-phases/src/settlement/domain/escrow.py:114-249 | What the contract accepts and the aggregate then refuses to record: funding exactly when the aggregate has left DEPLOYED, freezing exactly when it is frozen or settled, thawing exactly when it is settled, a release or refund never. |
| `SettlementService.AcceptedCompletesIff` | cadencia-a2a-phases/src/settlement/application/services.py:170-420 | A call the contract accepts returns normally if and only if the aggregate takes the record and no later step fails. |
| `SettlementService.ThawLosesFunding` | cadencia-a2a-phases/src/settlement/domain/escrow.py:230-249 | Deploy, freeze, thaw, fund: the contract holds the money, the caller gets an error, and no funding transaction is recorded then or after any further calls. |
| `SettlementService.MissedFundingNeverRecorded` | cadencia-a2a-phases/src/settlement/domain/escrow.py:114-141 | Once the aggregate has left DEPLOYED without a funding transaction, no sequence of calls records one. |
| `SettlementService.FailedDeployIsStuck` | cadencia-a2a-phases/src/settlement/application/services.py:86-420 | A row without an application id is never changed by any sequence of service calls, whatever the chain holds. |
| `SettlementService.FirstDeployStrandedIff` | cadencia-a2a-phases/src/settlement/application/services.py:86-168 | A first deployment at a valid price is beyond repair by any sequence of calls if and only if its row is saved and the gateway call, its answer or the last write fails; unless the gateway call itself failed, a live contract remains that no row points to. |
| `SettlementService.LostReleaseNeverRecovers` | cadencia-a2a-phases/src/settlement/application/services.py:228-300 | A release lost after the contract accepted it leaves a paid seller and an unsettled aggregate for good. |
| `SettlementService.ReleaseLostIff` | cadencia-a2a-phases/src/settlement/application/services.py:228-300 | For an accepted release this happens if and only if the answer, anchoring or the last write fails. |
| `SettlementService.ReleaseCanBeLost` | cadencia-a2a-phases/src/settlement/application/services.py:258-268 | Deploy, fund, and a release while anchoring is down reach such a loss. |
| `SettlementService.Service.DeployEscrow` | cadencia-a2a-phases/src/settlement/application/services.py:86-168 | Chain call first, record second, rows written last: the new state is the specified one for every combination of faults. |
| `SettlementService.Service.FundEscrow` | cadencia-a2a-phases/src/settlement/application/services.py:170-226 | Chain call first, record second, rows written last: the new state is the specified one for every combination of faults. |
| `SettlementService.Service.ReleaseEscrow` | cadencia-a2a-phases/src/settlement/application/services.py:228-303 | Chain call first, record second, rows written last: the new state is the specified one for every combination of faults. |
| `SettlementService.Service.RefundEscrow` | cadencia-a2a-phases/src/settlement/application/services.py:305-357 | Chain call first, record second, rows written last: the new state is the specified one for every combination of faults. |
| `SettlementService.Service.FreezeEscrow` | cadencia-a2a-phases/src/settlement/application/services.py:359-396 | Chain call first, record second, rows written last: the new state is the specified one for every combination of faults. |
| `SettlementService.Service.UnfreezeEscrow` | cadencia-a2a-phases/src/settlement/application/services.py:398-420 | Chain call first, record second, rows written last: the new state is the specified one for every combination of faults. |
| `EscrowAggregate.ReloadExact` | cadencia-a2a-phases/src/settlement/infrastructure/repositories.py:55-143 | Saving and reloading loses the settlement time, and nothing else exactly when the frozen flag and the FROZEN status agree. |
| `EscrowAggregate.RecordsStayCoherent` | cadencia-a2a-phases/src/settlement/domain/escrow.py:86-249 | Every lifecycle method keeps them in agreement, so every reload is exact up to the time. |
| `EscrowAggregate.RecordExact` | cadencia-a2a-phases/src/settlement/domain/escrow.py:86-249 | Which records each status takes, and every field a record changes. |
| `EscrowAggregate.Escrow.Deployment` | cadencia-a2a-phases/src/settlement/domain/escrow.py:86-112 | The guards and the whole new state; a refused call changes nothing. |
| `EscrowAggregate.Escrow.Funding` | cadencia-a2a-phases/src/settlement/domain/escrow.py:114-141 | The guards and the whole new state; a refused call changes nothing. |
| `EscrowAggregate.Escrow.Release` | cadencia-a2a-phases/src/settlement/domain/escrow.py:143-173 | The guards and the whole new state; a refused call changes nothing. |
| `EscrowAggregate.Escrow.Refund` | cadencia-a2a-phases/src/settlement/domain/escrow.py:175-200 | Accepts a frozen escrow, unlike the contract. |
| `EscrowAggregate.Escrow.Freeze` | cadencia-a2a-phases/src/settlement/domain/escrow.py:202-228 | The guards and the whole new state; a refused call changes nothing. |
| `EscrowAggregate.Escrow.Unfreeze` | cadencia-a2a-phases/src/settlement/domain/escrow.py:230-249 | Only a frozen escrow thaws, and it always becomes FUNDED, even if nothing was funded. |
| `EscrowContract.MoneyConserved` | cadencia-a2a-phases/contracts/escrow_contract.py:64-190 | Over every run of calls by arbitrary senders: paid in equals held plus paid out, held is the amount exactly while FUNDED, at most one payout happens, of everything, to the seller on release and the buyer on refund. |
| `EscrowContract.RunStaysBalanced` | cadencia-a2a-phases/contracts/escrow_contract.py:64-190 | Every run keeps the balance sheet of each status, and the parties and the amount. |
| `EscrowContract.NothingMovesWhileFrozen` | cadencia-a2a-phases/contracts/escrow_contract.py:112-190 | While frozen, no run of calls changes anything until the creator unfreezes. |
| `EscrowContract.SettledIsFinal` | cadencia-a2a-phases/contracts/escrow_contract.py:112-160 | Once settled, only the freeze flag can change. |
| `EscrowContract.OnlyCreatorPaysOut` | cadencia-a2a-phases/contracts/escrow_contract.py:112-160 | Runs without the creator pay nothing out. |
| `EscrowContract.CreatorCanSettle` | cadencia-a2a-phases/contracts/escrow_contract.py:112-190 | From every FUNDED state a run reaches, the creator alone can release or refund in at most two calls. |
| `EscrowContract.AcceptedExact` | cadencia-a2a-phases/contracts/escrow_contract.py:89-190 | In every state a run reaches, exactly who may call what: anyone funds an unfrozen new contract with the exact amount, the creator alone releases, refunds and thaws, buyer, seller and creator freeze at any time. |
| `EscrowContract.OutsidersChangeNoFlag` | cadencia-a2a-phases/contracts/escrow_contract.py:162-190 | No run of calls by anyone but buyer, seller and creator changes the freeze flag or the payouts. |
| `EscrowContract.CadenciaEscrow.Initialize` | cadencia-a2a-phases/contracts/escrow_contract.py:64-87 | The slots of a new contract. |
| `EscrowContract.CadenciaEscrow.Fund` | cadencia-a2a-phases/contracts/escrow_contract.py:89-109 | The assertions and the whole new state, inner payment included; a failed assertion changes nothing. |
| `EscrowContract.CadenciaEscrow.Release` | cadencia-a2a-phases/contracts/escrow_contract.py:111-135 | The assertions and the whole new state, inner payment included; a failed assertion changes nothing. |
| `EscrowContract.CadenciaEscrow.Refund` | cadencia-a2a-phases/contracts/escrow_contract.py:137-160 | The assertions and the whole new state, inner payment included; a failed assertion changes nothing. |
| `EscrowContract.CadenciaEscrow.Freeze` | cadencia-a2a-phases/contracts/escrow_contract.py:162-176 | The assertions and the whole new state, inner payment included; a failed assertion changes nothing. |
| `EscrowContract.CadenciaEscrow.Unfreeze` | cadencia-a2a-phases/contracts/escrow_contract.py:178-190 | The assertions and the whole new state, inner payment included; a failed assertion changes nothing. |
| `AuditLog.Verify` | cadencia-a2a-phases/src/compliance/domain/audit_log.py:142-168 | The verdict on the entries sorted by sequence number: valid if and only if every hash and back-link is right, otherwise the number of the first entry that fails, everything before it being a valid chain. |
| `AuditLog.VerdictUnique` | cadencia-a2a-phases/src/compliance/domain/audit_log.py:142-168 | That description determines the verdict. |
| `AuditLog.VerdictIgnoresOrder` | cadencia-a2a-phases/src/compliance/domain/audit_log.py:142-168 | With distinct sequence numbers the verdict does not depend on the list order. |
| `AuditLog.PrefixAccepted` | cadencia-a2a-phases/src/compliance/domain/audit_log.py:142-168 | Every prefix of an accepted chain is accepted. |
| `AuditLog.TamperEvidence` | cadencia-a2a-phases/src/compliance/domain/audit_log.py:37-56 | Two valid chains with the same head hash hold the same events and payloads, or exhibit a collision of the digest or a preimage of the genesis hash. |
| `AuditLog.AcceptedHeadFixesHistory` | cadencia-a2a-phases/src/compliance/domain/audit_log.py:142-168 | For any two accepted lists among whose entries the digest has no collision and does not yield the genesis value: equal heads if and only if equal histories. |
| `AuditLog.UniqueParse` | cadencia-a2a-phases/src/compliance/domain/audit_log.py:37-43 | The bar-separated join can be parsed in only one way when hashes and event types contain no bar. |
| `AuditLog.UnambiguousIff` | cadencia-a2a-phases/src/compliance/domain/audit_log.py:37-43 | An event type can be confused with another one that contains no bar if and only if it contains a bar itself. |
| `AuditLog.RenumberingInvisible` | cadencia-a2a-phases/src/compliance/domain/audit_log.py:142-168 | The verifier cannot see an order-keeping renumbering: contiguity is not checked. |
| `AuditAppend.EveryRunKeepsChains` | cadencia-a2a-phases/src/compliance/application/services.py:82-117 | In every interleaving of appenders, committing and rolling back, each escrow's committed entries are at every moment numbered 0..n-1 and linked from the genesis hash. |
| `AuditAppend.EveryRunVerifies` | cadencia-a2a-phases/src/compliance/application/services.py:145-156 | ... and accepted by the verifier in whatever order they are listed. |
| `AuditAppend.EveryRunOnlyAppends` | cadencia-a2a-phases/src/compliance/infrastructure/repositories.py:61-72 | Nothing committed is ever changed or removed. |
| `AuditAppend.EveryRunRecordsCommands` | cadencia-a2a-phases/src/compliance/application/services.py:91-111 | In every interleaving, at every moment and for every escrow, the event types and payloads of its log are those of the commands given to exactly the transactions that committed a row for it, in the order of their commits. |
| `AuditAppend.StepKeepsInv` | cadencia-a2a-phases/src/compliance/application/services.py:91-111 | Each database step of each transaction keeps chains, hash uniqueness, lock exclusion and the transactions' view of the latest entry. |
| `AuditAppend.LockKeyExact` | cadencia-a2a-phases/src/compliance/infrastructure/repositories.py:49-59 | The lock key fits a signed 64-bit integer and is shared by exactly the escrows that share their first eight bytes. |
| `AuditAppend.LockKeyBytes` | cadencia-a2a-phases/src/compliance/infrastructure/repositories.py:49-59 | The key is the first eight bytes read as a big-endian integer in two's complement. |
| `AuditAppend.OnlyHashCanClash` | cadencia-a2a-phases/src/compliance/infrastructure/models.py:30-42 | The lock makes the (escrow, sequence number) constraint redundant: only the unique entry hash can refuse a commit. |
| `AuditAppend.CommitRefusedIff` | cadencia-a2a-phases/src/compliance/infrastructure/models.py:42 | Where the digest tells the committed rows and the staged entry apart, a commit is refused exactly when it is an escrow's first entry and another escrow's log starts with the same event type and payload. |
| `AuditAppend.SameOpeningIsRefused` | cadencia-a2a-phases/src/compliance/infrastructure/models.py:42 | Whatever the digest, a run in which a second escrow opens with the same event and payload as a first, and its commit is refused. |
| `AuditAppend.RefusalExists` | cadencia-a2a-phases/src/compliance/infrastructure/models.py:42 | A digest and a reachable state that meet every condition of the exact statement, with a refused commit. |
| `AuditPaging.PagingExactIff` | cadencia-a2a-phases/src/compliance/application/services.py:122-143 | Following cursors yields the whole log exactly once and in order, for every page size, if and only if creation times strictly increase. |
| `AuditPaging.RoutedPagingExact` | cadencia-a2a-phases/src/compliance/api/router.py:57-75 | The same equivalence for the page sizes the router lets through, 1 to 100, over all requested sizes. |
| `AuditPaging.PageFrom` | cadencia-a2a-phases/src/compliance/infrastructure/repositories.py:84-99 | One page is the next rows, with a cursor exactly when more remain. |
| `SseParser.SseClient.Receive` | final-frontend-cadencia/src/hooks/useSSE.ts:44-72 | Cutting the buffered text at newlines, keeping the rest and firing callbacks line by line equals consuming the text character by character. |
| `SseParser.SseClient.TakeLine` | final-frontend-cadencia/src/hooks/useSSE.ts:52-69 | One line of the loop: event lines set the name, data lines fire and clear it, anything else is ignored. |
| `SseParser.SplittingRefines` | final-frontend-cadencia/src/hooks/useSSE.ts:48-50 | The split-and-pop of one read and the character-wise machine agree, for any text. |
| `SseParser.ChunkingIrrelevant` | final-frontend-cadencia/src/hooks/useSSE.ts:44-72 | The callbacks do not depend on how the stream is cut into reads. |
| `SseParser.DeliveredGrows` | final-frontend-cadencia/src/hooks/useSSE.ts:52-69 | No callback is ever taken back. |
| `SseParser.RoundTripIff` | cadencia-a2a-phases/src/negotiation/api/router.py:298-310 | On the printed frames of events with one-line parseable JSON, the callbacks are exactly the stored events in order, each under its own stored event field and "message" without one, if and only if every stored name is non-empty, on one line and does not end in white space. |
| `SseParser.FrameDelivers` | cadencia-a2a-phases/src/negotiation/api/router.py:308 | One printed frame fires one callback, under the stored event field or "message", and leaves the parser clean. |
| `SseParser.FrameLines` | cadencia-a2a-phases/src/negotiation/api/router.py:298-308 | A frame is five lines: the id, the stored event name or "message", the JSON text, and two empty ones. |
| `SsePublisher.RedisSsePublisher.PublishTurn` | cadencia-a2a-phases/src/negotiation/infrastructure/sse_publisher.py:26-32 | Appends and trims to the last thousand. |
| `SsePublisher.RedisSsePublisher.PublishTerminal` | cadencia-a2a-phases/src/negotiation/infrastructure/sse_publisher.py:34-36 | Publishes the event with its terminal flag set. |
| `SsePublisher.RedisSsePublisher.GetEventsSince` | cadencia-a2a-phases/src/negotiation/infrastructure/sse_publisher.py:38-51 | Everything without a cursor or with an unknown one, otherwise what follows the event with that id. |
| `SsePublisher.SincePublished` | cadencia-a2a-phases/src/negotiation/infrastructure/sse_publisher.py:38-51 | For any published id, even one trimmed away, the answer is exactly the retained events published after it. |
| `SsePublisher.PublishRetains` | cadencia-a2a-phases/src/negotiation/infrastructure/sse_publisher.py:26-32 | Trimming keeps the list a suffix of what was published. |
| `SsePublisher.ThousandRetained` | cadencia-a2a-phases/src/negotiation/infrastructure/sse_publisher.py:26-32 | After publishing the list holds the last thousand events, or all while they are fewer. |
| `SsePublisher.EventGenerator.PollOnce` | cadencia-a2a-phases/src/negotiation/api/router.py:303-314 | One poll sends what is new up to and including the first terminal event, moves the cursor to the last event sent, and closes after a terminal one. |
| `SsePublisher.PollBlock` | cadencia-a2a-phases/src/negotiation/api/router.py:303-314 | One poll sends a contiguous block of the published events from the first retained unread one on. |
| `SsePublisher.StreamInOrder` | cadencia-a2a-phases/src/negotiation/api/router.py:294-314 | Under any publishing, trimming, expiry and polling, a connection sends published events in publication order and none twice. |
| `SsePublisher.NothingMissed` | cadencia-a2a-phases/src/negotiation/api/router.py:303-314 | If at most a thousand events are published between polls, everything is sent without gaps until a terminal event or a disconnect; while open only the events since the last poll are missing. |
| `SsePublisher.ReconnectComplete` | cadencia-a2a-phases/src/negotiation/api/router.py:296-302 | Reconnecting with an id among the last thousand loses nothing. |
| `SsePublisher.ClientSeesPublished` | final-frontend-cadencia/src/hooks/useSSE.ts:44-72 | From the Redis list to the browser: the callbacks are published events, in order, without repetition, each under its stored event field, or "message" when it has none. |
| `OpponentModel.UpdateWith` | cadencia-a2a-phases/src/negotiation/domain/opponent_model.py:147-198 | The loop and the normalisation compute prior times likelihood over their sum, or the prior when the sum is zero. |
| `OpponentModel.UpdateBelief` | cadencia-a2a-phases/src/negotiation/domain/opponent_model.py:147-198 | One update is that computation on the likelihoods of the observed metrics. |
| `OpponentModel.FoldIsNormalisedProduct` | cadencia-a2a-phases/src/negotiation/domain/opponent_model.py:147-198 | Folding updates over any observations equals normalising once the prior times the product of all likelihoods. |
| `OpponentModel.FoldIsDistribution` | cadencia-a2a-phases/src/negotiation/domain/opponent_model.py:147-198 | The result is a distribution, and a type has probability zero exactly when its prior was zero. |
| `OpponentModel.BeliefIgnoresOrder` | cadencia-a2a-phases/src/negotiation/domain/opponent_model.py:147-198 | The order of the observations does not matter. |
| `OpponentModel.LikelihoodPositive` | cadencia-a2a-phases/src/negotiation/domain/opponent_model.py:238-244 | The Gaussian likelihoods of the table are positive for every observation. |
| `Observations.LikelihoodExact` | cadencia-a2a-phases/src/negotiation/domain/opponent_model.py:123-145 | The likelihood of an observation under each type is the product of three normal densities with that type's mean and deviation for flexibility, response time and consistency. |
| `Observations.UpdatedExact` | cadencia-a2a-phases/src/negotiation/domain/opponent_model.py:147-198 | Bayes' rule for each type: posterior times total is prior times likelihood; with a total of zero the prior stays. |
| `Observations.FirstObservation` | cadencia-a2a-phases/src/negotiation/domain/opponent_model.py:120-121 | From the uniform prior the first posterior is the likelihood, in proportion. |
| `OpponentModel.EmaWithin` | cadencia-a2a-phases/src/negotiation/domain/opponent_model.py:349-356 | The moving average stays within the range of its values. |
| `OpponentModel.ComputeEma` | cadencia-a2a-phases/src/negotiation/domain/opponent_model.py:349-356 | The loop computes the recursively defined average. |
| `Observations.EmaIsWeightedSum` | cadencia-a2a-phases/src/negotiation/domain/opponent_model.py:349-356 | The average is the weighted sum with 40% on the last value, 40% of the remainder on the one before, and so on, the first taking what is left. |
| `OpponentModel.ComputeFlexibility` | cadencia-a2a-phases/src/negotiation/domain/opponent_model.py:250-271 | The capped average of relative changes, always in [0, 1], and 0.5 without data. |
| `Observations.RelativeChangesExact` | cadencia-a2a-phases/src/negotiation/domain/opponent_model.py:256-264 | Between positive prices there is one change per neighbouring pair, and times the earlier price it is their distance. |
| `OpponentModel.ComputeConsistency` | cadencia-a2a-phases/src/negotiation/domain/opponent_model.py:274-302 | The loops compute the share of moves in the direction of the first one. |
| `OpponentModel.ConsistencyExact` | cadencia-a2a-phases/src/negotiation/domain/opponent_model.py:274-302 | That share lies in [0, 1] and is 1 exactly when every move goes the first one's way. |
| `Observations.ConsistencyIsShare` | cadencia-a2a-phases/src/negotiation/domain/opponent_model.py:274-302 | Consistency is the number of moves that go the first one's way over the number of moves; 0.5 with fewer than three prices or no first move. |
| `TextChunker.PackedExact` | cadencia-a2a-phases/src/negotiation/infrastructure/embedding_pipeline.py:73-98 | Before overlap and de-duplication: paragraphs in order, each short one whole in one chunk, no sentence of a long one lost, nothing over the limit but a single sentence; paragraphs share a chunk whenever they fit, blank lines join only whole short paragraphs, and spaces only consecutive sentences of one long paragraph. |
| `TextChunker.SentenceChunksExact` | cadencia-a2a-phases/src/negotiation/infrastructure/embedding_pipeline.py:111-129 | The sentences of a long paragraph in order, none lost, joined by single spaces; a chunk is closed only when the next sentence no longer fits; only a single sentence exceeds the limit. |
| `TextParts.SentencesWoven` | cadencia-a2a-phases/src/negotiation/infrastructure/embedding_pipeline.py:114 | The sentences with the white space between them give the paragraph back, in order. |
| `TextParts.SentencesExact` | cadencia-a2a-phases/src/negotiation/infrastructure/embedding_pipeline.py:114 | No sentence contains a full stop, exclamation or question mark before white space, and all but the last end in one: every break is cut, and nothing else. |
| `TextChunker.PackingKeepsInk` | cadencia-a2a-phases/src/negotiation/infrastructure/embedding_pipeline.py:54-98 | The packed chunks contain exactly the non-white-space characters of the text, in order. |
| `TextChunker.Pack` | cadencia-a2a-phases/src/negotiation/infrastructure/embedding_pipeline.py:73-98 | The loop over paragraphs computes the packed chunks. |
| `TextChunker.SplitBySentences` | cadencia-a2a-phases/src/negotiation/infrastructure/embedding_pipeline.py:111-129 | The loop over sentences computes the sentence chunks. |
| `TextChunker.WithTailsAt` | cadencia-a2a-phases/src/negotiation/infrastructure/embedding_pipeline.py:131-137 | Every chunk but the first stands behind the tail of the one before and a space, and grows by at most the overlap plus one. |
| `TextChunker.AddOverlap` | cadencia-a2a-phases/src/negotiation/infrastructure/embedding_pipeline.py:131-137 | The loop computes exactly that. |
| `TextChunker.Deduplicate` | cadencia-a2a-phases/src/negotiation/infrastructure/embedding_pipeline.py:103-109 | The loop keeps the stripped, non-empty chunks at their first occurrence. |
| `TextChunker.FirstOccurrencesExact` | cadencia-a2a-phases/src/negotiation/infrastructure/embedding_pipeline.py:103-109 | No chunk is repeated and exactly the non-empty stripped ones are kept. |
| `TextParts.FirstOccurrencesInOrder` | cadencia-a2a-phases/src/negotiation/infrastructure/embedding_pipeline.py:103-109 | The kept chunks stand in their old order, each at its first occurrence. |
| `TextChunker.Split` | cadencia-a2a-phases/src/negotiation/infrastructure/embedding_pipeline.py:54-109 | Normalising, packing, overlapping and de-duplicating, in that order. |
| `TextParts.StripExact` | cadencia-a2a-phases/src/negotiation/infrastructure/embedding_pipeline.py:66 | Stripping takes white space off both ends and nothing else. |
| `TextParts.UnixNewlinesReplace` | cadencia-a2a-phases/src/negotiation/infrastructure/embedding_pipeline.py:64 | Every CR LF becomes a newline, wherever it stands. |
| `TextParts.UnixNewlinesKeep` | cadencia-a2a-phases/src/negotiation/infrastructure/embedding_pipeline.py:64 | A text without CR LF stays as it is. |
| `TextParts.CollapseOne` | cadencia-a2a-phases/src/negotiation/infrastructure/embedding_pipeline.py:65 | Of three newlines in a row one may be dropped without changing the result. |
| `TextParts.CollapseKeep` | cadencia-a2a-phases/src/negotiation/infrastructure/embedding_pipeline.py:65 | A text without three newlines in a row stays as it is. |
| `TextParts.NormalExact` | cadencia-a2a-phases/src/negotiation/infrastructure/embedding_pipeline.py:63-66 | The normalised text has stripped ends and no three newlines in a row. |
| `TextParts.ParagraphsJoined` | cadencia-a2a-phases/src/negotiation/infrastructure/embedding_pipeline.py:69 | The paragraphs joined by blank lines give the text back. |
| `TextParts.ParagraphsExact` | cadencia-a2a-phases/src/negotiation/infrastructure/embedding_pipeline.py:69 | No paragraph contains a blank line, and none but the last ends in a newline. |
| `TextParts.TailExact` | cadencia-a2a-phases/src/negotiation/infrastructure/embedding_pipeline.py:131-137 | The overlap is the last characters of the chunk before, as many as asked for or all there are. |
| `TextChunker.SplitExact` | cadencia-a2a-phases/src/negotiation/infrastructure/embedding_pipeline.py:54-109 | No repeats, no empty or unstripped chunk; nothing comes out exactly when the text is blank; a result longer than limit plus overlap plus one is a packed chunk that is one sentence over the limit, behind its overlap. |
| `TaxRecords.ComplianceStore.Generate` | cadencia-a2a-phases/src/compliance/application/services.py:158-228 | Both records exist together, agree on the rupee amount, and once they exist no later command changes them. |
| `TaxRecords.SameRupees` | cadencia-a2a-phases/src/compliance/application/services.py:190-212 | For every amount and rate, the FEMA rupee amount is the GST taxable amount. |
| `TaxRecords.RecordsForEveryAmount` | cadencia-a2a-phases/src/compliance/application/services.py:183-212 | Every non-negative amount at a positive rate yields records. |
| `TaxRecords.RateUsed` | cadencia-a2a-phases/src/compliance/application/services.py:176-200 | The FEMA record of a command is made at its own rate, or at 15 rupees when none or zero is given. |
| `TaxRecords.FemaExact` | cadencia-a2a-phases/src/compliance/domain/fema_record.py:79-97 | Rate, root and ALGO amount are those given, the rupee amount is the nearest paisa, and the form is 15CB from 500000 rupees on. |
| `TaxRecords.GstExact` | cadencia-a2a-phases/src/compliance/domain/gst_record.py:90-141 | Between states 18% as IGST and nothing else, within a state 9% as CGST and the same as SGST, each to the nearest paisa. |
| `TaxRecords.IntraVersusInter` | cadencia-a2a-phases/src/compliance/domain/gst_record.py:90-141 | Intrastate and interstate totals are within one paisa of exact 18% and of each other; they differ exactly when nine times the amount in paise ends in 26 to 74. |
| `TaxRecords.HalfEvenExact` | cadencia-a2a-phases/src/compliance/domain/gst_record.py:90-125 | quantize rounds to the nearest paisa, to the even one on a tie, and nothing else. |
| `TaxRecords.FormAgainstRecordedAmount` | cadencia-a2a-phases/src/compliance/domain/fema_record.py:79-97 | The form agrees with the recorded amount exactly unless the unrounded amount is in the last half paisa below the threshold. |
| `TaxRecords.FormCanDisagree` | cadencia-a2a-phases/src/compliance/domain/fema_record.py:79-97 | 33333.333333 ALGO at the fallback rate are recorded as 500000.00 rupees on the form for less. |

## Left out

- NegotiationService.Service.RunAgentTurn: the repository is a map; its decimal columns, which round stored prices to four places, are not modelled.
- NegotiationService.Service.RunAgentTurn: reloading sets expires_at to created_at, so with the shipped repository every reloaded session counts as expired; the expiry flag is a free input instead.
- NegotiationService.Service.RunAgentTurn: profiles are passed in; the learning step after an agreement changes only averages that no turn reads.
- NegotiationService.Service.RunAgentTurn: the commit of the surrounding database transaction is not modelled; a stored session counts as stored from `update` on.
- NegotiationService.Service.CleanupExpiredSessions: the query that selects the candidates is an input.
- Engine.NeutralEngine.ProcessTurn: prompt building, retrieval of memories, the published event and the advisory concession modifier do not influence the offer and are left out.
- Engine.NeutralEngine.ProcessTurn: the metrics behind an observation enter as a positive likelihood vector of the opponent's prices; OpponentModel proves the Gaussian ones positive.
- Policies.ConvergedExact: quotients of decimals are exact; their rounding to 28 digits is left out.
- AgentTurns.TurnExact: the TIMEOUT of a session found expired is an update that no commit follows before the error is raised (negotiation/application/services.py:126-128), so the shipped wiring may discard it; here it is stored.
- NegotiationService.FinishedForGood: use cases that overlap are the subject of Overlaps; without a lock or a version check only what EveryInterleavingRowSound states survives them.
- NegotiationService.AgreedAtLastOffer: holds for use cases one after another; a turn that overlaps another request can store an agreement behind a later offer.
- Overlaps.EveryInterleavingRowSound: a request reads once and writes once; reloading orders offers by round number, here they stay in the order of insertion.
- Engine.CacheIsFold: the shipped wiring builds an engine per request (negotiation/api/dependencies.py:48), so a cache lives for one request or one automatic run; here it lives as long as the engine.
- SettlementService.Service.DeployEscrow: which error is raised is stated only as far as success and failure go.
- Strategy.SellerUndercutExact: concession_fraction and rationale, which only reach the prompt, are not part of a recommendation.
- SettlementService.RunKeepsSim: one call at a time, for one session; `submit_signed_fund` and freezes sent to the chain by the parties themselves are outside the simulation.
- EscrowContract.MoneyConserved: money sent to the contract's account other than through `fund` is not counted.
- AuditAppend.EveryRunKeepsChains: transactions see committed rows only, as at READ COMMITTED; lock timeouts are aborts.
- AuditPaging.PagingExactIff: the log does not grow while its pages are followed.
- SseParser.RoundTripIff: text is taken after UTF-8 decoding.
- SsePublisher.StreamInOrder: ids are assumed new when published, as UUIDs are, and no client guesses one beforehand.
- TaxRecords.SameRupees: decimal precision of 28 digits is not exceeded; PAN, GSTIN and HSN formats are one flag.
- TextChunker.Split: the chunk limits are given in characters; the token estimate they come from is left out.
- validate_raw_envelope, check_margin_floor, the unused concession curves, strategy_modifier and get_session_intelligence: not on the path of any turn.
- PDF, CSV and ZIP export, the export jobs, Merkle tree and anchoring internals, on-ramp adapters: opaque values or foreign systems.
- Identity, KYC, wallets, the marketplace and RFQ machine, admin dashboards and the remaining user interface: short linear flows that would only add easy members.
- Network calls, retries, metrics, logging, connection limits and key expiry times.
