# SisKA WhatsApp bot: the message handler and its correlation tables

SisKA is the WhatsApp bot of the Biro Keuangan dan BMN. Employees listed in its directory use a menu to ask for overtime (`Lembur`) or leave (`Cuti`). The bot forwards each request to the employee's supervisor, who approves or rejects it by quote-replying to the bot's message. Anyone else, and any employee who picks menu option 3, is taken through a helpdesk dialogue. The question goes to a helpdesk WhatsApp group, and the group's quote reply to the bot's instruction message is forwarded back to the user.

This project models that logic from `index.js`: the four in-memory dictionaries, the small helpers, and the `'message'` handler, one inbound message at a time.

- `wrappers.dfy` (module `Wrappers`): `Option`.
- `text.dfy` (module `Text`): the JavaScript string operations the handler relies on.
  - `String.prototype.trim` over the ECMAScript WhiteSpace and LineTerminator code points.
  - `toLowerCase` for ASCII letters.
  - `includes` and `endsWith`.
  - `hanyaAngka`, the digit filter.
- `decision.dfy` (module `Decision`): `isApprovalYes` / `isApprovalNo`, and how the handler combines them (yes is tested first).
- `directory.dfy` (module `Directory`): the directory records and the two lookups, `cariPegawaiByWa` and `cariAtasanPegawai`.
- `conversation.dfy` (module `Conversation`): the state and the handler.
  - The state is `pengajuanBySender`, `pengajuanByAtasanMsgId`, `helpdeskQueue` and `helpdeskInstruksiMap`, plus the sequence of messages the bot has sent. A message's id is its index in that sequence.
  - `Step` is the handler as a pure function. Each branch of the source becomes one function: `OnGroup`, `OnDecision`, `OnHelpdesk`, `OnInternal` and `OnReason`.
- `properties.dfy` (module `ConversationProperties`): the invariant `Valid`, and its preservation by every branch and by `Step`.
  - Every correlation key is the id of the message that was sent for it.
  - Every request flow carries exactly the fields of its step.
  - Every user waiting for a helpdesk answer has an instruction that routes to them.
- `transitions.dfy` (module `ConversationTransitions`): what each branch does to each dictionary, the frame conditions, and "a pending approval is decided at most once" over any sequence of messages.
- `bot.dfy` (module `MessageHandler`): class `Bot`.
  - The four dictionaries and the outbox are fields.
  - `HandleMessage` and its per-branch methods update them in place, with the same early returns as the source.
  - Each method is proved to produce exactly the state `Step` (or the corresponding branch function) describes, and `HandleMessage` keeps `Valid`.

Outgoing texts are a datatype of message kinds carrying the values they interpolate. The Indonesian wording is not modelled.

Four behaviours of `index.js` that a reader might not expect, all kept by the model:
- An overtime or leave request goes to the supervisor straight after the reason (lines 299-329). Approval sends the requester the form link and does not change the requester's flow (lines 158-171). There are no start-time, end-time, photo, duration or report steps.
- `isApprovalNo` matches `tidak`, `ga` and `gak` only as the whole reply (line 76). Inside a longer reply they are not a rejection, so `gak mau` and `tidak mau` are undecided (`RejectionWordWithMore`). Separately, yes is tested before no (line 162), so any reply containing `setuju` or `approve` approves, `tidak setuju` and `setuju tolak` included (`ApproveKeywordAnywhere`, `AgreeRefuseApproves`).
- An instruction's entry in `helpdeskInstruksiMap` is never deleted (lines 131-144), so the group can answer the same instruction again (`GroupAnswerRepeatable`).
- A sender can be in the request flow and the helpdesk flow at once. A group answer to an old instruction puts a user who is back in the request menu into the helpdesk flow as well (line 142, `BothFlowsPossible`). Direct messages never cause this (`DirectKeepsApart`).

## Model

| member | source | states |
|---|---|---|
| `Text.Digits` | index.js:69 | `hanyaAngka`: the result consists of digits only and is no longer than the input |
| `Text.DigitsKeepsEveryDigit` | index.js:69 | every digit occurs in the result exactly as often as in the input, and no other character occurs |
| `Text.DigitsAppend` | index.js:69 | the filter works piecewise, so the digits are kept in their original order |
| `Text.DigitsIdempotent` | index.js:69 | filtering twice is filtering once |
| `Text.Trim` | index.js:71 | `String.prototype.trim`: drops the leading and trailing ECMAScript whitespace and line terminators |
| `Text.Lower` | index.js:71 | `toLowerCase` on ASCII: same length, each letter `A`-`Z` lowered, every other character kept |
| `Text.Normalize` | index.js:259 | `trim().toLowerCase()`, the form in which every command and reply is compared |
| `Text.TrimSplits` | index.js:71 | `trim()` removes exactly a whitespace prefix and suffix; the result neither starts nor ends with whitespace |
| `Text.TrimFixesTrimmed` | index.js:71 | `trim()` leaves a string with no whitespace at either end unchanged |
| `Text.TrimLowerCommute` | index.js:71 | trimming and lower-casing commute |
| `Text.NormalizeIsNormal` | index.js:71 | `trim().toLowerCase()` is a normal form: applying it again changes nothing |
| `Decision.IsApprovalYes` | index.js:70-73 | `isApprovalYes`: the normalised reply is exactly `1`, `setuju`, `ya` or `y`, or contains `setuju` or `approve` |
| `Decision.IsApprovalNo` | index.js:74-77 | `isApprovalNo`: the normalised reply is exactly `2`, `tidak`, `ga` or `gak`, or contains `tolak` or `reject` |
| `Decision.Classify` | index.js:162-177 | how the handler reads a supervisor's reply: yes is tested before no, and a reply that passes neither is undecided |
| `Decision.ClassifyIgnoresCase` | index.js:70-77 | the decision does not depend on the case of ASCII letters |
| `Decision.ClassifyIgnoresSurroundingSpace` | index.js:70-77 | the decision does not depend on surrounding whitespace |
| `Decision.ApproveKeywordAnywhere` | index.js:162-171 | `setuju` or `approve`, in any case and anywhere in the reply, approves, even when the reply also passes `isApprovalNo`, because yes is tested first |
| `Decision.RejectKeywordAnywhere` | index.js:76 | `tolak` or `reject` anywhere makes `isApprovalNo` hold, so the reply is a decision |
| `Decision.AgreeRefuseApproves` | index.js:162-171 | `setuju tolak` passes `isApprovalNo` and is still an approval |
| `Decision.ExactRejectionWord` | index.js:76 | the exact word `gak` rejects |
| `Decision.RejectionWordWithMore` | index.js:76 | `gak mau` is neither approval nor rejection: the short rejection words only match exactly |
| `Directory.FirstWhere` | index.js:82 | `find`: the index returned is the first record the predicate accepts; no result means no record is accepted |
| `Directory.FindByPhone` | index.js:79-83 | `cariPegawaiByWa`: the first record whose phone (empty if missing) equals the digits; none exactly when no record has that phone |
| `Directory.FindSupervisor` | index.js:85-88 | `cariAtasanPegawai`: none for no employee; otherwise the first record whose phone field is `===` the supervisor field; none exactly when no record matches |
| `Directory.MissingSupervisorFieldMatchesMissingPhone` | index.js:87 | a missing supervisor field matches the first record with a missing phone (`undefined === undefined`) |
| `Conversation.IsGroupChat` | index.js:119 | a chat is a group exactly when its id ends with `@g.us` |
| `Conversation.SupervisorChat` | index.js:311 | the supervisor's chat is their phone field (empty if missing) followed by `@c.us`; it is never a group chat, so the supervisor's reply is routed as a direct message |
| `Conversation.Step` | index.js:116-342 | one inbound message: group messages go to `OnGroup`, a quote of a pending approval to `OnDecision`, everything else to `OnDirect` |
| `Conversation.OnGroup` | index.js:125-150 | only a helpdesk-group quote of a known instruction acts: it sends the answer and the follow-up menu to the user, sets the user's helpdesk step to follow-up and acknowledges in the group |
| `Conversation.OnDecision` | index.js:158-181 | approve or reject notifies the requester and the supervisor and deletes the pending entry; an undecided reply only re-prompts the supervisor |
| `Conversation.OnDirect` | index.js:186-190 | a sender not in the directory, or already in helpdesk mode, goes to `OnHelpdesk`; a listed employee goes to `OnInternal` |
| `Conversation.OnHelpdesk` | index.js:190-255 | the helpdesk dialogue: identity, question (posted to the group with an instruction whose id is recorded), waiting, follow-up and schedule |
| `Conversation.OnInternal` | index.js:257-335 | the request menu: start or restart on `menu`, choose overtime, leave or helpdesk, give the reason, or get the unknown-command reply while waiting |
| `Conversation.OnReason` | index.js:299-329 | the reason step: without a supervisor the flow is dropped; otherwise the flow waits for approval and the request sent to the supervisor is recorded as pending under its id |
| `ConversationProperties.InitialValid` | index.js:24-33 | the empty dictionaries satisfy the invariant |
| `ConversationProperties.GroupPreservesValid` | index.js:125-150 | group handling keeps the invariant and only appends to the outbox |
| `ConversationProperties.DecisionPreservesValid` | index.js:153-184 | a supervisor decision keeps the invariant |
| `ConversationProperties.HelpdeskPreservesValid` | index.js:190-255 | the helpdesk flow keeps the invariant; the new instruction entry points at the instruction just posted |
| `ConversationProperties.QuestionPreservesValid` | index.js:206-222 | the question step keeps the invariant: the new instruction entry points at the instruction just posted to the group, and the sender waiting for an answer has it |
| `ConversationProperties.FollowupPreservesValid` | index.js:224-245 | the follow-up step keeps the invariant |
| `ConversationProperties.ReasonPreservesValid` | index.js:299-329 | the reason step keeps the invariant; the new pending approval is keyed by the request just sent to the supervisor |
| `ConversationProperties.InternalPreservesValid` | index.js:257-335 | the internal flow keeps the invariant; every flow it writes carries the fields of its step |
| `ConversationProperties.StepPreservesValid` | index.js:116-342 | every message keeps the invariant, and sent messages keep their ids |
| `ConversationTransitions.GroupEffect` | index.js:125-150 | only a quote reply in the helpdesk group to a known instruction does anything: the answer and the follow-up menu go to the user, the user's helpdesk step becomes follow-up, and the instruction entry stays; every other group message changes nothing |
| `ConversationTransitions.GroupAnswerRepeatable` | index.js:131-144 | the instruction entry is not consumed, so the same quote is answered again |
| `ConversationTransitions.DecisionEffect` | index.js:158-181 | approval or rejection notifies both parties and deletes the pending entry; any other reply only re-prompts the supervisor; request flows and the helpdesk tables never change |
| `ConversationTransitions.DecisionConsumesIff` | index.js:158-181 | the quoted pending entry is gone after the message exactly when the reply was recognised |
| `ConversationTransitions.ReplayFallsThrough` | index.js:153-187 | replaying a decided quote is no longer a decision and goes through ordinary routing |
| `ConversationTransitions.HelpdeskEffect` | index.js:191-254 | no entry becomes identity; identity becomes question; waiting for an answer ignores input; scheduling deletes the entry |
| `ConversationTransitions.HelpdeskFrame` | index.js:190-255 | the helpdesk flow changes only the sender's helpdesk entry; request flows and pending approvals are untouched; every existing instruction entry keeps its chat |
| `ConversationTransitions.QuestionForwardsOnce` | index.js:206-222 | the question step sends the question to the group, then the instruction, then the sender's confirmation, in that order; it adds exactly one new instruction entry, under the fresh id of the instruction, mapped to the sender |
| `ConversationTransitions.FollowupEffect` | index.js:224-245 | follow-up: `selesai` anywhere deletes the entry, `1` goes back to question, `2` goes to scheduling, and anything else only re-prompts |
| `ConversationTransitions.FinishedAnywhere` | index.js:226-227 | `selesai` in any case and surrounded by anything ends the helpdesk session |
| `ConversationTransitions.MenuReset` | index.js:260-272 | with no flow, or on `menu`, the flow becomes exactly the menu step with the looked-up employee; earlier kind, reason and supervisor are dropped |
| `ConversationTransitions.MenuChoice` | index.js:275-296 | at the menu: `1` or `2` sets the step and the kind; `3` deletes the flow and starts the helpdesk at question; anything else only re-prompts |
| `ConversationTransitions.ReasonWithoutSupervisor` | index.js:299-307 | with no supervisor found the flow is deleted and no approval is added |
| `ConversationTransitions.ReasonSendsRequest` | index.js:309-329 | with a supervisor the flow waits with the reason and supervisor, and exactly one fresh pending approval with the sender and kind is added under the id of the supervisor's message |
| `ConversationTransitions.ReasonFrame` | index.js:299-329 | the reason step leaves other senders' flows, the helpdesk and the instruction entries alone, keeps every pending approval and adds only ids not yet sent |
| `ConversationTransitions.InternalFrame` | index.js:257-335 | the internal flow changes only the sender's request flow; it changes the sender's helpdesk entry only when the sender leaves for the helpdesk |
| `ConversationTransitions.HelpdeskModeKeepsRequests` | index.js:188-190 | a sender in helpdesk mode never changes the request flows, even when listed in the directory |
| `ConversationTransitions.StepKeepsRegistered` | index.js:187-190 | request flows exist only for senders the directory lists |
| `ConversationTransitions.DirectKeepsApart` | index.js:190-292 | a direct message never leaves anyone in both flows |
| `ConversationTransitions.HelpdeskKeepsApart` | index.js:190-255 | the helpdesk flow, entered by a sender with no request flow or already in it, leaves nobody in both flows |
| `ConversationTransitions.InternalKeepsApart` | index.js:257-335 | the internal flow leaves nobody in both flows; choice `3` drops the flow as it enters the helpdesk |
| `ConversationTransitions.BothFlowsPossible` | index.js:142 | a group answer to an old instruction can leave a user in both flows |
| `ConversationTransitions.ForwardsOnlyGrow` | index.js:131-144 | instruction entries are never deleted or rewritten |
| `ConversationTransitions.HelpdeskForwardsGrow` | index.js:206-222 | the helpdesk flow keeps every instruction entry with its chat |
| `ConversationTransitions.NewApprovalsAreFresh` | index.js:319-326 | a message adds pending approvals only under ids of messages it sends itself |
| `ConversationTransitions.InternalApprovalsFresh` | index.js:319-326 | the internal flow adds pending approvals only under fresh ids |
| `ConversationTransitions.ConsumedKeyNeverReturns` | index.js:180 | once a pending approval is consumed, no later sequence of messages brings it back, so a decision is acted on at most once |
| `MessageHandler.Bot.constructor` | index.js:24-33 | all four dictionaries start empty, and the invariant holds |
| `MessageHandler.Bot.Send` | index.js:90-102 | a send appends one message, returns its fresh id, and changes nothing else |
| `MessageHandler.Bot.HandleMessage` | index.js:116-342 | the in-place handler leaves exactly the state `Step` describes, and keeps the invariant |
| `MessageHandler.Bot.HandleGroup` | index.js:125-150 | in place, exactly `OnGroup` |
| `MessageHandler.Bot.HandleDecision` | index.js:153-184 | in place, exactly `OnDecision` with the yes-before-no classification |
| `MessageHandler.Bot.HandleHelpdesk` | index.js:190-255 | in place, exactly `OnHelpdesk` on the trimmed, lower-cased body |
| `MessageHandler.Bot.HandleFollowup` | index.js:224-245 | in place, exactly the follow-up branch of `OnHelpdesk` |
| `MessageHandler.Bot.HandleInternal` | index.js:257-335 | in place, exactly `OnInternal` |
| `MessageHandler.Bot.HandleCommand` | index.js:260-335 | in place, exactly `OnInternal` for a given normalised command; the checks at lines 261 and 334 are asserted never to hold |
| `MessageHandler.Bot.HandleReason` | index.js:299-329 | in place, exactly `OnReason` for the supervisor `HandleCommand` looked up (line 301); the flow is written before the supervisor's message is sent |

## Left out

- The WhatsApp client: session, QR pairing, and the `ready`/`disconnected` events (index.js:105-113). This is an external library.
- `kirimDenganTyping` (index.js:90-102): the typing indicator, the random 1-3 second delay and the swallowed send errors. A send is modelled as an infallible append to the outbox. What this leaves out: the two direct `client.sendMessage` calls (lines 213 and 319) are outside that `try`, so a failure at line 319 would leave the requester at `menunggu-persetujuan`, written at line 309, with no pending approval; only `menu` gets them out. A failure at line 213 would leave the sender at `pertanyaan` with the question posted but no instruction entry. `client.sendMessage`'s serialized id is modelled as the message's index in the outbox.
- Console and file logging (index.js:36-54). This is I/O with no effect on the state.
- Loading the JSON database (index.js:57-66) and the `./config` constants. The directory is a fixed sequence. A database whose `Internal` is missing or not an array behaves as an empty directory. The group id is a parameter. The form URLs are represented by the kind of the approval message.
- Directory fields whose JSON values are not strings (numbers, for example). Fields are a string or missing.
- Error plumbing.
  - The outer `try/catch` and its apology message (index.js:336-341).
  - Failures of `getQuotedMessage` (index.js:146, 183).
  - The process-level handlers (index.js:345-354).
  - A quote of a message the bot did not send is modelled as an id that is not a key of either table.
- Concurrency between handler invocations. Each message is processed atomically, as one step.
- `message._data.notifyName` (index.js:209). It appears only in the text of the group question.
- Unicode case mapping beyond ASCII in `toLowerCase`. Only `A`-`Z` are lowered.
- JavaScript object-key quirks of the dictionaries, such as a chat id equal to an inherited property name like `constructor`. The dictionaries are modelled as maps.
- A body that is not a string. `message.body` is always a string here, so `(text || '')` makes no difference.
