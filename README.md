# WhatsApp giveaway bot: contact ledger, capped campaign sender, keyword responder

The bot keeps a ledger of contacts. Each contact has a name, a number and two flags, `sent` and
`responded`. At start-up it sets one timer for each of the first five contacts not yet sent to.
When a timer fires, the bot sends one campaign message, provided that the per-run cap of five
(`MAX_MESSAGES`) has not been reached. Separately, it auto-replies once to any known contact
whose message contains an interest keyword. This project models that logic of `bot.js` in
Dafny and proves what the code promises about it.

Modules, one per part of the program:

- `Config`: the constants of bot.js: the cap, the one-hour base gap, the half-hour jitter
  span, the `@c.us` suffix and the fourteen interest keywords.
- `Text`: the JavaScript `includes` (substring) and `toLowerCase` operations.
- `Contacts`: the contact record, one CSV row, and the ingestion row filter. `LoadContacts` is
  the row-by-row push loop.
- `Scheduler`: the campaign plan. It selects the unsent contacts, keeps the first five in list
  order, and gives each a delay.
- `Sender`: the state machine behind `sendToContact` and the timers. It works on a `Session`
  (the contact list, `messageCount` and `stopSending`). `SendStep`, `FireTimer` and `Run` are
  pure functions over a session. The lemmas about runs of timers are stated over this state.
- `Responder`: the sender lookup, the keyword test and one reply step (`RespondStep`).
  `RespondAll` applies the responder to a sequence of messages, as the start-up drain does. Its
  result (`Drain`) holds the new list, the contacts replied to and the copies of contacts.json
  that the replies wrote.
- `Seqs`: one sequence fact that the drain loop uses.
- `Process`: the class `Bot`, whose fields are the module-level state of bot.js: `contacts`,
  `messageCount` and `stopSending`. It also has `ledger`, the contents of contacts.json, and
  `backups`, the backup snapshots. Its methods update these fields in place, and each method's
  postcondition ties the new state to the matching pure function. The class invariant
  `Valid()` says that the counter never passes the cap and that the latch is set exactly when
  the counter has reached it.

A contact is named by its position in the contact list. In bot.js the timers' closures and the
`find` result are references to the objects inside that list, so a position plays the same role.

The messaging client is represented only by outcomes passed in as parameters:

- `Attempt` for one campaign send: `isRegisteredUser` says no (`NotRegistered`), one of the
  client calls throws (`Threw`), or the message goes out (`Delivered`).
- `replyOk` for one auto-reply.
- The unread messages given to the drain.

`Math.random` is modelled as the jitter values passed to `PlanBatch`. The file system is
modelled by the `ledger` and `backups` fields.

In these points the code behaves differently from what a reader might assume, and the model
follows the code:

- The comment at bot.js:119 reads `// 1–1.5 hr gap`, but the delay of the `i`-th planned send is
  `i * (3600000 + jitter)`. The gap between neighbours is not fixed at one to one and a half
  hours: the delay lies in `[i*3600000, i*5399999]`. Delays are not always increasing:
  `Delay(4, 0) = 14400000` is smaller than `Delay(3, 1799999) = 16199997`, so the fifth send
  can fire before the fourth (`FifthCanPrecedeFourth`). The first four do fire in order
  (`DelaysIncreaseUpToFourth`).
- In the campaign path `sendPresenceAvailable` sits inside the `try` (bot.js:144). If it
  throws, the send is abandoned and nothing is recorded (`Threw`). Its errors are not ignored.
- The CSV ingestion writes contacts.json but takes no backup (bot.js:39).
- The counter and the latch start from zero on every run, whatever `sent` flags the ledger
  already holds (`Process.Bot.constructor`). Auto-replies are not limited by the cap
  (`Process.Bot.HandleIncoming` leaves `messageCount` and `stopSending` alone).
- The sender lookup is a plain substring test of the contact's number against the sender
  address. No normalisation is applied. Keyword matching is also a plain substring test, so
  "Book" counts as interested through "ok" (`BookIsInterested`).

## Model

| member | source | states |
|---|---|---|
| `Text.Lower` | bot.js:88 | lowercasing keeps the length and lowers each character in place |
| `Text.LowerIdempotent` | bot.js:88 | lowering an already lowered body changes nothing |
| `Text.ContainsSuffix` | bot.js:134 | a string contains whatever was just appended to it |
| `Contacts.Ingest` | bot.js:33-37 | every ingested contact has a non-empty number and both flags false, and no more contacts come out than rows went in |
| `Contacts.IngestAppend` | bot.js:33-37 | ingestion works row by row: the contacts of two batches of rows are those of the first followed by those of the second |
| `Contacts.IngestSplit` | bot.js:34-36 | an accepted row's record (`name` or `''`, the number, flags false) sits between the contacts of the earlier and the later rows; a row with no number leaves no trace |
| `Contacts.IngestLength` | bot.js:34-35 | one contact per row that has a number |
| `Contacts.LoadContacts` | bot.js:30-37 | the push loop over the CSV rows builds exactly the ingested contact list |
| `Scheduler.Unsent` | bot.js:111 | the positions returned are exactly those of the unsent contacts, strictly increasing |
| `Scheduler.Selected` | bot.js:117 | the slice is the first `min(5, unsent count)` unsent positions |
| `Scheduler.Delay` | bot.js:119 | index 0 gets delay 0; the delay at index `i` lies in `[i*3600000, i*5399999]` |
| `Scheduler.PlanBatch` | bot.js:110-124 | at most 5 timers, one per selected contact, each targeting an unsent contact, in list order (the `k`-th targets the `k`-th unsent contact), delayed by `Delay(k, jitter_k)` |
| `Scheduler.UnplannedComeLater` | bot.js:111-117 | an unsent contact left out of the plan comes after every planned one, and only when the batch is full |
| `Scheduler.AllPlannedUnderCap` | bot.js:111-117 | when fewer than 5 contacts are unsent, every one of them is planned |
| `Scheduler.DelaysIncreaseUpToFourth` | bot.js:119 | for any jitters, the delays at indices 0 to 3 strictly increase |
| `Scheduler.FifthCanPrecedeFourth` | bot.js:119 | with jitters 1799999 and 0, the timer at index 4 fires before the timer at index 3 |
| `Sender.Start` | bot.js:44-47 | a fresh process starts with the stored list, counter 0 and the latch clear, which satisfies the session invariant |
| `Sender.ChatId` | bot.js:134 | the chat id always contains `@c.us`; a number that already contains it is returned unchanged; otherwise `@c.us` is appended |
| `Sender.ChatIdIdempotent` | bot.js:134 | normalising twice gives the same result as normalising once |
| `Sender.ChatIdExtendsNumber` | bot.js:134 | the number is always a prefix of its chat id |
| `Sender.SendStep` | bot.js:126-164 | with the cap reached it latches and changes nothing else; an unregistered target or a thrown error changes nothing; a delivery sets exactly the target's `sent`, adds one to the counter and latches once the cap is reached; the session invariant is preserved |
| `Sender.FireTimer` | bot.js:120-122 | a timer that fires while latched sends nothing and changes nothing; otherwise it is a `sendToContact` call; the list changes only by flagging the target, and exactly when a message went out |
| `Sender.Run` | bot.js:118-122 | over any sequence of timer firings the counter never decreases, the latch is never reset, the session invariant is kept, `sent` flags only go from false to true, and nothing else in a contact changes |
| `Sender.RunCountsSends` | bot.js:127-159 | the number of messages that went out equals the counter's increase, so a run sends at most `MAX_MESSAGES` minus the starting count |
| `Sender.RunSentFlags` | bot.js:118-159 | after any run of timer firings, a contact is flagged sent exactly when it already was or some timer aimed at it reported a delivery |
| `Sender.LatchedRunIsInert` | bot.js:121 | once latched, every later timer is cancelled and the session stays exactly as it is |
| `Sender.DeliverFromStart` | bot.js:148-160 | from a fresh session, delivering to up to 5 contacts flags exactly those contacts, sets the counter to their number, and latches exactly at 5 |
| `Sender.PastCapNotPlanned` | bot.js:117 | with more unsent contacts than the cap, the first unsent contact past the cap gets no timer |
| `Sender.DistinctTimersSendOnce` | bot.js:120-159 | timers aimed at distinct contacts that were all unsent, fired in any order whatever the client does: each delivery goes to a contact still unsent when its timer fires, and the contacts flagged at the end are exactly those with a delivered timer |
| `Sender.PlannedTimersSendOnce` | bot.js:110-159 | the campaign's timers, each aimed at a different planned contact, fired in any order (the fifth may fire before the fourth) and whatever the client does: every delivery goes to a contact unsent at the start and still unsent when its timer fires, so no contact gets a second campaign message, and the contacts flagged at the end are exactly those with a delivered timer |
| `Sender.CampaignFromStart` | bot.js:110-164 | a fresh run whose planned timers all deliver, firing in any order (any permutation of the plan's targets), flags exactly the planned contacts and counts one message each; with more unsent contacts than the cap, it ends latched and the first unsent contact past the cap stays unsent |
| `Responder.FindContact` | bot.js:89 | returns the first contact whose number occurs in the sender address, and none exactly when no number does |
| `Responder.FindContactReadsNumbers` | bot.js:89 | the lookup depends only on the numbers, so updating flags never changes who a sender is |
| `Responder.RespondStep` | bot.js:86-108 | an unknown sender changes nothing; a reply happens exactly when the sender is known, not yet responded, the lowercased body contains a keyword and the send goes through; a reply sets only that contact's `responded` |
| `Responder.SecondMessageNoReply` | bot.js:93-99 | after one reply, a second message from the same sender gets none, whatever it says |
| `Responder.DrainStep` | bot.js:60-61 | the bot's own message is skipped; any other goes through the responder; a reply adds exactly one copy of contacts.json, the new list, and no reply leaves list and copies alone |
| `Responder.RespondAll` | bot.js:56-62 | the drain skips the bot's own messages and changes nothing in a contact except `responded`; it writes one copy of contacts.json per reply, the last of them being the list as the drain leaves it |
| `Responder.DrainOnEmptyList` | bot.js:89-91 | with no contacts loaded every sender is unknown, so the drain replies to nobody and writes nothing |
| `Responder.DrainStepRepliesOnce` | bot.js:93-99 | handling one more message keeps `RepliedOnce`: a reply only goes to a contact not yet responded to |
| `Responder.RespondAllRepliesOnce` | bot.js:93-99 | over any message sequence handled one after another (`RepliedOnce`): a contact gets at most one auto-reply; each contact replied to had not been responded to before; `responded` ends true exactly for contacts that had it or got a reply |
| `Responder.KeywordAt` | bot.js:93 | a keyword found anywhere in the lowercased body makes the message interested |
| `Responder.OkLetsGoIsInterested` | bot.js:17-20 | the body "ok let's go" counts as interested |
| `Responder.BookIsInterested` | bot.js:93 | "Book" counts as interested, because the match is a plain substring test |
| `Responder.InterestedIgnoresCase` | bot.js:88 | a body and its lowercased form count as interested alike |
| `Process.Bot.constructor` | bot.js:44-47 | loads the stored list (empty when there is no contacts.json) with the counter at 0 and the latch clear, whatever the stored `sent` flags |
| `Process.Bot.Persist` | bot.js:24-27 | contacts.json is rewritten with the whole list and one backup snapshot is appended |
| `Process.Bot.SendToContact` | bot.js:126-164 | the new state is `SendStep` of the old one; a delivery rewrites the ledger and adds one backup; every other outcome leaves both alone |
| `Process.Bot.FireTimer` | bot.js:120-122 | the new state is `FireTimer` of the old one |
| `Process.Bot.HandleIncoming` | bot.js:86-108 | the new list is `RespondStep` of the old one; the counter and the latch are untouched; a reply rewrites the ledger and adds one backup |
| `Process.Bot.DrainUnread` | bot.js:56-64 | the new list and the replies are `RespondAll` over the unread messages; the backups gain exactly the copies of contacts.json the replies wrote, in order, and contacts.json holds the last of them (unchanged when nobody got a reply) |
| `Process.Bot.OnReady` | bot.js:53-74 | drains first, then ingests the CSV rows only if the list is still empty, and returns `PlanBatch` of the resulting list; on an empty list the drain replies to nobody, contacts.json becomes the ingested list and no backup is taken; otherwise contacts.json and the backups are as the drain left them |

## Left out

- The messaging client is not modelled: `initialize`, the QR display, the `auth_failure` and
  `disconnected` handlers, `getChats`, `fetchMessages`, `sendPresenceAvailable`,
  `isRegisteredUser` and `sendMessage` are a foreign library (bot.js:2, 49-84, 166). Their
  results enter only as `Attempt`, `replyOk` and the list of unread messages.
- Real file I/O is not modelled: existence checks, directory creation, JSON encoding and
  decoding, and timestamped backup names (bot.js:22-27, 39, 44, 100-101, 152-153). contacts.json
  is the `ledger` field and the backups folder is the `backups` sequence. A failing write is
  not modelled. In the source, such a failure after a delivery would skip the latch at
  bot.js:157-160; the next call would still latch at bot.js:127-130.
- CSV stream parsing is not modelled (bot.js:31-32, 38-41). Ingestion starts from the parsed
  rows, with a missing column as `None`.
- Timers and `await` are not modelled as concurrency. Timer firings and messages are taken as
  sequential steps, in an order given by the caller (`Run`, `RespondAll`). With real
  interleaving, two sends suspended at bot.js:137-148 could both pass the cap check, so the
  bound on `messageCount` is proved for the sequential reading only.
- `Responder.RespondAllRepliesOnce` and `Responder.SecondMessageNoReply`: the once-per-contact
  reply is also proved for the sequential reading only. The `message` handler is registered
  without awaiting (bot.js:84), and `handleIncomingMessage` waits 1.5 s (bot.js:96) between the
  `responded` check (bot.js:93) and setting it (bot.js:99). Two qualifying messages from one contact that arrive
  within that window both get the main message in bot.js.
- The template pick (bot.js:147) is not modelled, because the pool has one message. The text of
  the campaign and reply messages is not modelled either.
- `Text.Lower` lowers only the ASCII letters A to Z and keeps every other character. JavaScript's
  `toLowerCase` also maps non-ASCII characters, and some of them to ASCII letters: the KELVIN
  SIGN U+212A becomes `k`, so the body "O" followed by U+212A matches the keyword "ok" in bot.js
  but not in the model. It can also change the length: U+0130 becomes two UTF-16 code units. So
  the model's keyword test agrees with bot.js only on bodies without such characters.
- The drain is given the unread messages of all chats as one sequence. Reading them chat by
  chat with `unreadCount` is not modelled.
- `console` logging is not modelled.
