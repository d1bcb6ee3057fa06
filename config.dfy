/** The static configuration at the top of bot.js. */
module Config {
  /** Campaign messages sent per process run (bot.js:46). */
  const MAX_MESSAGES: nat := 5

  /** The fixed part of the stagger between planned sends: one hour in milliseconds (bot.js:119). */
  const BASE_GAP_MS: nat := 3600000

  /** The random part of the stagger is drawn from [0, JITTER_SPAN_MS): half an hour (bot.js:119). */
  const JITTER_SPAN_MS: nat := 1800000

  /** The suffix that turns a phone number into a chat id (bot.js:134). */
  const CHAT_SUFFIX: string := "@c.us"

  /** The keywords that mark an inbound message as interested (bot.js:17-20). */
  const INTEREST_KEYWORDS: seq<string> := [
    "interested", "i am interested", "haan", "send", "i'm in",
    "yes", "ok", "sure", "ready", "lets go", "done", "done it", "joined", "ho gaya"
  ]
}
