/** The bot process: the module-level state of bot.js and the handlers that update it in place. */
module Process {
  import opened Config
  import opened Text
  import opened Contacts
  import opened Scheduler
  import opened Sender
  import opened Responder
  import opened Seqs

  class Bot {
    /** The in-memory contact list (`contacts`, bot.js:44). */
    var contacts: seq<Contact>
    /** Campaign messages sent in this run (`messageCount`, bot.js:45). */
    var messageCount: nat
    /** The latch that cancels every pending timer (`stopSending`, bot.js:47). */
    var stopSending: bool
    /** What contacts.json holds: rewritten wholesale after every mutation. */
    var ledger: seq<Contact>
    /** The backups folder, oldest snapshot first: one copy of contacts.json per mutation. */
    var backups: seq<seq<Contact>>

    /** The session part of the state, as the sender's model sees it. */
    function State(): Session
      reads this
    {
      Session(contacts, messageCount, stopSending)
    }

    ghost predicate Valid()
      reads this
    {
      SessionOk(State())
    }

    /** Process start (bot.js:44-47): contacts.json's list, or the empty list when there is no such
        file; the counter and the latch start afresh whatever the `sent` flags say. */
    constructor (stored: seq<Contact>)
      ensures Valid()
      ensures State() == Start(stored)
      ensures ledger == stored && backups == []
    {
      contacts := stored;
      messageCount := 0;
      stopSending := false;
      ledger := stored;
      backups := [];
    }

    /** Write contacts.json and copy it into the backups folder. */
    method Persist()
      modifies this`ledger, this`backups
      ensures ledger == contacts && backups == old(backups) + [contacts]
    {
      ledger := contacts;
      backups := backups + [ledger];
    }

    /** `sendToContact` for the contact at position `k`, the client behaving as `attempt`. */
    method SendToContact(k: nat, attempt: Attempt) returns (outcome: SendOutcome)
      requires Valid() && k < |contacts|
      modifies this
      ensures Valid()
      ensures (State(), outcome) == SendStep(old(State()), k, attempt)
      ensures outcome.Sent? ==> ledger == contacts && backups == old(backups) + [contacts]
      ensures !outcome.Sent? ==> ledger == old(ledger) && backups == old(backups)
    {
      if messageCount >= MAX_MESSAGES {
        stopSending := true;
        return LimitReached;
      }
      var chatId := ChatId(contacts[k].number);
      if attempt == NotRegistered {
        return Invalid(chatId);
      }
      if attempt == Threw {
        return Failed(chatId);
      }
      contacts := contacts[k := contacts[k].(sent := true)];
      messageCount := messageCount + 1;
      Persist();
      if messageCount >= MAX_MESSAGES {
        stopSending := true;
      }
      outcome := Sent(chatId);
    }

    /** A timer set by `scheduleAllMessages` firing for the contact at position `k`. */
    method FireTimer(k: nat, attempt: Attempt) returns (outcome: SendOutcome)
      requires Valid() && k < |contacts|
      modifies this
      ensures Valid()
      ensures (State(), outcome) == Sender.FireTimer(old(State()), k, attempt)
      ensures outcome.Sent? ==> ledger == contacts && backups == old(backups) + [contacts]
      ensures !outcome.Sent? ==> ledger == old(ledger) && backups == old(backups)
    {
      if !stopSending {
        outcome := SendToContact(k, attempt);
      } else {
        outcome := Cancelled;
      }
    }

    /** `handleIncomingMessage`: replies are not gated by the cap, and leave the session counters alone. */
    method HandleIncoming(from: string, body: string, replyOk: bool) returns (reply: Reply)
      requires Valid()
      modifies this
      ensures Valid()
      ensures (contacts, reply) == RespondStep(old(contacts), from, body, replyOk)
      ensures messageCount == old(messageCount) && stopSending == old(stopSending)
      ensures reply.Replied? ==> ledger == contacts && backups == old(backups) + [contacts]
      ensures !reply.Replied? ==> ledger == old(ledger) && backups == old(backups)
    {
      var text := Lower(body);
      var found := FindContact(contacts, from);
      if found.None? {
        return UnknownSender;
      }
      var k := found.value;
      if !contacts[k].responded && MentionsKeyword(text) {
        if !replyOk {
          return ReplyFailed(k);
        }
        contacts := contacts[k := contacts[k].(responded := true)];
        Persist();
        reply := Replied(k);
      } else {
        reply := NoReply(k);
      }
    }

    /** The drain at start-up (bot.js:56-64): the unread messages, chat by chat and oldest first,
        through the responder, the bot's own skipped. Returns the contacts replied to, in order. */
    method DrainUnread(msgs: seq<Inbound>, replyOks: seq<bool>) returns (replied: seq<nat>)
      requires Valid() && |replyOks| == |msgs|
      modifies this
      ensures Valid()
      ensures contacts == RespondAll(old(contacts), msgs, replyOks).contacts
      ensures replied == RespondAll(old(contacts), msgs, replyOks).replied
      ensures messageCount == old(messageCount) && stopSending == old(stopSending)
      // every reply rewrote contacts.json and added that copy to the backups
      ensures ledger == if replied == [] then old(ledger) else contacts
      ensures backups == old(backups) + RespondAll(old(contacts), msgs, replyOks).snapshots
    {
      ghost var start, saved := contacts, backups;
      ghost var snaps: seq<seq<Contact>> := [];
      replied := [];
      var i := 0;
      while i < |msgs|
        invariant 0 <= i <= |msgs|
        invariant Valid()
        invariant Drain(contacts, replied, snaps) == RespondAll(start, msgs[..i], replyOks[..i])
        invariant messageCount == old(messageCount) && stopSending == old(stopSending)
        invariant ledger == if replied == [] then old(ledger) else contacts
        invariant backups == saved + snaps
      {
        var msg := msgs[i];
        DrainSnoc(start, msgs, replyOks, i);
        if !msg.fromMe {
          var reply := HandleIncoming(msg.from, msg.body, replyOks[i]);
          if reply.Replied? {
            replied := replied + [reply.index];
            AppendAssoc(saved, snaps, contacts);
            snaps := snaps + [contacts];
          }
        }
        i := i + 1;
      }
      assert msgs[..i] == msgs && replyOks[..i] == replyOks;
    }

    /** The `ready` handler (bot.js:53-74): drain the unread messages, ingest contacts.csv when the
        list is still empty (writing contacts.json, no backup), then plan the campaign. */
    method OnReady(unread: seq<Inbound>, replyOks: seq<bool>, rows: seq<Row>, jitters: seq<Jitter>)
      returns (replied: seq<nat>, plan: seq<PlannedSend>)
      requires Valid() && |replyOks| == |unread| && |jitters| >= MAX_MESSAGES
      modifies this
      ensures Valid()
      ensures messageCount == old(messageCount) && stopSending == old(stopSending)
      ensures var drained := RespondAll(old(contacts), unread, replyOks);
              && replied == drained.replied
              && contacts == (if drained.contacts == [] then Ingest(rows) else drained.contacts)
      ensures plan == PlanBatch(contacts, jitters)
      // ingestion writes contacts.json and takes no backup; otherwise the drain's writes stand
      ensures old(contacts) == [] ==> replied == [] && ledger == Ingest(rows) && backups == old(backups)
      ensures old(contacts) != [] ==> ledger == if replied == [] then old(ledger) else contacts
      ensures backups == old(backups) + RespondAll(old(contacts), unread, replyOks).snapshots
    {
      replied := DrainUnread(unread, replyOks);
      ghost var drained := RespondAll(old(contacts), unread, replyOks);
      if |contacts| == 0 {
        DrainOnEmptyList(unread, replyOks);
        contacts := LoadContacts(rows);
        ledger := contacts;
      } else {
        assert old(contacts) != [] && contacts == drained.contacts;
      }
      plan := PlanBatch(contacts, jitters);
    }
  }
}
