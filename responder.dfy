/** The keyword auto-responder `handleIncomingMessage` (bot.js:86-108) and the drain of unread
    messages at start-up (bot.js:56-64), over the contact list. */
module Responder {
  import opened Wrappers
  import opened Config
  import opened Text
  import opened Contacts

  /** `INTEREST_KEYWORDS.some(k => text.includes(k))`. */
  predicate MentionsKeyword(text: string) {
    exists k :: k in INTEREST_KEYWORDS && Contains(text, k)
  }

  /** The test on a message body: lowercased, then a plain substring check against every keyword. */
  predicate Interested(body: string) {
    MentionsKeyword(Lower(body))
  }

  /** `contacts.find(c => from.includes(c.number))`: the first contact whose number occurs in the
      sender's address. */
  function FindContact(cs: seq<Contact>, from: string): (r: Option<nat>)
    ensures r.None? <==> forall i :: 0 <= i < |cs| ==> !Contains(from, cs[i].number)
    ensures r.Some? ==> r.value < |cs| && Contains(from, cs[r.value].number)
    ensures r.Some? ==> forall i :: 0 <= i < r.value ==> !Contains(from, cs[i].number)
  {
    if cs == [] then None
    else if Contains(from, cs[0].number) then Some(0)
    else
      match FindContact(cs[1..], from)
      case None => None
      case Some(j) => Some(j + 1)
  }

  /** The lookup reads the numbers only: changing flags never changes who a sender is. */
  lemma FindContactReadsNumbers(cs: seq<Contact>, ds: seq<Contact>, from: string)
    requires |cs| == |ds|
    requires forall i :: 0 <= i < |cs| ==> cs[i].number == ds[i].number
    ensures FindContact(cs, from) == FindContact(ds, from)
  {
  }

  /** How one inbound message is handled. */
  datatype Reply =
    | UnknownSender          // no contact matches: ignored
    | NoReply(index: nat)     // already responded, or no keyword
    | ReplyFailed(index: nat) // the client threw: error logged
    | Replied(index: nat)     // the main message went out and the contact is marked responded

  /** One inbound message from `from` with `body`; `replyOk` says whether `sendPresenceAvailable` and
      `sendMessage` go through. */
  function RespondStep(cs: seq<Contact>, from: string, body: string, replyOk: bool): (r: (seq<Contact>, Reply))
    // an unknown sender changes nothing
    ensures FindContact(cs, from).None? ==> r == (cs, UnknownSender)
    // a known sender's reply names that sender's contact
    ensures FindContact(cs, from).Some? ==> !r.1.UnknownSender? && r.1.index == FindContact(cs, from).value
    // a reply happens exactly for a known, not yet responded, interested sender whose reply goes out
    ensures r.1.Replied? <==>
      FindContact(cs, from).Some? && !cs[FindContact(cs, from).value].responded && Interested(body) && replyOk
    // and it only sets that contact's `responded` flag
    ensures r.1.Replied? ==> r.0 == cs[r.1.index := cs[r.1.index].(responded := true)]
    ensures !r.1.Replied? ==> r.0 == cs
  {
    match FindContact(cs, from)
    case None => (cs, UnknownSender)
    case Some(k) =>
      if !cs[k].responded && Interested(body) then
        if replyOk then (cs[k := cs[k].(responded := true)], Replied(k)) else (cs, ReplyFailed(k))
      else (cs, NoReply(k))
  }

  /** After one reply, a second message from the same sender gets none, whatever it says. */
  lemma SecondMessageNoReply(cs: seq<Contact>, from: string, body: string, replyOk: bool,
                             body': string, replyOk': bool)
    requires RespondStep(cs, from, body, replyOk).1.Replied?
    ensures var cs' := RespondStep(cs, from, body, replyOk).0;
            RespondStep(cs', from, body', replyOk') == (cs', NoReply(RespondStep(cs, from, body, replyOk).1.index))
  {
    var cs' := RespondStep(cs, from, body, replyOk).0;
    FindContactReadsNumbers(cs, cs', from);
  }

  /** One message as the client delivers it. */
  datatype Inbound = Inbound(from: string, body: string, fromMe: bool)

  /** Where the drain stands: the contact list, the contacts replied to in order, and the copies of
      contacts.json the replies wrote, one per reply (each is also a backup). */
  datatype Drain = Drain(contacts: seq<Contact>, replied: seq<nat>, snapshots: seq<seq<Contact>>)

  /** One message of the drain: the bot's own is skipped (`if (!msg.fromMe)`), any other goes through
      the responder, and a reply records its contact and the list it wrote. */
  function DrainStep(d: Drain, m: Inbound, replyOk: bool): (r: Drain)
    ensures m.fromMe ==> r == d
    ensures !m.fromMe ==> r.contacts == RespondStep(d.contacts, m.from, m.body, replyOk).0
    ensures |r.replied| - |d.replied| == |r.snapshots| - |d.snapshots| <= 1
    ensures |r.replied| > |d.replied| ==> r.snapshots[|r.snapshots| - 1] == r.contacts
    ensures |r.replied| == |d.replied| ==> r.contacts == d.contacts && r.snapshots == d.snapshots
  {
    if m.fromMe then d
    else
      var (next, reply) := RespondStep(d.contacts, m.from, m.body, replyOk);
      if reply.Replied? then Drain(next, d.replied + [reply.index], d.snapshots + [next])
      else Drain(next, d.replied, d.snapshots)
  }

  /** The responder applied to messages in order, the bot's own skipped; `replyOks[k]` is how the
      reply to the `k`-th would go. */
  function RespondAll(cs: seq<Contact>, msgs: seq<Inbound>, replyOks: seq<bool>): (r: Drain)
    requires |replyOks| == |msgs|
    ensures |r.contacts| == |cs|
    ensures forall i :: 0 <= i < |cs| ==> r.contacts[i] == cs[i].(responded := r.contacts[i].responded)
    // one snapshot per reply, the last one being the list as the drain leaves it
    ensures |r.snapshots| == |r.replied|
    ensures r.snapshots != [] ==> r.snapshots[|r.snapshots| - 1] == r.contacts
    decreases |msgs|
  {
    if msgs == [] then Drain(cs, [], [])
    else
      var n := |msgs| - 1;
      DrainStep(RespondAll(cs, msgs[..n], replyOks[..n]), msgs[n], replyOks[n])
  }

  /** The drain over one more message continues from where it stood. */
  lemma {:induction false} DrainSnoc(cs: seq<Contact>, msgs: seq<Inbound>, replyOks: seq<bool>, i: nat)
    requires |replyOks| == |msgs| && i < |msgs|
    ensures RespondAll(cs, msgs[..i + 1], replyOks[..i + 1])
      == DrainStep(RespondAll(cs, msgs[..i], replyOks[..i]), msgs[i], replyOks[i])
  {
    assert msgs[..i + 1][..i] == msgs[..i] && replyOks[..i + 1][..i] == replyOks[..i];
  }

  /** With no contacts loaded every sender is unknown, so the drain changes nothing and writes nothing. */
  lemma {:induction false} DrainOnEmptyList(msgs: seq<Inbound>, replyOks: seq<bool>)
    requires |replyOks| == |msgs|
    ensures RespondAll([], msgs, replyOks) == Drain([], [], [])
    decreases |msgs|
  {
    if msgs != [] {
      var n := |msgs| - 1;
      DrainOnEmptyList(msgs[..n], replyOks[..n]);
    }
  }

  /** What the drain keeps about the replies, starting from the list `cs`: the contacts replied to
      are distinct, none of them had been responded to in `cs`, and `responded` is true exactly for
      the contacts that had it in `cs` or got a reply. */
  predicate RepliedOnce(cs: seq<Contact>, d: Drain) {
    && |d.contacts| == |cs|
    && (forall a, b :: 0 <= a < b < |d.replied| ==> d.replied[a] != d.replied[b])
    && (forall a :: 0 <= a < |d.replied| ==> d.replied[a] < |cs| && !cs[d.replied[a]].responded)
    && (forall i :: 0 <= i < |cs| ==> d.contacts[i].responded == (cs[i].responded || i in d.replied))
  }

  /** One more message keeps `RepliedOnce`: a reply goes only to a contact not yet responded to. */
  lemma DrainStepRepliesOnce(cs: seq<Contact>, d: Drain, m: Inbound, replyOk: bool)
    requires RepliedOnce(cs, d)
    ensures RepliedOnce(cs, DrainStep(d, m, replyOk))
  {
    if !m.fromMe {
      var (next, reply) := RespondStep(d.contacts, m.from, m.body, replyOk);
      if reply.Replied? {
        var k := reply.index;
        assert !d.contacts[k].responded;
        assert k !in d.replied;
        var replied' := d.replied + [k];
        forall i | 0 <= i < |cs|
          ensures next[i].responded == (cs[i].responded || i in replied')
        {
          assert i in replied' <==> i in d.replied || i == k;
        }
      }
    }
  }

  /** At most one auto-reply per contact over the messages handled one after another. */
  lemma {:induction false} RespondAllRepliesOnce(cs: seq<Contact>, msgs: seq<Inbound>, replyOks: seq<bool>)
    requires |replyOks| == |msgs|
    ensures RepliedOnce(cs, RespondAll(cs, msgs, replyOks))
    decreases |msgs|
  {
    if msgs != [] {
      var n := |msgs| - 1;
      RespondAllRepliesOnce(cs, msgs[..n], replyOks[..n]);
      DrainStepRepliesOnce(cs, RespondAll(cs, msgs[..n], replyOks[..n]), msgs[n], replyOks[n]);
    }
  }

  /** A keyword found at position `i` of the lowercased body makes the message interested. */
  lemma KeywordAt(body: string, keyword: string, i: nat)
    requires keyword in INTEREST_KEYWORDS
    requires i + |keyword| <= |body| && Lower(body)[i..i + |keyword|] == keyword
    ensures Interested(body)
  {
    ContainsAt(Lower(body), keyword, i);
  }

  /** The example interested reply: "ok let's go" qualifies, through the keyword "ok". */
  lemma OkLetsGoIsInterested()
    ensures Interested("ok let's go")
  {
    var body := "ok let's go";
    assert Lower(body)[0..2] == "ok" by {
      assert Lower(body)[0] == 'o' && Lower(body)[1] == 'k';
    }
    KeywordAt(body, "ok", 0);
  }

  /** The keyword check is a plain substring test: "Book" qualifies, through "ok". */
  lemma BookIsInterested()
    ensures Interested("Book")
  {
    var body := "Book";
    assert Lower(body)[2..4] == "ok" by {
      assert Lower(body)[2] == 'o' && Lower(body)[3] == 'k';
    }
    KeywordAt(body, "ok", 2);
  }

  /** The check ignores case: a body and its lowercased form qualify alike. */
  lemma InterestedIgnoresCase(body: string)
    ensures Interested(body) <==> Interested(Lower(body))
  {
    LowerIdempotent(body);
  }
}
