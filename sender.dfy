/** The campaign sender (bot.js:45-47, 120-122, 126-164) as a state machine over the process-wide
    session: the contact list, `messageCount` and the `stopSending` latch. */
module Sender {
  import opened Config
  import opened Text
  import opened Contacts
  import opened Scheduler

  /** The state `sendToContact` reads and writes. */
  datatype Session = Session(contacts: seq<Contact>, messageCount: nat, stopSending: bool)

  /** What the messaging client does during one attempt: `isRegisteredUser` answers false, one of
      `isRegisteredUser`, `sendPresenceAvailable` or `sendMessage` throws, or the message goes out. */
  datatype Attempt = NotRegistered | Threw | Delivered

  /** How one call of `sendToContact`, or one timer, ends. */
  datatype SendOutcome =
    | LimitReached           // the cap was already hit: nothing sent, the latch set
    | Invalid(chatId: string) // the target is not registered: skipped
    | Failed(chatId: string)  // the client threw: error logged
    | Sent(chatId: string)    // the campaign message went out to `chatId`
    | Cancelled               // the timer fired while `stopSending` was set

  /** The session invariant the sender keeps: the counter never passes the cap, and the latch is set
      exactly when the counter has reached it. */
  predicate SessionOk(s: Session) {
    s.messageCount <= MAX_MESSAGES && (s.stopSending <==> s.messageCount == MAX_MESSAGES)
  }

  /** The state of a fresh process: whatever the ledger holds, nothing sent yet in this run. */
  function Start(cs: seq<Contact>): (s: Session)
    ensures SessionOk(s) && s.contacts == cs && s.messageCount == 0
  {
    Session(cs, 0, false)
  }

  /** The chat id for a contact's number: the number itself when it already holds `@c.us`, the number
      with `@c.us` appended otherwise. */
  function ChatId(number: string): (id: string)
    ensures Contains(id, CHAT_SUFFIX)
    ensures Contains(number, CHAT_SUFFIX) ==> id == number
    ensures !Contains(number, CHAT_SUFFIX) ==> id == number + CHAT_SUFFIX
  {
    if Contains(number, CHAT_SUFFIX) then number
    else
      ContainsSuffix(number, CHAT_SUFFIX);
      number + CHAT_SUFFIX
  }

  /** Normalising a chat id again changes nothing. */
  lemma ChatIdIdempotent(number: string)
    ensures ChatId(ChatId(number)) == ChatId(number)
  {
  }

  /** The number is always a prefix of its chat id: normalisation only ever appends. */
  lemma ChatIdExtendsNumber(number: string)
    ensures StartsWith(ChatId(number), number)
  {
    if !Contains(number, CHAT_SUFFIX) {
      assert ChatId(number)[..|number|] == number;
    }
  }

  /** One call of `sendToContact` on the contact at position `k`, the client behaving as `attempt`. */
  function SendStep(s: Session, k: nat, attempt: Attempt): (r: (Session, SendOutcome))
    requires k < |s.contacts|
    ensures |r.0.contacts| == |s.contacts|
    // the cap was already hit: the latch is set and nothing else changes
    ensures s.messageCount >= MAX_MESSAGES ==> r == (s.(stopSending := true), LimitReached)
    // an unregistered target or a thrown error changes nothing
    ensures s.messageCount < MAX_MESSAGES && attempt != Delivered ==> r.0 == s && !r.1.Sent?
    // a delivery flags exactly the target, counts one send and latches when the cap is reached
    ensures s.messageCount < MAX_MESSAGES && attempt == Delivered ==>
      && r.1 == Sent(ChatId(s.contacts[k].number))
      && r.0.contacts[k] == s.contacts[k].(sent := true)
      && (forall i :: 0 <= i < |s.contacts| && i != k ==> r.0.contacts[i] == s.contacts[i])
      && r.0.messageCount == s.messageCount + 1
      && r.0.stopSending == (s.stopSending || r.0.messageCount >= MAX_MESSAGES)
    ensures SessionOk(s) ==> SessionOk(r.0)
  {
    if s.messageCount >= MAX_MESSAGES then
      (s.(stopSending := true), LimitReached)
    else
      var chatId := ChatId(s.contacts[k].number);
      match attempt
      case NotRegistered => (s, Invalid(chatId))
      case Threw => (s, Failed(chatId))
      case Delivered =>
        var count := s.messageCount + 1;
        (Session(s.contacts[k := s.contacts[k].(sent := true)], count, s.stopSending || count >= MAX_MESSAGES),
         Sent(chatId))
  }

  /** One timer firing: `if (!stopSending) sendToContact(contact)`. */
  function FireTimer(s: Session, k: nat, attempt: Attempt): (r: (Session, SendOutcome))
    requires k < |s.contacts|
    ensures s.stopSending ==> r == (s, Cancelled)
    ensures !s.stopSending ==> r == SendStep(s, k, attempt)
    // the list changes only by flagging the target, and exactly when a message went out
    ensures r.1.Sent? ==> r.0.contacts == s.contacts[k := s.contacts[k].(sent := true)]
    ensures !r.1.Sent? ==> r.0.contacts == s.contacts
  {
    if s.stopSending then (s, Cancelled) else SendStep(s, k, attempt)
  }

  /** A timer as it fires: the contact's position and how the client behaves. */
  datatype Fire = Fire(index: nat, attempt: Attempt)

  predicate FiresFit(n: nat, fires: seq<Fire>) {
    forall f :: f in fires ==> f.index < n
  }

  /** The timers firing one after another, in the order given, and what each one did. */
  function Run(s: Session, fires: seq<Fire>): (r: (Session, seq<SendOutcome>))
    requires FiresFit(|s.contacts|, fires)
    ensures |r.0.contacts| == |s.contacts| && |r.1| == |fires|
    ensures s.messageCount <= r.0.messageCount
    ensures s.stopSending ==> r.0.stopSending
    ensures SessionOk(s) ==> SessionOk(r.0)
    ensures forall i :: 0 <= i < |s.contacts| ==>
      && (s.contacts[i].sent ==> r.0.contacts[i].sent)
      && r.0.contacts[i] == s.contacts[i].(sent := r.0.contacts[i].sent)
    decreases |fires|
  {
    if fires == [] then (s, [])
    else
      var last := fires[|fires| - 1];
      assert last in fires;
      var (mid, outcomes) := Run(s, fires[..|fires| - 1]);
      var (next, outcome) := FireTimer(mid, last.index, last.attempt);
      (next, outcomes + [outcome])
  }

  /** The number of campaign messages that went out. */
  function CountSent(outcomes: seq<SendOutcome>): nat {
    if outcomes == [] then 0
    else CountSent(outcomes[..|outcomes| - 1]) + (if outcomes[|outcomes| - 1].Sent? then 1 else 0)
  }

  /** `messageCount` counts exactly the messages that went out, so a process never sends more than
      `MAX_MESSAGES` campaign messages. */
  lemma {:induction false} RunCountsSends(s: Session, fires: seq<Fire>)
    requires FiresFit(|s.contacts|, fires)
    ensures CountSent(Run(s, fires).1) == Run(s, fires).0.messageCount - s.messageCount
    ensures SessionOk(s) ==> CountSent(Run(s, fires).1) <= MAX_MESSAGES - s.messageCount
    decreases |fires|
  {
    if fires != [] {
      var last := fires[|fires| - 1];
      assert last in fires;
      var init := fires[..|fires| - 1];
      assert Run(s, fires).1[..|fires| - 1] == Run(s, init).1;
      RunCountsSends(s, init);
    }
  }

  /** Once latched, nothing happens any more: every timer is cancelled and the session stays as it is. */
  lemma {:induction false} LatchedRunIsInert(s: Session, fires: seq<Fire>)
    requires FiresFit(|s.contacts|, fires)
    requires s.stopSending
    ensures Run(s, fires).0 == s
    ensures forall k :: 0 <= k < |fires| ==> Run(s, fires).1[k] == Cancelled
    decreases |fires|
  {
    if fires != [] {
      var last := fires[|fires| - 1];
      assert last in fires;
      LatchedRunIsInert(s, fires[..|fires| - 1]);
    }
  }

  /** Some timer of `fires` targeted position `i` and reported that its message went out. */
  predicate SentTo(fires: seq<Fire>, outcomes: seq<SendOutcome>, i: nat)
    requires |outcomes| == |fires|
  {
    exists k :: 0 <= k < |fires| && fires[k].index == i && outcomes[k].Sent?
  }

  /** After a run, a contact is flagged sent exactly when it already was or some timer aimed at it
      delivered. */
  lemma {:induction false} RunSentFlags(s: Session, fires: seq<Fire>)
    requires FiresFit(|s.contacts|, fires)
    ensures forall i :: 0 <= i < |s.contacts| ==>
      (Run(s, fires).0.contacts[i].sent <==> s.contacts[i].sent || SentTo(fires, Run(s, fires).1, i))
    decreases |fires|
  {
    if fires != [] {
      var n := |fires| - 1;
      var init, last := fires[..n], fires[n];
      assert last in fires;
      RunSentFlags(s, init);
      var (mid, outs) := Run(s, init);
      var (next, o) := FireTimer(mid, last.index, last.attempt);
      assert Run(s, fires) == (next, outs + [o]);
      forall i | 0 <= i < |s.contacts|
        ensures SentTo(fires, outs + [o], i) <==> SentTo(init, outs, i) || (i == last.index && o.Sent?)
      {
        SentToSnoc(fires, outs + [o], i);
        assert (outs + [o])[..n] == outs;
      }
    }
  }

  /** The timers up to the last one, then the last one. */
  lemma SentToSnoc(fires: seq<Fire>, outcomes: seq<SendOutcome>, i: nat)
    requires |outcomes| == |fires| > 0
    ensures var n := |fires| - 1;
      SentTo(fires, outcomes, i) <==>
      SentTo(fires[..n], outcomes[..n], i) || (fires[n].index == i && outcomes[n].Sent?)
  {
    var n := |fires| - 1;
    if SentTo(fires, outcomes, i) {
      var k :| 0 <= k < |fires| && fires[k].index == i && outcomes[k].Sent?;
      if k < n {
        assert fires[..n][k] == fires[k] && outcomes[..n][k] == outcomes[k];
      }
    }
    if SentTo(fires[..n], outcomes[..n], i) {
      var k :| 0 <= k < n && fires[..n][k].index == i && outcomes[..n][k].Sent?;
      assert fires[..n][k] == fires[k] && outcomes[..n][k] == outcomes[k];
    }
  }

  /** Timers aimed at distinct contacts that were all unsent at the start, fired in any order and
      whatever the client does: a message goes out only to a contact still unsent when its timer
      fires, and the contacts flagged at the end are exactly those with a delivered timer. */
  lemma {:induction false} DistinctTimersSendOnce(cs: seq<Contact>, fires: seq<Fire>)
    requires forall k :: 0 <= k < |fires| ==> fires[k].index < |cs| && !cs[fires[k].index].sent
    requires forall j, k :: 0 <= j < k < |fires| ==> fires[j].index != fires[k].index
    ensures FiresFit(|cs|, fires)
    ensures forall k :: 0 <= k < |fires| && Run(Start(cs), fires).1[k].Sent? ==>
      !Run(Start(cs), fires[..k]).0.contacts[fires[k].index].sent
    ensures forall i :: 0 <= i < |cs| ==>
      (Run(Start(cs), fires).0.contacts[i].sent <==> cs[i].sent || SentTo(fires, Run(Start(cs), fires).1, i))
  {
    forall f | f in fires ensures f.index < |cs| {
      var k :| 0 <= k < |fires| && fires[k] == f;
    }
    forall k | 0 <= k < |fires| && Run(Start(cs), fires).1[k].Sent?
      ensures !Run(Start(cs), fires[..k]).0.contacts[fires[k].index].sent
    {
      var before := fires[..k];
      assert FiresFit(|cs|, before) by {
        forall f | f in before ensures f.index < |cs| { assert f in fires; }
      }
      RunSentFlags(Start(cs), before);
      assert forall l :: 0 <= l < k ==> before[l] == fires[l];
    }
    RunSentFlags(Start(cs), fires);
  }

  /** The campaign's timers, fired in any order (the fifth may precede the fourth) and whatever the
      client does, each aimed at a different planned contact: every message goes to a contact that
      was unsent at the start and still unsent when its timer fired, so no contact gets a second
      campaign message, and the contacts flagged at the end are exactly those with a delivered
      timer. */
  lemma {:induction false} PlannedTimersSendOnce(cs: seq<Contact>, jitters: seq<Jitter>, fires: seq<Fire>)
    requires |jitters| >= |Selected(cs)|
    requires forall k :: 0 <= k < |fires| ==> fires[k].index in Targets(PlanBatch(cs, jitters))
    requires forall j, k :: 0 <= j < k < |fires| ==> fires[j].index != fires[k].index
    ensures FiresFit(|cs|, fires)
    ensures forall k :: 0 <= k < |fires| && Run(Start(cs), fires).1[k].Sent? ==>
      && !cs[fires[k].index].sent
      && !Run(Start(cs), fires[..k]).0.contacts[fires[k].index].sent
    ensures forall i :: 0 <= i < |cs| ==>
      (Run(Start(cs), fires).0.contacts[i].sent <==> cs[i].sent || SentTo(fires, Run(Start(cs), fires).1, i))
  {
    DistinctTimersSendOnce(cs, fires);
  }

  /** A timer per listed position, each delivered. */
  function DeliverAll(ix: seq<nat>): (fires: seq<Fire>)
    ensures |fires| == |ix|
    ensures forall k :: 0 <= k < |ix| ==> fires[k] == Fire(ix[k], Delivered)
  {
    seq(|ix|, k requires 0 <= k < |ix| => Fire(ix[k], Delivered))
  }

  /** Timers for listed positions that are all in range fit a list of that length. */
  lemma DeliverAllFits(ix: seq<nat>, n: nat)
    requires forall k :: 0 <= k < |ix| ==> ix[k] < n
    ensures FiresFit(n, DeliverAll(ix))
  {
    var fires := DeliverAll(ix);
    forall f | f in fires ensures f.index < n {
      var k :| 0 <= k < |fires| && fires[k] == f;
    }
  }

  /** Firing one more timer after a run continues from where the run ended. */
  lemma {:induction false} RunSnoc(s: Session, fires: seq<Fire>, f: Fire)
    requires FiresFit(|s.contacts|, fires + [f])
    ensures FiresFit(|s.contacts|, fires) && f.index < |Run(s, fires).0.contacts|
    ensures Run(s, fires + [f]).0 == FireTimer(Run(s, fires).0, f.index, f.attempt).0
  {
    assert f in fires + [f];
    assert (fires + [f])[..|fires|] == fires;
  }

  /** From a fresh session, delivering to up to `MAX_MESSAGES` listed contacts flags exactly those
      contacts as sent, counts each delivery, and latches exactly when the cap is reached. */
  lemma {:induction false} DeliverFromStart(cs: seq<Contact>, ix: seq<nat>)
    requires |ix| <= MAX_MESSAGES
    requires forall k :: 0 <= k < |ix| ==> ix[k] < |cs|
    ensures FiresFit(|cs|, DeliverAll(ix))
    ensures Run(Start(cs), DeliverAll(ix)).0.messageCount == |ix|
    ensures Run(Start(cs), DeliverAll(ix)).0.stopSending == (|ix| == MAX_MESSAGES)
    ensures forall i :: 0 <= i < |cs| ==>
      Run(Start(cs), DeliverAll(ix)).0.contacts[i].sent == (cs[i].sent || i in ix)
    decreases |ix|
  {
    DeliverAllFits(ix, |cs|);
    if ix != [] {
      var init := ix[..|ix| - 1];
      var last := ix[|ix| - 1];
      assert DeliverAll(ix) == DeliverAll(init) + [Fire(last, Delivered)];
      DeliverFromStart(cs, init);
      RunSnoc(Start(cs), DeliverAll(init), Fire(last, Delivered));
      var mid := Run(Start(cs), DeliverAll(init)).0;
      assert SessionOk(mid) && mid.messageCount == |init| < MAX_MESSAGES && !mid.stopSending;
      var next := SendStep(mid, last, Delivered).0;
      forall i | 0 <= i < |cs|
        ensures next.contacts[i].sent == (cs[i].sent || i in ix)
      {
        assert i in ix <==> i in init || i == last;
      }
    }
  }

  /** With more unsent contacts than the cap, the first unsent contact past the cap gets no timer. */
  lemma PastCapNotPlanned(cs: seq<Contact>, jitters: seq<Jitter>)
    requires |jitters| >= |Selected(cs)|
    requires |Unsent(cs)| > MAX_MESSAGES
    ensures Unsent(cs)[MAX_MESSAGES] !in Targets(PlanBatch(cs, jitters))
  {
    var u := Unsent(cs);
    var plan := PlanBatch(cs, jitters);
    var ix := Targets(plan);
    forall k | 0 <= k < |ix|
      ensures ix[k] != u[MAX_MESSAGES]
    {
      assert ix[k] == plan[k].index == u[k];
      assert k < MAX_MESSAGES;
    }
  }

  /** Two orderings of the same positions have the same length and the same members. */
  lemma SameMembers(a: seq<nat>, b: seq<nat>)
    requires multiset(a) == multiset(b)
    ensures |a| == |b|
    ensures forall i :: i in a <==> i in b
  {
    assert |a| == |multiset(a)| == |multiset(b)| == |b|;
    forall i ensures i in a <==> i in b {
      assert i in a <==> i in multiset(a);
      assert i in b <==> i in multiset(b);
    }
  }

  /** A whole campaign from a fresh process, the planned timers firing in any order (the fifth may
      precede the fourth) and each delivering: exactly the planned contacts end up sent, one message
      each; with more unsent contacts than the cap, the session ends latched and the first contact
      past the cap is still unsent. */
  lemma {:induction false} CampaignFromStart(cs: seq<Contact>, jitters: seq<Jitter>, order: seq<nat>)
    requires |jitters| >= |Selected(cs)|
    requires multiset(order) == multiset(Targets(PlanBatch(cs, jitters)))
    ensures FiresFit(|cs|, DeliverAll(order))
    ensures var plan := PlanBatch(cs, jitters);
            var end := Run(Start(cs), DeliverAll(order)).0;
            && end.messageCount == |plan|
            && (forall i :: 0 <= i < |cs| ==> end.contacts[i].sent == (cs[i].sent || i in Targets(plan)))
            && (|Unsent(cs)| > MAX_MESSAGES ==> end.stopSending && !end.contacts[Unsent(cs)[MAX_MESSAGES]].sent)
  {
    var plan := PlanBatch(cs, jitters);
    var ix := Targets(plan);
    SameMembers(order, ix);
    assert forall k :: 0 <= k < |ix| ==> ix[k] < |cs|;
    assert forall k :: 0 <= k < |order| ==> order[k] < |cs| by {
      forall k | 0 <= k < |order| ensures order[k] < |cs| {
        assert order[k] in ix;
      }
    }
    DeliverFromStart(cs, order);
    if |Unsent(cs)| > MAX_MESSAGES {
      PastCapNotPlanned(cs, jitters);
    }
  }
}
