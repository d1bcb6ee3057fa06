/** `scheduleAllMessages` (bot.js:110-124): which contacts get a timer in this run, and when. */
module Scheduler {
  import opened Config
  import opened Contacts

  /** The value of `Math.floor(Math.random() * 1800000)`: a whole number of milliseconds below half an hour. */
  type Jitter = j: nat | j < JITTER_SPAN_MS

  /** One timer set by `scheduleAllMessages`: the contact (by its position in the contact list, whose
      object the timer's closure holds) and the delay in milliseconds. */
  datatype PlannedSend = PlannedSend(index: nat, delay: nat)

  /** `contacts.filter(c => !c.sent)`, as positions in the contact list. */
  function Unsent(cs: seq<Contact>): (ix: seq<nat>)
    ensures forall k :: 0 <= k < |ix| ==> ix[k] < |cs| && !cs[ix[k]].sent
    ensures forall k, l :: 0 <= k < l < |ix| ==> ix[k] < ix[l]
    ensures forall i :: 0 <= i < |cs| && !cs[i].sent ==> i in ix
  {
    if cs == [] then []
    else
      var n := |cs| - 1;
      var prefix := Unsent(cs[..n]);
      assert forall k :: 0 <= k < |prefix| ==> cs[prefix[k]] == cs[..n][prefix[k]];
      prefix + (if !cs[n].sent then [n] else [])
  }

  /** `unsent.slice(0, MAX_MESSAGES)`. */
  function Selected(cs: seq<Contact>): (ix: seq<nat>)
    ensures |ix| == if |Unsent(cs)| < MAX_MESSAGES then |Unsent(cs)| else MAX_MESSAGES
    ensures ix == Unsent(cs)[..|ix|]
  {
    var u := Unsent(cs);
    if |u| <= MAX_MESSAGES then u else u[..MAX_MESSAGES]
  }

  /** The delay of the `index`-th planned send: `index * (3600000 + jitter)`. */
  function Delay(index: nat, jitter: Jitter): (d: nat)
    ensures index == 0 ==> d == 0
    ensures index * BASE_GAP_MS <= d <= index * (BASE_GAP_MS + JITTER_SPAN_MS - 1)
  {
    MulMonotone(index, BASE_GAP_MS, BASE_GAP_MS + jitter);
    MulMonotone(index, BASE_GAP_MS + jitter, BASE_GAP_MS + JITTER_SPAN_MS - 1);
    index * (BASE_GAP_MS + jitter)
  }

  /** Helper for `Delay`: multiplying by the same factor keeps the order. */
  lemma MulMonotone(a: nat, b: nat, c: nat)
    requires b <= c
    ensures a * b <= a * c
  {
  }

  /** The timers `scheduleAllMessages` sets; `jitters[k]` is the random draw for the `k`-th. */
  function PlanBatch(cs: seq<Contact>, jitters: seq<Jitter>): (plan: seq<PlannedSend>)
    requires |jitters| >= |Selected(cs)|
    ensures |plan| == |Selected(cs)| <= MAX_MESSAGES
    ensures forall k :: 0 <= k < |plan| ==> plan[k].index < |cs| && !cs[plan[k].index].sent
    ensures forall k, l :: 0 <= k < l < |plan| ==> plan[k].index < plan[l].index
    ensures forall k :: 0 <= k < |plan| ==> plan[k].index == Unsent(cs)[k]
    ensures forall k :: 0 <= k < |plan| ==> plan[k].delay == Delay(k, jitters[k])
  {
    var sel := Selected(cs);
    var plan := Timers(sel, jitters);
    plan
  }

  /** One timer per selected contact, the `k`-th delayed by `Delay(k, jitters[k])`. */
  function Timers(sel: seq<nat>, jitters: seq<Jitter>): (plan: seq<PlannedSend>)
    requires |jitters| >= |sel|
    ensures |plan| == |sel|
    ensures forall k :: 0 <= k < |plan| ==> plan[k] == PlannedSend(sel[k], Delay(k, jitters[k]))
  {
    seq(|sel|, k requires 0 <= k < |sel| => PlannedSend(sel[k], Delay(k, jitters[k])))
  }

  /** The contacts a plan targets, in plan order. */
  function Targets(plan: seq<PlannedSend>): (ix: seq<nat>)
    ensures |ix| == |plan|
    ensures forall k :: 0 <= k < |plan| ==> ix[k] == plan[k].index
  {
    seq(|plan|, k requires 0 <= k < |plan| => plan[k].index)
  }

  /** First come, first served: an unsent contact that gets no timer comes after every contact that
      does, and is left out only because the batch is full. */
  lemma UnplannedComeLater(cs: seq<Contact>, jitters: seq<Jitter>, i: nat)
    requires |jitters| >= |Selected(cs)|
    requires i < |cs| && !cs[i].sent
    requires forall k :: 0 <= k < |PlanBatch(cs, jitters)| ==> PlanBatch(cs, jitters)[k].index != i
    ensures |PlanBatch(cs, jitters)| == MAX_MESSAGES
    ensures forall k :: 0 <= k < |PlanBatch(cs, jitters)| ==> PlanBatch(cs, jitters)[k].index < i
  {
    var plan, u := PlanBatch(cs, jitters), Unsent(cs);
    var p :| 0 <= p < |u| && u[p] == i;
    assert forall k :: 0 <= k < |plan| ==> u[k] != i;
  }

  /** With fewer unsent contacts than the cap, every one of them is planned. */
  lemma AllPlannedUnderCap(cs: seq<Contact>, jitters: seq<Jitter>, i: nat)
    requires |jitters| >= |Selected(cs)|
    requires |Unsent(cs)| < MAX_MESSAGES
    requires i < |cs| && !cs[i].sent
    ensures exists k :: 0 <= k < |PlanBatch(cs, jitters)| && PlanBatch(cs, jitters)[k].index == i
  {
    var u := Unsent(cs);
    var p :| 0 <= p < |u| && u[p] == i;
    assert PlanBatch(cs, jitters)[p].index == i;
  }

  /** The first three gaps are positive whatever the draws: the sends at indices 0 to 3 fire in order. */
  lemma DelaysIncreaseUpToFourth(i: nat, a: Jitter, b: Jitter)
    requires i < 3
    ensures Delay(i, a) < Delay(i + 1, b)
  {
    if i == 0 {
    } else if i == 1 {
      assert Delay(1, a) == BASE_GAP_MS + a;
      assert Delay(2, b) == 2 * (BASE_GAP_MS + b);
    } else {
      assert Delay(2, a) == 2 * (BASE_GAP_MS + a);
      assert Delay(3, b) == 3 * (BASE_GAP_MS + b);
    }
  }

  /** The fifth planned send can fire before the fourth: delays are not increasing in general. */
  lemma FifthCanPrecedeFourth()
    ensures Delay(4, 0) < Delay(3, JITTER_SPAN_MS - 1)
  {
  }
}
