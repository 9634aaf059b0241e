/**
 The event broker of ipc/pubsub.go. Its methods run under one mutex, so a run is a sequence of method calls with
 receives by the subscribers in between. Channels are queues; the order in which Go visits a map is a parameter.

 A receive needs no lock, so it can also fall into the middle of a call. Publish looks at each channel once, so such
 a receive has the effect of one before the call or of one after it: `ReceiveDuringPublish`.
 */
module PubSub {
  import opened Common

  const MAX_TOPICS := 32
  const MAX_RETAINED := 256
  const MAX_PAYLOAD := 65536
  const BUFFER_SIZE := 32
  const OVERFLOW_TOPIC := "system.overflow"
  const OVERFLOW_DATA := "{\"resync_required\":true}"

  datatype Event = Event(topic: string, number: nat, retained: bool, data: string)

  datatype Error = InvalidTopic | TooManyTopics | NoTopics | PayloadTooLarge | InvalidPayload | TooManyRetained | Closed

  /** How a subscription ended: how many events had been published by then, and the overflow event if it sent one. */
  datatype End = End(until: nat, overflow: Option<Event>)

  /**
   A subscriber and its channel. `buf` is what the channel holds. `sent`, `replay`, `since` and `end` record its
   history: all events ever sent, the retained ones sent first, and which publications it was subscribed for.
   */
  datatype Subscriber = Subscriber(
    topics: set<string>, cap: nat, buf: seq<Event>, sent: seq<Event>, replay: seq<Event>, since: nat, end: Option<End>)

  /**
   `live` is the broker's subscriber table, `gone` the closed channels; `published` and `issued` are the events so far.
   */
  datatype State = State(
    nextEvent: nat, nextSub: nat, retained: map<string, Event>, live: map<nat, Subscriber>, closed: bool,
    gone: map<nat, Subscriber>, published: seq<Event>, issued: seq<Event>)

  const START := State(0, 0, map[], map[], false, map[], [], [])

  predicate TopicChar(c: char) {
    'a' <= c <= 'z' || 'A' <= c <= 'Z' || '0' <= c <= '9' || c == '.' || c == '_' || c == '-'
  }

  predicate ValidTopic(topic: string) {
    && topic != OVERFLOW_TOPIC && topic != "" && |topic| <= 256
    && topic[0] != '.' && topic[|topic| - 1] != '.'
    && (forall k :: 0 <= k < |topic| ==> TopicChar(topic[k]))
    && (forall k :: 0 <= k < |topic| - 1 ==> !(topic[k] == '.' && topic[k + 1] == '.'))
  }

  // ---- Publish ----

  function Pushed(sub: Subscriber, event: Event): Subscriber {
    sub.(buf := sub.buf + [event], sent := sub.sent + [event])
  }

  function Sent(s: State, id: nat, event: Event): State
    requires id in s.live
  {
    s.(live := s.live[id := Pushed(s.live[id], event)])
  }

  /** The state after the overflow event has ended subscriber id. */
  function Overflown(s: State, id: nat, at: nat): State
    requires id in s.live
  {
    var overflow := Event(OVERFLOW_TOPIC, s.nextEvent + 1, false, OVERFLOW_DATA);
    s.(nextEvent := s.nextEvent + 1, live := s.live - {id}, issued := s.issued + [overflow],
       gone := s.gone[id := Pushed(s.live[id], overflow).(end := Some(End(at, Some(overflow))))])
  }

  /** Sends event to one subscriber, or the overflow event and closes it when only the reserved slot is left. */
  function Offer(s: State, id: nat, event: Event, at: nat): State
    requires id in s.live
  {
    var sub := s.live[id];
    if event.topic !in sub.topics then s
    else if |sub.buf| + 1 >= sub.cap then Overflown(s, id, at)
    else Sent(s, id, event)
  }

  /** The loop over the subscribers; at is the index of event among the publications. */
  function OfferAll(s: State, order: seq<nat>, event: Event, at: nat): State
    decreases |order|
  {
    if order == [] then s
    else OfferAll(if order[0] in s.live then Offer(s, order[0], event, at) else s, order[1..], event, at)
  }

  function PublishError(s: State, topic: string, data: string, valid: bool, retain: bool): Option<Error> {
    if !ValidTopic(topic) then Some(InvalidTopic)
    else if |data| > MAX_PAYLOAD then Some(PayloadTooLarge)
    else if !valid then Some(InvalidPayload)
    else if s.closed then Some(Closed)
    else if retain && topic !in s.retained && |s.retained| >= MAX_RETAINED then Some(TooManyRetained)
    else None
  }

  /** The state when the loop over the subscribers starts. */
  function Recorded(s: State, topic: string, data: string, retain: bool): State {
    var event := Event(topic, s.nextEvent + 1, false, data);
    s.(nextEvent := s.nextEvent + 1, published := s.published + [event], issued := s.issued + [event],
       retained := if retain then s.retained[topic := event] else s.retained)
  }

  function PublishedTo(s: State, topic: string, data: string, valid: bool, retain: bool, order: seq<nat>): State {
    if PublishError(s, topic, data, valid, retain).Some? then s
    else OfferAll(Recorded(s, topic, data, retain), order, Event(topic, s.nextEvent + 1, false, data), |s.published|)
  }

  /** Publish would wait for a subscriber: the send finds its channel full. */
  ghost predicate Blocks(s: State, topic: string) {
    exists id :: id in s.live && topic in s.live[id].topics && |s.live[id].buf| >= s.live[id].cap
  }

  // ---- Subscribe and the rest ----

  function Replay(retained: map<string, Event>, sorted: seq<string>): seq<Event> {
    if sorted == [] then []
    else
      (if sorted[0] in retained then [retained[sorted[0]].(retained := true)] else []) + Replay(retained, sorted[1..])
  }

  function Capacity(topics: set<string>): nat {
    if |topics| > BUFFER_SIZE then |topics| else BUFFER_SIZE
  }

  function Subscribed(s: State, topics: set<string>, sorted: seq<string>): State {
    var replay := Replay(s.retained, sorted);
    s.(nextSub := s.nextSub + 1,
       live := s.live[s.nextSub + 1 := Subscriber(topics, Capacity(topics), replay, replay, replay, |s.published|,
                                                  None)])
  }

  function Ended(s: State, id: nat): Subscriber
    requires id in s.live
  {
    s.live[id].(end := Some(End(|s.published|, None)))
  }

  function Unsubscribed(s: State, id: nat): State {
    if id in s.live then s.(live := s.live - {id}, gone := s.gone[id := Ended(s, id)]) else s
  }

  function ClosedAll(s: State): State {
    if s.closed then s
    else s.(closed := true, live := map[], retained := map[],
            gone := s.gone + map id | id in s.live :: Ended(s, id))
  }

  predicate HasPrefix(topic: string, prefix: string) {
    prefix <= topic
  }

  function Cleared(s: State, prefix: string): State {
    s.(retained := map topic | topic in s.retained && !HasPrefix(topic, prefix) :: s.retained[topic])
  }

  /** The state after subscriber id took an event from its channel, if there is one. */
  function Received(s: State, id: nat): State {
    if id in s.live && s.live[id].buf != [] then s.(live := s.live[id := s.live[id].(buf := s.live[id].buf[1..])])
    else if id in s.gone && s.gone[id].buf != [] then s.(gone := s.gone[id := s.gone[id].(buf := s.gone[id].buf[1..])])
    else s
  }

  // ---- Runs ----

  datatype Step =
    | Pub(topic: string, data: string, valid: bool, retain: bool, order: seq<nat>)
    | Sub(topics: set<string>, sorted: seq<string>)
    | Unsub(id: nat)
    | ClearPrefix(prefix: string)
    | CloseAll
    | Receive(id: nat)

  predicate Less(a: string, b: string) {
    if b == "" then false
    else if a == "" then true
    else a[0] < b[0] || (a[0] == b[0] && Less(a[1..], b[1..]))
  }

  /** sorted lists topics once each, in ascending order. */
  ghost predicate Sorting(sorted: seq<string>, topics: set<string>) {
    && (forall t :: t in sorted <==> t in topics)
    && forall i, j :: 0 <= i < j < |sorted| ==> Less(sorted[i], sorted[j])
  }

  ghost predicate Visits(order: seq<nat>, live: map<nat, Subscriber>) {
    && (forall id :: id in order <==> id in live)
    && forall i, j :: 0 <= i < j < |order| ==> order[i] != order[j]
  }

  ghost predicate CanSubscribe(s: State, topics: set<string>) {
    topics != {} && |topics| <= MAX_TOPICS && (forall t :: t in topics ==> ValidTopic(t)) && !s.closed
  }

  /** One call that goes through, or one receive. */
  ghost predicate Next(s: State, step: Step, t: State) {
    match step
    case Pub(topic, data, valid, retain, order) =>
      !Blocks(s, topic) && Visits(order, s.live) && t == PublishedTo(s, topic, data, valid, retain, order)
    case Sub(topics, sorted) => CanSubscribe(s, topics) && Sorting(sorted, topics) && t == Subscribed(s, topics, sorted)
    case Unsub(id) => t == Unsubscribed(s, id)
    case ClearPrefix(prefix) => t == Cleared(s, prefix)
    case CloseAll => t == ClosedAll(s)
    case Receive(id) => t == Received(s, id)
  }

  ghost predicate Run(trace: seq<State>, steps: seq<Step>) {
    && |trace| == |steps| + 1 && trace[0] == START
    && forall i :: 0 <= i < |steps| ==> Next(trace[i], steps[i], trace[i + 1])
  }

  // ---- What a subscriber is sent ----

  /** The events on topics, in order. */
  function Matching(events: seq<Event>, topics: set<string>): seq<Event> {
    if events == [] then []
    else Matching(events[..|events| - 1], topics)
         + (if events[|events| - 1].topic in topics then [events[|events| - 1]] else [])
  }

  function Until(sub: Subscriber, published: seq<Event>): nat {
    if sub.end.None? then |published| else sub.end.value.until
  }

  function Overflow(sub: Subscriber): seq<Event> {
    if sub.end.Some? && sub.end.value.overflow.Some? then [sub.end.value.overflow.value] else []
  }

  /** The replay, then exactly the publications on its topics while subscribed, then at most one overflow event. */
  ghost predicate History(sub: Subscriber, published: seq<Event>) {
    && sub.since <= Until(sub, published) <= |published|
    && sub.sent == sub.replay + Matching(published[sub.since..Until(sub, published)], sub.topics) + Overflow(sub)
  }

  /** Every event behind the replay is newer than all events before it. */
  ghost predicate Increasing(sub: Subscriber) {
    forall i, j :: 0 <= i < j < |sub.sent| && |sub.replay| <= j ==> sub.sent[i].number < sub.sent[j].number
  }

  ghost predicate Numbered(events: seq<Event>, bound: int) {
    forall k :: 0 <= k < |events| ==> events[k].number <= bound
  }

  /** The channel holds the last events sent. */
  ghost predicate Buffered(sub: Subscriber) {
    |sub.buf| <= |sub.sent| && sub.buf == sub.sent[|sub.sent| - |sub.buf|..]
  }

  /** An open channel keeps a free slot, unless its replay filled it and nothing was received or sent since. */
  ghost predicate Room(sub: Subscriber) {
    |sub.buf| + 1 <= sub.cap || (sub.buf == sub.sent == sub.replay && |sub.replay| == sub.cap)
  }

  ghost predicate ChannelInv(sub: Subscriber, bound: int) {
    && Increasing(sub) && Numbered(sub.sent, bound) && Buffered(sub)
    && |sub.replay| <= |sub.sent| && sub.replay == sub.sent[..|sub.replay|]
  }

  ghost predicate SubInv(sub: Subscriber, published: seq<Event>, bound: int) {
    History(sub, published) && ChannelInv(sub, bound)
  }

  ghost predicate Open(sub: Subscriber) {
    sub.end == None && Room(sub) && sub.cap >= BUFFER_SIZE
  }

  /** Event numbers run from 1 without a gap, publications and overflow events together. */
  ghost predicate GapFree(s: State) {
    && |s.issued| == s.nextEvent
    && (forall k :: 0 <= k < |s.issued| ==> s.issued[k].number == k + 1)
    && Numbered(s.published, s.nextEvent)
  }

  ghost predicate Inv(s: State) {
    && GapFree(s)
    && (forall id :: id in s.live ==> id !in s.gone && 1 <= id <= s.nextSub)
    && (forall id :: id in s.gone ==>
       1 <= id <= s.nextSub && s.gone[id].end.Some? && SubInv(s.gone[id], s.published, s.nextEvent))
    && (forall id :: id in s.live ==> Open(s.live[id]) && SubInv(s.live[id], s.published, s.nextEvent))
    && (forall topic :: topic in s.retained ==>
       s.retained[topic].topic == topic && s.retained[topic].number <= s.nextEvent)
    && (s.closed ==> s.live == map[] && s.retained == map[])
  }

  lemma MatchingSnoc(events: seq<Event>, event: Event, topics: set<string>)
    ensures Matching(events + [event], topics)
            == Matching(events, topics) + (if event.topic in topics then [event] else [])
  {
    assert (events + [event])[..|events|] == events;
  }

  /** A longer publication list changes nothing for an ended subscription. */
  lemma EndedKeeps(sub: Subscriber, published: seq<Event>, event: Event, bound: int, higher: int)
    requires SubInv(sub, published, bound) && sub.end.Some? && bound <= higher
    ensures SubInv(sub, published + [event], higher)
  {
    var until := Until(sub, published);
    assert (published + [event])[sub.since..until] == published[sub.since..until];
  }

  /** A publication on another topic changes nothing for an open one. */
  lemma OtherTopicKeeps(sub: Subscriber, published: seq<Event>, event: Event, bound: int, higher: int)
    requires SubInv(sub, published, bound) && sub.end == None && bound <= higher && event.topic !in sub.topics
    ensures SubInv(sub, published + [event], higher)
  {
    HistoryOther(sub, published, event);
    hide History;
  }

  lemma HistoryOther(sub: Subscriber, published: seq<Event>, event: Event)
    requires History(sub, published) && sub.end == None && event.topic !in sub.topics
    ensures History(sub, published + [event])
  {
    hide Matching;
    var n := |published|;
    assert (published + [event])[sub.since..n + 1] == published[sub.since..n] + [event];
    MatchingSnoc(published[sub.since..n], event, sub.topics);
    var matched := Matching(published[sub.since..n], sub.topics);
    assert matched + [] == matched;
  }

  lemma PushKeeps(sub: Subscriber, event: Event, bound: int, higher: int)
    requires ChannelInv(sub, bound) && bound < event.number <= higher
    ensures ChannelInv(Pushed(sub, event), higher)
  {
    var longer := sub.sent + [event];
    assert longer[..|sub.replay|] == sub.sent[..|sub.replay|];
    assert longer[|longer| - |sub.buf| - 1..] == sub.sent[|sub.sent| - |sub.buf|..] + [event];
  }

  lemma SentKeeps(sub: Subscriber, published: seq<Event>, event: Event, bound: int, higher: int)
    requires SubInv(sub, published, bound) && sub.end == None
    requires event.number == bound + 1 <= higher && event.topic in sub.topics
    ensures SubInv(Pushed(sub, event), published + [event], higher)
  {
    PushKeeps(sub, event, bound, higher);
    HistorySent(sub, published, event);
    hide ChannelInv, History;
  }

  lemma HistorySent(sub: Subscriber, published: seq<Event>, event: Event)
    requires History(sub, published) && sub.end == None && event.topic in sub.topics
    ensures History(Pushed(sub, event), published + [event])
  {
    hide Matching;
    var n := |published|;
    var matched, longer := Matching(published[sub.since..n], sub.topics), published + [event];
    MatchingSnoc(published[sub.since..n], event, sub.topics);
    assert longer[sub.since..n + 1] == published[sub.since..n] + [event];
    assert sub.replay + matched + [] + [event] == sub.replay + (matched + [event]) + [];
  }

  lemma OverflowKeeps(sub: Subscriber, published: seq<Event>, event: Event, overflow: Event, bound: int, higher: int)
    requires SubInv(sub, published, bound) && sub.end == None && bound < overflow.number <= higher
    ensures SubInv(Pushed(sub, overflow).(end := Some(End(|published|, Some(overflow)))), published + [event], higher)
  {
    PushKeeps(sub, overflow, bound, higher);
    hide Matching;
    var n := |published|;
    var matched := Matching(published[sub.since..n], sub.topics);
    assert (published + [event])[sub.since..n] == published[sub.since..n];
    assert sub.replay + matched + [] + [overflow] == sub.replay + matched + [overflow];
  }

  // ---- Publish ----

  /** In the middle of Publish: the subscribers in order have yet to be offered event. */
  ghost predicate Halfway(s: State, order: seq<nat>, before: seq<Event>, event: Event) {
    && GapFree(s) && s.published == before + [event] && 1 <= event.number <= s.nextEvent
    && Separate(s) && Visitable(order, s.live) && GoneInv(s) && OfferedInv(s, order)
    && PendingInv(s, order, before, event)
  }

  ghost predicate Separate(s: State) {
    && (forall id :: id in s.live ==> id !in s.gone && 1 <= id <= s.nextSub && Open(s.live[id]))
    && (forall id :: id in s.gone ==> 1 <= id <= s.nextSub)
  }

  ghost predicate Visitable(order: seq<nat>, live: map<nat, Subscriber>) {
    && (forall id :: id in order ==> id in live)
    && forall i, j :: 0 <= i < j < |order| ==> order[i] != order[j]
  }

  ghost predicate GoneInv(s: State) {
    forall id :: id in s.gone ==> s.gone[id].end.Some? && SubInv(s.gone[id], s.published, s.nextEvent)
  }

  ghost predicate OfferedInv(s: State, order: seq<nat>) {
    forall id :: id in s.live && id !in order ==> SubInv(s.live[id], s.published, s.nextEvent)
  }

  ghost predicate PendingInv(s: State, order: seq<nat>, before: seq<Event>, event: Event) {
    forall id :: id in s.live && id in order ==>
      && SubInv(s.live[id], before, event.number - 1)
      && (event.topic in s.live[id].topics ==> |s.live[id].buf| < s.live[id].cap)
  }

  lemma Rest(order: seq<nat>, live: map<nat, Subscriber>)
    requires order != [] && Visitable(order, live)
    ensures Visitable(order[1..], live) && Visitable(order[1..], live - {order[0]})
    ensures forall id :: id in order <==> id == order[0] || id in order[1..]
    ensures order[0] in live && order[0] !in order[1..]
  {
    assert order == [order[0]] + order[1..];
  }

  lemma SubInvRaise(sub: Subscriber, published: seq<Event>, bound: int, higher: int)
    requires SubInv(sub, published, bound) && bound <= higher
    ensures SubInv(sub, published, higher)
  {
  }

  lemma OfferOther(s: State, order: seq<nat>, before: seq<Event>, event: Event)
    requires Halfway(s, order, before, event) && order != [] && order[0] in s.live
    requires event.topic !in s.live[order[0]].topics
    ensures Halfway(s, order[1..], before, event)
  {
    hide SubInv, GapFree, Visitable;
    Rest(order, s.live);
    OtherTopicKeeps(s.live[order[0]], before, event, event.number - 1, s.nextEvent);
  }

  lemma SameNumbers(s: State, t: State)
    requires GapFree(s) && t.issued == s.issued && t.published == s.published && t.nextEvent == s.nextEvent
    ensures GapFree(t)
  {
  }

  lemma PushedOpen(sub: Subscriber, event: Event)
    requires Open(sub) && |sub.buf| + 1 < sub.cap
    ensures Open(Pushed(sub, event)) && Pushed(sub, event).topics == sub.topics
  {
  }

  lemma SentRest(s: State, order: seq<nat>, before: seq<Event>, event: Event)
    requires OfferedInv(s, order) && PendingInv(s, order, before, event) && Visitable(order, s.live) && order != []
    requires order[0] in s.live && SubInv(Pushed(s.live[order[0]], event), s.published, s.nextEvent)
    ensures var t := Sent(s, order[0], event);
            OfferedInv(t, order[1..]) && PendingInv(t, order[1..], before, event) && Visitable(order[1..], t.live)
  {
    hide SubInv, Pushed;
    Rest(order, s.live);
  }

  lemma SentSeparate(s: State, id: nat, event: Event)
    requires Separate(s) && id in s.live && Open(Pushed(s.live[id], event))
    ensures Separate(Sent(s, id, event))
  {
    hide Open, Pushed;
  }

  lemma OfferSent(s: State, order: seq<nat>, before: seq<Event>, event: Event)
    requires Halfway(s, order, before, event) && order != [] && order[0] in s.live
    requires event.topic in s.live[order[0]].topics && |s.live[order[0]].buf| + 1 < s.live[order[0]].cap
    ensures Halfway(Sent(s, order[0], event), order[1..], before, event)
  {
    var id, t := order[0], Sent(s, order[0], event);
    NextPending(s, order, before, event);
    hide SubInv, Open, Pushed, GapFree, OfferedInv, PendingInv, Visitable, Separate;
    SameNumbers(s, t);
    PushedOpen(s.live[id], event);
    SentKeeps(s.live[id], before, event, event.number - 1, s.nextEvent);
    SentRest(s, order, before, event);
    SentSeparate(s, id, event);
  }

  /** What is known of the next subscriber to be offered event. */
  lemma NextPending(s: State, order: seq<nat>, before: seq<Event>, event: Event)
    requires Halfway(s, order, before, event) && order != [] && order[0] in s.live
    ensures SubInv(s.live[order[0]], before, event.number - 1)
    ensures Open(s.live[order[0]]) && s.live[order[0]].end == None
  {
    hide SubInv, GapFree, OfferedInv, GoneInv, Visitable;
    assert order[0] in order;
  }

  lemma RaiseAll(subs: map<nat, Subscriber>, published: seq<Event>, bound: int)
    ensures forall id :: id in subs && SubInv(subs[id], published, bound) ==> SubInv(subs[id], published, bound + 1)
  {
    forall id | id in subs && SubInv(subs[id], published, bound) ensures SubInv(subs[id], published, bound + 1) {
      SubInvRaise(subs[id], published, bound, bound + 1);
    }
  }

  lemma OverflowGone(s: State, id: nat, before: seq<Event>, event: Event)
    requires GoneInv(s) && id in s.live && s.published == before + [event] && event.number <= s.nextEvent
    requires SubInv(s.live[id], before, event.number - 1) && s.live[id].end == None
    ensures GoneInv(Overflown(s, id, |before|))
  {
    var overflow := Event(OVERFLOW_TOPIC, s.nextEvent + 1, false, OVERFLOW_DATA);
    hide SubInv, Pushed;
    OverflowKeeps(s.live[id], before, event, overflow, event.number - 1, s.nextEvent + 1);
    var t, ended := Overflown(s, id, |before|),
        Pushed(s.live[id], overflow).(end := Some(End(|before|, Some(overflow))));
    assert t.gone == s.gone[id := ended] && ended.end.Some?;
    forall other | other in t.gone ensures t.gone[other].end.Some? && SubInv(t.gone[other], t.published, t.nextEvent) {
      if other != id {
        SubInvRaise(s.gone[other], s.published, s.nextEvent, t.nextEvent);
      }
    }
  }

  lemma OverflowRest(s: State, order: seq<nat>, before: seq<Event>, event: Event)
    requires OfferedInv(s, order) && PendingInv(s, order, before, event) && Visitable(order, s.live) && order != []
    ensures order[0] in s.live
    ensures var t := Overflown(s, order[0], |before|);
            OfferedInv(t, order[1..]) && PendingInv(t, order[1..], before, event) && Visitable(order[1..], t.live)
  {
    hide SubInv, Pushed, Visitable;
    Rest(order, s.live);
    RaiseAll(s.live, s.published, s.nextEvent);
  }

  lemma OfferOverflow(s: State, order: seq<nat>, before: seq<Event>, event: Event)
    requires Halfway(s, order, before, event) && order != [] && order[0] in s.live
    ensures Halfway(Overflown(s, order[0], |before|), order[1..], before, event)
  {
    var id := order[0];
    var t := Overflown(s, id, |before|);
    NextPending(s, order, before, event);
    OverflowNumbers(s, id, |before|);
    hide SubInv, Open, Pushed, GapFree, OfferedInv, PendingInv, Visitable, GoneInv;
    OverflowGone(s, id, before, event);
    OverflowRest(s, order, before, event);
  }

  lemma OverflowNumbers(s: State, id: nat, at: nat)
    requires GapFree(s) && id in s.live
    ensures GapFree(Overflown(s, id, at))
  {
  }

  lemma OfferKeeps(s: State, order: seq<nat>, before: seq<Event>, event: Event)
    requires Halfway(s, order, before, event) && order != []
    ensures Halfway(Offer(s, order[0], event, |before|), order[1..], before, event)
  {
    hide Halfway;
    assert order[0] in s.live && s.published == before + [event] by {
      OrderIsLive(s, order, before, event);
    }
    var sub := s.live[order[0]];
    if event.topic !in sub.topics {
      OfferOther(s, order, before, event);
    } else if |sub.buf| + 1 >= sub.cap {
      OfferOverflow(s, order, before, event);
    } else {
      OfferSent(s, order, before, event);
    }
  }

  lemma OrderIsLive(s: State, order: seq<nat>, before: seq<Event>, event: Event)
    requires Halfway(s, order, before, event)
    ensures forall id :: id in order ==> id in s.live
    ensures s.published == before + [event]
  {
    hide OfferedInv, PendingInv, GoneInv, Separate, GapFree;
  }

  lemma {:induction false} OfferAllKeeps(s: State, order: seq<nat>, before: seq<Event>, event: Event)
    requires Halfway(s, order, before, event)
    ensures Halfway(OfferAll(s, order, event, |before|), [], before, event)
    ensures var t := OfferAll(s, order, event, |before|);
            t.retained == s.retained && t.closed == s.closed && t.nextSub == s.nextSub && t.nextEvent >= s.nextEvent
    decreases |order|
  {
    hide Halfway;
    if order != [] {
      OrderIsLive(s, order, before, event);
      OfferKeeps(s, order, before, event);
      OfferAllKeeps(Offer(s, order[0], event, |before|), order[1..], before, event);
    }
  }

  lemma PublishKeeps(s: State, topic: string, data: string, valid: bool, retain: bool, order: seq<nat>)
    requires Inv(s) && !Blocks(s, topic) && Visits(order, s.live)
    ensures Inv(PublishedTo(s, topic, data, valid, retain, order))
  {
    hide OfferAll;
    if PublishError(s, topic, data, valid, retain).None? {
      var event := Event(topic, s.nextEvent + 1, false, data);
      var r := Recorded(s, topic, data, retain);
      RecordedHalfway(s, topic, data, retain, order);
      OfferAllKeeps(r, order, s.published, event);
      HalfwayDone(OfferAll(r, order, event, |s.published|), s.published, event);
    }
  }

  lemma RecordedHalfway(s: State, topic: string, data: string, retain: bool, order: seq<nat>)
    requires Inv(s) && !Blocks(s, topic) && Visits(order, s.live)
    ensures Halfway(Recorded(s, topic, data, retain), order, s.published, Event(topic, s.nextEvent + 1, false, data))
  {
    var event := Event(topic, s.nextEvent + 1, false, data);
    var r := Recorded(s, topic, data, retain);
    assert GapFree(r);
    hide SubInv, Open, GapFree, OfferedInv, PendingInv, GoneInv;
    RecordedGone(s, r, event);
    RecordedPending(s, r, order, event);
  }

  lemma RecordedGone(s: State, r: State, event: Event)
    requires Inv(s) && r.gone == s.gone && r.published == s.published + [event] && r.nextEvent >= s.nextEvent
    ensures GoneInv(r)
  {
    hide SubInv, Open, GapFree;
    forall id | id in s.gone ensures SubInv(s.gone[id], r.published, r.nextEvent) {
      EndedKeeps(s.gone[id], s.published, event, s.nextEvent, r.nextEvent);
    }
  }

  lemma RecordedPending(s: State, r: State, order: seq<nat>, event: Event)
    requires Inv(s) && !Blocks(s, event.topic) && Visits(order, s.live) && r.live == s.live
    requires event.number == s.nextEvent + 1
    ensures OfferedInv(r, order) && PendingInv(r, order, s.published, event)
  {
    hide SubInv, Open, GapFree;
  }

  lemma HalfwayDone(t: State, before: seq<Event>, event: Event)
    requires Halfway(t, [], before, event) && !t.closed
    requires forall topic :: topic in t.retained ==>
             t.retained[topic].topic == topic && t.retained[topic].number <= t.nextEvent
    ensures Inv(t)
  {
    hide SubInv, Open, GapFree;
  }

  // ---- The other calls ----

  lemma {:induction false} ReplayNumbers(retained: map<string, Event>, sorted: seq<string>, bound: int)
    requires forall topic :: topic in retained ==> retained[topic].number <= bound
    ensures Numbered(Replay(retained, sorted), bound) && |Replay(retained, sorted)| <= |sorted|
  {
    if sorted != [] {
      ReplayNumbers(retained, sorted[1..], bound);
    }
  }

  lemma Irreflexive(a: string)
    ensures !Less(a, a)
    decreases |a|
  {
    if a != "" {
      Irreflexive(a[1..]);
    }
  }

  lemma {:induction false} SortingSize(sorted: seq<string>, topics: set<string>)
    requires Sorting(sorted, topics)
    ensures |sorted| == |topics|
    decreases |sorted|
  {
    if sorted == [] {
      assert topics == {};
    } else {
      var first, rest := sorted[0], sorted[1..];
      Irreflexive(first);
      assert first !in rest;
      forall t ensures t in rest <==> t in topics - {first} {
        assert sorted == [first] + rest;
      }
      SortingSize(rest, topics - {first});
    }
  }

  lemma SubscribeKeeps(s: State, topics: set<string>, sorted: seq<string>)
    requires Inv(s) && CanSubscribe(s, topics) && Sorting(sorted, topics)
    ensures Inv(Subscribed(s, topics, sorted))
  {
    hide SubInv, Open, GapFree, Sorting, Replay, Less, ValidTopic;
    NewSubscriberInv(s, topics, sorted);
    SameNumbers(s, Subscribed(s, topics, sorted));
  }

  lemma NewSubscriberInv(s: State, topics: set<string>, sorted: seq<string>)
    requires Inv(s) && CanSubscribe(s, topics) && Sorting(sorted, topics)
    ensures var sub := Subscribed(s, topics, sorted).live[s.nextSub + 1];
            SubInv(sub, s.published, s.nextEvent) && Open(sub)
  {
    hide Sorting, Less, ValidTopic, Replay, SubInv, Open;
    RetainedNumbers(s);
    ReplayNumbers(s.retained, sorted, s.nextEvent);
    SortingSize(sorted, topics);
    FirstInv(topics, Replay(s.retained, sorted), s.published, s.nextEvent);
  }

  lemma RetainedNumbers(s: State)
    requires Inv(s)
    ensures forall topic :: topic in s.retained ==> s.retained[topic].number <= s.nextEvent
  {
    hide SubInv, Open, GapFree;
  }

  /** A subscriber that was sent its replay and nothing else. */
  lemma FirstInv(topics: set<string>, replay: seq<Event>, published: seq<Event>, bound: int)
    requires Numbered(replay, bound) && |replay| <= |topics| <= MAX_TOPICS
    ensures var sub := Subscriber(topics, Capacity(topics), replay, replay, replay, |published|, None);
            SubInv(sub, published, bound) && Open(sub)
  {
    var sub := Subscriber(topics, Capacity(topics), replay, replay, replay, |published|, None);
    assert published[|published|..|published|] == [];
    assert replay + [] + [] == replay;
    assert replay[..|replay|] == replay && replay[0..] == replay;
  }

  lemma EndKeeps(s: State, id: nat)
    requires Inv(s) && id in s.live
    ensures Ended(s, id).end.Some? && SubInv(Ended(s, id), s.published, s.nextEvent)
  {
    hide SubInv, GapFree;
    EndedInv(s.live[id], s.published, s.nextEvent);
  }

  lemma EndedInv(sub: Subscriber, published: seq<Event>, bound: int)
    requires SubInv(sub, published, bound) && sub.end == None
    ensures SubInv(sub.(end := Some(End(|published|, None))), published, bound)
  {
    hide History;
    EndedHistory(sub, published);
  }

  lemma EndedHistory(sub: Subscriber, published: seq<Event>)
    requires History(sub, published) && sub.end == None
    ensures History(sub.(end := Some(End(|published|, None))), published)
  {
    hide Matching;
  }

  lemma UnsubscribeKeeps(s: State, id: nat)
    requires Inv(s)
    ensures Inv(Unsubscribed(s, id))
  {
    hide SubInv, Open, GapFree;
    SameNumbers(s, Unsubscribed(s, id));
    if id in s.live {
      EndKeeps(s, id);
    }
  }

  lemma CloseKeeps(s: State)
    requires Inv(s)
    ensures Inv(ClosedAll(s))
  {
    hide SubInv, Open, GapFree;
    SameNumbers(s, ClosedAll(s));
    forall id | id in s.live ensures Ended(s, id).end.Some? && SubInv(Ended(s, id), s.published, s.nextEvent) {
      EndKeeps(s, id);
    }
  }

  lemma ReceiveKeepsSub(sub: Subscriber, published: seq<Event>, bound: int)
    requires SubInv(sub, published, bound) && sub.buf != []
    ensures SubInv(sub.(buf := sub.buf[1..]), published, bound)
    ensures Open(sub) ==> Open(sub.(buf := sub.buf[1..]))
  {
    hide Matching;
  }

  lemma ReceiveKeeps(s: State, id: nat, t: State)
    requires Inv(s) && Next(s, Receive(id), t)
    ensures Inv(t)
  {
    hide SubInv, Open, GapFree;
    SameNumbers(s, t);
    if id in s.live && s.live[id].buf != [] {
      ReceiveKeepsSub(s.live[id], s.published, s.nextEvent);
    } else if id in s.gone && s.gone[id].buf != [] {
      ReceiveKeepsSub(s.gone[id], s.published, s.nextEvent);
    }
  }

  lemma StepKeeps(s: State, step: Step, t: State)
    requires Inv(s) && Next(s, step, t)
    ensures Inv(t)
  {
    match step
    case Pub(topic, data, valid, retain, order) => PublishKeeps(s, topic, data, valid, retain, order);
    case Sub(topics, sorted) => SubscribeKeeps(s, topics, sorted);
    case Unsub(id) => UnsubscribeKeeps(s, id);
    case ClearPrefix(prefix) => hide SubInv, Open, GapFree;
    case CloseAll => CloseKeeps(s);
    case Receive(id) => ReceiveKeeps(s, id, t);
  }

  lemma {:induction false} RunKeeps(trace: seq<State>, steps: seq<Step>, i: nat)
    requires Run(trace, steps) && i < |trace|
    ensures Inv(trace[i])
  {
    if i > 0 {
      RunKeeps(trace, steps, i - 1);
      StepKeeps(trace[i - 1], steps[i - 1], trace[i]);
    }
  }

  // ---- Results over every run ----

  /**
   At every moment of every run, an open channel was sent its replay and then exactly the events published on its
   topics since it subscribed; a closed one the same up to its end, then possibly one overflow event. Event numbers
   increase, and what the subscriber has received is the part of this that the channel no longer holds.
   */
  lemma ChannelHistory(trace: seq<State>, steps: seq<Step>, i: nat, id: nat)
    requires Run(trace, steps) && i < |trace| && (id in trace[i].live || id in trace[i].gone)
    ensures var s := trace[i]; var sub := if id in s.live then s.live[id] else s.gone[id];
            && History(sub, s.published) && Increasing(sub) && Buffered(sub)
            && (id in s.live <==> sub.end == None)
  {
    RunKeeps(trace, steps, i);
    hide History, Increasing, Buffered;
  }

  /** Event numbers have no gaps: rejected publications use none up. */
  lemma NumbersGapFree(trace: seq<State>, steps: seq<Step>, i: nat)
    requires Run(trace, steps) && i < |trace|
    ensures GapFree(trace[i])
  {
    RunKeeps(trace, steps, i);
  }

  /** Exactly when Publish would wait: a subscriber on the topic still holds a replay that filled its channel. */
  lemma BlocksOnlyOnFullReplay(trace: seq<State>, steps: seq<Step>, i: nat, topic: string)
    requires Run(trace, steps) && i < |trace|
    ensures var s := trace[i];
            Blocks(s, topic) <==>
            exists id :: id in s.live && topic in s.live[id].topics
                         && |s.live[id].replay| == s.live[id].cap && s.live[id].buf == s.live[id].replay
  {
    RunKeeps(trace, steps, i);
    var s := trace[i];
    hide SubInv, GapFree;
    if Blocks(s, topic) {
      var id :| id in s.live && topic in s.live[id].topics && |s.live[id].buf| >= s.live[id].cap;
      assert Open(s.live[id]);
    }
    if id :| id in s.live && topic in s.live[id].topics
             && |s.live[id].replay| == s.live[id].cap && s.live[id].buf == s.live[id].replay {
      assert |s.live[id].buf| >= s.live[id].cap;
    }
  }

  lemma {:induction false} FullReplay(retained: map<string, Event>, sorted: seq<string>)
    ensures |Replay(retained, sorted)| <= |sorted|
    ensures |Replay(retained, sorted)| == |sorted| <==> forall k :: 0 <= k < |sorted| ==> sorted[k] in retained
  {
    if sorted != [] {
      FullReplay(retained, sorted[1..]);
    }
  }

  /** A new subscription's channel starts full exactly when it names 32 topics and all of them are retained. */
  lemma StartsFull(s: State, topics: set<string>, sorted: seq<string>)
    requires CanSubscribe(s, topics) && Sorting(sorted, topics)
    ensures var sub := Subscribed(s, topics, sorted).live[s.nextSub + 1];
            |sub.buf| == sub.cap <==> |topics| == MAX_TOPICS && topics <= s.retained.Keys
  {
    SortingSize(sorted, topics);
    FullReplay(s.retained, sorted);
    if topics <= s.retained.Keys {
      forall k | 0 <= k < |sorted| ensures sorted[k] in s.retained {
        assert sorted[k] in sorted;
      }
    }
  }

  /** And then Publish on any of these topics waits until the subscriber reads. */
  lemma FullReplayBlocks(s: State, topics: set<string>, sorted: seq<string>, topic: string)
    requires CanSubscribe(s, topics) && Sorting(sorted, topics) && topic in topics
    requires |topics| == MAX_TOPICS && topics <= s.retained.Keys
    ensures Blocks(Subscribed(s, topics, sorted), topic)
  {
    StartsFull(s, topics, sorted);
    var t := Subscribed(s, topics, sorted);
    assert s.nextSub + 1 in t.live && topic in t.live[s.nextSub + 1].topics;
  }

  // ---- A run in which Publish waits ----

  function Name(k: nat): (r: string)
    ensures |r| == k + 1
  {
    seq(k + 1, _ => 'a')
  }

  function Names(n: nat): (r: seq<string>)
    ensures |r| == n && forall k :: 0 <= k < n ==> r[k] == Name(k)
  {
    seq(n, k requires k >= 0 => Name(k))
  }

  lemma NameValid(k: nat)
    requires k < MAX_TOPICS
    ensures ValidTopic(Name(k))
  {
    assert Name(k)[0] == 'a' != OVERFLOW_TOPIC[0];
  }

  lemma {:induction false} NamesAscend(j: nat, k: nat)
    requires j < k
    ensures Less(Name(j), Name(k))
  {
    if j > 0 {
      NamesAscend(j - 1, k - 1);
      assert Name(j)[1..] == Name(j - 1) && Name(k)[1..] == Name(k - 1);
    }
  }

  ghost predicate Retains(s: State, n: nat) {
    && s.live == map[] && !s.closed && |s.retained| <= n
    && forall k :: 0 <= k < n ==> Name(k) in s.retained
  }

  /** Publishing n topics, each with its event retained. */
  lemma {:induction false} RetainNames(n: nat) returns (trace: seq<State>, steps: seq<Step>)
    requires n <= MAX_TOPICS
    ensures Run(trace, steps) && Retains(trace[|trace| - 1], n)
  {
    if n == 0 {
      trace, steps := [START], [];
    } else {
      trace, steps := RetainNames(n - 1);
      var s := trace[|trace| - 1];
      var t := RetainOne(s, n);
      assert Next(s, Pub(Name(n - 1), "0", true, true, []), t);
      trace, steps := Extended(trace, steps, Pub(Name(n - 1), "0", true, true, []), t);
    }
  }

  lemma RetainOne(s: State, n: nat) returns (t: State)
    requires 1 <= n <= MAX_TOPICS && Retains(s, n - 1)
    ensures Next(s, Pub(Name(n - 1), "0", true, true, []), t) && Retains(t, n)
  {
    hide ValidTopic, Name;
    NameValid(n - 1);
    t := PublishedTo(s, Name(n - 1), "0", true, true, []);
  }

  lemma Extended(trace: seq<State>, steps: seq<Step>, step: Step, t: State)
    returns (longer: seq<State>, more: seq<Step>)
    requires Run(trace, steps) && Next(trace[|trace| - 1], step, t)
    ensures Run(longer, more) && longer[|longer| - 1] == t
  {
    hide Next;
    longer, more := trace + [t], steps + [step];
    forall i | 0 <= i < |more| ensures Next(longer[i], more[i], longer[i + 1]) {
      if i < |steps| {
        assert Next(trace[i], steps[i], trace[i + 1]);
      }
    }
  }

  /** Publish can wait: 32 retained topics, and a subscriber to all of them that has not read yet. */
  lemma PublishCanWait() returns (trace: seq<State>, steps: seq<Step>)
    ensures Run(trace, steps) && Blocks(trace[|trace| - 1], Name(0))
  {
    hide Next, Run, Blocks, Retains, Sorting, CanSubscribe;
    trace, steps := RetainNames(MAX_TOPICS);
    var s := trace[|trace| - 1];
    var sorted := Names(MAX_TOPICS);
    var topics := set t | t in sorted;
    SubscribeToNames(s, topics, sorted);
    trace, steps := Extended(trace, steps, Sub(topics, sorted), Subscribed(s, topics, sorted));
  }

  lemma SubscribeToNames(s: State, topics: set<string>, sorted: seq<string>)
    requires Retains(s, MAX_TOPICS) && sorted == Names(MAX_TOPICS) && topics == set t | t in sorted
    ensures Next(s, Sub(topics, sorted), Subscribed(s, topics, sorted))
    ensures Blocks(Subscribed(s, topics, sorted), Name(0))
  {
    hide Blocks, ValidTopic, Name, Less;
    forall j, k | 0 <= j < k < |sorted| ensures Less(sorted[j], sorted[k]) {
      NamesAscend(j, k);
    }
    SortingSize(sorted, topics);
    forall t | t in topics ensures ValidTopic(t) && t in s.retained {
      var k :| 0 <= k < |sorted| && sorted[k] == t;
      NameValid(k);
    }
    assert sorted[0] in topics;
    FullReplayBlocks(s, topics, sorted, Name(0));
  }

  // ---- Subscriptions over time ----

  /** sub's later state: the same subscription, with what it was sent before still at the front. */
  ghost predicate Continues(before: Subscriber, after: Subscriber) {
    && after.topics == before.topics && after.replay == before.replay && after.since == before.since
    && after.cap == before.cap
    && before.sent <= after.sent
    && (before.end.Some? ==> after.sent == before.sent && after.end == before.end && |after.buf| <= |before.buf|)
  }

  /** Subscriptions go on or end; they never vanish, and an ended one is never sent anything again. */
  ghost predicate AllContinue(s: State, t: State) {
    && (forall id :: id in s.live ==> (id in t.live && Continues(s.live[id], t.live[id]))
                                       || (id in t.gone && Continues(s.live[id], t.gone[id])))
    && (forall id :: id in s.gone ==> id in t.gone && id !in t.live && Continues(s.gone[id], t.gone[id]))
  }

  lemma OfferContinues(s: State, id: nat, event: Event, at: nat)
    requires id in s.live && Apart(s)
    ensures AllContinue(s, Offer(s, id, event, at)) && Apart(Offer(s, id, event, at))
  {
    hide Continues, Pushed;
    var sub := s.live[id];
    AllContinueThemselves();
    if event.topic in sub.topics {
      PushedContinues(sub, event);
      PushedContinues(sub, Event(OVERFLOW_TOPIC, s.nextEvent + 1, false, OVERFLOW_DATA));
    }
  }

  lemma AllContinueThemselves()
    ensures forall sub :: Continues(sub, sub)
  {
  }

  lemma EndContinues(sub: Subscriber, end: Option<End>)
    requires sub.end == None
    ensures Continues(sub, sub.(end := end))
  {
  }

  lemma PushedContinues(sub: Subscriber, event: Event)
    requires sub.end == None
    ensures Continues(sub, Pushed(sub, event)) && Pushed(sub, event).end == None
    ensures forall end :: Continues(sub, Pushed(sub, event).(end := end))
  {
  }

  lemma ContinuesTrans(s: State, t: State, u: State)
    requires AllContinue(s, t) && AllContinue(t, u)
    ensures AllContinue(s, u)
  {
  }

  lemma {:induction false} OfferAllContinues(s: State, order: seq<nat>, event: Event, at: nat)
    requires Apart(s)
    ensures AllContinue(s, OfferAll(s, order, event, at))
    decreases |order|
  {
    if order != [] {
      var t := if order[0] in s.live then Offer(s, order[0], event, at) else s;
      if order[0] in s.live {
        OfferContinues(s, order[0], event, at);
      }
      OfferAllContinues(t, order[1..], event, at);
      hide Offer, OfferAll;
      ContinuesTrans(s, t, OfferAll(t, order[1..], event, at));
    }
  }

  /** Open and closed subscriptions are told apart by their end, and all were handed out. */
  ghost predicate Apart(s: State) {
    && (forall id :: id in s.live ==> id !in s.gone && id <= s.nextSub && s.live[id].end == None)
    && (forall id :: id in s.gone ==> id <= s.nextSub && s.gone[id].end.Some?)
  }

  lemma InvApart(s: State)
    requires Inv(s)
    ensures Apart(s)
  {
    hide SubInv, GapFree;
  }

  lemma PublishContinues(s: State, topic: string, data: string, valid: bool, retain: bool, order: seq<nat>)
    requires Apart(s)
    ensures AllContinue(s, PublishedTo(s, topic, data, valid, retain, order))
  {
    hide OfferAll;
    if PublishError(s, topic, data, valid, retain).None? {
      var r := Recorded(s, topic, data, retain);
      OfferAllContinues(r, order, Event(topic, s.nextEvent + 1, false, data), |s.published|);
      ContinuesTrans(s, r, OfferAll(r, order, Event(topic, s.nextEvent + 1, false, data), |s.published|));
    }
  }

  lemma ReceiveContinues(s: State, id: nat, t: State)
    requires Apart(s) && Next(s, Receive(id), t)
    ensures AllContinue(s, t)
  {
    hide Continues;
    AllContinueThemselves();
    if id in s.live && s.live[id].buf != [] {
      TakenContinues(s.live[id]);
    } else if id in s.gone && s.gone[id].buf != [] {
      TakenContinues(s.gone[id]);
    }
  }

  lemma TakenContinues(sub: Subscriber)
    requires sub.buf != []
    ensures Continues(sub, sub.(buf := sub.buf[1..]))
  {
  }

  lemma EndingContinues(s: State, step: Step, t: State)
    requires Apart(s) && Next(s, step, t) && (step.Sub? || step.Unsub? || step.ClearPrefix? || step.CloseAll?)
    ensures AllContinue(s, t)
  {
    hide Continues, Replay, Less, ValidTopic, Sorting, HasPrefix;
    AllContinueThemselves();
    forall id | id in s.live ensures Continues(s.live[id], Ended(s, id)) {
      EndContinues(s.live[id], Some(End(|s.published|, None)));
    }
  }

  lemma StepContinues(s: State, step: Step, t: State)
    requires Apart(s) && Next(s, step, t)
    ensures AllContinue(s, t)
  {
    hide AllContinue, PublishedTo, Blocks, Visits;
    match step
    case Pub(topic, data, valid, retain, order) => PublishContinues(s, topic, data, valid, retain, order);
    case Receive(id) => ReceiveContinues(s, id, t);
    case _ => EndingContinues(s, step, t);
  }

  /** From any moment of a run to any later one, every subscription continues; closing is final. */
  lemma {:induction false} SubscriptionsContinue(trace: seq<State>, steps: seq<Step>, i: nat, j: nat)
    requires Run(trace, steps) && i <= j < |trace|
    ensures AllContinue(trace[i], trace[j])
    decreases j - i
  {
    hide Inv, Next;
    RunKeeps(trace, steps, i);
    InvApart(trace[i]);
    if i < j {
      SubscriptionsContinue(trace, steps, i, j - 1);
      RunKeeps(trace, steps, j - 1);
      InvApart(trace[j - 1]);
      StepContinues(trace[j - 1], steps[j - 1], trace[j]);
      ContinuesTrans(trace[i], trace[j - 1], trace[j]);
    }
  }

  // ---- Retained events ----

  /** The newest publication made with retain on topic, unless a ClearPrefix that matches it or Close came later. */
  ghost function LastRetained(trace: seq<State>, steps: seq<Step>, topic: string, n: nat): Option<Event>
    requires n <= |steps| && |trace| == |steps| + 1
  {
    if n == 0 then None
    else
      var s, earlier := trace[n - 1], LastRetained(trace, steps, topic, n - 1);
      match steps[n - 1]
      case Pub(other, data, valid, retain, _) =>
        if other == topic && retain && PublishError(s, topic, data, valid, retain).None?
        then Some(Event(topic, s.nextEvent + 1, false, data)) else earlier
      case ClearPrefix(prefix) => if HasPrefix(topic, prefix) then None else earlier
      case CloseAll => None
      case _ => earlier
  }

  lemma {:induction false} OffersKeepRetained(s: State, order: seq<nat>, event: Event, at: nat)
    ensures OfferAll(s, order, event, at).retained == s.retained
    decreases |order|
  {
    if order != [] {
      OffersKeepRetained(if order[0] in s.live then Offer(s, order[0], event, at) else s, order[1..], event, at);
    }
  }

  lemma PublishRetains(s: State, topic: string, data: string, valid: bool, retain: bool, order: seq<nat>)
    ensures PublishedTo(s, topic, data, valid, retain, order).retained ==
            if PublishError(s, topic, data, valid, retain).None? && retain
            then s.retained[topic := Event(topic, s.nextEvent + 1, false, data)] else s.retained
  {
    hide OfferAll;
    if PublishError(s, topic, data, valid, retain).None? {
      OffersKeepRetained(Recorded(s, topic, data, retain), order, Event(topic, s.nextEvent + 1, false, data),
                         |s.published|);
    }
  }

  /** At any moment of a run, the event retained for a topic is that publication, and there is one only if it exists. */
  lemma {:induction false} RetainedIsNewest(trace: seq<State>, steps: seq<Step>, topic: string, i: nat)
    requires Run(trace, steps) && i < |trace|
    ensures LastRetained(trace, steps, topic, i) ==
            if topic in trace[i].retained then Some(trace[i].retained[topic]) else None
  {
    hide Inv, OfferAll, PublishError, PublishedTo, Blocks, Visits, CanSubscribe, Sorting, HasPrefix;
    if i > 0 {
      var s := trace[i - 1];
      RetainedIsNewest(trace, steps, topic, i - 1);
      assert Next(s, steps[i - 1], trace[i]);
      match steps[i - 1]
      case Pub(other, data, valid, retain, order) => PublishRetains(s, other, data, valid, retain, order);
      case CloseAll =>
        RunKeeps(trace, steps, i - 1);
        ClosedRetainsNothing(s);
      case _ =>
    }
  }

  lemma ClosedRetainsNothing(s: State)
    requires Inv(s)
    ensures s.closed ==> s.retained == map[]
  {
    hide SubInv, Open, GapFree;
  }

  // ---- Receives and channels ----

  lemma OfferAfterReceive(s: State, id: nat, other: nat, event: Event, at: nat)
    requires other in s.live && other != id && (id in s.live ==> id !in s.gone)
    ensures other in Received(s, id).live
    ensures Offer(Received(s, id), other, event, at) == Received(Offer(s, other, event, at), id)
    ensures id in Offer(s, other, event, at).live ==> id !in Offer(s, other, event, at).gone
  {
    assert other in Received(s, id).live && Received(s, id).live[other] == s.live[other];
    SentAfterReceive(s, id, other, event);
    OverflownAfterReceive(s, id, other, at);
    hide Sent, Overflown, Received;
  }

  lemma SentAfterReceive(s: State, id: nat, other: nat, event: Event)
    requires other in s.live && other != id && other in Received(s, id).live
    ensures Sent(Received(s, id), other, event) == Received(Sent(s, other, event), id)
    ensures id in Sent(s, other, event).live && (id in s.live ==> id !in s.gone) ==> id !in Sent(s, other, event).gone
  {
    hide Pushed;
    assert Sent(Received(s, id), other, event).live == Received(Sent(s, other, event), id).live;
  }

  lemma OverflownAfterReceive(s: State, id: nat, other: nat, at: nat)
    requires other in s.live && other != id && other in Received(s, id).live
    ensures Overflown(Received(s, id), other, at) == Received(Overflown(s, other, at), id)
    ensures id in Overflown(s, other, at).live && (id in s.live ==> id !in s.gone) ==>
            id !in Overflown(s, other, at).gone
  {
    hide Pushed;
    if id in s.live && s.live[id].buf != [] {
      DropAndSet(s.live, other, id, s.live[id].(buf := s.live[id].buf[1..]));
    } else if id in s.gone && s.gone[id].buf != [] {
      var overflow := Event(OVERFLOW_TOPIC, s.nextEvent + 1, false, OVERFLOW_DATA);
      var ended := Pushed(s.live[other], overflow).(end := Some(End(at, Some(overflow))));
      SetBoth(s.gone, other, ended, id, s.gone[id].(buf := s.gone[id].buf[1..]));
    }
  }

  lemma DropAndSet<V>(m: map<nat, V>, dropped: nat, id: nat, v: V)
    requires dropped != id
    ensures m[id := v] - {dropped} == (m - {dropped})[id := v]
  {
  }

  lemma SetBoth<V>(m: map<nat, V>, a: nat, va: V, b: nat, vb: V)
    requires a != b
    ensures m[a := va][b := vb] == m[b := vb][a := va]
  {
  }

  /** Offers to others do not see a receive. */
  lemma {:induction false} OffersAfterReceive(s: State, id: nat, order: seq<nat>, event: Event, at: nat)
    requires id !in order && (id in s.live ==> id !in s.gone)
    ensures OfferAll(Received(s, id), order, event, at) == Received(OfferAll(s, order, event, at), id)
    decreases |order|
  {
    hide Offer;
    if order != [] {
      var s' := if order[0] in s.live then Offer(s, order[0], event, at) else s;
      if order[0] in s.live {
        OfferAfterReceive(s, id, order[0], event, at);
      }
      assert order[0] in Received(s, id).live <==> order[0] in s.live;
      OffersAfterReceive(s', id, order[1..], event, at);
    }
  }

  lemma {:induction false} OfferAllConcat(s: State, a: seq<nat>, b: seq<nat>, event: Event, at: nat)
    ensures OfferAll(s, a + b, event, at) == OfferAll(OfferAll(s, a, event, at), b, event, at)
    decreases |a|
  {
    hide Offer;
    if a == [] {
      assert a + b == b;
    } else {
      assert (a + b)[1..] == a[1..] + b;
      OfferAllConcat(if a[0] in s.live then Offer(s, a[0], event, at) else s, a[1..], b, event, at);
    }
  }

  /** A receive while the loop of Publish stands between a and b is one before the loop, or one behind it. */
  lemma ReceiveDuringPublish(s: State, id: nat, a: seq<nat>, b: seq<nat>, event: Event, at: nat)
    requires Apart(s) && forall i, j :: 0 <= i < j < |a + b| ==> (a + b)[i] != (a + b)[j]
    ensures var during := OfferAll(Received(OfferAll(s, a, event, at), id), b, event, at);
            || during == OfferAll(Received(s, id), a + b, event, at)
            || during == Received(OfferAll(s, a + b, event, at), id)
  {
    OfferAllConcat(s, a, b, event, at);
    OfferAllConcat(Received(s, id), a, b, event, at);
    if id in a {
      var i :| 0 <= i < |a| && a[i] == id;
      forall j | 0 <= j < |b| ensures b[j] != id {
        assert (a + b)[i] == id && (a + b)[|a| + j] == b[j];
      }
      OfferAllApart(s, a, event, at);
      hide OfferAll, Received;
      OffersAfterReceive(OfferAll(s, a, event, at), id, b, event, at);
    } else {
      OffersAfterReceive(s, id, a, event, at);
    }
  }

  lemma {:induction false} OfferAllApart(s: State, order: seq<nat>, event: Event, at: nat)
    requires Apart(s)
    ensures Apart(OfferAll(s, order, event, at))
    decreases |order|
  {
    hide Offer, Apart;
    if order != [] {
      if order[0] in s.live {
        OfferContinues(s, order[0], event, at);
      }
      OfferAllApart(if order[0] in s.live then Offer(s, order[0], event, at) else s, order[1..], event, at);
    }
  }

  /** No channel holds more than it has room for. */
  ghost predicate Fits(s: State) {
    && (forall id :: id in s.live ==> |s.live[id].buf| <= s.live[id].cap)
    && forall id :: id in s.gone ==> |s.gone[id].buf| <= s.gone[id].cap
  }

  /** The send to id finds a free slot. */
  ghost predicate Free(s: State, id: nat, event: Event) {
    id in s.live && event.topic in s.live[id].topics ==> |s.live[id].buf| < s.live[id].cap
  }

  lemma OfferFits(s: State, id: nat, event: Event, at: nat)
    requires id in s.live && Fits(s) && Free(s, id, event)
    ensures Fits(Offer(s, id, event, at))
    ensures forall other :: other != id && Free(s, other, event) ==> Free(Offer(s, id, event, at), other, event)
  {
  }

  lemma {:induction false} OfferAllFits(s: State, order: seq<nat>, event: Event, at: nat)
    requires Fits(s) && (forall k :: 0 <= k < |order| ==> Free(s, order[k], event))
    requires forall i, j :: 0 <= i < j < |order| ==> order[i] != order[j]
    ensures Fits(OfferAll(s, order, event, at))
    decreases |order|
  {
    hide Fits, Free, Offer;
    if order != [] {
      if order[0] in s.live {
        OfferFits(s, order[0], event, at);
      }
      OfferAllFits(if order[0] in s.live then Offer(s, order[0], event, at) else s, order[1..], event, at);
    }
  }

  lemma PublishFits(s: State, topic: string, data: string, valid: bool, retain: bool, order: seq<nat>)
    requires Fits(s) && !Blocks(s, topic) && Visits(order, s.live)
    ensures Fits(PublishedTo(s, topic, data, valid, retain, order))
  {
    hide OfferAll;
    if PublishError(s, topic, data, valid, retain).None? {
      OfferAllFits(Recorded(s, topic, data, retain), order, Event(topic, s.nextEvent + 1, false, data), |s.published|);
    }
  }

  lemma SubscribeFits(s: State, topics: set<string>, sorted: seq<string>)
    requires Fits(s) && Sorting(sorted, topics)
    ensures Fits(Subscribed(s, topics, sorted))
  {
    hide Sorting, Replay;
    SortingSize(sorted, topics);
    FullReplay(s.retained, sorted);
  }

  lemma StepFits(s: State, step: Step, t: State)
    requires Fits(s) && Next(s, step, t)
    ensures Fits(t)
  {
    match step
    case Pub(topic, data, valid, retain, order) => PublishFits(s, topic, data, valid, retain, order);
    case Sub(topics, sorted) => SubscribeFits(s, topics, sorted);
    case _ =>
  }

  /** No send ever goes into a full channel. */
  lemma {:induction false} ChannelsFit(trace: seq<State>, steps: seq<Step>, i: nat)
    requires Run(trace, steps) && i < |trace|
    ensures Fits(trace[i])
  {
    hide Next, Fits;
    if i == 0 {
      assert Fits(START) by { NothingOpen(); }
    } else {
      ChannelsFit(trace, steps, i - 1);
      StepFits(trace[i - 1], steps[i - 1], trace[i]);
    }
  }

  lemma NothingOpen()
    ensures Fits(START)
  {
  }

  lemma BlocksAt(s: State, topic: string, id: nat)
    requires id in s.live && topic in s.live[id].topics && |s.live[id].buf| >= s.live[id].cap
    ensures Blocks(s, topic)
  {
  }

  lemma NotBlocked(s: State, order: seq<nat>, event: Event)
    requires Visits(order, s.live) && forall k :: 0 <= k < |order| ==> Free(s, order[k], event)
    ensures !Blocks(s, event.topic)
  {
    forall id | id in s.live ensures Free(s, id, event) {
      assert id in order;
    }
  }

  lemma OfferSnoc(s: State, order: seq<nat>, i: nat, event: Event, at: nat)
    requires i < |order|
    ensures var t := OfferAll(s, order[..i], event, at);
            OfferAll(s, order[..i + 1], event, at) == if order[i] in t.live then Offer(t, order[i], event, at) else t
  {
    assert order[..i + 1] == order[..i] + [order[i]];
    OfferAllConcat(s, order[..i], [order[i]], event, at);
    hide Offer;
    assert [order[i]][1..] == [];
  }

  lemma RecordedBlocks(s: State, topic: string, data: string, retain: bool)
    ensures Blocks(Recorded(s, topic, data, retain), topic) <==> Blocks(s, topic)
  {
  }

  lemma ClosedAllIs(s: State)
    ensures !s.closed ==>
              ClosedAll(s) == s.(closed := true, live := map[], retained := map[],
                                 gone := s.gone + map id | id in s.live :: Ended(s, id))
  {
  }

  lemma NothingOffered(s: State, order: seq<nat>, event: Event, at: nat)
    ensures OfferAll(s, order[..0], event, at) == s
  {
  }

  // ---- The broker object ----

  ghost function SubscribeError(s: State, topics: seq<string>): Option<Error> {
    if topics == [] then Some(NoTopics)
    else if |topics| > MAX_TOPICS then Some(TooManyTopics)
    else if exists t :: t in topics && !ValidTopic(t) then Some(InvalidTopic)
    else if s.closed then Some(Closed)
    else None
  }

  lemma {:induction false} SetSize(topics: seq<string>)
    ensures |set t | t in topics| <= |topics|
    ensures topics != [] ==> (set t | t in topics) != {}
  {
    if topics != [] {
      SetSize(topics[1..]);
      assert (set t | t in topics) == {topics[0]} + (set t | t in topics[1..]);
    }
  }

  /** What the source keeps of a subscriber. */
  datatype Channel = Channel(topics: set<string>, cap: nat, buf: seq<Event>)

  function ChannelOf(sub: Subscriber): Channel {
    Channel(sub.topics, sub.cap, sub.buf)
  }

  class Broker {
    var nextEvent: nat
    var nextSub: nat
    var retained: map<string, Event>
    var subscribers: map<nat, Channel>
    var closed: bool
    // The subscriptions and events so far.
    ghost var live: map<nat, Subscriber>
    ghost var gone: map<nat, Subscriber>
    ghost var published: seq<Event>
    ghost var issued: seq<Event>

    ghost function Now(): State
      reads this
    {
      State(nextEvent, nextSub, retained, live, closed, gone, published, issued)
    }

    /** The channels are those of the open subscriptions. */
    ghost predicate Valid()
      reads this
    {
      subscribers == map id | id in live :: ChannelOf(live[id])
    }

    constructor ()
      ensures Valid() && Now() == START
    {
      nextEvent, nextSub, retained, subscribers, closed := 0, 0, map[], map[], false;
      live, gone, published, issued := map[], map[], [], [];
    }

    /**
     Publish, visiting the subscribers in the given order. Its checks come before a number is used. A send into a full
     channel waits: then `waits` is the visit it has come to, and it goes on from there once that channel was read.
     */
    method Publish(topic: string, data: string, valid: bool, retain: bool, order: seq<nat>)
      returns (err: Option<Error>, waits: Option<nat>)
      requires Valid() && Visits(order, live)
      modifies this
      ensures Valid()
      ensures err == PublishError(old(Now()), topic, data, valid, retain)
      ensures err.Some? ==> Now() == old(Now()) && waits.None?
      ensures err.None? && waits.None? ==> Next(old(Now()), Pub(topic, data, valid, retain, order), Now())
      ensures err.None? ==> (waits.Some? <==> Blocks(old(Now()), topic))
      ensures waits.Some? ==>
                var event, i := Event(topic, old(nextEvent) + 1, false, data), waits.value;
                && i < |order| && order[i] in live && !Free(Now(), order[i], event)
                && Now() == OfferAll(Recorded(old(Now()), topic, data, retain), order[..i], event, |old(published)|)
    {
      waits := None;
      hide ValidTopic, OfferAll, Blocks, Visits, Free, CanSubscribe, Sorting, Cleared, ClosedAll, Unsubscribed,
           Subscribed, Received;
      if !ValidTopic(topic) {
        return Some(InvalidTopic), None;
      }
      if |data| > MAX_PAYLOAD {
        return Some(PayloadTooLarge), None;
      }
      if !valid {
        return Some(InvalidPayload), None;
      }
      if closed {
        return Some(Closed), None;
      }
      if retain && topic !in retained && |retained| >= MAX_RETAINED {
        return Some(TooManyRetained), None;
      }
      err := None;
      nextEvent := nextEvent + 1;
      var event := Event(topic, nextEvent, false, data);
      ghost var at := |published|;
      published, issued := published + [event], issued + [event];
      if retain {
        retained := retained[topic := event];
      }
      RecordedBlocks(old(Now()), topic, data, retain);
      waits := SendAll(order, event, at);
    }

    /** The loop of Publish over the subscribers. */
    method SendAll(order: seq<nat>, event: Event, ghost at: nat) returns (waits: Option<nat>)
      requires Valid() && Visits(order, live)
      modifies this
      ensures Valid() && (waits.Some? <==> Blocks(old(Now()), event.topic))
      ensures waits.None? ==> Now() == OfferAll(old(Now()), order, event, at)
      ensures waits.Some? ==>
                var i := waits.value;
                && i < |order| && order[i] in live && !Free(Now(), order[i], event)
                && Now() == OfferAll(old(Now()), order[..i], event, at)
    {
      hide Offer, OfferAll, Blocks;
      ghost var start := Now();
      NothingOffered(start, order, event, at);
      for i := 0 to |order|
        invariant Valid() && Now() == OfferAll(start, order[..i], event, at)
        invariant forall k :: 0 <= k < i ==> Free(start, order[k], event)
        invariant forall k :: i <= k < |order| ==> order[k] in live && live[order[k]] == start.live[order[k]]
      {
        var sub := subscribers[order[i]];
        if event.topic in sub.topics && |sub.buf| >= sub.cap {
          BlocksAt(start, event.topic, order[i]);
          return Some(i);
        }
        OfferSnoc(start, order, i, event, at);
        OfferTo(order[i], event, at);
      }
      assert order[..|order|] == order;
      NotBlocked(start, order, event);
      waits := None;
    }

    /** The send to one subscriber; its channel has a free slot. */
    method OfferTo(id: nat, event: Event, ghost at: nat)
      requires Valid() && id in live && Free(Now(), id, event)
      modifies this
      ensures Valid() && Now() == Offer(old(Now()), id, event, at)
      ensures forall other :: other != id && other in old(live) ==> other in live && live[other] == old(live[other])
    {
      var sub := subscribers[id];
      if event.topic !in sub.topics {
        return;
      }
      if |sub.buf| + 1 >= sub.cap {
        nextEvent := nextEvent + 1;
        var overflow := Event(OVERFLOW_TOPIC, nextEvent, false, OVERFLOW_DATA);
        subscribers := subscribers - {id};
        gone := gone[id := Pushed(live[id], overflow).(end := Some(End(at, Some(overflow))))];
        live, issued := live - {id}, issued + [overflow];
        return;
      }
      subscribers := subscribers[id := sub.(buf := sub.buf + [event])];
      live := live[id := Pushed(live[id], event)];
    }

    /** Subscribe; sorted is the topics in ascending order. The topic list may repeat a topic. */
    method Subscribe(topics: seq<string>, sorted: seq<string>) returns (r: Option<nat>, err: Option<Error>)
      requires Valid() && Sorting(sorted, set t | t in topics)
      modifies this
      ensures Valid()
      ensures err == SubscribeError(old(Now()), topics)
      ensures err.Some? ==> Now() == old(Now()) && r == None
      ensures err.None? ==> Next(old(Now()), Sub((set t | t in topics), sorted), Now()) && r == Some(nextSub)
    {
      hide ValidTopic, Sorting, Replay;
      var chosen: set<string>;
      chosen, err := CheckTopics(topics);
      if err.Some? {
        return None, err;
      }
      if closed {
        return None, Some(Closed);
      }
      nextSub := nextSub + 1;
      var replay := ReplayEvents(sorted);
      var capacity := if |chosen| > BUFFER_SIZE then |chosen| else BUFFER_SIZE;
      subscribers := subscribers[nextSub := Channel(chosen, capacity, replay)];
      live := live[nextSub := Subscriber(chosen, capacity, replay, replay, replay, |published|, None)];
      SetSize(topics);
      return Some(nextSub), None;
    }

    /** The checks of Subscribe before the lock; the topics as a set. */
    method CheckTopics(topics: seq<string>) returns (chosen: set<string>, err: Option<Error>)
      ensures err == SubscribeError(Now().(closed := false), topics)
      ensures err.None? ==> chosen == (set t | t in topics) && forall t :: t in topics ==> ValidTopic(t)
    {
      hide ValidTopic;
      if |topics| == 0 {
        return {}, Some(NoTopics);
      }
      if |topics| > MAX_TOPICS {
        return {}, Some(TooManyTopics);
      }
      chosen := {};
      for i := 0 to |topics|
        invariant chosen == set t | t in topics[..i]
        invariant forall t :: t in topics[..i] ==> ValidTopic(t)
      {
        assert topics[..i + 1] == topics[..i] + [topics[i]];
        if !ValidTopic(topics[i]) {
          return {}, Some(InvalidTopic);
        }
        chosen := chosen + {topics[i]};
      }
      assert topics[..|topics|] == topics;
      err := None;
    }

    /** The retained events of the topics, in their order. */
    method ReplayEvents(sorted: seq<string>) returns (replay: seq<Event>)
      ensures replay == Replay(retained, sorted)
    {
      replay := [];
      assert sorted[0..] == sorted;
      for i := 0 to |sorted|
        invariant Replay(retained, sorted) == replay + Replay(retained, sorted[i..])
      {
        assert sorted[i..][0] == sorted[i] && sorted[i..][1..] == sorted[i + 1..];
        if sorted[i] in retained {
          replay := replay + [retained[sorted[i]].(retained := true)];
        }
      }
    }

    method Unsubscribe(id: nat)
      requires Valid()
      modifies this
      ensures Valid() && Now() == Unsubscribed(old(Now()), id)
    {
      if id in subscribers {
        subscribers := subscribers - {id};
        gone, live := gone[id := live[id].(end := Some(End(|published|, None)))], live - {id};
      }
    }

    /** ClearPrefix; order is the order in which the retained topics are visited. */
    method ClearPrefix(prefix: string, order: seq<string>)
      requires Valid() && forall topic :: topic in order <==> topic in retained
      modifies this`retained
      ensures Valid() && Now() == Cleared(old(Now()), prefix)
    {
      for i := 0 to |order|
        invariant forall topic :: topic in retained <==>
                    topic in old(retained) && !(topic in order[..i] && HasPrefix(topic, prefix))
        invariant forall topic :: topic in retained ==> retained[topic] == old(retained)[topic]
      {
        assert order[..i + 1] == order[..i] + [order[i]];
        if HasPrefix(order[i], prefix) {
          retained := retained - {order[i]};
        }
      }
      assert order[..|order|] == order;
    }

    method Close()
      requires Valid()
      modifies this
      ensures Valid() && Now() == ClosedAll(old(Now()))
    {
      if !closed {
        hide ClosedAll;
        ClosedAllIs(Now());
        closed := true;
        subscribers := map[];
        retained := map[];
        gone, live := gone + map id | id in live :: Ended(old(Now()), id), map[];
      }
    }
  }
}
