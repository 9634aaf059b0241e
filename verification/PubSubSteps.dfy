/**
 What each call of the broker does, told by the topics, the events and the channels before and after it: which topics
 are names, what a publication means for each subscriber, what a new subscriber is sent first, what clearing removes.
 */
module PubSubSteps {
  import opened Common
  import opened PubSub

  // ---- Topics ----

  predicate NameChar(c: char) {
    'a' <= c <= 'z' || 'A' <= c <= 'Z' || '0' <= c <= '9' || c == '_' || c == '-'
  }

  predicate Label(s: string) {
    s != "" && forall k :: 0 <= k < |s| ==> NameChar(s[k])
  }

  function Dotted(labels: seq<string>): string
    requires labels != []
  {
    if |labels| == 1 then labels[0] else labels[0] + "." + Dotted(labels[1..])
  }

  /** topic is one or more non-empty labels with a dot between them. */
  ghost predicate HasLabels(topic: string) {
    exists labels: seq<string> :: labels != [] && (forall k :: 0 <= k < |labels| ==> Label(labels[k]))
                                  && Dotted(labels) == topic
  }

  /** What ValidTopic asks of the characters. */
  predicate Shaped(s: string) {
    && s != "" && s[0] != '.' && s[|s| - 1] != '.'
    && (forall k :: 0 <= k < |s| ==> NameChar(s[k]) || s[k] == '.')
    && (forall k :: 0 <= k < |s| - 1 ==> !(s[k] == '.' && s[k + 1] == '.'))
  }

  /** The topics to publish on and to subscribe to: dotted names of up to 256 characters, but for the overflow's. */
  lemma TopicIsDottedName(topic: string)
    ensures ValidTopic(topic) <==> HasLabels(topic) && |topic| <= 256 && topic != "system.overflow"
  {
    assert ValidTopic(topic) <==> Shaped(topic) && |topic| <= 256 && topic != "system.overflow";
    if Shaped(topic) {
      var labels := Split(topic);
    }
    hide ValidTopic, Shaped;
    if HasLabels(topic) {
      var labels: seq<string> :| labels != [] && (forall k :: 0 <= k < |labels| ==> Label(labels[k]))
                                 && Dotted(labels) == topic;
      DottedShaped(labels);
    }
  }

  lemma {:induction false} Split(s: string) returns (labels: seq<string>)
    requires Shaped(s)
    ensures labels != [] && (forall k :: 0 <= k < |labels| ==> Label(labels[k])) && Dotted(labels) == s
    decreases |s|
  {
    if i :| 0 <= i < |s| && s[i] == '.' && forall k :: 0 <= k < i ==> s[k] != '.' {
      Behind(s, i);
      var rest := Split(s[i + 1..]);
      labels := [s[..i]] + rest;
      assert labels[1..] == rest && s == s[..i] + "." + s[i + 1..];
    } else {
      NoDot(s, |s|);
      labels := [s];
    }
  }

  lemma Behind(s: string, i: nat)
    requires Shaped(s) && i < |s| && s[i] == '.'
    ensures Shaped(s[i + 1..])
  {
    hide NameChar;
    var rest := s[i + 1..];
    assert forall k :: 0 <= k < |rest| ==> rest[k] == s[i + 1 + k];
    assert rest[0] == s[i + 1];
  }

  lemma {:induction false} NoDot(s: string, n: nat)
    requires n <= |s| && !exists i :: 0 <= i < |s| && s[i] == '.' && forall k :: 0 <= k < i ==> s[k] != '.'
    ensures forall k :: 0 <= k < n ==> s[k] != '.'
  {
    if n > 0 {
      NoDot(s, n - 1);
    }
  }

  lemma {:induction false} DottedShaped(labels: seq<string>)
    requires labels != [] && forall k :: 0 <= k < |labels| ==> Label(labels[k])
    ensures Shaped(Dotted(labels))
    decreases |labels|
  {
    if |labels| > 1 {
      DottedShaped(labels[1..]);
      Joined(labels[0], Dotted(labels[1..]));
    }
  }

  lemma Joined(first: string, rest: string)
    requires Label(first) && Shaped(rest)
    ensures Shaped(first + "." + rest)
  {
    var s := first + "." + rest;
    var n := |first|;
    assert forall k :: n < k < |s| ==> s[k] == rest[k - n - 1];
    assert s[|s| - 1] == rest[|rest| - 1] && s[n + 1] == rest[0];
  }

  /** Publish goes through exactly for a valid topic and payload, while the broker is open, up to 256 events to keep. */
  lemma PublishAccepts(s: State, topic: string, data: string, valid: bool, retain: bool)
    ensures PublishError(s, topic, data, valid, retain).None?
            <==> && ValidTopic(topic) && |data| <= 65536 && valid && !s.closed
                 && (retain ==> topic in s.retained || |s.retained| < 256)
  {
  }

  // ---- Publications ----

  /** sub became after: it was sent the overflow event of that number, and nothing since. */
  ghost predicate EndedBy(sub: Subscriber, after: Subscriber, at: nat, number: nat) {
    var overflow := Event("system.overflow", number, false, "{\"resync_required\":true}");
    after == sub.(buf := sub.buf + [overflow], sent := sub.sent + [overflow], end := Some(End(at, Some(overflow))))
  }

  /**
   What event means for subscriber id: nothing if it is on another topic; it is added to the channel if that leaves a
   slot free behind it; otherwise the overflow event takes that slot and the channel is closed.
   */
  ghost predicate Reached(s: State, t: State, id: nat, event: Event, at: nat)
    requires id in s.live
  {
    var sub := s.live[id];
    if event.topic !in sub.topics then id in t.live && t.live[id] == sub
    else if |sub.buf| + 2 <= sub.cap then
      id in t.live && t.live[id] == sub.(buf := sub.buf + [event], sent := sub.sent + [event])
    else
      && id !in t.live && id in t.gone
      && exists number: nat :: event.number < number <= t.nextEvent && EndedBy(sub, t.gone[id], at, number)
  }

  lemma OfferReaches(s: State, id: nat, event: Event, at: nat)
    requires id in s.live && event.number <= s.nextEvent
    ensures Reached(s, Offer(s, id, event, at), id, event, at)
    ensures s.nextEvent <= Offer(s, id, event, at).nextEvent
    ensures forall other :: other != id ==> Alike(s, Offer(s, id, event, at), other)
  {
    assert s.nextEvent + 1 > event.number;
    var t := Offer(s, id, event, at);
    if id !in t.live {
      assert EndedBy(s.live[id], t.gone[id], at, s.nextEvent + 1);
    }
  }

  /** Subscriber id is the same in s and t. */
  ghost predicate Alike(s: State, t: State, id: nat) {
    && (id in s.live <==> id in t.live) && (id in s.live ==> s.live[id] == t.live[id])
    && (id in s.gone <==> id in t.gone) && (id in s.gone ==> s.gone[id] == t.gone[id])
  }

  lemma {:induction false} OthersAlike(s: State, order: seq<nat>, event: Event, at: nat, id: nat)
    requires id !in order && event.number <= s.nextEvent
    ensures Alike(s, OfferAll(s, order, event, at), id) && s.nextEvent <= OfferAll(s, order, event, at).nextEvent
    decreases |order|
  {
    if order != [] {
      hide Offer, Reached;
      if order[0] in s.live {
        OfferReaches(s, order[0], event, at);
        OthersAlike(Offer(s, order[0], event, at), order[1..], event, at, id);
      } else {
        OthersAlike(s, order[1..], event, at, id);
      }
    }
  }

  lemma {:induction false} OfferAllReaches(s: State, order: seq<nat>, event: Event, at: nat, id: nat)
    requires id in order && id in s.live && event.number <= s.nextEvent
    requires forall i, j :: 0 <= i < j < |order| ==> order[i] != order[j]
    ensures Reached(s, OfferAll(s, order, event, at), id, event, at)
    decreases |order|
  {
    hide Offer, Reached, Alike;
    var t := if order[0] in s.live then Offer(s, order[0], event, at) else s;
    if order[0] in s.live {
      OfferReaches(s, order[0], event, at);
    }
    if order[0] == id {
      OthersAlike(t, order[1..], event, at, id);
      hide OfferAll;
      StaysReached(s, t, OfferAll(t, order[1..], event, at), id, event, at);
    } else {
      SelfAlike(s, id);
      AlikeLive(s, t, id);
      OfferAllReaches(t, order[1..], event, at, id);
      hide OfferAll;
      ReachedFrom(s, t, OfferAll(t, order[1..], event, at), id, event, at);
    }
  }

  lemma SelfAlike(s: State, id: nat)
    ensures Alike(s, s, id)
  {
  }

  lemma AlikeLive(s: State, t: State, id: nat)
    requires Alike(s, t, id)
    ensures id in s.live <==> id in t.live
  {
  }

  lemma StaysReached(s: State, t: State, u: State, id: nat, event: Event, at: nat)
    requires id in s.live && Reached(s, t, id, event, at) && Alike(t, u, id) && t.nextEvent <= u.nextEvent
    ensures Reached(s, u, id, event, at)
  {
    hide EndedBy;
  }

  lemma ReachedFrom(s: State, t: State, u: State, id: nat, event: Event, at: nat)
    requires id in s.live && Alike(s, t, id) && id in t.live && Reached(t, u, id, event, at)
    ensures Reached(s, u, id, event, at)
  {
    hide EndedBy;
  }

  /**
   One publication: it takes the next number, it is retained if asked for, and it reaches every subscriber, whatever
   the order of the visits; closed subscriptions stay as they are.
   */
  lemma PublishReachesAll(s: State, topic: string, data: string, valid: bool, retain: bool, order: seq<nat>)
    requires PublishError(s, topic, data, valid, retain).None? && Visits(order, s.live)
    ensures var t := PublishedTo(s, topic, data, valid, retain, order);
            var event := Event(topic, s.nextEvent + 1, false, data);
            && (forall id :: id in s.live ==> Reached(s, t, id, event, |s.published|))
            && (forall id :: id !in s.live ==> Alike(s, t, id))
            && t.retained == if retain then s.retained[topic := event] else s.retained
  {
    hide OfferAll, Alike, Reached;
    var event := Event(topic, s.nextEvent + 1, false, data);
    var r := Recorded(s, topic, data, retain);
    var t := OfferAll(r, order, event, |s.published|);
    PublishRetains(s, topic, data, valid, retain, order);
    hide PublishError;
    forall id | id in s.live ensures Reached(s, t, id, event, |s.published|) {
      OfferAllReaches(r, order, event, |s.published|, id);
      SelfAlikeBut(s, r, id);
      ReachedFrom(s, r, t, id, event, |s.published|);
    }
    forall id | id !in s.live ensures Alike(s, t, id) {
      OthersAlike(r, order, event, |s.published|, id);
      SelfAlikeBut(s, r, id);
      AlikeTrans(s, r, t, id);
    }
  }

  lemma SelfAlikeBut(s: State, r: State, id: nat)
    requires r.live == s.live && r.gone == s.gone
    ensures Alike(s, r, id)
  {
  }

  lemma AlikeTrans(s: State, t: State, u: State, id: nat)
    requires Alike(s, t, id) && Alike(t, u, id)
    ensures Alike(s, u, id)
  {
  }

  // ---- Subscriptions ----

  /** Subscribe goes through exactly for one to 32 valid topics, repeats counted, while the broker is open. */
  lemma SubscribeAccepts(s: State, topics: seq<string>)
    ensures SubscribeError(s, topics).None?
            <==> 1 <= |topics| <= 32 && (forall k :: 0 <= k < |topics| ==> ValidTopic(topics[k])) && !s.closed
  {
    hide ValidTopic;
  }

  /** A new subscription gets the next number and room for 32 events, and all others stay as they are. */
  lemma SubscribeStarts(s: State, topics: set<string>, sorted: seq<string>)
    requires Inv(s) && CanSubscribe(s, topics) && Sorting(sorted, topics)
    ensures var t, id := Subscribed(s, topics, sorted), s.nextSub + 1;
            && id !in s.live && id !in s.gone && t.nextSub == id && id in t.live
            && t == s.(nextSub := id, live := t.live)
            && (forall other :: other != id ==> Alike(s, t, other))
            && (var sub := t.live[id];
                sub.topics == topics && sub.cap == 32 && ReplayOf(sub.buf, s.retained, topics) && sub.sent == sub.buf)
  {
    hide Replay, Sorting, ReplayOf, GapFree, SubInv, Open, Less, ValidTopic;
    ReplayIs(s.retained, sorted, topics);
  }

  // ---- Retained events ----

  ghost predicate Replayed(event: Event, retained: map<string, Event>, topics: set<string>) {
    event.topic in topics && event.topic in retained && event == retained[event.topic].(retained := true)
  }

  ghost predicate Answers(replay: seq<Event>, topic: string) {
    exists k :: 0 <= k < |replay| && replay[k].topic == topic
  }

  ghost predicate Ascending(replay: seq<Event>) {
    forall i, j :: 0 <= i < j < |replay| ==> Less(replay[i].topic, replay[j].topic)
  }

  /** replay holds the retained events of topics, flagged as such, by topic in ascending order. */
  ghost predicate ReplayOf(replay: seq<Event>, retained: map<string, Event>, topics: set<string>) {
    && Ascending(replay) && (forall k :: 0 <= k < |replay| ==> Replayed(replay[k], retained, topics))
    && forall topic :: topic in topics && topic in retained ==> Answers(replay, topic)
  }

  /** A new subscriber is first sent what is retained for its topics, and nothing else. */
  lemma {:induction false} ReplayIs(retained: map<string, Event>, sorted: seq<string>, topics: set<string>)
    requires Sorting(sorted, topics) && forall topic :: topic in retained ==> retained[topic].topic == topic
    ensures ReplayOf(Replay(retained, sorted), retained, topics)
    decreases |sorted|
  {
    if sorted != [] {
      var first, rest, tail := sorted[0], topics - {sorted[0]}, Replay(retained, sorted[1..]);
      FirstTopic(sorted, topics);
      SortedRest(sorted, topics);
      hide Less, Sorting, ReplayOf;
      ReplayIs(retained, sorted[1..], rest);
      if first in retained {
        ReplayGrows(tail, retained, topics, first);
      } else {
        assert [] + tail == tail;
        ReplayStays(tail, retained, topics, first);
      }
    }
  }

  lemma FirstTopic(sorted: seq<string>, topics: set<string>)
    requires Sorting(sorted, topics) && sorted != []
    ensures sorted[0] in topics && forall t :: t in topics && t != sorted[0] ==> Less(sorted[0], t)
  {
    hide Less;
    forall t | t in topics && t != sorted[0] ensures Less(sorted[0], t) {
      var k :| 0 <= k < |sorted| && sorted[k] == t;
    }
  }

  lemma ReplayGrows(tail: seq<Event>, retained: map<string, Event>, topics: set<string>, first: string)
    requires first in topics && first in retained && retained[first].topic == first
    requires ReplayOf(tail, retained, topics - {first})
    requires forall t :: t in topics && t != first ==> Less(first, t)
    ensures ReplayOf([retained[first].(retained := true)] + tail, retained, topics)
  {
    hide Less, Answers, Ascending;
    var head := retained[first].(retained := true);
    forall topic | topic in topics && topic in retained ensures Answers([head] + tail, topic) {
      AnswersGrow(head, tail, topic);
    }
    AscendingGrows(head, tail);
  }

  lemma AnswersGrow(head: Event, tail: seq<Event>, topic: string)
    ensures Answers([head] + tail, topic) <== head.topic == topic || Answers(tail, topic)
  {
    var replay := [head] + tail;
    if head.topic == topic {
      assert replay[0].topic == topic;
    } else if Answers(tail, topic) {
      var k :| 0 <= k < |tail| && tail[k].topic == topic;
      assert replay[k + 1].topic == topic;
    }
  }

  lemma AscendingGrows(head: Event, tail: seq<Event>)
    requires Ascending(tail) && forall k :: 0 <= k < |tail| ==> Less(head.topic, tail[k].topic)
    ensures Ascending([head] + tail)
  {
    hide Less;
  }

  lemma ReplayStays(tail: seq<Event>, retained: map<string, Event>, topics: set<string>, first: string)
    requires first !in retained && ReplayOf(tail, retained, topics - {first})
    ensures ReplayOf(tail, retained, topics)
  {
    hide Less;
  }

  lemma SortedRest(sorted: seq<string>, topics: set<string>)
    requires Sorting(sorted, topics) && sorted != []
    ensures Sorting(sorted[1..], topics - {sorted[0]})
  {
    hide Less;
    assert forall k :: 1 <= k < |sorted| ==> Less(sorted[0], sorted[k]);
    Irreflexive(sorted[0]);
    assert forall k :: 1 <= k < |sorted| ==> sorted[k] == sorted[1..][k - 1];
  }

  /** In every run the broker retains at most 256 events. */
  lemma {:induction false} RetainedBounded(trace: seq<State>, steps: seq<Step>, i: nat)
    requires Run(trace, steps) && i < |trace|
    ensures |trace[i].retained| <= 256
  {
    hide OfferAll, PublishedTo, PublishError, Blocks, Visits, CanSubscribe, Sorting, HasPrefix;
    if i > 0 {
      var s := trace[i - 1];
      RetainedBounded(trace, steps, i - 1);
      assert Next(s, steps[i - 1], trace[i]);
      match steps[i - 1]
      case Pub(topic, data, valid, retain, order) =>
        PublishRetains(s, topic, data, valid, retain, order);
        PublishAccepts(s, topic, data, valid, retain);
      case ClearPrefix(prefix) => FewerRetained(s, prefix);
      case _ =>
    }
  }

  lemma FewerRetained(s: State, prefix: string)
    ensures |Cleared(s, prefix).retained| <= |s.retained|
  {
    var t := Cleared(s, prefix).retained;
    assert t.Keys <= s.retained.Keys;
    Subset(t.Keys, s.retained.Keys);
  }

  lemma Subset(a: set<string>, b: set<string>)
    requires a <= b
    ensures |a| <= |b|
  {
    assert b == a + (b - a);
  }

  /** Clearing takes away what is retained on topics that go on from prefix, and changes nothing else. */
  lemma ClearedExactly(s: State, prefix: string)
    ensures var t := Cleared(s, prefix);
            && t == s.(retained := t.retained)
            && (forall topic :: topic in t.retained ==> topic in s.retained && t.retained[topic] == s.retained[topic])
            && (forall rest :: prefix + rest !in t.retained)
            && forall topic :: topic in s.retained && topic !in t.retained ==> exists rest :: topic == prefix + rest
  {
    var t := Cleared(s, prefix);
    forall topic | topic in s.retained && topic !in t.retained ensures exists rest :: topic == prefix + rest {
      assert topic == prefix + topic[|prefix|..];
    }
  }
}
