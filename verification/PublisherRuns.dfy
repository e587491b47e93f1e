/** What the publisher guarantees over whole runs. */
module PublisherRuns {
  import opened Publishing

  // ---------- Conservation ----------

  predicate DistinctIds(events: seq<Event>) {
    forall i, j | 0 <= i < j < |events| :: events[i].messageId != events[j].messageId
  }

  /** Every accepted event is written, buffered or dropped, exactly once. */
  predicate Conserved(p: Publisher) {
    && DistinctIds(p.accepted)
    && multiset(p.wire) + multiset(p.buffer) + multiset(p.dropped) == multiset(p.accepted)
  }

  predicate Bounded(p: Publisher) {
    && |p.buffer| <= MAX_BUFFER
    && |p.tracked| <= MAX_TRACKED
    && forall id | id in p.tracked :: exists e :: e in p.wire && e.messageId == id
  }

  predicate Sound(p: Publisher) {
    Conserved(p) && Bounded(p)
  }

  lemma BufferConserves(p: Publisher, e: Event)
    requires |p.buffer| <= MAX_BUFFER
    ensures var q := BufferEvent(p, e);
            && multiset(q.buffer) + multiset(q.dropped) == multiset(p.buffer) + multiset(p.dropped) + multiset{e}
            && |q.buffer| <= MAX_BUFFER
  {
    if |p.buffer| >= MAX_BUFFER {
      assert p.buffer == [p.buffer[0]] + p.buffer[1..];
    }
  }

  lemma TrackBounded(ids: set<nat>, id: nat)
    requires |ids| <= MAX_TRACKED
    ensures |Track(ids, id)| <= MAX_TRACKED && id in Track(ids, id) && Track(ids, id) <= ids + {id}
  {
  }

  /** Tracking any number of events one after the other never holds more than the limit, holds
      nothing that was neither tracked before nor written, and always holds the latest. */
  lemma {:induction false} TrackAllBounded(ids: set<nat>, events: seq<Event>)
    requires |ids| <= MAX_TRACKED
    ensures |TrackAll(ids, events)| <= MAX_TRACKED
    ensures forall id | id in TrackAll(ids, events) :: id in ids || exists e :: e in events && e.messageId == id
    ensures events != [] ==> events[|events| - 1].messageId in TrackAll(ids, events)
  {
    if events != [] {
      var last := |events| - 1;
      TrackAllBounded(ids, events[..last]);
      TrackBounded(TrackAll(ids, events[..last]), events[last].messageId);
      assert events[last] in events;
      assert forall e | e in events[..last] :: e in events;
    }
  }

  lemma SplitIn(a: seq<Event>, b: seq<Event>, c: seq<Event>, all: seq<Event>)
    requires multiset(a) + multiset(b) + multiset(c) == multiset(all)
    ensures forall e :: e in all <==> e in a || e in b || e in c
  {
    forall e
      ensures e in all <==> e in a || e in b || e in c
    {
      assert e in all <==> e in multiset(all);
      assert (e in a <==> e in multiset(a)) && (e in b <==> e in multiset(b)) && (e in c <==> e in multiset(c));
    }
  }

  /** A new identifier has not been tracked. */
  lemma NotTracked(p: Publisher, e: Event)
    requires Sound(p) && forall x | x in p.accepted :: x.messageId != e.messageId
    ensures e.messageId !in p.tracked && e !in p.wire && e !in p.buffer && e !in p.dropped && e !in p.accepted
  {
    SplitIn(p.wire, p.buffer, p.dropped, p.accepted);
  }

  lemma SendSound(p: Publisher, e: Event)
    requires Sound(p) && forall x | x in p.accepted :: x.messageId != e.messageId
    ensures Sound(Send(p.(accepted := p.accepted + [e]), e))
  {
    TrackBounded(p.tracked, e.messageId);
    var wire := p.wire + [e];
    assert e in wire;
    assert forall x | x in p.wire :: x in wire;
  }

  lemma BufferSound(p: Publisher, e: Event)
    requires Sound(p) && forall x | x in p.accepted :: x.messageId != e.messageId
    ensures Sound(BufferEvent(p.(accepted := p.accepted + [e]), e))
  {
    var q := p.(accepted := p.accepted + [e]);
    BufferConserves(q, e);
    assert DistinctIds(q.accepted);
    var b := BufferEvent(q, e);
    assert multiset(q.accepted) == multiset(p.accepted) + multiset{e};
    assert multiset(b.wire) + multiset(b.buffer) + multiset(b.dropped)
        == multiset(p.wire) + (multiset(p.buffer) + multiset(p.dropped) + multiset{e});
  }

  lemma PublishSound(p: Publisher, e: Event, accepts: bool)
    requires Sound(p) && Enabled(p, Publish(e, accepts))
    ensures Sound(DoPublish(p, e, accepts))
    ensures DoPublish(p, e, accepts).accepted == p.accepted + [e]
  {
    hide Sound;
    NotTracked(p, e);
    SendSound(p, e);
    BufferSound(p, e);
  }

  /** An event once written is not written, waiting or dropped again while its identifier is tracked. */
  lemma WrittenIsNotRepeated(p: Publisher, e: Event, again: Event, accepts: bool)
    requires p.Live() && e.messageId !in p.tracked && again.messageId == e.messageId
    ensures var q := DoPublish(p, e, true); q.wire == p.wire + [e] && DoPublish(q, again, accepts) == q
  {
  }

  lemma FlushSound(p: Publisher, fates: seq<Fate>)
    requires Sound(p)
    ensures Sound(Flush(p, fates))
  {
    FlushConserves(p, fates);
    FlushBounded(p, fates);
  }

  lemma FlushConserves(p: Publisher, fates: seq<Fate>)
    requires Conserved(p)
    ensures Conserved(Flush(p, fates))
  {
    var marks := Marks(p.channel, fates, |p.buffer|);
    FlushDivides(p, fates);
    SelectDivides(p.buffer, marks);
    hide Select, Marks, Flush, TrackAll, DistinctIds;
    var sent, kept := Select(p.buffer, marks, true), Select(p.buffer, marks, false);
    assert multiset(p.wire + sent) == multiset(p.wire) + multiset(sent);
    assert multiset(p.wire) + (multiset(sent) + multiset(kept)) == multiset(p.wire) + multiset(sent) + multiset(kept);
  }

  lemma FlushBounded(p: Publisher, fates: seq<Fate>)
    requires Bounded(p)
    ensures Bounded(Flush(p, fates))
  {
    var sent := Select(p.buffer, Marks(p.channel, fates, |p.buffer|), true);
    FlushDivides(p, fates);
    TrackAllBounded(p.tracked, sent);
    hide Select, Marks, Flush, TrackAll, ChannelAfter;
    assert forall e | e in p.wire || e in sent :: e in p.wire + sent;
  }

  lemma StepSound(p: Publisher, step: Step)
    requires Sound(p) && Enabled(p, step)
    ensures Sound(Next(p, step))
  {
    match step
    case Publish(e, accepts) => PublishSound(p, e, accepts);
    case ConnectSucceeds(fates) => FlushSound(p.(connected := true, reconnecting := false, phase := Idle), fates);
    case _ =>
  }

  lemma {:induction false} AlwaysSound(p: Publisher, steps: seq<Step>)
    requires Sound(p) && Follows(p, steps)
    ensures Sound(After(p, steps))
    decreases steps
  {
    if steps != [] {
      StepSound(p, steps[0]);
      AlwaysSound(Next(p, steps[0]), steps[1..]);
    }
  }

  /** In any run, however often writes throw and connections break: every accepted event is in
      exactly one place, no event is written twice, and the memory stays bounded. */
  lemma EventConservation(steps: seq<Step>)
    requires Follows(STARTED, steps)
    ensures Sound(After(STARTED, steps))
    ensures DistinctIds(After(STARTED, steps).wire)
  {
    assert Sound(STARTED);
    AlwaysSound(STARTED, steps);
    var p := After(STARTED, steps);
    DistinctPart(p.accepted, p.wire, multiset(p.buffer) + multiset(p.dropped));
  }

  lemma DistinctPart(all: seq<Event>, part: seq<Event>, rest: multiset<Event>)
    requires DistinctIds(all) && multiset(part) + rest == multiset(all)
    ensures DistinctIds(part)
  {
    forall i, j | 0 <= i < j < |part|
      ensures part[i].messageId != part[j].messageId
    {
      if part[i] == part[j] {
        TwiceIn(part, i, j);
        OnceIn(all, part[i]);
      } else {
        assert part[i] in multiset(all) && part[j] in multiset(all);
        assert part[i] in all && part[j] in all;
      }
    }
  }

  lemma TwiceIn(events: seq<Event>, i: nat, j: nat)
    requires i < j < |events| && events[i] == events[j]
    ensures multiset(events)[events[i]] >= 2
  {
    assert events == events[..j] + [events[j]] + events[j + 1..];
    assert events[i] in events[..j];
    assert events[i] in multiset(events[..j]);
  }

  lemma {:induction false} OnceIn(events: seq<Event>, e: Event)
    requires DistinctIds(events)
    ensures multiset(events)[e] <= 1
  {
    if events != [] {
      var last := |events| - 1;
      assert events == events[..last] + [events[last]];
      OnceIn(events[..last], e);
      if events[last] == e {
        assert e !in events[..last];
        assert e !in multiset(events[..last]);
      }
    }
  }

  // ---------- Order ----------

  /** `events` without the ones in `gone`. */
  function Without(events: seq<Event>, gone: set<Event>): seq<Event> {
    if events == [] then []
    else
      var last := |events| - 1;
      Without(events[..last], gone) + (if events[last] in gone then [] else [events[last]])
  }

  function Elements(events: seq<Event>): set<Event> {
    set e | e in events
  }

  /** What was written, followed by what waits, is what was accepted, less what was dropped. */
  predicate InOrder(p: Publisher) {
    p.wire + p.buffer == Without(p.accepted, Elements(p.dropped))
  }

  lemma WithoutAppend(events: seq<Event>, e: Event, gone: set<Event>)
    ensures Without(events + [e], gone) == Without(events, gone) + (if e in gone then [] else [e])
  {
    assert (events + [e])[..|events|] == events;
  }

  lemma {:induction false} WithoutMore(events: seq<Event>, gone: set<Event>, e: Event)
    ensures Without(events, gone + {e}) == Without(Without(events, gone), {e})
  {
    if events != [] {
      var last := |events| - 1;
      WithoutMore(events[..last], gone, e);
      if events[last] !in gone {
        WithoutAppend(Without(events[..last], gone), events[last], {e});
      } else {
        assert Without(events, gone) == Without(events[..last], gone);
      }
    }
  }

  lemma {:induction false} WithoutOne(before: seq<Event>, e: Event, after: seq<Event>)
    requires e !in before && e !in after
    ensures Without(before + [e] + after, {e}) == before + after
  {
    if after != [] {
      var last := |after| - 1;
      WithoutOne(before, e, after[..last]);
      assert before + [e] + after == (before + [e] + after[..last]) + [after[last]];
      WithoutAppend(before + [e] + after[..last], after[last], {e});
    } else {
      assert before + [e] + after == before + [e];
      WithoutAppend(before, e, {e});
      WithoutAbsent(before, e);
    }
  }

  lemma {:induction false} WithoutAbsent(events: seq<Event>, e: Event)
    requires e !in events
    ensures Without(events, {e}) == events
  {
    if events != [] {
      var last := |events| - 1;
      WithoutAbsent(events[..last], e);
      assert events == events[..last] + [events[last]];
    }
  }

  lemma BufferKeepsOrder(p: Publisher, e: Event)
    requires Sound(p) && InOrder(p) && e !in p.dropped && e !in p.buffer
    ensures InOrder(BufferEvent(p.(accepted := p.accepted + [e]), e))
  {
    hide Sound, Without;
    var gone := Elements(p.dropped);
    if |p.buffer| >= MAX_BUFFER {
      var x, rest := p.buffer[0], p.buffer[1..];
      DropKeepsOrder(p, x);
      assert Elements(p.dropped + [x]) == gone + {x};
      WithoutAppend(p.accepted, e, gone + {x});
      assert p.wire + (rest + [e]) == p.wire + rest + [e];
    } else {
      WithoutAppend(p.accepted, e, gone);
      assert p.wire + (p.buffer + [e]) == p.wire + p.buffer + [e];
    }
  }

  /** Giving up the oldest waiting event takes exactly that event out. */
  lemma DropKeepsOrder(p: Publisher, x: Event)
    requires Sound(p) && InOrder(p) && p.buffer != [] && x == p.buffer[0]
    ensures p.wire + p.buffer[1..] == Without(p.accepted, Elements(p.dropped) + {x})
  {
    hide Without, Elements;
    var rest := p.buffer[1..];
    assert p.wire + p.buffer == p.wire + [x] + rest;
    DistinctAround(p, x);
    WithoutMore(p.accepted, Elements(p.dropped), x);
    WithoutOne(p.wire, x, rest);
  }

  /** The oldest buffered event occurs nowhere else. */
  lemma DistinctAround(p: Publisher, x: Event)
    requires Conserved(p) && p.buffer != [] && x == p.buffer[0]
    ensures x !in p.wire && x !in p.buffer[1..]
  {
    OnceIn(p.accepted, x);
    assert p.buffer == [x] + p.buffer[1..];
    assert multiset(p.buffer) == multiset{x} + multiset(p.buffer[1..]);
    assert (x in p.wire <==> x in multiset(p.wire)) && (x in p.buffer[1..] <==> x in multiset(p.buffer[1..]));
  }

  /** One publish: the order survives exactly when the event does not overtake a waiting one. */
  lemma PublishOrder(p: Publisher, e: Event, accepts: bool)
    requires Sound(p) && InOrder(p) && Enabled(p, Publish(e, accepts))
    ensures InOrder(DoPublish(p, e, accepts)) <==> !(p.Live() && accepts && p.buffer != [])
  {
    hide Sound, Without;
    NotTracked(p, e);
    var gone := Elements(p.dropped);
    if p.Live() && accepts {
      WithoutAppend(p.accepted, e, gone);
      assert e !in gone && e !in p.buffer;
      var sent, right := p.wire + [e] + p.buffer, p.wire + p.buffer + [e];
      if p.buffer == [] {
        assert sent == right;
      } else {
        assert sent[|p.wire|] == e && right[|p.wire|] == p.buffer[0];
      }
    } else {
      BufferKeepsOrder(p, e);
    }
  }

  /** No event gets out after one that stays behind. */
  predicate NoOvertaking(marks: seq<bool>) {
    forall i, j | 0 <= i < j < |marks| :: marks[j] ==> marks[i]
  }

  lemma {:induction false} SelectKeepsOrder(events: seq<Event>, marks: seq<bool>)
    requires |marks| == |events| && NoOvertaking(marks)
    ensures Select(events, marks, true) + Select(events, marks, false) == events
    ensures events != [] && marks[|marks| - 1] ==> Select(events, marks, false) == []
  {
    if events != [] {
      var last := |events| - 1;
      SelectKeepsOrder(events[..last], marks[..last]);
      assert events == events[..last] + [events[last]];
      if marks[last] && last > 0 {
        assert marks[last - 1];
      }
    }
  }

  lemma {:induction false} SelectBreaksOrder(events: seq<Event>, marks: seq<bool>)
    requires |marks| == |events| && DistinctIds(events)
    requires Select(events, marks, true) + Select(events, marks, false) == events
    ensures NoOvertaking(marks)
  {
    var sent := |Select(events, marks, true)|;
    forall i, j | 0 <= i < j < |marks| && marks[j]
      ensures marks[i]
    {
      SentFirst(events, marks, i);
      SentFirst(events, marks, j);
    }
  }

  /** Where written events come first, an event was written exactly if it is among the first. */
  lemma SentFirst(events: seq<Event>, marks: seq<bool>, i: nat)
    requires |marks| == |events| && DistinctIds(events) && i < |marks|
    requires Select(events, marks, true) + Select(events, marks, false) == events
    ensures marks[i] <==> i < |Select(events, marks, true)|
  {
    hide Select;
    var sent, kept := Select(events, marks, true), Select(events, marks, false);
    SelectHas(events, marks, i);
    if marks[i] {
      var b :| 0 <= b < |sent| && sent[b] == events[i];
      assert events[b] == events[i];
    } else {
      var a :| 0 <= a < |kept| && kept[a] == events[i];
      assert events[|sent| + a] == events[i];
    }
  }

  lemma {:induction false} SelectHas(events: seq<Event>, marks: seq<bool>, i: nat)
    requires |marks| == |events| && i < |events|
    ensures events[i] in Select(events, marks, marks[i])
  {
    var last := |events| - 1;
    if i < last {
      SelectHas(events[..last], marks[..last], i);
    }
  }

  lemma DistinctBuffer(p: Publisher)
    requires Sound(p)
    ensures DistinctIds(p.buffer)
  {
    DistinctPart(p.accepted, p.buffer, multiset(p.wire) + multiset(p.dropped));
  }

  /** A flush keeps the order exactly when no event gets out after one that stays behind. */
  lemma FlushOrder(p: Publisher, fates: seq<Fate>)
    requires Sound(p) && InOrder(p)
    ensures InOrder(Flush(p, fates)) <==> NoOvertaking(Marks(p.channel, fates, |p.buffer|))
  {
    hide Sound, Without, Select, Marks, Flush, Elements, NoOvertaking, DistinctIds;
    var marks := Marks(p.channel, fates, |p.buffer|);
    var sent, kept := Select(p.buffer, marks, true), Select(p.buffer, marks, false);
    FlushDivides(p, fates);
    assert p.wire + sent + kept == p.wire + (sent + kept);
    if NoOvertaking(marks) {
      SelectKeepsOrder(p.buffer, marks);
    } else if InOrder(Flush(p, fates)) {
      assert sent + kept == (p.wire + (sent + kept))[|p.wire|..];
      assert p.buffer == (p.wire + p.buffer)[|p.wire|..];
      DistinctBuffer(p);
      SelectBreaksOrder(p.buffer, marks);
    }
  }

  // ---------- First in, first out ----------

  /** Writes never throw; channels and connections may still go at any time. */
  predicate NoRefusals(steps: seq<Step>) {
    forall i | 0 <= i < |steps| :: Willing(steps[i])
  }

  predicate Willing(step: Step) {
    match step
    case Publish(_, accepts) => accepts
    case ConnectSucceeds(fates) => Refused !in fates
    case _ => true
  }

  /** A connection being made is not in use yet, a reconnection is scheduled at most once, and a
      connection in use needs none. */
  predicate Linked(p: Publisher) {
    && (p.phase.Connecting? || p.timers > 0 ==> !p.connected)
    && p.timers <= 1
    && (p.timers == 1 ==> p.reconnecting)
    && (p.phase.Connecting? ==>
          && (p.phase.channelMade ==> p.phase.established)
          && (p.phase.broken ==> p.phase.established)
          && (p.phase.established ==> p.connections > 0)
          && (if p.phase.initial then
                && p.connections == (if p.phase.established then 1 else 0)
                && (p.phase.broken <==> p.reconnecting) && (p.reconnecting <==> p.timers == 1)
              else p.reconnecting && p.timers == 0))
    && (p.phase.Idle? && p.connected ==> !p.reconnecting)
    && (p.phase.Idle? && !p.connected ==> p.reconnecting)
  }

  lemma FlushKeepsLink(p: Publisher, fates: seq<Fate>)
    ensures var q := Flush(p, fates);
            q.connected == p.connected && q.reconnecting == p.reconnecting && q.timers == p.timers
            && q.phase == p.phase && q.connections == p.connections && (q.channel ==> p.channel)
            && q.accepted == p.accepted && q.dropped == p.dropped
  {
    FlushDivides(p, fates);
  }

  lemma StepLinked(p: Publisher, step: Step)
    requires Linked(p) && Enabled(p, step)
    ensures Linked(Next(p, step))
  {
    if step.ConnectSucceeds? {
      FlushKeepsLink(p.(connected := true, reconnecting := false, phase := Idle), step.fates);
    }
  }

  /** While there is a live channel nothing waits. */
  predicate Drained(p: Publisher) {
    p.Live() ==> p.buffer == []
  }

  lemma WillingMarks(channel: bool, fates: seq<Fate>, n: nat)
    requires Refused !in fates
    ensures NoOvertaking(Marks(channel, fates, n))
    ensures ChannelAfter(channel, fates, n) ==> forall i | 0 <= i < n :: Marks(channel, fates, n)[i]
  {
    forall i | 0 <= i < n
      ensures Marks(channel, fates, n)[i] == ChannelAfter(channel, fates, i + 1)
    {
      MarkAt(channel, fates, n, i);
      assert FateAt(fates, i) != Refused;
    }
  }

  lemma {:induction false} MarkAt(channel: bool, fates: seq<Fate>, n: nat, i: nat)
    requires i < n
    ensures Marks(channel, fates, n)[i] == GetsOut(channel, fates, i)
  {
    if i < n - 1 {
      MarkAt(channel, fates, n - 1, i);
    }
  }

  lemma {:induction false} AllSent(events: seq<Event>, marks: seq<bool>)
    requires |marks| == |events| && forall i | 0 <= i < |marks| :: marks[i]
    ensures Select(events, marks, false) == []
  {
    if events != [] {
      AllSent(events[..|events| - 1], marks[..|events| - 1]);
    }
  }

  lemma WillingFlush(p: Publisher, fates: seq<Fate>)
    requires Refused !in fates
    ensures NoOvertaking(Marks(p.channel, fates, |p.buffer|))
    ensures Flush(p, fates).channel ==> Flush(p, fates).buffer == []
  {
    var n := |p.buffer|;
    WillingMarks(p.channel, fates, n);
    FlushDivides(p, fates);
    if Flush(p, fates).channel {
      AllSent(p.buffer, Marks(p.channel, fates, n));
    }
  }

  /** A step lets an event get out ahead of one that stays behind. */
  predicate Overtakes(p: Publisher, step: Step) {
    match step
    case Publish(e, accepts) => p.Live() && accepts && p.buffer != []
    case ConnectSucceeds(fates) => !NoOvertaking(Marks(p.channel, fates, |p.buffer|))
    case _ => false
  }

  /** One step: the order survives exactly when nothing is overtaken. */
  lemma StepOrder(p: Publisher, step: Step)
    requires Sound(p) && InOrder(p) && Enabled(p, step)
    ensures InOrder(Next(p, step)) <==> !Overtakes(p, step)
  {
    match step
    case Publish(e, accepts) =>
      PublishOrder(p, e, accepts);
    case ConnectSucceeds(fates) =>
      FlushOrder(p.(connected := true, reconnecting := false, phase := Idle), fates);
    case _ =>
  }

  /** The state after the first `n` steps. */
  function Along(p: Publisher, steps: seq<Step>, n: nat): Publisher
    requires Follows(p, steps) && n <= |steps|
    decreases n
  {
    if n == 0 then p else Along(Next(p, steps[0]), steps[1..], n - 1)
  }

  predicate OrderedAt(p: Publisher, steps: seq<Step>, n: nat)
    requires Follows(p, steps) && n <= |steps|
  {
    InOrder(Along(p, steps, n))
  }

  predicate OvertakesAt(p: Publisher, steps: seq<Step>, n: nat)
    requires Follows(p, steps) && n < |steps|
  {
    Overtakes(Along(p, steps, n), steps[n])
  }

  ghost predicate OrderedThroughout(p: Publisher, steps: seq<Step>)
    requires Follows(p, steps)
  {
    forall n: nat | n <= |steps| :: OrderedAt(p, steps, n)
  }

  ghost predicate NeverOvertakes(p: Publisher, steps: seq<Step>)
    requires Follows(p, steps)
  {
    forall n: nat | n < |steps| :: !OvertakesAt(p, steps, n)
  }

  lemma AtLater(p: Publisher, steps: seq<Step>, n: nat)
    requires Follows(p, steps) && n < |steps|
    ensures OrderedAt(p, steps, n + 1) == OrderedAt(Next(p, steps[0]), steps[1..], n)
    ensures n + 1 < |steps| ==> OvertakesAt(p, steps, n + 1) == OvertakesAt(Next(p, steps[0]), steps[1..], n)
  {
    hide InOrder, Overtakes, Next, Enabled;
  }

  lemma ThroughoutFromFirst(p: Publisher, steps: seq<Step>)
    requires Follows(p, steps) && steps != []
    ensures OrderedThroughout(p, steps) <==> InOrder(p) && OrderedThroughout(Next(p, steps[0]), steps[1..])
    ensures NeverOvertakes(p, steps) <==> !Overtakes(p, steps[0]) && NeverOvertakes(Next(p, steps[0]), steps[1..])
  {
    var q, rest := Next(p, steps[0]), steps[1..];
    assert OrderedAt(p, steps, 0) == InOrder(p) && OvertakesAt(p, steps, 0) == Overtakes(p, steps[0]);
    hide InOrder, Overtakes, Next, Enabled, OrderedAt, OvertakesAt;
    forall n: nat | n <= |rest|
      ensures OrderedThroughout(p, steps) ==> OrderedAt(q, rest, n)
      ensures n < |rest| && NeverOvertakes(p, steps) ==> !OvertakesAt(q, rest, n)
    {
      AtLater(p, steps, n);
    }
    forall n: nat | n <= |steps|
      ensures InOrder(p) && OrderedThroughout(q, rest) ==> OrderedAt(p, steps, n)
      ensures n < |steps| && !Overtakes(p, steps[0]) && NeverOvertakes(q, rest) ==> !OvertakesAt(p, steps, n)
    {
      if n > 0 {
        AtLater(p, steps, n - 1);
      }
    }
  }

  /** Over a whole run, throws included: what was written followed by what waits is what was
      accepted less what was dropped after every step, if and only if no publish writes past
      waiting events and in no flush an event gets out ahead of one that stays behind. */
  lemma {:induction false} OrderThroughoutIff(p: Publisher, steps: seq<Step>)
    requires Sound(p) && InOrder(p) && Follows(p, steps)
    ensures OrderedThroughout(p, steps) <==> NeverOvertakes(p, steps)
    decreases steps
  {
    hide Sound, InOrder, Next, Enabled, Overtakes, OrderedThroughout, NeverOvertakes;
    if steps != [] {
      var q := Next(p, steps[0]);
      ThroughoutFromFirst(p, steps);
      StepOrder(p, steps[0]);
      StepSound(p, steps[0]);
      if InOrder(q) {
        OrderThroughoutIff(q, steps[1..]);
      } else {
        StartsOrdered(q, steps[1..]);
      }
    } else {
      NothingHappens(p);
    }
  }

  lemma StartsOrdered(p: Publisher, steps: seq<Step>)
    requires Follows(p, steps)
    ensures OrderedThroughout(p, steps) ==> InOrder(p)
  {
    assert OrderedAt(p, steps, 0) == InOrder(p);
  }

  lemma NothingHappens(p: Publisher)
    requires InOrder(p)
    ensures OrderedThroughout(p, []) && NeverOvertakes(p, [])
  {
  }

  lemma {:induction false} EndsOrdered(p: Publisher, steps: seq<Step>)
    requires Follows(p, steps)
    ensures Along(p, steps, |steps|) == After(p, steps)
    decreases steps
  {
    hide Next, Enabled;
    if steps != [] {
      EndsOrdered(Next(p, steps[0]), steps[1..]);
    }
  }

  lemma StepDrains(p: Publisher, step: Step)
    requires Linked(p) && Drained(p) && Enabled(p, step) && Willing(step)
    ensures !Overtakes(p, step) && Drained(Next(p, step))
  {
    if step.ConnectSucceeds? {
      WillingFlush(p.(connected := true, reconnecting := false, phase := Idle), step.fates);
    }
  }

  /** Without throws a live channel means that nothing waits, and so nothing is overtaken. */
  lemma {:induction false} WillingNeverOvertakes(p: Publisher, steps: seq<Step>)
    requires Linked(p) && Drained(p) && Follows(p, steps) && NoRefusals(steps)
    ensures NeverOvertakes(p, steps) && Drained(After(p, steps))
    decreases steps
  {
    hide Linked, Drained, Next, Enabled, Overtakes, NeverOvertakes, Willing;
    if steps != [] {
      assert Willing(steps[0]);
      StepDrains(p, steps[0]);
      StepLinked(p, steps[0]);
      assert forall i | 0 <= i < |steps[1..]| :: steps[1..][i] == steps[i + 1];
      WillingNeverOvertakes(Next(p, steps[0]), steps[1..]);
      ThroughoutFromFirst(p, steps);
    } else {
      NeverWithoutSteps(p);
    }
  }

  lemma NeverWithoutSteps(p: Publisher)
    ensures NeverOvertakes(p, [])
  {
  }

  /** If writes never throw then, after every step of any run of publishes, channel losses,
      disconnects and reconnects, what was written followed by what waits is exactly what was
      accepted, in order, less the dropped events; and nothing waits while there is a live channel. */
  lemma GlobalFifo(steps: seq<Step>)
    requires Follows(STARTED, steps) && NoRefusals(steps)
    ensures OrderedThroughout(STARTED, steps) && InOrder(After(STARTED, steps)) && Drained(After(STARTED, steps))
  {
    assert Elements(STARTED.dropped) == {};
    assert Sound(STARTED) && InOrder(STARTED) && Linked(STARTED) && Drained(STARTED);
    hide Sound, InOrder, Linked, Drained, NoRefusals, NeverOvertakes;
    WillingNeverOvertakes(STARTED, steps);
    OrderThroughoutIff(STARTED, steps);
    EndsOrdered(STARTED, steps);
    assert OrderedAt(STARTED, steps, |steps|);
  }

  /** With a single throw the order can be lost: the event that was refused waits while the next
      one is written. */
  lemma RefusalBreaksFifo(a: Event, b: Event)
    requires a.messageId != b.messageId
    ensures var steps := [Established, ChannelOpened, ConnectSucceeds([]), Publish(a, false), Publish(b, true)];
            Follows(STARTED, steps) && !InOrder(After(STARTED, steps))
  {
    var p1 := Next(STARTED, Established);
    var p2 := Next(p1, ChannelOpened);
    var p3 := Next(p2, ConnectSucceeds([]));
    var p4 := Next(p3, Publish(a, false));
    var p5 := Next(p4, Publish(b, true));
    assert Follows(p5, []) && After(p5, []) == p5;
    assert [Publish(b, true)][1..] == [];
    Onwards(p4, [Publish(b, true)]);
    assert [Publish(a, false), Publish(b, true)][1..] == [Publish(b, true)];
    Onwards(p3, [Publish(a, false), Publish(b, true)]);
    var three := [ConnectSucceeds([]), Publish(a, false), Publish(b, true)];
    assert three[1..] == [Publish(a, false), Publish(b, true)];
    Onwards(p2, three);
    var four := [ChannelOpened] + three;
    assert four[1..] == three;
    Onwards(p1, four);
    assert ([Established] + four)[1..] == four;
    Onwards(STARTED, [Established] + four);
    assert [Established, ChannelOpened, ConnectSucceeds([]), Publish(a, false), Publish(b, true)]
      == [Established] + four;
    assert p5.wire == [b] && p5.buffer == [a] && p5.accepted == [a, b] && p5.dropped == [];
    assert Without([a, b], Elements([])) == [a, b] by {
      WithoutAppend([a], b, Elements([]));
      WithoutAppend([], a, Elements([]));
      assert [a] + [b] == [a, b] && [] + [a] == [a];
    }
  }

  /** Unfolds one step of a run. */
  lemma Onwards(p: Publisher, steps: seq<Step>)
    requires steps != [] && Enabled(p, steps[0]) && Follows(Next(p, steps[0]), steps[1..])
    ensures Follows(p, steps) && After(p, steps) == After(Next(p, steps[0]), steps[1..])
  {
  }

  // ---------- The buffer during an outage ----------

  function LastOf(events: seq<Event>, n: nat): seq<Event> {
    if |events| <= n then events else events[|events| - n..]
  }

  /** No channel in use, and no connection made. */
  predicate Outage(p: Publisher, steps: seq<Step>)
    decreases steps
  {
    && !p.Live()
    && (steps != [] && Enabled(p, steps[0]) ==>
          !steps[0].ConnectSucceeds? && Outage(Next(p, steps[0]), steps[1..]))
  }

  lemma OutageStep(p: Publisher, step: Step)
    requires Sound(p) && !p.Live() && Enabled(p, step) && !step.ConnectSucceeds?
    ensures var q := Next(p, step);
            && p.accepted <= q.accepted
            && q.buffer == LastOf(p.buffer + q.accepted[|p.accepted|..], MAX_BUFFER)
  {
    assert |p.buffer| <= MAX_BUFFER;
    hide Sound, DoPublish;
    if step.Publish? {
      OutagePublish(p, step.event, step.accepts);
    } else {
      assert Next(p, step).accepted == p.accepted && Next(p, step).buffer == p.buffer;
      assert p.buffer + p.accepted[|p.accepted|..] == p.buffer;
    }
  }

  lemma OutagePublish(p: Publisher, e: Event, accepts: bool)
    requires Sound(p) && !p.Live() && Enabled(p, Publish(e, accepts))
    ensures var q := DoPublish(p, e, accepts);
            && q.accepted == p.accepted + [e]
            && q.buffer == LastOf(p.buffer + q.accepted[|p.accepted|..], MAX_BUFFER)
  {
    assert |p.buffer| <= MAX_BUFFER;
    NotTracked(p, e);
    hide Sound;
    assert (p.accepted + [e])[|p.accepted|..] == [e];
    assert |p.buffer| == MAX_BUFFER ==> p.buffer[1..] + [e] == (p.buffer + [e])[1..];
  }

  lemma LastOfTwice(a: seq<Event>, b: seq<Event>, n: nat)
    ensures LastOf(LastOf(a, n) + b, n) == LastOf(a + b, n)
  {
  }

  /** Throughout an outage the buffer is the last 1000 of what it held and what came since. */
  lemma {:induction false} OutageKeepsLatest(p: Publisher, steps: seq<Step>)
    requires Sound(p) && Follows(p, steps) && Outage(p, steps)
    ensures var q := After(p, steps);
            && p.accepted <= q.accepted
            && q.buffer == LastOf(p.buffer + q.accepted[|p.accepted|..], MAX_BUFFER)
    decreases steps
  {
    hide Sound, Next, Enabled;
    if steps != [] {
      var p', q := Next(p, steps[0]), After(p, steps);
      OutageStep(p, steps[0]);
      StepSound(p, steps[0]);
      OutageKeepsLatest(p', steps[1..]);
      var first, rest := p'.accepted[|p.accepted|..], q.accepted[|p'.accepted|..];
      LastOfTwice(p.buffer + first, rest, MAX_BUFFER);
      assert q.accepted[|p.accepted|..] == first + rest;
      assert p.buffer + (first + rest) == p.buffer + first + rest;
    } else {
      WithinLimit(p);
    }
  }

  lemma WithinLimit(p: Publisher)
    requires Sound(p)
    ensures p.buffer == LastOf(p.buffer + p.accepted[|p.accepted|..], MAX_BUFFER)
  {
    assert p.buffer + p.accepted[|p.accepted|..] == p.buffer;
  }

  // ---------- Reconnecting ----------

  /** No attempt is under way and none is scheduled, while one is believed to be. */
  predicate Stranded(p: Publisher) {
    p.phase.Idle? && p.timers == 0 && !p.connected && p.reconnecting
  }

  lemma {:induction false} AlwaysLinked(p: Publisher, steps: seq<Step>)
    requires Linked(p) && Follows(p, steps)
    ensures Linked(After(p, steps))
    decreases steps
  {
    hide Linked, Next, Enabled;
    if steps != [] {
      StepLinked(p, steps[0]);
      AlwaysLinked(Next(p, steps[0]), steps[1..]);
    }
  }

  /** A failed attempt is followed by another exactly when it was the first one, made at start-up;
      after a failed reconnection nothing is scheduled. */
  lemma FailedAttemptIsRetried(steps: seq<Step>)
    requires Follows(STARTED, steps) && After(STARTED, steps).phase.Connecting?
    ensures var p := After(STARTED, steps);
            && (Next(p, ConnectFails).timers > 0 <==> p.phase.initial)
            && (Stranded(Next(p, ConnectFails)) <==> !p.phase.initial)
  {
    AlwaysLinked(STARTED, steps);
  }

  lemma StepsOfThree(p: Publisher, a: Step, b: Step, c: Step)
    requires Enabled(p, a) && Enabled(Next(p, a), b) && Enabled(Next(Next(p, a), b), c)
    ensures Follows(p, [a, b, c]) && After(p, [a, b, c]) == Next(Next(Next(p, a), b), c)
  {
    hide Enabled, Next;
    assert [c][1..] == [] && [b, c][1..] == [c] && [a, b, c][1..] == [b, c];
    Onwards(Next(Next(p, a), b), [c]);
    Onwards(Next(p, a), [b, c]);
    Onwards(p, [a, b, c]);
  }

  lemma BothAttemptsFail()
    ensures Enabled(STARTED, ConnectFails) && Enabled(Next(STARTED, ConnectFails), TimerFires)
    ensures Enabled(Next(Next(STARTED, ConnectFails), TimerFires), ConnectFails)
    ensures Stranded(Next(Next(Next(STARTED, ConnectFails), TimerFires), ConnectFails))
  {
    var p1 := Next(STARTED, ConnectFails);
    assert p1 == STARTED.(reconnecting := true, timers := 1, phase := Idle);
    var p2 := Next(p1, TimerFires);
    assert p2 == STARTED.(reconnecting := true, phase := Connecting(false, false, false, false));
  }

  /** The first dead end is reached: a client whose first attempt and whose reconnection fail. */
  lemma StrandedIsReached()
    ensures var steps := [ConnectFails, TimerFires, ConnectFails];
            Follows(STARTED, steps) && Stranded(After(STARTED, steps))
  {
    hide Enabled, Next, Follows, After, Stranded;
    BothAttemptsFail();
    StepsOfThree(STARTED, ConnectFails, TimerFires, ConnectFails);
  }

  /** A connection that stands, without a channel, and with nothing under way. */
  predicate Mute(p: Publisher) {
    p.connected && !p.channel && p.phase.Idle? && p.timers == 0
  }

  /** So is the second: connect, and lose the channel. */
  lemma MuteIsReached()
    ensures var steps := [Established, ChannelOpened, ConnectSucceeds([])];
            Follows(STARTED, steps) && After(STARTED, steps).Live() && Mute(Next(After(STARTED, steps), ChannelLost))
  {
    var p1 := Next(STARTED, Established);
    var p2 := Next(p1, ChannelOpened);
    var p3 := Next(p2, ConnectSucceeds([]));
    assert p3.Live() && p3.phase.Idle? && p3.timers == 0 && Mute(Next(p3, ChannelLost));
    hide Enabled, Next, Follows, After;
    StepsOfThree(STARTED, Established, ChannelOpened, ConnectSucceeds([]));
  }

  /** A channel lost while the connection stands is not made again: publishing goes on filling
      the buffer until that connection is reported lost. */
  lemma {:induction false} LostChannelStaysLost(p: Publisher, steps: seq<Step>)
    requires Mute(p) && Follows(p, steps)
    requires forall i | 0 <= i < |steps| :: !steps[i].ConnectionLost?
    ensures Mute(After(p, steps)) && After(p, steps).wire == p.wire
    decreases steps
  {
    if steps != [] {
      assert !steps[0].ConnectionLost?;
      LostChannelStaysLost(Next(p, steps[0]), steps[1..]);
    }
  }

  /** Stranded is for good: no later step connects, and nothing more is ever written. */
  lemma {:induction false} StrandedForever(p: Publisher, steps: seq<Step>)
    requires Stranded(p) && Follows(p, steps)
    ensures Stranded(After(p, steps)) && After(p, steps).wire == p.wire
    decreases steps
  {
    if steps != [] {
      StrandedForever(Next(p, steps[0]), steps[1..]);
    }
  }
}
