/** The event publisher as a state machine: the outage buffer and the connection it waits for.

    Every step is one stretch of code that runs without giving up the event loop. The
    environment decides when connections open and break and whether a write to the channel
    throws. Message identifiers are drawn fresh for every event. */
module Publishing {

  datatype Event = Event(messageId: nat, eventType: string)

  const MAX_BUFFER := 1000
  const MAX_TRACKED := 10_000

  /** One call of `connect`, from its start to its end. */
  datatype Phase =
    | Idle
    | Connecting(initial: bool, established: bool, channelMade: bool, broken: bool)

  /** `wire`, `accepted` and `dropped` are history: the events written to the channel, the
      events handed to `publish`, and the events a full buffer gave up. */
  datatype Publisher = Publisher(
    connected: bool,
    channel: bool,
    reconnecting: bool,
    timers: nat,
    phase: Phase,
    connections: nat,
    buffer: seq<Event>,
    tracked: set<nat>,
    wire: seq<Event>,
    accepted: seq<Event>,
    dropped: seq<Event>)
  {
    predicate Live() {
      connected && channel
    }
  }

  /** What becomes of one buffered event while the buffer is flushed. */
  datatype Fate = Delivered | Refused | ChannelGone

  datatype Step =
    | Publish(event: Event, accepts: bool)
    | TimerFires
    | Established
    | ChannelOpened
    | ConnectionLost(connection: nat)
    | ChannelLost
    | ConnectSucceeds(fates: seq<Fate>)
    | ConnectFails

  // ---------- Publishing and buffering ----------

  function Track(ids: set<nat>, id: nat): set<nat> {
    (if |ids| >= MAX_TRACKED then {} else ids) + {id}
  }

  function Send(p: Publisher, e: Event): Publisher {
    p.(wire := p.wire + [e], tracked := Track(p.tracked, e.messageId))
  }

  function BufferEvent(p: Publisher, e: Event): Publisher {
    if |p.buffer| >= MAX_BUFFER then p.(buffer := p.buffer[1..] + [e], dropped := p.dropped + [p.buffer[0]])
    else p.(buffer := p.buffer + [e])
  }

  function DoPublish(p: Publisher, e: Event, accepts: bool): Publisher {
    if e.messageId in p.tracked then p
    else
      var q := p.(accepted := p.accepted + [e]);
      if q.Live() && accepts then Send(q, e) else BufferEvent(q, e)
  }

  function FlushOne(p: Publisher, e: Event, fate: Fate): Publisher {
    var q := if fate.ChannelGone? then p.(channel := false) else p;
    if q.channel && fate.Delivered? then Send(q, e) else q.(buffer := q.buffer + [e])
  }

  function FateAt(fates: seq<Fate>, i: nat): Fate {
    if i < |fates| then fates[i] else Delivered
  }

  /** Flushing `events`, of which the first has number `i` among those being flushed. */
  function FlushFrom(p: Publisher, events: seq<Event>, fates: seq<Fate>, i: nat): Publisher
    requires i <= |events|
    decreases |events| - i
  {
    if i == |events| then p else FlushFrom(FlushOne(p, events[i], FateAt(fates, i)), events, fates, i + 1)
  }

  function Flush(p: Publisher, fates: seq<Fate>): Publisher {
    FlushFrom(p.(buffer := []), p.buffer, fates, 0)
  }

  // ---------- The connection ----------

  function ScheduleReconnect(p: Publisher): Publisher {
    if p.reconnecting then p else p.(reconnecting := true, timers := p.timers + 1)
  }

  /** A connection was lost: the latest, or an earlier one that reports late. */
  function DoConnectionLost(p: Publisher, connection: nat): Publisher {
    var hit := p.phase.Connecting? && p.phase.established && connection + 1 == p.connections;
    ScheduleReconnect(p.(connected := false, phase := if hit then p.phase.(broken := true) else p.phase))
  }

  predicate Enabled(p: Publisher, step: Step) {
    match step
    case Publish(e, _) => forall x | x in p.accepted :: x.messageId != e.messageId
    case TimerFires => p.timers > 0 && p.phase.Idle?
    case Established => p.phase.Connecting? && !p.phase.established
    case ChannelOpened => p.phase.Connecting? && p.phase.established && !p.phase.channelMade && !p.phase.broken
    case ConnectionLost(k) => k < p.connections
    case ChannelLost => true
    case ConnectSucceeds(_) => p.phase.Connecting? && p.phase.channelMade && !p.phase.broken
    case ConnectFails => p.phase.Connecting?
  }

  function Next(p: Publisher, step: Step): Publisher
    requires Enabled(p, step)
  {
    match step
    case Publish(e, accepts) => DoPublish(p, e, accepts)
    case TimerFires => p.(timers := p.timers - 1, phase := Connecting(false, false, false, false))
    case Established => p.(connections := p.connections + 1, phase := p.phase.(established := true))
    case ChannelOpened => p.(channel := true, phase := p.phase.(channelMade := true))
    case ConnectionLost(k) => DoConnectionLost(p, k)
    case ChannelLost => p.(channel := false)
    case ConnectSucceeds(fates) => Flush(p.(connected := true, reconnecting := false, phase := Idle), fates)
    case ConnectFails => ScheduleReconnect(p.(connected := false, phase := Idle))
  }

  /** The module has just started, and is making its first connection. */
  const STARTED := Publisher(false, false, false, 0, Connecting(true, false, false, false), 0, [], {}, [], [], [])

  predicate Follows(p: Publisher, steps: seq<Step>)
    decreases steps
  {
    steps == [] || (Enabled(p, steps[0]) && Follows(Next(p, steps[0]), steps[1..]))
  }

  function After(p: Publisher, steps: seq<Step>): Publisher
    requires Follows(p, steps)
    decreases steps
  {
    if steps == [] then p else After(Next(p, steps[0]), steps[1..])
  }

  lemma {:induction false} AfterMore(p: Publisher, steps: seq<Step>, step: Step)
    requires Follows(p, steps) && Enabled(After(p, steps), step)
    ensures Follows(p, steps + [step]) && After(p, steps + [step]) == Next(After(p, steps), step)
    decreases steps
  {
    hide Enabled, Next;
    if steps != [] {
      AfterMore(Next(p, steps[0]), steps[1..], step);
      assert (steps + [step])[1..] == steps[1..] + [step];
    } else {
      assert [] + [step] == [step] && [step][1..] == [];
    }
  }

  // ---------- How a flush divides the buffer ----------

  /** The elements of `events` whose mark is `b`, in order. */
  function Select(events: seq<Event>, marks: seq<bool>, b: bool): seq<Event>
    requires |marks| == |events|
  {
    if events == [] then []
    else
      var last := |events| - 1;
      Select(events[..last], marks[..last], b) + (if marks[last] == b then [events[last]] else [])
  }

  /** Which events of a flush get out: those delivered while the channel is still there. */
  function Marks(channel: bool, fates: seq<Fate>, n: nat): (marks: seq<bool>)
    ensures |marks| == n
  {
    if n == 0 then []
    else Marks(channel, fates, n - 1) + [GetsOut(channel, fates, n - 1)]
  }

  predicate GetsOut(channel: bool, fates: seq<Fate>, i: nat) {
    ChannelAfter(channel, fates, i + 1) && FateAt(fates, i).Delivered?
  }

  predicate ChannelAfter(channel: bool, fates: seq<Fate>, n: nat) {
    channel && forall i | 0 <= i < n :: !FateAt(fates, i).ChannelGone?
  }

  function TrackAll(ids: set<nat>, events: seq<Event>): set<nat> {
    if events == [] then ids else Track(TrackAll(ids, events[..|events| - 1]), events[|events| - 1].messageId)
  }

  /** The state once the first `n` events have been dealt with. */
  function Partly(p: Publisher, fates: seq<Fate>, n: nat): Publisher
    requires n <= |p.buffer|
  {
    var sent := Select(p.buffer[..n], Marks(p.channel, fates, n), true);
    p.(buffer := Select(p.buffer[..n], Marks(p.channel, fates, n), false),
       wire := p.wire + sent,
       tracked := TrackAll(p.tracked, sent),
       channel := ChannelAfter(p.channel, fates, n))
  }

  lemma PartlyStep(p: Publisher, fates: seq<Fate>, n: nat)
    requires n < |p.buffer|
    ensures FlushOne(Partly(p, fates, n), p.buffer[n], FateAt(fates, n)) == Partly(p, fates, n + 1)
  {
    hide Select, Marks, TrackAll, Track;
    var e, marks := p.buffer[n], Marks(p.channel, fates, n);
    SelectStep(p, fates, n, true);
    SelectStep(p, fates, n, false);
    ChannelStep(p.channel, fates, n);
    hide ChannelAfter;
    var sent, kept := Select(p.buffer[..n], marks, true), Select(p.buffer[..n], marks, false);
    TrackAppend(p.tracked, sent, e);
    assert p.wire + (sent + [e]) == p.wire + sent + [e];
    assert sent + [] == sent && kept + [] == kept;
  }

  lemma SelectStep(p: Publisher, fates: seq<Fate>, n: nat, b: bool)
    requires n < |p.buffer|
    ensures Select(p.buffer[..n + 1], Marks(p.channel, fates, n + 1), b)
         == Select(p.buffer[..n], Marks(p.channel, fates, n), b)
            + (if GetsOut(p.channel, fates, n) == b then [p.buffer[n]] else [])
  {
    hide Select;
    assert p.buffer[..n + 1] == p.buffer[..n] + [p.buffer[n]];
    var marks, mark := Marks(p.channel, fates, n), GetsOut(p.channel, fates, n);
    assert Marks(p.channel, fates, n + 1) == marks + [mark];
    SelectAppend(p.buffer[..n], marks, p.buffer[n], mark, b);
  }

  lemma SelectAppend(events: seq<Event>, marks: seq<bool>, e: Event, mark: bool, b: bool)
    requires |marks| == |events|
    ensures Select(events + [e], marks + [mark], b) == Select(events, marks, b) + (if mark == b then [e] else [])
  {
    assert (events + [e])[..|events|] == events && (marks + [mark])[..|marks|] == marks;
  }

  lemma TrackAppend(ids: set<nat>, events: seq<Event>, e: Event)
    ensures TrackAll(ids, events + [e]) == Track(TrackAll(ids, events), e.messageId)
  {
    assert (events + [e])[..|events|] == events;
  }

  lemma ChannelStep(channel: bool, fates: seq<Fate>, n: nat)
    ensures ChannelAfter(channel, fates, n + 1) == (ChannelAfter(channel, fates, n) && !FateAt(fates, n).ChannelGone?)
  {
  }

  lemma {:induction false} FlushFromPartly(p: Publisher, fates: seq<Fate>, n: nat)
    requires n <= |p.buffer|
    ensures FlushFrom(Partly(p, fates, n), p.buffer, fates, n) == Partly(p, fates, |p.buffer|)
    decreases |p.buffer| - n
  {
    if n < |p.buffer| {
      PartlyStep(p, fates, n);
      FlushFromPartly(p, fates, n + 1);
    }
  }

  lemma FlushedIsPartly(p: Publisher, fates: seq<Fate>)
    ensures Partly(p, fates, 0) == p.(buffer := [])
    ensures Flush(p, fates) == Partly(p, fates, |p.buffer|)
  {
    assert p.wire + [] == p.wire;
    FlushFromPartly(p, fates, 0);
  }

  /** A flush divides the old buffer into the events written and the events kept, each in their
      old order; nothing is lost, and nothing is written twice. */
  lemma FlushDivides(p: Publisher, fates: seq<Fate>)
    ensures var marks := Marks(p.channel, fates, |p.buffer|);
            var after := Flush(p, fates);
            && after.wire == p.wire + Select(p.buffer, marks, true)
            && after.buffer == Select(p.buffer, marks, false)
            && after.tracked == TrackAll(p.tracked, Select(p.buffer, marks, true))
            && after == p.(wire := after.wire, buffer := after.buffer, tracked := after.tracked,
                           channel := after.channel)
            && after.channel == ChannelAfter(p.channel, fates, |p.buffer|)
            && |after.buffer| <= |p.buffer|
  {
    var marks := Marks(p.channel, fates, |p.buffer|);
    FlushedIsPartly(p, fates);
    assert p.buffer[..|p.buffer|] == p.buffer;
    SelectDivides(p.buffer, marks);
  }

  /** Each event is either written or kept. */
  ghost predicate Divided(events: seq<Event>, marks: seq<bool>)
    requires |marks| == |events|
  {
    var sent, kept := Select(events, marks, true), Select(events, marks, false);
    multiset(sent) + multiset(kept) == multiset(events) && |sent| + |kept| == |events|
  }

  lemma {:induction false} SelectDivides(events: seq<Event>, marks: seq<bool>)
    requires |marks| == |events|
    ensures Divided(events, marks)
  {
    hide Divided, Select;
    if events != [] {
      var last := |events| - 1;
      SelectDivides(events[..last], marks[..last]);
      DividedMore(events[..last], marks[..last], events[last], marks[last]);
      assert events == events[..last] + [events[last]] && marks == marks[..last] + [marks[last]];
    } else {
      assert marks == [];
      DividedNone();
    }
  }

  lemma DividedNone()
    ensures Divided([], [])
  {
  }

  lemma DividedMore(events: seq<Event>, marks: seq<bool>, e: Event, mark: bool)
    requires |marks| == |events| && Divided(events, marks)
    ensures Divided(events + [e], marks + [mark])
  {
    hide Select;
    SelectAppend(events, marks, e, mark, true);
    SelectAppend(events, marks, e, mark, false);
    var sent, kept := Select(events, marks, true), Select(events, marks, false);
    assert sent + [] == sent && kept + [] == kept;
  }
}
