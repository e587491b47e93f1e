/** The publisher's own code, shown to take the steps of the publisher's state machine. */
module RabbitMQ {
  import opened Publishing
  import opened PublisherRuns

  class RabbitMQClient {
    var channel: bool
    var connected: bool
    var eventBuffer: seq<Event>
    var publishedMessageIds: set<nat>
    var reconnecting: bool

    // Where the asynchronous code stands, and what has happened.
    ghost var phase: Phase
    ghost var timers: nat
    ghost var connections: nat
    ghost var wire: seq<Event>
    ghost var accepted: seq<Event>
    ghost var dropped: seq<Event>
    ghost var trace: seq<Step>

    ghost function View(): Publisher
      reads this
    {
      Publisher(connected, channel, reconnecting, timers, phase, connections, eventBuffer, publishedMessageIds,
                          wire, accepted, dropped)
    }

    /** The client is where its history has led it. */
    ghost predicate Valid()
      reads this
    {
      Follows(STARTED, trace) && View() == After(STARTED, trace)
    }

    constructor ()
      ensures Valid() && trace == []
    {
      channel, connected, reconnecting := false, false, false;
      eventBuffer, publishedMessageIds := [], {};
      phase, timers, connections := Connecting(true, false, false, false), 0, 0;
      wire, accepted, dropped, trace := [], [], [], [];
    }

    method TrackMessageId(id: nat)
      modifies this`publishedMessageIds
      ensures View() == old(View()).(tracked := Track(old(publishedMessageIds), id))
    {
      if |publishedMessageIds| >= MAX_TRACKED {
        publishedMessageIds := {};
      }
      publishedMessageIds := publishedMessageIds + {id};
    }

    method BufferEvent(e: Event)
      modifies this`eventBuffer, this`dropped
      ensures View() == Publishing.BufferEvent(old(View()), e)
    {
      if |eventBuffer| >= MAX_BUFFER {
        dropped := dropped + [eventBuffer[0]];
        eventBuffer := eventBuffer[1..];
      }
      eventBuffer := eventBuffer + [e];
    }

    /** `accepts` is false when serialising the event or writing it to the channel throws. */
    method Publish(e: Event, accepts: bool)
      modifies this`eventBuffer, this`dropped, this`publishedMessageIds, this`wire, this`accepted
      ensures View() == DoPublish(old(View()), e, accepts)
      ensures e.messageId in old(publishedMessageIds) ==> View() == old(View())
    {
      if e.messageId in publishedMessageIds {
        return;
      }
      accepted := accepted + [e];
      if !connected || !channel {
        BufferEvent(e);
        return;
      }
      if accepts {
        wire := wire + [e];
        TrackMessageId(e.messageId);
      } else {
        BufferEvent(e);
      }
    }

    /** `fates[i]` says what happens when the i-th waiting event is tried. */
    method FlushBuffer(fates: seq<Fate>)
      modifies this`eventBuffer, this`publishedMessageIds, this`wire, this`channel
      ensures View() == Flush(old(View()), fates)
    {
      ghost var start := View();
      FlushedIsPartly(start, fates);
      if |eventBuffer| == 0 {
        return;
      }
      var eventsToFlush := eventBuffer;
      eventBuffer := [];
      for i := 0 to |eventsToFlush|
        invariant View() == Partly(start, fates, i)
      {
        PartlyStep(start, fates, i);
        var buffered, fate := eventsToFlush[i], FateAt(fates, i);
        if fate.ChannelGone? {
          channel := false;
        }
        if !channel {
          eventBuffer := eventBuffer + [buffered];
        } else if fate.Delivered? {
          wire := wire + [buffered];
          TrackMessageId(buffered.messageId);
        } else {
          eventBuffer := eventBuffer + [buffered];
        }
      }
    }

    method ScheduleReconnect()
      modifies this`reconnecting, this`timers
      ensures View() == Publishing.ScheduleReconnect(old(View()))
    {
      if reconnecting {
        return;
      }
      reconnecting := true;
      timers := timers + 1;
    }

    /** A connection reports an error, or that it closed. */
    method ConnectionLost(ghost connection: nat)
      modifies this`connected, this`reconnecting, this`timers, this`phase
      ensures View() == DoConnectionLost(old(View()), connection)
    {
      if phase.Connecting? && phase.established && connection + 1 == connections {
        phase := phase.(broken := true);
      }
      connected := false;
      ScheduleReconnect();
    }

    /** The end of `connect`, once the exchange has been asserted. */
    method ConnectSucceeds(fates: seq<Fate>)
      modifies this`connected, this`reconnecting, this`phase
      modifies this`eventBuffer, this`publishedMessageIds, this`wire, this`channel
      ensures View() == Flush(old(View()).(connected := true, reconnecting := false, phase := Idle), fates)
    {
      connected := true;
      reconnecting := false;
      phase := Idle;
      FlushBuffer(fates);
    }

    /** The end of `connect` when one of its steps throws: the error goes no further. */
    method ConnectFails()
      modifies this`connected, this`reconnecting, this`timers, this`phase
      ensures View() == Publishing.ScheduleReconnect(old(View()).(connected := false, phase := Idle))
    {
      connected := false;
      phase := Idle;
      ScheduleReconnect();
    }

    method IsConnected() returns (live: bool)
      requires Valid()
      ensures live <==> View().Live()
      ensures live && NoRefusals(trace) ==> eventBuffer == []
    {
      live := connected && channel;
      if NoRefusals(trace) {
        GlobalFifo(trace);
      }
    }

    /** Anything the environment may do next. After any such history every accepted event is
        written, waiting or dropped, once, and the memory in use is bounded. */
    method Handle(step: Step)
      requires Valid() && Enabled(View(), step)
      modifies this
      ensures Valid() && trace == old(trace) + [step]
      ensures Conserved(View()) && DistinctIds(wire)
      ensures |eventBuffer| <= MAX_BUFFER && |publishedMessageIds| <= MAX_TRACKED
      ensures NoRefusals(trace) ==> InOrder(View())
    {
      Dispatch(step);
      AfterMore(STARTED, trace, step);
      trace := trace + [step];
      EventConservation(trace);
      if NoRefusals(trace) {
        GlobalFifo(trace);
      }
    }

    method Dispatch(step: Step)
      requires Enabled(View(), step)
      modifies this
      ensures View() == Next(old(View()), step) && trace == old(trace)
    {
      match step
      case Publish(e, accepts) =>
        Publish(e, accepts);
      case TimerFires =>
        timers := timers - 1;
        phase := Connecting(false, false, false, false);
      case Established =>
        connections := connections + 1;
        phase := phase.(established := true);
      case ChannelOpened =>
        channel := true;
        phase := phase.(channelMade := true);
      case ConnectionLost(k) =>
        ConnectionLost(k);
      case ChannelLost =>
        channel := false;
      case ConnectSucceeds(fates) =>
        ConnectSucceeds(fates);
      case ConnectFails =>
        ConnectFails();
    }
  }
}
