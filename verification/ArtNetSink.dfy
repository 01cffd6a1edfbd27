/**
 devicelink/artnet_sink.py: one output's frames, shared by two threads and whoever closes it.

 `Step` is one atomic section: what a thread does between taking and releasing the lock,
 one reading of the clock, one call into the backend. Any interleaving of them is a run.
 `NeverBlockedOnWork`: the sender never sleeps over a due frame or a stop request.
 `FramesLeaveInOrder`: fresh frames go out in strictly increasing (due, order), and a
 frame is passed over only in a drain that sent a later one. `StopIsHeard`: how little
 the sender still does once asked to stop. `DarkIsLast`: the closing black frame never
 shares the backend with the sender and nothing follows it.
 */
module ArtNetSinks {
  import opened Wrappers
  import opened TimedQueues

  type Frame = seq<bv8>

  datatype Output = Output(width: nat, lead: real, keepalive: real)

  /** The sender thread, between two atomic sections. */
  datatype Sender =
    | NotStarted
    | Top
    | Running
    | Clocked(now: real)
    | Sending(frame: Frame, now: real, pending: Option<real>)
    | Settling(wake: real)
    | Asleep(since: real, deadline: real)
    | Exited

  datatype Closer = Open | Joining | Darkening | Closed

  /** One frame handed to the backend. */
  datatype Shot = New(item: Item<Frame>, at: real) | Keepalive(frame: Frame, at: real) | Dark(frame: Frame) {
    function Shown(): Frame { if New? then item.payload else frame }
  }

  datatype World = World(
    h: History<Frame>, time: real, stop: bool, notified: bool, sender: Sender, closer: Closer,
    last: Option<Frame>, lastSentAt: Option<real>, batches: seq<seq<Item<Frame>>>, wire: seq<Shot>)

  datatype Step =
    | Pass(dt: real)
    | SendFrame(frame: Frame, when: real)
    | Launch
    | CheckStop
    | ReadClock
    | Stumble
    | Drain
    | Sent
    | Settle
    | Wake
    | AskStop
    | Join
    | Darken

  // ---- what each section computes -----------------------------------------------------

  function MinDue(items: seq<Item<Frame>>): (r: Option<real>)
    ensures r.None? <==> items == []
    ensures r.Some? ==> (exists x :: x in items && x.due == r.value) && forall x :: x in items ==> r.value <= x.due
  {
    if items == [] then None
    else
      assert items == [items[0]] + items[1..];
      var rest := MinDue(items[1..]);
      assert items[0] in items;
      if rest.None? || items[0].due < rest.value then Some(items[0].due) else rest
  }

  lemma IsMinDue(items: seq<Item<Frame>>, r: Option<real>)
    requires r.None? <==> items == []
    requires r.Some? ==> (exists x :: x in items && x.due == r.value) && forall x :: x in items ==> r.value <= x.due
    ensures r == MinDue(items)
  {
    if r.Some? {
      var x :| x in items && x.due == r.value;
      var y :| y in items && y.due == MinDue(items).value;
    }
  }

  function Earlier(wake: real, pending: Option<real>): real {
    if pending.Some? && pending.value < wake then pending.value else wake
  }

  function Winner(batch: seq<Item<Frame>>): Item<Frame>
    requires batch != []
  {
    batch[|batch| - 1]
  }

  /** One service sends the newest due frame, else the last one again when it is `keepalive` old. */
  function ShotFor(o: Output, due: seq<Item<Frame>>, last: Option<Frame>, lastSentAt: Option<real>, now: real)
    : Option<Shot>
  {
    if due != [] then Some(New(Winner(due), now))
    else if last.Some? && lastSentAt.Some? && now - lastSentAt.value >= o.keepalive
    then Some(Keepalive(last.value, now))
    else None
  }

  function NextKeepalive(o: Output, lastSentAt: Option<real>, now: real): real {
    if lastSentAt.None? then now + o.keepalive else lastSentAt.value + o.keepalive
  }

  // ---- interleavings ------------------------------------------------------------------------

  predicate Alive(w: World) { !w.sender.NotStarted? && !w.sender.Exited? }

  /** `close` is called once, on a sink started at most once and not after it. */
  predicate Enabled(w: World, s: Step) {
    match s
    case Pass(dt) => 0.0 <= dt
    case SendFrame(_, _) => true
    case Launch => w.sender.NotStarted? && w.closer.Open?
    case CheckStop => w.sender.Top?
    case ReadClock => w.sender.Running?
    case Stumble => w.sender.Running?
    case Drain => w.sender.Clocked?
    case Sent => w.sender.Sending?
    case Settle => w.sender.Settling?
    case Wake => w.sender.Asleep? && (w.notified || w.sender.deadline <= w.time)
    case AskStop => w.closer.Open?
    case Join => w.closer.Joining?
    case Darken => w.closer.Darkening?
  }

  /** Asleep, not notified, its time not come: nothing the sender can do. */
  predicate Blocked(w: World) { w.sender.Asleep? && !Enabled(w, Wake) }

  ghost function Pushed(o: Output, w: World, frame: Frame, when: real): World
    requires w.h.queue.Valid()
  {
    if |frame| != o.width then w
    else w.(h := Next(w.h, DoPush(Some(when - o.lead), frame, w.time)).(clock := w.h.clock), notified := true)
  }

  ghost function Drained(o: Output, w: World): World
    requires w.h.queue.Valid() && w.sender.Clocked?
  {
    var now := w.sender.now;
    var batch := w.h.queue.Ready(now);
    var h := Next(w.h, DoDue(now));
    var shot := ShotFor(o, batch, w.last, w.lastSentAt, now);
    var w' := w.(h := h, batches := if batch == [] then w.batches else w.batches + [batch]);
    if shot.None? then
      w'.(sender := Settling(Earlier(NextKeepalive(o, w.lastSentAt, now), MinDue(h.queue.items))))
    else
      w'.(sender := Sending(shot.value.Shown(), now, MinDue(h.queue.items)), wire := w.wire + [shot.value])
  }

  ghost function Settled(w: World): World
    requires w.sender.Settling?
  {
    var wake := Earlier(w.sender.wake, MinDue(w.h.queue.items));
    if w.stop then w.(sender := Exited)
    else if wake > w.time then w.(sender := Asleep(w.time, wake), notified := false)
    else w.(sender := Top)
  }

  ghost function After(o: Output, w: World, s: Step): World
    requires w.h.queue.Valid() && Enabled(w, s)
  {
    match s
    case Pass(dt) => w.(time := w.time + dt)
    case SendFrame(frame, when) => Pushed(o, w, frame, when)
    case Launch => w.(sender := Top)
    case CheckStop => w.(sender := if w.stop then Exited else Running)
    case ReadClock => w.(sender := Clocked(w.time))
    case Stumble => w.(sender := Settling(w.time + o.keepalive))
    case Drain => Drained(o, w)
    case Sent =>
      var now := w.sender.now;
      w.(last := Some(w.sender.frame), lastSentAt := Some(now),
         sender := Settling(Earlier(now + o.keepalive, w.sender.pending)))
    case Settle => Settled(w)
    case Wake => w.(sender := Top, notified := false)
    case AskStop => w.(stop := true, notified := true, closer := Joining)
    case Join => w.(closer := if Alive(w) then Closed else Darkening)
    case Darken => w.(closer := Closed, wire := w.wire + [Dark(seq(o.width, i => 0))])
  }

  // ---- what every section keeps -----------------------------------------------------------------

  ghost predicate NonEmpty(batches: seq<seq<Item<Frame>>>) { forall i :: 0 <= i < |batches| ==> batches[i] != [] }

  ghost function Winners(batches: seq<seq<Item<Frame>>>): seq<Item<Frame>>
    requires NonEmpty(batches)
  {
    seq(|batches|, i requires 0 <= i < |batches| && batches[i] != [] => Winner(batches[i]))
  }

  ghost function Flat(batches: seq<seq<Item<Frame>>>): seq<Item<Frame>> {
    if batches == [] then [] else Flat(batches[..|batches| - 1]) + batches[|batches| - 1]
  }

  /** The fresh frames sent, in order. */
  ghost function FreshOf(wire: seq<Shot>): seq<Item<Frame>> {
    if wire == [] then []
    else
      var shot := wire[|wire| - 1];
      FreshOf(wire[..|wire| - 1]) + if shot.New? then [shot.item] else []
  }

  ghost predicate NoLostWakeup(w: World) {
    w.sender.Asleep? && !w.notified ==> !w.stop && forall x :: x in w.h.queue.items ==> w.sender.deadline <= x.due
  }

  ghost predicate SenderTimed(o: Output, w: World) {
    && w.h.clock <= w.time && (w.lastSentAt.Some? ==> w.lastSentAt.value <= w.time)
    && match w.sender
       case Clocked(now) => w.h.clock <= now <= w.time
       case Sending(_, now, _) => now <= w.time
       case Settling(wake) => wake <= w.time + o.keepalive
       case Asleep(since, deadline) => since <= w.time && deadline <= since + o.keepalive
       case _ => true
  }

  ghost predicate Drains(w: World) {
    && Faithful(w.h) && w.h.purged == []
    && NonEmpty(w.batches) && w.h.released == Flat(w.batches) && FreshOf(w.wire) == Winners(w.batches)
  }

  /** What the sender remembers is what it last put on the wire. */
  ghost predicate Remembers(w: World) {
    if w.sender.Sending? then
      w.wire != [] && var shot := w.wire[|w.wire| - 1];
      !shot.Dark? && shot.Shown() == w.sender.frame && shot.at == w.sender.now
    else if w.wire == [] then w.last.None? && w.lastSentAt.None?
    else
      var shot := w.wire[|w.wire| - 1];
      !shot.Dark? ==> w.last == Some(shot.Shown()) && w.lastSentAt == Some(shot.at)
  }

  /** A keepalive repeats the frame before it, no sooner than `keepalive` later. */
  ghost predicate Repeats(o: Output, wire: seq<Shot>) {
    forall i :: 0 <= i < |wire| && wire[i].Keepalive? ==>
      i > 0 && !wire[i - 1].Dark? && wire[i].frame == wire[i - 1].Shown() && wire[i].at - wire[i - 1].at >= o.keepalive
  }

  /** The black frame goes out alone and last. */
  ghost predicate DarkLast(w: World) {
    && (w.stop <==> !w.closer.Open?)
    && (w.closer.Darkening? ==> !Alive(w))
    && (forall i :: 0 <= i < |w.wire| && w.wire[i].Dark? ==> i == |w.wire| - 1 && w.closer.Closed? && !Alive(w))
  }

  ghost predicate Inv(o: Output, w: World) {
    SenderTimed(o, w) && NoLostWakeup(w) && Drains(w) && Remembers(w) && Repeats(o, w.wire) && DarkLast(w)
  }

  /** A push touches the queue and the notification alone. */
  lemma PushedElsewhere(o: Output, w: World, frame: Frame, when: real)
    requires w.h.queue.Valid()
    ensures var w' := Pushed(o, w, frame, when); w' == w.(h := w'.h, notified := w'.notified)
    ensures Pushed(o, w, frame, when).h.released == w.h.released && Pushed(o, w, frame, when).h.purged == w.h.purged
  {
  }

  /** What a drain hands to the backend, and all it leaves alone. */
  lemma DrainedElsewhere(o: Output, w: World)
    requires w.h.queue.Valid() && w.sender.Clocked?
    ensures var w', now := Drained(o, w), w.sender.now;
      && w' == w.(h := w'.h, batches := w'.batches, sender := w'.sender, wire := w'.wire)
      && if w'.wire == w.wire then w'.sender.Settling?
         else
           && |w'.wire| == |w.wire| + 1 && w'.wire[..|w.wire|] == w.wire && w'.sender.Sending? && w'.sender.now == now
           && var shot := w'.wire[|w.wire|];
              !shot.Dark? && w'.sender.frame == shot.Shown() && shot.at == now
              && (shot.Keepalive? ==>
                    w.last == Some(shot.frame) && w.lastSentAt.Some? && now - w.lastSentAt.value >= o.keepalive)
  {
  }

  lemma DrainIsTimed(o: Output, w: World)
    requires w.h.queue.Valid() && SenderTimed(o, w) && w.sender.Clocked?
    ensures SenderTimed(o, Drained(o, w))
  {
    hide MinDue;
    hide Queue.Valid;
    hide Queue.Ready;
    hide Queue.After;
  }

  lemma TimedStep(o: Output, w: World, s: Step)
    requires w.h.queue.Valid() && SenderTimed(o, w) && Enabled(w, s)
    ensures SenderTimed(o, After(o, w, s))
  {
    hide Pushed;
    hide Drained;
    hide MinDue;
    hide Queue.Valid;
    match s
    case SendFrame(frame, when) => PushedHistory(o, w, frame, when); PushedElsewhere(o, w, frame, when);
    case Drain => DrainIsTimed(o, w);
    case _ =>
  }

  lemma WakeupStep(o: Output, w: World, s: Step)
    requires w.h.queue.Valid() && NoLostWakeup(w) && Enabled(w, s)
    ensures NoLostWakeup(After(o, w, s))
  {
  }

  lemma DarkStep(o: Output, w: World, s: Step)
    requires w.h.queue.Valid() && DarkLast(w) && Enabled(w, s)
    ensures DarkLast(After(o, w, s))
  {
    hide Pushed;
    hide Drained;
    match s
    case SendFrame(frame, when) => PushedElsewhere(o, w, frame, when);
    case Drain =>
      DrainedElsewhere(o, w);
      assert w.wire <= After(o, w, s).wire;
    case Darken => assert w.wire <= After(o, w, s).wire;
    case _ =>
  }

  lemma RemembersStep(o: Output, w: World, s: Step)
    requires w.h.queue.Valid() && Remembers(w) && DarkLast(w) && Enabled(w, s)
    ensures Remembers(After(o, w, s))
  {
    hide Pushed;
    hide Drained;
    match s
    case SendFrame(frame, when) => PushedElsewhere(o, w, frame, when);
    case Drain => DrainedElsewhere(o, w);
    case _ =>
  }

  lemma RepeatsStep(o: Output, w: World, s: Step)
    requires w.h.queue.Valid() && Remembers(w) && Repeats(o, w.wire) && DarkLast(w) && Enabled(w, s)
    ensures Repeats(o, After(o, w, s).wire)
  {
    hide Pushed;
    hide Drained;
    var w' := After(o, w, s);
    match s {
      case SendFrame(frame, when) => PushedElsewhere(o, w, frame, when);
      case Drain => DrainedElsewhere(o, w);
      case _ =>
    }
    assert w.wire <= w'.wire && |w'.wire| <= |w.wire| + 1;
    forall i | 0 <= i < |w'.wire| && w'.wire[i].Keepalive?
      ensures i > 0 && !w'.wire[i - 1].Dark? && w'.wire[i].frame == w'.wire[i - 1].Shown()
              && w'.wire[i].at - w'.wire[i - 1].at >= o.keepalive
    {
      if i < |w.wire| {
        assert w.wire[i].Keepalive?;
      } else {
        assert s.Drain?;
      }
    }
  }

  lemma ClockBack(h: History<Frame>, clock: real)
    requires Faithful(h) && forall r :: r in h.released ==> r.due <= clock
    ensures Faithful(h.(clock := clock))
  {
  }

  lemma PushIsKept(h: History<Frame>, when: Option<real>, frame: Frame, now: real)
    requires Faithful(h) && h.clock <= now
    ensures Faithful(Next(h, DoPush(when, frame, now)).(clock := h.clock))
  {
    PushIsFaithful(h, when, frame, now);
    ClockBack(Next(h, DoPush(when, frame, now)), h.clock);
  }

  lemma PushedHistory(o: Output, w: World, frame: Frame, when: real)
    requires w.h.queue.Valid()
    ensures var h' := Pushed(o, w, frame, when).h;
      h' == if |frame| != o.width then w.h
            else Next(w.h, DoPush(Some(when - o.lead), frame, w.time)).(clock := w.h.clock)
  {
  }

  lemma PushDrains(o: Output, w: World, frame: Frame, when: real)
    requires Drains(w) && w.h.clock <= w.time
    ensures Drains(Pushed(o, w, frame, when))
  {
    hide Next;
    hide Flat;
    hide FreshOf;
    hide Winners;
    hide NonEmpty;
    PushIsKept(w.h, Some(when - o.lead), frame, w.time);
    PushedHistory(o, w, frame, when);
    PushedElsewhere(o, w, frame, when);
    hide Faithful;
    hide Pushed;
  }

  lemma FreshStep(wire: seq<Shot>, shot: Shot)
    ensures FreshOf(wire + [shot]) == FreshOf(wire) + if shot.New? then [shot.item] else []
  {
    assert (wire + [shot])[..|wire|] == wire;
  }

  lemma BatchStep(batches: seq<seq<Item<Frame>>>, batch: seq<Item<Frame>>)
    requires NonEmpty(batches) && batch != []
    ensures NonEmpty(batches + [batch]) && Flat(batches + [batch]) == Flat(batches) + batch
    ensures Winners(batches + [batch]) == Winners(batches) + [Winner(batch)]
  {
    assert (batches + [batch])[..|batches|] == batches;
  }

  lemma DrainedHistory(o: Output, w: World)
    requires w.h.queue.Valid() && w.sender.Clocked?
    ensures var w', now := Drained(o, w), w.sender.now;
      var batch := w.h.queue.Ready(now);
      var shot := ShotFor(o, batch, w.last, w.lastSentAt, now);
      && w'.h == Next(w.h, DoDue(now)) && w'.h.released == w.h.released + batch && w'.h.purged == w.h.purged
      && w'.batches == (if batch == [] then w.batches else w.batches + [batch])
      && w'.wire == (if shot.None? then w.wire else w.wire + [shot.value])
      && (if batch == [] then shot.Some? ==> !shot.value.New? else shot.Some? && shot.value == New(Winner(batch), now))
  {
  }

  lemma DrainDrains(o: Output, w: World)
    requires Drains(w) && w.sender.Clocked? && w.h.clock <= w.sender.now
    ensures Drains(Drained(o, w))
  {
    var now := w.sender.now;
    var batch := w.h.queue.Ready(now);
    var shot := ShotFor(o, batch, w.last, w.lastSentAt, now);
    DueIsFaithful(w.h, now);
    DrainedHistory(o, w);
    hide Faithful;
    hide Next;
    hide ShotFor;
    hide Drained;
    if batch != [] {
      BatchStep(w.batches, batch);
    }
    if shot.Some? {
      FreshStep(w.wire, shot.value);
    }
    hide Flat;
    hide FreshOf;
    hide Winners;
    hide NonEmpty;
  }

  lemma DrainsStep(o: Output, w: World, s: Step)
    requires SenderTimed(o, w) && Drains(w) && Enabled(w, s)
    ensures Drains(After(o, w, s))
  {
    match s
    case SendFrame(frame, when) => PushDrains(o, w, frame, when);
    case Drain => DrainDrains(o, w);
    case Darken =>
      hide Faithful;
      FreshStep(w.wire, Dark(seq(o.width, i => 0)));
    case _ =>
      hide Faithful;
  }

  lemma StepKeepsInv(o: Output, w: World, s: Step)
    requires Inv(o, w) && Enabled(w, s)
    ensures Inv(o, After(o, w, s))
  {
    TimedStep(o, w, s);
    WakeupStep(o, w, s);
    DarkStep(o, w, s);
    RemembersStep(o, w, s);
    RepeatsStep(o, w, s);
    DrainsStep(o, w, s);
    hide After;
    hide SenderTimed;
    hide NoLostWakeup;
    hide Remembers;
    hide Repeats;
    hide DarkLast;
    hide Faithful;
  }

  // ---- runs ------------------------------------------------------------------------------------

  ghost function Boot(time: real): World {
    World(Start(time), time, false, false, NotStarted, Open, None, None, [], [])
  }

  ghost function Run(o: Output, time: real, steps: seq<Step>): (w: Option<World>)
    ensures w.Some? ==> Inv(o, w.value)
  {
    if steps == [] then Some(Boot(time))
    else
      var w := Run(o, time, steps[..|steps| - 1]);
      var s := steps[|steps| - 1];
      if w.Some? && Enabled(w.value, s)
      then
        StepKeepsInv(o, w.value, s);
        Some(After(o, w.value, s))
      else None
  }

  lemma RunLast(o: Output, time: real, steps: seq<Step>, s: Step)
    requires Run(o, time, steps + [s]).Some?
    ensures Run(o, time, steps).Some?
    ensures var w := Run(o, time, steps).value;
      Inv(o, w) && Enabled(w, s) && Run(o, time, steps + [s]) == Some(After(o, w, s))
  {
    assert (steps + [s])[..|steps|] == steps;
    hide Inv;
    hide After;
  }

  lemma AllButLast(steps: seq<Step>, more: seq<Step>)
    requires more != []
    ensures steps + more == (steps + more[..|more| - 1]) + [more[|more| - 1]]
  {
  }

  /** Where the last of `more` takes a longer run. */
  lemma RunOn(o: Output, time: real, steps: seq<Step>, more: seq<Step>)
    requires more != [] && Run(o, time, steps + more).Some?
    ensures Run(o, time, steps + more[..|more| - 1]).Some?
    ensures var w, s := Run(o, time, steps + more[..|more| - 1]).value, more[|more| - 1];
      Inv(o, w) && Enabled(w, s) && Run(o, time, steps + more) == Some(After(o, w, s))
  {
    hide Run;
    hide After;
    hide Inv;
    AllButLast(steps, more);
    RunLast(o, time, steps + more[..|more| - 1], more[|more| - 1]);
  }

  /**
   No lost wakeup, in every state of every interleaving: a sender that can do nothing has
   no due frame waiting, no stop request, and has slept less than one keepalive.
   */
  lemma NeverBlockedOnWork(o: Output, time: real, steps: seq<Step>)
    requires Run(o, time, steps).Some? && Blocked(Run(o, time, steps).value)
    ensures var w := Run(o, time, steps).value;
      && !w.stop && w.time < w.sender.since + o.keepalive
      && forall x :: x in w.h.queue.items ==> w.time < w.sender.deadline <= x.due
  {
    hide Run;
    hide Drains;
    hide Remembers;
    hide Repeats;
  }

  /** Drained in one go and passed over for the last, or the last itself. */
  ghost predicate LedByLast(batch: seq<Item<Frame>>, flat: seq<Item<Frame>>) {
    batch != [] && forall x :: x in batch ==> x in flat && (x == Winner(batch) || Before(x, Winner(batch)))
  }

  lemma LastLeads(flat: seq<Item<Frame>>, batch: seq<Item<Frame>>)
    requires batch != [] && Sorted(batch)
    ensures LedByLast(batch, flat + batch)
  {
  }

  lemma WinnersAppend(batches: seq<seq<Item<Frame>>>, batch: seq<Item<Frame>>)
    requires NonEmpty(batches) && batch != []
    requires Sorted(Winners(batches)) && forall i :: 0 <= i < |batches| ==> Before(Winner(batches[i]), Winner(batch))
    ensures NonEmpty(batches + [batch]) && Sorted(Winners(batches + [batch]))
  {
    assert Winners(batches + [batch]) == Winners(batches) + [Winner(batch)];
  }

  lemma {:induction false} FlatOrdered(batches: seq<seq<Item<Frame>>>)
    requires NonEmpty(batches) && Sorted(Flat(batches))
    ensures Sorted(Winners(batches))
    ensures forall i :: 0 <= i < |batches| ==> LedByLast(batches[i], Flat(batches))
  {
    if batches != [] {
      var front, batch := batches[..|batches| - 1], batches[|batches| - 1];
      assert batches == front + [batch];
      SortedSlices(Flat(front), batch);
      FlatOrdered(front);
      LastLeads(Flat(front), batch);
      forall i | 0 <= i < |front|
        ensures Before(Winner(front[i]), Winner(batch)) && LedByLast(front[i], Flat(batches))
      {
        assert LedByLast(front[i], Flat(front)) && Winner(front[i]) in front[i];
      }
      WinnersAppend(front, batch);
      hide LedByLast;
      hide Sorted;
      hide Winners;
    }
  }

  lemma {:induction false} FlatHolds(batches: seq<seq<Item<Frame>>>, x: Item<Frame>)
    requires x in Flat(batches)
    ensures exists i :: 0 <= i < |batches| && x in batches[i]
  {
    var front, batch := batches[..|batches| - 1], batches[|batches| - 1];
    if x in batch {
      assert x in batches[|batches| - 1];
    } else {
      FlatHolds(front, x);
      var i :| 0 <= i < |front| && x in front[i];
      assert x in batches[i];
    }
  }

  lemma SortedSlices(a: seq<Item<Frame>>, b: seq<Item<Frame>>)
    requires Sorted(a + b)
    ensures Sorted(a) && Sorted(b) && forall x, y :: x in a && y in b ==> Before(x, y)
  {
    assert forall i :: 0 <= i < |a| ==> (a + b)[i] == a[i];
    assert forall i :: 0 <= i < |b| ==> (a + b)[|a| + i] == b[i];
    forall x, y | x in a && y in b ensures Before(x, y) {
      var i :| 0 <= i < |a| && a[i] == x;
      var j :| 0 <= j < |b| && b[j] == y;
      assert Before((a + b)[i], (a + b)[|a| + j]);
    }
  }

  /** Dropped for a later frame of the same drain, which was sent. */
  ghost predicate PassedOver(w: World, x: Item<Frame>) {
    exists i :: 0 <= i < |w.batches| && w.batches[i] != [] && x in w.batches[i]
                && Before(x, Winner(w.batches[i])) && Winner(w.batches[i]) in FreshOf(w.wire)
  }

  lemma BatchesInOrder(o: Output, w: World)
    requires Inv(o, w)
    ensures Sorted(FreshOf(w.wire))
    ensures forall x :: x in w.h.released <==> x in FreshOf(w.wire) || PassedOver(w, x)
  {
    FlatOrdered(w.batches);
    assert forall i :: 0 <= i < |w.batches| ==> Winners(w.batches)[i] == Winner(w.batches[i]);
    forall x | x in w.h.released && x !in FreshOf(w.wire) ensures PassedOver(w, x) {
      FlatHolds(w.batches, x);
      var i :| 0 <= i < |w.batches| && x in w.batches[i];
      assert LedByLast(w.batches[i], Flat(w.batches));
      assert Winner(w.batches[i]) == Winners(w.batches)[i];
    }
    forall x | x in FreshOf(w.wire) ensures x in w.h.released {
      var i :| 0 <= i < |w.batches| && Winners(w.batches)[i] == x;
      assert LedByLast(w.batches[i], Flat(w.batches));
      assert Winner(w.batches[i]) in w.batches[i];
    }
    hide Remembers;
    hide Repeats;
    hide DarkLast;
  }

  lemma NothingLost(h: History<Frame>)
    requires Faithful(h) && h.purged == []
    ensures forall x :: x in h.pushed <==> x in h.released || x in h.queue.items
    ensures forall x :: x in h.queue.items ==> x !in h.released
  {
    forall x ensures x in h.pushed <==> x in h.released || x in h.queue.items {
      assert x in h.pushed <==> x in multiset(h.pushed);
    }
    assert forall x: Item<Frame> :: !Before(x, x);
  }

  /**
   Fresh frames leave in strictly increasing (due, order), each once; a pushed frame is
   sent, still queued, or was passed over in a drain whose sent frame is later. Keepalives
   only ever repeat the frame before them.
   */
  lemma FramesLeaveInOrder(o: Output, time: real, steps: seq<Step>)
    requires Run(o, time, steps).Some?
    ensures var w := Run(o, time, steps).value;
      && Sorted(FreshOf(w.wire)) && Repeats(o, w.wire)
      && (forall x :: x in w.h.pushed <==> x in FreshOf(w.wire) || x in w.h.queue.items || PassedOver(w, x))
      && (forall x :: x in w.h.queue.items ==> x !in FreshOf(w.wire) && !PassedOver(w, x))
  {
    var w := Run(o, time, steps).value;
    hide Run;
    BatchesInOrder(o, w);
    NothingLost(w.h);
    hide PassedOver;
    hide Faithful;
    hide Before;
    hide Sorted;
    hide FreshOf;
    hide Repeats;
    hide SenderTimed;
    hide NoLostWakeup;
    hide Remembers;
    hide DarkLast;
  }

  // ---- keepalives -----------------------------------------------------------------------------

  /** The newest of the frames due at `now`. */
  ghost predicate NewestDue(items: seq<Item<Frame>>, now: real, x: Item<Frame>) {
    x in items && x.due <= now && forall y :: y in items && y.due <= now ==> y == x || Before(y, x)
  }

  lemma WinnerIsNewest(q: Queue<Frame>, now: real)
    requires q.Valid() && q.Ready(now) != []
    ensures NewestDue(q.items, now, Winner(q.Ready(now)))
  {
    var batch := q.Ready(now);
    LastLeads([], batch);
    hide Queue.Ready;
  }

  lemma NothingReady(q: Queue<Frame>, now: real)
    requires q.Valid()
    ensures q.Ready(now) == [] <==> forall x :: x in q.items ==> now < x.due
  {
    var batch := q.Ready(now);
    if batch != [] {
      assert batch[0] in batch;
    }
    hide Queue.Ready;
  }

  /** The sender's last shot, which a keepalive repeats. */
  function LastShot(w: World): Shot
    requires w.wire != []
  {
    w.wire[|w.wire| - 1]
  }

  /**
   What a drain at `now` puts on the wire: the newest frame due; with none due, the last
   shot's frame again once that is a keepalive old; otherwise, and before the first frame,
   nothing. So from the first frame on the wire is never a keepalive or more behind it.
   */
  lemma DrainShows(o: Output, time: real, steps: seq<Step>)
    requires Run(o, time, steps).Some? && Enabled(Run(o, time, steps).value, Drain)
    ensures var w := Run(o, time, steps).value; var now := w.sender.now;
      && w.h.queue.Valid()
      && var w' := After(o, w, Drain);
         if exists x :: x in w.h.queue.items && x.due <= now then
           exists x :: NewestDue(w.h.queue.items, now, x) && w'.wire == w.wire + [New(x, now)]
         else if w.wire != [] && now - LastShot(w).at >= o.keepalive then
           w'.wire == w.wire + [Keepalive(LastShot(w).Shown(), now)]
         else w'.wire == w.wire
    ensures var w := Run(o, time, steps).value; var now := w.sender.now;
      w.wire != [] ==>
        var w' := After(o, w, Drain);
        w'.wire != [] && !LastShot(w').Dark? && (LastShot(w').at == now || now - LastShot(w').at < o.keepalive)
  {
    hide Run;
    var w := Run(o, time, steps).value;
    var now := w.sender.now;
    assert w.h.queue.Valid() && Remembers(w) && Alive(w) && DarkLast(w);
    hide Inv;
    hide Queue.Valid;
    hide Drained;
    hide NewestDue;
    NotDarkYet(w);
    DrainedWire(o, w);
    if w.h.queue.Ready(now) != [] {
      WinnerIsNewest(w.h.queue, now);
    }
    NothingReady(w.h.queue, now);
    hide Queue.Ready;
    hide Remembers;
    hide DarkLast;
  }

  lemma NotDarkYet(w: World)
    requires DarkLast(w) && Alive(w)
    ensures w.wire != [] ==> !LastShot(w).Dark?
  {
  }

  /** What a drain adds to the wire, given what the sender remembers. */
  lemma DrainedWire(o: Output, w: World)
    requires w.h.queue.Valid() && w.sender.Clocked? && Remembers(w) && (w.wire != [] ==> !LastShot(w).Dark?)
    ensures var now := w.sender.now; var batch := w.h.queue.Ready(now);
      Drained(o, w).wire ==
        if batch != [] then w.wire + [New(Winner(batch), now)]
        else if w.wire != [] && now - LastShot(w).at >= o.keepalive then w.wire + [Keepalive(LastShot(w).Shown(), now)]
        else w.wire
  {
    hide Queue.Valid;
    hide Queue.Ready;
    hide Next;
    hide MinDue;
  }

  /** Nothing the sender waits for lies past the next keepalive. */
  ghost predicate OnTime(o: Output, w: World) {
    w.wire != [] && !LastShot(w).Dark? ==>
      match w.sender
      case Settling(wake) => wake <= LastShot(w).at + o.keepalive
      case Asleep(_, deadline) => deadline <= LastShot(w).at + o.keepalive
      case _ => true
  }

  lemma DrainOnTime(o: Output, w: World)
    requires w.h.queue.Valid() && Remembers(w) && w.sender.Clocked?
    ensures OnTime(o, Drained(o, w))
  {
    DrainedElsewhere(o, w);
    hide Queue.Valid;
    hide Next;
    hide MinDue;
  }

  lemma SettleOnTime(o: Output, w: World)
    requires w.sender.Settling? && OnTime(o, w)
    ensures OnTime(o, Settled(w))
  {
    hide MinDue;
  }

  lemma SentOnTime(o: Output, w: World)
    requires w.h.queue.Valid() && Enabled(w, Sent) && Remembers(w)
    ensures OnTime(o, After(o, w, Sent))
  {
    hide Queue.Valid;
    hide MinDue;
  }

  lemma OnTimeStep(o: Output, w: World, s: Step)
    requires Inv(o, w) && OnTime(o, w) && Enabled(w, s) && !s.Stumble?
    ensures OnTime(o, After(o, w, s))
  {
    assert w.h.queue.Valid() && Remembers(w);
    hide Inv;
    hide Queue.Valid;
    hide Remembers;
    hide OnTime;
    hide Pushed;
    hide Drained;
    hide Settled;
    match s {
      case SendFrame(frame, when) => PushOnTime(o, w, frame, when);
      case Drain => DrainOnTime(o, w);
      case Sent => SentOnTime(o, w);
      case Settle => SettleOnTime(o, w);
      case Pass(_) => StillOnTime(o, w, After(o, w, s));
      case AskStop => StillOnTime(o, w, After(o, w, s));
      case Join => StillOnTime(o, w, After(o, w, s));
      case _ => WaitsForNothing(o, w, s);
    }
  }

  lemma PushOnTime(o: Output, w: World, frame: Frame, when: real)
    requires w.h.queue.Valid() && OnTime(o, w)
    ensures OnTime(o, Pushed(o, w, frame, when))
  {
    PushedElsewhere(o, w, frame, when);
    hide Pushed;
    hide Queue.Valid;
  }

  lemma StillOnTime(o: Output, w: World, w': World)
    requires OnTime(o, w) && w'.wire == w.wire && w'.sender == w.sender
    ensures OnTime(o, w')
  {
  }

  lemma WaitsForNothing(o: Output, w: World, s: Step)
    requires w.h.queue.Valid() && Enabled(w, s)
    requires s.Launch? || s.CheckStop? || s.ReadClock? || s.Wake? || s.Darken?
    ensures OnTime(o, After(o, w, s))
  {
    hide Queue.Valid;
  }

  lemma {:induction false} RunsOnTime(o: Output, time: real, steps: seq<Step>)
    requires Run(o, time, steps).Some? && forall s :: s in steps ==> !s.Stumble?
    ensures OnTime(o, Run(o, time, steps).value)
  {
    hide Inv;
    hide After;
    if steps == [] {
    } else {
      hide Run;
      hide OnTime;
      var before, s := steps[..|steps| - 1], steps[|steps| - 1];
      assert steps == before + [s];
      RunLast(o, time, before, s);
      RunsOnTime(o, time, before);
      OnTimeStep(o, Run(o, time, before).value, s);
    }
  }

  /**
   The fixture is never left without a frame: in every interleaving in which no service
   raises, a sender that sleeps with nothing to wake it has sent its last shot less than
   one keepalive ago.
   */
  lemma KeepaliveInTime(o: Output, time: real, steps: seq<Step>)
    requires Run(o, time, steps).Some? && Blocked(Run(o, time, steps).value)
    requires forall s :: s in steps ==> !s.Stumble?
    ensures var w := Run(o, time, steps).value;
      w.wire != [] && !LastShot(w).Dark? ==> w.time < LastShot(w).at + o.keepalive
  {
    hide Run;
    hide Inv;
    RunsOnTime(o, time, steps);
  }

  /** What ends a sleep: the next keepalive, or a frame still queued that is due then. */
  ghost predicate Reason(o: Output, w: World, wake: real) {
    wake == LastShotAt(w) + o.keepalive || exists x :: x in w.h.queue.items && x.due == wake
  }

  ghost function LastShotAt(w: World): real { if w.wire != [] && !LastShot(w).Dark? then LastShot(w).at else 0.0 }

  ghost predicate HasReason(o: Output, w: World) {
    w.wire != [] && !LastShot(w).Dark? ==>
      match w.sender
      case Sending(_, _, pending) => pending.Some? ==> exists x :: x in w.h.queue.items && x.due == pending.value
      case Settling(wake) => Reason(o, w, wake)
      case Asleep(_, deadline) => Reason(o, w, deadline)
      case _ => true
  }

  lemma DrainHasReason(o: Output, w: World)
    requires w.h.queue.Valid() && Remembers(w) && w.sender.Clocked?
    ensures HasReason(o, Drained(o, w))
  {
    DrainedElsewhere(o, w);
    hide Queue.Valid;
    hide Next;
  }

  /** A push only adds to the queue. */
  lemma PushKeepsReasons(o: Output, w: World, frame: Frame, when: real)
    requires w.h.queue.Valid() && HasReason(o, w)
    ensures HasReason(o, Pushed(o, w, frame, when))
  {
    PushedElsewhere(o, w, frame, when);
    var w' := Pushed(o, w, frame, when);
    assert forall x :: x in w.h.queue.items ==> x in w'.h.queue.items;
    hide Pushed;
  }

  lemma SettleHasReason(o: Output, w: World)
    requires w.sender.Settling? && HasReason(o, w)
    ensures HasReason(o, Settled(w))
  {
    hide MinDue;
  }

  lemma SentHasReason(o: Output, w: World)
    requires w.h.queue.Valid() && Enabled(w, Sent) && Remembers(w) && HasReason(o, w)
    ensures HasReason(o, After(o, w, Sent))
  {
    hide Queue.Valid;
    hide MinDue;
  }

  lemma HasReasonStep(o: Output, w: World, s: Step)
    requires Inv(o, w) && HasReason(o, w) && Enabled(w, s) && !s.Stumble?
    ensures HasReason(o, After(o, w, s))
  {
    assert w.h.queue.Valid() && Remembers(w);
    hide Inv;
    hide Queue.Valid;
    hide Remembers;
    hide HasReason;
    hide Pushed;
    hide Drained;
    hide Settled;
    match s {
      case SendFrame(frame, when) => PushKeepsReasons(o, w, frame, when);
      case Drain => DrainHasReason(o, w);
      case Sent => SentHasReason(o, w);
      case Settle => SettleHasReason(o, w);
      case Pass(_) => SameReasons(o, w, After(o, w, s));
      case AskStop => SameReasons(o, w, After(o, w, s));
      case Join => SameReasons(o, w, After(o, w, s));
      case _ => NothingAwaited(o, w, s);
    }
  }

  lemma SameReasons(o: Output, w: World, w': World)
    requires HasReason(o, w) && w'.h == w.h && w'.wire == w.wire && w'.sender == w.sender
    ensures HasReason(o, w')
  {
  }

  lemma NothingAwaited(o: Output, w: World, s: Step)
    requires w.h.queue.Valid() && Enabled(w, s)
    requires s.Launch? || s.CheckStop? || s.ReadClock? || s.Wake? || s.Darken?
    ensures HasReason(o, After(o, w, s))
  {
    hide Queue.Valid;
    hide Reason;
  }

  lemma {:induction false} RunsHaveReason(o: Output, time: real, steps: seq<Step>)
    requires Run(o, time, steps).Some? && forall s :: s in steps ==> !s.Stumble?
    ensures HasReason(o, Run(o, time, steps).value)
  {
    hide Inv;
    hide After;
    if steps == [] {
    } else {
      hide Run;
      hide HasReason;
      var before, s := steps[..|steps| - 1], steps[|steps| - 1];
      assert steps == before + [s];
      RunLast(o, time, before, s);
      RunsHaveReason(o, time, before);
      HasReasonStep(o, Run(o, time, before).value, s);
    }
  }

  /**
   Nor does it wake for nothing: what it sleeps until is exactly one keepalive after its
   last shot, or the time of a frame it has queued.
   */
  lemma WakesForAReason(o: Output, time: real, steps: seq<Step>)
    requires Run(o, time, steps).Some? && Run(o, time, steps).value.sender.Asleep?
    requires forall s :: s in steps ==> !s.Stumble?
    ensures var w := Run(o, time, steps).value;
      w.wire != [] && !LastShot(w).Dark? ==>
        || w.sender.deadline == LastShot(w).at + o.keepalive
        || exists x :: x in w.h.queue.items && x.due == w.sender.deadline
  {
    hide Run;
    hide Inv;
    RunsHaveReason(o, time, steps);
  }

  /** A frame handed over: of another width it is dropped; else it is queued for its time less the lead, or for now. */
  lemma FrameIsQueued(o: Output, w: World, frame: Frame, when: real)
    requires w.h.queue.Valid()
    ensures var w' := After(o, w, SendFrame(frame, when));
      if |frame| != o.width then w' == w
      else
        && w'.notified && w' == w.(h := w'.h, notified := true)
        && exists x :: w'.h.pushed == w.h.pushed + [x] && w'.h.queue.items == w.h.queue.items + [x]
                       && x.payload == frame && x.due == if when - o.lead < w.time then w.time else when - o.lead
  {
    PushedElsewhere(o, w, frame, when);
    var x := Item(DueAt(Some(when - o.lead), w.time), w.h.queue.nextOrder, frame);
    if |frame| == o.width {
      assert After(o, w, SendFrame(frame, when)).h.pushed == w.h.pushed + [x];
    }
  }

  ghost predicate Ending(w: World) { !Alive(w) && (w.closer.Darkening? || w.closer.Closed?) }

  /** Nothing more on the wire between the two, or just the black frame. */
  ghost predicate EndsAs(w: World, w': World) {
    && Ending(w') && (w.closer.Closed? ==> w'.closer.Closed?)
    && if w.closer == w'.closer then w'.wire == w.wire else |w'.wire| == |w.wire| + 1 && w'.wire[..|w.wire|] == w.wire
  }

  lemma EndsAsOn(w0: World, w1: World, w2: World)
    requires Ending(w0) && EndsAs(w0, w1) && EndsAs(w1, w2)
    ensures EndsAs(w0, w2)
  {
  }

  lemma EndingStep(o: Output, w: World, s: Step)
    requires Inv(o, w) && Ending(w) && Enabled(w, s)
    ensures EndsAs(w, After(o, w, s))
  {
    hide Pushed;
    hide Remembers;
    hide Repeats;
    hide DarkLast;
    hide NoLostWakeup;
    match s
    case SendFrame(frame, when) => PushedElsewhere(o, w, frame, when);
    case _ =>
  }

  /** Nothing reaches the backend together with or after the closing black frame, whatever else still happens. */
  lemma {:induction false} DarkIsLast(o: Output, time: real, steps: seq<Step>, more: seq<Step>)
    requires Run(o, time, steps).Some? && Run(o, time, steps + more).Some?
    requires Ending(Run(o, time, steps).value)
    ensures EndsAs(Run(o, time, steps).value, Run(o, time, steps + more).value)
  {
    if more == [] {
      assert steps + more == steps;
    } else {
      var before := more[..|more| - 1];
      RunOn(o, time, steps, more);
      hide Run;
      DarkIsLast(o, time, steps, before);
      var w1 := Run(o, time, steps + before).value;
      EndingStep(o, w1, more[|more| - 1]);
      EndsAsOn(Run(o, time, steps).value, w1, Run(o, time, steps + more).value);
      hide After;
      hide EndsAs;
    }
    hide Inv;
  }

  /** How many sections of its own the sender has left once a stop is asked for. */
  function Fuel(s: Sender): nat {
    match s
    case NotStarted => 0
    case Exited => 0
    case Top => 1
    case Settling(_) => 1
    case Asleep(_, _) => 2
    case Sending(_, _, _) => 2
    case Clocked(_) => 3
    case Running => 4
  }

  predicate BySender(s: Step) {
    s.CheckStop? || s.ReadClock? || s.Stumble? || s.Drain? || s.Sent? || s.Settle? || s.Wake?
  }

  function SenderSteps(steps: seq<Step>): nat {
    if steps == [] then 0
    else SenderSteps(steps[..|steps| - 1]) + if BySender(steps[|steps| - 1]) then 1 else 0
  }

  /** The sends still to come: one if the sender is past its check, one for the black frame. */
  function SendsLeft(w: World): nat {
    (if w.sender.Running? || w.sender.Clocked? then 1 else 0)
    + if w.closer.Joining? || w.closer.Darkening? then 1 else 0
  }

  lemma StopStep(o: Output, w: World, s: Step)
    requires Inv(o, w) && w.stop && !w.closer.Open? && Enabled(w, s)
    ensures var w' := After(o, w, s);
      && w'.stop && !w'.closer.Open?
      && Fuel(w'.sender) + (if BySender(s) then 1 else 0) <= Fuel(w.sender)
      && |w'.wire| + SendsLeft(w') <= |w.wire| + SendsLeft(w)
  {
    hide Pushed;
    hide Drained;
    hide Remembers;
    hide Repeats;
    hide DarkLast;
    hide NoLostWakeup;
    match s
    case SendFrame(frame, when) => PushedElsewhere(o, w, frame, when);
    case Drain => DrainedElsewhere(o, w);
    case _ =>
  }

  lemma AwakeForStop(o: Output, w: World)
    requires Inv(o, w) && w.stop
    ensures !Blocked(w) && Fuel(w.sender) <= 4
  {
    hide Drains;
    hide Remembers;
    hide Repeats;
  }

  /**
   Once stop is asked for the sender is never left asleep, takes at most four sections
   more, and sends at most one frame more before the closing black one.
   */
  lemma {:induction false} StopIsHeard(o: Output, time: real, steps: seq<Step>, more: seq<Step>)
    requires Run(o, time, steps).Some? && Run(o, time, steps + more).Some?
    requires Run(o, time, steps).value.stop
    ensures var w, w' := Run(o, time, steps).value, Run(o, time, steps + more).value;
      && w'.stop && !w'.closer.Open? && !Blocked(w')
      && SenderSteps(more) + Fuel(w'.sender) <= Fuel(w.sender)
      && |w'.wire| + SendsLeft(w') <= |w.wire| + SendsLeft(w)
    ensures SenderSteps(more) <= 4
  {
    if more == [] {
      assert steps + more == steps;
    } else {
      var before := more[..|more| - 1];
      RunOn(o, time, steps, more);
      hide Run;
      StopIsHeard(o, time, steps, before);
      var w1 := Run(o, time, steps + before).value;
      StopStep(o, w1, more[|more| - 1]);
      hide After;
    }
    AwakeForStop(o, Run(o, time, steps + more).value);
    AwakeForStop(o, Run(o, time, steps).value);
    hide Inv;
    hide Blocked;
    hide SendsLeft;
    hide Fuel;
    hide BySender;
  }

  // ---- the object ---------------------------------------------------------------------------

  datatype Turn = Exit | Sleep(deadline: real) | Again

  lemma PayloadsEnd(batch: seq<Item<Frame>>)
    ensures |Payloads(batch)| == |batch| && (batch != [] ==> Payloads(batch)[|batch| - 1] == Winner(batch).payload)
  {
  }

  /** The fields the threads share. Each method is one section; the clock readings are handed in. */
  class ArtNetFixtureSink {
    const o: Output
    const queue: TimedQueue<Frame>
    var stop: bool
    var last: Option<Frame>
    var lastSentAt: Option<real>
    var framesSent: nat
    var keepalives: nat

    ghost predicate Valid()
      reads this, queue
    {
      queue.Valid()
    }

    constructor (o: Output)
      ensures Valid() && fresh(queue) && this.o == o && queue.View() == Empty()
      ensures !stop && last.None? && lastSentAt.None? && framesSent == keepalives == 0
    {
      this.o := o;
      queue := new TimedQueue<Frame>();
      stop, last, lastSentAt, framesSent, keepalives := false, None, None, 0, 0;
    }

    /** True: the sender is notified. */
    method SendFrame(frame: Frame, when: real, now: real) returns (notify: bool)
      requires Valid()
      modifies queue
      ensures Valid() && notify == (|frame| == o.width)
      ensures queue.View()
           == if notify then old(queue.View()).Push(Some(when - o.lead), frame, now) else old(queue.View())
    {
      notify := |frame| == o.width;
      if notify {
        queue.Push(Some(when - o.lead), frame, now);
      }
    }

    method AskStop()
      modifies this`stop
      ensures stop
    {
      stop := true;
    }

    method NextDue() returns (pending: Option<real>)
      requires Valid()
      ensures pending == MinDue(queue.items)
    {
      pending := queue.NextDue();
      IsMinDue(queue.items, pending);
      hide MinDue;
    }

    /** `_service_once`'s first section. */
    method TakeDue(now: real) returns (due: seq<Frame>, pending: Option<real>)
      requires Valid()
      modifies queue
      ensures Valid() && queue.View() == old(queue.View()).After(now) && pending == MinDue(queue.items)
      ensures due == Payloads(old(queue.View()).Ready(now))
    {
      due := queue.Due(now);
      pending := NextDue();
    }

    /** `_service_once` up to the send: what to send, if anything, and the next due time left. */
    method Service(now: real) returns (frame: Option<Frame>, again: bool, pending: Option<real>)
      requires Valid()
      modifies queue
      ensures Valid() && queue.View() == old(queue.View()).After(now) && pending == MinDue(queue.items)
      ensures var shot := ShotFor(o, old(queue.View()).Ready(now), last, lastSentAt, now);
        && frame.Some? == shot.Some?
        && (frame.Some? ==> frame.value == shot.value.Shown() && again == shot.value.Keepalive?)
    {
      ghost var batch := queue.View().Ready(now);
      PayloadsEnd(batch);
      var due;
      due, pending := TakeDue(now);
      hide MinDue;
      hide Payloads;
      frame, again := Pick(due, batch, now);
    }

    /** Its choice: the newest due frame, else the last one again once it is `keepalive` old. */
    method Pick(due: seq<Frame>, ghost batch: seq<Item<Frame>>, now: real) returns (frame: Option<Frame>, again: bool)
      requires |due| == |batch| && (batch != [] ==> due[|due| - 1] == Winner(batch).payload)
      ensures var shot := ShotFor(o, batch, last, lastSentAt, now);
        && frame.Some? == shot.Some?
        && (frame.Some? ==> frame.value == shot.value.Shown() && again == shot.value.Keepalive?)
    {
      frame, again := None, false;
      if due != [] {
        frame := Some(due[|due| - 1]);
      } else if last.Some? && lastSentAt.Some? && now - lastSentAt.value >= o.keepalive {
        frame, again := last, true;
      }
    }

    /** `_service_once` after the send: what was sent is remembered; `wake` is when to serve next. */
    method Serviced(frame: Option<Frame>, again: bool, ok: bool, now: real, pending: Option<real>) returns (wake: real)
      modifies this`last, this`lastSentAt, this`framesSent, this`keepalives
      ensures last == (if frame.Some? then frame else old(last))
      ensures lastSentAt == (if frame.Some? then Some(now) else old(lastSentAt))
      ensures framesSent == old(framesSent) + (if frame.Some? && ok && !again then 1 else 0)
      ensures keepalives == old(keepalives) + (if frame.Some? && ok && again then 1 else 0)
      ensures wake == Earlier(NextKeepalive(o, lastSentAt, now), pending)
    {
      if frame.Some? {
        last, lastSentAt := frame, Some(now);
        if ok {
          if again {
            keepalives := keepalives + 1;
          } else {
            framesSent := framesSent + 1;
          }
        }
      }
      var next := if lastSentAt.None? then now + o.keepalive else lastSentAt.value + o.keepalive;
      wake := if pending.None? then next else if pending.value < next then pending.value else next;
    }

    /** The end of one turn of `_run`: a frame pushed since the service shortens the sleep. */
    method Settle(wake: real, now: real) returns (turn: Turn)
      requires Valid()
      ensures turn == if stop then Exit
                      else if Earlier(wake, MinDue(queue.items)) > now then Sleep(Earlier(wake, MinDue(queue.items)))
                      else Again
    {
      if stop {
        return Exit;
      }
      var until := wake;
      var pending := NextDue();
      if pending.Some? && pending.value < until {
        until := pending.value;
      }
      turn := if until - now > 0.0 then Sleep(until) else Again;
    }
  }
}
