/**
 * Value-level model of the single-consumption event wrapper `Event<T>` and of
 * the `observeEvent` callback body. The classes in module Events are proved
 * against these functions.
 */
module EventModel {

  import opened Wrappers

  /** An event as a value: its immutable payload and its "handled" flag. */
  datatype EventState<T> = EventState(content: T, handled: bool)

  /** The state of a newly constructed event: not yet handled. */
  function Fresh<T>(content: T): (s: EventState<T>)
    ensures !s.handled
    ensures Peek(s) == content
  {
    EventState(content, false)
  }

  /** The new event state and the value returned by one take. */
  datatype Taken<T> = Taken(next: EventState<T>, out: Option<T>)

  /** One call of `getContentIfNotHandled`: a one-shot gate. */
  function Take<T>(s: EventState<T>): (r: Taken<T>)
    ensures r.next.content == s.content
    ensures r.next.handled
    ensures r.out.Some? <==> !s.handled
    ensures r.out.Some? ==> r.out.value == s.content
    ensures s.handled ==> r.next == s
  {
    if s.handled then Taken(s, None)
    else Taken(EventState(s.content, true), Some(s.content))
  }

  /** `peekContent`: the payload, whatever the flag says. */
  function Peek<T>(s: EventState<T>): (r: T)
    ensures r == s.content
    ensures r == Take(s).next.content
  {
    s.content
  }

  /** The final state and the values returned by a run of consecutive takes. */
  datatype Trace<T> = Trace(last: EventState<T>, outs: seq<Option<T>>)

  /** `n` consecutive calls of `getContentIfNotHandled` on one event. */
  function Takes<T>(s: EventState<T>, n: nat): (r: Trace<T>)
    ensures |r.outs| == n
    ensures Peek(r.last) == Peek(s)
    ensures r.last.handled <==> s.handled || n > 0
    decreases n
  {
    if n == 0 then Trace(s, [])
    else
      var t := Take(s);
      var rest := Takes(t.next, n - 1);
      Trace(rest.last, [t.out] + rest.outs)
  }

  /** `n` absences. */
  function Nones<T>(n: nat): (r: seq<Option<T>>)
    ensures |r| == n
  {
    if n == 0 then [] else [None] + Nones(n - 1)
  }

  /** How many of the returned values are present. */
  function CountSome<T>(outs: seq<Option<T>>): (r: nat)
    ensures r <= |outs|
  {
    if outs == [] then 0
    else (if outs[0].Some? then 1 else 0) + CountSome(outs[1..])
  }

  lemma {:induction false} NonesHaveNoSome<T>(n: nat)
    ensures CountSome(Nones<T>(n)) == 0
    ensures forall i :: 0 <= i < n ==> Nones<T>(n)[i] == None
  {
    if n > 0 {
      NonesHaveNoSome<T>(n - 1);
      assert Nones<T>(n)[1..] == Nones<T>(n - 1);
    }
  }

  /** On a handled event every take returns absence and changes nothing. */
  lemma {:induction false} TakesOnHandled<T>(s: EventState<T>, n: nat)
    requires s.handled
    ensures Takes(s, n) == Trace(s, Nones(n))
  {
    if n > 0 {
      TakesOnHandled(s, n - 1);
    }
  }

  /**
   * On a fresh event, of `n >= 1` takes exactly one, the first, returns the
   * content, and the other `n - 1` return absence.
   */
  lemma TakesOnFresh<T>(content: T, n: nat)
    requires n >= 1
    ensures Takes(Fresh(content), n).outs == [Some(content)] + Nones(n - 1)
    ensures Takes(Fresh(content), n).last == EventState(content, true)
    ensures CountSome(Takes(Fresh(content), n).outs) == 1
    ensures forall i :: 1 <= i < n ==> Takes(Fresh(content), n).outs[i] == None
  {
    TakesOnHandled(EventState(content, true), n - 1);
    NonesHaveNoSome<T>(n - 1);
    var outs := Takes(Fresh(content), n).outs;
    assert outs[1..] == Nones(n - 1);
  }

  /** The value of the handler log after one `observeEvent` callback run. */
  datatype Delivery<T> = Delivery(event: EventState<T>, log: seq<T>)

  /**
   * The `observeEvent` callback body: take from the event and, if the take
   * returned the content, invoke the handler (append it to the log).
   */
  function Deliver<T>(s: EventState<T>, log: seq<T>): (r: Delivery<T>)
    ensures Peek(r.event) == Peek(s) && r.event.handled
    ensures |log| <= |r.log| <= |log| + 1
    ensures r.log[..|log|] == log
    ensures |r.log| == |log| + 1 <==> !s.handled
    ensures |r.log| > |log| ==> r.log[|log|] == s.content
  {
    var t := Take(s);
    match t.out
    case Some(v) => Delivery(t.next, log + [v])
    case None => Delivery(t.next, log)
  }

  /** `n` callback runs carrying the same event object. */
  function NotifyRepeatedly<T>(s: EventState<T>, log: seq<T>, n: nat): (r: Delivery<T>)
    ensures r.log == log || r.log == log + [s.content]
    ensures s.handled ==> r == Delivery(s, log)
    decreases n
  {
    if n == 0 then Delivery(s, log)
    else
      var d := Deliver(s, log);
      NotifyRepeatedly(d.event, d.log, n - 1)
  }

  /**
   * However often the same event is re-delivered, the handler runs at most
   * once, only with that event's content, and only if the event was unhandled.
   */
  lemma {:induction false} NotifyRepeatedlyAtMostOnce<T>(s: EventState<T>, log: seq<T>, n: nat)
    ensures NotifyRepeatedly(s, log, n).log
         == log + (if !s.handled && n > 0 then [s.content] else [])
    ensures NotifyRepeatedly(s, log, n).event.handled <==> s.handled || n > 0
    ensures Peek(NotifyRepeatedly(s, log, n).event) == Peek(s)
    decreases n
  {
    if n > 0 {
      var d := Deliver(s, log);
      NotifyRepeatedlyAtMostOnce(d.event, d.log, n - 1);
    }
  }

  /** Every notification refers to one of the events. */
  predicate ValidIds<T>(events: seq<EventState<T>>, ids: seq<nat>)
  {
    forall k :: 0 <= k < |ids| ==> ids[k] < |events|
  }

  /** Event stores and their logs after a stream of callback runs. */
  datatype Stream<T> = Stream(events: seq<EventState<T>>, log: seq<T>)

  /**
   * A stream of callback runs. `events` holds the states of distinct event
   * objects and each element of `ids` says which object a notification
   * carries, so the same index twice is a re-delivery of the same object.
   */
  function NotifyAll<T>(events: seq<EventState<T>>, ids: seq<nat>, log: seq<T>): (r: Stream<T>)
    requires ValidIds(events, ids)
    ensures |r.events| == |events|
    ensures forall i :: 0 <= i < |events| && i !in ids ==> r.events[i] == events[i]
    decreases |ids|
  {
    if ids == [] then Stream(events, log)
    else
      var i := ids[0];
      var d := Deliver(events[i], log);
      NotifyAll(events[i := d.event], ids[1..], d.log)
  }

  /** After a stream, every notified object is handled and every object keeps its payload. */
  lemma {:induction false} NotifyAllMarksNotified<T>(events: seq<EventState<T>>, ids: seq<nat>, log: seq<T>)
    requires ValidIds(events, ids)
    ensures forall i :: 0 <= i < |events| ==> Peek(NotifyAll(events, ids, log).events[i]) == Peek(events[i])
    ensures forall k :: 0 <= k < |ids| ==> NotifyAll(events, ids, log).events[ids[k]].handled
    decreases |ids|
  {
    if ids != [] {
      var i := ids[0];
      var d := Deliver(events[i], log);
      var events' := events[i := d.event];
      assert ValidIds(events', ids[1..]);
      NotifyAllMarksNotified(events', ids[1..], d.log);
      assert NotifyAll(events, ids, log) == NotifyAll(events', ids[1..], d.log);
      forall k | 0 <= k < |ids|
        ensures NotifyAll(events, ids, log).events[ids[k]].handled
      {
        if k > 0 {
          assert ids[1..][k - 1] == ids[k];
        } else if i !in ids[1..] {
          assert NotifyAll(events', ids[1..], d.log).events[i] == events'[i];
        } else {
          var m :| 0 <= m < |ids[1..]| && ids[1..][m] == i;
        }
      }
    }
  }

  /**
   * Reference definition: the objects whose content reaches the handler, in
   * order. An object fires on its first notification, unless it was handled
   * before the stream began; `seen` holds the objects already notified.
   */
  function Fired<T>(events: seq<EventState<T>>, ids: seq<nat>, seen: set<nat>): (r: seq<nat>)
    requires ValidIds(events, ids)
    ensures forall k :: 0 <= k < |r| ==> r[k] in ids && r[k] < |events|
    decreases |ids|
  {
    if ids == [] then []
    else
      var i := ids[0];
      var rest := Fired(events, ids[1..], seen + {i});
      if i in seen || events[i].handled then rest else [i] + rest
  }

  /** The payloads of the listed objects. */
  function ContentsOf<T>(events: seq<EventState<T>>, fired: seq<nat>): (r: seq<T>)
    requires forall k :: 0 <= k < |fired| ==> fired[k] < |events|
    ensures |r| == |fired|
    ensures forall k :: 0 <= k < |fired| ==> r[k] == events[fired[k]].content
  {
    if fired == [] then [] else [events[fired[0]].content] + ContentsOf(events, fired[1..])
  }

  /**
   * Only an object that is notified, that was unhandled when the stream
   * began, and that was not notified before `seen` fires; none fires twice.
   */
  lemma {:induction false} FiredSound<T>(events: seq<EventState<T>>, ids: seq<nat>, seen: set<nat>)
    requires ValidIds(events, ids)
    ensures forall k :: 0 <= k < |Fired(events, ids, seen)| ==>
      var i := Fired(events, ids, seen)[k];
      i !in seen && !events[i].handled
    ensures forall j, k :: 0 <= j < k < |Fired(events, ids, seen)| ==>
      Fired(events, ids, seen)[j] != Fired(events, ids, seen)[k]
  {
    if ids != [] {
      var i := ids[0];
      FiredSound(events, ids[1..], seen + {i});
    }
  }

  /** Every notified object that was unhandled and not yet seen does fire. */
  lemma {:induction false} FiredComplete<T>(events: seq<EventState<T>>, ids: seq<nat>, seen: set<nat>)
    requires ValidIds(events, ids)
    ensures forall k :: 0 <= k < |ids| && ids[k] !in seen && !events[ids[k]].handled ==>
      ids[k] in Fired(events, ids, seen)
  {
    if ids != [] {
      var i := ids[0];
      FiredComplete(events, ids[1..], seen + {i});
      forall k | 1 <= k < |ids| && ids[k] !in seen && !events[ids[k]].handled
        ensures ids[k] in Fired(events, ids, seen)
      {
        assert ids[1..][k - 1] == ids[k];
        if ids[k] != i {
          assert ids[k] !in seen + {i};
        }
      }
    }
  }

  /**
   * `now` is what `start` became after the objects in `seen` were notified:
   * same payloads, and a flag set exactly where it was set or notified.
   */
  ghost predicate Progressed<T>(now: seq<EventState<T>>, start: seq<EventState<T>>, seen: set<nat>)
  {
    |now| == |start| &&
    forall i :: 0 <= i < |now| ==>
      now[i].content == start[i].content && (now[i].handled <==> start[i].handled || i in seen)
  }

  /** One callback run on object `i` extends `Progressed` by `i` and logs the right payload. */
  lemma ProgressedStep<T>(now: seq<EventState<T>>, start: seq<EventState<T>>, seen: set<nat>, i: nat, log: seq<T>)
    requires Progressed(now, start, seen) && i < |start|
    ensures Progressed(now[i := Deliver(now[i], log).event], start, seen + {i})
    ensures Deliver(now[i], log).log
         == if i in seen || start[i].handled then log else log + [start[i].content]
  {
  }

  /** The first callback run of a stream, unfolded. */
  lemma NotifyAllStep<T>(now: seq<EventState<T>>, ids: seq<nat>, log: seq<T>)
    requires ValidIds(now, ids) && ids != []
    ensures ValidIds(now[ids[0] := Deliver(now[ids[0]], log).event], ids[1..])
    ensures NotifyAll(now, ids, log).log
         == NotifyAll(now[ids[0] := Deliver(now[ids[0]], log).event], ids[1..], Deliver(now[ids[0]], log).log).log
  {
  }

  /** `Fired` on a non-empty stream, unfolded, with the payloads it contributes. */
  lemma FiredStep<T>(start: seq<EventState<T>>, ids: seq<nat>, seen: set<nat>)
    requires ValidIds(start, ids) && ids != []
    ensures ValidIds(start, ids[1..])
    ensures ContentsOf(start, Fired(start, ids, seen))
         == (if ids[0] in seen || start[ids[0]].handled then [] else [start[ids[0]].content])
          + ContentsOf(start, Fired(start, ids[1..], seen + {ids[0]}))
  {
    var i := ids[0];
    assert ValidIds(start, ids[1..]);
    var rest := Fired(start, ids[1..], seen + {i});
    if !(i in seen || start[i].handled) {
      assert ContentsOf(start, [i] + rest) == [start[i].content] + ContentsOf(start, rest);
    }
  }

  lemma {:induction false} NotifyAllFollowsFired<T>(
    now: seq<EventState<T>>, start: seq<EventState<T>>, ids: seq<nat>, seen: set<nat>, log: seq<T>)
    requires ValidIds(start, ids)
    requires Progressed(now, start, seen)
    ensures ValidIds(now, ids)
    ensures NotifyAll(now, ids, log).log == log + ContentsOf(start, Fired(start, ids, seen))
    decreases |ids|
  {
    if ids != [] {
      var i := ids[0];
      var d := Deliver(now[i], log);
      ProgressedStep(now, start, seen, i, log);
      FiredStep(start, ids, seen);
      NotifyAllStep(now, ids, log);
      NotifyAllFollowsFired(now[i := d.event], start, ids[1..], seen + {i}, d.log);
    }
  }

  /**
   * Over any stream of notifications, the handler log grows by the contents of
   * exactly the objects `Fired` names: each notified, initially unhandled
   * object once, in the order of its first notification, and no other.
   */
  lemma NotifyAllLog<T>(events: seq<EventState<T>>, ids: seq<nat>, log: seq<T>)
    requires ValidIds(events, ids)
    ensures NotifyAll(events, ids, log).log == log + ContentsOf(events, Fired(events, ids, {}))
  {
    NotifyAllFollowsFired(events, events, ids, {}, log);
  }
}
