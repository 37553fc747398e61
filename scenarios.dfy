/**
 * Concrete runs with the response the view model publishes: a fresh
 * `Event("I am some response")` per simulated call.
 */
module Scenarios {

  import opened Wrappers
  import opened Events

  const Response := "I am some response"

  /** First take yields the response, the second absence, a later peek the response. */
  method TakeTakePeek() returns (first: Option<string>, second: Option<string>, peeked: string)
    ensures first == Some(Response)
    ensures second == None
    ensures peeked == Response
  {
    var e := new Event(Response);
    first := e.GetContentIfNotHandled();
    second := e.GetContentIfNotHandled();
    peeked := e.PeekContent();
  }

  /** The same event delivered three times (say, after re-subscribing) fires the handler once. */
  method Redelivery() returns (log: seq<string>)
    ensures log == [Response]
  {
    var e := new Event(Response);
    var o := new EventObserver();
    o.Notify(e);
    o.Notify(e);
    o.Notify(e);
    log := o.handlerLog;
  }

  /**
   * Two calls publish two distinct events into the single-slot holder; each is
   * re-delivered while it is the latest value and fires the handler once.
   */
  method TwoCalls() returns (log: seq<string>)
    ensures log == [Response, Response]
  {
    var e1 := new Event(Response);
    var o := new EventObserver();
    o.Notify(e1);
    o.Notify(e1);
    var e2 := new Event(Response);
    o.Notify(e2);
    o.Notify(e2);
    log := o.handlerLog;
  }
}
