/**
 * The stateful wrapper `Event<T>` and the `observeEvent` callback, as a class
 * whose one mutable field is the handled flag, and an observer whose handler
 * invocations are recorded in a log.
 */
module Events {

  import opened Wrappers
  import opened EventModel

  /** A single-consumption holder of an immutable payload. */
  class Event<T> {

    const content: T
    var hasBeenHandled: bool

    /** The event as a value, for stating contracts against EventModel. */
    function State(): EventState<T>
      reads this
    {
      EventState(content, hasBeenHandled)
    }

    constructor (content: T)
      ensures this.content == content
      ensures !hasBeenHandled
      ensures State() == Fresh(content)
    {
      this.content := content;
      hasBeenHandled := false;
    }

    /**
     * Returns the content the first time and absence every later time; the
     * flag only ever goes from false to true.
     */
    method GetContentIfNotHandled() returns (r: Option<T>)
      modifies this
      ensures Taken(State(), r) == Take(old(State()))
      ensures r.Some? <==> !old(hasBeenHandled)
      ensures r.Some? ==> r.value == content
      ensures hasBeenHandled
      ensures old(hasBeenHandled) ==> unchanged(this)
    {
      if hasBeenHandled {
        r := None;
      } else {
        hasBeenHandled := true;
        r := Some(content);
      }
    }

    /** Returns the content, even if it has already been handled. */
    method PeekContent() returns (r: T)
      ensures r == content
      ensures r == Peek(State())
    {
      r := content;
    }
  }

  /**
   * What the handler passed to `observeEvent` has been invoked with, in order.
   * The LiveData subscription that runs `Notify` is not part of this model.
   */
  class EventObserver<T> {

    var handlerLog: seq<T>

    constructor ()
      ensures handlerLog == []
    {
      handlerLog := [];
    }

    /** One run of the callback: hand the content on only if the gate is open. */
    method Notify(e: Event<T>)
      modifies this, e
      ensures Delivery(e.State(), handlerLog) == Deliver(old(e.State()), old(handlerLog))
      ensures handlerLog == old(handlerLog) + (if old(e.hasBeenHandled) then [] else [e.content])
      ensures e.hasBeenHandled
    {
      var r := e.GetContentIfNotHandled();
      match r
      case Some(c) =>
        handlerLog := handlerLog + [c];
      case None =>
    }
  }
}
