# Single-consumption events (Event<T> and observeEvent)

A Dafny model of the event wrapper of the ViewModel event lab app. An
`Event<T>` holds an immutable payload and a `hasBeenHandled` flag that starts
false. `getContentIfNotHandled` is a one-shot gate: the first call returns the
payload and sets the flag, every later call returns nothing. `peekContent`
returns the payload without touching the flag. The `observeEvent` callback
runs on each LiveData notification and passes the payload to a handler only
while the gate is open, so a re-delivered event fires the handler at most once.

Files:

- `wrappers.dfy`: `Option<T>`, which stands in for Kotlin's `T?`.
- `event_model.dfy` (module `EventModel`): the event as a value
  (`EventState`). It defines one take (`Take`), a run of takes (`Takes`), one
  callback run (`Deliver`), repeated re-delivery of one event
  (`NotifyRepeatedly`) and a stream of notifications over several event objects
  (`NotifyAll`). `Fired` is an independent reference definition of which
  objects reach the handler. The lemmas prove the one-shot and at-most-once
  properties.
- `events.dfy` (module `Events`): the class `Event<T>` with a `const content`
  and a mutable `hasBeenHandled`, and an `EventObserver<T>` whose
  `handlerLog` records every handler invocation. Each method's postcondition
  ties the new state to the `EventModel` function of the old state.
- `scenarios.dfy` (module `Scenarios`): concrete runs with the payload
  `"I am some response"` that the view model publishes.

In a stream of notifications, object identity is an index into a sequence of
event states. The same index twice means the same `Event` object delivered
again.

## Model

| member | source | states |
|---|---|---|
| EventModel.Fresh | app/src/main/java/com/example/viewmodeleventlab/Event.kt:9-11 | a new event is unhandled and peeks to the payload it was built with |
| EventModel.Peek | app/src/main/java/com/example/viewmodeleventlab/Event.kt:29 | the payload, whatever the flag; the same payload is still there after a take |
| EventModel.Take | app/src/main/java/com/example/viewmodeleventlab/Event.kt:17-24 | the payload is kept and the flag is always true afterwards; a value is returned iff the event was unhandled, and that value is the payload; on a handled event nothing changes |
| EventModel.Takes | app/src/main/java/com/example/viewmodeleventlab/Event.kt:17-29 | after n takes there are n results, `peekContent` still gives the original payload, and the flag is set iff it was set before or n > 0 (monotone) |
| EventModel.TakesOnHandled | app/src/main/java/com/example/viewmodeleventlab/Event.kt:18-19 | on a handled event, every one of n takes returns absence and the state stays as it was |
| EventModel.TakesOnFresh | app/src/main/java/com/example/viewmodeleventlab/Event.kt:11-24 | on a fresh event, of n >= 1 takes exactly one (the first) returns the payload and the other n-1 return absence; the event ends handled |
| EventModel.Deliver | app/src/main/java/com/example/viewmodeleventlab/Event.kt:33-37 | one callback run leaves the event handled with its payload; the log keeps its prefix and grows by one element iff the event was unhandled, and that element is the payload |
| EventModel.NotifyRepeatedly | app/src/main/java/com/example/viewmodeleventlab/Event.kt:33-37 | n callback runs carrying one object either leave the log as it was or append that object's payload once; on a handled object they change nothing |
| EventModel.NotifyRepeatedlyAtMostOnce | app/src/main/java/com/example/viewmodeleventlab/Event.kt:33-37 | n re-deliveries of one event append its payload exactly once if it was unhandled and n > 0, and nothing otherwise |
| EventModel.NotifyAll | app/src/main/java/com/example/viewmodeleventlab/Event.kt:33-37 | a stream of callback runs over several objects keeps one state per object and leaves every object it does not notify untouched |
| EventModel.NotifyAllMarksNotified | app/src/main/java/com/example/viewmodeleventlab/Event.kt:17-24 | after a stream of callback runs, every notified object is handled and every object still peeks to its own payload |
| EventModel.Fired | app/src/main/java/com/example/viewmodeleventlab/Event.kt:32-37 | the objects that reach the handler are among the notified ones |
| EventModel.FiredSound | app/src/main/java/com/example/viewmodeleventlab/Event.kt:32-37 | only an initially unhandled object that was not notified earlier fires, and no object fires twice |
| EventModel.FiredComplete | app/src/main/java/com/example/viewmodeleventlab/Event.kt:32-37 | every notified object that was initially unhandled (and not notified earlier) fires |
| EventModel.NotifyAllFollowsFired | app/src/main/java/com/example/viewmodeleventlab/Event.kt:32-37 | running the callback over the rest of a stream, after some objects have been notified, appends the payloads of the objects `Fired` names |
| EventModel.NotifyAllLog | app/src/main/java/com/example/viewmodeleventlab/Event.kt:32-37 | over any stream of notifications, the handler log grows by exactly the payloads of the objects `Fired` names, in the order of their first notification |
| Events.Event.constructor | app/src/main/java/com/example/viewmodeleventlab/Event.kt:9-12 | a new event holds the given payload and is unhandled |
| Events.Event.GetContentIfNotHandled | app/src/main/java/com/example/viewmodeleventlab/Event.kt:17-24 | the new state and the result are those of `Take` on the old state: the payload iff it was unhandled, the flag set afterwards, and nothing changed on a handled event |
| Events.Event.PeekContent | app/src/main/java/com/example/viewmodeleventlab/Event.kt:29 | returns the payload and changes nothing |
| Events.EventObserver.Notify | app/src/main/java/com/example/viewmodeleventlab/Event.kt:33-37 | the new event state and log are those of `EventModel.Deliver`: the handler is invoked with the payload iff the event was unhandled |
| Scenarios.TakeTakePeek | app/src/main/java/com/example/viewmodeleventlab/MainViewModel.kt:17 | for `Event("I am some response")`: the first take yields the response, the second absence, and a later peek the response |
| Scenarios.Redelivery | app/src/main/java/com/example/viewmodeleventlab/MainFragment.kt:30-32 | one event delivered three times to the dialog handler fires it exactly once, with the response |
| Scenarios.TwoCalls | app/src/main/java/com/example/viewmodeleventlab/MainViewModel.kt:14-18 | two calls publish two distinct events into the single-slot holder; each is re-delivered while it is the latest value, and the handler fires exactly twice, once per event |

## Left out

- Nullable payloads: in Kotlin, when `T` is itself nullable and the payload is `null`, `getContentIfNotHandled` returns `null` both before and after handling, so the callback never invokes the handler although the flag is set. The model returns `Option<T>`, so a present payload is never confused with "already handled".
- Privacy: Kotlin makes `hasBeenHandled` writable only inside the class, and `content` a `private val` that outside code reaches only through `peekContent`. Dafny fields cannot be private, so `content` is a public `const` (it still cannot change), and only the methods of `Event` assign `hasBeenHandled`, every one of them keeping it monotone.
- `open class`: subclasses of `Event` are not modelled.
- The LiveData subscription (`observe(owner)`), its lifecycle handling and when it re-delivers the current value are framework code. Only the callback body is modelled. The handler is a log of its invocations, not an arbitrary function.
- Concurrency: `hasBeenHandled` is a plain field with no atomic compare-and-swap. The model is sequential and makes no at-most-once claim under concurrent callers.
- `OnStartFlowObserver.kt`: lifecycle-scoped coroutine collection. Its behaviour comes from Android lifecycle and coroutine libraries whose source is not part of this model.
- `MainViewModel.kt`: the coroutine, the 3000 ms delay and the LiveData write are left out. Only the fresh `Event("I am some response")` it publishes is used, in the scenarios.
- `MainActivity.kt`, `MainFragment.kt`: button, view and dialog wiring are UI glue. The `isNullOrBlank` filter in `MainActivity.kt` is also left out.
