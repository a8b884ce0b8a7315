# StateSubject: lifecycle-gated subscriptions, modelled in Dafny

StateSubject is a small Android library. A `StateSubject<T>` wraps an RxJava
`BehaviorSubject` that holds the latest posted value. It ties each subscription
to a `LifecycleOwner`:
- `subscribe(owner, …)` registers a lifecycle observer on the owner;
- each `onStart` of that observer attaches a live subscription and records it in `disposableMap`, keyed by owner;
- `onStop` and `onDestroy` dispose that subscription and remove the entry;
- `onDestroy` also removes the observer from the owner's lifecycle.

`subscribe` returns a `StateSubjectDisposable`. Its `dispose` unsubscribes the owner, removes the observer and clears the handle's three references. For an owner that is already destroyed, `subscribe` returns the shared `EMPTY_DISPOSABLE`, which is always disposed.

This project models that bookkeeping sequentially:

- `rx.dfy` (module `Rx`): the BehaviorSubject as a black box. It has the current value (`Option`, absent before the first post), the set of live subscription ids, and a counter that makes every new id fresh.
- `lifecycle.dfy` (module `Lifecycle`): the ordered `Lifecycle.State` values and the lifecycle events.
- `subject_spec.dfy` (module `SubjectSpec`): one subject's state as a value (broadcaster plus `bindings`, the `disposableMap`), every transition the code makes on it as a function, and lemmas about them. The lemmas include a trace function `Run` that feeds lifecycle events to one observer. It is proved to follow the binding state machine (unattached, attached, detached, terminated).
- `statesubject.dfy` (module `Statesubject`): the classes. `StateSubject` has the fields `subject` and `disposableMap`. `SubjectObserver` is the anonymous `DefaultLifecycleObserver`. `StateSubjectDisposable` has its three nullable references. `Owner` is the lifecycle authority: a state and a set of registered observers. The `Disposable` datatype is what `subscribe` returns: `EmptyDisposable` (the stateless `EMPTY_DISPOSABLE` singleton) or a `Handle`. Every method that changes a subject states its new state as a `SubjectSpec` function of the old state.
- `scenarios.dfy` (module `Scenarios`): client runs in the manner of the unit tests. Each postcondition states what the queries answer.

In these places the model follows the code as written, where a reader might expect otherwise:
- A second `subscribe` for the same owner does not remove the first binding. The second `onStart` overwrites the map entry with `put`, and the first subscription is not disposed: it stays live, unless it already ended on its own, with no entry pointing to it (`RestartLeaksEarlierSubscription`, `SameOwnerTwice`).
- `unsubscribe(owner)` does not terminate the binding. The lifecycle observer stays registered, so the next `onStart` maps the owner again (`UnsubscribeThenStart`).
- `dispose()` is not idempotent. A second call dereferences the cleared `subject`, so `StateSubjectDisposable.Dispose` requires a handle that is not yet disposed.
- `hasObservers()` is the broadcaster's own answer: some live subscription exists. That includes `subscribeForever` subscriptions and leaked ones, and excludes stopped bindings. It is independent of `hasActiveObserver()`: a mapped subscription that ended on its own keeps its entry, so a subject can be active without being observed (`ActiveWithoutObservers`).
- There are no `onActive`/`onInactive` hooks in `StateSubject`, and no locking.

## Model

| member | source | states |
|---|---|---|
| SubjectSpec.Init | library/src/main/java/nolambda/statesubject/StateSubject.java:25-26 | a new subject has no value, no live subscription and an empty map, so neither query holds |
| SubjectSpec.HasActiveObserver | library/src/main/java/nolambda/statesubject/StateSubject.java:36-38 | hasActiveObserver holds exactly when some owner has an entry in the map |
| SubjectSpec.HasObservers | library/src/main/java/nolambda/statesubject/StateSubject.java:32-34 | hasObservers holds exactly when some subscription on the broadcaster is live, whether an owner maps to it or not |
| SubjectSpec.GetValueIsLastPosted | library/src/main/java/nolambda/statesubject/StateSubject.java:28-30 | after a series of postValue calls getValue answers the value posted last, and what it answered before when the series is empty |
| SubjectSpec.RunKeepsValue | library/src/main/java/nolambda/statesubject/StateSubject.java:28-30 | no sequence of lifecycle events reaching an observer changes the value getValue answers |
| SubjectSpec.SubscriptionEnds | library/src/main/java/nolambda/statesubject/StateSubject.java:108-110 | a subscription that ends on its own is no longer live while the map keeps every entry, including one referring to it; the invariant is kept |
| SubjectSpec.EndedSubscriptionStaysMapped | library/src/main/java/nolambda/statesubject/StateSubject.java:106-114 | after an owner's subscription ended on its own the subject is still active, and disposeWithOwner then only removes the entry, leaving the broadcaster as it is |
| SubjectSpec.ActiveWithoutObservers | library/src/main/java/nolambda/statesubject/StateSubject.java:32-38 | a valid state exists in which hasActiveObserver holds and hasObservers does not: one owner started, then its subscription ended on its own |
| SubjectSpec.RunAppend | library/src/main/java/nolambda/statesubject/StateSubject.java:83-99 | feeding two event sequences in turn is feeding their concatenation, so successive single deliveries compose into one Run |
| Statesubject.StateSubject.GetValue | library/src/main/java/nolambda/statesubject/StateSubject.java:28-30 | the broadcaster's current value, which GetValueIsLastPosted shows is the last value posted |
| Statesubject.StateSubject.HasObservers | library/src/main/java/nolambda/statesubject/StateSubject.java:32-34 | holds exactly when some subscription on the broadcaster is live |
| Statesubject.StateSubject.HasActiveObserver | library/src/main/java/nolambda/statesubject/StateSubject.java:36-38 | holds exactly when some owner has an entry in disposableMap |
| Statesubject.SubjectObserver.constructor | library/src/main/java/nolambda/statesubject/StateSubject.java:83 | a new observer belongs to the subject that created it |
| Statesubject.Disposable.IsDisposed | library/src/main/java/nolambda/statesubject/StateSubjectDisposable.java:15-18 | EMPTY_DISPOSABLE is always disposed; a valid handle is disposed exactly when its subject reference is cleared |
| Statesubject.StateSubjectDisposable.IsDisposed | library/src/main/java/nolambda/statesubject/StateSubjectDisposable.java:40-43 | for a handle whose three references are set or cleared together, isDisposed holds exactly when the subject reference is cleared |
| SubjectSpec.PostValue | library/src/main/java/nolambda/statesubject/StateSubject.java:40-42 | after postValue(v) getValue is v; the map, the live subscriptions and both queries are unchanged |
| SubjectSpec.SubscribeForever | library/src/main/java/nolambda/statesubject/StateSubject.java:44-46 | adds one fresh live subscription outside the map: hasObservers becomes true, hasActiveObserver and the map are unchanged |
| SubjectSpec.Start | library/src/main/java/nolambda/statesubject/StateSubject.java:85-87 | onStart maps the owner to a fresh live id no other entry holds; other owners' entries are unchanged; an earlier entry for the owner is replaced without being disposed; both queries hold afterwards |
| SubjectSpec.DisposeWithOwner | library/src/main/java/nolambda/statesubject/StateSubject.java:106-114 | the owner is no longer a key; the subscription it mapped to is no longer live; every other entry is unchanged; a no-op when the owner is absent |
| SubjectSpec.DisposeWithOwnerIdempotent | library/src/main/java/nolambda/statesubject/StateSubject.java:106-114 | disposing twice for one owner is the same as disposing once |
| SubjectSpec.DisposeWithOwnerCommutes | library/src/main/java/nolambda/statesubject/StateSubject.java:106-114 | tearing down two owners gives the same state in either order |
| SubjectSpec.RestartLeaksEarlierSubscription | library/src/main/java/nolambda/statesubject/StateSubject.java:85-87 | a start for an owner that is still mapped does not dispose its earlier subscription (it is live afterwards exactly when it was before), and no map entry refers to it any more |
| SubjectSpec.RestartCreatesNewSubscription | library/src/main/java/nolambda/statesubject/StateSubject.java:85-92 | after start, stop, start the owner maps to a new id, and the first one is no longer live |
| SubjectSpec.OnEvent | library/src/main/java/nolambda/statesubject/StateSubject.java:83-99 | the observer's reaction to each lifecycle event (start, stop, destroy; the other callbacks do nothing) keeps the subject's invariant |
| SubjectSpec.Run | library/src/main/java/nolambda/statesubject/StateSubject.java:83-99 | a sequence of lifecycle events reaching one observer only while it is registered, onDestroy unregistering it, keeps the invariant |
| SubjectSpec.RunUnregistered | library/src/main/java/nolambda/statesubject/StateSubject.java:94-98 | once the observer is no longer registered, no sequence of later events changes the subject |
| SubjectSpec.RunKeepsOtherOwners | library/src/main/java/nolambda/statesubject/StateSubject.java:83-99 | events delivered through one owner's observer never add, remove or change another owner's entry |
| SubjectSpec.RunFollowsBindingStates | library/src/main/java/nolambda/statesubject/StateSubject.java:83-99 | along any event sequence the owner has a map entry exactly when the binding state machine ends attached, and the observer stays registered exactly when it does not end terminated |
| SubjectSpec.DestroyIsFinal | library/src/main/java/nolambda/statesubject/StateSubject.java:94-98 | after onDestroy reached a registered observer, the owner is unmapped and the observer unregistered whatever events follow |
| Statesubject.Owner.AddObserver | library/src/main/java/nolambda/statesubject/StateSubject.java:101 | the observer joins the owner's lifecycle; if the owner is started or resumed its onStart runs at once, otherwise the subject is unchanged |
| Statesubject.Owner.RemoveObserver | library/src/main/java/nolambda/statesubject/StateSubjectDisposable.java:34 | the observer leaves the owner's set; the owner's state is unchanged |
| Statesubject.Owner.Deliver | library/src/main/java/nolambda/statesubject/StateSubject.java:83-99 | an event reaches the observer only if it is registered: then start is Start, stop and destroy are DisposeWithOwner, destroy also unregisters it, the other events do nothing; the new subject state and registration are `Run` of the old ones on that one event |
| Statesubject.Owner.MarkState | library/src/test/java/nolambda/statesubject/StateSubjectTest.java:64 | the owner moves to the given state; its observers are unchanged |
| Statesubject.SubjectObserver.OnStart | library/src/main/java/nolambda/statesubject/StateSubject.java:85-87 | the subject's new state is Start of the old one for that owner |
| Statesubject.SubjectObserver.OnStop | library/src/main/java/nolambda/statesubject/StateSubject.java:89-92 | exactly disposeWithOwner for that owner |
| Statesubject.SubjectObserver.OnDestroy | library/src/main/java/nolambda/statesubject/StateSubject.java:94-98 | the observer is removed from the owner's lifecycle and the subject's new state is disposeWithOwner of the old one |
| Statesubject.StateSubject.constructor | library/src/main/java/nolambda/statesubject/StateSubject.java:25-26 | a new subject is in the state Init |
| Statesubject.StateSubject.PostValue | library/src/main/java/nolambda/statesubject/StateSubject.java:40-42 | the new state is PostValue of the old one |
| Statesubject.StateSubject.SubscribeForever | library/src/main/java/nolambda/statesubject/StateSubject.java:44-46 | the new state and the returned id are SubscribeForever of the old state |
| Statesubject.StateSubject.Unsubscribe | library/src/main/java/nolambda/statesubject/StateSubject.java:48-50 | the same effect as disposeWithOwner; nothing else (the owner's observers) is touched |
| Statesubject.StateSubject.Subscribe | library/src/main/java/nolambda/statesubject/StateSubject.java:72-104 | destroyed owner: EMPTY_DISPOSABLE, no observer registered, subject unchanged; otherwise exactly one fresh observer of this subject is added to the owner, a fresh undisposed handle bound to (this, observer, owner) is returned, and the subject is started for the owner if the owner is started or resumed |
| Statesubject.StateSubject.DisposeWithOwner | library/src/main/java/nolambda/statesubject/StateSubject.java:106-114 | the new state is DisposeWithOwner of the old one |
| Statesubject.StateSubject.SubscribeToConsumer | library/src/main/java/nolambda/statesubject/StateSubject.java:116-127 | returns a fresh id, not live before and held by no map entry, now live; the map is unchanged |
| Statesubject.StateSubjectDisposable.constructor | library/src/main/java/nolambda/statesubject/StateSubjectDisposable.java:25-29 | the handle holds the three references it was given and is not disposed |
| Statesubject.StateSubjectDisposable.Dispose | library/src/main/java/nolambda/statesubject/StateSubjectDisposable.java:32-38 | requires a handle not yet disposed; afterwards it is disposed, the subject's state is disposeWithOwner for the owner, the observer is no longer registered with the owner |
| Statesubject.Dispose | library/src/main/java/nolambda/statesubject/StateSubjectDisposable.java:10-19 | any handle is disposed afterwards; EMPTY_DISPOSABLE's dispose changes nothing; a real handle's has the effect of StateSubjectDisposable.Dispose: the subject's new state is disposeWithOwner of the old one, the observer leaves the owner's set, the owner's state is unchanged |
| Scenarios.PostValues | library/src/test/java/nolambda/statesubject/StateSubjectTest.java:85-96 | no value before the first post, 1 after posting 1, 3 after posting 2 and 3 |
| Scenarios.SubscribeThenDispose | library/src/test/java/nolambda/statesubject/StateSubjectTest.java:61-83 | with a started owner: inactive before subscribe, observed and active after it, neither after disposing the only handle |
| Scenarios.SubscribeDestroyedOwner | library/src/main/java/nolambda/statesubject/StateSubject.java:79-81 | a destroyed owner gets a disposed handle, registers no observer, and the subject stays unobserved |
| Scenarios.ForeverIsNotActive | library/src/main/java/nolambda/statesubject/StateSubject.java:32-46 | after subscribeForever the subject is observed but has no active observer |
| Scenarios.SameOwnerTwice | library/src/main/java/nolambda/statesubject/StateSubjectDisposable.java:32-38 | two handles for one started owner: disposing the first drops the owner's entry (held by the second subscription), and the first subscription stays live even after both are disposed |
| Scenarios.UnsubscribeThenStart | library/src/main/java/nolambda/statesubject/StateSubject.java:48-50 | unsubscribe makes the subject inactive, and a later start through the still-registered observer makes it active again |
| Scenarios.DisposeThenStart | library/src/main/java/nolambda/statesubject/StateSubjectDisposable.java:32-38 | after dispose, a later start event re-adds no entry |
| Scenarios.StopThenStart | library/src/main/java/nolambda/statesubject/StateSubject.java:85-92 | stop makes the subject inactive, a following start makes it active again |
| Scenarios.DestroyThenStart | library/src/main/java/nolambda/statesubject/StateSubject.java:94-98 | destroy makes the subject inactive and unregisters the observer, and a later start changes nothing |

## Left out

- The overloads of `subscribe` (StateSubject.java lines 52-70) only forward default arguments to the five-argument form. They are not modelled separately.
- The consumer, the transformer and the two schedulers of `subscribe` are not modelled. Neither are RxJava's delivery of values to consumers and its scheduling. A subscription is only a fresh live id.
- Android's `LifecycleRegistry` dispatch is not modelled. `Owner.MarkState` changes the state without notifying anyone, and `Owner.Deliver` hands one event to one observer. The ordering of notifications among several observers, and the coupling of a state change to the events it causes, are outside the model. Only `addObserver`'s synchronous `onStart` for a started or resumed owner is modelled.
- Cancellation by the caller of the RxJava `Disposable` returned by `subscribeForever` is not modelled: `SubscribeForever` returns the subscription's id.
- Concurrency is not modelled. The source uses an unsynchronised `HashMap` and no locks, so the model is sequential.
- Statesubject.StateSubjectDisposable.constructor: takes non-null references. The Java constructor accepts nulls, but its only caller passes three non-null references.
- Subscriptions that end on their own (RxJava's lambda observer disposes itself when a consumer fails) appear only as `SubjectSpec.SubscriptionEnds`, a transition no modelled method calls. The consumer, which is what could fail, is not modelled. The invariant therefore admits map entries that are no longer live, and nothing in the model says `hasActiveObserver()` implies `hasObservers()`.
- Owners are compared by object identity, as the `HashMap` keyed by `LifecycleOwner` does with the default `equals`.
- The `onActive`/`onInactive` hooks that a test subclass overrides do not exist in `StateSubject`. They are not modelled.
- The sample app and the test fixture classes are not modelled. The fixtures only shaped the abstraction of the lifecycle.
