/**
 * The RxJava BehaviorSubject that StateSubject wraps, as a black box: it keeps
 * the latest value (absent before the first onNext) and a set of live
 * subscriptions, each named by an id that is never handed out twice.
 * Schedulers, transformers and the delivery of values to consumers are not
 * part of this model.
 */
module Rx {
  import opened Wrappers

  type SubId = nat

  datatype Subject<T> = Subject(value: Option<T>, live: set<SubId>, nextId: SubId)

  /** Every live id was handed out by an earlier subscribe. */
  predicate Valid<T>(s: Subject<T>) {
    forall id :: id in s.live ==> id < s.nextId
  }

  /** BehaviorSubject.create(): no value, no subscribers. */
  function Create<T>(): (s: Subject<T>)
    ensures Valid(s) && s.value == None && s.live == {}
  {
    Subject(None, {}, 0)
  }

  /** onNext(v): v becomes the current value; the subscribers stay as they are. */
  function OnNext<T>(s: Subject<T>, v: T): (r: Subject<T>)
    ensures r.value == Some(v) && r.live == s.live
    ensures Valid(s) ==> Valid(r)
  {
    s.(value := Some(v))
  }

  /** subscribe(...): attach one new live subscription and return its id. */
  function Subscribe<T>(s: Subject<T>): (r: (Subject<T>, SubId))
    requires Valid(s)
    ensures Valid(r.0)
    ensures r.1 !in s.live && r.0.live == s.live + {r.1}
    ensures s.nextId <= r.1 < r.0.nextId
    ensures r.0.value == s.value
  {
    (Subject(s.value, s.live + {s.nextId}, s.nextId + 1), s.nextId)
  }

  /** Disposable.dispose() on a subscription: it is no longer live. */
  function Dispose<T>(s: Subject<T>, id: SubId): (r: Subject<T>)
    ensures r.live == s.live - {id} && r.value == s.value && r.nextId == s.nextId
    ensures Valid(s) ==> Valid(r)
  {
    s.(live := s.live - {id})
  }

  predicate IsDisposed<T>(s: Subject<T>, id: SubId) {
    id !in s.live
  }

  predicate HasObservers<T>(s: Subject<T>) {
    s.live != {}
  }
}
