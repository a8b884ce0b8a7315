/**
 * Client runs of StateSubject, in the manner of its unit tests: each builds
 * fresh objects, drives them, and its postcondition states what the queries
 * answer along the way. They use only the contracts of the classes.
 */
module Scenarios {
  import opened Wrappers
  import opened Lifecycle
  import opened Statesubject
  import Spec = SubjectSpec

  /** No value before the first post; after posting 1, 2 and 3 the value is 3. */
  method PostValues() returns (before: Option<int>, afterOne: Option<int>, afterThree: Option<int>)
    ensures before == None && afterOne == Some(1) && afterThree == Some(3)
  {
    var s := new StateSubject<int>();
    before := s.GetValue();
    s.PostValue(1);
    afterOne := s.GetValue();
    s.PostValue(2);
    s.PostValue(3);
    afterThree := s.GetValue();
  }

  /**
   * Subscribing with a started owner makes the subject observed and active;
   * disposing that only handle makes it neither.
   */
  method SubscribeThenDispose()
    returns (activeBefore: bool, observed: bool, active: bool, observedAfter: bool, activeAfter: bool)
    ensures !activeBefore && observed && active && !observedAfter && !activeAfter
  {
    var owner := new Owner(Resumed);
    owner.MarkState(Started);
    var s := new StateSubject<string>();
    activeBefore := s.HasActiveObserver();
    var d := s.Subscribe(owner);
    observed, active := s.HasObservers(), s.HasActiveObserver();
    assert d.handle as object != s && d.handle as object != owner;
    d.handle.Dispose();
    observedAfter, activeAfter := s.HasObservers(), s.HasActiveObserver();
  }

  /** A destroyed owner gets the disposed shared handle and no observer. */
  method SubscribeDestroyedOwner() returns (disposed: bool, registered: nat, observed: bool)
    ensures disposed && registered == 0 && !observed
  {
    var owner := new Owner(Destroyed);
    var s := new StateSubject<int>();
    var d := s.Subscribe(owner);
    disposed := d.IsDisposed();
    registered := |owner.observers|;
    observed := s.HasObservers();
  }

  /** A subscription made with subscribeForever is observed but never active. */
  method ForeverIsNotActive() returns (observed: bool, active: bool)
    ensures observed && !active
  {
    var s := new StateSubject<int>();
    var _ := s.SubscribeForever();
    observed, active := s.HasObservers(), s.HasActiveObserver();
  }

  /**
   * Two subscriptions for one started owner: the second onStart overwrites
   * the first entry, so disposing the first handle removes the second's
   * subscription and leaves the first one live with no entry for it.
   */
  method SameOwnerTwice() returns (activeAfterFirst: bool, observedAfterFirst: bool, observedAfterBoth: bool)
    ensures !activeAfterFirst && observedAfterFirst && observedAfterBoth
  {
    var owner := new Owner(Resumed);
    var s := new StateSubject<int>();
    ghost var s0 := s.State();
    var d1 := s.Subscribe(owner);
    var h1 := d1.handle;
    assert h1 as object != s && h1 as object != owner;
    ghost var s1 := s.State();
    assert s1 == Spec.Start(s0, owner);
    var d2 := s.Subscribe(owner);
    var h2 := d2.handle;
    assert h2 as object != s && h2 as object != owner && h2 != h1;
    ghost var s2 := s.State();
    assert s2 == Spec.Start(s1, owner);
    assert h1.Valid() && !h1.IsDisposed() && h1.subject == s && h1.owner == owner;
    h1.Dispose();
    ghost var s3 := s.State();
    assert s3 == Spec.DisposeWithOwner(s2, owner);
    activeAfterFirst, observedAfterFirst := s.HasActiveObserver(), s.HasObservers();
    assert h2.Valid() && !h2.IsDisposed() && h2.subject == s && h2.owner == owner;
    h2.Dispose();
    assert s.State() == Spec.DisposeWithOwner(s3, owner);
    observedAfterBoth := s.HasObservers();
  }

  /** unsubscribe keeps the lifecycle observer, so the next start maps the owner again. */
  method UnsubscribeThenStart() returns (activeAfterUnsubscribe: bool, activeAfterStart: bool)
    ensures !activeAfterUnsubscribe && activeAfterStart
  {
    var owner := new Owner(Started);
    var s := new StateSubject<int>();
    var d := s.Subscribe(owner);
    var observer := d.handle.observer;
    s.Unsubscribe(owner);
    activeAfterUnsubscribe := s.HasActiveObserver();
    owner.Deliver(observer, OnStart);
    activeAfterStart := s.HasActiveObserver();
  }

  /** After dispose the observer is gone, so a later start maps nothing. */
  method DisposeThenStart() returns (activeAfterDispose: bool, activeAfterStart: bool)
    ensures !activeAfterDispose && !activeAfterStart
  {
    var owner := new Owner(Started);
    var s := new StateSubject<int>();
    var d := s.Subscribe(owner);
    var observer := d.handle.observer;
    assert d.handle as object != s && d.handle as object != owner;
    d.handle.Dispose();
    activeAfterDispose := s.HasActiveObserver();
    owner.Deliver(observer, OnStart);
    activeAfterStart := s.HasActiveObserver();
  }

  /** Stop detaches the owner's subscription and a new start attaches a new one. */
  method StopThenStart() returns (afterStop: bool, afterRestart: bool)
    ensures !afterStop && afterRestart
  {
    var owner := new Owner(Resumed);
    var s := new StateSubject<int>();
    var d := s.Subscribe(owner);
    var observer := d.handle.observer;
    ghost var s1 := s.State();
    owner.Deliver(observer, OnStop);
    ghost var s2 := s.State();
    assert s2 == Spec.DisposeWithOwner(s1, owner);
    afterStop := s.HasActiveObserver();
    owner.Deliver(observer, OnStart);
    assert s.State() == Spec.Start(s2, owner);
    afterRestart := s.HasActiveObserver();
  }

  /** onDestroy removes the observer, so a start that follows maps nothing. */
  method DestroyThenStart() returns (afterDestroy: bool, registered: bool, afterLateStart: bool)
    ensures !afterDestroy && !registered && !afterLateStart
  {
    var owner := new Owner(Resumed);
    var s := new StateSubject<int>();
    var d := s.Subscribe(owner);
    var observer := d.handle.observer;
    ghost var s1 := s.State();
    owner.Deliver(observer, OnDestroy);
    ghost var s2 := s.State();
    assert s2 == Spec.DisposeWithOwner(s1, owner);
    afterDestroy := s.HasActiveObserver();
    registered := observer in owner.observers;
    owner.Deliver(observer, OnStart);
    assert s.State() == s2;
    afterLateStart := s.HasActiveObserver();
  }
}
