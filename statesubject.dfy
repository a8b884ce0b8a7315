/**
 * StateSubject and StateSubjectDisposable as classes, with the lifecycle
 * authority they talk to (Owner) and the anonymous lifecycle observer that
 * subscribe creates (SubjectObserver). Each method that changes a subject is
 * proved against a function of SubjectSpec on the old state.
 */
module Statesubject {
  import opened Wrappers
  import opened Lifecycle
  import Rx
  import Spec = SubjectSpec

  /**
   * A LifecycleOwner with its Lifecycle: the current state and the set of
   * registered observers.
   */
  class Owner {
    var state: State
    var observers: set<object>

    constructor (initial: State)
      ensures state == initial && observers == {}
    {
      state := initial;
      observers := {};
    }

    /** The owner moves to state s (the events this dispatches are delivered with Deliver). */
    method MarkState(s: State)
      modifies this
      ensures state == s && observers == old(observers)
    {
      state := s;
    }

    /**
     * addObserver: registers obs; an observer added while the owner is
     * started or resumed is brought up to date at once, so its onStart runs
     * before addObserver returns. Adding a registered observer again does nothing.
     */
    method AddObserver<T>(obs: SubjectObserver<T>)
      requires obs.subject.Valid()
      modifies this, obs.subject
      ensures obs.subject.Valid()
      ensures state == old(state) && observers == old(observers) + {obs}
      ensures obs.subject.State() ==
        if obs !in old(observers) && old(state).IsAtLeast(Started)
        then Spec.Start(old(obs.subject.State()), this)
        else old(obs.subject.State())
    {
      if obs !in observers {
        observers := observers + {obs};
        if state.IsAtLeast(Started) {
          obs.OnStart(this);
        }
      }
    }

    /** removeObserver: obs is no longer told about lifecycle events. */
    method RemoveObserver(obs: object)
      modifies this
      ensures state == old(state) && observers == old(observers) - {obs}
    {
      observers := observers - {obs};
    }

    /** The lifecycle delivers event ev to obs; only a registered observer hears it. */
    method Deliver<T>(obs: SubjectObserver<T>, ev: Event)
      requires obs.subject.Valid()
      modifies this, obs.subject
      ensures obs.subject.Valid() && state == old(state)
      ensures obs.subject.State() ==
        if obs !in old(observers) then old(obs.subject.State())
        else if ev == OnStart then Spec.Start(old(obs.subject.State()), this)
        else if ev == OnStop || ev == OnDestroy then Spec.DisposeWithOwner(old(obs.subject.State()), this)
        else old(obs.subject.State())
      ensures observers == if ev == OnDestroy then old(observers) - {obs} else old(observers)
      ensures (obs.subject.State(), obs in observers) == Spec.Run(old(obs.subject.State()), this, obs in old(observers), [ev])
    {
      if obs in observers {
        match ev
        case OnStart => obs.OnStart(this);
        case OnStop => obs.OnStop(this);
        case OnDestroy => obs.OnDestroy(this);
        case _ =>
      }
    }
  }

  /** The DefaultLifecycleObserver that subscribe creates for one owner. */
  class SubjectObserver<T> {
    const subject: StateSubject<T>

    constructor (subject: StateSubject<T>)
      ensures this.subject == subject
    {
      this.subject := subject;
    }

    /** onStart: the owner is mapped to a new live subscription, replacing any entry it had. */
    method OnStart(owner: Owner)
      requires subject.Valid()
      modifies subject
      ensures subject.Valid() && subject.State() == Spec.Start(old(subject.State()), owner)
    {
      var id := subject.SubscribeToConsumer();
      subject.disposableMap := subject.disposableMap[owner := id];
    }

    /** onStop: exactly disposeWithOwner. */
    method OnStop(owner: Owner)
      requires subject.Valid()
      modifies subject
      ensures subject.Valid() && subject.State() == Spec.DisposeWithOwner(old(subject.State()), owner)
    {
      subject.DisposeWithOwner(owner);
    }

    /** onDestroy: this observer leaves the owner's lifecycle, then disposeWithOwner. */
    method OnDestroy(owner: Owner)
      requires subject.Valid()
      modifies subject, owner
      ensures subject.Valid() && subject.State() == Spec.DisposeWithOwner(old(subject.State()), owner)
      ensures owner.observers == old(owner.observers) - {this} && owner.state == old(owner.state)
    {
      owner.RemoveObserver(this);
      subject.DisposeWithOwner(owner);
    }
  }

  /** What subscribe returns: the shared EMPTY_DISPOSABLE, or a handle bound to one owner. */
  datatype Disposable<T> = EmptyDisposable | Handle(handle: StateSubjectDisposable<T>)
  {
    /** EMPTY_DISPOSABLE is always disposed; a handle is disposed once its references are cleared. */
    function IsDisposed(): (b: bool)
      reads if Handle? then {handle} else {}
      ensures EmptyDisposable? ==> b
      ensures Handle? && handle.Valid() ==> (b <==> handle.subject == null)
    {
      match this
      case EmptyDisposable => true
      case Handle(h) => h.IsDisposed()
    }
  }

  class StateSubject<T> {
    var subject: Rx.Subject<T>
    var disposableMap: map<Owner, Rx.SubId>

    function State(): Spec.SubjectState<T, Owner>
      reads this
    {
      Spec.SubjectState(subject, disposableMap)
    }

    predicate Valid()
      reads this
    {
      Spec.Valid(State())
    }

    constructor ()
      ensures Valid() && State() == Spec.Init()
    {
      subject := Rx.Create();
      disposableMap := map[];
    }

    /** getValue: the broadcaster's current value (GetValueIsLastPosted: the last one posted). */
    function GetValue(): (v: Option<T>)
      reads this
      ensures v == subject.value
    {
      Spec.GetValue(State())
    }

    /** hasObservers: some subscription on the broadcaster is live. */
    function HasObservers(): (b: bool)
      reads this
      ensures b <==> exists id :: id in subject.live
    {
      Spec.HasObservers(State())
    }

    /** hasActiveObserver: some owner holds an entry in disposableMap. */
    function HasActiveObserver(): (b: bool)
      reads this
      ensures b <==> exists o :: o in disposableMap
    {
      Spec.HasActiveObserver(State())
    }

    method PostValue(v: T)
      requires Valid()
      modifies this
      ensures Valid() && State() == Spec.PostValue(old(State()), v)
    {
      subject := Rx.OnNext(subject, v);
    }

    method SubscribeForever() returns (id: Rx.SubId)
      requires Valid()
      modifies this
      ensures Valid() && (State(), id) == Spec.SubscribeForever(old(State()))
    {
      var (s, newId) := Rx.Subscribe(subject);
      subject, id := s, newId;
    }

    method Unsubscribe(owner: Owner)
      requires Valid()
      modifies this
      ensures Valid() && State() == Spec.DisposeWithOwner(old(State()), owner)
    {
      DisposeWithOwner(owner);
    }

    /**
     * subscribe: nothing happens for a destroyed owner and the shared
     * disposed handle is returned; otherwise a new observer joins the
     * owner's lifecycle (starting at once if the owner is started) and a
     * live handle bound to (this, observer, owner) is returned.
     */
    method Subscribe(owner: Owner) returns (d: Disposable<T>)
      requires Valid()
      modifies this, owner
      ensures Valid() && owner.state == old(owner.state)
      ensures old(owner.state) == Destroyed ==>
        && d == EmptyDisposable
        && owner.observers == old(owner.observers)
        && State() == old(State())
      ensures old(owner.state) != Destroyed ==>
        && d.Handle? && fresh(d.handle) && d.handle.Valid() && !d.handle.IsDisposed()
        && d.handle.subject == this && d.handle.owner == owner
        && d.handle.observer != null && fresh(d.handle.observer) && d.handle.observer.subject == this
        && owner.observers == old(owner.observers) + {d.handle.observer}
        && State() == if old(owner.state).IsAtLeast(Started) then Spec.Start(old(State()), owner) else old(State())
    {
      if owner.state == Destroyed {
        return EmptyDisposable;
      }
      var observer := new SubjectObserver(this);
      owner.AddObserver(observer);
      var h := new StateSubjectDisposable(this, observer, owner);
      d := Handle(h);
    }

    method DisposeWithOwner(owner: Owner)
      requires Valid()
      modifies this
      ensures Valid() && State() == Spec.DisposeWithOwner(old(State()), owner)
    {
      if owner in disposableMap {
        var id := disposableMap[owner];
        if !Rx.IsDisposed(subject, id) {
          subject := Rx.Dispose(subject, id);
        }
        disposableMap := disposableMap - {owner};
      }
    }

    /** Attaches one new live subscription to the broadcaster and returns its id. */
    method SubscribeToConsumer() returns (id: Rx.SubId)
      requires Valid()
      modifies this
      ensures subject.live == old(subject.live) + {id} && id !in old(subject.live)
      ensures forall k :: k in old(disposableMap) ==> old(disposableMap)[k] != id
      ensures State() == Spec.SubjectState(Rx.Subscribe(old(subject)).0, old(disposableMap))
      ensures id == Rx.Subscribe(old(subject)).1
    {
      var (s, newId) := Rx.Subscribe(subject);
      subject, id := s, newId;
    }
  }

  class StateSubjectDisposable<T> {
    var subject: StateSubject?<T>
    var observer: SubjectObserver?<T>
    var owner: Owner?

    /** The three references are cleared together, so either all are set or none is. */
    predicate Valid()
      reads this
    {
      (subject == null && observer == null && owner == null) || (subject != null && observer != null && owner != null)
    }

    constructor (subject: StateSubject<T>, observer: SubjectObserver<T>, owner: Owner)
      ensures this.subject == subject && this.observer == observer && this.owner == owner
      ensures Valid() && !IsDisposed()
    {
      this.subject := subject;
      this.observer := observer;
      this.owner := owner;
    }

    /** Under Valid, testing all three references is the same as testing the subject alone. */
    function IsDisposed(): (b: bool)
      reads this
      ensures Valid() ==> (b <==> subject == null)
    {
      subject == null && observer == null && owner == null
    }

    /**
     * dispose: unsubscribes the owner from the subject, removes the
     * observer from the owner's lifecycle and clears all three references.
     * A second call would dereference a cleared reference, hence the
     * precondition.
     */
    method Dispose()
      requires Valid() && !IsDisposed() && subject.Valid()
      modifies this, subject, owner
      ensures IsDisposed() && Valid()
      ensures old(subject).Valid()
      ensures old(subject).State() == Spec.DisposeWithOwner(old(subject.State()), old(owner))
      ensures old(owner).observers == old(owner.observers) - {old(observer)}
      ensures old(owner).state == old(owner.state)
    {
      subject.Unsubscribe(owner);
      owner.RemoveObserver(observer);
      subject := null;
      observer := null;
      owner := null;
    }
  }

  /** Disposes either kind of handle; EMPTY_DISPOSABLE's dispose does nothing. */
  method Dispose<T>(d: Disposable<T>)
    requires d.Handle? ==> d.handle.Valid() && !d.handle.IsDisposed() && d.handle.subject.Valid()
    modifies if d.Handle? then {d.handle} else {}
    modifies if d.Handle? then {d.handle.subject, d.handle.owner} else {}
    ensures d.IsDisposed()
    ensures d.Handle? ==>
      && old(d.handle.subject).Valid()
      && old(d.handle.subject).State() == Spec.DisposeWithOwner(old(d.handle.subject.State()), old(d.handle.owner))
      && old(d.handle.owner).observers == old(d.handle.owner.observers) - {old(d.handle.observer)}
      && old(d.handle.owner).state == old(d.handle.owner.state)
  {
    if d.Handle? {
      d.handle.Dispose();
    }
  }
}
