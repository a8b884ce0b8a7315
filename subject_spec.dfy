/**
 * The state of one StateSubject as a value, and every transition its code
 * makes on that state. The classes in module Statesubject prove their methods
 * against these functions.
 *
 * A state is the wrapped BehaviorSubject together with `bindings`, the
 * subject's disposableMap: for each lifecycle owner, the id of the
 * subscription that was created when that owner last started.
 */
module SubjectSpec {
  import opened Wrappers
  import opened Lifecycle
  import Rx

  datatype SubjectState<T, K> = SubjectState(subject: Rx.Subject<T>, bindings: map<K, Rx.SubId>)

  /**
   * Every id the map holds was handed out by the broadcaster, and no two
   * owners share one (each came from its own subscribe). A mapped
   * subscription need not be live: it can end on its own while its entry
   * stays (SubscriptionEnds).
   */
  predicate Valid<T, K>(s: SubjectState<T, K>) {
    && Rx.Valid(s.subject)
    && (forall k :: k in s.bindings ==> s.bindings[k] < s.subject.nextId)
    && (forall k, k' :: k in s.bindings && k' in s.bindings && k != k' ==> s.bindings[k] != s.bindings[k'])
  }

  /** A new StateSubject: no value, no subscription, an empty map. */
  function Init<T, K>(): (s: SubjectState<T, K>)
    ensures Valid(s) && GetValue(s) == None && !HasObservers(s) && !HasActiveObserver(s)
  {
    SubjectState(Rx.Create(), map[])
  }

  function GetValue<T, K>(s: SubjectState<T, K>): Option<T> {
    s.subject.value
  }

  /** hasObservers: the broadcaster has some live subscription, mapped or not. */
  function HasObservers<T, K>(s: SubjectState<T, K>): (b: bool)
    ensures b <==> exists id :: id in s.subject.live
  {
    if Rx.HasObservers(s.subject) then
      var id :| id in s.subject.live; true
    else false
  }

  lemma NonEmptyMapHasKey<K, V>(m: map<K, V>)
    requires |m| > 0
    ensures exists k :: k in m
  {
    assert m.Keys != {};
    var k :| k in m.Keys;
  }

  /** hasActiveObserver: some owner currently holds an entry in the map. */
  function HasActiveObserver<T, K>(s: SubjectState<T, K>): (b: bool)
    ensures b <==> exists k :: k in s.bindings
  {
    if |s.bindings| > 0 then NonEmptyMapHasKey(s.bindings); true else false
  }

  /** postValue(v): the value is now v; nothing about the subscriptions changes. */
  function PostValue<T, K>(s: SubjectState<T, K>, v: T): (r: SubjectState<T, K>)
    ensures GetValue(r) == Some(v)
    ensures r.bindings == s.bindings && r.subject.live == s.subject.live
    ensures HasObservers(r) == HasObservers(s) && HasActiveObserver(r) == HasActiveObserver(s)
    ensures Valid(s) ==> Valid(r)
  {
    SubjectState(Rx.OnNext(s.subject, v), s.bindings)
  }

  /**
   * subscribeForever: one more live subscription on the broadcaster, outside
   * the map; hasObservers becomes true while hasActiveObserver is unchanged.
   */
  function SubscribeForever<T, K>(s: SubjectState<T, K>): (r: (SubjectState<T, K>, Rx.SubId))
    requires Valid(s)
    ensures Valid(r.0)
    ensures r.1 !in s.subject.live && r.0.subject.live == s.subject.live + {r.1}
    ensures forall k :: k in s.bindings ==> s.bindings[k] != r.1
    ensures r.0.bindings == s.bindings && GetValue(r.0) == GetValue(s)
    ensures HasObservers(r.0) && HasActiveObserver(r.0) == HasActiveObserver(s)
  {
    var (subject, id) := Rx.Subscribe(s.subject);
    (SubjectState(subject, s.bindings), id)
  }

  /**
   * The observer's onStart: the owner is mapped to a freshly created live
   * subscription. An entry the owner already had is overwritten, not disposed.
   */
  function Start<T, K>(s: SubjectState<T, K>, o: K): (r: SubjectState<T, K>)
    requires Valid(s)
    ensures Valid(r)
    ensures o in r.bindings && r.bindings[o] !in s.subject.live
    ensures forall k :: k in s.bindings ==> s.bindings[k] != r.bindings[o]
    ensures r.subject.live == s.subject.live + {r.bindings[o]}
    ensures r.bindings.Keys == s.bindings.Keys + {o}
    ensures forall k :: k in s.bindings && k != o ==> r.bindings[k] == s.bindings[k]
    ensures GetValue(r) == GetValue(s)
    ensures HasObservers(r) && HasActiveObserver(r)
  {
    var (subject, id) := Rx.Subscribe(s.subject);
    SubjectState(subject, s.bindings[o := id])
  }

  /**
   * disposeWithOwner(o): if o has an entry, its subscription is disposed
   * (unless it already was) and the entry is removed; otherwise nothing happens.
   */
  function DisposeWithOwner<T, K>(s: SubjectState<T, K>, o: K): (r: SubjectState<T, K>)
    ensures o !in r.bindings
    ensures r.bindings.Keys == s.bindings.Keys - {o}
    ensures forall k :: k in r.bindings ==> r.bindings[k] == s.bindings[k]
    ensures o in s.bindings ==> r.subject.live == s.subject.live - {s.bindings[o]}
    ensures o in s.bindings ==> Rx.IsDisposed(r.subject, s.bindings[o])
    ensures o !in s.bindings ==> r == s
    ensures GetValue(r) == GetValue(s) && r.subject.nextId == s.subject.nextId
    ensures Valid(s) ==> Valid(r)
  {
    if o in s.bindings then
      var id := s.bindings[o];
      var subject := if Rx.IsDisposed(s.subject, id) then s.subject else Rx.Dispose(s.subject, id);
      SubjectState(subject, s.bindings - {o})
    else
      s
  }

  /** Disposing twice for the same owner is the same as disposing once. */
  lemma DisposeWithOwnerIdempotent<T, K>(s: SubjectState<T, K>, o: K)
    ensures DisposeWithOwner(DisposeWithOwner(s, o), o) == DisposeWithOwner(s, o)
  {
  }

  /** Tearing down two owners gives the same state in either order. */
  lemma DisposeWithOwnerCommutes<T, K>(s: SubjectState<T, K>, a: K, b: K)
    ensures DisposeWithOwner(DisposeWithOwner(s, a), b) == DisposeWithOwner(DisposeWithOwner(s, b), a)
  {
    var ab := DisposeWithOwner(DisposeWithOwner(s, a), b);
    var ba := DisposeWithOwner(DisposeWithOwner(s, b), a);
    assert ab.bindings == ba.bindings;
    assert ab.subject.live == ba.subject.live;
  }

  /**
   * A second start for an owner that is still mapped leaks the first
   * subscription: it stays live, and no map entry refers to it any more.
   */
  lemma RestartLeaksEarlierSubscription<T, K>(s: SubjectState<T, K>, o: K)
    requires Valid(s) && o in s.bindings
    ensures var r := Start(s, o);
      (s.bindings[o] in r.subject.live <==> s.bindings[o] in s.subject.live) &&
      s.bindings[o] !in r.bindings.Values
  {
  }

  /** Start, stop, start: the second start attaches a new subscription, it does not revive the first. */
  lemma RestartCreatesNewSubscription<T, K>(s: SubjectState<T, K>, o: K)
    requires Valid(s)
    ensures var first := Start(s, o);
      var second := Start(DisposeWithOwner(first, o), o);
      second.bindings[o] != first.bindings[o] &&
      first.bindings[o] !in second.subject.live
  {
  }

  /**
   * A subscription ends on its own, as RxJava's lambda observer does when a
   * consumer fails: the broadcaster drops it, but disposableMap keeps the
   * entry that refers to it.
   */
  function SubscriptionEnds<T, K>(s: SubjectState<T, K>, id: Rx.SubId): (r: SubjectState<T, K>)
    ensures r.bindings == s.bindings && GetValue(r) == GetValue(s)
    ensures Rx.IsDisposed(r.subject, id) && r.subject.live == s.subject.live - {id}
    ensures Valid(s) ==> Valid(r)
  {
    SubjectState(Rx.Dispose(s.subject, id), s.bindings)
  }

  /**
   * After an owner's subscription ended on its own the owner still counts as
   * an active observer, and disposeWithOwner only removes the entry: it does
   * not dispose the subscription again.
   */
  lemma EndedSubscriptionStaysMapped<T, K>(s: SubjectState<T, K>, o: K)
    requires Valid(s) && o in s.bindings
    ensures var r := SubscriptionEnds(s, s.bindings[o]);
      && HasActiveObserver(r)
      && Rx.IsDisposed(r.subject, r.bindings[o])
      && DisposeWithOwner(r, o) == SubjectState(r.subject, r.bindings - {o})
  {
  }

  /**
   * hasActiveObserver does not imply hasObservers: one owner started, then
   * its subscription ended on its own.
   */
  lemma ActiveWithoutObservers()
    ensures var r := SubscriptionEnds(Start(Init<int, int>(), 0), 0);
      Valid(r) && HasActiveObserver(r) && !HasObservers(r)
  {
    var started := Start(Init<int, int>(), 0);
    assert started.bindings[0] == 0;
  }

  /** postValue for each value of vs in turn. */
  function PostAll<T, K>(s: SubjectState<T, K>, vs: seq<T>): (r: SubjectState<T, K>)
    ensures r.bindings == s.bindings && r.subject.live == s.subject.live
    decreases |vs|
  {
    if vs == [] then s else PostAll(PostValue(s, vs[0]), vs[1..])
  }

  /** getValue answers the value posted last, or what it answered before when nothing was posted. */
  lemma {:induction false} GetValueIsLastPosted<T, K>(s: SubjectState<T, K>, vs: seq<T>)
    ensures GetValue(PostAll(s, vs)) == if vs == [] then GetValue(s) else Some(vs[|vs| - 1])
    decreases |vs|
  {
    if vs != [] {
      GetValueIsLastPosted(PostValue(s, vs[0]), vs[1..]);
    }
  }

  /** What the observer created by subscribe does on each lifecycle callback. */
  function OnEvent<T, K>(s: SubjectState<T, K>, o: K, ev: Event): (r: SubjectState<T, K>)
    requires Valid(s)
    ensures Valid(r)
  {
    match ev
    case OnStart => Start(s, o)
    case OnStop => DisposeWithOwner(s, o)
    case OnDestroy => DisposeWithOwner(s, o)
    case _ => s
  }

  /**
   * Lifecycle events reaching one observer of owner `o` in order: each is
   * delivered only while the observer is registered, and onDestroy removes
   * the observer from the owner's lifecycle. The result is the new subject
   * state and whether the observer is still registered.
   */
  function Run<T, K>(s: SubjectState<T, K>, o: K, registered: bool, evs: seq<Event>): (r: (SubjectState<T, K>, bool))
    requires Valid(s)
    ensures Valid(r.0)
    decreases |evs|
  {
    if evs == [] then
      (s, registered)
    else
      var next := if registered then OnEvent(s, o, evs[0]) else s;
      Run(next, o, registered && evs[0] != OnDestroy, evs[1..])
  }

  /** Once the observer is no longer registered, no later event changes anything. */
  lemma {:induction false} RunUnregistered<T, K>(s: SubjectState<T, K>, o: K, evs: seq<Event>)
    requires Valid(s)
    ensures Run(s, o, false, evs) == (s, false)
    decreases |evs|
  {
    if evs != [] {
      RunUnregistered(s, o, evs[1..]);
    }
  }

  /**
   * Running two event sequences one after the other is running their
   * concatenation, so a series of single deliveries (Owner.Deliver) is one Run.
   */
  lemma {:induction false} RunAppend<T, K>(s: SubjectState<T, K>, o: K, registered: bool, a: seq<Event>, b: seq<Event>)
    requires Valid(s)
    ensures var mid := Run(s, o, registered, a);
      Run(s, o, registered, a + b) == Run(mid.0, o, mid.1, b)
    decreases |a|
  {
    if a == [] {
      assert a + b == b;
    } else {
      assert (a + b)[0] == a[0] && (a + b)[1..] == a[1..] + b;
      var next := if registered then OnEvent(s, o, a[0]) else s;
      RunAppend(next, o, registered && a[0] != OnDestroy, a[1..], b);
    }
  }

  /** Lifecycle events never change the value getValue answers. */
  lemma {:induction false} RunKeepsValue<T, K>(s: SubjectState<T, K>, o: K, registered: bool, evs: seq<Event>)
    requires Valid(s)
    ensures GetValue(Run(s, o, registered, evs).0) == GetValue(s)
    decreases |evs|
  {
    if evs != [] {
      var next := if registered then OnEvent(s, o, evs[0]) else s;
      assert GetValue(next) == GetValue(s);
      RunKeepsValue(next, o, registered && evs[0] != OnDestroy, evs[1..]);
    }
  }

  /** Events delivered through o's observer never touch another owner's entry. */
  lemma {:induction false} RunKeepsOtherOwners<T, K>(s: SubjectState<T, K>, o: K, registered: bool, evs: seq<Event>, k: K)
    requires Valid(s) && k != o
    ensures var r := Run(s, o, registered, evs).0;
      (k in r.bindings <==> k in s.bindings) && (k in s.bindings ==> r.bindings[k] == s.bindings[k])
    decreases |evs|
  {
    if evs != [] {
      var next := if registered then OnEvent(s, o, evs[0]) else s;
      RunKeepsOtherOwners(next, o, registered && evs[0] != OnDestroy, evs[1..], k);
    }
  }

  /**
   * The binding of one owner as a state machine: not yet attached, attached
   * (a live subscription in the map), detached (stopped, still registered),
   * terminated (observer removed from the lifecycle).
   */
  datatype BindingState = Unattached | Attached | Detached | Terminated

  function Step(b: BindingState, ev: Event): BindingState {
    if b == Terminated then Terminated
    else
      match ev
      case OnStart => Attached
      case OnStop => Detached
      case OnDestroy => Terminated
      case _ => b
  }

  function Final(b: BindingState, evs: seq<Event>): BindingState
    decreases |evs|
  {
    if evs == [] then b else Final(Step(b, evs[0]), evs[1..])
  }

  /** The binding state a subject state and a registration flag stand for. */
  predicate Represents<T, K>(s: SubjectState<T, K>, o: K, registered: bool, b: BindingState) {
    (registered <==> b != Terminated) && (o in s.bindings <==> b == Attached)
  }

  /**
   * Along any sequence of lifecycle events, the map holds an entry for the
   * owner exactly when the binding state machine ends attached, and the
   * observer stays registered exactly when it does not end terminated.
   */
  lemma {:induction false} RunFollowsBindingStates<T, K>(s: SubjectState<T, K>, o: K, registered: bool, b: BindingState, evs: seq<Event>)
    requires Valid(s) && Represents(s, o, registered, b)
    ensures var r := Run(s, o, registered, evs);
      Represents(r.0, o, r.1, Final(b, evs))
    decreases |evs|
  {
    if evs != [] {
      var next := if registered then OnEvent(s, o, evs[0]) else s;
      assert Represents(next, o, registered && evs[0] != OnDestroy, Step(b, evs[0]));
      RunFollowsBindingStates(next, o, registered && evs[0] != OnDestroy, Step(b, evs[0]), evs[1..]);
    }
  }

  /** After onDestroy reached the observer, the owner is unmapped for good, whatever follows. */
  lemma DestroyIsFinal<T, K>(s: SubjectState<T, K>, o: K, before: seq<Event>, after: seq<Event>)
    requires Valid(s)
    ensures var r := Run(s, o, true, before + [OnDestroy] + after);
      o !in r.0.bindings && !r.1
  {
    var b := if o in s.bindings then Attached else Unattached;
    assert Represents(s, o, true, b);
    RunFollowsBindingStates(s, o, true, b, before + [OnDestroy] + after);
    FinalAfterDestroy(b, before, after);
  }

  lemma {:induction false} FinalAfterDestroy(b: BindingState, before: seq<Event>, after: seq<Event>)
    ensures Final(b, before + [OnDestroy] + after) == Terminated
    decreases |before|
  {
    if before == [] {
      assert before + [OnDestroy] + after == [OnDestroy] + after;
      TerminatedAbsorbs(after);
    } else {
      assert (before + [OnDestroy] + after)[1..] == before[1..] + [OnDestroy] + after;
      FinalAfterDestroy(Step(b, before[0]), before[1..], after);
    }
  }

  lemma {:induction false} TerminatedAbsorbs(evs: seq<Event>)
    ensures Final(Terminated, evs) == Terminated
    decreases |evs|
  {
    if evs != [] {
      TerminatedAbsorbs(evs[1..]);
    }
  }
}
