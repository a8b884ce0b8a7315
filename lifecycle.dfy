/**
 * The parts of Android's lifecycle vocabulary that StateSubject relies on:
 * the ordered owner states and the events a lifecycle observer is told about.
 */
module Lifecycle {

  /** Lifecycle.State, in declaration order: DESTROYED < INITIALIZED < CREATED < STARTED < RESUMED. */
  datatype State = Destroyed | Initialized | Created | Started | Resumed
  {
    function Ordinal(): (n: nat)
      ensures n <= 4
    {
      match this
      case Destroyed => 0
      case Initialized => 1
      case Created => 2
      case Started => 3
      case Resumed => 4
    }

    /** Lifecycle.State.isAtLeast: this state is not before `other`. */
    predicate IsAtLeast(other: State) {
      Ordinal() >= other.Ordinal()
    }
  }

  /** The callbacks of a DefaultLifecycleObserver, one per lifecycle event. */
  datatype Event = OnCreate | OnStart | OnResume | OnPause | OnStop | OnDestroy

}
