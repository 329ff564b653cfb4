/**
 * `useOnboarding`: the guided tour. A module-level list of listeners is
 * told when the completed flag in storage changes; the flag is read from
 * localStorage (a map here); `isActive` follows `startTour` and the tour's
 * completion callback. The driver.js instance is an opaque handle (a
 * number) whose only modelled operations are `drive` and `destroy`;
 * listeners are identified by numbers compared for identity, as the
 * callbacks are compared with `!==`.
 */
module Onboarding {
  import opened Wrappers

  /** The storage key of the completed flag. */
  const ONBOARDING_COMPLETED_KEY: string := "onboarding-completed"

  /** The listeners after unsubscribing cb: every entry equal to cb is dropped. */
  function Without(listeners: seq<nat>, cb: nat): (r: seq<nat>)
    ensures |r| <= |listeners|
  {
    if listeners == [] then []
    else (if listeners[0] == cb then [] else [listeners[0]]) + Without(listeners[1..], cb)
  }

  /** Exactly the entries other than cb remain. */
  lemma {:induction false} WithoutMembers(listeners: seq<nat>, cb: nat, x: nat)
    ensures x in Without(listeners, cb) <==> x in listeners && x != cb
  {
    if listeners != [] {
      WithoutMembers(listeners[1..], cb, x);
      assert x in listeners <==> x == listeners[0] || x in listeners[1..];
    }
  }

  /** Removing from a concatenation removes from each part: the survivors keep their order. */
  lemma {:induction false} WithoutAppend(a: seq<nat>, b: seq<nat>, cb: nat)
    ensures Without(a + b, cb) == Without(a, cb) + Without(b, cb)
  {
    if a == [] {
      assert a + b == b;
    } else {
      assert (a + b)[0] == a[0] && (a + b)[1..] == a[1..] + b;
      WithoutAppend(a[1..], b, cb);
    }
  }

  /** Unsubscribing a listener that is not registered changes nothing. */
  lemma {:induction false} WithoutAbsent(listeners: seq<nat>, cb: nat)
    requires cb !in listeners
    ensures Without(listeners, cb) == listeners
  {
    if listeners != [] {
      assert listeners[1..] == listeners[1..];
      WithoutAbsent(listeners[1..], cb);
      assert listeners == [listeners[0]] + listeners[1..];
    }
  }

  /** Subscribing a new listener and then unsubscribing it restores the list. */
  lemma SubscribeThenUnsubscribe(listeners: seq<nat>, cb: nat)
    requires cb !in listeners
    ensures Without(listeners + [cb], cb) == listeners
  {
    WithoutAppend(listeners, [cb], cb);
    WithoutAbsent(listeners, cb);
    assert Without([cb], cb) == [] by {
      assert [cb][1..] == [];
    }
  }

  /** The completed flag as stored: set only by the exact string "true". */
  predicate IsCompleted(storage: map<string, string>)
  {
    ONBOARDING_COMPLETED_KEY in storage && storage[ONBOARDING_COMPLETED_KEY] == "true"
  }

  /** `getServerSnapshot`: on the server the tour always counts as not completed. */
  function GetServerSnapshot(): (completed: bool)
    ensures !completed
  {
    false
  }

  /**
   * The module-level state shared by every use of the hook: the listener
   * list, localStorage, and the record of listener calls.
   */
  class CompletedStore {
    var listeners: seq<nat>
    var storage: map<string, string>
    var notified: seq<nat>

    constructor(storage: map<string, string>)
      ensures listeners == [] && this.storage == storage && notified == []
    {
      listeners := [];
      this.storage := storage;
      notified := [];
    }

    /** `subscribeToCompleted(cb)`: cb goes to the end of a new list. */
    method Subscribe(cb: nat)
      modifies this
      ensures listeners == old(listeners) + [cb]
      ensures storage == old(storage) && notified == old(notified)
    {
      listeners := listeners + [cb];
    }

    /** The function subscribeToCompleted returns. */
    method Unsubscribe(cb: nat)
      modifies this
      ensures listeners == Without(old(listeners), cb)
      ensures storage == old(storage) && notified == old(notified)
    {
      listeners := Without(listeners, cb);
    }

    /** `getCompletedSnapshot`. */
    function GetCompletedSnapshot(): (completed: bool)
      reads this
      ensures completed <==> ONBOARDING_COMPLETED_KEY in storage && storage[ONBOARDING_COMPLETED_KEY] == "true"
    {
      IsCompleted(storage)
    }

    /** `notifyCompletedChange`: every listener once, in list order. */
    method NotifyCompletedChange()
      modifies this
      ensures notified == old(notified) + old(listeners)
      ensures listeners == old(listeners) && storage == old(storage)
    {
      var snapshot := listeners;
      var i := 0;
      while i < |snapshot|
        invariant 0 <= i <= |snapshot|
        invariant notified == old(notified) + snapshot[..i]
        invariant listeners == old(listeners) && storage == old(storage)
      {
        notified := notified + [snapshot[i]];
        assert snapshot[..i + 1] == snapshot[..i] + [snapshot[i]];
        i := i + 1;
      }
      assert snapshot[..|snapshot|] == snapshot;
    }
  }

  /** What the hook returns, without its `startTour` callback. */
  datatype OnboardingValue = OnboardingValue(isCompleted: bool, isActive: bool, isHydrated: bool)

  /**
   * One use of the hook. `driver` is `driverRef.current`; `started` and
   * `destroyed` record the drivers created and the `destroy` calls.
   */
  class OnboardingHook {
    const store: CompletedStore
    var isActive: bool
    var isHydrated: bool
    var driver: Option<nat>
    var nextDriver: nat
    var started: seq<nat>
    var destroyed: seq<nat>

    /** The drivers still live: created and not destroyed. */
    ghost function Live(): set<nat>
      reads this
    {
      set k | 0 <= k < |started| && started[k] !in destroyed :: started[k]
    }

    /** At most one driver is live, and it is the one in driverRef; handles are never reused. */
    ghost predicate Valid()
      reads this
    {
      && Live() == (if driver.Some? then {driver.value} else {})
      && (forall k :: 0 <= k < |started| ==> started[k] < nextDriver)
      && (forall k :: 0 <= k < |destroyed| ==> destroyed[k] < nextDriver)
      && (driver.Some? ==> driver.value in started)
    }

    /** The first render: not active and no driver; hydrated is false until the client takes over. */
    constructor(store: CompletedStore)
      ensures Valid() && this.store == store
      ensures !isActive && !isHydrated && driver.None? && started == [] && destroyed == []
    {
      this.store := store;
      isActive := false;
      isHydrated := false;
      driver := None;
      nextDriver := 0;
      started := [];
      destroyed := [];
    }

    /** The hydration snapshot: true once rendering on the client. */
    method Hydrate()
      modifies this
      ensures isHydrated
      ensures isActive == old(isActive) && driver == old(driver) && started == old(started) && destroyed == old(destroyed)
      ensures nextDriver == old(nextDriver)
    {
      isHydrated := true;
    }

    /**
     * What the hook returns. Until hydration both external-store reads use
     * their server snapshots, so the tour counts as not completed whatever
     * storage holds.
     */
    function Value(): (v: OnboardingValue)
      reads this, store
      ensures v.isCompleted <==> (if isHydrated then IsCompleted(store.storage) else GetServerSnapshot())
      ensures v.isActive == isActive && v.isHydrated == isHydrated
    {
      OnboardingValue(isHydrated && store.GetCompletedSnapshot(), isActive, isHydrated)
    }

    /** `handleComplete`: the flag is written, listeners are told, the tour is inactive. */
    method HandleComplete()
      modifies store, this
      ensures store.storage == old(store.storage)[ONBOARDING_COMPLETED_KEY := "true"]
      ensures IsCompleted(store.storage)
      ensures store.notified == old(store.notified) + old(store.listeners)
      ensures store.listeners == old(store.listeners)
      ensures !isActive
      ensures isHydrated == old(isHydrated) && driver == old(driver) && nextDriver == old(nextDriver)
      ensures started == old(started) && destroyed == old(destroyed)
    {
      store.storage := store.storage[ONBOARDING_COMPLETED_KEY := "true"];
      store.NotifyCompletedChange();
      isActive := false;
    }

    /** The driver's `onDestroyed` callback. */
    method OnDestroyed()
      modifies store, this
      ensures IsCompleted(store.storage) && !isActive
      ensures store.notified == old(store.notified) + old(store.listeners)
      ensures driver == old(driver) && started == old(started) && destroyed == old(destroyed)
      ensures nextDriver == old(nextDriver) && isHydrated == old(isHydrated)
    {
      HandleComplete();
    }

    /**
     * `startTour`: the previous driver, if any, is destroyed before a new one
     * is created, stored and started; the tour is active.
     */
    method StartTour()
      requires Valid()
      modifies this
      ensures Valid()
      ensures isActive && isHydrated == old(isHydrated)
      ensures destroyed == old(destroyed) + (if old(driver).Some? then [old(driver).value] else [])
      ensures driver == Some(old(nextDriver)) && started == old(started) + [old(nextDriver)]
      ensures Live() == {old(nextDriver)}
    {
      if driver.Some? {
        destroyed := destroyed + [driver.value];
      }
      forall k | 0 <= k < |started| ensures started[k] in destroyed {
        if started[k] !in old(destroyed) {
          assert started[k] in old(Live());
        }
      }
      var id := nextDriver;
      nextDriver := nextDriver + 1;
      started := started + [id];
      driver := Some(id);
      isActive := true;
      assert id !in destroyed by {
        forall k | 0 <= k < |destroyed| ensures destroyed[k] != id {
          if k < |old(destroyed)| {
            assert destroyed[k] == old(destroyed)[k];
          }
        }
      }
      assert Live() == {id} by {
        forall x | x in Live() ensures x == id {
          var k :| 0 <= k < |started| && started[k] == x && started[k] !in destroyed;
        }
        assert started[|started| - 1] == id;
      }
    }

    /** The unmount cleanup: a live driver is destroyed. */
    method Unmount()
      requires Valid()
      modifies this
      ensures destroyed == old(destroyed) + (if old(driver).Some? then [old(driver).value] else [])
      ensures Live() == {}
      ensures isActive == old(isActive) && started == old(started)
      ensures driver == old(driver) && nextDriver == old(nextDriver) && isHydrated == old(isHydrated)
    {
      if driver.Some? {
        destroyed := destroyed + [driver.value];
      }
      forall k | 0 <= k < |started| ensures started[k] in destroyed {
        if started[k] !in old(destroyed) {
          assert started[k] in old(Live());
        }
      }
    }
  }
}
