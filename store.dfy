/**
 * The store (Blazor.Client.Redux/Store.cs): the current state, the bounded
 * undo/redo history, the state-changed notification and the location
 * synchronisation with the application's URI helper. Each method is proved
 * against the History functions, and Valid() (which contains History.Inv)
 * is kept by every public operation.
 */
module Redux {
  import opened Wrappers
  import opened Options
  import opened History

  /** The built-in action dispatched on a URI change when no creator is configured. */
  datatype ChangeLocationAction = ChangeLocationAction(location: string)

  /** Where the store reads the location a state wants to show. */
  datatype LocationGetter<!S> =
    | CachedLocation                       // the fallback: the last location the store saw
    | FromState(f: S -> Option<string>)    // the application's own extractor

  /** How the store turns a reported URI into an action. */
  datatype ActionCreator<A> =
    | ChangeLocationFallback               // the fallback: a ChangeLocationAction cast to the action type
    | Custom(f: string -> A)               // the application's own creator

  class Store<S, A> {
    const reducer: (S, A) -> S
    const options: ReduxOptions<S, A>
    /** The conversion of a ChangeLocationAction to the action type (a cast in the source). */
    const asAction: ChangeLocationAction -> A

    var state: S
    var past: seq<Entry<S, A>>
    var future: seq<Entry<S, A>>

    /** Whether a URI helper has been accepted (the helper field is non-null). */
    var hasUriHelper: bool
    /** Whether the two synchronisation handlers are subscribed (to the helper and to the store's own notification). */
    var syncAttached: bool
    var getLocation: Option<LocationGetter<S>>
    var locationActionCreator: Option<ActionCreator<A>>
    var currentLocation: Option<string>
    var disposed: bool
    /** How many state-changed notifications have been raised. */
    var notifications: nat
    /** The targets handed to the URI helper's NavigateTo, oldest first. */
    ghost var navigations: seq<string>

    function Snap(): Snapshot<S, A>
      reads this
    {
      Snapshot(state, past, future)
    }

    /** The store's invariant: the history invariant and the synchronisation invariant. */
    ghost predicate Valid()
      reads this, options
    {
      Inv(Snap(), options.maxHistoricalRecords) && SyncValid()
    }

    /** A subscribed store has a helper, and the getter and creator are chosen exactly when a helper is. */
    ghost predicate SyncValid()
      reads this`syncAttached, this`hasUriHelper, this`getLocation, this`locationActionCreator, this`currentLocation
    {
      && (syncAttached ==> hasUriHelper)
      && (hasUriHelper ==> getLocation.Some? && locationActionCreator.Some?)
      && (!hasUriHelper ==> getLocation.None? && locationActionCreator.None? && currentLocation.None?)
    }

    /** The action the configured creator builds from a reported URI. */
    function CreateLocationAction(uri: string): A
      reads this
      requires locationActionCreator.Some?
    {
      match locationActionCreator.value
      case ChangeLocationFallback => asAction(ChangeLocationAction(uri))
      case Custom(f) => f(uri)
    }

    /**
     * Where SynchronizeUriLocationWithState navigates when the state is s and
     * the cached location is cache, or None when it does not navigate.
     */
    function LocationToNavigate(s: S, cache: Option<string>): (r: Option<string>)
      reads this
      ensures r.Some? ==> r != cache
      ensures getLocation == Some(CachedLocation) ==> r.None?
      ensures r.Some? ==> hasUriHelper && getLocation.Some?
    {
      if getLocation.Some? && hasUriHelper then
        var derived := match getLocation.value
          case CachedLocation => cache
          case FromState(f) => f(s);
        if derived.Some? && derived != cache then derived else None
      else None
    }

    /** Where raising the state-changed notification navigates, given state s and cache. */
    function NavigationAfterChange(s: S, cache: Option<string>): (r: Option<string>)
      reads this
      ensures r.Some? ==> syncAttached && r == LocationToNavigate(s, cache)
    {
      if syncAttached then LocationToNavigate(s, cache) else None
    }

    /**
     * The location cache and the navigation log after a handler that
     * navigates to t (or does nothing when t is None), starting from cache
     * and the log navs.
     */
    ghost predicate Navigated(t: Option<string>, cache: Option<string>, navs: seq<string>)
      reads this
    {
      if t.Some? then currentLocation == t && navigations == navs + [t.value]
      else currentLocation == cache && navigations == navs
    }

    constructor (initialState: S, rootReducer: (S, A) -> S, options: ReduxOptions<S, A>, asAction: ChangeLocationAction -> A)
      ensures Valid()
      ensures Snap() == Initial(initialState, options.maxHistoricalRecords)
      ensures this.reducer == rootReducer && this.options == options && this.asAction == asAction
      ensures !hasUriHelper && !syncAttached && !disposed
      ensures currentLocation.None? && notifications == 0 && navigations == []
    {
      reducer := rootReducer;
      this.options := options;
      this.asAction := asAction;
      state := initialState;
      past := [];
      future := [];
      hasUriHelper, syncAttached := false, false;
      getLocation, locationActionCreator, currentLocation := None, None, None;
      disposed := false;
      notifications := 0;
      navigations := [];
      new;
      AddHistoricStateEntry(Entry(initialState, None));
    }

    /** Appends e to the past through the bounded add (Store.cs:68-80). */
    method AddHistoricStateEntry(e: Entry<S, A>)
      modifies this`past
      ensures past == Add(old(past), options.maxHistoricalRecords, e)
    {
      match options.maxHistoricalRecords
      case None =>
      case Some(m) =>
        if |past| >= m + 1 {
          past := past[1..];
        }
        past := past + [e];
    }

    /** Raises the state-changed notification; the store's own handler runs when subscribed. */
    method InvokeOnStateChanged()
      modifies this`notifications, this`currentLocation, this`navigations
      ensures notifications == old(notifications) + 1
      ensures Navigated(NavigationAfterChange(state, old(currentLocation)), old(currentLocation), old(navigations))
    {
      notifications := notifications + 1;
      if syncAttached {
        SynchronizeUriLocationWithState();
      }
    }

    /** Reduces the action into a new state, records it and clears the redo stack. */
    method Dispatch(action: A)
      requires Valid()
      modifies this`state, this`past, this`future, this`notifications, this`currentLocation, this`navigations
      ensures Valid()
      ensures Snap() == Dispatched(old(Snap()), options.maxHistoricalRecords, reducer, action)
      ensures notifications == old(notifications) + 1
      ensures Navigated(NavigationAfterChange(state, old(currentLocation)), old(currentLocation), old(navigations))
    {
      state := reducer(state, action);
      AddHistoricStateEntry(Entry(state, Some(action)));
      future := [];
      InvokeOnStateChanged();
    }

    /**
     * Moves steps + 1 entries from the end of the past onto the redo stack
     * and restores the state of the new last past entry, or fails and
     * changes nothing.
     */
    method Rewind(steps: int) returns (r: Outcome<StepError>)
      requires Valid()
      modifies this`state, this`past, this`future, this`notifications, this`currentLocation, this`navigations
      ensures Valid()
      ensures Rewound(old(Snap()), steps).Failure? ==>
        r == Fail(Rewound(old(Snap()), steps).error) && unchanged(this)
      ensures Rewound(old(Snap()), steps).Success? ==>
        && r == Pass
        && Snap() == Rewound(old(Snap()), steps).value
        && notifications == old(notifications) + 1
        && Navigated(NavigationAfterChange(state, old(currentLocation)), old(currentLocation), old(navigations))
    {
      if |past| < steps + 2 {
        return Fail(NotEnoughRecorded);
      }
      if steps + 1 < 0 {
        return Fail(NegativeCount);
      }
      RewindPastGuards(steps);
      r := Pass;
    }

    /** Rewind past its two guards: the loop, then the restore of the state (Store.cs:96-108). */
    method RewindPastGuards(steps: int)
      requires Valid() && -1 <= steps && steps + 2 <= |past|
      modifies this`state, this`past, this`future, this`notifications, this`currentLocation, this`navigations
      ensures Valid()
      ensures Rewound(old(Snap()), steps).Success?
      ensures Snap() == Rewound(old(Snap()), steps).value
      ensures notifications == old(notifications) + 1
      ensures Navigated(NavigationAfterChange(state, old(currentLocation)), old(currentLocation), old(navigations))
    {
      ghost var h := Snap();
      RewindKeepsInv(h, options.maxHistoricalRecords, steps);
      MoveToRedo(steps + 1);
      state := past[|past| - 1].state;
      assert Snap() == Rewound(h, steps).value;
      InvokeOnStateChanged();
    }

    /**
     * The loop of Rewind (Store.cs:96-100): moves the last count entries of
     * the past, newest first, onto the redo stack, one entry at a time.
     */
    method MoveToRedo(count: nat)
      requires count <= |past|
      modifies this`past, this`future
      ensures past == old(past)[..|old(past)| - count]
      ensures future == old(future) + Reversed(old(past)[|old(past)| - count..])
    {
      var i := 0;
      while i < count
        invariant 0 <= i <= count
        invariant past == old(past)[..|old(past)| - i]
        invariant future == old(future) + Reversed(old(past)[|old(past)| - i..])
      {
        ReversedSuffixStep(old(past), |old(past)| - i);
        future := future + [past[|past| - 1]];
        past := past[..|past| - 1];
        i := i + 1;
      }
    }

    /**
     * Pops steps entries off the redo stack onto the past and restores the
     * state of the new last past entry, or fails and changes nothing.
     */
    method FastForward(steps: int) returns (r: Outcome<StepError>)
      requires Valid()
      modifies this`state, this`past, this`future, this`notifications, this`currentLocation, this`navigations
      ensures Valid()
      ensures FastForwarded(old(Snap()), options.maxHistoricalRecords, steps).Failure? ==>
        r == Fail(FastForwarded(old(Snap()), options.maxHistoricalRecords, steps).error) && unchanged(this)
      ensures FastForwarded(old(Snap()), options.maxHistoricalRecords, steps).Success? ==>
        && r == Pass
        && Snap() == FastForwarded(old(Snap()), options.maxHistoricalRecords, steps).value
        && notifications == old(notifications) + 1
        && Navigated(NavigationAfterChange(state, old(currentLocation)), old(currentLocation), old(navigations))
    {
      if |future| < steps {
        return Fail(NotEnoughRecorded);
      }
      if steps < 0 {
        return Fail(NegativeCount);
      }
      r := ReplayRedoAndRestore(steps);
    }

    /** FastForward past its two guards: the loop, then the restore of the state (Store.cs:124-136). */
    method ReplayRedoAndRestore(steps: nat) returns (r: Outcome<StepError>)
      requires Valid() && steps <= |future|
      modifies this`state, this`past, this`future, this`notifications, this`currentLocation, this`navigations
      ensures Valid()
      ensures FastForwarded(old(Snap()), options.maxHistoricalRecords, steps).Failure? ==>
        r == Fail(NoCurrentEntry) && unchanged(this)
      ensures FastForwarded(old(Snap()), options.maxHistoricalRecords, steps).Success? ==>
        && r == Pass
        && Snap() == FastForwarded(old(Snap()), options.maxHistoricalRecords, steps).value
        && notifications == old(notifications) + 1
        && Navigated(NavigationAfterChange(state, old(currentLocation)), old(currentLocation), old(navigations))
    {
      ghost var h := Snap();
      if steps > 0 {
        ReplayFits(h, options.maxHistoricalRecords, steps);
      }
      ReplayRedo(steps);
      if past == [] {
        return Fail(NoCurrentEntry);
      }
      state := past[|past| - 1].state;
      InvokeOnStateChanged();
      r := Pass;
    }

    /**
     * The loop of FastForward (Store.cs:124-128): moves the last steps entries
     * of the redo stack, newest first, onto the past, one entry at a time.
     */
    method ReplayRedo(steps: nat)
      requires steps <= |future|
      requires steps > 0 ==> options.maxHistoricalRecords.Some? && |past| + steps <= options.maxHistoricalRecords.value + 1
      modifies this`past, this`future
      ensures past == old(past) + Reversed(old(future)[|old(future)| - steps..])
      ensures future == old(future)[..|old(future)| - steps]
    {
      var i := 0;
      while i < steps
        invariant 0 <= i <= steps
        invariant future == old(future)[..|old(future)| - i]
        invariant past == old(past) + Reversed(old(future)[|old(future)| - i..])
      {
        ReversedSuffixStep(old(future), |old(future)| - i);
        AddHistoricStateEntry(future[|future| - 1]);
        future := future[..|future| - 1];
        i := i + 1;
      }
    }

    /**
     * Starts location synchronisation, at most once: only with a helper
     * (uriHelper is None for a null helper, or Some of the helper's current
     * absolute URI) and only when the options do not suppress it. The
     * handlers are subscribed and the helper's current URI is synchronised
     * into the state at once.
     */
    method InitializeLocationSynchronization(uriHelper: Option<string>)
      requires Valid()
      modifies this
      ensures Valid()
      ensures old(hasUriHelper) || uriHelper.None? || options.suppressLocationSynchronization ==> unchanged(this)
      ensures !old(hasUriHelper) && uriHelper.Some? && !options.suppressLocationSynchronization ==>
        && hasUriHelper && syncAttached && disposed == old(disposed)
        && getLocation == Some(if options.getLocation.Some? then FromState(options.getLocation.value) else CachedLocation)
        && locationActionCreator == Some(if options.locationActionCreator.Some? then Custom(options.locationActionCreator.value) else ChangeLocationFallback)
        && Snap() == Dispatched(old(Snap()), options.maxHistoricalRecords, reducer, CreateLocationAction(uriHelper.value))
        && notifications == old(notifications) + 1
        && Navigated(NavigationAfterChange(reducer(old(state), CreateLocationAction(uriHelper.value)), Some(uriHelper.value)),
                     Some(uriHelper.value), old(navigations))
    {
      if !hasUriHelper && uriHelper.Some? && !options.suppressLocationSynchronization {
        hasUriHelper := true;
        syncAttached := true;
        getLocation := Some(if options.getLocation.Some? then FromState(options.getLocation.value) else CachedLocation);
        locationActionCreator := Some(if options.locationActionCreator.Some? then Custom(options.locationActionCreator.value) else ChangeLocationFallback);
        SynchronizeStateLocationWithUri(uriHelper.value);
      }
    }

    /**
     * The handler for a URI reported by the helper: a URI other than the
     * cached one becomes the cache and exactly one location action is
     * dispatched; the cached URI itself is ignored, which is what stops a
     * navigation from echoing back.
     */
    method SynchronizeStateLocationWithUri(newAbsoluteUri: string)
      requires Valid()
      modifies this`state, this`past, this`future, this`notifications, this`currentLocation, this`navigations
      ensures Valid()
      ensures Some(newAbsoluteUri) == old(currentLocation) || locationActionCreator.None? ==> unchanged(this)
      ensures Some(newAbsoluteUri) != old(currentLocation) && locationActionCreator.Some? ==>
        && Snap() == Dispatched(old(Snap()), options.maxHistoricalRecords, reducer, CreateLocationAction(newAbsoluteUri))
        && notifications == old(notifications) + 1
        && Navigated(NavigationAfterChange(reducer(old(state), CreateLocationAction(newAbsoluteUri)), Some(newAbsoluteUri)),
                     Some(newAbsoluteUri), old(navigations))
      // at most one navigation, and never back to the reported URI
      ensures navigations == old(navigations) ||
              (|navigations| == |old(navigations)| + 1 && Last(navigations) != newAbsoluteUri)
    {
      if Some(newAbsoluteUri) != currentLocation && locationActionCreator.Some? {
        currentLocation := Some(newAbsoluteUri);
        Dispatch(CreateLocationAction(newAbsoluteUri));
      }
    }

    /**
     * The handler for a state change: navigates to the location the state
     * derives when it is non-null and differs from the cache, updating the
     * cache first so that the helper's echo of it is ignored.
     */
    method SynchronizeUriLocationWithState()
      modifies this`currentLocation, this`navigations
      ensures Navigated(old(LocationToNavigate(state, currentLocation)), old(currentLocation), old(navigations))
    {
      if getLocation.Some? && hasUriHelper {
        var newLocation := match getLocation.value
          case CachedLocation => currentLocation
          case FromState(f) => f(state);
        if newLocation.Some? {
          if newLocation != currentLocation {
            currentLocation := newLocation;
            navigations := navigations + [newLocation.value];
          }
        }
      }
    }

    /** The helper raising its location-changed event: it reaches the store only while the handler is subscribed. */
    method OnLocationChanged(uri: string)
      requires Valid()
      modifies this`state, this`past, this`future, this`notifications, this`currentLocation, this`navigations
      ensures Valid()
      ensures !syncAttached ==> unchanged(this)
      ensures syncAttached && Some(uri) == old(currentLocation) ==> unchanged(this)
      ensures syncAttached && Some(uri) != old(currentLocation) ==>
        && Snap() == Dispatched(old(Snap()), options.maxHistoricalRecords, reducer, CreateLocationAction(uri))
        && notifications == old(notifications) + 1
        && Navigated(NavigationAfterChange(reducer(old(state), CreateLocationAction(uri)), Some(uri)), Some(uri), old(navigations))
      ensures navigations == old(navigations) ||
              (|navigations| == |old(navigations)| + 1 && Last(navigations) != uri)
    {
      if syncAttached {
        SynchronizeStateLocationWithUri(uri);
      }
    }

    /** Dispose(bool): the first call unsubscribes the handlers when disposing and a helper was accepted; later calls do nothing. */
    method DisposeCore(disposing: bool)
      requires Valid()
      modifies this`syncAttached, this`disposed
      ensures Valid()
      ensures old(disposed) ==> unchanged(this)
      ensures !old(disposed) ==> disposed && syncAttached == (old(syncAttached) && !(disposing && hasUriHelper))
    {
      if !disposed {
        if disposing {
          if hasUriHelper {
            syncAttached := false;
          }
        }
        disposed := true;
      }
    }

    /** IDisposable.Dispose: Dispose(true). */
    method Dispose()
      requires Valid()
      modifies this`syncAttached, this`disposed
      ensures Valid()
      ensures old(disposed) ==> unchanged(this)
      ensures !old(disposed) ==> disposed && !syncAttached
    {
      DisposeCore(true);
    }
  }
}
