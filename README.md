# Blazor.Redux store, modelled in Dafny

This project models the `Store<TState, TAction>` of Blazor.Redux
(`Blazor.Client.Redux/Store.cs`) and the options it is configured with
(`Blazor.Server.Redux/ReduxOptions.cs`), and proves what the store promises
about its three parts:

- **Dispatch/reduce.** `Dispatch(a)` sets the state to `reducer(state, a)`,
  records the new state with its action in the bounded history, clears the
  redo stack and raises the state-changed notification.
- **Bounded undo/redo history.** The past list holds the oldest entry first
  and the current entry last; the future list is a stack whose last entry is
  the next one to redo. `AddHistoricStateEntry` drops the oldest entry once
  the list holds `MaxHistoricalRecords + 1` entries and does nothing when the
  depth is null. `Rewind(steps)` moves `steps + 1` entries onto the redo stack
  and `FastForward(steps)` moves `steps` entries back.
- **Location synchronisation.** A reported URI that differs from the cached
  location becomes the cache, and one location action is dispatched. A state
  change navigates to the location the state derives, when there is one and it
  differs from the cache; the cache is updated first, so the URI helper's echo
  is ignored.

Layout:

- `wrappers.dfy`: `Option`, `Result` and `Outcome`.
- `redux_options.dfy`: module `Options`, the mutable options class with its
  defaults.
- `history.dfy`: module `History`. The history as values: `Entry`,
  `Snapshot`, the bounded `Add`, the functions `Initial`, `Dispatched`,
  `Rewound` and `FastForwarded`, the invariant `Inv`, and the lemmas about
  them: round trips, bounds, and no redo after a dispatch. It also holds
  `RewoundBySteps`, the rewind as its documentation describes it (see
  Findings).
- `store.dfy`: module `Redux`, the `Store` class. Its fields are updated in
  place, and the two `foreach` loops are `while` loops with invariants. Every
  history operation is proved equal to its `History` function, and `Valid()`,
  which includes `Inv`, is kept by every public operation.
- `unchecked_arithmetic.dfy`: module `UncheckedArithmetic`. The two uses of
  32-bit int arithmetic as written, and where they part from the corrected
  definitions (see Findings).
- `scenarios.dfy`: module `Scenarios`. Concrete counter runs over the
  functions and over the class.

Modelling choices:

- A failure is `Fail(e)` from the method and leaves the store unchanged. The
  three `StepError` kinds stand for the three ways the source throws
  `ArgumentOutOfRangeException`: the explicit length guard, `Enumerable.Range`
  with a negative count, and `ElementAt(Count - 1)` on an empty past.
- `steps` is an unbounded `int`, and negative values are modelled as the code
  handles them. `Rewind(-1)` re-asserts the current state and notifies.
  `Rewind(steps)` for `steps < -1` and `FastForward(steps)` for `steps < 0`
  fail with `NegativeCount` and change nothing.
- The URI helper appears as `Option<string>` at initialisation: `None` is a
  null helper and `Some(u)` is a helper whose current URI is `u`.
  `NavigateTo` calls are recorded in the ghost log `navigations`.
- The two handler subscriptions are always added together and removed
  together, so they are one flag, `syncAttached`. The store's own
  `SynchronizeUriLocationWithState` runs from `InvokeOnStateChanged` while
  that flag is set. Any other subscriber is represented only by the
  `notifications` counter.
- The fallback getter and the fallback action creator are the constructors
  `CachedLocation` and `ChangeLocationFallback`. The cast of a
  `ChangeLocationAction` to the action type is the store parameter
  `asAction`.

Behaviour of the code worth knowing:

- `Rewind(steps)` moves `steps + 1` entries, so `Rewind(0)` already undoes
  one dispatch, and after three increments from 0, `Rewind(1)` yields 1.
  The inverse of `Rewind(k)` is `FastForward(k + 1)`
  (`History.RewindThenFastForward`, `Scenarios.RewindOneAfterThreeIncrements`).
  The method's own documentation describes `steps` differently; see Findings.
- With depth 0 the past still keeps the current entry
  (`Scenarios.DepthZeroKeepsCurrentEntry`).
- With record keeping off, every failed rewind or fast-forward throws
  `ArgumentOutOfRangeException`, like an out-of-range request.
  `FastForward(0)` passes the guard and then fails at `ElementAt(-1)`
  (`History.HistoryDisabledTimeTravelFails`).

## Model

| member | source | states |
|---|---|---|
| Options.ReduxOptions.constructor | Blazor.Server.Redux/ReduxOptions.cs:24-30 | a new options bag has depth 20, no action creator, synchronisation not suppressed and no location getter |
| History.Add | Blazor.Client.Redux/Store.cs:68-80 | with a null depth the past is unchanged; otherwise the new entry is last, nothing is dropped below the bound, exactly the oldest entry is dropped at or above it, and a past within max + 1 entries stays within it |
| History.AddAll | Blazor.Client.Redux/Store.cs:68-80 | adding entries one at a time: unchanged past when record keeping is off, plain concatenation while the bound is not reached, and never more than max + 1 entries |
| History.AddAllKeepsNewest | Blazor.Client.Redux/Store.cs:68-80 | repeated bounded adds keep exactly the newest min(total, max + 1) entries of past + added, in their original order |
| History.Initial | Blazor.Client.Redux/Store.cs:33-43 | the initial history has the initial state, no redo entries, the past is [entry(initial state, no action)] with a depth and empty without one, and it satisfies the invariant |
| History.Dispatched | Blazor.Client.Redux/Store.cs:45-55 | the state becomes reducer(state, a), (new state, a) goes through the bounded add, the redo stack is empty and the invariant is kept |
| History.Rewound | Blazor.Client.Redux/Store.cs:87-109 | fails iff the past has fewer than steps + 2 entries or steps < -1, with the error kind of the check that fires; on success the last steps + 1 past entries go onto the redo stack newest first, the state is the new last past entry's, the total is conserved, and the last redo entry is the one just after the new current entry |
| History.FastForwarded | Blazor.Client.Redux/Store.cs:116-137 | fails iff the redo stack has fewer than steps entries, steps < 0, or the past is empty (record keeping off), with the matching error kind; on success the last steps redo entries are appended to the past newest first, the state is the last past entry's, and the invariant is kept |
| History.FastForwardedReplaysByAdd | Blazor.Client.Redux/Store.cs:124-128 | under the invariant, adding the popped redo entries one at a time through the bounded add gives exactly FastForwarded: no entry is evicted |
| History.RewindKeepsInv | Blazor.Client.Redux/Store.cs:96-104 | a successful rewind keeps the past non-empty, the state equal to the last past entry's, and past + future within max + 1 |
| History.HistoryDisabledTimeTravelFails | Blazor.Client.Redux/Store.cs:87-137 | with a null depth every rewind and every fast-forward fails, and FastForward(0) fails at the read of the last past entry |
| History.RewindThenFastForward | Blazor.Client.Redux/Store.cs:87-137 | Rewind(k) followed by FastForward(k + 1) restores state, past and future exactly |
| History.FastForwardThenRewind | Blazor.Client.Redux/Store.cs:87-137 | FastForward(k) for k >= 1 followed by Rewind(k - 1) restores state, past and future exactly |
| History.RewindLandsStepsPlusOneBack | Blazor.Client.Redux/Store.cs:90-104 | a successful Rewind(steps) restores the state of the entry steps + 1 before the current one, not steps before it |
| History.RewoundBySteps | Blazor.Client.Redux/Store.cs:82-86 | the rewind the documentation describes: fails iff the past holds fewer than steps + 1 entries or steps < 0; otherwise exactly the last steps entries go onto the redo stack newest first and the state is the new last past entry's |
| History.RewoundByStepsLandsStepsBack | Blazor.Client.Redux/Store.cs:82-86 | the documented rewind restores the state of the entry exactly steps before the current one |
| History.RewoundIsRewoundByStepsPlusOne | Blazor.Client.Redux/Store.cs:90-96 | the code's Rewind(steps) equals the documented rewind of steps + 1, failures included |
| History.RewoundByStepsThenFastForward | Blazor.Client.Redux/Store.cs:111-137 | the documented rewind of k keeps the invariant, and FastForward(k) undoes it exactly |
| History.FastForwardThenRewoundBySteps | Blazor.Client.Redux/Store.cs:111-137 | FastForward(k) is undone exactly by the documented rewind of k |
| History.DispatchErasesRedo | Blazor.Client.Redux/Store.cs:45-55 | after a dispatch every FastForward(n) with n >= 1 fails as out of range |
| History.DispatchedAllFolds | Blazor.Client.Redux/Store.cs:45-55 | after any run of dispatches the state is the reducer folded over the actions, the invariant holds, the past has at most max + 1 entries and nothing is left to redo |
| Redux.Store.constructor | Blazor.Client.Redux/Store.cs:33-43 | the new store holds Initial(initial state, depth), keeps the reducer and options, has no URI helper, no subscription, no cache, no notifications and no navigations, and is valid |
| Redux.Store.AddHistoricStateEntry | Blazor.Client.Redux/Store.cs:68-80 | the past becomes History.Add of the old past |
| Redux.Store.InvokeOnStateChanged | Blazor.Client.Redux/Store.cs:57-61 | one notification more, and the store's own handler navigates only while subscribed |
| Redux.Store.Dispatch | Blazor.Client.Redux/Store.cs:45-55 | the new history is Dispatched(old history), one notification is raised, the store stays valid |
| Redux.Store.Rewind | Blazor.Client.Redux/Store.cs:87-109 | returns the error of Rewound and changes nothing when it fails; otherwise the history becomes Rewound(old history) and one notification is raised |
| Redux.Store.RewindPastGuards | Blazor.Client.Redux/Store.cs:96-107 | past the guards, the loop and the restore give Rewound(old history) with one notification |
| Redux.Store.MoveToRedo | Blazor.Client.Redux/Store.cs:96-100 | the loop moves the last count past entries onto the redo stack, newest first |
| Redux.Store.FastForward | Blazor.Client.Redux/Store.cs:116-137 | returns the error of FastForwarded and changes nothing when it fails; otherwise the history becomes FastForwarded(old history) and one notification is raised |
| Redux.Store.ReplayRedoAndRestore | Blazor.Client.Redux/Store.cs:124-136 | past the guard, the loop and the restore give FastForwarded(old history), or fail with no current entry and no change |
| Redux.Store.ReplayRedo | Blazor.Client.Redux/Store.cs:124-128 | the loop pops the last steps redo entries and adds each through the bounded add, which under the bound appends them newest first |
| Redux.Store.LocationToNavigate | Blazor.Client.Redux/Store.cs:180-198 | the store navigates only with a helper and a getter, never to the cached location, and never with the fallback getter |
| Redux.Store.NavigationAfterChange | Blazor.Client.Redux/Store.cs:157 | a state change navigates only while the store's handler is subscribed |
| Redux.Store.InitializeLocationSynchronization | Blazor.Client.Redux/Store.cs:145-162 | changes nothing when already initialised, without a helper, or when suppressed; otherwise subscribes, chooses the configured or fallback getter and creator, and dispatches exactly one location action for the helper's current URI |
| Redux.Store.SynchronizeStateLocationWithUri | Blazor.Client.Redux/Store.cs:167-178 | a report equal to the cache, or without a creator, changes nothing; any other report becomes the cache and dispatches exactly one creator(uri); at most one navigation follows, never back to the reported URI |
| Redux.Store.SynchronizeUriLocationWithState | Blazor.Client.Redux/Store.cs:180-198 | navigates to LocationToNavigate(state, cache) when it is some location, updating the cache first, and otherwise changes nothing |
| Redux.Store.OnLocationChanged | Blazor.Client.Redux/Store.cs:152 | a helper event reaches the store only while subscribed; then a URI equal to the cache changes nothing, and any other URI becomes the cache and dispatches exactly one creator(uri) with one notification; at most one navigation follows, never back to the reported URI |
| Redux.Store.DisposeCore | Blazor.Client.Redux/Store.cs:204-223 | the first call marks the store disposed and unsubscribes when disposing with a helper; later calls change nothing |
| Redux.Store.Dispose | Blazor.Client.Redux/Store.cs:232-238 | the first call disposes and leaves no subscription; later calls change nothing |
| UncheckedArithmetic.Wrap | Blazor.Client.Redux/Store.cs:90 | unchecked int addition: the result is congruent to the sum modulo 2^32 and equals it when it fits |
| UncheckedArithmetic.RewindAsWritten | Blazor.Client.Redux/Store.cs:87-109 | Rewind with wrapped steps + 2 and steps + 1: guard failures leave the history unchanged, and a loop that runs past the last entry leaves an empty past with every entry on the redo stack |
| UncheckedArithmetic.RewindAsWrittenAgrees | Blazor.Client.Redux/Store.cs:87-109 | for every steps up to int.MaxValue - 2 the code as written behaves as Rewound |
| UncheckedArithmetic.RewindOverflowEmptiesHistory | Blazor.Client.Redux/Store.cs:90-104 | Rewind(int.MaxValue - 1) as written empties the past, breaks the invariant and throws, where Rewound refuses it |
| UncheckedArithmetic.AddAsWritten | Blazor.Client.Redux/Store.cs:68-80 | the bounded add with a wrapped depth + 1 throws exactly when it tries to drop from an empty list |
| UncheckedArithmetic.AddAsWrittenAgrees | Blazor.Client.Redux/Store.cs:68-80 | for every depth from 0 to int.MaxValue - 1 the code as written is History.Add |
| UncheckedArithmetic.MaxIntDepthBreaksConstruction | Blazor.Client.Redux/Store.cs:75 | with depth int.MaxValue the constructor's first add throws, where Initial records the initial state |
| Scenarios.ThreeIncrements | Blazor.Client.Redux/Store.cs:45-55 | three increments from 0 give state 3 and four past entries |
| Scenarios.RewindOneAfterThreeIncrements | Blazor.Client.Redux/Store.cs:87-109 | Rewind(1) after three increments gives state 1 with two redo entries, and a second Rewind(1) fails |
| Scenarios.DocumentedRewindOneAfterThreeIncrements | Blazor.Client.Redux/Store.cs:82-86 | the documented rewind of one step after three increments gives state 2 with one redo entry, and FastForward(1) undoes it |
| Scenarios.ReplayAfterRewindOne | Blazor.Client.Redux/Store.cs:116-137 | from there FastForward(1) gives 2 and FastForward(2) gives back the history after three increments |
| Scenarios.DepthOneKeepsTwoEntries | Blazor.Client.Redux/Store.cs:75-79 | with depth 1 two dispatches leave only the last two entries |
| Scenarios.DepthZeroKeepsCurrentEntry | Blazor.Client.Redux/Store.cs:75-79 | with depth 0 the past keeps the current entry; Rewind(0) fails and Rewind(-1) re-asserts the state |
| Scenarios.DisabledHistoryStillReduces | Blazor.Client.Redux/Store.cs:70-73 | with a null depth the state still reduces, nothing is recorded, and time travel fails |
| Scenarios.CounterStoreAfterThreeIncrements | Blazor.Client.Redux/Store.cs:33-55 | a store built with default options and dispatched three increments holds state 3 and four past entries |
| Scenarios.CounterStoreSession | Blazor.Client.Redux/Store.cs:87-137 | through the store, Rewind(1) shows 1, FastForward(1) shows 2, and after a dispatch FastForward(1) fails |

## Left out

- The `_syncRoot` lock and concurrent callers: every operation is atomic and sequential. Rewind and FastForward change the lists outside the lock, which matters only under concurrency.
- `HistoricStateEntry.Time`, which reads the clock; an entry is the pair (state, action).
- Reducer exceptions: the reducer and the location getter are arbitrary total functions.
- Subscribers to `OnStateChanged` other than the store's own handler, and `ReduxComponent.cs`: they are represented by the notification counter only.
- Re-entrant events: the URI helper's echo of a navigation is not modelled as a call back into the store.
- The no-echo and no-loop promises assume that the helper reports a navigation with exactly the string passed to `NavigateTo`. The location getter can return any string, a relative path for instance. If the helper then reports the absolute URI, the report differs from the cache and the store dispatches again. `SynchronizeStateLocationWithUri` promises only that a report equal to the cache changes nothing.
- The options object is not changed after the store is built: `Valid()` reads `maxHistoricalRecords` from the live options object, as the source reads it on every add. The server registration configures the options before it constructs the store. If a caller later changes the depth, the store's invariant need not hold, and the store's methods require it.
- `IUriHelper` itself: its current URI is a parameter of initialisation, and `NavigateTo` is recorded in a ghost log.
- The `(TAction)(object)` cast in the fallback creator: it is the `asAction` parameter and cannot fail here.
- Both `ExtensionMethods.cs` files (service registration): the options are a non-null object. The client registration can pass null options, and that case is not part of this model.
- The client-side `ReduxOptions` and `HistoricStateEntry` that `Store.cs` compiles against are not part of this model. The options class takes its defaults from `Blazor.Server.Redux/ReduxOptions.cs`, plus the optional `getLocation` field that `Store.cs:154` reads.
- Options.ReduxOptions.constructor: the depth is `Option<nat>`, so negative depths are not modelled. With a negative depth the first add already tries to drop from an empty list and the constructor throws.
- Redux.Store.Rewind: `steps` is an unbounded `int` with the corrected arithmetic; the 32-bit wrap-around of `steps + 2` is modelled separately in `UncheckedArithmetic.RewindAsWritten`.
- Redux.Store.AddHistoricStateEntry: the depth is unbounded, so `MaxHistoricalRecords + 1` does not wrap; the wrap at `int.MaxValue` is modelled separately in `UncheckedArithmetic.AddAsWritten`.
- Each list's count is an unbounded `nat`; the 2^31 - 1 element limit of a .NET list is not modelled.
- `ChangeLocationAction.cs` and `Delegates.cs` are folded into the datatypes and function types of `store.dfy`.

## Findings

| source | as written | input that shows it | evidently intended | confidence | as-written member | corrected member |
|---|---|---|---|---|---|---|
| Blazor.Client.Redux/Store.cs:82-96 | `Rewind` documents `steps` as the number of states (or dispatched actions) since the desired state, but the guard requires `steps + 2` entries and the loop moves `steps + 1` of them | three increments from 0, then `Rewind(1)`: one action was dispatched since the state 2, yet the store shows 1; `Rewind(0)` already undoes a dispatch, and the inverse of `Rewind(k)` is `FastForward(k + 1)` rather than `FastForward(k)` | `Rewind(steps)` moves exactly `steps` entries, lands on the state `steps` dispatches back, and is undone by `FastForward(steps)` | not executed; the comment at Store.cs:89 suggests the extra entry is deliberate, so the documentation may be the part in error | History.Rewound, Scenarios.RewindOneAfterThreeIncrements | History.RewoundBySteps |
| Blazor.Client.Redux/Store.cs:90-104 | the guard `_past.Count < steps + 2` and the count `steps + 1` use unchecked int arithmetic | `Rewind(int.MaxValue - 1)` on any store with history: `steps + 2` wraps to `int.MinValue`, the guard passes, the loop moves every past entry onto the redo stack, and `ElementAt(-1)` then throws, leaving an empty past | the request is refused as out of range and nothing changes | not executed; assumes the default unchecked C# arithmetic | UncheckedArithmetic.RewindOverflowEmptiesHistory | History.Rewound |
| Blazor.Client.Redux/Store.cs:75 | the test `_past.Count >= MaxHistoricalRecords + 1` uses unchecked int arithmetic | `MaxHistoricalRecords = int.MaxValue`: `max + 1` wraps to `int.MinValue`, so the constructor's first add calls `RemoveAt(0)` on an empty list and throws | a practically unbounded history that records the initial state | not executed; assumes the default unchecked C# arithmetic | UncheckedArithmetic.MaxIntDepthBreaksConstruction | History.Initial |
