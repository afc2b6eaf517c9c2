/**
 * The store's undo/redo history as values: the current state together with
 * the list of past entries (oldest first, the current entry last) and the
 * redo stack (the next entry to replay last). Every operation of the Store
 * class on its history is proved equal to one of the functions here, and the
 * promises of the history (bounded depth, round trips, no redo after a new
 * dispatch) are proved about these functions.
 */
module History {
  import opened Wrappers

  /** A historic state entry without its timestamp: the state and the action that produced it (None for the initial state). */
  datatype Entry<S, A> = Entry(state: S, action: Option<A>)

  /** The store's current state with its two history lists. */
  datatype Snapshot<S, A> = Snapshot(state: S, past: seq<Entry<S, A>>, future: seq<Entry<S, A>>)

  /**
   * Why a rewind or fast-forward fails. The source throws an
   * ArgumentOutOfRangeException in all three cases.
   */
  datatype StepError =
    | NotEnoughRecorded   // the explicit guard on the list length
    | NegativeCount       // Enumerable.Range refuses a negative count
    | NoCurrentEntry      // ElementAt(Count - 1) on an empty past

  function Last<T>(s: seq<T>): T
    requires s != []
  {
    s[|s| - 1]
  }

  /** The elements of s, newest first. */
  function Reversed<T>(s: seq<T>): (r: seq<T>)
    ensures |r| == |s|
  {
    if s == [] then [] else Reversed(s[1..]) + [s[0]]
  }

  /** Position i of the reversed sequence holds the i-th element from the end. */
  lemma {:induction false} ReversedAt<T>(s: seq<T>, i: nat)
    requires i < |s|
    ensures Reversed(s)[i] == s[|s| - 1 - i]
  {
    if i < |s| - 1 {
      ReversedAt(s[1..], i);
    }
  }

  lemma ReversedTwice<T>(s: seq<T>)
    ensures Reversed(Reversed(s)) == s
  {
    forall i | 0 <= i < |s|
      ensures Reversed(Reversed(s))[i] == s[i]
    {
      ReversedAt(Reversed(s), i);
      ReversedAt(s, |s| - 1 - i);
    }
  }

  /** Taking one more element off the end of s puts it last in the reversed suffix. */
  lemma ReversedSuffixStep<T>(s: seq<T>, j: nat)
    requires 0 < j <= |s|
    ensures Reversed(s[j - 1..]) == Reversed(s[j..]) + [s[j - 1]]
  {
  }

  /**
   * Appends e to the past entries (Store.AddHistoricStateEntry): nothing
   * happens when record keeping is off; otherwise, once the list holds
   * max + 1 entries, the oldest one is dropped first.
   */
  function Add<S, A>(past: seq<Entry<S, A>>, max: Option<nat>, e: Entry<S, A>): (r: seq<Entry<S, A>>)
    ensures max.None? ==> r == past
    ensures max.Some? ==> r != [] && Last(r) == e
    // below the bound nothing is evicted; at or above it exactly the oldest entry goes
    ensures max.Some? && |past| <= max.value ==> r == past + [e]
    ensures max.Some? && |past| >= max.value + 1 ==> r == past[1..] + [e]
    ensures max.Some? && |past| <= max.value + 1 ==> |r| <= max.value + 1
  {
    match max
    case None => past
    case Some(m) => (if |past| >= m + 1 then past[1..] else past) + [e]
  }

  /** Adds the entries of es one after the other, each through the bounded Add. */
  function AddAll<S, A>(past: seq<Entry<S, A>>, max: Option<nat>, es: seq<Entry<S, A>>): (r: seq<Entry<S, A>>)
    ensures max.None? ==> r == past
    ensures max.Some? && |past| + |es| <= max.value + 1 ==> r == past + es
    ensures max.Some? && |past| <= max.value + 1 ==> |r| <= max.value + 1
    decreases |es|
  {
    if es == [] then past
    else
      assert es == es[..|es| - 1] + [es[|es| - 1]];
      Add(AddAll(past, max, es[..|es| - 1]), max, es[|es| - 1])
  }

  /**
   * The bounded add keeps the newest entries in order: adding es one at a
   * time to a past within the bound leaves exactly the last min(|past| +
   * |es|, max + 1) entries of past + es.
   */
  lemma {:induction false} AddAllKeepsNewest<S, A>(past: seq<Entry<S, A>>, m: nat, es: seq<Entry<S, A>>)
    requires |past| <= m + 1
    ensures var all := past + es;
      && |AddAll(past, Some(m), es)| == (if |all| <= m + 1 then |all| else m + 1)
      && AddAll(past, Some(m), es) == all[|all| - |AddAll(past, Some(m), es)|..]
    decreases |es|
  {
    if es != [] {
      var init := es[..|es| - 1];
      var e := es[|es| - 1];
      AddAllKeepsNewest(past, m, init);
      var before := AddAll(past, Some(m), init);
      var all := past + es;
      assert es == init + [e];
      assert all == (past + init) + [e];
      if |before| == m + 1 {
        assert before[1..] + [e] == all[|all| - (m + 1)..];
      }
    }
  }

  /**
   * What the store keeps true between operations. With record keeping off
   * both lists stay empty. With it on, the past holds the current entry
   * last, and past and future together fit within max + 1 entries (which is
   * what keeps a fast-forward from evicting anything).
   */
  ghost predicate Inv<S, A>(h: Snapshot<S, A>, max: Option<nat>)
  {
    match max
    case None => h.past == [] && h.future == []
    case Some(m) => h.past != [] && h.state == Last(h.past).state && |h.past| + |h.future| <= m + 1
  }

  /**
   * Under Inv, a non-empty redo stack means history is kept, and replaying
   * any part of it never overflows the bound.
   */
  lemma ReplayFits<S, A>(h: Snapshot<S, A>, max: Option<nat>, steps: nat)
    requires Inv(h, max) && 0 < steps <= |h.future|
    ensures max.Some? && |h.past| + steps <= max.value + 1
  {
  }

  /** The history a freshly constructed store starts with (Store.cs:33-43). */
  function Initial<S, A>(s0: S, max: Option<nat>): (h: Snapshot<S, A>)
    ensures Inv(h, max)
    ensures h.state == s0 && h.future == []
    ensures max.Some? ==> h.past == [Entry(s0, None)]
    ensures max.None? ==> h.past == []
  {
    Snapshot(s0, Add([], max, Entry(s0, None)), [])
  }

  /** The history after dispatching a through reducer (Store.cs:45-55). */
  function Dispatched<S, A>(h: Snapshot<S, A>, max: Option<nat>, reducer: (S, A) -> S, a: A): (r: Snapshot<S, A>)
    ensures r.state == reducer(h.state, a)
    ensures r.past == Add(h.past, max, Entry(r.state, Some(a)))
    ensures r.future == []
    ensures Inv(h, max) ==> Inv(r, max)
  {
    var s := reducer(h.state, a);
    Snapshot(s, Add(h.past, max, Entry(s, Some(a))), [])
  }

  /**
   * The history after Rewind(steps) (Store.cs:87-109): steps + 1 entries
   * leave the end of the past and go onto the redo stack newest first, and
   * the state becomes the new last past entry's state.
   */
  function Rewound<S, A>(h: Snapshot<S, A>, steps: int): (r: Result<Snapshot<S, A>, StepError>)
    ensures r.Failure? <==> |h.past| < steps + 2 || steps < -1
    ensures r.Failure? ==> r.error == (if |h.past| < steps + 2 then NotEnoughRecorded else NegativeCount)
    ensures r.Success? ==>
      && r.value.past == h.past[..|h.past| - (steps + 1)]
      && r.value.future == h.future + Reversed(h.past[|h.past| - (steps + 1)..])
      && r.value.past != [] && r.value.state == Last(r.value.past).state
      && |r.value.past| + |r.value.future| == |h.past| + |h.future|
    // the entry just after the new current state is the next one to redo
    ensures r.Success? && steps >= 0 ==> Last(r.value.future) == h.past[|h.past| - steps - 1]
  {
    if |h.past| < steps + 2 then Failure(NotEnoughRecorded)
    else if steps + 1 < 0 then Failure(NegativeCount)
    else
      var k := steps + 1;
      var past := h.past[..|h.past| - k];
      assert steps >= 0 ==> Last(Reversed(h.past[|h.past| - k..])) == h.past[|h.past| - k] by {
        if steps >= 0 { ReversedAt(h.past[|h.past| - k..], k - 1); }
      }
      Success(Snapshot(Last(past).state, past, h.future + Reversed(h.past[|h.past| - k..])))
  }

  /**
   * The history after FastForward(steps) (Store.cs:116-137): steps entries
   * are popped off the redo stack and added to the past through the bounded
   * Add, and the state becomes the last past entry's state. Under Inv no
   * entry is evicted on the way.
   */
  function FastForwarded<S, A>(h: Snapshot<S, A>, max: Option<nat>, steps: int): (r: Result<Snapshot<S, A>, StepError>)
    requires Inv(h, max)
    ensures r.Failure? <==> |h.future| < steps || steps < 0 || h.past == []
    ensures r.Failure? ==> r.error == (if |h.future| < steps then NotEnoughRecorded else if steps < 0 then NegativeCount else NoCurrentEntry)
    ensures r.Success? ==>
      && r.value.past == h.past + Reversed(h.future[|h.future| - steps..])
      && r.value.future == h.future[..|h.future| - steps]
      && r.value.state == Last(r.value.past).state
    ensures r.Success? ==> Inv(r.value, max)
  {
    if |h.future| < steps then Failure(NotEnoughRecorded)
    else if steps < 0 then Failure(NegativeCount)
    else
      var past := h.past + Reversed(h.future[|h.future| - steps..]);
      if past == [] then Failure(NoCurrentEntry)
      else Success(Snapshot(Last(past).state, past, h.future[..|h.future| - steps]))
  }

  /**
   * FastForwarded appends the replayed entries in one go; under Inv that is
   * the same as adding them one at a time through the bounded Add, as the
   * loop at Store.cs:124-128 does.
   */
  lemma FastForwardedReplaysByAdd<S, A>(h: Snapshot<S, A>, max: Option<nat>, steps: nat)
    requires Inv(h, max) && steps <= |h.future|
    ensures var past := AddAll(h.past, max, Reversed(h.future[|h.future| - steps..]));
      FastForwarded(h, max, steps) ==
        if past == [] then Failure(NoCurrentEntry) else Success(Snapshot(Last(past).state, past, h.future[..|h.future| - steps]))
  {
  }

  /** A successful rewind keeps the invariant. */
  lemma RewindKeepsInv<S, A>(h: Snapshot<S, A>, max: Option<nat>, steps: int)
    requires Inv(h, max) && Rewound(h, steps).Success?
    ensures Inv(Rewound(h, steps).value, max)
  {
  }

  /** With record keeping off, every rewind and every fast-forward fails. */
  lemma HistoryDisabledTimeTravelFails<S, A>(h: Snapshot<S, A>, steps: int)
    requires Inv(h, None)
    ensures Rewound(h, steps).Failure?
    ensures FastForwarded(h, None, steps).Failure?
    ensures steps == 0 ==> FastForwarded(h, None, steps) == Failure(NoCurrentEntry)
  {
  }

  /** Rewind(k) is undone by FastForward(k + 1), restoring state, past and future exactly. */
  lemma {:induction false} RewindThenFastForward<S, A>(h: Snapshot<S, A>, max: Option<nat>, k: nat)
    requires Inv(h, max) && Rewound(h, k).Success?
    ensures FastForwarded(Rewound(h, k).value, max, k + 1) == Success(h)
  {
    var n := |h.past|;
    var suffix := h.past[n - (k + 1)..];
    var h1 := Rewound(h, k).value;
    RewindKeepsInv(h, max, k);
    assert h1.future[|h1.future| - (k + 1)..] == Reversed(suffix);
    ReversedTwice(suffix);
    assert h1.future[..|h1.future| - (k + 1)] == h.future;
    assert h1.past + suffix == h.past;
  }

  /** FastForward(k) for k >= 1 is undone by Rewind(k - 1). */
  lemma {:induction false} FastForwardThenRewind<S, A>(h: Snapshot<S, A>, max: Option<nat>, k: nat)
    requires Inv(h, max) && k >= 1 && FastForwarded(h, max, k).Success?
    ensures Rewound(FastForwarded(h, max, k).value, k - 1) == Success(h)
  {
    var m := |h.future|;
    var suffix := h.future[m - k..];
    var h1 := FastForwarded(h, max, k).value;
    assert h1.past[..|h1.past| - k] == h.past;
    assert h1.past[|h1.past| - k..] == Reversed(suffix);
    ReversedTwice(suffix);
    assert h1.future + suffix == h.future;
  }

  /**
   * Rewind(steps) lands steps + 1 entries back from the current one: with
   * the past p, the new state is that of p[|p| - steps - 2], the state
   * before the last steps + 1 dispatches.
   */
  lemma RewindLandsStepsPlusOneBack<S, A>(h: Snapshot<S, A>, steps: int)
    requires Rewound(h, steps).Success?
    ensures Rewound(h, steps).value.state == h.past[|h.past| - steps - 2].state
  {
    var p := Rewound(h, steps).value.past;
    assert Last(p) == h.past[|h.past| - steps - 2];
  }

  /**
   * The rewind its documentation describes (Store.cs:82-86): steps is the
   * number of states since the desired one, so exactly steps entries leave
   * the end of the past, and the request fails when the past does not hold
   * the current entry plus steps earlier ones.
   */
  function RewoundBySteps<S, A>(h: Snapshot<S, A>, steps: int): (r: Result<Snapshot<S, A>, StepError>)
    ensures r.Failure? <==> |h.past| < steps + 1 || steps < 0
    ensures r.Failure? ==> r.error == (if |h.past| < steps + 1 then NotEnoughRecorded else NegativeCount)
    ensures r.Success? ==>
      && r.value.past == h.past[..|h.past| - steps]
      && r.value.future == h.future + Reversed(h.past[|h.past| - steps..])
      && r.value.past != [] && r.value.state == Last(r.value.past).state
  {
    if |h.past| < steps + 1 then Failure(NotEnoughRecorded)
    else if steps < 0 then Failure(NegativeCount)
    else
      var past := h.past[..|h.past| - steps];
      Success(Snapshot(Last(past).state, past, h.future + Reversed(h.past[|h.past| - steps..])))
  }

  /** The documented rewind lands exactly steps entries back from the current one. */
  lemma RewoundByStepsLandsStepsBack<S, A>(h: Snapshot<S, A>, steps: int)
    requires RewoundBySteps(h, steps).Success?
    ensures RewoundBySteps(h, steps).value.state == h.past[|h.past| - steps - 1].state
  {
    var p := RewoundBySteps(h, steps).value.past;
    assert Last(p) == h.past[|h.past| - steps - 1];
  }

  /** The code's Rewind(steps) is the documented rewind of steps + 1. */
  lemma RewoundIsRewoundByStepsPlusOne<S, A>(h: Snapshot<S, A>, steps: int)
    ensures Rewound(h, steps) == RewoundBySteps(h, steps + 1)
  {
  }

  /** The documented rewind of k is undone by FastForward(k), restoring state, past and future exactly. */
  lemma {:induction false} RewoundByStepsThenFastForward<S, A>(h: Snapshot<S, A>, max: Option<nat>, k: nat)
    requires Inv(h, max) && RewoundBySteps(h, k).Success?
    ensures Inv(RewoundBySteps(h, k).value, max)
    ensures FastForwarded(RewoundBySteps(h, k).value, max, k) == Success(h)
  {
    RewoundIsRewoundByStepsPlusOne(h, k - 1);
    if k == 0 {
      assert h.past[..|h.past| - 0] == h.past && h.future + Reversed(h.past[|h.past| - 0..]) == h.future;
      assert max.Some? && RewoundBySteps(h, 0).value == h;
      assert h.past + Reversed(h.future[|h.future| - 0..]) == h.past && h.future[..|h.future| - 0] == h.future;
    } else {
      RewindKeepsInv(h, max, k - 1);
      RewindThenFastForward(h, max, k - 1);
    }
  }

  /** FastForward(k) is undone by the documented rewind of k. */
  lemma {:induction false} FastForwardThenRewoundBySteps<S, A>(h: Snapshot<S, A>, max: Option<nat>, k: nat)
    requires Inv(h, max) && FastForwarded(h, max, k).Success?
    ensures RewoundBySteps(FastForwarded(h, max, k).value, k) == Success(h)
  {
    var h1 := FastForwarded(h, max, k).value;
    RewoundIsRewoundByStepsPlusOne(h1, k - 1);
    if k == 0 {
      assert h.past + Reversed(h.future[|h.future| - 0..]) == h.past;
      assert h.future[..|h.future| - 0] == h.future;
      assert max.Some? && h1 == h;
      assert h.future + Reversed(h.past[|h.past| - 0..]) == h.future;
    } else {
      FastForwardThenRewind(h, max, k);
    }
  }

  /** After a dispatch there is nothing to redo. */
  lemma DispatchErasesRedo<S, A>(h: Snapshot<S, A>, max: Option<nat>, reducer: (S, A) -> S, a: A, n: int)
    requires Inv(h, max) && n >= 1
    ensures FastForwarded(Dispatched(h, max, reducer, a), max, n) == Failure(NotEnoughRecorded)
  {
  }

  /** The reducer folded left over the actions, starting from s. */
  function Fold<S, A>(reducer: (S, A) -> S, s: S, actions: seq<A>): S
    decreases |actions|
  {
    if actions == [] then s
    else reducer(Fold(reducer, s, actions[..|actions| - 1]), actions[|actions| - 1])
  }

  /** The history after dispatching the actions one after the other. */
  function DispatchedAll<S, A>(h: Snapshot<S, A>, max: Option<nat>, reducer: (S, A) -> S, actions: seq<A>): Snapshot<S, A>
    decreases |actions|
  {
    if actions == [] then h
    else Dispatched(DispatchedAll(h, max, reducer, actions[..|actions| - 1]), max, reducer, actions[|actions| - 1])
  }

  /**
   * Any run of dispatches leaves the reducer folded over the actions as the
   * state, keeps the invariant (so the past never exceeds max + 1 entries)
   * and leaves nothing to redo.
   */
  lemma {:induction false} DispatchedAllFolds<S, A>(h: Snapshot<S, A>, max: Option<nat>, reducer: (S, A) -> S, actions: seq<A>)
    requires Inv(h, max)
    ensures DispatchedAll(h, max, reducer, actions).state == Fold(reducer, h.state, actions)
    ensures Inv(DispatchedAll(h, max, reducer, actions), max)
    ensures max.Some? ==> |DispatchedAll(h, max, reducer, actions).past| <= max.value + 1
    ensures actions != [] ==> DispatchedAll(h, max, reducer, actions).future == []
  {
    if actions != [] {
      DispatchedAllFolds(h, max, reducer, actions[..|actions| - 1]);
    }
  }
}
