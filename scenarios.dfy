/**
 * Concrete runs of the history with a counter: the state is an int and each
 * action adds its amount to it. They pin down the off-by-one conventions of
 * Rewind and FastForward and the effect of the depth setting.
 */
module Scenarios {
  import opened Wrappers
  import opened History
  import opened Options
  import opened Redux

  function Counter(s: int, a: int): int
  {
    s + a
  }

  /** The history after three increments from 0 with the default depth. */
  lemma ThreeIncrements()
    ensures DispatchedAll(Initial<int, int>(0, Some(20)), Some(20), Counter, [1, 1, 1])
         == Snapshot(3, [Entry(0, None), Entry(1, Some(1)), Entry(2, Some(1)), Entry(3, Some(1))], [])
  {
    var e0, e1, e2, e3 := Entry(0, None), Entry(1, Some(1)), Entry(2, Some(1)), Entry(3, Some(1));
    var h0 := Initial<int, int>(0, Some(20));
    assert h0 == Snapshot(0, [e0], []);
    var h1 := Dispatched(h0, Some(20), Counter, 1);
    assert h1 == Snapshot(1, [e0, e1], []);
    var h2 := Dispatched(h1, Some(20), Counter, 1);
    assert h2 == Snapshot(2, [e0, e1, e2], []);
    assert Dispatched(h2, Some(20), Counter, 1) == Snapshot(3, [e0, e1, e2, e3], []);
    assert [1, 1, 1][..2] == [1, 1] && [1, 1][..1] == [1] && [1][..0] == [];
    assert DispatchedAll(h0, Some(20), Counter, [1]) == h1;
    assert DispatchedAll(h0, Some(20), Counter, [1, 1]) == h2;
  }

  /**
   * Rewind(1) after three increments: two entries move to the redo stack,
   * newest first, and the state goes back to 1 (the state after the first
   * increment, not after the second); a second Rewind(1) has too few
   * entries.
   */
  lemma RewindOneAfterThreeIncrements()
    ensures var h3 := Snapshot(3, [Entry(0, None), Entry(1, Some(1)), Entry(2, Some(1)), Entry(3, Some(1))], []);
      var h1 := Snapshot(1, [Entry(0, None), Entry(1, Some(1))], [Entry(3, Some(1)), Entry(2, Some(1))]);
      && Rewound(h3, 1) == Success(h1)
      && Rewound(h1, 1) == Failure(NotEnoughRecorded)
  {
    var e0, e1, e2, e3 := Entry(0, None), Entry(1, Some(1)), Entry(2, Some(1)), Entry(3, Some(1));
    var h3 := Snapshot(3, [e0, e1, e2, e3], []);
    assert Reversed(h3.past[2..]) == [e3, e2] by {
      ReversedAt(h3.past[2..], 0);
      ReversedAt(h3.past[2..], 1);
    }
    assert h3.past[..2] == [e0, e1];
    assert h3.future + [e3, e2] == [e3, e2];
  }

  /**
   * The documented rewind of one step after three increments goes back to 2,
   * the state one dispatch before the current one, and FastForward(1) undoes it.
   */
  lemma DocumentedRewindOneAfterThreeIncrements()
    ensures var h3 := Snapshot(3, [Entry(0, None), Entry(1, Some(1)), Entry(2, Some(1)), Entry(3, Some(1))], []);
      && RewoundBySteps(h3, 1) == Success(Snapshot(2, [Entry(0, None), Entry(1, Some(1)), Entry(2, Some(1))], [Entry(3, Some(1))]))
      && FastForwarded(RewoundBySteps(h3, 1).value, Some(20), 1) == Success(h3)
  {
    var e0, e1, e2, e3 := Entry(0, None), Entry(1, Some(1)), Entry(2, Some(1)), Entry(3, Some(1));
    var h3 := Snapshot(3, [e0, e1, e2, e3], []);
    assert Reversed(h3.past[3..]) == [e3] by {
      ReversedAt(h3.past[3..], 0);
    }
    assert h3.past[..3] == [e0, e1, e2];
    RewoundByStepsThenFastForward(h3, Some(20), 1);
  }

  /** From there FastForward(1) replays to 2, and FastForward(2) replays to 3 with nothing left to redo. */
  lemma ReplayAfterRewindOne()
    ensures var h1 := Snapshot(1, [Entry(0, None), Entry(1, Some(1))], [Entry(3, Some(1)), Entry(2, Some(1))]);
      && FastForwarded(h1, Some(20), 1) == Success(Snapshot(2, [Entry(0, None), Entry(1, Some(1)), Entry(2, Some(1))], [Entry(3, Some(1))]))
      && FastForwarded(h1, Some(20), 2) == Success(Snapshot(3, [Entry(0, None), Entry(1, Some(1)), Entry(2, Some(1)), Entry(3, Some(1))], []))
  {
    var e0, e1, e2, e3 := Entry(0, None), Entry(1, Some(1)), Entry(2, Some(1)), Entry(3, Some(1));
    var h1 := Snapshot(1, [e0, e1], [e3, e2]);
    assert Reversed(h1.future[1..]) == [e2] by {
      ReversedAt(h1.future[1..], 0);
    }
    assert Reversed(h1.future[0..]) == [e2, e3] by {
      ReversedAt(h1.future[0..], 0);
      ReversedAt(h1.future[0..], 1);
    }
    assert h1.future[..1] == [e3] && h1.future[..0] == [];
    assert h1.past + [e2] == [e0, e1, e2];
    assert h1.past + [e2, e3] == [e0, e1, e2, e3];
  }

  /** With depth 1 the past never holds more than the current entry and the one before it. */
  lemma DepthOneKeepsTwoEntries()
    ensures var h0 := Initial<int, int>(0, Some(1));
      var h2 := DispatchedAll(h0, Some(1), Counter, [5, 7]);
      && |h0.past| == 1
      && h2.past == [Entry(5, Some(5)), Entry(12, Some(7))]
      && Rewound(h2, 0).Success? && Rewound(h2, 0).value.state == 5
      && Rewound(h2, 1) == Failure(NotEnoughRecorded)
  {
  }

  /**
   * With depth 0 the past still keeps the current entry, so a store can
   * re-assert its state with Rewind(-1) but never rewind.
   */
  lemma DepthZeroKeepsCurrentEntry()
    ensures var h1 := DispatchedAll(Initial<int, int>(0, Some(0)), Some(0), Counter, [4]);
      && h1.past == [Entry(4, Some(4))]
      && Rewound(h1, 0) == Failure(NotEnoughRecorded)
      && Rewound(h1, -1) == Success(h1)
  {
    assert [4][..0] == [];
    var h1 := Dispatched(Initial<int, int>(0, Some(0)), Some(0), Counter, 4);
    assert h1.past[..|h1.past|] == h1.past && h1.past[|h1.past|..] == [];
    assert DispatchedAll(Initial<int, int>(0, Some(0)), Some(0), Counter, [4]) == Dispatched(Initial(0, Some(0)), Some(0), Counter, 4);
  }

  /** With record keeping off the counter still counts, but there is nothing to go back to. */
  lemma DisabledHistoryStillReduces()
    ensures var h2 := DispatchedAll(Initial<int, int>(0, None), None, Counter, [2, 3]);
      && h2 == Snapshot(5, [], [])
      && Rewound(h2, 0) == Failure(NotEnoughRecorded)
      && FastForwarded(h2, None, 0) == Failure(NoCurrentEntry)
  {
  }

  /** A fresh Store with default options and no URI helper, after three increments from 0. */
  method CounterStoreAfterThreeIncrements() returns (store: Store<int, int>)
    ensures fresh(store) && fresh(store.options) && store.Valid()
    ensures store.options.maxHistoricalRecords == Some(20) && !store.syncAttached
    ensures store.Snap() == Snapshot(3, [Entry(0, None), Entry(1, Some(1)), Entry(2, Some(1)), Entry(3, Some(1))], [])
  {
    var options := new ReduxOptions<int, int>();
    store := new Store<int, int>(0, Counter, options, (c: ChangeLocationAction) => 0);
    var e0, e1, e2, e3 := Entry(0, None), Entry(1, Some(1)), Entry(2, Some(1)), Entry(3, Some(1));
    store.Dispatch(1);
    assert store.Snap() == Snapshot(1, [e0, e1], []);
    store.Dispatch(1);
    assert store.Snap() == Snapshot(2, [e0, e1, e2], []);
    store.Dispatch(1);
  }

  /**
   * The counter run through the Store: after three increments, Rewind(1)
   * shows 1, FastForward(1) shows 2, and after a further dispatch there is
   * nothing to fast-forward.
   */
  method CounterStoreSession() returns (afterRewind: int, afterReplay: int, redo: Outcome<StepError>)
    ensures afterRewind == 1 && afterReplay == 2
    ensures redo == Fail(NotEnoughRecorded)
  {
    var store := CounterStoreAfterThreeIncrements();
    var e0, e1, e2, e3 := Entry(0, None), Entry(1, Some(1)), Entry(2, Some(1)), Entry(3, Some(1));
    RewindOneAfterThreeIncrements();
    var r := store.Rewind(1);
    assert store.Snap() == Snapshot(1, [e0, e1], [e3, e2]);
    afterRewind := store.state;
    ReplayAfterRewindOne();
    r := store.FastForward(1);
    afterReplay := store.state;
    store.Dispatch(5);
    redo := store.FastForward(1);
  }
}
