/**
 * The two places where the store's bookkeeping does 32-bit int arithmetic
 * that C# evaluates unchecked (wrapping around) by default: the rewind guard
 * steps + 2 and loop count steps + 1 (Store.cs:90, 96), and the depth test
 * MaxHistoricalRecords + 1 (Store.cs:75). The functions here follow the code
 * as written, with that wrap-around; the History module holds the corrected
 * definitions the rest of the model uses, and the lemmas below show where
 * the two agree and the inputs where they part.
 */
module UncheckedArithmetic {
  import opened Wrappers
  import opened History

  const IntMin: int := -0x8000_0000
  const IntMax: int := 0x7FFF_FFFF

  newtype Int32 = x: int | -0x8000_0000 <= x < 0x8000_0000

  /** Unchecked int arithmetic: the Int32 congruent to x modulo 2^32. */
  function Wrap(x: int): (r: Int32)
    ensures (r as int - x) % 0x1_0000_0000 == 0
    ensures IntMin <= x <= IntMax ==> r as int == x
  {
    ((x - IntMin) % 0x1_0000_0000 + IntMin) as Int32
  }

  /** The outcome of a call that may throw part-way, with the history it leaves behind. */
  datatype Run<S, A> = Run(outcome: Outcome<StepError>, after: Snapshot<S, A>)

  /**
   * Rewind as written (Store.cs:87-109): the guard compares the count with
   * the wrapped steps + 2 and the loop runs for the wrapped steps + 1. When
   * the loop is asked to move at least as many entries as the past holds, it
   * empties the past, and the next read of its last entry throws.
   */
  function RewindAsWritten<S, A>(h: Snapshot<S, A>, steps: Int32): (r: Run<S, A>)
    ensures r.outcome.Fail? && r.outcome.error != NoCurrentEntry ==> r.after == h
    ensures r.outcome == Fail(NoCurrentEntry) ==> r.after.past == [] && r.after.future == h.future + Reversed(h.past)
    ensures r.outcome.Pass? ==> r.after.past != [] && r.after.state == Last(r.after.past).state
  {
    if |h.past| < Wrap(steps as int + 2) as int then Run(Fail(NotEnoughRecorded), h)
    else
      var count := Wrap(steps as int + 1) as int;
      if count < 0 then Run(Fail(NegativeCount), h)
      else if count >= |h.past| then Run(Fail(NoCurrentEntry), Snapshot(h.state, [], h.future + Reversed(h.past)))
      else
        var past := h.past[..|h.past| - count];
        Run(Pass, Snapshot(Last(past).state, past, h.future + Reversed(h.past[|h.past| - count..])))
  }

  /** Wherever steps + 2 does not overflow, the code as written is the corrected Rewound. */
  lemma RewindAsWrittenAgrees<S, A>(h: Snapshot<S, A>, steps: Int32)
    requires steps as int <= IntMax - 2
    ensures Rewound(h, steps as int).Success? ==> RewindAsWritten(h, steps) == Run(Pass, Rewound(h, steps as int).value)
    ensures Rewound(h, steps as int).Failure? ==> RewindAsWritten(h, steps) == Run(Fail(Rewound(h, steps as int).error), h)
  {
  }

  /**
   * Rewind(int.MaxValue - 1) on any recorded history: steps + 2 wraps to
   * int.MinValue, so the guard lets it through; the loop moves every past
   * entry onto the redo stack and the store then throws, left with no
   * current entry, which breaks the history invariant. The corrected Rewound
   * refuses the same request and changes nothing.
   */
  lemma RewindOverflowEmptiesHistory<S, A>(h: Snapshot<S, A>, max: Option<nat>)
    requires Inv(h, max) && max.Some? && |h.past| <= IntMax
    ensures RewindAsWritten(h, (IntMax - 1) as Int32) == Run(Fail(NoCurrentEntry), Snapshot(h.state, [], h.future + Reversed(h.past)))
    ensures !Inv(RewindAsWritten(h, (IntMax - 1) as Int32).after, max)
    ensures Rewound(h, IntMax - 1) == Failure(NotEnoughRecorded)
  {
  }

  /**
   * AddHistoricStateEntry as written (Store.cs:68-80) with an int depth: the
   * test compares the count with the wrapped depth + 1, and RemoveAt(0) on an
   * empty list throws (None here).
   */
  function AddAsWritten<S, A>(past: seq<Entry<S, A>>, max: Option<Int32>, e: Entry<S, A>): (r: Option<seq<Entry<S, A>>>)
    ensures max.None? ==> r == Some(past)
    ensures r.None? <==> max.Some? && past == [] && 0 >= Wrap(max.value as int + 1) as int
    ensures r.Some? && max.Some? ==> r.value != [] && Last(r.value) == e
  {
    match max
    case None => Some(past)
    case Some(m) =>
      if |past| >= Wrap(m as int + 1) as int then
        if past == [] then None else Some(past[1..] + [e])
      else Some(past + [e])
  }

  /** For every depth from 0 to int.MaxValue - 1 the code as written is the corrected Add. */
  lemma AddAsWrittenAgrees<S, A>(past: seq<Entry<S, A>>, m: Int32, e: Entry<S, A>)
    requires 0 <= m as int < IntMax
    ensures AddAsWritten(past, Some(m), e) == Some(Add(past, Some(m as nat), e))
  {
  }

  /**
   * A depth of int.MaxValue, the natural way to ask for a practically
   * unbounded history: depth + 1 wraps to int.MinValue, so the very first
   * add (in the constructor, on an empty list) calls RemoveAt(0) and throws.
   * The corrected Initial records the initial state for every depth.
   */
  lemma MaxIntDepthBreaksConstruction<S, A>(s0: S)
    ensures AddAsWritten<S, A>([], Some(IntMax as Int32), Entry(s0, None)).None?
    ensures Initial<S, A>(s0, Some(IntMax)).past == [Entry(s0, None)]
  {
  }
}
