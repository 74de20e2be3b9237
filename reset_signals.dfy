/**
 * The first pass of `resetActiveSignals`: drop every signal of an existing
 * line that the user no longer wants. The source walks the list `signals`
 * with a Python `for` loop and removes the current element from that same
 * list; the list iterator advances by index, so the element that slides into
 * the freed slot is never looked at. Both the loop as written and the pass it
 * is evidently meant to be are modelled here; the document uses the latter.
 */
module ResetSignals {

  /** (output signal name, input signal name). */
  type SignalPair = (string, string)

  /**
   * The loop as written, from iterator position `i` over the current list
   * `lst`: returns the pairs it unlinks, in order, and the list it leaves.
   */
  function IterateRemoving(lst: seq<SignalPair>, i: nat, keep: seq<SignalPair>): (r: (seq<SignalPair>, seq<SignalPair>))
    decreases |lst| - i
  {
    if i >= |lst| then ([], lst)
    else if lst[i] !in keep then
      var rest := IterateRemoving(lst[..i] + lst[i + 1..], i + 1, keep);
      ([lst[i]] + rest.0, rest.1)
    else IterateRemoving(lst, i + 1, keep)
  }

  /** orngDoc.py's removal loop exactly as it runs on a Python list. */
  function RemovalPassAsWritten(signals: seq<SignalPair>, keep: seq<SignalPair>): (r: (seq<SignalPair>, seq<SignalPair>))
  {
    IterateRemoving(signals, 0, keep)
  }

  /**
   * Two consecutive unwanted signals: the loop unlinks the first and never
   * looks at the second, which stays linked although it is not wanted.
   */
  lemma AsWrittenSkipsNeighbour()
    ensures var p, q := ("Examples", "Data"), ("Classifier", "Learner");
            RemovalPassAsWritten([p, q], []) == ([p], [q])
  {
    var p, q := ("Examples", "Data"), ("Classifier", "Learner");
    var lst := [p, q];
    assert lst[0] !in [];
    assert lst[..0] + lst[1..] == [q];
    var none: seq<SignalPair> := [];
    assert IterateRemoving([q], 1, none) == ([], [q]);
    assert [p] + none == [p];
    assert IterateRemoving(lst, 0, none) == ([p] + none, [q]);
  }

  function Unwanted(signals: seq<SignalPair>, keep: seq<SignalPair>): (r: seq<SignalPair>)
    ensures forall x :: x in r <==> x in signals && x !in keep
    ensures |r| <= |signals|
  {
    if signals == [] then []
    else (if signals[0] !in keep then [signals[0]] else []) + Unwanted(signals[1..], keep)
  }

  function Wanted(signals: seq<SignalPair>, keep: seq<SignalPair>): (r: seq<SignalPair>)
    ensures forall x :: x in r <==> x in signals && x in keep
    ensures |r| <= |signals|
  {
    if signals == [] then []
    else (if signals[0] in keep then [signals[0]] else []) + Wanted(signals[1..], keep)
  }

  /**
   * The intended pass: every signal not in `keep` is unlinked, and the list
   * left for the second pass holds exactly the signals that are kept.
   */
  function RemovalPass(signals: seq<SignalPair>, keep: seq<SignalPair>): (r: (seq<SignalPair>, seq<SignalPair>))
    ensures forall x :: x in r.0 <==> x in signals && x !in keep
    ensures forall x :: x in r.1 <==> x in signals && x in keep
    ensures |r.0| + |r.1| == |signals|
  {
    SplitSizes(signals, keep);
    (Unwanted(signals, keep), Wanted(signals, keep))
  }

  lemma {:induction false} SplitSizes(signals: seq<SignalPair>, keep: seq<SignalPair>)
    ensures |Unwanted(signals, keep)| + |Wanted(signals, keep)| == |signals|
  {
    if signals != [] {
      SplitSizes(signals[1..], keep);
    }
  }
}
