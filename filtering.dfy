/**
 * The listing loop both services run over the store's entries: each entry
 * is stamped into an item and a decision is taken about it; kept items are
 * collected in entry order, and a decision that throws aborts the listing.
 */
module Filtering {
  import opened Wrappers

  datatype Decision = Keep | Skip | Throw

  datatype Step<T> = Step(decision: Decision, item: T)

  /** `prefix` put in front of a collected listing; a failed listing stays failed. */
  function Prepend<T>(prefix: seq<T>, rest: Option<seq<T>>): Option<seq<T>>
  {
    match rest
    case None => None
    case Some(items) => Some(prefix + items)
  }

  /** The items kept by a left-to-right pass, or None when a step throws. */
  function Collect<T>(steps: seq<Step<T>>): Option<seq<T>>
  {
    if steps == [] then Some([])
    else
      match steps[0].decision
      case Throw => None
      case Skip => Collect(steps[1..])
      case Keep => Prepend([steps[0].item], Collect(steps[1..]))
  }

  /** Every stamped item, kept or not, in entry order. */
  function Items<T>(steps: seq<Step<T>>): (r: seq<T>)
    ensures |r| == |steps| && forall i :: 0 <= i < |steps| ==> r[i] == steps[i].item
  {
    seq(|steps|, i requires 0 <= i < |steps| => steps[i].item)
  }

  /** `a` is `b` with some elements left out, the rest in the same order. */
  ghost predicate IsSubsequence<T>(a: seq<T>, b: seq<T>)
    decreases |b|
  {
    if a == [] then true
    else if b == [] then false
    else (a[0] == b[0] && IsSubsequence(a[1..], b[1..])) || IsSubsequence(a, b[1..])
  }

  lemma PrependTwice<T>(p: seq<T>, q: seq<T>, rest: Option<seq<T>>)
    ensures Prepend(p, Prepend(q, rest)) == Prepend(p + q, rest)
  {
    if rest.Some? {
      assert p + (q + rest.value) == (p + q) + rest.value;
    }
  }

  /** A listing fails exactly when one of its steps throws. */
  lemma {:induction false} CollectFailsIffSomeThrow<T>(steps: seq<Step<T>>)
    ensures Collect(steps).None? <==> exists i :: 0 <= i < |steps| && steps[i].decision == Throw
  {
    if steps != [] {
      CollectFailsIffSomeThrow(steps[1..]);
      if steps[0].decision != Throw {
        forall i | 1 <= i < |steps| ensures steps[i] == steps[1..][i - 1] { }
        if exists i :: 0 <= i < |steps| && steps[i].decision == Throw {
          var i :| 0 <= i < |steps| && steps[i].decision == Throw;
          assert steps[1..][i - 1].decision == Throw;
        }
      }
    }
  }

  /** The kept items are the stamped items with some left out, in the same order. */
  lemma {:induction false} CollectIsOrderedSubsequence<T>(steps: seq<Step<T>>)
    requires Collect(steps).Some?
    ensures IsSubsequence(Collect(steps).value, Items(steps))
  {
    if steps != [] {
      var items := Items(steps);
      assert items[1..] == Items(steps[1..]);
      CollectIsOrderedSubsequence(steps[1..]);
      var rest := Collect(steps[1..]).value;
      if steps[0].decision == Keep {
        var kept := Collect(steps).value;
        assert kept == [steps[0].item] + rest;
        assert kept[0] == items[0] && kept[1..] == rest;
      } else {
        SubsequenceDropHead(rest, items);
      }
    }
  }

  lemma SubsequenceDropHead<T>(a: seq<T>, b: seq<T>)
    requires b != [] && IsSubsequence(a, b[1..])
    ensures IsSubsequence(a, b)
  {
  }

  /**
   * An item is in the listing exactly when some step kept it: every kept
   * step's item is listed, and every listed item comes from a kept step.
   */
  lemma {:induction false} CollectKeepsExactlyKept<T>(steps: seq<Step<T>>)
    requires Collect(steps).Some?
    ensures forall i :: 0 <= i < |steps| && steps[i].decision == Keep ==> steps[i].item in Collect(steps).value
    ensures forall x :: x in Collect(steps).value ==>
              exists i :: 0 <= i < |steps| && steps[i].decision == Keep && steps[i].item == x
  {
    if steps != [] {
      var tail := steps[1..];
      CollectKeepsExactlyKept(tail);
      var rest := Collect(tail).value;
      var kept := Collect(steps).value;
      assert forall i :: 1 <= i < |steps| ==> steps[i] == tail[i - 1];
      forall x | x in rest
        ensures exists i :: 0 <= i < |steps| && steps[i].decision == Keep && steps[i].item == x
      {
        var j :| 0 <= j < |tail| && tail[j].decision == Keep && tail[j].item == x;
        assert steps[j + 1] == tail[j];
      }
      if steps[0].decision == Keep {
        assert kept == [steps[0].item] + rest;
      }
    }
  }

  /**
   * The kept items, defined independently of `Collect`: built from the last
   * step backwards, and blind to throwing steps.
   */
  function Kept<T>(steps: seq<Step<T>>): seq<T>
  {
    if steps == [] then []
    else
      var last := steps[|steps| - 1];
      Kept(steps[..|steps| - 1]) + (if last.decision == Keep then [last.item] else [])
  }

  lemma {:induction false} KeptCons<T>(steps: seq<Step<T>>)
    requires steps != []
    ensures Kept(steps) == (if steps[0].decision == Keep then [steps[0].item] else []) + Kept(steps[1..])
    decreases |steps|
  {
    if |steps| > 1 {
      var init := steps[..|steps| - 1];
      KeptCons(init);
      assert init[1..] == steps[1..][..|steps[1..]| - 1];
      assert steps[1..][|steps[1..]| - 1] == steps[|steps| - 1];
    } else {
      assert steps[..0] == [] && steps[1..] == [];
    }
  }

  /**
   * A listing that does not fail is exactly the kept items, in step order
   * and each as often as it was kept.
   */
  lemma {:induction false} CollectIsKept<T>(steps: seq<Step<T>>)
    requires Collect(steps).Some?
    ensures Collect(steps).value == Kept(steps)
  {
    if steps != [] {
      CollectIsKept(steps[1..]);
      KeptCons(steps);
    }
  }
}
