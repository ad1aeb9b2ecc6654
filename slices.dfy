/** The check `contains_in_order` emits: a left-to-right scan of every window
    of the result as long as the expected slice, setting a flag when one
    matches. Values are integer sequences. */
module Slices {
  import opened Syntax

  /** The window of `s` that starts at `i` equals `es`. */
  predicate WindowAt(s: seq<int>, es: seq<int>, i: nat)
    requires i + |es| <= |s|
  {
    s[i..i + |es|] == es
  }

  /** `es` occurs in `s` as a contiguous run. */
  predicate IsContiguousSubslice(s: seq<int>, es: seq<int>) {
    |es| <= |s| && exists i: nat :: i <= |s| - |es| && WindowAt(s, es, i)
  }

  /** An independent definition: `es` is a prefix of `s` or occurs in its tail. */
  predicate Occurs(s: seq<int>, es: seq<int>) {
    es <= s || (s != [] && Occurs(s[1..], es))
  }

  lemma {:induction false} SubsliceIffOccurs(s: seq<int>, es: seq<int>)
    ensures IsContiguousSubslice(s, es) <==> Occurs(s, es)
  {
    if es <= s {
      assert WindowAt(s, es, 0);
    } else if s == [] {
    } else {
      SubsliceIffOccurs(s[1..], es);
      if IsContiguousSubslice(s, es) {
        var i: nat :| i <= |s| - |es| && WindowAt(s, es, i);
        assert i != 0;
        assert s[1..][i - 1..i - 1 + |es|] == s[i..i + |es|];
        assert WindowAt(s[1..], es, i - 1);
      }
      if Occurs(s[1..], es) {
        var i: nat :| i <= |s[1..]| - |es| && WindowAt(s[1..], es, i);
        assert s[1..][i..i + |es|] == s[i + 1..i + 1 + |es|];
        assert WindowAt(s, es, i + 1);
      }
    }
  }

  /** A slice longer than the result is never contained; the empty slice always is. */
  lemma ContainmentEdgeCases(s: seq<int>, es: seq<int>)
    ensures |es| > |s| ==> !IsContiguousSubslice(s, es)
    ensures IsContiguousSubslice(s, [])
  {
    assert WindowAt(s, [], 0);
  }

  /** The order of the elements matters, not only their presence. */
  lemma OrderMatters()
    ensures IsContiguousSubslice([1, 2, 3, 4], [2, 3])
    ensures !IsContiguousSubslice([1, 3, 2, 4], [2, 3])
    ensures !IsContiguousSubslice([1, 2], [1, 2, 3])
  {
    assert WindowAt([1, 2, 3, 4], [2, 3], 1);
    var s := [1, 3, 2, 4];
    assert s[0..2] == [1, 3] && s[1..3] == [3, 2] && s[2..4] == [2, 4];
  }

  /** The outcome of the emitted scan: it either runs to completion with
      its flag, or panics computing the last window start. */
  datatype ScanOutcome = Completed(found: bool) | SubtractOverflow

  /** Subtraction on `usize`, which panics (here: `None`) below zero. */
  function UsizeSub(a: nat, b: nat): (r: Option<nat>)
    ensures r.Some? <==> b <= a
    ensures r.Some? ==> r.value + b == a
  {
    if b <= a then Some(a - b) else None
  }

  /** The scan as emitted: the bound `_result.len() - elements.len()` is
      computed unguarded, so a slice longer than the result panics instead
      of failing the check. */
  method ContainsInOrderAsWritten(result: seq<int>, elements: seq<int>) returns (r: ScanOutcome)
    ensures |elements| > |result| ==> r == SubtractOverflow
    ensures |elements| <= |result| ==> r == Completed(IsContiguousSubslice(result, elements))
  {
    var last := UsizeSub(|result|, |elements|);
    if last.None? {
      return SubtractOverflow;
    }
    var outcome := false;
    for i := 0 to last.value + 1
      invariant outcome <==> exists j: nat :: j < i && WindowAt(result, elements, j)
    {
      assert WindowAt(result, elements, i) <==> elements == result[i..i + |elements|];
      if elements == result[i..i + |elements|] {
        outcome := true;
      }
    }
    r := Completed(outcome);
  }

  /** The scan with the missing guard: a slice longer than the result fails
      the check. The invariant ties the flag to "some window before `i`
      matched", which can only go from false to true as `i` grows. */
  method ContainsInOrder(result: seq<int>, elements: seq<int>) returns (outcome: bool)
    ensures outcome <==> IsContiguousSubslice(result, elements)
  {
    outcome := false;
    if |elements| > |result| {
      return;
    }
    for i := 0 to |result| - |elements| + 1
      invariant outcome <==> exists j: nat :: j < i && WindowAt(result, elements, j)
    {
      assert WindowAt(result, elements, i) <==> elements == result[i..i + |elements|];
      if elements == result[i..i + |elements|] {
        outcome := true;
      }
    }
  }

  /** The input that shows the two apart: `[1, 2, 3]` in `[1, 2]`. */
  method UnderflowCounterexample() returns (asWritten: ScanOutcome, corrected: bool)
    ensures asWritten == SubtractOverflow
    ensures !corrected
  {
    asWritten := ContainsInOrderAsWritten([1, 2], [1, 2, 3]);
    corrected := ContainsInOrder([1, 2], [1, 2, 3]);
  }
}
