/** The compare-and-swap loops of the checked increment and decrement, run against an
    environment that may write anything at any moment. */
module Atomic {
  import opened Common

  /** A store to the shared integer, by the caller or by somebody else. */
  datatype Write = Write(mine: bool, value: int)

  /** What the environment does in one round of a loop: the values it stores before the
      load and between the load and the exchange, and whether the weak exchange fails
      although it need not. */
  datatype Round = Round(beforeLoad: seq<int>, beforeSwap: seq<int>, spurious: bool)

  /** `Trying` stands for a caller that is still in its loop when the rounds end. */
  datatype Outcome = Done | Overflow | Trying

  function Others(values: seq<int>): (w: seq<Write>)
    ensures |w| == |values|
  {
    seq(|values|, i requires 0 <= i < |values| => Write(false, values[i]))
  }

  /** The value left by a sequence of stores. */
  function Left(value: int, writes: seq<Write>): int {
    if writes == [] then value else writes[|writes| - 1].value
  }

  ghost predicate NoneMine(writes: seq<Write>) {
    forall w | w in writes :: !w.mine
  }

  /** Further stores by others leave what they leave, and are not mine either. */
  lemma Continue(value: int, before: seq<Write>, writes: seq<Write>, values: seq<int>)
    requires NoneMine(writes)
    ensures NoneMine(writes + Others(values))
    ensures Left(value, writes + Others(values)) == Left(Left(value, writes), Others(values))
    ensures before + (writes + Others(values)) == before + writes + Others(values)
  {
  }

  class SharedInt {
    var value: int
    ghost var history: seq<Write>

    constructor (v: int)
      ensures value == v && history == []
    {
      value, history := v, [];
    }

    method Set(v: int, mine: bool)
      modifies this
      ensures value == v && history == old(history) + [Write(mine, v)]
    {
      value, history := v, history + [Write(mine, v)];
    }

    /** Other threads store some values. */
    method Interfere(values: seq<int>)
      modifies this
      ensures history == old(history) + Others(values)
      ensures value == Left(old(value), Others(values))
    {
      var i := 0;
      while i < |values|
        invariant 0 <= i <= |values|
        invariant history == old(history) + Others(values)[..i]
        invariant value == Left(old(value), Others(values)[..i])
      {
        Set(values[i], false);
        assert Others(values)[..i + 1] == Others(values)[..i] + [Write(false, values[i])];
        i := i + 1;
      }
      assert Others(values)[..|values|] == Others(values);
    }

    /** The loop both operations share: add `delta` unless the value is at `bound`.

        Against every environment it acts as one atomic step. When it is done, all it has
        stored is one value, last, and that value is `oldval + delta` where `oldval` is what
        the integer held immediately before; when it refuses, it has stored nothing and
        the integer holds the bound at that moment. It goes round again only when the
        environment interfered or the exchange failed spuriously. */
    method AddSafe(delta: int, bound: int, rounds: seq<Round>)
      returns (r: Outcome, oldval: int, ghost others: seq<Write>)
      modifies this
      ensures NoneMine(others)
      ensures r.Done? ==>
        && history == old(history) + others + [Write(true, oldval + delta)]
        && oldval == Left(old(value), others) && oldval != bound && value == oldval + delta
      ensures r.Overflow? ==>
        history == old(history) + others && value == Left(old(value), others) == oldval == bound
      ensures r.Trying? ==>
        history == old(history) + others && value == Left(old(value), others)
      ensures r.Trying? ==> forall i | 0 <= i < |rounds| :: rounds[i].spurious || rounds[i].beforeSwap != []
    {
      var i := 0;
      others, oldval := [], value;
      while i < |rounds|
        invariant 0 <= i <= |rounds|
        invariant NoneMine(others)
        invariant history == old(history) + others && value == Left(old(value), others)
        invariant forall j | 0 <= j < i :: rounds[j].spurious || rounds[j].beforeSwap != []
      {
        Interfere(rounds[i].beforeLoad);
        Continue(old(value), old(history), others, rounds[i].beforeLoad);
        others := others + Others(rounds[i].beforeLoad);
        oldval := value;
        if oldval == bound { return Overflow, oldval, others; }
        Interfere(rounds[i].beforeSwap);
        Continue(old(value), old(history), others, rounds[i].beforeSwap);
        others := others + Others(rounds[i].beforeSwap);
        if value == oldval && !rounds[i].spurious {
          Set(oldval + delta, true);
          return Done, oldval, others;
        }
        oldval := value;  // a failed exchange leaves the current value here
        i := i + 1;
      }
      r := Trying;
    }

    method IncrementSafe(rounds: seq<Round>) returns (r: Outcome, oldval: int, ghost others: seq<Write>)
      modifies this
      ensures NoneMine(others)
      ensures r.Done? ==>
        && history == old(history) + others + [Write(true, oldval + 1)]
        && oldval == Left(old(value), others) && oldval != INT_MAX && value == oldval + 1
      ensures !r.Done? ==> history == old(history) + others && value == Left(old(value), others)
      ensures r.Overflow? ==> value == oldval == INT_MAX
      ensures r.Trying? ==> forall i | 0 <= i < |rounds| :: rounds[i].spurious || rounds[i].beforeSwap != []
    {
      r, oldval, others := AddSafe(1, INT_MAX, rounds);
    }

    method DecrementSafe(rounds: seq<Round>) returns (r: Outcome, oldval: int, ghost others: seq<Write>)
      modifies this
      ensures NoneMine(others)
      ensures r.Done? ==>
        && history == old(history) + others + [Write(true, oldval - 1)]
        && oldval == Left(old(value), others) && oldval != INT_MIN && value == oldval - 1
      ensures !r.Done? ==> history == old(history) + others && value == Left(old(value), others)
      ensures r.Overflow? ==> value == oldval == INT_MIN
      ensures r.Trying? ==> forall i | 0 <= i < |rounds| :: rounds[i].spurious || rounds[i].beforeSwap != []
    {
      r, oldval, others := AddSafe(-1, INT_MIN, rounds);
    }

    /** The unchecked increment wraps. */
    method Increment() returns (v: int)
      modifies this
      ensures v == value == WrapInt(old(value) + 1) && history == old(history) + [Write(true, v)]
    {
      v := WrapInt(value + 1);
      Set(v, true);
    }
  }
}
