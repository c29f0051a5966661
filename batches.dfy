/** The delegate every combinator drives: a batch iterator over a source whose
    elements arrive in batches. The real sources (shards, network streams,
    in-memory rows) are not part of this model; here a source is the sequence
    of its batches and a cursor into it, and loading the next batch is a
    synchronous step. */
module Batches {
  import opened Wrappers

  /** An exception raised by a source or by user code, carried unchanged. */
  datatype Throwable = Throwable(message: string)

  /** A source that breaks: once `at` elements have been handed out, every
      further `moveNext` throws `error`. */
  datatype Fault = Fault(at: nat, error: Throwable)

  /** All elements of a batched source, in order. */
  function Flatten<T>(bs: seq<seq<T>>): seq<T>
  {
    if bs == [] then [] else bs[0] + Flatten(bs[1..])
  }

  lemma {:induction false} FlattenAppend<T>(a: seq<seq<T>>, b: seq<seq<T>>)
    ensures Flatten(a + b) == Flatten(a) + Flatten(b)
  {
    if a == [] {
      assert a + b == b;
    } else {
      assert (a + b)[1..] == a[1..] + b;
      FlattenAppend(a[1..], b);
    }
  }

  lemma FlattenSingle<T>(xs: seq<T>)
    ensures Flatten([xs]) == xs
  {
    assert [xs][1..] == [];
  }

  /** A prefix of the batches flattens to a prefix of the elements. */
  lemma FlattenSnoc<T>(bs: seq<seq<T>>, i: nat)
    requires i < |bs|
    ensures Flatten(bs[..i + 1]) == Flatten(bs[..i]) + bs[i]
  {
    assert bs[..i + 1] == bs[..i] + [bs[i]];
    FlattenAppend(bs[..i], [bs[i]]);
    FlattenSingle(bs[i]);
  }

  class BatchIterator<T> {
    /** The batches the source delivers; the first one is loaded from the start. */
    const batches: seq<seq<T>>
    /** Where the source breaks, if it does. */
    const fault: Option<Fault>
    /** Index of the loaded batch. */
    var batch: nat
    /** Number of elements of the loaded batch handed out so far. */
    var pos: nat
    /** True right after a successful `moveNext`: `currentElement` is defined. */
    var positioned: bool
    /** Number of `loadNextBatch` calls so far. */
    ghost var loads: nat
    /** Number of `moveNext` calls so far. */
    ghost var moves: nat

    /** The cursor lies within the batches, and not past the fault. */
    ghost predicate InRange()
      reads `batch, `pos
    {
      && |batches| > 0
      && batch < |batches|
      && pos <= |batches[batch]|
      && (fault.Some? ==> Consumed() <= fault.value.at)
    }

    ghost predicate Valid()
      reads `batch, `pos, `positioned
    {
      InRange() && (positioned ==> pos > 0)
    }

    /** All elements the source will ever deliver, in order. */
    ghost function Elements(): seq<T>
    {
      Flatten(batches)
    }

    /** Number of elements handed out so far. */
    function Consumed(): nat
      reads `batch, `pos
      requires batch <= |batches|
    {
      |Flatten(batches[..batch])| + pos
    }

    lemma Cursor()
      requires InRange()
      ensures Elements() == Flatten(batches[..batch]) + batches[batch] + Flatten(batches[batch + 1..])
      ensures Consumed() <= |Elements()|
    {
      assert batches == batches[..batch] + batches[batch..];
      FlattenAppend(batches[..batch], batches[batch..]);
      assert batches[batch..][1..] == batches[batch + 1..];
    }

    /** The elements handed out so far. */
    ghost function Yielded(): (r: seq<T>)
      reads `batch, `pos
      requires InRange()
      ensures |r| == Consumed()
    {
      Cursor();
      Elements()[..Consumed()]
    }

    /** The elements not handed out yet. */
    ghost function Rest(): (r: seq<T>)
      reads `batch, `pos
      requires InRange()
      ensures Yielded() + r == Elements()
    {
      Cursor();
      Elements()[Consumed()..]
    }

    /** The elements a full drain still hands out before the source breaks. */
    ghost function Remaining(): seq<T>
      reads `batch, `pos
      requires InRange()
    {
      Cursor();
      if fault.Some? && fault.value.at <= |Elements()| then Elements()[Consumed()..fault.value.at]
      else Rest()
    }

    /** The error a full drain ends with, if the source breaks before its end. */
    ghost function Breaks(): Option<Throwable>
    {
      if fault.Some? && fault.value.at <= |Elements()| then Some(fault.value.error) else None
    }

    /** `allLoaded`: the loaded batch is the last one. */
    predicate AllLoaded()
      reads `batch
      ensures AllLoaded() <==> batch < |batches| && batches[batch + 1..] == []
    {
      batch == |batches| - 1
    }

    /** The loaded batch has been handed out completely. */
    predicate Drained()
      reads `batch, `pos
      requires batch < |batches|
    {
      pos == |batches[batch]|
    }

    lemma ExhaustedHasNoRest()
      requires InRange() && AllLoaded() && Drained()
      ensures Rest() == [] && Consumed() == |Elements()|
    {
      Cursor();
      assert batches[batch + 1..] == [];
    }

    constructor (batches: seq<seq<T>>, fault: Option<Fault>)
      requires |batches| > 0
      ensures Valid()
      ensures this.batches == batches && this.fault == fault
      ensures batch == 0 && pos == 0 && !positioned && loads == 0 && moves == 0
      ensures Rest() == Flatten(batches)
    {
      this.batches := batches;
      this.fault := fault;
      batch, pos, positioned := 0, 0, false;
      loads, moves := 0, 0;
      new;
      assert batches[..0] == [];
      assert Yielded() == [];
    }

    /** `moveNext`: advances within the loaded batch; false at its end. */
    method MoveNext() returns (r: Result<bool, Throwable>)
      requires Valid()
      modifies this
      ensures Valid()
      ensures batch == old(batch) && loads == old(loads) && moves == old(moves) + 1
      ensures r.Failure? <==> fault.Some? && old(Consumed()) == fault.value.at
      ensures r.Failure? ==> r.error == fault.value.error && pos == old(pos) && !positioned
      ensures r == Success(true) <==> r.Success? && old(pos) < |batches[batch]|
      ensures r == Success(true) ==>
                pos == old(pos) + 1 && positioned && Consumed() == old(Consumed()) + 1
                && old(Rest()) == [CurrentElement()] + Rest()
                && Yielded() == old(Yielded()) + [CurrentElement()]
      ensures r == Success(false) ==> pos == old(pos) && Drained() && !positioned
      ensures r != Success(true) ==> Rest() == old(Rest()) && Yielded() == old(Yielded())
    {
      moves := moves + 1;
      if fault.Some? && Consumed() == fault.value.at {
        positioned := false;
        return Failure(fault.value.error);
      }
      if pos < |batches[batch]| {
        Advance();
        return Success(true);
      }
      positioned := false;
      return Success(false);
    }

    /** The successful step of `moveNext`: hands out the next element of the
        loaded batch. */
    method Advance()
      requires InRange() && pos < |batches[batch]|
      requires fault.Some? ==> Consumed() < fault.value.at
      modifies `pos, `positioned
      ensures Valid()
      ensures pos == old(pos) + 1 && positioned && Consumed() == old(Consumed()) + 1
      ensures old(Rest()) == [CurrentElement()] + Rest()
      ensures Yielded() == old(Yielded()) + [CurrentElement()]
    {
      Cursor();
      ghost var es, c := Elements(), Consumed();
      assert es[c] == batches[batch][pos];
      pos := pos + 1;
      positioned := true;
      assert Rest() == es[c + 1..] && Yielded() == es[..c + 1];
      assert es[c..] == [es[c]] + es[c + 1..];
      assert es[..c + 1] == es[..c] + [es[c]];
    }

    /** `currentElement`: the element the last successful `moveNext` reached. */
    function CurrentElement(): (x: T)
      reads `batch, `pos, `positioned
      requires Valid() && positioned
      ensures x == Yielded()[Consumed() - 1]
    {
      Cursor();
      batches[batch][pos - 1]
    }

    /** `loadNextBatch`, as a synchronous step. Asking for more after the last
        batch fails, as it does for the sources; asking before the loaded batch
        is drained is outside the protocol. */
    method LoadNextBatch() returns (r: Outcome<Throwable>)
      requires Valid() && Drained()
      modifies this
      ensures Valid()
      ensures moves == old(moves) && loads == old(loads) + 1
      ensures r.Fail? <==> old(AllLoaded())
      ensures r.Fail? ==> batch == old(batch) && pos == old(pos)
      ensures r.Pass? ==> batch == old(batch) + 1 && pos == 0 && !positioned
      ensures Consumed() == old(Consumed()) && Rest() == old(Rest())
    {
      loads := loads + 1;
      if AllLoaded() {
        return Fail(Throwable("All batches already loaded"));
      }
      FlattenSnoc(batches, batch);
      batch := batch + 1;
      pos := 0;
      positioned := false;
      return Pass;
    }
  }
}
