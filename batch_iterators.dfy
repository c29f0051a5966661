/** The combinators of `BatchIterators`: `fold`, the two `collect` forms,
    `map` and `partition`, each driving a `Batches.BatchIterator`. */
module BatchIterators {
  import opened Wrappers
  import opened Batches

  // ---------------------------------------------------------------------
  // Specification: left folds

  /** The left fold of a step that may throw; the first throwing step ends it. */
  function FoldLeft<T, S>(step: (S, T) -> Result<S, Throwable>, init: S, xs: seq<T>): Result<S, Throwable>
    decreases |xs|
  {
    if xs == [] then Success(init)
    else match FoldLeft(step, init, xs[..|xs| - 1])
      case Failure(e) => Failure(e)
      case Success(s) => step(s, xs[|xs| - 1])
  }

  /** Folding a concatenation folds the first part, then continues from its state. */
  lemma {:induction false} FoldLeftAppend<T, S>(step: (S, T) -> Result<S, Throwable>, init: S, xs: seq<T>, ys: seq<T>)
    ensures FoldLeft(step, init, xs + ys) ==
            match FoldLeft(step, init, xs)
            case Failure(e) => Failure(e)
            case Success(s) => FoldLeft(step, s, ys)
    decreases |ys|
  {
    if ys == [] {
      assert xs + ys == xs;
    } else {
      var ys' := ys[..|ys| - 1];
      assert (xs + ys)[..|xs + ys| - 1] == xs + ys';
      assert (xs + ys)[|xs + ys| - 1] == ys[|ys| - 1];
      FoldLeftAppend(step, init, xs, ys');
    }
  }

  /** Once a prefix has thrown, the rest of the input is never stepped. */
  lemma FoldLeftFailedPrefix<T, S>(step: (S, T) -> Result<S, Throwable>, init: S, xs: seq<T>, k: nat)
    requires k <= |xs| && FoldLeft(step, init, xs[..k]).Failure?
    ensures FoldLeft(step, init, xs) == FoldLeft(step, init, xs[..k])
  {
    assert xs == xs[..k] + xs[k..];
    FoldLeftAppend(step, init, xs[..k], xs[k..]);
  }

  /** The fold as `fold` performs it: drain one batch, then continue with the
      next one from the state reached so far. */
  function FoldBatchwise<T, S>(step: (S, T) -> Result<S, Throwable>, init: S, bs: seq<seq<T>>): Result<S, Throwable>
    decreases |bs|
  {
    if bs == [] then Success(init)
    else match FoldLeft(step, init, bs[0])
      case Failure(e) => Failure(e)
      case Success(s) => FoldBatchwise(step, s, bs[1..])
  }

  /** Folding batch by batch is folding all elements in order. */
  lemma {:induction false} FoldBatchwiseIsFoldLeft<T, S>(step: (S, T) -> Result<S, Throwable>, init: S, bs: seq<seq<T>>)
    ensures FoldBatchwise(step, init, bs) == FoldLeft(step, init, Flatten(bs))
    decreases |bs|
  {
    if bs != [] {
      FoldLeftAppend(step, init, bs[0], Flatten(bs[1..]));
      match FoldLeft(step, init, bs[0]) {
        case Failure(_) =>
        case Success(s) => FoldBatchwiseIsFoldLeft(step, s, bs[1..]);
      }
    }
  }

  /** The result of a fold does not depend on how the elements are split into batches. */
  lemma BatchSplitIndependence<T, S>(step: (S, T) -> Result<S, Throwable>, init: S, bs1: seq<seq<T>>, bs2: seq<seq<T>>)
    requires Flatten(bs1) == Flatten(bs2)
    ensures FoldBatchwise(step, init, bs1) == FoldBatchwise(step, init, bs2)
  {
    FoldBatchwiseIsFoldLeft(step, init, bs1);
    FoldBatchwiseIsFoldLeft(step, init, bs2);
  }

  /** The step of a summing fold. */
  function Plus(s: int, x: int): Result<int, Throwable>
  {
    Success(s + x)
  }

  lemma SumOneToFive()
    ensures FoldLeft(Plus, 0, [1, 2, 3, 4, 5]) == Success(15)
  {
    assert [1, 2, 3, 4, 5][..4] == [1, 2, 3, 4] && [1, 2, 3, 4][..3] == [1, 2, 3];
    assert [1, 2, 3][..2] == [1, 2] && [1, 2][..1] == [1] && [1][..0] == [];
    assert FoldLeft(Plus, 0, [1]) == Success(1);
    assert FoldLeft(Plus, 0, [1, 2]) == Success(3);
    assert FoldLeft(Plus, 0, [1, 2, 3]) == Success(6);
    assert FoldLeft(Plus, 0, [1, 2, 3, 4]) == Success(10);
  }

  /** Summing `[1, 2, 3, 4, 5]` gives 15 whether the source delivers one
      batch of five or batches of two, two and one. */
  lemma FoldSumExample()
    ensures FoldBatchwise(Plus, 0, [[1, 2, 3, 4, 5]]) == Success(15)
    ensures FoldBatchwise(Plus, 0, [[1, 2], [3, 4], [5]]) == Success(15)
  {
    var xs := [1, 2, 3, 4, 5];
    assert Flatten([[5]]) == [5] by {
      FlattenSingle([5]);
    }
    assert Flatten([[3, 4], [5]]) == [3, 4, 5];
    assert Flatten([[1, 2], [3, 4], [5]]) == xs;
    FlattenSingle(xs);
    BatchSplitIndependence(Plus, 0, [xs], [[1, 2], [3, 4], [5]]);
    FoldBatchwiseIsFoldLeft(Plus, 0, [xs]);
    SumOneToFive();
  }

  /** A drain that ends in a broken source fails with the source's error,
      unless a step threw first. */
  function Interrupted<S>(r: Result<S, Throwable>, breaks: Option<Throwable>): Result<S, Throwable>
  {
    if r.Success? && breaks.Some? then Failure(breaks.value) else r
  }

  /** A fold that failed after handing out `xs` stopped at its first failure:
      either the step threw on the last of `xs` and on none before it, or every
      step succeeded and the source broke right after `xs` (`broke`). */
  ghost predicate FailedFirstAt<T, S>(step: (S, T) -> Result<S, Throwable>, init: S, xs: seq<T>, broke: bool)
  {
    match FoldLeft(step, init, xs)
    case Failure(_) => xs != [] && FoldLeft(step, init, xs[..|xs| - 1]).Success?
    case Success(_) => broke
  }

  // ---------------------------------------------------------------------
  // fold

  /** The body of `fold`'s `try` block: steps through what is left of the
      loaded batch. On success the batch is drained and the source did not
      break; a throwing `moveNext` or `step` ends the drain at once. */
  method DrainBatch<T, S>(it: BatchIterator<T>, step: (S, T) -> Result<S, Throwable>, state: S)
    returns (r: Result<S, Throwable>)
    requires it.Valid()
    modifies it
    ensures it.Valid() && it.batch == old(it.batch) && it.loads == old(it.loads)
    ensures old(it.Consumed()) <= it.Consumed() <= |it.Elements()|
    ensures r.Success? ==>
              && it.Drained() && !(it.fault.Some? && it.Consumed() == it.fault.value.at)
              && r == FoldLeft(step, state, it.Elements()[old(it.Consumed())..it.Consumed()])
              && it.moves == old(it.moves) + (it.Consumed() - old(it.Consumed())) + 1
    ensures r.Failure? ==> r == Interrupted(FoldLeft(step, state, old(it.Remaining())), it.Breaks())
    ensures r.Failure? ==>
              FailedFirstAt(step, state, it.Elements()[old(it.Consumed())..it.Consumed()],
                            it.fault.Some? && it.fault.value.at == it.Consumed())
  {
    ghost var c0, m0 := it.Consumed(), it.moves;
    ghost var es := it.Elements();
    it.Cursor();
    ghost var lim := if it.fault.Some? && it.fault.value.at <= |es| then it.fault.value.at else |es|;
    ghost var rem := it.Remaining();
    assert rem == es[c0..lim];
    var acc := state;
    while true
      invariant it.Valid() && it.batch == old(it.batch) && it.loads == old(it.loads)
      invariant c0 <= it.Consumed() <= lim
      invariant FoldLeft(step, state, es[c0..it.Consumed()]) == Success(acc)
      invariant it.moves - m0 == it.Consumed() - c0
      decreases |it.batches[it.batch]| - it.pos
    {
      ghost var k, p := it.Consumed(), it.pos;
      var round := FoldRound(it, step, acc);
      assert it.Elements() == es;
      match round
      case Failure(e) =>
        if it.Consumed() == k {
          assert k == lim;
          BrokeFirst(step, state, es[c0..k], acc);
        } else {
          assert it.Consumed() == k + 1;
          StepFailedFirst(step, state, es, c0, k, lim, acc, it.fault.Some? && it.fault.value.at == k + 1);
        }
        assert Failure(e) == Interrupted(FoldLeft(step, state, rem), it.Breaks());
        assert FailedFirstAt(step, state, es[c0..it.Consumed()], it.fault.Some? && it.fault.value.at == it.Consumed());
        return Failure(e);
      case Success(None) =>
        assert it.Consumed() == k && it.Drained() && it.moves == m0 + (k - c0) + 1;
        assert Success(acc) == FoldLeft(step, state, es[c0..k]);
        return Success(acc);
      case Success(Some(a)) =>
        assert it.Consumed() == k + 1 && it.pos == p + 1;
        assert step(acc, es[k]) == Success(a);
        FoldLeftStep(step, state, es, c0, k, acc);
        acc := a;
    }
  }

  /** The outcome of a step, as a round of the drain reports it. */
  function Stepped<S>(r: Result<S, Throwable>): Result<Option<S>, Throwable>
  {
    match r
    case Failure(e) => Failure(e)
    case Success(s) => Success(Some(s))
  }

  /** One round of `fold`'s `while` loop: `moveNext`, then `step` on the
      element it reached. `Success(None)` means the loaded batch is drained;
      a failure is the source's when nothing was handed out, and the step's
      otherwise. */
  method FoldRound<T, S>(it: BatchIterator<T>, step: (S, T) -> Result<S, Throwable>, acc: S)
    returns (r: Result<Option<S>, Throwable>)
    requires it.Valid()
    modifies it
    ensures it.Valid() && it.batch == old(it.batch) && it.loads == old(it.loads) && it.moves == old(it.moves) + 1
    ensures it.Consumed() == old(it.Consumed()) ==>
              && (r.Failure? <==> it.fault.Some? && it.fault.value.at == it.Consumed())
              && (r.Failure? ==> r.error == it.fault.value.error)
              && (r.Success? ==> r.value.None? && it.Drained())
    ensures it.Consumed() != old(it.Consumed()) ==>
              && it.Consumed() == old(it.Consumed()) + 1 <= |it.Elements()|
              && it.pos > 0
              && r == Stepped(step(acc, it.Elements()[old(it.Consumed())]))
  {
    var moved := it.MoveNext();
    if moved.Failure? {
      return Failure(moved.error);
    }
    if !moved.value {
      return Success(None);
    }
    it.Cursor();
    var x := it.CurrentElement();
    var stepped := step(acc, x);
    return Stepped(stepped);
  }

  /** `fold`: drains `it` from where it stands, threading `step` through its
      elements; after each drain it either stops (`allLoaded`) or loads the
      next batch and goes on from the state reached. `fold`'s recursion
      through `thenCompose` is the loop. */
  method Fold<T, S>(it: BatchIterator<T>, step: (S, T) -> Result<S, Throwable>, initialState: S)
    returns (r: Result<S, Throwable>)
    requires it.Valid()
    modifies it
    ensures it.Valid()
    ensures r == Interrupted(FoldLeft(step, initialState, old(it.Remaining())), it.Breaks())
    ensures old(it.batch) <= it.batch && it.loads - old(it.loads) == it.batch - old(it.batch)
    ensures r.Success? ==>
              && it.AllLoaded() && it.Drained() && it.Rest() == []
              && it.loads == old(it.loads) + |it.batches| - 1 - old(it.batch)
              && it.moves == old(it.moves) + |old(it.Rest())| + |it.batches| - old(it.batch)
    // Fail-fast: a failure ends the fold inside the batch where it happened, so
    // no `loadNextBatch` follows it (a load would leave nothing handed out of
    // the loaded batch).
    ensures r.Failure? ==> it.batch == old(it.batch) || it.pos > 0
    // ... and it stops at the first failure: nothing past it is handed out.
    ensures old(it.Consumed()) <= it.Consumed() <= |it.Elements()|
    ensures r.Failure? ==>
              FailedFirstAt(step, initialState, it.Elements()[old(it.Consumed())..it.Consumed()],
                            it.fault.Some? && it.fault.value.at == it.Consumed())
  {
    ghost var c0, b0, l0, m0 := it.Consumed(), it.batch, it.loads, it.moves;
    ghost var es := it.Elements();
    it.Cursor();
    ghost var lim := if it.fault.Some? && it.fault.value.at <= |es| then it.fault.value.at else |es|;
    assert old(it.Remaining()) == es[c0..lim];
    var state := initialState;
    while true
      invariant it.Valid()
      invariant b0 <= it.batch && it.loads - l0 == it.batch - b0
      invariant c0 <= it.Consumed() <= lim
      invariant FoldLeft(step, initialState, es[c0..it.Consumed()]) == Success(state)
      invariant it.moves - m0 == (it.Consumed() - c0) + (it.batch - b0)
      invariant it.batch > b0 ==> it.pos == 0 && !(it.fault.Some? && it.fault.value.at == it.Consumed())
      decreases |it.batches| - it.batch
    {
      ghost var c1, p1 := it.Consumed(), it.pos;
      assert it.Remaining() == es[c1..lim];
      var drained := DrainBatch(it, step, state);
      if drained.Failure? {
        ghost var c2 := it.Consumed();
        assert it.Elements() == es && it.pos == p1 + (c2 - c1);
        FoldLeftResume(step, initialState, es, c0, c1, lim);
        FailedFirstAtResume(step, initialState, es, c0, c1, c2, it.fault.Some? && it.fault.value.at == c2);
        assert drained == Interrupted(FoldLeft(step, initialState, es[c0..lim]), it.Breaks());
        assert it.batch > b0 ==> c2 > c1;
        return drained;
      }
      FoldLeftResume(step, initialState, es, c0, c1, it.Consumed());
      state := drained.value;
      if it.AllLoaded() {
        it.ExhaustedHasNoRest();
        assert it.Consumed() == |es| == lim && it.Breaks() == None;
        assert Success(state) == FoldLeft(step, initialState, es[c0..lim]);
        return Success(state);
      }
      var loaded := it.LoadNextBatch();
    }
  }

  /** A step that always throws. */
  function Throwing(s: int, x: int): Result<int, Throwable>
  {
    Failure(Throwable("step failed"))
  }

  /** Every non-empty fold of the throwing step fails. */
  lemma {:induction false} ThrowingFails(xs: seq<int>)
    ensures FoldLeft(Throwing, 0, xs) == if xs == [] then Success(0) else Failure(Throwable("step failed"))
    decreases |xs|
  {
    if xs != [] {
      ThrowingFails(xs[..|xs| - 1]);
    }
  }

  /** Each of the batches `[1]`, `[2]`, `[3]` holds one element, so the
      first `b` of them hold `b` elements. */
  lemma OneEach(b: nat)
    requires b <= 3
    ensures |Flatten([[1], [2], [3]][..b])| == b
  {
    var bs: seq<seq<int>> := [[1], [2], [3]];
    assert bs[..0] == [];
    if b > 0 {
      FlattenSnoc(bs, 0);
    }
    if b > 1 {
      FlattenSnoc(bs, 1);
    }
    if b > 2 {
      FlattenSnoc(bs, 2);
    }
  }

  /** `fold` itself, summing a source of batches `[1, 2]`, `[3, 4]`, `[5]`:
      it yields 15, loading the two batches that were still to come. */
  method FoldSumRun() returns (r: Result<int, Throwable>, batch: nat, ghost loads: nat)
    ensures r == Success(15) && batch == 2 && loads == 2
  {
    var it := new BatchIterator([[1, 2], [3, 4], [5]], None);
    assert it.Consumed() == 0 by {
      assert it.batches[..0] == [];
    }
    ghost var rest := it.Rest();
    assert rest == [1, 2, 3, 4, 5] by {
      FlattenSingle([5]);
      assert Flatten([[3, 4], [5]]) == [3, 4, 5];
    }
    assert it.Remaining() == rest && it.Breaks() == None;
    SumOneToFive();
    r := Fold(it, Plus, 0);
    batch, loads := it.batch, it.loads;
  }

  /** Fail-fast on a source of three batches: the step throws on the first
      element, so `fold` fails in the first batch, after one element, and
      loads no other batch. */
  method FoldFailsFast() returns (r: Result<int, Throwable>, batch: nat, pos: nat)
    ensures r == Failure(Throwable("step failed")) && batch == 0 && pos == 1
  {
    var it := new BatchIterator([[1], [2], [3]], None);
    assert it.Consumed() == 0 by {
      assert it.batches[..0] == [];
    }
    ghost var rest := it.Rest();
    assert rest != [] && it.Remaining() == rest && it.Breaks() == None;
    ThrowingFails(rest);
    r := Fold(it, Throwing, 0);
    // The fold stopped at its first failure, which is its first element.
    ghost var xs := it.Elements()[0..it.Consumed()];
    assert FailedFirstAt(Throwing, 0, xs, false);
    ThrowingFails(xs);
    ThrowingFails(xs[..|xs| - 1]);
    assert |xs| == 1;
    OneEach(it.batch);
    batch, pos := it.batch, it.pos;
  }

  /** Resuming a fold from the state reached on a prefix. */
  lemma FoldLeftResume<T, S>(step: (S, T) -> Result<S, Throwable>, init: S, es: seq<T>, c0: nat, c1: nat, c2: nat)
    requires c0 <= c1 <= c2 <= |es| && FoldLeft(step, init, es[c0..c1]).Success?
    ensures FoldLeft(step, init, es[c0..c2]) == FoldLeft(step, FoldLeft(step, init, es[c0..c1]).value, es[c1..c2])
  {
    assert es[c0..c2] == es[c0..c1] + es[c1..c2];
    FoldLeftAppend(step, init, es[c0..c1], es[c1..c2]);
  }

  /** A drain that stopped at its first failure, resumed from the state a
      successful prefix reached, is a fold that stopped at its first failure. */
  lemma FailedFirstAtResume<T, S>(step: (S, T) -> Result<S, Throwable>, init: S, es: seq<T>, c0: nat, c1: nat, c2: nat, broke: bool)
    requires c0 <= c1 <= c2 <= |es| && FoldLeft(step, init, es[c0..c1]).Success?
    requires FailedFirstAt(step, FoldLeft(step, init, es[c0..c1]).value, es[c1..c2], broke)
    ensures FailedFirstAt(step, init, es[c0..c2], broke)
  {
    FoldLeftResume(step, init, es, c0, c1, c2);
    if c1 < c2 {
      FoldLeftResume(step, init, es, c0, c1, c2 - 1);
      assert es[c1..c2][..c2 - c1 - 1] == es[c1..c2 - 1];
      assert es[c0..c2][..c2 - c0 - 1] == es[c0..c2 - 1];
    }
  }

  /** A source that breaks after successful steps is the first failure. */
  lemma BrokeFirst<T, S>(step: (S, T) -> Result<S, Throwable>, init: S, xs: seq<T>, acc: S)
    requires FoldLeft(step, init, xs) == Success(acc)
    ensures FailedFirstAt(step, init, xs, true)
  {
  }

  /** A step that throws on the element at `k`, after a successful prefix, is
      the first failure of the fold and decides it up to `lim`. */
  lemma StepFailedFirst<T, S>(step: (S, T) -> Result<S, Throwable>, init: S, es: seq<T>, c0: nat, k: nat, lim: nat, acc: S, broke: bool)
    requires c0 <= k < lim <= |es| && FoldLeft(step, init, es[c0..k]) == Success(acc)
    requires step(acc, es[k]).Failure?
    ensures FoldLeft(step, init, es[c0..lim]) == step(acc, es[k])
    ensures FailedFirstAt(step, init, es[c0..k + 1], broke)
  {
    FoldLeftStep(step, init, es, c0, k, acc);
    FoldLeftFailedAt(step, init, es, c0, k + 1, lim);
    assert es[c0..k + 1][..k - c0] == es[c0..k];
  }

  /** One more element of the drain. */
  lemma FoldLeftStep<T, S>(step: (S, T) -> Result<S, Throwable>, init: S, es: seq<T>, c0: nat, k: nat, acc: S)
    requires c0 <= k < |es| && FoldLeft(step, init, es[c0..k]) == Success(acc)
    ensures FoldLeft(step, init, es[c0..k + 1]) == step(acc, es[k])
  {
    var xs := es[c0..k + 1];
    assert xs[..|xs| - 1] == es[c0..k] && xs[|xs| - 1] == es[k];
  }

  /** A step that throws at the `k`-th element decides the whole drain. */
  lemma FoldLeftFailedAt<T, S>(step: (S, T) -> Result<S, Throwable>, init: S, es: seq<T>, c0: nat, k: nat, lim: nat)
    requires c0 <= k <= lim <= |es|
    requires FoldLeft(step, init, es[c0..k]).Failure?
    ensures FoldLeft(step, init, es[c0..lim]) == FoldLeft(step, init, es[c0..k])
  {
    assert es[c0..lim][..k - c0] == es[c0..k];
    FoldLeftFailedPrefix(step, init, es[c0..lim], k - c0);
  }

  // ---------------------------------------------------------------------
  // Specification: partitions

  /** What `partition` is given: the largest chunk, and a supplier, an
      accumulator and a limiter for the per-chunk state. The state is a value
      here: the accumulator returns the updated state. */
  datatype Chunking<!T, !A> = Chunking(size: int, supplier: () -> A, accumulator: (A, T) -> A, stateLimiter: A -> bool)

  /** The state after accumulating `xs`, in order, into `s`. */
  function Accumulate<T, A>(accumulator: (A, T) -> A, s: A, xs: seq<T>): A
    decreases |xs|
  {
    if xs == [] then s else accumulator(Accumulate(accumulator, s, xs[..|xs| - 1]), xs[|xs| - 1])
  }

  /** The limiter trips on the state of a chunk holding `chunk`. */
  predicate Trips<T, A>(c: Chunking<T, A>, chunk: seq<T>)
  {
    c.stateLimiter(Accumulate(c.accumulator, c.supplier(), chunk))
  }

  /** The length of the chunk that starts `xs`, scanning from length `k`: the
      first length that reaches `size`, trips the limiter or uses up `xs`. */
  function ChunkEnd<T, A>(c: Chunking<T, A>, xs: seq<T>, k: nat): (n: nat)
    requires 0 < k <= |xs| && k <= c.size
    ensures k <= n <= |xs| && n <= c.size
    ensures n == c.size || Trips(c, xs[..n]) || n == |xs|
    ensures forall j {:trigger Trips(c, xs[..j])} :: k <= j < n ==> !Trips(c, xs[..j])
    decreases |xs| - k
  {
    if k == c.size || Trips(c, xs[..k]) || k == |xs| then k else ChunkEnd(c, xs, k + 1)
  }

  /** The chunks `partition` emits for a delegate delivering `xs`. */
  function Chunks<T, A>(c: Chunking<T, A>, xs: seq<T>): seq<seq<T>>
    requires c.size > 0
    decreases |xs|
  {
    if xs == [] then []
    else
      var n := ChunkEnd(c, xs, 1);
      [xs[..n]] + Chunks(c, xs[n..])
  }

  /** A non-empty input starts with a chunk, and the rest is chunked alike. */
  lemma FirstChunk<T, A>(c: Chunking<T, A>, xs: seq<T>) returns (n: nat)
    requires c.size > 0 && xs != []
    ensures 0 < n <= |xs| && Chunks(c, xs) == [xs[..n]] + Chunks(c, xs[n..])
  {
    n := ChunkEnd(c, xs, 1);
  }

  /** Flattening a sequence that starts with `head` starts with `head`. */
  lemma FlattenCons<T>(head: seq<T>, rest: seq<seq<T>>)
    ensures Flatten([head] + rest) == head + Flatten(rest)
  {
    FlattenAppend([head], rest);
    FlattenSingle(head);
  }

  /** No element is lost, duplicated or reordered: the chunks concatenate to the input. */
  lemma {:induction false} ChunksFlatten<T, A>(c: Chunking<T, A>, xs: seq<T>)
    requires c.size > 0
    ensures Flatten(Chunks(c, xs)) == xs
    decreases |xs|
  {
    if xs != [] {
      var n := FirstChunk(c, xs);
      var head, tail := xs[..n], xs[n..];
      ghost var cs, rest := Chunks(c, xs), Chunks(c, tail);
      assert cs == [head] + rest;
      ChunksFlatten(c, tail);
      FlattenCons(head, rest);
      assert Flatten(cs) == head + tail;
      assert xs == head + tail;
    }
  }

  /** Every chunk holds between one and `size` elements, and the limiter has
      not tripped on any shorter prefix of it. */
  lemma {:induction false} ChunksBounded<T, A>(c: Chunking<T, A>, xs: seq<T>)
    requires c.size > 0
    ensures forall i :: 0 <= i < |Chunks(c, xs)| ==> 0 < |Chunks(c, xs)[i]| <= c.size
    ensures forall i, j :: 0 <= i < |Chunks(c, xs)| && 0 < j < |Chunks(c, xs)[i]| ==> !Trips(c, Chunks(c, xs)[i][..j])
    decreases |xs|
  {
    if xs != [] {
      var n := ChunkEnd(c, xs, 1);
      ChunksBounded(c, xs[n..]);
      var cs := Chunks(c, xs);
      assert cs[0] == xs[..n] && cs[1..] == Chunks(c, xs[n..]);
      forall j | 0 < j < n ensures !Trips(c, cs[0][..j]) {
        assert cs[0][..j] == xs[..j];
      }
      forall i | 1 <= i < |cs| ensures cs[i] == Chunks(c, xs[n..])[i - 1] { }
    }
  }

  /** Every chunk but the last is complete: it holds `size` elements or the
      limiter tripped on it. */
  lemma {:induction false} ChunksComplete<T, A>(c: Chunking<T, A>, xs: seq<T>)
    requires c.size > 0
    ensures forall i :: 0 <= i < |Chunks(c, xs)| - 1 ==> |Chunks(c, xs)[i]| == c.size || Trips(c, Chunks(c, xs)[i])
    decreases |xs|
  {
    if xs != [] {
      var n := ChunkEnd(c, xs, 1);
      ChunksComplete(c, xs[n..]);
      var cs := Chunks(c, xs);
      assert cs[0] == xs[..n] && cs[1..] == Chunks(c, xs[n..]);
      forall i | 1 <= i < |cs| ensures cs[i] == Chunks(c, xs[n..])[i - 1] { }
    }
  }

  /** A chunk that is complete, or that ends the input, is emitted as it is,
      whatever follows it. */
  lemma ChunksOfClosedChunk<T, A>(c: Chunking<T, A>, chunk: seq<T>, rest: seq<T>)
    requires c.size > 0 && 0 < |chunk| <= c.size
    requires forall j {:trigger Trips(c, chunk[..j])} :: 0 < j < |chunk| ==> !Trips(c, chunk[..j])
    requires |chunk| == c.size || Trips(c, chunk) || rest == []
    ensures Chunks(c, chunk + rest) == [chunk] + Chunks(c, rest)
  {
    var xs := chunk + rest;
    ChunkEndIs(c, xs, chunk, 1);
    assert xs[..|chunk|] == chunk && xs[|chunk|..] == rest;
  }

  lemma {:induction false} ChunkEndIs<T, A>(c: Chunking<T, A>, xs: seq<T>, chunk: seq<T>, k: nat)
    requires c.size > 0 && 0 < k <= |chunk| <= c.size && chunk <= xs
    requires forall j {:trigger Trips(c, chunk[..j])} :: 0 < j < |chunk| ==> !Trips(c, chunk[..j])
    requires |chunk| == c.size || Trips(c, chunk) || |xs| == |chunk|
    ensures ChunkEnd(c, xs, k) == |chunk|
    decreases |chunk| - k
  {
    assert xs[..k] == chunk[..k];
    assert xs[..|chunk|] == chunk;
    if k < |chunk| {
      ChunkEndIs(c, xs, chunk, k + 1);
    }
  }

  /** The example in `partition`'s documentation: `[1, 2, 3, 4, 5]` in blocks
      of two is `[[1, 2], [3, 4], [5]]`. */
  lemma PartitionExample()
    ensures Chunks(Chunking(2, () => [], (l: seq<int>, x: int) => l + [x], (l: seq<int>) => false), [1, 2, 3, 4, 5])
            == [[1, 2], [3, 4], [5]]
  {
    var c := Chunking(2, () => [], (l: seq<int>, x: int) => l + [x], (l: seq<int>) => false);
    var xs := [1, 2, 3, 4, 5];
    assert Chunks(c, []) == [];
    assert ChunkEnd(c, [5], 1) == 1 && [5][..1] == [5] && [5][1..] == [];
    assert Chunks(c, [5]) == [[5]] + Chunks(c, []);
    assert ChunkEnd(c, [3, 4, 5], 1) == 2 && [3, 4, 5][..2] == [3, 4] && [3, 4, 5][2..] == [5];
    assert Chunks(c, [3, 4, 5]) == [[3, 4]] + Chunks(c, [5]);
    assert ChunkEnd(c, xs, 1) == 2 && xs[..2] == [1, 2] && xs[2..] == [3, 4, 5];
    assert Chunks(c, xs) == [[1, 2]] + Chunks(c, [3, 4, 5]);
  }

  /** A limiter closes a chunk before it is full: summing weights and
      stopping at three splits four unit weights as `[[1, 1, 1], [1]]`. */
  lemma PartitionLimiterExample()
    ensures Chunks(Chunking(10, () => 0, (s: int, x: int) => s + x, (s: int) => s >= 3), [1, 1, 1, 1])
            == [[1, 1, 1], [1]]
  {
    var c := Chunking(10, () => 0, (s: int, x: int) => s + x, (s: int) => s >= 3);
    var xs := [1, 1, 1, 1];
    assert Chunks(c, []) == [];
    assert ChunkEnd(c, [1], 1) == 1 && [1][..1] == [1] && [1][1..] == [];
    assert Chunks(c, [1]) == [[1]] + Chunks(c, []);
    assert xs[..1] == [1] && xs[..2] == [1, 1] && xs[..3] == [1, 1, 1];
    assert Accumulate(c.accumulator, 0, [1]) == 1;
    assert Accumulate(c.accumulator, 0, [1, 1]) == 2 by {
      assert [1, 1][..1] == [1];
    }
    assert Accumulate(c.accumulator, 0, [1, 1, 1]) == 3 by {
      assert [1, 1, 1][..2] == [1, 1];
      assert [1, 1][..1] == [1];
    }
    assert !Trips(c, xs[..1]) && !Trips(c, xs[..2]) && Trips(c, xs[..3]);
    assert ChunkEnd(c, xs, 3) == 3;
    assert ChunkEnd(c, xs, 1) == 3;
    assert xs[3..] == [1];
    assert Chunks(c, xs) == [[1, 1, 1]] + Chunks(c, [1]);
  }

  // ---------------------------------------------------------------------
  // partition

  /** The open chunk: the limiter has tripped on none of its prefixes. */
  ghost predicate OpenChunk<T, A>(c: Chunking<T, A>, pending: seq<T>)
  {
    forall j {:trigger Trips(c, pending[..j])} :: 0 < j <= |pending| ==> !Trips(c, pending[..j])
  }

  /** Every element the partition has taken from the delegate is in an emitted
      chunk or in the open one, and what is emitted so far is a prefix of the
      chunks of its whole input. */
  ghost predicate Accounted<T, A>(c: Chunking<T, A>, input: seq<T>, emitted: seq<seq<T>>, pending: seq<T>, rest: seq<T>)
  {
    && c.size > 0
    && input == Flatten(emitted) + pending + rest
    && Chunks(c, input) == emitted + Chunks(c, pending + rest)
  }

  /** The accounting depends only on what is pending and undelivered together. */
  lemma AccountedShift<T, A>(c: Chunking<T, A>, input: seq<T>, emitted: seq<seq<T>>,
                             pending0: seq<T>, rest0: seq<T>, pending1: seq<T>, rest1: seq<T>)
    requires Accounted(c, input, emitted, pending0, rest0)
    requires pending1 + rest1 == pending0 + rest0
    ensures Accounted(c, input, emitted, pending1, rest1)
  {
    assert Flatten(emitted) + pending1 + rest1 == Flatten(emitted) + (pending1 + rest1);
    assert Flatten(emitted) + pending0 + rest0 == Flatten(emitted) + (pending0 + rest0);
  }

  /** Pulling one element from the delegate into the open chunk: it stays
      the elements pulled since `c0`, and no strict prefix of it trips. */
  lemma PullOne<T, A>(c: Chunking<T, A>, pending0: seq<T>, pending: seq<T>, x: T,
                      y0: seq<T>, y1: seq<T>, c0: nat, rest0: seq<T>, rest1: seq<T>)
    requires c0 <= |y0| && pending == pending0 + y0[c0..]
    requires y1 == y0 + [x] && rest0 == [x] + rest1
    requires forall j {:trigger Trips(c, pending[..j])} :: 0 < j < |pending| ==> !Trips(c, pending[..j])
    requires |pending| == 0 || !Trips(c, pending)
    ensures pending + [x] == pending0 + y1[c0..]
    ensures (pending + [x]) + rest1 == pending + rest0
    ensures forall j {:trigger Trips(c, (pending + [x])[..j])} :: 0 < j < |pending + [x]| ==> !Trips(c, (pending + [x])[..j])
    ensures Accumulate(c.accumulator, c.supplier(), pending + [x]) == c.accumulator(Accumulate(c.accumulator, c.supplier(), pending), x)
  {
    assert y1[c0..] == y0[c0..] + [x];
    assert (pending + [x])[..|pending|] == pending;
    forall j | 0 < j < |pending + [x]|
      ensures !Trips(c, (pending + [x])[..j])
    {
      assert (pending + [x])[..j] == pending[..j];
      if j == |pending| {
        assert pending[..j] == pending;
      }
    }
  }

  /** The `while` loop of the partition's `moveNext`: pulls elements from the
      delegate into the open chunk while it has fewer than `size` elements,
      the limiter has not tripped and the delegate's `moveNext` yields one.
      Returns whether the limiter tripped, with the chunk's new state. */
  method FillChunk<T, A>(bi: BatchIterator<T>, c: Chunking<T, A>, state0: A, idx0: int, ghost pending0: seq<T>)
    returns (r: Result<bool, Throwable>, state: A, idx: int, ghost pending: seq<T>)
    requires bi.Valid() && 0 <= idx0 < c.size && |pending0| == idx0
    requires state0 == Accumulate(c.accumulator, c.supplier(), pending0)
    requires OpenChunk(c, pending0)
    modifies bi
    ensures bi.Valid() && bi.batch == old(bi.batch) && bi.loads == old(bi.loads)
    ensures old(bi.Consumed()) <= bi.Consumed() && bi.Consumed() - old(bi.Consumed()) == idx - idx0
    ensures 0 <= idx <= c.size && |pending| == idx
    ensures pending == pending0 + bi.Yielded()[old(bi.Consumed())..]
    ensures pending + bi.Rest() == pending0 + old(bi.Rest())
    ensures state == Accumulate(c.accumulator, c.supplier(), pending)
    ensures forall j {:trigger Trips(c, pending[..j])} :: 0 < j < |pending| ==> !Trips(c, pending[..j])
    ensures r.Success? ==> r.value == (|pending| > 0 && Trips(c, pending))
    ensures r.Success? ==> idx == c.size || r.value || bi.Drained()
    ensures r.Success? && (idx == c.size || r.value) ==> bi.moves == old(bi.moves) + (idx - idx0)
    ensures r.Success? && !(idx == c.size || r.value) ==> bi.moves == old(bi.moves) + (idx - idx0) + 1
    ensures r.Failure? ==> bi.moves == old(bi.moves) + (idx - idx0) + 1
    ensures r.Failure? ==> idx < c.size && (|pending| == 0 || !Trips(c, pending))
    ensures r.Failure? ==> bi.fault.Some? && r.error == bi.fault.value.error && bi.Consumed() == bi.fault.value.at
    // The delegate's error is never swallowed: the first `moveNext` of the
    // loop throws when the delegate stands at its fault.
    ensures old(bi.fault.Some? && bi.Consumed() == bi.fault.value.at) ==> r.Failure?
    ensures r.Success? && !(idx == c.size || r.value) ==> !(bi.fault.Some? && bi.Consumed() == bi.fault.value.at)
  {
    ghost var c0, m0, rest00 := bi.Consumed(), bi.moves, bi.Rest();
    ghost var atFault := bi.fault.Some? && c0 == bi.fault.value.at;
    state, idx, pending := state0, idx0, pending0;
    var stateLimitReached := false;
    assert pending[..|pending|] == pending;
    assert bi.Yielded()[c0..] == [];
    while idx < c.size && !stateLimitReached
      invariant bi.Valid() && bi.batch == old(bi.batch) && bi.loads == old(bi.loads)
      invariant c0 <= bi.Consumed() && bi.Consumed() - c0 == idx - idx0
      invariant bi.moves == m0 + (idx - idx0)
      invariant 0 <= idx <= c.size && |pending| == idx
      invariant pending == pending0 + bi.Yielded()[c0..]
      invariant pending + bi.Rest() == pending0 + rest00
      invariant state == Accumulate(c.accumulator, c.supplier(), pending)
      invariant forall j {:trigger Trips(c, pending[..j])} :: 0 < j < |pending| ==> !Trips(c, pending[..j])
      invariant stateLimitReached == (|pending| > 0 && Trips(c, pending))
      invariant atFault ==> idx == idx0 && !stateLimitReached
      decreases c.size - idx
    {
      ghost var y0, rest0 := bi.Yielded(), bi.Rest();
      var moved := bi.MoveNext();
      if moved.Failure? || !moved.value {
        assert bi.Yielded() == y0 && bi.Rest() == rest0 && bi.moves == m0 + (idx - idx0) + 1;
        assert !stateLimitReached && idx < c.size;
        if moved.Failure? {
          assert bi.Consumed() == bi.fault.value.at;
          return Failure(moved.error), state, idx, pending;
        }
        assert bi.Drained() && !atFault;
        assert !(bi.fault.Some? && bi.Consumed() == bi.fault.value.at);
        return Success(false), state, idx, pending;
      }
      var x := bi.CurrentElement();
      PullOne(c, pending0, pending, x, y0, bi.Yielded(), c0, rest0, bi.Rest());
      state := c.accumulator(state, x);
      stateLimitReached := c.stateLimiter(state);
      idx := idx + 1;
      pending := pending + [x];
    }
    assert !atFault;
    return Success(stateLimitReached), state, idx, pending;
  }

  /** Emitting a closed chunk keeps the accounting. */
  lemma EmitClosedChunk<T, A>(c: Chunking<T, A>, input: seq<T>, emitted: seq<seq<T>>, pending: seq<T>, rest: seq<T>)
    requires Accounted(c, input, emitted, pending, rest)
    requires 0 < |pending| <= c.size
    requires forall j {:trigger Trips(c, pending[..j])} :: 0 < j < |pending| ==> !Trips(c, pending[..j])
    requires |pending| == c.size || Trips(c, pending) || rest == []
    ensures Accounted(c, input, emitted + [pending], [], rest)
  {
    var e: seq<T> := [];
    assert e + rest == rest;
    assert Chunks(c, input) == (emitted + [pending]) + Chunks(c, e + rest) by {
      ChunksOfClosedChunk(c, pending, rest);
    }
    assert input == Flatten(emitted + [pending]) + e + rest by {
      FlattenAppend(emitted, [pending]);
      FlattenSingle(pending);
    }
  }

  /** Once everything is taken and nothing is open, all chunks are emitted. */
  lemma AllEmitted<T, A>(c: Chunking<T, A>, input: seq<T>, emitted: seq<seq<T>>)
    requires Accounted(c, input, emitted, [], [])
    ensures emitted == Chunks(c, input)
  {
    var e: seq<T> := [];
    assert e + e == e;
  }

  /** The iterator `partition` returns: each `moveNext` pulls elements from
      `bi` into the open chunk's state until the chunk is complete or the
      loaded batch runs out, and emits the state as `currentElement`. */
  class PartitionIterator<T, A> {
    const bi: BatchIterator<T>
    const size: int
    const supplier: () -> A
    const accumulator: (A, T) -> A
    const stateLimiter: A -> bool
    /** The emitted chunk's state; `None` is `null`. */
    var element: Option<A>
    /** The open chunk's state. */
    var state: A
    /** The number of elements in the open chunk. */
    var idx: int
    /** The elements in the open chunk. */
    ghost var pending: seq<T>
    /** The chunks emitted so far. */
    ghost var emitted: seq<seq<T>>
    /** What the delegate still had to deliver when the partition was made. */
    ghost const input: seq<T>

    function Rule(): Chunking<T, A>
    {
      Chunking(size, supplier, accumulator, stateLimiter)
    }

    ghost predicate Valid()
      reads this, bi
    {
      && bi.Valid()
      && 0 <= idx < size && |pending| == idx
      && state == Accumulate(accumulator, supplier(), pending)
      && OpenChunk(Rule(), pending)
      && Accounted(Rule(), input, emitted, pending, bi.Rest())
      && Published(element, emitted)
    }

    /** The element published is `null` or the state of the last chunk emitted. */
    ghost predicate Published(e: Option<A>, emitted: seq<seq<T>>)
    {
      e.Some? ==> emitted != [] && e.value == Accumulate(accumulator, supplier(), emitted[|emitted| - 1])
    }

    /** `partition(bi, size, supplier, accumulator, stateLimiter)`. */
    constructor (bi: BatchIterator<T>, size: int, supplier: () -> A, accumulator: (A, T) -> A, stateLimiter: A -> bool)
      requires bi.Valid() && size > 0
      ensures Valid()
      ensures this.bi == bi && this.size == size && this.supplier == supplier
      ensures this.accumulator == accumulator && this.stateLimiter == stateLimiter
      ensures element == None && emitted == [] && input == bi.Rest()
    {
      this.bi := bi;
      this.size := size;
      this.supplier := supplier;
      this.accumulator := accumulator;
      this.stateLimiter := stateLimiter;
      element := None;
      state := supplier();
      idx := 0;
      pending := [];
      emitted := [];
      input := bi.Rest();
      new;
      ghost var none: seq<T>, nothing: seq<seq<T>> := [], [];
      assert pending == none && emitted == nothing;
      assert Flatten(nothing) + none + input == input && none + input == input;
      assert nothing + Chunks(Rule(), none + input) == Chunks(Rule(), input);
      assert state == Accumulate(accumulator, supplier(), none);
    }

    /** `moveNext`: true when a chunk is emitted. A chunk is emitted when it
        reaches `size` elements, when the limiter trips on its state, or, if it
        is not empty, when the delegate is drained and fully loaded. Otherwise
        the open chunk is kept as it is for the next call. */
    method MoveNext() returns (r: Result<bool, Throwable>)
      requires Valid()
      modifies this, bi
      ensures Valid()
      ensures bi.batch == old(bi.batch) && bi.loads == old(bi.loads)
      ensures r == Success(true) ==>
                && |emitted| == |old(emitted)| + 1 && emitted[..|old(emitted)|] == old(emitted)
                && element == Some(Accumulate(accumulator, supplier(), emitted[|emitted| - 1]))
                && idx == 0 && pending == [] && state == supplier()
      ensures r != Success(true) ==> emitted == old(emitted)
      ensures r == Success(false) ==> element == None && bi.Drained() && (idx == 0 || !bi.AllLoaded())
      ensures r == Success(false) && bi.AllLoaded() ==> emitted == Chunks(Rule(), input)
      ensures r.Failure? ==> element == old(element) && bi.fault.Some? && r.error == bi.fault.value.error
      ensures r.Failure? ==> bi.Consumed() == bi.fault.value.at
      ensures old(bi.fault.Some? && bi.Consumed() == bi.fault.value.at) ==> r.Failure?
      ensures r == Success(false) ==> !(bi.fault.Some? && bi.Consumed() == bi.fault.value.at)
      // Java's loop calls the delegate's `moveNext` until the chunk is full or
      // tripped, so only such a chunk can be emitted with the delegate at its fault.
      ensures r == Success(true) && bi.fault.Some? && bi.Consumed() == bi.fault.value.at ==>
                |emitted[|emitted| - 1]| == size || Trips(Rule(), emitted[|emitted| - 1])
    {
      ghost var rest0 := bi.Rest();
      var filled, st, i, p := FillChunk(bi, Rule(), state, idx, pending);
      AccountedShift(Rule(), input, emitted, pending, rest0, p, bi.Rest());
      assert p[..|p|] == p;
      if filled.Failure? {
        Hold(element, st, i, p);
        return Failure(filled.error);
      }
      var emit := Settle(filled.value, st, i, p);
      if emit {
        assert emitted[..|old(emitted)|] == old(emitted) && emitted[|emitted| - 1] == p;
        return Success(true);
      }
      return Success(false);
    }

    /** The end of `moveNext` once the loop stopped without an error: the open
        chunk `p` is emitted when it is full, tripped the limiter, or is not
        empty with the delegate drained and fully loaded; otherwise it stays
        open and the current element becomes `null`. */
    method Settle(tripped: bool, st: A, i: int, ghost p: seq<T>) returns (emit: bool)
      requires bi.Valid() && 0 <= i <= size && |p| == i && st == Accumulate(accumulator, supplier(), p)
      requires Accounted(Rule(), input, emitted, p, bi.Rest())
      requires forall j {:trigger Trips(Rule(), p[..j])} :: 0 < j < |p| ==> !Trips(Rule(), p[..j])
      requires tripped == (|p| > 0 && Trips(Rule(), p))
      requires i == size || tripped || bi.Drained()
      modifies this`element, this`state, this`idx, this`emitted, this`pending
      ensures Valid()
      ensures emit <==> i == size || tripped || (i > 0 && bi.AllLoaded())
      ensures emit ==>
                && emitted == old(emitted) + [p] && element == Some(st)
                && idx == 0 && pending == [] && state == supplier()
      ensures !emit ==> emitted == old(emitted) && element == None && bi.Drained() && (idx == 0 || !bi.AllLoaded())
      ensures !emit && bi.AllLoaded() ==> emitted == Chunks(Rule(), input)
    {
      if i == size || tripped || (i > 0 && bi.AllLoaded()) {
        if !(i == size || tripped) {
          bi.ExhaustedHasNoRest();
        }
        Emit(st, p);
        return true;
      }
      assert p[..|p|] == p;
      if bi.AllLoaded() {
        bi.ExhaustedHasNoRest();
        AllEmitted(Rule(), input, emitted);
      }
      Hold(None, st, i, p);
      return false;
    }

    /** The open chunk `p`, with state `st`, is closed: its state is emitted
        and a fresh chunk is opened. */
    method Emit(st: A, ghost p: seq<T>)
      requires bi.Valid() && 0 < |p| <= size && st == Accumulate(accumulator, supplier(), p)
      requires Accounted(Rule(), input, emitted, p, bi.Rest())
      requires forall j {:trigger Trips(Rule(), p[..j])} :: 0 < j < |p| ==> !Trips(Rule(), p[..j])
      requires |p| == size || Trips(Rule(), p) || bi.Rest() == []
      modifies this`element, this`state, this`idx, this`emitted, this`pending
      ensures Valid()
      ensures emitted == old(emitted) + [p] && element == Some(st) && idx == 0 && pending == [] && state == supplier()
    {
      EmitClosedChunk(Rule(), input, emitted, p, bi.Rest());
      element, state, idx, emitted, pending := Some(st), supplier(), 0, emitted + [p], [];
    }

    /** The open chunk becomes `p`, with state `st`, and `e` is published. */
    method Hold(e: Option<A>, st: A, i: int, ghost p: seq<T>)
      requires bi.Valid() && 0 <= i < size && |p| == i && st == Accumulate(accumulator, supplier(), p)
      requires OpenChunk(Rule(), p) && Accounted(Rule(), input, emitted, p, bi.Rest())
      requires Published(e, emitted)
      modifies this`element, this`state, this`idx, this`pending
      ensures Valid()
      ensures element == e && state == st && idx == i && pending == p && emitted == old(emitted)
    {
      element, state, idx, pending := e, st, i, p;
    }

    /** `currentElement`: the last emitted chunk's state, or `null`. */
    function CurrentElement(): (e: Option<A>)
      reads this, bi
      requires Valid()
      ensures e.Some? ==> emitted != [] && e.value == Accumulate(accumulator, supplier(), emitted[|emitted| - 1])
    {
      element
    }

    /** `allLoaded`, forwarded to the delegate. */
    predicate AllLoaded()
      reads bi
      ensures AllLoaded() <==> bi.batch < |bi.batches| && bi.batches[bi.batch + 1..] == []
    {
      bi.AllLoaded()
    }

    /** `loadNextBatch`, forwarded to the delegate; the open chunk survives it. */
    method LoadNextBatch() returns (r: Outcome<Throwable>)
      requires Valid() && bi.Drained()
      modifies bi
      ensures Valid()
      ensures r.Fail? <==> old(bi.AllLoaded())
      ensures r.Pass? ==> bi.batch == old(bi.batch) + 1
    {
      r := bi.LoadNextBatch();
    }
  }

  // ---------------------------------------------------------------------
  // collect

  /** A `java.util.stream.Collector`: its supplier, accumulator and finisher may throw. */
  datatype Collector<!T, !S, R> = Collector(supplier: () -> Result<S, Throwable>, accumulator: (S, T) -> Result<S, Throwable>, finisher: S -> Result<R, Throwable>)

  /** `thenApply`: a failure passes through, a success is transformed. */
  function Then<S, R>(r: Result<S, Throwable>, f: S -> Result<R, Throwable>): Result<R, Throwable>
  {
    match r
    case Failure(e) => Failure(e)
    case Success(s) => f(s)
  }

  /** What collecting the elements `xs` from `state` yields. */
  function Collected<T, S, R>(collector: Collector<T, S, R>, state: S, xs: seq<T>, breaks: Option<Throwable>): Result<R, Throwable>
  {
    Then(Interrupted(FoldLeft(collector.accumulator, state, xs), breaks), collector.finisher)
  }

  /** The `CompletableFuture` handed to `collect`: completed at most once. */
  class ResultFuture<R> {
    /** `None` while incomplete; then the value or the exception. */
    var outcome: Option<Result<R, Throwable>>

    constructor ()
      ensures outcome == None
    {
      outcome := None;
    }

    /** `complete`: true when this call completed the future. */
    method Complete(v: R) returns (changed: bool)
      modifies this
      ensures changed == old(outcome).None?
      ensures outcome == if changed then Some(Success(v)) else old(outcome)
    {
      changed := outcome.None?;
      if changed {
        outcome := Some(Success(v));
      }
    }

    /** `completeExceptionally`: true when this call completed the future. */
    method CompleteExceptionally(e: Throwable) returns (changed: bool)
      modifies this
      ensures changed == old(outcome).None?
      ensures outcome == if changed then Some(Failure(e)) else old(outcome)
    {
      changed := outcome.None?;
      if changed {
        outcome := Some(Failure(e));
      }
    }
  }

  /** `collect(it, state, collector, resultFuture)`: folds the accumulator over
      the remaining elements, applies the finisher, and completes
      `resultFuture` with the outcome. The outcome is also returned. */
  method CollectInto<T, S, R>(it: BatchIterator<T>, state: S, collector: Collector<T, S, R>, resultFuture: ResultFuture<R>)
    returns (r: Result<R, Throwable>)
    requires it.Valid()
    modifies it, resultFuture
    ensures r == Collected(collector, state, old(it.Remaining()), it.Breaks())
    ensures resultFuture.outcome == if old(resultFuture.outcome).None? then Some(r) else old(resultFuture.outcome)
    ensures it.Valid()
    // The source is drained whenever the fold got through, even if the finisher then throws.
    ensures Interrupted(FoldLeft(collector.accumulator, state, old(it.Remaining())), it.Breaks()).Success? ==>
              it.AllLoaded() && it.Drained() && it.Rest() == []
  {
    var folded := Fold(it, collector.accumulator, state);
    r := Then(folded, collector.finisher);
    if r.Success? {
      var _ := resultFuture.Complete(r.value);
    } else {
      var _ := resultFuture.CompleteExceptionally(r.error);
    }
  }

  /** `collect(it, collector)`: collects into a fresh state and a fresh future. */
  method Collect<T, S, R>(it: BatchIterator<T>, collector: Collector<T, S, R>) returns (r: Result<R, Throwable>)
    requires it.Valid()
    modifies it
    ensures it.Valid()
    // A throwing supplier escapes at once, before the source is touched.
    ensures collector.supplier().Failure? ==> r == Failure(collector.supplier().error) && unchanged(it)
    ensures collector.supplier().Success? ==>
              r == Collected(collector, collector.supplier().value, old(it.Remaining()), it.Breaks())
    ensures collector.supplier().Success? &&
            Interrupted(FoldLeft(collector.accumulator, collector.supplier().value, old(it.Remaining())), it.Breaks()).Success? ==>
              it.AllLoaded() && it.Drained() && it.Rest() == []
  {
    var initial := collector.supplier();
    if initial.Failure? {
      return Failure(initial.error);
    }
    var resultFuture := new ResultFuture();
    r := CollectInto(it, initial.value, collector, resultFuture);
  }

  /** The accumulator of a collector into a list. */
  function AddToList<T>(list: seq<T>, x: T): Result<seq<T>, Throwable>
  {
    Success(list + [x])
  }

  /** A collector into a list keeps every element, in order, after the initial list. */
  lemma {:induction false} CollectToList<T>(init: seq<T>, xs: seq<T>)
    ensures FoldLeft(AddToList, init, xs) == Success(init + xs)
    decreases |xs|
  {
    if xs != [] {
      var front, last := xs[..|xs| - 1], xs[|xs| - 1];
      CollectToList(init, front);
      assert FoldLeft(AddToList, init, xs) == AddToList(init + front, last);
      assert init + front + [last] == init + xs;
    } else {
      assert init + xs == init;
    }
  }

  /** A source that breaks fails `collect` with its own error unless the
      accumulator threw first; the finisher then never runs. */
  lemma CollectOfBrokenSource<T, S, R>(collector: Collector<T, S, R>, state: S, xs: seq<T>, e: Throwable)
    ensures Collected(collector, state, xs, Some(e)).Failure?
    ensures FoldLeft(collector.accumulator, state, xs).Success? ==> Collected(collector, state, xs, Some(e)) == Failure(e)
  {
  }

  // ---------------------------------------------------------------------
  // map

  /** Every element of `xs` through `f`. */
  function MapSeq<I, O>(f: I -> O, xs: seq<I>): (ys: seq<O>)
    ensures |ys| == |xs|
  {
    seq(|xs|, i requires 0 <= i < |xs| => f(xs[i]))
  }

  lemma MapSeqAppend<I, O>(f: I -> O, xs: seq<I>, ys: seq<I>)
    ensures MapSeq(f, xs + ys) == MapSeq(f, xs) + MapSeq(f, ys)
  {
  }

  /** Folding the mapped elements is folding the originals with the mapper
      applied inside the step. */
  lemma {:induction false} FoldLeftMap<I, O, S>(step: (S, O) -> Result<S, Throwable>, f: I -> O, init: S, xs: seq<I>)
    ensures FoldLeft(step, init, MapSeq(f, xs)) == FoldLeft((s: S, x: I) => step(s, f(x)), init, xs)
    decreases |xs|
  {
    if xs != [] {
      var ys := MapSeq(f, xs);
      assert ys[..|ys| - 1] == MapSeq(f, xs[..|xs| - 1]);
      FoldLeftMap(step, f, init, xs[..|xs| - 1]);
    }
  }

  /** The iterator `map` returns: forwards everything to `bi` and passes each
      element through `mapper`. */
  class MappedBatchIterator<I, O> {
    const bi: BatchIterator<I>
    const mapper: I -> O

    constructor (bi: BatchIterator<I>, mapper: I -> O)
      ensures this.bi == bi && this.mapper == mapper
      // What is left to deliver is the delegate's rest, element by element through `mapper`.
      ensures bi.InRange() ==>
                |Rest()| == |bi.Rest()| && forall i :: 0 <= i < |bi.Rest()| ==> Rest()[i] == mapper(bi.Rest()[i])
    {
      this.bi := bi;
      this.mapper := mapper;
    }

    /** All elements this iterator will ever deliver, in order. */
    ghost function Elements(): seq<O>
    {
      MapSeq(mapper, bi.Elements())
    }

    /** The elements handed out so far. */
    ghost function Yielded(): (r: seq<O>)
      reads bi`batch, bi`pos
      requires bi.InRange()
      ensures |r| == bi.Consumed()
    {
      MapSeq(mapper, bi.Yielded())
    }

    /** The elements not handed out yet. */
    ghost function Rest(): (r: seq<O>)
      reads bi`batch, bi`pos
      requires bi.InRange()
      ensures Yielded() + r == Elements()
    {
      MapSeqAppend(mapper, bi.Yielded(), bi.Rest());
      MapSeq(mapper, bi.Rest())
    }

    /** `moveNext`, forwarded to the delegate. */
    method MoveNext() returns (r: Result<bool, Throwable>)
      requires bi.Valid()
      modifies bi
      ensures bi.Valid() && bi.batch == old(bi.batch)
      ensures r.Failure? <==> bi.fault.Some? && old(bi.Consumed()) == bi.fault.value.at
      ensures r == Success(true) <==> r.Success? && old(bi.pos) < |bi.batches[bi.batch]|
      ensures r == Success(true) ==>
                && bi.positioned
                && old(Rest()) == [CurrentElement()] + Rest()
                && Yielded() == old(Yielded()) + [CurrentElement()]
      ensures r == Success(false) ==> bi.Drained()
      ensures r.Failure? ==> r.error == bi.fault.value.error
      ensures r != Success(true) ==> Rest() == old(Rest()) && Yielded() == old(Yielded())
    {
      ghost var yielded0, rest0 := bi.Yielded(), bi.Rest();
      r := bi.MoveNext();
      if r == Success(true) {
        ghost var x := bi.CurrentElement();
        assert bi.Yielded() == yielded0 + [x] && rest0 == [x] + bi.Rest();
        MapSeqAppend(mapper, yielded0, [x]);
        MapSeqAppend(mapper, [x], bi.Rest());
        assert Yielded() == MapSeq(mapper, yielded0) + [CurrentElement()];
        assert MapSeq(mapper, rest0) == [CurrentElement()] + Rest();
      } else {
        assert bi.Yielded() == yielded0 && bi.Rest() == rest0;
      }
    }

    /** `currentElement`: the delegate's current element through `mapper`. */
    function CurrentElement(): (x: O)
      reads bi`batch, bi`pos, bi`positioned
      requires bi.Valid() && bi.positioned
      ensures x == Yielded()[bi.Consumed() - 1]
    {
      mapper(bi.CurrentElement())
    }

    /** `allLoaded`, forwarded to the delegate. */
    predicate AllLoaded()
      reads bi`batch
      ensures AllLoaded() <==> bi.batch < |bi.batches| && bi.batches[bi.batch + 1..] == []
    {
      bi.AllLoaded()
    }

    /** `loadNextBatch`, forwarded to the delegate. */
    method LoadNextBatch() returns (r: Outcome<Throwable>)
      requires bi.Valid() && bi.Drained()
      modifies bi
      ensures bi.Valid()
      ensures r.Fail? <==> old(bi.AllLoaded())
      ensures r.Pass? ==> bi.batch == old(bi.batch) + 1 && bi.pos == 0
      ensures Rest() == old(Rest())
    {
      r := bi.LoadNextBatch();
    }
  }
}
