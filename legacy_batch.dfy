/** The batching loop shared by the two legacy writers: passes over the
    listing open one TDMS object per file until `numFiles` layers are
    open, and the objects accumulated so far are processed and released
    whenever the count of opened layers fills a batch or reaches
    `numFiles`. */
module LegacyBatch {
  import opened Common

  /** The flush test after each opening. Python's `%` and Dafny's differ
      on negative operands but agree on whether the remainder is zero. */
  predicate FlushAt(n: int, numFiles: int, batchSize: int)
    requires batchSize != 0
  {
    n % batchSize == 0 || n == numFiles
  }

  /** The first `n` objects the passes open: the listing over and over. */
  function Opened<F>(files: seq<F>, n: nat): (r: seq<F>)
    requires |files| > 0 || n == 0
    ensures |r| == n
    decreases n
  {
    if n <= |files| then files[..n] else files + Opened(files, n - |files|)
  }

  /** `n` opened layers are a whole number of passes. */
  predicate Boundary(count: nat, n: nat)
    requires count > 0
    decreases n
  {
    n == 0 || (n >= count && Boundary(count, n - count))
  }

  /** The count of opened layers when the outer loop stops, from `done`
      layers at the head of a pass. */
  function Passes(count: nat, numFiles: int, done: nat): (n: nat)
    requires count > 0
    ensures n >= done
    ensures done >= numFiles ==> n == done
    ensures done < numFiles ==> numFiles <= n < numFiles + count
    ensures Boundary(count, done) ==> Boundary(count, n)
    decreases numFiles - done
  {
    if done >= numFiles then done
    else
      assert Boundary(count, done) ==> Boundary(count, done + count) by {
        assert done + count - count == done;
      }
      Passes(count, numFiles, done + count)
  }

  /** The `numLayers` both writers return. */
  function LayerTotal(count: nat, numFiles: int): nat
    requires count > 0
  {
    Passes(count, numFiles, 0)
  }

  /** The returned count is 0 for a non-positive request, and otherwise
      the first whole number of passes that reaches `numFiles`. */
  lemma LayerTotalBounds(count: nat, numFiles: int)
    requires count > 0
    ensures var n := LayerTotal(count, numFiles);
            && Boundary(count, n)
            && (numFiles <= 0 ==> n == 0)
            && (numFiles > 0 ==> numFiles <= n < numFiles + count)
  {
  }

  /** The last count of opened layers at which the batch was flushed
      (0 before any flush). */
  function LastFlush(n: nat, numFiles: int, batchSize: int): (m: nat)
    requires batchSize != 0
    ensures m <= n && FlushAt(m, numFiles, batchSize)
    ensures forall j | m < j <= n :: !FlushAt(j, numFiles, batchSize)
  {
    if n == 0 || FlushAt(n, numFiles, batchSize) then n else LastFlush(n - 1, numFiles, batchSize)
  }

  /** The objects processed once `n` layers are open, and those still
      waiting for the next flush. */
  function Flushed<F>(files: seq<F>, n: nat, numFiles: int, batchSize: int): seq<F>
    requires |files| > 0 && batchSize != 0
  {
    Opened(files, n)[..LastFlush(n, numFiles, batchSize)]
  }

  function Pending<F>(files: seq<F>, n: nat, numFiles: int, batchSize: int): seq<F>
    requires |files| > 0 && batchSize != 0
  {
    Opened(files, n)[LastFlush(n, numFiles, batchSize)..]
  }

  /** Everything a writer processes, in order: the objects opened up to
      the last flush. Objects opened after it are released unwritten. */
  function Processed<F>(files: seq<F>, numFiles: int, batchSize: int): seq<F>
    requires |files| > 0 && batchSize != 0
  {
    Flushed(files, LayerTotal(|files|, numFiles), numFiles, batchSize)
  }

  /** Processing a sequence of objects with consecutive slice counters from
      `counter`, stopping at the first error. */
  function Fold<S, F>(step: (S, F, int) -> (S, Option<Error>), st: S, objs: seq<F>, counter: int): (S, Option<Error>)
    decreases |objs|
  {
    if objs == [] then (st, None)
    else
      var (st1, e) := step(st, objs[0], counter);
      if e.Some? then (st1, e) else Fold(step, st1, objs[1..], counter + 1)
  }

  /** A whole run of a writer: its final state and the returned count, or
      the exception that ended it. A zero batch size fails at the first
      flush test. */
  function BatchRun<S, F>(step: (S, F, int) -> (S, Option<Error>), init: S, files: seq<F>,
                          numFiles: int, batchSize: int, first: int): (S, Result<nat>)
    requires |files| > 0 || numFiles <= 0
  {
    if numFiles <= 0 then (init, Ok(0))
    else if batchSize == 0 then (init, Err(ZeroBatchSize))
    else
      var (st, e) := Fold(step, init, Processed(files, numFiles, batchSize), first);
      (st, if e.Some? then Err(e.value) else Ok(LayerTotal(|files|, numFiles)))
  }

  /** Opening within a pass appends the next files of the listing. */
  lemma {:induction false} OpenedNextPass<F>(files: seq<F>, n: nat, k: nat)
    requires |files| > 0 && Boundary(|files|, n) && k <= |files|
    ensures Opened(files, n + k) == Opened(files, n) + files[..k]
    decreases n
  {
    if n != 0 {
      if n + k > |files| {
        OpenedNextPass(files, n - |files|, k);
        assert n - |files| + k == n + k - |files|;
      } else {
        assert files[..|files|] == files;
      }
    }
  }

  /** Opening the `f`-th file of a pass appends that file. */
  lemma OpenStep<F>(files: seq<F>, start: nat, f: nat)
    requires |files| > 0 && Boundary(|files|, start) && f < |files|
    ensures Opened(files, start + f + 1) == Opened(files, start + f) + [files[f]]
  {
    OpenedNextPass(files, start, f);
    OpenedNextPass(files, start, f + 1);
    assert files[..f + 1] == files[..f] + [files[f]];
  }

  /** Fewer layers open means a prefix of the opened objects. */
  lemma {:induction false} OpenedPrefix<F>(files: seq<F>, m: nat, n: nat)
    requires |files| > 0 && m <= n
    ensures Opened(files, n)[..m] == Opened(files, m)
    decreases n
  {
    if m > |files| {
      OpenedPrefix(files, m - |files|, n - |files|);
    }
  }

  /** The `k`-th object opened is the file at position `k` modulo the
      listing's length. */
  lemma OpenedCycles<F>(files: seq<F>, n: nat, k: nat)
    requires |files| > 0 && k < n
    ensures Opened(files, n)[k] == files[k % |files|]
  {
    OpenedAt(files, n, k, k / |files|);
  }

  /** The `k`-th object opened, in pass `q`. */
  lemma {:induction false} OpenedAt<F>(files: seq<F>, n: nat, k: nat, q: nat)
    requires |files| > 0 && k < n && |files| * q <= k < |files| * q + |files|
    ensures Opened(files, n)[k] == files[k - |files| * q]
    decreases q
  {
    var c := |files|;
    if q == 0 {
      if n > c {
        assert (files + Opened(files, n - c))[k] == files[k];
      }
    } else {
      assert c * q == c * (q - 1) + c;
      OpenedAt(files, n - c, k - c, q - 1);
      assert (files + Opened(files, n - c))[k] == Opened(files, n - c)[k - c];
    }
  }

  /** Opening one layer either leaves the processed objects as they were
      and queues the new one, or flushes the queue with it. */
  lemma PendingStep<F>(files: seq<F>, start: nat, f: nat, numFiles: int, batchSize: int)
    requires |files| > 0 && batchSize != 0
    requires Boundary(|files|, start) && f < |files|
    ensures var n := start + f;
            if FlushAt(n + 1, numFiles, batchSize) then
              && Flushed(files, n + 1, numFiles, batchSize)
                 == Flushed(files, n, numFiles, batchSize) + Pending(files, n, numFiles, batchSize) + [files[f]]
              && Pending(files, n + 1, numFiles, batchSize) == []
            else
              && Flushed(files, n + 1, numFiles, batchSize) == Flushed(files, n, numFiles, batchSize)
              && Pending(files, n + 1, numFiles, batchSize) == Pending(files, n, numFiles, batchSize) + [files[f]]
  {
    var n := start + f;
    OpenStep(files, start, f);
    var o := Opened(files, n);
    var m := LastFlush(n, numFiles, batchSize);
    assert o == o[..m] + o[m..];
    if !FlushAt(n + 1, numFiles, batchSize) {
      assert (o + [files[f]])[..m] == o[..m];
    }
  }

  /** The objects processed after `n` layers begin the objects processed
      by the whole run. */
  lemma FlushedPrefix<F>(files: seq<F>, n: nat, total: nat, numFiles: int, batchSize: int)
    requires |files| > 0 && batchSize != 0 && n <= total
    ensures var fl := Flushed(files, n, numFiles, batchSize);
            Flushed(files, total, numFiles, batchSize)[..|fl|] == fl
  {
    var m := LastFlush(n, numFiles, batchSize);
    var mt := LastFlush(total, numFiles, batchSize);
    assert m <= mt;
    OpenedPrefix(files, n, total);
    OpenedPrefix(files, mt, total);
    assert Opened(files, total)[..mt][..m] == Opened(files, total)[..m];
    assert Opened(files, n)[..m] == Opened(files, total)[..n][..m];
  }

  /** Processing `a` then `b` is processing `a + b`, the counters of `b`
      following those of `a`, unless `a` already failed. */
  lemma {:induction false} FoldAppend<S, F>(step: (S, F, int) -> (S, Option<Error>), st: S, a: seq<F>, b: seq<F>, counter: int)
    ensures Fold(step, st, a + b, counter)
            == var (s1, e) := Fold(step, st, a, counter);
               if e.Some? then (s1, e) else Fold(step, s1, b, counter + |a|)
    decreases |a|
  {
    if a == [] {
      assert a + b == b;
    } else {
      assert (a + b)[0] == a[0];
      assert (a + b)[1..] == a[1..] + b;
      var (s1, e) := step(st, a[0], counter);
      if e.None? {
        FoldAppend(step, s1, a[1..], b, counter + 1);
      }
    }
  }

  /** Processing one more object after a successful prefix. */
  lemma FoldSnoc<S, F>(step: (S, F, int) -> (S, Option<Error>), st: S, a: seq<F>, x: F, counter: int)
    requires Fold(step, st, a, counter).1.None?
    ensures Fold(step, st, a + [x], counter) == step(Fold(step, st, a, counter).0, x, counter + |a|)
  {
    FoldAppend(step, st, a, [x], counter);
    var s1 := Fold(step, st, a, counter).0;
    var (s2, e2) := step(s1, x, counter + |a|);
    assert [x][1..] == [];
  }

  /** One more object after a successful prefix: its step either extends
      the successful prefix or ends the whole processing. */
  lemma FoldNext<S, F>(step: (S, F, int) -> (S, Option<Error>), st: S, objs: seq<F>, k: nat, counter: int,
                       cur: S, next: S, e: Option<Error>)
    requires k < |objs| && Fold(step, st, objs[..k], counter) == (cur, None)
    requires step(cur, objs[k], counter + k) == (next, e)
    ensures e.None? ==> Fold(step, st, objs[..k + 1], counter) == (next, None)
    ensures e.Some? ==> Fold(step, st, objs, counter) == (next, e)
  {
    FoldSnoc(step, st, objs[..k], objs[k], counter);
    assert objs[..k] + [objs[k]] == objs[..k + 1];
    if e.Some? {
      FoldStops(step, st, objs, k + 1, counter);
    }
  }

  /** The first error ends the processing: nothing after it changes the
      outcome. */
  lemma FoldStops<S, F>(step: (S, F, int) -> (S, Option<Error>), st: S, objs: seq<F>, k: nat, counter: int)
    requires k <= |objs| && Fold(step, st, objs[..k], counter).1.Some?
    ensures Fold(step, st, objs, counter) == Fold(step, st, objs[..k], counter)
  {
    FoldAppend(step, st, objs[..k], objs[k..], counter);
    assert objs[..k] + objs[k..] == objs;
  }

  /** What opening one more layer does to a writer's progress: without a
      flush nothing is processed and the object joins the queue; with
      one, the whole queue is processed, continuing the slice counters. */
  lemma BatchOpen<S, F>(step: (S, F, int) -> (S, Option<Error>), init: S, files: seq<F>,
                        numFiles: int, batchSize: int, first: int, start: nat, f: nat,
                        st: S, queue: seq<F>, counter: int)
    requires |files| > 0 && batchSize != 0
    requires Boundary(|files|, start) && f < |files|
    requires (st, None) == Fold(step, init, Flushed(files, start + f, numFiles, batchSize), first)
    requires queue == Pending(files, start + f, numFiles, batchSize) + [files[f]]
    requires counter == first - 1 + |Flushed(files, start + f, numFiles, batchSize)|
    ensures FlushAt(start + f + 1, numFiles, batchSize) ==>
              && Fold(step, init, Flushed(files, start + f + 1, numFiles, batchSize), first)
                 == Fold(step, st, queue, counter + 1)
              && counter + |queue| == first - 1 + |Flushed(files, start + f + 1, numFiles, batchSize)|
              && Pending(files, start + f + 1, numFiles, batchSize) == []
    ensures !FlushAt(start + f + 1, numFiles, batchSize) ==>
              && Flushed(files, start + f + 1, numFiles, batchSize) == Flushed(files, start + f, numFiles, batchSize)
              && Pending(files, start + f + 1, numFiles, batchSize) == queue
  {
    var n := start + f;
    PendingStep(files, start, f, numFiles, batchSize);
    var done := Flushed(files, n, numFiles, batchSize);
    if FlushAt(n + 1, numFiles, batchSize) {
      assert done + Pending(files, n, numFiles, batchSize) + [files[f]] == done + queue;
      FoldAppend(step, init, done, queue, first);
    }
  }

  /** An error after `n` opened layers is the error of the whole run. */
  lemma BatchStops<S, F>(step: (S, F, int) -> (S, Option<Error>), init: S, files: seq<F>,
                         numFiles: int, batchSize: int, first: int, n: nat)
    requires |files| > 0 && batchSize != 0 && n <= LayerTotal(|files|, numFiles)
    requires Fold(step, init, Flushed(files, n, numFiles, batchSize), first).1.Some?
    ensures Fold(step, init, Processed(files, numFiles, batchSize), first)
            == Fold(step, init, Flushed(files, n, numFiles, batchSize), first)
  {
    var fl := Flushed(files, n, numFiles, batchSize);
    FlushedPrefix(files, n, LayerTotal(|files|, numFiles), numFiles, batchSize);
    FoldStops(step, init, Processed(files, numFiles, batchSize), |fl|, first);
  }

  /** A run with a positive request and a non-zero batch size is the
      processing of exactly the objects `Processed` lists. */
  lemma BatchRunFolds<S, F>(step: (S, F, int) -> (S, Option<Error>), init: S, files: seq<F>,
                            numFiles: int, batchSize: int, first: int)
    requires |files| > 0 && numFiles > 0 && batchSize != 0
    ensures var (st, e) := Fold(step, init, Processed(files, numFiles, batchSize), first);
            BatchRun(step, init, files, numFiles, batchSize, first)
            == (st, if e.Some? then Err(e.value) else Ok(LayerTotal(|files|, numFiles)))
  {
  }

  /** Two steps that agree on every input give the same processing. */
  lemma {:induction false} FoldAgrees<S, F>(step1: (S, F, int) -> (S, Option<Error>), step2: (S, F, int) -> (S, Option<Error>),
                                            st: S, objs: seq<F>, counter: int)
    requires forall s, x, c :: step1(s, x, c) == step2(s, x, c)
    ensures Fold(step1, st, objs, counter) == Fold(step2, st, objs, counter)
    decreases |objs|
  {
    if objs != [] {
      var (st1, e) := step1(st, objs[0], counter);
      FoldAgrees(step1, step2, st1, objs[1..], counter + 1);
    }
  }

  /** How a writer's loop ends: with an error after `n` opened layers, or
      after all of them; a step that agrees with the specified one
      everywhere gives the specified run. */
  lemma BatchEnds<S, F>(step: (S, F, int) -> (S, Option<Error>), spec: (S, F, int) -> (S, Option<Error>), init: S,
                        files: seq<F>, numFiles: int, batchSize: int, first: int, n: nat, st: S, e: Option<Error>)
    requires forall s, x, c :: step(s, x, c) == spec(s, x, c)
    requires |files| > 0 && numFiles > 0 && batchSize != 0 && n <= LayerTotal(|files|, numFiles)
    requires (st, e) == Fold(step, init, Flushed(files, n, numFiles, batchSize), first)
    requires e.Some? || n == LayerTotal(|files|, numFiles)
    ensures BatchRun(spec, init, files, numFiles, batchSize, first)
            == (st, if e.Some? then Err(e.value) else Ok(LayerTotal(|files|, numFiles)))
  {
    if e.Some? {
      BatchStops(step, init, files, numFiles, batchSize, first, n);
    }
    FoldAgrees(step, spec, init, Processed(files, numFiles, batchSize), first);
    BatchRunFolds(spec, init, files, numFiles, batchSize, first);
  }

  /** With the default batch size of 1, every opened object is processed. */
  lemma UnitBatchProcessesAll<F>(files: seq<F>, numFiles: int)
    requires |files| > 0
    ensures Processed(files, numFiles, 1) == Opened(files, LayerTotal(|files|, numFiles))
  {
    var n := LayerTotal(|files|, numFiles);
    assert FlushAt(n, numFiles, 1);
    assert Opened(files, n)[..n] == Opened(files, n);
  }

  /** A run processes at least the `numFiles` requested objects, and fewer
      than a whole batch of opened objects are left unwritten. */
  lemma {:induction false} ProcessedCovers<F>(files: seq<F>, numFiles: int, batchSize: int)
    requires |files| > 0 && batchSize > 0 && numFiles > 0
    ensures var n := LayerTotal(|files|, numFiles);
            var p := |Processed(files, numFiles, batchSize)|;
            numFiles <= p <= n && n - p < batchSize
  {
    var n := LayerTotal(|files|, numFiles);
    assert FlushAt(numFiles, numFiles, batchSize);
    var q := n - n % batchSize;
    ModUnique(q, batchSize, n / batchSize, 0);
    assert FlushAt(q, numFiles, batchSize);
  }

  /** Euclidean division has one quotient and one remainder. */
  lemma ModUnique(x: int, b: int, q: int, r: int)
    requires b > 0 && x == b * q + r && 0 <= r < b
    ensures x % b == r
  {
    var q0 := x / b;
    var r0 := x % b;
    if q > q0 {
      assert b * q - b * q0 == b * (q - q0);
      MulAtLeast(b, q - q0);
    } else if q < q0 {
      assert b * q0 - b * q == b * (q0 - q);
      MulAtLeast(b, q0 - q);
    }
  }

  lemma {:induction false} MulAtLeast(b: nat, k: int)
    requires k >= 1
    ensures b * k >= b
    decreases k
  {
    if k > 1 {
      MulAtLeast(b, k - 1);
      assert b * k == b * (k - 1) + b;
    }
  }
}
