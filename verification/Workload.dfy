/**
 The consistency workload: client threads that write and read back keys of their own slice.
 */
module Workload {
  import opened Options
  import opened Cluster
  import opened ClusterLinearizable
  import opened Lifecycle
  import opened Recency
  import Text

  // ---------------------------------------------------------------- Slices

  /** First index of a thread's slice, in exact arithmetic. */
  function StartOf(n: nat, threads: nat, thread: nat): int
    requires threads > 0
  {
    ((n as real / threads as real) * thread as real).Floor
  }

  function EndOf(n: nat, threads: nat, thread: nat): int
    requires threads > 0
  {
    StartOf(n, threads, thread) + (n as real / threads as real).Floor
  }

  lemma SliceFitsBefore(n: nat, threads: nat, a: nat, b: nat)
    requires threads > 0 && a < b
    ensures 0 <= StartOf(n, threads, a) <= EndOf(n, threads, a) <= StartOf(n, threads, b)
  {
    var q := n as real / threads as real;
    assert q * (a + 1) as real == q * a as real + q;
    assert q * b as real == q * (a + 1) as real + q * (b - a - 1) as real;
    assert q * (b - a - 1) as real >= 0.0;
  }

  /** Every slice lies inside the key list, and different threads have disjoint slices. */
  lemma SlicesAreDisjoint(n: nat, threads: nat, a: nat, b: nat)
    requires a < threads && b < threads
    ensures 0 <= StartOf(n, threads, a) <= EndOf(n, threads, a) <= n
    ensures a != b ==> EndOf(n, threads, a) <= StartOf(n, threads, b) || EndOf(n, threads, b) <= StartOf(n, threads, a)
  {
    SliceFitsBefore(n, threads, a, threads);
    WholeList(n, threads);
    if a < b {
      SliceFitsBefore(n, threads, a, b);
    } else if b < a {
      SliceFitsBefore(n, threads, b, a);
    }
  }

  lemma WholeList(n: nat, threads: nat)
    requires threads > 0
    ensures StartOf(n, threads, threads) == n
  {
  }

  ghost predicate InSlice(keys: seq<Key>, threads: nat, thread: nat, k: Key)
    requires threads > 0
  {
    exists i | StartOf(|keys|, threads, thread) <= i < EndOf(|keys|, threads, thread) && 0 <= i < |keys| ::
      keys[i] == k
  }

  /** Slice `t` begins at t times n over the number of threads, and all slices have the same size. */
  lemma SlicesExactly(n: nat, threads: nat, t: nat)
    requires threads > 0
    ensures StartOf(n, threads, t) == n * t / threads
    ensures EndOf(n, threads, t) - StartOf(n, threads, t) == n / threads
  {
    FloorOfQuotient(n * t, threads);
    FloorOfQuotient(n, threads);
    assert (n as real / threads as real) * t as real == (n * t) as real / threads as real by {
      assert (n * t) as real == n as real * t as real;
    }
  }

  lemma FloorOfQuotient(a: nat, b: nat)
    requires b > 0
    ensures (a as real / b as real).Floor == a / b
  {
    var q, r := a / b, a % b;
    assert a == q * b + r;
    assert a as real == q as real * b as real + r as real;
    assert a as real / b as real == q as real + r as real / b as real;
    assert 0.0 <= r as real / b as real < 1.0;
  }

  /** Index `i` is in the slice of some thread. */
  ghost predicate IsCovered(n: nat, threads: nat, i: nat)
    requires threads > 0
  {
    exists t: nat | t < threads :: StartOf(n, threads, t) <= i < EndOf(n, threads, t)
  }

  /** Every key is loaded and used if and only if the threads divide the keys evenly. */
  lemma CoveredExactly(n: nat, threads: nat)
    requires threads > 0
    ensures (forall i: nat | i < n :: IsCovered(n, threads, i)) <==> n % threads == 0
  {
    if n % threads == 0 {
      assert n == n / threads * threads;
      forall i: nat | i < n ensures IsCovered(n, threads, i) {
        EvenSlice(n / threads, threads, i);
      }
    } else {
      LastIsLeft(n, threads);
      assert !IsCovered(n, threads, n - 1);
    }
  }

  lemma QuotientIs(a: int, b: int, q: int, r: int)
    requires b > 0 && a == q * b + r && 0 <= r < b
    ensures a / b == q
  {
    assert a == (a / b) * b + a % b;
    assert (a / b - q) * b == r - a % b;
    IsSmall(a / b - q, b);
  }

  lemma IsSmall(d: int, b: int)
    requires b > 0
    ensures -b < d * b < b ==> d == 0
  {
    if d >= 1 {
      assert (d - 1) * b >= 0;
    } else if d <= -1 {
      assert (d + 1) * b <= 0;
    }
  }

  lemma Regroup(a: int, b: int, c: int)
    ensures a * b * c == a * c * b
  {
  }

  lemma SliceOfEven(size: nat, threads: nat, t: nat)
    requires threads > 0
    ensures StartOf(size * threads, threads, t) == size * t
    ensures EndOf(size * threads, threads, t) == size * t + size
  {
    var n := size * threads;
    Regroup(size, threads, t);
    QuotientIs(n * t, threads, size * t, 0);
    QuotientIs(n, threads, size, 0);
    SlicesExactly(n, threads, t);
  }

  lemma EvenSlice(size: nat, threads: nat, i: nat)
    requires threads > 0 && i < size * threads
    ensures IsCovered(size * threads, threads, i)
  {
    var t := i / size;
    assert i == size * t + i % size;
    IsLess(t, threads, size);
    SliceOfEven(size, threads, t);
  }

  lemma IsLess(a: int, b: int, size: int)
    requires size >= 0
    ensures size * a < size * b ==> a < b
  {
    if a >= b {
      assert size * (a - b) >= 0;
      assert size * a == size * b + size * (a - b);
    }
  }

  /** Otherwise the last slice, and with it every other, ends before the last key. */
  lemma LastIsLeft(n: nat, threads: nat)
    requires threads > 0 && n % threads != 0
    ensures forall t: nat | t < threads :: EndOf(n, threads, t) <= n - 1
  {
    var size, r, last := n / threads, n % threads, threads - 1;
    assert n == size * threads + r;
    SlicesExactly(n, threads, last);
    QuotientIs(n * last, threads, n - size - 1, threads - r) by {
      assert n * last == n * threads - n;
      assert (n - size - 1) * threads == n * threads - size * threads - threads;
    }
    forall t: nat | t < threads ensures EndOf(n, threads, t) <= n - 1 {
      if t < last {
        SliceFitsBefore(n, threads, t, last);
      }
    }
  }

  /** With distinct keys, a key belongs to one thread. */
  lemma OneOwner(keys: seq<Key>, threads: nat, a: nat, b: nat, k: Key)
    requires forall i, j | 0 <= i < j < |keys| :: keys[i] != keys[j]
    requires a < threads && b < threads && InSlice(keys, threads, a, k) && InSlice(keys, threads, b, k)
    ensures a == b
  {
    SlicesAreDisjoint(|keys|, threads, a, b);
  }

  // ---------------------------------------------------------------- Client threads

  predicate Calls(step: Step) { step.CallPut? || step.CallGet? }

  predicate Returns(step: Step, id: TaskId) { (step.RetPut? || step.RetGet?) && step.id == id }

  ghost predicate ReturnedIn(run: Run, lo: int, hi: int, id: TaskId) {
    exists x | lo < x < hi :: 0 <= x < |run.steps| && Returns(run.steps[x], id)
  }

  /** Each client thread has one request open at a time, and writes only keys of its slice. */
  ghost predicate ThreadsBehave(run: Run, thread: TaskId -> nat, keys: seq<Key>, threads: nat) {
    && threads > 0
    && (forall i, j | 0 <= i < j < |keys| :: keys[i] != keys[j])
    && (forall p | 0 <= p < |run.steps| && run.steps[p].CallPut? ::
          thread(run.steps[p].id) < threads && InSlice(keys, threads, thread(run.steps[p].id), run.steps[p].key))
    && (forall p, q | 0 <= p < q < |run.steps| && Calls(run.steps[p]) && Calls(run.steps[q])
          && thread(run.steps[p].id) == thread(run.steps[q].id) :: ReturnedIn(run, p, q, run.steps[p].id))
  }

  /** A thread's put, called at `cw`, is followed directly by its get of the same key, called at `cr`
      and answered at `pr`. */
  ghost predicate ReadsBack(run: Run, thread: TaskId -> nat, cw: nat, cr: nat, pr: nat) {
    && cw < cr < |run.steps| && pr < |run.steps|
    && run.steps[cw].CallPut? && run.steps[cr].CallGet? && run.steps[cr].key == run.steps[cw].key
    && run.steps[pr].RetGet? && run.steps[pr].id == run.steps[cr].id
    && thread(run.steps[cw].id) == thread(run.steps[cr].id)
    && forall q | cw < q < cr && Calls(run.steps[q]) :: thread(run.steps[q].id) != thread(run.steps[cw].id)
  }

  /** A request returns once, and after it has begun to write. */
  lemma ReturnsLast(run: Run, x: nat, y: nat, id: TaskId)
    requires IsRun(run) && x < |run.steps| && y < |run.steps| && Returns(run.steps[x], id)
    requires Returns(run.steps[y], id) || (run.steps[y].PutBeginWrite? && run.steps[y].id == id)
    ensures y <= x
  {
    assert StepAt(run, x) && StepAt(run, y);
    if x < y {
      Forward(run, x + 1, y, id);
    }
  }

  lemma BeginsOnce(run: Run, i: nat, j: nat)
    requires IsRun(run) && i <= j < |run.steps|
    requires run.steps[i].PutBeginWrite? && run.steps[j].PutBeginWrite? && run.steps[i].id == run.steps[j].id
    ensures i == j
  {
    assert StepAt(run, i) && StepAt(run, j);
    if i < j {
      Forward(run, i + 1, j, run.steps[i].id);
    }
  }

  /** From the start of the thread's write to the answer of its get, nobody starts another write to
      the key. */
  lemma NobodyElseWrites(run: Run, thread: TaskId -> nat, keys: seq<Key>, threads: nat,
                         cw: nat, cr: nat, pr: nat, i: nat, j: nat)
    requires IsRun(run) && ThreadsBehave(run, thread, keys, threads) && ReadsBack(run, thread, cw, cr, pr)
    requires i <= j < pr && run.steps[i].PutBeginWrite? && run.steps[i].id == run.steps[cw].id
    requires run.steps[j].PutBeginWrite? && run.steps[j].key == run.steps[cw].key
    ensures i == j
  {
    assert StepAt(run, i) && StepAt(run, j);
    var id := run.steps[j].id;
    var cj := WasCalled(run, j, id);
    OneOwner(keys, threads, thread(id), thread(run.steps[cw].id), run.steps[cw].key);
    CalledBefore(run, cw, i, run.steps[cw].id);
    if cj == cw {
      BeginsOnce(run, i, j);
    } else if cj < cw {
      assert ReturnedIn(run, cj, cw, id);
      var x :| cj < x < cw && 0 <= x < |run.steps| && Returns(run.steps[x], id);
      ReturnsLast(run, x, j, id);
    } else {
      assert cj > cr && ReturnedIn(run, cr, cj, run.steps[cr].id);
      var x :| cr < x < cj && 0 <= x < |run.steps| && Returns(run.steps[x], run.steps[cr].id);
      ReturnsLast(run, x, pr, run.steps[cr].id);
    }
  }

  lemma PutReturned(run: Run, thread: TaskId -> nat, keys: seq<Key>, threads: nat, cw: nat, cr: nat) returns (pw: nat)
    requires IsRun(run) && ThreadsBehave(run, thread, keys, threads) && cw < cr < |run.steps|
    requires run.steps[cw].CallPut? && Calls(run.steps[cr])
    requires thread(run.steps[cw].id) == thread(run.steps[cr].id)
    ensures cw < pw < cr && run.steps[pw] == RetPut(run.steps[cw].id)
  {
    assert ReturnedIn(run, cw, cr, run.steps[cw].id);
    pw :| cw < pw < cr && 0 <= pw < |run.steps| && Returns(run.steps[pw], run.steps[cw].id);
    assert StepAt(run, cw) && StepAt(run, pw);
    Forward(run, cw + 1, pw, run.steps[cw].id);
  }

  /** A get called after a put to its key has returned answers with the value of a write `j` that is not
      older than the write `i` of that put. */
  lemma AnswerOfWrite(run: Run, cw: nat, pw: nat, cr: nat, pr: nat) returns (i: nat, j: nat)
    requires OrderlyRun(run) && cw < |run.steps| && pw < cr < |run.steps| && pr < |run.steps|
    requires run.steps[cw].CallPut? && run.steps[pw] == RetPut(run.steps[cw].id)
    requires run.steps[cr].CallGet? && run.steps[cr].key == run.steps[cw].key
    requires run.steps[pr].RetGet? && run.steps[pr].id == run.steps[cr].id
    ensures i <= j < pr && run.steps[i].PutBeginWrite? && run.steps[i].id == run.steps[cw].id
    ensures run.steps[j].PutBeginWrite? && run.steps[j].key == run.steps[cw].key
    ensures run.steps[pr].result == Some(run.steps[j].value)
    ensures run.steps[i].value == run.steps[cw].value
  {
    var id := run.steps[cw].id;
    assert StepAt(run, cw) && StepAt(run, pw) && StepAt(run, pr);
    i := HasWritten(run, pw, id);
    assert StepAt(run, i);
    CalledBefore(run, cw, i, id);
    Forward(run, cw + 1, i, id);
    var l := HasLookedUp(run, pr, run.steps[cr].id);
    assert StepAt(run, l);
    CalledBefore(run, cr, l, run.steps[cr].id);
    j := ReadsAreRecent(run, i, pw, cr, l, pr);
  }

  /** In every orderly run, whatever calls run out of retries: a thread whose put has returned and
      whose next get is answered reads what it wrote. */
  lemma ReadsBackItsWrite(run: Run, thread: TaskId -> nat, keys: seq<Key>, threads: nat, cw: nat, cr: nat, pr: nat)
    requires OrderlyRun(run) && ThreadsBehave(run, thread, keys, threads) && ReadsBack(run, thread, cw, cr, pr)
    ensures run.steps[pr].result == Some(run.steps[cw].value)
  {
    var pw := PutReturned(run, thread, keys, threads, cw, cr);
    var i, j := AnswerOfWrite(run, cw, pw, cr, pr);
    NobodyElseWrites(run, thread, keys, threads, cw, cr, pr, i, j);
  }

  /** The driver's check passes: the reply to a read-back, split and parsed, is the key and the value
      just written. */
  lemma ReadBackCheckPasses(run: Run, thread: TaskId -> nat, keys: seq<Key>, threads: nat, cw: nat, cr: nat, pr: nat)
    requires OrderlyRun(run) && ThreadsBehave(run, thread, keys, threads) && ReadsBack(run, thread, cw, cr, pr)
    ensures Text.ParseReply(Text.ReplyText(run.steps[cw].key, run.steps[pr].result))
         == Some((run.steps[cw].key, run.steps[cw].value))
  {
    ReadsBackItsWrite(run, thread, keys, threads, cw, cr, pr);
    Text.ReplyRoundTrip(run.steps[cw].key, run.steps[pr].result);
  }

  // ---------------------------------------------------------------- The throughput workload

  /** The workload without read-back: first every key is put once (`load`); then each index of the list
      is only ever put to, or only ever read, as `puts` says; `index` is the place of a request's key. */
  ghost predicate LoadsThenRuns(run: Run, keys: seq<Key>, load: TaskId -> bool, index: TaskId -> nat,
                                puts: nat -> bool) {
    && (forall i, j | 0 <= i < j < |keys| :: keys[i] != keys[j])
    && (forall p | 0 <= p < |run.steps| && Calls(run.steps[p]) ::
          index(run.steps[p].id) < |keys| && keys[index(run.steps[p].id)] == run.steps[p].key)
    && (forall p, q | 0 <= p < q < |run.steps| && run.steps[p].CallPut? && run.steps[q].CallPut?
          && load(run.steps[p].id) && load(run.steps[q].id) :: index(run.steps[p].id) != index(run.steps[q].id))
    && (forall p | 0 <= p < |run.steps| && run.steps[p].CallPut? && !load(run.steps[p].id) ::
          puts(index(run.steps[p].id)))
  }

  /** To an index that is only read, nobody puts but the load. */
  lemma OnlyTheLoadPuts(run: Run, keys: seq<Key>, load: TaskId -> bool, index: TaskId -> nat, puts: nat -> bool,
                        cw: nat, cr: nat, i: nat, j: nat)
    requires IsRun(run) && LoadsThenRuns(run, keys, load, index, puts)
    requires cw < |run.steps| && run.steps[cw].CallPut? && load(run.steps[cw].id)
    requires cr < |run.steps| && run.steps[cr].CallGet? && run.steps[cr].key == run.steps[cw].key
    requires !puts(index(run.steps[cr].id))
    requires i <= j < |run.steps| && run.steps[i].PutBeginWrite? && run.steps[i].id == run.steps[cw].id
    requires run.steps[j].PutBeginWrite? && run.steps[j].key == run.steps[cw].key
    ensures i == j
  {
    assert StepAt(run, j);
    var cj := WasCalled(run, j, run.steps[j].id);
    assert Calls(run.steps[cj]) && Calls(run.steps[cw]) && Calls(run.steps[cr]);
    assert index(run.steps[cj].id) == index(run.steps[cr].id) == index(run.steps[cw].id);
    assert cj == cw;
    BeginsOnce(run, i, j);
  }

  /** In every orderly run, whatever calls run out of retries: a get of an index that is only read, made
      after its load has returned, answers with the loaded value, so its reply passes the comparison. */
  lemma LoadedValueIsRead(run: Run, keys: seq<Key>, load: TaskId -> bool, index: TaskId -> nat, puts: nat -> bool,
                          cw: nat, pw: nat, cr: nat, pr: nat)
    requires OrderlyRun(run) && LoadsThenRuns(run, keys, load, index, puts)
    requires cw < |run.steps| && run.steps[cw].CallPut? && load(run.steps[cw].id)
    requires pw < cr < |run.steps| && run.steps[pw] == RetPut(run.steps[cw].id)
    requires run.steps[cr].CallGet? && run.steps[cr].key == run.steps[cw].key && !puts(index(run.steps[cr].id))
    requires pr < |run.steps| && run.steps[pr].RetGet? && run.steps[pr].id == run.steps[cr].id
    ensures run.steps[pr].result == Some(run.steps[cw].value)
    ensures Text.ParseReply(Text.ReplyText(run.steps[cr].key, run.steps[pr].result))
         == Some((run.steps[cw].key, run.steps[cw].value))
  {
    var i, j := AnswerOfWrite(run, cw, pw, cr, pr);
    OnlyTheLoadPuts(run, keys, load, index, puts, cw, cr, i, j);
    Text.ReplyRoundTrip(run.steps[cr].key, run.steps[pr].result);
  }
}
