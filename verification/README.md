# paysage backends: container combinators and the prefetching random source

This project models two parts of the `paysage` numeric backends in Dafny.

- **Combinators** (`combinators.dfy`): the container-independent helpers
  `fold`, `accumulate`, `apply`, `apply_`, `mapzip` and `mapzip_`. A list or
  named tuple is a `seq<T>`. The in-place variants are methods on an
  `array<T>`: the in-place callable becomes a function from an element's old
  value to its new one. `fold` and `accumulate` produce integers; the
  backends' floats are not modelled.
- **AsyncRandom** (`async_random.dfy`): `ThreadRandom` and its draw task
  `AsynchronousFunction`, as an immutable state machine. A `Source` holds the
  FIFO queue of drawn values, the number of draw tasks in flight, and the
  handle list of the latest `spawn`. A task finishing is an explicit step.
  `Complete` puts its value at the back of the queue. `Fault` models a
  generator call that raised: the task ends and queues nothing. `get` is
  split into `Refill` (two draws when the queue is seen empty, one
  otherwise), `Deliver` (the tasks that finish while the consumer waits) and
  `Take` (remove the oldest value). `Get` composes the three and converts
  the value with an opaque `dtype` function. `Execute` runs a sequence of
  events: completions, faults and `get` calls.
- **Wrappers** (`wrappers.dfy`): the `Option` type that `Execute` uses.
  `Execute` returns `None` when an event cannot happen.

The comment on `get` says it pops "the end of the queue". The code calls
`queue.Queue.get`, which removes the oldest entry, so the model follows the
code: `Take` removes the head.

## Model

| member | source | states |
|---|---|---|
| Combinators.FoldFrom | paysage/backends/__init__.py:56-58 | the loop state of `fold`: no elements leave the accumulator unchanged, one element combines it once with `func` |
| Combinators.Fold | paysage/backends/__init__.py:56-59 | folding an empty container gives the initial accumulator 0 |
| Combinators.FoldSnoc | paysage/backends/__init__.py:56-59 | `fold` is a left fold from 0: one more element at the end is combined with the fold of the rest |
| Combinators.FoldFromSnoc | paysage/backends/__init__.py:56-59 | the same left-fold law for the loop state, from any starting accumulator |
| Combinators.FoldFromAdd | paysage/backends/__init__.py:56-59 | folding with addition from an accumulator adds the sum of the elements to it |
| Combinators.FoldAddIsSum | paysage/backends/__init__.py:41-44 | `fold(add, a)` equals the sum of the elements of `a` |
| Combinators.FoldAddExample | paysage/backends/__init__.py:40-41 | the docstring example: `fold(add, (1, 2))` is 3 |
| Combinators.Accumulate | paysage/backends/__init__.py:91 | accumulating over an empty container gives 0 |
| Combinators.FoldFromAddImage | paysage/backends/__init__.py:91 | the running total of `sum` from any start adds the sum of the images `f(x)` |
| Combinators.AccumulateIsSumOfApply | paysage/backends/__init__.py:91 | `accumulate(f, a)` equals the sum of `f(x)` over the elements of `a` |
| Combinators.AccumulateIsFoldOfApply | paysage/backends/__init__.py:91 | `accumulate(f, a)` equals `fold(add, apply(f, a))` |
| Combinators.AccumulateSquareExample | paysage/backends/__init__.py:70-76 | the docstring example: `accumulate(square, (1, 2))` is 5 |
| Combinators.Apply | paysage/backends/__init__.py:95-96 | the result has the length of `a` and holds `func(a[i])` at every index `i` |
| Combinators.ApplyConcat | paysage/backends/__init__.py:126 | applying over a concatenation is the concatenation of the applications |
| Combinators.ApplyCompose | paysage/backends/__init__.py:126 | applying `f` and then `g` equals applying their composition once |
| Combinators.Zip | paysage/backends/__init__.py:204 | `zip` has the length of the shorter input and pairs equal positions |
| Combinators.MapZip | paysage/backends/__init__.py:173-174 | the result has length `min(len(a), len(b))` and holds `func(a[i], b[i])` at every index |
| Combinators.MapZipTruncates | paysage/backends/__init__.py:204 | elements of the longer input past the shorter one's length do not affect the result |
| Combinators.MapZipOfFirst | paysage/backends/__init__.py:204 | on equal lengths, `mapzip` with a function that ignores its second argument is `apply` |
| Combinators.ApplyInPlace | paysage/backends/__init__.py:167-168 | each element becomes `f` of its old value, applied exactly once, and the array equals `apply(f, old a)` |
| Combinators.MapZipInPlace | paysage/backends/__init__.py:248-249 | for `b` at least as long as `a`, each `a[i]` becomes `f(old a[i], b[i])`, and `a` equals `mapzip(f, old a, b)` |
| AsyncRandom.Init | paysage/backends/async_random.py:18-24 | a fresh source has an empty queue and no draws in flight |
| AsyncRandom.RangeLength | paysage/backends/async_random.py:27-28 | `range(num_threads)` runs the larger of `num_threads` and 0 times, so a negative count starts nothing |
| AsyncRandom.Batch | paysage/backends/async_random.py:27-29 | the handle list has `len(range(n))` entries, all tasks with the same arguments |
| AsyncRandom.Spawn | paysage/backends/async_random.py:26-30 | `spawn` adds exactly `len(range(n))` draws in flight, all with the given arguments, leaves the queue alone, and keeps a handle list of that length |
| AsyncRandom.SpawnKeepsLatestBatch | paysage/backends/async_random.py:27 | two spawns add both counts to the in-flight draws, but only the second batch's handles are kept |
| AsyncRandom.Complete | paysage/backends/async_random.py:12-13 | a finishing draw task appends exactly one value at the back of the queue; queued-plus-owed values are unchanged |
| AsyncRandom.Fault | paysage/backends/async_random.py:12-13 | a task whose generator call raises ends without queuing, so one owed value is lost |
| AsyncRandom.Deliver | paysage/backends/async_random.py:12-13 | tasks finishing in a given order append their values in that order, one per task |
| AsyncRandom.Refill | paysage/backends/async_random.py:33-38 | exactly 2 draws are spawned when the queue is seen empty and exactly 1 otherwise; afterwards a draw is in flight and queued-plus-owed is at least 2 |
| AsyncRandom.FirstGetSpawnsTwo | paysage/backends/async_random.py:24-35 | the first `get` on a fresh source spawns two draws |
| AsyncRandom.Take | paysage/backends/async_random.py:40 | the dequeue removes exactly the oldest value and returns it |
| AsyncRandom.CanFinish | paysage/backends/async_random.py:40 | the blocking `self.queue.get()` returns exactly when the tasks that finish while it waits were in flight and the queue after them is non-empty |
| AsyncRandom.GetCanFinish | paysage/backends/async_random.py:33-40 | with no completion while waiting, `get` can return exactly when it saw a non-empty queue; with one completion it always can |
| AsyncRandom.Get | paysage/backends/async_random.py:32-41 | `get` returns the converted oldest value, consumes exactly one, and queued-plus-owed values grow by 1 if the queue was seen empty and are unchanged otherwise |
| AsyncRandom.Step | paysage/backends/async_random.py:12-41 | a task can finish or fault only while one is in flight; a `get` happens exactly when its dequeue can be served and returns one value, the other events none |
| AsyncRandom.Execute | paysage/backends/async_random.py:12-41 | a run of interleaved task completions, faults and `get` calls happens when each event can; an empty run changes nothing, and a run that happens returns exactly one value per `get` |
| AsyncRandom.StepIsFifo | paysage/backends/async_random.py:40-41 | a single event takes values only from the front of the queue, after any values it delivers |
| AsyncRandom.ExecuteIsFifo | paysage/backends/async_random.py:13-41 | over any run, the `get` calls return, one each, the first values of the queue followed by the arrivals in completion order, and the rest stays queued |
| AsyncRandom.StarvedGetsPileUpWork | paysage/backends/async_random.py:33-40 | `n` calls that each find the queue empty and are each served by one completion leave `n` more draws in flight, so outstanding work is unbounded |

## Left out

- Loading the backend configuration and importing the selected backend (`__init__.py` lines 5-22): file I/O, JSON and dynamic imports.
- Rebuilding the container type with `type(a)(*lst)` and its `TypeError` fallback in `apply` and `mapzip`: Python runtime reflection. Results are plain sequences. This changes values as well as the container type. For a one-element list or tuple whose single image is iterable, `type(a)(*lst)` does not raise: it is `list(f(x))`. So the source's `apply(f, [x])` returns the elements of `f(x)`, not `[f(x)]`; for example, `apply(halve, [np.ones(3)])` gives a list of three scalars. `mapzip` does the same for a single pair. The `b[i] == func(a[i])` contracts of Apply and MapZip describe the docstring equation, not these inputs.
- The docstring example `accumulate(add, a)`: it passes a two-argument function where `accumulate` calls a one-argument one, so it is not encoded.
- Fold, Accumulate: accumulators are integers. The backends' floats and their rounding are not modelled.
- ApplyInPlace: the model assumes each element is a separate mutable object. It does not model aliasing, where one object listed twice is updated twice. It also does not model immutable elements, which the source's in-place callable cannot change.
- MapZipInPlace: requires `b` to be at least as long as `a`. When it is shorter, the source raises `IndexError` after updating the first `len(b)` elements; that partial update is not modelled. The model also treats every `a[i]` and `b[i]` as a separate value. It does not model aliasing of element objects, neither one object listed twice in `a` nor an object of `a` that also appears in `b`. With such aliasing the source's in-place callable sees earlier updates and also changes what `b` holds: `mapzip_(add_, [x, y], [y, x])` computes `y + (x + y)` at index 1, where the model gives `y + x` and leaves `b` alone. It does not model immutable elements either, which the source's in-place callable cannot change.
- Threads, `threading.Thread.start`, and the race between `queue.empty()` and concurrently finishing tasks. Every completion is an explicit `Complete` or `Fault` step, so any order of completions can be expressed.
- `numpy.random.RandomState`, the seed, the lookup of the distribution by name, and the drawn values: the generator is opaque. A completing task is given its value. Whether concurrent calls to the generator are safe is not modelled.
- The `self.dtype(val)` conversion, for example float32 narrowing: it is the opaque function `dtype` passed to `Get`.
- Keyword arguments of a draw: `args` stands for all of a task's arguments.
- The `self.thread` attribute does not exist before the first `spawn`. `Init` models it as an empty handle list.
- Blocking forever is not a value. A `get` whose dequeue can never be served is a step that `CanFinish` does not enable, and `Execute` returns `None` for it.
