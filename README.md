# SPSC ring buffer and SIMD add kernels, modelled in Dafny

This project models the two primitives of `fwilliamsca/cpp-simd-utils`:

- `SPSCRingBuffer<T, Capacity>` (`include/fwilliamsca/memory/ring_buffer.h`), a
  bounded circular queue with a fixed array of `Capacity` slots and two
  indices, `head` (consumer) and `tail` (producer), that wrap with the mask
  `Capacity - 1`. It is full when the slot after `tail` is `head`, so at most
  `Capacity - 1` items are held; it is empty when `head == tail`.
- `MathKernel<Arch>::add` and the compile-time choice of `CurrentArch`
  (`include/fwilliamsca/simd/intrinsics.h`): a generic scalar loop, an AVX2
  kernel (4-wide blocks and a scalar cleanup loop) and an AVX-512 kernel
  (32-element blocks of four 8-lane adds and one masked 8-lane cleanup).

Files and modules:

- `wrappers.dfy` (`Wrappers`): `Option`, used for a slot that holds an element or
  is uninitialised storage.
- `bits.dfy` (`Bits`): `&` on naturals (`BitAnd`), single bits, powers of two,
  and the facts the index mask and the lane mask need.
- `queue_spec.dfy` (`QueueSpec`): the queue as a sequence of held items,
  one `Step` per push or pop, `Run` over any sequence of operations, and the
  lemmas about runs (FIFO, the bound, fill-then-fail, pops on empty).
- `ring_buffer.dfy` (`RingBuffer`): index arithmetic (`Next`, `Count`,
  `Offset`, `Occupied`) and the class `SPSCRingBuffer` with an `array<Option<T>>`
  of slots, `head`, `tail` and a ghost `contents: seq<T>`. Its invariant
  `Valid()` says that the k-th held item sits k slots after `head`, and that a
  slot holds an element exactly when it lies in the circular interval
  `[head, tail)`. `TryPush` and `TryPop` are each proved to be one
  `QueueSpec.Step` on `contents`, so the `QueueSpec` lemmas apply to every
  sequence of calls.
- `intrinsics.dfy` (`Intrinsics`): `ISA`, `CurrentArch`, which `add` body each
  `Arch` gets, and the add kernels. A `double` is modelled as an `int` (exact
  addition); a vector instruction over `w` lanes is a simultaneous `forall`
  assignment over those lanes. `out` may be the same array as `a` or `b`, so
  each result is stated against the arrays' values on entry.

Modelling notes:

- Indices (`size_t`) are naturals. `tail + 1` and `head + 1` cannot overflow,
  because both indices stay below `Capacity` and `Capacity` is a `size_t`.
- The capacity `static_assert` becomes the constructor's precondition
  `capacity != 0 && (capacity & (capacity - 1)) == 0`, the same test as the
  source. A buffer type that fails it is never instantiated; `PowerOfTwoTest`
  proves the test holds exactly for powers of two.
- `try_pop(T& out_item)` becomes `TryPop(outItem) returns (ok, item)`. The
  caller's variable comes back unchanged when the buffer is empty.
- The kernels' preconditions admit arrays exactly `n` long, so every index a
  kernel reads or writes is proved below `n`. `modifies out`, together with the
  `a != out ==> a[..] == old(a[..])` clauses, says that `a` and `b` are changed
  only when one of them is the same array as `out`.
- A bad capacity is rejected at compile time by the `static_assert`
  (ring_buffer.h:28-29), which the model makes the constructor's precondition.
- Only the AVX-512 specialisation defines `dot_product` (intrinsics.h:111-130);
  tests/benchmark_main.cpp:32,39 call `MathKernel<>::dot_product` without a
  guard.

## Model

| member | source | states |
|---|---|---|
| Bits.MaskIsMod | include/fwilliamsca/memory/ring_buffer.h:57 | for a power of two `c`, `x & (c - 1) == x mod c` |
| Bits.PowerOfTwoTest | include/fwilliamsca/memory/ring_buffer.h:28-29 | the static_assert test `c != 0 && (c & (c - 1)) == 0` holds exactly when `c` is a power of two |
| Bits.BitOfLowMask | include/fwilliamsca/simd/intrinsics.h:99 | `(1 << e) - 1` has exactly bits `0 .. e - 1` set |
| Bits.BitOfAnd | include/fwilliamsca/simd/intrinsics.h:99 | a bit of `x & y` is set exactly when it is set in both |
| RingBuffer.Next | include/fwilliamsca/memory/ring_buffer.h:57 | the masked successor `(i + 1) & (Capacity - 1)` is `(i + 1) mod Capacity`; inside the ring it is `i + 1`, or 0 at the end |
| RingBuffer.Count | include/fwilliamsca/memory/ring_buffer.h:56-61 | the number of slots from `head` to `tail` round the ring is `(tail - head) mod Capacity`, below `Capacity` |
| RingBuffer.Offset | include/fwilliamsca/memory/ring_buffer.h:85-90 | the slot k places after `head` is `(head + k) mod Capacity` and lies k slots from `head` |
| RingBuffer.OccupiedIsInterval | include/fwilliamsca/memory/ring_buffer.h:64-69 | occupancy is the circular interval `[head, tail)`: contiguous when `head <= tail`, wrapping otherwise |
| RingBuffer.FullIffUsableCapacityHeld | include/fwilliamsca/memory/ring_buffer.h:57-61 | `next_tail == head` exactly when `Capacity - 1` items are held |
| RingBuffer.AdvanceTail | include/fwilliamsca/memory/ring_buffer.h:64-68 | when not full, advancing `tail` adds one item and exactly slot `tail` to the occupied interval |
| RingBuffer.AdvanceHead | include/fwilliamsca/memory/ring_buffer.h:88-91 | when not empty, advancing `head` removes one item and exactly slot `head`, and shifts every later item one position toward the front |
| RingBuffer.ThreeIsNotACapacity | include/fwilliamsca/memory/ring_buffer.h:28-29 | capacity 3 fails the capacity test |
| RingBuffer.SPSCRingBuffer.Valid | include/fwilliamsca/memory/ring_buffer.h:105-121 | a valid buffer holds at most `Capacity - 1` items |
| RingBuffer.SPSCRingBuffer.constructor | include/fwilliamsca/memory/ring_buffer.h:28-41 | only a capacity passing the static_assert test; starts empty with `head == tail == 0` and every slot uninitialised |
| RingBuffer.SPSCRingBuffer.TryPush | include/fwilliamsca/memory/ring_buffer.h:55-70 | fails exactly when `next_tail == head` (equivalently `Capacity - 1` items held) and then changes nothing; otherwise stores the item at slot `tail`, advances `tail` mod `Capacity`, leaves `head` and the other slots alone, and appends the item to the contents |
| RingBuffer.SPSCRingBuffer.TryPop | include/fwilliamsca/memory/ring_buffer.h:76-94 | fails exactly when `head == tail`, returning the caller's value and changing nothing; otherwise returns the front item (the element in slot `head`), marks that slot uninitialised, advances `head` mod `Capacity`, leaves `tail` alone and drops the front of the contents |
| RingBuffer.SPSCRingBuffer.PrefetchNext | include/fwilliamsca/memory/ring_buffer.h:100-103 | changes nothing; the slot it names is `(head + 1) mod Capacity`, the one holding the second item when there is one |
| RingBuffer.CapacityFourScenario | include/fwilliamsca/memory/ring_buffer.h:55-94 | capacity 4: three pushes succeed, the fourth fails, a pop returns the first item, and the retried push succeeds |
| QueueSpec.Fifo | include/fwilliamsca/memory/ring_buffer.h:55-94 | over any sequence of pushes and pops, what the pops delivered followed by what is still held equals what was held first followed by the accepted pushes, in order: no loss, duplication or reordering |
| QueueSpec.FifoFromEmpty | include/fwilliamsca/memory/ring_buffer.h:55-94 | from empty, the i-th successful pop returns the i-th accepted push |
| QueueSpec.BoundKept | include/fwilliamsca/memory/ring_buffer.h:57-61 | a queue starting within `Capacity - 1` items stays within it over any operations |
| QueueSpec.PushesFit | include/fwilliamsca/memory/ring_buffer.h:57-69 | pushes into a queue with room for all of them all succeed and append in order |
| QueueSpec.FillThenPopThenPush | include/fwilliamsca/memory/ring_buffer.h:57-61 | from empty, exactly `Capacity - 1` pushes succeed before one fails; then a pop returns the first item and the next push succeeds |
| QueueSpec.PopsOnEmpty | include/fwilliamsca/memory/ring_buffer.h:77-82 | any number of pops on an empty queue all fail and leave it empty |
| QueueSpec.RunAppend | include/fwilliamsca/memory/ring_buffer.h:55-94 | running two operation sequences back to back is running their concatenation |
| Intrinsics.CurrentArch | include/fwilliamsca/simd/intrinsics.h:39-49 | `AVX512_F` exactly when the AVX-512F flag is set; `AVX2` exactly when only AVX2 is set; otherwise `Scalar`; never `SSE4_2` or `AVX512_BW` |
| Intrinsics.KernelFor | include/fwilliamsca/simd/intrinsics.h:55-68 | only `AVX512_F` and `AVX2` have their own add; every other architecture uses the generic loop |
| Intrinsics.DefaultKernel | include/fwilliamsca/simd/intrinsics.h:55-56 | the default `MathKernel<>` uses the AVX-512 add exactly when AVX-512F is declared, and the generic loop exactly when neither AVX flag is |
| Intrinsics.VectorAdd | include/fwilliamsca/simd/intrinsics.h:75-78 | one vector add writes `a[k] + b[k]` to exactly the lanes `[i, i + width)` |
| Intrinsics.CleanupMask | include/fwilliamsca/simd/intrinsics.h:98-99 | the 8-bit mask `(1 << remaining) - 1` enables lane `l` exactly when `l < min(remaining, 8)` |
| Intrinsics.LowByteOfLowMask | include/fwilliamsca/simd/intrinsics.h:99 | the low byte of `(1 << e) - 1` has exactly bits `0 .. min(e, 8) - 1` set |
| Intrinsics.MaskedVectorAdd | include/fwilliamsca/simd/intrinsics.h:100-103 | the masked loads and store compute exactly the enabled lanes and leave every other element of `out` alone |
| Intrinsics.GenericAdd | include/fwilliamsca/simd/intrinsics.h:58-60 | `out[k] == a[k] + b[k]` for every `k < n`; nothing at or past `n` changes |
| Intrinsics.Avx2Add | include/fwilliamsca/simd/intrinsics.h:139-147 | 4-wide blocks then the scalar cleanup give `out[k] == a[k] + b[k]` for every `k < n`; nothing at or past `n` changes |
| Intrinsics.Avx512MainLoop | include/fwilliamsca/simd/intrinsics.h:74-94 | the 32-element loop ends at `i == 32 * (n / 32)` with every index below `i` computed and nothing from `i` on changed |
| Intrinsics.Avx512Covered | include/fwilliamsca/simd/intrinsics.h:74-104 | the AVX-512 add as written computes `32 * (n / 32) + min(n mod 32, 8)` elements, never more than `n`, and all `n` exactly when `n mod 32 <= 8` |
| Intrinsics.Avx512Add | include/fwilliamsca/simd/intrinsics.h:70-105 | as written: `out[k] == a[k] + b[k]` for the first `Avx512Covered(n)` indices; everything from there on, including indices below `n`, is left unchanged |
| Intrinsics.Avx512LeavesNinthElement | include/fwilliamsca/simd/intrinsics.h:97-104 | with `n = 9` the first eight elements are computed but `out[8]` keeps its old value instead of `a[8] + b[8]` |
| Intrinsics.Avx512AddCorrected | include/fwilliamsca/simd/intrinsics.h:70-105 | with the remainder handled in full: `out[k] == a[k] + b[k]` for every `k < n`; nothing at or past `n` changes |
| Intrinsics.Add | include/fwilliamsca/simd/intrinsics.h:55-61 | the dispatch of `MathKernel<Arch>::add`, with the corrected AVX-512 kernel for `AVX512_F`: whatever the architecture, `out[k] == a[k] + b[k]` for every `k < n` and nothing at or past `n` changes |
| Intrinsics.AddThreeScenario | include/fwilliamsca/simd/intrinsics.h:58-60 | adding `[1, 2, 3]` and `[4, 5, 6]` gives `[5, 7, 9]` through the dispatch on every architecture, and through the AVX-512 kernel as written |

## Findings

| source | as written | input that shows it | evidently intended | confidence | as-written member | corrected member |
|---|---|---|---|---|---|---|
| include/fwilliamsca/simd/intrinsics.h:97-104 | after the 32-element loop up to 31 elements remain, but the cleanup is one masked 8-lane add whose mask `(1 << remaining) - 1` is cut to 8 bits, so only `min(remaining, 8)` of them are computed | `n = 9`: `out[8]` is never written (any `n` with `n mod 32 > 8`) | compute every remaining element, as the scalar and AVX2 kernels do | not executed | Intrinsics.Avx512Add, Intrinsics.Avx512LeavesNinthElement | Intrinsics.Avx512AddCorrected, Intrinsics.Add |

`Intrinsics.Avx512Covered` proves that the as-written kernel computes all `n`
elements exactly when `n mod 32 <= 8`. The corrected kernel adds 8-lane blocks
while `i + 7 < n` before the masked cleanup, so the mask covers at most seven
lanes. `Intrinsics.Add` dispatches the AVX-512 architecture to the corrected
kernel.

## Left out

- Atomics and memory orders (`std::atomic`, relaxed, acquire and release loads and stores): the model runs one operation at a time, with `head` and `tail` as plain fields. Two-thread interleaving and happens-before are not modelled.
- Cache-line padding and alignment of `head_`, `tail_` and the buffer pointer: this is layout only, with no effect on behaviour.
- Allocation with `posix_memalign`, the `std::bad_alloc` failure and `free` in the destructor: construction is modelled as allocating `Capacity` uninitialised slots, which cannot fail in Dafny.
- `__builtin_prefetch`: a hardware hint with no semantic effect. `PrefetchNext` models only the index it computes.
- Move semantics of `T`: an item is copied into its slot and out again. What a moved-from object holds afterwards is not modelled.
- `MathKernel<ISA::AVX512_F>::dot_product`: a floating-point FMA reduction whose result depends on summation order, which an integer model cannot show.
- Overlapping pointer ranges in the kernels: `a`, `b` and `out` are modelled as whole arrays that are either the same array or disjoint. The source takes plain `const double*` and `double*` with no `__restrict`, so a call like `add(a, b, a + 1, n)` is legal; there the scalar loop reads elements it has already written, the block kernels differ from it, and the "values on entry" contracts do not describe the result.
- Exceptions thrown by `T`'s constructor in `try_push` (ring_buffer.h:65) or by its move assignment in `try_pop` (ring_buffer.h:85): such an exception leaves the call with the index not advanced. The model treats storing and moving an item as operations that cannot fail.
- IEEE 754 `double` arithmetic and the real intrinsics: elements are integers with exact addition, and each 4- or 8-lane instruction is a simultaneous elementwise assignment.
- Intrinsics.CleanupMask: `1 << remaining` is computed as the mathematical `2^remaining`. For `remaining == 31` the C++ `int` expression `(1 << 31) - 1` overflows; its low 8 bits under two's-complement wrapping are the same, and those are all the mask keeps.
- `tests/benchmark_main.cpp`: timing with `rdtsc` and `std::chrono`, the producer and consumer threads, `_mm_pause` and console output. It asserts nothing beyond running to completion.
