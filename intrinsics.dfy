/** Compile-time instruction-set selection and the elementwise `add`
    kernels of `MathKernel<Arch>`. Elements are abstracted to `int` (exact
    addition): what is modelled is which indices each kernel reads and
    writes. A vector instruction over `w` lanes is a simultaneous `forall`
    assignment over those lanes. `out` may alias `a` or `b`, so results are
    stated in terms of the arrays' values at entry. */
module Intrinsics {
  import opened Bits

  datatype ISA = Scalar | SSE4_2 | AVX2 | AVX512_F | AVX512_BW

  /** The predefined target macros the selection reads: `__AVX512F__` and
      `__AVX2__`. */
  datatype TargetFeatures = TargetFeatures(avx512f: bool, avx2: bool)

  /** `CurrentArch`: the widest of AVX-512F, AVX2 and scalar that the target
      declares. `SSE4_2` and `AVX512_BW` are never selected. */
  function CurrentArch(target: TargetFeatures): (isa: ISA)
    ensures isa == AVX512_F <==> target.avx512f
    ensures isa == AVX2 <==> !target.avx512f && target.avx2
    ensures isa == Scalar <==> !target.avx512f && !target.avx2
    ensures isa != SSE4_2 && isa != AVX512_BW
  {
    if target.avx512f then AVX512_F
    else if target.avx2 then AVX2
    else Scalar
  }

  /** Which `add` body `MathKernel<Arch>` has: only `AVX512_F` and `AVX2`
      are specialised, every other value uses the generic scalar loop. */
  datatype AddKernel = GenericLoop | Avx2Blocks | Avx512Blocks

  function KernelFor(arch: ISA): (k: AddKernel)
    ensures k == Avx512Blocks <==> arch == AVX512_F
    ensures k == Avx2Blocks <==> arch == AVX2
  {
    match arch
    case AVX512_F => Avx512Blocks
    case AVX2 => Avx2Blocks
    case _ => GenericLoop
  }

  /** The kernel the default `MathKernel<>` uses for a target with no
      AVX-512F is never the AVX-512 one, and for no AVX2 either, the scalar
      loop. */
  lemma DefaultKernel(target: TargetFeatures)
    ensures KernelFor(CurrentArch(target)) == Avx512Blocks <==> target.avx512f
    ensures KernelFor(CurrentArch(target)) == GenericLoop <==> !target.avx512f && !target.avx2
  {
  }

  function Min(x: nat, y: nat): nat
  {
    if x <= y then x else y
  }

  /** One vector add over lanes `[i, i + width)`: two unaligned loads, the
      add and an unaligned store. */
  method VectorAdd(a: array<int>, b: array<int>, out: array<int>, i: nat, width: nat)
    requires i + width <= a.Length && i + width <= b.Length && i + width <= out.Length
    modifies out
    ensures forall k :: i <= k < i + width ==> out[k] == old(a[k]) + old(b[k])
    ensures forall k :: 0 <= k < out.Length && !(i <= k < i + width) ==> out[k] == old(out[k])
  {
    forall k | i <= k < i + width {
      out[k] := a[k] + b[k];
    }
  }

  /** The AVX-512 cleanup mask `(1 << remaining) - 1` narrowed to the eight
      bits of `__mmask8`: lane `l` is enabled exactly when
      `l < min(remaining, 8)`. */
  function CleanupMask(remaining: nat): (mask: nat)
    ensures mask < 256
    ensures forall lane: nat :: Bit(mask, lane) <==> lane < remaining && lane < 8
  {
    LowByteOfLowMask(remaining);
    BitAnd(LowMask(remaining), 255)
  }

  lemma LowByteOfLowMask(e: nat)
    ensures forall lane: nat :: Bit(BitAnd(LowMask(e), 255), lane) <==> lane < e && lane < 8
  {
    assert LowMask(8) == 255 by {
      assert Pow2(1) == 2 && Pow2(2) == 4 && Pow2(3) == 8 && Pow2(4) == 16;
      assert Pow2(5) == 32 && Pow2(6) == 64 && Pow2(7) == 128 && Pow2(8) == 256;
    }
    forall lane: nat ensures Bit(BitAnd(LowMask(e), 255), lane) <==> lane < e && lane < 8 {
      BitOfAnd(LowMask(e), 255, lane);
      BitOfLowMask(e, lane);
      BitOfLowMask(8, lane);
    }
  }

  /** A masked vector add over the eight lanes starting at `i`: the
      zero-masking loads, the add and the masked store (`_mm512_maskz_loadu_pd`,
      `_mm512_mask_storeu_pd`) touch only the lanes whose mask bit is set. */
  method MaskedVectorAdd(a: array<int>, b: array<int>, out: array<int>, i: nat, mask: nat)
    requires forall lane :: 0 <= lane < 8 && Bit(mask, lane) ==>
      i + lane < a.Length && i + lane < b.Length && i + lane < out.Length
    modifies out
    ensures forall k :: i <= k < i + 8 && Bit(mask, k - i) ==> out[k] == old(a[k]) + old(b[k])
    ensures forall k :: 0 <= k < out.Length && !(i <= k < i + 8 && Bit(mask, k - i)) ==> out[k] == old(out[k])
  {
    forall lane | 0 <= lane < 8 && Bit(mask, lane) {
      out[i + lane] := a[i + lane] + b[i + lane];
    }
  }

  /** The generic `MathKernel<Arch>::add`: one scalar loop. */
  method GenericAdd(a: array<int>, b: array<int>, out: array<int>, n: nat)
    requires n <= a.Length && n <= b.Length && n <= out.Length
    modifies out
    ensures forall k :: 0 <= k < n ==> out[k] == old(a[k]) + old(b[k])
    ensures forall k :: n <= k < out.Length ==> out[k] == old(out[k])
    ensures a != out ==> a[..] == old(a[..])
    ensures b != out ==> b[..] == old(b[..])
  {
    var i := 0;
    while i < n
      invariant i <= n
      invariant forall k :: 0 <= k < i ==> out[k] == old(a[k]) + old(b[k])
      invariant forall k :: i <= k < out.Length ==> out[k] == old(out[k])
      invariant forall k :: i <= k < a.Length ==> a[k] == old(a[k])
      invariant forall k :: i <= k < b.Length ==> b[k] == old(b[k])
    {
      out[i] := a[i] + b[i];
      i := i + 1;
    }
  }

  /** `MathKernel<ISA::AVX2>::add`: 4-wide blocks while `i + 3 < n`, then a
      scalar loop over the rest. */
  method Avx2Add(a: array<int>, b: array<int>, out: array<int>, n: nat)
    requires n <= a.Length && n <= b.Length && n <= out.Length
    modifies out
    ensures forall k :: 0 <= k < n ==> out[k] == old(a[k]) + old(b[k])
    ensures forall k :: n <= k < out.Length ==> out[k] == old(out[k])
    ensures a != out ==> a[..] == old(a[..])
    ensures b != out ==> b[..] == old(b[..])
  {
    var i := 0;
    while i + 3 < n
      invariant i <= n && i % 4 == 0
      invariant forall k :: 0 <= k < i ==> out[k] == old(a[k]) + old(b[k])
      invariant forall k :: i <= k < out.Length ==> out[k] == old(out[k])
      invariant forall k :: i <= k < a.Length ==> a[k] == old(a[k])
      invariant forall k :: i <= k < b.Length ==> b[k] == old(b[k])
    {
      VectorAdd(a, b, out, i, 4);
      i := i + 4;
    }
    assert i == 4 * (n / 4);
    while i < n
      invariant i <= n
      invariant forall k :: 0 <= k < i ==> out[k] == old(a[k]) + old(b[k])
      invariant forall k :: i <= k < out.Length ==> out[k] == old(out[k])
      invariant forall k :: i <= k < a.Length ==> a[k] == old(a[k])
      invariant forall k :: i <= k < b.Length ==> b[k] == old(b[k])
    {
      out[i] := a[i] + b[i];
      i := i + 1;
    }
  }

  /** How many leading elements the AVX-512 `add` as written computes:
      the 32-element blocks, then at most eight lanes of cleanup. All `n`
      exactly when the remainder after the blocks is at most eight. */
  function Avx512Covered(n: nat): (w: nat)
    ensures w <= n
    ensures w == n <==> n % 32 <= 8
  {
    32 * (n / 32) + Min(n % 32, 8)
  }

  /** The 32-element main loop shared by both AVX-512 versions: four 8-lane
      vector adds per iteration, while `i + 31 < n`. Ends at
      `i == 32 * (n / 32)` with everything below `i` computed. */
  method Avx512MainLoop(a: array<int>, b: array<int>, out: array<int>, n: nat) returns (i: nat)
    requires n <= a.Length && n <= b.Length && n <= out.Length
    modifies out
    ensures i == 32 * (n / 32)
    ensures forall k :: 0 <= k < i ==> out[k] == old(a[k]) + old(b[k])
    ensures forall k :: i <= k < out.Length ==> out[k] == old(out[k])
    ensures forall k :: i <= k < a.Length ==> a[k] == old(a[k])
    ensures forall k :: i <= k < b.Length ==> b[k] == old(b[k])
  {
    i := 0;
    while i + 31 < n
      invariant i <= n && i % 32 == 0
      invariant forall k :: 0 <= k < i ==> out[k] == old(a[k]) + old(b[k])
      invariant forall k :: i <= k < out.Length ==> out[k] == old(out[k])
      invariant forall k :: i <= k < a.Length ==> a[k] == old(a[k])
      invariant forall k :: i <= k < b.Length ==> b[k] == old(b[k])
    {
      VectorAdd(a, b, out, i, 8);
      VectorAdd(a, b, out, i + 8, 8);
      VectorAdd(a, b, out, i + 16, 8);
      VectorAdd(a, b, out, i + 24, 8);
      i := i + 32;
    }
  }

  /** `MathKernel<ISA::AVX512_F>::add` as written: the 32-element loop, then
      one masked 8-lane add for the remainder. Only the first
      `Avx512Covered(n)` elements are computed; the rest of `out` is left as
      it was. */
  method Avx512Add(a: array<int>, b: array<int>, out: array<int>, n: nat)
    requires n <= a.Length && n <= b.Length && n <= out.Length
    modifies out
    ensures forall k :: 0 <= k < Avx512Covered(n) ==> out[k] == old(a[k]) + old(b[k])
    ensures forall k :: Avx512Covered(n) <= k < out.Length ==> out[k] == old(out[k])
    ensures a != out ==> a[..] == old(a[..])
    ensures b != out ==> b[..] == old(b[..])
  {
    var i := Avx512MainLoop(a, b, out, n);
    if i < n {
      var remaining := (n - i) % 256;  // narrowed to uint8_t
      assert remaining == n % 32 && i + Min(remaining, 8) == Avx512Covered(n);
      var mask := CleanupMask(remaining);
      MaskedVectorAdd(a, b, out, i, mask);
    }
  }

  /** The discrepancy, concretely: with `n = 9` the ninth element is never
      written, so `out[8]` keeps its old value instead of `a[8] + b[8]`. */
  method Avx512LeavesNinthElement() returns (a: array<int>, b: array<int>, out: array<int>)
    ensures a.Length == 9 && b.Length == 9 && out.Length == 9
    ensures forall k :: 0 <= k < 8 ==> out[k] == a[k] + b[k]
    ensures a[8] + b[8] == 2 && out[8] == 0
  {
    a := new int[9](_ => 1);
    b := new int[9](_ => 1);
    out := new int[9](_ => 0);
    Avx512Add(a, b, out, 9);
  }

  /** The AVX-512 `add` with the remainder handled in full: after the
      32-element loop, 8-lane adds while `i + 7 < n`, then one masked add
      for the at most seven elements left. */
  method Avx512AddCorrected(a: array<int>, b: array<int>, out: array<int>, n: nat)
    requires n <= a.Length && n <= b.Length && n <= out.Length
    modifies out
    ensures forall k :: 0 <= k < n ==> out[k] == old(a[k]) + old(b[k])
    ensures forall k :: n <= k < out.Length ==> out[k] == old(out[k])
    ensures a != out ==> a[..] == old(a[..])
    ensures b != out ==> b[..] == old(b[..])
  {
    var i := Avx512MainLoop(a, b, out, n);
    while i + 7 < n
      invariant i <= n
      invariant forall k :: 0 <= k < i ==> out[k] == old(a[k]) + old(b[k])
      invariant forall k :: i <= k < out.Length ==> out[k] == old(out[k])
      invariant forall k :: i <= k < a.Length ==> a[k] == old(a[k])
      invariant forall k :: i <= k < b.Length ==> b[k] == old(b[k])
    {
      VectorAdd(a, b, out, i, 8);
      i := i + 8;
    }
    if i < n {
      var remaining := n - i;
      var mask := CleanupMask(remaining);
      MaskedVectorAdd(a, b, out, i, mask);
    }
  }

  /** `MathKernel<Arch>::add` for the selected architecture (with the
      AVX-512 remainder handled in full): every variant computes
      `out[k] == a[k] + b[k]` for all `k < n` and leaves the rest of `out`
      alone. */
  method Add(arch: ISA, a: array<int>, b: array<int>, out: array<int>, n: nat)
    requires n <= a.Length && n <= b.Length && n <= out.Length
    modifies out
    ensures forall k :: 0 <= k < n ==> out[k] == old(a[k]) + old(b[k])
    ensures forall k :: n <= k < out.Length ==> out[k] == old(out[k])
    ensures a != out ==> a[..] == old(a[..])
    ensures b != out ==> b[..] == old(b[..])
  {
    match KernelFor(arch)
    case Avx512Blocks => Avx512AddCorrected(a, b, out, n);
    case Avx2Blocks => Avx2Add(a, b, out, n);
    case GenericLoop => GenericAdd(a, b, out, n);
  }

  /** `add([1, 2, 3], [4, 5, 6], 3)` is `[5, 7, 9]` through the dispatch on
      every architecture, and also through the AVX-512 kernel as written
      (three elements fit in its one masked cleanup). */
  method AddThreeScenario(arch: ISA) returns (out: array<int>, outAsWritten: array<int>)
    ensures out[..] == [5, 7, 9]
    ensures outAsWritten[..] == [5, 7, 9]
  {
    var a := new int[3];
    a[0], a[1], a[2] := 1, 2, 3;
    var b := new int[3];
    b[0], b[1], b[2] := 4, 5, 6;
    out := new int[3];
    Add(arch, a, b, out, 3);
    assert out[0] == 5 && out[1] == 7 && out[2] == 9;
    outAsWritten := new int[3];
    Avx512Add(a, b, outAsWritten, 3);
    assert Avx512Covered(3) == 3;
    assert outAsWritten[0] == 5 && outAsWritten[1] == 7 && outAsWritten[2] == 9;
  }
}
