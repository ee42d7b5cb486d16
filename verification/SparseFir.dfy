/**
 SparseFIRFilter (common_audio/sparse_fir_filter.cc) over the reals: a finite impulse response filter with
 nonzero coefficients every `sparsity` samples from `offset` on, which keeps just as much of its input
 from block to block as the next block can reach.
 */
module SparseFirFilters {

  /** A signal is zero before it starts. */
  function At(x: seq<real>, n: int): real {
    if 0 <= n < |x| then x[n] else 0.0
  }

  /** The first `k` terms of sample n of the filter fed with x from silence. */
  function FirSum(c: seq<real>, sparsity: nat, offset: nat, x: seq<real>, n: int, k: nat): real
    requires k <= |c|
  {
    if k == 0 then 0.0
    else FirSum(c, sparsity, offset, x, n, k - 1) + c[k - 1] * At(x, n - (k - 1) * sparsity - offset)
  }

  lemma Distribute(m: int, j: int, s: nat)
    requires j <= m
    ensures (m - j) * s == m * s - j * s && (m - j) * s >= 0
  {
  }

  lemma Grows(j: nat, s: nat)
    ensures (j + 1) * s >= j * s
  {
  }

  class SparseFirFilter {
    const coeffs: seq<real>
    const sparsity: nat
    const offset: nat
    const state: array<real>

    /** All the filter has been fed. */
    ghost var history: seq<real>

    ghost predicate Shape() {
      |coeffs| >= 1 && sparsity >= 1 && state.Length == (|coeffs| - 1) * sparsity + offset
    }

    /** The state is the last samples, or silence before the first. */
    ghost predicate Recalls()
      reads this, state
    {
      forall p | 0 <= p < state.Length :: state[p] == At(history, |history| - state.Length + p)
    }

    ghost predicate Valid()
      reads this, state
    {
      Shape() && Recalls()
    }

    constructor (coeffs: seq<real>, sparsity: nat, offset: nat)
      requires |coeffs| >= 1 && sparsity >= 1
      ensures Valid() && history == [] && fresh(state)
      ensures this.coeffs == coeffs && this.sparsity == sparsity && this.offset == offset
    {
      this.coeffs, this.sparsity, this.offset := coeffs, sparsity, offset;
      var length := (|coeffs| - 1) * sparsity + offset;
      state := new real[length](_ => 0.0);
      history := [];
    }

    /** Where the state is read for coefficient j, once the block does not reach back far enough. */
    lemma Reach(i: nat, j: nat)
      requires Shape() && j < |coeffs| && i < j * sparsity + offset
      ensures var p := i + (|coeffs| - j - 1) * sparsity;
              0 <= p < state.Length && p - state.Length == i - j * sparsity - offset
    {
      Distribute(|coeffs| - 1, j, sparsity);
    }

    lemma StateSample(x: seq<real>, i: nat, j: nat)
      requires Valid() && history <= x && j < |coeffs| && i < j * sparsity + offset
      ensures var p := i + (|coeffs| - j - 1) * sparsity;
              0 <= p < state.Length && state[p] == At(x, |history| + i - j * sparsity - offset)
    {
      Reach(i, j);
    }

    /** The coefficients that reach into the block. */
    method FromBlock(input: array<real>, i: nat) returns (sum: real, j: nat)
      requires i < input.Length
      ensures j <= |coeffs| && (j < |coeffs| ==> i < j * sparsity + offset)
      ensures sum == FirSum(coeffs, sparsity, offset, history + input[..], |history| + i, j)
    {
      ghost var x, n := history + input[..], |history| + i;
      sum, j := 0.0, 0;
      while j < |coeffs| && i >= j * sparsity + offset
        invariant j <= |coeffs| && sum == FirSum(coeffs, sparsity, offset, x, n, j)
      {
        var back := j * sparsity + offset;
        assert At(x, n - back) == input[i - back];
        sum := sum + input[i - back] * coeffs[j];
        j := j + 1;
      }
    }

    /** One output sample: the coefficients that reach into the block, then those that reach into the state. */
    method Convolve(input: array<real>, i: nat) returns (sum: real)
      requires Valid() && i < input.Length
      ensures sum == FirSum(coeffs, sparsity, offset, history + input[..], |history| + i, |coeffs|)
    {
      ghost var x, n := history + input[..], |history| + i;
      var j;
      sum, j := FromBlock(input, i);
      while j < |coeffs|
        invariant j <= |coeffs| && sum == FirSum(coeffs, sparsity, offset, x, n, j)
        invariant j < |coeffs| ==> i < j * sparsity + offset
      {
        StateSample(x, i, j);
        var s := state[i + (|coeffs| - j - 1) * sparsity];
        sum := sum + s * coeffs[j];
        Grows(j, sparsity);
        j := j + 1;
      }
    }

    /** A block at least as long as the state: its end is the new state. */
    method TakeEnd(input: array<real>)
      requires input != state && input.Length >= state.Length
      modifies state
      ensures forall p | 0 <= p < state.Length ::
                state[p] == At(history + input[..], |history| + input.Length - state.Length + p)
    {
      forall p | 0 <= p < state.Length {
        state[p] := input[input.Length - state.Length + p];
      }
    }

    /** A shorter block: the state moves up and the block comes after it. */
    method ShiftIn(input: array<real>)
      requires Recalls() && input != state && input.Length < state.Length
      modifies state
      ensures forall p | 0 <= p < state.Length ::
                state[p] == At(history + input[..], |history| + input.Length - state.Length + p)
    {
      var length, size := input.Length, state.Length;
      forall p | 0 <= p < size - length {
        state[p] := state[p + length];
      }
      forall p | 0 <= p < length {
        state[size - length + p] := input[p];
      }
      forall p | 0 <= p < size
        ensures state[p] == At(history + input[..], |history| + length - size + p)
      {
        if p >= size - length {
          assert state[p] == input[p - (size - length)];
        } else {
          assert state[p] == old(state[p + length]);
        }
      }
    }

    /** Brings the state up to date. */
    method Remember(input: array<real>)
      requires Recalls() && input != state
      modifies this, state
      ensures Recalls() && history == old(history) + input[..]
    {
      if state.Length > 0 {
        if input.Length >= state.Length {
          TakeEnd(input);
        } else {
          ShiftIn(input);
        }
      }
      history := history + input[..];
    }

    /** Filters a block: over any number of blocks of any lengths the output is the filter applied to all of
        the input together. */
    method Filter(input: array<real>, output: array<real>)
      requires Valid() && output.Length >= input.Length
      requires input != output && input != state && output != state
      modifies this, state, output
      ensures Valid() && history == old(history) + input[..]
      ensures forall i | 0 <= i < input.Length ::
                output[i] == FirSum(coeffs, sparsity, offset, history, |old(history)| + i, |coeffs|)
      ensures forall i | input.Length <= i < output.Length :: output[i] == old(output[i])
    {
      ghost var x := history + input[..];
      for i := 0 to input.Length
        invariant Valid() && history == old(history)
        invariant forall q | 0 <= q < i :: output[q] == FirSum(coeffs, sparsity, offset, x, |history| + q, |coeffs|)
        invariant forall q | input.Length <= q < output.Length :: output[q] == old(output[q])
      {
        output[i] := Convolve(input, i);
      }
      Remember(input);
    }
  }
}
