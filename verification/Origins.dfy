/** What bounded audio buffers keep of a stream, and where in its source their output comes from. */
module Origins {

  /** The newest `n` elements. */
  function Newest<T>(data: seq<T>, n: nat): (s: seq<T>)
    ensures |s| == if |data| <= n then |data| else n
  {
    if |data| <= n then data else data[|data| - n..]
  }

  ghost predicate Increasing(origins: seq<nat>) {
    forall i, j :: 0 <= i < j < |origins| ==> origins[i] < origins[j]
  }

  /** Byte `i` of the output is byte `origins[i]` of the source, before `below`, and on the same half of a sample. */
  ghost predicate Drawn<T>(output: seq<T>, origins: seq<nat>, source: seq<T>, below: nat) {
    && |origins| == |output| && below <= |source|
    && Increasing(origins)
    && forall i :: 0 <= i < |output| ==> DrawnAt(output, origins, source, below, i)
  }

  ghost predicate DrawnAt<T>(output: seq<T>, origins: seq<nat>, source: seq<T>, below: nat, i: nat)
    requires |origins| == |output| && below <= |source| && i < |output|
  {
    origins[i] < below && output[i] == source[origins[i]] && origins[i] % 2 == i % 2
  }

  function Range(from: nat, n: nat): (r: seq<nat>)
    ensures |r| == n && forall i :: 0 <= i < n ==> r[i] == from + i
  {
    seq(n, i requires 0 <= i < n => from + i)
  }

  /** Skip to `from`, then draw `n` bytes in a row. */
  lemma DrawMore<T>(output: seq<T>, origins: seq<nat>, source: seq<T>, below: nat, from: nat, n: nat)
    requires Drawn(output, origins, source, below)
    requires below <= from && from + n <= |source| && from % 2 == |output| % 2
    ensures Drawn(output + source[from..from + n], origins + Range(from, n), source, from + n)
  {
    var output', origins', below' := output + source[from..from + n], origins + Range(from, n), from + n;
    forall i | 0 <= i < |output'| ensures DrawnAt(output', origins', source, below', i) {
      if i < |output| {
        assert DrawnAt(output, origins, source, below, i);
      }
    }
    forall i, j | 0 <= i < j < |origins'| ensures origins'[i] < origins'[j] {
      if i < |output| <= j {
        assert DrawnAt(output, origins, source, below, i);
      }
    }
  }

  /** The source may grow and the mark may move on. */
  lemma DrawnGrows<T>(output: seq<T>, origins: seq<nat>, source: seq<T>, below: nat, more: seq<T>, below': nat)
    requires Drawn(output, origins, source, below)
    requires below <= below' <= |source| + |more|
    ensures Drawn(output, origins, source + more, below')
  {
    forall i | 0 <= i < |output| ensures DrawnAt(output, origins, source + more, below', i) {
      assert DrawnAt(output, origins, source, below, i);
    }
  }

  lemma {:induction false} OriginsAtLeast(origins: seq<nat>, i: nat)
    requires Increasing(origins) && i < |origins|
    ensures origins[i] >= i
  {
    if i > 0 {
      OriginsAtLeast(origins, i - 1);
    }
  }

  lemma {:induction false} OriginsAtMost(origins: seq<nat>, below: nat, i: nat)
    requires Increasing(origins) && i < |origins| && origins[|origins| - 1] < below
    ensures origins[i] + (|origins| - i) <= below
    decreases |origins| - i
  {
    if i < |origins| - 1 {
      OriginsAtMost(origins, below, i + 1);
    }
  }

  /** An output as long as the part of the source it was drawn from is that part. */
  lemma NothingMissing<T>(output: seq<T>, origins: seq<nat>, source: seq<T>, below: nat)
    requires Drawn(output, origins, source, below) && |output| == below
    ensures output == source[..below]
  {
    forall i | 0 <= i < |output| ensures output[i] == source[i] {
      assert DrawnAt(output, origins, source, below, |output| - 1);
      assert DrawnAt(output, origins, source, below, i);
      OriginsAtLeast(origins, i);
      OriginsAtMost(origins, below, i);
    }
  }
}
