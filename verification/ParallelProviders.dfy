/** Where a parallel solid push gets its inputs from: streams are announced before they are
    fetched, and each can be taken once. */
module ParallelProviders {
  import opened Wire

  const MIN_BATCH := 1
  const MAX_BATCH := 1024
  const DEFAULT_BATCH := 64

  datatype Event = Prepared(indices: seq<nat>) | Fetched(index: nat)

  /** All indices announced, in order. */
  function Announced(log: seq<Event>): seq<nat> {
    if log == [] then []
    else Announced(log[..|log| - 1]) + match log[|log| - 1] case Prepared(ix) => ix case Fetched(_) => []
  }

  /** All indices fetched, in order. */
  function Taken(log: seq<Event>): seq<nat> {
    if log == [] then []
    else Taken(log[..|log| - 1]) + match log[|log| - 1] case Prepared(_) => [] case Fetched(i) => [i]
  }

  function UpTo(n: nat): (r: seq<nat>)
    ensures |r| == n
  {
    seq(n, i => i)
  }

  function Range(from: nat, to: nat): (r: seq<nat>) {
    seq(if from <= to then to - from else 0, i => from + i)
  }

  /** At every moment, what has been announced and what has been fetched are prefixes of
      0, 1, 2, ..., each index is announced before it is fetched, and at most `batch` indices
      are announced and not yet fetched. */
  predicate Orderly(log: seq<Event>, batch: nat) {
    && Announced(log) == UpTo(|Announced(log)|)
    && Taken(log) == UpTo(|Taken(log)|)
    && |Taken(log)| <= |Announced(log)| <= |Taken(log)| + batch
    && (log != [] ==> Orderly(log[..|log| - 1], batch))
  }

  lemma OrderlyPrepare(log: seq<Event>, batch: nat, to: nat)
    requires Orderly(log, batch)
    requires var n := |Announced(log)|; |Taken(log)| == n <= to <= n + batch
    ensures var log' := log + [Prepared(Range(|Announced(log)|, to))];
            Orderly(log', batch) && Announced(log') == UpTo(to) && Taken(log') == Taken(log)
  {
    var log' := log + [Prepared(Range(|Announced(log)|, to))];
    assert log'[..|log'| - 1] == log;
    assert UpTo(|Announced(log)|) + Range(|Announced(log)|, to) == UpTo(to);
    assert Taken(log) + [] == Taken(log);
  }

  lemma OrderlyFetch(log: seq<Event>, batch: nat)
    requires Orderly(log, batch) && |Taken(log)| < |Announced(log)|
    ensures var log' := log + [Fetched(|Taken(log)|)];
            Orderly(log', batch) && Announced(log') == Announced(log) && Taken(log') == UpTo(|Taken(log)| + 1)
  {
    var log' := log + [Fetched(|Taken(log)|)];
    assert log'[..|log'| - 1] == log;
    assert UpTo(|Taken(log)|) + [|Taken(log)|] == UpTo(|Taken(log)| + 1);
    assert Announced(log) + [] == Announced(log);
  }

  /** In an orderly log every fetched index was announced earlier, and neither is repeated. */
  lemma {:induction false} AnnouncedBeforeFetched(log: seq<Event>, batch: nat, k: nat)
    requires Orderly(log, batch) && k < |log| && log[k].Fetched?
    ensures log[k].index in Announced(log[..k]) && log[k].index !in Taken(log[..k])
  {
    if k + 1 < |log| {
      AnnouncedBeforeFetched(log[..|log| - 1], batch, k);
      assert log[..|log| - 1][..k] == log[..k];
    } else {
      var front := log[..k];
      assert Taken(log) == Taken(front) + [log[k].index];
      assert log[k].index == UpTo(|Taken(log)|)[|Taken(front)|];
      assert Announced(log) == Announced(front) + [];
      assert UpTo(|Announced(front)|)[log[k].index] == log[k].index;
      forall j | 0 <= j < |Taken(front)|
        ensures Taken(front)[j] != log[k].index
      {
        assert Taken(front)[j] == UpTo(|Taken(front)|)[j];
      }
    }
  }

  /** The provider over data in memory. `log` remembers the calls made. */
  class VecParallelStreamProvider {
    var data: seq<Option<bytes>>
    const maxParallelism: nat
    ghost var log: seq<Event>

    constructor (data: seq<bytes>)
      ensures |this.data| == |data| && forall i :: 0 <= i < |data| ==> this.data[i] == Some(data[i])
      ensures maxParallelism == Min(|data|, DEFAULT_BATCH) && log == []
    {
      this.data := seq(|data|, i requires 0 <= i < |data| => Some(data[i]));
      maxParallelism := Min(|data|, DEFAULT_BATCH);
      log := [];
    }

    constructor WithParallelism(data: seq<bytes>, parallelism: nat)
      ensures |this.data| == |data| && forall i :: 0 <= i < |data| ==> this.data[i] == Some(data[i])
      ensures maxParallelism <= MAX_BATCH && maxParallelism <= |data| && log == []
      ensures parallelism <= MAX_BATCH && 0 < |data| ==>
        maxParallelism == Min(if parallelism < MIN_BATCH then MIN_BATCH else parallelism, |data|)
    {
      this.data := seq(|data|, i requires 0 <= i < |data| => Some(data[i]));
      var clamped := if parallelism < MIN_BATCH then MIN_BATCH else if parallelism > MAX_BATCH then MAX_BATCH else parallelism;
      maxParallelism := Min(clamped, |data|);
      log := [];
    }

    method PrepareStreams(indices: seq<nat>)
      modifies this`log
      ensures log == old(log) + [Prepared(indices)]
    {
      log := log + [Prepared(indices)];
    }

    /** A stream is given out once: after that its place is empty. */
    method GetStream(index: nat) returns (r: Option<bytes>)
      modifies this
      ensures log == old(log) + [Fetched(index)]
      ensures r == if index < |old(data)| then old(data)[index] else None
      ensures data == if index < |old(data)| then old(data)[index := None] else old(data)
    {
      log := log + [Fetched(index)];
      if index < |data| {
        r := data[index];
        data := data[index := None];
      } else {
        r := None;
      }
    }
  }
}
