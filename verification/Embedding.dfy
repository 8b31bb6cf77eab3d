/** embed_texts: batches, one retry each, and a place in the result for every text. */
module Embedding {
  import opened Common
  import opened IndexHash
  import opened VectorIndex

  /** What the provider does with one attempt at one batch. */
  datatype Reply = Encoded | SoftFailure | Fatal

  datatype EmbedResult =
    | BadBatchSize
    | FatalFailure
    | Embedded(vectors: seq<Option<Vector>>, attempted: nat, succeeded: nat, failed: nat)

  /** The fate of a batch after its one retry. */
  function BatchFate(provider: (nat, nat) -> Reply, batch: nat): Reply {
    if provider(batch, 0).SoftFailure? then provider(batch, 1) else provider(batch, 0)
  }

  function VectorFor(p: Profile, text: string, fate: Reply): Option<Vector> {
    if fate.Encoded? then Some(Embedding(p, text)) else None
  }

  function CountNone(vs: seq<Option<Vector>>): nat {
    if vs == [] then 0 else (if vs[|vs| - 1].None? then 1 else 0) + CountNone(vs[..|vs| - 1])
  }

  /** _encode_with_retry; a soft failure after the retry is no vectors at all. */
  method EncodeWithRetry(p: Profile, texts: seq<string>, provider: (nat, nat) -> Reply, batch: nat)
    returns (fatal: bool, vectors: Option<seq<Vector>>)
    ensures fatal <==> BatchFate(provider, batch).Fatal?
    ensures fatal <==>
      provider(batch, 0).Fatal? || (provider(batch, 0).SoftFailure? && provider(batch, 1).Fatal?)
    ensures vectors.Some? <==> BatchFate(provider, batch).Encoded?
    ensures vectors.Some? <==>
      provider(batch, 0).Encoded? || (provider(batch, 0).SoftFailure? && provider(batch, 1).Encoded?)
    ensures vectors.Some? ==>
      && |vectors.value| == |texts|
      && forall i :: 0 <= i < |texts| ==> vectors.value[i] == Embedding(p, texts[i])
  {
    for attempt := 0 to 2
      invariant forall a: nat :: a < attempt ==> provider(batch, a).SoftFailure?
    {
      match provider(batch, attempt)
      case Encoded => return false, Some(seq(|texts|, i requires 0 <= i < |texts| => Embedding(p, texts[i])));
      case Fatal => return true, None;
      case SoftFailure =>
    }
    assert provider(batch, 0).SoftFailure? && provider(batch, 1).SoftFailure?;
    return false, None;
  }

  /** The position at which a batch starts. */
  function StartOf(batch: nat, size: nat): nat {
    if batch == 0 then 0 else StartOf(batch - 1, size) + size
  }

  /** The batch a position falls into. */
  function BatchOf(i: nat, size: nat): nat
    requires size > 0
  {
    if i < size then 0 else 1 + BatchOf(i - size, size)
  }

  lemma {:induction false} BatchOfPosition(i: nat, batch: nat, size: nat)
    requires size > 0 && StartOf(batch, size) <= i < StartOf(batch, size) + size
    ensures BatchOf(i, size) == batch
  {
    if batch == 0 {
    } else {
      BatchOfPosition(i - size, batch - 1, size);
    }
  }

  /** Batches are consecutive stretches of the given size. */
  lemma {:induction false} BatchesAreConsecutive(i: nat, batch: nat, size: nat)
    requires size > 0
    ensures StartOf(batch, size) == batch * size
    ensures BatchOf(i, size) == batch <==> batch * size <= i < (batch + 1) * size
  {
    if batch > 0 {
      if i >= size {
        BatchesAreConsecutive(i - size, batch - 1, size);
      } else {
        BatchesAreConsecutive(0, batch - 1, size);
        assert batch * size >= size;
      }
    }
  }

  /** Whether a text ends with its vector: if its batch's first reply encodes it, or
      fails softly and the second one does. */
  ghost predicate Reached(provider: (nat, nat) -> Reply, batch: nat) {
    provider(batch, 0).Encoded? || (provider(batch, 0).SoftFailure? && provider(batch, 1).Encoded?)
  }

  lemma {:induction false} CountNoneIsCount(vs: seq<Option<Vector>>)
    ensures CountNone(vs) == |set i: nat | i < |vs| && vs[i].None?|
  {
    if vs == [] {
    } else {
      var n := |vs| - 1;
      CountNoneIsCount(vs[..n]);
      assert (set i: nat | i < |vs| && vs[i].None?) ==
        (set i: nat | i < n && vs[..n][i].None?) + if vs[n].None? then {n} else {};
    }
  }

  lemma {:induction false} CountNoneAdds(a: seq<Option<Vector>>, b: seq<Option<Vector>>)
    ensures CountNone(a + b) == CountNone(a) + CountNone(b)
  {
    if b == [] {
      assert a + b == a;
    } else {
      assert (a + b)[..|a + b| - 1] == a + b[..|b| - 1];
      CountNoneAdds(a, b[..|b| - 1]);
    }
  }

  lemma {:induction false} CountNoneUniform(vs: seq<Option<Vector>>)
    ensures (forall i :: 0 <= i < |vs| ==> vs[i].None?) ==> CountNone(vs) == |vs|
    ensures (forall i :: 0 <= i < |vs| ==> vs[i].Some?) ==> CountNone(vs) == 0
  {
    if vs == [] {
    } else {
      CountNoneUniform(vs[..|vs| - 1]);
    }
  }

  /** One batch, written to its places; a batch without vectors leaves None there. */
  method FillBatch(p: Profile, texts: seq<string>, start: nat, end: nat, provider: (nat, nat) -> Reply, batch: nat)
    returns (fatal: bool, filled: seq<Option<Vector>>, failed: nat)
    requires start <= end <= |texts|
    ensures fatal <==> BatchFate(provider, batch).Fatal?
    ensures !fatal ==>
      && |filled| == end - start
      && (forall i :: 0 <= i < end - start ==> filled[i] == VectorFor(p, texts[start + i], BatchFate(provider, batch)))
      && failed == CountNone(filled) <= |filled|
  {
    var vectors;
    fatal, vectors := EncodeWithRetry(p, texts[start..end], provider, batch);
    failed := if vectors.None? then end - start else 0;
    filled := seq(end - start, i requires 0 <= i < end - start =>
      if vectors.Some? && i < |vectors.value| then Some(vectors.value[i]) else None);
    CountNoneUniform(filled);
  }

  /** The positions filled so far hold their own text's vector or their batch's failure. */
  predicate Filled(out: seq<Option<Vector>>, p: Profile, texts: seq<string>, size: nat, provider: (nat, nat) -> Reply)
    requires size > 0
  {
    && |out| <= |texts|
    && forall i :: 0 <= i < |out| ==>
      && !BatchFate(provider, BatchOf(i, size)).Fatal?
      && out[i] == VectorFor(p, texts[i], BatchFate(provider, BatchOf(i, size)))
  }

  lemma FilledGrows(out: seq<Option<Vector>>, filled: seq<Option<Vector>>, p: Profile, texts: seq<string>, size: nat,
                    provider: (nat, nat) -> Reply, batch: nat)
    requires size > 0 && Filled(out, p, texts, size, provider)
    requires |out| == StartOf(batch, size) && |filled| <= size && |out| + |filled| <= |texts|
    requires !BatchFate(provider, batch).Fatal?
    requires forall i :: 0 <= i < |filled| ==> filled[i] == VectorFor(p, texts[|out| + i], BatchFate(provider, batch))
    ensures Filled(out + filled, p, texts, size, provider)
    ensures CountNone(out + filled) == CountNone(out) + CountNone(filled)
  {
    forall i | |out| <= i < |out| + |filled|
      ensures BatchOf(i, size) == batch
      ensures (out + filled)[i] == VectorFor(p, texts[i], BatchFate(provider, batch))
    {
      BatchOfPosition(i, batch, size);
      assert (out + filled)[i] == filled[i - |out|];
    }
    CountNoneAdds(out, filled);
  }

  /** Some batch of that many texts gets a fatal reply. */
  ghost predicate MeetsFatal(texts: nat, size: nat, provider: (nat, nat) -> Reply) {
    exists b: nat :: StartOf(b, size) < texts && BatchFate(provider, b).Fatal?
  }

  lemma FilledMeetsNoFatal(out: seq<Option<Vector>>, p: Profile, texts: seq<string>, size: nat,
                           provider: (nat, nat) -> Reply)
    requires size > 0 && Filled(out, p, texts, size, provider) && |out| == |texts|
    ensures !MeetsFatal(|texts|, size, provider)
  {
    forall b: nat | StartOf(b, size) < |texts|
      ensures !BatchFate(provider, b).Fatal?
    {
      BatchOfPosition(StartOf(b, size), b, size);
    }
  }

  lemma FilledByBatch(out: seq<Option<Vector>>, p: Profile, texts: seq<string>, size: nat,
                      provider: (nat, nat) -> Reply)
    requires size > 0 && Filled(out, p, texts, size, provider) && |out| == |texts|
    ensures forall i: nat, b: nat :: i < |texts| && b * size <= i < (b + 1) * size ==>
      out[i] == if Reached(provider, b) then Some(Embedding(p, texts[i])) else None
  {
    forall i: nat, b: nat | i < |texts| && b * size <= i < (b + 1) * size
      ensures out[i] == if Reached(provider, b) then Some(Embedding(p, texts[i])) else None
    {
      BatchesAreConsecutive(i, b, size);
    }
  }

  /** Each text gets the embedding of that very text unless its batch failed
      twice; a fatal reply stops everything; the counters add up. */
  method EmbedTexts(p: Profile, texts: seq<string>, batchSize: int, provider: (nat,
                    nat) -> Reply) returns (r: EmbedResult)
    ensures r.BadBatchSize? <==> texts != [] && batchSize <= 0
    ensures r.FatalFailure? <==> batchSize > 0 && MeetsFatal(|texts|, batchSize, provider)
    ensures r.Embedded? ==>
      && |r.vectors| == |texts|
      && (texts != [] ==> batchSize > 0 && Filled(r.vectors, p, texts, batchSize, provider))
      && r.attempted == |texts|
      && (forall i: nat, b: nat :: i < |texts| && b * batchSize <= i < (b + 1) * batchSize ==>
            r.vectors[i] == if Reached(provider, b) then Some(Embedding(p, texts[i])) else None)
      && r.failed == |set i: nat | i < |texts| && r.vectors[i].None?|
      && r.succeeded + r.failed == r.attempted
  {
    if texts == [] {
      CountNoneIsCount([]);
      return Embedded([], 0, 0, 0);
    }
    if batchSize <= 0 {
      return BadBatchSize;
    }
    var out: seq<Option<Vector>> := [];
    var failed, batch := 0, 0;
    while |out| < |texts|
      invariant Filled(out, p, texts, batchSize, provider)
      invariant |out| < |texts| ==> |out| == StartOf(batch, batchSize)
      invariant failed == CountNone(out) <= |out|
    {
      var fatal, next, missed := NextBatch(p, texts, out, batchSize, provider, batch);
      if fatal {
        return FatalFailure;
      }
      out := next;
      failed := failed + missed;
      batch := batch + 1;
    }
    FilledMeetsNoFatal(out, p, texts, batchSize, provider);
    FilledByBatch(out, p, texts, batchSize, provider);
    CountNoneIsCount(out);
    r := Embedded(out, |texts|, |texts| - failed, failed);
  }

  /** One turn of the batching loop. */
  method NextBatch(p: Profile, texts: seq<string>, out: seq<Option<Vector>>, size: nat, provider: (nat, nat) -> Reply,
                   batch: nat)
    returns (fatal: bool, next: seq<Option<Vector>>, missed: nat)
    requires size > 0 && |out| < |texts| && |out| == StartOf(batch, size)
    requires Filled(out, p, texts, size, provider)
    ensures fatal <==> BatchFate(provider, batch).Fatal?
    ensures !fatal ==>
      && |out| < |next|
      && Filled(next, p, texts, size, provider)
      && (|next| < |texts| ==> |next| == StartOf(batch + 1, size))
      && CountNone(next) == CountNone(out) + missed
      && missed <= |next| - |out|
  {
    var start := |out|;
    var end := if start + size < |texts| then start + size else |texts|;
    var filled;
    fatal, filled, missed := FillBatch(p, texts, start, end, provider, batch);
    next := out + filled;
    if !fatal {
      FilledGrows(out, filled, p, texts, size, provider, batch);
    }
  }
}
