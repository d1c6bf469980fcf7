/** The bookkeeping the wrapper protocol maintains: every object's reference
    count equals the number of live wrappers that point at it plus the
    references still owned directly by code (a producer between creating an
    object and storing it, say). Each operation of the protocol keeps it. */
module Ownership {
  import opened RefCount
  import opened VariantWrapper
  import opened Tensors
  import opened IOBase

  /** The number of wrappers in `ws` that point at `id`. */
  function Holders(ws: seq<Wrapper>, id: ObjId): (n: nat)
    ensures n <= |ws|
  {
    if ws == [] then 0
    else (if ws[0].obj == Ptr(id) then 1 else 0) + Holders(ws[1..], id)
  }

  /** No wrapper points at `id` exactly when none is counted. */
  lemma {:induction false} HoldersZero(ws: seq<Wrapper>, id: ObjId)
    ensures Holders(ws, id) == 0 <==> forall i :: 0 <= i < |ws| ==> ws[i].obj != Ptr(id)
  {
    if ws != [] {
      HoldersZero(ws[1..], id);
      assert forall i :: 1 <= i < |ws| ==> ws[i] == ws[1..][i - 1];
    }
  }

  lemma {:induction false} HoldersConcat(a: seq<Wrapper>, b: seq<Wrapper>, id: ObjId)
    ensures Holders(a + b, id) == Holders(a, id) + Holders(b, id)
  {
    if a == [] {
      assert a + b == b;
    } else {
      assert (a + b)[1..] == a[1..] + b;
      HoldersConcat(a[1..], b, id);
    }
  }

  /** A wrapper in `ws` that points at `id` is counted. */
  lemma HoldersPositive(ws: seq<Wrapper>, w: Wrapper)
    requires w in ws && w.obj.Ptr?
    ensures Holders(ws, w.obj.id) > 0
  {
  }

  /** The wrappers a variant element keeps alive. */
  function SlotWrappers(v: Variant): (ws: seq<Wrapper>)
    ensures forall id :: Holders(ws, id) == if Occupant(v) == Ptr(id) then 1 else 0
  {
    if v.Holding? then [v.wrapper] else []
  }

  /** Each object's count is what the wrappers in `live` and the owned
      references in `owners` account for. */
  ghost predicate CountsMatch(h: Heap, live: seq<Wrapper>, owners: multiset<ObjId>) {
    forall id :: id in h ==> h[id].refs == Holders(live, id) + owners[id]
  }

  /** An object is alive exactly while its count is positive. */
  ghost predicate Coherent(h: Heap) {
    forall id :: id in h ==> (h[id].alive <==> h[id].refs > 0)
  }

  /** Every wrapper points at a live object of its own class. */
  ghost predicate WrappersValid(h: Heap, live: seq<Wrapper>) {
    forall w :: w in live && w.obj.Ptr? ==> Live(h, w.obj.id) && h[w.obj.id].base == w.base
  }

  /** Every owned reference is to a live object. */
  ghost predicate OwnersLive(h: Heap, owners: multiset<ObjId>) {
    forall id :: id in owners ==> Live(h, id)
  }

  /** `live` lists every wrapper that exists (in tensors or elsewhere) and
      `owners` every reference held directly by code. */
  ghost predicate Balanced(h: Heap, live: seq<Wrapper>, owners: multiset<ObjId>) {
    CountsMatch(h, live, owners) && Coherent(h) && WrappersValid(h, live) && OwnersLive(h, owners)
  }

  /** Counts that match make every listed wrapper and owned reference live. */
  lemma {:induction false} MatchedCountsAreLive(h: Heap, live: seq<Wrapper>, owners: multiset<ObjId>, h0: Heap, live0: seq<Wrapper>)
    requires CountsMatch(h, live, owners) && Coherent(h)
    requires h.Keys == h0.Keys && WrappersValid(h0, live0)
    requires forall w :: w in live ==> w in live0
    requires forall id :: id in h ==> h[id].base == h0[id].base
    requires forall id :: id in owners ==> id in h
    ensures WrappersValid(h, live) && OwnersLive(h, owners)
  {
    forall w | w in live && w.obj.Ptr?
      ensures Live(h, w.obj.id) && h[w.obj.id].base == w.base
    {
      HoldersPositive(live, w);
    }
  }

  /** Copy-constructing a wrapper from a live one keeps the balance. */
  lemma {:induction false} CopyKeepsBalance(h: Heap, live: seq<Wrapper>, owners: multiset<ObjId>, w: Wrapper)
    requires Balanced(h, live, owners) && w in live
    ensures w.Valid(h)
    ensures Balanced(Copied(h, w), live + [w], owners)
  {
    var h' := Copied(h, w);
    forall id | id in h'
      ensures h'[id].refs == Holders(live + [w], id) + owners[id]
    {
      HoldersConcat(live, [w], id);
      assert Holders([w], id) == if w.obj == Ptr(id) then 1 else 0;
    }
    MatchedCountsAreLive(h', live + [w], owners, h, live);
  }

  /** Destroying one of the live wrappers keeps the balance. */
  lemma {:induction false} DestroyKeepsBalance(h: Heap, live: seq<Wrapper>, owners: multiset<ObjId>, i: nat)
    requires Balanced(h, live, owners) && i < |live|
    ensures live[i].Valid(h)
    ensures Balanced(Destroyed(h, live[i]), live[..i] + live[i + 1..], owners)
  {
    assert live[i] in live;
    var h' := Destroyed(h, live[i]);
    var rest := live[..i] + live[i + 1..];
    assert live == live[..i] + [live[i]] + live[i + 1..];
    forall id | id in h'
      ensures h'[id].refs == Holders(rest, id) + owners[id]
    {
      HoldersConcat(live[..i] + [live[i]], live[i + 1..], id);
      HoldersConcat(live[..i], [live[i]], id);
      HoldersConcat(live[..i], live[i + 1..], id);
      assert Holders([live[i]], id) == if live[i].obj == Ptr(id) then 1 else 0;
    }
    forall w | w in rest
      ensures w in live
    {
      var k :| 0 <= k < |rest| && rest[k] == w;
      if k < i { assert live[k] == w; } else { assert live[k + 1] == w; }
    }
    MatchedCountsAreLive(h', rest, owners, h, live);
  }

  /** Constructing a wrapper from a pointer the caller owns moves that
      reference into the wrapper: no count changes and the balance holds. */
  lemma {:induction false} AdoptKeepsBalance(h: Heap, live: seq<Wrapper>, owners: multiset<ObjId>, id: ObjId)
    requires Balanced(h, live, owners) && id in owners
    ensures id in h
    ensures Balanced(h, live + [Wrapper(h[id].base, Ptr(id))], owners - multiset{id})
  {
    var w := Wrapper(h[id].base, Ptr(id));
    forall o | o in h
      ensures h[o].refs == Holders(live + [w], o) + (owners - multiset{id})[o]
    {
      HoldersConcat(live, [w], o);
      assert Holders([w], o) == if o == id then 1 else 0;
    }
  }

  /** Destroying the wrapper a variant element held keeps every object's
      liveness in step with its count. */
  lemma {:induction false} ReleasingOccupantKeepsCoherence(h: Heap, v: Variant, w: Wrapper)
    requires Coherent(h) && SlotValid(h, v)
    ensures Coherent(Overwrite(h, v, w).0)
  {
  }

  /** Overwriting a tensor element with a wrapper that carries one owned
      reference keeps the counts matched; `owners'` is `owners` without that
      reference. */
  lemma {:induction false} OverwriteMatchesCounts(h: Heap, v: Variant, rest: seq<Wrapper>,
                                                  owners: multiset<ObjId>, owners': multiset<ObjId>, w: Wrapper)
    requires CountsMatch(h, SlotWrappers(v) + rest, owners) && SlotValid(h, v)
    requires w.obj.Ptr? ==> w.obj.id in owners
    requires owners' == if w.obj.Ptr? then owners - multiset{w.obj.id} else owners
    ensures CountsMatch(Overwrite(h, v, w).0, SlotWrappers(Overwrite(h, v, w).1) + rest, owners')
  {
    var (h', v') := Overwrite(h, v, w);
    forall id | id in h'
      ensures h'[id].refs == Holders(SlotWrappers(v') + rest, id) + owners'[id]
    {
      HoldersConcat(SlotWrappers(v), rest, id);
      HoldersConcat(SlotWrappers(v'), rest, id);
      assert owners'[id] == owners[id] - (if w.obj == Ptr(id) then 1 else 0);
    }
  }

  /** After an overwrite, every wrapper in the new list was either in the old
      one or is the new wrapper. */
  lemma {:induction false} OverwriteWrappersFrom(h: Heap, v: Variant, rest: seq<Wrapper>, w: Wrapper)
    requires WrappersValid(h, SlotWrappers(v) + rest)
    requires w.obj.Ptr? ==> Live(h, w.obj.id) && h[w.obj.id].base == w.base
    ensures WrappersValid(h, [w] + (SlotWrappers(v) + rest))
    ensures forall x :: x in SlotWrappers(Holding(w)) + rest ==> x in [w] + (SlotWrappers(v) + rest)
  {
  }

  /** Overwriting a tensor element with a wrapper that carries one owned
      reference keeps the balance; `owners'` is `owners` without that
      reference. */
  lemma {:induction false} OverwriteKeepsBalance(h: Heap, v: Variant, rest: seq<Wrapper>,
                                                 owners: multiset<ObjId>, owners': multiset<ObjId>, w: Wrapper)
    requires Balanced(h, SlotWrappers(v) + rest, owners)
    requires SlotValid(h, v)
    requires w.obj.Ptr? ==> w.obj.id in owners && h[w.obj.id].base == w.base
    requires owners' == if w.obj.Ptr? then owners - multiset{w.obj.id} else owners
    ensures Balanced(Overwrite(h, v, w).0, SlotWrappers(Overwrite(h, v, w).1) + rest, owners')
  {
    var (h', v') := Overwrite(h, v, w);
    OverwriteMatchesCounts(h, v, rest, owners, owners', w);
    ReleasingOccupantKeepsCoherence(h, v, w);
    OverwriteWrappersFrom(h, v, rest, w);
    assert forall id :: id in owners' ==> id in owners;
    MatchedCountsAreLive(h', SlotWrappers(v') + rest, owners', h, [w] + (SlotWrappers(v) + rest));
  }

  /** IOBase::AsVariantTensor keeps the balance and consumes the caller's
      reference to `self`, whether it succeeds or fails. */
  lemma {:induction false} AsVariantTensorKeepsBalance(h: Heap, t: TensorValue, rest: seq<Wrapper>, owners: multiset<ObjId>, self: ObjId)
    requires Balanced(h, SlotWrappers(t.slot) + rest, owners) && self in owners
    requires Live(h, self) && SlotValid(h, t.slot)
    ensures var r := AsVariantTensorOutcome(h, t, self);
      Balanced(r.heap, SlotWrappers(r.slot) + rest, owners - multiset{self})
  {
    var r := AsVariantTensorOutcome(h, t, self);
    var owners' := owners - multiset{self};
    if r.status.IsOk() {
      OverwriteKeepsBalance(h, t.slot, rest, owners, owners', Wrapper(h[self].base, Ptr(self)));
    } else {
      var live := SlotWrappers(t.slot) + rest;
      assert r.heap == Released(h, self);
      assert CountsMatch(r.heap, live, owners');
      assert Coherent(r.heap);
      MatchedCountsAreLive(r.heap, live, owners', h, live);
    }
  }

  /** StoreIOBaseInVariantTensor keeps the balance. It consumes the caller's
      reference only when it succeeds; on failure the caller still owns it. */
  lemma {:induction false} StoreKeepsBalance(h: Heap, t: TensorValue, rest: seq<Wrapper>, owners: multiset<ObjId>, base: ClassName, p: Pointer)
    requires Balanced(h, SlotWrappers(t.slot) + rest, owners)
    requires p.Ptr? ==> p.id in owners && Live(h, p.id) && h[p.id].base == base
    requires SlotValid(h, t.slot)
    ensures var r := StoreOutcome(h, t, base, p);
      Balanced(r.heap, SlotWrappers(r.slot) + rest,
               if r.status.IsOk() && p.Ptr? then owners - multiset{p.id} else owners)
  {
    var r := StoreOutcome(h, t, base, p);
    if r.status.IsOk() {
      OverwriteKeepsBalance(h, t.slot, rest, owners,
                            if p.Ptr? then owners - multiset{p.id} else owners, Wrapper(base, p));
    }
  }

  /** The pointer a successful retrieve lends out is to a live object of the
      requested class: the wrapper in the tensor keeps it alive. */
  lemma {:induction false} RetrievedObjectIsLive(h: Heap, t: TensorValue, rest: seq<Wrapper>, owners: multiset<ObjId>,
                                                 base: ClassName, outBase: Pointer)
    requires Balanced(h, SlotWrappers(t.slot) + rest, owners)
    ensures var r := FromVariantTensor(t, base, outBase);
      r.status.IsOk() ==> Live(h, r.out.id) && h[r.out.id].base == base
  {
  }

  /** Destroying a wrapper destroys its object exactly when that wrapper held
      the last reference: other wrappers or an owner keep it alive. */
  lemma {:induction false} DestroyLastReference(h: Heap, live: seq<Wrapper>, owners: multiset<ObjId>, i: nat)
    requires Balanced(h, live, owners) && i < |live| && live[i].obj.Ptr?
    ensures live[i].Valid(h)
    ensures var id := live[i].obj.id;
      Destroyed(h, live[i])[id].alive <==> Holders(live, id) + owners[id] > 1
  {
  }

  /** The producer pattern of the image source kernels: an object made with
      a count of 1, released from its smart pointer and handed to
      AsVariantTensor, while no wrapper points at it and the producer's is
      its one owned reference. On success the tensor's wrapper holds the only
      reference; on failure the object is destroyed. Either way the producer
      owns nothing afterwards, and every other owned reference is kept. */
  lemma {:induction false} ProducerHandsOver(h: Heap, t: TensorValue, rest: seq<Wrapper>,
                                             owners: multiset<ObjId>, id: ObjId)
    requires Balanced(h, SlotWrappers(t.slot) + rest, owners) && owners[id] == 1
    requires forall i :: 0 <= i < |SlotWrappers(t.slot) + rest| ==> (SlotWrappers(t.slot) + rest)[i].obj != Ptr(id)
    requires Live(h, id) && SlotValid(h, t.slot)
    ensures var r := AsVariantTensorOutcome(h, t, id);
      && Balanced(r.heap, SlotWrappers(r.slot) + rest, owners - multiset{id})
      && (owners - multiset{id})[id] == 0
      && (r.status.IsOk() ==> r.heap[id].refs == 1 && r.heap[id].alive)
      && (!r.status.IsOk() ==> !r.heap[id].alive)
  {
    AsVariantTensorKeepsBalance(h, t, rest, owners, id);
    HoldersZero(SlotWrappers(t.slot) + rest, id);
    HoldersConcat(SlotWrappers(t.slot), rest, id);
  }
}
