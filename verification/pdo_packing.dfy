/** Packing of the controller-wide inputs (analog inputs, converted analog
    inputs, encoder counters) into TPDOs: the enabled inputs of a 32-bit mask,
    in ascending order, two per mapping, the last mapping possibly single. */
module PdoPacking {
  import opened Dictionary
  import opened InputMasks

  /** An input register family the dictionary addresses by sub-id `index + 1`
      (AnalogInput, EncoderCounter). Their ids are not part of the object
      list, so they are configuration. */
  datatype InputObject = InputObject(id: int, kind: IntType)

  /** The entry `mapping.add<Input>(idOffset, sub)` records. */
  function InputRef(input: InputObject, idOffset: int, sub: int): Ref {
    Ref(input.id + idOffset, sub, ByteSize(input.kind))
  }

  /** Reference definition: the sub-ids `i + 1` of the set bits `i` of the
      mask from position `from` to 31, ascending. */
  function EnabledFrom(mask: Mask, from: nat): seq<int>
    requires from <= 32
    decreases 32 - from
  {
    if from == 32 then []
    else (if from in mask then [from + 1] else []) + EnabledFrom(mask, from + 1)
  }

  /** The sub-ids of the inputs a mask enables. */
  function Enabled(mask: Mask): seq<int> {
    EnabledFrom(mask, 0)
  }

  lemma EnabledFromSpec(mask: Mask, from: nat)
    requires from <= 32
    ensures forall s :: s in EnabledFrom(mask, from) <==> from + 1 <= s && s - 1 in mask
    ensures forall j, k :: 0 <= j < k < |EnabledFrom(mask, from)| ==>
              EnabledFrom(mask, from)[j] < EnabledFrom(mask, from)[k]
  {
    EnabledFromMembers(mask, from);
    EnabledFromAscending(mask, from);
  }

  lemma {:induction false} EnabledFromMembers(mask: Mask, from: nat)
    requires from <= 32
    decreases 32 - from
    ensures forall s :: s in EnabledFrom(mask, from) <==> from + 1 <= s && s - 1 in mask
  {
    if from < 32 {
      EnabledFromMembers(mask, from + 1);
      var head: seq<int> := if from in mask then [from + 1] else [];
      assert EnabledFrom(mask, from) == head + EnabledFrom(mask, from + 1);
    }
  }

  lemma {:induction false} EnabledFromAscending(mask: Mask, from: nat)
    requires from <= 32
    decreases 32 - from
    ensures forall j, k :: 0 <= j < k < |EnabledFrom(mask, from)| ==>
              EnabledFrom(mask, from)[j] < EnabledFrom(mask, from)[k]
  {
    if from < 32 {
      EnabledFromAscending(mask, from + 1);
      var head: seq<int> := if from in mask then [from + 1] else [];
      var rest := EnabledFrom(mask, from + 1);
      assert EnabledFrom(mask, from) == head + rest;
      forall j, k | 0 <= j < k < |head + rest|
        ensures (head + rest)[j] < (head + rest)[k]
      {
        if j < |head| {
          EnabledFromMembers(mask, from + 1);
          assert rest[k - |head|] in rest;
        }
      }
    }
  }

  /** The enabled sub-ids are exactly `i + 1` for the set bits `i`, strictly
      ascending; hence one per set bit. */
  lemma EnabledSpec(mask: Mask)
    ensures forall s :: s in Enabled(mask) <==> s - 1 in mask
    ensures forall j, k :: 0 <= j < k < |Enabled(mask)| ==> Enabled(mask)[j] < Enabled(mask)[k]
  {
    EnabledFromSpec(mask, 0);
  }

  /** The set bits at position `from` or above. */
  function BitsFrom(mask: Mask, from: int): set<int> {
    set i | i in mask && from <= i
  }

  /** One enabled sub-id per set bit. */
  lemma {:induction false} EnabledFromCount(mask: Mask, from: nat)
    requires from <= 32
    ensures |EnabledFrom(mask, from)| == |BitsFrom(mask, from)|
    decreases 32 - from
  {
    if from == 32 {
      assert BitsFrom(mask, from) == {};
    } else {
      EnabledFromCount(mask, from + 1);
      var rest := BitsFrom(mask, from + 1);
      if from in mask {
        assert rest * {from} == {};
        assert BitsFrom(mask, from) == rest + {from};
      } else {
        assert BitsFrom(mask, from) == rest;
      }
    }
  }

  lemma EnabledCount(mask: Mask)
    ensures |Enabled(mask)| == |mask|
  {
    EnabledFromCount(mask, 0);
    assert BitsFrom(mask, 0) == mask;
  }

  /** The refs of a list of sub-ids. */
  function InputRefs(input: InputObject, idOffset: int, subs: seq<int>): (r: seq<Ref>)
    ensures |r| == |subs|
  {
    if |subs| == 0 then [] else [InputRef(input, idOffset, subs[0])] + InputRefs(input, idOffset, subs[1..])
  }

  lemma {:induction false} InputRefsSpec(input: InputObject, idOffset: int, subs: seq<int>)
    ensures forall k :: 0 <= k < |subs| ==> InputRefs(input, idOffset, subs)[k] == InputRef(input, idOffset, subs[k])
  {
    if |subs| > 0 {
      InputRefsSpec(input, idOffset, subs[1..]);
    }
  }

  lemma {:induction false} InputRefsMembers(input: InputObject, idOffset: int, subs: seq<int>)
    ensures forall x :: x in InputRefs(input, idOffset, subs) ==>
              x.id == input.id + idOffset && x.size == ByteSize(input.kind) && x.sub in subs
  {
    if |subs| > 0 {
      InputRefsMembers(input, idOffset, subs[1..]);
      assert InputRefs(input, idOffset, subs) == [InputRef(input, idOffset, subs[0])] + InputRefs(input, idOffset, subs[1..]);
      assert forall s :: s in subs[1..] ==> s in subs;
    }
  }

  lemma {:induction false} InputRefsConcat(input: InputObject, idOffset: int, a: seq<int>, b: seq<int>)
    ensures InputRefs(input, idOffset, a + b) == InputRefs(input, idOffset, a) + InputRefs(input, idOffset, b)
  {
    if |a| > 0 {
      assert (a + b)[1..] == a[1..] + b;
      InputRefsConcat(input, idOffset, a[1..], b);
    } else {
      assert a + b == b;
    }
  }

  /** One step of the walk over the mask, in terms of refs. */
  lemma EnabledRefsStep(input: InputObject, idOffset: int, mask: Mask, i: nat)
    requires i < 32
    ensures i in mask ==>
              (InputRefs(input, idOffset, EnabledFrom(mask, i))
               == [InputRef(input, idOffset, i + 1)] + InputRefs(input, idOffset, EnabledFrom(mask, i + 1)))
    ensures i !in mask ==>
              (InputRefs(input, idOffset, EnabledFrom(mask, i)) == InputRefs(input, idOffset, EnabledFrom(mask, i + 1)))
  {
    if i in mask {
      InputRefsConcat(input, idOffset, [i + 1], EnabledFrom(mask, i + 1));
    } else {
      assert [] + EnabledFrom(mask, i + 1) == EnabledFrom(mask, i + 1);
      assert EnabledFrom(mask, i) == EnabledFrom(mask, i + 1);
    }
  }

  /** Reference grouping: consecutive pairs, the last one single when the
      length is odd. */
  function Pairs<T>(s: seq<T>): seq<seq<T>>
    decreases |s|
  {
    if |s| == 0 then []
    else if |s| == 1 then [s]
    else [s[..2]] + Pairs(s[2..])
  }

  lemma PairsCons<T>(a: T, b: T, rest: seq<T>)
    ensures Pairs([a, b] + rest) == [[a, b]] + Pairs(rest)
  {
    var s := [a, b] + rest;
    assert s[..2] == [a, b];
    assert s[2..] == rest;
  }

  /** Concatenating the pairs gives the list back. */
  lemma {:induction false} PairsFlatten<T>(s: seq<T>)
    ensures Flatten(Pairs(s)) == s
  {
    if |s| == 1 {
      FlattenShort(s, []);
    } else if |s| > 1 {
      PairsFlatten(s[2..]);
      FlattenCons(s[..2], Pairs(s[2..]));
      assert s[..2] + s[2..] == s;
    }
  }

  /** ceil(n / 2) groups, all pairs but possibly the last. */
  lemma {:induction false} PairsShape<T>(s: seq<T>)
    ensures |Pairs(s)| == (|s| + 1) / 2
    ensures forall k :: 0 <= k < |Pairs(s)| ==> 1 <= |Pairs(s)[k]| <= 2
    ensures forall k :: 0 <= k < |Pairs(s)| - 1 ==> |Pairs(s)[k]| == 2
  {
    if |s| > 1 {
      PairsShape(s[2..]);
      assert Pairs(s) == [s[..2]] + Pairs(s[2..]);
    }
  }

  /** A mapping of at most two inputs of at most four bytes fits in a frame. */
  lemma InputPairsFit(input: InputObject, idOffset: int, subs: seq<int>)
    ensures forall k :: 0 <= k < |Pairs(InputRefs(input, idOffset, subs))| ==>
              MappingBytes(Pairs(InputRefs(input, idOffset, subs))[k]) <= PdoPayloadBytes
  {
    var ps := Pairs(InputRefs(input, idOffset, subs));
    PairsShape(InputRefs(input, idOffset, subs));
    forall k | 0 <= k < |ps|
      ensures MappingBytes(ps[k]) <= PdoPayloadBytes
    {
      var m := ps[k];
      PairsMember(InputRefs(input, idOffset, subs), k);
      InputRefsMembers(input, idOffset, subs);
      if |m| == 1 {
        MappingBytesShort(m[0], m[0], m[0]);
        assert m == [m[0]];
      } else {
        MappingBytesShort(m[0], m[1], m[1]);
        assert m == [m[0], m[1]];
      }
    }
  }

  /** Every member of a group is a member of the grouped list. */
  lemma {:induction false} PairsMember<T>(s: seq<T>, k: nat)
    requires k < |Pairs(s)|
    ensures forall x :: x in Pairs(s)[k] ==> x in s
  {
    if |s| > 1 {
      if k > 0 {
        PairsMember(s[2..], k - 1);
      }
    }
  }

  /** An enabled element met by the walk while one is pending completes a
      pair, which is declared. */
  lemma PairsComplete<T>(all: seq<seq<T>>, done: seq<seq<T>>, pending: seq<T>, r: T, rest: seq<T>)
    requires |pending| == 1
    requires all == done + Pairs(pending + ([r] + rest))
    ensures all == (done + [pending + [r]]) + Pairs([] + rest)
  {
    var a := pending[0];
    calc {
      Pairs(pending + ([r] + rest));
      { assert pending + ([r] + rest) == [a, r] + rest; }
      Pairs([a, r] + rest);
      { PairsCons(a, r, rest); }
      [[a, r]] + Pairs(rest);
      { assert pending + [r] == [a, r]; assert [] + rest == rest; }
      [pending + [r]] + Pairs([] + rest);
    }
  }

  /** An enabled element met with nothing pending becomes the pending one. */
  lemma PairsHold<T>(all: seq<seq<T>>, done: seq<seq<T>>, r: T, rest: seq<T>)
    requires all == done + Pairs([] + ([r] + rest))
    ensures all == done + Pairs(([] + [r]) + rest)
  {
    assert [] + ([r] + rest) == ([] + [r]) + rest;
  }

  lemma PairsFinish<T>(all: seq<seq<T>>, done: seq<seq<T>>, pending: seq<T>)
    requires |pending| <= 1
    requires all == done + Pairs(pending + [])
    ensures all == if |pending| == 0 then done else done + [pending]
  {
    assert pending + [] == pending;
    if |pending| == 0 {
      assert done + [] == done;
    }
  }

  /** The packed entries are exactly the inputs the mask enables, each at
      sub-id `index + 1`, and every mapping fits one frame. */
  lemma PackedRefs(input: InputObject, idOffset: int, mask: Mask)
    ensures forall x: Ref :: x in Flatten(Pairs(InputRefs(input, idOffset, Enabled(mask)))) <==>
              x.id == input.id + idOffset && x.size == ByteSize(input.kind) && x.sub - 1 in mask
    ensures forall k :: 0 <= k < |Pairs(InputRefs(input, idOffset, Enabled(mask)))| ==>
              MappingBytes(Pairs(InputRefs(input, idOffset, Enabled(mask)))[k]) <= PdoPayloadBytes
  {
    var refs := InputRefs(input, idOffset, Enabled(mask));
    PairsFlatten(refs);
    InputPairsFit(input, idOffset, Enabled(mask));
    EnabledRefs(input, idOffset, mask);
  }

  /** The entries of the enabled inputs, before grouping. */
  lemma EnabledRefs(input: InputObject, idOffset: int, mask: Mask)
    ensures forall x: Ref :: x in InputRefs(input, idOffset, Enabled(mask)) <==>
              x.id == input.id + idOffset && x.size == ByteSize(input.kind) && x.sub - 1 in mask
  {
    var subs := Enabled(mask);
    var refs := InputRefs(input, idOffset, subs);
    forall x | x in refs
      ensures x.id == input.id + idOffset && x.size == ByteSize(input.kind) && x.sub - 1 in mask
    {
      InputRefsMembers(input, idOffset, subs);
      EnabledFromMembers(mask, 0);
    }
    forall x: Ref | x.id == input.id + idOffset && x.size == ByteSize(input.kind) && x.sub - 1 in mask
      ensures x in refs
    {
      EnabledFromMembers(mask, 0);
      assert x.sub in subs;
      var k :| 0 <= k < |subs| && subs[k] == x.sub;
      InputRefsSpec(input, idOffset, subs);
      assert refs[k] == x;
    }
  }

  /** `setupAnalogTPDOsInternal` and the loop of `setupEncoderTPDOs`: walks
      bits 0 to 31 of the mask, adds each enabled input to the pending mapping
      and declares the mapping at the next PDO index each second time; a last
      single input gets a mapping of its own. Returns the declared mappings,
      the k-th at PDO index `start + k`, and the next free index. */
  method PackInputs(input: InputObject, idOffset: int, mask: Mask, start: int)
    returns (mappings: seq<seq<Ref>>, next: int)
    ensures mappings == Pairs(InputRefs(input, idOffset, Enabled(mask)))
    ensures next == start + |mappings|
    ensures |mappings| == (|Enabled(mask)| + 1) / 2
    ensures forall x: Ref :: x in Flatten(mappings) <==>
              x.id == input.id + idOffset && x.size == ByteSize(input.kind) && x.sub - 1 in mask
    ensures forall k :: 0 <= k < |mappings| ==> MappingBytes(mappings[k]) <= PdoPayloadBytes
  {
    ghost var all := Pairs(InputRefs(input, idOffset, Enabled(mask)));
    ghost var todo := InputRefs(input, idOffset, Enabled(mask));
    var first := true;
    var mapping: seq<Ref> := [];
    mappings := [];
    next := start;
    assert all == mappings + Pairs(mapping + todo) by {
      assert mappings + all == all;
      assert mapping + todo == todo;
    }
    var i := 0;
    while i < 32
      invariant 0 <= i <= 32
      invariant first <==> |mapping| == 0
      invariant |mapping| <= 1
      invariant todo == InputRefs(input, idOffset, EnabledFrom(mask, i))
      invariant all == mappings + Pairs(mapping + todo)
      invariant next == start + |mappings|
    {
      ghost var rest := InputRefs(input, idOffset, EnabledFrom(mask, i + 1));
      EnabledRefsStep(input, idOffset, mask, i);
      if i in mask {
        var r := InputRef(input, idOffset, i + 1);
        if !first {
          PairsComplete(all, mappings, mapping, r, rest);
        } else {
          PairsHold(all, mappings, r, rest);
        }
        mapping := mapping + [r];
        if !first {
          mappings := mappings + [mapping];
          next := next + 1;
          mapping := [];
        }
        first := !first;
      }
      todo := rest;
      i := i + 1;
    }
    PairsFinish(all, mappings, mapping);
    if !first {
      mappings := mappings + [mapping];
      next := next + 1;
    }
    assert mappings == all;
    PackedLayout(input, idOffset, mask);
  }

  /** The layout the walk produces: ceil(k/2) mappings holding exactly the
      enabled inputs' entries, each within one frame. */
  lemma PackedLayout(input: InputObject, idOffset: int, mask: Mask)
    ensures |Pairs(InputRefs(input, idOffset, Enabled(mask)))| == (|Enabled(mask)| + 1) / 2
    ensures forall x: Ref :: x in Flatten(Pairs(InputRefs(input, idOffset, Enabled(mask)))) <==>
              x.id == input.id + idOffset && x.size == ByteSize(input.kind) && x.sub - 1 in mask
    ensures forall k :: 0 <= k < |Pairs(InputRefs(input, idOffset, Enabled(mask)))| ==>
              MappingBytes(Pairs(InputRefs(input, idOffset, Enabled(mask)))[k]) <= PdoPayloadBytes
  {
    PairsShape(InputRefs(input, idOffset, Enabled(mask)));
    PackedRefs(input, idOffset, mask);
  }
}
