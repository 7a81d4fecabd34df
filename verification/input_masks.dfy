/** The controller-wide input trackers of `DriverBase`. Each input family
    (analog inputs, converted analog inputs, encoder counters) has a 32-bit
    mask of the inputs enabled in the TPDOs and a 32-bit mask of the inputs
    received since the last reset; input `i` is bit `i` and travels as
    sub-id `i + 1`. A 32-bit mask is modelled as the set of the positions of
    its set bits. */
module InputMasks {
  /** A `uint32_t` mask: the positions, 0 to 31, of its set bits. */
  type Mask = m: set<int> | forall i :: i in m ==> 0 <= i < 32

  /** One (expected, received) pair of masks. */
  datatype Tracker = Tracker(expected: Mask, received: Mask)

  /** A tracker with nothing enabled and nothing received, as constructed. */
  const EmptyTracker: Tracker := Tracker({}, {})

  /** `set*EnableInTPDO(index, enable)`: sets or clears bit `index` of the
      expected mask and no other. Outside 0 to 31 the source's shift is
      undefined; the model leaves the tracker unchanged there. */
  function SetEnable(t: Tracker, index: int, enable: bool): (r: Tracker)
    ensures r.received == t.received
    ensures 0 <= index < 32 ==>
              forall j :: j in r.expected <==> (if j == index then enable else j in t.expected)
    ensures !(0 <= index < 32) ==> r == t
  {
    if !(0 <= index < 32) then t
    else if enable then t.(expected := t.expected + {index})
    else t.(expected := t.expected - {index})
  }

  /** The received-mask update `process` makes for an input entry with sub-id
      `sub`: bit `sub - 1` is OR'ed in and no other. A sub-id outside 1 to 32
      makes the source's shift undefined; the model leaves the tracker
      unchanged there. */
  function Receive(t: Tracker, sub: int): (r: Tracker)
    ensures r.expected == t.expected
    ensures forall j :: j in r.received <==> j in t.received || (1 <= sub <= 32 && j == sub - 1)
  {
    if 1 <= sub <= 32 then t.(received := t.received + {sub - 1}) else t
  }

  /** `reset*Tracking`: forgets what was received, keeps what is enabled. */
  function Reset(t: Tracker): (r: Tracker)
    ensures r.expected == t.expected
    ensures forall j :: j !in r.received
  {
    t.(received := {})
  }

  /** `has*Update`: exact equality of the two masks, not a subset test. */
  predicate HasUpdate(t: Tracker) {
    t.expected == t.received
  }

  /** The receptions of a sequence of sub-ids, in order. */
  function ReceiveAll(t: Tracker, subs: seq<int>): (r: Tracker)
    ensures r.expected == t.expected
    decreases |subs|
  {
    if |subs| == 0 then t else ReceiveAll(Receive(t, subs[0]), subs[1..])
  }

  /** After a sequence of receptions, bit `j` is set exactly when it was set
      before or sub-id `j + 1` was among them. */
  lemma {:induction false} ReceiveAllBits(t: Tracker, subs: seq<int>)
    ensures forall j :: j in ReceiveAll(t, subs).received <==> j in t.received || (0 <= j < 32 && j + 1 in subs)
    decreases |subs|
  {
    if |subs| > 0 {
      ReceiveAllBits(Receive(t, subs[0]), subs[1..]);
      assert subs == [subs[0]] + subs[1..];
    }
  }

  /** Right after a reset the tracker is complete exactly when nothing is
      enabled. */
  lemma ResetHasUpdate(t: Tracker)
    ensures HasUpdate(Reset(t)) <==> t.expected == {}
  {
  }

  /** Receiving, after a reset, exactly the sub-ids of the enabled inputs (in
      any order, repeats allowed) completes the tracker. */
  lemma ReceiveEnabledCompletes(t: Tracker, subs: seq<int>)
    requires forall j :: j in t.expected <==> j + 1 in subs
    ensures HasUpdate(ReceiveAll(Reset(t), subs))
  {
    ReceiveAllBits(Reset(t), subs);
    var r := ReceiveAll(Reset(t), subs);
    assert forall j :: j in r.received <==> j in r.expected;
  }

  /** An input that arrives without being enabled keeps the tracker
      incomplete through any further receptions, until the next reset. */
  lemma StrayInputBlocks(t: Tracker, j: int, later: seq<int>)
    requires j in t.received && j !in t.expected
    ensures j in ReceiveAll(t, later).received && j !in ReceiveAll(t, later).expected
    ensures !HasUpdate(ReceiveAll(t, later))
  {
    ReceiveAllBits(t, later);
  }
}
