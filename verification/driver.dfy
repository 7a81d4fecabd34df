/** `DriverBase`: the controller-wide state shared by all channels. It holds
    the channel list, the three input trackers (analog inputs, converted analog
    inputs, encoder counters), and the RPDO index range. Transport
    notifications are forwarded to the channels and the trackers, and the
    PDO layout is laid out at consecutive indices. */
module DriverState {
  import opened Results
  import opened Dictionary
  import opened ChannelTables
  import opened InputMasks
  import opened PdoPacking
  import ChannelState

  /** The object ids of the three input families. The dictionary does not
      list them, so they are configuration: `AnalogInput` and
      `EncoderCounter` as mapped objects, and `ConvertedAnalogInput`, which
      `process` recognises by id. */
  datatype InputIds = InputIds(analog: InputObject, convertedId: int, encoder: InputObject)

  /** The three ids are pairwise different, so an entry updates at most one
      tracker. */
  predicate DistinctIds(ids: InputIds) {
    ids.analog.id != ids.convertedId && ids.analog.id != ids.encoder.id
    && ids.convertedId != ids.encoder.id
  }

  datatype Family = AnalogInputs | ConvertedAnalogInputs | EncoderCounters

  datatype Driver = Driver(
    channels: seq<ChannelState.Channel>,
    ids: InputIds,
    analog: Tracker,
    converted: Tracker,
    encoder: Tracker,
    /** `[rpdoBegin, rpdoEnd)`: the RPDO indices of the joint commands */
    rpdoBegin: int,
    rpdoEnd: int)

  /** A driver as constructed: no input enabled or received, an empty RPDO
      range. */
  function NewDriver(channels: seq<ChannelState.Channel>, ids: InputIds): (d: Driver)
    ensures forall f :: HasInputUpdate(d, f)
    ensures d.rpdoBegin == d.rpdoEnd
  {
    Driver(channels, ids, EmptyTracker, EmptyTracker, EmptyTracker, 0, 0)
  }

  function FamilyId(ids: InputIds, f: Family): int {
    match f
    case AnalogInputs => ids.analog.id
    case ConvertedAnalogInputs => ids.convertedId
    case EncoderCounters => ids.encoder.id
  }

  function TrackerOf(d: Driver, f: Family): Tracker {
    match f
    case AnalogInputs => d.analog
    case ConvertedAnalogInputs => d.converted
    case EncoderCounters => d.encoder
  }

  /** Replaces one family's tracker and nothing else. */
  function WithTracker(d: Driver, f: Family, t: Tracker): (r: Driver)
    ensures TrackerOf(r, f) == t
    ensures forall g :: g != f ==> TrackerOf(r, g) == TrackerOf(d, g)
    ensures r.channels == d.channels && r.ids == d.ids
    ensures r.rpdoBegin == d.rpdoBegin && r.rpdoEnd == d.rpdoEnd
  {
    match f
    case AnalogInputs => d.(analog := t)
    case ConvertedAnalogInputs => d.(converted := t)
    case EncoderCounters => d.(encoder := t)
  }

  // ---------------------------------------------------------------------
  // Input tracking

  /** `setAnalogInputEnableInTPDO`, `setConvertedAnalogInputEnableInTPDO`,
      `setEncoderCounterEnableInTPDO`: sets or clears bit `index` of the
      family's expected mask only. */
  function SetInputEnable(d: Driver, f: Family, index: int, enable: bool): (r: Driver)
    ensures TrackerOf(r, f).received == TrackerOf(d, f).received
    ensures 0 <= index < 32 ==>
              forall j :: j in TrackerOf(r, f).expected <==> (if j == index then enable else j in TrackerOf(d, f).expected)
    ensures forall g :: g != f ==> TrackerOf(r, g) == TrackerOf(d, g)
    ensures r.channels == d.channels && r.ids == d.ids
    ensures r.rpdoBegin == d.rpdoBegin && r.rpdoEnd == d.rpdoEnd
  {
    WithTracker(d, f, SetEnable(TrackerOf(d, f), index, enable))
  }

  /** `resetAnalogInputTracking` and its siblings: zeroes the family's
      received mask only. */
  function ResetInputTracking(d: Driver, f: Family): (r: Driver)
    ensures TrackerOf(r, f).expected == TrackerOf(d, f).expected
    ensures forall j :: j !in TrackerOf(r, f).received
    ensures forall g :: g != f ==> TrackerOf(r, g) == TrackerOf(d, g)
    ensures r.channels == d.channels && r.ids == d.ids
    ensures r.rpdoBegin == d.rpdoBegin && r.rpdoEnd == d.rpdoEnd
  {
    WithTracker(d, f, Reset(TrackerOf(d, f)))
  }

  /** `hasAnalogInputUpdate` and its siblings. */
  predicate HasInputUpdate(d: Driver, f: Family) {
    HasUpdate(TrackerOf(d, f))
  }

  /** `queryAnalogInput`, `queryAnalogInputConverted`, `queryEncoderCounter`:
      an upload of input `index` at sub-id `index + 1`. */
  function QueryInput(d: Driver, f: Family, index: int): Query {
    Upload(Addr(FamilyId(d.ids, f), index + 1))
  }

  /** One entry of a transport update as `process` sees it: the first family
      whose id matches gets bit `sub - 1`; any other entry is ignored. */
  function ReceiveEntry(d: Driver, a: Addr): (r: Driver)
    ensures forall f :: TrackerOf(r, f).expected == TrackerOf(d, f).expected
    ensures r.channels == d.channels && r.ids == d.ids
    ensures r.rpdoBegin == d.rpdoBegin && r.rpdoEnd == d.rpdoEnd
  {
    if a.id == d.ids.analog.id then d.(analog := Receive(d.analog, a.sub))
    else if a.id == d.ids.convertedId then d.(converted := Receive(d.converted, a.sub))
    else if a.id == d.ids.encoder.id then d.(encoder := Receive(d.encoder, a.sub))
    else d
  }

  function ReceiveEntries(d: Driver, update: seq<Addr>): (r: Driver)
    ensures forall f :: TrackerOf(r, f).expected == TrackerOf(d, f).expected
    ensures r.channels == d.channels && r.ids == d.ids
    ensures r.rpdoBegin == d.rpdoBegin && r.rpdoEnd == d.rpdoEnd
    decreases |update|
  {
    if |update| == 0 then d else ReceiveEntries(ReceiveEntry(d, update[0]), update[1..])
  }

  /** `updateJointStateTracking` on every channel. */
  function UpdateChannels(chs: seq<ChannelState.Channel>, update: seq<Addr>): (r: seq<ChannelState.Channel>)
    ensures |r| == |chs|
    ensures forall k :: 0 <= k < |chs| ==> r[k] == ChannelState.UpdateTracking(chs[k], update).0
  {
    if |chs| == 0 then []
    else [ChannelState.UpdateTracking(chs[0], update).0] + UpdateChannels(chs[1..], update)
  }

  /** `process`: the transport's update goes to every channel's tracking,
      then each entry goes to the input trackers. */
  function Process(d: Driver, update: seq<Addr>): Driver {
    ReceiveEntries(d.(channels := UpdateChannels(d.channels, update)), update)
  }

  /** With distinct ids, an entry sets bit `sub - 1` of its own family's
      received mask and touches no other. */
  lemma ReceiveEntryBits(d: Driver, a: Addr, f: Family)
    requires DistinctIds(d.ids)
    ensures forall j :: j in TrackerOf(ReceiveEntry(d, a), f).received <==>
              j in TrackerOf(d, f).received || (0 <= j < 32 && a == Addr(FamilyId(d.ids, f), j + 1))
  {
  }

  lemma {:induction false} ReceiveEntriesBits(d: Driver, update: seq<Addr>, f: Family)
    requires DistinctIds(d.ids)
    ensures forall j :: j in TrackerOf(ReceiveEntries(d, update), f).received <==>
              j in TrackerOf(d, f).received || (0 <= j < 32 && Addr(FamilyId(d.ids, f), j + 1) in update)
    decreases |update|
  {
    if |update| > 0 {
      var d1 := ReceiveEntry(d, update[0]);
      ReceiveEntryBits(d, update[0], f);
      ReceiveEntriesBits(d1, update[1..], f);
      assert update == [update[0]] + update[1..];
    }
  }

  /** What `process` changes: every channel's tracking, and per family the
      received bits `sub - 1` of the entries carrying the family's id;
      the expected masks, the ids and the RPDO range stay. */
  lemma ProcessSpec(d: Driver, update: seq<Addr>, f: Family)
    requires DistinctIds(d.ids)
    ensures |Process(d, update).channels| == |d.channels|
    ensures forall k :: 0 <= k < |d.channels| ==>
              Process(d, update).channels[k] == ChannelState.UpdateTracking(d.channels[k], update).0
    ensures TrackerOf(Process(d, update), f).expected == TrackerOf(d, f).expected
    ensures forall j :: j in TrackerOf(Process(d, update), f).received <==>
              j in TrackerOf(d, f).received || (0 <= j < 32 && Addr(FamilyId(d.ids, f), j + 1) in update)
    ensures Process(d, update).ids == d.ids
    ensures Process(d, update).rpdoBegin == d.rpdoBegin && Process(d, update).rpdoEnd == d.rpdoEnd
  {
    var d0 := d.(channels := UpdateChannels(d.channels, update));
    assert TrackerOf(d0, f) == TrackerOf(d, f);
    ReceiveEntriesBits(d0, update, f);
  }

  /** The reply to an input query sets exactly that input's bit. */
  lemma QueryReplyTracked(d: Driver, f: Family, index: int)
    requires DistinctIds(d.ids) && 0 <= index < 32
    ensures forall j :: j in TrackerOf(Process(d, [QueryInput(d, f, index).addr]), f).received <==>
              j in TrackerOf(d, f).received || j == index
  {
    ProcessSpec(d, [QueryInput(d, f, index).addr], f);
  }

  /** After a reset, an update carrying every enabled input of a family and
      no other input of it completes the family's tracker. */
  lemma EnabledInputsComplete(d: Driver, f: Family, update: seq<Addr>)
    requires DistinctIds(d.ids)
    requires forall j :: j in TrackerOf(d, f).expected ==> Addr(FamilyId(d.ids, f), j + 1) in update
    requires forall a :: a in update && a.id == FamilyId(d.ids, f) ==> a.sub - 1 in TrackerOf(d, f).expected
    ensures HasInputUpdate(Process(ResetInputTracking(d, f), update), f)
  {
    var d0 := ResetInputTracking(d, f);
    var t := TrackerOf(Process(d0, update), f);
    ProcessSpec(d0, update, f);
    forall j ensures j in t.received <==> j in t.expected {
      if j in t.received {
        assert Addr(FamilyId(d.ids, f), j + 1) in update;
      }
    }
  }

  /** An entry of a family for an input that is not enabled keeps the
      family's tracker incomplete through any later update, until reset. */
  lemma StrayInputKeepsIncomplete(d: Driver, f: Family, update: seq<Addr>, later: seq<Addr>, j: int)
    requires DistinctIds(d.ids)
    requires 0 <= j < 32 && j !in TrackerOf(d, f).expected
    requires Addr(FamilyId(d.ids, f), j + 1) in update
    ensures !HasInputUpdate(Process(d, update), f)
    ensures !HasInputUpdate(Process(Process(d, update), later), f)
  {
    ProcessSpec(d, update, f);
    ProcessSpec(Process(d, update), later, f);
  }

  // ---------------------------------------------------------------------
  // PDO layout

  /** The mappings declared at consecutive indices from the start index, and
      either the next free index or the error that stopped the setup. The
      mappings declared before an error stay declared. */
  datatype PdoSetup = PdoSetup(declared: seq<seq<Ref>>, status: Result<int>)

  /** The per-channel loop of `setupJointStateTPDOs`: each channel's
      `getJointStateTPDOMapping`, stopping at the first that throws. */
  function StateMappings(chs: seq<ChannelState.Channel>): (r: (seq<seq<Ref>>, Result<()>))
    decreases |chs|
  {
    if |chs| == 0 then ([], Ok(()))
    else match ChannelState.StateTPDOMapping(chs[0])
      case Err(e) => ([], Err(e))
      case Ok(ms) =>
        var rest := StateMappings(chs[1..]);
        (ms + rest.0, rest.1)
  }

  /** One mapping per channel, in channel order, each the channel's feedback
      objects; the setup stops at the first channel whose mode has none. */
  lemma {:induction false} StateMappingsSpec(chs: seq<ChannelState.Channel>)
    ensures |StateMappings(chs).0| <= |chs|
    ensures forall k :: 0 <= k < |StateMappings(chs).0| ==>
              Supported(chs[k].variant, chs[k].mode)
              && StateMappings(chs).0[k] == ChannelRefs(chs[k].variant, chs[k].index, FeedbackObjects(chs[k].variant, chs[k].mode))
    ensures StateMappings(chs).1.Ok? ==> |StateMappings(chs).0| == |chs|
    ensures StateMappings(chs).1.Err? ==>
              |StateMappings(chs).0| < |chs|
              && !Supported(chs[|StateMappings(chs).0|].variant, chs[|StateMappings(chs).0|].mode)
              && StateMappings(chs).1.error.InvalidArgument?
    ensures MappingsFit(StateMappings(chs).0)
    decreases |chs|
  {
    if |chs| > 0 {
      var head := ChannelState.StateTPDOMapping(chs[0]);
      if head.Ok? {
        StateMappingsSpec(chs[1..]);
        var rest := StateMappings(chs[1..]).0;
        assert StateMappings(chs).0 == head.value + rest;
        forall k | 1 <= k < |StateMappings(chs).0|
          ensures chs[k] == chs[1..][k - 1]
        {
        }
      }
    }
  }

  /** `setupJointStateTPDOs`. */
  function SetupJointStateTPDOs(d: Driver, start: int): (r: PdoSetup)
    ensures r.status.Ok? <==> forall k :: 0 <= k < |d.channels| ==> Supported(d.channels[k].variant, d.channels[k].mode)
    ensures r.status.Ok? ==> r.status.value == start + |d.channels| && |r.declared| == |d.channels|
    ensures r.status.Err? ==> r.status.error.InvalidArgument?
    ensures |r.declared| <= |d.channels|
    ensures forall k :: 0 <= k < |r.declared| ==>
              r.declared[k] == ChannelRefs(d.channels[k].variant, d.channels[k].index,
                                           FeedbackObjects(d.channels[k].variant, d.channels[k].mode))
    ensures MappingsFit(r.declared)
  {
    var m := StateMappings(d.channels);
    StateMappingsSpec(d.channels);
    PdoSetup(m.0, if m.1.Ok? then Ok(start + |m.0|) else Err(m.1.error))
  }

  /** RPDOs a channel list needs: two per profile-mode channel, one per
      other channel. */
  function RPDOCount(chs: seq<ChannelState.Channel>): nat {
    if |chs| == 0 then 0
    else (if ProfileMode(chs[0].mode) then 2 else 1) + RPDOCount(chs[1..])
  }

  /** The per-channel loop of `setupJointCommandRPDOs`. */
  function CommandMappings(chs: seq<ChannelState.Channel>): (r: (seq<seq<Ref>>, Result<()>))
    decreases |chs|
  {
    if |chs| == 0 then ([], Ok(()))
    else match ChannelState.CommandRPDOMapping(chs[0])
      case Err(e) => ([], Err(e))
      case Ok(ms) =>
        var rest := CommandMappings(chs[1..]);
        (ms + rest.0, rest.1)
  }

  /** The RPDO mappings of a channel list: Ok exactly when every channel's
      mode has a table entry; then `RPDOCount` mappings, each fitting a frame,
      carrying every command object of every channel. */
  lemma {:induction false} CommandMappingsSpec(chs: seq<ChannelState.Channel>)
    ensures CommandMappings(chs).1.Ok? <==> forall k :: 0 <= k < |chs| ==> Supported(chs[k].variant, chs[k].mode)
    ensures CommandMappings(chs).1.Err? ==> CommandMappings(chs).1.error.InvalidArgument?
    ensures CommandMappings(chs).1.Ok? ==> |CommandMappings(chs).0| == RPDOCount(chs)
    ensures CommandMappings(chs).1.Ok? ==>
              forall k, o :: 0 <= k < |chs| && o in CommandObjects(chs[k].mode) ==>
                ChannelRef(chs[k].variant, chs[k].index, o) in Flatten(CommandMappings(chs).0)
    ensures MappingsFit(CommandMappings(chs).0)
    decreases |chs|
  {
    if |chs| > 0 {
      var head := ChannelState.CommandRPDOMapping(chs[0]);
      CommandMappingsSpec(chs[1..]);
      if head.Ok? {
        var rest := CommandMappings(chs[1..]).0;
        FlattenConcat(head.value, rest);
        assert CommandMappings(chs).0 == head.value + rest;
        forall k | 1 <= k < |chs|
          ensures chs[k] == chs[1..][k - 1]
        {
        }
      }
    }
  }

  /** A setup that stops at channel `p`: the channels before it all have
      their mappings declared, and nothing after. */
  lemma {:induction false} CommandMappingsStopAt(chs: seq<ChannelState.Channel>, p: nat)
    requires p < |chs| && !Supported(chs[p].variant, chs[p].mode)
    requires forall k :: 0 <= k < p ==> Supported(chs[k].variant, chs[k].mode)
    ensures CommandMappings(chs).1.Err?
    ensures CommandMappings(chs).0 == CommandMappings(chs[..p]).0
    ensures |CommandMappings(chs).0| == RPDOCount(chs[..p])
    decreases p
  {
    CommandMappingsSpec(chs[..p]);
    if p > 0 {
      assert chs[1..][..p - 1] == chs[..p][1..];
      CommandMappingsStopAt(chs[1..], p - 1);
    } else {
      assert chs[..p] == [];
    }
  }

  /** `setupJointCommandRPDOs`: on success records `[start, next)` as the
      RPDO range; when a channel throws, the range is left as it was. */
  function SetupJointCommandRPDOs(d: Driver, start: int): (r: (Driver, PdoSetup))
    ensures r.1.status.Ok? <==> forall k :: 0 <= k < |d.channels| ==> Supported(d.channels[k].variant, d.channels[k].mode)
    ensures r.1.status.Ok? ==> r.1.status.value == start + RPDOCount(d.channels) == start + |r.1.declared|
    ensures r.1.status.Ok? ==> r.0 == d.(rpdoBegin := start, rpdoEnd := r.1.status.value)
    ensures r.1.status.Err? ==> r.0 == d && r.1.status.error.InvalidArgument?
    ensures MappingsFit(r.1.declared)
  {
    var m := CommandMappings(d.channels);
    CommandMappingsSpec(d.channels);
    if m.1.Ok? then
      var next := start + |m.0|;
      (d.(rpdoBegin := start, rpdoEnd := next), PdoSetup(m.0, Ok(next)))
    else
      (d, PdoSetup(m.0, Err(m.1.error)))
  }

  /** `getRPDOMessages`: the RPDO indices of the recorded range, one at a
      time. The loop runs `i != end`, so the range must not be reversed;
      every reachable driver keeps it ordered (`RPDORangeOrdered`). */
  method GetRPDOMessages(d: Driver) returns (indices: seq<int>)
    requires d.rpdoBegin <= d.rpdoEnd
    ensures |indices| == d.rpdoEnd - d.rpdoBegin
    ensures forall k :: 0 <= k < |indices| ==> indices[k] == d.rpdoBegin + k
  {
    indices := [];
    var i := d.rpdoBegin;
    while i != d.rpdoEnd
      invariant d.rpdoBegin <= i <= d.rpdoEnd
      invariant |indices| == i - d.rpdoBegin
      invariant forall k :: 0 <= k < |indices| ==> indices[k] == d.rpdoBegin + k
      decreases d.rpdoEnd - i
    {
      indices := indices + [i];
      i := i + 1;
    }
  }

  /** The RPDO range of a new driver is empty, and a successful setup
      records exactly as many indices as it declared mappings. */
  lemma RPDORangeOrdered(d: Driver, start: int)
    ensures SetupJointCommandRPDOs(d, start).1.status.Ok? ==>
              SetupJointCommandRPDOs(d, start).0.rpdoEnd - SetupJointCommandRPDOs(d, start).0.rpdoBegin
              == |SetupJointCommandRPDOs(d, start).1.declared|
    ensures d.rpdoBegin <= d.rpdoEnd ==> SetupJointCommandRPDOs(d, start).0.rpdoBegin <= SetupJointCommandRPDOs(d, start).0.rpdoEnd
  {
  }

  /** The analog layout: the raw inputs at the AnalogInput id, then the
      converted ones at that id plus one, each family packed in pairs. */
  function AnalogLayout(d: Driver): seq<seq<Ref>> {
    Pairs(InputRefs(d.ids.analog, 0, Enabled(d.analog.expected)))
    + Pairs(InputRefs(d.ids.analog, 1, Enabled(d.converted.expected)))
  }

  /** `setupAnalogTPDOs`: the raw inputs' TPDOs, then the converted inputs'
      at the following indices. */
  method SetupAnalogTPDOs(d: Driver, start: int) returns (mappings: seq<seq<Ref>>, next: int)
    ensures mappings == AnalogLayout(d)
    ensures next == start + |mappings|
    ensures |mappings| == (|d.analog.expected| + 1) / 2 + (|d.converted.expected| + 1) / 2
    ensures forall x: Ref :: x in Flatten(mappings) <==>
              x.size == ByteSize(d.ids.analog.kind)
              && ((x.id == d.ids.analog.id && x.sub - 1 in d.analog.expected)
                  || (x.id == d.ids.analog.id + 1 && x.sub - 1 in d.converted.expected))
    ensures MappingsFit(mappings)
  {
    var raw, mid := PackInputs(d.ids.analog, 0, d.analog.expected, start);
    var converted;
    converted, next := PackInputs(d.ids.analog, 1, d.converted.expected, mid);
    mappings := raw + converted;
    FlattenConcat(raw, converted);
    EnabledCount(d.analog.expected);
    EnabledCount(d.converted.expected);
  }

  /** `setupEncoderTPDOs`. */
  method SetupEncoderTPDOs(d: Driver, start: int) returns (mappings: seq<seq<Ref>>, next: int)
    ensures mappings == Pairs(InputRefs(d.ids.encoder, 0, Enabled(d.encoder.expected)))
    ensures next == start + |mappings|
    ensures |mappings| == (|d.encoder.expected| + 1) / 2
    ensures forall x: Ref :: x in Flatten(mappings) <==>
              x.id == d.ids.encoder.id && x.size == ByteSize(d.ids.encoder.kind) && x.sub - 1 in d.encoder.expected
    ensures MappingsFit(mappings)
  {
    mappings, next := PackInputs(d.ids.encoder, 0, d.encoder.expected, start);
    EnabledCount(d.encoder.expected);
  }

  /** When the converted inputs live at the AnalogInput id plus one, receiving
      exactly the entries of the analog TPDOs, after a reset of both
      trackers, completes both. */
  lemma AnalogTPDOsComplete(d: Driver, update: seq<Addr>)
    requires DistinctIds(d.ids) && d.ids.convertedId == d.ids.analog.id + 1
    requires forall x :: x in Flatten(AnalogLayout(d)) ==> RefAddr(x) in update
    requires forall a :: a in update && (a.id == d.ids.analog.id || a.id == d.ids.convertedId) ==>
               Ref(a.id, a.sub, ByteSize(d.ids.analog.kind)) in Flatten(AnalogLayout(d))
    ensures HasInputUpdate(Process(ResetInputTracking(ResetInputTracking(d, AnalogInputs), ConvertedAnalogInputs), update), AnalogInputs)
    ensures HasInputUpdate(Process(ResetInputTracking(ResetInputTracking(d, AnalogInputs), ConvertedAnalogInputs), update), ConvertedAnalogInputs)
  {
    var dc := ResetInputTracking(d, ConvertedAnalogInputs);
    var da := ResetInputTracking(d, AnalogInputs);
    assert ResetInputTracking(da, ConvertedAnalogInputs) == ResetInputTracking(dc, AnalogInputs);
    AnalogLayoutCovers(d, update, AnalogInputs, 0);
    AnalogLayoutOnly(d, update, AnalogInputs);
    EnabledInputsComplete(dc, AnalogInputs, update);
    AnalogLayoutCovers(d, update, ConvertedAnalogInputs, 1);
    AnalogLayoutOnly(d, update, ConvertedAnalogInputs);
    EnabledInputsComplete(da, ConvertedAnalogInputs, update);
  }

  /** Every enabled raw (offset 0) or converted (offset 1) input has its
      entry in the update when every entry of the analog TPDOs has. */
  lemma AnalogLayoutCovers(d: Driver, update: seq<Addr>, f: Family, offset: int)
    requires d.ids.convertedId == d.ids.analog.id + 1
    requires (f == AnalogInputs && offset == 0) || (f == ConvertedAnalogInputs && offset == 1)
    requires forall x :: x in Flatten(AnalogLayout(d)) ==> RefAddr(x) in update
    ensures forall j :: j in TrackerOf(d, f).expected ==> Addr(FamilyId(d.ids, f), j + 1) in update
  {
    AnalogLayoutRefs(d);
    forall j | j in TrackerOf(d, f).expected
      ensures Addr(FamilyId(d.ids, f), j + 1) in update
    {
      assert Ref(d.ids.analog.id + offset, j + 1, ByteSize(d.ids.analog.kind)) in Flatten(AnalogLayout(d));
    }
  }

  /** An update whose analog entries all belong to the analog TPDOs carries
      no input of the raw or converted family that is not enabled. */
  lemma AnalogLayoutOnly(d: Driver, update: seq<Addr>, f: Family)
    requires d.ids.convertedId == d.ids.analog.id + 1
    requires f == AnalogInputs || f == ConvertedAnalogInputs
    requires forall a :: a in update && (a.id == d.ids.analog.id || a.id == d.ids.convertedId) ==>
               Ref(a.id, a.sub, ByteSize(d.ids.analog.kind)) in Flatten(AnalogLayout(d))
    ensures forall a :: a in update && a.id == FamilyId(d.ids, f) ==> a.sub - 1 in TrackerOf(d, f).expected
  {
    AnalogLayoutRefs(d);
    forall a | a in update && a.id == FamilyId(d.ids, f)
      ensures a.sub - 1 in TrackerOf(d, f).expected
    {
      var x := Ref(a.id, a.sub, ByteSize(d.ids.analog.kind));
      assert x in Flatten(AnalogLayout(d));
      if f == AnalogInputs {
        assert x.id != d.ids.analog.id + 1;
      } else {
        assert x.id != d.ids.analog.id;
      }
    }
  }

  lemma AnalogLayoutRefs(d: Driver)
    ensures forall x: Ref :: x in Flatten(AnalogLayout(d)) <==>
              x.size == ByteSize(d.ids.analog.kind)
              && ((x.id == d.ids.analog.id && x.sub - 1 in d.analog.expected)
                  || (x.id == d.ids.analog.id + 1 && x.sub - 1 in d.converted.expected))
  {
    FlattenConcat(Pairs(InputRefs(d.ids.analog, 0, Enabled(d.analog.expected))),
                  Pairs(InputRefs(d.ids.analog, 1, Enabled(d.converted.expected))));
    PackedRefs(d.ids.analog, 0, d.analog.expected);
    PackedRefs(d.ids.analog, 1, d.converted.expected);
  }

  /** The TemperatureSensor0 entries of the first `n` channels. */
  function SensorRefs(n: nat): (r: seq<Ref>)
    ensures |r| == n
    ensures MappingBytes(r) == n
  {
    if n == 0 then []
    else
      MappingBytesConcat(SensorRefs(n - 1), [MappingRef(TemperatureSensor0, 0, n - 1)]);
      MappingBytesShort(MappingRef(TemperatureSensor0, 0, n - 1), MappingRef(TemperatureSensor0, 0, n - 1), MappingRef(TemperatureSensor0, 0, n - 1));
      SensorRefs(n - 1) + [MappingRef(TemperatureSensor0, 0, n - 1)]
  }

  /** `setupStatusTPDOs`: two mappings at `start` and `start + 1`, whatever
      the channel count; the next free index is `start + 2`. */
  function StatusTPDOs(channelCount: nat, start: int): (r: (seq<seq<Ref>>, int))
    ensures |r.0| == 2 && r.1 == start + 2
  {
    ([[MappingRef(StatusFlagsRaw, 0, 0), MappingRef(FaultFlagsRaw, 0, 0),
       MappingRef(VoltageInternal, 0, 0), MappingRef(VoltageBattery, 0, 0)],
      [MappingRef(Voltage5V, 0, 0), MappingRef(TemperatureMCU, 0, 0)] + SensorRefs(channelCount)],
     start + 2)
  }

  /** The first status TPDO carries the status and fault flags and the two
      voltages (8 bytes); the second the 5V voltage, the MCU temperature and
      one sensor temperature per channel (3 + n bytes), so it fits a frame
      only up to five channels. */
  lemma StatusTPDOsBytes(channelCount: nat, start: int)
    ensures MappingBytes(StatusTPDOs(channelCount, start).0[0]) == PdoPayloadBytes
    ensures MappingBytes(StatusTPDOs(channelCount, start).0[1]) == 3 + channelCount
    ensures MappingsFit(StatusTPDOs(channelCount, start).0) <==> channelCount <= 5
  {
    var flags, faults := Ref(0x2111, 0, 2), Ref(0x2112, 0, 2);
    var internal, battery := Ref(0x210D, 1, 2), Ref(0x210D, 2, 2);
    var v5, mcu := Ref(0x210D, 3, 2), Ref(0x210F, 1, 1);
    var sensors := SensorRefs(channelCount);
    StatusTPDOsValue(channelCount, start);
    MappingBytesFour(flags, faults, internal, battery);
    MappingBytesShort(v5, mcu, mcu);
    MappingBytesConcat([v5, mcu], sensors);
  }

  /** The status mappings with the dictionary's coordinates filled in. */
  lemma StatusTPDOsValue(channelCount: nat, start: int)
    ensures StatusTPDOs(channelCount, start).0
         == [[Ref(0x2111, 0, 2), Ref(0x2112, 0, 2), Ref(0x210D, 1, 2), Ref(0x210D, 2, 2)],
             [Ref(0x210D, 3, 2), Ref(0x210F, 1, 1)] + SensorRefs(channelCount)]
  {
  }

  /** In the second status TPDO, the temperature of channel `i` follows the
      two fixed entries, at sub-id `2 + i` of the temperature object. */
  lemma StatusTPDOsSensors(channelCount: nat, start: int)
    ensures |StatusTPDOs(channelCount, start).0[1]| == 2 + channelCount
    ensures forall i :: 2 <= i < |StatusTPDOs(channelCount, start).0[1]| ==>
              RefAddr(StatusTPDOs(channelCount, start).0[1][i]) == Addr(0x210F, i)
  {
    var second := StatusTPDOs(channelCount, start).0[1];
    var sensors := SensorRefs(channelCount);
    assert second == [MappingRef(Voltage5V, 0, 0), MappingRef(TemperatureMCU, 0, 0)] + sensors;
    SensorRefsAt(channelCount);
    forall i | 2 <= i < |second|
      ensures RefAddr(second[i]) == Addr(0x210F, i)
    {
      assert second[i] == sensors[i - 2];
    }
  }

  lemma {:induction false} SensorRefsAt(n: nat)
    ensures forall i :: 0 <= i < n ==> SensorRefs(n)[i] == MappingRef(TemperatureSensor0, 0, i)
  {
    if n > 0 {
      SensorRefsAt(n - 1);
    }
  }
}
