/** The mutable side of one channel, as an immutable record threaded through
    the operations: the operation mode, the feedback tracking accumulator and
    its required mask, the last accepted joint command and the channel's view
    of the local object dictionary. Both variants share this state; the
    mode-dependent switches dispatch to the DS402Channel or DirectChannel
    module. */
module ChannelState {
  import opened Results
  import opened Dictionary
  import opened ChannelTables
  import DS402Channel
  import DirectChannel

  /** One channel. `store` is the channel's view of the local dictionary: the
      command path writes into it, while the feedback values the controller
      sends are not modelled, so the joint state is stated for any contents. */
  datatype Channel = Channel(
    variant: Variant,
    index: nat,
    /** `isIgnored`: excluded from the driver's joint command and sample */
    ignored: bool,
    units: Units,
    mode: Mode,
    tracking: bv8,
    mask: bv8,
    command: JointState,
    store: map<Addr, int>)

  /** A freshly constructed channel: mode NONE, nothing tracked, nothing
      required, an all-unknown command and an empty dictionary. */
  function NewChannel(v: Variant, index: nat, ignored: bool, units: Units): (c: Channel)
    ensures c.mode == NoneMode && HasUpdate(c)
    ensures c.command == NoState && c.store == map[]
  {
    Channel(v, index, ignored, units, NoneMode, 0, 0, NoState, map[])
  }

  /** `getJointStateMask` of the channel's variant: the tracking bits of the
      mode's feedback objects, or InvalidArgument for a mode without a case. */
  function JointStateMask(v: Variant, m: Mode): (r: Result<bv8>)
    ensures r.Ok? <==> m == NoneMode || Supported(v, m)
    ensures r.Ok? ==> r.value == MaskOf(FeedbackObjects(v, m))
    ensures r.Err? ==> r.error.InvalidArgument?
  {
    if m == NoneMode then Ok(0)
    else if v == DS402 then
      var r := DS402Channel.StateMask(m);
      if r.Ok? then DS402Channel.StateMaskFollowsTable(m); r else r
    else
      var r := DirectChannel.StateMask(m);
      if r.Ok? then DirectChannel.StateMaskFollowsTable(m); r else r
  }

  /** Every supported mode requires at least one feedback object. */
  lemma SupportedMaskNonZero(v: Variant, m: Mode)
    requires Supported(v, m)
    ensures MaskOf(FeedbackObjects(v, m)) != 0
  {
    var objs := FeedbackObjects(v, m);
    FeedbackMaskBits(v, m, AppliedPowerLevel);
    assert AppliedPowerLevel in objs;
  }

  /** A channel operation that may fail after it has changed the state. */
  datatype Outcome = Outcome(channel: Channel, status: Result<()>)

  /** `setOperationMode`: the mode is stored and the accumulator cleared before
      the mask is computed, so a mode without a table entry leaves the new mode,
      a cleared accumulator and the previous mask behind, and reports
      InvalidArgument. */
  function SetOperationMode(c: Channel, m: Mode): (r: Outcome)
    ensures r.channel.mode == m && r.channel.tracking == 0
    ensures r.channel == c.(mode := m, tracking := 0, mask := r.channel.mask)
    ensures r.status.Ok? <==> m == NoneMode || Supported(c.variant, m)
    ensures r.status.Ok? ==> r.channel.mask == MaskOf(FeedbackObjects(c.variant, m))
    ensures r.status.Err? ==> r.channel.mask == c.mask && r.status.error.InvalidArgument?
    ensures m == NoneMode ==> r.channel.mask == 0
  {
    var cleared := c.(mode := m, tracking := 0);
    match JointStateMask(c.variant, m)
    case Ok(mask) => Outcome(cleared.(mask := mask), Ok(()))
    case Err(e) => Outcome(cleared, Err(e))
  }

  /** `hasJointStateUpdate`: every required bit has been seen. */
  predicate HasUpdate(c: Channel) {
    c.tracking & c.mask == c.mask
  }

  /** The bits `updateJointStateTracking` ORs in: one per tracked feedback
      object whose channel address is among the updated objects. */
  function UpdatedBits(v: Variant, ch: nat, update: seq<Addr>): bv8 {
    (if Address(v, ch, MotorAmps) in update then 0x01 else 0)
    | (if Address(v, ch, AppliedPowerLevel) in update then 0x02 else 0)
    | (if Address(v, ch, ActualProfileVelocity) in update then 0x04 else 0)
    | (if Address(v, ch, ActualVelocity) in update then 0x08 else 0)
    | (if Address(v, ch, Position) in update then 0x10 else 0)
    | (if Address(v, ch, Torque) in update then 0x20 else 0)
  }

  /** A tracked object's bit is set by an update exactly when the update names
      the object's channel address. */
  lemma UpdatedBitsSpec(v: Variant, ch: nat, update: seq<Addr>, o: Obj)
    requires o in TrackedObjects
    ensures (UpdatedBits(v, ch, update) & TrackBit(o) != 0) <==> Address(v, ch, o) in update
  {
  }

  /** Two consecutive updates track what their concatenation tracks. */
  lemma UpdatedBitsConcat(v: Variant, ch: nat, u1: seq<Addr>, u2: seq<Addr>)
    ensures UpdatedBits(v, ch, u1 + u2) == UpdatedBits(v, ch, u1) | UpdatedBits(v, ch, u2)
  {
    forall o | o in TrackedObjects
      ensures (Address(v, ch, o) in u1 + u2) <==> (Address(v, ch, o) in u1 || Address(v, ch, o) in u2)
    {
    }
  }

  /** `updateJointStateTracking`: ORs the updated objects' bits into the
      accumulator and returns `hasJointStateUpdate()` of the result. */
  function UpdateTracking(c: Channel, update: seq<Addr>): (r: (Channel, bool))
    ensures r.0 == c.(tracking := r.0.tracking)
    ensures r.1 == HasUpdate(r.0)
    ensures r.0.tracking & c.tracking == c.tracking
    ensures HasUpdate(c) ==> HasUpdate(r.0)
  {
    var c' := c.(tracking := c.tracking | UpdatedBits(c.variant, c.index, update));
    (c', HasUpdate(c'))
  }

  /** Which bits the accumulator holds after an update: a tracked object's
      bit is set exactly when it was set before or the update names it. */
  lemma UpdateTrackingBits(c: Channel, update: seq<Addr>, o: Obj)
    requires o in TrackedObjects
    ensures (UpdateTracking(c, update).0.tracking & TrackBit(o) != 0)
        <==> (c.tracking & TrackBit(o) != 0 || Address(c.variant, c.index, o) in update)
  {
    var bits := UpdatedBits(c.variant, c.index, update);
    UpdatedBitsSpec(c.variant, c.index, update, o);
    OrBit(c.tracking, bits, TrackBit(o));
  }

  /** A bit pattern meets an OR exactly when it meets one of its operands. */
  lemma OrBit(a: bv8, b: bv8, k: bv8)
    ensures ((a | b) & k != 0) <==> (a & k != 0 || b & k != 0)
  {
  }

  /** Updates can be batched: two updates in a row leave the accumulator one
      update with both lists would. */
  lemma UpdateTrackingBatches(c: Channel, u1: seq<Addr>, u2: seq<Addr>)
    ensures UpdateTracking(UpdateTracking(c, u1).0, u2).0 == UpdateTracking(c, u1 + u2).0
  {
    UpdatedBitsConcat(c.variant, c.index, u1, u2);
  }

  /** `resetJointStateTracking`: clears the accumulator, keeps the mask; the
      snapshot is complete afterwards only when nothing is required. */
  function ResetTracking(c: Channel): (r: Channel)
    ensures r.mask == c.mask && r.mode == c.mode && r.command == c.command && r.store == c.store
    ensures HasUpdate(r) <==> c.mask == 0
  {
    c.(tracking := 0)
  }

  /** The mask invariant: after a successful setOperationMode the mask is the
      mode's feedback mask. */
  predicate MaskMatchesMode(c: Channel) {
    c.mask == MaskOf(FeedbackObjects(c.variant, c.mode))
  }

  /** With the mask of its mode, a channel reports an update exactly when every
      feedback object of the mode has been seen since the last reset. */
  lemma HasUpdateMeansAllSeen(c: Channel)
    requires MaskMatchesMode(c)
    ensures HasUpdate(c) <==> forall o :: o in FeedbackObjects(c.variant, c.mode) ==> c.tracking & TrackBit(o) != 0
  {
    FeedbackMaskCovered(c.variant, c.mode, c.tracking);
  }

  /** After a successful mode change the snapshot is incomplete, except in
      mode NONE, where it is complete whatever arrives. */
  lemma ModeChangeClearsSnapshot(c: Channel, m: Mode, update: seq<Addr>)
    requires m == NoneMode || Supported(c.variant, m)
    ensures var c1 := SetOperationMode(c, m).channel;
            (m == NoneMode ==> HasUpdate(c1) && HasUpdate(UpdateTracking(c1, update).0))
            && (m != NoneMode ==> !HasUpdate(c1))
  {
    if m != NoneMode {
      SupportedMaskNonZero(c.variant, m);
    }
  }

  /** After a successful mode change, an update completes the snapshot exactly
      when it names every feedback object of the new mode. */
  lemma ModeChangeThenUpdate(c: Channel, m: Mode, update: seq<Addr>)
    requires m == NoneMode || Supported(c.variant, m)
    ensures UpdateTracking(SetOperationMode(c, m).channel, update).1 <==>
              forall o :: o in FeedbackObjects(c.variant, m) ==> Address(c.variant, c.index, o) in update
  {
    var c1 := SetOperationMode(c, m).channel;
    assert c1.tracking == 0 && MaskMatchesMode(c1);
    FreshTrackingThenUpdate(c1, update);
  }

  /** From an empty accumulator under the mode's own mask, an update
      completes the snapshot exactly when it names every feedback object. */
  lemma FreshTrackingThenUpdate(c: Channel, update: seq<Addr>)
    requires c.tracking == 0 && MaskMatchesMode(c)
    ensures UpdateTracking(c, update).1 <==>
              forall o :: o in FeedbackObjects(c.variant, c.mode) ==> Address(c.variant, c.index, o) in update
  {
    var c2 := UpdateTracking(c, update).0;
    var objs := FeedbackObjects(c.variant, c.mode);
    assert MaskMatchesMode(c2);
    HasUpdateMeansAllSeen(c2);
    FeedbackObjectsTracked(c.variant, c.mode);
    forall o | o in objs
      ensures c2.tracking & TrackBit(o) != 0 <==> Address(c.variant, c.index, o) in update
    {
      UpdateTrackingBits(c, update, o);
    }
    if forall o :: o in objs ==> Address(c.variant, c.index, o) in update {
      assert forall o :: o in objs ==> c2.tracking & TrackBit(o) != 0;
    } else {
      var o :| o in objs && Address(c.variant, c.index, o) !in update;
      assert c2.tracking & TrackBit(o) == 0;
    }
  }

  /** The channel's dictionary as the getters see it; an object never
      received reads as 0. */
  function Read(store: map<Addr, int>): Addr -> int {
    a => if a in store then store[a] else 0
  }

  /** `getJointState` of the channel's variant, decoded from the dictionary. */
  function GetJointState(c: Channel): (r: Result<JointState>)
    ensures c.mode == NoneMode ==> r == Ok(NoState)
    ensures c.mode != NoneMode ==> (r.Ok? <==> Supported(c.variant, c.mode))
    ensures r.Ok? && c.mode != NoneMode ==>
              forall f :: Field(r.value, f).Known? <==> f in ReportedFields(c.mode)
    ensures r.Ok? && c.mode != NoneMode ==>
              r.value.raw == Known(SourceValue(c.variant, c.mode, RawField, c.units,
                                     Read(c.store)(Address(c.variant, c.index, SourceObject(c.variant, c.mode, RawField)))))
    ensures r.Ok? && c.mode != NoneMode ==>
              r.value.effort == Known(SourceValue(c.variant, c.mode, EffortField, c.units,
                                        Read(c.store)(Address(c.variant, c.index, SourceObject(c.variant, c.mode, EffortField)))))
    ensures r.Ok? && SpeedField in ReportedFields(c.mode) ==>
              r.value.speed == Known(SourceValue(c.variant, c.mode, SpeedField, c.units,
                                       Read(c.store)(Address(c.variant, c.index, SourceObject(c.variant, c.mode, SpeedField)))))
    ensures r.Ok? && PositionField in ReportedFields(c.mode) ==>
              r.value.position == Known(SourceValue(c.variant, c.mode, PositionField, c.units,
                                          Read(c.store)(Address(c.variant, c.index, SourceObject(c.variant, c.mode, PositionField)))))
  {
    if c.variant == DS402 then DS402Channel.GetJointState(c.index, c.mode, c.units, Read(c.store))
    else DirectChannel.GetJointState(c.index, c.mode, c.units, Read(c.store))
  }

  /** Once the snapshot is complete, every field of the sample was decoded
      from an object whose tracking bit is set, that is, one received since
      the last reset. */
  lemma CompleteSnapshotCoversSample(c: Channel, f: JointField)
    requires MaskMatchesMode(c) && HasUpdate(c)
    requires Supported(c.variant, c.mode) && f in ReportedFields(c.mode)
    ensures c.tracking & TrackBit(SourceObject(c.variant, c.mode, f)) != 0
  {
    SourcesAreFeedback(c.variant, c.mode, f);
    HasUpdateMeansAllSeen(c);
  }

  /** The joint state depends on the dictionary's feedback objects only. */
  lemma GetJointStateFeedbackOnly(c: Channel, store: map<Addr, int>)
    requires forall o :: o in FeedbackObjects(c.variant, c.mode) ==>
               Read(c.store)(Address(c.variant, c.index, o)) == Read(store)(Address(c.variant, c.index, o))
    ensures GetJointState(c) == GetJointState(c.(store := store))
  {
    if c.variant == DS402 {
      DS402Channel.GetJointStateReadsFeedbackOnly(c.index, c.mode, c.units, Read(c.store), Read(store));
    } else {
      DirectChannel.GetJointStateReadsFeedbackOnly(c.index, c.mode, c.units, Read(c.store), Read(store));
    }
  }

  /** The dictionary after a sequence of `set<T>` calls. */
  function ApplyWrites(store: map<Addr, int>, w: seq<Write>): map<Addr, int>
    decreases |w|
  {
    if |w| == 0 then store else ApplyWrites(store[w[0].addr := w[0].value], w[1..])
  }

  /** The writes touch only their own addresses, and an address written once
      ends up holding the written value. */
  lemma {:induction false} ApplyWritesSpec(store: map<Addr, int>, w: seq<Write>)
    ensures forall a :: a in ApplyWrites(store, w) <==> a in store || a in WriteAddrs(w)
    ensures forall a :: a in store && a !in WriteAddrs(w) ==> ApplyWrites(store, w)[a] == store[a]
    ensures forall i :: 0 <= i < |w| && w[i].addr !in WriteAddrs(w[i + 1..]) ==>
              w[i].addr in ApplyWrites(store, w) && ApplyWrites(store, w)[w[i].addr] == w[i].value
    decreases |w|
  {
    if |w| > 0 {
      var s1 := store[w[0].addr := w[0].value];
      ApplyWritesSpec(s1, w[1..]);
      assert WriteAddrs(w) == [w[0].addr] + WriteAddrs(w[1..]);
      forall i | 1 <= i < |w| && w[i].addr !in WriteAddrs(w[i + 1..])
        ensures w[i].addr in ApplyWrites(store, w) && ApplyWrites(store, w)[w[i].addr] == w[i].value
      {
        assert w[1..][i - 1] == w[i] && w[1..][i - 1 + 1..] == w[i + 1..];
      }
    }
  }

  /** The conversions the DS402 variant needs are defined; the direct
      variant's are all opaque. */
  predicate ConversionsDefined(c: Channel) {
    c.variant == DS402 ==> ConversionDefined(c.mode, c.units.factors)
  }

  /** The conversions are defined where the command reaches them: only a
      command holding every field the mode requires gets that far. */
  predicate CommandDefined(c: Channel, cmd: JointState) {
    Complete(cmd, c.mode) ==> ConversionsDefined(c)
  }

  function CommandWrites(c: Channel, cmd: JointState): (r: Result<seq<Write>>)
    requires CommandDefined(c, cmd)
    ensures !Supported(c.variant, c.mode) ==> r.Err? && r.error.InvalidArgument?
    ensures Supported(c.variant, c.mode) ==> (r.Ok? <==> Complete(cmd, c.mode))
    ensures Supported(c.variant, c.mode) && r.Err? ==> r.error == InvalidJointCommand(c.index)
    ensures r.Ok? ==> WriteAddrs(r.value) == Addresses(c.variant, c.index, CommandObjects(c.mode))
    ensures r.Ok? ==> ConversionsDefined(c) && CarriesFields(c.variant, c.mode, c.units, cmd, r.value)
  {
    if c.variant == DS402 then
      var r := DS402Channel.CommandWrites(c.index, c.mode, c.units, cmd);
      if r.Ok? then
        DS402Channel.CommandWritesFollowTable(c.index, c.mode, c.units, cmd);
        DS402Channel.CommandWritesCarryFields(c.index, c.mode, c.units, cmd);
        r
      else r
    else
      var r := DirectChannel.CommandWrites(c.index, c.mode, c.units, cmd);
      if r.Ok? then
        DirectChannel.CommandWritesFollowTable(c.index, c.mode, c.units, cmd);
        DirectChannel.CommandWritesCarryFields(c.index, c.mode, c.units, cmd);
        r
      else r
  }

  /** `setJointCommand`: all-or-nothing on one channel. On success the mode's
      command objects are written and the stored command is the input; on
      failure the caller keeps the unchanged channel. */
  function SetJointCommand(c: Channel, cmd: JointState): (r: Result<Channel>)
    requires CommandDefined(c, cmd)
    ensures r.Ok? <==> Supported(c.variant, c.mode) && Complete(cmd, c.mode)
    ensures r.Err? ==> (if Supported(c.variant, c.mode) then r.error == InvalidJointCommand(c.index)
                        else r.error.InvalidArgument?)
    ensures r.Ok? ==> r.value == c.(command := cmd, store := r.value.store)
  {
    var w :- CommandWrites(c, cmd);
    Ok(c.(command := cmd, store := ApplyWrites(c.store, w)))
  }

  /** A successful command changes the dictionary at the mode's command
      objects and nowhere else, and `getJointCommand` returns it. */
  lemma SetJointCommandWrites(c: Channel, cmd: JointState)
    requires CommandDefined(c, cmd)
    requires SetJointCommand(c, cmd).Ok?
    ensures var c' := SetJointCommand(c, cmd).value;
            GetJointCommand(c') == cmd
            && (forall o :: o in CommandObjects(c.mode) ==> Address(c.variant, c.index, o) in c'.store)
            && (forall a :: a !in Addresses(c.variant, c.index, CommandObjects(c.mode)) ==>
                  (a in c'.store <==> a in c.store) && (a in c.store ==> c'.store[a] == c.store[a]))
    ensures var c' := SetJointCommand(c, cmd).value;
            ConversionsDefined(c)
            && forall o :: o in CommandObjects(c.mode) ==>
                 Address(c.variant, c.index, o) in c'.store
                 && Field(cmd, CommandField(c.mode, o)).Known?
                 && c'.store[Address(c.variant, c.index, o)]
                    == CommandValue(c.variant, c.mode, o, c.units, Field(cmd, CommandField(c.mode, o)).x)
  {
    var w := CommandWrites(c, cmd).value;
    var objs := CommandObjects(c.mode);
    ApplyWritesSpec(c.store, w);
    AddressesAt(c.variant, c.index, objs);
    WriteAddrsAt(w);
    CommandObjectsDistinct(c.mode);
    WritesNotOverwritten(c.variant, c.index, objs, w);
    forall o | o in objs
      ensures Address(c.variant, c.index, o) in Addresses(c.variant, c.index, objs)
      ensures Address(c.variant, c.index, o) in ApplyWrites(c.store, w)
      ensures Field(cmd, CommandField(c.mode, o)).Known?
      ensures ApplyWrites(c.store, w)[Address(c.variant, c.index, o)]
              == CommandValue(c.variant, c.mode, o, c.units, Field(cmd, CommandField(c.mode, o)).x)
    {
      var i :| 0 <= i < |objs| && objs[i] == o;
      assert Addresses(c.variant, c.index, objs)[i] == Address(c.variant, c.index, o);
      assert w[i].addr == Address(c.variant, c.index, o);
    }
  }

  /** `getJointCommand`: the last command accepted. */
  function GetJointCommand(c: Channel): JointState {
    c.command
  }

  /** `getJointStateTPDOMapping` of the channel's variant: one mapping holding
      the mode's feedback objects at the channel's addresses, fitting a frame;
      InvalidArgument for a mode without a case (NONE included). */
  function StateTPDOMapping(c: Channel): (r: Result<seq<seq<Ref>>>)
    ensures r.Ok? <==> Supported(c.variant, c.mode)
    ensures r.Err? ==> r.error.InvalidArgument?
    ensures r.Ok? ==> r.value == [ChannelRefs(c.variant, c.index, FeedbackObjects(c.variant, c.mode))]
    ensures r.Ok? ==> MappingsFit(r.value)
  {
    if c.variant == DS402 then
      var r := DS402Channel.StateTPDOMapping(c.index, c.mode);
      if r.Ok? then DS402Channel.StateTPDOMappingFollowsTable(c.index, c.mode); r else r
    else
      var r := DirectChannel.StateTPDOMapping(c.index, c.mode);
      if r.Ok? then DirectChannel.StateTPDOMappingFollowsTable(c.index, c.mode); r else r
  }

  /** `getJointCommandRPDOMapping` of the channel's variant: the mode's
      command objects at the channel's addresses, one entry each, in two
      mappings for the profile modes and one otherwise, each fitting a frame;
      InvalidArgument for a mode without a case. */
  function CommandRPDOMapping(c: Channel): (r: Result<seq<seq<Ref>>>)
    ensures r.Ok? <==> Supported(c.variant, c.mode)
    ensures r.Err? ==> r.error.InvalidArgument?
    ensures r.Ok? ==> |r.value| == (if ProfileMode(c.mode) then 2 else 1)
    ensures r.Ok? ==> |Flatten(r.value)| == |CommandObjects(c.mode)|
    ensures r.Ok? ==> forall o :: o in CommandObjects(c.mode) ==> ChannelRef(c.variant, c.index, o) in Flatten(r.value)
    ensures r.Ok? ==> MappingsFit(r.value)
  {
    if c.variant == DS402 then
      var r := DS402Channel.CommandRPDOMapping(c.index, c.mode);
      if r.Ok? then DS402Channel.CommandRPDOMappingFollowsTable(c.index, c.mode); r else r
    else
      var r := DirectChannel.CommandRPDOMapping(c.index, c.mode);
      if r.Ok? then DirectChannel.CommandRPDOMappingFollowsTable(c.index, c.mode); r else r
  }
}
