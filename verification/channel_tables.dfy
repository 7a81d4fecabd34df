/** What both channel variants share: object addressing, the feedback tracking
    bits, the reference tables of feedback objects, command objects and
    required command fields, joint states, and the abstract transport messages.

    The two variants (the DS402 channel and the older direct channel) each
    implement the tables as several independent switches; their modules prove
    that every one of those switches agrees with the reference tables here. */
module ChannelTables {
  import opened Results
  import opened Dictionary
  import opened Factors
  import opened DriveWords

  datatype Variant = DS402 | Direct

  /** Id distance between the same object of two consecutive channels. */
  const ChannelIdOffset: int := 0x800

  /** The modes a variant's switches have a case for (NONE aside). */
  predicate Supported(v: Variant, m: Mode) {
    m != NoneMode && m != PositionProfile
    && (v == Direct ==> m != AnalogPosition && m != AnalogVelocity)
  }

  predicate ProfileMode(m: Mode) {
    m == VelocityPositionProfile || m == VelocityProfile || m == RelativePositionProfile
  }

  // ---------------------------------------------------------------------
  // Addressing

  /** Objects addressed by adding the channel to the sub-id; all others add
      channel * 0x800 to the id. The direct variant has no such rule for
      SetSpeedTarget. */
  predicate SubAddressed(v: Variant, o: Obj) {
    o == MotorAmps || o == AppliedPowerLevel || (v == DS402 && o == SetSpeedTarget)
  }

  /** `getObjectOffsets<T>()`: the (id offset, sub-id offset) of object `o` for
      channel `ch`. */
  function Offsets(v: Variant, ch: nat, o: Obj): (int, int) {
    match o
    case MotorAmps | AppliedPowerLevel => (0, ch)
    case SetSpeedTarget => if v == DS402 then (0, ch) else (ch * ChannelIdOffset, 0)
    case _ => (ch * ChannelIdOffset, 0)
  }

  /** The channel address of object `o`. */
  function Address(v: Variant, ch: nat, o: Obj): Addr {
    var off := Offsets(v, ch, o);
    Addr(Def(o).id + off.0, Def(o).sub + off.1)
  }

  /** The addressing rule: the sub-id carries the channel for the sub-addressed
      objects, the id carries channel * 0x800 for all others. */
  lemma AddressRule(v: Variant, ch: nat, o: Obj)
    ensures SubAddressed(v, o) ==> Address(v, ch, o) == Addr(Def(o).id, Def(o).sub + ch)
    ensures !SubAddressed(v, o) ==> Address(v, ch, o) == Addr(Def(o).id + ch * 0x800, Def(o).sub)
  {
  }

  /** The PDO mapping entry of object `o` at its channel address. */
  function ChannelRef(v: Variant, ch: nat, o: Obj): Ref {
    var off := Offsets(v, ch, o);
    MappingRef(o, off.0, off.1)
  }

  lemma ChannelRefAddress(v: Variant, ch: nat, o: Obj)
    ensures RefAddr(ChannelRef(v, ch, o)) == Address(v, ch, o)
    ensures ChannelRef(v, ch, o).size == Size(o)
  {
  }

  /** The channel entries of a list of objects, in order. */
  function ChannelRefs(v: Variant, ch: nat, objs: seq<Obj>): seq<Ref> {
    if |objs| == 0 then [] else [ChannelRef(v, ch, objs[0])] + ChannelRefs(v, ch, objs[1..])
  }

  /** The channel addresses of a list of objects, in order. */
  function Addresses(v: Variant, ch: nat, objs: seq<Obj>): seq<Addr> {
    if |objs| == 0 then [] else [Address(v, ch, objs[0])] + Addresses(v, ch, objs[1..])
  }

  lemma {:induction false} ChannelRefsAt(v: Variant, ch: nat, objs: seq<Obj>)
    ensures |ChannelRefs(v, ch, objs)| == |objs|
    ensures forall i :: 0 <= i < |objs| ==> ChannelRefs(v, ch, objs)[i] == ChannelRef(v, ch, objs[i])
  {
    if |objs| > 0 {
      ChannelRefsAt(v, ch, objs[1..]);
    }
  }

  lemma {:induction false} AddressesAt(v: Variant, ch: nat, objs: seq<Obj>)
    ensures |Addresses(v, ch, objs)| == |objs|
    ensures forall i :: 0 <= i < |objs| ==> Addresses(v, ch, objs)[i] == Address(v, ch, objs[i])
  {
    if |objs| > 0 {
      AddressesAt(v, ch, objs[1..]);
    }
  }

  /** The objects a channel reads or writes through its tables. */
  predicate ChannelObject(o: Obj) {
    match o
    case MotorAmps | AppliedPowerLevel | ActualProfileVelocity | ActualVelocity | Position | Torque
       | TargetTorque | TargetProfileVelocity | TargetVelocity | TargetPosition | ProfileVelocity
       | ProfileAcceleration | ProfileDeceleration | TorqueSlope
       | OperationMode | ControlWordRaw | StatusWordRaw => true
    case _ => false
  }

  /** One step of the two lists above. */
  lemma ListsCons(v: Variant, ch: nat, o: Obj, rest: seq<Obj>)
    ensures ChannelRefs(v, ch, [o] + rest) == [ChannelRef(v, ch, o)] + ChannelRefs(v, ch, rest)
    ensures Addresses(v, ch, [o] + rest) == [Address(v, ch, o)] + Addresses(v, ch, rest)
  {
    assert ([o] + rest)[1..] == rest;
  }

  /** The lists above, spelled out on the short lists the tables use. */
  lemma ListsShort(v: Variant, ch: nat, a: Obj, b: Obj, c: Obj)
    ensures ChannelRefs(v, ch, [a]) == [ChannelRef(v, ch, a)]
    ensures ChannelRefs(v, ch, [a, b]) == [ChannelRef(v, ch, a), ChannelRef(v, ch, b)]
    ensures ChannelRefs(v, ch, [a, b, c]) == [ChannelRef(v, ch, a), ChannelRef(v, ch, b), ChannelRef(v, ch, c)]
    ensures Addresses(v, ch, [a]) == [Address(v, ch, a)]
    ensures Addresses(v, ch, [a, b]) == [Address(v, ch, a), Address(v, ch, b)]
  {
    ListsCons(v, ch, a, []);
    ListsCons(v, ch, b, []);
    ListsCons(v, ch, a, [b]);
    ListsCons(v, ch, c, []);
    ListsCons(v, ch, b, [c]);
    ListsCons(v, ch, a, [b, c]);
  }

  lemma ListsFour(v: Variant, ch: nat, a: Obj, b: Obj, c: Obj, d: Obj)
    ensures ChannelRefs(v, ch, [a, b, c, d])
         == [ChannelRef(v, ch, a), ChannelRef(v, ch, b), ChannelRef(v, ch, c), ChannelRef(v, ch, d)]
    ensures Addresses(v, ch, [a, b, c, d])
         == [Address(v, ch, a), Address(v, ch, b), Address(v, ch, c), Address(v, ch, d)]
  {
    ListsCons(v, ch, d, []);
    ListsCons(v, ch, c, [d]);
    ListsCons(v, ch, b, [c, d]);
    ListsCons(v, ch, a, [b, c, d]);
  }

  /** A channel entry is the mapping entry of its object at the channel offsets. */
  lemma ChannelRefIsMappingRef(v: Variant, ch: nat, o: Obj)
    ensures !SubAddressed(v, o) ==> ChannelRef(v, ch, o) == MappingRef(o, ch * ChannelIdOffset, 0)
    ensures SubAddressed(v, o) ==> ChannelRef(v, ch, o) == MappingRef(o, 0, ch)
  {
  }

  /** The channel object at base coordinates (id, sub), if any. */
  function ChannelObjectAt(id: int, sub: int): Option<Obj> {
    if id == 0x2100 && sub == 1 then Some(MotorAmps)
    else if id == 0x2102 && sub == 1 then Some(AppliedPowerLevel)
    else if id == 0x606C then Some(ActualProfileVelocity)
    else if id == 0x6044 then Some(ActualVelocity)
    else if id == 0x6064 then Some(Position)
    else if id == 0x6077 then Some(Torque)
    else if id == 0x6071 then Some(TargetTorque)
    else if id == 0x60FF then Some(TargetProfileVelocity)
    else if id == 0x6042 then Some(TargetVelocity)
    else if id == 0x607A then Some(TargetPosition)
    else if id == 0x6081 then Some(ProfileVelocity)
    else if id == 0x6083 then Some(ProfileAcceleration)
    else if id == 0x6084 then Some(ProfileDeceleration)
    else if id == 0x6087 then Some(TorqueSlope)
    else if id == 0x6060 then Some(OperationMode)
    else if id == 0x6040 then Some(ControlWordRaw)
    else if id == 0x6041 then Some(StatusWordRaw)
    else None
  }

  /** Channel objects are told apart by their base coordinates; the ones
      addressed by id sit in 6040h..60FFh, the others at 2100h and 2102h. */
  lemma ChannelObjectCoordinates(o: Obj)
    requires ChannelObject(o)
    ensures ChannelObjectAt(Def(o).id, Def(o).sub) == Some(o)
    ensures o == MotorAmps || o == AppliedPowerLevel || 0x6040 <= Def(o).id <= 0x60FF
  {
  }

  /** No two (channel, object) pairs of the channel tables share an address, so
      an update of one channel's object is never mistaken for another's. */
  lemma ChannelAddressesDistinct(v: Variant, c1: nat, o1: Obj, c2: nat, o2: Obj)
    requires ChannelObject(o1) && ChannelObject(o2)
    requires c1 != c2 || o1 != o2
    ensures Address(v, c1, o1) != Address(v, c2, o2)
  {
    ChannelObjectCoordinates(o1);
    ChannelObjectCoordinates(o2);
  }

  /** Mapping entries and uploads of one object list address the same objects. */
  lemma RefsMatchUploads(v: Variant, ch: nat, objs: seq<Obj>)
    ensures |ChannelRefs(v, ch, objs)| == |objs| == |Uploads(v, ch, objs)|
    ensures forall i :: 0 <= i < |objs| ==> RefAddr(ChannelRefs(v, ch, objs)[i]) == Uploads(v, ch, objs)[i].addr
  {
    ChannelRefsAt(v, ch, objs);
    UploadsAt(v, ch, objs);
  }

  /** Two channel objects of one channel share a mapping entry only when
      they are the same object. */
  lemma ChannelRefInjective(v: Variant, ch: nat, a: Obj, b: Obj)
    requires ChannelObject(a) && ChannelObject(b)
    ensures ChannelRef(v, ch, a) == ChannelRef(v, ch, b) ==> a == b
  {
    if a != b {
      ChannelAddressesDistinct(v, ch, a, ch, b);
      ChannelRefAddress(v, ch, a);
      ChannelRefAddress(v, ch, b);
    }
  }

  /** An object's channel entry is in the mapping of a list of channel objects
      exactly when the object is listed. */
  lemma RefsListObjects(v: Variant, ch: nat, objs: seq<Obj>, o: Obj)
    requires ChannelObject(o)
    requires forall x :: x in objs ==> ChannelObject(x)
    ensures ChannelRef(v, ch, o) in ChannelRefs(v, ch, objs) <==> o in objs
  {
    var refs := ChannelRefs(v, ch, objs);
    ChannelRefsAt(v, ch, objs);
    if ChannelRef(v, ch, o) in refs {
      var i :| 0 <= i < |refs| && refs[i] == ChannelRef(v, ch, o);
      ChannelRefInjective(v, ch, objs[i], o);
    }
    if o in objs {
      var i :| 0 <= i < |objs| && objs[i] == o;
      assert refs[i] == ChannelRef(v, ch, o);
    }
  }

  // ---------------------------------------------------------------------
  // Feedback tracking

  /** Tracking bit of each feedback object; zero for every other object. */
  function TrackBit(o: Obj): bv8 {
    if o == MotorAmps then 0x01
    else if o == AppliedPowerLevel then 0x02
    else if o == ActualProfileVelocity then 0x04
    else if o == ActualVelocity then 0x08
    else if o == Position then 0x10
    else if o == Torque then 0x20
    else 0
  }

  const TrackedObjects: seq<Obj> :=
    [MotorAmps, AppliedPowerLevel, ActualProfileVelocity, ActualVelocity, Position, Torque]

  /** Distinct tracked objects own distinct single bits, all below 0x40. */
  lemma TrackBitsDisjoint(a: Obj, b: Obj)
    requires a in TrackedObjects && b in TrackedObjects
    ensures TrackBit(a) != 0 && TrackBit(a) & 0xC0 == 0
    ensures (TrackBit(a) & TrackBit(b) != 0) <==> a == b
  {
  }

  /** The mask whose bits are those of the listed objects. */
  function MaskOf(objs: seq<Obj>): bv8 {
    if |objs| == 0 then 0 else TrackBit(objs[0]) | MaskOf(objs[1..])
  }

  /** One step of MaskOf. */
  lemma MaskOfCons(o: Obj, rest: seq<Obj>)
    ensures MaskOf([o] + rest) == TrackBit(o) | MaskOf(rest)
  {
    assert ([o] + rest)[1..] == rest;
  }

  /** A tracked object's bit is in MaskOf(objs) exactly when it is listed. */
  lemma {:induction false} MaskOfBit(objs: seq<Obj>, o: Obj)
    requires forall x :: x in objs ==> x in TrackedObjects
    requires o in TrackedObjects
    ensures (MaskOf(objs) & TrackBit(o) != 0) <==> o in objs
  {
    if |objs| > 0 {
      MaskOfBit(objs[1..], o);
      TrackBitsDisjoint(objs[0], o);
      assert MaskOf(objs) & TrackBit(o)
          == (TrackBit(objs[0]) & TrackBit(o)) | (MaskOf(objs[1..]) & TrackBit(o));
      assert o in objs <==> o == objs[0] || o in objs[1..];
    }
  }

  lemma {:induction false} MaskOfHighBitsClear(objs: seq<Obj>)
    requires forall x :: x in objs ==> x in TrackedObjects
    ensures MaskOf(objs) & 0xC0 == 0
  {
    if |objs| > 0 {
      MaskOfHighBitsClear(objs[1..]);
      TrackBitsDisjoint(objs[0], objs[0]);
    }
  }

  /** Reference table of the feedback objects, in mapping order: the motor
      current (except in the direct variant's torque profile, where the torque
      replaces it), the power level, then one object per mode family. */
  function FeedbackObjects(v: Variant, m: Mode): seq<Obj> {
    match m
    case VelocityPositionProfile | VelocityProfile =>
      [MotorAmps, AppliedPowerLevel, ActualProfileVelocity]
    case VelocityPosition | Velocity | AnalogPosition | AnalogVelocity =>
      [MotorAmps, AppliedPowerLevel, ActualVelocity]
    case RelativePositionProfile | RelativePosition =>
      [MotorAmps, AppliedPowerLevel, Position]
    case TorqueProfile =>
      if v == DS402 then [MotorAmps, AppliedPowerLevel] else [AppliedPowerLevel, Torque]
    case _ => []
  }

  lemma FeedbackObjectsTracked(v: Variant, m: Mode)
    ensures forall x :: x in FeedbackObjects(v, m) ==> x in TrackedObjects && ChannelObject(x)
  {
  }

  /** The three feedback switches built from one feedback table agree: the
      i-th mapped object is the i-th uploaded address, and an object's mask
      bit is set exactly when its entry is mapped. */
  lemma TableSwitchesAgree(v: Variant, ch: nat, m: Mode, o: Obj)
    requires o in TrackedObjects
    ensures |ChannelRefs(v, ch, FeedbackObjects(v, m))| == |Uploads(v, ch, FeedbackObjects(v, m))|
    ensures forall i :: 0 <= i < |Uploads(v, ch, FeedbackObjects(v, m))| ==>
              RefAddr(ChannelRefs(v, ch, FeedbackObjects(v, m))[i]) == Uploads(v, ch, FeedbackObjects(v, m))[i].addr
    ensures (MaskOf(FeedbackObjects(v, m)) & TrackBit(o) != 0) <==>
              ChannelRef(v, ch, o) in ChannelRefs(v, ch, FeedbackObjects(v, m))
  {
    var objs := FeedbackObjects(v, m);
    RefsMatchUploads(v, ch, objs);
    FeedbackMaskBits(v, m, o);
    FeedbackObjectsTracked(v, m);
    RefsListObjects(v, ch, objs, o);
  }

  /** The bits of a feedback table name exactly its objects, and nothing above
      bit 5. */
  lemma FeedbackMaskBits(v: Variant, m: Mode, o: Obj)
    requires o in TrackedObjects
    ensures (MaskOf(FeedbackObjects(v, m)) & TrackBit(o) != 0) <==> o in FeedbackObjects(v, m)
    ensures MaskOf(FeedbackObjects(v, m)) & 0xC0 == 0
  {
    FeedbackObjectsTracked(v, m);
    MaskOfBit(FeedbackObjects(v, m), o);
    MaskOfHighBitsClear(FeedbackObjects(v, m));
  }

  /** The mask of a three-object feedback table. */
  lemma MaskOfThree(o: Obj)
    ensures MaskOf([MotorAmps, AppliedPowerLevel, o]) == 0x03 | TrackBit(o)
  {
    MaskOfCons(o, []);
    MaskOfCons(AppliedPowerLevel, [o]);
    MaskOfCons(MotorAmps, [AppliedPowerLevel, o]);
  }

  /** An accumulator has seen every object of a short table exactly when it
      holds each listed object's bit. */
  lemma SeenTwo(t: bv8, a: Obj, b: Obj)
    ensures (forall o :: o in [a, b] ==> t & TrackBit(o) != 0)
        <==> t & TrackBit(a) != 0 && t & TrackBit(b) != 0
  {
    assert a in [a, b] && b in [a, b];
  }

  lemma SeenThree(t: bv8, a: Obj, b: Obj, c: Obj)
    ensures (forall o :: o in [a, b, c] ==> t & TrackBit(o) != 0)
        <==> t & TrackBit(a) != 0 && t & TrackBit(b) != 0 && t & TrackBit(c) != 0
  {
    assert a in [a, b, c] && b in [a, b, c] && c in [a, b, c];
  }

  /** The mask of each feedback table, and what covering it means: every
      object of the table has been seen. */
  lemma VelocityProfileTable(t: bv8)
    ensures MaskOf([MotorAmps, AppliedPowerLevel, ActualProfileVelocity]) == 0x07
    ensures (t & 0x07 == 0x07) <==> forall o :: o in [MotorAmps, AppliedPowerLevel, ActualProfileVelocity] ==> t & TrackBit(o) != 0
  {
    MaskOfThree(ActualProfileVelocity);
    SeenThree(t, MotorAmps, AppliedPowerLevel, ActualProfileVelocity);
    assert (t & 0x07 == 0x07) <==> t & 0x01 != 0 && t & 0x02 != 0 && t & 0x04 != 0;
  }

  lemma VelocityTable(t: bv8)
    ensures MaskOf([MotorAmps, AppliedPowerLevel, ActualVelocity]) == 0x0B
    ensures (t & 0x0B == 0x0B) <==> forall o :: o in [MotorAmps, AppliedPowerLevel, ActualVelocity] ==> t & TrackBit(o) != 0
  {
    MaskOfThree(ActualVelocity);
    SeenThree(t, MotorAmps, AppliedPowerLevel, ActualVelocity);
    assert (t & 0x0B == 0x0B) <==> t & 0x01 != 0 && t & 0x02 != 0 && t & 0x08 != 0;
  }

  lemma PositionTable(t: bv8)
    ensures MaskOf([MotorAmps, AppliedPowerLevel, Position]) == 0x13
    ensures (t & 0x13 == 0x13) <==> forall o :: o in [MotorAmps, AppliedPowerLevel, Position] ==> t & TrackBit(o) != 0
  {
    MaskOfThree(Position);
    SeenThree(t, MotorAmps, AppliedPowerLevel, Position);
    assert (t & 0x13 == 0x13) <==> t & 0x01 != 0 && t & 0x02 != 0 && t & 0x10 != 0;
  }

  lemma TorqueTable(t: bv8)
    ensures MaskOf([MotorAmps, AppliedPowerLevel]) == 0x03
    ensures (t & 0x03 == 0x03) <==> forall o :: o in [MotorAmps, AppliedPowerLevel] ==> t & TrackBit(o) != 0
  {
    MaskOfCons(AppliedPowerLevel, []);
    MaskOfCons(MotorAmps, [AppliedPowerLevel]);
    SeenTwo(t, MotorAmps, AppliedPowerLevel);
    assert (t & 0x03 == 0x03) <==> t & 0x01 != 0 && t & 0x02 != 0;
  }

  lemma DirectTorqueTable(t: bv8)
    ensures MaskOf([AppliedPowerLevel, Torque]) == 0x22
    ensures (t & 0x22 == 0x22) <==> forall o :: o in [AppliedPowerLevel, Torque] ==> t & TrackBit(o) != 0
  {
    MaskOfCons(Torque, []);
    MaskOfCons(AppliedPowerLevel, [Torque]);
    SeenTwo(t, AppliedPowerLevel, Torque);
    assert (t & 0x22 == 0x22) <==> t & 0x02 != 0 && t & 0x20 != 0;
  }

  /** The value of each feedback table's mask. */
  lemma FeedbackMaskValue(v: Variant, m: Mode)
    ensures m == VelocityPositionProfile || m == VelocityProfile ==> MaskOf(FeedbackObjects(v, m)) == 0x07
    ensures m == VelocityPosition || m == Velocity || m == AnalogPosition || m == AnalogVelocity ==>
              MaskOf(FeedbackObjects(v, m)) == 0x0B
    ensures m == RelativePositionProfile || m == RelativePosition ==> MaskOf(FeedbackObjects(v, m)) == 0x13
    ensures m == TorqueProfile ==> MaskOf(FeedbackObjects(v, m)) == if v == DS402 then 0x03 else 0x22
    ensures m == NoneMode || m == PositionProfile ==> MaskOf(FeedbackObjects(v, m)) == 0
  {
    var objs := FeedbackObjects(v, m);
    match m
    case VelocityPositionProfile | VelocityProfile =>
      assert objs == [MotorAmps, AppliedPowerLevel, ActualProfileVelocity];
      VelocityProfileTable(0);
    case VelocityPosition | Velocity | AnalogPosition | AnalogVelocity =>
      assert objs == [MotorAmps, AppliedPowerLevel, ActualVelocity];
      VelocityTable(0);
    case RelativePositionProfile | RelativePosition =>
      assert objs == [MotorAmps, AppliedPowerLevel, Position];
      PositionTable(0);
    case TorqueProfile =>
      if v == DS402 {
        assert objs == [MotorAmps, AppliedPowerLevel];
        TorqueTable(0);
      } else {
        assert objs == [AppliedPowerLevel, Torque];
        DirectTorqueTable(0);
      }
    case NoneMode | PositionProfile =>
      assert objs == [];
  }

  /** The meaning of covering a feedback mask: an accumulator covers it
      exactly when it holds the bit of every object of the table. */
  lemma FeedbackMaskCovered(v: Variant, m: Mode, t: bv8)
    ensures (t & MaskOf(FeedbackObjects(v, m)) == MaskOf(FeedbackObjects(v, m)))
        <==> forall o :: o in FeedbackObjects(v, m) ==> t & TrackBit(o) != 0
  {
    var objs := FeedbackObjects(v, m);
    match m
    case VelocityPositionProfile | VelocityProfile =>
      assert objs == [MotorAmps, AppliedPowerLevel, ActualProfileVelocity];
      VelocityProfileTable(t);
    case VelocityPosition | Velocity | AnalogPosition | AnalogVelocity =>
      assert objs == [MotorAmps, AppliedPowerLevel, ActualVelocity];
      VelocityTable(t);
    case RelativePositionProfile | RelativePosition =>
      assert objs == [MotorAmps, AppliedPowerLevel, Position];
      PositionTable(t);
    case TorqueProfile =>
      if v == DS402 {
        assert objs == [MotorAmps, AppliedPowerLevel];
        TorqueTable(t);
      } else {
        assert objs == [AppliedPowerLevel, Torque];
        DirectTorqueTable(t);
      }
    case NoneMode | PositionProfile =>
      assert objs == [];
  }

  // ---------------------------------------------------------------------
  // Joint states

  datatype Value = Unknown | Known(x: real)

  /** The fields of a joint sample or command; an unset field is `Unknown`. */
  datatype JointState = JointState(
    position: Value, speed: Value, effort: Value, raw: Value, acceleration: Value)

  const NoState := JointState(Unknown, Unknown, Unknown, Unknown, Unknown)

  datatype JointField = PositionField | SpeedField | EffortField | RawField | AccelerationField

  function Field(s: JointState, f: JointField): Value {
    match f
    case PositionField     => s.position
    case SpeedField        => s.speed
    case EffortField       => s.effort
    case RawField          => s.raw
    case AccelerationField => s.acceleration
  }

  /** Fields a supported mode reports: the power level and the effort always,
      the speed or the position by mode family. */
  function ReportedFields(m: Mode): set<JointField> {
    match m
    case VelocityPositionProfile | VelocityProfile | VelocityPosition | Velocity | AnalogVelocity =>
      {RawField, EffortField, SpeedField}
    case AnalogPosition | RelativePositionProfile | RelativePosition =>
      {RawField, EffortField, PositionField}
    case _ => {RawField, EffortField}
  }

  /** A sample holding the power level and the effort, no acceleration, and
      the speed or the position exactly as the mode's family reports them,
      has exactly the mode's reported fields. */
  lemma ReportedFieldsKnown(s: JointState, m: Mode)
    requires s.raw.Known? && s.effort.Known? && s.acceleration == Unknown
    requires s.speed.Known? <==> SpeedField in ReportedFields(m)
    requires s.position.Known? <==> PositionField in ReportedFields(m)
    ensures forall f :: Field(s, f).Known? <==> f in ReportedFields(m)
  {
  }

  /** Unit conversions whose constants (pi, the torque constant, the truncating
      integer casts) are outside the model. */
  datatype Conversion =
    | RpmToSI | CurrentToTorqueSI | SpeedToSI | PositionToSI | TorqueToSI
    | RpmFromSI | RpmTimesTenFromSI | CurrentFromTorqueSI | CurrentSlopeFromTorqueSlopeSI
    | SpeedFromSI | PositionFromSI | AccelerationFromSI | TorqueFromSI | TorqueSlopeFromSI

  /** A channel's conversion parameters: the relative-unit factors, modelled
      exactly, and the other conversions, taken as given functions. */
  datatype Units = Units(
    factors: Factors,
    toSI: (Conversion, int) -> real,
    fromSI: (Conversion, real) -> int)

  /** Reference table of the joint-state decoding: the feedback object each
      reported field of a sample is read from. Effort comes from the motor
      current, except in the direct channel's torque profile, which reads the
      torque; the analog position mode reads the velocity object. */
  function SourceObject(v: Variant, m: Mode, f: JointField): Obj {
    match f
    case EffortField => if v == Direct && m == TorqueProfile then Torque else MotorAmps
    case SpeedField =>
      if m == VelocityPositionProfile || m == VelocityProfile then ActualProfileVelocity else ActualVelocity
    case PositionField => if m == AnalogPosition then ActualVelocity else Position
    case RawField | AccelerationField => AppliedPowerLevel // acceleration is never reported
  }

  /** Reference table of the conversion that turns the stored value `x` of a
      field's source object into SI: the DS402 channel converts speeds in rpm
      and positions (and analog speeds) through the relative conversions, the
      direct channel through its own speed and position scales. */
  function SourceValue(v: Variant, m: Mode, f: JointField, u: Units, x: int): real {
    match f
    case EffortField =>
      if v == Direct && m == TorqueProfile then u.toSI(TorqueToSI, x) else u.toSI(CurrentToTorqueSI, x)
    case SpeedField =>
      if v == Direct then u.toSI(SpeedToSI, x)
      else if m == AnalogVelocity then RelativeSpeedToSI(u.factors, x)
      else u.toSI(RpmToSI, x)
    case PositionField =>
      if v == Direct then u.toSI(PositionToSI, x) else RelativePositionToSI(u.factors, x)
    case RawField | AccelerationField => PwmToFloat(x)
  }

  /** Every object a reported field is decoded from is one of the mode's
      feedback objects, so it is tracked and mapped in the feedback TPDO. */
  lemma SourcesAreFeedback(v: Variant, m: Mode, f: JointField)
    requires Supported(v, m) && f in ReportedFields(m)
    ensures SourceObject(v, m, f) in FeedbackObjects(v, m)
    ensures SourceObject(v, m, f) in TrackedObjects
  {
    FeedbackObjectsTracked(v, m);
  }

  // ---------------------------------------------------------------------
  // Commands

  /** Reference table of the command objects, in the order setJointCommand
      writes them. */
  function CommandObjects(m: Mode): seq<Obj> {
    match m
    case VelocityPositionProfile | VelocityProfile =>
      [TargetTorque, ProfileAcceleration, ProfileDeceleration, TargetProfileVelocity]
    case VelocityPosition | Velocity | AnalogPosition | AnalogVelocity => [TargetVelocity]
    case RelativePositionProfile =>
      [TargetPosition, ProfileVelocity, ProfileAcceleration, ProfileDeceleration]
    case RelativePosition => [TargetPosition]
    case TorqueProfile => [TargetTorque, TorqueSlope]
    case _ => []
  }

  /** Reference table of the command fields each mode needs. */
  function RequiredFields(m: Mode): set<JointField> {
    match m
    case VelocityPositionProfile | VelocityProfile => {AccelerationField, EffortField, SpeedField}
    case VelocityPosition | Velocity | AnalogVelocity => {SpeedField}
    case AnalogPosition | RelativePosition => {PositionField}
    case RelativePositionProfile => {SpeedField, AccelerationField, PositionField}
    case TorqueProfile => {EffortField, RawField}
    case _ => {}
  }

  predicate Complete(cmd: JointState, m: Mode) {
    forall f :: f in RequiredFields(m) ==> Field(cmd, f).Known?
  }

  /** Completeness spelled out per mode. */
  lemma CompleteByMode(cmd: JointState, m: Mode)
    ensures Complete(cmd, m) <==>
      match m
      case VelocityPositionProfile | VelocityProfile =>
        cmd.acceleration.Known? && cmd.effort.Known? && cmd.speed.Known?
      case VelocityPosition | Velocity | AnalogVelocity => cmd.speed.Known?
      case AnalogPosition | RelativePosition => cmd.position.Known?
      case RelativePositionProfile =>
        cmd.speed.Known? && cmd.acceleration.Known? && cmd.position.Known?
      case TorqueProfile => cmd.effort.Known? && cmd.raw.Known?
      case _ => true
  {
    assert Field(cmd, AccelerationField) == cmd.acceleration;
    assert Field(cmd, EffortField) == cmd.effort;
    assert Field(cmd, SpeedField) == cmd.speed;
    assert Field(cmd, PositionField) == cmd.position;
    assert Field(cmd, RawField) == cmd.raw;
  }

  /** `validateField`: the field's value, or InvalidJointCommand naming the channel. */
  function ValidateField(ch: nat, cmd: JointState, f: JointField): (r: Result<real>)
    ensures r.Ok? <==> Field(cmd, f).Known?
    ensures r.Ok? ==> Known(r.value) == Field(cmd, f)
    ensures r.Err? ==> r.error == InvalidJointCommand(ch)
  {
    match Field(cmd, f)
    case Known(x) => Ok(x)
    case Unknown => Err(InvalidJointCommand(ch))
  }

  /** One staged write into the local object dictionary. */
  datatype Write = Write(addr: Addr, value: int)

  /** `set<T>(value)`: the write of `value` to object `o` of channel `ch`. */
  function Stage(v: Variant, ch: nat, o: Obj, value: int): Write {
    Write(Address(v, ch, o), value)
  }

  function WriteAddrs(w: seq<Write>): seq<Addr> {
    if |w| == 0 then [] else [w[0].addr] + WriteAddrs(w[1..])
  }

  /** The DS402 channel's relative conversions divide by (max - min); the source has no guard
      and its result is undefined when the interval is empty. The division is
      reached only once every required field has been validated, so an
      incomplete command is rejected whatever the interval. */
  predicate ConversionDefined(m: Mode, f: Factors) {
    (m == AnalogVelocity ==> f.speedMax != f.speedMin)
    && (m == AnalogPosition || m == RelativePosition || m == RelativePositionProfile
        ==> f.positionMax != f.positionMin)
  }

  /** CarriesFields from its per-index facts. */
  lemma CarriesFieldsIntro(v: Variant, m: Mode, u: Units, cmd: JointState, w: seq<Write>)
    requires v == DS402 ==> ConversionDefined(m, u.factors)
    requires |w| == |CommandObjects(m)|
    requires forall i :: 0 <= i < |w| ==>
      Field(cmd, CommandField(m, CommandObjects(m)[i])).Known?
      && w[i].value == CommandValue(v, m, CommandObjects(m)[i], u, Field(cmd, CommandField(m, CommandObjects(m)[i])).x)
    ensures CarriesFields(v, m, u, cmd, w)
  {
  }

  /** Reference table of the command encoding: the command field each command
      object takes its value from. The analog position mode drives the
      velocity target from the position field. */
  function CommandField(m: Mode, o: Obj): JointField {
    match o
    case TargetTorque => EffortField
    case TargetProfileVelocity | ProfileVelocity => SpeedField
    case ProfileAcceleration | ProfileDeceleration => AccelerationField
    case TorqueSlope => RawField
    case TargetPosition => PositionField
    case TargetVelocity => if m == AnalogPosition then PositionField else SpeedField
    case _ => RawField // not a command object
  }

  /** Reference table of the conversion from a command field's SI value `x` to
      the raw value of object `o`. The DS402 channel drives the motor current
      and the rpm scales, and its relative modes the relative conversions; the
      direct channel has a scale of its own per quantity. */
  function CommandValue(v: Variant, m: Mode, o: Obj, u: Units, x: real): int
    requires v == DS402 ==> ConversionDefined(m, u.factors)
  {
    match o
    case TargetTorque => u.fromSI(if v == DS402 then CurrentFromTorqueSI else TorqueFromSI, x)
    case TargetProfileVelocity | ProfileVelocity => u.fromSI(if v == DS402 then RpmFromSI else SpeedFromSI, x)
    case ProfileAcceleration | ProfileDeceleration =>
      u.fromSI(if v == DS402 then RpmTimesTenFromSI else AccelerationFromSI, x)
    case TorqueSlope => u.fromSI(if v == DS402 then CurrentSlopeFromTorqueSlopeSI else TorqueSlopeFromSI, x)
    case TargetPosition =>
      if v == Direct then u.fromSI(PositionFromSI, x)
      else if m == RelativePosition || m == RelativePositionProfile then RelativePositionFromSI(u.factors, x)
      else 0 // no DS402 mode other than the relative ones writes a position target
    case TargetVelocity =>
      if v == Direct then u.fromSI(SpeedFromSI, x)
      else if m == AnalogVelocity then RelativeSpeedFromSI(u.factors, x)
      else if m == AnalogPosition then RelativePositionFromSI(u.factors, x)
      else u.fromSI(RpmFromSI, x)
    case _ => 0 // not a command object
  }

  /** The i-th write carries the i-th command object's field, known in the
      command, through that object's conversion. */
  predicate CarriesFields(v: Variant, m: Mode, u: Units, cmd: JointState, w: seq<Write>)
    requires v == DS402 ==> ConversionDefined(m, u.factors)
  {
    var objs := CommandObjects(m);
    |w| == |objs|
    && forall i :: 0 <= i < |w| ==>
         Field(cmd, CommandField(m, objs[i])).Known?
         && w[i].value == CommandValue(v, m, objs[i], u, Field(cmd, CommandField(m, objs[i])).x)
  }

  /** Where the profile modes' acceleration pair sits in the command table. */
  function AccelerationPairAt(m: Mode): (k: nat)
    requires ProfileMode(m)
    ensures k + 1 < |CommandObjects(m)|
    ensures CommandObjects(m)[k] == ProfileAcceleration
    ensures CommandObjects(m)[k + 1] == ProfileDeceleration
  {
    if m == RelativePositionProfile then 2 else 1
  }

  /** A staged write list addresses the listed objects, in order. */
  lemma {:induction false} WriteAddrsOfStages(v: Variant, ch: nat, w: seq<Write>, objs: seq<Obj>)
    requires |w| == |objs|
    requires forall i :: 0 <= i < |w| ==> w[i].addr == Address(v, ch, objs[i])
    ensures WriteAddrs(w) == Addresses(v, ch, objs)
  {
    if |w| > 0 {
      WriteAddrsOfStages(v, ch, w[1..], objs[1..]);
    }
  }

  lemma {:induction false} WriteAddrsAt(w: seq<Write>)
    ensures |WriteAddrs(w)| == |w|
    ensures forall i :: 0 <= i < |w| ==> WriteAddrs(w)[i] == w[i].addr
  {
    if |w| > 0 {
      WriteAddrsAt(w[1..]);
    }
  }

  /** The command tables list distinct channel objects. */
  lemma CommandObjectsDistinct(m: Mode)
    ensures forall x :: x in CommandObjects(m) ==> ChannelObject(x)
    ensures forall j, k :: 0 <= j < k < |CommandObjects(m)| ==> CommandObjects(m)[j] != CommandObjects(m)[k]
  {
  }

  /** Writes addressing distinct channel objects of one channel: no write is
      overwritten by a later one. */
  lemma WritesNotOverwritten(v: Variant, ch: nat, objs: seq<Obj>, w: seq<Write>)
    requires WriteAddrs(w) == Addresses(v, ch, objs)
    requires forall x :: x in objs ==> ChannelObject(x)
    requires forall j, k :: 0 <= j < k < |objs| ==> objs[j] != objs[k]
    ensures forall i :: 0 <= i < |w| ==> w[i].addr !in WriteAddrs(w[i + 1..])
  {
    WriteAddrsAt(w);
    AddressesAt(v, ch, objs);
    assert |w| == |objs|;
    forall i, j | 0 <= i < j < |w|
      ensures w[i].addr != w[j].addr
    {
      ChannelAddressesDistinct(v, ch, objs[i], ch, objs[j]);
    }
    forall i | 0 <= i < |w|
      ensures w[i].addr !in WriteAddrs(w[i + 1..])
    {
      WriteAddrsAt(w[i + 1..]);
    }
  }

  predicate MappingsFit(mappings: seq<seq<Ref>>) {
    forall k :: 0 <= k < |mappings| ==> MappingBytes(mappings[k]) <= PdoPayloadBytes
  }

  // ---------------------------------------------------------------------
  // Abstract transport messages

  /** What a download sends: the value currently stored in the local object
      dictionary, or a literal. */
  datatype Payload = Stored | Literal(value: int)

  /** An SDO request: read an object from the controller, or write one. */
  datatype Query = Upload(addr: Addr) | Download(addr: Addr, payload: Payload)

  /** One upload per listed object, in order. */
  function Uploads(v: Variant, ch: nat, objs: seq<Obj>): seq<Query> {
    if |objs| == 0 then [] else [Upload(Address(v, ch, objs[0]))] + Uploads(v, ch, objs[1..])
  }

  /** One download of the stored value per listed object, in order. */
  function StoredDownloads(v: Variant, ch: nat, objs: seq<Obj>): seq<Query> {
    if |objs| == 0 then []
    else [Download(Address(v, ch, objs[0]), Stored)] + StoredDownloads(v, ch, objs[1..])
  }

  lemma {:induction false} UploadsAt(v: Variant, ch: nat, objs: seq<Obj>)
    ensures |Uploads(v, ch, objs)| == |objs|
    ensures forall i :: 0 <= i < |objs| ==> Uploads(v, ch, objs)[i] == Upload(Address(v, ch, objs[i]))
  {
    if |objs| > 0 {
      UploadsAt(v, ch, objs[1..]);
    }
  }

  /** `sendDS402Transition`: one download of the controlword built from the
      channel's mode, the transition and the halt flag. */
  function SendTransition(v: Variant, ch: nat, m: Mode, t: Transition, halt: bool): (qs: seq<Query>)
    ensures |qs| == 1 && qs[0].Download? && qs[0].addr == Address(v, ch, ControlWordRaw)
    ensures qs[0].addr == Addr(0x6040 + ch * 0x800, 0)
    ensures qs[0].payload.Literal? && 0 <= qs[0].payload.value < 0x200
    ensures var w := qs[0].payload.value as bv16;
      w & 0x8F == BaseCode(t) && w & 0x70 == RampBits(m) && (w & HaltBit != 0) == halt
  {
    var w := ControlWordToRaw(m, t, halt);
    WordRoundTrip(w);
    [Download(Address(v, ch, ControlWordRaw), Literal(w as int))]
  }

  /** A 16-bit word survives its trip through the integer payload. */
  lemma WordRoundTrip(w: bv16)
    ensures (w as int) as bv16 == w
    ensures w & 0xFE00 == 0 ==> w as int < 0x200
  {
  }
}
