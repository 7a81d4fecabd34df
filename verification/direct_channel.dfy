/** The direct (pre-DS402) channel: the same switches as the DS402 channel,
    except that the torque profile reads the torque instead of the motor
    current, every conversion is a plain unit conversion, the analog modes have
    no case, and the operation mode is sent unchanged. */
module DirectChannel {
  import opened Results
  import opened Dictionary
  import opened Factors
  import opened ChannelTables

  /** The error a switch without a case for the mode raises. */
  function Unsupported<T>(): Result<T> {
    Err(InvalidArgument("unsupported operation mode"))
  }

  /** `getJointStateMask`: 0 in mode NONE; the power level always, the motor
      current except in the torque profile, and one object per mode family. */
  function StateMask(m: Mode): (r: Result<bv8>)
    ensures m == NoneMode ==> r == Ok(0)
    ensures m != NoneMode ==> (r.Ok? <==> Supported(Direct, m))
    ensures r.Err? ==> r.error.InvalidArgument?
  {
    if m == NoneMode then Ok(0)
    else
      match m
      case VelocityPositionProfile | VelocityProfile => Ok(0x03 | 0x04)
      case VelocityPosition | Velocity => Ok(0x03 | 0x08)
      case RelativePositionProfile | RelativePosition => Ok(0x03 | 0x10)
      case TorqueProfile => Ok(0x02 | 0x20)
      case _ => Unsupported()
  }

  /** The mask sets exactly the tracking bits of the reference feedback objects. */
  lemma StateMaskFollowsTable(m: Mode)
    requires Supported(Direct, m)
    ensures StateMask(m).value == MaskOf(FeedbackObjects(Direct, m))
  {
    FeedbackMaskValue(Direct, m);
  }

  /** `getJointStateTPDOMapping`: a single mapping; the motor current is left
      out in the torque profile, where the torque is mapped instead. */
  function StateTPDOMapping(ch: nat, m: Mode): (r: Result<seq<seq<Ref>>>)
    ensures r.Ok? <==> Supported(Direct, m)
    ensures r.Err? ==> r.error.InvalidArgument?
    ensures r.Ok? ==> |r.value| == 1
  {
    var offset := ch * ChannelIdOffset;
    var amps, power := MappingRef(MotorAmps, 0, ch), MappingRef(AppliedPowerLevel, 0, ch);
    match m
    case VelocityPositionProfile | VelocityProfile =>
      Ok([[amps, power, MappingRef(ActualProfileVelocity, offset, 0)]])
    case VelocityPosition | Velocity =>
      Ok([[amps, power, MappingRef(ActualVelocity, offset, 0)]])
    case RelativePositionProfile | RelativePosition =>
      Ok([[amps, power, MappingRef(Position, offset, 0)]])
    case TorqueProfile => Ok([[power, MappingRef(Torque, offset, 0)]])
    case _ => Unsupported()
  }

  /** `queryJointState`: one upload per feedback object. */
  function StateQueries(ch: nat, m: Mode): (r: Result<seq<Query>>)
    ensures r.Ok? <==> Supported(Direct, m)
    ensures r.Err? ==> r.error.InvalidArgument?
  {
    match m
    case VelocityPositionProfile | VelocityProfile =>
      Ok(Uploads(Direct, ch, [MotorAmps, AppliedPowerLevel, ActualProfileVelocity]))
    case VelocityPosition | Velocity =>
      Ok(Uploads(Direct, ch, [MotorAmps, AppliedPowerLevel, ActualVelocity]))
    case RelativePositionProfile | RelativePosition =>
      Ok(Uploads(Direct, ch, [MotorAmps, AppliedPowerLevel, Position]))
    case TorqueProfile => Ok(Uploads(Direct, ch, [AppliedPowerLevel, Torque]))
    case _ => Unsupported()
  }

  /** The TPDO mapping carries the reference feedback objects at the addresses
      `getObjectOffsets` gives them, and fits one frame. */
  predicate TPDOFollowsTable(ch: nat, m: Mode)
    requires Supported(Direct, m)
  {
    StateTPDOMapping(ch, m).value == [ChannelRefs(Direct, ch, FeedbackObjects(Direct, m))]
    && MappingBytes(StateTPDOMapping(ch, m).value[0]) <= PdoPayloadBytes
  }

  lemma StateTPDOMappingFollowsTable(ch: nat, m: Mode)
    requires Supported(Direct, m)
    ensures TPDOFollowsTable(ch, m)
  {
    var amps, power := ChannelRef(Direct, ch, MotorAmps), ChannelRef(Direct, ch, AppliedPowerLevel);
    match m
    case VelocityPositionProfile | VelocityProfile =>
      var c := ChannelRef(Direct, ch, ActualProfileVelocity);
      assert StateTPDOMapping(ch, m).value == [[amps, power, c]];
      ListsShort(Direct, ch, MotorAmps, AppliedPowerLevel, ActualProfileVelocity);
      MappingBytesShort(amps, power, c);
    case VelocityPosition | Velocity =>
      var c := ChannelRef(Direct, ch, ActualVelocity);
      assert StateTPDOMapping(ch, m).value == [[amps, power, c]];
      ListsShort(Direct, ch, MotorAmps, AppliedPowerLevel, ActualVelocity);
      MappingBytesShort(amps, power, c);
    case RelativePositionProfile | RelativePosition =>
      var c := ChannelRef(Direct, ch, Position);
      assert StateTPDOMapping(ch, m).value == [[amps, power, c]];
      ListsShort(Direct, ch, MotorAmps, AppliedPowerLevel, Position);
      MappingBytesShort(amps, power, c);
    case TorqueProfile =>
      var c := ChannelRef(Direct, ch, Torque);
      assert StateTPDOMapping(ch, m).value == [[power, c]];
      ListsShort(Direct, ch, AppliedPowerLevel, Torque, Torque);
      MappingBytesShort(power, c, c);
  }

  /** The queries upload exactly the reference feedback objects, in order. */
  lemma StateQueriesFollowTable(ch: nat, m: Mode)
    requires Supported(Direct, m)
    ensures StateQueries(ch, m).value == Uploads(Direct, ch, FeedbackObjects(Direct, m))
  {
  }

  /** The three feedback switches agree: the i-th mapped object is the i-th
      queried one, and an object is mapped exactly when the mask requires its
      bit. */
  lemma FeedbackSwitchesAgree(ch: nat, m: Mode, o: Obj)
    requires Supported(Direct, m) && o in TrackedObjects
    ensures StateTPDOMapping(ch, m).Ok? && StateQueries(ch, m).Ok? && StateMask(m).Ok?
    ensures |StateTPDOMapping(ch, m).value[0]| == |StateQueries(ch, m).value|
    ensures forall i :: 0 <= i < |StateQueries(ch, m).value| ==>
              RefAddr(StateTPDOMapping(ch, m).value[0][i]) == StateQueries(ch, m).value[i].addr
    ensures (StateMask(m).value & TrackBit(o) != 0) <==>
              ChannelRef(Direct, ch, o) in StateTPDOMapping(ch, m).value[0]
  {
    StateMaskFollowsTable(m);
    StateTPDOMappingFollowsTable(ch, m);
    StateQueriesFollowTable(ch, m);
    TableSwitchesAgree(Direct, ch, m, o);
  }

  /** In the torque profile the torque replaces the motor current in all
      three feedback switches. */
  lemma TorqueReplacesCurrent(ch: nat)
    ensures StateMask(TorqueProfile).value & TrackBit(MotorAmps) == 0
    ensures StateMask(TorqueProfile).value & TrackBit(Torque) != 0
    ensures ChannelRef(Direct, ch, MotorAmps) !in StateTPDOMapping(ch, TorqueProfile).value[0]
    ensures ChannelRef(Direct, ch, Torque) in StateTPDOMapping(ch, TorqueProfile).value[0]
  {
    FeedbackSwitchesAgree(ch, TorqueProfile, MotorAmps);
    FeedbackSwitchesAgree(ch, TorqueProfile, Torque);
  }

  /** `getJointState`: each field decoded from the stored value of one feedback
      object; in the torque profile the effort comes from the torque. */
  function GetJointState(ch: nat, m: Mode, u: Units, read: Addr -> int): (r: Result<JointState>)
    ensures m == NoneMode ==> r == Ok(NoState)
    ensures m != NoneMode ==> (r.Ok? <==> Supported(Direct, m))
    ensures r.Err? ==> r.error.InvalidArgument?
    ensures r.Ok? && m != NoneMode ==>
              forall f :: Field(r.value, f).Known? <==> f in ReportedFields(m)
    ensures r.Ok? && m != NoneMode ==>
              r.value.raw == Known(PwmToFloat(read(Address(Direct, ch, AppliedPowerLevel))))
    ensures r.Ok? && m != NoneMode && m != TorqueProfile ==>
              r.value.effort == Known(u.toSI(CurrentToTorqueSI, read(Address(Direct, ch, MotorAmps))))
    ensures r.Ok? && m == TorqueProfile ==>
              r.value.effort == Known(u.toSI(TorqueToSI, read(Address(Direct, ch, Torque))))
    ensures r.Ok? && (m == VelocityPositionProfile || m == VelocityProfile) ==>
              r.value.speed == Known(u.toSI(SpeedToSI, read(Address(Direct, ch, ActualProfileVelocity))))
    ensures r.Ok? && (m == VelocityPosition || m == Velocity) ==>
              r.value.speed == Known(u.toSI(SpeedToSI, read(Address(Direct, ch, ActualVelocity))))
    ensures r.Ok? && (m == RelativePositionProfile || m == RelativePosition) ==>
              r.value.position == Known(u.toSI(PositionToSI, read(Address(Direct, ch, Position))))
  {
    if m == NoneMode then Ok(NoState)
    else if !Supported(Direct, m) then Unsupported()
    else
      var effort := if m == TorqueProfile then u.toSI(TorqueToSI, read(Address(Direct, ch, Torque)))
                    else u.toSI(CurrentToTorqueSI, read(Address(Direct, ch, MotorAmps)));
      var base := NoState.(effort := Known(effort),
                           raw := Known(PwmToFloat(read(Address(Direct, ch, AppliedPowerLevel)))));
      var s := match m
        case VelocityPositionProfile | VelocityProfile =>
          base.(speed := Known(u.toSI(SpeedToSI, read(Address(Direct, ch, ActualProfileVelocity)))))
        case VelocityPosition | Velocity =>
          base.(speed := Known(u.toSI(SpeedToSI, read(Address(Direct, ch, ActualVelocity)))))
        case RelativePositionProfile | RelativePosition =>
          base.(position := Known(u.toSI(PositionToSI, read(Address(Direct, ch, Position)))))
        case _ => base; // the torque profile
      ReportedFieldsKnown(s, m);
      Ok(s)
  }

  /** getJointState reads nothing but the feedback objects. */
  lemma GetJointStateReadsFeedbackOnly(ch: nat, m: Mode, u: Units, read1: Addr -> int, read2: Addr -> int)
    requires forall o :: o in FeedbackObjects(Direct, m) ==>
               read1(Address(Direct, ch, o)) == read2(Address(Direct, ch, o))
    ensures GetJointState(ch, m, u, read1) == GetJointState(ch, m, u, read2)
  {
    var fb := FeedbackObjects(Direct, m);
    if Supported(Direct, m) {
      assert fb[0] in fb && fb[1] in fb;
      if |fb| == 3 {
        assert fb[2] in fb;
      }
    }
  }

  /** The dictionary writes of `setJointCommand`: every required field is
      validated before the first write. */
  function CommandWrites(ch: nat, m: Mode, u: Units, cmd: JointState): (r: Result<seq<Write>>)
    ensures !Supported(Direct, m) ==> r.Err? && r.error.InvalidArgument?
    ensures Supported(Direct, m) ==> (r.Ok? <==> Complete(cmd, m))
    ensures Supported(Direct, m) && r.Err? ==> r.error == InvalidJointCommand(ch)
  {
    CompleteByMode(cmd, m);
    match m
    case VelocityPositionProfile | VelocityProfile =>
      var acceleration :- ValidateField(ch, cmd, AccelerationField);
      var accelerationRaw := u.fromSI(AccelerationFromSI, acceleration);
      var effort :- ValidateField(ch, cmd, EffortField);
      var velocity :- ValidateField(ch, cmd, SpeedField);
      Ok([Stage(Direct, ch, TargetTorque, u.fromSI(TorqueFromSI, effort)),
          Stage(Direct, ch, ProfileAcceleration, accelerationRaw),
          Stage(Direct, ch, ProfileDeceleration, accelerationRaw),
          Stage(Direct, ch, TargetProfileVelocity, u.fromSI(SpeedFromSI, velocity))])
    case VelocityPosition | Velocity =>
      var velocity :- ValidateField(ch, cmd, SpeedField);
      Ok([Stage(Direct, ch, TargetVelocity, u.fromSI(SpeedFromSI, velocity))])
    case RelativePositionProfile =>
      var velocity :- ValidateField(ch, cmd, SpeedField);
      var acceleration :- ValidateField(ch, cmd, AccelerationField);
      var accelerationRaw := u.fromSI(AccelerationFromSI, acceleration);
      var position :- ValidateField(ch, cmd, PositionField);
      Ok([Stage(Direct, ch, TargetPosition, u.fromSI(PositionFromSI, position)),
          Stage(Direct, ch, ProfileVelocity, u.fromSI(SpeedFromSI, velocity)),
          Stage(Direct, ch, ProfileAcceleration, accelerationRaw),
          Stage(Direct, ch, ProfileDeceleration, accelerationRaw)])
    case RelativePosition =>
      var position :- ValidateField(ch, cmd, PositionField);
      Ok([Stage(Direct, ch, TargetPosition, u.fromSI(PositionFromSI, position))])
    case TorqueProfile =>
      var effort :- ValidateField(ch, cmd, EffortField);
      var slope :- ValidateField(ch, cmd, RawField);
      Ok([Stage(Direct, ch, TargetTorque, u.fromSI(TorqueFromSI, effort)),
          Stage(Direct, ch, TorqueSlope, u.fromSI(TorqueSlopeFromSI, slope))])
    case _ => Unsupported()
  }

  /** The writes go to the reference command objects, in order, and the two
      profile ramps always receive one and the same value. */
  predicate WritesFollowTable(ch: nat, m: Mode, w: seq<Write>) {
    WriteAddrs(w) == Addresses(Direct, ch, CommandObjects(m))
    && |w| == |CommandObjects(m)|
    && (ProfileMode(m) ==> w[AccelerationPairAt(m)].value == w[AccelerationPairAt(m) + 1].value)
  }

  lemma CommandWritesFollowTable(ch: nat, m: Mode, u: Units, cmd: JointState)
    requires CommandWrites(ch, m, u, cmd).Ok?
    ensures WritesFollowTable(ch, m, CommandWrites(ch, m, u, cmd).value)
  {
    CompleteByMode(cmd, m);
    match m
    case VelocityPositionProfile | VelocityProfile => WritesOfVelocityProfile(ch, m, u, cmd);
    case RelativePositionProfile => WritesOfRelativePositionProfile(ch, u, cmd);
    case TorqueProfile => WritesOfTorqueProfile(ch, u, cmd);
    case VelocityPosition | Velocity => WritesOfSingle(ch, m, u, cmd, TargetVelocity);
    case RelativePosition => WritesOfSingle(ch, m, u, cmd, TargetPosition);
  }

  lemma WritesOfVelocityProfile(ch: nat, m: Mode, u: Units, cmd: JointState)
    requires m == VelocityPositionProfile || m == VelocityProfile
    requires cmd.acceleration.Known? && cmd.effort.Known? && cmd.speed.Known?
    ensures CommandWrites(ch, m, u, cmd).Ok?
    ensures WritesFollowTable(ch, m, CommandWrites(ch, m, u, cmd).value)
  {
    var a := u.fromSI(AccelerationFromSI, cmd.acceleration.x);
    var w := [Stage(Direct, ch, TargetTorque, u.fromSI(TorqueFromSI, cmd.effort.x)),
              Stage(Direct, ch, ProfileAcceleration, a),
              Stage(Direct, ch, ProfileDeceleration, a),
              Stage(Direct, ch, TargetProfileVelocity, u.fromSI(SpeedFromSI, cmd.speed.x))];
    assert CommandWrites(ch, m, u, cmd) == Ok(w);
    WriteAddrsOfStages(Direct, ch, w, CommandObjects(m));
  }

  lemma WritesOfRelativePositionProfile(ch: nat, u: Units, cmd: JointState)
    requires cmd.speed.Known? && cmd.acceleration.Known? && cmd.position.Known?
    ensures CommandWrites(ch, RelativePositionProfile, u, cmd).Ok?
    ensures WritesFollowTable(ch, RelativePositionProfile, CommandWrites(ch, RelativePositionProfile, u, cmd).value)
  {
    var a := u.fromSI(AccelerationFromSI, cmd.acceleration.x);
    var w := [Stage(Direct, ch, TargetPosition, u.fromSI(PositionFromSI, cmd.position.x)),
              Stage(Direct, ch, ProfileVelocity, u.fromSI(SpeedFromSI, cmd.speed.x)),
              Stage(Direct, ch, ProfileAcceleration, a),
              Stage(Direct, ch, ProfileDeceleration, a)];
    assert CommandWrites(ch, RelativePositionProfile, u, cmd) == Ok(w);
    WriteAddrsOfStages(Direct, ch, w, CommandObjects(RelativePositionProfile));
  }

  lemma WritesOfTorqueProfile(ch: nat, u: Units, cmd: JointState)
    requires cmd.effort.Known? && cmd.raw.Known?
    ensures CommandWrites(ch, TorqueProfile, u, cmd).Ok?
    ensures WritesFollowTable(ch, TorqueProfile, CommandWrites(ch, TorqueProfile, u, cmd).value)
  {
    var w := [Stage(Direct, ch, TargetTorque, u.fromSI(TorqueFromSI, cmd.effort.x)),
              Stage(Direct, ch, TorqueSlope, u.fromSI(TorqueSlopeFromSI, cmd.raw.x))];
    assert CommandWrites(ch, TorqueProfile, u, cmd) == Ok(w);
    WriteAddrsOfStages(Direct, ch, w, CommandObjects(TorqueProfile));
  }

  lemma WritesOfSingle(ch: nat, m: Mode, u: Units, cmd: JointState, o: Obj)
    requires Supported(Direct, m) && !ProfileMode(m) && m != TorqueProfile
    requires CommandObjects(m) == [o]
    requires CommandWrites(ch, m, u, cmd).Ok?
    ensures WritesFollowTable(ch, m, CommandWrites(ch, m, u, cmd).value)
  {
    var w := CommandWrites(ch, m, u, cmd).value;
    assert |w| == 1 && w[0].addr == Address(Direct, ch, o);
    WriteAddrsOfStages(Direct, ch, w, [o]);
  }

  /** Each write carries the value the reference tables name: the command
      field of its object, through that object's conversion. */
  lemma CommandWritesCarryFields(ch: nat, m: Mode, u: Units, cmd: JointState)
    requires CommandWrites(ch, m, u, cmd).Ok?
    ensures CarriesFields(Direct, m, u, cmd, CommandWrites(ch, m, u, cmd).value)
  {
    CompleteByMode(cmd, m);
    match m
    case VelocityPositionProfile | VelocityProfile => CarriesOfVelocityProfile(ch, m, u, cmd);
    case RelativePositionProfile => CarriesOfRelativePositionProfile(ch, u, cmd);
    case TorqueProfile => CarriesOfTorqueProfile(ch, u, cmd);
    case VelocityPosition | Velocity => CarriesOfSingle(ch, m, u, cmd, SpeedField);
    case RelativePosition => CarriesOfSingle(ch, m, u, cmd, PositionField);
  }

  lemma CarriesOfVelocityProfile(ch: nat, m: Mode, u: Units, cmd: JointState)
    requires m == VelocityPositionProfile || m == VelocityProfile
    requires cmd.acceleration.Known? && cmd.effort.Known? && cmd.speed.Known?
    ensures CommandWrites(ch, m, u, cmd).Ok?
    ensures CarriesFields(Direct, m, u, cmd, CommandWrites(ch, m, u, cmd).value)
  {
    var a := u.fromSI(AccelerationFromSI, cmd.acceleration.x);
    var w := [Stage(Direct, ch, TargetTorque, u.fromSI(TorqueFromSI, cmd.effort.x)),
              Stage(Direct, ch, ProfileAcceleration, a),
              Stage(Direct, ch, ProfileDeceleration, a),
              Stage(Direct, ch, TargetProfileVelocity, u.fromSI(SpeedFromSI, cmd.speed.x))];
    assert CommandWrites(ch, m, u, cmd) == Ok(w);
    VelocityProfileValues(m, u, cmd, w);
  }

  /** The velocity-profile writes, value by value, against the tables. */
  lemma VelocityProfileValues(m: Mode, u: Units, cmd: JointState, w: seq<Write>)
    requires m == VelocityPositionProfile || m == VelocityProfile
    requires cmd.acceleration.Known? && cmd.effort.Known? && cmd.speed.Known?
    requires |w| == 4
    requires w[0].value == u.fromSI(TorqueFromSI, cmd.effort.x)
    requires w[1].value == w[2].value == u.fromSI(AccelerationFromSI, cmd.acceleration.x)
    requires w[3].value == u.fromSI(SpeedFromSI, cmd.speed.x)
    ensures CarriesFields(Direct, m, u, cmd, w)
  {
    assert CommandObjects(m) == [TargetTorque, ProfileAcceleration, ProfileDeceleration, TargetProfileVelocity];
    forall i | 0 <= i < |w|
      ensures Field(cmd, CommandField(m, CommandObjects(m)[i])).Known?
      ensures w[i].value == CommandValue(Direct, m, CommandObjects(m)[i], u, Field(cmd, CommandField(m, CommandObjects(m)[i])).x)
    {
      if i == 0 {
      } else if i == 1 {
      } else if i == 2 {
      } else {
      }
    }
    CarriesFieldsIntro(Direct, m, u, cmd, w);
  }

  lemma CarriesOfRelativePositionProfile(ch: nat, u: Units, cmd: JointState)
    requires cmd.speed.Known? && cmd.acceleration.Known? && cmd.position.Known?
    ensures CommandWrites(ch, RelativePositionProfile, u, cmd).Ok?
    ensures CarriesFields(Direct, RelativePositionProfile, u, cmd, CommandWrites(ch, RelativePositionProfile, u, cmd).value)
  {
    var a := u.fromSI(AccelerationFromSI, cmd.acceleration.x);
    var w := [Stage(Direct, ch, TargetPosition, u.fromSI(PositionFromSI, cmd.position.x)),
              Stage(Direct, ch, ProfileVelocity, u.fromSI(SpeedFromSI, cmd.speed.x)),
              Stage(Direct, ch, ProfileAcceleration, a),
              Stage(Direct, ch, ProfileDeceleration, a)];
    assert CommandWrites(ch, RelativePositionProfile, u, cmd) == Ok(w);
    RelativePositionProfileValues(u, cmd, w);
  }

  /** The relative-position-profile writes, value by value, against the tables. */
  lemma RelativePositionProfileValues(u: Units, cmd: JointState, w: seq<Write>)
    requires cmd.speed.Known? && cmd.acceleration.Known? && cmd.position.Known?
    requires |w| == 4
    requires w[0].value == u.fromSI(PositionFromSI, cmd.position.x)
    requires w[1].value == u.fromSI(SpeedFromSI, cmd.speed.x)
    requires w[2].value == w[3].value == u.fromSI(AccelerationFromSI, cmd.acceleration.x)
    ensures CarriesFields(Direct, RelativePositionProfile, u, cmd, w)
  {
    var m := RelativePositionProfile;
    assert CommandObjects(m) == [TargetPosition, ProfileVelocity, ProfileAcceleration, ProfileDeceleration];
    forall i | 0 <= i < |w|
      ensures Field(cmd, CommandField(m, CommandObjects(m)[i])).Known?
      ensures w[i].value == CommandValue(Direct, m, CommandObjects(m)[i], u, Field(cmd, CommandField(m, CommandObjects(m)[i])).x)
    {
      if i == 0 {
      } else if i == 1 {
      } else if i == 2 {
      } else {
      }
    }
    CarriesFieldsIntro(Direct, m, u, cmd, w);
  }

  lemma CarriesOfTorqueProfile(ch: nat, u: Units, cmd: JointState)
    requires cmd.effort.Known? && cmd.raw.Known?
    ensures CommandWrites(ch, TorqueProfile, u, cmd).Ok?
    ensures CarriesFields(Direct, TorqueProfile, u, cmd, CommandWrites(ch, TorqueProfile, u, cmd).value)
  {
    var w := [Stage(Direct, ch, TargetTorque, u.fromSI(TorqueFromSI, cmd.effort.x)),
              Stage(Direct, ch, TorqueSlope, u.fromSI(TorqueSlopeFromSI, cmd.raw.x))];
    assert CommandWrites(ch, TorqueProfile, u, cmd) == Ok(w);
    TorqueProfileValues(u, cmd, w);
  }

  /** The torque-profile writes, value by value, against the tables. */
  lemma TorqueProfileValues(u: Units, cmd: JointState, w: seq<Write>)
    requires cmd.effort.Known? && cmd.raw.Known?
    requires |w| == 2
    requires w[0].value == u.fromSI(TorqueFromSI, cmd.effort.x)
    requires w[1].value == u.fromSI(TorqueSlopeFromSI, cmd.raw.x)
    ensures CarriesFields(Direct, TorqueProfile, u, cmd, w)
  {
    var m := TorqueProfile;
    assert CommandObjects(m) == [TargetTorque, TorqueSlope];
    forall i | 0 <= i < |w|
      ensures Field(cmd, CommandField(m, CommandObjects(m)[i])).Known?
      ensures w[i].value == CommandValue(Direct, m, CommandObjects(m)[i], u, Field(cmd, CommandField(m, CommandObjects(m)[i])).x)
    {
      if i == 0 {
      } else {
      }
    }
    CarriesFieldsIntro(Direct, m, u, cmd, w);
  }

  /** The modes with one command object, whose value comes from field `f`. */
  lemma CarriesOfSingle(ch: nat, m: Mode, u: Units, cmd: JointState, f: JointField)
    requires Supported(Direct, m) && !ProfileMode(m) && m != TorqueProfile
    requires f == (if m == RelativePosition then PositionField else SpeedField)
    requires Field(cmd, f).Known?
    ensures CommandWrites(ch, m, u, cmd).Ok?
    ensures CarriesFields(Direct, m, u, cmd, CommandWrites(ch, m, u, cmd).value)
  {
    var o := CommandObjects(m)[0];
    var w := [Stage(Direct, ch, o, CommandValue(Direct, m, o, u, Field(cmd, f).x))];
    assert CommandWrites(ch, m, u, cmd) == Ok(w);
    SingleValues(m, u, cmd, f, w);
  }

  lemma SingleValues(m: Mode, u: Units, cmd: JointState, f: JointField, w: seq<Write>)
    requires Supported(Direct, m) && !ProfileMode(m) && m != TorqueProfile
    requires f == (if m == RelativePosition then PositionField else SpeedField)
    requires Field(cmd, f).Known?
    requires |w| == 1 && w[0].value == CommandValue(Direct, m, CommandObjects(m)[0], u, Field(cmd, f).x)
    ensures CarriesFields(Direct, m, u, cmd, w)
  {
    assert CommandField(m, CommandObjects(m)[0]) == f;
    CarriesFieldsIntro(Direct, m, u, cmd, w);
  }

  /** The writes depend on the required fields only. */
  lemma CommandWritesReadRequiredOnly(ch: nat, m: Mode, u: Units, c1: JointState, c2: JointState)
    requires forall f :: f in RequiredFields(m) ==> Field(c1, f) == Field(c2, f)
    ensures CommandWrites(ch, m, u, c1) == CommandWrites(ch, m, u, c2)
  {
    assert forall f :: f in RequiredFields(m) ==> ValidateField(ch, c1, f) == ValidateField(ch, c2, f);
  }

  /** `getJointCommandRPDOMapping`: the command objects at their channel
      addresses; profile modes put the acceleration pair in a second mapping. */
  function CommandRPDOMapping(ch: nat, m: Mode): (r: Result<seq<seq<Ref>>>)
    ensures r.Ok? <==> Supported(Direct, m)
    ensures r.Err? ==> r.error.InvalidArgument?
    ensures r.Ok? && ProfileMode(m) ==> |r.value| == 2
    ensures r.Ok? && !ProfileMode(m) ==> |r.value| == 1
  {
    var offset := ch * ChannelIdOffset;
    match m
    case VelocityPositionProfile | VelocityProfile =>
      Ok([[MappingRef(TargetTorque, offset, 0), MappingRef(TargetProfileVelocity, offset, 0)],
          [MappingRef(ProfileAcceleration, offset, 0), MappingRef(ProfileDeceleration, offset, 0)]])
    case VelocityPosition | Velocity =>
      Ok([[MappingRef(TargetVelocity, offset, 0)]])
    case RelativePositionProfile =>
      Ok([[MappingRef(TargetPosition, offset, 0), MappingRef(ProfileVelocity, offset, 0)],
          [MappingRef(ProfileAcceleration, offset, 0), MappingRef(ProfileDeceleration, offset, 0)]])
    case RelativePosition =>
      Ok([[MappingRef(TargetPosition, offset, 0)]])
    case TorqueProfile =>
      Ok([[MappingRef(TargetTorque, offset, 0), MappingRef(TorqueSlope, offset, 0)]])
    case _ => Unsupported()
  }

  /** The RPDO mappings carry exactly the reference command objects (a
      permutation of them), the profile modes' second mapping is the
      acceleration pair, and every mapping fits one frame. */
  predicate RPDOFollowsTable(ch: nat, m: Mode)
    requires Supported(Direct, m)
  {
    var ms := CommandRPDOMapping(ch, m).value;
    |Flatten(ms)| == |CommandObjects(m)|
    && (forall o :: o in CommandObjects(m) ==> ChannelRef(Direct, ch, o) in Flatten(ms))
    && (ProfileMode(m) ==> ms[1] == ChannelRefs(Direct, ch, [ProfileAcceleration, ProfileDeceleration]))
    && MappingsFit(ms)
  }

  lemma CommandRPDOMappingFollowsTable(ch: nat, m: Mode)
    requires Supported(Direct, m)
    ensures RPDOFollowsTable(ch, m)
  {
    match m
    case VelocityPositionProfile | VelocityProfile => RPDOOfVelocityProfile(ch, m);
    case RelativePositionProfile => RPDOOfRelativePositionProfile(ch);
    case VelocityPosition | Velocity => RPDOOfSingle(ch, m, TargetVelocity);
    case RelativePosition => RPDOOfSingle(ch, m, TargetPosition);
    case TorqueProfile => RPDOOfTorqueProfile(ch);
  }

  lemma RPDOOfVelocityProfile(ch: nat, m: Mode)
    requires m == VelocityPositionProfile || m == VelocityProfile
    ensures RPDOFollowsTable(ch, m)
  {
    RPDOOfProfile(ch, m, TargetTorque, TargetProfileVelocity);
  }

  lemma RPDOOfRelativePositionProfile(ch: nat)
    ensures RPDOFollowsTable(ch, RelativePositionProfile)
  {
    RPDOOfProfile(ch, RelativePositionProfile, TargetPosition, ProfileVelocity);
  }

  /** The one-object modes: a single mapping holding the command object. */
  lemma RPDOOfSingle(ch: nat, m: Mode, o: Obj)
    requires Supported(Direct, m) && !ProfileMode(m) && m != TorqueProfile
    requires CommandObjects(m) == [o]
    requires CommandRPDOMapping(ch, m).value == [[ChannelRef(Direct, ch, o)]]
    ensures RPDOFollowsTable(ch, m)
  {
    var r := ChannelRef(Direct, ch, o);
    FlattenShort([r], []);
    MappingBytesShort(r, r, r);
  }

  lemma RPDOOfTorqueProfile(ch: nat)
    ensures RPDOFollowsTable(ch, TorqueProfile)
  {
    var rt, rs := ChannelRef(Direct, ch, TargetTorque), ChannelRef(Direct, ch, TorqueSlope);
    assert CommandRPDOMapping(ch, TorqueProfile).value == [[rt, rs]];
    FlattenShort([rt, rs], []);
    MappingBytesShort(rt, rs, rs);
  }

  /** The two-mapping shape of the profile modes. */
  lemma RPDOOfProfile(ch: nat, m: Mode, t: Obj, p: Obj)
    requires m == VelocityPositionProfile || m == VelocityProfile || m == RelativePositionProfile
    requires CommandRPDOMapping(ch, m).value
          == [[ChannelRef(Direct, ch, t), ChannelRef(Direct, ch, p)],
              [ChannelRef(Direct, ch, ProfileAcceleration), ChannelRef(Direct, ch, ProfileDeceleration)]]
    requires forall o :: o in CommandObjects(m) <==> o in {t, p, ProfileAcceleration, ProfileDeceleration}
    requires Size(t) + Size(p) <= PdoPayloadBytes
    ensures RPDOFollowsTable(ch, m)
  {
    var rt, rp := ChannelRef(Direct, ch, t), ChannelRef(Direct, ch, p);
    var ra, rd := ChannelRef(Direct, ch, ProfileAcceleration), ChannelRef(Direct, ch, ProfileDeceleration);
    var ms := CommandRPDOMapping(ch, m).value;
    assert Flatten(ms) == [rt, rp, ra, rd] by {
      FlattenShort([rt, rp], [ra, rd]);
    }
    assert ms[1] == ChannelRefs(Direct, ch, [ProfileAcceleration, ProfileDeceleration]) by {
      ListsShort(Direct, ch, ProfileAcceleration, ProfileDeceleration, t);
    }
    assert MappingsFit(ms) by {
      MappingBytesShort(rt, rp, rp);
      MappingBytesShort(ra, rd, rd);
    }
  }

  /** `queryJointCommandDownload`: one download of the stored value per
      command object. */
  function CommandDownloads(ch: nat, m: Mode): (r: Result<seq<Query>>)
    ensures r.Ok? <==> Supported(Direct, m)
    ensures r.Err? ==> r.error.InvalidArgument?
  {
    match m
    case VelocityPositionProfile | VelocityProfile =>
      Ok(StoredDownloads(Direct, ch, [TargetTorque, ProfileAcceleration, ProfileDeceleration, TargetProfileVelocity]))
    case VelocityPosition | Velocity =>
      Ok(StoredDownloads(Direct, ch, [TargetVelocity]))
    case RelativePositionProfile =>
      Ok(StoredDownloads(Direct, ch, [TargetPosition, ProfileVelocity, ProfileAcceleration, ProfileDeceleration]))
    case RelativePosition =>
      Ok(StoredDownloads(Direct, ch, [TargetPosition]))
    case TorqueProfile =>
      Ok(StoredDownloads(Direct, ch, [TargetTorque, TorqueSlope]))
    case _ => Unsupported()
  }

  /** The downloads re-send exactly the written objects, in write order. */
  lemma CommandDownloadsFollowTable(ch: nat, m: Mode)
    requires Supported(Direct, m)
    ensures CommandDownloads(ch, m).value == StoredDownloads(Direct, ch, CommandObjects(m))
  {
  }

  /** `queryOperationModeDownload`: the mode code, unchanged, at the channel's
      OperationMode object. */
  function OperationModeDownload(ch: nat, m: Mode): (q: Query)
    ensures q.Download? && q.addr == Address(Direct, ch, OperationMode) && q.payload.Literal?
    ensures ModeOfCode(q.payload.value) == Some(m)
  {
    CodeRoundTrip(m);
    Download(Addr(Def(OperationMode).id + ch * ChannelIdOffset, Def(OperationMode).sub), Literal(Code(m)))
  }
}
