/** The DS402 channel: its mode switches, each as written in the source, and
    the proofs that they agree with the shared reference tables. */
module DS402Channel {
  import opened Results
  import opened Dictionary
  import opened DriveWords
  import opened Factors
  import opened ChannelTables

  /** The error a switch without a case for the mode raises. */
  function Unsupported<T>(): Result<T> {
    Err(InvalidArgument("unsupported operation mode"))
  }

  /** `getJointStateMask`: 0 in mode NONE, otherwise the bits of the mode's
      feedback objects; a mode without a table entry is an error. */
  function StateMask(m: Mode): (r: Result<bv8>)
    ensures m == NoneMode ==> r == Ok(0)
    ensures m != NoneMode ==> (r.Ok? <==> Supported(DS402, m))
    ensures r.Err? ==> r.error.InvalidArgument?
  {
    if m == NoneMode then Ok(0)
    else
      var mask: bv8 := 0x02 | 0x01;
      match m
      case VelocityPositionProfile | VelocityProfile => Ok(mask | 0x04)
      case VelocityPosition | Velocity | AnalogPosition | AnalogVelocity => Ok(mask | 0x08)
      case RelativePositionProfile | RelativePosition => Ok(mask | 0x10)
      case TorqueProfile => Ok(mask)
      case _ => Unsupported()
  }

  /** The mask sets exactly the tracking bits of the reference feedback objects. */
  lemma StateMaskFollowsTable(m: Mode)
    requires Supported(DS402, m)
    ensures StateMask(m).value == MaskOf(FeedbackObjects(DS402, m))
  {
    FeedbackMaskValue(DS402, m);
  }

  /** `getJointStateTPDOMapping`: a single mapping of the feedback objects at
      their channel addresses. */
  function StateTPDOMapping(ch: nat, m: Mode): (r: Result<seq<seq<Ref>>>)
    ensures r.Ok? <==> Supported(DS402, m)
    ensures r.Err? ==> r.error.InvalidArgument?
    ensures r.Ok? ==> |r.value| == 1
  {
    var offset := ch * ChannelIdOffset;
    var amps, power := MappingRef(MotorAmps, 0, ch), MappingRef(AppliedPowerLevel, 0, ch);
    match m
    case VelocityPositionProfile | VelocityProfile =>
      Ok([[amps, power, MappingRef(ActualProfileVelocity, offset, 0)]])
    case VelocityPosition | Velocity | AnalogPosition | AnalogVelocity =>
      Ok([[amps, power, MappingRef(ActualVelocity, offset, 0)]])
    case RelativePositionProfile | RelativePosition =>
      Ok([[amps, power, MappingRef(Position, offset, 0)]])
    case TorqueProfile => Ok([[amps, power]])
    case _ => Unsupported()
  }

  /** `queryJointState`: one upload per feedback object. */
  function StateQueries(ch: nat, m: Mode): (r: Result<seq<Query>>)
    ensures r.Ok? <==> Supported(DS402, m)
    ensures r.Err? ==> r.error.InvalidArgument?
  {
    match m
    case VelocityPositionProfile | VelocityProfile =>
      Ok(Uploads(DS402, ch, [MotorAmps, AppliedPowerLevel, ActualProfileVelocity]))
    case VelocityPosition | Velocity | AnalogPosition | AnalogVelocity =>
      Ok(Uploads(DS402, ch, [MotorAmps, AppliedPowerLevel, ActualVelocity]))
    case RelativePositionProfile | RelativePosition =>
      Ok(Uploads(DS402, ch, [MotorAmps, AppliedPowerLevel, Position]))
    case TorqueProfile => Ok(Uploads(DS402, ch, [MotorAmps, AppliedPowerLevel]))
    case _ => Unsupported()
  }

  /** The TPDO mapping carries the reference feedback objects at the addresses
      `getObjectOffsets` gives them, and fits one frame. */
  predicate TPDOFollowsTable(ch: nat, m: Mode)
    requires Supported(DS402, m)
  {
    StateTPDOMapping(ch, m).value == [ChannelRefs(DS402, ch, FeedbackObjects(DS402, m))]
    && MappingBytes(StateTPDOMapping(ch, m).value[0]) <= PdoPayloadBytes
  }

  lemma StateTPDOMappingFollowsTable(ch: nat, m: Mode)
    requires Supported(DS402, m)
    ensures TPDOFollowsTable(ch, m)
  {
    var amps, power := ChannelRef(DS402, ch, MotorAmps), ChannelRef(DS402, ch, AppliedPowerLevel);
    match m
    case VelocityPositionProfile | VelocityProfile =>
      var c := ChannelRef(DS402, ch, ActualProfileVelocity);
      assert StateTPDOMapping(ch, m).value == [[amps, power, c]];
      ListsShort(DS402, ch, MotorAmps, AppliedPowerLevel, ActualProfileVelocity);
      MappingBytesShort(amps, power, c);
    case VelocityPosition | Velocity | AnalogPosition | AnalogVelocity =>
      var c := ChannelRef(DS402, ch, ActualVelocity);
      assert StateTPDOMapping(ch, m).value == [[amps, power, c]];
      ListsShort(DS402, ch, MotorAmps, AppliedPowerLevel, ActualVelocity);
      MappingBytesShort(amps, power, c);
    case RelativePositionProfile | RelativePosition =>
      var c := ChannelRef(DS402, ch, Position);
      assert StateTPDOMapping(ch, m).value == [[amps, power, c]];
      ListsShort(DS402, ch, MotorAmps, AppliedPowerLevel, Position);
      MappingBytesShort(amps, power, c);
    case TorqueProfile =>
      assert StateTPDOMapping(ch, m).value == [[amps, power]];
      ListsShort(DS402, ch, MotorAmps, AppliedPowerLevel, MotorAmps);
      MappingBytesShort(amps, power, power);
  }

  /** The queries upload exactly the reference feedback objects, in order. */
  lemma StateQueriesFollowTable(ch: nat, m: Mode)
    requires Supported(DS402, m)
    ensures StateQueries(ch, m).value == Uploads(DS402, ch, FeedbackObjects(DS402, m))
  {
  }

  /** The three feedback switches agree: the i-th mapped object is the i-th
      queried one, and an object is mapped exactly when the mask requires its bit. */
  lemma FeedbackSwitchesAgree(ch: nat, m: Mode, o: Obj)
    requires Supported(DS402, m) && o in TrackedObjects
    ensures StateTPDOMapping(ch, m).Ok? && StateQueries(ch, m).Ok? && StateMask(m).Ok?
    ensures |StateTPDOMapping(ch, m).value[0]| == |StateQueries(ch, m).value|
    ensures forall i :: 0 <= i < |StateQueries(ch, m).value| ==>
              RefAddr(StateTPDOMapping(ch, m).value[0][i]) == StateQueries(ch, m).value[i].addr
    ensures (StateMask(m).value & TrackBit(o) != 0) <==>
              ChannelRef(DS402, ch, o) in StateTPDOMapping(ch, m).value[0]
  {
    StateMaskFollowsTable(m);
    StateTPDOMappingFollowsTable(ch, m);
    StateQueriesFollowTable(ch, m);
    TableSwitchesAgree(DS402, ch, m, o);
  }

  /** `getJointState`: each field decoded from the stored value of one feedback
      object; `read` is the local object dictionary. */
  function GetJointState(ch: nat, m: Mode, u: Units, read: Addr -> int): (r: Result<JointState>)
    ensures m == NoneMode ==> r == Ok(NoState)
    ensures m != NoneMode ==> (r.Ok? <==> Supported(DS402, m))
    ensures r.Err? ==> r.error.InvalidArgument?
    ensures r.Ok? && m != NoneMode ==>
              forall f :: Field(r.value, f).Known? <==> f in ReportedFields(m)
    ensures r.Ok? && m != NoneMode ==>
              r.value.raw == Known(PwmToFloat(read(Address(DS402, ch, AppliedPowerLevel))))
    ensures r.Ok? && m != NoneMode ==>
              r.value.effort == Known(u.toSI(CurrentToTorqueSI, read(Address(DS402, ch, MotorAmps))))
    ensures r.Ok? && (m == VelocityPositionProfile || m == VelocityProfile) ==>
              r.value.speed == Known(u.toSI(RpmToSI, read(Address(DS402, ch, ActualProfileVelocity))))
    ensures r.Ok? && (m == VelocityPosition || m == Velocity) ==>
              r.value.speed == Known(u.toSI(RpmToSI, read(Address(DS402, ch, ActualVelocity))))
    ensures r.Ok? && (m == RelativePositionProfile || m == RelativePosition) ==>
              r.value.position == Known(RelativePositionToSI(u.factors, read(Address(DS402, ch, Position))))
    ensures r.Ok? && m == AnalogVelocity ==>
              r.value.speed == Known(RelativeSpeedToSI(u.factors, read(Address(DS402, ch, ActualVelocity))))
    ensures r.Ok? && m == AnalogPosition ==>
              r.value.position == Known(RelativePositionToSI(u.factors, read(Address(DS402, ch, ActualVelocity))))
  {
    if m == NoneMode then Ok(NoState)
    else if !Supported(DS402, m) then Unsupported()
    else
      var base := NoState.(effort := Known(u.toSI(CurrentToTorqueSI, read(Address(DS402, ch, MotorAmps)))),
                           raw := Known(PwmToFloat(read(Address(DS402, ch, AppliedPowerLevel)))));
      var s := match m
        case VelocityPositionProfile | VelocityProfile =>
          base.(speed := Known(u.toSI(RpmToSI, read(Address(DS402, ch, ActualProfileVelocity)))))
        case VelocityPosition | Velocity =>
          base.(speed := Known(u.toSI(RpmToSI, read(Address(DS402, ch, ActualVelocity)))))
        case AnalogVelocity =>
          base.(speed := Known(RelativeSpeedToSI(u.factors, read(Address(DS402, ch, ActualVelocity)))))
        case AnalogPosition =>
          base.(position := Known(RelativePositionToSI(u.factors, read(Address(DS402, ch, ActualVelocity)))))
        case RelativePositionProfile | RelativePosition =>
          base.(position := Known(RelativePositionToSI(u.factors, read(Address(DS402, ch, Position)))))
        case _ => base; // the torque profile
      ReportedFieldsKnown(s, m);
      Ok(s)
  }

  /** getJointState reads nothing but the feedback objects: two dictionaries
      that agree on those give the same joint state, so a complete tracking
      mask means every value the state is built from is fresh. */
  lemma GetJointStateReadsFeedbackOnly(ch: nat, m: Mode, u: Units, read1: Addr -> int, read2: Addr -> int)
    requires forall o :: o in FeedbackObjects(DS402, m) ==>
               read1(Address(DS402, ch, o)) == read2(Address(DS402, ch, o))
    ensures GetJointState(ch, m, u, read1) == GetJointState(ch, m, u, read2)
  {
    var fb := FeedbackObjects(DS402, m);
    if Supported(DS402, m) {
      assert fb[0] in fb && fb[1] in fb;
      if |fb| == 3 {
        assert fb[2] in fb;
      }
    }
  }

  /** The dictionary writes of `setJointCommand`. Every required field is
      validated before the first write, so a command yields either all of the
      mode's writes or an error and none. */
  function CommandWrites(ch: nat, m: Mode, u: Units, cmd: JointState): (r: Result<seq<Write>>)
    requires Complete(cmd, m) ==> ConversionDefined(m, u.factors)
    ensures !Supported(DS402, m) ==> r.Err? && r.error.InvalidArgument?
    ensures Supported(DS402, m) ==> (r.Ok? <==> Complete(cmd, m))
    ensures Supported(DS402, m) && r.Err? ==> r.error == InvalidJointCommand(ch)
  {
    var f := u.factors;
    CompleteByMode(cmd, m);
    match m
    case VelocityPositionProfile | VelocityProfile =>
      var acceleration :- ValidateField(ch, cmd, AccelerationField);
      var accelerationRaw := u.fromSI(RpmTimesTenFromSI, acceleration);
      var effort :- ValidateField(ch, cmd, EffortField);
      var velocity :- ValidateField(ch, cmd, SpeedField);
      Ok([Stage(DS402, ch, TargetTorque, u.fromSI(CurrentFromTorqueSI, effort)),
          Stage(DS402, ch, ProfileAcceleration, accelerationRaw),
          Stage(DS402, ch, ProfileDeceleration, accelerationRaw),
          Stage(DS402, ch, TargetProfileVelocity, u.fromSI(RpmFromSI, velocity))])
    case VelocityPosition | Velocity =>
      var velocity :- ValidateField(ch, cmd, SpeedField);
      Ok([Stage(DS402, ch, TargetVelocity, u.fromSI(RpmFromSI, velocity))])
    case AnalogVelocity =>
      var velocity :- ValidateField(ch, cmd, SpeedField);
      Ok([Stage(DS402, ch, TargetVelocity, RelativeSpeedFromSI(f, velocity))])
    case AnalogPosition =>
      var position :- ValidateField(ch, cmd, PositionField);
      Ok([Stage(DS402, ch, TargetVelocity, RelativePositionFromSI(f, position))])
    case RelativePositionProfile =>
      var velocity :- ValidateField(ch, cmd, SpeedField);
      var acceleration :- ValidateField(ch, cmd, AccelerationField);
      var accelerationRaw := u.fromSI(RpmTimesTenFromSI, acceleration);
      var position :- ValidateField(ch, cmd, PositionField);
      Ok([Stage(DS402, ch, TargetPosition, RelativePositionFromSI(f, position)),
          Stage(DS402, ch, ProfileVelocity, u.fromSI(RpmFromSI, velocity)),
          Stage(DS402, ch, ProfileAcceleration, accelerationRaw),
          Stage(DS402, ch, ProfileDeceleration, accelerationRaw)])
    case RelativePosition =>
      var position :- ValidateField(ch, cmd, PositionField);
      Ok([Stage(DS402, ch, TargetPosition, RelativePositionFromSI(f, position))])
    case TorqueProfile =>
      var effort :- ValidateField(ch, cmd, EffortField);
      var slope :- ValidateField(ch, cmd, RawField);
      Ok([Stage(DS402, ch, TargetTorque, u.fromSI(CurrentFromTorqueSI, effort)),
          Stage(DS402, ch, TorqueSlope, u.fromSI(CurrentSlopeFromTorqueSlopeSI, slope))])
    case _ => Unsupported()
  }

  /** The writes go to the reference command objects, in order, and the two
      profile ramps always receive one and the same value. */
  predicate WritesFollowTable(ch: nat, m: Mode, w: seq<Write>) {
    WriteAddrs(w) == Addresses(DS402, ch, CommandObjects(m))
    && |w| == |CommandObjects(m)|
    && (ProfileMode(m) ==> w[AccelerationPairAt(m)].value == w[AccelerationPairAt(m) + 1].value)
  }

  lemma CommandWritesFollowTable(ch: nat, m: Mode, u: Units, cmd: JointState)
    requires Complete(cmd, m) ==> ConversionDefined(m, u.factors)
    requires CommandWrites(ch, m, u, cmd).Ok?
    ensures WritesFollowTable(ch, m, CommandWrites(ch, m, u, cmd).value)
  {
    CompleteByMode(cmd, m);
    match m
    case VelocityPositionProfile | VelocityProfile => WritesOfVelocityProfile(ch, m, u, cmd);
    case RelativePositionProfile => WritesOfRelativePositionProfile(ch, u, cmd);
    case TorqueProfile => WritesOfTorqueProfile(ch, u, cmd);
    case VelocityPosition | Velocity | AnalogVelocity | AnalogPosition =>
      WritesOfSingle(ch, m, u, cmd, TargetVelocity);
    case RelativePosition => WritesOfSingle(ch, m, u, cmd, TargetPosition);
  }

  lemma WritesOfVelocityProfile(ch: nat, m: Mode, u: Units, cmd: JointState)
    requires m == VelocityPositionProfile || m == VelocityProfile
    requires cmd.acceleration.Known? && cmd.effort.Known? && cmd.speed.Known?
    ensures CommandWrites(ch, m, u, cmd).Ok?
    ensures WritesFollowTable(ch, m, CommandWrites(ch, m, u, cmd).value)
  {
    var a := u.fromSI(RpmTimesTenFromSI, cmd.acceleration.x);
    var w := [Stage(DS402, ch, TargetTorque, u.fromSI(CurrentFromTorqueSI, cmd.effort.x)),
              Stage(DS402, ch, ProfileAcceleration, a),
              Stage(DS402, ch, ProfileDeceleration, a),
              Stage(DS402, ch, TargetProfileVelocity, u.fromSI(RpmFromSI, cmd.speed.x))];
    assert CommandWrites(ch, m, u, cmd) == Ok(w);
    WriteAddrsOfStages(DS402, ch, w, CommandObjects(m));
  }

  lemma WritesOfRelativePositionProfile(ch: nat, u: Units, cmd: JointState)
    requires ConversionDefined(RelativePositionProfile, u.factors)
    requires cmd.speed.Known? && cmd.acceleration.Known? && cmd.position.Known?
    ensures CommandWrites(ch, RelativePositionProfile, u, cmd).Ok?
    ensures WritesFollowTable(ch, RelativePositionProfile, CommandWrites(ch, RelativePositionProfile, u, cmd).value)
  {
    var a := u.fromSI(RpmTimesTenFromSI, cmd.acceleration.x);
    var w := [Stage(DS402, ch, TargetPosition, RelativePositionFromSI(u.factors, cmd.position.x)),
              Stage(DS402, ch, ProfileVelocity, u.fromSI(RpmFromSI, cmd.speed.x)),
              Stage(DS402, ch, ProfileAcceleration, a),
              Stage(DS402, ch, ProfileDeceleration, a)];
    assert CommandWrites(ch, RelativePositionProfile, u, cmd) == Ok(w);
    WriteAddrsOfStages(DS402, ch, w, CommandObjects(RelativePositionProfile));
  }

  lemma WritesOfTorqueProfile(ch: nat, u: Units, cmd: JointState)
    requires cmd.effort.Known? && cmd.raw.Known?
    ensures CommandWrites(ch, TorqueProfile, u, cmd).Ok?
    ensures WritesFollowTable(ch, TorqueProfile, CommandWrites(ch, TorqueProfile, u, cmd).value)
  {
    var w := [Stage(DS402, ch, TargetTorque, u.fromSI(CurrentFromTorqueSI, cmd.effort.x)),
              Stage(DS402, ch, TorqueSlope, u.fromSI(CurrentSlopeFromTorqueSlopeSI, cmd.raw.x))];
    assert CommandWrites(ch, TorqueProfile, u, cmd) == Ok(w);
    WriteAddrsOfStages(DS402, ch, w, CommandObjects(TorqueProfile));
  }

  lemma WritesOfSingle(ch: nat, m: Mode, u: Units, cmd: JointState, o: Obj)
    requires (Complete(cmd, m) ==> ConversionDefined(m, u.factors)) && Supported(DS402, m)
    requires !ProfileMode(m) && m != TorqueProfile
    requires CommandObjects(m) == [o]
    requires CommandWrites(ch, m, u, cmd).Ok?
    ensures WritesFollowTable(ch, m, CommandWrites(ch, m, u, cmd).value)
  {
    var w := CommandWrites(ch, m, u, cmd).value;
    assert |w| == 1 && w[0].addr == Address(DS402, ch, o);
    WriteAddrsOfStages(DS402, ch, w, [o]);
  }

  /** Each write carries the value the reference tables name: the command
      field of its object, through that object's conversion. */
  lemma CommandWritesCarryFields(ch: nat, m: Mode, u: Units, cmd: JointState)
    requires Complete(cmd, m) ==> ConversionDefined(m, u.factors)
    requires CommandWrites(ch, m, u, cmd).Ok?
    ensures ConversionDefined(m, u.factors)
    ensures CarriesFields(DS402, m, u, cmd, CommandWrites(ch, m, u, cmd).value)
  {
    CompleteByMode(cmd, m);
    match m
    case VelocityPositionProfile | VelocityProfile => CarriesOfVelocityProfile(ch, m, u, cmd);
    case RelativePositionProfile => CarriesOfRelativePositionProfile(ch, u, cmd);
    case TorqueProfile => CarriesOfTorqueProfile(ch, u, cmd);
    case VelocityPosition | Velocity | AnalogVelocity => CarriesOfSingle(ch, m, u, cmd, SpeedField);
    case AnalogPosition | RelativePosition => CarriesOfSingle(ch, m, u, cmd, PositionField);
  }

  lemma CarriesOfVelocityProfile(ch: nat, m: Mode, u: Units, cmd: JointState)
    requires m == VelocityPositionProfile || m == VelocityProfile
    requires cmd.acceleration.Known? && cmd.effort.Known? && cmd.speed.Known?
    ensures CommandWrites(ch, m, u, cmd).Ok?
    ensures CarriesFields(DS402, m, u, cmd, CommandWrites(ch, m, u, cmd).value)
  {
    var a := u.fromSI(RpmTimesTenFromSI, cmd.acceleration.x);
    var w := [Stage(DS402, ch, TargetTorque, u.fromSI(CurrentFromTorqueSI, cmd.effort.x)),
              Stage(DS402, ch, ProfileAcceleration, a),
              Stage(DS402, ch, ProfileDeceleration, a),
              Stage(DS402, ch, TargetProfileVelocity, u.fromSI(RpmFromSI, cmd.speed.x))];
    assert CommandWrites(ch, m, u, cmd) == Ok(w);
    VelocityProfileValues(m, u, cmd, w);
  }

  /** The velocity-profile writes, value by value, against the tables. */
  lemma VelocityProfileValues(m: Mode, u: Units, cmd: JointState, w: seq<Write>)
    requires m == VelocityPositionProfile || m == VelocityProfile
    requires cmd.acceleration.Known? && cmd.effort.Known? && cmd.speed.Known?
    requires |w| == 4
    requires w[0].value == u.fromSI(CurrentFromTorqueSI, cmd.effort.x)
    requires w[1].value == w[2].value == u.fromSI(RpmTimesTenFromSI, cmd.acceleration.x)
    requires w[3].value == u.fromSI(RpmFromSI, cmd.speed.x)
    ensures CarriesFields(DS402, m, u, cmd, w)
  {
    assert CommandObjects(m) == [TargetTorque, ProfileAcceleration, ProfileDeceleration, TargetProfileVelocity];
    forall i | 0 <= i < |w|
      ensures Field(cmd, CommandField(m, CommandObjects(m)[i])).Known?
      ensures w[i].value == CommandValue(DS402, m, CommandObjects(m)[i], u, Field(cmd, CommandField(m, CommandObjects(m)[i])).x)
    {
      if i == 0 {
      } else if i == 1 {
      } else if i == 2 {
      } else {
      }
    }
    CarriesFieldsIntro(DS402, m, u, cmd, w);
  }

  lemma CarriesOfRelativePositionProfile(ch: nat, u: Units, cmd: JointState)
    requires ConversionDefined(RelativePositionProfile, u.factors)
    requires cmd.speed.Known? && cmd.acceleration.Known? && cmd.position.Known?
    ensures CommandWrites(ch, RelativePositionProfile, u, cmd).Ok?
    ensures CarriesFields(DS402, RelativePositionProfile, u, cmd, CommandWrites(ch, RelativePositionProfile, u, cmd).value)
  {
    var a := u.fromSI(RpmTimesTenFromSI, cmd.acceleration.x);
    var w := [Stage(DS402, ch, TargetPosition, RelativePositionFromSI(u.factors, cmd.position.x)),
              Stage(DS402, ch, ProfileVelocity, u.fromSI(RpmFromSI, cmd.speed.x)),
              Stage(DS402, ch, ProfileAcceleration, a),
              Stage(DS402, ch, ProfileDeceleration, a)];
    assert CommandWrites(ch, RelativePositionProfile, u, cmd) == Ok(w);
    RelativePositionProfileValues(u, cmd, w);
  }

  /** The relative-position-profile writes, value by value, against the tables. */
  lemma RelativePositionProfileValues(u: Units, cmd: JointState, w: seq<Write>)
    requires ConversionDefined(RelativePositionProfile, u.factors)
    requires cmd.speed.Known? && cmd.acceleration.Known? && cmd.position.Known?
    requires |w| == 4
    requires w[0].value == RelativePositionFromSI(u.factors, cmd.position.x)
    requires w[1].value == u.fromSI(RpmFromSI, cmd.speed.x)
    requires w[2].value == w[3].value == u.fromSI(RpmTimesTenFromSI, cmd.acceleration.x)
    ensures CarriesFields(DS402, RelativePositionProfile, u, cmd, w)
  {
    var m := RelativePositionProfile;
    assert CommandObjects(m) == [TargetPosition, ProfileVelocity, ProfileAcceleration, ProfileDeceleration];
    forall i | 0 <= i < |w|
      ensures Field(cmd, CommandField(m, CommandObjects(m)[i])).Known?
      ensures w[i].value == CommandValue(DS402, m, CommandObjects(m)[i], u, Field(cmd, CommandField(m, CommandObjects(m)[i])).x)
    {
      if i == 0 {
      } else if i == 1 {
      } else if i == 2 {
      } else {
      }
    }
    CarriesFieldsIntro(DS402, m, u, cmd, w);
  }

  lemma CarriesOfTorqueProfile(ch: nat, u: Units, cmd: JointState)
    requires cmd.effort.Known? && cmd.raw.Known?
    ensures CommandWrites(ch, TorqueProfile, u, cmd).Ok?
    ensures CarriesFields(DS402, TorqueProfile, u, cmd, CommandWrites(ch, TorqueProfile, u, cmd).value)
  {
    var w := [Stage(DS402, ch, TargetTorque, u.fromSI(CurrentFromTorqueSI, cmd.effort.x)),
              Stage(DS402, ch, TorqueSlope, u.fromSI(CurrentSlopeFromTorqueSlopeSI, cmd.raw.x))];
    assert CommandWrites(ch, TorqueProfile, u, cmd) == Ok(w);
    TorqueProfileValues(u, cmd, w);
  }

  /** The torque-profile writes, value by value, against the tables. */
  lemma TorqueProfileValues(u: Units, cmd: JointState, w: seq<Write>)
    requires cmd.effort.Known? && cmd.raw.Known?
    requires |w| == 2
    requires w[0].value == u.fromSI(CurrentFromTorqueSI, cmd.effort.x)
    requires w[1].value == u.fromSI(CurrentSlopeFromTorqueSlopeSI, cmd.raw.x)
    ensures CarriesFields(DS402, TorqueProfile, u, cmd, w)
  {
    var m := TorqueProfile;
    assert CommandObjects(m) == [TargetTorque, TorqueSlope];
    forall i | 0 <= i < |w|
      ensures Field(cmd, CommandField(m, CommandObjects(m)[i])).Known?
      ensures w[i].value == CommandValue(DS402, m, CommandObjects(m)[i], u, Field(cmd, CommandField(m, CommandObjects(m)[i])).x)
    {
      if i == 0 {
      } else {
      }
    }
    CarriesFieldsIntro(DS402, m, u, cmd, w);
  }

  /** The modes with one command object, whose value comes from field `f`. */
  lemma CarriesOfSingle(ch: nat, m: Mode, u: Units, cmd: JointState, f: JointField)
    requires ConversionDefined(m, u.factors) && Supported(DS402, m) && !ProfileMode(m) && m != TorqueProfile
    requires f == (if m == AnalogPosition || m == RelativePosition then PositionField else SpeedField)
    requires Field(cmd, f).Known?
    ensures CommandWrites(ch, m, u, cmd).Ok?
    ensures CarriesFields(DS402, m, u, cmd, CommandWrites(ch, m, u, cmd).value)
  {
    var o := CommandObjects(m)[0];
    var w := [Stage(DS402, ch, o, CommandValue(DS402, m, o, u, Field(cmd, f).x))];
    assert CommandWrites(ch, m, u, cmd) == Ok(w);
    SingleValues(m, u, cmd, f, w);
  }

  lemma SingleValues(m: Mode, u: Units, cmd: JointState, f: JointField, w: seq<Write>)
    requires ConversionDefined(m, u.factors) && Supported(DS402, m) && !ProfileMode(m) && m != TorqueProfile
    requires f == (if m == AnalogPosition || m == RelativePosition then PositionField else SpeedField)
    requires Field(cmd, f).Known?
    requires |w| == 1 && w[0].value == CommandValue(DS402, m, CommandObjects(m)[0], u, Field(cmd, f).x)
    ensures CarriesFields(DS402, m, u, cmd, w)
  {
    assert CommandField(m, CommandObjects(m)[0]) == f;
    CarriesFieldsIntro(DS402, m, u, cmd, w);
  }

  /** The writes depend on the required fields only: commands agreeing there
      produce the same writes, whatever their other fields hold. */
  lemma CommandWritesReadRequiredOnly(ch: nat, m: Mode, u: Units, c1: JointState, c2: JointState)
    requires Complete(c1, m) ==> ConversionDefined(m, u.factors)
    requires forall f :: f in RequiredFields(m) ==> Field(c1, f) == Field(c2, f)
    ensures CommandWrites(ch, m, u, c1) == CommandWrites(ch, m, u, c2)
  {
    assert forall f :: f in RequiredFields(m) ==> ValidateField(ch, c1, f) == ValidateField(ch, c2, f);
  }

  /** In the analog modes the relative conversions close the loop: a command
      whose SI value came from the relative value r writes r itself. */
  lemma AnalogCommandRoundTrip(ch: nat, u: Units, cmd: JointState, r: int)
    requires -1000 <= r <= 1000
    requires u.factors.speedMax != u.factors.speedMin
    requires u.factors.positionMax != u.factors.positionMin
    ensures cmd.speed == Known(RelativeSpeedToSI(u.factors, r)) ==>
              CommandWrites(ch, AnalogVelocity, u, cmd) == Ok([Write(Address(DS402, ch, TargetVelocity), r)])
    ensures cmd.position == Known(RelativePositionToSI(u.factors, r)) ==>
              CommandWrites(ch, AnalogPosition, u, cmd) == Ok([Write(Address(DS402, ch, TargetVelocity), r)])
  {
    RelativeRoundTrips(u.factors, r);
  }

  /** `getJointCommandRPDOMapping`: the command objects at their channel
      addresses; profile modes put the acceleration pair in a second mapping. */
  function CommandRPDOMapping(ch: nat, m: Mode): (r: Result<seq<seq<Ref>>>)
    ensures r.Ok? <==> Supported(DS402, m)
    ensures r.Err? ==> r.error.InvalidArgument?
    ensures r.Ok? && ProfileMode(m) ==> |r.value| == 2
    ensures r.Ok? && !ProfileMode(m) ==> |r.value| == 1
  {
    var offset := ch * ChannelIdOffset;
    match m
    case VelocityPositionProfile | VelocityProfile =>
      Ok([[MappingRef(TargetTorque, offset, 0), MappingRef(TargetProfileVelocity, offset, 0)],
          [MappingRef(ProfileAcceleration, offset, 0), MappingRef(ProfileDeceleration, offset, 0)]])
    case VelocityPosition | Velocity | AnalogPosition | AnalogVelocity =>
      Ok([[MappingRef(TargetVelocity, offset, 0)]])
    case RelativePositionProfile =>
      Ok([[MappingRef(TargetPosition, offset, 0), MappingRef(ProfileVelocity, offset, 0)],
          [MappingRef(ProfileAcceleration, offset, 0), MappingRef(ProfileDeceleration, offset, 0)]])
    case RelativePosition =>
      Ok([[MappingRef(TargetPosition, offset, 0)]])
    case TorqueProfile =>
      Ok([[MappingRef(TargetTorque, offset, 0), MappingRef(TorqueSlope, offset, 0)]])
    case _ => Unsupported()
  }

  /** The RPDO mappings carry exactly the reference command objects at their
      channel addresses (as many entries as objects, each object's entry present:
      a permutation, since the table lists distinct objects; the order differs
      from the writes), the profile modes' second mapping is the acceleration
      pair, and every mapping fits one frame. */
  predicate RPDOFollowsTable(ch: nat, m: Mode)
    requires Supported(DS402, m)
  {
    var ms := CommandRPDOMapping(ch, m).value;
    |Flatten(ms)| == |CommandObjects(m)|
    && (forall o :: o in CommandObjects(m) ==> ChannelRef(DS402, ch, o) in Flatten(ms))
    && (ProfileMode(m) ==> ms[1] == ChannelRefs(DS402, ch, [ProfileAcceleration, ProfileDeceleration]))
    && MappingsFit(ms)
  }

  lemma CommandRPDOMappingFollowsTable(ch: nat, m: Mode)
    requires Supported(DS402, m)
    ensures RPDOFollowsTable(ch, m)
  {
    match m
    case VelocityPositionProfile | VelocityProfile => RPDOOfVelocityProfile(ch, m);
    case RelativePositionProfile => RPDOOfRelativePositionProfile(ch);
    case VelocityPosition | Velocity | AnalogPosition | AnalogVelocity => RPDOOfSingle(ch, m, TargetVelocity);
    case RelativePosition => RPDOOfSingle(ch, m, TargetPosition);
    case TorqueProfile => RPDOOfTorqueProfile(ch);
  }

  lemma RPDOOfVelocityProfile(ch: nat, m: Mode)
    requires m == VelocityPositionProfile || m == VelocityProfile
    ensures RPDOFollowsTable(ch, m)
  {
    RPDOOfProfile(ch, m, TargetTorque, TargetProfileVelocity);
  }

  lemma RPDOOfRelativePositionProfile(ch: nat)
    ensures RPDOFollowsTable(ch, RelativePositionProfile)
  {
    RPDOOfProfile(ch, RelativePositionProfile, TargetPosition, ProfileVelocity);
  }

  /** The one-object modes: a single mapping holding the command object. */
  lemma RPDOOfSingle(ch: nat, m: Mode, o: Obj)
    requires Supported(DS402, m) && !ProfileMode(m) && m != TorqueProfile
    requires CommandObjects(m) == [o]
    requires CommandRPDOMapping(ch, m).value == [[ChannelRef(DS402, ch, o)]]
    ensures RPDOFollowsTable(ch, m)
  {
    var r := ChannelRef(DS402, ch, o);
    FlattenShort([r], []);
    MappingBytesShort(r, r, r);
  }

  lemma RPDOOfTorqueProfile(ch: nat)
    ensures RPDOFollowsTable(ch, TorqueProfile)
  {
    var rt, rs := ChannelRef(DS402, ch, TargetTorque), ChannelRef(DS402, ch, TorqueSlope);
    assert CommandRPDOMapping(ch, TorqueProfile).value == [[rt, rs]];
    FlattenShort([rt, rs], []);
    MappingBytesShort(rt, rs, rs);
  }

  /** The two-mapping shape of the profile modes: target and profile velocity
      first, then the acceleration pair. */
  lemma RPDOOfProfile(ch: nat, m: Mode, t: Obj, p: Obj)
    requires m == VelocityPositionProfile || m == VelocityProfile || m == RelativePositionProfile
    requires CommandRPDOMapping(ch, m).value
          == [[ChannelRef(DS402, ch, t), ChannelRef(DS402, ch, p)],
              [ChannelRef(DS402, ch, ProfileAcceleration), ChannelRef(DS402, ch, ProfileDeceleration)]]
    requires forall o :: o in CommandObjects(m) <==> o in {t, p, ProfileAcceleration, ProfileDeceleration}
    requires Size(t) + Size(p) <= PdoPayloadBytes
    ensures RPDOFollowsTable(ch, m)
  {
    var rt, rp := ChannelRef(DS402, ch, t), ChannelRef(DS402, ch, p);
    var ra, rd := ChannelRef(DS402, ch, ProfileAcceleration), ChannelRef(DS402, ch, ProfileDeceleration);
    var ms := CommandRPDOMapping(ch, m).value;
    assert Flatten(ms) == [rt, rp, ra, rd] by {
      FlattenShort([rt, rp], [ra, rd]);
    }
    assert ms[1] == ChannelRefs(DS402, ch, [ProfileAcceleration, ProfileDeceleration]) by {
      ListsShort(DS402, ch, ProfileAcceleration, ProfileDeceleration, t);
    }
    assert MappingsFit(ms) by {
      MappingBytesShort(rt, rp, rp);
      MappingBytesShort(ra, rd, rd);
    }
  }

  /** `queryJointCommandDownload`: one download of the stored value per
      command object. */
  function CommandDownloads(ch: nat, m: Mode): (r: Result<seq<Query>>)
    ensures r.Ok? <==> Supported(DS402, m)
    ensures r.Err? ==> r.error.InvalidArgument?
  {
    match m
    case VelocityPositionProfile | VelocityProfile =>
      Ok(StoredDownloads(DS402, ch, [TargetTorque, ProfileAcceleration, ProfileDeceleration, TargetProfileVelocity]))
    case VelocityPosition | Velocity =>
      Ok(StoredDownloads(DS402, ch, [TargetVelocity]))
    case AnalogPosition | AnalogVelocity =>
      Ok(StoredDownloads(DS402, ch, [TargetVelocity]))
    case RelativePositionProfile =>
      Ok(StoredDownloads(DS402, ch, [TargetPosition, ProfileVelocity, ProfileAcceleration, ProfileDeceleration]))
    case RelativePosition =>
      Ok(StoredDownloads(DS402, ch, [TargetPosition]))
    case TorqueProfile =>
      Ok(StoredDownloads(DS402, ch, [TargetTorque, TorqueSlope]))
    case _ => Unsupported()
  }

  /** The downloads re-send exactly the written objects, in write order. */
  lemma CommandDownloadsFollowTable(ch: nat, m: Mode)
    requires Supported(DS402, m)
    ensures CommandDownloads(ch, m).value == StoredDownloads(DS402, ch, CommandObjects(m))
  {
  }

  /** `queryOperationModeDownload`: the mode code at the channel's OperationMode
      object; both analog modes are sent as VELOCITY (2). */
  function OperationModeDownload(ch: nat, m: Mode): (q: Query)
    ensures q.Download? && q.addr == Address(DS402, ch, OperationMode) && q.payload.Literal?
    ensures (m == AnalogPosition || m == AnalogVelocity) ==> ModeOfCode(q.payload.value) == Some(Velocity)
    ensures m != AnalogPosition && m != AnalogVelocity ==> ModeOfCode(q.payload.value) == Some(m)
  {
    var code := if m == AnalogPosition || m == AnalogVelocity then Code(Velocity) else Code(m);
    CodeRoundTrip(m);
    CodeRoundTrip(Velocity);
    Download(Addr(Def(OperationMode).id + ch * ChannelIdOffset, Def(OperationMode).sub), Literal(code))
  }
}
