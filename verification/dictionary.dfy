/** The controller's object dictionary: the registers the driver reads and
    writes, each with its object id, sub-id and native integer type, plus the
    operation modes a channel can be configured in. */
module Dictionary {
  import opened Results

  /** Native integer type of a register; fixes its byte size in a PDO. */
  datatype IntType = I8 | U8 | I16 | U16 | I32 | U32

  function ByteSize(t: IntType): (n: nat)
    ensures 1 <= n <= 4
  {
    match t
    case I8 | U8 => 1
    case I16 | U16 => 2
    case I32 | U32 => 4
  }

  /** Registers of the dictionary known to the driver. */
  datatype Obj =
    | SetCommand | SetSpeedTarget | EmergencyShutdown | ReleaseShutdown | MotorStop
    | MotorAmps | AppliedPowerLevel | BatteryAmps
    | VoltageInternal | VoltageBattery | Voltage5V
    | TemperatureMCU | TemperatureSensor0
    | Feedback | StatusFlagsRaw | FaultFlagsRaw | ClosedLoopError | Time
    | ControlWordRaw | StatusWordRaw
    | TargetVelocity | ActualTargetVelocity | ActualVelocity
    | MinVelocity | MaxVelocity
    | VelocityAccelerationDelta | VelocityAccelerationTime
    | VelocityDecelerationDelta | VelocityDecelerationTime
    | OperationMode | Position | ActualProfileVelocity
    | TargetTorque | Torque | TargetPosition
    | ProfileVelocity | ProfileAcceleration | ProfileDeceleration
    | TorqueSlope | TargetProfileVelocity

  /** Base coordinates of a register, before any per-channel offset. */
  datatype ObjectDef = ObjectDef(id: int, sub: int, kind: IntType)

  function Def(o: Obj): ObjectDef {
    match o
    case SetCommand                => ObjectDef(0x2000, 1, I32)
    case SetSpeedTarget            => ObjectDef(0x2002, 1, I16)
    case EmergencyShutdown         => ObjectDef(0x200C, 0, U8)
    case ReleaseShutdown           => ObjectDef(0x200D, 0, U8)
    case MotorStop                 => ObjectDef(0x200E, 0, U8)
    case MotorAmps                 => ObjectDef(0x2100, 1, I16)
    case AppliedPowerLevel         => ObjectDef(0x2102, 1, I16)
    case BatteryAmps               => ObjectDef(0x210C, 1, I16)
    case VoltageInternal           => ObjectDef(0x210D, 1, U16)
    case VoltageBattery            => ObjectDef(0x210D, 2, U16)
    case Voltage5V                 => ObjectDef(0x210D, 3, U16)
    case TemperatureMCU            => ObjectDef(0x210F, 1, I8)
    case TemperatureSensor0        => ObjectDef(0x210F, 2, I8)
    case Feedback                  => ObjectDef(0x2110, 0, I32)
    case StatusFlagsRaw            => ObjectDef(0x2111, 0, U16)
    case FaultFlagsRaw             => ObjectDef(0x2112, 0, U16)
    case ClosedLoopError           => ObjectDef(0x2114, 1, I32)
    case Time                      => ObjectDef(0x2119, 0, U32)
    case ControlWordRaw            => ObjectDef(0x6040, 0, U16)
    case StatusWordRaw             => ObjectDef(0x6041, 0, U16)
    case TargetVelocity            => ObjectDef(0x6042, 0, I16)
    case ActualTargetVelocity      => ObjectDef(0x6043, 0, I16)
    case ActualVelocity            => ObjectDef(0x6044, 0, I16)
    case MinVelocity               => ObjectDef(0x6046, 1, U32)
    case MaxVelocity               => ObjectDef(0x6046, 2, U32)
    case VelocityAccelerationDelta => ObjectDef(0x6048, 1, U32)
    case VelocityAccelerationTime  => ObjectDef(0x6048, 2, U16)
    case VelocityDecelerationDelta => ObjectDef(0x6049, 1, U32)
    case VelocityDecelerationTime  => ObjectDef(0x6049, 2, U16)
    case OperationMode             => ObjectDef(0x6060, 0, I8)
    case Position                  => ObjectDef(0x6064, 0, I32)
    case ActualProfileVelocity     => ObjectDef(0x606C, 0, I32)
    case TargetTorque              => ObjectDef(0x6071, 0, I16)
    case Torque                    => ObjectDef(0x6077, 0, I16)
    case TargetPosition            => ObjectDef(0x607A, 0, I32)
    case ProfileVelocity           => ObjectDef(0x6081, 0, U32)
    case ProfileAcceleration       => ObjectDef(0x6083, 0, U32)
    case ProfileDeceleration       => ObjectDef(0x6084, 0, U32)
    case TorqueSlope               => ObjectDef(0x6087, 0, U32)
    case TargetProfileVelocity     => ObjectDef(0x60FF, 0, I32)
  }

  function Size(o: Obj): nat {
    ByteSize(Def(o).kind)
  }

  /** Coordinates of one register in the transport's object store. */
  datatype Addr = Addr(id: int, sub: int)

  /** One entry of a PDO mapping: coordinates plus byte size. */
  datatype Ref = Ref(id: int, sub: int, size: nat)

  /** The entry `PDOMapping::add<o>(idOffset, subOffset)` records. */
  function MappingRef(o: Obj, idOffset: int, subOffset: int): Ref {
    Ref(Def(o).id + idOffset, Def(o).sub + subOffset, Size(o))
  }

  function RefAddr(r: Ref): Addr {
    Addr(r.id, r.sub)
  }

  /** Total payload of a PDO mapping in bytes. */
  function MappingBytes(m: seq<Ref>): nat {
    if |m| == 0 then 0 else m[0].size + MappingBytes(m[1..])
  }

  /** MappingBytes unrolled on mappings of up to three entries. */
  lemma MappingBytesShort(a: Ref, b: Ref, c: Ref)
    ensures MappingBytes([a]) == a.size
    ensures MappingBytes([a, b]) == a.size + b.size
    ensures MappingBytes([a, b, c]) == a.size + b.size + c.size
  {
    assert [a][1..] == [] && [b][1..] == [] && [c][1..] == [];
    assert [a, b][1..] == [b] && [b, c][1..] == [c] && [a, b, c][1..] == [b, c];
    assert MappingBytes([c]) == c.size;
    assert MappingBytes([b]) == b.size;
    assert MappingBytes([b, c]) == b.size + c.size;
  }

  lemma MappingBytesFour(a: Ref, b: Ref, c: Ref, d: Ref)
    ensures MappingBytes([a, b, c, d]) == a.size + b.size + c.size + d.size
  {
    assert [a, b, c, d][1..] == [b, c, d];
    MappingBytesShort(b, c, d);
  }

  /** The entries of consecutive PDO mappings, in order. */
  function Flatten<T>(mappings: seq<seq<T>>): seq<T> {
    if |mappings| == 0 then [] else mappings[0] + Flatten(mappings[1..])
  }

  /** Flatten unrolled on one and two mappings. */
  lemma FlattenShort<T>(x: seq<T>, y: seq<T>)
    ensures Flatten([x]) == x
    ensures Flatten([x, y]) == x + y
  {
    assert [x][1..] == [];
    assert [x, y][1..] == [y];
    assert [y][1..] == [];
    assert Flatten([y]) == y;
  }

  lemma FlattenCons<T>(x: seq<T>, xs: seq<seq<T>>)
    ensures Flatten([x] + xs) == x + Flatten(xs)
  {
    assert ([x] + xs)[1..] == xs;
  }

  /** The entries of two runs of mappings laid end to end. */
  lemma {:induction false} FlattenConcat<T>(a: seq<seq<T>>, b: seq<seq<T>>)
    ensures Flatten(a + b) == Flatten(a) + Flatten(b)
  {
    if |a| > 0 {
      assert (a + b)[1..] == a[1..] + b;
      FlattenConcat(a[1..], b);
    } else {
      assert a + b == b;
    }
  }

  /** The payload of two mappings laid end to end. */
  lemma {:induction false} MappingBytesConcat(a: seq<Ref>, b: seq<Ref>)
    ensures MappingBytes(a + b) == MappingBytes(a) + MappingBytes(b)
  {
    if |a| > 0 {
      assert (a + b)[1..] == a[1..] + b;
      MappingBytesConcat(a[1..], b);
    } else {
      assert a + b == b;
    }
  }

  /** Payload budget of one classic CAN frame. */
  const PdoPayloadBytes: nat := 8

  /** The per-channel DS402 operation modes. */
  datatype Mode =
    | VelocityPosition
    | VelocityPositionProfile
    | RelativePositionProfile
    | RelativePosition
    | NoneMode
    | PositionProfile
    | Velocity
    | VelocityProfile
    | TorqueProfile
    | AnalogPosition
    | AnalogVelocity

  /** The integer the controller knows each mode by. */
  function Code(m: Mode): int {
    match m
    case VelocityPosition        => -4
    case VelocityPositionProfile => -3
    case RelativePositionProfile => -2
    case RelativePosition        => -1
    case NoneMode                => 0
    case PositionProfile         => 1
    case Velocity                => 2
    case VelocityProfile         => 3
    case TorqueProfile           => 4
    case AnalogPosition          => 10
    case AnalogVelocity          => 11
  }

  /** Reads a mode code back; codes outside the enumeration have no mode. */
  function ModeOfCode(n: int): (r: Option<Mode>)
    ensures r.Some? ==> Code(r.value) == n
    ensures r.None? ==> n !in {-4, -3, -2, -1, 0, 1, 2, 3, 4, 10, 11}
  {
    if n == -4 then Some(VelocityPosition)
    else if n == -3 then Some(VelocityPositionProfile)
    else if n == -2 then Some(RelativePositionProfile)
    else if n == -1 then Some(RelativePosition)
    else if n == 0 then Some(NoneMode)
    else if n == 1 then Some(PositionProfile)
    else if n == 2 then Some(Velocity)
    else if n == 3 then Some(VelocityProfile)
    else if n == 4 then Some(TorqueProfile)
    else if n == 10 then Some(AnalogPosition)
    else if n == 11 then Some(AnalogVelocity)
    else None
  }

  /** Mode codes are a faithful encoding: decoding a mode's code gives the mode back,
      so no two modes share a code. */
  lemma CodeRoundTrip(m: Mode)
    ensures ModeOfCode(Code(m)) == Some(m)
  {
  }

  lemma CodeInjective(a: Mode, b: Mode)
    requires Code(a) == Code(b)
    ensures a == b
  {
    CodeRoundTrip(a);
    CodeRoundTrip(b);
  }
}
