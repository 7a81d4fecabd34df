# Roboteq CANopen driver core, modelled in Dafny

This project models the sequential, I/O-free core of a driver for Roboteq
multi-channel motor controllers. The controller is reached through CANopen:
explicit request/reply transfers (SDO uploads and downloads) and periodic
frames (PDOs) of at most 8 bytes. The model proves properties of the
following parts.

- **Drive words** (`DriveWords`). The DS402 controlword encoder and the
  statusword decoder of the device-control state machine of CiA 402
  (IEC 61800-7-201), at objects 6040h and 6041h.
- **Relative units** (`Factors`). The controller's ±1000 ratio is mapped to
  an SI interval [min, max] and saturated back into ±1000.
- **Dictionary and mode tables** (`Dictionary`, `ChannelTables`). These hold:
  - the dictionary objects with their (id, sub-id, integer type);
  - the operation-mode codes;
  - the per-channel addressing rule;
  - the tracking bits;
  - reference tables of each mode's feedback objects, command objects and
    required command fields.
- **Channels** (`DS402Channel`, `DirectChannel`, `ChannelState`). There are
  two channel variants: the DS402 channel and the older direct channel.
  - Each variant's mode switches (mask, TPDO mapping, SDO queries, joint
    state, command writes, RPDO mapping, command downloads, mode download)
    are written separately, as the source writes them.
  - Lemmas prove that each switch follows the reference tables, which is
    also what makes the switches agree with each other.
  - `ChannelState` is one channel record holding its mode, its tracking
    accumulator and mask, its stored command and its local object
    dictionary, with the operations that change them.
- **Driver aggregate** (`InputMasks`, `PdoPacking`, `DriverState`,
  `JointCommands`). This covers:
  - the controller-wide (expected, received) input trackers fed by
    `process`;
  - PDO index allocation and the recorded RPDO range;
  - the two-per-frame packing of analog inputs and encoder counters;
  - the status TPDOs;
  - distributing a joint command over the channels that are not ignored,
    and reading it back.
- **Configuration upload** (`SerialCommands`). This covers reply framing on
  the serial line, the verdict on a reply, and the filtering and trimming of
  configuration-file lines.

Every operation returns a value. Exceptions become the `Err` case of
`Results.Result`, carrying:
- `InvalidArgument` for `std::invalid_argument`;
- `InvalidJointCommand(channel)`;
- `UnknownState`;
- `CommandFailed(line)`.

Where the source updates state and then throws, the model returns the
updated state together with the error.

The serial handshake's tests and its code disagree in one place, and the
model follows the code:
- The replies in `test/test_SerialCommandWriter.cpp:48-104` (for example
  `"^MMOD 1 4+"`) put the acknowledgement directly after the echoed command.
- `extractPacket` (src/SerialCommandWriter.cpp:31-36) requires a carriage
  return between the echo and the acknowledgement.

## Model

| member | source | states |
|---|---|---|
| DriveWords.ControlWordToRaw | src/Objects.cpp:5-51 | the transition's base code sits in bits 0-3 and 7, the mode's ramp bits in bits 4-6, the halt flag in bit 8, and nothing above bit 8 |
| DriveWords.HaltTogglesOnlyBit8 | src/Objects.cpp:47-50 | halt ORs exactly 0x100 into a word that is below 0x100 without it |
| DriveWords.EnableOperationLowNibble | src/Objects.cpp:15-17 | ENABLE_OPERATION gives low nibble 0xF in every mode |
| DriveWords.ModeBitsByFamily | src/Objects.cpp:32-45 | the position-profile modes add exactly bit 5; velocity, velocity-position and both analog modes add 0x70; every other mode adds nothing |
| DriveWords.ParseState | src/Objects.cpp:53-72 | a failure is always UnknownState; which byte decodes to which state is stated by ParseStateSpec |
| DriveWords.ParseStateSpec | src/Objects.cpp:53-72 | relative to the table of eight (mask, pattern) pairs: a first-pass state decodes exactly when its 0x4F pattern matches; a second-pass state decodes exactly when its 0x6F pattern matches and no first-pass pattern does; decoding fails exactly when nothing matches |
| DriveWords.ParseStateFirstPass | src/Objects.cpp:55-61 | a first-pass state decodes exactly when its 0x4F pattern matches |
| DriveWords.ParseStateSecondPass | src/Objects.cpp:63-69 | a second-pass state decodes exactly when its 0x6F pattern matches and no first-pass pattern does |
| DriveWords.ParseStateFails | src/Objects.cpp:63-71 | UnknownState is raised exactly when neither pass matches, so no default state exists |
| DriveWords.SomeValueIsUnknown | src/Objects.cpp:71 | 0x01 matches no pattern and raises UnknownState |
| DriveWords.PatternDecodesToItsState | src/Objects.cpp:55-69 | each of the eight patterns decodes to its own state, so the states are distinct |
| DriveWords.StatusWordFromRaw | src/Objects.cpp:75-83 | the state is the decoding of bits 0-3, 5 and 6; the flags are bits 4, 7, 10 and 11; the raw word is kept; UnknownState propagates |
| DriveWords.StateIgnoresFlagBits | src/Objects.cpp:76 | flipping any bit outside 0x6F changes neither success nor the decoded state |
| DriveWords.OperationEnabledExample | test/test_DS402Channel.cpp:59-65 | 0x08A7 decodes to OPERATION_ENABLED with the warning and internal-limit flags set |
| Factors.Round | src/Factors.cpp:8 | rounding lands within one half of its argument and keeps its sign |
| Factors.RoundHalfAway | src/Factors.cpp:8 | halfway cases round away from zero, on both signs |
| Factors.RoundMonotone | src/Factors.cpp:8 | rounding is monotone |
| Factors.RoundOfInteger | src/Factors.cpp:8 | rounding leaves integers unchanged |
| Factors.Clamp1000 | src/Factors.cpp:7-18 | the result is in [-1000, 1000]; it is the rounded value inside the range and saturates beyond it |
| Factors.Clamp1000Identity | src/Factors.cpp:7-18 | clamping is the identity on integers already in range |
| Factors.Clamp1000Idempotent | src/Factors.cpp:7-18 | clamping twice is clamping once |
| Factors.Clamp1000Monotone | src/Factors.cpp:7-18 | clamping is monotone |
| Factors.ToSI | src/Factors.cpp:20-23 | the linear map from [-1000, 1000] onto [min, max]; its end points by ToSIEndPoints and its inverse by FromSIToSI |
| Factors.ToSIEndPoints | src/Factors.cpp:20-23 | -1000 maps to min, 1000 to max and 0 to the middle of the interval |
| Factors.FromSI | src/Factors.cpp:25-28 | the result is always in [-1000, 1000] |
| Factors.FromSIEndPoints | src/Factors.cpp:25-28 | min maps to -1000, max to 1000 and the middle to 0 |
| Factors.FromSIToSI | src/Factors.cpp:20-28 | every relative value in [-1000, 1000] survives toSI then fromSI |
| Factors.FromSIMonotone | src/Factors.cpp:25-28 | fromSI never decreases as the SI value grows, when max > min |
| Factors.FromSISaturates | src/Factors.cpp:25-28 | when max > min, anything at or below min gives exactly -1000 and anything at or above max exactly 1000 |
| Factors.RelativePositionFromSI | src/Factors.cpp:48-54 | a position is converted into [-1000, 1000] |
| Factors.RelativeSpeedFromSI | src/Factors.cpp:56-62 | a speed is converted into [-1000, 1000] |
| Factors.RelativeSpeedSingleClamp | src/Factors.cpp:60-62 | the second clamp in relativeSpeedFromSI changes nothing |
| Factors.RelativePositionToSI | src/Factors.cpp:48-50 | ToSI on the position interval; inverted by RelativePositionFromSI (RelativeRoundTrips) |
| Factors.RelativeSpeedToSI | src/Factors.cpp:56-58 | ToSI on the speed interval; inverted by RelativeSpeedFromSI (RelativeRoundTrips) |
| Factors.RelativeRoundTrips | src/Factors.cpp:48-62 | relative speeds and positions round-trip through a channel's conversions |
| Factors.PwmToFloat | src/Factors.cpp:77-79 | the power level divided by 1000; its scale by PwmToFloatScale |
| Factors.PwmToFloatScale | src/Factors.cpp:77-79 | the power level maps ±1000 onto [-1, 1], and scaling back by 1000 recovers it |
| Factors.TestIntervals | test/test_Factors.cpp:17-91 | with the tests' speed interval [-10, 42] and position interval [-100, 84], each conversion gives the tests' middle values, both end values in each direction, and the saturated values beyond the ends |
| Dictionary.ModeOfCode | src/Objects.hpp:87-147 | a code decodes to a mode that encodes back to it; exactly the eleven listed codes decode |
| Dictionary.CodeRoundTrip | src/Objects.hpp:87-147 | every mode's code decodes back to that mode |
| Dictionary.CodeInjective | src/Objects.hpp:87-147 | distinct modes have distinct codes |
| ChannelTables.AddressRule | src/DS402Channel.cpp:229-243 | sub-addressed objects add the channel to the sub-id; every other object adds channel·0x800 to the id |
| ChannelTables.ChannelAddressesDistinct | src/DS402Channel.cpp:229-243 | no two (channel, object) pairs of the tables share an address |
| ChannelTables.ChannelRefInjective | src/DS402Channel.cpp:229-243 | two channel objects of one channel share a mapping entry only when they are the same object |
| ChannelTables.TrackBitsDisjoint | src/DS402Channel.hpp:63-70 | each tracked object has a non-zero bit below 0x40, and two tracked objects' bits overlap exactly when they are the same object |
| ChannelTables.FeedbackMaskBits | src/DS402Channel.cpp:166-192 | a mode's mask has a tracked object's bit exactly when the object is in the mode's feedback table |
| ChannelTables.FeedbackMaskValue | src/DS402Channel.cpp:166-192 | the numeric mask of each feedback table |
| ChannelTables.FeedbackMaskCovered | src/DS402Channel.cpp:166-192 | an accumulator covers a feedback table's mask exactly when it holds every table object's bit |
| ChannelTables.TableSwitchesAgree | src/DS402Channel.cpp:74-192 | for any feedback table, the i-th mapped entry is at the address of the i-th upload, and an object's mask bit is set exactly when its entry is mapped |
| ChannelTables.SourcesAreFeedback | src/DS402Channel.cpp:130-192 | the object each reported field of a sample is read from is one of the mode's feedback objects, and so is tracked |
| ChannelTables.CompleteByMode | src/DS402Channel.cpp:329-386 | a command is complete exactly when it holds its mode's fields: acceleration, effort and speed for the velocity profiles; speed for the velocity modes; position for the position and analog-position modes; speed, acceleration and position for the relative position profile; effort and raw for the torque profile |
| ChannelTables.ValidateField | src/DS402Channel.cpp:218-227 | a field is returned exactly when it is known; otherwise InvalidJointCommand names the channel |
| ChannelTables.SendTransition | src/DS402Channel.cpp:20-28 | one download to object 6040h of the channel (0x6040 + ch·0x800); its payload, below 0x200, carries the transition's base code, the mode's ramp bits and the halt flag |
| DS402Channel.StateMask | src/DS402Channel.cpp:166-192 | NONE gives 0; a mode without a table entry gives invalid_argument |
| DS402Channel.StateMaskFollowsTable | src/DS402Channel.cpp:166-192 | the mask of a supported mode is that of its feedback table |
| DS402Channel.StateTPDOMapping | src/DS402Channel.cpp:74-100 | there is one mapping exactly for the supported modes; otherwise invalid_argument |
| DS402Channel.StateTPDOMappingFollowsTable | src/DS402Channel.cpp:74-100 | the mapping lists the feedback table at the channel's addresses and fits one frame |
| DS402Channel.StateQueries | src/DS402Channel.cpp:102-128 | queries exist exactly for the supported modes; otherwise invalid_argument |
| DS402Channel.StateQueriesFollowTable | src/DS402Channel.cpp:102-128 | one upload per feedback-table object, in order |
| DS402Channel.FeedbackSwitchesAgree | src/DS402Channel.cpp:74-192 | the TPDO mapping, the queries and the mask name the same feedback objects |
| DS402Channel.GetJointState | src/DS402Channel.cpp:130-164 | NONE gives an all-unknown sample; any other mode without a case gives invalid_argument; a supported mode reports exactly its family's fields: effort is the motor current through currentToTorqueSI, raw is the applied power level divided by 1000, the velocity modes' speed is ActualProfileVelocity or ActualVelocity through rpmToSI, the relative position modes' position is Position through the relative position conversion, and the analog modes read ActualVelocity through the relative speed or position conversion |
| DS402Channel.GetJointStateReadsFeedbackOnly | src/DS402Channel.cpp:130-164 | the sample depends only on the mode's feedback objects |
| DS402Channel.CommandWrites | src/DS402Channel.cpp:329-386 | writes happen exactly when the mode is supported and the command has every required field; a missing field gives InvalidJointCommand whatever the interval |
| DS402Channel.CommandWritesFollowTable | src/DS402Channel.cpp:329-386 | the writes go to the command table's objects in order, and the two profile ramps receive the same value |
| DS402Channel.CommandWritesCarryFields | src/DS402Channel.cpp:329-386 | each write holds the converted value of the field its object is fed from (`CommandField`/`CommandValue`): effort through the torque-to-current conversion into TargetTorque; speed through rpm into the profile and target velocities; acceleration through rpm ×10 into both ramps; the raw field through the current slope into TorqueSlope; position through the relative position conversion into TargetPosition; and TargetVelocity from speed in rpm, from speed through the relative speed conversion in analog velocity, or from position through the relative position conversion in analog position |
| DS402Channel.WritesOfVelocityProfile | src/DS402Channel.cpp:331-343 | the velocity-profile modes write torque, both ramps and target profile velocity |
| DS402Channel.WritesOfRelativePositionProfile | src/DS402Channel.cpp:360-371 | the relative-position-profile mode writes target position, profile velocity and both ramps |
| DS402Channel.WritesOfTorqueProfile | src/DS402Channel.cpp:377-383 | the torque-profile mode writes target torque and torque slope |
| DS402Channel.CommandWritesReadRequiredOnly | src/DS402Channel.cpp:329-386 | the writes depend only on the mode's required fields |
| DS402Channel.AnalogCommandRoundTrip | src/DS402Channel.cpp:350-359 | an analog command made from a relative value writes that relative value back |
| DS402Channel.CommandRPDOMapping | src/DS402Channel.cpp:282-323 | mappings exist exactly for the supported modes: two for the profile modes and one otherwise |
| DS402Channel.CommandRPDOMappingFollowsTable | src/DS402Channel.cpp:282-323 | the mappings carry exactly the command table; a profile mode's second mapping is the ramp pair; every mapping fits one frame |
| DS402Channel.CommandDownloads | src/DS402Channel.cpp:391-429 | downloads exist exactly for the supported modes; otherwise invalid_argument |
| DS402Channel.CommandDownloadsFollowTable | src/DS402Channel.cpp:391-429 | one download of the stored value per command-table object, in order |
| DS402Channel.OperationModeDownload | src/DS402Channel.cpp:194-206 | both analog modes are sent as VELOCITY; every other mode is sent as its own code |
| DirectChannel.StateMask | src/Channel.cpp:165-191 | NONE gives 0; a mode without a table entry gives invalid_argument |
| DirectChannel.StateMaskFollowsTable | src/Channel.cpp:165-191 | the mask of a supported mode is that of its feedback table |
| DirectChannel.StateTPDOMapping | src/Channel.cpp:74-101 | there is one mapping exactly for the supported modes |
| DirectChannel.StateTPDOMappingFollowsTable | src/Channel.cpp:74-101 | the mapping lists the feedback table at the channel's addresses and fits one frame |
| DirectChannel.StateQueries | src/Channel.cpp:103-130 | queries exist exactly for the supported modes |
| DirectChannel.StateQueriesFollowTable | src/Channel.cpp:103-130 | one upload per feedback-table object, in order |
| DirectChannel.FeedbackSwitchesAgree | src/Channel.cpp:74-191 | the TPDO mapping, the queries and the mask name the same feedback objects |
| DirectChannel.TorqueReplacesCurrent | src/Channel.cpp:74-191 | in TORQUE_PROFILE, Torque replaces MotorAmps in the mask and in the mapping |
| DirectChannel.GetJointState | src/Channel.cpp:132-163 | NONE gives an all-unknown sample; any other mode without a case gives invalid_argument; a supported mode reports exactly its family's fields: effort is the motor current through currentToTorqueSI, or in TORQUE_PROFILE the Torque object through torqueToSI; raw is the applied power level divided by 1000; speed is ActualProfileVelocity or ActualVelocity through speedToSI; position is Position through positionToSI |
| DirectChannel.GetJointStateReadsFeedbackOnly | src/Channel.cpp:132-163 | the sample depends only on the mode's feedback objects |
| DirectChannel.CommandWrites | src/Channel.cpp:316-365 | writes happen exactly when the mode is supported and the command has every required field |
| DirectChannel.CommandWritesFollowTable | src/Channel.cpp:316-365 | the writes go to the command table's objects in order, and the two profile ramps receive the same value |
| DirectChannel.CommandWritesCarryFields | src/Channel.cpp:316-365 | each write holds the converted value of the field its object is fed from: effort through torqueFromSI into TargetTorque; speed through speedFromSI into the profile and target velocities; acceleration through accelerationFromSI into both ramps; the raw field through torqueSlopeFromSI into TorqueSlope; position through positionFromSI into TargetPosition |
| DirectChannel.WritesOfVelocityProfile | src/Channel.cpp:318-329 | the velocity-profile modes write the four table objects |
| DirectChannel.WritesOfRelativePositionProfile | src/Channel.cpp:337-347 | the relative-position-profile mode writes the four table objects |
| DirectChannel.WritesOfTorqueProfile | src/Channel.cpp:354-359 | the torque-profile mode writes target torque and torque slope |
| DirectChannel.CommandWritesReadRequiredOnly | src/Channel.cpp:316-365 | the writes depend only on the mode's required fields |
| DirectChannel.CommandRPDOMapping | src/Channel.cpp:271-310 | mappings exist exactly for the supported modes: two for the profile modes and one otherwise |
| DirectChannel.CommandRPDOMappingFollowsTable | src/Channel.cpp:271-310 | the mappings carry exactly the command table; the second is the ramp pair; each fits one frame |
| DirectChannel.CommandDownloads | src/Channel.cpp:368-402 | downloads exist exactly for the supported modes |
| DirectChannel.CommandDownloadsFollowTable | src/Channel.cpp:368-402 | one download of the stored value per command-table object, in order |
| DirectChannel.OperationModeDownload | src/Channel.cpp:193-199 | the mode code is sent unchanged |
| ChannelState.NewChannel | src/DS402Channel.hpp:37-73 | a new channel is in mode NONE with an empty mask, so it reports a complete snapshot |
| ChannelState.JointStateMask | src/DS402Channel.cpp:166-192 | the mask exists exactly for NONE and the supported modes, and is that of the feedback table |
| ChannelState.SupportedMaskNonZero | src/DS402Channel.cpp:166-192 | every supported mode tracks at least one object |
| ChannelState.SetOperationMode | src/DS402Channel.cpp:208-212 | mode and accumulator change even when the mode has no table entry; the mask is recomputed on success and kept on failure |
| ChannelState.UpdatedBitsSpec | src/DS402Channel.cpp:44-62 | an update sets a tracked object's bit exactly when the update names that object's channel address |
| ChannelState.UpdateTracking | src/DS402Channel.cpp:44-64 | only ORs bits in, returns whether the snapshot is now complete, and a complete snapshot stays complete |
| ChannelState.UpdateTrackingBits | src/DS402Channel.cpp:44-64 | after an update, a bit is set exactly when it was set before or the object is named |
| ChannelState.UpdateTrackingBatches | src/DS402Channel.cpp:44-64 | two updates in a row track what their concatenation tracks |
| ChannelState.UpdatedBitsConcat | src/DS402Channel.cpp:44-62 | the bits of two updates together are the union of their bits |
| ChannelState.ResetTracking | src/DS402Channel.cpp:70-72 | the mask is kept, and the snapshot is complete afterwards only for an empty mask |
| ChannelState.HasUpdate | src/DS402Channel.cpp:66-68 | every masked bit has been received; its meaning in feedback objects by HasUpdateMeansAllSeen |
| ChannelState.HasUpdateMeansAllSeen | src/DS402Channel.cpp:66-68 | with its mode's mask, a channel is complete exactly when every feedback object has been seen |
| ChannelState.ModeChangeClearsSnapshot | src/DS402Channel.cpp:208-212 | after a mode change the snapshot is incomplete, except in NONE, where it is always complete |
| ChannelState.ModeChangeThenUpdate | src/DS402Channel.cpp:208-212 | after a mode change, an update completes the snapshot exactly when it names every feedback object of the new mode |
| ChannelState.FreshTrackingThenUpdate | src/DS402Channel.cpp:44-68 | from an empty accumulator under its mode's mask, one update completes the snapshot exactly when it names every feedback object of the mode |
| ChannelState.GetJointState | src/DS402Channel.cpp:130-164 | mode NONE gives an all-unknown sample; a supported mode reports exactly its family's fields, and each reported field is the value stored in the channel's dictionary at its reference source object, through its reference conversion; otherwise there is no sample |
| ChannelState.CompleteSnapshotCoversSample | src/DS402Channel.cpp:44-68 | once the snapshot is complete, the source object of every reported field has its tracking bit set |
| ChannelState.GetJointStateFeedbackOnly | src/DS402Channel.cpp:130-164 | the sample changes only when a feedback object's stored value does |
| ChannelState.ApplyWritesSpec | src/DS402Channel.cpp:251-255 | staged writes create exactly their addresses, keep every other entry, and leave the last write of an address in place |
| ChannelState.CommandWrites | src/DS402Channel.cpp:329-386 | the variant's writes address the mode's command table, and each carries the converted value of its object's field as the variant's conversion table gives it; the error cases are as in the variants |
| ChannelState.SetJointCommand | src/DS402Channel.cpp:329-389 | accepted exactly for a supported mode and a complete command; on success only the stored command and the dictionary change |
| ChannelState.SetJointCommandWrites | src/DS402Channel.cpp:329-389 | a success stores the command; afterwards every command object of the mode holds the converted value of the command field that feeds it, and every other dictionary entry is as it was |
| ChannelState.StateTPDOMapping | src/DS402Channel.cpp:74-100 | the channel's mapping is its feedback table in one frame; invalid_argument otherwise |
| ChannelState.CommandRPDOMapping | src/DS402Channel.cpp:282-323 | the channel's mappings carry the command table in one or two frames; invalid_argument otherwise |
| InputMasks.SetEnable | src/DriverBase.cpp:59-66 | sets or clears bit `index` of the expected mask and no other bit |
| InputMasks.Receive | src/DriverBase.cpp:32-49 | an entry with sub-id s sets bit s-1 of the received mask and no other bit |
| InputMasks.Reset | src/DriverBase.cpp:77-83 | the received mask is emptied and the expected mask kept |
| InputMasks.ReceiveAllBits | src/DriverBase.cpp:32-49 | after several receptions, a bit is set exactly when it was set before or its sub-id arrived |
| InputMasks.HasUpdate | src/DriverBase.cpp:51-57 | the received mask equals the expected one; after a reset by ResetHasUpdate, after receiving by ReceiveEnabledCompletes and StrayInputBlocks |
| InputMasks.ResetHasUpdate | src/DriverBase.cpp:51-53 | right after a reset the tracker is complete exactly when nothing is enabled |
| InputMasks.ReceiveEnabledCompletes | src/DriverBase.cpp:51-53 | receiving exactly the enabled sub-ids after a reset completes the tracker |
| InputMasks.StrayInputBlocks | src/DriverBase.cpp:51-53 | an input that arrives without being enabled keeps the tracker incomplete until the next reset |
| PdoPacking.EnabledFromSpec | src/DriverBase.cpp:208-220 | the loop visits exactly the sub-ids of the set bits, in strictly ascending order |
| PdoPacking.EnabledCount | src/DriverBase.cpp:208-220 | one sub-id per set bit |
| PdoPacking.EnabledSpec | src/DriverBase.cpp:208-220 | the enabled sub-ids are exactly one past the set bits, in ascending order |
| PdoPacking.InputPairsFit | src/DriverBase.cpp:206-226 | every pair of input entries fits one 8-byte frame |
| PdoPacking.PairsFlatten | src/DriverBase.cpp:206-226 | the mappings put together give back the entries, in order |
| PdoPacking.PairsShape | src/DriverBase.cpp:206-226 | there are ceil(k/2) mappings; all have two entries except possibly a single last one |
| PdoPacking.PackedRefs | src/DriverBase.cpp:202-227 | the mappings hold exactly the enabled inputs' entries, each mapping within 8 bytes |
| PdoPacking.PackedLayout | src/DriverBase.cpp:202-227 | the packed mappings number ceil(k/2), hold exactly the enabled inputs' entries, and each fits one frame |
| PdoPacking.EnabledRefs | src/DriverBase.cpp:208-220 | an entry is listed for the enabled sub-ids exactly when it has the input's id and size and its sub-id minus one is a set bit |
| PdoPacking.PackInputs | src/DriverBase.cpp:202-227 | the loop emits the pairs of enabled entries, returns start + ceil(k/2), covers exactly the enabled inputs, and every mapping fits |
| DriverState.NewDriver | src/DriverBase.hpp:35-36 | a new driver has every input tracker complete and an empty RPDO range |
| DriverState.SetInputEnable | src/DriverBase.cpp:59-75 | changes only bit `index` of one family's expected mask |
| DriverState.ResetInputTracking | src/DriverBase.cpp:77-101 | empties only one family's received mask |
| DriverState.ReceiveEntriesBits | src/DriverBase.cpp:32-49 | an input bit is set after the entries exactly when it was set before or its family's entry with that sub-id arrived |
| DriverState.Process | src/DriverBase.cpp:32-49 | the channels' tracking and then the input trackers take the update; what changes is stated by ProcessSpec |
| DriverState.ProcessSpec | src/DriverBase.cpp:32-49 | process updates every channel with the update and the input trackers with their entries, and changes nothing else |
| DriverState.QueryInput | src/DriverBase.cpp:103-113 | an upload of input `index` at sub-id `index + 1` of its family; the reply's effect by QueryReplyTracked |
| DriverState.HasInputUpdate | src/DriverBase.cpp:51-57 | the family's tracker is complete; stated by EnabledInputsComplete and StrayInputKeepsIncomplete |
| DriverState.QueryReplyTracked | src/DriverBase.cpp:103-113 | the reply to an input query sets exactly that input's bit |
| DriverState.EnabledInputsComplete | src/DriverBase.cpp:32-57 | after a reset, receiving every enabled input and nothing else of the family completes its tracker |
| DriverState.StrayInputKeepsIncomplete | src/DriverBase.cpp:51-57 | an input that is not enabled keeps its family incomplete through later updates |
| DriverState.StateMappingsSpec | src/DriverBase.cpp:156-171 | mappings are declared channel by channel until the first channel without a table entry |
| DriverState.SetupJointStateTPDOs | src/DriverBase.cpp:156-171 | succeeds exactly when every channel's mode is supported, declaring one mapping per channel and returning start plus their count |
| DriverState.CommandMappingsSpec | src/DriverBase.cpp:173-190 | succeeds exactly when every channel's mode is supported; then it declares every channel's mappings in order |
| DriverState.CommandMappingsStopAt | src/DriverBase.cpp:173-190 | at the first unsupported channel, exactly the earlier channels' mappings have been declared |
| DriverState.SetupJointCommandRPDOs | src/DriverBase.cpp:173-190 | returns start plus the mapping count and records that range; on failure the range is unchanged |
| DriverState.GetRPDOMessages | src/DriverBase.cpp:327-333 | the recorded range is walked one index at a time, in order |
| DriverState.RPDORangeOrdered | src/DriverBase.cpp:173-190 | a recorded range never ends before it begins |
| DriverState.SetupAnalogTPDOs | src/DriverBase.cpp:229-240 | raw inputs are packed, then converted ones; the count is ceil(a/2) + ceil(c/2) and the mappings cover exactly the enabled inputs |
| DriverState.SetupEncoderTPDOs | src/DriverBase.cpp:242-265 | enabled encoder counters are packed two per mapping, returning start + ceil(k/2) |
| DriverState.AnalogLayoutRefs | src/DriverBase.cpp:229-240 | the analog mappings hold exactly the enabled raw and converted inputs' entries |
| DriverState.AnalogTPDOsComplete | src/DriverBase.cpp:229-240 | receiving exactly what the analog mappings carry, after resets, completes both analog trackers |
| DriverState.StatusTPDOs | src/DriverBase.cpp:267-294 | status setup always declares two mappings and returns start + 2 |
| DriverState.StatusTPDOsBytes | src/DriverBase.cpp:267-294 | the first mapping is 8 bytes and the second 3 + n; both fit exactly when there are at most 5 channels |
| DriverState.StatusTPDOsSensors | src/DriverBase.cpp:281-285 | the second mapping holds one temperature sensor per channel, at sub-ids 2, 3, … |
| ChannelState.GetJointCommand | src/DS402Channel.cpp:325-327 | the last command accepted; stated by SetJointCommandWrites |
| JointCommands.Commands | src/DriverBase.cpp:314-325 | one command per channel that is not ignored |
| JointCommands.GetDriverJointCommand | src/DriverBase.cpp:314-325 | getJointCommand has one element per channel that is not ignored |
| JointCommands.ChannelCommand | src/DriverBase.cpp:296-311 | the channel's setJointCommand as the driver's loop calls it; its verdicts by ChannelCommandOutcome |
| JointCommands.ChannelCommandOutcome | src/DS402Channel.cpp:329-386 | accepted exactly for a supported mode, a complete command and defined conversions; an unsupported mode gives InvalidArgument, an incomplete command InvalidJointCommand naming the channel whatever the interval, and only a complete command meeting a zero-width interval gives UnknownState |
| JointCommands.ChannelCommandStores | src/DS402Channel.cpp:388 | an accepted channel command is stored, and only the command and the dictionary change |
| JointCommands.Distribute | src/DriverBase.cpp:296-308 | the loop keeps the channel count, and on success it has consumed one element per channel that is not ignored |
| JointCommands.DistributeFrame | src/DriverBase.cpp:296-308 | the loop changes only commands and dictionaries, leaves ignored channels alone, and keeps the set of ignored channels |
| JointCommands.DistributeAssigns | src/DriverBase.cpp:296-308 | with enough acceptable elements, the k-th channel that is not ignored receives element k |
| JointCommands.DistributeAccepted | src/DriverBase.cpp:296-308 | with enough elements that every channel accepts, the loop succeeds |
| JointCommands.DistributeSucceeded | src/DriverBase.cpp:296-308 | a successful loop gave every channel that is not ignored its element, in order |
| JointCommands.DistributeTooFew | src/DriverBase.cpp:296-304 | with too few elements, earlier channels are set, later ones keep their command, and "too few elements" is reported |
| JointCommands.SetDriverJointCommand | src/DriverBase.cpp:296-312 | only the channels change, and success means exactly as many elements as channels that are not ignored; nothing is asked of the channels |
| JointCommands.SetDriverJointCommandFrame | src/DriverBase.cpp:296-312 | whatever the outcome, only commands and dictionaries change, and ignored channels are untouched |
| JointCommands.SetThenGet | src/DriverBase.cpp:296-325 | after a success getJointCommand returns the elements, whatever the channels; with defined conversions and acceptable elements, success is exactly a matching count |
| JointCommands.TooManyElements | src/DriverBase.cpp:309-311 | too many elements: every channel is set, then "too many elements" is reported |
| JointCommands.TooFewElements | src/DriverBase.cpp:302-304 | too few elements: the first channels are set, the rest keep their command, and "too few elements" is reported |
| SerialCommands.ExtractPacket | src/SerialCommandWriter.cpp:13-37 | with no pending command, the whole buffer is dropped; a mismatched echo drops one byte; a matching partial echo waits; a full echo gives its length when a carriage return and `+` or `-` follow, and -1 otherwise; a positive result never exceeds the buffer |
| SerialCommands.ExecuteCommand | src/SerialCommandWriter.cpp:74-79 | a reply is accepted exactly when its last byte is `+`; otherwise CommandFailed names the line |
| SerialCommands.FramedReplyVerdict | src/SerialCommandWriter.cpp:74-79 | a framed reply is accepted on `+` and a failure of its command on `-` |
| SerialCommands.CommentStart | src/SerialCommandWriter.cpp:95 | the index of the first `#`, or the length of a line that has none |
| SerialCommands.TrimmedLength | src/SerialCommandWriter.cpp:96 | the length without trailing spaces |
| SerialCommands.NormalizeCommand | src/SerialCommandWriter.cpp:95-104 | a command line is sent as a non-empty prefix that keeps its first character, holds no `#`, ends with no space, and drops only spaces before the comment |
| SerialCommands.NormalizeIdempotent | src/SerialCommandWriter.cpp:95-104 | a sent command, read back as a line, is sent unchanged |
| SerialCommands.Kept | src/SerialCommandWriter.cpp:85-87 | empty lines and comment lines are passed over, and every other line of the file is kept |
| SerialCommands.ExecuteCommands | src/SerialCommandWriter.cpp:82-106 | the file upload; its outcome by ExecuteCommandsOutcome, UploadSucceeds and UploadRejectsNonCommand |
| SerialCommands.ExecuteCommandsOutcome | src/SerialCommandWriter.cpp:82-106 | the upload matches a reference outcome: the kept lines' commands are sent in order up to the first line that is not a command or the first rejected command, which decides the error |
| SerialCommands.UploadSucceeds | src/SerialCommandWriter.cpp:82-106 | an upload succeeds exactly when every kept line is a command and accepted; it then sent them all |
| SerialCommands.UploadRejectsNonCommand | src/SerialCommandWriter.cpp:88-93 | the first kept line that is not a command raises invalid_argument naming it, after the earlier commands were sent |

## Left out

- The CANopen transport is left out: SDO and PDO frame encoding, `configurePDO`, `declare*Mapping`, `getRPDOMessage` and the master's object store. An update is a sequence of (id, sub-id) addresses. A query is an upload or download record. PDO setup returns the declared mappings and the next index instead of messages. `GetRPDOMessages` returns the indices it would replay.
- The float conversions are not modelled numerically: rpm, torque constant, current slope, the ×10 acceleration scaling, the truncating int16 and uint32 casts, and `relativeTorqueFromSI`. They are opaque tags applied to the value they convert. Which field feeds which object, and through which tag, is stated by the `ChannelTables.CommandField` and `ChannelTables.CommandValue` tables. The relative conversions are exact over reals.
- The two-argument `Factors::positionToSI` and `absoluteEncoderPositionToSI` (src/Factors.cpp:30-46) are left out. Their encoder factor is not declared in src/Factors.hpp. The one-argument `positionToSI` that src/Channel.cpp:154 calls is declared nowhere; the direct channel applies it as the opaque `PositionToSI` tag.
- `DS402Channel.CommandWrites` requires the relative interval its mode converts into to have non-zero width, for complete commands only. The source divides by (max - min) once every required field has been validated; its float division by zero is left out. An incomplete command is rejected before the division, whatever the interval.
- `ChannelState.CommandWrites` and `ChannelState.SetJointCommand` carry the same requirement for DS402 channels (`CommandDefined`).
- `Factors.FromSI` requires max != min for the same reason.
- `ChannelState.Read` gives 0 for an object never stored. In the source, the master's store decides.
- `ChannelState.GetJointState` is stated for any contents of the channel's dictionary. `process` is modelled on addresses only, so no modelled operation stores a received feedback value; which values the controller sends is outside the model.
- `Factors.Clamp1000` and `Factors.FromSI` work over reals. The source rounds a float and casts it to int32; a non-finite or out-of-range float makes that cast undefined in C++, which the model does not represent.
- `DirectChannel`: the direct channel's OPERATION_MODE_* codes are not declared in any file of this model. They are taken to be the DS402 codes and the DS402 mode set, so `DirectChannel.OperationModeDownload` sends DS402 codes.
- `DirectChannel` addressing uses `CHANNEL_OBJECT_ID_OFFSET`, 0x800, which only src/DS402Channel.hpp:31 declares. src/Channel.cpp:13 uses the same name, and the model gives it the same value.
- `DirectChannel` conversions: speedToSI, positionToSI, torqueToSI, speedFromSI, positionFromSI, torqueFromSI, accelerationFromSI and torqueSlopeFromSI are not declared in src/Factors.hpp. They are opaque tags of `Units`.
- `getControllerStatus` and `queryControllerStatus` (src/DriverBase.cpp:115-150) are left out. They use float voltage scaling and a temperature type from a library outside this model.
- The driver-level `queryJointCommandDownload` (src/DriverBase.cpp:335-342) is left out. It concatenates the channels' downloads, which are modelled per channel.
- `sendCommand`, `readPacket`, `writePacket`, timeouts, the log stream and src/MainCfg.cpp are left out. A reply becomes the `device` parameter of `SerialCommands.ExecuteCommands`.
- Where `char` is signed, the source compares command bytes of 0x80 and above as negative, so they never match a buffer byte. The model compares characters directly.
- src/Driver.cpp, src/DS402Driver.cpp and src/Driver.hpp are not part of this model: their header and source disagree. The channel list is a parameter of the driver.
- The 32-bit masks are sets of bit positions 0-31. A shift by an index outside 0-31 is undefined in the source; the model leaves the tracker unchanged.
- The ids and sizes of the AnalogInput, ConvertedAnalogInput and EncoderCounter objects are not in the shown headers. The driver takes them as a configuration record.
- `DriverState.AnalogTPDOsComplete` requires that the converted-input id be the analog-input id plus one. That is where the source's object offset of 1 puts the converted inputs.
- `DriverState.GetRPDOMessages` requires a range that does not end before it begins. The source would walk a reversed range until its int wraps around; every range the driver records is ordered (`RPDORangeOrdered`).
- `isIgnored` is declared but not defined in the shown files. It is a per-channel flag set when the channel is made.
- `JointCommands.ChannelCommand` returns `UnknownState` for a complete command on a channel whose conversions are not defined; the source would divide by zero there. An incomplete command gets `InvalidJointCommand` first, as in the source. The lemmas about accepted commands (`TooManyElements`, `TooFewElements`, and the count part of `SetThenGet`) require defined conversions on the channels that are not ignored only (`ActiveCommandDefined`); `SetDriverJointCommand` itself requires nothing.
- `DriverState.StatusTPDOsBytes` states when the status mappings fit one frame. The source does not check this: with more than five channels its second mapping exceeds 8 bytes.
- The serial reply parameter requires non-empty replies. The source indexes the last byte of whatever `readPacket` returned, and `readPacket` returns only positive lengths.
