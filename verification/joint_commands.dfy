/** The driver-level joint command: `setJointCommand` distributes the command
    elements over the channels that are not ignored, in channel order, and
    `getJointCommand` collects them back. */
module JointCommands {
  import opened Results
  import opened ChannelTables
  import opened ChannelState
  import DriverState

  /** The channels taking part in the joint command. */
  function ActiveCount(chs: seq<Channel>): nat {
    if |chs| == 0 then 0 else (if chs[0].ignored then 0 else 1) + ActiveCount(chs[1..])
  }

  /** The stored commands of the channels taking part, in channel order. */
  function Commands(chs: seq<Channel>): (r: seq<JointState>)
    ensures |r| == ActiveCount(chs)
  {
    if |chs| == 0 then []
    else (if chs[0].ignored then [] else [GetJointCommand(chs[0])]) + Commands(chs[1..])
  }

  /** `getJointCommand` of the driver. */
  function GetDriverJointCommand(d: DriverState.Driver): (r: seq<JointState>)
    ensures |r| == ActiveCount(d.channels)
  {
    Commands(d.channels)
  }

  /** The channels taking part have defined unit conversions; ignored
      channels are never converted, so nothing is asked of them. */
  predicate ActiveCommandDefined(chs: seq<Channel>) {
    forall k :: 0 <= k < |chs| && !chs[k].ignored ==> ConversionsDefined(chs[k])
  }

  /** A channel's `setJointCommand` as the driver's loop calls it. The loop
      is stated over any such step, so that its laws do not depend on the
      command tables. */
  type ChannelStep = (Channel, JointState) -> Result<Channel>

  /** The step of the model: `ChannelState.SetJointCommand`. An incomplete
      command is rejected with `InvalidJointCommand` before any conversion;
      a complete one meeting a zero-width relative interval, where the source
      divides by zero, reports `UnknownState`. */
  function ChannelCommand(): ChannelStep {
    (c: Channel, e: JointState) => if CommandDefined(c, e) then SetJointCommand(c, e) else Err(UnknownState)
  }

  /** The step's verdict: an unsupported mode gives InvalidArgument, an
      incomplete command InvalidJointCommand naming the channel, whatever the
      interval, and only a complete command meeting undefined conversions
      gives `UnknownState`. */
  lemma ChannelCommandOutcome(c: Channel, e: JointState)
    ensures ChannelCommand()(c, e).Ok? <==>
              Supported(c.variant, c.mode) && Complete(e, c.mode) && ConversionsDefined(c)
    ensures !Supported(c.variant, c.mode) ==>
              ChannelCommand()(c, e).Err? && ChannelCommand()(c, e).error.InvalidArgument?
    ensures Supported(c.variant, c.mode) && !Complete(e, c.mode) ==>
              ChannelCommand()(c, e) == Err(InvalidJointCommand(c.index))
    ensures ChannelCommand()(c, e) == Err(UnknownState) <==> Complete(e, c.mode) && !ConversionsDefined(c)
  {
  }

  /** A channel as `setJointCommand` may leave it: only the stored command
      and the dictionary can differ. */
  ghost predicate SameSetup(a: Channel, b: Channel) {
    b == a.(command := b.command, store := b.store)
  }

  /** What the loop needs of a step: on success it stores the element as the
      command and changes nothing but the command and the dictionary. */
  ghost predicate StoresCommand(step: ChannelStep) {
    forall c, e :: step(c, e).Ok? ==>
      SameSetup(c, step(c, e).value) && step(c, e).value.command == e
  }

  /** The channel step stores the command it accepts. */
  lemma ChannelCommandStores()
    ensures StoresCommand(ChannelCommand())
  {
    forall c: Channel, e: JointState | ChannelCommand()(c, e).Ok?
      ensures SameSetup(c, ChannelCommand()(c, e).value) && ChannelCommand()(c, e).value.command == e
    {
      var r := SetJointCommand(c, e);
    }
  }

  /** The loop of `setJointCommand` from element `i` on: ignored channels are
      skipped; a channel met with no element left stops the loop with "too
      few elements"; a channel rejecting its element stops it with the
      channel's error. Channels before the stop keep their new command.
      Returns the channels and the index of the next unused element. */
  function Distribute(step: ChannelStep, chs: seq<Channel>, elems: seq<JointState>, i: nat): (r: (seq<Channel>, Result<nat>))
    requires i <= |elems|
    ensures |r.0| == |chs|
    ensures r.1.Ok? ==> r.1.value == i + ActiveCount(chs) <= |elems|
    decreases |chs|
  {
    if |chs| == 0 then (chs, Ok(i))
    else if chs[0].ignored then
      var rest := Distribute(step, chs[1..], elems, i);
      ([chs[0]] + rest.0, rest.1)
    else if |elems| <= i then
      (chs, Err(InvalidArgument("too few elements in joint command")))
    else match step(chs[0], elems[i])
      case Err(e) => (chs, Err(e))
      case Ok(c) =>
        var rest := Distribute(step, chs[1..], elems, i + 1);
        ([c] + rest.0, rest.1)
  }

  /** The loop changes only the stored commands and dictionaries, and leaves
      ignored channels alone. */
  lemma {:induction false} DistributeFrame(step: ChannelStep, chs: seq<Channel>, elems: seq<JointState>, i: nat)
    requires i <= |elems| && StoresCommand(step)
    ensures forall k :: 0 <= k < |chs| ==> SameSetup(chs[k], Distribute(step, chs, elems, i).0[k])
    ensures forall k :: 0 <= k < |chs| && chs[k].ignored ==> Distribute(step, chs, elems, i).0[k] == chs[k]
    ensures ActiveCount(Distribute(step, chs, elems, i).0) == ActiveCount(chs)
    decreases |chs|
  {
    if |chs| > 0 {
      if chs[0].ignored || (i < |elems| && step(chs[0], elems[i]).Ok?) {
        var next := if chs[0].ignored then i else i + 1;
        DistributeFrame(step, chs[1..], elems, next);
        var r := Distribute(step, chs, elems, i).0;
        assert r[1..] == Distribute(step, chs[1..], elems, next).0;
        assert r[0].ignored == chs[0].ignored;
        forall k | 1 <= k < |chs|
          ensures chs[k] == chs[1..][k - 1] && r[k] == r[1..][k - 1]
        {
        }
      }
    }
  }

  /** Every channel taking part accepts every element. */
  ghost predicate Accepts(step: ChannelStep, chs: seq<Channel>, elems: seq<JointState>) {
    forall k, e :: 0 <= k < |chs| && !chs[k].ignored && e in elems ==> step(chs[k], e).Ok?
  }

  lemma AcceptsTail(step: ChannelStep, chs: seq<Channel>, elems: seq<JointState>)
    requires |chs| > 0 && Accepts(step, chs, elems)
    ensures Accepts(step, chs[1..], elems)
  {
    forall k, e | 0 <= k < |chs| - 1 && !chs[1..][k].ignored && e in elems
      ensures step(chs[1..][k], e).Ok?
    {
      assert chs[1..][k] == chs[k + 1];
    }
  }

  /** With enough elements, all accepted, every channel taking part gets its
      element in order, and the loop ends Ok right after the last one. */
  lemma DistributeAssigns(step: ChannelStep, chs: seq<Channel>, elems: seq<JointState>, i: nat)
    requires StoresCommand(step) && Accepts(step, chs, elems)
    requires i + ActiveCount(chs) <= |elems|
    ensures Distribute(step, chs, elems, i).1 == Ok(i + ActiveCount(chs))
    ensures Commands(Distribute(step, chs, elems, i).0) == elems[i..i + ActiveCount(chs)]
  {
    DistributeAccepted(step, chs, elems, i);
    DistributeSucceeded(step, chs, elems, i);
  }

  /** With enough elements, all accepted, the loop runs to its end. */
  lemma {:induction false} DistributeAccepted(step: ChannelStep, chs: seq<Channel>, elems: seq<JointState>, i: nat)
    requires Accepts(step, chs, elems)
    requires i + ActiveCount(chs) <= |elems|
    ensures Distribute(step, chs, elems, i).1.Ok?
    decreases |chs|
  {
    if |chs| > 0 {
      AcceptsTail(step, chs, elems);
      if chs[0].ignored {
        DistributeAccepted(step, chs[1..], elems, i);
      } else {
        assert elems[i] in elems;
        DistributeAccepted(step, chs[1..], elems, i + 1);
      }
    }
  }

  /** A successful loop gave every channel taking part its element. */
  lemma {:induction false} DistributeSucceeded(step: ChannelStep, chs: seq<Channel>, elems: seq<JointState>, i: nat)
    requires StoresCommand(step) && i <= |elems|
    requires Distribute(step, chs, elems, i).1.Ok?
    ensures Commands(Distribute(step, chs, elems, i).0) == elems[i..i + ActiveCount(chs)]
    decreases |chs|
  {
    if |chs| > 0 {
      var r := Distribute(step, chs, elems, i);
      if chs[0].ignored {
        DistributeSucceeded(step, chs[1..], elems, i);
        assert r.0[1..] == Distribute(step, chs[1..], elems, i).0;
      } else {
        DistributeSucceeded(step, chs[1..], elems, i + 1);
        assert r.0[1..] == Distribute(step, chs[1..], elems, i + 1).0;
        assert elems[i..i + ActiveCount(chs)] == [elems[i]] + elems[i + 1..i + ActiveCount(chs)];
      }
    }
  }

  /** With too few elements, all accepted, the channels taking part up to the
      last element get theirs, the loop stops with "too few elements", and
      the remaining channels keep their previous command. */
  lemma {:induction false} DistributeTooFew(step: ChannelStep, chs: seq<Channel>, elems: seq<JointState>, i: nat)
    requires StoresCommand(step) && Accepts(step, chs, elems)
    requires i <= |elems| < i + ActiveCount(chs)
    ensures |Commands(Distribute(step, chs, elems, i).0)| == ActiveCount(chs)
    ensures Distribute(step, chs, elems, i).1 == Err(InvalidArgument("too few elements in joint command"))
    ensures Commands(Distribute(step, chs, elems, i).0)[..|elems| - i] == elems[i..]
    ensures Commands(Distribute(step, chs, elems, i).0)[|elems| - i..] == Commands(chs)[|elems| - i..]
    decreases |chs|, 1
  {
    if chs[0].ignored {
      TooFewSkips(step, chs, elems, i);
    } else if |elems| > i {
      TooFewTakes(step, chs, elems, i);
    } else {
      DistributeFrame(step, chs, elems, i);
    }
  }

  /** The outcome DistributeTooFew states, as one predicate for its steps. */
  ghost predicate TooFewOutcome(step: ChannelStep, chs: seq<Channel>, elems: seq<JointState>, i: nat)
    requires i <= |elems| < i + ActiveCount(chs)
  {
    var r := Distribute(step, chs, elems, i);
    |Commands(r.0)| == ActiveCount(chs)
    && r.1 == Err(InvalidArgument("too few elements in joint command"))
    && Commands(r.0)[..|elems| - i] == elems[i..]
    && Commands(r.0)[|elems| - i..] == Commands(chs)[|elems| - i..]
  }

  /** The step of DistributeTooFew past an ignored channel. */
  lemma {:induction false} TooFewSkips(step: ChannelStep, chs: seq<Channel>, elems: seq<JointState>, i: nat)
    requires StoresCommand(step) && Accepts(step, chs, elems)
    requires i <= |elems| < i + ActiveCount(chs)
    requires |chs| > 0 && chs[0].ignored
    ensures TooFewOutcome(step, chs, elems, i)
    decreases |chs|, 0
  {
    AcceptsTail(step, chs, elems);
    DistributeTooFew(step, chs[1..], elems, i);
    var r := Distribute(step, chs, elems, i);
    var rest := Distribute(step, chs[1..], elems, i).0;
    assert r.0[1..] == rest;
    assert Commands(r.0) == Commands(rest);
  }

  /** The step of DistributeTooFew that hands element `i` to a channel. */
  lemma {:induction false} TooFewTakes(step: ChannelStep, chs: seq<Channel>, elems: seq<JointState>, i: nat)
    requires StoresCommand(step) && Accepts(step, chs, elems)
    requires i < |elems| < i + ActiveCount(chs)
    requires |chs| > 0 && !chs[0].ignored
    ensures TooFewOutcome(step, chs, elems, i)
    decreases |chs|, 0
  {
    AcceptsTail(step, chs, elems);
    assert elems[i] in elems;
    DistributeTooFew(step, chs[1..], elems, i + 1);
    var r := Distribute(step, chs, elems, i);
    var rest := Distribute(step, chs[1..], elems, i + 1).0;
    assert r.0[1..] == rest;
    assert Commands(r.0) == [elems[i]] + Commands(rest);
    assert Commands(chs) == [GetJointCommand(chs[0])] + Commands(chs[1..]);
    ConsSlices(elems[i], GetJointCommand(chs[0]), Commands(rest), Commands(chs[1..]), elems[i..], |elems| - i - 1);
  }

  /** Putting one element in front of two lists that agree after `m`, and of
      a list whose first `m` elements are given. */
  lemma ConsSlices<T>(x: T, y: T, a: seq<T>, b: seq<T>, e: seq<T>, m: nat)
    requires m <= |a| && m <= |b| && |e| == m + 1 && e[0] == x
    requires a[..m] == e[1..] && a[m..] == b[m..]
    ensures ([x] + a)[..m + 1] == e
    ensures ([x] + a)[m + 1..] == ([y] + b)[m + 1..]
  {
    assert ([x] + a)[m + 1..] == a[m..];
    assert ([y] + b)[m + 1..] == b[m..];
  }

  /** The outcome of `setJointCommand`: the driver is updated even when an
      exception is reported. */
  datatype DriverOutcome = DriverOutcome(driver: DriverState.Driver, status: Result<()>)

  /** `setJointCommand` of the driver: the loop above from element 0, then
      "too many elements" when elements are left over. */
  function SetDriverJointCommand(d: DriverState.Driver, elems: seq<JointState>): (r: DriverOutcome)
    ensures r.driver == d.(channels := r.driver.channels)
    ensures |r.driver.channels| == |d.channels|
    ensures r.status.Ok? ==> |elems| == ActiveCount(d.channels)
  {
    var dist := Distribute(ChannelCommand(), d.channels, elems, 0);
    var d' := d.(channels := dist.0);
    match dist.1
    case Err(e) => DriverOutcome(d', Err(e))
    case Ok(n) =>
      if n != |elems| then DriverOutcome(d', Err(InvalidArgument("too many elements in joint command")))
      else DriverOutcome(d', Ok(()))
  }

  /** `setJointCommand` changes only the stored commands and dictionaries of
      the channels taking part, whatever its outcome. */
  lemma SetDriverJointCommandFrame(d: DriverState.Driver, elems: seq<JointState>)
    ensures forall k :: 0 <= k < |d.channels| ==>
              SameSetup(d.channels[k], SetDriverJointCommand(d, elems).driver.channels[k])
    ensures forall k :: 0 <= k < |d.channels| && d.channels[k].ignored ==>
              SetDriverJointCommand(d, elems).driver.channels[k] == d.channels[k]
  {
    ChannelCommandStores();
    DistributeFrame(ChannelCommand(), d.channels, elems, 0);
  }

  /** Every channel taking part accepts every element: its mode has a table
      entry and each element has the fields that mode needs. */
  predicate Acceptable(chs: seq<Channel>, elems: seq<JointState>) {
    forall k, e :: 0 <= k < |chs| && !chs[k].ignored && e in elems ==>
      Supported(chs[k].variant, chs[k].mode) && Complete(e, chs[k].mode)
  }

  lemma AcceptableAccepts(chs: seq<Channel>, elems: seq<JointState>)
    requires ActiveCommandDefined(chs) && Acceptable(chs, elems)
    ensures Accepts(ChannelCommand(), chs, elems)
  {
  }

  /** Round trip: after a successful `setJointCommand`, `getJointCommand`
      returns the elements; with acceptable elements, success is exactly a
      matching count. */
  lemma SetThenGet(d: DriverState.Driver, elems: seq<JointState>)
    ensures SetDriverJointCommand(d, elems).status.Ok? ==>
              GetDriverJointCommand(SetDriverJointCommand(d, elems).driver) == elems
    ensures ActiveCommandDefined(d.channels) && Acceptable(d.channels, elems) ==>
              (SetDriverJointCommand(d, elems).status.Ok? <==> |elems| == ActiveCount(d.channels))
  {
    ChannelCommandStores();
    if SetDriverJointCommand(d, elems).status.Ok? {
      DistributeSucceeded(ChannelCommand(), d.channels, elems, 0);
      assert elems[0..|elems|] == elems;
    }
    if ActiveCommandDefined(d.channels) && Acceptable(d.channels, elems) && |elems| == ActiveCount(d.channels) {
      AcceptableAccepts(d.channels, elems);
      DistributeAssigns(ChannelCommand(), d.channels, elems, 0);
    }
  }

  /** Too many acceptable elements: every channel taking part is set, then
      "too many elements" is reported. */
  lemma TooManyElements(d: DriverState.Driver, elems: seq<JointState>)
    requires ActiveCommandDefined(d.channels) && Acceptable(d.channels, elems)
    requires |elems| > ActiveCount(d.channels)
    ensures SetDriverJointCommand(d, elems).status == Err(InvalidArgument("too many elements in joint command"))
    ensures GetDriverJointCommand(SetDriverJointCommand(d, elems).driver) == elems[..ActiveCount(d.channels)]
  {
    ChannelCommandStores();
    AcceptableAccepts(d.channels, elems);
    DistributeAssigns(ChannelCommand(), d.channels, elems, 0);
  }

  /** Too few acceptable elements: the first channels taking part are set,
      the rest keep their command, and "too few elements" is reported. */
  lemma TooFewElements(d: DriverState.Driver, elems: seq<JointState>)
    requires ActiveCommandDefined(d.channels) && Acceptable(d.channels, elems)
    requires |elems| < ActiveCount(d.channels)
    ensures |GetDriverJointCommand(SetDriverJointCommand(d, elems).driver)| == ActiveCount(d.channels)
    ensures SetDriverJointCommand(d, elems).status == Err(InvalidArgument("too few elements in joint command"))
    ensures GetDriverJointCommand(SetDriverJointCommand(d, elems).driver)[..|elems|] == elems
    ensures GetDriverJointCommand(SetDriverJointCommand(d, elems).driver)[|elems|..]
         == GetDriverJointCommand(d)[|elems|..]
  {
    ChannelCommandStores();
    AcceptableAccepts(d.channels, elems);
    DistributeFrame(ChannelCommand(), d.channels, elems, 0);
    DistributeTooFew(ChannelCommand(), d.channels, elems, 0);
    assert elems[0..] == elems;
  }
}
