/** Properties of the INS translator over single steps and over whole runs of
    messages: the rate is resolved at most once, caches hold the latest
    message of their kind, passthroughs are republished unchanged, and the
    "not available" sentinel marks exactly the outputs without motion data. */
module InsProperties {
  import opened InsMessages
  import opened InsHandler

  /** CORRIMU and IMURATECORRIMU are handled identically. */
  lemma CorrImuVariantsAgree(cfg: Config, s: State, c: CorrImuData)
    ensures Step(cfg, s, CorrImu(c)) == Step(cfg, s, ImuRateCorrImu(c))
    ensures Step(cfg, s, CorrImu(c)).state == s.(corrimu := Some(c))
  {
  }

  /** INSPVA only refreshes its cache: no output and no other state change. */
  lemma InspvaIsCacheOnly(cfg: Config, s: State, p: InsPvaData)
    ensures Step(cfg, s, Inspva(p)) == StepResult(s.(inspva := Some(p)), [])
  {
  }

  /** An `Imu` output produced by a step is composed from the cached INSPVA
      and the IMU sample that triggered it; since that sample is always
      cached by then, the sentinel appears exactly when the rate is not
      positive. */
  lemma StepImuOutput(cfg: Config, s: State, m: Message)
    ensures forall o :: o in Step(cfg, s, m).outputs && o.ImuOut? ==>
      && (m.CorrImu? || m.ImuRateCorrImu?)
      && s.inspva != None
      && o.imu == ComposeImu(s.inspva.value, s.insstdev, Some(m.corr), s.imuRate)
      && (o.imu.angularVelocityCovariance[0] == DataNotAvailable <==> s.imuRate <= 0)
      && (o.imu.linearAccelerationCovariance[0] == DataNotAvailable <==> s.imuRate <= 0)
  {
  }

  /** A consumer can tell from the output alone whether motion data is
      present: the sentinel is written exactly when the IMU sample or a
      positive rate is missing. */
  lemma SentinelIffMotionUnavailable(pva: InsPvaData, stdev: Option<InsStdevData>, corr: Option<CorrImuData>, rate: Int32)
    ensures ComposeImu(pva, stdev, corr, rate).angularVelocityCovariance[0] == DataNotAvailable
            <==> !(corr != None && rate > 0)
    ensures ComposeImu(pva, stdev, corr, rate).linearAccelerationCovariance[0] == DataNotAvailable
            <==> !(corr != None && rate > 0)
  {
  }

  /** Undoes the rate scaling and the axis remap of the motion fields. */
  function RecoverCorrImu(imu: Imu, rate: Int32): (c: CorrImuData)
    requires rate > 0
  {
    var r := rate as real;
    CorrImuData(
      imu.angularVelocity.x / r, imu.angularVelocity.y / r, imu.angularVelocity.z / r,
      imu.linearAcceleration.x / r, imu.linearAcceleration.y / r, imu.linearAcceleration.z / r)
  }

  /** With a positive rate the motion fields carry the whole IMU sample: the
      sample is recovered from the output by undoing scaling and remap. */
  lemma MotionRecoversSample(pva: InsPvaData, stdev: Option<InsStdevData>, c: CorrImuData, rate: Int32)
    requires rate > 0
    ensures RecoverCorrImu(ComposeImu(pva, stdev, Some(c), rate), rate) == c
  {
  }

  /** Handling `a + [m]` ends in the state that handling `m` after `a` leaves. */
  lemma {:induction false} RunSnocState(cfg: Config, s: State, a: seq<Message>, m: Message)
    ensures Run(cfg, s, a + [m]).state == Step(cfg, Run(cfg, s, a).state, m).state
    decreases |a|
  {
    if |a| == 0 {
      assert a + [m] == [m];
    } else {
      var next := Step(cfg, s, a[0]).state;
      assert (a + [m])[0] == a[0];
      assert (a + [m])[1..] == a[1..] + [m];
      assert Run(cfg, s, a + [m]).state == Run(cfg, next, a[1..] + [m]).state;
      assert Run(cfg, s, a).state == Run(cfg, next, a[1..]).state;
      RunSnocState(cfg, next, a[1..], m);
    }
  }

  /** The number of steps of a run that change the IMU rate. */
  function RateChanges(cfg: Config, s: State, msgs: seq<Message>): (n: nat)
    decreases |msgs|
  {
    if |msgs| == 0 then 0
    else
      var next := Step(cfg, s, msgs[0]).state;
      (if next.imuRate != s.imuRate then 1 else 0) + RateChanges(cfg, next, msgs[1..])
  }

  /** Once the rate is non-zero, no later message changes it. */
  lemma {:induction false} RateStableOnceKnown(cfg: Config, s: State, msgs: seq<Message>)
    requires s.imuRate != 0
    ensures Run(cfg, s, msgs).state.imuRate == s.imuRate
    ensures RateChanges(cfg, s, msgs) == 0
    decreases |msgs|
  {
    if |msgs| > 0 {
      RateStableOnceKnown(cfg, Step(cfg, s, msgs[0]).state, msgs[1..]);
    }
  }

  /** The rate is set at most once over any run, however many INSCONFIG
      messages arrive. */
  lemma {:induction false} RateSetAtMostOnce(cfg: Config, s: State, msgs: seq<Message>)
    ensures RateChanges(cfg, s, msgs) <= 1
    decreases |msgs|
  {
    if |msgs| > 0 {
      var next := Step(cfg, s, msgs[0]).state;
      if next.imuRate != s.imuRate {
        RateStableOnceKnown(cfg, next, msgs[1..]);
      } else {
        RateSetAtMostOnce(cfg, next, msgs[1..]);
      }
    }
  }

  /** Any non-zero override, negative ones included, permanently suppresses
      the table lookup; without an override the rate starts unknown. */
  lemma OverrideSuppressesResolution(cfg: Config, rateOverride: Int32, msgs: seq<Message>)
    requires rateOverride != 0
    ensures Run(cfg, Initialize(Some(rateOverride)), msgs).state.imuRate == rateOverride
    ensures RateChanges(cfg, Initialize(Some(rateOverride)), msgs) == 0
  {
    RateStableOnceKnown(cfg, Initialize(Some(rateOverride)), msgs);
  }

  /** Messages other than INSCONFIG never change an unknown rate. */
  lemma {:induction false} ZeroRateKeptWithoutConfig(cfg: Config, s: State, msgs: seq<Message>)
    requires s.imuRate == 0
    requires forall i :: 0 <= i < |msgs| ==> !msgs[i].InsConfig?
    ensures Run(cfg, s, msgs).state.imuRate == 0
    decreases |msgs|
  {
    if |msgs| > 0 {
      assert !msgs[0].InsConfig?;
      forall i | 0 <= i < |msgs[1..]| ensures !msgs[1..][i].InsConfig? {
        assert msgs[1..][i] == msgs[i + 1];
      }
      ZeroRateKeptWithoutConfig(cfg, Step(cfg, s, msgs[0]).state, msgs[1..]);
    }
  }

  /** A lookup that yields 0 leaves the rate unknown, so the next INSCONFIG,
      however many other messages arrive in between, retries the resolution
      with its own IMU type. */
  lemma FailedLookupRetries(cfg: Config, s: State, c1: InsConfigData, mid: seq<Message>, c2: InsConfigData)
    requires s.imuRate == 0
    requires cfg.supportedImus(c1.imuType).rate == 0
    requires forall i :: 0 <= i < |mid| ==> !mid[i].InsConfig?
    ensures Run(cfg, s, [InsConfig(c1)] + mid + [InsConfig(c2)]).state.imuRate
            == cfg.supportedImus(c2.imuType).rate
  {
    var prefix := [InsConfig(c1)] + mid;
    var s1 := Step(cfg, s, InsConfig(c1)).state;
    assert s1.imuRate == 0;
    assert prefix[0] == InsConfig(c1);
    assert prefix[1..] == mid;
    assert Run(cfg, s, prefix).state == Run(cfg, s1, mid).state;
    ZeroRateKeptWithoutConfig(cfg, s1, mid);
    RunSnocState(cfg, s, prefix, InsConfig(c2));
  }

  /** The `Imu` outputs among `outs`. */
  function ImuOutputs(outs: seq<Output>): (r: seq<Output>)
    ensures forall o :: o in r ==> o in outs && o.ImuOut?
    decreases |outs|
  {
    if |outs| == 0 then []
    else (if outs[0].ImuOut? then [outs[0]] else []) + ImuOutputs(outs[1..])
  }

  /** The passthrough outputs among `outs`, in order. */
  function Passthroughs(outs: seq<Output>): (r: seq<Output>)
    ensures forall o :: o in r ==> o in outs && !o.ImuOut?
    decreases |outs|
  {
    if |outs| == 0 then []
    else (if outs[0].ImuOut? then [] else [outs[0]]) + Passthroughs(outs[1..])
  }

  lemma {:induction false} ImuOutputsAppend(a: seq<Output>, b: seq<Output>)
    ensures ImuOutputs(a + b) == ImuOutputs(a) + ImuOutputs(b)
    decreases |a|
  {
    if |a| == 0 {
      assert a + b == b;
    } else {
      var head := if a[0].ImuOut? then [a[0]] else [];
      assert (a + b)[0] == a[0];
      assert (a + b)[1..] == a[1..] + b;
      assert ImuOutputs(a + b) == head + ImuOutputs(a[1..] + b);
      ImuOutputsAppend(a[1..], b);
      assert head + (ImuOutputs(a[1..]) + ImuOutputs(b)) == (head + ImuOutputs(a[1..])) + ImuOutputs(b);
    }
  }

  lemma {:induction false} PassthroughsAppend(a: seq<Output>, b: seq<Output>)
    ensures Passthroughs(a + b) == Passthroughs(a) + Passthroughs(b)
    decreases |a|
  {
    if |a| == 0 {
      assert a + b == b;
    } else {
      var head := if a[0].ImuOut? then [] else [a[0]];
      assert (a + b)[0] == a[0];
      assert (a + b)[1..] == a[1..] + b;
      assert Passthroughs(a + b) == head + Passthroughs(a[1..] + b);
      PassthroughsAppend(a[1..], b);
      assert head + (Passthroughs(a[1..]) + Passthroughs(b)) == (head + Passthroughs(a[1..])) + Passthroughs(b);
    }
  }

  /** Reference for the passthrough stream: each message's passthrough on an
      enabled channel, in arrival order. */
  function EnabledEchoes(cfg: Config, msgs: seq<Message>): (r: seq<Output>)
    decreases |msgs|
  {
    if |msgs| == 0 then []
    else
      (match Echo(msgs[0]) case None => [] case Some(o) => Publish(cfg, o))
      + EnabledEchoes(cfg, msgs[1..])
  }

  /** Counts the messages that trigger an `Imu` composition. */
  function ImuTriggers(msgs: seq<Message>): (n: nat)
    decreases |msgs|
  {
    if |msgs| == 0 then 0
    else (if msgs[0].CorrImu? || msgs[0].ImuRateCorrImu? then 1 else 0) + ImuTriggers(msgs[1..])
  }

  lemma StepFilters(cfg: Config, s: State, m: Message)
    ensures Passthroughs(Step(cfg, s, m).outputs)
            == (match Echo(m) case None => [] case Some(o) => Publish(cfg, o))
    ensures |ImuOutputs(Step(cfg, s, m).outputs)| <= (if m.CorrImu? || m.ImuRateCorrImu? then 1 else 0)
    ensures ImuChannel !in cfg.enabled ==> ImuOutputs(Step(cfg, s, m).outputs) == []
    ensures ImuChannel in cfg.enabled && s.inspva != None ==>
      |ImuOutputs(Step(cfg, s, m).outputs)| == (if m.CorrImu? || m.ImuRateCorrImu? then 1 else 0)
    ensures s.inspva == None && !m.Inspva? ==> ImuOutputs(Step(cfg, s, m).outputs) == []
  {
    var outs := Step(cfg, s, m).outputs;
    if m.CorrImu? || m.ImuRateCorrImu? {
      var s' := s.(corrimu := Some(m.corr));
      var echo := Publish(cfg, CorrImuOut(m.corr));
      var imu := PublishImu(cfg, s');
      assert outs == echo + imu;
      ImuOutputsAppend(echo, imu);
      PassthroughsAppend(echo, imu);
      if echo != [] {
        assert echo[1..] == [];
      }
      if imu != [] {
        assert imu[1..] == [];
      }
    } else if outs != [] {
      assert outs[1..] == [];
    }
  }

  /** Every passthrough message is republished unchanged, in arrival order,
      exactly when its channel is enabled, and nothing else is. */
  lemma {:induction false} RunPassthroughs(cfg: Config, s: State, msgs: seq<Message>)
    ensures Passthroughs(Run(cfg, s, msgs).outputs) == EnabledEchoes(cfg, msgs)
    decreases |msgs|
  {
    if |msgs| > 0 {
      var first := Step(cfg, s, msgs[0]);
      StepFilters(cfg, s, msgs[0]);
      PassthroughsAppend(first.outputs, Run(cfg, first.state, msgs[1..]).outputs);
      RunPassthroughs(cfg, first.state, msgs[1..]);
    }
  }

  /** At most one `Imu` output per IMU message, none at all while the channel
      is disabled, and none before an INSPVA has been cached; once the channel
      is enabled and an INSPVA is cached, exactly one per IMU message. */
  lemma {:induction false} RunImuOutputs(cfg: Config, s: State, msgs: seq<Message>)
    ensures |ImuOutputs(Run(cfg, s, msgs).outputs)| <= ImuTriggers(msgs)
    ensures ImuChannel !in cfg.enabled ==> ImuOutputs(Run(cfg, s, msgs).outputs) == []
    ensures s.inspva == None && (forall i :: 0 <= i < |msgs| ==> !msgs[i].Inspva?) ==>
      ImuOutputs(Run(cfg, s, msgs).outputs) == []
    ensures ImuChannel in cfg.enabled && s.inspva != None ==>
      |ImuOutputs(Run(cfg, s, msgs).outputs)| == ImuTriggers(msgs)
    decreases |msgs|
  {
    if |msgs| > 0 {
      var first := Step(cfg, s, msgs[0]);
      StepFilters(cfg, s, msgs[0]);
      ImuOutputsAppend(first.outputs, Run(cfg, first.state, msgs[1..]).outputs);
      RunImuOutputs(cfg, first.state, msgs[1..]);
      if s.inspva == None && (forall i :: 0 <= i < |msgs| ==> !msgs[i].Inspva?) {
        assert !msgs[0].Inspva?;
        assert forall i :: 0 <= i < |msgs[1..]| ==> !msgs[1..][i].Inspva? by {
          forall i | 0 <= i < |msgs[1..]| ensures !msgs[1..][i].Inspva? {
            assert msgs[1..][i] == msgs[i + 1];
          }
        }
      }
    }
  }

  /** With a negative rate (a negative override, or a table entry with a
      negative rate) the rate never changes again and every `Imu` output of
      the run carries the sentinel. */
  lemma {:induction false} NegativeRateAlwaysSentinel(cfg: Config, s: State, msgs: seq<Message>)
    requires s.imuRate < 0
    ensures Run(cfg, s, msgs).state.imuRate == s.imuRate
    ensures forall o :: o in Run(cfg, s, msgs).outputs && o.ImuOut? ==>
      o.imu.angularVelocityCovariance[0] == DataNotAvailable
      && o.imu.linearAccelerationCovariance[0] == DataNotAvailable
    decreases |msgs|
  {
    if |msgs| > 0 {
      var first := Step(cfg, s, msgs[0]);
      StepImuOutput(cfg, s, msgs[0]);
      NegativeRateAlwaysSentinel(cfg, first.state, msgs[1..]);
    }
  }

  /** Reference for the INSPVA cache: the payload of the last INSPVA in
      `msgs`, or `init` when there is none. */
  function LastPva(msgs: seq<Message>, init: Option<InsPvaData>): (r: Option<InsPvaData>)
    decreases |msgs|
  {
    if |msgs| == 0 then init
    else if msgs[|msgs| - 1].Inspva? then Some(msgs[|msgs| - 1].pva)
    else LastPva(msgs[..|msgs| - 1], init)
  }

  /** Reference for the IMU cache: the last CORRIMU or IMURATECORRIMU sample. */
  function LastCorrImu(msgs: seq<Message>, init: Option<CorrImuData>): (r: Option<CorrImuData>)
    decreases |msgs|
  {
    if |msgs| == 0 then init
    else if msgs[|msgs| - 1].CorrImu? || msgs[|msgs| - 1].ImuRateCorrImu? then Some(msgs[|msgs| - 1].corr)
    else LastCorrImu(msgs[..|msgs| - 1], init)
  }

  /** Reference for the INSSTDEV cache: the last INSSTDEV. */
  function LastStdev(msgs: seq<Message>, init: Option<InsStdevData>): (r: Option<InsStdevData>)
    decreases |msgs|
  {
    if |msgs| == 0 then init
    else if msgs[|msgs| - 1].InsStdev? then Some(msgs[|msgs| - 1].stdev)
    else LastStdev(msgs[..|msgs| - 1], init)
  }

  /** Each cache holds the latest message of its kind: overwritten on every
      arrival, never merged, and never cleared. */
  lemma {:induction false} CachesHoldLatest(cfg: Config, s: State, msgs: seq<Message>)
    ensures Run(cfg, s, msgs).state.inspva == LastPva(msgs, s.inspva)
    ensures Run(cfg, s, msgs).state.corrimu == LastCorrImu(msgs, s.corrimu)
    ensures Run(cfg, s, msgs).state.insstdev == LastStdev(msgs, s.insstdev)
    decreases |msgs|
  {
    if |msgs| > 0 {
      var init := msgs[..|msgs| - 1];
      var last := msgs[|msgs| - 1];
      assert msgs == init + [last];
      RunSnocState(cfg, s, init, last);
      CachesHoldLatest(cfg, s, init);
    }
  }
}
