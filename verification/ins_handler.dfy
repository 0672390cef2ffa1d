/** The INS translator: a cache of the latest INSPVA, CORRIMU and INSSTDEV
    messages plus the IMU rate, and a step function that handles one decoded
    message and returns the new state and the messages it publishes. */
module InsHandler {
  import opened InsMessages

  /** Written into the first diagonal entry of both motion covariances when
      the angular velocity and linear acceleration are not known. */
  const DataNotAvailable: real := -1.0

  /** The fixed variance reported on every motion covariance diagonal entry. */
  const NominalMotionVariance: real := 0.001

  /** One entry of the supported-IMU table: display name and sample rate. */
  datatype ImuInfo = ImuInfo(name: string, rate: Int32)

  /** External configuration: the enabled output channels and the
      supported-IMU lookup table. */
  datatype Config = Config(enabled: set<Channel>, supportedImus: ImuType -> ImuInfo)

  /** The translator's state. An `imuRate` of 0 means "not yet known". */
  datatype State = State(
    inspva: Option<InsPvaData>,
    corrimu: Option<CorrImuData>,
    insstdev: Option<InsStdevData>,
    imuRate: Int32)

  datatype StepResult = StepResult(state: State, outputs: seq<Output>)

  /** Construction followed by `initialize`: every cache is empty, and the rate
      is the user's override when one is configured, otherwise 0. */
  function Initialize(rateOverride: Option<Int32>): (s: State)
    ensures s.inspva == None && s.corrimu == None && s.insstdev == None
    ensures rateOverride == None ==> s.imuRate == 0
    ensures rateOverride != None ==> s.imuRate == rateOverride.value
  {
    var s := State(None, None, None, 0);
    match rateOverride
    case None => s
    case Some(v) => s.(imuRate := v)
  }

  /** Publication on one channel: the message goes out unchanged when its
      channel is enabled and is dropped otherwise. */
  function Publish(cfg: Config, o: Output): (r: seq<Output>)
    ensures ChannelOf(o) in cfg.enabled ==> r == [o]
    ensures ChannelOf(o) !in cfg.enabled ==> r == []
  {
    if ChannelOf(o) in cfg.enabled then [o] else []
  }

  /** The one-shot rate resolution of an INSCONFIG message: while the rate is
      still 0 it is replaced by the table's rate for the reported IMU type. */
  function ResolveImuRate(cfg: Config, s: State, imuType: ImuType): (r: State)
    ensures r.inspva == s.inspva && r.corrimu == s.corrimu && r.insstdev == s.insstdev
    ensures s.imuRate != 0 ==> r.imuRate == s.imuRate
    ensures s.imuRate == 0 ==> r.imuRate == cfg.supportedImus(imuType).rate
    ensures r.imuRate == 0 <==> s.imuRate == 0 && cfg.supportedImus(imuType).rate == 0
  {
    if s.imuRate == 0 then s.(imuRate := cfg.supportedImus(imuType).rate) else s
  }

  function Squared(x: real): (r: real) {
    x * x
  }

  const ZeroCov: Cov9 := [0.0, 0.0, 0.0, 0.0, 0.0, 0.0, 0.0, 0.0, 0.0]

  const ZeroVec: Vec3 := Vec3(0.0, 0.0, 0.0)

  /** The covariance with `a`, `b` and `c` on the diagonal and 0 elsewhere. */
  function Diagonal(a: real, b: real, c: real): (r: Cov9) {
    ZeroCov[0 := a][4 := b][8 := c]
  }

  predicate OffDiagonal(i: int) {
    i != 0 && i != 4 && i != 8
  }

  function Scale(v: real, rate: Int32): (r: real) {
    v * rate as real
  }

  /** The body of the `Imu` composition once an INSPVA is known. The receiver's
      pitch and azimuth are negated into the output's right-handed frame; the
      IMU axes are remapped pitch/roll/yaw and lateral/longitudinal/vertical to
      x/y/z. */
  function ComposeImu(pva: InsPvaData, stdev: Option<InsStdevData>, corr: Option<CorrImuData>, rate: Int32): (imu: Imu)
    ensures imu.orientation == RpyDegrees(pva.roll, -pva.pitch, -pva.azimuth)
    // Orientation variances are placed in pitch, roll, yaw diagonal order.
    ensures stdev != None ==>
      && imu.orientationCovariance[0] == stdev.value.pitchStdev * stdev.value.pitchStdev
      && imu.orientationCovariance[4] == stdev.value.rollStdev * stdev.value.rollStdev
      && imu.orientationCovariance[8] == stdev.value.azimuthStdev * stdev.value.azimuthStdev
    ensures forall i :: 0 <= i < 9 && (stdev == None || OffDiagonal(i)) ==> imu.orientationCovariance[i] == 0.0
    ensures corr != None && rate > 0 ==>
      && imu.angularVelocity.x == corr.value.pitchRate * rate as real
      && imu.angularVelocity.y == corr.value.rollRate * rate as real
      && imu.angularVelocity.z == corr.value.yawRate * rate as real
      && imu.linearAcceleration.x == corr.value.lateralAcc * rate as real
      && imu.linearAcceleration.y == corr.value.longitudinalAcc * rate as real
      && imu.linearAcceleration.z == corr.value.verticalAcc * rate as real
      && (forall i :: 0 <= i < 9 && !OffDiagonal(i) ==> imu.angularVelocityCovariance[i] == NominalMotionVariance)
      && (forall i :: 0 <= i < 9 && !OffDiagonal(i) ==> imu.linearAccelerationCovariance[i] == NominalMotionVariance)
    ensures !(corr != None && rate > 0) ==>
      && imu.angularVelocity == ZeroVec
      && imu.linearAcceleration == ZeroVec
      && imu.angularVelocityCovariance[0] == DataNotAvailable
      && imu.linearAccelerationCovariance[0] == DataNotAvailable
      && (forall i :: 1 <= i < 9 ==> imu.angularVelocityCovariance[i] == 0.0)
      && (forall i :: 1 <= i < 9 ==> imu.linearAccelerationCovariance[i] == 0.0)
    ensures forall i :: 0 <= i < 9 && OffDiagonal(i) ==>
      imu.angularVelocityCovariance[i] == 0.0 && imu.linearAccelerationCovariance[i] == 0.0
  {
    var orientation := RpyDegrees(pva.roll, -pva.pitch, -pva.azimuth);
    var orientationCov :=
      match stdev
      case Some(d) => Diagonal(Squared(d.pitchStdev), Squared(d.rollStdev), Squared(d.azimuthStdev))
      case None => ZeroCov;
    if corr.Some? && rate > 0 then
      var c := corr.value;
      Imu(orientation, orientationCov,
          Vec3(Scale(c.pitchRate, rate), Scale(c.rollRate, rate), Scale(c.yawRate, rate)),
          Diagonal(NominalMotionVariance, NominalMotionVariance, NominalMotionVariance),
          Vec3(Scale(c.lateralAcc, rate), Scale(c.longitudinalAcc, rate), Scale(c.verticalAcc, rate)),
          Diagonal(NominalMotionVariance, NominalMotionVariance, NominalMotionVariance))
    else
      Imu(orientation, orientationCov,
          ZeroVec, ZeroCov[0 := DataNotAvailable],
          ZeroVec, ZeroCov[0 := DataNotAvailable])
  }

  /** Publication of the composed `Imu` output: nothing when its channel is
      disabled, nothing (not a zero-filled message) when no INSPVA has been
      cached, otherwise exactly one message composed from the caches. */
  function PublishImu(cfg: Config, s: State): (r: seq<Output>)
    ensures |r| <= 1
    ensures r != [] <==> ImuChannel in cfg.enabled && s.inspva != None
    ensures r != [] ==> r[0] == ImuOut(ComposeImu(s.inspva.value, s.insstdev, s.corrimu, s.imuRate))
  {
    if ImuChannel !in cfg.enabled then []
    else match s.inspva
      case None => []
      case Some(pva) => [ImuOut(ComposeImu(pva, s.insstdev, s.corrimu, s.imuRate))]
  }

  /** The message a passthrough handler republishes for `m`, if any. */
  function Echo(m: Message): (r: Option<Output>) {
    match m
    case Inspva(_) => None
    case InsStdev(d) => Some(InsStdevOut(d))
    case CorrImu(c) => Some(CorrImuOut(c))
    case ImuRateCorrImu(c) => Some(CorrImuOut(c))
    case InsConfig(c) => Some(InsConfigOut(c))
    case Inspvax(x) => Some(InspvaxOut(x))
  }

  /** Handling of one decoded message. The match is exhaustive over the six
      subscribed kinds, so no other message id can reach it. */
  function Step(cfg: Config, s: State, m: Message): (r: StepResult)
    // Each cache is overwritten by, and only by, its own message kind.
    ensures r.state.inspva == (if m.Inspva? then Some(m.pva) else s.inspva)
    ensures r.state.insstdev == (if m.InsStdev? then Some(m.stdev) else s.insstdev)
    ensures r.state.corrimu == (if m.CorrImu? || m.ImuRateCorrImu? then Some(m.corr) else s.corrimu)
    // The rate changes only through the first resolution of an INSCONFIG.
    ensures r.state.imuRate != s.imuRate ==>
      s.imuRate == 0 && m.InsConfig? && r.state.imuRate == cfg.supportedImus(m.config.imuType).rate
    // Conversely, an INSCONFIG arriving while the rate is 0 sets it from the table.
    ensures m.InsConfig? && s.imuRate == 0 ==> r.state.imuRate == cfg.supportedImus(m.config.imuType).rate
    // When m's passthrough channel is enabled, the first output is that passthrough.
    ensures Echo(m) != None && ChannelOf(Echo(m).value) in cfg.enabled ==>
      |r.outputs| >= 1 && r.outputs[0] == Echo(m).value
    // Besides that passthrough, at most one `Imu` output follows, only for
    // the two IMU kinds.
    ensures |r.outputs| <= 2
    ensures forall o :: o in r.outputs && o.ImuOut? ==> m.CorrImu? || m.ImuRateCorrImu?
  {
    match m
    case Inspva(pva) => StepResult(s.(inspva := Some(pva)), [])
    case InsStdev(d) => StepResult(s.(insstdev := Some(d)), Publish(cfg, InsStdevOut(d)))
    case CorrImu(c) => HandleCorrImu(cfg, s, c)
    case ImuRateCorrImu(c) => HandleCorrImu(cfg, s, c)
    case InsConfig(c) => StepResult(ResolveImuRate(cfg, s, c.imuType), Publish(cfg, InsConfigOut(c)))
    case Inspvax(x) => StepResult(s, Publish(cfg, InspvaxOut(x)))
  }

  /** CORRIMU and IMURATECORRIMU: cache, republish, then compose `Imu`. */
  function HandleCorrImu(cfg: Config, s: State, c: CorrImuData): (r: StepResult)
    ensures r.state == s.(corrimu := Some(c))
    ensures |r.outputs| == (if CorrImuChannel in cfg.enabled then 1 else 0)
                         + (if ImuChannel in cfg.enabled && s.inspva != None then 1 else 0)
    // The sample is republished unchanged before anything else ...
    ensures CorrImuChannel in cfg.enabled ==> r.outputs[0] == CorrImuOut(c)
    // ... and the `Imu` output, when there is one, comes last and uses the new sample.
    ensures ImuChannel in cfg.enabled && s.inspva != None ==>
      r.outputs[|r.outputs| - 1] == ImuOut(ComposeImu(s.inspva.value, s.insstdev, Some(c), s.imuRate))
    ensures forall o :: o in r.outputs ==> o.ImuOut? || o == CorrImuOut(c)
  {
    var s' := s.(corrimu := Some(c));
    StepResult(s', Publish(cfg, CorrImuOut(c)) + PublishImu(cfg, s'))
  }

  /** Handling of a sequence of messages in arrival order. */
  function Run(cfg: Config, s: State, msgs: seq<Message>): (r: StepResult)
    decreases |msgs|
  {
    if |msgs| == 0 then StepResult(s, [])
    else
      var first := Step(cfg, s, msgs[0]);
      var rest := Run(cfg, first.state, msgs[1..]);
      StepResult(rest.state, first.outputs + rest.outputs)
  }
}
