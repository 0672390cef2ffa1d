/** Decoded receiver messages consumed by the INS translator, the messages it
    publishes, and the output channels they are published on. */
module InsMessages {

  datatype Option<T> = None | Some(value: T)

  /** A C++ `int`: the type of the IMU rate (`imu_rate_t`, `imu_rate_`). */
  type Int32 = x: int | -0x8000_0000 <= x < 0x8000_0000

  /** A C++ `unsigned int`: the IMU type code reported by INSCONFIG (`imu_type_t`). */
  type ImuType = x: int | 0 <= x < 0x1_0000_0000

  /** INSPVA: the INS attitude solution, in degrees. Position and velocity are
      carried by the message but never read by the translator. */
  datatype InsPvaData = InsPvaData(roll: real, pitch: real, azimuth: real)

  /** CORRIMU / IMURATECORRIMU: one corrected IMU sample, per-sample deltas
      that a rate multiplier turns into per-second values. */
  datatype CorrImuData = CorrImuData(
    pitchRate: real, rollRate: real, yawRate: real,
    lateralAcc: real, longitudinalAcc: real, verticalAcc: real)

  /** INSSTDEV: attitude standard deviations, in degrees. */
  datatype InsStdevData = InsStdevData(pitchStdev: real, rollStdev: real, azimuthStdev: real)

  /** INSCONFIG: only the IMU type is interpreted; the remaining fields are
      carried through unread. */
  datatype InsConfigData = InsConfigData(imuType: ImuType, otherFields: seq<int>)

  /** INSPVAX: passed through unread. */
  datatype InsPvaxData = InsPvaxData(fields: seq<real>)

  /** The six decoded messages the translator subscribes to. CORRIMU and
      IMURATECORRIMU decode into the same payload type. */
  datatype Message =
    | Inspva(pva: InsPvaData)
    | InsStdev(stdev: InsStdevData)
    | CorrImu(corr: CorrImuData)
    | ImuRateCorrImu(corr: CorrImuData)
    | InsConfig(config: InsConfigData)
    | Inspvax(pvax: InsPvaxData)

  /** The receiver's message ids for the six subscribed logs. */
  datatype MsgId =
    | CorrImuId | ImuRateCorrImuId | InsPvaId | InsPvaxId | InsStdevId | InsConfigId

  function IdOf(m: Message): (id: MsgId) {
    match m
    case Inspva(_) => InsPvaId
    case InsStdev(_) => InsStdevId
    case CorrImu(_) => CorrImuId
    case ImuRateCorrImu(_) => ImuRateCorrImuId
    case InsConfig(_) => InsConfigId
    case Inspvax(_) => InsPvaxId
  }

  /** The subscription list declared by the translator, in declaration order.
      Every id in it names exactly one message kind, every kind's id is in it,
      and no id is listed twice, so the dispatch over `Message` is exactly the
      subscription set. */
  function MessageIds(): (ids: seq<MsgId>)
    ensures |ids| == 6
    ensures forall i, j :: 0 <= i < j < |ids| ==> ids[i] != ids[j]
    ensures forall m: Message :: IdOf(m) in ids
    ensures forall k :: k in ids ==> exists m: Message :: IdOf(m) == k
  {
    var ids := [CorrImuId, ImuRateCorrImuId, InsPvaId, InsPvaxId, InsStdevId, InsConfigId];
    assert IdOf(CorrImu(CorrImuData(0.0, 0.0, 0.0, 0.0, 0.0, 0.0))) == ids[0];
    assert IdOf(ImuRateCorrImu(CorrImuData(0.0, 0.0, 0.0, 0.0, 0.0, 0.0))) == ids[1];
    assert IdOf(Inspva(InsPvaData(0.0, 0.0, 0.0))) == ids[2];
    assert IdOf(Inspvax(InsPvaxData([]))) == ids[3];
    assert IdOf(InsStdev(InsStdevData(0.0, 0.0, 0.0))) == ids[4];
    assert IdOf(InsConfig(InsConfigData(0, []))) == ids[5];
    ids
  }

  datatype Vec3 = Vec3(x: real, y: real, z: real)

  /** The roll, pitch and yaw angles, in degrees, from which the output
      orientation quaternion is built (`setRPY` after a degree-to-radian
      conversion). */
  datatype RpyDegrees = RpyDegrees(roll: real, pitch: real, yaw: real)

  /** A row-major 3x3 covariance matrix. */
  type Cov9 = s: seq<real> | |s| == 9 witness [0.0, 0.0, 0.0, 0.0, 0.0, 0.0, 0.0, 0.0, 0.0]

  /** The standardized inertial-measurement output (`sensor_msgs/Imu`). */
  datatype Imu = Imu(
    orientation: RpyDegrees,
    orientationCovariance: Cov9,
    angularVelocity: Vec3,
    angularVelocityCovariance: Cov9,
    linearAcceleration: Vec3,
    linearAccelerationCovariance: Cov9)

  /** The five output channels, each independently enabled by configuration. */
  datatype Channel = ImuChannel | CorrImuChannel | InsStdevChannel | InspvaxChannel | InsConfigChannel

  datatype Output =
    | ImuOut(imu: Imu)
    | CorrImuOut(corr: CorrImuData)
    | InsStdevOut(stdev: InsStdevData)
    | InspvaxOut(pvax: InsPvaxData)
    | InsConfigOut(config: InsConfigData)

  function ChannelOf(o: Output): (c: Channel) {
    match o
    case ImuOut(_) => ImuChannel
    case CorrImuOut(_) => CorrImuChannel
    case InsStdevOut(_) => InsStdevChannel
    case InspvaxOut(_) => InspvaxChannel
    case InsConfigOut(_) => InsConfigChannel
  }
}
