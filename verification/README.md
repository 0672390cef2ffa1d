# INS message translator of the NovAtel OEM7 driver, in Dafny

This project models `INSHandler`, the message handler of the NovAtel OEM7 ROS
driver that turns decoded receiver logs into output messages. It handles the
INS attitude solution (INSPVA), the corrected IMU samples (CORRIMU and
IMURATECORRIMU), the INS standard deviations (INSSTDEV), the INS configuration
(INSCONFIG) and the extended solution (INSPVAX). The handler caches the latest
INSPVA, CORRIMU and INSSTDEV and keeps an integer IMU rate. It republishes the
passthrough logs. On every IMU sample, when the `Imu` channel is enabled and an
INSPVA is cached, it composes one `sensor_msgs/Imu` output from its caches.

The model is functional:

- `ins_messages.dfy` (module `InsMessages`) holds the decoded inputs, the
  six-kind `Message` datatype, the subscription list, the `Imu` output and the
  five output channels.
- `ins_handler.dfy` (module `InsHandler`) holds the configuration: the set of
  enabled channels and the supported-IMU table, as a pure function from IMU
  type to name and rate. It also holds the state, `Initialize` (constructor
  plus `initialize`) and `Step`, which handles one message and returns the new
  state and the published outputs. `Run` folds `Step` over a message sequence.
- `ins_properties.dfy` (module `InsProperties`) holds lemmas about single
  steps and whole runs.

Dispatch is an exhaustive `match` over the six subscribed kinds. The source's
`assert(false)` branch for an unknown id therefore cannot be represented.
Numeric payloads are `real`, so products and squares are exact. The orientation
is represented by the signed degree angles (roll, -pitch, -azimuth) whose
radian conversions are passed to `setRPY`. The
`DATA_NOT_AVAILABLE` constant (line 71) is `InsHandler.DataNotAvailable`, -1.0.
The fixed motion variance `1e-3` is `InsHandler.NominalMotionVariance`.

Any non-zero override, negative included, suppresses the table lookup
(lines 124 and 240-244). A negative rate then makes every `Imu` output carry
the sentinel for good, as `NegativeRateAlwaysSentinel` proves; a table entry
with a negative rate has the same effect. A lookup that yields 0 leaves the
rate at 0, so the next INSCONFIG retries (`FailedLookupRetries`).

## Model

| member | source | states |
|---|---|---|
| InsMessages.MessageIds | src/novatel_oem7_driver/src/ins_handler.cpp:247-260 | the subscription list has six distinct ids; every message kind the dispatch handles has its id in it, and every listed id is handled |
| InsHandler.Initialize | src/novatel_oem7_driver/src/ins_handler.cpp:221-245 | a fresh handler has no cached messages; its rate is the configured override when there is one, otherwise 0 |
| InsHandler.ResolveImuRate | src/novatel_oem7_driver/src/ins_handler.cpp:118-135 | the rate is taken from the table only while it is 0, and is otherwise kept; afterwards it is 0 exactly when it was 0 and the table gave 0; the caches are not touched |
| InsHandler.ComposeImu | src/novatel_oem7_driver/src/ins_handler.cpp:160-208 | orientation angles are (roll, -pitch, -azimuth); with INSSTDEV, orientation covariance entries 0, 4 and 8 are the squared pitch, roll and azimuth deviations, and all other entries are 0; with an IMU sample and a positive rate, angular velocity is (pitch, roll, yaw) rate times rate, linear acceleration is (lateral, longitudinal, vertical) times rate, and all six motion diagonal entries are 1e-3; otherwise both motion vectors are zero, entry 0 of both motion covariances is -1 and the rest are 0 |
| InsHandler.PublishImu | src/novatel_oem7_driver/src/ins_handler.cpp:153-211 | an `Imu` output is produced exactly when the channel is enabled and an INSPVA has been cached; then exactly one, composed from the caches and the rate |
| InsHandler.HandleCorrImu | src/novatel_oem7_driver/src/ins_handler.cpp:274-280 | an IMU sample overwrites the IMU cache and nothing else; it produces one output per enabled channel among CORRIMU and `Imu` (the latter only once an INSPVA is cached); the unchanged sample comes first and the `Imu` output, composed with the new sample, comes last; nothing else is emitted |
| InsHandler.Step | src/novatel_oem7_driver/src/ins_handler.cpp:262-293 | each cache is overwritten only by its own message kind; the rate changes only when an INSCONFIG arrives while it is 0, and then to the table's rate; an INSCONFIG arriving while the rate is 0 always sets it to the table's rate; a passthrough message comes out first, unchanged, when its channel is enabled; at most two outputs, and `Imu` only for the two IMU kinds |
| InsProperties.CorrImuVariantsAgree | src/novatel_oem7_driver/src/ins_handler.cpp:274-280 | CORRIMU and IMURATECORRIMU with the same payload give the same state and outputs, and both cache the sample |
| InsProperties.InspvaIsCacheOnly | src/novatel_oem7_driver/src/ins_handler.cpp:266-269 | INSPVA overwrites its cache, emits nothing and changes nothing else |
| InsProperties.StepImuOutput | src/novatel_oem7_driver/src/ins_handler.cpp:184-208 | every `Imu` output of a step comes from an IMU message with an INSPVA cached and uses the fresh sample; its sentinel is present exactly when the rate is not positive |
| InsProperties.SentinelIffMotionUnavailable | src/novatel_oem7_driver/src/ins_handler.cpp:184-208 | entry 0 of each motion covariance is the sentinel exactly when the IMU sample or a positive rate is missing |
| InsProperties.MotionRecoversSample | src/novatel_oem7_driver/src/ins_handler.cpp:184-192 | with a positive rate, dividing the motion fields by the rate and undoing the axis remap recovers the IMU sample exactly |
| InsProperties.RunSnocState | src/novatel_oem7_driver/src/ins_handler.cpp:262-293 | handling a sequence and then one more message ends in the state of handling that message after the sequence |
| InsProperties.RateStableOnceKnown | src/novatel_oem7_driver/src/ins_handler.cpp:124-129 | once the rate is non-zero, no sequence of messages changes it |
| InsProperties.ZeroRateKeptWithoutConfig | src/novatel_oem7_driver/src/ins_handler.cpp:262-293 | while the rate is 0, any sequence of messages without an INSCONFIG leaves it at 0, since only the INSCONFIG branch assigns it |
| InsProperties.RateSetAtMostOnce | src/novatel_oem7_driver/src/ins_handler.cpp:118-135 | over any sequence of messages the rate changes at most once |
| InsProperties.OverrideSuppressesResolution | src/novatel_oem7_driver/src/ins_handler.cpp:240-244 | with any non-zero override, negative included, the rate keeps the override value forever and the lookup never changes it |
| InsProperties.FailedLookupRetries | src/novatel_oem7_driver/src/ins_handler.cpp:124-134 | when the table gives 0 for an INSCONFIG arriving at rate 0, the next INSCONFIG, after any number of other messages, sets the rate from its own IMU type |
| InsProperties.StepFilters | src/novatel_oem7_driver/src/ins_handler.cpp:262-293 | the passthrough outputs of a step are its message's passthrough when enabled; it has at most one `Imu` output, only for IMU kinds, none while the channel is disabled, and none before an INSPVA is cached; with the channel enabled and an INSPVA cached, an IMU message yields exactly one |
| InsProperties.RunPassthroughs | src/novatel_oem7_driver/src/ins_handler.cpp:118-217 | over a run, the non-`Imu` outputs are exactly the passthrough of every INSSTDEV, CORRIMU, IMURATECORRIMU, INSCONFIG and INSPVAX on an enabled channel, unchanged and in arrival order |
| InsProperties.RunImuOutputs | src/novatel_oem7_driver/src/ins_handler.cpp:153-175 | over a run there are at most as many `Imu` outputs as IMU messages; there are none while the channel is disabled, and none when no INSPVA is cached or arrives; with the channel enabled and an INSPVA cached, there is exactly one per IMU message |
| InsProperties.NegativeRateAlwaysSentinel | src/novatel_oem7_driver/src/ins_handler.cpp:184-208 | from a negative rate, the rate never changes and every `Imu` output carries the sentinel on both motion covariances |
| InsProperties.CachesHoldLatest | src/novatel_oem7_driver/src/ins_handler.cpp:262-280 | after any run, each cache holds the payload of the last message of its kind (either IMU kind for the IMU cache), or its earlier value if none arrived |

## Left out

- Message decoding (`MakeROSMessage`) of the receiver's binary logs: decoded messages are given datatype values. INSPVA, INSSTDEV and CORRIMU keep only the fields the handler reads, so "unchanged" for a CORRIMU passthrough means unchanged in those six fields. INSCONFIG keeps the IMU type and carries its other fields unread. INSPVAX is an unread payload.
- Parameter server access (`getImuParam`, `nh.getParam`) and the `std::stoi` parse of the rate: the table is a total function from IMU type to name and rate. The failure path, where a missing entry leaves an empty string and `std::stoi` throws, is not modelled.
- Publisher setup and transport (`Oem7RosPublisher`): only the per-channel enable flag is kept. A message on an enabled channel is published unchanged, and one on a disabled channel is dropped. The header and frame id the transport fills in are not modelled.
- Logging: the info/error message on rate resolution, the info message on an override, the debug trace, and the time-based throttle of the missing-INSPVA warning.
- The quaternion: `degreesToRadians`, `setRPY` and `toMsg` are floating-point trigonometry in an external library. The output carries the three signed degree angles instead.
- IEEE double rounding: products and squares are exact reals.
- Plugin export (`PLUGINLIB_EXPORT_CLASS`) and the unused `IMU_TYPE_UNKNOWN` constant.
