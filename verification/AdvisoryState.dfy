/** The canonical deterministic encoding of drone telemetry (src/latentmesh/state.rs).
    A critical state is a map from schema field numbers to typed symbols; every
    floating-point field crosses as a signed Q16.16 code. */
module AdvisoryState {
  import opened Foundation

  datatype SymbolValue =
    | Bool(flag: bool)
    | I64(signed: int)
    | U64Value(number: U64)
    | Q16(code: I32)
    | Bytes(data: seq<U8>)

  type CriticalState = map<U16, SymbolValue>

  datatype FailSafeState =
    | Nominal
    | AutonomousHold
    | LowBatteryWarn
    | ReturnToHome
    | EmergencyLand
    | EmergencyDiverge
    | ControlledDescent

  datatype DroneState = DroneState(
    id: U32,
    x: F64, y: F64, z: F64,
    vx: F64, vy: F64, vz: F64,
    headingRad: F64,
    altitudeAglM: F64,
    batteryPct: F64,
    linkQuality: F64,
    timestampMs: U64)

  datatype Snapshot = Snapshot(drone: DroneState, failsafe: FailSafeState)

  datatype StateError =
    | NonFiniteField(name: string)
    | OutOfRange(name: string)
    | MissingField(fieldId: U16)
    | WrongType(fieldId: U16)
    | UnknownField
    | UnsupportedSchema(version: U64)
    | UnknownFailsafe(code: U64)

  const SCHEMA_VERSION: U64 := 1

  const FIELD_SCHEMA_VERSION: U16 := 0x0001
  const FIELD_NODE_ID: U16 := 0x0010
  const FIELD_POSITION_NORTH_M: U16 := 0x0100
  const FIELD_POSITION_EAST_M: U16 := 0x0101
  const FIELD_POSITION_DOWN_M: U16 := 0x0102
  const FIELD_VELOCITY_NORTH_MPS: U16 := 0x0200
  const FIELD_VELOCITY_EAST_MPS: U16 := 0x0201
  const FIELD_VELOCITY_DOWN_MPS: U16 := 0x0202
  const FIELD_HEADING_RAD: U16 := 0x0300
  const FIELD_ALTITUDE_AGL_M: U16 := 0x0301
  const FIELD_BATTERY_PCT: U16 := 0x0400
  const FIELD_LINK_QUALITY: U16 := 0x0401
  const FIELD_TIMESTAMP_MS: U16 := 0x0402
  const FIELD_FAILSAFE_STATE: U16 := 0x0403

  /** The ten fields carried as Q16.16 codes. */
  predicate IsQ16Field(field: U16) {
    || FIELD_POSITION_NORTH_M <= field <= FIELD_POSITION_DOWN_M
    || FIELD_VELOCITY_NORTH_MPS <= field <= FIELD_VELOCITY_DOWN_MPS
    || FIELD_HEADING_RAD <= field <= FIELD_ALTITUDE_AGL_M
    || FIELD_BATTERY_PCT <= field <= FIELD_LINK_QUALITY
  }

  /** The fourteen fields that schema version 1 requires. */
  predicate IsRequired(field: U16) {
    || field == FIELD_SCHEMA_VERSION
    || field == FIELD_NODE_ID
    || IsQ16Field(field)
    || field == FIELD_TIMESTAMP_MS
    || field == FIELD_FAILSAFE_STATE
  }

  const SCALE: real := 65536.0
  const Q16_MIN: real := -32768.0
  const Q16_MAX: real := 2147483647.0 / SCALE
  /** The double nearest 2*pi, written out exactly. */
  const TAU: real := 6.28318530717958623199592693708837032318115234375
  /** The largest heading code whose decoded value does not exceed TAU. */
  const MAX_HEADING_CODE: int := 411774

  // ---------------------------------------------------------------- validation

  function ValidateQ16(name: string, value: F64): Result<(), StateError> {
    if value.NonFinite? then Failure(NonFiniteField(name))
    else Check(Q16_MIN <= value.value <= Q16_MAX, OutOfRange(name))
  }

  function ValidateBounded(name: string, value: F64, minimum: real, maximum: real): Result<(), StateError> {
    if value.NonFinite? then Failure(NonFiniteField(name))
    else if !(minimum <= value.value <= maximum) then Failure(OutOfRange(name))
    else ValidateQ16(name, value)
  }

  function ValidateDomainRanges(drone: DroneState): Result<(), StateError> {
    var _ :- ValidateQ16("position.x", drone.x);
    var _ :- ValidateQ16("position.y", drone.y);
    var _ :- ValidateQ16("position.z", drone.z);
    var _ :- ValidateQ16("velocity.vx", drone.vx);
    var _ :- ValidateQ16("velocity.vy", drone.vy);
    var _ :- ValidateQ16("velocity.vz", drone.vz);
    var _ :- ValidateBounded("heading_rad", drone.headingRad, -TAU, TAU);
    var _ :- ValidateBounded("altitude_agl_m", drone.altitudeAglM, 0.0, Q16_MAX);
    var _ :- ValidateBounded("battery_pct", drone.batteryPct, 0.0, 100.0);
    ValidateBounded("link_quality", drone.linkQuality, 0.0, 1.0)
  }

  // ------------------------------------------------------------------ encoding

  /** The telemetry value that a Q16.16 field carries. */
  function Q16Source(drone: DroneState, field: U16): F64 {
    if field == FIELD_POSITION_NORTH_M then drone.x
    else if field == FIELD_POSITION_EAST_M then drone.y
    else if field == FIELD_POSITION_DOWN_M then drone.z
    else if field == FIELD_VELOCITY_NORTH_MPS then drone.vx
    else if field == FIELD_VELOCITY_EAST_MPS then drone.vy
    else if field == FIELD_VELOCITY_DOWN_MPS then drone.vz
    else if field == FIELD_HEADING_RAD then drone.headingRad
    else if field == FIELD_ALTITUDE_AGL_M then drone.altitudeAglM
    else if field == FIELD_BATTERY_PCT then drone.batteryPct
    else drone.linkQuality
  }

  predicate InQ16Range(value: F64) {
    value.Finite? && Q16_MIN <= value.value <= Q16_MAX
  }

  /** Every field finite and inside its documented range. */
  predicate ValidDrone(drone: DroneState) {
    && InQ16Range(drone.x) && InQ16Range(drone.y) && InQ16Range(drone.z)
    && InQ16Range(drone.vx) && InQ16Range(drone.vy) && InQ16Range(drone.vz)
    && InRange(drone.headingRad, -TAU, TAU)
    && InRange(drone.altitudeAglM, 0.0, Q16_MAX)
    && InRange(drone.batteryPct, 0.0, 100.0)
    && InRange(drone.linkQuality, 0.0, 1.0)
  }

  lemma ValidationIsDomain(drone: DroneState)
    ensures ValidateDomainRanges(drone).Success? <==> ValidDrone(drone)
    ensures ValidDrone(drone) ==> forall field :: InQ16Range(Q16Source(drone, field))
  {
  }

  function FailsafeCode(failsafe: FailSafeState): U64 {
    match failsafe
    case Nominal => 0
    case AutonomousHold => 1
    case LowBatteryWarn => 2
    case ReturnToHome => 3
    case EmergencyLand => 4
    case EmergencyDiverge => 5
    case ControlledDescent => 6
  }

  function FailsafeFromCode(code: U64): Result<FailSafeState, StateError> {
    if code == 0 then Success(Nominal)
    else if code == 1 then Success(AutonomousHold)
    else if code == 2 then Success(LowBatteryWarn)
    else if code == 3 then Success(ReturnToHome)
    else if code == 4 then Success(EmergencyLand)
    else if code == 5 then Success(EmergencyDiverge)
    else if code == 6 then Success(ControlledDescent)
    else Failure(UnknownFailsafe(code))
  }

  /** The Q16.16 code of an in-range value. */
  function Q16Code(value: real): (code: I32)
    requires Q16_MIN <= value <= Q16_MAX
  {
    assert -2147483648.0 <= value * SCALE <= 2147483647.0;
    RoundHalfAway(value * SCALE)
  }

  /** The symbol that the encoder stores under a required field. */
  function EncodedSymbol(drone: DroneState, failsafe: FailSafeState, field: U16): SymbolValue
    requires InQ16Range(Q16Source(drone, field))
  {
    if field == FIELD_SCHEMA_VERSION then U64Value(SCHEMA_VERSION)
    else if field == FIELD_NODE_ID then U64Value(drone.id)
    else if field == FIELD_TIMESTAMP_MS then U64Value(drone.timestampMs)
    else if field == FIELD_FAILSAFE_STATE then U64Value(FailsafeCode(failsafe))
    else Q16(Q16Code(Q16Source(drone, field).value))
  }

  /** What the encoder computes, as one map. */
  function Encode(drone: DroneState, failsafe: FailSafeState): Result<CriticalState, StateError> {
    var _ :- ValidateDomainRanges(drone);
    ValidationIsDomain(drone);
    Success(map field: U16 | IsRequired(field) :: EncodedSymbol(drone, failsafe, field))
  }

  /** A partly built state: required fields only, each with its own symbol. */
  predicate PartlyEncoded(state: CriticalState, drone: DroneState, failsafe: FailSafeState) {
    forall field: U16 | field in state ::
      && IsRequired(field)
      && InQ16Range(Q16Source(drone, field))
      && state[field] == EncodedSymbol(drone, failsafe, field)
  }

  /** Stores one field. The source checks the value again as it is stored; after the range
      validation that check cannot fail, because `Q16Code` is defined on every validated
      value and lands in the 32-bit range. */
  function Put(state: CriticalState, drone: DroneState, failsafe: FailSafeState, field: U16): (next: CriticalState)
    requires ValidDrone(drone) && IsRequired(field)
    requires PartlyEncoded(state, drone, failsafe)
    ensures PartlyEncoded(next, drone, failsafe)
    ensures next.Keys == state.Keys + {field}
  {
    ValidationIsDomain(drone);
    state[field := EncodedSymbol(drone, failsafe, field)]
  }

  /** The encoder: fields are stored one after another, and a failure returns no state. */
  method ToCriticalState(drone: DroneState, failsafe: FailSafeState) returns (r: Result<CriticalState, StateError>)
    ensures r == Encode(drone, failsafe)
  {
    ValidationIsDomain(drone);
    var _ :- ValidateDomainRanges(drone);
    var state: CriticalState := map[];
    state := Put(state, drone, failsafe, FIELD_SCHEMA_VERSION);
    state := Put(state, drone, failsafe, FIELD_NODE_ID);
    state := Put(state, drone, failsafe, FIELD_POSITION_NORTH_M);
    state := Put(state, drone, failsafe, FIELD_POSITION_EAST_M);
    state := Put(state, drone, failsafe, FIELD_POSITION_DOWN_M);
    state := Put(state, drone, failsafe, FIELD_VELOCITY_NORTH_MPS);
    state := Put(state, drone, failsafe, FIELD_VELOCITY_EAST_MPS);
    state := Put(state, drone, failsafe, FIELD_VELOCITY_DOWN_MPS);
    state := Put(state, drone, failsafe, FIELD_HEADING_RAD);
    state := Put(state, drone, failsafe, FIELD_ALTITUDE_AGL_M);
    state := Put(state, drone, failsafe, FIELD_BATTERY_PCT);
    state := Put(state, drone, failsafe, FIELD_LINK_QUALITY);
    state := Put(state, drone, failsafe, FIELD_TIMESTAMP_MS);
    state := Put(state, drone, failsafe, FIELD_FAILSAFE_STATE);
    FullyEncoded(state, drone, failsafe);
    return Success(state);
  }

  lemma FullyEncoded(state: CriticalState, drone: DroneState, failsafe: FailSafeState)
    requires ValidDrone(drone) && PartlyEncoded(state, drone, failsafe)
    requires FirstMissing(state).None?
    ensures Encode(drone, failsafe) == Success(state)
  {
    ValidationIsDomain(drone);
    assert forall field: U16 :: field in state <==> IsRequired(field);
    assert Encode(drone, failsafe).value == state;
  }

  // ------------------------------------------------------------------ decoding

  /** The first required field, in schema order, that the state lacks. */
  function FirstMissing(state: CriticalState): (r: Option<U16>)
    ensures r.None? <==> forall field: U16 | IsRequired(field) :: field in state
    ensures r.Some? ==> IsRequired(r.value) && r.value !in state
  {
    if FIELD_SCHEMA_VERSION !in state then Some(FIELD_SCHEMA_VERSION)
    else if FIELD_NODE_ID !in state then Some(FIELD_NODE_ID)
    else if FIELD_POSITION_NORTH_M !in state then Some(FIELD_POSITION_NORTH_M)
    else if FIELD_POSITION_EAST_M !in state then Some(FIELD_POSITION_EAST_M)
    else if FIELD_POSITION_DOWN_M !in state then Some(FIELD_POSITION_DOWN_M)
    else if FIELD_VELOCITY_NORTH_MPS !in state then Some(FIELD_VELOCITY_NORTH_MPS)
    else if FIELD_VELOCITY_EAST_MPS !in state then Some(FIELD_VELOCITY_EAST_MPS)
    else if FIELD_VELOCITY_DOWN_MPS !in state then Some(FIELD_VELOCITY_DOWN_MPS)
    else if FIELD_HEADING_RAD !in state then Some(FIELD_HEADING_RAD)
    else if FIELD_ALTITUDE_AGL_M !in state then Some(FIELD_ALTITUDE_AGL_M)
    else if FIELD_BATTERY_PCT !in state then Some(FIELD_BATTERY_PCT)
    else if FIELD_LINK_QUALITY !in state then Some(FIELD_LINK_QUALITY)
    else if FIELD_TIMESTAMP_MS !in state then Some(FIELD_TIMESTAMP_MS)
    else if FIELD_FAILSAFE_STATE !in state then Some(FIELD_FAILSAFE_STATE)
    else None
  }

  function ValidateFieldSet(state: CriticalState): (r: Result<(), StateError>)
    ensures r.Success? <==> forall field: U16 :: field in state <==> IsRequired(field)
  {
    var missing := FirstMissing(state);
    if missing.Some? then Failure(MissingField(missing.value))
    else Check(forall field | field in state :: IsRequired(field), UnknownField)
  }

  function RequiredU64(state: CriticalState, field: U16): Result<U64, StateError> {
    if field !in state then Failure(MissingField(field))
    else if !state[field].U64Value? then Failure(WrongType(field))
    else Success(state[field].number)
  }

  function RequiredQ16(state: CriticalState, field: U16): Result<F64, StateError> {
    if field !in state then Failure(MissingField(field))
    else if !state[field].Q16? then Failure(WrongType(field))
    else Success(Finite(state[field].code as real / SCALE))
  }

  function DecodeDrone(state: CriticalState, node: U32): Result<DroneState, StateError> {
    var x :- RequiredQ16(state, FIELD_POSITION_NORTH_M);
    var y :- RequiredQ16(state, FIELD_POSITION_EAST_M);
    var z :- RequiredQ16(state, FIELD_POSITION_DOWN_M);
    var vx :- RequiredQ16(state, FIELD_VELOCITY_NORTH_MPS);
    var vy :- RequiredQ16(state, FIELD_VELOCITY_EAST_MPS);
    var vz :- RequiredQ16(state, FIELD_VELOCITY_DOWN_MPS);
    var heading :- RequiredQ16(state, FIELD_HEADING_RAD);
    var altitude :- RequiredQ16(state, FIELD_ALTITUDE_AGL_M);
    var battery :- RequiredQ16(state, FIELD_BATTERY_PCT);
    var link :- RequiredQ16(state, FIELD_LINK_QUALITY);
    var timestamp :- RequiredU64(state, FIELD_TIMESTAMP_MS);
    Success(DroneState(node, x, y, z, vx, vy, vz, heading, altitude, battery, link, timestamp))
  }

  function Decode(state: CriticalState): Result<Snapshot, StateError> {
    var _ :- ValidateFieldSet(state);
    var schema :- RequiredU64(state, FIELD_SCHEMA_VERSION);
    var _ :- Check(schema == SCHEMA_VERSION, UnsupportedSchema(schema));
    var node :- RequiredU64(state, FIELD_NODE_ID);
    var _ :- Check(node <= U32_MAX, OutOfRange("node_id"));
    var failsafeCode :- RequiredU64(state, FIELD_FAILSAFE_STATE);
    var failsafe :- FailsafeFromCode(failsafeCode);
    var drone :- DecodeDrone(state, node);
    var _ :- ValidateDomainRanges(drone);
    Success(Snapshot(drone, failsafe))
  }

  // ---------------------------------------------------------------- round trips

  /** The state stores each Q16.16 value of the drone as that value times 65536. */
  predicate StoresDrone(state: CriticalState, drone: DroneState) {
    forall field: U16 | IsQ16Field(field) ::
      && field in state
      && state[field].Q16?
      && Q16Source(drone, field) == Finite(state[field].code as real / SCALE)
  }

  lemma DecodeDroneShape(state: CriticalState, node: U32)
    ensures DecodeDrone(state, node).Success? ==>
              && StoresDrone(state, DecodeDrone(state, node).value)
              && DecodeDrone(state, node).value.id == node
              && FIELD_TIMESTAMP_MS in state
              && state[FIELD_TIMESTAMP_MS] == U64Value(DecodeDrone(state, node).value.timestampMs)
    ensures (forall field: U16 | IsQ16Field(field) :: field in state && state[field].Q16?)
            && FIELD_TIMESTAMP_MS in state && state[FIELD_TIMESTAMP_MS].U64Value?
            ==> DecodeDrone(state, node).Success?
  {
  }

  /** A critical state that decodes has exactly the schema's fields, and each Q16.16
      field of the snapshot is the stored code divided by 65536. */
  lemma DecodeShape(state: CriticalState)
    requires Decode(state).Success?
    ensures forall field: U16 :: field in state <==> IsRequired(field)
    ensures ValidDrone(Decode(state).value.drone)
    ensures StoresDrone(state, Decode(state).value.drone)
    ensures state[FIELD_SCHEMA_VERSION] == U64Value(SCHEMA_VERSION)
    ensures state[FIELD_NODE_ID] == U64Value(Decode(state).value.drone.id)
    ensures state[FIELD_TIMESTAMP_MS] == U64Value(Decode(state).value.drone.timestampMs)
    ensures state[FIELD_FAILSAFE_STATE] == U64Value(FailsafeCode(Decode(state).value.failsafe))
  {
    var drone := Decode(state).value.drone;
    DecodeDroneShape(state, drone.id);
    ValidationIsDomain(drone);
  }

  lemma CodeOfStored(code: I32)
    ensures Q16_MIN <= code as real / SCALE <= Q16_MAX
    ensures Q16Code(code as real / SCALE) == code
  {
    assert code as real / SCALE * SCALE == code as real;
    RoundOfInteger(code);
  }

  /** Decoding and encoding again gives back the accepted critical state itself. */
  lemma DecodeThenEncode(state: CriticalState)
    requires Decode(state).Success?
    ensures Encode(Decode(state).value.drone, Decode(state).value.failsafe) == Success(state)
  {
    DecodeShape(state);
    var drone, failsafe := Decode(state).value.drone, Decode(state).value.failsafe;
    ValidationIsDomain(drone);
    forall field: U16 | IsRequired(field)
      ensures EncodedSymbol(drone, failsafe, field) == state[field]
    {
      if IsQ16Field(field) {
        CodeOfStored(state[field].code);
      }
    }
    assert Encode(drone, failsafe).value == state;
  }

  /** A snapshot agrees with the telemetry it was encoded from: integers exactly, every
      Q16.16 field to within half a code unit. */
  predicate Agrees(snapshot: Snapshot, drone: DroneState, failsafe: FailSafeState) {
    && snapshot.failsafe == failsafe
    && snapshot.drone.id == drone.id
    && snapshot.drone.timestampMs == drone.timestampMs
    && forall field: U16 | IsQ16Field(field) ::
         CloseTo(Q16Source(snapshot.drone, field), Q16Source(drone, field))
  }

  predicate CloseTo(a: F64, b: F64) {
    a.Finite? && b.Finite? && -1.0 / 131072.0 <= a.value - b.value <= 1.0 / 131072.0
  }

  lemma CodeIsClose(value: real)
    requires Q16_MIN <= value <= Q16_MAX
    ensures CloseTo(Finite(Q16Code(value) as real / SCALE), Finite(value))
  {
    var code := Q16Code(value) as real;
    assert -0.5 <= code - value * SCALE <= 0.5;
    assert code / SCALE - value == (code - value * SCALE) / SCALE;
  }

  /** The value that comes back for a value that was encoded. */
  function Rounded(value: F64): F64 {
    if InQ16Range(value) then Finite(Q16Code(value.value) as real / SCALE) else value
  }

  function RoundedDrone(drone: DroneState): DroneState {
    DroneState(drone.id,
               Rounded(drone.x), Rounded(drone.y), Rounded(drone.z),
               Rounded(drone.vx), Rounded(drone.vy), Rounded(drone.vz),
               Rounded(drone.headingRad), Rounded(drone.altitudeAglM),
               Rounded(drone.batteryPct), Rounded(drone.linkQuality), drone.timestampMs)
  }

  lemma RoundedInRange(value: F64)
    requires InQ16Range(value)
    ensures InQ16Range(Rounded(value)) && CloseTo(Rounded(value), value)
  {
    CodeOfStored(Q16Code(value.value));
    CodeIsClose(value.value);
  }

  /** Rounding to a code keeps a bound that is itself a multiple of 1/65536. */
  lemma RoundedKeepsBounds(value: F64, low: int, high: int)
    requires InQ16Range(value) && InRange(value, low as real / SCALE, high as real / SCALE)
    ensures InRange(Rounded(value), low as real / SCALE, high as real / SCALE)
  {
    assert low as real <= value.value * SCALE <= high as real;
    assert low <= Q16Code(value.value) <= high;
  }

  lemma RoundedHeading(value: F64)
    requires InRange(value, -TAU, TAU)
    ensures InRange(Rounded(value), -TAU, TAU) <==> -MAX_HEADING_CODE <= Q16Code(value.value) <= MAX_HEADING_CODE
  {
    var code := Q16Code(value.value);
    assert MAX_HEADING_CODE as real / SCALE <= TAU < (MAX_HEADING_CODE + 1) as real / SCALE;
    if code > MAX_HEADING_CODE {
      assert code as real / SCALE >= (MAX_HEADING_CODE + 1) as real / SCALE;
    } else if code < -MAX_HEADING_CODE {
      assert code as real / SCALE <= -(MAX_HEADING_CODE + 1) as real / SCALE;
    } else {
      assert -(MAX_HEADING_CODE as real) / SCALE <= code as real / SCALE <= MAX_HEADING_CODE as real / SCALE;
    }
  }

  lemma RoundedVectorInRange(x: F64, y: F64, z: F64)
    requires InQ16Range(x) && InQ16Range(y) && InQ16Range(z)
    ensures InQ16Range(Rounded(x)) && InQ16Range(Rounded(y)) && InQ16Range(Rounded(z))
  {
    RoundedInRange(x);
    RoundedInRange(y);
    RoundedInRange(z);
  }

  lemma RoundedScalarsInRange(altitude: F64, battery: F64, link: F64)
    requires InRange(altitude, 0.0, Q16_MAX) && InRange(battery, 0.0, 100.0) && InRange(link, 0.0, 1.0)
    ensures InRange(Rounded(altitude), 0.0, Q16_MAX)
    ensures InRange(Rounded(battery), 0.0, 100.0) && InRange(Rounded(link), 0.0, 1.0)
  {
    RoundedKeepsBounds(altitude, 0, 0x7FFF_FFFF);
    RoundedKeepsBounds(battery, 0, 6553600);
    RoundedKeepsBounds(link, 0, 65536);
  }

  lemma RoundedDroneDomain(drone: DroneState)
    requires ValidDrone(drone)
    ensures ValidDrone(RoundedDrone(drone)) <==>
            -MAX_HEADING_CODE <= Q16Code(drone.headingRad.value) <= MAX_HEADING_CODE
  {
    RoundedVectorInRange(drone.x, drone.y, drone.z);
    RoundedVectorInRange(drone.vx, drone.vy, drone.vz);
    RoundedScalarsInRange(drone.altitudeAglM, drone.batteryPct, drone.linkQuality);
    RoundedHeading(drone.headingRad);
  }

  /** The encoded state has the whole schema and stores the rounded drone. */
  lemma EncodedShape(drone: DroneState, failsafe: FailSafeState, state: CriticalState)
    requires ValidDrone(drone) && Encode(drone, failsafe) == Success(state)
    ensures ValidateFieldSet(state).Success?
    ensures DecodeDrone(state, drone.id) == Success(RoundedDrone(drone))
  {
    ValidationIsDomain(drone);
    forall field: U16 | IsRequired(field)
      ensures field in state && state[field] == EncodedSymbol(drone, failsafe, field)
    {
    }
    assert RequiredQ16(state, FIELD_POSITION_NORTH_M) == Success(Rounded(drone.x));
    assert RequiredQ16(state, FIELD_POSITION_EAST_M) == Success(Rounded(drone.y));
    assert RequiredQ16(state, FIELD_POSITION_DOWN_M) == Success(Rounded(drone.z));
    assert RequiredQ16(state, FIELD_VELOCITY_NORTH_MPS) == Success(Rounded(drone.vx));
    assert RequiredQ16(state, FIELD_VELOCITY_EAST_MPS) == Success(Rounded(drone.vy));
    assert RequiredQ16(state, FIELD_VELOCITY_DOWN_MPS) == Success(Rounded(drone.vz));
    assert RequiredQ16(state, FIELD_HEADING_RAD) == Success(Rounded(drone.headingRad));
    assert RequiredQ16(state, FIELD_ALTITUDE_AGL_M) == Success(Rounded(drone.altitudeAglM));
    assert RequiredQ16(state, FIELD_BATTERY_PCT) == Success(Rounded(drone.batteryPct));
    assert RequiredQ16(state, FIELD_LINK_QUALITY) == Success(Rounded(drone.linkQuality));
  }

  lemma RoundedAgrees(drone: DroneState, failsafe: FailSafeState)
    requires ValidDrone(drone)
    ensures Agrees(Snapshot(RoundedDrone(drone), failsafe), drone, failsafe)
  {
    ValidationIsDomain(drone);
    forall field: U16 | IsQ16Field(field)
      ensures CloseTo(Q16Source(RoundedDrone(drone), field), Q16Source(drone, field))
    {
      RoundedInRange(Q16Source(drone, field));
    }
  }

  /** Encoding and decoding valid telemetry succeeds exactly when the heading's code does
      not exceed 411774 in magnitude; codes nearer to 2*pi decode outside [-TAU, TAU]. When
      it succeeds, the snapshot agrees with the telemetry. */
  lemma EncodeThenDecode(drone: DroneState, failsafe: FailSafeState)
    requires ValidDrone(drone)
    ensures Encode(drone, failsafe).Success?
    ensures Decode(Encode(drone, failsafe).value).Success?
            <==> -MAX_HEADING_CODE <= Q16Code(drone.headingRad.value) <= MAX_HEADING_CODE
    ensures Decode(Encode(drone, failsafe).value).Success? ==>
              Agrees(Decode(Encode(drone, failsafe).value).value, drone, failsafe)
  {
    ValidationIsDomain(drone);
    var state := Encode(drone, failsafe).value;
    EncodedShape(drone, failsafe, state);
    RoundedDroneDomain(drone);
    RoundedAgrees(drone, failsafe);
    ValidationIsDomain(RoundedDrone(drone));
    assert state[FIELD_NODE_ID] == U64Value(drone.id);
    assert state[FIELD_FAILSAFE_STATE] == U64Value(FailsafeCode(failsafe));
    assert state[FIELD_SCHEMA_VERSION] == U64Value(SCHEMA_VERSION);
  }

  /** The encoder accepts a heading of exactly TAU, and its own decoder rejects the result. */
  lemma FullTurnDoesNotRoundTrip(drone: DroneState, failsafe: FailSafeState)
    requires ValidDrone(drone) && drone.headingRad == Finite(TAU)
    ensures Encode(drone, failsafe).Success?
    ensures Decode(Encode(drone, failsafe).value).Failure?
  {
    assert Q16Code(TAU) == 411775;
    EncodeThenDecode(drone, failsafe);
  }
}
