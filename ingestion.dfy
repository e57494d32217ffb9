/**
 * The document-building part of the MQTT message handler (`on_message`,
 * app.py:97-147): which messages are stored, in which collection, and
 * with which fields.
 */
module Ingestion {
  import opened Wrappers
  import opened Records

  const ImuTopic := "/mobile/imu"
  const GpsTopic := "/mobile/gps"

  /** A message body after `json.loads`: `Malformed` when decoding fails,
      `NonObject` when it decodes to something other than an object. */
  datatype Payload = Malformed | NonObject | Object(fields: map<string, Json>)

  datatype Message = Message(topic: string, retain: bool, payload: Payload)

  /** Why an accepted message stores nothing: a `KeyError` (reported with
      the missing key), any other exception while decoding or building the
      document, an integer the driver cannot encode, or a failed insert. */
  datatype Drop = MissingKey(key: string) | BadPayload | Unencodable | WriteFailed

  datatype Outcome =
    | Retained           // a retained message, ignored before anything else
    | Unrouted           // a topic that is neither of the two
    | Dropped(why: Drop) // logged and lost
    | Stored(doc: Reading)

  /** `payload.get(key)`: a missing key reads as `None`. */
  function Get(fields: map<string, Json>, key: string): Json {
    if key in fields then fields[key] else Null
  }

  /** `payload[outer][inner]` on a required object. Indexing anything but
      an object raises `TypeError`. */
  function Required(fields: map<string, Json>, outer: string, inner: string): (r: Result<int, Drop>)
    ensures r.Ok? <==> outer in fields && fields[outer].Obj? && inner in fields[outer].members
    ensures r.Ok? ==> r.value == fields[outer].members[inner]
    ensures outer !in fields ==> r == Err(MissingKey(outer))
    ensures outer in fields && fields[outer].Obj? && inner !in fields[outer].members ==> r == Err(MissingKey(inner))
  {
    if outer !in fields then Err(MissingKey(outer))
    else match fields[outer]
      case Obj(m) => if inner in m then Ok(m[inner]) else Err(MissingKey(inner))
      case _ => Err(BadPayload)
  }

  /** `payload.get("gyro", {}).get(axis, 0.0)`: each axis on its own
      defaults to 0, and a `gyro` that is not an object has no `.get`. */
  function GyroAxis(fields: map<string, Json>, axis: string): (r: Result<int, Drop>)
    ensures r.Ok? <==> "gyro" !in fields || fields["gyro"].Obj?
    ensures "gyro" !in fields ==> r == Ok(0)
    ensures "gyro" in fields && fields["gyro"].Obj? ==>
      r == Ok(if axis in fields["gyro"].members then fields["gyro"].members[axis] else 0)
  {
    if "gyro" !in fields then Ok(0)
    else match fields["gyro"]
      case Obj(m) => Ok(if axis in m then m[axis] else 0)
      case _ => Err(BadPayload)
  }

  /** The `imu` document, its fields evaluated in the order they are written. */
  function MotionDoc(fields: map<string, Json>, now: Instant): Result<Reading, Drop> {
    var ax :- Required(fields, "acc", "x");
    var ay :- Required(fields, "acc", "y");
    var az :- Required(fields, "acc", "z");
    var gx :- GyroAxis(fields, "x");
    var gy :- GyroAxis(fields, "y");
    var gz :- GyroAxis(fields, "z");
    Ok(Motion(Get(fields, "timestamp"), Get(fields, "session"), ax, ay, az, gx, gy, gz, now))
  }

  /** The `gps` document. */
  function PositionDoc(fields: map<string, Json>, now: Instant): Result<Reading, Drop> {
    var lat :- Required(fields, "gps", "lat");
    var lon :- Required(fields, "gps", "lon");
    Ok(Position(Get(fields, "timestamp"), Get(fields, "session"), lat, lon, now))
  }

  /** `acc` is an object holding `x`, `y` and `z`, and `gyro`, if present,
      is an object. */
  predicate MotionShape(fields: map<string, Json>) {
    && "acc" in fields && fields["acc"].Obj?
    && "x" in fields["acc"].members && "y" in fields["acc"].members && "z" in fields["acc"].members
    && ("gyro" !in fields || fields["gyro"].Obj?)
  }

  /** The `imu` document is built exactly when the payload has its shape. */
  lemma MotionDocBuilt(fields: map<string, Json>, now: Instant)
    ensures MotionDoc(fields, now).Ok? <==> MotionShape(fields)
  {
  }

  lemma PositionDocBuilt(fields: map<string, Json>, now: Instant)
    ensures PositionDoc(fields, now).Ok? <==> PositionShape(fields)
  {
  }

  predicate PositionShape(fields: map<string, Json>) {
    "gps" in fields && fields["gps"].Obj? && "lat" in fields["gps"].members && "lon" in fields["gps"].members
  }

  /** What handling `msg` at server time `now` does; `writeOk` says whether
      the store accepts the insert. */
  function Ingest(msg: Message, now: Instant, writeOk: bool): (o: Outcome)
    // retained messages are dropped before anything else
    ensures msg.retain ==> o == Retained
    // a message is stored exactly when it is fresh, well formed for its topic,
    // encodable and written
    ensures o.Stored? <==>
      && !msg.retain && writeOk && msg.payload.Object?
      && ((msg.topic == ImuTopic && MotionShape(msg.payload.fields)
           && Encodable(MotionDoc(msg.payload.fields, now).value))
          || (msg.topic == GpsTopic && PositionShape(msg.payload.fields)
           && Encodable(PositionDoc(msg.payload.fields, now).value)))
    ensures o.Stored? ==> Encodable(o.doc)
    // an integer outside the 64-bit range drops the document, insert or not
    ensures o == Dropped(Unencodable) <==>
      && !msg.retain && msg.payload.Object?
      && ((msg.topic == ImuTopic && MotionShape(msg.payload.fields)
           && !Encodable(MotionDoc(msg.payload.fields, now).value))
          || (msg.topic == GpsTopic && PositionShape(msg.payload.fields)
           && !Encodable(PositionDoc(msg.payload.fields, now).value)))
    // the topic decides the collection
    ensures o.Stored? ==> (o.doc.Motion? <==> msg.topic == ImuTopic)
    ensures o.Unrouted? ==> msg.topic != ImuTopic && msg.topic != GpsTopic
    // the receipt time is the one instant captured for this message
    ensures o.Stored? ==> o.doc.receivedAt == now
    // timestamp and session are copied as sent, without conversion
    ensures o.Stored? ==> o.doc.timestamp == Get(msg.payload.fields, "timestamp")
    ensures o.Stored? ==> o.doc.session == Get(msg.payload.fields, "session")
    // acceleration and position come from the required objects
    ensures o.Stored? && o.doc.Motion? ==>
      var acc := msg.payload.fields["acc"].members;
      o.doc.ax == acc["x"] && o.doc.ay == acc["y"] && o.doc.az == acc["z"]
    ensures o.Stored? && o.doc.Position? ==>
      var gps := msg.payload.fields["gps"].members;
      o.doc.lat == gps["lat"] && o.doc.lon == gps["lon"]
    // each rotation axis defaults to 0 on its own
    ensures o.Stored? && o.doc.Motion? && "gyro" !in msg.payload.fields ==>
      o.doc.gx == 0 && o.doc.gy == 0 && o.doc.gz == 0
    ensures o.Stored? && o.doc.Motion? && "gyro" in msg.payload.fields ==>
      var gyro := msg.payload.fields["gyro"].members;
      && o.doc.gx == (if "x" in gyro then gyro["x"] else 0)
      && o.doc.gy == (if "y" in gyro then gyro["y"] else 0)
      && o.doc.gz == (if "z" in gyro then gyro["z"] else 0)
    // a missing required object is reported by its name
    ensures !msg.retain && msg.payload.Object? && msg.topic == ImuTopic && "acc" !in msg.payload.fields ==>
      o == Dropped(MissingKey("acc"))
    ensures !msg.retain && msg.payload.Object? && msg.topic == GpsTopic && "gps" !in msg.payload.fields ==>
      o == Dropped(MissingKey("gps"))
  {
    if msg.retain then Retained
    else match msg.payload
      case Malformed => Dropped(BadPayload)
      case NonObject =>
        if msg.topic == ImuTopic || msg.topic == GpsTopic then Dropped(BadPayload) else Unrouted
      case Object(fields) =>
        MotionDocBuilt(fields, now);
        PositionDocBuilt(fields, now);
        if msg.topic == ImuTopic then Write(MotionDoc(fields, now), writeOk)
        else if msg.topic == GpsTopic then Write(PositionDoc(fields, now), writeOk)
        else Unrouted
  }

  /** `insert_one(doc)` once the document is built: the driver encodes it
      before it is sent. */
  function Write(doc: Result<Reading, Drop>, writeOk: bool): Outcome {
    match doc
    case Err(e) => Dropped(e)
    case Ok(d) =>
      if !Encodable(d) then Dropped(Unencodable)
      else if writeOk then Stored(d)
      else Dropped(WriteFailed)
  }
}
