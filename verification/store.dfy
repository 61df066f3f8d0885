/** The in-memory annotation store and its five request handlers. The
    process-global dict becomes a `Store` value: every handler takes the
    store as it was before the request and, when it writes, returns the
    store as it is after. */
module AnnotationStore {
  import opened Json

  /** Message of the 400 response given by both writers when the id is missing. */
  const NoVideoIdMessage := "No video_id provided"

  /** Message of the review response for an unknown id. */
  const NoDataMessage := "No data for this video_id"

  /** What the store keeps for one video. Each annotation is the request
      body as received, stamped and with its time coerced. */
  datatype Record = Record(annotations: seq<Object>, criticalMoment: Option<Time>)

  /** The record created for an id seen for the first time. */
  const EmptyRecord := Record([], None)

  /** `annotations_db`: video id to record. */
  type Store = map<string, Record>

  /** A handler's reply: `Ok` is the 200 response, `BadRequest` the 400 one
      with its message, `ServerError` the 500 Flask sends when the handler
      raises (here: when `float()` fails). */
  datatype Response<+T> = Ok(value: T) | BadRequest(message: string) | ServerError

  /** Reply of the review handler. Both shapes carry an annotation list. */
  datatype Review =
    | Found(videoId: string, annotations: seq<Object>)
    | NoData(annotations: seq<Object>, message: string)

  /** Python truthiness of the id: `not video_id` is false. */
  predicate Present(id: Option<string>)
  {
    id.Some? && id.value != ""
  }

  /** `data.get('video_id')` for a body whose id, if any, is a JSON string. */
  function IdField(body: Object): (r: Option<string>)
    ensures r.Some? <==> Get(body, "video_id").Some? && Get(body, "video_id").value.Str?
    ensures r.Some? ==> Get(body, "video_id") == Some(Str(r.value))
  {
    if "video_id" in body && body["video_id"].Str? then Some(body["video_id"].s) else None
  }

  /** The record a writer works on: the stored one, or a fresh empty one. */
  function RecordOf(db: Store, id: string): Record
  {
    if id in db then db[id] else EmptyRecord
  }

  /** The create-if-absent step both writers perform before coercing. */
  function Touch(db: Store, id: string): Store
  {
    if id in db then db else db[id := EmptyRecord]
  }

  /** The annotation stored for `body`: stamped with the server time, then
      with its time replaced by the coerced float. */
  function Stamp(body: Object, stamp: string, t: Time): Object
  {
    body["timestamp" := Str(stamp)]["time" := Num(t)]
  }

  /** A stored annotation carries a float time and a string timestamp. */
  predicate Stamped(e: Object)
  {
    && "time" in e && e["time"].Num?
    && "timestamp" in e && e["timestamp"].Str?
  }

  /** What every store reachable from the empty one satisfies: no record
      under the empty id, and every stored annotation is stamped. */
  ghost predicate Valid(db: Store)
  {
    && "" !in db
    && forall id, j :: id in db && 0 <= j < |db[id].annotations| ==> Stamped(db[id].annotations[j])
  }

  /** POST /save_annotation. `stamp` is the server time as `time.strftime`
      formats it; `parse` is how `float()` reads a string. */
  function SaveAnnotation(db: Store, body: Object, stamp: string, parse: string -> Option<Time>)
    : (out: (Response<Object>, Store))
    // A missing or empty id is refused and nothing changes.
    ensures !Present(IdField(body)) ==> out.0 == BadRequest(NoVideoIdMessage) && out.1 == db
    // With an id the request succeeds exactly when its time coerces.
    ensures Present(IdField(body)) ==>
      (out.0.Ok? <==> ToFloat(Get(body, "time"), parse).Some?)
    ensures out.0.BadRequest? <==> !Present(IdField(body))
    // Whatever the coercion does, the id has a record afterwards, and no
    // other record appears, disappears or changes.
    ensures Present(IdField(body)) ==> out.1.Keys == db.Keys + {IdField(body).value}
    ensures forall k :: k in db && Some(k) != IdField(body) ==> k in out.1 && out.1[k] == db[k]
    // A failed coercion stores nothing but leaves the created record behind.
    ensures out.0.ServerError? ==>
      var id := IdField(body).value;
      && out.1[id] == RecordOf(db, id)
      && (id !in db ==> out.1[id] == EmptyRecord)
      && (id in db ==> out.1 == db)
    // Success appends the stamped, coerced body after the old annotations
    // and leaves the critical moment alone.
    ensures out.0.Ok? ==>
      var id := IdField(body).value;
      var e := out.0.value;
      && out.1[id].annotations == RecordOf(db, id).annotations + [e]
      && out.1[id].criticalMoment == RecordOf(db, id).criticalMoment
      && e.Keys == body.Keys + {"time", "timestamp"}
      && e["timestamp"] == Str(stamp)
      && e["time"].Num? && Some(e["time"].n) == ToFloat(Get(body, "time"), parse)
      && (forall k :: k in body && k != "time" && k != "timestamp" ==> e[k] == body[k])
    ensures Valid(db) ==> Valid(out.1)
  {
    var id := IdField(body);
    if !Present(id) then (BadRequest(NoVideoIdMessage), db)
    else
      var created := Touch(db, id.value);
      var stamped := body["timestamp" := Str(stamp)];
      match ToFloat(Get(stamped, "time"), parse)
      case None => (ServerError, created)
      case Some(t) =>
        var entry := stamped["time" := Num(t)];
        var rec := created[id.value];
        (Ok(entry), created[id.value := rec.(annotations := rec.annotations + [entry])])
  }

  /** GET /get_annotations?video_id=... */
  function GetAnnotations(db: Store, videoId: Option<string>): (r: seq<Object>)
    ensures !Present(videoId) ==> r == []
    ensures Present(videoId) ==> r == RecordOf(db, videoId.value).annotations
  {
    if !Present(videoId) || videoId.value !in db then [] else db[videoId.value].annotations
  }

  /** POST /set_critical_moment. The success reply echoes the raw value. */
  function SetCriticalMoment(db: Store, body: Object, parse: string -> Option<Time>)
    : (out: (Response<Value>, Store))
    ensures !Present(IdField(body)) ==> out.0 == BadRequest(NoVideoIdMessage) && out.1 == db
    ensures out.0.BadRequest? <==> !Present(IdField(body))
    ensures Present(IdField(body)) ==>
      (out.0.Ok? <==> ToFloat(Get(body, "critical_moment"), parse).Some?)
    ensures Present(IdField(body)) ==> out.1.Keys == db.Keys + {IdField(body).value}
    ensures forall k :: k in db && Some(k) != IdField(body) ==> k in out.1 && out.1[k] == db[k]
    ensures out.0.ServerError? ==>
      var id := IdField(body).value;
      && out.1[id] == RecordOf(db, id)
      && (id !in db ==> out.1[id] == EmptyRecord)
      && (id in db ==> out.1 == db)
    // Success overwrites the moment with the coerced value, echoes the raw
    // one, and keeps the annotations.
    ensures out.0.Ok? ==>
      var id := IdField(body).value;
      && Get(body, "critical_moment") == Some(out.0.value)
      && out.1[id].criticalMoment == ToFloat(Get(body, "critical_moment"), parse)
      && out.1[id].annotations == RecordOf(db, id).annotations
    ensures Valid(db) ==> Valid(out.1)
  {
    var id := IdField(body);
    var raw := Get(body, "critical_moment");
    if !Present(id) then (BadRequest(NoVideoIdMessage), db)
    else
      var created := Touch(db, id.value);
      match ToFloat(raw, parse)
      case None => (ServerError, created)
      case Some(t) =>
        (Ok(raw.value), created[id.value := created[id.value].(criticalMoment := Some(t))])
  }

  /** GET /get_critical_moment?video_id=... */
  function GetCriticalMoment(db: Store, videoId: Option<string>): (r: Option<Time>)
    ensures !Present(videoId) ==> r.None?
    ensures Present(videoId) ==> r == RecordOf(db, videoId.value).criticalMoment
  {
    if !Present(videoId) || videoId.value !in db then None
    else db[videoId.value].criticalMoment
  }

  /** GET /review_annotations?video_id=... */
  function ReviewAnnotations(db: Store, videoId: Option<string>): (r: Review)
    // The review is exactly the get_annotations list, plus the id when found.
    ensures r.annotations == GetAnnotations(db, videoId)
    ensures r.Found? <==> Present(videoId) && videoId.value in db
    ensures r.Found? ==> r.videoId == videoId.value
    ensures r.NoData? ==> r.annotations == [] && r.message == NoDataMessage
  {
    if !Present(videoId) || videoId.value !in db then NoData([], NoDataMessage)
    else Found(videoId.value, db[videoId.value].annotations)
  }
}
