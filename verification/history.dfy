/** Properties of sequences of write requests applied to the store one after
    another, and of pairs of requests. */
module StoreHistory {
  import opened Json
  import opened AnnotationStore

  /** A write request with what it needs from outside: the body, and for a
      save the server time at which it arrived. */
  datatype Request = SaveRequest(body: Object, stamp: string) | SetRequest(body: Object)

  function Apply(db: Store, req: Request, parse: string -> Option<Time>): Store
  {
    match req
    case SaveRequest(body, stamp) => SaveAnnotation(db, body, stamp, parse).1
    case SetRequest(body) => SetCriticalMoment(db, body, parse).1
  }

  /** The store after `reqs`, in arrival order, starting from `db`. */
  function Replay(db: Store, reqs: seq<Request>, parse: string -> Option<Time>): Store
    decreases |reqs|
  {
    if |reqs| == 0 then db
    else Apply(Replay(db, reqs[..|reqs| - 1], parse), reqs[|reqs| - 1], parse)
  }

  /** The id a request names, if it passes the `not video_id` test. */
  function Target(req: Request): Option<string>
  {
    if Present(IdField(req.body)) then IdField(req.body) else None
  }

  /** The annotation a request adds to `id`, read off the request alone:
      an accepted save for `id` adds its stamped body, anything else nothing. */
  function Added(req: Request, id: string, parse: string -> Option<Time>): seq<Object>
  {
    match req
    case SetRequest(_) => []
    case SaveRequest(body, stamp) =>
      if Target(req) != Some(id) then []
      else match ToFloat(Get(body, "time"), parse)
        case None => []
        case Some(t) => [Stamp(body, stamp, t)]
  }

  /** Reference history of `id`'s annotations: what the accepted saves for it
      added, in arrival order. */
  function Saved(reqs: seq<Request>, id: string, parse: string -> Option<Time>): seq<Object>
    decreases |reqs|
  {
    if |reqs| == 0 then []
    else Saved(reqs[..|reqs| - 1], id, parse) + Added(reqs[|reqs| - 1], id, parse)
  }

  /** Reference history of `id`'s critical moment: the value of the last
      accepted set for it, or `initial` when there is none. */
  function LastSet(reqs: seq<Request>, id: string, parse: string -> Option<Time>, initial: Option<Time>)
    : Option<Time>
    decreases |reqs|
  {
    if |reqs| == 0 then initial
    else
      var req := reqs[|reqs| - 1];
      var before := LastSet(reqs[..|reqs| - 1], id, parse, initial);
      match req
      case SaveRequest(_, _) => before
      case SetRequest(body) =>
        if Target(req) != Some(id) then before
        else match ToFloat(Get(body, "critical_moment"), parse)
          case None => before
          case Some(t) => Some(t)
  }

  /** The ids the requests in `reqs` name. */
  function Named(reqs: seq<Request>): set<string>
    decreases |reqs|
  {
    if |reqs| == 0 then {}
    else
      var req := reqs[|reqs| - 1];
      Named(reqs[..|reqs| - 1]) + (if Target(req).Some? then {Target(req).value} else {})
  }

  /** What a request leaves in one id's record. */
  lemma ApplyRecord(db: Store, req: Request, id: string, parse: string -> Option<Time>)
    ensures RecordOf(Apply(db, req, parse), id)
         == if Target(req) == Some(id) then Update(RecordOf(db, id), req, parse) else RecordOf(db, id)
  {
    ApplyIsLocal(db, req, parse);
  }

  /** Appends preserve history: an id's annotations after any run of
      requests are its old annotations followed by exactly the entries of the
      accepted saves for it, in arrival order. */
  lemma {:induction false} ReplayAnnotations(db: Store, reqs: seq<Request>, id: string, parse: string -> Option<Time>)
    ensures RecordOf(Replay(db, reqs, parse), id).annotations
         == RecordOf(db, id).annotations + Saved(reqs, id, parse)
    decreases |reqs|
  {
    if |reqs| > 0 {
      var prefix, req := reqs[..|reqs| - 1], reqs[|reqs| - 1];
      ReplayAnnotations(db, prefix, id, parse);
      var before := Replay(db, prefix, parse);
      ApplyRecord(before, req, id, parse);
      assert RecordOf(Apply(before, req, parse), id).annotations
          == RecordOf(before, id).annotations + Added(req, id, parse);
    }
  }

  /** Overwrite semantics over a whole history: an id's critical moment is
      the value of the last accepted set for it, or the one it had before. */
  lemma {:induction false} ReplayCriticalMoment(db: Store, reqs: seq<Request>, id: string, parse: string -> Option<Time>)
    ensures RecordOf(Replay(db, reqs, parse), id).criticalMoment
         == LastSet(reqs, id, parse, RecordOf(db, id).criticalMoment)
    decreases |reqs|
  {
    if |reqs| > 0 {
      var prefix, req := reqs[..|reqs| - 1], reqs[|reqs| - 1];
      ReplayCriticalMoment(db, prefix, id, parse);
      ApplyRecord(Replay(db, prefix, parse), req, id, parse);
    }
  }

  /** Every named id has a record afterwards, whether or not the request
      that named it succeeded, and no record is removed. */
  lemma {:induction false} ReplayKeys(db: Store, reqs: seq<Request>, parse: string -> Option<Time>)
    ensures Replay(db, reqs, parse).Keys == db.Keys + Named(reqs)
    decreases |reqs|
  {
    if |reqs| > 0 {
      var prefix := reqs[..|reqs| - 1];
      ReplayKeys(db, prefix, parse);
      ApplyIsLocal(Replay(db, prefix, parse), reqs[|reqs| - 1], parse);
    }
  }

  /** Starting from the empty store every reachable store is valid: no
      record under "", and every annotation has a float time and a stamp. */
  lemma {:induction false} ReplayValid(reqs: seq<Request>, parse: string -> Option<Time>)
    ensures Valid(Replay(map[], reqs, parse))
    decreases |reqs|
  {
    if |reqs| > 0 {
      ReplayValid(reqs[..|reqs| - 1], parse);
    }
  }

  /** Setting `v1` and then `v2` for the same id reads back `v2`; the
      annotations of that id are those it had before. */
  lemma SetTwiceOverwrites(db: Store, first: Object, second: Object, parse: string -> Option<Time>)
    requires Present(IdField(first)) && IdField(second) == IdField(first)
    requires ToFloat(Get(first, "critical_moment"), parse).Some?
    requires ToFloat(Get(second, "critical_moment"), parse).Some?
    ensures var id := IdField(first);
      var after := SetCriticalMoment(SetCriticalMoment(db, first, parse).1, second, parse).1;
      && GetCriticalMoment(after, id) == ToFloat(Get(second, "critical_moment"), parse)
      && GetAnnotations(after, id) == GetAnnotations(db, id)
  {
  }

  /** A save for one id followed by a read of it returns the old list with
      the new entry last, and the critical moment is what it was. */
  lemma SaveThenGet(db: Store, body: Object, stamp: string, parse: string -> Option<Time>)
    requires Present(IdField(body))
    requires ToFloat(Get(body, "time"), parse).Some?
    ensures var out := SaveAnnotation(db, body, stamp, parse);
      var id := IdField(body);
      && out.0 == Ok(Stamp(body, stamp, ToFloat(Get(body, "time"), parse).value))
      && GetAnnotations(out.1, id) == GetAnnotations(db, id) + [out.0.value]
      && GetCriticalMoment(out.1, id) == GetCriticalMoment(db, id)
  {
  }

  /** What a request does to the record of the id it names, given that
      record's previous value (a fresh empty one for a new id). */
  function Update(rec: Record, req: Request, parse: string -> Option<Time>): Record
  {
    match req
    case SaveRequest(body, stamp) =>
      (match ToFloat(Get(body, "time"), parse)
       case None => rec
       case Some(t) => rec.(annotations := rec.annotations + [Stamp(body, stamp, t)]))
    case SetRequest(body) =>
      (match ToFloat(Get(body, "critical_moment"), parse)
       case None => rec
       case Some(t) => rec.(criticalMoment := Some(t)))
  }

  /** Every write is local: it leaves the store alone when it names no id,
      and otherwise replaces exactly the named id's record by a value that
      depends only on that record and the request. */
  lemma ApplyIsLocal(db: Store, req: Request, parse: string -> Option<Time>)
    ensures Target(req).None? ==> Apply(db, req, parse) == db
    ensures Target(req).Some? ==>
      var id := Target(req).value;
      Apply(db, req, parse) == db[id := Update(RecordOf(db, id), req, parse)]
  {
    if Target(req).Some? {
      var id := Target(req).value;
      var after := Apply(db, req, parse);
      var expected := db[id := Update(RecordOf(db, id), req, parse)];
      assert after.Keys == expected.Keys;
      forall k | k in after
        ensures after[k] == expected[k]
      {
      }
    }
  }

  /** Writes to different ids commute: the order in which two requests for
      distinct ids arrive does not change the resulting store. */
  lemma DistinctIdsCommute(db: Store, a: Request, b: Request, parse: string -> Option<Time>)
    requires Target(a) != Target(b) || Target(a).None?
    ensures Apply(Apply(db, a, parse), b, parse) == Apply(Apply(db, b, parse), a, parse)
  {
    var dbA, dbB := Apply(db, a, parse), Apply(db, b, parse);
    ApplyIsLocal(db, a, parse);
    ApplyIsLocal(db, b, parse);
    ApplyIsLocal(dbA, b, parse);
    ApplyIsLocal(dbB, a, parse);
    if Target(a).Some? && Target(b).Some? {
      var x, y := Target(a).value, Target(b).value;
      var ux, uy := Update(RecordOf(db, x), a, parse), Update(RecordOf(db, y), b, parse);
      assert dbA == db[x := ux];
      assert dbB == db[y := uy];
      assert RecordOf(dbA, y) == RecordOf(db, y);
      assert RecordOf(dbB, x) == RecordOf(db, x);
      assert Apply(dbA, b, parse) == db[x := ux][y := uy];
      assert Apply(dbB, a, parse) == db[y := uy][x := ux];
      MapUpdatesCommute(db, x, ux, y, uy);
    }
  }

  /** Updates of two different keys can be applied in either order. */
  lemma MapUpdatesCommute(m: Store, x: string, u: Record, y: string, v: Record)
    requires x != y
    ensures m[x := u][y := v] == m[y := v][x := u]
  {
  }

  /** The scenario of a first annotation on an empty store. */
  lemma FirstAnnotationScenario(parse: string -> Option<Time>)
    requires parse("12.34") == Some(12.34)
    ensures var body := map["video_id" := Str("v1"), "time" := Str("12.34"),
                             "comment" := Str("rock"), "user" := Str("Alice")];
      var out := SaveAnnotation(map[], body, "2025-01-01 12:00:00", parse);
      var got := GetAnnotations(out.1, Some("v1"));
      && |got| == 1
      && got[0]["time"] == Num(12.34)
      && got[0]["comment"] == Str("rock")
      && got[0]["timestamp"] == Str("2025-01-01 12:00:00")
  {
  }
}
