/**
 * The main thread's side of the media worker (`createWorkerBridge` in app.js):
 * requests are numbered 0, 1, 2, ..., each waits in `pending` until the worker
 * answers it, and a crash or a garbled message rejects everything that waits.
 * Promise settlement is recorded in `settled`; callbacks are recorded in logs.
 * Events are handled one at a time, as the JavaScript event loop does.
 */
module Bridge {
  import opened Wrappers
  import opened Text
  import opened EngineArgs

  datatype Action = Probe | Transcode | Remux

  /** The `payload` of a message from the worker: an optional `message` text and the bytes it carries. */
  datatype Payload = Payload(message: Option<string>, buffer: seq<bv8>)

  /** The `type` of a message from the worker. */
  datatype Kind = Result | Error | Progress | Log | OtherKind(tag: string)

  /** What was posted to the worker. */
  datatype Request = Request(id: int, action: Action, payload: RequestPayload)

  /** How the promise of a request ended. */
  datatype Settlement = Resolved(result: Payload) | Rejected(message: string)

  /** The options a caller passes to `transcode` or `remux`. */
  datatype Options = Options(
    name: Option<string>,
    hasAudio: Option<bool>,
    crf: Option<string>,
    preset: Option<string>,
    audioBitrate: Option<string>)

  const NoOptions := Options(None, None, None, None, None)

  const WorkerErrorMessage := "FFmpeg worker error."
  const CrashedMessage := "FFmpeg worker crashed."
  const CrashedReport := "FFmpeg worker crashed. See console."
  const CommunicationMessage := "FFmpeg worker communication error."

  /**
   * The payload `transcode`/`remux` post: the other options as given, a name
   * defaulting to `<prefix>-<now>`, and `hasAudio` only when it is `false`.
   */
  function EnginePayload(prefix: string, buffer: seq<bv8>, options: Options, now: nat): (p: RequestPayload)
    ensures p.buffer == buffer
    ensures p.name.Some? && p.name.value != ""
    ensures options.name.Some? && options.name.value != "" ==> p.name == options.name
    ensures options.name.None? || options.name.value == "" ==> StartsWith(p.name.value, prefix + "-")
    ensures Silent(p) <==> options.hasAudio == Some(false)
    ensures p.hasAudio != Some(true)
    ensures p.crf == options.crf && p.preset == options.preset && p.audioBitrate == options.audioBitrate
  {
    var fallback := prefix + "-" + NatToString(now);
    assert fallback[..|prefix + "-"|] == prefix + "-";
    RequestPayload(
      Some(OrDefault(options.name, fallback)),
      buffer,
      if options.hasAudio == Some(false) then Some(false) else None,
      options.crf, options.preset, options.audioBitrate)
  }

  /** The payload `probe` posts: the given options (only a name here) and the buffer. */
  function ProbePayload(buffer: seq<bv8>, name: Option<string>): (p: RequestPayload)
    ensures p.buffer == buffer && p.name == name && p.hasAudio.None?
  {
    RequestPayload(name, buffer, None, None, None, None)
  }

  /** `m2` keeps every entry of `m1`: a settled promise never changes. */
  ghost predicate Extends(m1: map<int, Settlement>, m2: map<int, Settlement>) {
    forall id :: id in m1 ==> id in m2 && m2[id] == m1[id]
  }

  /** `m` with every id of `ids` rejected with `reason`. */
  function RejectAll(m: map<int, Settlement>, ids: set<int>, reason: string): (r: map<int, Settlement>)
    ensures r.Keys == m.Keys + ids
    ensures forall k :: k in ids ==> r[k] == Rejected(reason)
    ensures forall k :: k in m && k !in ids ==> r[k] == m[k]
  {
    map k | k in m.Keys + ids :: if k in ids then Rejected(reason) else m[k]
  }

  /** Rejecting one more id is one more update of the map. */
  lemma RejectOneMore(m: map<int, Settlement>, ids: set<int>, id: int, reason: string)
    ensures RejectAll(m, ids + {id}, reason) == RejectAll(m, ids, reason)[id := Rejected(reason)]
  {
  }

  /** The pending ids below `bound`. */
  function Below(pending: map<int, Action>, bound: int): (r: set<int>)
    ensures forall k :: k in r <==> k in pending && k < bound
  {
    set k | k in pending && k < bound
  }

  /** Every id issued so far is either pending or settled, never both; no other id is known. */
  ghost predicate Consistent(pending: map<int, Action>, settled: map<int, Settlement>, requestId: nat) {
    && (forall id :: id in pending ==> 0 <= id < requestId && id !in settled)
    && (forall id :: id in settled ==> 0 <= id < requestId)
    && (forall id :: 0 <= id < requestId ==> id in pending || id in settled)
  }

  /** Rejecting everything pending leaves nothing pending and every issued id settled. */
  lemma RejectAllConsistent(pending: map<int, Action>, settled: map<int, Settlement>, requestId: nat, reason: string)
    requires Consistent(pending, settled, requestId)
    ensures Consistent(map[], RejectAll(settled, pending.Keys, reason), requestId)
  {
  }

  /**
   * The loop of `failPending`: visit the pending ids in insertion order,
   * which is increasing id order, and reject each one.
   */
  method RejectInOrder(settled0: map<int, Settlement>, pending: map<int, Action>, bound: int, reason: string)
    returns (settled: map<int, Settlement>)
    requires 0 <= bound && forall k :: k in pending ==> 0 <= k
    ensures settled == RejectAll(settled0, Below(pending, bound), reason)
  {
    settled := settled0;
    var id := 0;
    assert Below(pending, 0) == {};
    assert RejectAll(settled0, {}, reason) == settled0;
    while id < bound
      invariant 0 <= id <= bound
      invariant settled == RejectAll(settled0, Below(pending, id), reason)
    {
      if id in pending {
        RejectOneMore(settled0, Below(pending, id), id, reason);
        assert Below(pending, id + 1) == Below(pending, id) + {id};
        settled := settled[id := Rejected(reason)];
      } else {
        assert Below(pending, id + 1) == Below(pending, id);
      }
      id := id + 1;
    }
    assert Below(pending, id) == Below(pending, bound);
  }

  class WorkerBridge {
    /** Requests awaiting their answer, by id. */
    var pending: map<int, Action>
    /** The next request id. */
    var requestId: nat
    /** Requests whose promise has been settled, by id. */
    var settled: map<int, Settlement>
    /** Requests handed to the worker, in order. */
    var posted: seq<Request>
    /** Calls of `onError`, `onProgress` and `onLog`, in order. */
    var errorReports: seq<Option<string>>
    var progressReports: seq<Payload>
    var logReports: seq<Payload>

    ghost predicate Valid()
      reads this
    {
      Consistent(pending, settled, requestId)
    }

    constructor()
      ensures Valid()
      ensures pending == map[] && settled == map[] && requestId == 0
      ensures posted == [] && errorReports == [] && progressReports == [] && logReports == []
    {
      pending := map[];
      requestId := 0;
      settled := map[];
      posted := [];
      errorReports := [];
      progressReports := [];
      logReports := [];
    }

    /**
     * `call`: take the next id and register the request as pending; post it,
     * unless posting throws (`postFailure`), in which case the request is
     * dropped again and its promise rejected with the thrown message.
     */
    method Call(action: Action, payload: RequestPayload, postFailure: Option<string>) returns (id: int)
      modifies this
      requires Valid()
      ensures Valid()
      ensures id == old(requestId) && requestId == old(requestId) + 1
      ensures id !in old(pending) && id !in old(settled)
      ensures postFailure.None? ==> pending == old(pending)[id := action] && settled == old(settled)
      ensures postFailure.None? ==> posted == old(posted) + [Request(id, action, payload)]
      ensures postFailure.Some? ==> pending == old(pending) && posted == old(posted)
      ensures postFailure.Some? ==> settled == old(settled)[id := Rejected(postFailure.value)]
      ensures errorReports == old(errorReports) && progressReports == old(progressReports)
      ensures logReports == old(logReports)
    {
      id := requestId;
      requestId := requestId + 1;
      pending := pending[id := action];
      if postFailure.None? {
        posted := posted + [Request(id, action, payload)];
      } else {
        pending := pending - {id};
        settled := settled[id := Rejected(postFailure.value)];
      }
    }

    /**
     * `worker.onmessage`: progress and log messages go to their callbacks
     * only; any other message with a pending id removes that request and
     * settles it, resolved for a result and rejected otherwise; an error
     * with an unknown id goes to `onError` only, and anything else is dropped.
     */
    method OnMessage(id: int, kind: Kind, payload: Payload)
      modifies this
      requires Valid()
      ensures Valid()
      ensures requestId == old(requestId) && posted == old(posted)
      ensures Extends(old(settled), settled)
      ensures kind == Progress ==> progressReports == old(progressReports) + [payload]
      ensures kind == Log ==> logReports == old(logReports) + [payload]
      ensures kind.Progress? || kind.Log? || id !in old(pending) ==>
        pending == old(pending) && settled == old(settled)
      ensures !kind.Progress? && !kind.Log? && id in old(pending) ==>
        && pending == old(pending) - {id}
        && settled == old(settled)[id := if kind == Result then Resolved(payload)
                                         else Rejected(OrDefault(payload.message, WorkerErrorMessage))]
      ensures errorReports == if kind == Error && id !in old(pending) then old(errorReports) + [payload.message]
                              else old(errorReports)
      ensures !kind.Progress? ==> progressReports == old(progressReports)
      ensures !kind.Log? ==> logReports == old(logReports)
    {
      if kind == Progress {
        progressReports := progressReports + [payload];
        return;
      }
      if kind == Log {
        logReports := logReports + [payload];
        return;
      }
      if id !in pending {
        if kind == Error {
          errorReports := errorReports + [payload.message];
        }
        return;
      }
      pending := pending - {id};
      if kind == Result {
        settled := settled[id := Resolved(payload)];
      } else {
        settled := settled[id := Rejected(OrDefault(payload.message, WorkerErrorMessage))];
      }
    }

    /**
     * `failPending`: when anything waits, reject every waiting request with
     * the message (or the crash sentence when it is empty) and empty `pending`.
     */
    method FailPending(message: string)
      modifies this
      requires Valid()
      ensures Valid()
      ensures pending == map[]
      ensures settled == RejectAll(old(settled), old(pending).Keys, OrDefault(Some(message), CrashedMessage))
      ensures requestId == old(requestId) && posted == old(posted)
      ensures errorReports == old(errorReports) && progressReports == old(progressReports)
      ensures logReports == old(logReports)
    {
      if |pending| == 0 {
        assert pending.Keys == {};
        assert RejectAll(settled, pending.Keys, OrDefault(Some(message), CrashedMessage)) == settled;
        return;
      }
      var reason := OrDefault(Some(message), CrashedMessage);
      assert Below(pending, requestId) == pending.Keys;
      settled := RejectInOrder(settled, pending, requestId, reason);
      RejectAllConsistent(pending, old(settled), requestId, reason);
      pending := map[];
    }

    /**
     * `worker.onerror`: reject everything pending with the error's message (or
     * the crash sentence) and report the crash to `onError`.
     */
    method OnError(message: Option<string>)
      modifies this
      requires Valid()
      ensures Valid()
      ensures pending == map[]
      ensures settled == RejectAll(old(settled), old(pending).Keys, OrDefault(message, CrashedMessage))
      ensures errorReports == old(errorReports) + [Some(CrashedReport)]
      ensures requestId == old(requestId) && posted == old(posted)
      ensures progressReports == old(progressReports) && logReports == old(logReports)
    {
      FailPending(OrDefault(message, CrashedMessage));
      errorReports := errorReports + [Some(CrashedReport)];
    }

    /** `worker.onmessageerror`: reject everything pending and report, both with the communication sentence. */
    method OnMessageError()
      modifies this
      requires Valid()
      ensures Valid()
      ensures pending == map[]
      ensures settled == RejectAll(old(settled), old(pending).Keys, CommunicationMessage)
      ensures errorReports == old(errorReports) + [Some(CommunicationMessage)]
      ensures requestId == old(requestId) && posted == old(posted)
      ensures progressReports == old(progressReports) && logReports == old(logReports)
    {
      FailPending(CommunicationMessage);
      errorReports := errorReports + [Some(CommunicationMessage)];
    }

    /** `probe(buffer, options)`: post the buffer with the given name. */
    method ProbeVideo(buffer: seq<bv8>, name: Option<string>, postFailure: Option<string>) returns (id: int)
      modifies this
      requires Valid()
      ensures Valid()
      ensures id == old(requestId) && requestId == old(requestId) + 1
      ensures id !in old(pending) && id !in old(settled)
      ensures postFailure.None? ==> pending == old(pending)[id := Probe] && settled == old(settled)
      ensures postFailure.None? ==> posted == old(posted) + [Request(id, Probe, ProbePayload(buffer, name))]
      ensures postFailure.Some? ==> pending == old(pending) && posted == old(posted)
      ensures postFailure.Some? ==> settled == old(settled)[id := Rejected(postFailure.value)]
      ensures errorReports == old(errorReports) && progressReports == old(progressReports)
      ensures logReports == old(logReports)
    {
      id := Call(Probe, ProbePayload(buffer, name), postFailure);
    }

    /** `transcode(buffer, options)`: post with a default name `transcode-<now>` and `hasAudio` only when false. */
    method TranscodeVideo(buffer: seq<bv8>, options: Options, now: nat, postFailure: Option<string>) returns (id: int)
      modifies this
      requires Valid()
      ensures Valid()
      ensures id == old(requestId) && requestId == old(requestId) + 1
      ensures id !in old(pending) && id !in old(settled)
      ensures postFailure.None? ==> pending == old(pending)[id := Transcode] && settled == old(settled)
      ensures postFailure.None? ==>
        posted == old(posted) + [Request(id, Transcode, EnginePayload("transcode", buffer, options, now))]
      ensures postFailure.Some? ==> pending == old(pending) && posted == old(posted)
      ensures postFailure.Some? ==> settled == old(settled)[id := Rejected(postFailure.value)]
      ensures errorReports == old(errorReports) && progressReports == old(progressReports)
      ensures logReports == old(logReports)
    {
      id := Call(Transcode, EnginePayload("transcode", buffer, options, now), postFailure);
    }

    /** `remux(buffer, options)`: post with a default name `remux-<now>` and `hasAudio` only when false. */
    method RemuxVideo(buffer: seq<bv8>, options: Options, now: nat, postFailure: Option<string>) returns (id: int)
      modifies this
      requires Valid()
      ensures Valid()
      ensures id == old(requestId) && requestId == old(requestId) + 1
      ensures id !in old(pending) && id !in old(settled)
      ensures postFailure.None? ==> pending == old(pending)[id := Remux] && settled == old(settled)
      ensures postFailure.None? ==>
        posted == old(posted) + [Request(id, Remux, EnginePayload("remux", buffer, options, now))]
      ensures postFailure.Some? ==> pending == old(pending) && posted == old(posted)
      ensures postFailure.Some? ==> settled == old(settled)[id := Rejected(postFailure.value)]
      ensures errorReports == old(errorReports) && progressReports == old(progressReports)
      ensures logReports == old(logReports)
    {
      id := Call(Remux, EnginePayload("remux", buffer, options, now), postFailure);
    }
  }
}
