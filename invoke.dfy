/**
 * Invoking another step's handler (packages/step/src/invoke.ts): the
 * request envelope with its lineage fields, the target path, and how the
 * handler's response is turned into a value or a rejection. Which handler
 * answers is the transport's business: a local call in mono mode, a cloud
 * function call otherwise.
 */
module Invoke {
  import opened Wrappers
  import opened Json
  import opened Enum
  import opened Records

  /** The record the invocation is chained from. */
  datatype Previous = Previous(id: string, stepId: string, ancestorIds: seq<string>, user: Option<User>)

  datatype InvokeProps = InvokeProps(
    stepId: string,
    action: Action,
    /** the fields of the record to send (`Partial<StepRecord>`) */
    record: Data,
    previous: Option<Previous>,
    user: Option<User>,
    session: Option<Data>,
    /** an open transaction handle, only forwarded in mono mode */
    trx: Option<nat>,
    basePath: Option<string>
  )

  /**
   * The request: the body's JSON fields, in mono mode the live
   * transaction, and the session data the request's cookie encodes.
   */
  datatype Envelope = Envelope(fields: Data, trx: Option<nat>, session: Data)

  /** A parsed `originBody`: `error` is `Some(error.message)` when the body carries an error. */
  datatype Reply = Reply(error: Option<string>, data: Option<Json>)

  datatype Response = Response(originBody: Option<Reply>, body: Option<string>, statusCode: int)

  datatype Yield = Payload(data: Option<Json>) | Raw(response: Response)

  datatype Reason = ErrorMessage(message: string) | RawBody(body: string) | StatusCode(code: int)

  /** How the returned promise settles. */
  datatype Settled = Resolves(value: Yield) | Rejects(reason: Reason)

  /** Dispatch of an envelope to the handler at a path. */
  type Transport = (string, Envelope) -> Response

  /** `ids.filter(Boolean)`: drops the empty ids. */
  function DropFalsy(s: seq<string>): (r: seq<string>)
    ensures |r| <= |s|
    ensures forall x :: x in r <==> x in s && x != ""
  {
    if s == [] then []
    else if s[0] == "" then DropFalsy(s[1..])
    else [s[0]] + DropFalsy(s[1..])
  }

  lemma {:induction false} DropFalsyAppend(s: seq<string>, x: string)
    ensures DropFalsy(s + [x]) == DropFalsy(s) + (if x == "" then [] else [x])
  {
    if s == [] {
      assert [] + [x] == [x];
    } else {
      assert (s + [x])[1..] == s[1..] + [x];
      DropFalsyAppend(s[1..], x);
    }
  }

  lemma {:induction false} DropFalsyNoEmpty(s: seq<string>)
    requires "" !in s
    ensures DropFalsy(s) == s
  {
    if s != [] {
      DropFalsyNoEmpty(s[1..]);
      assert [s[0]] + s[1..] == s;
    }
  }

  ghost predicate NoDuplicates(s: seq<string>) {
    forall i, j :: 0 <= i < j < |s| ==> s[i] != s[j]
  }

  lemma {:induction false} DropFalsyNoDuplicates(s: seq<string>)
    requires NoDuplicates(s)
    ensures NoDuplicates(DropFalsy(s))
  {
    if s != [] {
      assert NoDuplicates(s[1..]) by {
        forall i, j | 0 <= i < j < |s[1..]| ensures s[1..][i] != s[1..][j] {
          assert s[1..][i] == s[i + 1] && s[1..][j] == s[j + 1];
        }
      }
      DropFalsyNoDuplicates(s[1..]);
      if s[0] != "" {
        assert s[0] !in s[1..];
        assert s[0] !in DropFalsy(s[1..]);
      }
    }
  }

  /**
   * The `ancestorIds` sent when chaining from `previous`: unchanged when
   * the previous id is already among them, otherwise the previous id is
   * appended and empty ids are dropped.
   */
  function NextAncestors(ancestors: seq<string>, id: string): seq<string> {
    if id in ancestors then ancestors else DropFalsy(ancestors + [id])
  }

  /** The chain grows by exactly the previous id, at its end, unless the id is already in it. */
  lemma NextAncestorsAppends(ancestors: seq<string>, id: string)
    requires "" !in ancestors && id != "" && id !in ancestors
    ensures NextAncestors(ancestors, id) == ancestors + [id]
  {
    DropFalsyAppend(ancestors, id);
    DropFalsyNoEmpty(ancestors);
  }

  /** Chaining twice from the same record gives the same chain. */
  lemma NextAncestorsIdempotent(ancestors: seq<string>, id: string)
    ensures NextAncestors(NextAncestors(ancestors, id), id) == NextAncestors(ancestors, id)
  {
    if id !in ancestors {
      var r := DropFalsy(ancestors + [id]);
      DropFalsyAppend(ancestors, id);
      if id == "" {
        assert "" !in r;
        DropFalsyAppend(r, "");
        DropFalsyNoEmpty(r);
      } else {
        assert id in r;
      }
    }
  }

  /** The chain never records an id twice if the previous chain did not. */
  lemma NextAncestorsNoDuplicates(ancestors: seq<string>, id: string)
    requires NoDuplicates(ancestors)
    ensures NoDuplicates(NextAncestors(ancestors, id))
    ensures id != "" ==> id in NextAncestors(ancestors, id)
  {
    if id !in ancestors {
      DropFalsyNoDuplicates(ancestors);
      DropFalsyAppend(ancestors, id);
      var d := DropFalsy(ancestors);
      assert id !in d;
      if id != "" {
        assert DropFalsy(ancestors + [id]) == d + [id];
        assert NoDuplicates(d + [id]) by {
          forall i, j | 0 <= i < j < |d + [id]| ensures (d + [id])[i] != (d + [id])[j] {
            if j == |d| {
              assert (d + [id])[i] == d[i];
            } else {
              assert (d + [id])[i] == d[i] && (d + [id])[j] == d[j];
            }
          }
        }
      } else {
        assert DropFalsy(ancestors + [id]) == d + [];
      }
    }
  }

  /** `ancestorIds: ['ancestor']` chained from record `previous` gives `['ancestor', 'previous']`. */
  lemma NextAncestorsExample()
    ensures NextAncestors(["ancestor"], "previous") == ["ancestor", "previous"]
  {
    NextAncestorsAppends(["ancestor"], "previous");
  }

  /** `${basePath || 'steps'}/${stepId}/index` */
  function StepPath(basePath: Option<string>, stepId: string): (r: string)
    ensures Present(basePath) ==> r == basePath.value + "/" + stepId + "/index"
    ensures !Present(basePath) ==> r == "steps/" + stepId + "/index"
  {
    (if Present(basePath) then basePath.value else "steps") + "/" + stepId + "/index"
  }

  /** Cloud-function unwrap: a reply's error rejects, its data resolves; no reply rejects with the raw body or status. */
  function UnwrapRemote(res: Response): (s: Settled)
    ensures res.originBody.Some? && res.originBody.value.error.Some? ==>
      s == Rejects(ErrorMessage(res.originBody.value.error.value))
    ensures res.originBody.Some? && res.originBody.value.error.None? ==>
      s == Resolves(Payload(res.originBody.value.data))
    ensures res.originBody.None? ==> s.Rejects? && !s.reason.ErrorMessage?
    ensures res.originBody.None? && Present(res.body) ==> s == Rejects(RawBody(res.body.value))
    ensures res.originBody.None? && !Present(res.body) ==> s == Rejects(StatusCode(res.statusCode))
  {
    match res.originBody
    case Some(reply) =>
      if reply.error.Some? then Rejects(ErrorMessage(reply.error.value)) else Resolves(Payload(reply.data))
    case None =>
      if Present(res.body) then Rejects(RawBody(res.body.value)) else Rejects(StatusCode(res.statusCode))
  }

  /** Mono-mode unwrap: as the remote one for a reply; without a reply the raw response resolves. */
  function UnwrapMono(res: Response): (s: Settled)
    ensures res.originBody.None? ==> s == Resolves(Raw(res))
  {
    match res.originBody
    case Some(reply) =>
      if reply.error.Some? then Rejects(ErrorMessage(reply.error.value)) else Resolves(Payload(reply.data))
    case None => Resolves(Raw(res))
  }

  /** The two transports differ only on a response without a reply body. */
  lemma UnwrapModesAgree(res: Response)
    ensures res.originBody.Some? <==> UnwrapMono(res) == UnwrapRemote(res)
  {
  }

  /** The lineage keys the envelope sets from `previous`. */
  const LineageKeys: set<string> := {"previousId", "previousStepId", "previousUserId", "ancestorIds"}

  /** Ancestor ids as a JSON array. */
  function IdArray(ids: seq<string>): (r: Json)
    ensures r.JArr? && |r.items| == |ids|
    ensures forall i :: 0 <= i < |ids| ==> r.items[i] == JStr(ids[i])
  {
    JArr(seq(|ids|, i requires 0 <= i < |ids| => JStr(ids[i])))
  }

  /** The request `invokeStep` sends for `props`; `mono` is `process.env.FaasMode === 'mono'`. */
  function EnvelopeOf(props: InvokeProps, mono: bool): Envelope {
    var base := map["action" := JStr(ActionName(props.action))] + props.record;
    var fields :=
      match props.previous
      case None => base
      case Some(p) =>
        var named := base["previousId" := JStr(p.id)]["previousStepId" := JStr(p.stepId)];
        Put(named, "previousUserId", StrOrUndefined(UserId(p.user)))["ancestorIds" := IdArray(NextAncestors(p.ancestorIds, p.id))];
    Envelope(fields, if mono then props.trx else None, props.session.GetOr(map[]))
  }

  /** `{ action, ...record }`: every record field is forwarded unless lineage overrides it, and nothing else is added without `previous`. */
  lemma EnvelopeForwardsRecord(props: InvokeProps, mono: bool)
    ensures var e := EnvelopeOf(props, mono);
      && "action" in e.fields
      && ("action" !in props.record ==> e.fields["action"] == JStr(ActionName(props.action)))
      && (forall k :: k in props.record && (props.previous.None? || k !in LineageKeys) ==>
            k in e.fields && e.fields[k] == props.record[k])
      && (forall k :: k in e.fields ==> k == "action" || k in props.record || k in LineageKeys)
      && (props.previous.None? ==> e.fields == map["action" := JStr(ActionName(props.action))] + props.record)
  {
  }

  /** The transaction travels only in mono mode; the session (`{}` when absent) always does. */
  lemma EnvelopeCarries(props: InvokeProps, mono: bool)
    ensures EnvelopeOf(props, mono).trx == (if mono then props.trx else None)
    ensures EnvelopeOf(props, mono).session == props.session.GetOr(map[])
  {
  }

  /** Chained from `previous`: its id, step and user id (when known) and the extended chain. */
  lemma EnvelopeLineage(props: InvokeProps, mono: bool)
    requires props.previous.Some?
    ensures var e := EnvelopeOf(props, mono).fields;
      var p := props.previous.value;
      && "previousId" in e && e["previousId"] == JStr(p.id)
      && "previousStepId" in e && e["previousStepId"] == JStr(p.stepId)
      && ("previousUserId" in e <==> p.user.Some?)
      && (p.user.Some? ==> e["previousUserId"] == JStr(p.user.value.id))
      && "ancestorIds" in e && e["ancestorIds"] == IdArray(NextAncestors(p.ancestorIds, p.id))
  {
  }

  /**
   * `invokeStep`: builds the envelope, dispatches it to the step's path and
   * unwraps the response. `mono` is `process.env.FaasMode === 'mono'`.
   */
  method InvokeStep(props: InvokeProps, mono: bool, transport: Transport)
    returns (path: string, body: Envelope, settled: Settled)
    ensures path == StepPath(props.basePath, props.stepId)
    ensures body == EnvelopeOf(props, mono)
    ensures settled == if mono then UnwrapMono(transport(path, body)) else UnwrapRemote(transport(path, body))
  {
    var fields := map["action" := JStr(ActionName(props.action))] + props.record;
    var trx: Option<nat> := None;
    if mono && props.trx.Some? {
      trx := props.trx;
    }
    if props.previous.Some? {
      var p := props.previous.value;
      fields := fields["previousId" := JStr(p.id)];
      fields := fields["previousStepId" := JStr(p.stepId)];
      fields := Put(fields, "previousUserId", StrOrUndefined(UserId(p.user)));
      var ancestors := if p.id in p.ancestorIds then p.ancestorIds else DropFalsy(p.ancestorIds + [p.id]);
      fields := fields["ancestorIds" := IdArray(ancestors)];
    }
    var session := if props.session.Some? then props.session.value else map[];
    body := Envelope(fields, trx, session);
    path := StepPath(props.basePath, props.stepId);
    var res := transport(path, body);
    if mono {
      settled := UnwrapMono(res);
    } else {
      settled := UnwrapRemote(res);
    }
  }
}
