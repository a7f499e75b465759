/**
 * The builders of packages/step/src/builder.ts: `buildHook` fixes default
 * engine options (typically a language pack) for every step built with it,
 * and `buildInvoke` fixes default invocation options and a hook that may
 * adjust each call's props before they are sent.
 */
module Builder {
  import opened Wrappers
  import opened Json
  import opened Records
  import opened Enum
  import opened Lang
  import opened HookOptions
  import opened Invoke

  /** The options object a step hands to a built hook; `buildHook` may rewrite its `lang` in place. */
  class OptionBag {
    var entries: Options

    constructor (entries: Options)
      ensures this.entries == entries
    {
      this.entries := entries;
    }
  }

  /** A pack given as an option, or the empty pack. */
  function PackOf(o: Options): Pack {
    LangOf(o).GetOr(map[])
  }

  /** The step's options once `buildHook` merged the builder's pack under the step's (only when both give one). */
  function WithBuilderLang(builder: Options, step: Options): Options {
    if LangOf(step).Some? && LangOf(builder).Some? then
      step["lang" := LangPack(Merge(LangOf(builder).value, LangOf(step).value))]
    else
      step
  }

  /** What a hook built over `builder` does with a step's options. */
  function BuiltHook(builder: Options, step: Options): Init {
    UseStepRecordFunc(builder + WithBuilderLang(builder, step))
  }

  /**
   * `buildHook(builder)(step)`: merges the builder's pack under the step's
   * pack, writing the result back into the step's options, then starts an
   * engine on the builder's options overridden by the step's.
   */
  method BuildHook(builder: Options, step: OptionBag) returns (r: Init)
    modifies step
    ensures step.entries == WithBuilderLang(builder, old(step.entries))
    ensures r == BuiltHook(builder, old(step.entries))
  {
    var own := LangOf(step.entries);
    var shared := LangOf(builder);
    if own.Some? && shared.Some? {
      step.entries := step.entries["lang" := LangPack(Merge(shared.value, own.value))];
    }
    r := UseStepRecordFunc(builder + step.entries);
  }

  /** The step's pack rewritten in place holds the builder's keys it lacked and keeps its own. */
  lemma {:induction false} StepLangRewritten(builder: Options, step: Options, k: string)
    requires LangOf(builder).Some? && LangOf(step).Some?
    ensures LangOf(WithBuilderLang(builder, step)).Some?
    ensures var p := PackOf(WithBuilderLang(builder, step));
      && (k in p <==> k in PackOf(builder) || k in PackOf(step))
      && (k in PackOf(step) ==> p[k] == PackOf(step)[k])
      && (k !in PackOf(step) && k in PackOf(builder) ==> p[k] == PackOf(builder)[k])
  {
    var w := WithBuilderLang(builder, step);
    assert w["lang"] == LangPack(Merge(LangOf(builder).value, LangOf(step).value));
  }

  /** The pack the built engine uses, whichever side gave one. */
  lemma {:induction false} BuiltPack(builder: Options, step: Options)
    ensures LangOf(BuiltHook(builder, step).options) ==
      Some(Effective(if LangOf(step).Some? && LangOf(builder).Some? then Some(Merge(PackOf(builder), PackOf(step)))
                     else if "lang" in step then LangOf(step)
                     else LangOf(builder)))
  {
    var w := WithBuilderLang(builder, step);
    if LangOf(step).Some? && LangOf(builder).Some? {
      assert (builder + w)["lang"] == w["lang"];
    } else if "lang" in step {
      assert (builder + w)["lang"] == step["lang"];
    } else {
      assert w == step;
      assert LangOf(builder + w) == LangOf(builder);
    }
  }

  /**
   * Message precedence of a built engine, key by key: the step's pack,
   * then the builder's, then English.
   */
  lemma {:induction false} BuiltLangPrecedence(builder: Options, step: Options, k: string)
    requires LangOf(builder).Some? || "lang" !in builder
    requires LangOf(step).Some? || "lang" !in step
    ensures LangOf(BuiltHook(builder, step).options).Some?
    ensures var p := LangOf(BuiltHook(builder, step).options).value;
      && (k in p <==> k in LangEn || k in PackOf(builder) || k in PackOf(step))
      && (k in PackOf(step) ==> p[k] == PackOf(step)[k])
      && (k !in PackOf(step) && k in PackOf(builder) ==> p[k] == PackOf(builder)[k])
      && (k !in PackOf(step) && k !in PackOf(builder) && k in LangEn ==> p[k] == LangEn[k])
  {
    BuiltPack(builder, step);
    var p := LangOf(BuiltHook(builder, step).options).value;
    if LangOf(step).Some? && LangOf(builder).Some? {
      assert p == Effective(Some(Merge(PackOf(builder), PackOf(step))));
    } else if LangOf(step).Some? {
      assert PackOf(builder) == map[];
      assert p == Effective(Some(PackOf(step)));
    } else if LangOf(builder).Some? {
      assert PackOf(step) == map[];
      assert p == Effective(Some(PackOf(builder)));
    } else {
      assert PackOf(step) == map[] && PackOf(builder) == map[];
      assert p == LangEn;
    }
  }

  /** Every option other than `lang` is the step's when it gives one, the builder's otherwise. */
  lemma {:induction false} BuiltOptionsOverride(builder: Options, step: Options, k: string)
    requires k != "lang"
    ensures var o := BuiltHook(builder, step).options;
      && (k in o <==> k in builder || k in step)
      && (k in step ==> o[k] == step[k])
      && (k !in step && k in builder ==> o[k] == builder[k])
  {
    var w := WithBuilderLang(builder, step);
    assert k in w <==> k in step;
    assert k in w ==> w[k] == step[k];
  }

  /** A builder whose pack renames `stepIdRequired` makes a step without `stepId` throw that text. */
  lemma StepIdMissingExample()
    ensures var r := BuiltHook(map["lang" := LangPack(map["stepIdRequired" := Message.Text("stepId is missing.")])], map[]);
      && r.failure == Some(Localized("stepIdRequired", None))
      && LangOf(r.options).Some?
      && Say(LangOf(r.options).value, "stepIdRequired") == Some("stepId is missing.")
  {
    var builder := map["lang" := LangPack(map["stepIdRequired" := Message.Text("stepId is missing.")])];
    var step: Options := map[];
    BuiltLangPrecedence(builder, step, "stepIdRequired");
    assert StepIdOf(builder + step) == None;
  }

  /** `beforeInvoke(props)`: the props after the hook's in-place changes, or the message it throws. */
  type BeforeInvokeFn = InvokeProps -> Result<InvokeProps, string>

  /** The options `buildInvoke` is given (`cf` and `http` are the transport here). */
  datatype InvokeDefaults = InvokeDefaults(basePath: Option<string>, beforeInvoke: Option<BeforeInvokeFn>)

  /** The props object a call passes to a built invoker; `beforeInvoke` may change it. */
  class PropsBag {
    var props: InvokeProps

    constructor (props: InvokeProps)
      ensures this.props == props
    {
      this.props := props;
    }
  }

  /** A built invocation: sent to a path and settled, or stopped by `beforeInvoke`. */
  datatype Invocation = Sent(path: string, body: Envelope, settled: Settled) | Aborted(message: string)

  /** The call's props once `beforeInvoke` has run (unchanged when there is none). */
  function AfterBefore(d: InvokeDefaults, p: InvokeProps): Result<InvokeProps, string> {
    match d.beforeInvoke
    case None => Ok(p)
    case Some(f) => f(p)
  }

  /** `{ ...defaults, ...props }`: the call's own `basePath` wins over the default. */
  function Combined(d: InvokeDefaults, p: InvokeProps): InvokeProps {
    if p.basePath.Some? then p else p.(basePath := d.basePath)
  }

  /** `invokeStep` on the combined props, as a value. */
  function Invoked(p: InvokeProps, mono: bool, transport: Transport): Invocation {
    var path := StepPath(p.basePath, p.stepId);
    var body := EnvelopeOf(p, mono);
    var res := transport(path, body);
    Sent(path, body, if mono then UnwrapMono(res) else UnwrapRemote(res))
  }

  /** What a built invoker does with a call's props. */
  function BuiltInvoke(d: InvokeDefaults, p: InvokeProps, mono: bool, transport: Transport): Invocation {
    match AfterBefore(d, p)
    case Err(m) => Aborted(m)
    case Ok(q) => Invoked(Combined(d, q), mono, transport)
  }

  /**
   * `buildInvoke(defaults)(props)`: awaits `beforeInvoke(props)`, then
   * invokes the step with the defaults overridden by the props as they are
   * after the hook.
   */
  method BuildInvoke(d: InvokeDefaults, call: PropsBag, mono: bool, transport: Transport) returns (r: Invocation)
    modifies call
    ensures call.props == (if AfterBefore(d, old(call.props)).Ok? then AfterBefore(d, old(call.props)).value else old(call.props))
    ensures r == BuiltInvoke(d, old(call.props), mono, transport)
  {
    if d.beforeInvoke.Some? {
      var changed := d.beforeInvoke.value(call.props);
      if changed.Err? {
        return Aborted(changed.error);
      }
      call.props := changed.value;
    }
    var path, body, settled := InvokeStep(Combined(d, call.props), mono, transport);
    r := Sent(path, body, settled);
  }

  /**
   * What `beforeInvoke` leaves in the props is what is sent: the session
   * it sets travels in the request, and a `basePath` it leaves or sets
   * overrides the default one.
   */
  lemma BeforeInvokeReaches(d: InvokeDefaults, p: InvokeProps, mono: bool, transport: Transport)
    requires AfterBefore(d, p).Ok?
    ensures var q := AfterBefore(d, p).value;
      var r := BuiltInvoke(d, p, mono, transport);
      && r.Sent?
      && r.body.session == q.session.GetOr(map[])
      && r.path == StepPath(if q.basePath.Some? then q.basePath else d.basePath, q.stepId)
      && (forall k :: k in q.record && (q.previous.None? || k !in LineageKeys) ==>
            k in r.body.fields && r.body.fields[k] == q.record[k])
  {
    var q := AfterBefore(d, p).value;
    var c := Combined(d, q);
    assert c.record == q.record && c.previous == q.previous && c.session == q.session && c.stepId == q.stepId;
    var e := EnvelopeOf(c, mono);
    forall k | k in q.record && (q.previous.None? || k !in LineageKeys)
      ensures k in e.fields && e.fields[k] == q.record[k]
    {
      var base := map["action" := JStr(ActionName(c.action))] + c.record;
      assert base[k] == q.record[k];
    }
  }

  /** A `beforeInvoke` that throws stops the call: nothing is sent and the call fails with its message. */
  lemma BeforeInvokeThrows(d: InvokeDefaults, p: InvokeProps, mono: bool, transport: Transport)
    requires d.beforeInvoke.Some? && d.beforeInvoke.value(p).Err?
    ensures BuiltInvoke(d, p, mono, transport) == Aborted(d.beforeInvoke.value(p).error)
  {
  }

  /** The documented use: a `beforeInvoke` that only sets the session makes the request carry that session. */
  lemma SessionFromBeforeInvoke(d: InvokeDefaults, p: InvokeProps, session: Data, mono: bool, transport: Transport)
    requires d.beforeInvoke == Some((q: InvokeProps) => Ok(q.(session := Some(session))))
    ensures BuiltInvoke(d, p, mono, transport).Sent?
    ensures BuiltInvoke(d, p, mono, transport).body.session == session
    ensures BuiltInvoke(d, p, mono, transport).body.fields == EnvelopeOf(Combined(d, p), mono).fields
  {
  }
}
