/**
 * The language pack of packages/step/src/lang.ts: a table from message key
 * to message. A message is either a constant text or a one-argument
 * template (`recordNotFound: id => 'Record#' + id + ' not found.'`).
 *
 * The engine refers to further keys (`versionNotMatch`, `locked`,
 * `undoFailed`, `undoNote`, `undoSuccess`, `rejectSuccess`, `idRequired`)
 * that the English pack does not define; a pack either supplies them or a
 * lookup yields nothing, and no text is assumed for them here.
 */
module Lang {
  import opened Wrappers

  datatype Message = Text(text: string) | Template(prefix: string, suffix: string)

  type Pack = map<string, Message>

  const LangEn: Pack := map[
    "stepIdRequired" := Text("stepId is required."),
    "idOrDataRequired" := Text("[params] id or data is required."),
    "recordNotFound" := Template("Record#", " not found.")
  ]

  /** `{ ...base, ...over }`: key by key, `over` wins. */
  function Merge(base: Pack, over: Pack): (r: Pack)
    ensures r.Keys == base.Keys + over.Keys
    ensures forall k :: k in over ==> r[k] == over[k]
    ensures forall k :: k in base && k !in over ==> r[k] == base[k]
  {
    base + over
  }

  /** The text of a constant message (`lang.key`). */
  function Say(pack: Pack, key: string): (r: Option<string>)
    ensures r.Some? <==> key in pack && pack[key].Text?
    ensures r.Some? ==> r.value == pack[key].text
  {
    if key in pack && pack[key].Text? then Some(pack[key].text) else None
  }

  /** The text of a template message applied to `arg` (`lang.key(arg)`). */
  function Call(pack: Pack, key: string, arg: string): (r: Option<string>)
    ensures r.Some? <==> key in pack && pack[key].Template?
    ensures r.Some? ==> r.value == pack[key].prefix + arg + pack[key].suffix
  {
    if key in pack && pack[key].Template? then Some(pack[key].prefix + arg + pack[key].suffix) else None
  }

  /** A message key used with or without its argument. */
  function Render(pack: Pack, key: string, arg: Option<string>): Option<string> {
    match arg
    case None => Say(pack, key)
    case Some(a) => Call(pack, key, a)
  }

  /** The pack an engine uses: `options.lang` merged over English, or English. */
  function Effective(lang: Option<Pack>): (r: Pack)
    ensures forall k :: k in LangEn ==> k in r
    ensures lang.Some? ==> forall k :: k in lang.value ==> k in r && r[k] == lang.value[k]
    ensures forall k :: k in LangEn && (lang.None? || k !in lang.value) ==> r[k] == LangEn[k]
  {
    match lang
    case None => LangEn
    case Some(l) => Merge(LangEn, l)
  }

  /** The English texts, as the tests assert them, survive any pack that does not override them. */
  lemma EnglishTexts(over: Option<Pack>, id: string)
    requires over.None? || (over.value.Keys !! {"stepIdRequired", "idOrDataRequired", "recordNotFound"})
    ensures Say(Effective(over), "stepIdRequired") == Some("stepId is required.")
    ensures Say(Effective(over), "idOrDataRequired") == Some("[params] id or data is required.")
    ensures Call(Effective(over), "recordNotFound", id) == Some("Record#" + id + " not found.")
  {
    var e := Effective(over);
    assert e["stepIdRequired"] == LangEn["stepIdRequired"];
    assert e["idOrDataRequired"] == LangEn["idOrDataRequired"];
    assert e["recordNotFound"] == LangEn["recordNotFound"];
  }
}
