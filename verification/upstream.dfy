/**
 * `get_json`: one query against the waste-collection endpoint. The HTTP
 * exchange and `response.json()` are parameters; what is modelled is the
 * policy that turns every failure into an empty object.
 */
module Upstream {
  import opened Optional
  import opened Text
  import opened JsonData

  /**
   * The five parameter sets the generator sends (`druh` is always -1 except
   * for the bootstrap; the house-list query also sends `mgr=0`).
   */
  datatype Query =
    | Init                                            // {"init": 1}
    | Districts(obec: string)                         // {"druh": -1, "obec": …}
    | Streets(obec: string, obvod: Json)              // {"druh": -1, "obec": …, "obvod": …}
    | Houses(obec: string, obvod: Json, ulice: Json)  // {"druh": -1, "obec": …, "obvod": …, "ulice": …, "mgr": 0}
    | Schedule(obvod: Json, ulice: Json, cisp: Json)  // {"obvod": …, "ulice": …, "cisp": …, "druh": -1}

  /** The diagnostic prefixes PHP leaks into the response body. */
  const NoticeMarker: string := "Notice:"
  const WarningMarker: string := "Warning:"

  /** The body is unusable before decoding is even tried. */
  predicate Rejected(text: string)
  {
    var t := Strip(text);
    Contains(t, NoticeMarker) || Contains(t, WarningMarker) || t == []
  }

  /** What `get_json` returns once the response body `text` has arrived. */
  function Classify(decode: string -> Option<Json>, text: string): Json
  {
    if Rejected(text) then EmptyObject
    else
      match decode(text)
      case None => EmptyObject
      case Some(v) => v
  }

  /** `get_json(params)`: `fetch` answers `None` for a transport error or a timeout. */
  function GetJson(fetch: Query -> Option<string>, decode: string -> Option<Json>, q: Query): (r: Json)
    ensures fetch(q).None? ==> r == EmptyObject
  {
    match fetch(q)
    case None => EmptyObject
    case Some(text) => Classify(decode, text)
  }

  /**
   * The degrade-to-empty policy, stated on the raw body: a blank body, a
   * PHP notice or warning anywhere in it, or a failed decode all yield `{}`;
   * otherwise the decoded value is returned unchanged.
   */
  lemma ClassifySpec(decode: string -> Option<Json>, text: string)
    ensures (forall i :: 0 <= i < |text| ==> IsWhitespace(text[i])) ==> Classify(decode, text) == EmptyObject
    ensures Contains(text, NoticeMarker) ==> Classify(decode, text) == EmptyObject
    ensures Contains(text, WarningMarker) ==> Classify(decode, text) == EmptyObject
    ensures decode(text).None? ==> Classify(decode, text) == EmptyObject
    ensures (exists i :: 0 <= i < |text| && !IsWhitespace(text[i]))
            && !Contains(text, NoticeMarker) && !Contains(text, WarningMarker) && decode(text).Some?
            ==> Classify(decode, text) == decode(text).value
  {
    StripEmpty(text);
    ContainsAfterStrip(text, NoticeMarker);
    ContainsAfterStrip(text, WarningMarker);
  }

  /** A non-empty answer is always exactly what the decoder produced from a clean body. */
  lemma ClassifyNonEmpty(decode: string -> Option<Json>, text: string)
    requires Classify(decode, text) != EmptyObject
    ensures decode(text) == Some(Classify(decode, text))
    ensures !Contains(text, NoticeMarker) && !Contains(text, WarningMarker)
  {
    ClassifySpec(decode, text);
  }

  /** `"Warning: undefined index"` is treated like an empty response, whatever the decoder says. */
  lemma WarningExample(decode: string -> Option<Json>)
    ensures Classify(decode, "Warning: undefined index") == EmptyObject
  {
    var text := "Warning: undefined index";
    assert text[0..|WarningMarker|] == WarningMarker;
    assert OccursAt(text, WarningMarker, 0);
    ClassifySpec(decode, text);
  }
}
