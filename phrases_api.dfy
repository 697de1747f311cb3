/**
 * The phrases REST client: the query string of `list`, the URLs of the five
 * calls, and the `"<status> <statusText>[ - <body>]"` message a failed
 * response is turned into.
 */
module PhrasesApi {
  import opened Wrappers
  import opened JsString

  /** A phrase as the server returns it. */
  datatype Phrase = Phrase(id: string, text: string, category: string)

  /** The body of a create or update request. */
  datatype PhrasePayload = PhrasePayload(text: string, category: string)

  /** `ListParams`: both fields optional. */
  datatype ListParams = ListParams(q: Option<string>, category: Option<string>)

  /** `if (params.q)`: a parameter counts when it is defined and not the empty string. */
  predicate Present(v: Option<string>) {
    v.Some? && v.value != ""
  }

  // ---------------------------------------------------------------------
  // URLSearchParams
  // ---------------------------------------------------------------------

  /** One `name=value` entry of a search-parameter list. */
  type Pair = (string, string)

  /** The list without any entry named `n`. */
  function RemoveName(ps: seq<Pair>, n: string): (r: seq<Pair>)
    ensures forall i :: 0 <= i < |r| ==> r[i].0 != n
    ensures forall p :: p in ps && p.0 != n ==> p in r
    ensures forall p :: p in r ==> p in ps
  {
    if ps == [] then []
    else if ps[0].0 == n then RemoveName(ps[1..], n)
    else [ps[0]] + RemoveName(ps[1..], n)
  }

  /**
   * `URLSearchParams.set`: the first entry named `n` takes the value `v` and
   * the other entries of that name go; with no such entry, one is appended.
   */
  function SetPair(ps: seq<Pair>, n: string, v: string): (r: seq<Pair>)
    ensures (n, v) in r
    ensures forall i :: 0 <= i < |r| && r[i].0 == n ==> r[i].1 == v
    ensures forall p :: p in ps && p.0 != n ==> p in r
    ensures forall p :: p in r && p.0 != n ==> p in ps
    ensures (forall i :: 0 <= i < |ps| ==> ps[i].0 != n) ==> r == ps + [(n, v)]
  {
    if ps == [] then [(n, v)]
    else if ps[0].0 == n then [(n, v)] + RemoveName(ps[1..], n)
    else [ps[0]] + SetPair(ps[1..], n, v)
  }

  /**
   * `URLSearchParams.toString`: the entries as `name=value`, joined by `&`.
   * The form-urlencoding of the values is the parameter `encode`; the two
   * names used here are plain ASCII letters, which encode to themselves.
   */
  function Serialize(ps: seq<Pair>, encode: string -> string): (r: string)
    ensures r == "" <==> ps == []
    ensures ps != [] ==> |r| > |ps[0].0| && r[..|ps[0].0| + 1] == ps[0].0 + "="
  {
    if ps == [] then ""
    else
      var head := ps[0].0 + "=" + encode(ps[0].1);
      assert head[|ps[0].0|] == '=';
      if |ps| == 1 then head else head + "&" + Serialize(ps[1..], encode)
  }

  /** A `URLSearchParams` object, built in place by successive `set` calls. */
  class SearchParams {
    var pairs: seq<Pair>

    constructor ()
      ensures pairs == []
    {
      pairs := [];
    }

    method Set(n: string, v: string)
      modifies this
      ensures pairs == SetPair(old(pairs), n, v)
    {
      pairs := SetPair(pairs, n, v);
    }

    function ToString(encode: string -> string): string
      reads this
    {
      Serialize(pairs, encode)
    }
  }

  // ---------------------------------------------------------------------
  // buildQuery and the list URL
  // ---------------------------------------------------------------------

  /** The entries `buildQuery` sets, in the order it sets them. */
  function QueryPairs(p: ListParams): (r: seq<Pair>)
    ensures |r| <= 2
  {
    (if Present(p.q) then [("q", p.q.value)] else [])
    + (if Present(p.category) then [("category", p.category.value)] else [])
  }

  /** The query string: `?` and the serialised entries, or nothing when there are none. */
  function Query(p: ListParams, encode: string -> string): (r: string)
    ensures r == "" <==> !Present(p.q) && !Present(p.category)
    ensures r != "" ==> r[0] == '?'
  {
    var qs := Serialize(QueryPairs(p), encode);
    if qs != "" then "?" + qs else ""
  }

  /** `buildQuery`, over a fresh `URLSearchParams` filled by `set`. */
  method BuildQuery(params: ListParams, encode: string -> string) returns (r: string)
    ensures r == Query(params, encode)
  {
    var sp := new SearchParams();
    if Present(params.q) {
      sp.Set("q", params.q.value);
    }
    if Present(params.category) {
      assert forall i :: 0 <= i < |sp.pairs| ==> sp.pairs[i].0 != "category";
      sp.Set("category", params.category.value);
    }
    assert sp.pairs == QueryPairs(params);
    var qs := sp.ToString(encode);
    r := if qs != "" then "?" + qs else "";
  }

  /** With both parameters given, `q` comes first, then `category`, joined by `&`. */
  lemma QueryBoth(p: ListParams, encode: string -> string)
    requires Present(p.q) && Present(p.category)
    ensures Query(p, encode) == "?q=" + encode(p.q.value) + "&category=" + encode(p.category.value)
  {
    var ps := QueryPairs(p);
    assert ps == [("q", p.q.value), ("category", p.category.value)];
    assert ps[1..] == [("category", p.category.value)];
    assert Serialize(ps[1..], encode) == "category=" + encode(p.category.value);
    assert Serialize(ps, encode) == "q=" + encode(p.q.value) + "&" + "category=" + encode(p.category.value);
  }

  /** With one parameter given, the query holds that one entry only. */
  lemma QueryOne(p: ListParams, encode: string -> string)
    ensures Present(p.q) && !Present(p.category) ==> Query(p, encode) == "?q=" + encode(p.q.value)
    ensures !Present(p.q) && Present(p.category) ==> Query(p, encode) == "?category=" + encode(p.category.value)
  {
  }

  /** An empty-string parameter is the same as an absent one. */
  lemma EmptyIsAbsent(q: Option<string>, category: Option<string>, encode: string -> string)
    ensures Query(ListParams(Some(""), category), encode) == Query(ListParams(None, category), encode)
    ensures Query(ListParams(q, Some("")), encode) == Query(ListParams(q, None), encode)
  {
    assert QueryPairs(ListParams(Some(""), category)) == QueryPairs(ListParams(None, category));
    assert QueryPairs(ListParams(q, Some(""))) == QueryPairs(ListParams(q, None));
  }

  const PHRASES_PATH := "/api/phrases"

  /** The URL `list` fetches. */
  function ListUrl(p: ListParams, encode: string -> string): (u: string)
    ensures |u| >= |PHRASES_PATH| && u[..|PHRASES_PATH|] == PHRASES_PATH
    ensures u == PHRASES_PATH <==> !Present(p.q) && !Present(p.category)
    ensures u != PHRASES_PATH ==> u[|PHRASES_PATH|] == '?'
  {
    PHRASES_PATH + Query(p, encode)
  }

  /** The URL `get`, `update` and `remove` use: the id goes through `encodeURIComponent`. */
  function ItemUrl(id: string, encodeComponent: string -> string): (u: string)
    ensures |u| > |PHRASES_PATH| && u[..|PHRASES_PATH| + 1] == PHRASES_PATH + "/"
    ensures u[|PHRASES_PATH| + 1..] == encodeComponent(id)
  {
    PHRASES_PATH + "/" + encodeComponent(id)
  }

  // ---------------------------------------------------------------------
  // Failed responses
  // ---------------------------------------------------------------------

  /** A `fetch` response: the status line, the body as `text()` reads it (None when that rejects), and `json()`. */
  datatype Response<T> = Response(ok: bool, status: nat, statusText: string, text: Option<string>, json: Result<T, Thrown>)

  /** `await res.text().catch(() => "")`. */
  function BodyText(text: Option<string>): (b: string)
    ensures text.None? ==> b == ""
    ensures text.Some? ==> b == text.value
  {
    text.GetOr("")
  }

  const BODY_SEPARATOR := " - "

  /** The message of the `Error` a failed response is turned into. */
  function ErrorMessage(status: nat, statusText: string, body: string): (m: string)
    ensures |NatToDecimal(status)| < |m| && m[..|NatToDecimal(status)|] == NatToDecimal(status)
    ensures body == "" <==> |m| == |NatToDecimal(status)| + 1 + |statusText|
  {
    NatToDecimal(status) + " " + statusText + (if body != "" then BODY_SEPARATOR + body else "")
  }

  /**
   * The message reads back: it starts with the status in decimal and a space,
   * then the status text; the body and its separator follow exactly when the
   * body is non-empty.
   */
  lemma ErrorMessageParts(status: nat, statusText: string, body: string)
    ensures var m := ErrorMessage(status, statusText, body);
      var d := NatToDecimal(status);
      && |d| < |m| && m[|d|] == ' '
      && (forall i :: 0 <= i < |d| ==> '0' <= m[i] <= '9')
      && DecimalValue(m[..|d|]) == status
      && m[|d| + 1..|d| + 1 + |statusText|] == statusText
      && (body == "" <==> |m| == |d| + 1 + |statusText|)
      && (body != "" ==> m[|d| + 1 + |statusText|..] == BODY_SEPARATOR + body)
  {
    var m := ErrorMessage(status, statusText, body);
    var d := NatToDecimal(status);
    assert m[..|d|] == d;
    DecimalRoundTrip(status);
  }

  /** Two failures with different status codes never carry the same message. */
  lemma ErrorMessageDistinguishesStatus(s1: nat, t1: string, b1: string, s2: nat, t2: string, b2: string)
    requires ErrorMessage(s1, t1, b1) == ErrorMessage(s2, t2, b2)
    ensures s1 == s2
  {
    ErrorMessageParts(s1, t1, b1);
    ErrorMessageParts(s2, t2, b2);
    var m := ErrorMessage(s1, t1, b1);
    var d1, d2 := NatToDecimal(s1), NatToDecimal(s2);
    if |d1| < |d2| {
      assert false;
    } else if |d2| < |d1| {
      assert false;
    }
  }

  /** `handleJson`: a failed response rejects with the formatted message; a good one yields its JSON. */
  function HandleJson<T>(res: Response<T>): (r: Result<T, Thrown>)
    ensures res.ok ==> r == res.json
    ensures !res.ok ==> r.Failure? && r.error.ErrorObject?
  {
    if !res.ok then Failure(ErrorObject(ErrorMessage(res.status, res.statusText, BodyText(res.text))))
    else res.json
  }

  /** `remove`: the same check, with no JSON to read. */
  function Remove<T>(res: Response<T>): (r: Outcome<Thrown>)
    ensures r.Pass? <==> res.ok
  {
    if !res.ok then Fail(ErrorObject(ErrorMessage(res.status, res.statusText, BodyText(res.text))))
    else Pass
  }

  /** `remove` and `handleJson` reject a failed response with the same message. */
  lemma RemoveAgreesWithHandleJson<T>(res: Response<T>)
    requires !res.ok
    ensures Remove(res).Fail? && HandleJson(res).Failure? && Remove(res).error == HandleJson(res).error
    ensures MessageOr(Remove(res).error, "") == ErrorMessage(res.status, res.statusText, BodyText(res.text))
  {
  }
}
