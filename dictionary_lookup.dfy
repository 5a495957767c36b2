/**
 * The dictionary lookup of a word: the request URL, and how the response is classified into an
 * error result or the list of entries.
 */
module DictionaryLookup {
  import opened Common
  import opened Links

  /** A decoded JSON value. Numbers are integers here; fractional numbers are not modelled. */
  datatype Json =
    | JNull
    | JBool(b: bool)
    | JNumber(n: int)
    | JString(s: string)
    | JArray(items: seq<Json>)
    | JObject(fields: map<string, Json>)

  const MwBaseUrl: string := "https://www.dictionaryapi.com/api/v3/references/collegiate/json/"
  const KeyParam: string := "?key="
  const ShortDef: string := "shortdef"

  /**
   * The request URL: the word as given, then the key. A missing key (the environment variable is
   * unset) is formatted as the text "None".
   */
  function RequestUrl(word: string, apiKey: Option<string>): (url: string)
    ensures |url| >= |MwBaseUrl| + |word| + |KeyParam|
    ensures url[..|MwBaseUrl|] == MwBaseUrl
    ensures url[|MwBaseUrl|..|MwBaseUrl| + |word|] == word
    ensures url[|MwBaseUrl| + |word|..|MwBaseUrl| + |word| + |KeyParam|] == KeyParam
    ensures url[|MwBaseUrl| + |word| + |KeyParam|..] == (if apiKey.Some? then apiKey.value else "None")
  {
    MwBaseUrl + word + KeyParam + (if apiKey.Some? then apiKey.value else "None")
  }

  /** Reads a request URL back into the word and the key text: the partner of `RequestUrl`. */
  function ParseRequestUrl(url: string): (r: Option<(string, string)>)
    ensures r.Some? ==> MwBaseUrl + r.value.0 + KeyParam + r.value.1 == url && '?' !in r.value.0
  {
    if |url| < |MwBaseUrl| || url[..|MwBaseUrl|] != MwBaseUrl then None
    else
      var rest := url[|MwBaseUrl|..];
      var k := IndexOf(rest, '?');
      if |rest| - k < |KeyParam| || rest[k..k + |KeyParam|] != KeyParam then None
      else
        var word, key := rest[..k], rest[k + |KeyParam|..];
        assert url == MwBaseUrl + word + KeyParam + key by {
          assert rest == word + KeyParam + key;
        }
        assert '?' !in word by {
          assert forall i :: 0 <= i < |word| ==> word[i] == rest[i];
        }
        Some((word, key))
  }

  /** A word without '?' and its key are recovered from the request URL. */
  lemma {:induction false} RequestUrlRoundTrip(word: string, apiKey: Option<string>)
    requires '?' !in word
    ensures ParseRequestUrl(RequestUrl(word, apiKey)) == Some((word, if apiKey.Some? then apiKey.value else "None"))
  {
    var url := RequestUrl(word, apiKey);
    var key := if apiKey.Some? then apiKey.value else "None";
    var rest := url[|MwBaseUrl|..];
    assert rest == word + (KeyParam + key);
    IndexOfAfter(word, KeyParam + key, '?');
    assert rest[..|word|] == word;
    assert rest[|word|..|word| + |KeyParam|] == KeyParam;
    assert rest[|word| + |KeyParam|..] == key;
  }

  /** Python truthiness of a decoded value. */
  predicate Truthy(j: Json)
  {
    match j
    case JNull => false
    case JBool(b) => b
    case JNumber(n) => n != 0
    case JString(s) => s != []
    case JArray(items) => items != []
    case JObject(fields) => fields != map[]
  }

  /** `"shortdef" in entry`: a key of an object, a substring of a string, an element of a list. */
  function ShortDefIn(entry: Json): (r: Result<bool, Error>)
    ensures r.Err? <==> entry.JNull? || entry.JBool? || entry.JNumber?
    ensures entry.JObject? ==> r == Ok(ShortDef in entry.fields)
    ensures entry.JString? ==> r.Ok? && (r.value <==> exists i: nat :: OccursAt(ShortDef, entry.s, i))
    ensures entry.JArray? ==> r == Ok(JString(ShortDef) in entry.items)
  {
    match entry
    case JObject(fields) => Ok(ShortDef in fields)
    case JString(s) => Ok(IsSubstring(ShortDef, s))
    case JArray(items) => Ok(JString(ShortDef) in items)
    case _ => Err(TypeError("argument is not iterable"))
  }

  /** The result dictionary: an error (with the status and data it reports) or the entries. */
  datatype Outcome =
    | FetchFailed(statusCode: nat, data: Json)
    | WordNotFound(data: Json)
    | Found(entries: seq<Json>)

  /** What `get_word_mw_response` returns for the response status and decoded body. */
  function Classify(statusCode: nat, body: Json): (r: Result<Outcome, Error>)
    ensures statusCode != 200 ==> r == Ok(FetchFailed(statusCode, JNull))
    ensures r.Ok? && r.value.FetchFailed? <==> statusCode != 200 || !body.JArray? || body.items == []
    ensures r.Ok? && r.value.FetchFailed? && statusCode == 200 ==> r.value.data == body
    ensures r.Ok? && r.value.WordNotFound? ==> r.value.data == body
    ensures r.Ok? && r.value.Found? ==> statusCode == 200 && body == JArray(r.value.entries)
  {
    var data := if statusCode == 200 then body else JNull;
    if !Truthy(data) || !data.JArray? then Ok(FetchFailed(statusCode, data))
    else
      match ShortDefIn(data.items[0])
      case Err(e) => Err(e)
      case Ok(found) => if !found then Ok(WordNotFound(data)) else Ok(Found(data.items))
  }

  /**
   * Success exactly when the status is 200, the body is a non-empty list and its first entry
   * holds "shortdef"; the data is then returned unchanged.
   */
  lemma ClassifyFound(statusCode: nat, body: Json)
    ensures Classify(statusCode, body).Ok? && Classify(statusCode, body).value.Found? <==>
      statusCode == 200 && body.JArray? && body.items != [] && ShortDefIn(body.items[0]) == Ok(true)
    ensures Classify(statusCode, body).Ok? && Classify(statusCode, body).value.Found? ==>
      Classify(statusCode, body).value.entries == body.items
  {
  }

  /**
   * The word-not-found result: a non-empty list from a 200 response whose first entry does not
   * hold "shortdef" (the entries are then spelling suggestions).
   */
  lemma ClassifyWordNotFound(statusCode: nat, body: Json)
    ensures Classify(statusCode, body) == Ok(WordNotFound(body)) <==>
      statusCode == 200 && body.JArray? && body.items != [] && ShortDefIn(body.items[0]) == Ok(false)
  {
  }

  /** A 200 list whose first entry is a number, a boolean or null makes the `in` test raise. */
  lemma ClassifyRaises(statusCode: nat, body: Json)
    ensures Classify(statusCode, body).Err? <==>
      statusCode == 200 && body.JArray? && body.items != []
      && (body.items[0].JNull? || body.items[0].JBool? || body.items[0].JNumber?)
  {
  }

  /** The truthiness test only matters for lists: the check passes exactly for a non-empty list. */
  lemma GuardPassesOnlyNonEmptyLists(data: Json)
    ensures !(!Truthy(data) || !data.JArray?) <==> data.JArray? && data.items != []
  {
  }

  /** The typical dictionary answer: entries are objects, and the first carries "shortdef". */
  lemma EntryObjectsWithShortDef(entries: seq<map<string, Json>>)
    requires entries != [] && ShortDef in entries[0]
    ensures Classify(200, JArray(seq(|entries|, i requires 0 <= i < |entries| => JObject(entries[i]))))
            == Ok(Found(seq(|entries|, i requires 0 <= i < |entries| => JObject(entries[i]))))
  {
  }
}
