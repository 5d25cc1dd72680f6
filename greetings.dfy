/**
 * The greeting catalogue of main.go: a read-only list of
 * (language, greeting) records, the selection of one record by language
 * or at random (SelectGreeting), and the JSON-shaped response built from
 * the selected record (FormatResponse).
 *
 * The catalogue is a `seq<Greeting>` value, so no operation here can
 * change it. The index that `rand.Intn` draws is a parameter, `draw`.
 */
module Greetings {
  import opened Wrappers

  /** One catalogue record (main.go:19-22). */
  datatype Greeting = Greeting(language: string, greeting: string)

  /** The two errors SelectGreeting returns (main.go:97 and main.go:112). */
  datatype SelectError = NoGreetingsAvailable | NoGreetingFound(language: string)

  /** The key that picks a random record instead of searching. */
  const RandomKey: string := "random"

  /** The text `err.Error()` yields for each error. */
  function Message(e: SelectError): (m: string)
    ensures e.NoGreetingsAvailable? ==> m == "no greetings available"
    // the missing key is copied verbatim between single quotes at the end
    ensures e.NoGreetingFound? ==>
      var p := "no greeting found for language '";
      |m| == |p| + |e.language| + 1 && m[..|p|] == p &&
      m[|p|..|m| - 1] == e.language && m[|m| - 1] == '\''
  {
    match e
    case NoGreetingsAvailable => "no greetings available"
    case NoGreetingFound(language) => "no greeting found for language '" + language + "'"
  }

  /** Distinct errors have distinct messages: the message names the missing language. */
  lemma MessageInjective(e1: SelectError, e2: SelectError)
    ensures Message(e1) == Message(e2) <==> e1 == e2
  {
  }

  /**
   * The position of the first record whose language is `language`, if any:
   * the early-returning `for ... range` search of main.go:106-110.
   */
  function FirstMatch(gs: seq<Greeting>, language: string): (r: Option<nat>)
    ensures r.Some? ==> r.value < |gs| && gs[r.value].language == language
    ensures r.Some? ==> forall j :: 0 <= j < r.value ==> gs[j].language != language
    ensures r.None? <==> forall j :: 0 <= j < |gs| ==> gs[j].language != language
  {
    if |gs| == 0 then None
    else if gs[0].language == language then Some(0)
    else
      match FirstMatch(gs[1..], language)
      case None => None
      case Some(k) => Some(k + 1)
  }

  /**
   * SelectGreeting (main.go:95-113) as a function of the catalogue, the key
   * and the index `rand.Intn(len(greetings))` would draw. The draw is only
   * used, and so only constrained, on the random branch.
   */
  function Select(gs: seq<Greeting>, key: string, draw: nat): (r: Result<Greeting, SelectError>)
    requires key == RandomKey && |gs| > 0 ==> draw < |gs|
    // the empty check comes first and is the only source of this error
    ensures |gs| == 0 <==> r == Err(NoGreetingsAvailable)
    // a successful result is always a record of the catalogue
    ensures r.Ok? ==> r.value in gs
    // "random" on a non-empty catalogue returns the drawn record, never an error
    ensures |gs| > 0 && key == RandomKey ==> r == Ok(gs[draw])
    // any other key succeeds exactly when some record has that language ...
    ensures |gs| > 0 && key != RandomKey ==>
      (r.Ok? <==> exists k :: 0 <= k < |gs| && gs[k].language == key)
    // ... in which case the result is the first such record
    ensures key != RandomKey ==>
      forall k :: (0 <= k < |gs| && gs[k].language == key &&
        (forall j :: 0 <= j < k ==> gs[j].language != key)) ==> r == Ok(gs[k])
    // and otherwise the error names the key
    ensures |gs| > 0 && r.Err? ==> key != RandomKey && r.error == NoGreetingFound(key)
  {
    if |gs| == 0 then Err(NoGreetingsAvailable)
    else if key == RandomKey then Ok(gs[draw])
    else
      match FirstMatch(gs, key)
      case Some(k) => Ok(gs[k])
      case None => Err(NoGreetingFound(key))
  }

  /**
   * SelectGreeting with the loop of main.go:106-110: the same checks in
   * the same order, returning from inside the loop on the first match.
   */
  method SelectGreeting(greetings: seq<Greeting>, language: string, draw: nat)
    returns (r: Result<Greeting, SelectError>)
    requires language == RandomKey && |greetings| > 0 ==> draw < |greetings|
    ensures r == Select(greetings, language, draw)
  {
    if |greetings| == 0 {
      return Err(NoGreetingsAvailable);
    }
    if language == RandomKey {
      return Ok(greetings[draw]);
    }
    for i := 0 to |greetings|
      invariant forall j :: 0 <= j < i ==> greetings[j].language != language
    {
      if greetings[i].language == language {
        return Ok(greetings[i]);
      }
    }
    return Err(NoGreetingFound(language));
  }

  /** Reference definition: every record of `gs` whose language is `language`, in order. */
  function Matching(gs: seq<Greeting>, language: string): seq<Greeting>
  {
    if |gs| == 0 then []
    else (if gs[0].language == language then [gs[0]] else []) + Matching(gs[1..], language)
  }

  /** The linear search finds exactly the head of the filtered catalogue. */
  lemma {:induction false} FirstMatchIsHeadOfMatching(gs: seq<Greeting>, language: string)
    ensures FirstMatch(gs, language).None? <==> Matching(gs, language) == []
    ensures FirstMatch(gs, language).Some? ==>
      Matching(gs, language)[0] == gs[FirstMatch(gs, language).value]
  {
    if |gs| > 0 {
      FirstMatchIsHeadOfMatching(gs[1..], language);
    }
  }

  /**
   * For a key other than "random", selection agrees with the reference:
   * the first of the matching records, or an error when there is none.
   */
  lemma SelectByLanguageIsFirstOfMatching(gs: seq<Greeting>, key: string, draw: nat)
    requires key != RandomKey
    ensures Select(gs, key, draw) ==
      if |gs| == 0 then Err(NoGreetingsAvailable)
      else if Matching(gs, key) == [] then Err(NoGreetingFound(key))
      else Ok(Matching(gs, key)[0])
  {
  }

  /** For a key other than "random" the draw plays no part: the lookup is deterministic. */
  lemma SelectByLanguageIgnoresDraw(gs: seq<Greeting>, key: string, d1: nat, d2: nat)
    requires key != RandomKey
    ensures Select(gs, key, d1) == Select(gs, key, d2)
  {
  }

  /**
   * A record whose language is literally "random" is never reached by the
   * search: whatever the key, it is returned only when the key is "random"
   * and it is the drawn record.
   */
  lemma RandomLanguageRecordOnlyByDraw(gs: seq<Greeting>, key: string, draw: nat, k: nat)
    requires key == RandomKey && |gs| > 0 ==> draw < |gs|
    requires k < |gs| && gs[k].language == RandomKey
    ensures Select(gs, key, draw) == Ok(gs[k]) <==> key == RandomKey && gs[draw] == gs[k]
  {
  }

  /** The literal text before the greeting in a response. */
  const ResponsePrefix: string := "{\"greeting\":\""

  /** The literal text after the greeting in a response. */
  const ResponseSuffix: string := "\"}"

  /**
   * The inverse of FormatResponse: the text between the fixed prefix and
   * suffix, or None when the string does not have that shape.
   */
  function ParseResponse(s: string): Option<string>
  {
    if |ResponsePrefix| + |ResponseSuffix| <= |s|
       && s[..|ResponsePrefix|] == ResponsePrefix
       && s[|s| - |ResponseSuffix|..] == ResponseSuffix
    then Some(s[|ResponsePrefix|..|s| - |ResponseSuffix|])
    else None
  }

  /**
   * FormatResponse (main.go:91-93): `%s` copies the greeting text verbatim,
   * with no escaping, between the fixed prefix and suffix; the language is
   * not part of the response.
   */
  function FormatResponse(g: Greeting): (s: string)
    ensures |s| == |g.greeting| + 15
    ensures ParseResponse(s) == Some(g.greeting)
  {
    ResponsePrefix + g.greeting + ResponseSuffix
  }

  /** Every string of the response's shape is the response for the greeting it carries. */
  lemma ParseThenFormat(s: string, language: string)
    requires ParseResponse(s).Some?
    ensures FormatResponse(Greeting(language, ParseResponse(s).value)) == s
  {
  }

  /** Two records give the same response exactly when their greeting texts are equal. */
  lemma FormatResponseInjective(a: Greeting, b: Greeting)
    ensures FormatResponse(a) == FormatResponse(b) <==> a.greeting == b.greeting
  {
  }
}
