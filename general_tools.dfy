/**
 * `GeneralTools`: the clean-up of a URL written by a language model. The
 * text is stripped of whitespace, double quotes and single quotes in turn;
 * when what remains is a JSON object with an `anyOf` member (a schema the
 * model echoed instead of a value), the first non-empty string among its
 * members is taken instead.
 */
module GeneralTools {
  import opened Basics
  import opened Strings

  /**
   * A decoded JSON value. Numbers are known by their value only as far as
   * truthiness needs it; an object keeps its keys in document order.
   */
  datatype Json =
    | JNull
    | JBool(b: bool)
    | JNumber(n: real)
    | JStr(s: string)
    | JArray(items: seq<Json>)
    | JObject(keys: seq<string>, fields: map<string, Json>)

  const DOUBLE_QUOTE: set<char> := {'"'}
  const SINGLE_QUOTE: set<char> := {'\''}

  /** `.strip('"').strip("'")`. */
  function Unquoted(s: string): string {
    StripChars(StripChars(s, DOUBLE_QUOTE), SINGLE_QUOTE)
  }

  /** Unquoting leaves no single quote at either end. */
  lemma UnquotedEnds(s: string)
    ensures var r := Unquoted(s); r == [] || (r[0] !in SINGLE_QUOTE && r[|r| - 1] !in SINGLE_QUOTE)
  {
    StripCharsEnds(StripChars(s, DOUBLE_QUOTE), SINGLE_QUOTE);
  }

  /** `url.strip().strip('"').strip("'")`. */
  function Cleaned(url: string): string {
    Unquoted(Strip(url))
  }

  /**
   * What a `for` loop over a JSON value visits: the items of an array, the
   * keys of an object, the one-character strings of a string. Numbers,
   * booleans and `null` are not iterable and raise `TypeError`.
   */
  function Members(v: Json): (r: Result<seq<Json>>)
    ensures r.Err? <==> (v.JNull? || v.JBool? || v.JNumber?)
    ensures r.Err? ==> r.error == TypeError
    ensures v.JArray? ==> r == Ok(v.items)
    ensures v.JObject? ==> r.Ok? && |r.value| == |v.keys| && forall i :: 0 <= i < |v.keys| ==> r.value[i] == JStr(v.keys[i])
    ensures v.JStr? ==> r.Ok? && |r.value| == |v.s| && forall i :: 0 <= i < |v.s| ==> r.value[i] == JStr([v.s[i]])
  {
    match v
    case JArray(items) => Ok(items)
    case JObject(keys, _) => Ok(seq(|keys|, i requires 0 <= i < |keys| => JStr(keys[i])))
    case JStr(s) => Ok(seq(|s|, i requires 0 <= i < |s| => JStr([s[i]])))
    case _ => Err(TypeError)
  }

  /** `item and isinstance(item, str)`. */
  predicate IsText(item: Json) {
    item.JStr? && item.s != ""
  }

  /** The position of the first non-empty string in `items` at or after `i`. */
  function FirstText(items: seq<Json>, i: nat): (r: Option<nat>)
    requires i <= |items|
    ensures r.Some? ==>
      i <= r.value < |items| && IsText(items[r.value]) && forall k :: i <= k < r.value ==> !IsText(items[k])
    ensures r.None? ==> forall k :: i <= k < |items| ==> !IsText(items[k])
    decreases |items| - i
  {
    if i == |items| then None
    else if IsText(items[i]) then Some(i)
    else FirstText(items, i + 1)
  }

  /**
   * What happens to the cleaned text `clean`: a JSON object with `anyOf`
   * gives way to the first non-empty string it iterates over, unquoted;
   * every other text is kept.
   */
  function Resolve(parse: string -> Option<Json>, clean: string): (r: Result<string>)
  {
    if !StartsWith(clean, "{") then Ok(clean)
    else
      var parsed := parse(clean);
      if parsed.None? || !parsed.value.JObject? || "anyOf" !in parsed.value.fields then Ok(clean)
      else
        var members := Members(parsed.value.fields["anyOf"]);
        if members.Err? then Err(members.error)
        else
          var first := FirstText(members.value, 0);
          if first.Some? then Ok(Unquoted(members.value[first.value].s)) else Ok(clean)
  }

  /** The first non-empty string is the one with none before it. */
  lemma FirstTextAt(items: seq<Json>, i: nat)
    requires i < |items| && IsText(items[i]) && forall k :: 0 <= k < i ==> !IsText(items[k])
    ensures FirstText(items, 0) == Some(i)
  {
  }

  /** What `clean_llm_outputted_url` returns or raises. */
  function CleanUrl(parse: string -> Option<Json>, url: string): Result<string> {
    Resolve(parse, Cleaned(url))
  }

  /**
   * `clean_llm_outputted_url(url)`; `parse` is `json.loads`, giving `None`
   * where it raises `JSONDecodeError`.
   */
  method CleanLlmOutputtedUrl(parse: string -> Option<Json>, url: string) returns (r: Result<string>)
    ensures r == CleanUrl(parse, url)
  {
    var cleanUrl := Cleaned(url);
    r := ResolveCleaned(parse, cleanUrl);
  }

  /** The part of `clean_llm_outputted_url` after the strips, on the cleaned text. */
  method ResolveCleaned(parse: string -> Option<Json>, clean: string) returns (r: Result<string>)
    ensures r == Resolve(parse, clean)
  {
    var cleanUrl := clean;
    if StartsWith(cleanUrl, "{") {
      var parsed := parse(cleanUrl);
      if parsed.Some? && parsed.value.JObject? && "anyOf" in parsed.value.fields {
        var members := Members(parsed.value.fields["anyOf"]);
        if members.Err? {
          return Err(members.error);
        }
        var items := members.value;
        ghost var first := FirstText(items, 0);
        var i := 0;
        while i < |items|
          invariant 0 <= i <= |items|
          invariant first == FirstText(items, i)
          invariant cleanUrl == clean
        {
          if items[i].JStr? && items[i].s != "" {
            assert first == Some(i);
            cleanUrl := Unquoted(items[i].s);
            break;
          }
          i := i + 1;
        }
      }
    }
    return Ok(cleanUrl);
  }

  /** Text that does not start with `{` once cleaned is returned cleaned. */
  lemma PlainUrl(parse: string -> Option<Json>, url: string)
    requires !StartsWith(Cleaned(url), "{")
    ensures CleanUrl(parse, url) == Ok(Cleaned(url))
  {
  }

  /** Text that is not valid JSON is returned cleaned. */
  lemma MalformedJsonUnchanged(parse: string -> Option<Json>, url: string)
    requires parse(Cleaned(url)).None?
    ensures CleanUrl(parse, url) == Ok(Cleaned(url))
  {
  }

  /** An `anyOf` array yields its first non-empty string member, unquoted. */
  lemma AnyOfArrayFirst(parse: string -> Option<Json>, clean: string, keys: seq<string>, fields: map<string, Json>, i: nat)
    requires StartsWith(clean, "{")
    requires parse(clean) == Some(JObject(keys, fields))
    requires "anyOf" in fields && fields["anyOf"].JArray?
    requires i < |fields["anyOf"].items| && IsText(fields["anyOf"].items[i])
    requires forall k :: 0 <= k < i ==> !IsText(fields["anyOf"].items[k])
    ensures Resolve(parse, clean) == Ok(Unquoted(fields["anyOf"].items[i].s))
  {
    FirstTextAt(fields["anyOf"].items, i);
  }

  /** An `anyOf` array without a non-empty string member leaves the cleaned text as it is. */
  lemma AnyOfArrayNoText(parse: string -> Option<Json>, clean: string, keys: seq<string>, fields: map<string, Json>)
    requires StartsWith(clean, "{")
    requires parse(clean) == Some(JObject(keys, fields))
    requires "anyOf" in fields && fields["anyOf"].JArray?
    requires forall k :: 0 <= k < |fields["anyOf"].items| ==> !IsText(fields["anyOf"].items[k])
    ensures Resolve(parse, clean) == Ok(clean)
  {
  }

  /** An `anyOf` that is a number, a boolean or `null` cannot be iterated: the `TypeError` escapes. */
  lemma AnyOfNotIterable(parse: string -> Option<Json>, url: string, keys: seq<string>, fields: map<string, Json>)
    requires StartsWith(Cleaned(url), "{")
    requires parse(Cleaned(url)) == Some(JObject(keys, fields))
    requires "anyOf" in fields && (fields["anyOf"].JNull? || fields["anyOf"].JBool? || fields["anyOf"].JNumber?)
    ensures CleanUrl(parse, url) == Err(TypeError)
  {
  }

  /** An `anyOf` that is a non-empty string is iterated by character: its first character is taken. */
  lemma AnyOfString(parse: string -> Option<Json>, clean: string, keys: seq<string>, fields: map<string, Json>)
    requires StartsWith(clean, "{")
    requires parse(clean) == Some(JObject(keys, fields))
    requires "anyOf" in fields && fields["anyOf"].JStr? && fields["anyOf"].s != ""
    ensures Resolve(parse, clean) == Ok(Unquoted([fields["anyOf"].s[0]]))
  {
    var members := Members(fields["anyOf"]);
    assert IsText(members.value[0]);
    FirstTextAt(members.value, 0);
  }

  /** Whatever path is taken, a returned URL neither starts nor ends with a single quote. */
  lemma NoSingleQuoteAtEnds(parse: string -> Option<Json>, url: string)
    requires CleanUrl(parse, url).Ok?
    ensures var r := CleanUrl(parse, url).value; r == [] || (r[0] != '\'' && r[|r| - 1] != '\'')
  {
    var clean := Cleaned(url);
    UnquotedEnds(Strip(url));
    ResolveEnds(parse, clean);
  }

  /** Resolving a text without single quotes at its ends gives such a text. */
  lemma ResolveEnds(parse: string -> Option<Json>, clean: string)
    requires clean == [] || (clean[0] !in SINGLE_QUOTE && clean[|clean| - 1] !in SINGLE_QUOTE)
    requires Resolve(parse, clean).Ok?
    ensures var r := Resolve(parse, clean).value; r == [] || (r[0] != '\'' && r[|r| - 1] != '\'')
  {
    var parsed := parse(clean);
    if StartsWith(clean, "{") && parsed.Some? && parsed.value.JObject? && "anyOf" in parsed.value.fields {
      var members := Members(parsed.value.fields["anyOf"]);
      var first := FirstText(members.value, 0);
      if first.Some? {
        UnquotedEnds(members.value[first.value].s);
      }
    }
  }

  /**
   * The strips run in a fixed order, so double quotes inside single quotes
   * survive: single quotes around a text whose ends are not single quotes
   * are removed and nothing else is.
   */
  lemma SingleQuotedText(w: string)
    requires w != [] && w[0] !in SINGLE_QUOTE && w[|w| - 1] !in SINGLE_QUOTE
    ensures Cleaned(['\''] + w + ['\'']) == w
  {
    assert '\'' !in WHITESPACE && '\'' !in DOUBLE_QUOTE && '\'' in SINGLE_QUOTE;
    StripsAroundQuoted(w, WHITESPACE, DOUBLE_QUOTE, SINGLE_QUOTE, '\'');
  }

  /**
   * Three strips in a row, of which only the last removes `q`, turn `w`
   * wrapped in `q` into `w`.
   */
  lemma StripsAroundQuoted(w: string, first: set<char>, second: set<char>, third: set<char>, q: char)
    requires q !in first && q !in second && q in third
    requires w != [] && w[0] !in third && w[|w| - 1] !in third
    ensures StripChars(StripChars(StripChars([q] + w + [q], first), second), third) == w
  {
    var u := [q] + w + [q];
    assert u[0] == q && u[|u| - 1] == q;
    StripKeeps(u, first);
    StripKeeps(u, second);
    StripSurrounded(w, third, q);
  }

  /** Text whose ends are kept is left alone by stripping. */
  lemma StripKeeps(u: string, cs: set<char>)
    requires u != [] && u[0] !in cs && u[|u| - 1] !in cs
    ensures StripChars(u, cs) == u
  {
    assert [] + u + [] == u;
    StripCharsInfix([], u, [], cs);
  }

  /** Stripping removes one strippable character at each end of a text whose ends are kept. */
  lemma StripSurrounded(w: string, cs: set<char>, q: char)
    requires q in cs && w != [] && w[0] !in cs && w[|w| - 1] !in cs
    ensures StripChars([q] + w + [q], cs) == w
  {
    assert [] + w + [] == w;
    assert TrimLeft([q], cs) == [];
    assert TrimRight([q], cs) == [];
    StripCharsInfix([q], w, [q], cs);
  }

  /** `'"x"'` cleans to `"x"`. */
  lemma StripOrder()
    ensures Cleaned("'\"x\"'") == "\"x\""
  {
    assert "'\"x\"'" == ['\''] + "\"x\"" + ['\''];
    SingleQuotedText("\"x\"");
  }
}
