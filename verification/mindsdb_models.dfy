/**
 * Model definitions and the pure functions that turn a definition plus a caller's overrides into
 * the payloads sent to the remote service: query-template substitution, predict options and
 * adjust options.
 */
module MindsdbModels {
  import opened Wrappers
  import opened JsString
  import SqlString
  import IsoDate

  /** The exceptions the core throws. */
  datatype Error =
    | TypeError(cause: TypeErrorCause)   // a property read on `undefined` / `null`
    | InvalidCronExpression              // "Invalid cron expression"
    | ModelAlreadyExists(name: string)   // "Model <name> already exists"

  /** Which `undefined` or `null` value a TypeError came from. */
  datatype TypeErrorCause =
    | MissingParams        // `Object.keys(undefined)` in the template substitution
    | MissingDefinition    // a model name with no definition
    | MissingRemoteModel   // the remote service returned no model
    | MissingAdjustOptions // a definition without adjust options

  datatype Granularity = Day | Month | Week | Quarter | Year

  /** How often a model is retrained. */
  datatype Cadence = Monthly | Weekly | Daily | Hourly

  /** A JSON value, as found in the `using` maps of the training and adjust options. */
  datatype Json =
    | JNull
    | JBool(b: bool)
    | JNumber(n: int)
    | JString(s: string)
    | JArray(items: seq<Json>)
    | JObject(fields: seq<(string, Json)>)

  /** A derived view that must exist before the model is trained. */
  datatype ViewDef = ViewDef(select: string, name: Option<string>)

  datatype TrainingOptions = TrainingOptions(
    select: string,
    integration: Option<string>,
    groupBy: Option<string>,
    orderBy: Option<string>,
    window: Option<int>,
    horizon: Option<int>,
    using: Option<Json>)

  datatype AdjustOptions = AdjustOptions(select: string, integration: Option<string>, using: Option<Json>)

  datatype FinetuneOptions = FinetuneOptions(select: string, integration: Option<string>, using: Option<Json>)

  /** A `where` template: one condition, or an ordered list of conditions. */
  datatype Where = One(text: string) | Many(texts: seq<string>)

  datatype PredictDefaults = PredictDefaults(where: Where, join: string, limit: Option<int>)

  /** `IModel`, with the `tag`, `retrainSchedule` and `finetuneOptions` properties the definitions
      and the scheduler also use. */
  datatype ModelDef = ModelDef(
    name: string,
    targetColumn: string,
    tag: Option<string>,
    granularity: Option<Granularity>,
    integration: Option<string>,
    retrainSchedule: Option<Cadence>,
    view: Option<ViewDef>,
    trainingOptions: TrainingOptions,
    predictOptions: PredictDefaults,
    adjustOptions: Option<AdjustOptions>,
    finetuneOptions: Option<FinetuneOptions>)

  /** A query parameter: a string, an integral Number or a `Date` (its time value). */
  datatype ParamValue = PText(s: string) | PNumber(n: int) | PDate(t: IsoDate.TimeValue)

  /** A parameter record, its entries in the order `Object.keys` lists them. */
  type Params = seq<(string, ParamValue)>

  /** A predict request as `??` sees it: `None` for a property that is absent, `undefined` or `null`. */
  datatype PredictQuery = PredictQuery(
    join: Option<string>,
    where: Option<Where>,
    limit: Option<int>,
    params: Option<Params>,
    version: Option<int>)

  datatype PredictOptions = PredictOptions(join: string, where: Where, limit: Option<int>)

  /** An adjust request as `??` sees it. */
  datatype AdjustRequest = AdjustRequest(select: Option<string>, using: Option<Json>)

  datatype AdjustPayload = AdjustPayload(select: string, using: Option<Json>)

  /** The SQL text a parameter value is written as: `mysql.escape` of the value, a `Date` first
      turned into its ISO-8601 text. */
  function RenderValue(v: ParamValue): (r: string)
    ensures v.PText? ==> |r| >= 2 && r[0] == '\'' && r[|r| - 1] == '\'' && SqlString.UnescapeBody(r[1..|r| - 1]) == v.s
    ensures v.PNumber? ==> |r| >= 1 && (r[0] == '-' || IsDigit(r[0])) && (forall k :: 0 < k < |r| ==> IsDigit(r[k]))
                           && ParseIntText(r) == v.n
    ensures v.PDate? ==> r == "'" + IsoDate.ToIsoString(v.t) + "'"
  {
    match v
    case PText(s) => SqlString.Escape(SqlString.Text(s))
    case PNumber(n) => SqlString.Escape(SqlString.Number(n))
    case PDate(t) =>
      QuotedIsoText(IsoDate.ToIsoString(t));
      SqlString.Escape(SqlString.Text(IsoDate.ToIsoString(t)))
  }

  /** A Number is written as its bare decimal text. */
  lemma RenderNumber(n: int)
    ensures RenderValue(PNumber(n)) == IntText(n)
    ensures '$' !in RenderValue(PNumber(n))
  {
    IntTextRoundTrip(n);
  }

  /** ISO text is quoted as it is, and the literal holds no `$`. */
  lemma QuotedIsoText(iso: string)
    requires IsoDate.AllIsoChars(iso)
    ensures SqlString.Escape(SqlString.Text(iso)) == "'" + iso + "'"
    ensures '$' !in "'" + iso + "'"
  {
    forall k | 0 <= k < |iso| ensures !SqlString.IsSpecial(iso[k]) && iso[k] != '$' {
      assert IsoDate.IsoChar(iso[k]);
    }
    SqlString.EscapePlainText(iso);
  }

  /** The quoted ISO text of a date holds no `$`, so `replace` inserts it as it is. */
  lemma RenderDate(t: IsoDate.TimeValue)
    ensures '$' !in RenderValue(PDate(t))
  {
    QuotedIsoText(IsoDate.ToIsoString(t));
  }

  /**
   * The substitution applied to one template string: for each parameter key in order, the first
   * occurrence of the key in the string as rewritten so far is replaced by the rendered value.
   */
  function Substitute(query: string, params: Params): (r: string)
    ensures params == [] ==> r == query
    decreases |params|
  {
    if params == [] then query
    else Substitute(Replace(query, params[0].0, RenderValue(params[0].1)), params[1..])
  }

  /** Substituting two parameter lists one after the other is substituting their concatenation. */
  lemma {:induction false} SubstituteAppend(query: string, first: Params, second: Params)
    ensures Substitute(query, first + second) == Substitute(Substitute(query, first), second)
    decreases |first|
  {
    if first == [] {
      assert first + second == second;
    } else {
      assert (first + second)[0] == first[0];
      assert (first + second)[1..] == first[1..] + second;
      SubstituteAppend(Replace(query, first[0].0, RenderValue(first[0].1)), first[1..], second);
    }
  }

  /** The last key acts on the text every earlier key has already rewritten, and replaces
      only the first occurrence of itself there. */
  lemma SubstituteLastKey(query: string, params: Params, key: string, value: ParamValue)
    ensures Substitute(query, params + [(key, value)])
      == Replace(Substitute(query, params), key, RenderValue(value))
  {
    SubstituteAppend(query, params, [(key, value)]);
  }

  /** A key occurring nowhere leaves the text as it is; when no key occurs, the template comes back unchanged. */
  lemma {:induction false} AbsentKeysKeepTemplate(query: string, params: Params)
    requires forall e, j :: e in params ==> !OccursAt(query, e.0, j)
    ensures Substitute(query, params) == query
    decreases |params|
  {
    if params != [] {
      assert params[0] in params;
      assert Replace(query, params[0].0, RenderValue(params[0].1)) == query;
      assert forall e :: e in params[1..] ==> e in params;
      AbsentKeysKeepTemplate(query, params[1..]);
    }
  }

  /** One number or date parameter whose key first occurs at `i`: that occurrence, and only it,
      becomes the rendered value. */
  lemma SingleKeyFirstOccurrence(query: string, key: string, value: ParamValue, i: int)
    requires FirstOccurrence(query, key, i)
    requires value.PNumber? || value.PDate?
    ensures Substitute(query, [(key, value)]) == query[..i] + RenderValue(value) + query[i + |key|..]
  {
    var rendered := RenderValue(value);
    assert '$' !in rendered by {
      if value.PNumber? { RenderNumber(value.n); } else { RenderDate(value.t); }
    }
    SubstituteOne(query, key, value);
    ReplaceFirstOccurrence(query, key, rendered, i);
  }

  /** Substitution of two parameters is two `replace`s, in order. */
  lemma SubstitutePair(query: string, k1: string, v1: ParamValue, k2: string, v2: ParamValue)
    ensures Substitute(query, [(k1, v1), (k2, v2)])
         == Replace(Replace(query, k1, RenderValue(v1)), k2, RenderValue(v2))
  {
    assert [(k1, v1), (k2, v2)][1..] == [(k2, v2)];
    SubstituteOne(Replace(query, k1, RenderValue(v1)), k2, v2);
  }

  /** Substitution of a single parameter is one `replace`. */
  lemma SubstituteOne(query: string, key: string, value: ParamValue)
    ensures Substitute(query, [(key, value)]) == Replace(query, key, RenderValue(value))
  {
    assert [(key, value)][1..] == [];
  }

  /** A key whose first character is not in `a` first occurs right after `a`. */
  lemma FirstAfterPrefix(a: string, key: string, b: string)
    requires |key| > 0 && key[0] !in a
    ensures FirstOccurrence(a + key + b, key, |a|)
  {
    var t := a + key + b;
    assert t[|a|..|a| + |key|] == key;
    forall j | 0 <= j < |a| ensures !OccursAt(t, key, j) {
      assert t[j] == a[j];
      if j + |key| <= |t| { assert t[j..j + |key|][0] == t[j]; }
    }
  }

  /** `replace` of a key first occurring right after `a`, by a `$`-free text. */
  lemma ReplaceAfterPrefix(a: string, key: string, b: string, v: string)
    requires FirstOccurrence(a + key + b, key, |a|) && '$' !in v
    ensures Replace(a + key + b, key, v) == a + v + b
  {
    var t := a + key + b;
    assert t[..|a|] == a && t[|a| + |key|..] == b;
    ReplaceFirstOccurrence(t, key, v, |a|);
  }

  /** A string with no character that needs escaping is rendered between two quotes as it is. */
  lemma RenderPlainText(s: string)
    requires forall k :: 0 <= k < |s| ==> !SqlString.IsSpecial(s[k])
    ensures RenderValue(PText(s)) == "'" + s + "'"
  {
    SqlString.EscapePlainText(s);
  }

  /** Substitution takes the first parameter, then the rest. */
  lemma SubstituteFirst(query: string, key: string, value: ParamValue, rest: Params)
    ensures Substitute(query, [(key, value)] + rest) == Substitute(Replace(query, key, RenderValue(value)), rest)
  {
    assert ([(key, value)] + rest)[1..] == rest;
  }

  /** Escaping does not make substitution safe. A string value holding a later key carries that
      key inside its quotes, where the key now first occurs; the later string value is put there,
      quoted in turn, and its text `s` ends up between two empty literals, outside any quotes. */
  lemma ValueCarriesLaterKey(p: string, k1: string, rest: string, k2: string, s: string)
    requires |k1| > 0 && k1[0] !in p
    requires |k2| > 0 && k2[0] !in p && k2[0] != '\''
    requires '$' !in k2 && '$' !in s
    requires forall k :: 0 <= k < |k2| ==> !SqlString.IsSpecial(k2[k])
    requires forall k :: 0 <= k < |s| ==> !SqlString.IsSpecial(s[k])
    ensures Substitute(p + k1 + rest, [(k1, PText(k2)), (k2, PText(s))]) == p + "''" + s + "''" + rest
  {
    FirstValueQuotesKey(p, k1, rest, k2, PText(s));
    SecondValueFillsQuotes(p, k2, rest, s);
  }

  /** The first string value, `k2`, is put in place of `k1` between quotes. */
  lemma FirstValueQuotesKey(p: string, k1: string, rest: string, k2: string, later: ParamValue)
    requires |k1| > 0 && k1[0] !in p
    requires '$' !in k2
    requires forall k :: 0 <= k < |k2| ==> !SqlString.IsSpecial(k2[k])
    ensures Substitute(p + k1 + rest, [(k1, PText(k2)), (k2, later)])
         == Substitute((p + "'") + k2 + ("'" + rest), [(k2, later)])
  {
    RenderPlainText(k2);
    FirstAfterPrefix(p, k1, rest);
    ReplaceAfterPrefix(p, k1, rest, "'" + k2 + "'");
    assert [(k1, PText(k2)), (k2, later)] == [(k1, PText(k2))] + [(k2, later)];
    SubstituteFirst(p + k1 + rest, k1, PText(k2), [(k2, later)]);
    QuotedKeyRegroups(p, "'", k2, rest);
  }

  /** A key right after the quote that opens a literal is replaced by a quoted string value, which
      closes that literal and opens another one after the value. */
  lemma SecondValueFillsQuotes(p: string, k2: string, rest: string, s: string)
    requires |k2| > 0 && k2[0] !in p && k2[0] != '\''
    requires '$' !in s
    requires forall k :: 0 <= k < |s| ==> !SqlString.IsSpecial(s[k])
    ensures Substitute((p + "'") + k2 + ("'" + rest), [(k2, PText(s))]) == p + "''" + s + "''" + rest
  {
    RenderPlainText(s);
    FirstAfterPrefix(p + "'", k2, "'" + rest);
    ReplaceAfterPrefix(p + "'", k2, "'" + rest, "'" + s + "'");
    SubstituteFirst((p + "'") + k2 + ("'" + rest), k2, PText(s), []);
    QuotedValueRegroups(p, "'", s, rest);
    assert "'" + "'" == "''";
  }

  lemma QuotedKeyRegroups(p: string, q: string, k: string, rest: string)
    ensures p + (q + k + q) + rest == (p + q) + k + (q + rest)
  {
  }

  lemma QuotedValueRegroups(p: string, q: string, s: string, rest: string)
    ensures (p + q) + (q + s + q) + (q + rest) == p + (q + q) + s + (q + q) + rest
  {
  }

  /** The escaped value is a `replace` pattern: a value `` $` `` is expanded to the text before the
      key, so the template's own text, quotes included, is copied into the literal. */
  lemma ValueExpandsAsPattern(p: string, key: string, rest: string)
    requires FirstOccurrence(p + key + rest, key, |p|)
    ensures Substitute(p + key + rest, [(key, PText("$`"))]) == p + "'" + p + "'" + rest
  {
    RenderPlainText("$`");
    assert "'" + "$`" + "'" == "'$`'";
    assert [(key, PText("$`"))] + [] == [(key, PText("$`"))];
    SubstituteFirst(p + key + rest, key, PText("$`"), []);
    ReplaceBacktick(p, key, rest);
  }

  /** `replace` by `` '$`' `` puts the text before the key between quotes in place of the key. */
  lemma ReplaceBacktick(p: string, key: string, rest: string)
    requires FirstOccurrence(p + key + rest, key, |p|)
    ensures Replace(p + key + rest, key, "'$`'") == p + "'" + p + "'" + rest
  {
    var t := p + key + rest;
    assert t[..|p|] == p && t[|p| + |key|..] == rest;
    ReplaceFirstOccurrence(t, key, "'$`'", |p|);
    BacktickExpands(key, p, rest);
    QuotedKeyRegroups(p, "'", p, rest);
  }

  /** In a replacement `` '$`' `` the pattern `` $` `` stands for the text before the match. */
  lemma BacktickExpands(key: string, before: string, after: string)
    ensures Substitution("'$`'", key, before, after) == "'" + before + "'"
  {
    var v := "'$`'";
    assert v[1..] == "$`" + "'" && v[1..][2..] == "'";
    assert Substitution("'", key, before, after) == "'";
  }

  lemma ConcatAssociates(a: string, b: string, c: string, d: string)
    ensures a + b + c + d == a + (b + c + d)
  {
  }

  /** The template with the parameters substituted, element by element for a list. */
  function SubstituteWhere(query: Where, params: Params): (r: Where)
    ensures query.One? ==> r == One(Substitute(query.text, params))
    ensures query.Many? ==> (r.Many? && |r.texts| == |query.texts|
                             && forall k :: 0 <= k < |query.texts| ==> r.texts[k] == Substitute(query.texts[k], params))
  {
    match query
    case One(s) => One(Substitute(s, params))
    case Many(items) => Many(seq(|items|, k requires 0 <= k < |items| => Substitute(items[k], params)))
  }

  /**
   * `queryReplacer(query, queryParams)`. With no parameter record, `Object.keys` throws as soon as
   * one string is substituted; an empty list substitutes nothing and so does not throw.
   */
  function QueryReplacer(query: Where, params: Option<Params>): (r: Result<Where, Error>)
    ensures r.Err? <==> params.None? && (query.One? || query.texts != [])
    ensures r.Err? ==> r.error == TypeError(MissingParams)
    ensures params.Some? ==> r == Ok(SubstituteWhere(query, params.value))
    ensures r.Ok? ==> r.value.One? == query.One?
  {
    match params
    case Some(p) => Ok(SubstituteWhere(query, p))
    case None =>
      if query.Many? && query.texts == [] then Ok(Many([])) else Err(TypeError(MissingParams))
  }

  /** An empty parameter record returns the template unchanged, in either shape. */
  lemma EmptyParamsKeepTemplate(query: Where)
    ensures QueryReplacer(query, Some([])) == Ok(query)
  {
    match query
    case One(s) =>
    case Many(items) =>
      assert SubstituteWhere(query, []).texts == items;
  }

  /** Whether `query.where ?? query.params` is truthy: an empty `where` string is falsy,
      a list or a parameter record never is. An empty `where` string is not nullish either, so
      `??` stops there and the parameters are not looked at. */
  predicate SubstitutionRequested(q: PredictQuery)
    ensures q.where == Some(One("")) ==> !SubstitutionRequested(q)
    ensures SubstitutionRequested(q) ==> q.where.Some? || q.params.Some?
  {
    match q.where
    case Some(One(s)) => s != ""
    case Some(Many(_)) => true
    case None => q.params.Some?
  }

  /** `getPredictOptions(model, query)` */
  function GetPredictOptions(model: ModelDef, q: PredictQuery): (r: Result<PredictOptions, Error>)
    ensures r.Err? <==> SubstitutionRequested(q) && q.params.None?
                        && (model.predictOptions.where.One? || model.predictOptions.where.texts != [])
    ensures r.Ok? && q.join.Some? ==> r.value.join == q.join.value
    ensures r.Ok? && q.join.None? ==> r.value.join == model.predictOptions.join
    ensures r.Ok? && q.limit.Some? ==> r.value.limit == q.limit
    ensures r.Ok? && q.limit.None? ==> r.value.limit == model.predictOptions.limit
    ensures r.Ok? && !SubstitutionRequested(q) ==> r.value.where == model.predictOptions.where
    ensures r.Ok? && SubstitutionRequested(q) && q.params.Some?
      ==> r.value.where == SubstituteWhere(model.predictOptions.where, q.params.value)
  {
    var where :=
      if SubstitutionRequested(q) then QueryReplacer(model.predictOptions.where, q.params)
      else Ok(model.predictOptions.where);
    match where
    case Err(e) => Err(e)
    case Ok(w) => Ok(PredictOptions(q.join.GetOr(model.predictOptions.join), w, q.limit.OrElse(model.predictOptions.limit)))
  }

  /** The caller's own `where` never reaches the payload: two requests that differ only in a
      truthy `where` get the same options, built from the definition's template. */
  lemma CallerWhereIgnored(model: ModelDef, q: PredictQuery, w1: Where, w2: Where)
    requires w1 != One("") && w2 != One("")
    ensures GetPredictOptions(model, q.(where := Some(w1))) == GetPredictOptions(model, q.(where := Some(w2)))
  {
    assert SubstitutionRequested(q.(where := Some(w1))) && SubstitutionRequested(q.(where := Some(w2)));
  }

  /** `getAdjustOptions(model, adjust)`: each field of the request replaces the definition's whole
      value; the definition's adjust options are read only for a field the request leaves out. */
  function GetAdjustOptions(model: ModelDef, adjust: AdjustRequest): (r: Result<AdjustPayload, Error>)
    ensures r.Err? <==> model.adjustOptions.None? && (adjust.select.None? || adjust.using.None?)
    ensures r.Err? ==> r.error == TypeError(MissingAdjustOptions)
    ensures r.Ok? && adjust.select.Some? ==> r.value.select == adjust.select.value
    ensures r.Ok? && adjust.select.None? ==> r.value.select == model.adjustOptions.value.select
    ensures r.Ok? && adjust.using.Some? ==> r.value.using == adjust.using
    ensures r.Ok? && adjust.using.None? ==> r.value.using == model.adjustOptions.value.using
  {
    if adjust.select.None? && model.adjustOptions.None? then Err(TypeError(MissingAdjustOptions))
    else
      var select := if adjust.select.Some? then adjust.select.value else model.adjustOptions.value.select;
      if adjust.using.None? && model.adjustOptions.None? then Err(TypeError(MissingAdjustOptions))
      else Ok(AdjustPayload(select, if adjust.using.Some? then adjust.using else model.adjustOptions.value.using))
  }

  /** A request that sets both fields is sent as it is, whatever the definition holds: `using`
      is replaced whole, never merged key by key. */
  lemma AdjustRequestWins(model: ModelDef, select: string, using: Json)
    ensures GetAdjustOptions(model, AdjustRequest(Some(select), Some(using))) == Ok(AdjustPayload(select, Some(using)))
  {
  }
}
