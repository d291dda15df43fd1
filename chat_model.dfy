/** The chat-completions profile (src/openai_v1_chat.rs): the partial record one profile
    file states, the resolved record sent to the endpoint, the built-in default, and the
    field-by-field merge that the resolver folds over an inheritance sequence. */
module ChatModel {
  import opened Wrappers
  import opened Shared

  const ChatCompletionsUrl := "https://api.openai.com/v1/chat/completions"

  /** The only response format the source produces. */
  datatype ResponseFormat = JsonObject

  /** `OpenAIChatCompletion`: a fully resolved chat profile. */
  datatype ChatCompletion = ChatCompletion(
    url: string,
    model: string,
    maxTokens: u32,
    messages: seq<Message>,
    responseFormat: Option<ResponseFormat>)

  /** `Intermediary`: what one profile file states; every field is optional. */
  datatype Intermediary = Intermediary(
    url: Option<string>,
    model: Option<string>,
    inherits: Option<seq<string>>,
    maxTokens: Option<u32>,
    messages: Option<seq<Message>>,
    json: Option<bool>)

  /** Every field `d` sets has that value in `c`. */
  predicate Overrides(d: Intermediary, c: ChatCompletion) {
    && (d.url.Some? ==> c.url == d.url.value)
    && (d.model.Some? ==> c.model == d.model.value)
    && (d.maxTokens.Some? ==> c.maxTokens == d.maxTokens.value)
    && (d.json.Some? ==> c.responseFormat == Some(JsonObject))
  }

  /** Every field `d` leaves unset has in `c` the value it had in `acc`. */
  predicate Keeps(d: Intermediary, acc: ChatCompletion, c: ChatCompletion) {
    && (d.url.None? ==> c.url == acc.url)
    && (d.model.None? ==> c.model == acc.model)
    && (d.maxTokens.None? ==> c.maxTokens == acc.maxTokens)
    && (d.json.None? ==> c.responseFormat == acc.responseFormat)
  }

  /** `default()`: the base of every fold and the profile named "default": the
      chat-completions endpoint, "gpt-4o", 550 tokens, no messages, no response format. */
  function Default(): (r: ChatCompletion)
    ensures r.url == ChatCompletionsUrl && r.model == "gpt-4o" && r.maxTokens == 550
    ensures r.messages == [] && r.responseFormat.None?
  {
    ChatCompletion(ChatCompletionsUrl, "gpt-4o", 550, [], None)
  }

  /** One pass of the loop body in `profile`: scalars are overwritten when present,
      messages are appended, and any `json` entry (true or false) turns the
      JSON response format on. */
  function Merge(acc: ChatCompletion, d: Intermediary): (r: ChatCompletion)
    ensures Overrides(d, r) && Keeps(d, acc, r)
    ensures r.messages == acc.messages + d.messages.GetOr([])
    ensures acc.messages <= r.messages
    ensures acc.responseFormat.Some? ==> r.responseFormat.Some?
    ensures d.(inherits := None) == Intermediary(None, None, None, None, None, None) ==> r == acc
  {
    ChatCompletion(
      if d.url.Some? then d.url.value else acc.url,
      if d.model.Some? then d.model.value else acc.model,
      if d.maxTokens.Some? then d.maxTokens.value else acc.maxTokens,
      if d.messages.Some? then acc.messages + d.messages.value else acc.messages,
      if d.json.Some? then Some(JsonObject) else acc.responseFormat)
  }

  /** The whole loop of `profile`: merge the definitions into `acc`, first to last. */
  function Fold(acc: ChatCompletion, ds: seq<Intermediary>): (r: ChatCompletion)
    ensures ds == [] ==> r == acc
    ensures acc.messages <= r.messages
    ensures acc.responseFormat.Some? ==> r.responseFormat.Some?
    decreases |ds|
  {
    if ds == [] then acc else Fold(Merge(acc, ds[0]), ds[1..])
  }

  // ---------------------------------------------------------------------------
  // An independent, per-field description of what the fold computes.

  function UrlOf(d: Intermediary): Option<string> { d.url }
  function ModelOf(d: Intermediary): Option<string> { d.model }
  function MaxTokensOf(d: Intermediary): Option<u32> { d.maxTokens }

  /** The value of `field` in the last definition that sets it, or `fallback`. */
  function LastSet<T>(ds: seq<Intermediary>, field: Intermediary -> Option<T>, fallback: T): T
    decreases |ds|
  {
    if ds == [] then fallback
    else if field(ds[|ds| - 1]).Some? then field(ds[|ds| - 1]).value
    else LastSet(ds[..|ds| - 1], field, fallback)
  }

  /** Every definition's messages, in sequence order. */
  function Contributed(ds: seq<Intermediary>): seq<Message>
    decreases |ds|
  {
    if ds == [] then []
    else Contributed(ds[..|ds| - 1]) + ds[|ds| - 1].messages.GetOr([])
  }

  /** Some definition mentions `json` at all. */
  predicate AnyJson(ds: seq<Intermediary>) {
    exists i :: 0 <= i < |ds| && ds[i].json.Some?
  }

  /** The record the fold should produce from `acc` and `ds`, field by field. */
  function Expected(acc: ChatCompletion, ds: seq<Intermediary>): ChatCompletion {
    ChatCompletion(
      LastSet(ds, UrlOf, acc.url),
      LastSet(ds, ModelOf, acc.model),
      LastSet(ds, MaxTokensOf, acc.maxTokens),
      acc.messages + Contributed(ds),
      if AnyJson(ds) then Some(JsonObject) else acc.responseFormat)
  }

  // ---------------------------------------------------------------------------
  // Lemmas

  /** The fold is compositional: folding `xs + ys` continues the fold of `xs` over `ys`. */
  lemma {:induction false} FoldAppend(acc: ChatCompletion, xs: seq<Intermediary>, ys: seq<Intermediary>)
    ensures Fold(acc, xs + ys) == Fold(Fold(acc, xs), ys)
    decreases |xs|
  {
    if xs == [] {
      assert xs + ys == ys;
    } else {
      assert (xs + ys)[1..] == xs[1..] + ys;
      FoldAppend(Merge(acc, xs[0]), xs[1..], ys);
    }
  }

  /** The fold agrees with the per-field description: last writer wins for the scalars,
      messages accumulate in order, and the JSON format is on once anything mentions it. */
  lemma {:induction false} FoldIsExpected(acc: ChatCompletion, ds: seq<Intermediary>)
    ensures Fold(acc, ds) == Expected(acc, ds)
    decreases |ds|
  {
    if ds != [] {
      var front, d := ds[..|ds| - 1], ds[|ds| - 1];
      assert ds == front + [d];
      FoldAppend(acc, front, [d]);
      FoldIsExpected(acc, front);
      ExpectedSnoc(acc, front, d);
    }
  }

  /** Extending the sequence by one definition extends the description by one merge. */
  lemma ExpectedSnoc(acc: ChatCompletion, front: seq<Intermediary>, d: Intermediary)
    ensures Expected(acc, front + [d]) == Merge(Expected(acc, front), d)
  {
    var ds := front + [d];
    assert ds[..|ds| - 1] == front;
    assert LastSet(ds, UrlOf, acc.url) == Merge(Expected(acc, front), d).url;
    assert LastSet(ds, ModelOf, acc.model) == Merge(Expected(acc, front), d).model;
    assert LastSet(ds, MaxTokensOf, acc.maxTokens) == Merge(Expected(acc, front), d).maxTokens;
    assert Contributed(ds) == Contributed(front) + d.messages.GetOr([]);
    AnyJsonSnoc(front, d);
  }

  lemma AnyJsonSnoc(front: seq<Intermediary>, d: Intermediary)
    ensures AnyJson(front + [d]) <==> AnyJson(front) || d.json.Some?
  {
    var ds := front + [d];
    if AnyJson(front) {
      var i :| 0 <= i < |front| && front[i].json.Some?;
      assert ds[i] == front[i];
    }
    if d.json.Some? {
      assert ds[|front|] == d;
    }
    if AnyJson(ds) && !d.json.Some? {
      var i :| 0 <= i < |ds| && ds[i].json.Some?;
      assert front[i] == ds[i];
    }
  }

  /** `LastSet` picks the value of the last definition that sets the field, and the
      fallback exactly when none does. */
  lemma {:induction false} LastSetIsLastWriter<T>(ds: seq<Intermediary>, field: Intermediary -> Option<T>, fallback: T, i: int)
    requires 0 <= i < |ds| && field(ds[i]).Some?
    requires forall j :: i < j < |ds| ==> field(ds[j]).None?
    ensures LastSet(ds, field, fallback) == field(ds[i]).value
    decreases |ds|
  {
    if i < |ds| - 1 {
      var front := ds[..|ds| - 1];
      assert forall j :: i < j < |front| ==> front[j] == ds[j];
      LastSetIsLastWriter(front, field, fallback, i);
    }
  }

  /** With no definition setting the field, `LastSet` is the fallback. */
  lemma {:induction false} LastSetUnset<T>(ds: seq<Intermediary>, field: Intermediary -> Option<T>, fallback: T)
    requires forall j :: 0 <= j < |ds| ==> field(ds[j]).None?
    ensures LastSet(ds, field, fallback) == fallback
    decreases |ds|
  {
    if ds != [] {
      var front := ds[..|ds| - 1];
      assert forall j :: 0 <= j < |front| ==> front[j] == ds[j];
      LastSetUnset(front, field, fallback);
    }
  }

  /** Once some definition sets the field, what came before it no longer matters. */
  lemma {:induction false} LastSetIgnoresFallback<T>(ds: seq<Intermediary>, field: Intermediary -> Option<T>, a: T, b: T)
    requires exists i :: 0 <= i < |ds| && field(ds[i]).Some?
    ensures LastSet(ds, field, a) == LastSet(ds, field, b)
    decreases |ds|
  {
    var front := ds[..|ds| - 1];
    if field(ds[|ds| - 1]).None? {
      var i :| 0 <= i < |ds| && field(ds[i]).Some?;
      assert front[i] == ds[i];
      LastSetIgnoresFallback(front, field, a, b);
    }
  }

  /** The JSON response format is sticky: once on, no later definition turns it off. */
  lemma JsonSticky(acc: ChatCompletion, ds: seq<Intermediary>)
    requires acc.responseFormat == Some(JsonObject)
    ensures Fold(acc, ds).responseFormat == Some(JsonObject)
  {
    FoldIsExpected(acc, ds);
  }

  /** A definition with `json: false` turns the JSON format on just as `json: true` does. */
  lemma JsonFalseStillSwitchesOn(acc: ChatCompletion, ds: seq<Intermediary>, i: int)
    requires 0 <= i < |ds| && ds[i].json == Some(false)
    ensures Fold(acc, ds).responseFormat == Some(JsonObject)
  {
    FoldIsExpected(acc, ds);
  }

  /** Later definitions take precedence: when `ys` sets a scalar, the result of folding
      `xs + ys` carries `ys`'s value whatever `xs` said; `ys`'s messages come after
      those accumulated from `xs`. */
  lemma LaterOverridesEarlier(acc: ChatCompletion, xs: seq<Intermediary>, ys: seq<Intermediary>)
    ensures (exists i :: 0 <= i < |ys| && ys[i].url.Some?) ==>
              Fold(acc, xs + ys).url == Fold(acc, ys).url
    ensures (exists i :: 0 <= i < |ys| && ys[i].model.Some?) ==>
              Fold(acc, xs + ys).model == Fold(acc, ys).model
    ensures (exists i :: 0 <= i < |ys| && ys[i].maxTokens.Some?) ==>
              Fold(acc, xs + ys).maxTokens == Fold(acc, ys).maxTokens
    ensures Fold(acc, xs + ys).messages == Fold(acc, xs).messages + Contributed(ys)
  {
    var mid := Fold(acc, xs);
    FoldAppend(acc, xs, ys);
    FoldIsExpected(mid, ys);
    FoldIsExpected(acc, ys);
    if exists i :: 0 <= i < |ys| && ys[i].url.Some? {
      var i :| 0 <= i < |ys| && ys[i].url.Some?;
      assert UrlOf(ys[i]).Some?;
      LastSetIgnoresFallback(ys, UrlOf, mid.url, acc.url);
    }
    if exists i :: 0 <= i < |ys| && ys[i].model.Some? {
      var i :| 0 <= i < |ys| && ys[i].model.Some?;
      assert ModelOf(ys[i]).Some?;
      LastSetIgnoresFallback(ys, ModelOf, mid.model, acc.model);
    }
    if exists i :: 0 <= i < |ys| && ys[i].maxTokens.Some? {
      var i :| 0 <= i < |ys| && ys[i].maxTokens.Some?;
      assert MaxTokensOf(ys[i]).Some?;
      LastSetIgnoresFallback(ys, MaxTokensOf, mid.maxTokens, acc.maxTokens);
    }
  }
}
