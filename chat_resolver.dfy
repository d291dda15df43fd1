/** The chat profile resolver (src/openai_v1_chat.rs, `intermediate` and `profile`):
    flatten a profile's inheritance graph depth-first into one sequence of definitions,
    ancestors first and the profile itself last, then fold that sequence over the
    built-in default.

    One addition to the source: the names currently being expanded are carried down
    the recursion, and meeting one of them again fails with `CyclicInheritance`. The
    source has no such check and recurses without end on a cycle; on a store without
    cycles the check never fires (`NoCycleErrorWhenRanked`). */
module ChatResolver {
  import opened Wrappers
  import opened ChatModel
  import opened Io

  /** Join two partial results: the first error wins, otherwise concatenate. */
  function Join(a: Result<seq<Intermediary>>, b: Result<seq<Intermediary>>): Result<seq<Intermediary>> {
    if a.Err? then a else if b.Err? then b else Ok(a.value + b.value)
  }

  /** Expand the profile `name`: read its file (the `read_profile_file` call), refuse it
      if it is already being expanded, parse it, and flatten it. */
  function Expand(store: Store, name: string, expanding: set<string>): (r: Result<seq<Intermediary>>)
    ensures name !in store ==> r == Err(ProfileNotFound(name))
    ensures name in store && name in expanding ==> r == Err(CyclicInheritance(name))
    ensures r.Ok? ==> && name in store && name !in expanding && store[name].chat.Some?
                      && |r.value| > 0 && r.value[|r.value| - 1] == store[name].chat.value
    decreases store.Keys - expanding, 0, 0
  {
    var doc :- ReadProfileFile(store, name);
    if name in expanding then Err(CyclicInheritance(name))
    else if doc.chat.None? then Err(InvalidProfileFormat(name))
    else FlattenDef(store, doc.chat.value, expanding + {name})
  }

  /** `intermediate` on a parsed definition: without `inherits` it is the definition
      alone; with them, every ancestor's expansion in declared order, then the
      definition itself. */
  function FlattenDef(store: Store, d: Intermediary, expanding: set<string>): (r: Result<seq<Intermediary>>)
    ensures d.inherits.None? ==> r == Ok([d])
    ensures r.Ok? ==> |r.value| > 0 && r.value[|r.value| - 1] == d
    decreases store.Keys - expanding, 2, 0
  {
    match d.inherits
    case None => Ok([d])
    case Some(parents) =>
      var ancestors :- FlattenAll(store, parents, expanding);
      Ok(ancestors + [d])
  }

  /** The expansions of `names`, concatenated in order; the first failure aborts. */
  function FlattenAll(store: Store, names: seq<string>, expanding: set<string>): (r: Result<seq<Intermediary>>)
    ensures names == [] ==> r == Ok([])
    ensures r.Ok? ==> |r.value| >= |names|
    decreases store.Keys - expanding, 1, |names|
  {
    if names == [] then Ok([])
    else Join(FlattenAll(store, names[..|names| - 1], expanding), Expand(store, names[|names| - 1], expanding))
  }

  /** `profile` as a function: resolve the stored profile `name`. */
  function Resolve(store: Store, name: string): (r: Result<ChatCompletion>)
    ensures name !in store ==> r == Err(ProfileNotFound(name))
    ensures name in store && store[name].chat.None? ==> r == Err(InvalidProfileFormat(name))
    ensures r.Ok? ==> name in store && store[name].chat.Some? && Overrides(store[name].chat.value, r.value)
  {
    var ds :- Expand(store, name, {});
    var front := ds[..|ds| - 1];
    assert ds == front + [ds[|ds| - 1]];
    FoldAppend(Default(), front, [ds[|ds| - 1]]);
    Ok(Fold(Default(), ds))
  }

  /** Resolving starts by flattening the stored definition with only its own name
      being expanded. */
  lemma ExpandRoot(store: Store, name: string)
    requires name in store && store[name].chat.Some?
    ensures Expand(store, name, {}) == FlattenDef(store, store[name].chat.value, {name})
  {
    assert {} + {name} == {name};
  }

  // ---------------------------------------------------------------------------
  // The source's imperative form.

  /** `intermediate`, building the sequence with a loop over the `inherits` entries. */
  method Intermediate(store: Store, d: Intermediary, expanding: set<string>) returns (r: Result<seq<Intermediary>>)
    ensures r == FlattenDef(store, d, expanding)
    decreases store.Keys - expanding
  {
    if d.inherits.None? {
      return Ok([d]);
    }
    var parents := d.inherits.value;
    var ret: seq<Intermediary> := [];
    for i := 0 to |parents|
      invariant FlattenAll(store, parents[..i], expanding) == Ok(ret)
    {
      var child := parents[i];
      var sub: Result<seq<Intermediary>>;
      var file := ReadProfileFile(store, child);
      if file.Err? {
        sub := Err(file.error);
      } else if child in expanding {
        sub := Err(CyclicInheritance(child));
      } else if file.value.chat.None? {
        sub := Err(InvalidProfileFormat(child));
      } else {
        sub := Intermediate(store, file.value.chat.value, expanding + {child});
      }
      assert sub == Expand(store, child, expanding);
      assert parents[..i + 1][..i] == parents[..i];
      if sub.Err? {
        FlattenAllAppend(store, parents[..i + 1], parents[i + 1..], expanding);
        assert parents[..i + 1] + parents[i + 1..] == parents;
        return Err(sub.error);
      }
      ret := ret + sub.value;
    }
    assert parents[..|parents|] == parents;
    r := Ok(ret + [d]);
  }

  /** `profile`: flatten, then fold with one mutable local per field. */
  method Profile(store: Store, name: string) returns (r: Result<ChatCompletion>)
    ensures r == Resolve(store, name)
  {
    var file := ReadProfileFile(store, name);
    if file.Err? {
      return Err(file.error);
    }
    if file.value.chat.None? {
      return Err(InvalidProfileFormat(name));
    }
    ExpandRoot(store, name);
    var flattened := Intermediate(store, file.value.chat.value, {name});
    if flattened.Err? {
      return Err(flattened.error);
    }
    var ds := flattened.value;
    var def := Default();
    var url, maxTokens, messages, model, responseFormat :=
      def.url, def.maxTokens, def.messages, def.model, def.responseFormat;
    for i := 0 to |ds|
      invariant ChatCompletion(url, model, maxTokens, messages, responseFormat) == Fold(def, ds[..i])
    {
      var d := ds[i];
      ghost var before := ChatCompletion(url, model, maxTokens, messages, responseFormat);
      if d.url.Some? {
        url := d.url.value;
      }
      if d.maxTokens.Some? {
        maxTokens := d.maxTokens.value;
      }
      if d.messages.Some? {
        messages := messages + d.messages.value;
      }
      if d.model.Some? {
        model := d.model.value;
      }
      if d.json.Some? {
        responseFormat := Some(JsonObject);
      }
      assert ChatCompletion(url, model, maxTokens, messages, responseFormat) == Merge(before, d);
      FoldSnoc(def, ds, i);
    }
    assert ds[..|ds|] == ds;
    r := Ok(ChatCompletion(url, model, maxTokens, messages, responseFormat));
  }

  /** One more definition folded is one more merge. */
  lemma FoldSnoc(acc: ChatCompletion, ds: seq<Intermediary>, i: int)
    requires 0 <= i < |ds|
    ensures Fold(acc, ds[..i + 1]) == Merge(Fold(acc, ds[..i]), ds[i])
  {
    FoldAppend(acc, ds[..i], [ds[i]]);
    assert ds[..i + 1] == ds[..i] + [ds[i]];
  }

  // ---------------------------------------------------------------------------
  // Flattening

  /** Flattening distributes over concatenation of the `inherits` list: the expansions
      of `xs + ys` are those of `xs` followed by those of `ys`. */
  lemma {:induction false} FlattenAllAppend(store: Store, xs: seq<string>, ys: seq<string>, expanding: set<string>)
    ensures FlattenAll(store, xs + ys, expanding) == Join(FlattenAll(store, xs, expanding), FlattenAll(store, ys, expanding))
    decreases |ys|
  {
    if ys == [] {
      assert xs + ys == xs;
      assert FlattenAll(store, ys, expanding) == Ok([]);
      var a := FlattenAll(store, xs, expanding);
      if a.Ok? { assert a.value + [] == a.value; }
    } else {
      var front, last := ys[..|ys| - 1], ys[|ys| - 1];
      assert (xs + ys)[..|xs + ys| - 1] == xs + front;
      assert (xs + ys)[|xs + ys| - 1] == last;
      FlattenAllAppend(store, xs, front, expanding);
      var a, b, c := FlattenAll(store, xs, expanding), FlattenAll(store, front, expanding), Expand(store, last, expanding);
      if a.Ok? && b.Ok? && c.Ok? {
        assert a.value + b.value + c.value == a.value + (b.value + c.value);
      }
    }
  }

  /** A single `inherits` entry contributes exactly its own expansion. */
  lemma FlattenAllSingle(store: Store, name: string, expanding: set<string>)
    ensures FlattenAll(store, [name], expanding) == Expand(store, name, expanding)
  {
    assert [name][..0] == [];
    var c := Expand(store, name, expanding);
    if c.Ok? { assert [] + c.value == c.value; }
  }

  /** Flattening the `inherits` list succeeds exactly when every entry expands. */
  lemma {:induction false} FlattenAllOk(store: Store, names: seq<string>, expanding: set<string>)
    ensures FlattenAll(store, names, expanding).Ok? <==>
            forall i :: 0 <= i < |names| ==> Expand(store, names[i], expanding).Ok?
    decreases |names|
  {
    if names != [] {
      var front := names[..|names| - 1];
      FlattenAllOk(store, front, expanding);
      assert forall i :: 0 <= i < |front| ==> front[i] == names[i];
    }
  }

  /** With an `inherits` list, the result is the ancestors' expansions, in order, with
      the definition itself appended last. */
  lemma FlattenWithParents(store: Store, d: Intermediary, expanding: set<string>)
    requires d.inherits.Some?
    ensures FlattenDef(store, d, expanding).Ok? <==> FlattenAll(store, d.inherits.value, expanding).Ok?
    ensures FlattenDef(store, d, expanding).Ok? ==>
            FlattenDef(store, d, expanding).value == FlattenAll(store, d.inherits.value, expanding).value + [d]
  {
  }

  /** An empty `inherits` list behaves like none at all. */
  lemma FlattenEmptyParents(store: Store, d: Intermediary, expanding: set<string>)
    requires d.inherits == Some([])
    ensures FlattenDef(store, d, expanding) == Ok([d])
  {
    assert [] + [d] == [d];
  }

  /** An `inherits` entry naming a missing profile makes the flattening fail; it is
      never skipped. */
  lemma MissingParentFails(store: Store, d: Intermediary, expanding: set<string>, missing: string)
    requires d.inherits.Some? && missing in d.inherits.value && missing !in store
    ensures FlattenDef(store, d, expanding).Err?
  {
    var parents := d.inherits.value;
    var i :| 0 <= i < |parents| && parents[i] == missing;
    assert Expand(store, parents[i], expanding).Err?;
    FlattenAllOk(store, parents, expanding);
  }

  /** ... and so makes resolving the profile fail. */
  lemma ResolveFailsOnMissingParent(store: Store, name: string, missing: string)
    requires name in store && store[name].chat.Some?
    requires store[name].chat.value.inherits.Some? && missing in store[name].chat.value.inherits.value
    requires missing !in store
    ensures Resolve(store, name).Err?
  {
    ExpandRoot(store, name);
    MissingParentFails(store, store[name].chat.value, {name}, missing);
  }

  /** Every definition in a flattened sequence was read from the store, except the
      last, which is the definition being flattened. */
  lemma {:induction false} ExpandFromStore(store: Store, name: string, expanding: set<string>)
    ensures Expand(store, name, expanding).Ok? ==>
              forall x :: x in Expand(store, name, expanding).value ==> InStore(store, x)
    decreases store.Keys - expanding, 0, 0
  {
    if name in store && name !in expanding && store[name].chat.Some? {
      FlattenDefFromStore(store, store[name].chat.value, expanding + {name});
    }
  }

  lemma {:induction false} FlattenDefFromStore(store: Store, d: Intermediary, expanding: set<string>)
    ensures FlattenDef(store, d, expanding).Ok? ==>
              forall x :: x in FlattenDef(store, d, expanding).value ==> x == d || InStore(store, x)
    decreases store.Keys - expanding, 2, 0
  {
    if d.inherits.Some? {
      FlattenAllFromStore(store, d.inherits.value, expanding);
    }
  }

  lemma {:induction false} FlattenAllFromStore(store: Store, names: seq<string>, expanding: set<string>)
    ensures FlattenAll(store, names, expanding).Ok? ==>
              forall x :: x in FlattenAll(store, names, expanding).value ==> InStore(store, x)
    decreases store.Keys - expanding, 1, |names|
  {
    if names != [] {
      FlattenAllFromStore(store, names[..|names| - 1], expanding);
      ExpandFromStore(store, names[|names| - 1], expanding);
    }
  }

  /** `d` is the chat reading of some stored profile. */
  ghost predicate InStore(store: Store, d: Intermediary) {
    exists n :: n in store && store[n].chat == Some(d)
  }

  // ---------------------------------------------------------------------------
  // Cycles (the added check)

  /** A profile that lists itself among its ancestors fails to resolve. */
  lemma SelfInheritanceFails(store: Store, name: string)
    requires name in store && store[name].chat.Some?
    requires store[name].chat.value.inherits.Some? && name in store[name].chat.value.inherits.value
    ensures Resolve(store, name).Err?
  {
    ExpandRoot(store, name);
    var d := store[name].chat.value;
    var parents := d.inherits.value;
    var i :| 0 <= i < |parents| && parents[i] == name;
    assert Expand(store, parents[i], {name}).Err?;
    FlattenAllOk(store, parents, {name});
  }

  /** Two profiles that inherit from each other fail to resolve. */
  lemma MutualInheritanceFails(store: Store, a: string, b: string)
    requires a in store && store[a].chat.Some? && store[a].chat.value.inherits.Some?
    requires b in store && store[b].chat.Some? && store[b].chat.value.inherits.Some?
    requires b in store[a].chat.value.inherits.value && a in store[b].chat.value.inherits.value
    ensures Resolve(store, a).Err?
  {
    if a == b {
      SelfInheritanceFails(store, a);
    } else {
      var pa, pb := store[a].chat.value.inherits.value, store[b].chat.value.inherits.value;
      var j :| 0 <= j < |pb| && pb[j] == a;
      assert Expand(store, pb[j], {a, b}).Err?;
      FlattenAllOk(store, pb, {a, b});
      assert {a} + {b} == {a, b};
      assert Expand(store, b, {a}).Err?;
      var i :| 0 <= i < |pa| && pa[i] == b;
      FlattenAllOk(store, pa, {a});
      ExpandRoot(store, a);
    }
  }

  /** The first `inherits` entry that fails to expand decides the error: the entries
      before it are expanded, the ones after it are never looked at. */
  lemma FlattenAllFirstError(store: Store, names: seq<string>, expanding: set<string>, k: int)
    requires 0 <= k < |names| && Expand(store, names[k], expanding).Err?
    requires forall j :: 0 <= j < k ==> Expand(store, names[j], expanding).Ok?
    ensures FlattenAll(store, names, expanding) == Err(Expand(store, names[k], expanding).error)
  {
    var upto, rest := names[..k + 1], names[k + 1..];
    assert names == upto + rest;
    FlattenUpToFirstError(store, names, expanding, k);
    FlattenAllAppend(store, upto, rest, expanding);
  }

  /** The entries up to and including the first failing one fail with its error. */
  lemma FlattenUpToFirstError(store: Store, names: seq<string>, expanding: set<string>, k: int)
    requires 0 <= k < |names| && Expand(store, names[k], expanding).Err?
    requires forall j :: 0 <= j < k ==> Expand(store, names[j], expanding).Ok?
    ensures FlattenAll(store, names[..k + 1], expanding) == Err(Expand(store, names[k], expanding).error)
  {
    var before, upto := names[..k], names[..k + 1];
    assert forall j :: 0 <= j < |before| ==> before[j] == names[j];
    FlattenAllOk(store, before, expanding);
    assert upto[..|upto| - 1] == before && upto[|upto| - 1] == names[k];
  }

  /** A profile that lists itself in `inherits` fails with `CyclicInheritance` naming
      itself, provided the entries listed before it expand. */
  lemma SelfInheritanceIsCyclic(store: Store, name: string, k: int)
    requires name in store && store[name].chat.Some? && store[name].chat.value.inherits.Some?
    requires var parents := store[name].chat.value.inherits.value;
      && 0 <= k < |parents| && parents[k] == name
      && forall j :: 0 <= j < k ==> Expand(store, parents[j], {name}).Ok?
    ensures Resolve(store, name) == Err(CyclicInheritance(name))
  {
    ExpandRoot(store, name);
    FlattenAllFirstError(store, store[name].chat.value.inherits.value, {name}, k);
  }

  /** When `a` inherits `b` and `b` inherits `a`, resolving `a` fails with
      `CyclicInheritance` naming `a`, provided the entries listed before each of them
      expand. */
  lemma MutualInheritanceIsCyclic(store: Store, a: string, b: string, i: int, j: int)
    requires a != b
    requires a in store && store[a].chat.Some? && store[a].chat.value.inherits.Some?
    requires b in store && store[b].chat.Some? && store[b].chat.value.inherits.Some?
    requires var pa := store[a].chat.value.inherits.value;
      && 0 <= i < |pa| && pa[i] == b
      && forall m :: 0 <= m < i ==> Expand(store, pa[m], {a}).Ok?
    requires var pb := store[b].chat.value.inherits.value;
      && 0 <= j < |pb| && pb[j] == a
      && forall m :: 0 <= m < j ==> Expand(store, pb[m], {a, b}).Ok?
    ensures Resolve(store, a) == Err(CyclicInheritance(a))
  {
    var pa, pb := store[a].chat.value.inherits.value, store[b].chat.value.inherits.value;
    FlattenAllFirstError(store, pb, {a, b}, j);
    assert {a} + {b} == {a, b};
    assert Expand(store, b, {a}) == Err(CyclicInheritance(a));
    FlattenAllFirstError(store, pa, {a}, i);
    ExpandRoot(store, a);
  }

  /** `rank` orders the store so that every stored parent ranks below its child: the
      inheritance graph has no cycle. */
  ghost predicate Ranked(store: Store, rank: map<string, nat>) {
    && store.Keys <= rank.Keys
    && forall n, p :: n in store && store[n].chat.Some? && p in Parents(store[n].chat.value) && p in store ==>
         rank[p] < rank[n]
  }

  function Parents(d: Intermediary): seq<string> {
    d.inherits.GetOr([])
  }

  /** `name`, if stored, ranks below every name being expanded. */
  ghost predicate Below(store: Store, rank: map<string, nat>, name: string, expanding: set<string>)
    requires store.Keys <= rank.Keys
  {
    name in store ==> forall e :: e in expanding ==> e in rank && rank[name] < rank[e]
  }

  /** On a store without cycles the added check never fires: resolution fails only
      where the source itself fails. */
  lemma NoCycleErrorWhenRanked(store: Store, rank: map<string, nat>, name: string)
    requires Ranked(store, rank)
    ensures !(Resolve(store, name).Err? && Resolve(store, name).error.CyclicInheritance?)
  {
    ExpandRanked(store, rank, name, {});
  }

  lemma {:induction false} ExpandRanked(store: Store, rank: map<string, nat>, name: string, expanding: set<string>)
    requires Ranked(store, rank) && Below(store, rank, name, expanding)
    ensures !(Expand(store, name, expanding).Err? && Expand(store, name, expanding).error.CyclicInheritance?)
    decreases store.Keys - expanding, 0, 0
  {
    if name in store && store[name].chat.Some? {
      var d := store[name].chat.value;
      assert name !in expanding;
      forall p | p in Parents(d) ensures Below(store, rank, p, expanding + {name}) {
        if p in store {
          assert rank[p] < rank[name];
        }
      }
      FlattenDefRanked(store, rank, d, expanding + {name});
    }
  }

  lemma {:induction false} FlattenDefRanked(store: Store, rank: map<string, nat>, d: Intermediary, expanding: set<string>)
    requires Ranked(store, rank)
    requires forall p :: p in Parents(d) ==> Below(store, rank, p, expanding)
    ensures !(FlattenDef(store, d, expanding).Err? && FlattenDef(store, d, expanding).error.CyclicInheritance?)
    decreases store.Keys - expanding, 2, 0
  {
    if d.inherits.Some? {
      FlattenAllRanked(store, rank, d.inherits.value, expanding);
    }
  }

  lemma {:induction false} FlattenAllRanked(store: Store, rank: map<string, nat>, names: seq<string>, expanding: set<string>)
    requires Ranked(store, rank)
    requires forall p :: p in names ==> Below(store, rank, p, expanding)
    ensures !(FlattenAll(store, names, expanding).Err? && FlattenAll(store, names, expanding).error.CyclicInheritance?)
    decreases store.Keys - expanding, 1, |names|
  {
    if names != [] {
      var front, last := names[..|names| - 1], names[|names| - 1];
      assert forall p :: p in front ==> p in names;
      FlattenAllRanked(store, rank, front, expanding);
      ExpandRanked(store, rank, last, expanding);
    }
  }

  // ---------------------------------------------------------------------------
  // Resolution

  /** A resolved profile, field by field: each of url, model and max_tokens comes from
      the last definition in the flattened sequence that sets it, or from the default;
      messages are all the definitions' messages in order; the JSON format is on exactly
      when some definition has a `json` entry. */
  lemma ResolveFields(store: Store, name: string)
    requires Expand(store, name, {}).Ok?
    ensures var ds := Expand(store, name, {}).value;
      Resolve(store, name) == Ok(ChatCompletion(
        LastSet(ds, UrlOf, ChatCompletionsUrl),
        LastSet(ds, ModelOf, "gpt-4o"),
        LastSet(ds, MaxTokensOf, 550),
        Contributed(ds),
        if AnyJson(ds) then Some(JsonObject) else None))
  {
    var ds := Expand(store, name, {}).value;
    FoldIsExpected(Default(), ds);
    assert [] + Contributed(ds) == Contributed(ds);
  }

  /** A profile without `inherits` and without fields resolves to the built-in default:
      the chat-completions URL, "gpt-4o", 550 tokens, no messages, no response format. */
  lemma EmptyProfileIsDefault(store: Store, name: string)
    requires name in store && store[name].chat == Some(Intermediary(None, None, None, None, None, None))
    ensures Resolve(store, name) == Ok(ChatCompletion("https://api.openai.com/v1/chat/completions", "gpt-4o", 550, [], None))
  {
    LeafProfile(store, name);
  }

  /** A profile without `inherits` resolves to the default overridden by its own fields. */
  lemma LeafProfile(store: Store, name: string)
    requires name in store && store[name].chat.Some? && store[name].chat.value.inherits.None?
    ensures Resolve(store, name) == Ok(Merge(Default(), store[name].chat.value))
  {
    ExpandRoot(store, name);
    var d := store[name].chat.value;
    assert Expand(store, name, {}) == Ok([d]);
    assert Fold(Default(), [d]) == Fold(Merge(Default(), d), []);
  }

  /** Two-level precedence: when `child` inherits only `parent` (which inherits nothing),
      the child's scalars win where set and the parent's messages come first. */
  lemma ChildOverridesParent(store: Store, child: string, parent: string)
    requires child in store && store[child].chat.Some? && store[child].chat.value.inherits == Some([parent])
    requires parent in store && parent != child && store[parent].chat.Some? && store[parent].chat.value.inherits.None?
    ensures var c, p := store[child].chat.value, store[parent].chat.value;
      Resolve(store, child) == Ok(Merge(Merge(Default(), p), c))
  {
    var c, p := store[child].chat.value, store[parent].chat.value;
    ExpandRoot(store, child);
    FlattenAllSingle(store, parent, {child});
    assert {child} + {parent} == {child, parent};
    assert Expand(store, parent, {child}) == Ok([p]);
    assert FlattenAll(store, [parent], {child}) == Ok([p]);
    assert [p] + [c] == [p, c];
    assert Expand(store, child, {}) == Ok([p, c]);
    assert [p, c][1..] == [c];
    assert Fold(Default(), [p, c]) == Fold(Merge(Default(), p), [c]);
  }
}
