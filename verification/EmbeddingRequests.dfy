/** What an embeddings call sends and returns, in written-out names: providers, model ids, the texts asked
    for and the shape of the response. */
module EmbeddingRequests {
  import opened Wrappers
  import opened Embeddings
  import opened EmbeddingCache
  import opened EmbeddingClient
  import opened EmbeddingAgreement

  // --- Providers and models ------------------------------------------

  /** The model id a provider is asked for. */
  function ModelAsked(provider: string, model: string): string {
    if provider == "basic-infra" && model == "default-chat" then "t-pro-it-2.1-q8"
    else if provider == "basic-infra" && model == "default-embed" then "bge-m3"
    else if provider == "basic-infra" && model == "default-rerank" then "bge-reranker-v2-m3"
    else if provider == "openai" && model == "default-chat" then "gpt-4o-mini"
    else if provider == "openai" && model == "default-embed" then "text-embedding-3-small"
    else model
  }

  lemma AskedIsResolved(provider: string, model: string)
    requires provider == "basic-infra" || provider == "openai"
    ensures ResolveModel(provider, model) == ModelAsked(provider, model) && provider in EMBED_PROVIDERS
  {
  }

  /** A direct call asks the provider once, for the resolved model and all texts, and returns its answer as it
      is; the cache is left alone. */
  lemma DirectCall(rows: Rows, provider: string, model: string, texts: seq<string>, answer: Answer)
    requires provider == "basic-infra" || provider == "openai"
    ensures var asked := ModelAsked(provider, model);
            Embedded(rows, provider, model, texts, false, answer) ==
            Outcome(rows, answer(asked, texts), [Request(asked, texts)])
  {
  }

  /** Every other provider, `anthropic` among them, raises before anything is asked. */
  lemma CannotEmbed(rows: Rows, provider: string, model: string, texts: seq<string>, cached: bool, answer: Answer)
    requires provider != "basic-infra" && provider != "openai"
    ensures Embedded(rows, provider, model, texts, cached, answer) == Outcome(rows, Err(CapabilityNotAvailable), [])
  {
  }

  lemma AnthropicChats()
    ensures ResolveModel("anthropic", "default-chat") == "claude-haiku-4-5"
    ensures "anthropic" in KNOWN_PROVIDERS && "basic-infra" in KNOWN_PROVIDERS && "openai" in KNOWN_PROVIDERS
    ensures |KNOWN_PROVIDERS| == 3
  {
  }

  // --- What a cached call asks for -----------------------------------

  function CountMisses(rows: Rows, provider: string, model: string, texts: seq<string>): nat {
    if texts == [] then 0
    else
      CountMisses(rows, provider, model, texts[..|texts| - 1])
      + if Key(provider, model, texts[|texts| - 1]) in rows then 0 else 1
  }

  /** The texts asked for are those without an entry, in input order and each as often as it occurs. */
  lemma {:induction false} MissesInOrder(rows: Rows, provider: string, model: string, texts: seq<string>, i: nat)
    ensures |Misses(rows, provider, model, texts)| == CountMisses(rows, provider, model, texts)
    ensures i < |texts| && Key(provider, model, texts[i]) !in rows ==>
              var n := CountMisses(rows, provider, model, texts[..i]);
              n < |Misses(rows, provider, model, texts)| && Misses(rows, provider, model, texts)[n] == texts[i]
  {
    if texts != [] {
      hide Key;
      var front := texts[..|texts| - 1];
      MissesInOrder(rows, provider, model, front, i);
      if i < |front| {
        assert front[..i] == texts[..i];
      } else if i == |front| {
        assert texts[..i] == front;
      }
    }
  }

  /** A cached call asks the provider at most once, for the resolved model and the texts it lacks; with
      nothing lacking it asks nothing. */
  lemma CachedCallAsks(rows: Rows, provider: string, model: string, texts: seq<string>, answer: Answer)
    requires provider == "basic-infra" || provider == "openai"
    ensures var asked := ModelAsked(provider, model);
            var misses := Misses(rows, provider, asked, texts);
            Embedded(rows, provider, model, texts, true, answer).requests ==
            if forall t | t in texts :: Key(provider, asked, t) in rows then [] else [Request(asked, misses)]
  {
    hide ResolveModel, ModelAsked, Key, Store, Merged;
    AskedIsResolved(provider, model);
    var asked := ModelAsked(provider, model);
    if forall t | t in texts :: Key(provider, asked, t) in rows {
      NoMisses(rows, provider, asked, texts);
    }
    if t :| t in texts && Key(provider, asked, t) !in rows {
      assert t in Misses(rows, provider, asked, texts);
    }
  }

  /** A successful cached response names the resolved model and has one item for each text, in input order. */
  lemma CachedResponseShape(rows: Rows, provider: string, model: string, texts: seq<string>, answer: Answer)
    requires provider == "basic-infra" || provider == "openai"
    requires Embedded(rows, provider, model, texts, true, answer).reply.Ok?
    ensures var r := Embedded(rows, provider, model, texts, true, answer).reply.value;
            && r.model == ModelAsked(provider, model) && |r.data| == |texts|
            && forall i | 0 <= i < |texts| :: r.data[i].index == i
  {
    hide ResolveModel, ModelAsked, Key, Store, Misses;
    AskedIsResolved(provider, model);
  }

  // --- A wrong index -------------------------------------------------

  predicate InRange(index: int, n: int) {
    -n <= index < n
  }

  lemma {:induction false} StoreOkIff(rows: Rows, provider: string, model: string, misses: seq<string>, items: seq<Item>)
    ensures Store(rows, provider, model, misses, items).ok <==> forall x | x in items :: InRange(x.index, |misses|)
  {
    if items != [] {
      var front := items[..|items| - 1];
      StoreOkIff(rows, provider, model, misses, front);
      assert items == front + [items[|items| - 1]];
    }
  }

  lemma StoreStopsAt(rows: Rows, provider: string, model: string, misses: seq<string>, items: seq<Item>, n: nat)
    requires n < |items| && !InRange(items[n].index, |misses|)
    requires Store(rows, provider, model, misses, items[..n]).ok
    ensures Store(rows, provider, model, misses, items) == Store(rows, provider, model, misses, items[..n]).(ok := false)
  {
    assert items[..n + 1][..n] == items[..n] && items[..n + 1][n] == items[n];
    StoreStops(rows, provider, model, misses, items, n + 1);
  }

  /** A call whose answer has a wrong index at item `n` raises, and has stored the items before it: each text
      they name has the vector of the last of them that names it. */
  lemma ItemsBeforeAreKept(rows: Rows, provider: string, model: string, texts: seq<string>, answer: Answer,
                           n: nat, i: nat, t: string)
    requires provider == "basic-infra" || provider == "openai"
    requires var asked := ModelAsked(provider, model);
             var misses := Misses(rows, provider, asked, texts);
             && misses != [] && answer(asked, misses).Ok?
             && var items := answer(asked, misses).value.data;
                && i < n < |items| && !InRange(items[n].index, |misses|)
                && (forall x | x in items[..n] :: InRange(x.index, |misses|))
                && Names(items[i], misses, t) && (forall j | i < j < n :: !Names(items[j], misses, t))
    ensures var asked := ModelAsked(provider, model);
            var items := answer(asked, Misses(rows, provider, asked, texts)).value.data;
            var after := Embedded(rows, provider, model, texts, true, answer);
            && after.reply == Err(IndexError)
            && Key(provider, asked, t) in after.rows && after.rows[Key(provider, asked, t)] == items[i].embedding
  {
    hide ResolveModel, ModelAsked, Key, Misses, Names, Store;
    AskedIsResolved(provider, model);
    var asked := ModelAsked(provider, model);
    var misses := Misses(rows, provider, asked, texts);
    var items := answer(asked, misses).value.data;
    StoreOkIff(rows, provider, asked, misses, items[..n]);
    LastItemCounts(rows, provider, asked, misses, items[..n], i, t);
    StoreStopsAt(rows, provider, asked, misses, items, n);
  }

  // --- Indices and keys ----------------------------------------------

  /** An item names a text by its position, or by counting from the end with a negative index. */
  lemma NamesByPosition(x: Item, misses: seq<string>, t: string)
    ensures Names(x, misses, t) <==>
              || (0 <= x.index < |misses| && misses[x.index] == t)
              || (-|misses| <= x.index < 0 && misses[|misses| + x.index] == t)
    ensures Subscript(x.index, |misses|) == None <==> x.index < -|misses| || x.index >= |misses|
  {
  }

  /** A cache key, written out. */
  lemma KeyWritten()
    ensures Key("openai", "text-embedding-3-small", "hello") == Sha256("openai\0text-embedding-3-small\0hello")
  {
    assert "openai" + [NUL] + "text-embedding-3-small" + [NUL] + "hello" == "openai\0text-embedding-3-small\0hello";
  }

  /** Models without NUL characters, which is every model there is, are safe: over every run the cached call
      agrees with the provider. */
  lemma OrdinaryModelsAgree(models: set<string>)
    requires forall m | m in models :: '\0' !in m
    ensures AlwaysAgrees(models)
  {
    forall p, m, m' | p in EMBED_PROVIDERS && m in models && m' in models
      ensures !Extends(ResolveModel(p, m), ResolveModel(p, m'))
    {
      NoNul(p, m');
      NotExtended(ResolveModel(p, m), ResolveModel(p, m'));
    }
    hide AlwaysAgrees;
    UnambiguousAgrees(models);
  }

  lemma NoNul(provider: string, model: string)
    requires provider in EMBED_PROVIDERS && '\0' !in model
    ensures '\0' !in ResolveModel(provider, model)
  {
    hide ResolveModel;
    AskedIsResolved(provider, model);
  }

  lemma NotExtended(m: string, m': string)
    requires '\0' !in m'
    ensures !Extends(m, m')
  {
    assert (m + ['\0'])[|m|] == '\0';
    if |m| < |m'| {
      assert m'[|m|] in m';
    }
  }
}
