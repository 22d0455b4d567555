/** The client's embeddings call, with and without the cache. */
module EmbeddingClient {
  import opened Wrappers
  import opened Embeddings
  import opened EmbeddingCache

  datatype Error =
    | CapabilityNotAvailable
    | ProviderFailed(message: string)
    | IndexError  // the answer names an index the request does not have
    | KeyError    // the answer leaves out a requested text

  const EMBED_PROVIDERS: set<string> := {"basic-infra", "openai"}

  const KNOWN_PROVIDERS: set<string> := EMBED_PROVIDERS + {"anthropic"}

  const MODEL_ALIASES: map<string, map<string, string>> := map[
    "basic-infra" := map["default-chat" := "t-pro-it-2.1-q8", "default-embed" := "bge-m3",
                         "default-rerank" := "bge-reranker-v2-m3"],
    "openai" := map["default-chat" := "gpt-4o-mini", "default-embed" := "text-embedding-3-small"],
    "anthropic" := map["default-chat" := "claude-haiku-4-5"]]

  function ResolveModel(provider: string, model: string): string {
    if provider in MODEL_ALIASES && model in MODEL_ALIASES[provider] then MODEL_ALIASES[provider][model] else model
  }

  type Reply = Result<Response, Error>

  /** What a provider answers to a model and a list of inputs. */
  type Answer = (string, seq<string>) -> Reply

  datatype Request = Request(model: string, inputs: seq<string>)

  // --- The merge, as a function --------------------------------------

  function Misses(rows: Rows, provider: string, model: string, texts: seq<string>): (r: seq<string>)
    ensures forall t :: t in r <==> t in texts && Key(provider, model, t) !in rows
  {
    if texts == [] then []
    else
      var t := texts[|texts| - 1];
      Misses(rows, provider, model, texts[..|texts| - 1]) + if Key(provider, model, t) in rows then [] else [t]
  }

  /** Subscripting a list of length `n`: negative indices count from the end. */
  function Subscript(index: int, n: nat): Option<nat> {
    if 0 <= index < n then Some(index)
    else if 0 <= index + n < n then Some(index + n)
    else None
  }

  datatype Stored = Stored(rows: Rows, fetched: map<string, Vector>, ok: bool)

  /** Storing the items of a fresh answer one by one; an index out of range raises and keeps what was stored. */
  function Store(rows: Rows, provider: string, model: string, misses: seq<string>, items: seq<Item>): Stored {
    if items == [] then Stored(rows, map[], true)
    else
      var s, x := Store(rows, provider, model, misses, items[..|items| - 1]), items[|items| - 1];
      var i := Subscript(x.index, |misses|);
      if !s.ok then s
      else if i.None? then s.(ok := false)
      else
        var text := misses[i.value];
        Stored(s.rows[Key(provider, model, text) := x.embedding], s.fetched[text := x.embedding], true)
  }

  ghost predicate Covered(rows: Rows, provider: string, model: string, fetched: map<string, Vector>, texts: seq<string>) {
    forall t | t in texts :: Key(provider, model, t) in rows || t in fetched
  }

  function ItemFor(rows: Rows, provider: string, model: string, fetched: map<string, Vector>, text: string, i: nat): Item
    requires Key(provider, model, text) in rows || text in fetched
  {
    Item(i, if Key(provider, model, text) in rows then rows[Key(provider, model, text)] else fetched[text])
  }

  ghost function Merged(rows: Rows, provider: string, model: string, fetched: map<string, Vector>,
                        texts: seq<string>): Reply {
    if !Covered(rows, provider, model, fetched, texts) then Err(KeyError)
    else Ok(Response(model, seq(|texts|, i requires 0 <= i < |texts| => ItemFor(rows, provider, model, fetched, texts[i], i))))
  }

  datatype Outcome = Outcome(rows: Rows, reply: Reply, requests: seq<Request>)

  ghost function CachedEmbed(rows: Rows, provider: string, model: string, texts: seq<string>, answer: Answer): Outcome {
    var misses := Misses(rows, provider, model, texts);
    if misses == [] then Outcome(rows, Merged(rows, provider, model, map[], texts), [])
    else
      match answer(model, misses)
      case Err(e) => Outcome(rows, Err(e), [Request(model, misses)])
      case Ok(answered) =>
        var s := Store(rows, provider, model, misses, answered.data);
        Outcome(s.rows, if s.ok then Merged(rows, provider, model, s.fetched, texts) else Err(IndexError),
                [Request(model, misses)])
  }

  /** One call of `create`; `cached` says that there is a cache and the caller enabled it. */
  ghost function Embedded(rows: Rows, provider: string, model: string, texts: seq<string>, cached: bool,
                          answer: Answer): Outcome {
    var resolved := ResolveModel(provider, model);
    if provider !in EMBED_PROVIDERS then Outcome(rows, Err(CapabilityNotAvailable), [])
    else if !cached then Outcome(rows, answer(resolved, texts), [Request(resolved, texts)])
    else CachedEmbed(rows, provider, resolved, texts, answer)
  }

  lemma {:induction false} StoreStops(rows: Rows, provider: string, model: string, misses: seq<string>,
                                      items: seq<Item>, n: nat)
    requires n <= |items| && !Store(rows, provider, model, misses, items[..n]).ok
    ensures Store(rows, provider, model, misses, items) == Store(rows, provider, model, misses, items[..n])
  {
    if n == |items| {
      assert items[..n] == items;
    } else {
      assert items[..|items| - 1][..n] == items[..n];
      StoreStops(rows, provider, model, misses, items[..|items| - 1], n);
    }
  }

  // --- The client ----------------------------------------------------

  class Provider {
    const answer: Answer
    var requests: seq<Request>

    constructor (answer: Answer)
      ensures this.answer == answer && requests == []
    {
      this.answer, this.requests := answer, [];
    }

    method Embeddings(model: string, inputs: seq<string>) returns (r: Reply)
      modifies this
      ensures r == answer(model, inputs) && requests == old(requests) + [Request(model, inputs)]
    {
      requests := requests + [Request(model, inputs)];
      return answer(model, inputs);
    }
  }

  class LlmClient {
    const name: string
    const provider: Provider
    const cache: EmbeddingCache?

    constructor (name: string, provider: Provider, cache: EmbeddingCache?)
      ensures this.name == name && this.provider == provider && this.cache == cache
    {
      this.name, this.provider, this.cache := name, provider, cache;
    }

    ghost function Rows(): Rows
      reads cache
    {
      if cache == null then map[] else cache.rows
    }

    method Embed(model: string, texts: seq<string>, useCache: bool) returns (r: Reply)
      modifies provider, cache
      ensures var out := Embedded(old(Rows()), name, model, texts, cache != null && useCache, provider.answer);
              && r == out.reply && Rows() == out.rows
              && provider.requests == old(provider.requests) + out.requests
    {
      if name !in EMBED_PROVIDERS {
        return Err(CapabilityNotAvailable);
      }
      var resolved := ResolveModel(name, model);
      if cache == null || !useCache {
        r := provider.Embeddings(resolved, texts);
        return;
      }

      ghost var rows := cache.rows;
      var hits, misses := LookUp(resolved, texts);
      var fetched: map<string, Vector> := map[];
      if misses != [] {
        var answered := provider.Embeddings(resolved, misses);
        if answered.Err? {
          return answered;
        }
        var ok;
        ok, fetched := StoreAnswer(resolved, misses, answered.value.data);
        if !ok {
          return Err(IndexError);
        }
      }
      r := Merge(rows, resolved, texts, hits, fetched);
    }

    /** The hits by position, and the texts to ask the provider for, duplicates included. */
    method LookUp(model: string, texts: seq<string>) returns (hits: map<nat, Vector>, misses: seq<string>)
      requires cache != null
      ensures misses == Misses(cache.rows, name, model, texts)
      ensures HitsUpTo(hits, cache.rows, model, texts, |texts|)
    {
      hits, misses := map[], [];
      for i := 0 to |texts|
        invariant misses == Misses(cache.rows, name, model, texts[..i])
        invariant HitsUpTo(hits, cache.rows, model, texts, i)
      {
        assert texts[..i + 1][..i] == texts[..i];
        var hit := cache.Get(name, model, texts[i]);
        if hit.None? {
          misses := misses + [texts[i]];
        } else {
          hits := hits[i := hit.value];
        }
      }
      assert texts[..|texts|] == texts;
    }

    method StoreAnswer(model: string, misses: seq<string>, items: seq<Item>)
      returns (ok: bool, fetched: map<string, Vector>)
      requires cache != null
      modifies cache
      ensures var s := Store(old(cache.rows), name, model, misses, items);
              s.ok == ok && s.rows == cache.rows && s.fetched == fetched
    {
      fetched := map[];
      for i := 0 to |items|
        invariant Store(old(cache.rows), name, model, misses, items[..i]) == Stored(cache.rows, fetched, true)
      {
        assert items[..i + 1][..i] == items[..i];
        var index := Subscript(items[i].index, |misses|);
        if index.None? {
          StoreStops(old(cache.rows), name, model, misses, items, i + 1);
          return false, fetched;
        }
        var text := misses[index.value];
        fetched := fetched[text := items[i].embedding];
        cache.Put(name, model, text, items[i].embedding);
      }
      assert items[..|items|] == items;
      ok := true;
    }

    method Merge(ghost rows: Rows, model: string, texts: seq<string>, hits: map<nat, Vector>,
                 fetched: map<string, Vector>)
      returns (r: Reply)
      requires HitsUpTo(hits, rows, model, texts, |texts|)
      ensures r == Merged(rows, name, model, fetched, texts)
    {
      var data: seq<Item> := [];
      for i := 0 to |texts|
        invariant |data| == i
        invariant forall j | 0 <= j < i :: Key(name, model, texts[j]) in rows || texts[j] in fetched
        invariant forall j | 0 <= j < i :: data[j] == ItemFor(rows, name, model, fetched, texts[j], j)
      {
        if i !in hits && texts[i] !in fetched {
          assert texts[i] in texts;
          return Err(KeyError);
        }
        data := data + [Item(i, if i in hits then hits[i] else fetched[texts[i]])];
      }
      assert Covered(rows, name, model, fetched, texts);
      assert data == Merged(rows, name, model, fetched, texts).value.data;
      return Ok(Response(model, data));
    }

    ghost predicate HitsUpTo(hits: map<nat, Vector>, rows: Rows, model: string, texts: seq<string>, n: nat)
      requires n <= |texts|
    {
      && (forall i: nat :: i in hits <==> i < n && Key(name, model, texts[i]) in rows)
      && (forall i: nat | i in hits :: hits[i] == rows[Key(name, model, texts[i])])
    }
  }
}
