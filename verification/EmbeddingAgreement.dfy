/** The cached call agrees with the direct one, and exactly for which models. */
module EmbeddingAgreement {
  import opened Wrappers
  import opened Embeddings
  import opened EmbeddingCache
  import opened EmbeddingClient

  /** The vector a provider has for a model id and a text. */
  type Embedding = (string, string, string) -> Vector

  /** Each text is answered once, in any order, with its own vector. */
  ghost predicate Right(reply: Reply, e: Embedding, provider: string, model: string, inputs: seq<string>) {
    && reply.Ok? && Complete(reply.value.data, |inputs|)
    && forall x | x in reply.value.data :: x.embedding == e(provider, model, inputs[x.index])
  }

  /** An answer may fail, leave texts out, repeat them or name wrong indices, but every vector it
      gives to one of the texts is that text's. */
  ghost predicate Honest(reply: Reply, e: Embedding, provider: string, model: string, inputs: seq<string>) {
    reply.Ok? ==>
      forall x | x in reply.value.data && Subscript(x.index, |inputs|).Some? ::
        x.embedding == e(provider, model, inputs[Subscript(x.index, |inputs|).value])
  }

  ghost predicate Faithful(answer: Answer, e: Embedding, provider: string) {
    forall model, inputs :: Right(answer(model, inputs), e, provider, model, inputs)
  }

  ghost predicate Truthful(answer: Answer, e: Embedding, provider: string) {
    forall model, inputs :: Honest(answer(model, inputs), e, provider, model, inputs)
  }

  lemma RightIsHonest(reply: Reply, e: Embedding, provider: string, model: string, inputs: seq<string>)
    requires Right(reply, e, provider, model, inputs)
    ensures reply.Ok? && Honest(reply, e, provider, model, inputs)
  {
  }

  lemma FaithfulIsTruthful(answer: Answer, e: Embedding, provider: string)
    requires Faithful(answer, e, provider)
    ensures Truthful(answer, e, provider)
  {
    forall model, inputs
      ensures Honest(answer(model, inputs), e, provider, model, inputs)
    {
      RightIsHonest(answer(model, inputs), e, provider, model, inputs);
    }
  }

  /** No model id is another one followed by a NUL character. */
  ghost predicate Unambiguous(models: set<string>) {
    forall p, m, m' | p in EMBED_PROVIDERS && m in models && m' in models ::
      !Extends(ResolveModel(p, m), ResolveModel(p, m'))
  }

  /** Every entry is the provider's vector of its provider, model and text. */
  ghost predicate Sound(rows: Rows, e: Embedding, models: set<string>) {
    forall p, m, t | p in EMBED_PROVIDERS && m in models && Key(p, ResolveModel(p, m), t) in rows ::
      rows[Key(p, ResolveModel(p, m), t)] == e(p, ResolveModel(p, m), t)
  }

  lemma KeyIdentifies(models: set<string>, p: string, m: string, t: string, p': string, m': string, t': string)
    requires Unambiguous(models) && p in EMBED_PROVIDERS && p' in EMBED_PROVIDERS && m in models && m' in models
    requires Key(p, ResolveModel(p, m), t) == Key(p', ResolveModel(p', m'), t')
    ensures p == p' && ResolveModel(p, m) == ResolveModel(p', m') && t == t'
  {
    hide ResolveModel, Key, Extends;
    KeyParts(p, ResolveModel(p, m), t, p', ResolveModel(p', m'), t');
    ModelsCollideIff(p, ResolveModel(p, m), ResolveModel(p', m'));
  }

  // --- One call ------------------------------------------------------

  lemma PutKeepsSound(rows: Rows, e: Embedding, models: set<string>, p: string, m: string, t: string)
    requires Unambiguous(models) && Sound(rows, e, models) && p in EMBED_PROVIDERS && m in models
    ensures Sound(rows[Key(p, ResolveModel(p, m), t) := e(p, ResolveModel(p, m), t)], e, models)
  {
    hide ResolveModel, Key, Unambiguous;
    forall p', m', t' | p' in EMBED_PROVIDERS && m' in models && Key(p', ResolveModel(p', m'), t') == Key(p, ResolveModel(p, m), t)
      ensures e(p', ResolveModel(p', m'), t') == e(p, ResolveModel(p, m), t)
    {
      KeyIdentifies(models, p, m, t, p', m', t');
    }
  }

  lemma {:induction false} StoreKeepsSound(rows: Rows, e: Embedding, models: set<string>, p: string, m: string,
                                           misses: seq<string>, items: seq<Item>)
    requires Unambiguous(models) && Sound(rows, e, models) && p in EMBED_PROVIDERS && m in models
    requires forall x | x in items && Subscript(x.index, |misses|).Some? ::
               x.embedding == e(p, ResolveModel(p, m), misses[Subscript(x.index, |misses|).value])
    ensures var s := Store(rows, p, ResolveModel(p, m), misses, items);
            Sound(s.rows, e, models) && forall t | t in s.fetched :: s.fetched[t] == e(p, ResolveModel(p, m), t)
  {
    if items != [] {
      hide ResolveModel, Key, Unambiguous, Sound;
      var front, x := items[..|items| - 1], items[|items| - 1];
      StoreKeepsSound(rows, e, models, p, m, misses, front);
      var s := Store(rows, p, ResolveModel(p, m), misses, front);
      if s.ok && Subscript(x.index, |misses|).Some? {
        PutKeepsSound(s.rows, e, models, p, m, misses[Subscript(x.index, |misses|).value]);
      }
    }
  }

  /** Whatever a truthful provider does, the call leaves the cache sound. */
  lemma EmbedKeepsSound(rows: Rows, e: Embedding, models: set<string>, p: string, m: string, texts: seq<string>,
                        cached: bool, answer: Answer)
    requires Unambiguous(models) && Sound(rows, e, models) && m in models && Truthful(answer, e, p)
    ensures Sound(Embedded(rows, p, m, texts, cached, answer).rows, e, models)
  {
    hide ResolveModel, Unambiguous, Sound, Store, Misses, Honest;
    var resolved := ResolveModel(p, m);
    var misses := Misses(rows, p, resolved, texts);
    if p in EMBED_PROVIDERS && cached && misses != [] {
      var reply := answer(resolved, misses);
      assert Honest(reply, e, p, resolved, misses);
      if reply.Ok? {
        HonestItems(reply, e, p, resolved, misses);
        StoreKeepsSound(rows, e, models, p, m, misses, reply.value.data);
      }
    }
  }

  lemma HonestItems(reply: Reply, e: Embedding, provider: string, model: string, inputs: seq<string>)
    requires Honest(reply, e, provider, model, inputs) && reply.Ok?
    ensures forall x | x in reply.value.data && Subscript(x.index, |inputs|).Some? ::
              x.embedding == e(provider, model, inputs[Subscript(x.index, |inputs|).value])
  {
  }

  lemma {:induction false} StoreFetches(rows: Rows, provider: string, model: string, misses: seq<string>,
                                        items: seq<Item>)
    requires forall x | x in items :: 0 <= x.index < |misses|
    ensures var s := Store(rows, provider, model, misses, items);
            && s.ok
            && (forall x | x in items :: misses[x.index] in s.fetched)
            && (forall x | x in items :: Key(provider, model, misses[x.index]) in s.rows)
            && (forall k | k in rows :: k in s.rows)
  {
    if items != [] {
      hide Key;
      StoreFetches(rows, provider, model, misses, items[..|items| - 1]);
      assert items == items[..|items| - 1] + [items[|items| - 1]];
    }
  }

  ghost function Expected(e: Embedding, provider: string, model: string, texts: seq<string>): seq<Vector> {
    seq(|texts|, i requires 0 <= i < |texts| => e(provider, model, texts[i]))
  }

  lemma DirectVectors(reply: Reply, e: Embedding, provider: string, model: string, texts: seq<string>)
    requires Right(reply, e, provider, model, texts)
    ensures reply.Ok? && Vectors(reply.value) == Expected(e, provider, model, texts)
  {
    VectorsOfComplete(reply.value, Expected(e, provider, model, texts));
  }

  lemma MergedVectors(rows: Rows, e: Embedding, models: set<string>, p: string, m: string,
                      fetched: map<string, Vector>, texts: seq<string>)
    requires Sound(rows, e, models) && p in EMBED_PROVIDERS && m in models
    requires Covered(rows, p, ResolveModel(p, m), fetched, texts)
    requires forall t | t in fetched :: fetched[t] == e(p, ResolveModel(p, m), t)
    ensures var r := Merged(rows, p, ResolveModel(p, m), fetched, texts);
            r.Ok? && Vectors(r.value) == Expected(e, p, ResolveModel(p, m), texts)
  {
    hide ResolveModel, Key;
    var r := Merged(rows, p, ResolveModel(p, m), fetched, texts);
    VectorsOfComplete(r.value, Expected(e, p, ResolveModel(p, m), texts));
  }

  /** Over a sound cache the call gives every text its provider's vector, in input order, cached or
      not and whatever the duplicates. */
  lemma EmbedGivesVectors(rows: Rows, e: Embedding, models: set<string>, p: string, m: string, texts: seq<string>,
                          cached: bool, answer: Answer)
    requires Unambiguous(models) && Sound(rows, e, models) && m in models && p in EMBED_PROVIDERS && Faithful(answer, e, p)
    ensures var reply := Embedded(rows, p, m, texts, cached, answer).reply;
            reply.Ok? && Vectors(reply.value) == Expected(e, p, ResolveModel(p, m), texts)
  {
    hide ResolveModel, Unambiguous, Sound, Store, Vectors, Expected, Right;
    var resolved := ResolveModel(p, m);
    var misses := Misses(rows, p, resolved, texts);
    if !cached {
      DirectVectors(answer(resolved, texts), e, p, resolved, texts);
    } else if misses == [] {
      assert Covered(rows, p, resolved, map[], texts);
      MergedVectors(rows, e, models, p, m, map[], texts);
    } else {
      var reply := answer(resolved, misses);
      RightIsHonest(reply, e, p, resolved, misses);
      RightAnswerCovers(rows, e, p, resolved, texts, reply);
      HonestItems(reply, e, p, resolved, misses);
      StoreKeepsSound(rows, e, models, p, m, misses, reply.value.data);
      MergedVectors(rows, e, models, p, m, Store(rows, p, resolved, misses, reply.value.data).fetched, texts);
    }
  }

  lemma RightAnswerCovers(rows: Rows, e: Embedding, p: string, model: string, texts: seq<string>, reply: Reply)
    requires Right(reply, e, p, model, Misses(rows, p, model, texts))
    ensures var s := Store(rows, p, model, Misses(rows, p, model, texts), reply.value.data);
            s.ok && Covered(rows, p, model, s.fetched, texts)
  {
    var misses, items := Misses(rows, p, model, texts), reply.value.data;
    StoreFetches(rows, p, model, misses, items);
    var s := Store(rows, p, model, misses, items);
    hide Store, Misses;
    forall t | t in misses
      ensures t in s.fetched
    {
      var i :| 0 <= i < |misses| && misses[i] == t;
      CompleteHas(items, |misses|, i);
    }
    assert forall t | t in texts && Key(p, model, t) !in rows :: t in misses;
  }

  /** The cached call returns the same vectors as the direct one. */
  lemma CachedEqualsDirect(rows: Rows, e: Embedding, models: set<string>, p: string, m: string, texts: seq<string>,
                           answer: Answer, answer': Answer)
    requires Unambiguous(models) && Sound(rows, e, models) && m in models && p in EMBED_PROVIDERS
    requires Faithful(answer, e, p) && Faithful(answer', e, p)
    ensures var (c, d) := (Embedded(rows, p, m, texts, true, answer).reply, Embedded(rows, p, m, texts, false, answer').reply);
            c.Ok? && d.Ok? && Vectors(c.value) == Vectors(d.value)
  {
    hide Embedded, Unambiguous, Sound, Faithful;
    EmbedGivesVectors(rows, e, models, p, m, texts, true, answer);
    EmbedGivesVectors(rows, e, models, p, m, texts, false, answer');
  }

  // --- Answers that are not right ------------------------------------

  /** Item `x` is about the requested text `t`. */
  predicate Names(x: Item, misses: seq<string>, t: string) {
    var i := Subscript(x.index, |misses|);
    i.Some? && misses[i.value] == t
  }

  ghost predicate Answered(items: seq<Item>, misses: seq<string>, t: string) {
    exists x :: x in items && Names(x, misses, t)
  }

  ghost predicate InRange(items: seq<Item>, misses: seq<string>) {
    forall x | x in items :: Subscript(x.index, |misses|).Some?
  }

  lemma {:induction false} StoreOkIff(rows: Rows, provider: string, model: string, misses: seq<string>, items: seq<Item>)
    ensures Store(rows, provider, model, misses, items).ok <==> InRange(items, misses)
  {
    if items != [] {
      var front, last := items[..|items| - 1], items[|items| - 1];
      StoreOkIff(rows, provider, model, misses, front);
      assert forall x :: x in items <==> x in front || x == last;
    }
  }

  lemma AnsweredSnoc(items: seq<Item>, misses: seq<string>, t: string)
    requires items != []
    ensures Answered(items, misses, t) <==>
            Answered(items[..|items| - 1], misses, t) || Names(items[|items| - 1], misses, t)
  {
    assert forall x :: x in items <==> x in items[..|items| - 1] || x == items[|items| - 1];
  }

  lemma {:induction false} FetchedIff(rows: Rows, provider: string, model: string, misses: seq<string>,
                                      items: seq<Item>, t: string)
    requires Store(rows, provider, model, misses, items).ok
    ensures t in Store(rows, provider, model, misses, items).fetched <==> Answered(items, misses, t)
  {
    if items != [] {
      FetchedIff(rows, provider, model, misses, items[..|items| - 1], t);
      AnsweredSnoc(items, misses, t);
      hide Key;
    }
  }

  /** Of several items about one text the last counts, for the response and for the cache. */
  lemma {:induction false} LastItemCounts(rows: Rows, provider: string, model: string, misses: seq<string>,
                                          items: seq<Item>, i: nat, t: string)
    requires i < |items| && Store(rows, provider, model, misses, items).ok && Names(items[i], misses, t)
    requires forall j | i < j < |items| :: !Names(items[j], misses, t)
    ensures var s := Store(rows, provider, model, misses, items);
            && t in s.fetched && s.fetched[t] == items[i].embedding
            && Key(provider, model, t) in s.rows && s.rows[Key(provider, model, t)] == items[i].embedding
  {
    if i < |items| - 1 {
      LastItemCounts(rows, provider, model, misses, items[..|items| - 1], i, t);
      var other := misses[Subscript(items[|items| - 1].index, |misses|).value];
      if Key(provider, model, other) == Key(provider, model, t) {
        SameModelSameText(provider, model, other, t);
      }
      hide Key;
    }
  }

  /** A cached call that asks the provider fails exactly when the provider fails, when the answer names
      an index outside the request, or when it leaves out a requested text. */
  lemma EmbedFailsIff(rows: Rows, provider: string, model: string, texts: seq<string>, answer: Answer)
    requires Misses(rows, provider, model, texts) != []
    ensures var misses := Misses(rows, provider, model, texts);
            var reply := CachedEmbed(rows, provider, model, texts, answer).reply;
            match answer(model, misses)
            case Err(e) => reply == Err(e)
            case Ok(r) =>
              if !InRange(r.data, misses) then reply == Err(IndexError)
              else if exists t :: t in misses && !Answered(r.data, misses, t) then reply == Err(KeyError)
              else reply.Ok?
  {
    var misses := Misses(rows, provider, model, texts);
    if answer(model, misses).Ok? {
      var items := answer(model, misses).value.data;
      StoreOkIff(rows, provider, model, misses, items);
      var s := Store(rows, provider, model, misses, items);
      if s.ok {
        forall t: string
          ensures t in s.fetched <==> Answered(items, misses, t)
        {
          FetchedIff(rows, provider, model, misses, items, t);
        }
        CoveredIff(rows, provider, model, s.fetched, texts);
      }
      hide Store, Key, Answered, InRange, Covered;
    }
  }

  lemma CoveredIff(rows: Rows, provider: string, model: string, fetched: map<string, Vector>, texts: seq<string>)
    ensures Covered(rows, provider, model, fetched, texts) <==>
            forall t | t in Misses(rows, provider, model, texts) :: t in fetched
  {
    var misses := Misses(rows, provider, model, texts);
    hide Key;
    assert forall t :: t in misses <==> t in texts && Key(provider, model, t) !in rows;
  }

  // --- Repeating a call ----------------------------------------------

  lemma {:induction false} StoreRemembers(rows: Rows, provider: string, model: string, misses: seq<string>,
                                          items: seq<Item>)
    ensures var s := Store(rows, provider, model, misses, items);
            && (forall t | t in s.fetched ::
                  Key(provider, model, t) in s.rows && s.rows[Key(provider, model, t)] == s.fetched[t])
            && (forall t | t !in s.fetched && Key(provider, model, t) in rows ::
                  Key(provider, model, t) in s.rows && s.rows[Key(provider, model, t)] == rows[Key(provider, model, t)])
            && (forall t | t in s.fetched :: t in misses)
  {
    if items != [] {
      StoreRemembers(rows, provider, model, misses, items[..|items| - 1]);
      forall t, t' | Key(provider, model, t) == Key(provider, model, t')
        ensures t == t'
      {
        SameModelSameText(provider, model, t, t');
      }
      hide Key;
    }
  }

  lemma SameModelSameText(provider: string, model: string, t: string, t': string)
    requires Key(provider, model, t) == Key(provider, model, t')
    ensures t == t'
  {
    var prefix := provider + [NUL] + model + [NUL];
    assert t == (prefix + t)[|prefix|..] && t' == (prefix + t')[|prefix|..];
  }

  /** A successful cached call, repeated at once, asks the provider nothing and returns the same
      response, whatever the provider answered. */
  lemma RepeatIsFree(rows: Rows, p: string, m: string, texts: seq<string>, answer: Answer, answer': Answer)
    requires Embedded(rows, p, m, texts, true, answer).reply.Ok?
    ensures var first := Embedded(rows, p, m, texts, true, answer);
            var again := Embedded(first.rows, p, m, texts, true, answer');
            again.requests == [] && again.rows == first.rows && again.reply == first.reply
  {
    hide Key, ResolveModel;
    var first, resolved := Embedded(rows, p, m, texts, true, answer), ResolveModel(p, m);
    var misses := Misses(rows, p, resolved, texts);
    if misses != [] {
      var items := answer(resolved, misses).value.data;
      StoreRemembers(rows, p, resolved, misses, items);
      hide Store;
      var s := Store(rows, p, resolved, misses, items);
      NoMisses(s.rows, p, resolved, texts);
      SameMerge(rows, s.rows, p, resolved, s.fetched, texts);
    }
  }

  lemma {:induction false} NoMisses(rows: Rows, p: string, model: string, texts: seq<string>)
    requires forall t | t in texts :: Key(p, model, t) in rows
    ensures Misses(rows, p, model, texts) == []
  {
    if texts != [] {
      hide Key;
      NoMisses(rows, p, model, texts[..|texts| - 1]);
    }
  }

  lemma SameMerge(rows: Rows, rows': Rows, p: string, model: string, fetched: map<string, Vector>, texts: seq<string>)
    requires Covered(rows, p, model, fetched, texts)
    requires forall t | t in texts :: Key(p, model, t) in rows' &&
               rows'[Key(p, model, t)] == if Key(p, model, t) in rows then rows[Key(p, model, t)] else fetched[t]
    ensures Merged(rows', p, model, map[], texts) == Merged(rows, p, model, fetched, texts)
  {
    assert Merged(rows', p, model, map[], texts).value.data == Merged(rows, p, model, fetched, texts).value.data;
  }

  // --- Runs ----------------------------------------------------------

  datatype Call = Call(provider: string, model: string, texts: seq<string>, cached: bool, answer: Answer)

  /** The rows after calls by any number of clients that share the cache. */
  ghost function RunRows(calls: seq<Call>): Rows {
    if calls == [] then map[]
    else
      var c := calls[|calls| - 1];
      Embedded(RunRows(calls[..|calls| - 1]), c.provider, c.model, c.texts, c.cached, c.answer).rows
  }

  ghost predicate Admissible(c: Call, e: Embedding, models: set<string>) {
    c.model in models && Truthful(c.answer, e, c.provider)
  }

  lemma {:induction false} RunSound(calls: seq<Call>, e: Embedding, models: set<string>)
    requires Unambiguous(models) && forall c | c in calls :: Admissible(c, e, models)
    ensures Sound(RunRows(calls), e, models)
  {
    if calls != [] {
      hide Embedded, Unambiguous, Sound, Truthful;
      var c, front := calls[|calls| - 1], calls[..|calls| - 1];
      RunSound(front, e, models);
      assert Admissible(c, e, models);
      EmbedKeepsSound(RunRows(front), e, models, c.provider, c.model, c.texts, c.cached, c.answer);
    }
  }

  /** After the calls, a cached call to a faithful provider gives every text its own vector. */
  ghost predicate Agrees(e: Embedding, calls: seq<Call>, p: string, m: string, texts: seq<string>, answer: Answer) {
    var reply := Embedded(RunRows(calls), p, m, texts, true, answer).reply;
    reply.Ok? && Vectors(reply.value) == Expected(e, p, ResolveModel(p, m), texts)
  }

  ghost predicate AlwaysAgrees(models: set<string>) {
    forall e: Embedding, calls: seq<Call>, p: string, m: string, texts: seq<string>, answer: Answer |
      (forall c | c in calls :: Admissible(c, e, models))
      && p in EMBED_PROVIDERS && m in models && Faithful(answer, e, p) ::
      Agrees(e, calls, p, m, texts, answer)
  }

  /** After every run of truthful calls over `models` the cached call agrees with the provider, exactly
      when no model id extends another by NUL. */
  lemma AgreementIff(models: set<string>)
    ensures AlwaysAgrees(models) <==> Unambiguous(models)
  {
    if Unambiguous(models) {
      UnambiguousAgrees(models);
    } else {
      var p, m, m' :| p in EMBED_PROVIDERS && m in models && m' in models && Extends(ResolveModel(p, m), ResolveModel(p, m'));
      hide Unambiguous, AlwaysAgrees;
      AmbiguousDisagrees(models, p, m, m');
    }
  }

  lemma UnambiguousAgrees(models: set<string>)
    requires Unambiguous(models)
    ensures AlwaysAgrees(models)
  {
    hide Unambiguous, Admissible, Faithful, Embedded, Vectors, Expected, Sound, ResolveModel;
    forall e: Embedding, calls: seq<Call>, p: string, m: string, texts: seq<string>, answer: Answer |
      (forall c | c in calls :: Admissible(c, e, models))
      && p in EMBED_PROVIDERS && m in models && Faithful(answer, e, p)
      ensures Agrees(e, calls, p, m, texts, answer)
    {
      RunSound(calls, e, models);
      EmbedGivesVectors(RunRows(calls), e, models, p, m, texts, true, answer);
    }
  }

  /** The provider that tells model `special` from every other model. */
  function Marks(special: string): Embedding {
    (provider: string, model: string, text: string) => if model == special then [1.0] else [0.0]
  }

  function InOrder(e: Embedding, provider: string): Answer {
    (model: string, inputs: seq<string>) =>
      Ok(Response(model, seq(|inputs|, i requires 0 <= i < |inputs| => Item(i, e(provider, model, inputs[i])))))
  }

  lemma InOrderIsFaithful(e: Embedding, provider: string)
    ensures Faithful(InOrder(e, provider), e, provider)
  {
  }

  /** With an ambiguous pair, embedding a text for `m'` makes the cache answer for `m`, another model. */
  lemma AmbiguousDisagrees(models: set<string>, p: string, m: string, m': string)
    requires p in EMBED_PROVIDERS && m in models && m' in models && Extends(ResolveModel(p, m), ResolveModel(p, m'))
    ensures !AlwaysAgrees(models)
  {
    var r, r' := ResolveModel(p, m), ResolveModel(p, m');
    var e := Marks(r');
    var answer := InOrder(e, p);
    InOrderIsFaithful(e, p);
    FaithfulIsTruthful(answer, e, p);
    var first := Call(p, m', [""], true, answer);
    var text := r'[|r| + 1..] + [NUL];
    WrongHit(p, m, m', text);
    assert Admissible(first, e, models);
    assert r != r' by {
      assert |r| < |r'|;
    }
    hide ResolveModel, Embedded, Faithful, Truthful, Admissible, InOrder, AlwaysAgrees, Vectors, Extends;
    assert Expected(e, p, r, [text])[0] == [0.0];
    assert !Agrees(e, [first], p, m, [text], answer);
    hide Agrees;
    OneDisagreement(models, e, [first], p, m, [text], answer);
  }

  lemma OneDisagreement(models: set<string>, e: Embedding, calls: seq<Call>, p: string, m: string,
                        texts: seq<string>, answer: Answer)
    requires forall c | c in calls :: Admissible(c, e, models)
    requires p in EMBED_PROVIDERS && m in models && Faithful(answer, e, p) && !Agrees(e, calls, p, m, texts, answer)
    ensures !AlwaysAgrees(models)
  {
    hide Admissible, Faithful, Agrees;
  }

  lemma WrongHit(p: string, m: string, m': string, text: string)
    requires p in EMBED_PROVIDERS && Extends(ResolveModel(p, m), ResolveModel(p, m'))
    requires text == ResolveModel(p, m')[|ResolveModel(p, m)| + 1..] + [NUL]
    ensures var answer := InOrder(Marks(ResolveModel(p, m')), p);
            var reply := Embedded(RunRows([Call(p, m', [""], true, answer)]), p, m, [text], true, answer).reply;
            reply.Ok? && Vectors(reply.value) == [[1.0]]
  {
    var r, r' := ResolveModel(p, m), ResolveModel(p, m');
    var answer := InOrder(Marks(r'), p);
    var first := Call(p, m', [""], true, answer);
    CollidingTexts(p, r, r', "");
    assert text + "" == text;
    assert Key(p, r', "") == Key(p, r, text);
    hide Key;
    FirstCallStores(p, m', "");
    hide ResolveModel;
    var rows := RunRows([first]);
    assert [text][..0] == [];
    assert Misses(rows, p, r, [text]) == [];
    assert SortedByIndex([Item(0, [1.0])]) == [Item(0, [1.0])];
  }

  lemma FirstCallStores(p: string, m: string, text: string)
    requires p in EMBED_PROVIDERS
    ensures var r := ResolveModel(p, m);
            RunRows([Call(p, m, [text], true, InOrder(Marks(r), p))]) == map[Key(p, r, text) := [1.0]]
  {
    hide ResolveModel, Key;
    var r := ResolveModel(p, m);
    var first := Call(p, m, [text], true, InOrder(Marks(r), p));
    assert [first][..0] == [] && RunRows([]) == map[];
    assert [text][..0] == [] && Misses(map[], p, r, []) == [];
    assert Misses(map[], p, r, [text]) == [text];
    var items := [Item(0, [1.0])];
    assert first.answer(r, [text]).value.data == items;
    assert items[..0] == [];
    assert Store(map[], p, r, [text], items[..0]) == Stored(map[], map[], true);
    assert Store(map[], p, r, [text], items).rows == map[Key(p, r, text) := [1.0]];
  }
}
