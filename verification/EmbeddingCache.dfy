/** The embedding cache: one table from a digest of (provider, model, text) to a vector. */
module EmbeddingCache {
  import opened Wrappers
  import opened Text
  import opened Embeddings

  /** sha256, idealised: digests are equal only for equal inputs. */
  datatype Digest = Sha256(input: string)

  type Rows = map<Digest, Vector>

  const NUL: char := '\0'

  function Key(provider: string, model: string, text: string): Digest {
    Sha256(provider + [NUL] + model + [NUL] + text)
  }

  class EmbeddingCache {
    var rows: Rows

    constructor ()
      ensures rows == map[]
    {
      rows := map[];
    }

    method Get(provider: string, model: string, text: string) returns (vector: Option<Vector>)
      ensures vector == if Key(provider, model, text) in rows then Some(rows[Key(provider, model, text)]) else None
    {
      return if Key(provider, model, text) in rows then Some(rows[Key(provider, model, text)]) else None;
    }

    method Put(provider: string, model: string, text: string, vector: Vector)
      modifies this
      ensures rows == old(rows)[Key(provider, model, text) := vector]
    {
      rows := rows[Key(provider, model, text) := vector];
    }
  }

  // --- What the key identifies ---------------------------------------

  /** The key tells the provider apart, and the text once the model is known. */
  lemma KeyParts(p: string, m: string, t: string, p': string, m': string, t': string)
    requires NUL !in p && NUL !in p' && Key(p, m, t) == Key(p', m', t')
    ensures p == p' && m + [NUL] + t == m' + [NUL] + t'
    ensures m == m' ==> t == t'
  {
    assert p + [NUL] + (m + [NUL] + t) == p + [NUL] + m + [NUL] + t;
    assert p' + [NUL] + (m' + [NUL] + t') == p' + [NUL] + m' + [NUL] + t';
    FirstSeparator(p, p', m + [NUL] + t, m' + [NUL] + t', NUL);
    if m == m' {
      assert t == (m + [NUL] + t)[|m| + 1..] && t' == (m' + [NUL] + t')[|m'| + 1..];
    }
  }

  predicate Extends(m: string, m': string) {
    m + [NUL] <= m'
  }

  /** Two models share a key, for some two texts, exactly when they are equal or one is the other
      followed by a NUL character. */
  lemma ModelsCollideIff(p: string, m: string, m': string)
    requires NUL !in p
    ensures (exists t, t' :: Key(p, m, t) == Key(p, m', t')) <==> m == m' || Extends(m, m') || Extends(m', m)
  {
    if exists t, t' :: Key(p, m, t) == Key(p, m', t') {
      var t, t' :| Key(p, m, t) == Key(p, m', t');
      KeyParts(p, m, t, p, m', t');
      var s := m + [NUL] + t;
      assert s[..|m|] == m && s[|m|] == NUL;
      assert s[..|m'|] == m' && s[|m'|] == NUL by {
        assert s == m' + [NUL] + t';
      }
    }
    if m == m' {
      assert Key(p, m, "") == Key(p, m', "");
    } else if Extends(m, m') {
      CollidingTexts(p, m, m', "");
    } else if Extends(m', m) {
      CollidingTexts(p, m', m, "");
    }
  }

  lemma CollidingTexts(p: string, m: string, m': string, t: string)
    requires Extends(m, m')
    ensures Key(p, m', t) == Key(p, m, m'[|m| + 1..] + [NUL] + t)
  {
    var x := m'[|m| + 1..];
    assert m' == m + [NUL] + x;
    assert p + [NUL] + m' + [NUL] + t == p + [NUL] + m + [NUL] + (x + [NUL] + t);
  }
}
