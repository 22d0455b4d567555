/** Redis namespaces derived from tenant names, and the keys inside them. */
module RedisNamespace {
  import opened Wrappers
  import opened Text

  datatype NameError = EmptyNamespace | InvalidTenant | TooLong

  predicate IsAlphanumeric(c: char) {
    'a' <= c <= 'z' || '0' <= c <= '9'
  }

  predicate IsAllowed(c: char) {
    IsAlphanumeric(c) || c == '_'
  }

  predicate IsUnderscore(c: char) {
    c == '_'
  }

  function SkipJunk(s: string): (r: string)
    ensures |r| <= |s|
    ensures r != "" ==> IsAllowed(r[0])
  {
    if s != "" && !IsAllowed(s[0]) then SkipJunk(s[1..]) else s
  }

  /** Every run of characters outside [a-z0-9_] becomes one underscore. */
  function Sanitize(s: string): string
    decreases |s|
  {
    if s == "" then ""
    else if IsAllowed(s[0]) then [s[0]] + Sanitize(s[1..])
    else "_" + Sanitize(SkipJunk(s[1..]))
  }

  function DeriveNamespace(tenant: string): Result<string, NameError> {
    var norm := Strip(Sanitize(Lower(Strip(tenant, IsSpace))), IsUnderscore);
    if norm == "" then Err(EmptyNamespace) else Ok(norm)
  }

  function DeriveUsername(tenant: string): Result<string, NameError> {
    match DeriveNamespace(tenant)
    case Err(e) => Err(e)
    case Ok(ns) => Ok("app_" + ns)
  }

  // --- Which names are namespaces ------------------------------------

  ghost predicate IsNamespace(s: string) {
    && s != "" && s[0] != '_' && s[|s| - 1] != '_'
    && forall i | 0 <= i < |s| :: 'a' <= s[i] <= 'z' || '0' <= s[i] <= '9' || s[i] == '_'
  }

  lemma {:induction false} SanitizeAllowed(s: string)
    ensures forall i | 0 <= i < |Sanitize(s)| :: IsAllowed(Sanitize(s)[i])
    decreases |s|
  {
    if s != "" {
      if IsAllowed(s[0]) {
        SanitizeAllowed(s[1..]);
      } else {
        SanitizeAllowed(SkipJunk(s[1..]));
      }
    }
  }

  lemma {:induction false} SanitizeNothing(s: string)
    requires forall i | 0 <= i < |s| :: IsAllowed(s[i])
    ensures Sanitize(s) == s
  {
    if s != "" {
      SanitizeNothing(s[1..]);
    }
  }

  /** A derived namespace is nonempty, over [a-z0-9_], with no underscore at either end. */
  lemma DerivedIsNamespace(tenant: string)
    requires DeriveNamespace(tenant).Ok?
    ensures IsNamespace(DeriveNamespace(tenant).value)
  {
    var clean := Sanitize(Lower(Strip(tenant, IsSpace)));
    SanitizeAllowed(Lower(Strip(tenant, IsSpace)));
    StripKeeps(clean, IsUnderscore);
    var norm := Strip(clean, IsUnderscore);
    forall i | 0 <= i < |norm|
      ensures IsAllowed(norm[i])
    {
      assert norm[i] in norm && norm[i] in clean;
    }
  }

  /** The namespaces are exactly the names that derive themselves; so derivation is idempotent. */
  lemma NamespaceIffFixed(s: string)
    ensures IsNamespace(s) <==> DeriveNamespace(s) == Ok(s)
    ensures DeriveNamespace(s).Ok? ==> DeriveNamespace(DeriveNamespace(s).value) == DeriveNamespace(s)
  {
    if IsNamespace(s) {
      NamespaceDerivesItself(s);
    }
    if DeriveNamespace(s).Ok? {
      DerivedIsNamespace(s);
      hide DeriveNamespace;
      NamespaceDerivesItself(DeriveNamespace(s).value);
    }
  }

  lemma NamespaceDerivesItself(s: string)
    requires IsNamespace(s)
    ensures DeriveNamespace(s) == Ok(s)
  {
    assert forall i | 0 <= i < |s| :: IsAllowed(s[i]);
    StripNothing(s, IsSpace);
    assert Lower(s) == s;
    SanitizeNothing(s);
    StripNothing(s, IsUnderscore);
  }

  // --- Which tenants have one ----------------------------------------

  predicate IsLetterOrDigit(c: char) {
    'a' <= c <= 'z' || '0' <= c <= '9' || 'A' <= c <= 'Z'
  }

  lemma {:induction false} SkipJunkKeeps(s: string, c: char)
    requires IsAllowed(c)
    ensures c in SkipJunk(s) <==> c in s
  {
    if s != "" && !IsAllowed(s[0]) {
      SkipJunkKeeps(s[1..], c);
      assert c in s <==> c == s[0] || c in s[1..];
    }
  }

  lemma {:induction false} SanitizeKeeps(s: string, c: char)
    requires IsAlphanumeric(c)
    ensures c in Sanitize(s) <==> c in s
    decreases |s|
  {
    if s != "" {
      assert c in s <==> c == s[0] || c in s[1..];
      if IsAllowed(s[0]) {
        SanitizeKeeps(s[1..], c);
      } else {
        SkipJunkKeeps(s[1..], c);
        SanitizeKeeps(SkipJunk(s[1..]), c);
      }
    }
  }

  /** A tenant has a namespace exactly when its name has a letter or a digit. */
  lemma NamespaceExistsIff(tenant: string)
    ensures DeriveNamespace(tenant).Ok? <==> exists c :: c in tenant && IsLetterOrDigit(c)
  {
    var bare := Strip(tenant, IsSpace);
    var clean := Sanitize(Lower(bare));
    StripKeeps(tenant, IsSpace);
    StripKeeps(clean, IsUnderscore);
    SanitizeAllowed(Lower(bare));
    hide Strip, Sanitize;
    if c :| c in tenant && IsLetterOrDigit(c) {
      assert c in bare;
      LowerHas(bare, c);
      SanitizeKeeps(Lower(bare), LowerChar(c));
    }
    if Strip(clean, IsUnderscore) != "" {
      var d := Strip(clean, IsUnderscore)[0];
      assert d in Strip(clean, IsUnderscore);
      SanitizeKeeps(Lower(bare), d);
      LowerFrom(bare, d);
    }
  }

  lemma LowerHas(s: string, c: char)
    requires c in s
    ensures LowerChar(c) in Lower(s)
  {
    var i :| 0 <= i < |s| && s[i] == c;
    assert Lower(s)[i] == LowerChar(c);
  }

  lemma LowerFrom(s: string, d: char)
    requires d in Lower(s) && IsAlphanumeric(d)
    ensures exists c :: c in s && IsLetterOrDigit(c)
  {
    var i :| 0 <= i < |s| && Lower(s)[i] == d;
    assert s[i] in s && IsLetterOrDigit(s[i]);
  }

  // --- Keys ----------------------------------------------------------

  class RedisNamespace {
    const namespace: string

    constructor (namespace: string)
      ensures this.namespace == namespace
    {
      this.namespace := namespace;
    }

    function Key(name: string): string {
      KeyIn(namespace, name)
    }
  }

  function KeyIn(namespace: string, name: string): string {
    namespace + ":" + name
  }

  /** The ACL pattern `~<namespace>:*`. */
  predicate MatchesAcl(namespace: string, key: string) {
    StartsWith(key, namespace + ":")
  }

  /** A namespace's ACL admits exactly the keys its prefixing makes. */
  lemma AclAdmitsItsKeys(namespace: string, key: string)
    ensures MatchesAcl(namespace, key) <==> exists name :: key == KeyIn(namespace, name)
  {
    if MatchesAcl(namespace, key) {
      assert key == KeyIn(namespace, key[|namespace| + 1..]);
    }
  }

  /** No key is admitted by two namespaces without colons, so keys determine namespace and name. */
  lemma NamespacesDisjoint(ns: string, ns': string, key: string)
    requires ':' !in ns && ':' !in ns' && MatchesAcl(ns, key) && MatchesAcl(ns', key)
    ensures ns == ns'
  {
    FirstSeparator(ns, ns', key[|ns| + 1..], key[|ns'| + 1..], ':');
  }

  /** Tenants that derive different namespaces have different users and share no key. */
  lemma DerivedNamespacesIsolate(t: string, t': string, name: string, name': string)
    requires DeriveNamespace(t).Ok? && DeriveNamespace(t').Ok?
    ensures var (ns, ns') := (DeriveNamespace(t).value, DeriveNamespace(t').value);
            && (KeyIn(ns, name) == KeyIn(ns', name') <==> ns == ns' && name == name')
            && (MatchesAcl(ns, KeyIn(ns', name')) <==> ns == ns')
            && DeriveUsername(t) == Ok("app_" + ns)
            && (DeriveUsername(t) == DeriveUsername(t') <==> ns == ns')
  {
    DerivedIsNamespace(t);
    DerivedIsNamespace(t');
    var ns, ns' := DeriveNamespace(t).value, DeriveNamespace(t').value;
    assert ("app_" + ns)[4..] == ns && ("app_" + ns')[4..] == ns';
    hide DeriveNamespace;
    NoColon(ns);
    NoColon(ns');
    assert KeyIn(ns, name)[|ns| + 1..] == name && KeyIn(ns', name')[|ns'| + 1..] == name';
    AclAdmitsItsKeys(ns, KeyIn(ns, name));
    AclAdmitsItsKeys(ns', KeyIn(ns', name'));
    if MatchesAcl(ns, KeyIn(ns', name')) {
      NamespacesDisjoint(ns, ns', KeyIn(ns', name'));
    }
  }

  lemma NoColon(ns: string)
    requires IsNamespace(ns)
    ensures ':' !in ns
  {
    forall c | c in ns
      ensures c != ':'
    {
      var i :| 0 <= i < |ns| && ns[i] == c;
      assert IsAllowed(ns[i]);
    }
  }
}
