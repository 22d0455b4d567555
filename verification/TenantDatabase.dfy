/** Database names derived from tenant names, by the platform and by its SDK, and how they relate to
    the Redis namespaces of the same tenants. */
module TenantDatabase {
  import opened Wrappers
  import opened Text
  import opened RedisNamespace

  const MAX_NAME: nat := 63

  predicate IsTenantChar(c: char) {
    IsAlphanumeric(c) || c == '-'
  }

  /** ^[a-z][a-z0-9-]{0,61}[a-z0-9]$ */
  predicate ValidTenant(t: string) {
    && 2 <= |t| <= 63
    && 'a' <= t[0] <= 'z' && IsAlphanumeric(t[|t| - 1])
    && forall i | 0 <= i < |t| :: IsTenantChar(t[i])
  }

  function Underscored(s: string): string {
    Substitute(s, '-', '_')
  }

  function Hyphened(s: string): string {
    Substitute(s, '_', '-')
  }

  function DatabaseName(tenant: string): Result<string, NameError> {
    if !ValidTenant(tenant) then Err(InvalidTenant)
    else if |Underscored(tenant)| > MAX_NAME then Err(TooLong)
    else Ok(Underscored(tenant))
  }

  // --- The SDK's settings --------------------------------------------

  datatype Backing = Local | Managed

  class PostgresSettings {
    const tenant: string
    const provider: Backing
    var database: Option<string>
    var sslmode: Option<string>

    constructor (tenant: string, provider: Backing, database: Option<string>, sslmode: Option<string>)
      ensures this.tenant == tenant && this.provider == provider
      ensures this.database == Some(if database.Some? then database.value else SdkDatabase(tenant))
      ensures this.sslmode == if provider == Managed && sslmode == None then Some("require") else sslmode
    {
      this.tenant, this.provider, this.database, this.sslmode := tenant, provider, database, sslmode;
      new;
      ResolveDatabase();
      ManagedRequiresSsl();
    }

    method ResolveDatabase()
      modifies this`database
      ensures database == if old(database) == None then Some(SdkDatabase(tenant)) else old(database)
    {
      if database == None {
        database := Some(Underscored(Lower(tenant)));
      }
    }

    method ManagedRequiresSsl()
      modifies this`sslmode
      ensures sslmode == if provider == Managed && old(sslmode) == None then Some("require") else old(sslmode)
    {
      if provider == Managed && sslmode == None {
        sslmode := Some("require");
      }
    }
  }

  function SdkDatabase(tenant: string): string {
    Underscored(Lower(tenant))
  }

  // --- Database names ------------------------------------------------

  lemma ValidIsLower(t: string)
    requires ValidTenant(t)
    ensures Lower(t) == t && Hyphened(Underscored(t)) == t
  {
  }

  /** A PostgreSQL identifier as the platform wants it. */
  ghost predicate IsDatabaseName(s: string) {
    && 2 <= |s| <= 63 && 'a' <= s[0] <= 'z' && s[|s| - 1] != '_'
    && forall i | 0 <= i < |s| :: 'a' <= s[i] <= 'z' || '0' <= s[i] <= '9' || s[i] == '_'
  }

  /** Valid tenants are the only ones with a database, and the names are exactly the identifiers
      of that shape; the length check never fails. */
  lemma DatabaseNamesAre(name: string)
    ensures IsDatabaseName(name) <==> exists t :: DatabaseName(t) == Ok(name)
    ensures DatabaseName(name) != Err(TooLong)
  {
    if IsDatabaseName(name) {
      var t := Hyphened(name);
      assert Underscored(t) == name;
      assert DatabaseName(t) == Ok(name);
    }
  }

  /** A database belongs to one tenant, which its name gives back. */
  lemma DatabaseNameInjective(t: string, t': string)
    requires DatabaseName(t).Ok? && DatabaseName(t').Ok?
    ensures Hyphened(DatabaseName(t).value) == t
    ensures DatabaseName(t) == DatabaseName(t') <==> t == t'
  {
    ValidIsLower(t);
    ValidIsLower(t');
  }

  /** The SDK connects where the platform provisioned, exactly for the tenants the platform accepts. */
  lemma SdkAgreesIff(tenant: string)
    ensures DatabaseName(tenant) == Ok(SdkDatabase(tenant)) <==> ValidTenant(tenant)
  {
    if ValidTenant(tenant) {
      ValidIsLower(tenant);
    }
  }

  /** The SDK does not check the tenant: the names that lead it into a tenant's database are those
      that differ from it by case and by underscores for hyphens. */
  lemma SdkReaches(other: string, t: string)
    requires ValidTenant(t)
    ensures DatabaseName(t) == Ok(SdkDatabase(other)) <==> Hyphened(Lower(other)) == t
  {
    ValidIsLower(t);
    var low := Lower(other);
    if Hyphened(low) == t {
      assert Underscored(low) == Underscored(t) by {
        forall i | 0 <= i < |t|
          ensures Underscored(low)[i] == Underscored(t)[i]
        {
          assert t[i] == Hyphened(low)[i];
        }
      }
    }
    if Underscored(low) == Underscored(t) {
      assert forall i | 0 <= i < |t| :: Underscored(low)[i] == Underscored(t)[i];
      assert Hyphened(low) == t;
    }
  }

  // --- Namespaces of valid tenants -----------------------------------

  function SkipHyphens(s: string): (r: string)
    ensures |r| <= |s|
  {
    if s != "" && s[0] == '-' then SkipHyphens(s[1..]) else s
  }

  /** Runs of hyphens reduced to one. */
  function Squeeze(s: string): string
    decreases |s|
  {
    if s == "" then ""
    else if s[0] == '-' then "-" + Squeeze(SkipHyphens(s[1..]))
    else [s[0]] + Squeeze(s[1..])
  }

  ghost predicate AdjacentHyphens(s: string) {
    exists i | 0 < i < |s| :: s[i - 1] == '-' && s[i] == '-'
  }

  ghost predicate TenantChars(s: string) {
    forall i | 0 <= i < |s| :: IsTenantChar(s[i])
  }

  lemma {:induction false} SkipJunkIsSkipHyphens(s: string)
    requires TenantChars(s)
    ensures SkipJunk(s) == SkipHyphens(s) && TenantChars(SkipHyphens(s))
  {
    if s != "" && s[0] == '-' {
      SkipJunkIsSkipHyphens(s[1..]);
    }
  }

  lemma {:induction false} SanitizeIsSqueeze(s: string)
    requires TenantChars(s)
    ensures Sanitize(s) == Underscored(Squeeze(s)) && TenantChars(Squeeze(s))
    decreases |s|
  {
    if s != "" {
      if s[0] == '-' {
        SkipJunkIsSkipHyphens(s[1..]);
        SanitizeIsSqueeze(SkipHyphens(s[1..]));
      } else {
        SanitizeIsSqueeze(s[1..]);
      }
    }
  }

  lemma {:induction false} SqueezeShrinks(s: string)
    ensures |Squeeze(s)| <= |s| && (|Squeeze(s)| == |s| ==> Squeeze(s) == s)
    ensures Squeeze(s) == s <==> !AdjacentHyphens(s)
    decreases |s|
  {
    if s != "" {
      var rest := if s[0] == '-' then SkipHyphens(s[1..]) else s[1..];
      SqueezeShrinks(rest);
      assert s == [s[0]] + s[1..];
      AdjacentTail(s);
      if rest != s[1..] {
        assert s[1] == '-' && AdjacentHyphens(s);
        assert |rest| < |s[1..]|;
      }
    }
  }

  lemma AdjacentTail(s: string)
    requires s != ""
    ensures AdjacentHyphens(s) <==> AdjacentHyphens(s[1..]) || (|s| >= 2 && s[0] == s[1] == '-')
  {
    if AdjacentHyphens(s) {
      var i :| 0 < i < |s| && s[i - 1] == '-' && s[i] == '-';
      if i > 1 {
        assert s[1..][i - 2] == '-' && s[1..][i - 1] == '-';
      }
    }
    if AdjacentHyphens(s[1..]) {
      var i :| 0 < i < |s[1..]| && s[1..][i - 1] == '-' && s[1..][i] == '-';
      assert s[i] == '-' && s[i + 1] == '-';
    }
  }

  lemma {:induction false} SqueezeEnds(s: string)
    requires s != ""
    ensures Squeeze(s) != "" && Squeeze(s)[0] == s[0] && Squeeze(s)[|Squeeze(s)| - 1] == s[|s| - 1]
    decreases |s|
  {
    if s[0] == '-' {
      SkipHyphensEnd(s[1..]);
      if SkipHyphens(s[1..]) != "" {
        SqueezeEnds(SkipHyphens(s[1..]));
      }
    } else if |s| > 1 {
      SqueezeEnds(s[1..]);
    }
  }

  lemma {:induction false} SkipHyphensEnd(s: string)
    ensures var r := SkipHyphens(s);
            if r == "" then forall i | 0 <= i < |s| :: s[i] == '-' else r[|r| - 1] == s[|s| - 1]
  {
    if s != "" && s[0] == '-' {
      SkipHyphensEnd(s[1..]);
    }
  }

  /** The namespace of a valid tenant is its name with every run of hyphens made one underscore. */
  lemma NamespaceOfTenant(t: string)
    requires ValidTenant(t)
    ensures DeriveNamespace(t) == Ok(Underscored(Squeeze(t)))
  {
    ValidIsLower(t);
    SanitizeIsSqueeze(t);
    SqueezeEnds(t);
    var s := Underscored(Squeeze(t));
    hide Sanitize, Squeeze;
    StripNothing(t, IsSpace);
    StripNothing(s, IsUnderscore);
  }

  /** Database and namespace of a tenant coincide exactly when it has no two adjacent hyphens. */
  lemma NamespaceIsDatabaseIff(t: string)
    requires ValidTenant(t)
    ensures DeriveNamespace(t) == DatabaseName(t) <==> !AdjacentHyphens(t)
  {
    NamespaceOfTenant(t);
    SqueezeShrinks(t);
    SanitizeIsSqueeze(t);
    hide DeriveNamespace, Squeeze;
    UnderscoredInjective(t, Squeeze(t));
  }

  lemma UnderscoredInjective(s: string, s': string)
    requires TenantChars(s) && TenantChars(s')
    ensures Underscored(s) == Underscored(s') <==> s == s'
  {
    if Underscored(s) == Underscored(s') {
      forall i | 0 <= i < |s|
        ensures s[i] == s'[i]
      {
        assert Underscored(s)[i] == Underscored(s')[i];
      }
    }
  }

  // --- Tenants that share a namespace --------------------------------

  function NonEmpty(parts: seq<string>): seq<string> {
    if parts == [] then []
    else if parts[0] == "" then NonEmpty(parts[1..])
    else [parts[0]] + NonEmpty(parts[1..])
  }

  /** The words of a name: what stands between its hyphens, without the empty ones. */
  function Words(s: string): seq<string> {
    NonEmpty(Split(s, '-'))
  }

  lemma {:induction false} NonEmptyKeeps(parts: seq<string>)
    ensures forall p | p in NonEmpty(parts) :: p in parts && p != ""
  {
    if parts != [] {
      NonEmptyKeeps(parts[1..]);
      assert forall p | p in parts[1..] :: p in parts;
    }
  }

  /** A hyphen in front adds no word; another character extends the first word or makes one. */
  lemma WordsCons(s: string)
    requires s != ""
    ensures s[0] == '-' ==> Words(s) == Words(s[1..])
    ensures s[0] != '-' && (|s| == 1 || s[1] == '-') ==> Words(s) == [[s[0]]] + Words(s[1..])
    ensures s[0] != '-' && |s| > 1 && s[1] != '-' ==>
              var rest := Words(s[1..]); rest != [] && Words(s) == [[s[0]] + rest[0]] + rest[1..]
  {
    var rest := Split(s[1..], '-');
    FirstPart(s[1..]);
    if s[0] == '-' {
      assert ([""] + rest)[1..] == rest;
    } else {
      var parts := [[s[0]] + rest[0]] + rest[1..];
      assert Split(s, '-') == parts && parts[1..] == rest[1..] && parts[0] != "";
      assert Words(s) == [parts[0]] + NonEmpty(rest[1..]);
      assert rest[0] == "" ==> Words(s[1..]) == NonEmpty(rest[1..]) && parts[0] == [s[0]];
      assert rest[0] != "" ==> Words(s[1..]) == [rest[0]] + NonEmpty(rest[1..]);
    }
  }

  lemma FirstPart(s: string)
    ensures Split(s, '-')[0] == "" <==> s == "" || s[0] == '-'
  {
  }

  lemma {:induction false} WordsSkip(s: string)
    ensures Words(SkipHyphens(s)) == Words(s)
  {
    if s != "" && s[0] == '-' {
      WordsCons(s);
      WordsSkip(s[1..]);
    }
  }

  lemma {:induction false} HasWord(s: string)
    requires s != "" && s[|s| - 1] != '-'
    ensures Words(s) != []
  {
    WordsCons(s);
    if s[0] == '-' {
      HasWord(s[1..]);
    }
  }

  function LeadingHyphen(s: string): string {
    if s != "" && s[0] == '-' then "-" else ""
  }

  lemma JoinCons(w: string, words: seq<string>)
    ensures Join([w] + words, '-') == if words == [] then w else w + "-" + Join(words, '-')
  {
    assert ([w] + words)[1..] == words;
  }

  lemma ConcatAssociates(a: string, b: string, c: string, d: string)
    ensures (a + b) + c + d == a + (b + c + d)
  {
  }

  lemma JoinExtend(w: string, words: seq<string>)
    requires words != []
    ensures Join([w + words[0]] + words[1..], '-') == w + Join(words, '-')
  {
    hide Join;
    var first, tail := words[0], words[1..];
    assert [first] + tail == words;
    JoinCons(first, tail);
    JoinCons(w + first, tail);
    ConcatAssociates(w, first, "-", Join(tail, '-'));
  }

  /** Squeezing a name that does not end in a hyphen joins its words again, after a hyphen if it starts
      with one. */
  lemma {:induction false} SqueezeJoinsWords(s: string)
    requires s != "" ==> s[|s| - 1] != '-'
    ensures Squeeze(s) == LeadingHyphen(s) + Join(Words(s), '-')
    decreases |s|
  {
    hide Words, Join;
    if s == "" {
      NoWords();
      NothingJoined();
    } else if s[0] == '-' {
      WordsCons(s);
      SkipHyphensEnd(s[1..]);
      SkipHyphensStart(s[1..]);
      WordsSkip(s[1..]);
      SqueezeJoinsWords(SkipHyphens(s[1..]));
    } else {
      SqueezeJoinsWords(s[1..]);
      SqueezeConsWord(s);
    }
  }

  lemma NothingJoined()
    ensures Join([], '-') == ""
  {
  }

  lemma PrependWord(c: char, words: seq<string>)
    requires words != []
    ensures [c] + ("-" + Join(words, '-')) == Join([[c]] + words, '-')
  {
    JoinCons([c], words);
    hide Join;
    var rest := Join(words, '-');
    assert [c] + ("-" + rest) == [c] + "-" + rest;
  }

  lemma SqueezeConsWord(s: string)
    requires s != "" && s[0] != '-' && s[|s| - 1] != '-'
    requires Squeeze(s[1..]) == LeadingHyphen(s[1..]) + Join(Words(s[1..]), '-')
    ensures Squeeze(s) == Join(Words(s), '-')
  {
    hide Words, Join;
    WordsCons(s);
    if |s| == 1 {
      NoWords();
      NothingJoined();
      assert s[1..] == "" && [[s[0]]] + [] == [[s[0]]];
      JoinCons([s[0]], []);
    } else {
      HasWord(s[1..]);
      if s[1] == '-' {
        PrependWord(s[0], Words(s[1..]));
      } else {
        assert Squeeze(s[1..]) == Join(Words(s[1..]), '-');
        JoinExtend([s[0]], Words(s[1..]));
      }
    }
  }

  lemma SkipHyphensStart(s: string)
    ensures SkipHyphens(s) != "" ==> SkipHyphens(s)[0] != '-'
  {
  }

  lemma NoWords()
    ensures Words("") == []
  {
    assert Split("", '-') == [""];
  }

  lemma SqueezeOfTenant(t: string)
    requires ValidTenant(t)
    ensures Words(t) != [] && Squeeze(t) == Join(Words(t), '-')
    ensures forall w | w in Words(t) :: '-' !in w
  {
    SqueezeJoinsWords(t);
    HasWord(t);
    NonEmptyKeeps(Split(t, '-'));
  }

  /** Two valid tenants share their Redis namespace exactly when they have the same words in the same
      order, so that only the numbers of hyphens between the words can differ. */
  lemma NamespacesCollideIff(t: string, t': string)
    requires ValidTenant(t) && ValidTenant(t')
    ensures DeriveNamespace(t) == DeriveNamespace(t') <==> Words(t) == Words(t')
  {
    NamespaceOfTenant(t);
    NamespaceOfTenant(t');
    SanitizeIsSqueeze(t);
    SanitizeIsSqueeze(t');
    SqueezeOfTenant(t);
    SqueezeOfTenant(t');
    hide DeriveNamespace, Squeeze, Words;
    UnderscoredInjective(Squeeze(t), Squeeze(t'));
    SplitJoin(Words(t), '-');
    SplitJoin(Words(t'), '-');
  }

  ghost predicate OwnsNamespace(t: string) {
    forall u | ValidTenant(u) && DeriveNamespace(u) == DeriveNamespace(t) :: u == t
  }

  /** A valid tenant has its namespace to itself exactly when it has no hyphen, or is as long as a tenant
      can be and has no two adjacent hyphens. */
  lemma OwnsNamespaceIff(t: string)
    requires ValidTenant(t)
    ensures OwnsNamespace(t) <==> '-' !in t || (|t| == 63 && !AdjacentHyphens(t))
  {
    if '-' !in t || (|t| == 63 && !AdjacentHyphens(t)) {
      forall u | ValidTenant(u) && DeriveNamespace(u) == DeriveNamespace(t)
        ensures u == t
      {
        SameNamespaceSameTenant(t, u);
      }
    } else if AdjacentHyphens(t) {
      SqueezedIsAnother(t);
    } else {
      DoubledIsAnother(t);
    }
  }

  lemma SameNamespaceSameTenant(t: string, u: string)
    requires ValidTenant(t) && ValidTenant(u) && DeriveNamespace(u) == DeriveNamespace(t)
    requires '-' !in t || (|t| == 63 && !AdjacentHyphens(t))
    ensures u == t
  {
    NamespacesCollideIff(t, u);
    SqueezeOfTenant(t);
    SqueezeOfTenant(u);
    SqueezeShrinks(t);
    SqueezeShrinks(u);
    hide DeriveNamespace, Words;
    if '-' !in t {
      NoAdjacent(t);
      SqueezeKeepsHyphens(u);
      NoAdjacent(u);
    }
  }

  lemma NoAdjacent(s: string)
    requires '-' !in s
    ensures !AdjacentHyphens(s)
  {
    assert forall i | 0 <= i < |s| :: s[i] in s;
  }

  lemma {:induction false} SqueezeKeepsHyphens(s: string)
    ensures '-' in s <==> '-' in Squeeze(s)
    decreases |s|
  {
    if s != "" && s[0] != '-' {
      SqueezeKeepsHyphens(s[1..]);
      assert '-' in s <==> '-' in s[1..];
    }
  }

  lemma SqueezedIsAnother(t: string)
    requires ValidTenant(t) && AdjacentHyphens(t)
    ensures !OwnsNamespace(t)
  {
    var u := Squeeze(t);
    SqueezeShrinks(t);
    SqueezeEnds(t);
    SanitizeIsSqueeze(t);
    SqueezeKeepsLength(t);
    assert ValidTenant(u);
    SqueezeOfTenant(t);
    SqueezeOfTenant(u);
    SqueezedOnce(t);
    hide Words, Squeeze;
    SplitJoin(Words(t), '-');
    SplitJoin(Words(u), '-');
    NamespacesCollideIff(t, u);
  }

  lemma SqueezeKeepsLength(t: string)
    requires ValidTenant(t) && AdjacentHyphens(t)
    ensures |Squeeze(t)| >= 2
  {
    SqueezeEnds(t);
    var u := Squeeze(t);
    SqueezeKeepsHyphens(t);
    var i :| 0 < i < |t| && t[i - 1] == '-' && t[i] == '-';
    assert t[i] in t;
    var j :| 0 <= j < |u| && u[j] == '-';
    assert j != 0;
  }

  lemma {:induction false} SqueezedOnce(s: string)
    ensures Squeeze(Squeeze(s)) == Squeeze(s)
    decreases |s|
  {
    if s != "" {
      var rest := if s[0] == '-' then SkipHyphens(s[1..]) else s[1..];
      SqueezedOnce(rest);
      SkipHyphensStart(s[1..]);
      assert Squeeze(s) == [s[0]] + Squeeze(rest);
      assert Squeeze(s)[1..] == Squeeze(rest);
      if s[0] == '-' && rest != "" {
        SqueezeStart(rest);
        assert SkipHyphens(Squeeze(rest)) == Squeeze(rest);
      }
    }
  }

  lemma SqueezeStart(s: string)
    requires s != ""
    ensures Squeeze(s) != "" && Squeeze(s)[0] == s[0]
  {
  }

  /** With a hyphen to spare, another tenant has it twice. */
  lemma DoubledIsAnother(t: string)
    requires ValidTenant(t) && '-' in t && |t| < 63
    ensures !OwnsNamespace(t)
  {
    var i :| 0 <= i < |t| && t[i] == '-';
    var u := t[..i] + "-" + t[i..];
    assert ValidTenant(u) && u != t by {
      assert |u| == |t| + 1 && u[0] == t[0] && u[|u| - 1] == t[|t| - 1];
      forall k | 0 <= k < |u|
        ensures IsTenantChar(u[k])
      {
        assert u[k] == if k <= i then (if k < i then t[k] else '-') else t[k - 1];
      }
    }
    WordsOfDoubled(t[..i], t[i..]);
    assert t[..i] + t[i..] == t;
    hide Words;
    NamespacesCollideIff(t, u);
  }

  lemma {:induction false} WordsOfDoubled(a: string, b: string)
    requires b != "" && b[0] == '-'
    ensures Words(a + "-" + b) == Words(a + b)
  {
    var x, y := a + "-" + b, a + b;
    if a == "" {
      assert x[1..] == b && y == b;
      WordsCons(x);
    } else {
      assert x[1..] == a[1..] + "-" + b && y[1..] == a[1..] + b;
      WordsOfDoubled(a[1..], b);
      WordsCons(x);
      WordsCons(y);
      assert |a| > 1 ==> x[1] == a[1] && y[1] == a[1];
      assert |a| == 1 ==> x[1] == '-' && y[1] == '-';
    }
  }

  /** Tenants with no two adjacent hyphens have namespaces of their own. */
  lemma PlainTenantsIsolated(t: string, t': string)
    requires ValidTenant(t) && ValidTenant(t') && !AdjacentHyphens(t) && !AdjacentHyphens(t')
    ensures DeriveNamespace(t) == DeriveNamespace(t') <==> t == t'
  {
    NamespacesCollideIff(t, t');
    SqueezeOfTenant(t);
    SqueezeOfTenant(t');
    SqueezeShrinks(t);
    SqueezeShrinks(t');
  }

  /** Two valid tenants, two databases, one Redis namespace. */
  lemma OneNamespaceTwoDatabases()
    ensures ValidTenant("a-b") && ValidTenant("a--b")
    ensures DatabaseName("a-b") != DatabaseName("a--b") && DeriveNamespace("a-b") == DeriveNamespace("a--b")
  {
    NamespacesCollideIff("a-b", "a--b");
    DatabaseNameInjective("a-b", "a--b");
    WordsOfDoubled("a", "-b");
    assert "a" + "-" + "-b" == "a--b" && "a" + "-b" == "a-b";
  }
}
