/** Tenant names, namespaces and databases in written-out characters: letter case does not matter, and the
    documented examples. */
module NamesWritten {
  import opened Wrappers
  import opened Text
  import opened RedisNamespace
  import opened TenantDatabase
  import RateSpec

  /** The tenant pattern, character by character: two to 63 long, a letter first, a letter or digit last,
      letters, digits and hyphens between, letters in lower case. */
  lemma TenantsWritten(t: string)
    ensures ValidTenant(t) <==>
              && 2 <= |t| <= 63 && 'a' <= t[0] <= 'z' && ('a' <= t[|t| - 1] <= 'z' || '0' <= t[|t| - 1] <= '9')
              && forall i | 0 <= i < |t| :: 'a' <= t[i] <= 'z' || '0' <= t[i] <= '9' || t[i] == '-'
  {
  }

  // --- Letter case ---------------------------------------------------

  /** `s'` is `s` with some of its letters capitalised. */
  ghost predicate Capitalised(s: string, s': string) {
    && |s'| == |s|
    && forall i | 0 <= i < |s| :: s'[i] == s[i] || ('a' <= s[i] <= 'z' && s'[i] as int == s[i] as int - 32)
  }

  lemma SameLower(s: string, s': string)
    requires Capitalised(s, s')
    ensures Lower(s) == Lower(s')
  {
    assert 'a' as int == 'A' as int + 32;
    forall i | 0 <= i < |s|
      ensures LowerChar(s[i]) == LowerChar(s'[i])
    {
    }
  }

  lemma SpaceHasNoCase(c: char)
    ensures IsSpace(LowerChar(c)) <==> IsSpace(c)
  {
  }

  lemma LowerTail(s: string)
    requires s != ""
    ensures Lower(s)[1..] == Lower(s[1..]) && Lower(s)[..|s| - 1] == Lower(s[..|s| - 1])
    ensures Lower(s)[0] == LowerChar(s[0]) && Lower(s)[|s| - 1] == LowerChar(s[|s| - 1])
  {
  }

  lemma {:induction false} StripLeftLower(s: string)
    ensures Lower(StripLeft(s, IsSpace)) == StripLeft(Lower(s), IsSpace)
  {
    hide IsSpace;
    if s != "" {
      LowerTail(s);
      SpaceHasNoCase(s[0]);
      if IsSpace(s[0]) {
        StripLeftLower(s[1..]);
      }
    }
  }

  lemma {:induction false} StripRightLower(s: string)
    ensures Lower(StripRight(s, IsSpace)) == StripRight(Lower(s), IsSpace)
  {
    hide IsSpace;
    if s != "" {
      LowerTail(s);
      SpaceHasNoCase(s[|s| - 1]);
      if IsSpace(s[|s| - 1]) {
        StripRightLower(s[..|s| - 1]);
      }
    }
  }

  lemma StripLower(s: string)
    ensures Lower(Strip(s, IsSpace)) == Strip(Lower(s), IsSpace)
  {
    StripLeftLower(s);
    StripRightLower(StripLeft(s, IsSpace));
  }

  /** A name and the same name with letters capitalised have the same namespace, user and SDK database. */
  lemma CaseDoesNotMatter(tenant: string, tenant': string)
    requires Capitalised(tenant, tenant')
    ensures DeriveNamespace(tenant) == DeriveNamespace(tenant')
    ensures DeriveUsername(tenant) == DeriveUsername(tenant')
    ensures SdkDatabase(tenant) == SdkDatabase(tenant')
  {
    hide Lower, Strip, IsSpace, Sanitize;
    SameLower(tenant, tenant');
    StripLower(tenant);
    StripLower(tenant');
  }

  /** Neither does the case of a unit. */
  lemma UnitCaseDoesNotMatter(count: string, unit: string, unit': string)
    requires '/' !in count && Capitalised(unit, unit')
    ensures RateSpec.ParseLimit(count + "/" + unit) == RateSpec.ParseLimit(count + "/" + unit')
  {
    RateSpec.PartitionAt(count, unit);
    RateSpec.PartitionAt(count, unit');
    hide Lower, Strip, IsSpace, RateSpec.Partition, RateSpec.ParseInt, RateSpec.WindowSeconds;
    SameLower(unit, unit');
    StripLower(unit);
    StripLower(unit');
  }

  // --- The documented examples ---------------------------------------

  /** A plain tenant's namespace and database, hyphen for underscore. */
  lemma PlainNames(t: string, name: string)
    requires ValidTenant(t) && !AdjacentHyphens(t) && |name| == |t|
    requires forall i | 0 <= i < |t| :: name[i] == if t[i] == '-' then '_' else t[i]
    ensures DeriveNamespace(t) == Ok(name) && DatabaseName(t) == Ok(name) && SdkDatabase(t) == name
    ensures DeriveUsername(t) == Ok("app_" + name)
  {
    NamespaceIsDatabaseIff(t);
    ValidIsLower(t);
    assert Underscored(t) == name;
    hide DeriveNamespace;
  }

  lemma MyTenant()
    ensures DeriveNamespace("my-tenant") == Ok("my_tenant") && DeriveUsername("my-tenant") == Ok("app_my_tenant")
    ensures KeyIn("my_tenant", "session:42") == "my_tenant:session:42"
  {
    hide DeriveNamespace, DeriveUsername, DatabaseName;
    PlainNames("my-tenant", "my_tenant");
    assert "app_" + "my_tenant" == "app_my_tenant";
    assert "my_tenant" + ":" + "session:42" == "my_tenant:session:42";
  }

  lemma DocumentedDatabases()
    ensures DatabaseName("telcoss") == Ok("telcoss")
    ensures DatabaseName("pamyat-naroda-graph") == Ok("pamyat_naroda_graph")
  {
    hide DeriveNamespace, DeriveUsername, DatabaseName;
    PlainNames("telcoss", "telcoss");
    PlainNames("pamyat-naroda-graph", "pamyat_naroda_graph");
  }

  // --- Runs of other characters --------------------------------------

  predicate IsJunk(c: char) {
    !('a' <= c <= 'z') && !('A' <= c <= 'Z') && !('0' <= c <= '9') && c != '_'
  }

  lemma {:induction false} SanitizeWord(word: string, rest: string)
    requires forall i | 0 <= i < |word| :: IsAllowed(word[i])
    ensures Sanitize(word + rest) == word + Sanitize(rest)
  {
    if word == "" {
      assert word + rest == rest;
    } else {
      assert (word + rest)[1..] == word[1..] + rest;
      SanitizeWord(word[1..], rest);
    }
  }

  lemma {:induction false} SkipRun(junk: string, rest: string)
    requires forall i | 0 <= i < |junk| :: IsJunk(junk[i])
    requires rest != "" ==> IsAllowed(rest[0])
    ensures SkipJunk(junk + rest) == rest
  {
    if junk == "" {
      assert junk + rest == rest;
    } else {
      assert (junk + rest)[1..] == junk[1..] + rest;
      SkipRun(junk[1..], rest);
    }
  }

  lemma SanitizeRun(junk: string, rest: string)
    requires junk != "" && forall i | 0 <= i < |junk| :: IsJunk(junk[i])
    requires rest != "" ==> IsAllowed(rest[0])
    ensures Sanitize(junk + rest) == "_" + Sanitize(rest)
  {
    assert (junk + rest)[1..] == junk[1..] + rest;
    SkipRun(junk[1..], rest);
  }

  lemma RunSanitized(left: string, junk: string, right: string)
    requires IsNamespace(left) && IsNamespace(right)
    requires junk != "" && forall i | 0 <= i < |junk| :: IsJunk(junk[i])
    ensures Sanitize(left + junk + right) == left + "_" + right
  {
    SanitizeRun(junk, right);
    SanitizeNothing(right);
    SanitizeWord(left, junk + right);
    hide Sanitize, IsNamespace, IsJunk;
    assert left + junk + right == left + (junk + right);
    assert left + "_" + right == left + ("_" + right);
  }

  lemma RunNotSpacedOrCapital(left: string, junk: string, right: string)
    requires IsNamespace(left) && IsNamespace(right)
    requires forall i | 0 <= i < |junk| :: IsJunk(junk[i])
    ensures var tenant := left + junk + right; Strip(tenant, IsSpace) == tenant && Lower(tenant) == tenant
  {
    var tenant := left + junk + right;
    assert tenant[0] == left[0] && tenant[|tenant| - 1] == right[|right| - 1];
    StripNothing(tenant, IsSpace);
    LowerAlready(tenant);
  }

  lemma RunStripped(left: string, right: string)
    requires IsNamespace(left) && IsNamespace(right)
    ensures var name := left + "_" + right; Strip(name, IsUnderscore) == name
  {
    var name := left + "_" + right;
    assert name[0] == left[0] && name[|name| - 1] == right[|right| - 1];
    StripNothing(name, IsUnderscore);
  }

  /** Two namespaces joined by any run of characters that are neither letters, digits nor underscores derive
      the namespace in which the run is one underscore. */
  lemma RunIsOneUnderscore(left: string, junk: string, right: string)
    requires IsNamespace(left) && IsNamespace(right)
    requires junk != "" && forall i | 0 <= i < |junk| :: IsJunk(junk[i])
    ensures DeriveNamespace(left + junk + right) == Ok(left + "_" + right)
  {
    hide IsNamespace, IsJunk, Sanitize, Strip, Lower;
    RunNotSpacedOrCapital(left, junk, right);
    RunSanitized(left, junk, right);
    RunStripped(left, right);
  }

  lemma LowerAlready(s: string)
    requires forall i | 0 <= i < |s| :: !('A' <= s[i] <= 'Z')
    ensures Lower(s) == s
  {
  }

  lemma JunkBecomesUnderscore()
    ensures DeriveNamespace("my.team") == DeriveNamespace("My.Team") == DeriveNamespace("my - team") == Ok("my_team")
  {
    hide DeriveNamespace, DeriveUsername;
    RunIsOneUnderscore("my", ".", "team");
    RunIsOneUnderscore("my", " - ", "team");
    assert "my" + "." + "team" == "my.team" && "my" + " - " + "team" == "my - team" && "my" + "_" + "team" == "my_team";
    CaseDoesNotMatter("my.team", "My.Team");
  }
}
