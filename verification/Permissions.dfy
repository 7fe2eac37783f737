/** Permission scopes (pluginperm/pluginperm.go) and the scope lists of integration
    tokens (plugin/integration_token.go). */
module Permissions {
  import opened Text

  const KNOWN: set<string> := {
    "system:read", "dashboard:read", "ui:read", "websites:read", "websites:write", "ssl:read", "ssl:write",
    "nginx:read", "nginx:manage", "docker:read", "docker:manage", "files:read", "files:manage", "mount:read",
    "mount:manage", "cron:read", "cron:write", "jobs:read", "jobs:manage", "query:read", "query:manage",
    "metrics:read", "settings:write", "plugins:read", "plugins:manage", "terminal:manage", "network.outbound",
    "secrets:receive"
  }

  predicate Blank(s: string) {
    TrimSpace(s) == ""
  }

  /** The permissions a manifest grants, without blank entries. */
  function Allowed(permissions: seq<string>): set<string> {
    set p | p in permissions && !Blank(p) :: TrimSpace(p)
  }

  predicate Subset(scopes: seq<string>, permissions: seq<string>) {
    forall s <- scopes :: TrimSpace(s) in Allowed(permissions)
  }

  /** The scopes that are granted, in their order. */
  function Common(scopes: seq<string>, permissions: seq<string>): seq<string> {
    if scopes == [] then []
    else
      var first := TrimSpace(scopes[|scopes| - 1]);
      Common(scopes[..|scopes| - 1], permissions) + if first in Allowed(permissions) then [first] else []
  }

  /** The different non-blank scopes, in the order of their first occurrence. */
  function Distinct(scopes: seq<string>): seq<string> {
    if scopes == [] then []
    else
      var d := Distinct(scopes[..|scopes| - 1]);
      var s := TrimSpace(scopes[|scopes| - 1]);
      if s == "" || s in d then d else d + [s]
  }

  predicate Recognised(scopes: seq<string>) {
    forall s <- scopes :: Blank(s) || TrimSpace(s) in KNOWN
  }

  function Normalized(scopes: seq<string>): Option<seq<string>> {
    if Recognised(scopes) && Distinct(scopes) != [] then Some(Distinct(scopes)) else None
  }

  // ---------- the loops of the code ----------

  method Fill(permissions: seq<string>) returns (allowed: set<string>)
    ensures allowed == Allowed(permissions)
  {
    hide TrimSpace;
    allowed := {};
    for i := 0 to |permissions|
      invariant allowed == Allowed(permissions[..i])
    {
      var p := TrimSpace(permissions[i]);
      AllowedMore(permissions[..i], permissions[i]);
      assert permissions[..i + 1] == permissions[..i] + [permissions[i]];
      if p != "" { allowed := allowed + {p}; }
    }
    assert permissions[..|permissions|] == permissions;
  }

  lemma AllowedMore(permissions: seq<string>, p: string)
    ensures Allowed(permissions + [p]) == Allowed(permissions) + if Blank(p) then {} else {TrimSpace(p)}
  {
    hide TrimSpace;
    var more := permissions + [p];
    assert more[|permissions|] == p;
    forall s | s in Allowed(permissions) ensures s in Allowed(more) {
      var q :| q in permissions && !Blank(q) && TrimSpace(q) == s;
      assert q in more;
    }
  }

  method SubsetOfManifest(scopes: seq<string>, permissions: seq<string>) returns (subset: bool)
    ensures subset == Subset(scopes, permissions)
  {
    hide TrimSpace;
    var allowed := Fill(permissions);
    for i := 0 to |scopes|
      invariant forall j :: 0 <= j < i ==> TrimSpace(scopes[j]) in allowed
    {
      var s := TrimSpace(scopes[i]);
      if s == "" || s !in allowed { return false; }
    }
    return true;
  }

  method Intersect(scopes: seq<string>, permissions: seq<string>) returns (out: seq<string>)
    ensures out == Common(scopes, permissions)
  {
    hide TrimSpace;
    var allowed := Fill(permissions);
    out := [];
    for i := 0 to |scopes|
      invariant out == Common(scopes[..i], permissions)
    {
      assert scopes[..i + 1][..i] == scopes[..i];
      var s := TrimSpace(scopes[i]);
      if s != "" && s in allowed { out := out + [s]; }
    }
    assert scopes[..|scopes|] == scopes;
  }

  method NormalizeScopes(scopes: seq<string>) returns (r: Option<seq<string>>)
    ensures r == Normalized(scopes)
  {
    hide TrimSpace;
    if scopes == [] { return None; }
    var out: seq<string> := [];
    for i := 0 to |scopes|
      invariant out == Distinct(scopes[..i])
      invariant Recognised(scopes[..i])
    {
      assert scopes[..i + 1][..i] == scopes[..i];
      var s := TrimSpace(scopes[i]);
      if s != "" {
        if s !in KNOWN { return None; }
        if s !in out { out := out + [s]; }
      }
    }
    assert scopes[..|scopes|] == scopes;
    return if out == [] then None else Some(out);
  }

  // ---------- what they mean ----------

  predicate NoDuplicates(s: seq<string>) {
    forall i, j :: 0 <= i < j < |s| ==> s[i] != s[j]
  }

  /** Every scope in a list that is stored: not blank at either end, and not empty. */
  predicate Clean(scopes: seq<string>) {
    forall s <- scopes :: s != "" && Trimmed(s)
  }

  lemma {:induction false} DistinctMeans(scopes: seq<string>)
    ensures NoDuplicates(Distinct(scopes)) && Clean(Distinct(scopes))
    ensures forall s :: s in Distinct(scopes) <==> s != "" && exists t :: t in scopes && TrimSpace(t) == s
  {
    hide TrimSpace, Trimmed;
    if scopes != [] {
      var init, last := scopes[..|scopes| - 1], scopes[|scopes| - 1];
      DistinctMeans(init);
      TrimSpaceTrims(last);
      assert forall t :: t in scopes <==> t in init || t == last by { assert scopes == init + [last]; }
    }
  }

  /** Scopes are granted exactly if each of them, without blanks around, is one of the permissions without
      blanks around, and none is blank. */
  lemma SubsetIff(scopes: seq<string>, permissions: seq<string>)
    ensures Subset(scopes, permissions) <==>
              forall s <- scopes :: TrimSpace(s) != "" && exists p :: p in permissions && TrimSpace(p) == TrimSpace(s)
  {
    hide TrimSpace;
    forall s ensures s in Allowed(permissions) <==> s != "" && exists p :: p in permissions && TrimSpace(p) == s {}
  }

  /** A list of scopes is accepted iff it names at least one and all it names are known;
      the accepted list names each of them once. */
  lemma NormalizedIff(scopes: seq<string>)
    ensures Normalized(scopes).Some? <==>
              (forall s <- scopes :: TrimSpace(s) == "" || TrimSpace(s) in KNOWN) &&
              (exists s :: s in scopes && TrimSpace(s) != "")
    ensures Normalized(scopes).Some? ==>
              var n := Normalized(scopes).value;
              n != [] && NoDuplicates(n) && Clean(n) &&
              forall s :: s in n <==> s in KNOWN && exists t :: t in scopes && TrimSpace(t) == s
  {
    hide TrimSpace, Trimmed;
    var d := Distinct(scopes);
    DistinctMeans(scopes);
    if s :| s in scopes && TrimSpace(s) != "" { assert TrimSpace(s) in d; }
    if d != [] {
      assert d[0] in d;
      var t :| t in scopes && TrimSpace(t) == d[0];
      assert !Blank(t);
    }
    assert "" !in KNOWN;
  }

  /** The accepted scopes are in the order in which they are first named. */
  lemma {:induction false} DistinctInOrder(scopes: seq<string>, i: nat, j: nat, q: nat)
    requires i < j < |Distinct(scopes)| && q < |scopes| && TrimSpace(scopes[q]) == Distinct(scopes)[j]
    ensures exists p :: 0 <= p < q && TrimSpace(scopes[p]) == Distinct(scopes)[i]
    decreases |scopes|
  {
    hide TrimSpace;
    var init, last := scopes[..|scopes| - 1], scopes[|scopes| - 1];
    var d, all := Distinct(init), Distinct(scopes);
    DistinctMeans(init);
    if q == |scopes| - 1 {
      if j < |d| { assert d[j] in d; }
      assert d[i] in d && all[i] == d[i];
      var t :| t in init && TrimSpace(t) == d[i];
    } else {
      assert init[q] == scopes[q];
      assert init[q] in init && TrimSpace(init[q]) in d;
      if j < |d| { DistinctInOrder(init, i, j, q); }
    }
  }

  predicate Subsequence(a: seq<string>, b: seq<string>) {
    a == [] || (b != [] && ((a[|a| - 1] == b[|b| - 1] && Subsequence(a[..|a| - 1], b[..|b| - 1])) ||
                            Subsequence(a, b[..|b| - 1])))
  }

  lemma {:induction false} SubsequenceOfItself(a: seq<string>)
    ensures Subsequence(a, a)
  {
    if a != [] { SubsequenceOfItself(a[..|a| - 1]); }
  }

  /** Cutting a stored list down keeps exactly what the manifest grants, in order. */
  lemma {:induction false} CommonMeans(scopes: seq<string>, permissions: seq<string>)
    requires Clean(scopes)
    ensures Subsequence(Common(scopes, permissions), scopes) && Clean(Common(scopes, permissions))
    ensures forall s :: s in Common(scopes, permissions) <==> s in scopes && s in Allowed(permissions)
    ensures Subset(Common(scopes, permissions), permissions)
  {
    hide TrimSpace, Trimmed;
    if scopes != [] {
      var init, last := scopes[..|scopes| - 1], scopes[|scopes| - 1];
      assert forall t :: t in scopes <==> t in init || t == last by { assert scopes == init + [last]; }
      CommonMeans(init, permissions);
      TrimmedStays(last);
      var c := Common(scopes, permissions);
      if last in Allowed(permissions) {
        assert c[..|c| - 1] == Common(init, permissions) && c[|c| - 1] == last;
      } else {
        assert c == Common(init, permissions);
      }
    }
  }

  lemma SubsetMonotone(a: seq<string>, b: seq<string>, permissions: seq<string>)
    requires (forall s <- a :: s in b) && Subset(b, permissions)
    ensures Subset(a, permissions)
  {
  }
}
