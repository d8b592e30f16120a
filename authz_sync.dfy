/** Registry-to-policy sync: flatten the registry's (role, object, action)
    grants, drop those whose joined key was already emitted, and hand the
    rest to the policy engine in one bulk add (or not at all when there is
    nothing to add). */
module AuthzSync {
  import opened Errors
  import opened AuthzService

  /** One policy line; the engine receives it as the three strings
      role, object, action, in that order. */
  datatype PolicyRule = PolicyRule(role: string, obj: string, act: string)

  /** The dedup key: the three parts joined with '|'. Parts that themselves
      contain '|' can give two different rules the same key. */
  function PolicyKey(role: string, obj: string, act: string): string
  {
    role + "|" + obj + "|" + act
  }

  function RuleKey(p: PolicyRule): string
  {
    PolicyKey(p.role, p.obj, p.act)
  }

  function KeysOf(ps: seq<PolicyRule>): set<string>
  {
    set i | 0 <= i < |ps| :: RuleKey(ps[i])
  }

  /** Some registry entry grants rule `p`: one of its roles, its object and
      its action. */
  ghost predicate Grants(m: map<string, PermissionOption>, p: PolicyRule)
  {
    exists op :: op in m && p.role in m[op].roles && p.obj == m[op].obj && p.act == m[op].act
  }

  /** The key of every (entry, role) pair of the registry. */
  ghost function DeclaredKeys(m: map<string, PermissionOption>): set<string>
  {
    set op, role | op in m && role in m[op].roles :: PolicyKey(role, m[op].obj, m[op].act)
  }

  predicate DistinctKeys(ps: seq<PolicyRule>)
  {
    forall i, j :: 0 <= i < j < |ps| ==> RuleKey(ps[i]) != RuleKey(ps[j])
  }

  /** What one sync pass may submit for registry map `m`: only granted
      rules, no key twice, and the key of every (entry, role) pair present. */
  ghost predicate IsPolicyBatch(m: map<string, PermissionOption>, ps: seq<PolicyRule>)
  {
    && (forall i :: 0 <= i < |ps| ==> Grants(m, ps[i]))
    && DistinctKeys(ps)
    && (forall op, role :: op in m && role in m[op].roles ==> PolicyKey(role, m[op].obj, m[op].act) in KeysOf(ps))
  }

  /** The number of roles over all entries, duplicates included. */
  ghost function TotalRoles(m: map<string, PermissionOption>): nat
    decreases m.Keys
  {
    if m == map[] then 0
    else
      var op :| op in m;
      |m[op].roles| + TotalRoles(m - {op})
  }

  /** TotalRoles does not depend on which entry is taken first. */
  lemma {:induction false} TotalRolesRemove(m: map<string, PermissionOption>, k: string)
    requires k in m
    ensures TotalRoles(m) == |m[k].roles| + TotalRoles(m - {k})
    decreases m.Keys
  {
    var op :| op in m && TotalRoles(m) == |m[op].roles| + TotalRoles(m - {op});
    if op != k {
      TotalRolesRemove(m - {op}, k);
      TotalRolesRemove(m - {k}, op);
      assert m - {op} - {k} == m - {k} - {op};
    }
  }

  lemma KeysOfAppend(ps: seq<PolicyRule>, p: PolicyRule)
    ensures KeysOf(ps + [p]) == KeysOf(ps) + {RuleKey(p)}
  {
    var qs := ps + [p];
    forall key | key in KeysOf(qs) ensures key in KeysOf(ps) + {RuleKey(p)} {
      var i :| 0 <= i < |qs| && RuleKey(qs[i]) == key;
      if i < |ps| { assert qs[i] == ps[i]; }
    }
    forall key | key in KeysOf(ps) ensures key in KeysOf(qs) {
      var i :| 0 <= i < |ps| && RuleKey(ps[i]) == key;
      assert qs[i] == ps[i];
    }
    assert RuleKey(qs[|ps|]) == RuleKey(p);
  }

  /** Every rule of `ps` is granted by some entry of `m`. */
  ghost predicate AllGranted(m: map<string, PermissionOption>, ps: seq<PolicyRule>)
  {
    forall i :: 0 <= i < |ps| ==> Grants(m, ps[i])
  }

  /** The keys of every (entry, role) pair of the entries outside `rest`. */
  ghost predicate CoversDone(m: map<string, PermissionOption>, rest: map<string, PermissionOption>, seen: set<string>)
  {
    forall op, role :: op in m && op !in rest && role in m[op].roles ==> PolicyKey(role, m[op].obj, m[op].act) in seen
  }

  /** The inner loop over one entry's roles: each role whose key is not yet
      in `seen` is appended, and its key added. */
  method AppendRoles(perm: PermissionOption, policies: seq<PolicyRule>, seen: set<string>)
    returns (policies': seq<PolicyRule>, seen': set<string>)
    requires seen == KeysOf(policies) && DistinctKeys(policies)
    ensures seen' == KeysOf(policies') && DistinctKeys(policies')
    ensures |policies| <= |policies'| <= |policies| + |perm.roles| && policies'[..|policies|] == policies
    ensures forall i :: |policies| <= i < |policies'| ==>
              policies'[i].role in perm.roles && policies'[i].obj == perm.obj && policies'[i].act == perm.act
    ensures seen' == seen + set role | role in perm.roles :: PolicyKey(role, perm.obj, perm.act)
  {
    policies', seen' := policies, seen;
    var j := 0;
    while j < |perm.roles|
      invariant j <= |perm.roles|
      invariant seen' == KeysOf(policies') && DistinctKeys(policies')
      invariant |policies| <= |policies'| <= |policies| + j && policies'[..|policies|] == policies
      invariant forall i :: |policies| <= i < |policies'| ==>
                  policies'[i].role in perm.roles[..j] && policies'[i].obj == perm.obj && policies'[i].act == perm.act
      invariant seen' == seen + set role | role in perm.roles[..j] :: PolicyKey(role, perm.obj, perm.act)
    {
      var role := perm.roles[j];
      assert perm.roles[..j + 1] == perm.roles[..j] + [role];
      var key := role + "|" + perm.obj + "|" + perm.act;
      if key !in seen' {
        var rule := PolicyRule(role, perm.obj, perm.act);
        KeysOfAppend(policies', rule);
        seen' := seen' + {key};
        policies' := policies' + [rule];
      }
      j := j + 1;
    }
    assert perm.roles[..j] == perm.roles;
  }

  /** The nested loop over entries and roles with the `seen` key set. The map
      is walked in an unspecified order (an arbitrary entry is picked each
      time), as Go's map iteration is. */
  method CollectPolicies(m: map<string, PermissionOption>) returns (policies: seq<PolicyRule>)
    ensures IsPolicyBatch(m, policies)
    ensures |policies| <= TotalRoles(m)
  {
    policies := [];
    var seen: set<string> := {};
    var rest := m;
    while rest != map[]
      invariant rest.Keys <= m.Keys && forall op :: op in rest ==> rest[op] == m[op]
      invariant seen == KeysOf(policies) && DistinctKeys(policies)
      invariant AllGranted(m, policies)
      invariant CoversDone(m, rest, seen)
      invariant |policies| + TotalRoles(rest) <= TotalRoles(m)
      decreases rest.Keys
    {
      var op :| op in rest;
      var perm := rest[op];
      ghost var before := policies;
      policies, seen := AppendRoles(perm, policies, seen);
      assert AllGranted(m, policies) by {
        forall i | 0 <= i < |policies| ensures Grants(m, policies[i]) {
          if i < |before| {
            assert policies[i] == before[i];
          } else {
            assert op in m && policies[i].role in m[op].roles;
          }
        }
      }
      TotalRolesRemove(rest, op);
      rest := rest - {op};
    }
  }

  /** The policy engine, as far as sync uses it: every bulk add it receives
      is recorded, and `outcome` says how the store answers one. */
  class PolicyEngine {
    var batches: seq<seq<PolicyRule>>
    const outcome: seq<PolicyRule> -> Option<Error>

    constructor (outcome: seq<PolicyRule> -> Option<Error>)
      ensures batches == [] && this.outcome == outcome
    {
      batches := [];
      this.outcome := outcome;
    }

    /** One bulk add: `added` is false exactly when it reports an error. */
    method AddPolicies(rules: seq<PolicyRule>) returns (added: bool, err: Option<Error>)
      modifies this
      ensures batches == old(batches) + [rules]
      ensures err == outcome(rules) && added == err.None?
    {
      batches := batches + [rules];
      err := outcome(rules);
      added := err.None?;
    }
  }

  /** Reads the registry's current map (and changes nothing in it); makes no
      engine call when the registry grants no role, and otherwise exactly one
      bulk add of a complete deduplicated batch, whose error it returns. */
  method SyncFromRegistry(e: PolicyEngine, r: AuthzRegistry) returns (err: Option<Error>)
    requires r.Valid()
    modifies e
    ensures r.data == old(r.data)
    ensures DeclaredKeys(r.data.value) == {} ==> e.batches == old(e.batches) && err == None
    ensures DeclaredKeys(r.data.value) != {} ==>
              && |e.batches| == |old(e.batches)| + 1
              && e.batches[..|old(e.batches)|] == old(e.batches)
              && IsPolicyBatch(r.data.value, e.batches[|old(e.batches)|])
              && |e.batches[|old(e.batches)|]| <= TotalRoles(r.data.value)
              && err == e.outcome(e.batches[|old(e.batches)|])
  {
    var m := r.data.value;
    var policies := CollectPolicies(m);
    BatchKeysDeclared(m, policies);
    if |policies| == 0 {
      return None;
    }
    assert RuleKey(policies[0]) in KeysOf(policies);
    var added, addErr := e.AddPolicies(policies);
    if addErr.Some? {
      return addErr;
    }
    return None;
  }

  /** A batch covers exactly the declared keys. */
  lemma BatchKeysDeclared(m: map<string, PermissionOption>, ps: seq<PolicyRule>)
    requires IsPolicyBatch(m, ps)
    ensures KeysOf(ps) == DeclaredKeys(m)
  {
    forall key | key in KeysOf(ps) ensures key in DeclaredKeys(m) {
      var i :| 0 <= i < |ps| && RuleKey(ps[i]) == key;
      assert Grants(m, ps[i]);
      var op :| op in m && ps[i].role in m[op].roles && ps[i].obj == m[op].obj && ps[i].act == m[op].act;
    }
  }

  /** With distinct keys, a batch has as many rules as keys. */
  lemma {:induction false} DistinctKeysCount(ps: seq<PolicyRule>)
    requires DistinctKeys(ps)
    ensures |KeysOf(ps)| == |ps|
  {
    if ps != [] {
      var init := ps[..|ps| - 1];
      var last := ps[|ps| - 1];
      assert DistinctKeys(init) by {
        forall i, j | 0 <= i < j < |init| ensures RuleKey(init[i]) != RuleKey(init[j]) {
          assert init[i] == ps[i] && init[j] == ps[j];
        }
      }
      DistinctKeysCount(init);
      assert init + [last] == ps;
      KeysOfAppend(init, last);
      forall i | 0 <= i < |init| ensures RuleKey(init[i]) != RuleKey(last) {
        assert init[i] == ps[i];
      }
    }
  }

  /** Exactly one rule per distinct declared key reaches the engine. */
  lemma BatchSize(m: map<string, PermissionOption>, ps: seq<PolicyRule>)
    requires IsPolicyBatch(m, ps)
    ensures |ps| == |DeclaredKeys(m)|
  {
    BatchKeysDeclared(m, ps);
    DistinctKeysCount(ps);
  }

  /** Two sync passes over the same registry map submit the same set of keys
      and the same number of rules, whatever order each walked the map in. */
  lemma SyncRepeatable(m: map<string, PermissionOption>, ps: seq<PolicyRule>, qs: seq<PolicyRule>)
    requires IsPolicyBatch(m, ps) && IsPolicyBatch(m, qs)
    ensures KeysOf(ps) == KeysOf(qs) && |ps| == |qs|
  {
    BatchSize(m, ps);
    BatchSize(m, qs);
    BatchKeysDeclared(m, ps);
    BatchKeysDeclared(m, qs);
  }

  /** Sync skips the engine exactly when no entry declares a role. */
  lemma NothingToSync(m: map<string, PermissionOption>)
    ensures DeclaredKeys(m) == {} <==> forall op :: op in m ==> m[op].roles == []
  {
    if exists op :: op in m && m[op].roles != [] {
      var op :| op in m && m[op].roles != [];
      assert PolicyKey(m[op].roles[0], m[op].obj, m[op].act) in DeclaredKeys(m);
    }
  }

  /** Two different rules with the same joined key. */
  lemma KeyCollision()
    ensures PolicyRule("a|b", "c", "d") != PolicyRule("a", "b|c", "d")
    ensures RuleKey(PolicyRule("a|b", "c", "d")) == RuleKey(PolicyRule("a", "b|c", "d"))
  {
    assert RuleKey(PolicyRule("a|b", "c", "d")) == "a|b|c|d";
    assert RuleKey(PolicyRule("a", "b|c", "d")) == "a|b|c|d";
  }

  /** Because of such a collision, which of two granted rules reaches the
      engine depends on the map's iteration order, and the other is dropped:
      both one-rule batches below are valid for the same registry. */
  lemma CollisionDropsAGrant()
    ensures var m := map["/s.S/A" := PermissionOption("c", "d", ["a|b"]),
                         "/s.S/B" := PermissionOption("b|c", "d", ["a"])];
            && IsPolicyBatch(m, [PolicyRule("a|b", "c", "d")])
            && IsPolicyBatch(m, [PolicyRule("a", "b|c", "d")])
  {
    var m := map["/s.S/A" := PermissionOption("c", "d", ["a|b"]),
                 "/s.S/B" := PermissionOption("b|c", "d", ["a"])];
    KeyCollision();
    assert Grants(m, PolicyRule("a|b", "c", "d")) by { assert "a|b" in m["/s.S/A"].roles; }
    assert Grants(m, PolicyRule("a", "b|c", "d")) by { assert "a" in m["/s.S/B"].roles; }
    KeysOfAppend([], PolicyRule("a|b", "c", "d"));
    KeysOfAppend([], PolicyRule("a", "b|c", "d"));
    assert [] + [PolicyRule("a|b", "c", "d")] == [PolicyRule("a|b", "c", "d")];
    assert [] + [PolicyRule("a", "b|c", "d")] == [PolicyRule("a", "b|c", "d")];
    forall op, role | op in m && role in m[op].roles
      ensures PolicyKey(role, m[op].obj, m[op].act) == "a|b|c|d"
    {
      if op == "/s.S/A" {
        assert role == "a|b";
      } else {
        assert role == "a";
      }
    }
  }

  /** The worked example: one entry (user, delete) granted to admin gives
      exactly one rule, (admin, user, delete). */
  lemma DeleteUserExample(ps: seq<PolicyRule>)
    requires IsPolicyBatch(map["/user.v1.UserService/DeleteUser" := PermissionOption("user", "delete", ["admin"])], ps)
    ensures ps == [PolicyRule("admin", "user", "delete")]
  {
    var m := map["/user.v1.UserService/DeleteUser" := PermissionOption("user", "delete", ["admin"])];
    assert PolicyKey("admin", "user", "delete") in DeclaredKeys(m) by {
      assert "admin" in m["/user.v1.UserService/DeleteUser"].roles;
    }
    forall key | key in DeclaredKeys(m) ensures key == PolicyKey("admin", "user", "delete") {
      var op, role :| op in m && role in m[op].roles && key == PolicyKey(role, m[op].obj, m[op].act);
      assert op == "/user.v1.UserService/DeleteUser" && role == "admin";
    }
    assert DeclaredKeys(m) == {PolicyKey("admin", "user", "delete")};
    BatchSize(m, ps);
    assert Grants(m, ps[0]);
  }
}
