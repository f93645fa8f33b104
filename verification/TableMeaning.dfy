/** The scopes each call needs, call by call, described without the table. */
module TableMeaning {
  import opened Wrappers
  import opened Scopes
  import opened DelegatedClient
  import opened DelegationTheorems
  import opened ScopesTable
  import ScopeText

  // ---------- which calls a key may make ----------

  /** Pallets of which a key may make every call but a few, with these. */
  const OPEN_PALLETS: map<string, set<string>> := map[
    "Collaborations" := {"set_compute_node_image", "set_compute_node_sku_id"},
    "Secrets" := {}, "Volumes" := {}, "OverlayNetworks" := {},
    "Datasets" := {"force_delete_dataset", "force_delist_dataset", "force_restore_dataset"},
    "Communities" := {"force_delete_community", "force_delist_community", "force_restore_community"}]

  /** Pallets of which a key may make these calls alone. */
  const CLOSED_PALLETS: map<string, set<string>> := map[
    "Jobs" := {"request_deployment", "set_deployment_secret_ref", "cancel_deployment", "set_deployment_env",
               "set_deployment_image", "set_deployment_launch", "set_deployment_policy_root",
               "set_deployment_restart_policy", "set_deployment_volumes", "register_wg_peer", "remove_wg_peer"},
    "Resources" := {"register_resource", "register_org_resource", "register_private_resource", "reactivate_resource",
                    "suspend_resource", "set_resource_privacy", "add_to_whitelist", "remove_from_whitelist",
                    "update_resource_name", "remove_resource"},
    "Organizations" := {"add_member", "remove_member", "set_member_role", "create_project", "delete_project",
                        "assign_to_project", "unassign_from_project", "add_project_deployment_peer"},
    "Budgets" := {"allot", "defund_project", "set_plan_allotment", "set_purchased_allotment",
                  "add_purchased_allotment", "set_member_billing", "clear_member_billing", "set_member_gas_limit",
                  "set_project_spend_cap"}]

  predicate Admitted(call: Call) {
    || (call.pallet in OPEN_PALLETS && call.name !in OPEN_PALLETS[call.pallet])
    || (call.pallet in CLOSED_PALLETS && call.name in CLOSED_PALLETS[call.pallet])
  }

  // ---------- what they need ----------

  /** The scope by which the calls of a pallet are granted. */
  const SCOPE_OF: map<string, string> := map[
    "Jobs" := "deployments", "Collaborations" := "collaborations", "Secrets" := "secrets", "Volumes" := "volumes",
    "Datasets" := "datasets", "OverlayNetworks" := "networking", "Resources" := "resources",
    "Organizations" := "organization", "Budgets" := "billing", "Communities" := "communities"]

  /** WireGuard peers belong to networking, whatever the pallet. */
  function NeededScope(call: Call): string
    requires call.pallet in SCOPE_OF
  {
    if call.pallet == "Jobs" && call.name in {"register_wg_peer", "remove_wg_peer"} then "networking"
    else SCOPE_OF[call.pallet]
  }

  /** The first field of that name is there and is the variant `None`. */
  ghost predicate FieldIsNone(fields: seq<(string, Value)>, name: string) {
    exists i, inner ::
      && 0 <= i < |fields| && fields[i] == (name, Variant("None", inner))
      && forall j | 0 <= j < i :: fields[j].0 != name
  }

  /** The request names its fields, and neither refers to a secret. */
  ghost predicate AsksForNoSecret(args: seq<Value>) {
    |args| > 0 && args[0].Named?
    && FieldIsNone(args[0].fields, "secret_ref") && FieldIsNone(args[0].fields, "tls_secret_ref")
  }

  /** The reference is cleared. */
  ghost predicate ClearsSecret(args: seq<Value>) {
    |args| > 1 && exists inner :: args[1] == Variant("None", inner)
  }

  /** The call hands a secret to a deployment, or may do so for all that can be read of it. */
  ghost predicate ReadsSecret(call: Call) {
    && call.pallet == "Jobs"
    && ((call.name == "request_deployment" && !AsksForNoSecret(call.args))
        || (call.name == "set_deployment_secret_ref" && !ClearsSecret(call.args)))
  }

  /** Writing in the scope of that name, reading secrets if `secrets`, and nothing else. */
  ghost predicate IsExactly(s: ScopeSet, scope: string, secrets: bool) {
    && s <= ALL
    && forall k: Scope, access: Access ::
         Contains(s, k, access) <==>
           (NAMES[k] == scope && access.Write?) || (secrets && NAMES[k] == "secrets" && access.Read?)
  }

  // ---------- the sets ----------

  lemma {:induction false} WriteMeaning(scope: Scope)
    ensures IsExactly(ScopesTable.Write(scope), NAMES[scope], false)
  {
  }

  lemma {:induction false} WideMeaning()
    ensures IsExactly(DEPLOY_WITH_SECRET, "deployments", true)
  {
    assert NAMES[DEPLOYMENTS] == "deployments" && NAMES[SECRETS] == "secrets";
  }

  // ---------- the arguments ----------

  lemma {:induction false} FieldMeaning(fields: seq<(string, Value)>, name: string)
    ensures IsNone(FieldOf(fields, name)) <==> FieldIsNone(fields, name)
  {
    if fields != [] {
      var tail := fields[1..];
      FieldMeaning(tail, name);
      if fields[0].0 == name {
        assert IsNone(Some(fields[0].1)) ==> fields[0] == (name, Variant("None", fields[0].1.args));
      } else {
        LaterField(fields, name);
      }
    }
  }

  lemma {:induction false} LaterField(fields: seq<(string, Value)>, name: string)
    requires fields != [] && fields[0].0 != name
    ensures FieldIsNone(fields, name) <==> FieldIsNone(fields[1..], name)
  {
    var tail := fields[1..];
    if i, inner :| 0 <= i < |fields| && fields[i] == (name, Variant("None", inner))
                   && forall j | 0 <= j < i :: fields[j].0 != name {
      assert tail[i - 1] == fields[i];
      assert forall j | 0 <= j < i - 1 :: tail[j] == fields[j + 1];
    }
    if i, inner :| 0 <= i < |tail| && tail[i] == (name, Variant("None", inner))
                   && forall j | 0 <= j < i :: tail[j].0 != name {
      assert fields[i + 1] == tail[i];
      assert forall j | 0 < j < i + 1 :: fields[j] == tail[j - 1];
    }
  }

  lemma {:induction false} RequestMeaning(args: seq<Value>)
    ensures RequestReferencesSecret(Arg(args, 0)) <==> !AsksForNoSecret(args)
  {
    if |args| > 0 && args[0].Named? {
      FieldMeaning(args[0].fields, "secret_ref");
      FieldMeaning(args[0].fields, "tls_secret_ref");
    }
  }

  lemma {:induction false} ClearingMeaning(args: seq<Value>)
    ensures IsNone(Arg(args, 1)) <==> ClearsSecret(args)
  {
    if IsNone(Arg(args, 1)) {
      assert args[1] == Variant("None", args[1].args);
    }
  }

  // ---------- the table ----------

  lemma {:induction false} JobsCalls(name: string, args: seq<Value>)
    ensures OfJobs(name, args).Some? <==> name in CLOSED_PALLETS["Jobs"]
  {
  }

  lemma {:induction false} ResourceCalls(name: string)
    ensures name in RESOURCE_CALLS <==> name in CLOSED_PALLETS["Resources"]
  {
  }

  lemma {:induction false} OrganizationCalls(name: string)
    ensures name in ORGANIZATION_CALLS <==> name in CLOSED_PALLETS["Organizations"]
  {
  }

  lemma {:induction false} BudgetCalls(name: string)
    ensures name in BUDGET_CALLS <==> name in CLOSED_PALLETS["Budgets"]
  {
  }

  lemma {:induction false} JobsSets(name: string, args: seq<Value>)
    requires OfJobs(name, args).Some?
    ensures OfJobs(name, args).value ==
              if ReadsSecret(Call("Jobs", name, args)) then DEPLOY_WITH_SECRET
              else if name in {"register_wg_peer", "remove_wg_peer"} then ScopesTable.Write(NETWORKING)
              else ScopesTable.Write(DEPLOYMENTS)
  {
    RequestMeaning(args);
    ClearingMeaning(args);
  }

  lemma {:induction false} JobsNeed(name: string, args: seq<Value>)
    requires OfJobs(name, args).Some?
    ensures var call := Call("Jobs", name, args);
            IsExactly(OfJobs(name, args).value, NeededScope(call), ReadsSecret(call))
  {
    JobsSets(name, args);
    WideMeaning();
    WriteMeaning(DEPLOYMENTS);
    WriteMeaning(NETWORKING);
  }

  /** The one scope of a pallet whose calls need no more than writing in it. */
  function ScopeOf(pallet: string): Scope
    requires pallet in SCOPE_OF && pallet != "Jobs"
    ensures NAMES[ScopeOf(pallet)] == SCOPE_OF[pallet]
  {
    if pallet == "Collaborations" then COLLABORATIONS
    else if pallet == "Secrets" then SECRETS
    else if pallet == "Volumes" then VOLUMES
    else if pallet == "Datasets" then DATASETS
    else if pallet == "OverlayNetworks" then NETWORKING
    else if pallet == "Resources" then RESOURCES
    else if pallet == "Organizations" then ORGANIZATION
    else if pallet == "Budgets" then BILLING
    else COMMUNITIES
  }

  lemma {:induction false} OthersNeed(call: Call)
    requires RequiredScopes(call).Some? && call.pallet != "Jobs"
    ensures call.pallet in SCOPE_OF && RequiredScopes(call) == Some(ScopesTable.Write(ScopeOf(call.pallet)))
  {
  }

  lemma {:induction false} AdmittedExactly(call: Call)
    ensures RequiredScopes(call).Some? <==> Admitted(call)
  {
    if call.pallet == "Jobs" {
      JobsCalls(call.name, call.args);
    } else if call.pallet == "Resources" {
      ResourceCalls(call.name);
    } else if call.pallet == "Organizations" {
      OrganizationCalls(call.name);
    } else if call.pallet == "Budgets" {
      BudgetCalls(call.name);
    }
  }

  /** Of every call: it is admitted exactly when it is among those a key may make, and then needs
      writing in its pallet's scope, reading secrets if it may hand one over, and no other grant. */
  lemma {:induction false} TableIsExact(call: Call)
    ensures RequiredScopes(call).Some? <==> Admitted(call)
    ensures RequiredScopes(call).Some? ==>
              call.pallet in SCOPE_OF && IsExactly(RequiredScopes(call).value, NeededScope(call), ReadsSecret(call))
  {
    AdmittedExactly(call);
    if RequiredScopes(call).Some? {
      if call.pallet == "Jobs" {
        JobsNeed(call.name, call.args);
      } else {
        OthersNeed(call);
        WriteMeaning(ScopeOf(call.pallet));
      }
    }
  }

  /** The named grant is held. */
  ghost predicate Holds(s: ScopeSet, scope: string, access: Access) {
    exists k: Scope :: NAMES[k] == scope && Contains(s, k, access)
  }

  lemma {:induction false} ScopeNamed(call: Call) returns (k: Scope)
    requires call.pallet in SCOPE_OF
    ensures NAMES[k] == NeededScope(call)
  {
    k := if call.pallet != "Jobs" then ScopeOf(call.pallet)
         else if NeededScope(call) == "networking" then NETWORKING else DEPLOYMENTS;
  }

  lemma {:induction false} CoveringIsHolding(held: ScopeSet, call: Call)
    requires InScope(RequiredScopes, held, call)
    ensures Admitted(call) && call.pallet in SCOPE_OF && Holds(held, NeededScope(call), Access.Write)
    ensures ReadsSecret(call) ==> Holds(held, "secrets", Read)
  {
    TableIsExact(call);
    var needs := RequiredScopes(call).value;
    var k := ScopeNamed(call);
    assert Contains(needs, k, Access.Write);
    if ReadsSecret(call) {
      assert NAMES[SECRETS] == "secrets" && Contains(needs, SECRETS, Read);
    }
  }

  /** Over every run of a delegate, whatever the chain grants, a call leaves only while the grant
      holds, by name, what the call needs: no deployment takes a secret along without `secrets:r`. */
  lemma {:induction false} DelegateHoldsWhatItSends(
    signer: Option<Account>, override: Option<Account>, answer: Result<Grant, string>,
    c: Client, txs: seq<(Call, World)>, i: nat)
    requires Connected(signer, override, answer) == Ok(c) && ActsFor(signer, override, answer).Some?
    requires var log := Run(RequiredScopes, c, txs).log; i < |log| && log[i].Submitted?
    ensures var (principal, initial) := ActsFor(signer, override, answer).value;
            var log := Run(RequiredScopes, c, txs).log;
            var payload, held := log[i].payload, LatestScopes(log[..i], principal, initial);
            && IsCoveredProxy(RequiredScopes, principal, held, payload)
            && var call := payload.args[2].call;
               && Admitted(call) && call.pallet in SCOPE_OF && Holds(held, NeededScope(call), Access.Write)
               && (ReadsSecret(call) ==> Holds(held, "secrets", Read))
  {
    DelegatedRunInvariant(RequiredScopes, signer, override, answer, c, txs);
    var (principal, initial) := ActsFor(signer, override, answer).value;
    var log := Run(RequiredScopes, c, txs).log;
    CoveringIsHolding(LatestScopes(log[..i], principal, initial), log[i].payload.args[2].call);
  }
}
