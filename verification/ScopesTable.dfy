/** The scopes each call needs, and what the table means for a delegated run. */
module ScopesTable {
  import opened Wrappers
  import opened Scopes
  import opened DelegatedClient
  import opened DelegationTheorems

  // Discriminants of the scopes.
  const DEPLOYMENTS: Scope := 0
  const COLLABORATIONS: Scope := 1
  const SECRETS: Scope := 2
  const VOLUMES: Scope := 3
  const DATASETS: Scope := 4
  const NETWORKING: Scope := 5
  const RESOURCES: Scope := 6
  const ORGANIZATION: Scope := 7
  const BILLING: Scope := 8
  const COMMUNITIES: Scope := 9

  const SCOPED_PALLETS: seq<string> := [
    "Jobs", "Collaborations", "Secrets", "Volumes", "Datasets",
    "OverlayNetworks", "Resources", "Organizations", "Budgets", "Communities"]

  /** Per scoped pallet, the calls no key may ever make. */
  const NEVER_ADMITTED: seq<(string, seq<string>)> := [
    ("Jobs", ["update_deployment_status", "set_deployment_network", "report_tls_status"]),
    ("Resources", ["report_consumption", "request_consumption_report", "report_capacity", "update_sku", "remove_sku",
                   "set_provider_min_stake"]),
    ("Collaborations", ["set_compute_node_image", "set_compute_node_sku_id"]),
    ("OverlayNetworks", []),
    ("Volumes", []),
    ("Secrets", []),
    ("Datasets", ["force_delist_dataset", "force_restore_dataset", "force_delete_dataset"]),
    ("Organizations", ["create_org", "delete_org"]),
    ("Budgets", ["fund_org_treasury", "withdraw_org_treasury", "authorize_project_deployer", "revoke_project_deployer",
                 "claim_sponsorship", "transfer_sponsorship", "authorize_project_secrets_agent",
                 "revoke_project_secrets_agent", "authorize_org_resource_operator", "revoke_org_resource_operator",
                 "bond_org_stake", "unbond_org_stake", "withdraw_org_stake", "approve_sponsor", "authorize_agent_key",
                 "revoke_agent_key", "fund_non_revolving_treasury", "withdraw_non_revolving_treasury"]),
    ("Communities", ["force_delist_community", "force_restore_community", "force_delete_community"])]

  function Write(scope: Scope): ScopeSet {
    Single(scope, Access.Write)
  }

  const DEPLOY_WITH_SECRET: ScopeSet := With(Write(DEPLOYMENTS), SECRETS, Read)

  // ---------- arguments ----------

  function Arg(args: seq<Value>, i: nat): Option<Value> {
    if i < |args| then Some(args[i]) else None
  }

  /** Definitely the variant `None`; an absent value is not. */
  predicate IsNone(value: Option<Value>) {
    value.Some? && value.value.Variant? && value.value.name == "None"
  }

  function FieldOf(fields: seq<(string, Value)>, name: string): Option<Value> {
    if fields == [] then None
    else if fields[0].0 == name then Some(fields[0].1)
    else FieldOf(fields[1..], name)
  }

  /** Anything that cannot be read counts as referencing a secret. */
  predicate RequestReferencesSecret(request: Option<Value>) {
    if request.None? || !request.value.Named? then true
    else
      var fields := request.value.fields;
      !IsNone(FieldOf(fields, "secret_ref")) || !IsNone(FieldOf(fields, "tls_secret_ref"))
  }

  // ---------- the table ----------

  function OfJobs(name: string, args: seq<Value>): Option<ScopeSet> {
    if name == "request_deployment" then
      Some(if RequestReferencesSecret(Arg(args, 0)) then DEPLOY_WITH_SECRET else Write(DEPLOYMENTS))
    else if name == "set_deployment_secret_ref" then
      Some(if IsNone(Arg(args, 1)) then Write(DEPLOYMENTS) else DEPLOY_WITH_SECRET)
    else if name in ["cancel_deployment", "set_deployment_env", "set_deployment_image", "set_deployment_launch",
                     "set_deployment_policy_root", "set_deployment_volumes", "set_deployment_restart_policy"] then
      Some(Write(DEPLOYMENTS))
    else if name in ["register_wg_peer", "remove_wg_peer"] then Some(Write(NETWORKING))
    else None
  }

  const RESOURCE_CALLS: seq<string> := [
    "register_resource", "register_private_resource", "register_org_resource", "reactivate_resource",
      "suspend_resource",
    "set_resource_privacy", "add_to_whitelist", "remove_from_whitelist", "update_resource_name", "remove_resource"]

  const ORGANIZATION_CALLS: seq<string> := [
    "add_member", "set_member_role", "remove_member", "create_project", "assign_to_project", "unassign_from_project",
    "delete_project", "add_project_deployment_peer"]

  const BUDGET_CALLS: seq<string> := [
    "allot", "defund_project", "set_plan_allotment", "add_purchased_allotment", "set_purchased_allotment",
    "set_member_billing", "clear_member_billing", "set_member_gas_limit", "set_project_spend_cap"]

  /** What the call needs, or none if no set of scopes admits it. */
  function RequiredScopes(call: Call): (r: Option<ScopeSet>)
    ensures r.Some? ==> r.value != EMPTY && r.value <= ALL && call.pallet in SCOPED_PALLETS
  {
    if call.pallet == "Jobs" then OfJobs(call.name, call.args)
    else if call.pallet == "Collaborations" then
      if call.name in ["set_compute_node_image", "set_compute_node_sku_id"] then None else Some(Write(COLLABORATIONS))
    else if call.pallet == "Secrets" then Some(Write(SECRETS))
    else if call.pallet == "Volumes" then Some(Write(VOLUMES))
    else if call.pallet == "OverlayNetworks" then Some(Write(NETWORKING))
    else if call.pallet == "Datasets" then
      if call.name in ["force_delist_dataset", "force_restore_dataset", "force_delete_dataset"] then None
      else Some(Write(DATASETS))
    else if call.pallet == "Resources" then
      if call.name in RESOURCE_CALLS then Some(Write(RESOURCES)) else None
    else if call.pallet == "Organizations" then
      if call.name in ORGANIZATION_CALLS then Some(Write(ORGANIZATION)) else None
    else if call.pallet == "Budgets" then
      if call.name in BUDGET_CALLS then Some(Write(BILLING)) else None
    else if call.pallet == "Communities" then
      if call.name in ["force_delist_community", "force_restore_community", "force_delete_community"] then None
      else Some(Write(COMMUNITIES))
    else None
  }

  // ---------- what the table keeps out ----------

  lemma {:induction false} JobsAreRefused(name: string, args: seq<Value>)
    requires name in NEVER_ADMITTED[0].1
    ensures OfJobs(name, args).None?
  {
  }

  lemma {:induction false} ResourcesAreRefused(name: string)
    requires name in NEVER_ADMITTED[1].1
    ensures name !in RESOURCE_CALLS
  {
  }

  lemma {:induction false} OrganizationsAreRefused(name: string)
    requires name in NEVER_ADMITTED[7].1
    ensures name !in ORGANIZATION_CALLS
  {
  }

  lemma {:induction false} BudgetsAreRefused(name: string)
    requires name in NEVER_ADMITTED[8].1
    ensures name !in BUDGET_CALLS
  {
  }

  /** No set of scopes, however wide, admits a call on the never list. */
  lemma {:induction false} NeverAdmittedIsRefused(i: nat, name: string, args: seq<Value>)
    requires i < |NEVER_ADMITTED| && name in NEVER_ADMITTED[i].1
    ensures RequiredScopes(Call(NEVER_ADMITTED[i].0, name, args)).None?
  {
    if i == 0 {
      JobsAreRefused(name, args);
    } else if i == 1 {
      ResourcesAreRefused(name);
    } else if i == 7 {
      OrganizationsAreRefused(name);
    } else if i == 8 {
      BudgetsAreRefused(name);
    }
  }

  ghost predicate NeverListed(call: Call) {
    exists i: nat :: i < |NEVER_ADMITTED| && call.pallet == NEVER_ADMITTED[i].0 && call.name in NEVER_ADMITTED[i].1
  }

  lemma {:induction false} AdmittedIsNotListed(call: Call)
    requires RequiredScopes(call).Some?
    ensures !NeverListed(call)
  {
    forall i: nat | i < |NEVER_ADMITTED| && call.pallet == NEVER_ADMITTED[i].0
      ensures call.name !in NEVER_ADMITTED[i].1
    {
      if call.name in NEVER_ADMITTED[i].1 {
        NeverAdmittedIsRefused(i, call.name, call.args);
      }
    }
  }

  /** Over every run of a delegate, whatever the chain grants, each submission wraps a call of a
      scoped pallet that is not on the never list and is in the scopes granted at the time. */
  lemma {:induction false} DelegateStaysInTheTable(
    signer: Option<Account>, override: Option<Account>, answer: Result<Grant, string>,
    c: Client, txs: seq<(Call, World)>, i: nat)
    requires Connected(signer, override, answer) == Ok(c) && ActsFor(signer, override, answer).Some?
    requires var log := Run(RequiredScopes, c, txs).log; i < |log| && log[i].Submitted?
    ensures var (principal, initial) := ActsFor(signer, override, answer).value;
            var log := Run(RequiredScopes, c, txs).log;
            var payload := log[i].payload;
            && IsCoveredProxy(RequiredScopes, principal, LatestScopes(log[..i], principal, initial), payload)
            && var call := payload.args[2].call;
               call.pallet in SCOPED_PALLETS && !NeverListed(call)
                 && LatestScopes(log[..i], principal, initial) != EMPTY
  {
    DelegatedRunInvariant(RequiredScopes, signer, override, answer, c, txs);
    AdmittedIsNotListed(Run(RequiredScopes, c, txs).log[i].payload.args[2].call);
  }

  // ---------- the Go table ----------

  /** Go writes the same table, but shuts out every dataset and community call by its prefix. */
  function GoRequiredScopes(call: Call): (r: Option<ScopeSet>)
    ensures r.Some? ==> r.value != EMPTY && r.value <= ALL && call.pallet in SCOPED_PALLETS
  {
    if (call.pallet == "Datasets" || call.pallet == "Communities") && "force_" <= call.name then None
    else RequiredScopes(call)
  }

  /** A prefixed call that the Rust table does not list: no such call exists at present. */
  predicate ForcedButUnlisted(call: Call) {
    && "force_" <= call.name
    && ((call.pallet == "Datasets" && call.name !in NEVER_ADMITTED[6].1)
        || (call.pallet == "Communities" && call.name !in NEVER_ADMITTED[9].1))
  }

  /** So the tables differ exactly on prefixed calls that Rust does not list; Go refuses them
      whatever is held, and Rust admits them. */
  lemma {:induction false} TablesDifferOnPrefix(held: ScopeSet, call: Call)
    ensures GoRequiredScopes(call) != RequiredScopes(call) <==> ForcedButUnlisted(call)
    ensures OutOfScope(GoRequiredScopes, held, call) != OutOfScope(RequiredScopes, held, call) <==>
              ForcedButUnlisted(call)
    ensures ForcedButUnlisted(call) ==> GoRequiredScopes(call).None? && RequiredScopes(call).Some?
  {
  }

  /** A dataset call that no runtime has yet: Rust would admit it, Go never. */
  lemma {:induction false} PrefixExample()
    ensures var call := Call("Datasets", "force_rename_dataset", []);
            && ForcedButUnlisted(call) && RequiredScopes(call) == Some(Write(DATASETS)) && GoRequiredScopes(call).None?
  {
    var name := "force_rename_dataset";
    assert name[..6] == "force_";
  }
}
