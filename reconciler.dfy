/**
 * `exec_module`: build the desired load balancer, complete it from the
 * existing one, decide whether anything changes, and create, update or
 * delete unless in check mode.  The cloud calls are inputs: what
 * `get_load_balancer` found, what `update_tags` answers, and what
 * `create_or_update_load_balancer` returns.
 */
module Reconciler {
  import opened Wrappers
  import opened Trees
  import opened Differ
  import opened LoadBalancerModel
  import opened Builder

  /** What the module learns from outside: the subscription, the cloud's answers, and check mode. */
  datatype Environment = Environment(
    subscriptionId: string,
    resourceGroupLocation: string,
    publicIpId: string -> string,
    existing: Option<Attributes>,
    tagsChanged: bool,
    mergedTags: Value,
    checkMode: bool,
    stored: Attributes)

  /** `self.results`. */
  datatype Results = Results(changed: bool, state: Value)

  function ScopeOf(opts: Options, env: Environment): Scope {
    Scope(env.subscriptionId, opts.resourceGroup, opts.name)
  }

  /** `self.location`: the option if set, else the resource group's location. */
  function ResolvedLocation(opts: Options, env: Environment): string {
    if Truthy(OptStr(opts.location)) then opts.location.value else env.resourceGroupLocation
  }

  /** The `LoadBalancer` constructed from the options. */
  function Built(opts: Options, env: Environment): Attributes {
    NewLoadBalancer(ScopeOf(opts, env), env.publicIpId, opts, ResolvedLocation(opts, env), env.existing.Some?)
  }

  /** `assign_protocol`, then `object_assign` when a load balancer exists. */
  function DesiredFrom(built: Attributes, existing: Option<Attributes>): Attributes
    requires AllBackfillable(built, existing)
  {
    var backfilled := ProtocolsAssigned(built, existing);
    if existing.Some? then Assigned(backfilled, existing.value) else backfilled
  }

  /**
   * The run raises no exception: `assign_protocol` can read every
   * reference it needs and `default_compare` can sort every list it meets.
   */
  predicate CanReconcile(opts: Options, env: Environment) {
    opts.state.Present? ==>
      && AllBackfillable(Built(opts, env), env.existing)
      && (env.existing.Some? ==>
            Defined(AsDict(Object(DesiredFrom(Built(opts, env), env.existing))), AsDict(Object(env.existing.value))))
  }

  function Desired(opts: Options, env: Environment): Attributes
    requires CanReconcile(opts, env) && opts.state.Present?
  {
    DesiredFrom(Built(opts, env), env.existing)
  }

  /** `load_balancer.as_dict() if load_balancer else {}`. */
  function InitialState(env: Environment): Value {
    if env.existing.Some? then AsDict(Object(env.existing.value)) else Dict(map[])
  }

  /** Whether the resource itself differs, before tags are considered. */
  function Differs(opts: Options, env: Environment): bool
    requires CanReconcile(opts, env)
  {
    if opts.state.Present? then
      env.existing.None? || !Compare(AsDict(Object(Desired(opts, env))), AsDict(Object(env.existing.value)))
    else env.existing.Some?
  }

  /** `results['changed']`. */
  function Changed(opts: Options, env: Environment): bool
    requires CanReconcile(opts, env)
  {
    if HasKey(InitialState(env), "tags") then Differs(opts, env) || env.tagsChanged
    else Differs(opts, env) || Truthy(TagsValue(opts.tags))
  }

  /** `results['state']` before any effect: the existing load balancer with its tags merged. */
  function ReportedState(env: Environment): Value {
    var state := InitialState(env);
    if HasKey(state, "tags") then Dict(state.fields["tags" := env.mergedTags]) else state
  }

  /** `results['state']` at the end of the run. */
  function FinalState(opts: Options, env: Environment): Value
    requires CanReconcile(opts, env)
  {
    if env.checkMode || !Changed(opts, env) then ReportedState(env)
    else if opts.state.Present? then AsDict(Object(env.stored))
    else Null
  }

  /** The module instance: its options as attributes, the results, and what it asked of the cloud. */
  class LoadBalancerModule {
    var location: Option<string>
    var newLoadBalancer: LoadBalancer?
    var results: Results
    /** The argument of `create_or_update_load_balancer`, once called. */
    var submitted: Option<Attributes>
    /** Whether `delete_load_balancer` was called. */
    var deleted: bool

    constructor ()
      ensures location.None? && newLoadBalancer == null
      ensures results == Results(false, Dict(map[]))
      ensures submitted.None? && !deleted
    {
      location := None;
      newLoadBalancer := null;
      results := Results(false, Dict(map[]));
      submitted := None;
      deleted := false;
    }

    method ExecModule(opts: Options, env: Environment) returns (r: Results)
      requires CanReconcile(opts, env)
      modifies this
      ensures location == Some(ResolvedLocation(opts, env))
      ensures opts.state.Present? ==> newLoadBalancer != null && fresh(newLoadBalancer) && newLoadBalancer.attrs == Desired(opts, env)
      ensures opts.state.Absent? ==> newLoadBalancer == old(newLoadBalancer)
      ensures r == results && results == Results(Changed(opts, env), FinalState(opts, env))
      ensures submitted == if !env.checkMode && opts.state.Present? && Changed(opts, env) then Some(Desired(opts, env)) else old(submitted)
      ensures deleted == (old(deleted) || (!env.checkMode && opts.state.Absent? && Changed(opts, env)))
      ensures env.checkMode ==> submitted == old(submitted) && deleted == old(deleted)
    {
      location := opts.location;
      if !Truthy(OptStr(location)) {
        location := Some(env.resourceGroupLocation);
      }
      var changed := Reconcile(opts, env);
      var state := InitialState(env);
      if HasKey(state, "tags") {
        var updateTags := env.tagsChanged;
        state := Dict(state.fields["tags" := env.mergedTags]);
        if updateTags {
          changed := true;
        }
      } else if Truthy(TagsValue(opts.tags)) {
        changed := true;
      }
      assert changed == Changed(opts, env) && state == ReportedState(env);
      results := Results(changed, state);
      if env.checkMode {
        return results;
      }
      Apply(opts, env);
      r := results;
    }

    /** The last lines of `exec_module`: create or update, or delete, when there is a change. */
    method Apply(opts: Options, env: Environment)
      requires CanReconcile(opts, env) && !env.checkMode
      requires results == Results(Changed(opts, env), ReportedState(env))
      requires opts.state.Present? ==> newLoadBalancer != null && newLoadBalancer.attrs == Desired(opts, env)
      modifies this
      ensures results == Results(Changed(opts, env), FinalState(opts, env))
      ensures submitted == if opts.state.Present? && Changed(opts, env) then Some(Desired(opts, env)) else old(submitted)
      ensures deleted == (old(deleted) || (opts.state.Absent? && Changed(opts, env)))
      ensures location == old(location) && newLoadBalancer == old(newLoadBalancer)
    {
      if opts.state == Present && results.changed {
        submitted := Some(newLoadBalancer.attrs);
        results := results.(state := AsDict(Object(env.stored)));
      } else if opts.state == Absent && results.changed {
        deleted := true;
        results := results.(state := Null);
      }
    }

    /**
     * The first half of `exec_module`: with `state=present`, build
     * `new_load_balancer`, complete it and compare it with the existing
     * load balancer; with `state=absent`, a change iff one exists.
     */
    method Reconcile(opts: Options, env: Environment) returns (changed: bool)
      requires CanReconcile(opts, env) && location == Some(ResolvedLocation(opts, env))
      modifies this
      ensures changed == Differs(opts, env)
      ensures opts.state.Present? ==> newLoadBalancer != null && fresh(newLoadBalancer) && newLoadBalancer.attrs == Desired(opts, env)
      ensures opts.state.Absent? ==> newLoadBalancer == old(newLoadBalancer)
      ensures location == old(location) && results == old(results) && submitted == old(submitted) && deleted == old(deleted)
    {
      changed := false;
      var loadBalancer := env.existing;
      if opts.state == Present {
        var lb := BuildDesired(opts, env);
        if loadBalancer.Some? {
          var loadBalancerDict := AsDict(Object(loadBalancer.value));
          var newDict := AsDict(Object(lb.attrs));
          if !Compare(newDict, loadBalancerDict) {
            changed := true;
          } else {
            changed := false;
          }
        } else {
          changed := true;
        }
        newLoadBalancer := lb;
      } else if opts.state == Absent && loadBalancer.Some? {
        changed := true;
      }
    }

    /** `LoadBalancer(...)` from the options, then `assign_protocol` and, for an update, `object_assign`. */
    method BuildDesired(opts: Options, env: Environment) returns (lb: LoadBalancer)
      requires CanReconcile(opts, env) && opts.state.Present? && location == Some(ResolvedLocation(opts, env))
      ensures fresh(lb) && lb.attrs == Desired(opts, env)
    {
      var loadBalancer := env.existing;
      var built := NewLoadBalancer(ScopeOf(opts, env), env.publicIpId, opts, location.value, loadBalancer.Some?);
      assert built == Built(opts, env);
      lb := new LoadBalancer(built);
      lb.AssignProtocol(loadBalancer);
      if loadBalancer.Some? {
        lb.ObjectAssign(loadBalancer.value);
      }
    }
  }

  /** Present with no load balancer: always a change (a creation). */
  lemma CreatingIsAChange(opts: Options, env: Environment)
    requires CanReconcile(opts, env) && opts.state.Present? && env.existing.None?
    ensures Changed(opts, env)
  {
  }

  /**
   * Present with a load balancer: a change exactly when the completed
   * desired state does not match the existing one, or the tags changed.
   */
  lemma UpdatingChangesIffDiffers(opts: Options, env: Environment)
    requires CanReconcile(opts, env) && opts.state.Present? && env.existing.Some?
    ensures Changed(opts, env) <==>
      || !Compare(AsDict(Object(Desired(opts, env))), AsDict(Object(env.existing.value)))
      || (if Attr(env.existing.value, "tags") != Null then env.tagsChanged else Truthy(TagsValue(opts.tags)))
  {
  }

  /** Absent with a load balancer: always a change (a deletion). */
  lemma DeletingIsAChange(opts: Options, env: Environment)
    requires CanReconcile(opts, env) && opts.state.Absent? && env.existing.Some?
    ensures Changed(opts, env)
  {
  }

  /** Absent with no load balancer: a change only when non-empty tags were given. */
  lemma AbsentAndMissingChangesOnlyForTags(opts: Options, env: Environment)
    requires CanReconcile(opts, env) && opts.state.Absent? && env.existing.None?
    ensures Changed(opts, env) <==> opts.tags.Some? && opts.tags.value != map[]
  {
  }
}
