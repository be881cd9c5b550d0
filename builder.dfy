/**
 * The desired load balancer the module builds from its options before
 * comparing: one SDK model instance per user item, with the references
 * between children resolved to identifiers.
 */
module Builder {
  import opened Wrappers
  import opened Trees
  import opened ResourceIds

  /** The load balancer whose children refer to one another by identifier. */
  datatype Scope = Scope(subscriptionId: string, resourceGroup: string, name: string)

  /** One item of `frontend_ip_configurations`; only `name` is required. */
  datatype FrontendOptions = FrontendOptions(
    name: string,
    publicIpAddress: Option<string>,
    privateIpAddress: Option<string>,
    privateIpAllocationMethod: Option<string>,
    subnet: Option<string>,
    zones: Option<seq<string>>)

  datatype PoolOptions = PoolOptions(name: string)

  datatype ProbeOptions = ProbeOptions(
    name: string,
    port: int,
    protocol: Option<string>,
    interval: int,
    failCount: int,
    requestPath: Option<string>)

  datatype NatPoolOptions = NatPoolOptions(
    name: string,
    frontendIpConfigurationName: string,
    protocol: Option<string>,
    frontendPortRangeStart: int,
    frontendPortRangeEnd: int,
    backendPort: int)

  datatype NatRuleOptions = NatRuleOptions(
    name: string,
    frontendIpConfiguration: string,
    protocol: Option<string>,
    frontendPort: int,
    idleTimeout: Option<int>,
    backendPort: int,
    enableFloatingIp: Option<bool>,
    enableTcpReset: Option<bool>)

  datatype RuleOptions = RuleOptions(
    name: string,
    frontendIpConfiguration: string,
    backendAddressPool: string,
    probe: string,
    protocol: Option<string>,
    loadDistribution: string,
    frontendPort: int,
    backendPort: Option<int>,
    idleTimeout: int,
    enableFloatingIp: Option<bool>,
    disableOutboundSnat: bool)

  datatype State = Present | Absent

  /** The module's options. */
  datatype Options = Options(
    resourceGroup: string,
    name: string,
    state: State,
    location: Option<string>,
    sku: Option<string>,
    tags: Option<map<string, string>>,
    frontendIpConfigurations: Option<seq<FrontendOptions>>,
    backendAddressPools: Option<seq<PoolOptions>>,
    probes: Option<seq<ProbeOptions>>,
    inboundNatRules: Option<seq<NatRuleOptions>>,
    inboundNatPools: Option<seq<NatPoolOptions>>,
    loadBalancingRules: Option<seq<RuleOptions>>)

  function OptStr(o: Option<string>): Value {
    if o.Some? then Str(o.value) else Null
  }

  function OptInt(o: Option<int>): Value {
    if o.Some? then Int(o.value) else Null
  }

  function OptBool(o: Option<bool>): Value {
    if o.Some? then Bool(o.value) else Null
  }

  function TagsValue(tags: Option<map<string, string>>): Value {
    if tags.Some? then Dict(map k | k in tags.value :: Str(tags.value[k])) else Null
  }

  /** A `SubResource` naming another child by identifier. */
  function SubResource(id: string): Value {
    Object(map["id" := Str(id)])
  }

  /**
   * `[build(item) for item in items] if items else None`: one entry per
   * item, in order, and `None` for a missing or empty list.
   */
  function Collection<T>(items: Option<seq<T>>, build: T -> Value): (r: Value)
    ensures r == Null <==> items.None? || items.value == []
    ensures r != Null ==> r.List? && |r.items| == |items.value| &&
                          forall i | 0 <= i < |r.items| :: r.items[i] == build(items.value[i])
  {
    if items.None? || items.value == [] then Null
    else List(seq(|items.value|, i requires 0 <= i < |items.value| => build(items.value[i])))
  }

  function Zones(zones: Option<seq<string>>): Value {
    if zones.Some? then List(seq(|zones.value|, i requires 0 <= i < |zones.value| => Str(zones.value[i]))) else Null
  }

  /**
   * A `FrontendIPConfiguration`.  When the load balancer already exists
   * an empty zone list becomes `None`; on creation it is passed as given.
   * `publicIpId` stands for `format_resource_id` on a public IP name or id.
   */
  function FrontendIpConfiguration(publicIpId: string -> string, f: FrontendOptions, found: bool): Value {
    Object(map[
      "name" := Str(f.name),
      "public_ip_address" :=
        if Truthy(OptStr(f.publicIpAddress)) then Object(map["id" := Str(publicIpId(f.publicIpAddress.value))])
        else Null,
      "private_ip_address" := OptStr(f.privateIpAddress),
      "private_ip_allocation_method" := OptStr(f.privateIpAllocationMethod),
      "zones" := if found && !Truthy(Zones(f.zones)) then Null else Zones(f.zones),
      "subnet" :=
        if Truthy(OptStr(f.subnet)) then
          Object(map[
            "id" := Str(f.subnet.value),
            "private_endpoint_network_policies" := Null,
            "private_link_service_network_policies" := Null])
        else Null])
  }

  function BackendAddressPool(p: PoolOptions): Value {
    Object(map["name" := Str(p.name)])
  }

  function Probe(p: ProbeOptions): Value {
    Object(map[
      "name" := Str(p.name),
      "port" := Int(p.port),
      "protocol" := OptStr(p.protocol),
      "interval_in_seconds" := Int(p.interval),
      "request_path" := OptStr(p.requestPath),
      "number_of_probes" := Int(p.failCount)])
  }

  function InboundNatPool(scope: Scope, p: NatPoolOptions): Value {
    Object(map[
      "name" := Str(p.name),
      "frontend_ip_configuration" :=
        SubResource(FrontendIpConfigurationId(scope.subscriptionId, scope.resourceGroup, scope.name, p.frontendIpConfigurationName)),
      "protocol" := OptStr(p.protocol),
      "frontend_port_range_start" := Int(p.frontendPortRangeStart),
      "frontend_port_range_end" := Int(p.frontendPortRangeEnd),
      "backend_port" := Int(p.backendPort)])
  }

  function LoadBalancingRule(scope: Scope, r: RuleOptions): Value {
    Object(map[
      "name" := Str(r.name),
      "frontend_ip_configuration" :=
        SubResource(FrontendIpConfigurationId(scope.subscriptionId, scope.resourceGroup, scope.name, r.frontendIpConfiguration)),
      "backend_address_pool" :=
        SubResource(BackendAddressPoolId(scope.subscriptionId, scope.resourceGroup, scope.name, r.backendAddressPool)),
      "probe" := SubResource(ProbeId(scope.subscriptionId, scope.resourceGroup, scope.name, r.probe)),
      "protocol" := OptStr(r.protocol),
      "load_distribution" := Str(r.loadDistribution),
      "frontend_port" := Int(r.frontendPort),
      "backend_port" := OptInt(r.backendPort),
      "idle_timeout_in_minutes" := Int(r.idleTimeout),
      "enable_floating_ip" := OptBool(r.enableFloatingIp),
      "disable_outbound_snat" := Bool(r.disableOutboundSnat)])
  }

  /** An `InboundNatRule`; an empty frontend name leaves the frontend reference `None`. */
  function InboundNatRule(scope: Scope, r: NatRuleOptions): Value {
    Object(map[
      "name" := Str(r.name),
      "frontend_ip_configuration" :=
        if r.frontendIpConfiguration != "" then
          SubResource(FrontendIpConfigurationId(scope.subscriptionId, scope.resourceGroup, scope.name, r.frontendIpConfiguration))
        else Null,
      "protocol" := OptStr(r.protocol),
      "frontend_port" := Int(r.frontendPort),
      "backend_port" := Int(r.backendPort),
      "idle_timeout_in_minutes" := OptInt(r.idleTimeout),
      "enable_tcp_reset" := OptBool(r.enableTcpReset),
      "enable_floating_ip" := OptBool(r.enableFloatingIp)])
  }

  /** The name an item of any of the six collections carries. */
  function ItemName(v: Value): Value {
    GetAttr(v, "name")
  }

  /** Each built item is an instance named as the user item it comes from, in the same position. */
  predicate NamedInOrder<T>(r: Value, items: Option<seq<T>>, name: T -> string) {
    r.List? ==>
      && items.Some? && |r.items| == |items.value|
      && forall i | 0 <= i < |r.items| :: r.items[i].Object? && ItemName(r.items[i]) == Str(name(items.value[i]))
  }

  function FrontendIpConfigurations(publicIpId: string -> string, items: Option<seq<FrontendOptions>>, found: bool): (r: Value)
    ensures r == Null <==> items.None? || items.value == []
    ensures NamedInOrder(r, items, (f: FrontendOptions) => f.name)
    ensures r.List? ==> forall i | 0 <= i < |r.items| ::
      (GetAttr(r.items[i], "public_ip_address") != Null <==> Truthy(OptStr(items.value[i].publicIpAddress))) &&
      (GetAttr(r.items[i], "subnet") != Null <==> Truthy(OptStr(items.value[i].subnet)))
  {
    Collection(items, (f: FrontendOptions) => FrontendIpConfiguration(publicIpId, f, found))
  }

  function BackendAddressPools(items: Option<seq<PoolOptions>>): (r: Value)
    ensures r == Null <==> items.None? || items.value == []
    ensures NamedInOrder(r, items, (p: PoolOptions) => p.name)
  {
    Collection(items, BackendAddressPool)
  }

  function Probes(items: Option<seq<ProbeOptions>>): (r: Value)
    ensures r == Null <==> items.None? || items.value == []
    ensures NamedInOrder(r, items, (p: ProbeOptions) => p.name)
    ensures r.List? ==> forall i | 0 <= i < |r.items| ::
      GetAttr(r.items[i], "protocol") == OptStr(items.value[i].protocol)
  {
    Collection(items, Probe)
  }

  /** NAT pools refer to their frontend by identifier. */
  function InboundNatPools(scope: Scope, items: Option<seq<NatPoolOptions>>): (r: Value)
    ensures r == Null <==> items.None? || items.value == []
    ensures NamedInOrder(r, items, (p: NatPoolOptions) => p.name)
    ensures r.List? ==> forall i | 0 <= i < |r.items| ::
      GetAttr(r.items[i], "protocol") == OptStr(items.value[i].protocol) &&
      GetAttr(GetAttr(r.items[i], "frontend_ip_configuration"), "id") ==
        Str(FrontendIpConfigurationId(scope.subscriptionId, scope.resourceGroup, scope.name, items.value[i].frontendIpConfigurationName))
  {
    Collection(items, (p: NatPoolOptions) => InboundNatPool(scope, p))
  }

  /** Load-balancing rules refer to their frontend, pool and probe by identifier. */
  function LoadBalancingRules(scope: Scope, items: Option<seq<RuleOptions>>): (r: Value)
    ensures r == Null <==> items.None? || items.value == []
    ensures NamedInOrder(r, items, (p: RuleOptions) => p.name)
    ensures r.List? ==> forall i | 0 <= i < |r.items| ::
      var rule := items.value[i];
      GetAttr(r.items[i], "protocol") == OptStr(rule.protocol) &&
      GetAttr(GetAttr(r.items[i], "frontend_ip_configuration"), "id") ==
        Str(FrontendIpConfigurationId(scope.subscriptionId, scope.resourceGroup, scope.name, rule.frontendIpConfiguration)) &&
      GetAttr(GetAttr(r.items[i], "backend_address_pool"), "id") ==
        Str(BackendAddressPoolId(scope.subscriptionId, scope.resourceGroup, scope.name, rule.backendAddressPool)) &&
      GetAttr(GetAttr(r.items[i], "probe"), "id") ==
        Str(ProbeId(scope.subscriptionId, scope.resourceGroup, scope.name, rule.probe))
  {
    Collection(items, (p: RuleOptions) => LoadBalancingRule(scope, p))
  }

  /** NAT rules refer to their frontend by identifier, or not at all when none is named. */
  function InboundNatRules(scope: Scope, items: Option<seq<NatRuleOptions>>): (r: Value)
    ensures r == Null <==> items.None? || items.value == []
    ensures NamedInOrder(r, items, (p: NatRuleOptions) => p.name)
    ensures r.List? ==> forall i | 0 <= i < |r.items| ::
      GetAttr(r.items[i], "protocol") == OptStr(items.value[i].protocol) &&
      (GetAttr(r.items[i], "frontend_ip_configuration") == Null <==> items.value[i].frontendIpConfiguration == "") &&
      (items.value[i].frontendIpConfiguration != "" ==>
        GetAttr(GetAttr(r.items[i], "frontend_ip_configuration"), "id") ==
          Str(FrontendIpConfigurationId(scope.subscriptionId, scope.resourceGroup, scope.name, items.value[i].frontendIpConfiguration)))
  {
    Collection(items, (p: NatRuleOptions) => InboundNatRule(scope, p))
  }

  /**
   * The `LoadBalancer` the module constructs, before `assign_protocol` and
   * `object_assign`: `location` is the already-resolved location and
   * `found` whether the load balancer was found.
   */
  function NewLoadBalancer(scope: Scope, publicIpId: string -> string, opts: Options, location: string, found: bool): (r: map<string, Value>)
    ensures r.Keys == {"sku", "location", "tags", "frontend_ip_configurations", "backend_address_pools",
                       "probes", "inbound_nat_pools", "load_balancing_rules", "inbound_nat_rules"}
    ensures r["sku"] != Null <==> Truthy(OptStr(opts.sku))
    ensures Truthy(OptStr(opts.sku)) ==> r["sku"] == Object(map["name" := Str(opts.sku.value)])
    ensures r["location"] == Str(location) && r["tags"] == TagsValue(opts.tags)
    ensures r["frontend_ip_configurations"] == FrontendIpConfigurations(publicIpId, opts.frontendIpConfigurations, found)
    ensures r["backend_address_pools"] == BackendAddressPools(opts.backendAddressPools)
    ensures r["probes"] == Probes(opts.probes)
    ensures r["inbound_nat_pools"] == InboundNatPools(scope, opts.inboundNatPools)
    ensures r["load_balancing_rules"] == LoadBalancingRules(scope, opts.loadBalancingRules)
    ensures r["inbound_nat_rules"] == InboundNatRules(scope, opts.inboundNatRules)
  {
    map[
      "sku" := if Truthy(OptStr(opts.sku)) then Object(map["name" := Str(opts.sku.value)]) else Null,
      "location" := Str(location),
      "tags" := TagsValue(opts.tags),
      "frontend_ip_configurations" := FrontendIpConfigurations(publicIpId, opts.frontendIpConfigurations, found),
      "backend_address_pools" := BackendAddressPools(opts.backendAddressPools),
      "probes" := Probes(opts.probes),
      "inbound_nat_pools" := InboundNatPools(scope, opts.inboundNatPools),
      "load_balancing_rules" := LoadBalancingRules(scope, opts.loadBalancingRules),
      "inbound_nat_rules" := InboundNatRules(scope, opts.inboundNatRules)]
  }

  /** The frontend built for an existing load balancer differs from the one built for creation only in empty zones. */
  lemma FrontendBranchesDifferInZonesOnly(publicIpId: string -> string, f: FrontendOptions, a: string)
    ensures a != "zones" ==> GetAttr(FrontendIpConfiguration(publicIpId, f, true), a) == GetAttr(FrontendIpConfiguration(publicIpId, f, false), a)
    ensures GetAttr(FrontendIpConfiguration(publicIpId, f, true), "zones") ==
      if f.zones.Some? && f.zones.value == [] then Null else GetAttr(FrontendIpConfiguration(publicIpId, f, false), "zones")
  {
  }
}
