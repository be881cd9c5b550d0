/**
 * Identifiers of a load balancer's child resources, as the module formats
 * them to refer from one child to another.  No validation: any strings,
 * also empty ones or ones holding '/', are formatted as given.
 */
module ResourceIds {

  const FrontendIpConfigurations := "frontendIPConfigurations"
  const BackendAddressPools := "backendAddressPools"
  const Probes := "probes"

  /** The load balancer's own identifier. */
  function LoadBalancerId(subscriptionId: string, resourceGroupName: string, loadBalancerName: string): string {
    "/subscriptions/" + subscriptionId + "/resourceGroups/" + resourceGroupName +
    "/providers/Microsoft.Network/loadBalancers/" + loadBalancerName
  }

  /** Everything up to and including the '/' before the child's name. */
  function ChildPrefix(subscriptionId: string, resourceGroupName: string, loadBalancerName: string, kind: string): string {
    LoadBalancerId(subscriptionId, resourceGroupName, loadBalancerName) + "/" + kind + "/"
  }

  function ChildId(subscriptionId: string, resourceGroupName: string, loadBalancerName: string, kind: string, name: string): (r: string)
    ensures |r| == |ChildPrefix(subscriptionId, resourceGroupName, loadBalancerName, kind)| + |name|
    ensures ChildPrefix(subscriptionId, resourceGroupName, loadBalancerName, kind) <= r
    ensures r[|r| - |name|..] == name
  {
    ChildPrefix(subscriptionId, resourceGroupName, loadBalancerName, kind) + name
  }

  /** `frontend_ip_configuration_id`: the frontend's name follows the load balancer's frontend prefix. */
  function FrontendIpConfigurationId(subscriptionId: string, resourceGroupName: string, loadBalancerName: string, name: string): (r: string)
    ensures ChildPrefix(subscriptionId, resourceGroupName, loadBalancerName, FrontendIpConfigurations) <= r
    ensures r[|ChildPrefix(subscriptionId, resourceGroupName, loadBalancerName, FrontendIpConfigurations)|..] == name
  {
    ChildId(subscriptionId, resourceGroupName, loadBalancerName, FrontendIpConfigurations, name)
  }

  /** `backend_address_pool_id`: the pool's name follows the load balancer's pool prefix. */
  function BackendAddressPoolId(subscriptionId: string, resourceGroupName: string, loadBalancerName: string, name: string): (r: string)
    ensures ChildPrefix(subscriptionId, resourceGroupName, loadBalancerName, BackendAddressPools) <= r
    ensures r[|ChildPrefix(subscriptionId, resourceGroupName, loadBalancerName, BackendAddressPools)|..] == name
  {
    ChildId(subscriptionId, resourceGroupName, loadBalancerName, BackendAddressPools, name)
  }

  /** `probe_id`: the probe's name follows the load balancer's probe prefix. */
  function ProbeId(subscriptionId: string, resourceGroupName: string, loadBalancerName: string, name: string): (r: string)
    ensures ChildPrefix(subscriptionId, resourceGroupName, loadBalancerName, Probes) <= r
    ensures r[|ChildPrefix(subscriptionId, resourceGroupName, loadBalancerName, Probes)|..] == name
  {
    ChildId(subscriptionId, resourceGroupName, loadBalancerName, Probes, name)
  }

  /** Within one kind and one load balancer, different names give different identifiers. */
  lemma ChildIdInjective(subscriptionId: string, resourceGroupName: string, loadBalancerName: string, kind: string, name1: string, name2: string)
    requires ChildId(subscriptionId, resourceGroupName, loadBalancerName, kind, name1) == ChildId(subscriptionId, resourceGroupName, loadBalancerName, kind, name2)
    ensures name1 == name2
  {
    var p := ChildPrefix(subscriptionId, resourceGroupName, loadBalancerName, kind);
    assert (p + name1)[|p|..] == name1;
    assert (p + name2)[|p|..] == name2;
  }

  /** The kind segment starts right after the load balancer's identifier and a '/'. */
  lemma KindAt(subscriptionId: string, resourceGroupName: string, loadBalancerName: string, kind: string, name: string)
    requires kind != ""
    ensures ChildId(subscriptionId, resourceGroupName, loadBalancerName, kind, name)[|LoadBalancerId(subscriptionId, resourceGroupName, loadBalancerName)| + 1] == kind[0]
  {
    var lb := LoadBalancerId(subscriptionId, resourceGroupName, loadBalancerName);
    assert ChildId(subscriptionId, resourceGroupName, loadBalancerName, kind, name) == lb + ("/" + kind + "/" + name);
  }

  /**
   * For the same subscription, group, load balancer and name, the frontend,
   * pool and probe identifiers differ: they first differ in the kind
   * segment's first letter.
   */
  lemma KindsDistinct(subscriptionId: string, resourceGroupName: string, loadBalancerName: string, name: string)
    ensures FrontendIpConfigurationId(subscriptionId, resourceGroupName, loadBalancerName, name) != BackendAddressPoolId(subscriptionId, resourceGroupName, loadBalancerName, name)
    ensures FrontendIpConfigurationId(subscriptionId, resourceGroupName, loadBalancerName, name) != ProbeId(subscriptionId, resourceGroupName, loadBalancerName, name)
    ensures BackendAddressPoolId(subscriptionId, resourceGroupName, loadBalancerName, name) != ProbeId(subscriptionId, resourceGroupName, loadBalancerName, name)
  {
    KindAt(subscriptionId, resourceGroupName, loadBalancerName, FrontendIpConfigurations, name);
    KindAt(subscriptionId, resourceGroupName, loadBalancerName, BackendAddressPools, name);
    KindAt(subscriptionId, resourceGroupName, loadBalancerName, Probes, name);
  }
}
