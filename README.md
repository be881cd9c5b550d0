# azure_rm_loadbalancer reconciliation, in Dafny

A model of the reconciliation logic of the Ansible module
`azure_rm_loadbalancer` (Azure collection), which creates, updates or deletes
an Azure load balancer. Each run of the module does five things:

- It builds the desired `LoadBalancer` from the module's options, resolving
  the references between children (frontend, backend pool, probe) to resource
  identifiers.
- It gives rules, NAT rules, NAT pools and probes that have no protocol the
  protocol of the existing child of the same name, or `Tcp` (`assign_protocol`).
- It fills every top-level attribute the user left empty from the existing
  load balancer (`object_assign`).
- It compares the serialised desired and existing load balancers with the
  one-directional, order-insensitive `default_compare`.
- From that verdict and the tag outcome it decides `changed`. Outside check
  mode it then creates, updates or deletes.

Modules, leaves first:

- `Wrappers` (`wrappers.dfy`): `Option`.
- `Trees` (`trees.dfy`): one `Value` type for Python scalars, lists and dicts
  and for SDK model instances (`Object`, whose missing attributes are `None`).
  It also holds Python truthiness and `==`, and `as_dict()` (`AsDict`), which
  drops `None` attributes.
- `Sorting` (`sorting.dfy`): Python's stable `sorted()` as an insertion sort
  over a total order that extends Python's `<` on numbers and strings. Proved:
  the result is sorted, is a permutation, does not depend on the input order
  when ties are identical, and keeps two key-aligned lists aligned.
- `Differ` (`differ.dfy`): `default_compare` as `Compare`, with the
  no-exception condition `Defined` and its properties.
- `ResourceIds` (`resource_ids.dfy`): the three identifier builders.
- `LoadBalancerModel` (`load_balancer.dfy`): the SDK `LoadBalancer` instance as
  a class whose methods `AssignProtocol` and `ObjectAssign` update its
  attributes in place with the source's loops. Each method is proved against a
  specification function (`ProtocolsAssigned`, `Assigned`), and lemmas about
  those functions give the back-fill and merge properties.
- `Builder` (`builder.dfy`): the typed module options and the construction of
  the desired children and load balancer.
- `Reconciler` (`reconciler.dfy`): `exec_module` as a method of the module
  class. Its fields are `location`, `new_load_balancer`, `results` and the two
  effects (what was submitted to create-or-update, whether delete was called).
  The method is proved against the specification functions `Changed` and
  `FinalState`.
- `Rerun` (`rerun.dfy`): a second run is a no-op. Take the same options and
  the same surroundings, and let the service hold at least what the first run
  submitted. Then the rebuilt and completed desired state matches the stored
  one, so the run reports a change only when `update_tags` does.

Some behaviours of the code are easy to misread. The model follows the code
as written:

- With `state=absent`, no existing load balancer, and non-empty `tags`, the
  code reports `changed = true` (`azure_rm_loadbalancer.py:803-804`). Outside
  check mode it also calls delete and sets `state` to `None` (:812-814).
  Absent-and-missing is a no-op only when no tags are given.
- The update branch of the frontend build reads `load_balancer.frontend_ip_configurations`
  into a variable that is never used (:672). The frontends are not paired with
  the existing ones by position or by name. The only difference from the
  create branch is that an empty `zones` list becomes `None` (:664 vs :681).
- The sort key of a list of dicts is chosen from the first element of each
  list only (:887-890), not from every element. If the chosen key is missing
  from a later element, it sorts as `None`, and Python then raises.
- After a delete the reported state is `None` (:814), not an empty dict.

## Model

| member | source | states |
|---|---|---|
| `Trees.AsDict` | plugins/modules/azure_rm_loadbalancer.py:786-787 | `as_dict()` yields a serialised tree. An instance becomes a dict whose keys are exactly its non-`None` attributes. Lists keep their length and dicts their keys. |
| `Trees.AsDictIdempotent` | plugins/modules/azure_rm_loadbalancer.py:786-787 | Serialising an already serialised tree changes nothing. |
| `Sorting.Sort` | plugins/modules/azure_rm_loadbalancer.py:891-895 | `sorted()` returns a permutation of its input with the same length and elements. |
| `Sorting.SortSorted` | plugins/modules/azure_rm_loadbalancer.py:891-895 | `sorted()` output is ordered by the sort key. |
| `Sorting.SortPermutationInvariant` | plugins/modules/azure_rm_loadbalancer.py:891-895 | When elements with equal keys are identical, sorting two permutations of one list gives the same list. |
| `Sorting.SortAligned` | plugins/modules/azure_rm_loadbalancer.py:891-899 | Two lists whose elements pair up with equal keys stay paired after both are sorted, so pairwise relations survive the sort. |
| `Sorting.SortStable` | plugins/modules/azure_rm_loadbalancer.py:891-895 | `sorted()` is stable: the elements whose sort keys are equivalent to any given key come out in the order they went in, so among children of the same name the comparison pairs them in their list order. |
| `Differ.Compare` | plugins/modules/azure_rm_loadbalancer.py:872-901 | A dict never matches a non-dict. A list never matches a non-list or a list of another length. Two empty lists always match. |
| `Differ.ExtraOldKeysIgnored` | plugins/modules/azure_rm_loadbalancer.py:873-879 | Keys present only in the old dict never change the verdict. |
| `Differ.FewerNewKeysStillMatch` | plugins/modules/azure_rm_loadbalancer.py:876-879 | Removing keys from the new dict never turns a match into a mismatch. |
| `Differ.NotSymmetric` | plugins/modules/azure_rm_loadbalancer.py:873-879 | `{}` matches `{'x': 1}`, but `{'x': 1}` does not match `{}`. |
| `Differ.ListPermutationInsensitive` | plugins/modules/azure_rm_loadbalancer.py:885-899 | Reordering either list does not change the verdict, provided the chosen key is unchanged and no two different elements have equal keys. |
| `Differ.ByIdInAnyOrder` | plugins/modules/azure_rm_loadbalancer.py:885-899 | Lists of dicts whose `id` is present, comparable and unique compare the same in any order. |
| `Differ.ByNameInAnyOrder` | plugins/modules/azure_rm_loadbalancer.py:885-899 | The same holds for `name`-keyed lists when one side has no `id`. |
| `Differ.ScalarsInAnyOrder` | plugins/modules/azure_rm_loadbalancer.py:893-899 | Lists of strings or of integers compare the same in any order. |
| `Differ.CompareExtends` | plugins/modules/azure_rm_loadbalancer.py:872-901 | A new tree matches every old tree that carries everything it carries, possibly with more keys. |
| `Differ.CompareReflexive` | plugins/modules/azure_rm_loadbalancer.py:872-901 | Every tree the comparison is defined on matches itself. |
| `ResourceIds.FrontendIpConfigurationId` | plugins/modules/azure_rm_loadbalancer.py:904-911 | The id is the load balancer's id, then `/frontendIPConfigurations/`, then the name. |
| `ResourceIds.BackendAddressPoolId` | plugins/modules/azure_rm_loadbalancer.py:914-921 | The id is the load balancer's id, then `/backendAddressPools/`, then the name. |
| `ResourceIds.ProbeId` | plugins/modules/azure_rm_loadbalancer.py:924-931 | The id is the load balancer's id, then `/probes/`, then the name. |
| `ResourceIds.ChildIdInjective` | plugins/modules/azure_rm_loadbalancer.py:904-931 | Within one kind and one load balancer, different names give different ids. |
| `ResourceIds.KindsDistinct` | plugins/modules/azure_rm_loadbalancer.py:904-931 | For the same inputs, the frontend, pool and probe ids are pairwise different. |
| `LoadBalancerModel.Named` | plugins/modules/azure_rm_loadbalancer.py:866-867 | Holds exactly the references whose native name equals the item's name. Its first element is the first such reference. |
| `LoadBalancerModel.LoadBalancer.constructor` | plugins/modules/azure_rm_loadbalancer.py:770-780 | The new instance holds the given attributes. |
| `LoadBalancerModel.LoadBalancer.AssignProtocol` | plugins/modules/azure_rm_loadbalancer.py:856-869 | The attributes afterwards are exactly `ProtocolsAssigned` of the old attributes and the origin. |
| `LoadBalancerModel.LoadBalancer.BackfillCollection` | plugins/modules/azure_rm_loadbalancer.py:862-868 | The inner loop replaces one collection by its items, each back-filled, and touches nothing else. |
| `LoadBalancerModel.LoadBalancer.ObjectAssign` | plugins/modules/azure_rm_loadbalancer.py:849-854 | The attributes afterwards are exactly `Assigned` of the old attributes and the origin. |
| `LoadBalancerModel.BackfillTouchesOnlyProtocols` | plugins/modules/azure_rm_loadbalancer.py:857-861 | Every attribute other than the four protocol collections is unchanged, and so is an empty or missing collection. |
| `LoadBalancerModel.BackfillItems` | plugins/modules/azure_rm_loadbalancer.py:862-868 | A collection keeps its length and order. An item that has a protocol keeps it, and an item without one gets the inherited protocol. No other field of any item changes. |
| `LoadBalancerModel.InheritsFromFirstNamed` | plugins/modules/azure_rm_loadbalancer.py:866-868 | The inherited protocol is that of the first existing child with the item's name. |
| `LoadBalancerModel.DefaultsToTcp` | plugins/modules/azure_rm_loadbalancer.py:863-868 | With no existing child of that name, or no existing load balancer at all, the protocol is `Tcp`. |
| `LoadBalancerModel.ProtocolsAssignedIdempotent` | plugins/modules/azure_rm_loadbalancer.py:856-869 | Running `assign_protocol` a second time with the same origin changes nothing. |
| `LoadBalancerModel.AssignedFields` | plugins/modules/azure_rm_loadbalancer.py:849-854 | A truthy field is kept. A falsy field that is not read-only takes the origin's value. Read-only fields are never copied. |
| `LoadBalancerModel.AssignedKeepsEverySetField` | plugins/modules/azure_rm_loadbalancer.py:851-853 | A copied field that is truthy in the patch or in the origin is truthy afterwards. |
| `LoadBalancerModel.AssignedIdempotent` | plugins/modules/azure_rm_loadbalancer.py:849-854 | Running `object_assign` a second time with the same origin changes nothing. |
| `Builder.Collection` | plugins/modules/azure_rm_loadbalancer.py:689-691 | One entry per user item, in order. `None` exactly when the input is `None` or empty. |
| `Builder.FrontendIpConfigurations` | plugins/modules/azure_rm_loadbalancer.py:658-687 | One named frontend per item, in order, `None` for no items. A public IP or subnet reference is present exactly when one was given. |
| `Builder.BackendAddressPools` | plugins/modules/azure_rm_loadbalancer.py:689-691 | One named pool per item, in order, `None` for no items. |
| `Builder.Probes` | plugins/modules/azure_rm_loadbalancer.py:693-700 | One named probe per item, in order, `None` for no items. Each probe carries the given protocol, or `None`. |
| `Builder.InboundNatPools` | plugins/modules/azure_rm_loadbalancer.py:702-714 | One named NAT pool per item, in order. Each refers to its frontend by the frontend id. |
| `Builder.LoadBalancingRules` | plugins/modules/azure_rm_loadbalancer.py:716-749 | One named rule per item, in order. Each refers to its frontend, backend pool and probe by their ids. |
| `Builder.InboundNatRules` | plugins/modules/azure_rm_loadbalancer.py:751-767 | One named NAT rule per item, in order. The frontend reference is `None` exactly when no frontend was named, and otherwise is the frontend id. |
| `Builder.NewLoadBalancer` | plugins/modules/azure_rm_loadbalancer.py:770-780 | The constructed load balancer sets exactly sku, location, tags and the six collections. The sku is present exactly when one is given, and then carries its name. Each collection entry is what its collection builder gives for the matching option (frontends, pools, probes, NAT pools, rules, NAT rules), so the per-collection contracts hold of the load balancer itself. |
| `Builder.FrontendBranchesDifferInZonesOnly` | plugins/modules/azure_rm_loadbalancer.py:658-687 | The frontend built for an existing load balancer equals the one built for creation, except that an empty zone list becomes `None`. |
| `Reconciler.LoadBalancerModule.constructor` | plugins/modules/azure_rm_loadbalancer.py:625-636 | The module starts with no location, no new load balancer, `changed=False`, `state={}` and no effects. |
| `Reconciler.LoadBalancerModule.ExecModule` | plugins/modules/azure_rm_loadbalancer.py:643-816 | Location is the option or the resource group's location. With `present`, the new load balancer is the built and completed desired state. `results` is `(Changed, FinalState)`. Create-or-update receives the desired state exactly when not in check mode, `present` and changed. Delete is called exactly when not in check mode, `absent` and changed. Check mode causes no effect. |
| `Reconciler.LoadBalancerModule.Reconcile` | plugins/modules/azure_rm_loadbalancer.py:656-795 | The pre-tag `changed` equals `Differs`, and with `present` the new load balancer is the desired state. |
| `Reconciler.LoadBalancerModule.BuildDesired` | plugins/modules/azure_rm_loadbalancer.py:770-785 | A fresh load balancer whose attributes are the built options, completed by `assign_protocol` and, when one exists, `object_assign` against the existing load balancer. |
| `Reconciler.LoadBalancerModule.Apply` | plugins/modules/azure_rm_loadbalancer.py:810-814 | Create-or-update with the desired state when `present` and changed. Delete with state `None` when `absent` and changed. Otherwise nothing. |
| `Reconciler.CreatingIsAChange` | plugins/modules/azure_rm_loadbalancer.py:790-793 | `present` with no existing load balancer is always a change. |
| `Reconciler.UpdatingChangesIffDiffers` | plugins/modules/azure_rm_loadbalancer.py:784-805 | `present` with an existing load balancer is a change exactly when `default_compare` fails or the tag outcome says so. |
| `Reconciler.DeletingIsAChange` | plugins/modules/azure_rm_loadbalancer.py:794-795 | `absent` with an existing load balancer is always a change. |
| `Reconciler.AbsentAndMissingChangesOnlyForTags` | plugins/modules/azure_rm_loadbalancer.py:794-804 | `absent` with no load balancer is a change exactly when non-empty tags are given. |
| `Rerun.ItemAgainstStored` | plugins/modules/azure_rm_loadbalancer.py:866-868 | An item that inherits the stored item's protocol matches the stored item, whatever protocol it had before. |
| `Rerun.BackfillAgainstStored` | plugins/modules/azure_rm_loadbalancer.py:862-868 | Take a collection back-filled from the stored one, with distinct names. It asks for no more than the stored collection holds, whatever it inherited in the first run. |
| `Rerun.RebuiltMatchesStored` | plugins/modules/azure_rm_loadbalancer.py:782-787 | Complete the rebuilt attributes against the stored load balancer. The result asks for no more than is stored, provided the store holds the first run's submission. |
| `Rerun.FrontendsRebuilt` | plugins/modules/azure_rm_loadbalancer.py:658-687 | The frontends built for an existing load balancer ask for no more than those built in the first run. |
| `Rerun.BuiltAgain` | plugins/modules/azure_rm_loadbalancer.py:656-780 | Rebuilding with the load balancer present gives the same protocol collections. Every truthy attribute asks for no more than before. |
| `Rerun.SecondRunChangesOnlyTags` | plugins/modules/azure_rm_loadbalancer.py:643-816 | A second run with the same options, against what the service stored from the first run, finds no difference, and reports `changed` only when `update_tags` does. |

## Left out

- The cloud calls (`get_resource_group`, `get_load_balancer`,
  `create_or_update_load_balancer`, `delete_load_balancer`, poller waits) are
  inputs of `Environment`: the resource group's location, the existing load
  balancer as an `Option`, and what create-or-update returns. The calls
  themselves are the effect fields `submitted` and `deleted`. Their failures
  (`self.fail`) are not modelled.
- `get_public_ip_address_instance` and `format_resource_id` are an opaque
  function `publicIpId` from the given name or id to the public IP's id. The
  latter lives in a shared utility that is not part of this model.
- `update_tags` comes from the module's base class, which is not part of this
  model. Its answer (tags changed, merged tags) is an input.
- `as_dict()` is modelled as `AsDict`: attribute names as keys, `None`
  attributes dropped. msrest's key transformers and read-only handling are not
  modelled.
- The Ansible argument specification is not modelled: no `choices`, no
  aliases, no defaults. Options it defaults (`interval`, `fail_count`,
  `load_distribution`, `idle_timeout`, `disable_outbound_snat`) are plain,
  always-present fields of the option datatypes, whatever value they hold; an
  explicit `null` for them is not modelled.
- The `LoadBalancer` attribute list and read-only list stand for the network
  SDK's `_attribute_map` and `_validation`, which are not part of this model.
- Floats are not modelled.
- `Differ.Compare`: its precondition `Defined` (Python's `sorted()` raises no
  exception) is stronger than the source needs. It also constrains children
  after a first mismatch, which the source never reaches.
- `Differ.Compare`: lists of two or more elements whose sort keys are lists
  (lists of lists sorted naturally, or dicts whose key field holds a list) are
  excluded by `Defined`, although Python compares lists lexicographically. For
  the other non-scalar keys (dicts, `None`) and for numbers mixed with
  strings, Python's `sorted()` raises `TypeError`, and `Defined` excludes
  exactly those.
- `LoadBalancerModel.ToNative` covers strings, `None` and booleans only. Names
  are strings after argument validation.
- `LoadBalancerModel.LoadBalancer.AssignProtocol` requires that the existing
  collection is a list of instances wherever an item without a protocol reads
  it. Otherwise the source raises on iterating `None`.
- `LoadBalancerModel.LoadBalancer.ObjectAssign` copies values. The source
  copies references to the origin's sub-objects, so the two objects share
  them; the model does not capture that aliasing.
- `LoadBalancerModel.LoadBalancer.ObjectAssign` picks the remaining attributes
  in an arbitrary order. Python iterates a set; the result does not depend on
  the order.
- `Reconciler.LoadBalancerModule.ExecModule` requires `CanReconcile`:
  `assign_protocol` raises no exception, and `Defined` holds for the
  comparison. Through `Defined` this also excludes some runs that raise
  nothing: those where `default_compare` returns `False` at an earlier key or
  list position (azure_rm_loadbalancer.py:877-878, :897-898) before it would
  reach a list `sorted()` cannot order.
- `Rerun.SecondRunChangesOnlyTags` is weaker than unconditional idempotence.
  It assumes distinct child names in the four protocol collections, the same
  subscription, location and public IP resolution, and a service that stores
  at least what was submitted. With two children of the same name, one
  without a protocol, the second run can inherit the other's protocol and
  report a change: probes `p` with `Http` and `p` with none are created as
  `Http` and `Tcp`, and the second run submits `Http` for both. A third run
  then finds nothing to change. Only the distinct-name case is proved.
- The `path` argument of `default_compare` only builds a string that is never
  read, and is not modelled.
