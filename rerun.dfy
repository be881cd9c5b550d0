/**
 * Running the module a second time with the same options, against the
 * load balancer the service stored after the first run, finds nothing to
 * change but tags: the completed desired state it rebuilds asks for no
 * more than what is stored, so `default_compare` accepts it.
 */
module Rerun {
  import opened Wrappers
  import opened Trees
  import opened Differ
  import opened LoadBalancerModel
  import opened Builder
  import opened Reconciler

  /** Field by field, the serialised `s` extends the serialised `d`. */
  predicate AttrsExtend(s: Attributes, d: Attributes) {
    forall k | k in d && d[k] != Null :: k in s && s[k] != Null && Extends(AsDict(s[k]), AsDict(d[k]))
  }

  lemma AttrsExtendIff(s: Attributes, d: Attributes)
    ensures Extends(AsDict(Object(s)), AsDict(Object(d))) <==> AttrsExtend(s, d)
  {
    var sd, dd := AsDict(Object(s)), AsDict(Object(d));
    if AttrsExtend(s, d) {
      forall k | k in dd.fields ensures k in sd.fields && Extends(sd.fields[k], dd.fields[k]) {
        assert sd.fields[k] == AsDict(s[k]);
      }
    }
    if Extends(sd, dd) {
      forall k | k in d && d[k] != Null ensures k in s && s[k] != Null && Extends(AsDict(s[k]), AsDict(d[k])) {
        assert k in dd.fields;
      }
    }
  }

  /** A value that serialises to a string is that string. */
  lemma AsDictStr(v: Value, x: string)
    requires AsDict(v) == Str(x)
    ensures v == Str(x)
  {
  }

  lemma AsDictItem(v: Value, j: int)
    requires v.List? && 0 <= j < |v.items|
    ensures AsDict(v).items[j] == AsDict(v.items[j])
  {
  }

  /** An instance extends the same instance with some attributes cleared. */
  lemma ClearedAttrs(a1: Attributes, a2: Attributes)
    requires forall k | k in a2 :: a2[k] == Null || (k in a1 && a2[k] == a1[k])
    ensures Extends(AsDict(Object(a1)), AsDict(Object(a2)))
  {
    forall k | k in a2 && a2[k] != Null ensures k in a1 && a1[k] != Null && Extends(AsDict(a1[k]), AsDict(a2[k])) {
      ExtendsReflexive(AsDict(a1[k]));
    }
    AttrsExtendIff(a1, a2);
  }

  /** The names of a collection's items are strings and pairwise different. */
  predicate DistinctNames(items: seq<Value>) {
    && (forall i | 0 <= i < |items| :: GetAttr(items[i], "name").Str?)
    && (forall i, j | 0 <= i < j < |items| :: GetAttr(items[i], "name") != GetAttr(items[j], "name"))
  }

  /**
   * An item that inherits its protocol from the stored item matches that
   * item, whatever protocol it was given the first time.
   */
  lemma ItemAgainstStored(item: Value, p1: Value, o: Value)
    requires item.Object? && o.Object?
    requires Extends(AsDict(o), AsDict(Object(item.attrs["protocol" := p1])))
    ensures Extends(AsDict(o), AsDict(Object(item.attrs["protocol" := GetAttr(o, "protocol")])))
  {
    var a1 := item.attrs["protocol" := p1];
    var a2 := item.attrs["protocol" := GetAttr(o, "protocol")];
    AttrsExtendIff(o.attrs, a1);
    forall k | k in a2 && a2[k] != Null ensures k in o.attrs && o.attrs[k] != Null && Extends(AsDict(o.attrs[k]), AsDict(a2[k])) {
      if k == "protocol" {
        ExtendsReflexive(AsDict(o.attrs[k]));
      } else {
        assert a2[k] == a1[k];
      }
    }
    AttrsExtendIff(o.attrs, a2);
  }

  /** One set attribute of an extended instance. */
  lemma FieldExtends(o: Value, d: Value, k: string)
    requires o.Object? && d.Object? && Extends(AsDict(o), AsDict(d))
    requires k in d.attrs && d.attrs[k] != Null
    ensures k in o.attrs && o.attrs[k] != Null && Extends(AsDict(o.attrs[k]), AsDict(d.attrs[k]))
  {
    AttrsExtendIff(o.attrs, d.attrs);
  }

  /** Back-filling keeps an item's name. */
  lemma BackfilledName(items: seq<Value>, refs1: Value, j: int)
    requires forall x | x in items :: CanBackfill(x, refs1)
    requires 0 <= j < |items|
    ensures BackfilledItems(items, refs1).items[j].Object?
    ensures GetAttr(BackfilledItems(items, refs1).items[j], "name") == GetAttr(items[j], "name")
  {
    assert items[j] in items;
    assert BackfilledItems(items, refs1).items[j] == BackfillItem(items[j], refs1);
  }

  /** The stored collection carries the submitted names, position by position. */
  lemma StoredNames(items: seq<Value>, refs1: Value, sv: Value, j: int)
    requires forall x | x in items :: CanBackfill(x, refs1)
    requires DistinctNames(items) && 0 <= j < |items|
    requires sv.List? && Extends(AsDict(sv), AsDict(BackfilledItems(items, refs1)))
    requires sv.items[j].Object?
    ensures GetAttr(sv.items[j], "name") == GetAttr(items[j], "name")
  {
    var b1 := BackfilledItems(items, refs1);
    var first := b1.items[j];
    var name := GetAttr(items[j], "name");
    BackfilledName(items, refs1, j);
    assert "name" in first.attrs && first.attrs["name"] == name;
    AsDictItem(b1, j);
    AsDictItem(sv, j);
    var o := sv.items[j];
    assert Extends(AsDict(o), AsDict(first));
    FieldExtends(o, first, "name");
    AsDictStr(o.attrs["name"], name.s);
  }

  /**
   * A collection rebuilt from the same items, inheriting protocols from the
   * stored collection, asks for no more than the stored collection holds.
   */
  lemma BackfillAgainstStored(items: seq<Value>, refs1: Value, sv: Value)
    requires forall x | x in items :: CanBackfill(x, refs1) && CanBackfill(x, sv)
    requires DistinctNames(items)
    requires Extends(AsDict(sv), AsDict(BackfilledItems(items, refs1)))
    ensures Extends(AsDict(sv), AsDict(BackfilledItems(items, sv)))
  {
    var b1, b2 := BackfilledItems(items, refs1), BackfilledItems(items, sv);
    assert sv.List?;
    forall j | 0 <= j < |items| ensures Extends(AsDict(sv).items[j], AsDict(b2).items[j]) {
      assert items[j] in items;
      AsDictItem(sv, j);
      AsDictItem(b1, j);
      AsDictItem(b2, j);
      var item := items[j];
      if !Truthy(GetAttr(item, "protocol")) {
        var name := GetAttr(item, "name");
        forall i | 0 <= i < |sv.items| ensures GetAttr(sv.items[i], "name") == GetAttr(items[i], "name") {
          assert sv.items[i] in sv.items;
          StoredNames(items, refs1, sv, i);
        }
        assert NameMatches(sv.items[j], name);
        forall i | 0 <= i < j ensures !NameMatches(sv.items[i], name) {
        }
        InheritsFromFirstNamed(name.s, sv.items, j);
        assert sv.items[j] in sv.items;
        ItemAgainstStored(item, GetAttr(b1.items[j], "protocol"), sv.items[j]);
      }
    }
  }

  /**
   * The completed desired state rebuilt against the stored load balancer
   * `s` asks for no more than `s` holds, when `s` holds everything the
   * first run submitted and the rebuilt attributes ask for no more than
   * the first build did.
   */
  lemma RebuiltMatchesStored(b1: Attributes, b2: Attributes, e1: Option<Attributes>, s: Attributes)
    requires AllBackfillable(b1, e1) && AllBackfillable(b2, Some(s))
    requires b2.Keys <= CopiedNames
    requires forall k | k in ProtocolCollections :: Attr(b2, k) == Attr(b1, k)
    requires forall k | k in b2 && Truthy(b2[k]) :: Truthy(Attr(b1, k)) && Extends(AsDict(Attr(b1, k)), AsDict(b2[k]))
    requires forall k | k in ProtocolCollections && Truthy(Attr(b1, k)) :: DistinctNames(Attr(b1, k).items)
    requires AttrsExtend(s, DesiredFrom(b1, e1))
    ensures AttrsExtend(s, DesiredFrom(b2, Some(s)))
  {
    var d1, pa1 := DesiredFrom(b1, e1), ProtocolsAssigned(b1, e1);
    var pa2 := ProtocolsAssigned(b2, Some(s));
    var d2 := DesiredFrom(b2, Some(s));
    assert d2 == Assigned(pa2, s);
    forall k | k in d2 && d2[k] != Null ensures k in s && s[k] != Null && Extends(AsDict(s[k]), AsDict(d2[k])) {
      if k in CopiedNames && !Truthy(Attr(pa2, k)) {
        assert d2[k] == Attr(s, k);
        ExtendsReflexive(AsDict(s[k]));
      } else {
        assert k in b2 && d2[k] == pa2[k];
        if k in ProtocolCollections {
          assert Truthy(b2[k]);
          var items := b2[k].items;
          assert Backfillable(b1, e1, k);
          assert pa1[k] == BackfilledItems(items, References(e1, k));
          assert d1[k] == pa1[k];
          assert Backfillable(b2, Some(s), k);
          BackfillAgainstStored(items, References(e1, k), s[k]);
        } else {
          assert d1[k] == b1[k];
          ExtendsTransitive(AsDict(s[k]), AsDict(b1[k]), AsDict(b2[k]));
        }
      }
    }
  }

  /** The frontend built for an existing load balancer asks for no more than the one built before. */
  lemma FrontendRebuilt(p1: string -> string, p2: string -> string, f: FrontendOptions, found: bool)
    requires forall x :: p2(x) == p1(x)
    ensures Extends(AsDict(FrontendIpConfiguration(p1, f, found)), AsDict(FrontendIpConfiguration(p2, f, true)))
  {
    ClearedAttrs(FrontendIpConfiguration(p1, f, found).attrs, FrontendIpConfiguration(p2, f, true).attrs);
  }

  lemma FrontendsRebuilt(p1: string -> string, p2: string -> string, items: Option<seq<FrontendOptions>>, found: bool)
    requires forall x :: p2(x) == p1(x)
    ensures Truthy(FrontendIpConfigurations(p2, items, true)) ==> Truthy(FrontendIpConfigurations(p1, items, found))
    ensures Extends(AsDict(FrontendIpConfigurations(p1, items, found)), AsDict(FrontendIpConfigurations(p2, items, true)))
  {
    var r1, r2 := FrontendIpConfigurations(p1, items, found), FrontendIpConfigurations(p2, items, true);
    if r2 != Null {
      forall i | 0 <= i < |r2.items| ensures Extends(AsDict(r1).items[i], AsDict(r2).items[i]) {
        AsDictItem(r1, i);
        AsDictItem(r2, i);
        FrontendRebuilt(p1, p2, items.value[i], found);
      }
    }
  }

  /** Distinct user names give distinct item names. */
  predicate DistinctOptions<T>(items: Option<seq<T>>, name: T -> string) {
    items.Some? ==> forall i, j | 0 <= i < j < |items.value| :: name(items.value[i]) != name(items.value[j])
  }

  predicate UniqueNames(opts: Options) {
    && DistinctOptions(opts.probes, (p: ProbeOptions) => p.name)
    && DistinctOptions(opts.inboundNatRules, (p: NatRuleOptions) => p.name)
    && DistinctOptions(opts.inboundNatPools, (p: NatPoolOptions) => p.name)
    && DistinctOptions(opts.loadBalancingRules, (p: RuleOptions) => p.name)
  }

  lemma NamedDistinct<T>(r: Value, items: Option<seq<T>>, name: T -> string)
    requires NamedInOrder(r, items, name) && DistinctOptions(items, name) && r.List?
    ensures DistinctNames(r.items)
  {
  }

  /** Rebuilding in the same surroundings changes only the frontends. */
  lemma RebuiltShape(opts: Options, env1: Environment, env2: Environment)
    requires env2.subscriptionId == env1.subscriptionId
    requires env2.resourceGroupLocation == env1.resourceGroupLocation
    requires env2.existing.Some?
    ensures Built(opts, env1)["frontend_ip_configurations"] ==
      FrontendIpConfigurations(env1.publicIpId, opts.frontendIpConfigurations, env1.existing.Some?)
    ensures Built(opts, env2) == Built(opts, env1)["frontend_ip_configurations" :=
      FrontendIpConfigurations(env2.publicIpId, opts.frontendIpConfigurations, true)]
  {
    assert ScopeOf(opts, env1) == ScopeOf(opts, env2);
    assert ResolvedLocation(opts, env1) == ResolvedLocation(opts, env2);
  }

  /**
   * Rebuilding with the load balancer present gives the same protocol
   * collections and asks for no more than the first build.
   */
  lemma BuiltAgain(opts: Options, env1: Environment, env2: Environment)
    requires env2.subscriptionId == env1.subscriptionId
    requires env2.resourceGroupLocation == env1.resourceGroupLocation
    requires forall x :: env2.publicIpId(x) == env1.publicIpId(x)
    requires env2.existing.Some?
    ensures Built(opts, env2).Keys <= CopiedNames
    ensures forall k | k in ProtocolCollections :: Attr(Built(opts, env2), k) == Attr(Built(opts, env1), k)
    ensures forall k | k in Built(opts, env2) && Truthy(Built(opts, env2)[k]) ::
      Truthy(Attr(Built(opts, env1), k)) && Extends(AsDict(Attr(Built(opts, env1), k)), AsDict(Built(opts, env2)[k]))
  {
    var b1 := Built(opts, env1);
    var b2 := Built(opts, env2);
    var f2 := FrontendIpConfigurations(env2.publicIpId, opts.frontendIpConfigurations, true);
    BuiltKeys(opts, env1);
    RebuiltShape(opts, env1, env2);
    assert b2 == b1["frontend_ip_configurations" := f2];
    FrontendsRebuilt(env1.publicIpId, env2.publicIpId, opts.frontendIpConfigurations, env1.existing.Some?);
    OneAttributeCleared(b1, b2, "frontend_ip_configurations", f2);
  }

  /** The constructed load balancer sets only attributes `object_assign` may fill. */
  lemma BuiltKeys(opts: Options, env: Environment)
    ensures Built(opts, env).Keys <= CopiedNames
    ensures "frontend_ip_configurations" in Built(opts, env)
  {
    var b := Built(opts, env);
    assert b.Keys == ConstructedNames;
    ConstructedNamesCopied();
  }

  /** The attributes `LoadBalancer(...)` is given in the module. */
  const ConstructedNames: set<string> :=
    {"sku", "location", "tags", "frontend_ip_configurations", "backend_address_pools",
     "probes", "inbound_nat_pools", "load_balancing_rules", "inbound_nat_rules"}

  lemma ConstructedNamesCopied()
    ensures ConstructedNames <= CopiedNames
  {
  }

  lemma OneAttributeCleared(b1: Attributes, b2: Attributes, key: string, v: Value)
    requires b1.Keys <= CopiedNames && key in b1 && key !in ProtocolCollections
    requires b2 == b1[key := v]
    requires Truthy(v) ==> Truthy(b1[key])
    requires Extends(AsDict(b1[key]), AsDict(v))
    ensures b2.Keys <= CopiedNames
    ensures forall k | k in ProtocolCollections :: Attr(b2, k) == Attr(b1, k)
    ensures forall k | k in b2 && Truthy(b2[k]) :: Truthy(Attr(b1, k)) && Extends(AsDict(Attr(b1, k)), AsDict(b2[k]))
  {
    forall k | k in b2 && Truthy(b2[k]) ensures Truthy(Attr(b1, k)) && Extends(AsDict(Attr(b1, k)), AsDict(b2[k])) {
      if k != key {
        ExtendsReflexive(AsDict(b1[k]));
      }
    }
  }

  /** Distinct user names give distinct names in the four protocol collections. */
  lemma BuiltNamesDistinct(opts: Options, env: Environment)
    requires UniqueNames(opts)
    ensures forall k | k in ProtocolCollections && Truthy(Attr(Built(opts, env), k)) :: DistinctNames(Attr(Built(opts, env), k).items)
  {
    var b := Built(opts, env);
    forall k | k in ProtocolCollections && Truthy(Attr(b, k)) ensures DistinctNames(Attr(b, k).items) {
      if k == "probes" {
        NamedDistinct(b[k], opts.probes, (p: ProbeOptions) => p.name);
      } else if k == "inbound_nat_rules" {
        NamedDistinct(b[k], opts.inboundNatRules, (p: NatRuleOptions) => p.name);
      } else if k == "inbound_nat_pools" {
        NamedDistinct(b[k], opts.inboundNatPools, (p: NatPoolOptions) => p.name);
      } else {
        NamedDistinct(b[k], opts.loadBalancingRules, (p: RuleOptions) => p.name);
      }
    }
  }

  /**
   * The second run: same options and surroundings, and the service holds
   * what the first run submitted, possibly with fields of its own.  Then
   * the resource does not differ, and the run reports a change only when
   * `update_tags` does.
   */
  lemma SecondRunChangesOnlyTags(opts: Options, env1: Environment, env2: Environment)
    requires opts.state.Present? && UniqueNames(opts)
    requires env2.subscriptionId == env1.subscriptionId
    requires env2.resourceGroupLocation == env1.resourceGroupLocation
    requires forall x :: env2.publicIpId(x) == env1.publicIpId(x)
    requires CanReconcile(opts, env1) && CanReconcile(opts, env2)
    requires env2.existing.Some?
    requires Extends(AsDict(Object(env2.existing.value)), AsDict(Object(Desired(opts, env1))))
    ensures !Differs(opts, env2)
    ensures Changed(opts, env2) == (Attr(env2.existing.value, "tags") != Null && env2.tagsChanged)
  {
    var s := env2.existing.value;
    BuiltAgain(opts, env1, env2);
    BuiltNamesDistinct(opts, env1);
    AttrsExtendIff(s, Desired(opts, env1));
    RebuiltMatchesStored(Built(opts, env1), Built(opts, env2), env1.existing, s);
    AttrsExtendIff(s, Desired(opts, env2));
    CompareExtends(AsDict(Object(Desired(opts, env2))), AsDict(Object(s)));
    if Truthy(TagsValue(opts.tags)) {
      assert Desired(opts, env1)["tags"] == TagsValue(opts.tags);
    }
  }
}
