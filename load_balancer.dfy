/**
 * The SDK `LoadBalancer` instance the module builds and then completes in
 * place: `assign_protocol` gives rules, pools and probes without a protocol
 * the protocol of the existing child of the same name, and `object_assign`
 * fills every top-level attribute the user left empty from the existing
 * load balancer.
 */
module LoadBalancerModel {
  import opened Wrappers
  import opened Trees

  /** Attribute values of an SDK model instance; a missing attribute is `None`. */
  type Attributes = map<string, Value>

  /** The attributes the SDK's `LoadBalancer` model declares (`_attribute_map`). */
  const AttributeNames: set<string> := {
    "id", "name", "type", "location", "tags", "extended_location", "sku", "etag",
    "frontend_ip_configurations", "backend_address_pools", "load_balancing_rules",
    "probes", "inbound_nat_rules", "inbound_nat_pools", "outbound_rules",
    "resource_guid", "provisioning_state"
  }

  /** The read-only attributes (`_validation`), which `object_assign` never copies. */
  const ReadOnlyNames: set<string> := {"name", "type", "etag", "resource_guid", "provisioning_state"}

  const CopiedNames: set<string> := AttributeNames - ReadOnlyNames

  /** The children whose protocol `assign_protocol` fills in, in the order it visits them. */
  const ProtocolCollections: seq<string> := ["probes", "inbound_nat_rules", "inbound_nat_pools", "load_balancing_rules"]

  const DefaultProtocol: string := "Tcp"

  /** A list of SDK model instances. */
  predicate IsObjectList(v: Value) {
    v.List? && forall x | x in v.items :: x.Object?
  }

  /**
   * Ansible's `to_native` on a name: strings are kept, `None` and booleans
   * become their Python `str()`; other kinds are not modelled.
   */
  function ToNative(v: Value): Option<string> {
    match v
    case Str(s) => Some(s)
    case Null => Some("None")
    case Bool(b) => Some(if b then "True" else "False")
    case _ => None
  }

  /** `to_native(x.name) == name`: only a string name can equal the native string. */
  predicate NameMatches(x: Value, name: Value) {
    name.Str? && ToNative(GetAttr(x, "name")) == Some(name.s)
  }

  /** `references[i]` is the first reference whose name matches. */
  predicate FirstNamedAt(references: seq<Value>, name: Value, i: int) {
    0 <= i < |references| && NameMatches(references[i], name) &&
    forall j :: 0 <= j < i ==> !NameMatches(references[j], name)
  }

  /** `[x for x in references if to_native(x.name) == name]`. */
  function Named(references: seq<Value>, name: Value): (r: seq<Value>)
    ensures forall x :: x in r <==> x in references && NameMatches(x, name)
    ensures r != [] ==> exists i :: FirstNamedAt(references, name, i) && references[i] == r[0]
  {
    if references == [] then []
    else if NameMatches(references[0], name) then
      assert FirstNamedAt(references, name, 0);
      [references[0]] + Named(references[1..], name)
    else
      var rest := Named(references[1..], name);
      assert rest != [] ==> exists i :: FirstNamedAt(references, name, i) && references[i] == rest[0] by {
        if rest != [] {
          var i :| FirstNamedAt(references[1..], name, i) && references[1..][i] == rest[0];
          forall j | 0 <= j < i + 1 ensures !NameMatches(references[j], name) {
            if j > 0 { assert references[j] == references[1..][j - 1]; }
          }
          assert FirstNamedAt(references, name, i + 1);
        }
      }
      rest
  }

  /** The protocol an item without one receives: that of the first reference with its name, else `'Tcp'`. */
  function InheritedProtocol(name: Value, references: seq<Value>): Value {
    var refs := Named(references, name);
    if |refs| > 0 then GetAttr(refs[0], "protocol") else Str(DefaultProtocol)
  }

  /** The references are read only for an item with no protocol, and must then be a list of instances. */
  predicate CanBackfill(item: Value, references: Value) {
    item.Object? && (!Truthy(GetAttr(item, "protocol")) ==> IsObjectList(references))
  }

  function BackfillItem(item: Value, references: Value): Value
    requires CanBackfill(item, references)
  {
    if Truthy(GetAttr(item, "protocol")) then item
    else Object(item.attrs["protocol" := InheritedProtocol(GetAttr(item, "name"), references.items)])
  }

  /** `getattr(origin, attribute) if origin else []`. */
  function References(origin: Option<Attributes>, attribute: string): Value {
    if origin.Some? then Attr(origin.value, attribute) else List([])
  }

  /** `assign_protocol` can run on this collection without an exception. */
  predicate Backfillable(patch: Attributes, origin: Option<Attributes>, attribute: string) {
    var properties := Attr(patch, attribute);
    Truthy(properties) ==>
      IsObjectList(properties) &&
      forall x | x in properties.items :: CanBackfill(x, References(origin, attribute))
  }

  predicate AllBackfillable(patch: Attributes, origin: Option<Attributes>) {
    forall a | a in ProtocolCollections :: Backfillable(patch, origin, a)
  }

  /** One collection after `assign_protocol`: an empty or missing one is left as it is. */
  function Backfilled(patch: Attributes, origin: Option<Attributes>, attribute: string): Value
    requires Backfillable(patch, origin, attribute)
  {
    var properties := Attr(patch, attribute);
    if !Truthy(properties) then properties
    else
      BackfilledItems(properties.items, References(origin, attribute))
  }

  /** Every item of a collection, each completed by `BackfillItem`, in order. */
  function BackfilledItems(properties: seq<Value>, references: Value): Value
    requires forall x | x in properties :: CanBackfill(x, references)
  {
    List(seq(|properties|, i requires 0 <= i < |properties| => BackfillItem(properties[i], references)))
  }

  /** The attributes after `assign_protocol(patch, origin)`. */
  function ProtocolsAssigned(patch: Attributes, origin: Option<Attributes>): Attributes
    requires AllBackfillable(patch, origin)
  {
    map k | k in patch :: if k in ProtocolCollections then Backfilled(patch, origin, k) else patch[k]
  }

  /** The attributes after `object_assign(patch, origin)`. */
  function Assigned(patch: Attributes, origin: Attributes): Attributes {
    map k | k in patch.Keys + CopiedNames ::
      if k in CopiedNames && !Truthy(Attr(patch, k)) then Attr(origin, k) else patch[k]
  }

  /** An SDK `LoadBalancer` instance whose attributes the module sets in place. */
  class LoadBalancer {
    var attrs: Attributes

    constructor (attrs: Attributes)
      ensures this.attrs == attrs
    {
      this.attrs := attrs;
    }

    /**
     * `assign_protocol(self, origin)`: visits the four collections and, in
     * each non-empty one, sets the protocol of every item that has none.
     */
    method AssignProtocol(origin: Option<Attributes>)
      requires AllBackfillable(attrs, origin)
      modifies this
      ensures attrs == ProtocolsAssigned(old(attrs), origin)
    {
      var attributeMap := ProtocolCollections;
      for n := 0 to |attributeMap|
        invariant attrs.Keys == old(attrs).Keys
        invariant forall k | k in attrs ::
          attrs[k] == if k in attributeMap[..n] then Backfilled(old(attrs), origin, k) else old(attrs)[k]
      {
        var attribute := attributeMap[n];
        assert attributeMap[..n + 1] == attributeMap[..n] + [attribute];
        assert attribute !in attributeMap[..n];
        var properties := Attr(attrs, attribute);
        assert properties == Attr(old(attrs), attribute);
        assert Backfillable(old(attrs), origin, attribute);
        if !Truthy(properties) {
          continue;
        }
        var references := References(origin, attribute);
        BackfillCollection(attribute, properties.items, references);
        assert attrs[attribute] == Backfilled(old(attrs), origin, attribute);
      }
    }

    /** The inner loop of `assign_protocol`: one collection, item by item. */
    method BackfillCollection(attribute: string, properties: seq<Value>, references: Value)
      requires Attr(attrs, attribute) == List(properties)
      requires forall x | x in properties :: CanBackfill(x, references)
      modifies this
      ensures attrs == old(attrs)[attribute := BackfilledItems(properties, references)]
    {
      var items := properties;
      for i := 0 to |items|
        invariant |items| == |properties|
        invariant forall j | 0 <= j < |items| ::
          items[j] == if j < i then BackfillItem(properties[j], references) else properties[j]
        invariant attrs == old(attrs)[attribute := List(items)]
      {
        var item := items[i];
        assert item == properties[i] && item in properties;
        if Truthy(GetAttr(item, "protocol")) {
          continue;
        }
        var refs := Named(references.items, GetAttr(item, "name"));
        var protocol := if |refs| > 0 then GetAttr(refs[0], "protocol") else Str(DefaultProtocol);
        items := items[i := Object(item.attrs["protocol" := protocol])];
        attrs := attrs[attribute := List(items)];
      }
      assert items == BackfilledItems(properties, references).items;
    }

    /**
     * `object_assign(self, origin)`: every attribute that is not read-only
     * and is falsy here takes the origin's value.  The attributes are
     * visited in no particular order, as Python iterates a set.
     */
    method ObjectAssign(origin: Attributes)
      modifies this
      ensures attrs == Assigned(old(attrs), origin)
    {
      var attributeMap := AttributeNames - ReadOnlyNames;
      while attributeMap != {}
        invariant attributeMap <= CopiedNames
        invariant attrs.Keys == old(attrs).Keys + (CopiedNames - attributeMap)
        invariant forall k | k in attrs ::
          attrs[k] == if k in attributeMap || k !in CopiedNames then old(attrs)[k] else Assigned(old(attrs), origin)[k]
        decreases attributeMap
      {
        var key :| key in attributeMap;
        if !Truthy(Attr(attrs, key)) {
          attrs := attrs[key := Attr(origin, key)];
        }
        attributeMap := attributeMap - {key};
      }
    }
  }

  /** `assign_protocol` changes nothing but the four protocol collections. */
  lemma BackfillTouchesOnlyProtocols(patch: Attributes, origin: Option<Attributes>, k: string)
    requires AllBackfillable(patch, origin)
    requires k !in ProtocolCollections || !Truthy(Attr(patch, k))
    ensures Attr(ProtocolsAssigned(patch, origin), k) == Attr(patch, k)
  {
  }

  /**
   * Item by item: the collection keeps its length and order, an item that
   * has a protocol is untouched, and an item without one gets the protocol
   * of the first existing child with its name, or `'Tcp'`, and nothing else
   * of it changes.
   */
  lemma BackfillItems(patch: Attributes, origin: Option<Attributes>, attribute: string, i: int)
    requires AllBackfillable(patch, origin) && attribute in ProtocolCollections
    requires Truthy(Attr(patch, attribute)) && 0 <= i < |Attr(patch, attribute).items|
    requires CanBackfill(Attr(patch, attribute).items[i], References(origin, attribute))
    ensures var r := Attr(ProtocolsAssigned(patch, origin), attribute);
            var item := Attr(patch, attribute).items[i];
            r.List? && |r.items| == |Attr(patch, attribute).items| &&
            r.items[i].Object? &&
            (forall a | a != "protocol" :: GetAttr(r.items[i], a) == GetAttr(item, a)) &&
            GetAttr(r.items[i], "protocol") ==
              if Truthy(GetAttr(item, "protocol")) then GetAttr(item, "protocol")
              else InheritedProtocol(GetAttr(item, "name"), References(origin, attribute).items)
  {
  }

  /** An item without a protocol inherits it from the first existing child of the same name. */
  lemma InheritsFromFirstNamed(name: string, references: seq<Value>, i: int)
    requires 0 <= i < |references| && NameMatches(references[i], Str(name))
    requires forall j | 0 <= j < i :: !NameMatches(references[j], Str(name))
    ensures InheritedProtocol(Str(name), references) == GetAttr(references[i], "protocol")
  {
    var refs := Named(references, Str(name));
    assert references[i] in refs;
    var k :| 0 <= k < |references| && references[k] == refs[0] &&
             forall j :: 0 <= j < k ==> !NameMatches(references[j], Str(name));
    assert refs[0] in refs;
    if k < i {
    } else if k > i {
    }
  }

  /** With no existing child of that name, or no existing load balancer at all, the protocol is `'Tcp'`. */
  lemma DefaultsToTcp(name: string, references: seq<Value>)
    requires forall x | x in references :: !NameMatches(x, Str(name))
    ensures InheritedProtocol(Str(name), references) == Str("Tcp")
  {
  }

  /** Running `assign_protocol` again with the same origin changes nothing. */
  lemma ProtocolsAssignedIdempotent(patch: Attributes, origin: Option<Attributes>)
    requires AllBackfillable(patch, origin)
    ensures AllBackfillable(ProtocolsAssigned(patch, origin), origin)
    ensures ProtocolsAssigned(ProtocolsAssigned(patch, origin), origin) == ProtocolsAssigned(patch, origin)
  {
    var once := ProtocolsAssigned(patch, origin);
    forall a | a in ProtocolCollections ensures Backfillable(once, origin, a) {
      if Truthy(Attr(patch, a)) {
        var p := Attr(patch, a).items;
        forall x | x in Attr(once, a).items ensures CanBackfill(x, References(origin, a)) {
          var i :| 0 <= i < |p| && Attr(once, a).items[i] == x;
          assert p[i] in p;
        }
      }
    }
    var twice := ProtocolsAssigned(once, origin);
    forall k | k in once ensures twice[k] == once[k] {
      if k in ProtocolCollections && Truthy(Attr(patch, k)) {
        var p := Attr(patch, k).items;
        var refs := References(origin, k);
        forall i | 0 <= i < |p| ensures BackfillItem(Attr(once, k).items[i], refs) == Attr(once, k).items[i] {
          assert p[i] in p;
          var item := p[i];
          if !Truthy(GetAttr(item, "protocol")) {
            var filled := Attr(once, k).items[i];
            assert GetAttr(filled, "name") == GetAttr(item, "name");
            if !Truthy(GetAttr(filled, "protocol")) {
              assert filled.attrs["protocol" := InheritedProtocol(GetAttr(filled, "name"), refs.items)] == filled.attrs;
            }
          }
        }
      }
    }
  }

  /**
   * Patch over baseline: a field the patch leaves empty takes the origin's
   * value, a field it sets is kept, read-only fields are never copied.
   */
  lemma AssignedFields(patch: Attributes, origin: Attributes, k: string)
    ensures Truthy(Attr(patch, k)) ==> Attr(Assigned(patch, origin), k) == Attr(patch, k)
    ensures k in CopiedNames && !Truthy(Attr(patch, k)) ==> Attr(Assigned(patch, origin), k) == Attr(origin, k)
    ensures k in ReadOnlyNames ==> Attr(Assigned(patch, origin), k) == Attr(patch, k)
  {
  }

  /** No copied field is lost: one truthy in the patch or in the origin is truthy afterwards. */
  lemma AssignedKeepsEverySetField(patch: Attributes, origin: Attributes, k: string)
    requires k in CopiedNames && (Truthy(Attr(patch, k)) || Truthy(Attr(origin, k)))
    ensures Truthy(Attr(Assigned(patch, origin), k))
  {
  }

  /** Running `object_assign` again with the same origin changes nothing. */
  lemma AssignedIdempotent(patch: Attributes, origin: Attributes)
    ensures Assigned(Assigned(patch, origin), origin) == Assigned(patch, origin)
  {
    var once := Assigned(patch, origin);
    var twice := Assigned(once, origin);
    assert twice.Keys == once.Keys;
    forall k | k in once ensures twice[k] == once[k] {
    }
  }
}
