/**
 * `NodeTypeWriter`: writes node type definitions as the element tree of the
 * node type definition format, through a `DomBuilder`.
 *
 * Every `Add*` method appends exactly the element that `NodeTypeFormat`
 * prescribes to the current element of the builder, and leaves the builder's
 * open ancestors as it found them: each start is matched by an end.
 */
module NodeTypeXml {
  import opened Wrappers
  import opened Dom
  import opened NodeTypeFormat

  class NodeTypeWriter {
    /** The node type document builder. */
    const builder: DomBuilder
    /** The conversions through the writer's namespace resolver. */
    const conv: Conversions

    /**
     * A writer whose document element carries one namespace declaration per
     * non-empty registry prefix.
     */
    constructor (registry: NamespaceRegistry, conv: Conversions)
      ensures fresh(builder) && this.conv == conv
      ensures builder.ancestors == []
      ensures builder.current == Frame(NodeTypesTag, NamespaceAttributes(registry.prefixes, registry.uri), [])
    {
      var b := new DomBuilder(NodeTypesTag);
      var prefixes := registry.prefixes;
      for i := 0 to |prefixes|
        invariant b.ancestors == []
        invariant b.current == Frame(NodeTypesTag, NamespaceAttributes(prefixes[..i], registry.uri), [])
      {
        assert prefixes[..i + 1][..i] == prefixes[..i];
        if prefixes[i] != "" {
          b.SetAttribute(XmlnsPrefix + prefixes[i], registry.uri(prefixes[i]));
        }
      }
      assert prefixes[..|prefixes|] == prefixes;
      builder := b;
      this.conv := conv;
    }

    /** Appends the `nodeType` element of `def` to the current element. */
    method AddNodeTypeDef(def: NodeTypeDef)
      modifies builder
      ensures builder.ancestors == old(builder.ancestors)
      ensures builder.current == AddChild(old(builder.current), NodeTypeElement(def, conv))
    {
      ghost var outer := builder.ancestors + [builder.current];
      builder.StartElement(NodeTypeTag);

      builder.SetAttribute(NameAttribute, conv.jcrName(def.name));
      builder.SetBooleanAttribute(IsMixinAttribute, def.isMixin);
      builder.SetBooleanAttribute(HasOrderableChildNodesAttribute, def.hasOrderableChildNodes);
      if def.primaryItemName.Some? {
        builder.SetAttribute(PrimaryItemNameAttribute, conv.jcrName(def.primaryItemName.value));
      } else {
        builder.SetAttribute(PrimaryItemNameAttribute, "");
      }
      ghost var attributes := NodeTypeAttributes(def, conv);
      assert builder.current == Frame(NodeTypeTag, attributes, []);

      if def.supertypes.Some? && |def.supertypes.value| > 0 {
        AddSupertypes(def.supertypes.value);
      } else {
        assert SupertypesGroup(def, conv) == [];
      }
      ghost var supertypesGroup := SupertypesGroup(def, conv);
      assert builder.ancestors == outer;
      assert builder.current == Frame(NodeTypeTag, attributes, supertypesGroup);

      var properties := def.propertyDefs;
      ghost var propElements := PropDefElements(properties, conv);
      for i := 0 to |properties|
        invariant builder.ancestors == outer
        invariant builder.current == Frame(NodeTypeTag, attributes, supertypesGroup + propElements[..i])
      {
        AddPropDef(properties[i]);
        assert propElements[..i + 1] == propElements[..i] + [propElements[i]];
      }
      assert propElements[..|properties|] == propElements;

      var nodes := def.childNodeDefs;
      ghost var nodeElements := ChildNodeDefElements(nodes, conv);
      for i := 0 to |nodes|
        invariant builder.ancestors == outer
        invariant builder.current == Frame(NodeTypeTag, attributes, supertypesGroup + propElements + nodeElements[..i])
      {
        AddChildNodeDef(nodes[i]);
        assert nodeElements[..i + 1] == nodeElements[..i] + [nodeElements[i]];
      }
      assert nodeElements[..|nodes|] == nodeElements;

      builder.EndElement();
    }

    /** Appends the `propertyDefinition` element of `def` to the current element. */
    method AddPropDef(def: PropDef)
      modifies builder
      ensures builder.ancestors == old(builder.ancestors)
      ensures builder.current == AddChild(old(builder.current), PropDefElement(def, conv))
    {
      ghost var outer := builder.ancestors + [builder.current];
      builder.StartElement(PropertyDefinitionTag);

      builder.SetAttribute(NameAttribute, conv.jcrName(def.name));
      builder.SetBooleanAttribute(AutoCreatedAttribute, def.autoCreated);
      builder.SetBooleanAttribute(MandatoryAttribute, def.mandatory);
      builder.SetBooleanAttribute(ProtectedAttribute, def.isProtected);
      builder.SetAttribute(OnParentVersionAttribute, conv.onParentVersionName(def.onParentVersion));
      builder.SetBooleanAttribute(MultipleAttribute, def.multiple);
      builder.SetAttribute(RequiredTypeAttribute, conv.propertyTypeName(def.requiredType));
      ghost var attributes := PropDefAttributes(def, conv);
      assert builder.current == Frame(PropertyDefinitionTag, attributes, []);

      if def.valueConstraints.Some? && |def.valueConstraints.value| > 0 {
        AddValueConstraints(def.valueConstraints.value);
      } else {
        assert ValueConstraintsGroup(def, conv) == [];
      }
      ghost var constraintsGroup := ValueConstraintsGroup(def, conv);
      assert builder.ancestors == outer;
      assert builder.current == Frame(PropertyDefinitionTag, attributes, constraintsGroup);

      if def.defaultValues.Some? && |def.defaultValues.value| > 0 {
        AddDefaultValues(def.defaultValues.value);
      } else {
        assert DefaultValuesGroup(def, conv) == [];
        assert constraintsGroup + [] == constraintsGroup;
      }
      assert builder.ancestors == outer;
      assert builder.current == Frame(PropertyDefinitionTag, attributes, constraintsGroup + DefaultValuesGroup(def, conv));

      builder.EndElement();
      PushThenPop(old(builder.ancestors), old(builder.current));
    }

    /** Appends the `childNodeDefinition` element of `def` to the current element. */
    method AddChildNodeDef(def: NodeDef)
      modifies builder
      ensures builder.ancestors == old(builder.ancestors)
      ensures builder.current == AddChild(old(builder.current), ChildNodeDefElement(def, conv))
    {
      ghost var outer := builder.ancestors + [builder.current];
      builder.StartElement(ChildNodeDefinitionTag);

      builder.SetAttribute(NameAttribute, conv.jcrName(def.name));
      builder.SetBooleanAttribute(AutoCreatedAttribute, def.autoCreated);
      builder.SetBooleanAttribute(MandatoryAttribute, def.mandatory);
      builder.SetBooleanAttribute(ProtectedAttribute, def.isProtected);
      builder.SetAttribute(OnParentVersionAttribute, conv.onParentVersionName(def.onParentVersion));
      builder.SetBooleanAttribute(SameNameSiblingsAttribute, def.allowsSameNameSiblings);
      if def.defaultPrimaryType.Some? {
        builder.SetAttribute(DefaultPrimaryTypeAttribute, conv.jcrName(def.defaultPrimaryType.value));
      } else {
        builder.SetAttribute(DefaultPrimaryTypeAttribute, "");
      }
      ghost var attributes := ChildNodeDefAttributes(def, conv);
      assert builder.current == Frame(ChildNodeDefinitionTag, attributes, []);

      AddRequiredPrimaryTypes(def.requiredPrimaryTypes);
      assert builder.current == Frame(ChildNodeDefinitionTag, attributes, [Element(RequiredPrimaryTypesTag, map[], RequiredPrimaryTypeElements(def.requiredPrimaryTypes, conv))]);

      builder.EndElement();
    }

    /** The `supertypes` block of `addNodeTypeDef`: one `supertype` element per supertype, in order. */
    method AddSupertypes(supertypes: seq<QName>)
      modifies builder
      ensures builder.ancestors == old(builder.ancestors)
      ensures builder.current == AddChild(old(builder.current), Element(SupertypesTag, map[], SupertypeElements(supertypes, conv)))
    {
      ghost var outer := builder.ancestors;
      ghost var parent := builder.current;
      ghost var elements := SupertypeElements(supertypes, conv);
      builder.StartElement(SupertypesTag);
      for i := 0 to |supertypes|
        invariant builder.ancestors == outer + [parent]
        invariant builder.current == Frame(SupertypesTag, map[], elements[..i])
      {
        builder.AddContentElement(SupertypeTag, conv.jcrName(supertypes[i]));
        assert elements[..i + 1] == elements[..i] + [elements[i]];
      }
      assert elements[..|supertypes|] == elements;
      builder.EndElement();
      PushThenPop(outer, parent);
    }

    /** The `valueConstraints` block of `addPropDef`: one `valueConstraint` element per constraint, in order. */
    method AddValueConstraints(constraints: seq<ValueConstraint>)
      modifies builder
      ensures builder.ancestors == old(builder.ancestors)
      ensures builder.current == AddChild(old(builder.current), Element(ValueConstraintsTag, map[], ValueConstraintElements(constraints, conv)))
    {
      ghost var outer := builder.ancestors;
      ghost var parent := builder.current;
      ghost var elements := ValueConstraintElements(constraints, conv);
      builder.StartElement(ValueConstraintsTag);
      for i := 0 to |constraints|
        invariant builder.ancestors == outer + [parent]
        invariant builder.current == Frame(ValueConstraintsTag, map[], elements[..i])
      {
        builder.AddContentElement(ValueConstraintTag, conv.constraintDefinition(constraints[i]));
        assert elements[..i + 1] == elements[..i] + [elements[i]];
      }
      assert elements[..|constraints|] == elements;
      builder.EndElement();
      PushThenPop(outer, parent);
    }

    /** The `defaultValues` block of `addPropDef`: one `defaultValue` element per value, in order. */
    method AddDefaultValues(defaults: seq<InternalValue>)
      modifies builder
      ensures builder.ancestors == old(builder.ancestors)
      ensures builder.current == AddChild(old(builder.current), Element(DefaultValuesTag, map[], DefaultValueElements(defaults, conv)))
    {
      ghost var outer := builder.ancestors;
      ghost var parent := builder.current;
      ghost var elements := DefaultValueElements(defaults, conv);
      builder.StartElement(DefaultValuesTag);
      for i := 0 to |defaults|
        invariant builder.ancestors == outer + [parent]
        invariant builder.current == Frame(DefaultValuesTag, map[], elements[..i])
      {
        builder.AddContentElement(DefaultValueTag, conv.jcrValue(defaults[i]));
        assert elements[..i + 1] == elements[..i] + [elements[i]];
      }
      assert elements[..|defaults|] == elements;
      builder.EndElement();
      PushThenPop(outer, parent);
    }

    /** The `requiredPrimaryTypes` block of `addChildNodeDef`: one `requiredPrimaryType` element per type, in order. */
    method AddRequiredPrimaryTypes(requiredTypes: seq<QName>)
      modifies builder
      ensures builder.ancestors == old(builder.ancestors)
      ensures builder.current == AddChild(old(builder.current), Element(RequiredPrimaryTypesTag, map[], RequiredPrimaryTypeElements(requiredTypes, conv)))
    {
      ghost var outer := builder.ancestors;
      ghost var parent := builder.current;
      ghost var elements := RequiredPrimaryTypeElements(requiredTypes, conv);
      builder.StartElement(RequiredPrimaryTypesTag);
      for i := 0 to |requiredTypes|
        invariant builder.ancestors == outer + [parent]
        invariant builder.current == Frame(RequiredPrimaryTypesTag, map[], elements[..i])
      {
        builder.AddContentElement(RequiredPrimaryTypeTag, conv.jcrName(requiredTypes[i]));
        assert elements[..i + 1] == elements[..i] + [elements[i]];
      }
      assert elements[..|requiredTypes|] == elements;
      builder.EndElement();
      PushThenPop(outer, parent);
    }

    /**
     * `NodeTypeWriter.write`: the document holding the registry's namespace
     * declarations and the given node type definitions, in order.
     */
    static method Write(types: seq<NodeTypeDef>, registry: NamespaceRegistry, conv: Conversions) returns (doc: Node)
      ensures doc == NodeTypesDocument(types, registry, conv)
    {
      var writer := new NodeTypeWriter(registry, conv);
      ghost var attributes := NamespaceAttributes(registry.prefixes, registry.uri);
      ghost var elements := NodeTypeElements(types, conv);
      for i := 0 to |types|
        invariant writer.builder.ancestors == []
        invariant writer.builder.current == Frame(NodeTypesTag, attributes, elements[..i])
      {
        writer.AddNodeTypeDef(types[i]);
        assert elements[..i + 1] == elements[..i] + [elements[i]];
      }
      assert elements[..|types|] == elements;
      doc := writer.builder.Document();
    }
  }
}
