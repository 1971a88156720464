/**
 * The persistent node-type definition format: what the definitions hold and
 * the element tree that each of them becomes.
 *
 * The functions here state the expected document; the writer in module
 * `NodeTypeXml` builds it step by step and is proved to build exactly this.
 * Name and value conversions whose code is not part of this model
 * (`QName.toJCRName`, `OnParentVersionAction.nameFromValue`,
 * `PropertyType.nameFromValue`, `ValueConstraint.getDefinition`,
 * `InternalValue.toJCRValue(..).getString()`) are total functions held in a
 * `Conversions` record.
 */
module NodeTypeFormat {
  import opened Wrappers
  import opened Dom

  // Element names of the format.
  const NodeTypesTag := "nodeTypes"
  const NodeTypeTag := "nodeType"
  const SupertypesTag := "supertypes"
  const SupertypeTag := "supertype"
  const PropertyDefinitionTag := "propertyDefinition"
  const ValueConstraintsTag := "valueConstraints"
  const ValueConstraintTag := "valueConstraint"
  const DefaultValuesTag := "defaultValues"
  const DefaultValueTag := "defaultValue"
  const ChildNodeDefinitionTag := "childNodeDefinition"
  const RequiredPrimaryTypesTag := "requiredPrimaryTypes"
  const RequiredPrimaryTypeTag := "requiredPrimaryType"

  // Attribute names of the format.
  const NameAttribute := "name"
  const IsMixinAttribute := "isMixin"
  const HasOrderableChildNodesAttribute := "hasOrderableChildNodes"
  const PrimaryItemNameAttribute := "primaryItemName"
  const AutoCreatedAttribute := "autoCreated"
  const MandatoryAttribute := "mandatory"
  const ProtectedAttribute := "protected"
  const OnParentVersionAttribute := "onParentVersion"
  const MultipleAttribute := "multiple"
  const RequiredTypeAttribute := "requiredType"
  const SameNameSiblingsAttribute := "sameNameSiblings"
  const DefaultPrimaryTypeAttribute := "defaultPrimaryType"

  /** The prefix of a namespace declaration attribute. */
  const XmlnsPrefix := "xmlns:"

  /** An internal qualified name: namespace URI and local name. */
  datatype QName = QName(namespaceUri: string, localName: string)

  /** A value constraint in its internal form. */
  datatype ValueConstraint = ValueConstraint(qualifiedDefinition: string)

  /** A default value in its internal form. */
  datatype InternalValue = InternalValue(qualifiedValue: string)

  /** `PropDef`; `None` stands for a null array. */
  datatype PropDef = PropDef(
    name: QName,
    autoCreated: bool,
    mandatory: bool,
    isProtected: bool,
    onParentVersion: int,
    multiple: bool,
    requiredType: int,
    valueConstraints: Option<seq<ValueConstraint>>,
    defaultValues: Option<seq<InternalValue>>)

  /** `NodeDef`; `None` stands for a null default primary type. */
  datatype NodeDef = NodeDef(
    name: QName,
    autoCreated: bool,
    mandatory: bool,
    isProtected: bool,
    onParentVersion: int,
    allowsSameNameSiblings: bool,
    defaultPrimaryType: Option<QName>,
    requiredPrimaryTypes: seq<QName>)

  /** `NodeTypeDef`; `None` stands for a null primary item name or supertype array. */
  datatype NodeTypeDef = NodeTypeDef(
    name: QName,
    isMixin: bool,
    hasOrderableChildNodes: bool,
    primaryItemName: Option<QName>,
    supertypes: Option<seq<QName>>,
    propertyDefs: seq<PropDef>,
    childNodeDefs: seq<NodeDef>)

  /** `NamespaceRegistry`: its prefixes, in the order it lists them, and the URI of each. */
  datatype NamespaceRegistry = NamespaceRegistry(prefixes: seq<string>, uri: string -> string)

  /** The conversions to text that the writer applies, through the writer's namespace resolver. */
  datatype Conversions = Conversions(
    jcrName: QName -> string,
    onParentVersionName: int -> string,
    propertyTypeName: int -> string,
    constraintDefinition: ValueConstraint -> string,
    jcrValue: InternalValue -> string)

  /** True when `n` is an element named `tag`. */
  predicate IsElementNamed(n: Node, tag: string)
  {
    n.Element? && n.name == tag
  }

  /** Namespace declarations of the document element: one per non-empty prefix, later prefixes last. */
  function NamespaceAttributes(prefixes: seq<string>, uri: string -> string): map<string, string>
    decreases |prefixes|
  {
    if prefixes == [] then map[]
    else
      var rest := NamespaceAttributes(prefixes[..|prefixes| - 1], uri);
      var p := prefixes[|prefixes| - 1];
      if p == "" then rest else rest[XmlnsPrefix + p := uri(p)]
  }

  /** A converted name, or the empty string for a null name. */
  function NameOrEmpty(q: Option<QName>, conv: Conversions): string
  {
    match q
    case None => ""
    case Some(n) => conv.jcrName(n)
  }

  /** One text-holding element per item, converted and in input order. */
  function SupertypeElements(supertypes: seq<QName>, conv: Conversions): (r: seq<Node>)
    ensures |r| == |supertypes|
  {
    seq(|supertypes|, i requires 0 <= i < |supertypes| => ContentElement(SupertypeTag, conv.jcrName(supertypes[i])))
  }

  function ValueConstraintElements(constraints: seq<ValueConstraint>, conv: Conversions): (r: seq<Node>)
    ensures |r| == |constraints|
  {
    seq(|constraints|, i requires 0 <= i < |constraints| =>
      ContentElement(ValueConstraintTag, conv.constraintDefinition(constraints[i])))
  }

  function DefaultValueElements(values: seq<InternalValue>, conv: Conversions): (r: seq<Node>)
    ensures |r| == |values|
  {
    seq(|values|, i requires 0 <= i < |values| => ContentElement(DefaultValueTag, conv.jcrValue(values[i])))
  }

  function RequiredPrimaryTypeElements(types: seq<QName>, conv: Conversions): (r: seq<Node>)
    ensures |r| == |types|
  {
    seq(|types|, i requires 0 <= i < |types| => ContentElement(RequiredPrimaryTypeTag, conv.jcrName(types[i])))
  }

  /** A wrapper element holding `items`, present only for a non-null, non-empty array. */
  function OptionalGroup<T>(tag: string, items: Option<seq<T>>, children: seq<Node>): seq<Node>
  {
    if items.Some? && |items.value| > 0 then [Element(tag, map[], children)] else []
  }

  function PropDefAttributes(def: PropDef, conv: Conversions): map<string, string>
  {
    map[][NameAttribute := conv.jcrName(def.name)]
         [AutoCreatedAttribute := BooleanText(def.autoCreated)]
         [MandatoryAttribute := BooleanText(def.mandatory)]
         [ProtectedAttribute := BooleanText(def.isProtected)]
         [OnParentVersionAttribute := conv.onParentVersionName(def.onParentVersion)]
         [MultipleAttribute := BooleanText(def.multiple)]
         [RequiredTypeAttribute := conv.propertyTypeName(def.requiredType)]
  }

  function ValueConstraintsGroup(def: PropDef, conv: Conversions): seq<Node>
  {
    OptionalGroup(ValueConstraintsTag, def.valueConstraints,
      if def.valueConstraints.Some? then ValueConstraintElements(def.valueConstraints.value, conv) else [])
  }

  function DefaultValuesGroup(def: PropDef, conv: Conversions): seq<Node>
  {
    OptionalGroup(DefaultValuesTag, def.defaultValues,
      if def.defaultValues.Some? then DefaultValueElements(def.defaultValues.value, conv) else [])
  }

  /** The `propertyDefinition` element of one property definition. */
  function PropDefElement(def: PropDef, conv: Conversions): Node
  {
    Element(PropertyDefinitionTag, PropDefAttributes(def, conv),
      ValueConstraintsGroup(def, conv) + DefaultValuesGroup(def, conv))
  }

  function ChildNodeDefAttributes(def: NodeDef, conv: Conversions): map<string, string>
  {
    map[][NameAttribute := conv.jcrName(def.name)]
         [AutoCreatedAttribute := BooleanText(def.autoCreated)]
         [MandatoryAttribute := BooleanText(def.mandatory)]
         [ProtectedAttribute := BooleanText(def.isProtected)]
         [OnParentVersionAttribute := conv.onParentVersionName(def.onParentVersion)]
         [SameNameSiblingsAttribute := BooleanText(def.allowsSameNameSiblings)]
         [DefaultPrimaryTypeAttribute := NameOrEmpty(def.defaultPrimaryType, conv)]
  }

  /** The `childNodeDefinition` element of one child node definition. */
  function ChildNodeDefElement(def: NodeDef, conv: Conversions): Node
  {
    Element(ChildNodeDefinitionTag, ChildNodeDefAttributes(def, conv),
      [Element(RequiredPrimaryTypesTag, map[], RequiredPrimaryTypeElements(def.requiredPrimaryTypes, conv))])
  }

  function PropDefElements(defs: seq<PropDef>, conv: Conversions): (r: seq<Node>)
    ensures |r| == |defs|
  {
    seq(|defs|, i requires 0 <= i < |defs| => PropDefElement(defs[i], conv))
  }

  function ChildNodeDefElements(defs: seq<NodeDef>, conv: Conversions): (r: seq<Node>)
    ensures |r| == |defs|
  {
    seq(|defs|, i requires 0 <= i < |defs| => ChildNodeDefElement(defs[i], conv))
  }

  function NodeTypeAttributes(def: NodeTypeDef, conv: Conversions): map<string, string>
  {
    map[][NameAttribute := conv.jcrName(def.name)]
         [IsMixinAttribute := BooleanText(def.isMixin)]
         [HasOrderableChildNodesAttribute := BooleanText(def.hasOrderableChildNodes)]
         [PrimaryItemNameAttribute := NameOrEmpty(def.primaryItemName, conv)]
  }

  function SupertypesGroup(def: NodeTypeDef, conv: Conversions): seq<Node>
  {
    OptionalGroup(SupertypesTag, def.supertypes,
      if def.supertypes.Some? then SupertypeElements(def.supertypes.value, conv) else [])
  }

  /** The `nodeType` element of one node type definition. */
  function NodeTypeElement(def: NodeTypeDef, conv: Conversions): Node
  {
    Element(NodeTypeTag, NodeTypeAttributes(def, conv),
      SupertypesGroup(def, conv)
      + PropDefElements(def.propertyDefs, conv)
      + ChildNodeDefElements(def.childNodeDefs, conv))
  }

  function NodeTypeElements(types: seq<NodeTypeDef>, conv: Conversions): (r: seq<Node>)
    ensures |r| == |types|
  {
    seq(|types|, i requires 0 <= i < |types| => NodeTypeElement(types[i], conv))
  }

  /** The whole node type definition document. */
  function NodeTypesDocument(types: seq<NodeTypeDef>, registry: NamespaceRegistry, conv: Conversions): Node
  {
    Element(NodeTypesTag, NamespaceAttributes(registry.prefixes, registry.uri), NodeTypeElements(types, conv))
  }

  /** Declaration attribute names determine their prefix. */
  lemma XmlnsInjective(p: string, q: string)
    requires XmlnsPrefix + p == XmlnsPrefix + q
    ensures p == q
  {
    assert p == (XmlnsPrefix + p)[|XmlnsPrefix|..];
    assert q == (XmlnsPrefix + q)[|XmlnsPrefix|..];
  }

  /**
   * The document element declares exactly the non-empty prefixes, each bound
   * to its registry URI; the empty prefix gets no declaration.
   */
  lemma {:induction false} NamespaceDeclarations(prefixes: seq<string>, uri: string -> string)
    ensures NamespaceAttributes(prefixes, uri).Keys == set p | p in prefixes && p != "" :: XmlnsPrefix + p
    ensures forall p :: p in prefixes && p != "" ==> NamespaceAttributes(prefixes, uri)[XmlnsPrefix + p] == uri(p)
    ensures XmlnsPrefix !in NamespaceAttributes(prefixes, uri)
    decreases |prefixes|
  {
    if prefixes != [] {
      var init := prefixes[..|prefixes| - 1];
      var last := prefixes[|prefixes| - 1];
      NamespaceDeclarations(init, uri);
      assert prefixes == init + [last];
      var attrs := NamespaceAttributes(prefixes, uri);
      var rest := NamespaceAttributes(init, uri);
      if last == "" {
        assert attrs == rest;
        assert (set p | p in prefixes && p != "" :: XmlnsPrefix + p) == (set p | p in init && p != "" :: XmlnsPrefix + p);
      } else {
        assert attrs == rest[XmlnsPrefix + last := uri(last)];
        assert (set p | p in prefixes && p != "" :: XmlnsPrefix + p)
            == (set p | p in init && p != "" :: XmlnsPrefix + p) + {XmlnsPrefix + last};
        forall p | p in prefixes && p != ""
          ensures attrs[XmlnsPrefix + p] == uri(p)
        {
          if XmlnsPrefix + p == XmlnsPrefix + last {
            XmlnsInjective(p, last);
          } else {
            assert p in init;
          }
        }
        assert |XmlnsPrefix + last| > |XmlnsPrefix|;
      }
    }
  }

  /** The document holds one `nodeType` element per definition, in input order, named after it. */
  lemma OneNodeTypePerDefinition(types: seq<NodeTypeDef>, registry: NamespaceRegistry, conv: Conversions)
    ensures NodeTypesDocument(types, registry, conv).name == NodeTypesTag
    ensures |NodeTypesDocument(types, registry, conv).children| == |types|
    ensures forall i :: 0 <= i < |types| ==>
              var n := NodeTypesDocument(types, registry, conv).children[i];
              n == NodeTypeElement(types[i], conv) && IsElementNamed(n, NodeTypeTag) &&
              NameAttribute in n.attributes && n.attributes[NameAttribute] == conv.jcrName(types[i].name)
  {
  }

  /**
   * A `nodeType` element always carries its four attributes: the converted
   * name, the two flags as `true`/`false`, and the primary item name, written
   * as the empty string when it is null.
   */
  lemma NodeTypeAttributesShape(def: NodeTypeDef, conv: Conversions)
    ensures NodeTypeElement(def, conv).attributes.Keys ==
              {NameAttribute, IsMixinAttribute, HasOrderableChildNodesAttribute, PrimaryItemNameAttribute}
    ensures NodeTypeElement(def, conv).attributes[NameAttribute] == conv.jcrName(def.name)
    ensures NodeTypeElement(def, conv).attributes[IsMixinAttribute] == if def.isMixin then "true" else "false"
    ensures NodeTypeElement(def, conv).attributes[HasOrderableChildNodesAttribute] ==
              if def.hasOrderableChildNodes then "true" else "false"
    ensures NodeTypeElement(def, conv).attributes[PrimaryItemNameAttribute] ==
              if def.primaryItemName.None? then "" else conv.jcrName(def.primaryItemName.value)
  {
  }

  /**
   * A `propertyDefinition` element always carries its seven attributes: the
   * converted name, the four flags as `true`/`false`, and the names of the
   * on-parent-version action and of the required type.
   */
  lemma PropDefAttributesShape(def: PropDef, conv: Conversions)
    ensures PropDefElement(def, conv).attributes.Keys ==
              {NameAttribute, AutoCreatedAttribute, MandatoryAttribute, ProtectedAttribute,
               OnParentVersionAttribute, MultipleAttribute, RequiredTypeAttribute}
    ensures PropDefElement(def, conv).attributes[NameAttribute] == conv.jcrName(def.name)
    ensures PropDefElement(def, conv).attributes[AutoCreatedAttribute] == if def.autoCreated then "true" else "false"
    ensures PropDefElement(def, conv).attributes[MandatoryAttribute] == if def.mandatory then "true" else "false"
    ensures PropDefElement(def, conv).attributes[ProtectedAttribute] == if def.isProtected then "true" else "false"
    ensures PropDefElement(def, conv).attributes[OnParentVersionAttribute] == conv.onParentVersionName(def.onParentVersion)
    ensures PropDefElement(def, conv).attributes[MultipleAttribute] == if def.multiple then "true" else "false"
    ensures PropDefElement(def, conv).attributes[RequiredTypeAttribute] == conv.propertyTypeName(def.requiredType)
  {
  }

  /**
   * A `childNodeDefinition` element always carries its seven attributes: the
   * converted name, the four flags as `true`/`false`, the on-parent-version
   * action, and the default primary type, written as the empty string when it
   * is null.
   */
  lemma ChildNodeDefAttributesShape(def: NodeDef, conv: Conversions)
    ensures ChildNodeDefElement(def, conv).attributes.Keys ==
              {NameAttribute, AutoCreatedAttribute, MandatoryAttribute, ProtectedAttribute,
               OnParentVersionAttribute, SameNameSiblingsAttribute, DefaultPrimaryTypeAttribute}
    ensures ChildNodeDefElement(def, conv).attributes[NameAttribute] == conv.jcrName(def.name)
    ensures ChildNodeDefElement(def, conv).attributes[AutoCreatedAttribute] == if def.autoCreated then "true" else "false"
    ensures ChildNodeDefElement(def, conv).attributes[MandatoryAttribute] == if def.mandatory then "true" else "false"
    ensures ChildNodeDefElement(def, conv).attributes[ProtectedAttribute] == if def.isProtected then "true" else "false"
    ensures ChildNodeDefElement(def, conv).attributes[OnParentVersionAttribute] ==
              conv.onParentVersionName(def.onParentVersion)
    ensures ChildNodeDefElement(def, conv).attributes[SameNameSiblingsAttribute] ==
              if def.allowsSameNameSiblings then "true" else "false"
    ensures ChildNodeDefElement(def, conv).attributes[DefaultPrimaryTypeAttribute] ==
              if def.defaultPrimaryType.None? then "" else conv.jcrName(def.defaultPrimaryType.value)
  {
  }

  /**
   * A `nodeType` element has a `supertypes` child exactly when the supertype
   * array is non-null and non-empty; it is then the first child and lists the
   * supertypes in order.
   */
  lemma SupertypesOnlyWhenPresent(def: NodeTypeDef, conv: Conversions)
    ensures (exists k :: 0 <= k < |NodeTypeElement(def, conv).children| &&
               IsElementNamed(NodeTypeElement(def, conv).children[k], SupertypesTag))
            <==> def.supertypes.Some? && |def.supertypes.value| > 0
    ensures def.supertypes.Some? && |def.supertypes.value| > 0 ==>
              var first := NodeTypeElement(def, conv).children[0];
              IsElementNamed(first, SupertypesTag) &&
              |first.children| == |def.supertypes.value| &&
              forall i :: 0 <= i < |def.supertypes.value| ==>
                first.children[i] == ContentElement(SupertypeTag, conv.jcrName(def.supertypes.value[i]))
  {
    var cs := NodeTypeElement(def, conv).children;
    var props := PropDefElements(def.propertyDefs, conv);
    var nodes := ChildNodeDefElements(def.childNodeDefs, conv);
    if !(def.supertypes.Some? && |def.supertypes.value| > 0) {
      assert cs == props + nodes;
      forall k | 0 <= k < |cs|
        ensures !IsElementNamed(cs[k], SupertypesTag)
      {
        if k < |props| {
          assert cs[k] == PropDefElement(def.propertyDefs[k], conv);
        } else {
          assert cs[k] == ChildNodeDefElement(def.childNodeDefs[k - |props|], conv);
        }
      }
    } else {
      assert IsElementNamed(cs[0], SupertypesTag);
    }
  }

  /**
   * Inside a `nodeType` element, after the optional `supertypes` child, come
   * the property definitions in input order and then the child node
   * definitions in input order: no property definition follows a child node
   * definition.
   */
  lemma PropertiesBeforeChildNodes(def: NodeTypeDef, conv: Conversions)
    ensures var cs := NodeTypeElement(def, conv).children;
            var offset := |SupertypesGroup(def, conv)|;
            && |cs| == offset + |def.propertyDefs| + |def.childNodeDefs|
            && (forall k :: 0 <= k < |def.propertyDefs| ==>
                  cs[offset + k] == PropDefElement(def.propertyDefs[k], conv))
            && (forall k :: 0 <= k < |def.childNodeDefs| ==>
                  cs[offset + |def.propertyDefs| + k] == ChildNodeDefElement(def.childNodeDefs[k], conv))
            && (forall i, j ::
                  (0 <= i < |cs| && 0 <= j < |cs| &&
                   IsElementNamed(cs[i], PropertyDefinitionTag) && IsElementNamed(cs[j], ChildNodeDefinitionTag)) ==> i < j)
  {
    var cs := NodeTypeElement(def, conv).children;
    var group := SupertypesGroup(def, conv);
    var props := PropDefElements(def.propertyDefs, conv);
    var nodes := ChildNodeDefElements(def.childNodeDefs, conv);
    assert cs == group + props + nodes;
    forall i | 0 <= i < |cs|
      ensures IsElementNamed(cs[i], PropertyDefinitionTag) ==> |group| <= i < |group| + |props|
      ensures IsElementNamed(cs[i], ChildNodeDefinitionTag) ==> |group| + |props| <= i
    {
      if i < |group| {
        assert IsElementNamed(cs[i], SupertypesTag);
      } else if i < |group| + |props| {
        assert cs[i] == PropDefElement(def.propertyDefs[i - |group|], conv);
      } else {
        assert cs[i] == ChildNodeDefElement(def.childNodeDefs[i - |group| - |props|], conv);
      }
    }
  }

  /**
   * A `propertyDefinition` element has a `valueConstraints` child exactly when
   * the constraint array is non-null and non-empty, a `defaultValues` child
   * exactly when the default-value array is, and the first comes before the second.
   */
  lemma PropDefGroupsOnlyWhenPresent(def: PropDef, conv: Conversions)
    ensures (exists k :: 0 <= k < |PropDefElement(def, conv).children| &&
               IsElementNamed(PropDefElement(def, conv).children[k], ValueConstraintsTag))
            <==> def.valueConstraints.Some? && |def.valueConstraints.value| > 0
    ensures (exists k :: 0 <= k < |PropDefElement(def, conv).children| &&
               IsElementNamed(PropDefElement(def, conv).children[k], DefaultValuesTag))
            <==> def.defaultValues.Some? && |def.defaultValues.value| > 0
    ensures forall i, j ::
              (0 <= i < |PropDefElement(def, conv).children| && 0 <= j < |PropDefElement(def, conv).children| &&
               IsElementNamed(PropDefElement(def, conv).children[i], ValueConstraintsTag) &&
               IsElementNamed(PropDefElement(def, conv).children[j], DefaultValuesTag)) ==> i < j
  {
    var cs := PropDefElement(def, conv).children;
    var vc := ValueConstraintsGroup(def, conv);
    var dv := DefaultValuesGroup(def, conv);
    assert cs == vc + dv;
    forall i | 0 <= i < |cs|
      ensures IsElementNamed(cs[i], ValueConstraintsTag) ==> i < |vc|
      ensures IsElementNamed(cs[i], DefaultValuesTag) ==> i >= |vc|
    {
      if i < |vc| {
        assert IsElementNamed(cs[i], ValueConstraintsTag);
      } else {
        assert IsElementNamed(cs[i], DefaultValuesTag);
      }
    }
    if def.valueConstraints.Some? && |def.valueConstraints.value| > 0 {
      assert IsElementNamed(cs[0], ValueConstraintsTag);
    }
    if def.defaultValues.Some? && |def.defaultValues.value| > 0 {
      assert IsElementNamed(cs[|vc|], DefaultValuesTag);
    }
  }

  /**
   * A `childNodeDefinition` element always holds exactly one
   * `requiredPrimaryTypes` child, even for zero required types, listing the
   * types in order.
   */
  lemma RequiredPrimaryTypesAlwaysPresent(def: NodeDef, conv: Conversions)
    ensures |ChildNodeDefElement(def, conv).children| == 1
    ensures var group := ChildNodeDefElement(def, conv).children[0];
            IsElementNamed(group, RequiredPrimaryTypesTag) &&
            |group.children| == |def.requiredPrimaryTypes| &&
            forall i :: 0 <= i < |def.requiredPrimaryTypes| ==>
              group.children[i] == ContentElement(RequiredPrimaryTypeTag, conv.jcrName(def.requiredPrimaryTypes[i]))
  {
  }
}
