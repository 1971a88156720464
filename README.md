# Query-object-model negation, descendant-node semantics and the node-type writer

This project models three pieces of a Java content repository (Apache Jackrabbit):

- **The `Not` constraint** of the JCR 2.0 query object model (section 6.7 of
  JSR 283, `NotImpl`): an immutable syntax-tree node that wraps one child
  constraint, hands itself to a visitor, and renders as `NOT <child>`.
- **The `DescendantNode` constraint** of the same model: a node-tuple
  satisfies it when some ancestor of the selector's node, strictly above it,
  is the node at the constraint's absolute path. An unknown selector or a
  malformed path makes the query invalid. A path that names no node, or a
  node the session cannot see, leaves the query valid but unsatisfied.
- **The node-type definition writer** (`NodeTypeWriter`): it turns node-type,
  property and child-node definitions into the element tree of the persistent
  node-type file, through a DOM builder.

Layout:

- `wrappers.dfy`: `Option`, used for Java `null` and for absent lookups.
- `jcr_path.dfy` (module `JcrPath`): paths as sequences of path elements,
  each a name with its same-name-sibling index (so `/a/b[2]` and `/a/b[1]`
  are different nodes; the root is `[]`), depth, `getAncestor` and `isSame`. It also holds the
  existential descendant rule and its strict-prefix form, and proves the two
  equivalent.
- `qom.dfy` (module `Qom`): the `Constraint` datatype with the `Not` and
  `DescendantNode` variants, the visitor record and `Accept`, the `Not`
  rendering, and the evaluator. Evaluation gives three verdicts: satisfied,
  unsatisfied, or invalid query. `Satisfies` is the reference semantics,
  written the way the interfaces state it.
- `dom.dfy` (module `Dom`): the element tree and the `DomBuilder` class.
  The builder holds the current element and the stack of its open ancestors.
- `node_type_format.dfy` (module `NodeTypeFormat`): the definition records,
  the element and attribute names, and functions that state the expected
  element for each definition. Lemmas prove the document's structural rules
  from these functions.
- `node_type_xml.dfy` (module `NodeTypeXml`): the `NodeTypeWriter` class.
  It is imperative, as the source is: loops drive the builder, and each
  method is proved to append exactly the element that `NodeTypeFormat`
  prescribes. Each method also leaves the builder's open ancestors unchanged,
  so every start is balanced by an end.

Collaborators whose code is not part of this model are parameters:

- `protect`, used by `NotImpl.toString`, is a function argument.
- The path parser and the session's "a node exists here and is visible" test
  are fields of `Qom.QueryContext`.
- `QName.toJCRName`, `OnParentVersionAction.nameFromValue`,
  `PropertyType.nameFromValue`, `ValueConstraint.getDefinition` and
  `InternalValue.toJCRValue(..).getString()` are the fields of
  `NodeTypeFormat.Conversions`.
- The namespace registry is a list of prefixes plus a URI function.

Constants.java is not part of this model. The element and attribute names
(`nodeTypes`, `nodeType`, `propertyDefinition`, `isMixin`, ...) are those
of the Jackrabbit node-type file format. DOMBuilder is not part of this model
either. Its behaviour is stated as assumptions:

- `startElement` opens a new, empty element and makes it current. The element
  that was current is pushed onto the stack of open ancestors.
- `endElement` closes the current element, appends it as the last child of
  the innermost open ancestor, and makes that ancestor current again.
- `setAttribute` replaces any earlier value of the same attribute.
- A boolean attribute is written as `true` or `false`.
- `addContentElement` is start, one text child, end.

## Model

| member | source | states |
|---|---|---|
| `JcrPath.GetAncestor` | src/main/java/org/apache/jackrabbit/core/query/jsr283/qom/DescendantNode.java:24-26 | The ancestor at depth n exists exactly when n is at most the node's depth. It is the length-n prefix of the node's path, and at the node's own depth it is the node itself. |
| `JcrPath.DescendantIffStrictPrefix` | src/main/java/org/apache/jackrabbit/core/query/jsr283/qom/DescendantNode.java:23-28 | "Some n ≥ 0 with getAncestor(n) the same as the target and depth > n" holds exactly when the target's path is a strict prefix of the node's path. |
| `JcrPath.AppendedIsStrictDescendant` | src/main/java/org/apache/jackrabbit/core/query/jsr283/qom/DescendantNode.java:23-28 | A path extended by at least one path element lies strictly below the original path. |
| `JcrPath.DivergingPathNotDescendant` | src/main/java/org/apache/jackrabbit/core/query/jsr283/qom/DescendantNode.java:23-28 | A node whose path differs from the target's at some depth, if only in a same-name-sibling index, is not a descendant of the target. |
| `Qom.GetConstraint` | jackrabbit-spi-commons/src/main/java/org/apache/jackrabbit/spi/commons/query/qom/NotImpl.java:32-46 | The accessor returns the child c with `n == Not(c)`. A Not node holds that one child and no other state, and the child is structurally smaller. |
| `Qom.Accept` | jackrabbit-spi-commons/src/main/java/org/apache/jackrabbit/spi/commons/query/qom/NotImpl.java:50-58 | A Not node is passed, with the same data, to the visitor's Not handler, and that handler's result is returned unchanged. A DescendantNode node goes to its own handler. |
| `Qom.NotToString` | jackrabbit-spi-commons/src/main/java/org/apache/jackrabbit/spi/commons/query/qom/NotImpl.java:62-64 | The rendering starts with `NOT `, and the rest is exactly the protected rendering of the child. |
| `Qom.NotToStringRoundTrip` | jackrabbit-spi-commons/src/main/java/org/apache/jackrabbit/spi/commons/query/qom/NotImpl.java:62-64 | Stripping `NOT ` from a Not node's rendering gives back the child's protected rendering. |
| `Qom.Evaluate` | src/main/java/org/apache/jackrabbit/core/query/jsr283/qom/DescendantNode.java:23-38 | The verdict is Invalid exactly when the query is invalid (unknown selector or malformed path). Otherwise it is Satisfied exactly when the existential reference semantics `Satisfies` holds, and Unsatisfied when it does not. |
| `Qom.NotNegates` | jackrabbit-spi-commons/src/main/java/org/apache/jackrabbit/spi/commons/query/qom/NotImpl.java:29-32 | Not(c) is Satisfied iff c is Unsatisfied, and Unsatisfied iff c is Satisfied. An invalid child's error passes through unchanged. |
| `Qom.DoubleNegation` | jackrabbit-spi-commons/src/main/java/org/apache/jackrabbit/spi/commons/query/qom/NotImpl.java:29-32 | Not(Not(c)) gives the same verdict as c on every tuple, an invalid verdict included. |
| `Qom.DescendantNodeSatisfiedIff` | src/main/java/org/apache/jackrabbit/core/query/jsr283/qom/DescendantNode.java:23-28 | For a declared selector and a parsable path, the constraint is satisfied iff the target is visible, the selector is bound, and its node's path is the target's path plus a non-empty suffix. |
| `Qom.StrictDescendantsSatisfied` | src/main/java/org/apache/jackrabbit/core/query/jsr283/qom/DescendantNode.java:23-28 | Every node at any depth below a visible target satisfies the constraint, a direct child included. |
| `Qom.NodeAtPathNotSatisfied` | src/main/java/org/apache/jackrabbit/core/query/jsr283/qom/DescendantNode.java:24-25 | The node at the path itself never satisfies the constraint. |
| `Qom.RootNotSatisfied` | src/main/java/org/apache/jackrabbit/core/query/jsr283/qom/DescendantNode.java:24-26 | The root node (depth 0) satisfies the constraint for no path. |
| `Qom.UnresolvedPathNeverSatisfied` | src/main/java/org/apache/jackrabbit/core/query/jsr283/qom/DescendantNode.java:34-38 | A syntactically valid path whose node is missing or invisible keeps the query valid and gives Unsatisfied for every tuple. |
| `Qom.InvalidDescendantNode` | src/main/java/org/apache/jackrabbit/core/query/jsr283/qom/DescendantNode.java:30-35 | An unknown selector gives `Invalid(UnknownSelector)`. A malformed path gives `Invalid(MalformedPath)`. Neither is reported as Unsatisfied. |
| `Qom.UnboundSelectorNotSatisfied` | src/main/java/org/apache/jackrabbit/core/query/jsr283/qom/DescendantNode.java:26-28 | A tuple with no node for the selector does not satisfy the constraint. |
| `NodeTypeFormat.NamespaceDeclarations` | src/java/org/apache/jackrabbit/core/nodetype/xml/NodeTypeWriter.java:94-100 | The document element's attributes are exactly `xmlns:<p>` for each non-empty registry prefix p, each bound to p's URI. The empty prefix gets no declaration. |
| `NodeTypeFormat.OneNodeTypePerDefinition` | src/java/org/apache/jackrabbit/core/nodetype/xml/NodeTypeWriter.java:62-64 | The document holds one `nodeType` element per definition, in input order, each named with the definition's converted name. |
| `NodeTypeFormat.NodeTypeAttributesShape` | src/java/org/apache/jackrabbit/core/nodetype/xml/NodeTypeWriter.java:118-135 | A `nodeType` element always carries exactly its four attributes. `name` is the converted name. `isMixin` and `hasOrderableChildNodes` are `true` or `false` according to the flags. The primary item name is the converted name when present and `""` when null. |
| `NodeTypeFormat.PropDefAttributesShape` | src/java/org/apache/jackrabbit/core/nodetype/xml/NodeTypeWriter.java:177-193 | A `propertyDefinition` always carries exactly its seven attributes. `name` is the converted name. `autoCreated`, `mandatory`, `protected` and `multiple` are `true` or `false` according to the flags. `onParentVersion` and `requiredType` are the names of the action and of the property type. |
| `NodeTypeFormat.ChildNodeDefAttributesShape` | src/java/org/apache/jackrabbit/core/nodetype/xml/NodeTypeWriter.java:233-256 | A `childNodeDefinition` always carries exactly its seven attributes. `name` is the converted name. The four flags are `true` or `false` according to the definition. `onParentVersion` is the action's name. The default primary type is the converted name when present and `""` when null. |
| `NodeTypeFormat.SupertypesOnlyWhenPresent` | src/java/org/apache/jackrabbit/core/nodetype/xml/NodeTypeWriter.java:137-147 | A `supertypes` child exists iff the supertype array is non-null and non-empty. It is then the first child, with one `supertype` per supertype, in order. |
| `NodeTypeFormat.PropertiesBeforeChildNodes` | src/java/org/apache/jackrabbit/core/nodetype/xml/NodeTypeWriter.java:149-159 | After the optional supertypes come the property definitions, then the child-node definitions, each group in input order. No property definition follows a child-node definition. |
| `NodeTypeFormat.PropDefGroupsOnlyWhenPresent` | src/java/org/apache/jackrabbit/core/nodetype/xml/NodeTypeWriter.java:195-217 | `valueConstraints` appears iff the constraint array is non-null and non-empty. `defaultValues` appears iff the default-value array is. Constraints come before defaults. |
| `NodeTypeFormat.RequiredPrimaryTypesAlwaysPresent` | src/java/org/apache/jackrabbit/core/nodetype/xml/NodeTypeWriter.java:258-266 | A child-node definition always has exactly one `requiredPrimaryTypes` child, even with zero entries, listing the types in order. |
| `NodeTypeXml.NodeTypeWriter.constructor` | src/java/org/apache/jackrabbit/core/nodetype/xml/NodeTypeWriter.java:90-103 | The new builder holds only the `nodeTypes` element, with the namespace declarations of every non-empty prefix. |
| `NodeTypeXml.NodeTypeWriter.AddNodeTypeDef` | src/java/org/apache/jackrabbit/core/nodetype/xml/NodeTypeWriter.java:114-162 | Appends exactly `NodeTypeElement(def)` to the current element, and leaves the open ancestors as they were (balanced). |
| `NodeTypeXml.NodeTypeWriter.AddPropDef` | src/java/org/apache/jackrabbit/core/nodetype/xml/NodeTypeWriter.java:173-220 | Appends exactly `PropDefElement(def)` to the current element, and leaves the open ancestors as they were. |
| `NodeTypeXml.NodeTypeWriter.AddChildNodeDef` | src/java/org/apache/jackrabbit/core/nodetype/xml/NodeTypeWriter.java:229-269 | Appends exactly `ChildNodeDefElement(def)` to the current element, and leaves the open ancestors as they were. |
| `NodeTypeXml.NodeTypeWriter.AddSupertypes` | src/java/org/apache/jackrabbit/core/nodetype/xml/NodeTypeWriter.java:140-146 | Appends one `supertypes` element listing the converted supertype names in order. The stack is balanced. |
| `NodeTypeXml.NodeTypeWriter.AddValueConstraints` | src/java/org/apache/jackrabbit/core/nodetype/xml/NodeTypeWriter.java:198-204 | Appends one `valueConstraints` element listing the constraint definitions in order. The stack is balanced. |
| `NodeTypeXml.NodeTypeWriter.AddDefaultValues` | src/java/org/apache/jackrabbit/core/nodetype/xml/NodeTypeWriter.java:210-216 | Appends one `defaultValues` element listing the default values in order. The stack is balanced. |
| `NodeTypeXml.NodeTypeWriter.AddRequiredPrimaryTypes` | src/java/org/apache/jackrabbit/core/nodetype/xml/NodeTypeWriter.java:260-266 | Appends one `requiredPrimaryTypes` element listing the required types in order. The stack is balanced. |
| `NodeTypeXml.NodeTypeWriter.Write` | src/java/org/apache/jackrabbit/core/nodetype/xml/NodeTypeWriter.java:57-65 | The document produced for the given definitions and registry is exactly `NodeTypesDocument`: the namespace declarations plus one `nodeType` element per definition, in order. |

## Left out

- Serialising the finished tree to an output stream (`NodeTypeWriter.write(OutputStream)`, lines 65 and 277-279) is I/O. `Write` returns the tree instead.
- Re-wrapping ParserConfigurationException and NoPrefixDeclaredException (lines 66-71) is left out. The conversions are total functions here, so an unknown namespace prefix cannot abort the writer.
- The four group blocks of the writer (supertypes, value constraints, default values, required primary types) are written inline in the Java methods. In the model each loop is a helper method of the class, so that each proof stays within the verifier's resource limit. The calls and their order are unchanged.
- A null property-definition, child-node-definition or required-primary-type array makes the Java code throw NullPointerException. These arrays are plain sequences here, so that case is not modelled.
- A null definition name, or a null element inside the supertype, value-constraint, default-value or required-primary-type arrays, also makes the Java code throw NullPointerException (lines 120, 144, 179, 202, 214, 235, 264). Names and array elements are never null in the model, so those failures are not modelled.
- The Java writer builds its name resolver from the same registry that supplies the `xmlns:` declarations (line 102). In the model the conversions are a separate parameter of the constructor and of `Write`. The model therefore does not promise that every prefix written in a name is declared on the document element.
- The real DOMBuilder appends an element to its parent as soon as it is started, and later calls change that open element in place through the shared node. The model keeps a stack of open elements as values instead, and attaches an element to its parent when it is ended. The two give the same tree when every start is matched by an end, which is why `Dom.DomBuilder.Document` requires that no element is left open. The model does not capture the aliasing of the open element.
- The resolver that `NotImpl`'s constructor hands to its superclass is not part of a constraint value. The superclass, `protect` and the other constraint kinds (And, Or, Comparison, ChildNode, ...) are not part of this model.
- `getSelectorName` and `getPath` are the destructors `selectorName` and `path` of `Qom.Constraint`. Dafny strings are never null, so "non-null" holds by typing.
- Exceptions a visitor may throw from `accept` are folded into the visitor's result type.
- Access control and repository lookup are not modelled. They are a single "visible" predicate on paths.
- When a selector is declared but the tuple binds no node to it (an outer join), the constraint is taken as not satisfied. The interface does not say what happens in this case.
