/**
 * Absolute repository paths and the navigation a session offers over them.
 *
 * A node is identified by its absolute path, a sequence of path elements read
 * from the root; each element is a name together with its same-name-sibling
 * index (`b[2]` is the second child named `b`), and the root node has the empty
 * path. The depth of a node is the length of its path, and
 * `Node.getAncestor(n)` is the prefix of length `n` (the ancestor at depth
 * `n`), which does not exist when `n` exceeds the depth. Two nodes are the same
 * node exactly when their paths, indices included, are equal.
 */
module JcrPath {
  import opened Wrappers

  /** A qualified name: namespace URI plus local part. */
  datatype Name = Name(namespaceUri: string, localName: string)

  /** One step of a path: a child name and its 1-based same-name-sibling index. */
  datatype PathElement = PathElement(name: Name, index: nat)

  /** An absolute path; `[]` is the root node. */
  type Path = seq<PathElement>

  /** `Item.getDepth()`: the root has depth 0. */
  function Depth(p: Path): nat
  {
    |p|
  }

  /**
   * `Item.getAncestor(n)`: the ancestor at depth `n`. An `n` larger than the
   * depth has no ancestor (the repository raises ItemNotFoundException there).
   */
  function GetAncestor(p: Path, n: nat): (a: Option<Path>)
    ensures a.Some? <==> n <= Depth(p)
    ensures a.Some? ==> Depth(a.value) == n && a.value == p[..n]
    ensures n == Depth(p) ==> a == Some(p)
  {
    assert p[..|p|] == p;
    if n <= |p| then Some(p[..n]) else None
  }

  /** `Item.isSame`: both paths denote the same node. */
  predicate IsSame(a: Path, b: Path)
  {
    a == b
  }

  /**
   * The satisfaction rule of the descendant-node constraint, as the interface
   * states it: some non-negative `n` below the node's depth makes the node's
   * ancestor at depth `n` the same node as `target`.
   */
  ghost predicate DescendantByAncestor(node: Path, target: Path)
  {
    exists n: nat :: Depth(node) > n && GetAncestor(node, n).Some? && IsSame(GetAncestor(node, n).value, target)
  }

  /** The executable form: `target` is a strict prefix of `node`. */
  predicate IsStrictDescendant(node: Path, target: Path)
  {
    |target| < |node| && node[..|target|] == target
  }

  /** The existential rule and the strict-prefix test agree on every pair of paths. */
  lemma DescendantIffStrictPrefix(node: Path, target: Path)
    ensures DescendantByAncestor(node, target) <==> IsStrictDescendant(node, target)
  {
    if IsStrictDescendant(node, target) {
      var n: nat := |target|;
      assert Depth(node) > n && GetAncestor(node, n) == Some(target);
    }
    if DescendantByAncestor(node, target) {
      var n: nat :| Depth(node) > n && GetAncestor(node, n).Some? && IsSame(GetAncestor(node, n).value, target);
      assert |target| == n;
    }
  }

  /** Every path reached by appending at least one element to `target` lies strictly below it. */
  lemma AppendedIsStrictDescendant(target: Path, suffix: seq<PathElement>)
    requires suffix != []
    ensures IsStrictDescendant(target + suffix, target)
  {
    assert (target + suffix)[..|target|] == target;
  }

  /**
   * A node whose path leaves `target`'s path at some depth, if only by a
   * same-name-sibling index (`/a/b[2]/c` against `/a/b[1]`), is not below it.
   */
  lemma DivergingPathNotDescendant(node: Path, target: Path, k: nat)
    requires k < |node| && k < |target| && node[k] != target[k]
    ensures !DescendantByAncestor(node, target)
  {
    DescendantIffStrictPrefix(node, target);
  }
}
