/**
 * A node of the axis-aligned bounding-box tree over the terrain triangles.
 * The bounds are set once by the constructor (their setter is private); the
 * two children and the leaf's triangle index array are settable and start out
 * null. No script shown builds a tree, so trees are inputs to the queries.
 */
module AabbTree {
  import opened Geometry
  import opened Wrappers

  datatype Node = Node(bounds: Box, leftChild: Option<Node>, rightChild: Option<Node>, triangles: Option<seq<int>>)

  predicate IsLeaf(n: Node) {
    n.leftChild.None? && n.rightChild.None?
  }

  /**
   * The tree shape the query can walk without dereferencing null: every node
   * has both children or neither.
   */
  ghost predicate WellFormed(n: Node)
    decreases n
  {
    && (n.leftChild.Some? <==> n.rightChild.Some?)
    && (n.leftChild.Some? ==> WellFormed(n.leftChild.value) && WellFormed(n.rightChild.value))
  }

  /** new AABBTreeNode(bounds): a leaf with the given bounds and no triangle array yet. */
  function NewNode(bounds: Box): (n: Node)
    ensures n.bounds == bounds
    ensures IsLeaf(n) && WellFormed(n)
    ensures n.triangles.None?
  {
    Node(bounds, None, None, None)
  }

  /** The leftChild setter: the bounds and the other fields are untouched. */
  function SetLeftChild(n: Node, child: Node): (r: Node)
    ensures r.bounds == n.bounds && r.rightChild == n.rightChild && r.triangles == n.triangles
    ensures r.leftChild == Some(child)
  {
    n.(leftChild := Some(child))
  }

  /** The rightChild setter: the bounds and the other fields are untouched. */
  function SetRightChild(n: Node, child: Node): (r: Node)
    ensures r.bounds == n.bounds && r.leftChild == n.leftChild && r.triangles == n.triangles
    ensures r.rightChild == Some(child)
  {
    n.(rightChild := Some(child))
  }

  /** The triangles setter: the bounds and both children are untouched. */
  function SetTriangles(n: Node, triangles: Option<seq<int>>): (r: Node)
    ensures r.bounds == n.bounds && r.leftChild == n.leftChild && r.rightChild == n.rightChild
    ensures r.triangles == triangles
  {
    n.(triangles := triangles)
  }

  /**
   * Giving a fresh node both of its children (well-formed subtrees) yields a
   * well-formed internal node with the bounds it was constructed with.
   */
  lemma AttachChildren(bounds: Box, left: Node, right: Node)
    requires WellFormed(left) && WellFormed(right)
    ensures var n := SetRightChild(SetLeftChild(NewNode(bounds), left), right);
      WellFormed(n) && !IsLeaf(n) && n.bounds == bounds
  {
  }

  /** Giving a fresh node only one child breaks the shape the query relies on. */
  lemma OneChildIsMalformed(bounds: Box, child: Node)
    ensures !WellFormed(SetLeftChild(NewNode(bounds), child))
    ensures !WellFormed(SetRightChild(NewNode(bounds), child))
  {
  }
}
