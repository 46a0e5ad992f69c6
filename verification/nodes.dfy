/** The one inner node the tree writes itself: the shared dummy root that
    every tile points at before its own subtree has been merged. */
module Nodes {

  /** An inner node's child mask: two bits per child, eight children. Only
      the mask is modelled; the child references are not. */
  datatype VoxelInnerNode = VoxelInnerNode(childMask: bv16)

  const ChildCount: nat := 8

  /** The two-bit child code for an unshadowed child (binary 01). */
  const Unshadowed: bv16 := 1

  /** The two-bit code of child `c` within `mask`. */
  function ChildCode(mask: bv16, c: nat): bv16
    requires c < ChildCount
  {
    (mask >> (2 * c)) & 3
  }

  predicate AllUnshadowed(mask: bv16) {
    forall c :: 0 <= c < ChildCount ==> ChildCode(mask, c) == Unshadowed
  }

  /** The fully unshadowed node written once at construction (mask 21845). */
  function DummyNode(): (n: VoxelInnerNode)
    ensures AllUnshadowed(n.childMask)
  {
    VoxelInnerNode(21845)
  }

  /** 21845 is the only mask whose eight children are all unshadowed. */
  lemma UnshadowedMaskUnique(mask: bv16)
    ensures AllUnshadowed(mask) <==> mask == DummyNode().childMask
  {
    if AllUnshadowed(mask) {
      assert ChildCode(mask, 0) == 1 && ChildCode(mask, 1) == 1;
      assert ChildCode(mask, 2) == 1 && ChildCode(mask, 3) == 1;
      assert ChildCode(mask, 4) == 1 && ChildCode(mask, 5) == 1;
      assert ChildCode(mask, 6) == 1 && ChildCode(mask, 7) == 1;
    }
  }
}
