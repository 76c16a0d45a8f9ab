/**
 * get_all_subclass: every subclass of a class, found by recursion over
 * __subclasses__, as a depth-first pre-order list.
 */
module Subclasses {
  /** A class with its direct subclasses, in the order __subclasses__ lists them. */
  datatype ClassNode = ClassNode(name: string, subclasses: seq<ClassNode>)

  /** get_all_subclass(c): every class below c is listed once per path to it, so Size(c) - 1 entries. */
  function AllSubclasses(c: ClassNode): (r: seq<ClassNode>)
    ensures |r| == Size(c) - 1
    decreases c, |c.subclasses| + 1
  {
    SubclassesFrom(c, 0)
  }

  /** What the loop appends from the i-th direct subclass on: each one, then its own subclasses. */
  function SubclassesFrom(c: ClassNode, i: nat): (r: seq<ClassNode>)
    ensures |r| == SizeFrom(c, i)
    decreases c, |c.subclasses| - i
  {
    if i >= |c.subclasses| then []
    else [c.subclasses[i]] + AllSubclasses(c.subclasses[i]) + SubclassesFrom(c, i + 1)
  }

  /** The number of classes in the hierarchy rooted at c, c included. */
  function Size(c: ClassNode): nat
    decreases c, |c.subclasses| + 1
  {
    1 + SizeFrom(c, 0)
  }

  function SizeFrom(c: ClassNode, i: nat): nat
    decreases c, |c.subclasses| - i
  {
    if i >= |c.subclasses| then 0 else Size(c.subclasses[i]) + SizeFrom(c, i + 1)
  }

  /** x lies strictly below c in the hierarchy. */
  predicate IsDescendant(x: ClassNode, c: ClassNode)
    decreases c
  {
    exists i :: 0 <= i < |c.subclasses| && (x == c.subclasses[i] || IsDescendant(x, c.subclasses[i]))
  }

  /** Where the i-th direct subclass of c stands in get_all_subclass(c). */
  function Offset(c: ClassNode, i: nat): nat
    requires i <= |c.subclasses|
  {
    if i == 0 then 0 else Offset(c, i - 1) + Size(c.subclasses[i - 1])
  }

  /** A class is listed exactly when it is a descendant of c. */
  lemma {:induction false} AllSubclassesMembers(c: ClassNode, x: ClassNode)
    ensures x in AllSubclasses(c) <==> IsDescendant(x, c)
    decreases c, |c.subclasses| + 1
  {
    SubclassesFromMembers(c, 0, x);
  }

  lemma {:induction false} SubclassesFromMembers(c: ClassNode, i: nat, x: ClassNode)
    ensures x in SubclassesFrom(c, i) <==>
      exists j :: i <= j < |c.subclasses| && (x == c.subclasses[j] || IsDescendant(x, c.subclasses[j]))
    decreases c, |c.subclasses| - i
  {
    if i < |c.subclasses| {
      var sub := c.subclasses[i];
      AllSubclassesMembers(sub, x);
      SubclassesFromMembers(c, i + 1, x);
      if x in SubclassesFrom(c, i) {
        if x !in SubclassesFrom(c, i + 1) {
          assert x == sub || IsDescendant(x, sub);
        }
      } else {
        forall j | i <= j < |c.subclasses|
          ensures !(x == c.subclasses[j] || IsDescendant(x, c.subclasses[j]))
        {
          if j == i {
            assert x !in [sub] + AllSubclasses(sub);
          }
        }
      }
    }
  }

  lemma {:induction false} SuffixFrom(c: ClassNode, i: nat)
    requires i <= |c.subclasses|
    ensures Offset(c, i) <= |AllSubclasses(c)|
    ensures AllSubclasses(c)[Offset(c, i)..] == SubclassesFrom(c, i)
  {
    if i > 0 {
      SuffixFrom(c, i - 1);
      var sub := c.subclasses[i - 1];
      var here := SubclassesFrom(c, i - 1);
      assert here == ([sub] + AllSubclasses(sub)) + SubclassesFrom(c, i);
      assert here[Size(sub)..] == SubclassesFrom(c, i);
    }
  }

  /** If a suffix of `all` starting at `at` is [a] + b + c, then a sits at `at` and b right after it. */
  lemma {:induction false} SliceOfSuffix<T>(all: seq<T>, at: nat, a: T, b: seq<T>, c: seq<T>)
    requires at <= |all| && all[at..] == [a] + b + c
    ensures at + 1 + |b| <= |all|
    ensures all[at] == a
    ensures all[at + 1 .. at + 1 + |b|] == b
  {
    assert all[at] == all[at..][0];
    assert all[at + 1 .. at + 1 + |b|] == all[at..][1 .. 1 + |b|];
    assert ([a] + b + c)[1 .. 1 + |b|] == b;
  }

  /**
   * Pre-order: the i-th direct subclass of c appears at Offset(c, i) and is
   * followed immediately by all of its own subclasses, in their order.
   */
  lemma PreOrder(c: ClassNode, i: nat)
    requires i < |c.subclasses|
    ensures Offset(c, i) + 1 + |AllSubclasses(c.subclasses[i])| <= |AllSubclasses(c)|
    ensures AllSubclasses(c)[Offset(c, i)] == c.subclasses[i]
    ensures AllSubclasses(c)[Offset(c, i) + 1 .. Offset(c, i) + 1 + |AllSubclasses(c.subclasses[i])|] == AllSubclasses(c.subclasses[i])
  {
    var sub := c.subclasses[i];
    SuffixFrom(c, i);
    SubclassesFromStep(c, i);
    SliceOfSuffix(AllSubclasses(c), Offset(c, i), sub, AllSubclasses(sub), SubclassesFrom(c, i + 1));
  }

  lemma SubclassesFromStep(c: ClassNode, i: nat)
    requires i < |c.subclasses|
    ensures SubclassesFrom(c, i) == [c.subclasses[i]] + AllSubclasses(c.subclasses[i]) + SubclassesFrom(c, i + 1)
  {
  }
}
