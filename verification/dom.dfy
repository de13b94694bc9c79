/**
 * An already-parsed document: elements with a tag name, an attribute map and
 * element children (text nodes carry no feature and are not represented). An
 * element inside a document is addressed by its path of child positions from
 * the root; the empty path is the root itself.
 */
module Dom {
  import opened Options

  datatype Element = Element(tag: string, attrs: map<string, string>, children: seq<Element>)

  type Path = seq<nat>

  /** An attribute value, or `default` when the attribute is absent. */
  function Attr(e: Element, key: string, default: string): string
  {
    if key in e.attrs then e.attrs[key] else default
  }

  /** Every step of `p` names an existing child. */
  predicate ValidPath(n: Element, p: Path)
    decreases |p|
  {
    p == [] || (p[0] < |n.children| && ValidPath(n.children[p[0]], p[1..]))
  }

  /** The element that `p` addresses. */
  function At(n: Element, p: Path): Element
    requires ValidPath(n, p)
    decreases |p|
  {
    if p == [] then n else At(n.children[p[0]], p[1..])
  }

  /** `p` is a valid path and addresses an element named `tag`. */
  predicate HasTagAt(n: Element, p: Path, tag: string)
  {
    ValidPath(n, p) && At(n, p).tag == tag
  }

  /** Every prefix of a valid path is valid, and one more step goes to a child. */
  lemma {:induction false} PrefixValid(n: Element, p: Path, k: nat)
    requires ValidPath(n, p) && k < |p|
    ensures ValidPath(n, p[..k]) && ValidPath(n, p[..k + 1])
    ensures p[k] < |At(n, p[..k]).children|
    ensures At(n, p[..k + 1]) == At(n, p[..k]).children[p[k]]
    decreases |p|
  {
    if k > 0 {
      var c := n.children[p[0]];
      PrefixValid(c, p[1..], k - 1);
      assert p[1..][..k - 1] == p[..k][1..];
      assert p[1..][..k] == p[..k + 1][1..];
    } else {
      assert p[..1][1..] == [];
    }
  }

  /** The parent of a non-root element. */
  function ParentOf(n: Element, p: Path): (parent: Element)
    requires ValidPath(n, p) && p != []
    ensures p[|p| - 1] < |parent.children| && parent.children[p[|p| - 1]] == At(n, p)
  {
    PrefixValid(n, p, |p| - 1);
    assert p[..|p|] == p;
    At(n, p[..|p| - 1])
  }

  /**
   * The depth of the nearest proper ancestor of `At(n, p)` named `tag`: the
   * ancestor is `At(n, p[..k])`. The search walks upwards from the parent.
   */
  function NearestAncestor(n: Element, p: Path, tag: string): (r: Option<nat>)
    requires ValidPath(n, p)
    ensures r.Some? ==> r.value < |p| && HasTagAt(n, p[..r.value], tag)
    ensures r.Some? ==> forall k :: r.value < k < |p| ==> !HasTagAt(n, p[..k], tag)
    ensures r.None? <==> forall k :: 0 <= k < |p| ==> !HasTagAt(n, p[..k], tag)
  {
    AncestorBelow(n, p, tag, |p|)
  }

  /** `NearestAncestor` restricted to the ancestors strictly above depth `d`. */
  function AncestorBelow(n: Element, p: Path, tag: string, d: nat): (r: Option<nat>)
    requires ValidPath(n, p) && d <= |p|
    ensures r.Some? ==> r.value < d && HasTagAt(n, p[..r.value], tag)
    ensures r.Some? ==> forall k :: r.value < k < d ==> !HasTagAt(n, p[..k], tag)
    ensures r.None? <==> forall k :: 0 <= k < d ==> !HasTagAt(n, p[..k], tag)
    decreases d
  {
    if d == 0 then None
    else
      PrefixValid(n, p, d - 1);
      if At(n, p[..d - 1]).tag == tag then Some(d - 1)
      else AncestorBelow(n, p, tag, d - 1)
  }

  /**
   * Document order between two distinct positions: an ancestor comes before
   * its descendants, and an earlier sibling's subtree before a later one.
   */
  predicate Before(p: Path, q: Path)
    decreases |p|
  {
    if p == [] then q != []
    else if q == [] then false
    else p[0] < q[0] || (p[0] == q[0] && Before(p[1..], q[1..]))
  }

  /** Strictly increasing in document order, hence free of repetitions. */
  predicate InDocumentOrder(ps: seq<Path>)
  {
    forall j, k :: 0 <= j < k < |ps| ==> Before(ps[j], ps[k])
  }

  /** Every path of a list with one more step in front. */
  function Prefixed(i: nat, ps: seq<Path>): (r: seq<Path>)
    ensures |r| == |ps|
    ensures forall k :: 0 <= k < |ps| ==> r[k] == [i] + ps[k]
  {
    seq(|ps|, k requires 0 <= k < |ps| => [i] + ps[k])
  }

  /** Prefixing keeps document order. */
  lemma PrefixedOrder(i: nat, ps: seq<Path>)
    requires InDocumentOrder(ps)
    ensures InDocumentOrder(Prefixed(i, ps))
  {
    var r := Prefixed(i, ps);
    forall j, k | 0 <= j < k < |r|
      ensures Before(r[j], r[k])
    {
      assert r[j][1..] == ps[j] && r[k][1..] == ps[k];
    }
  }

  /** Two ordered lists, every element of the first before every element of the second, concatenate in order. */
  lemma ConcatOrder(a: seq<Path>, b: seq<Path>)
    requires InDocumentOrder(a) && InDocumentOrder(b)
    requires forall x, y :: x in a && y in b ==> Before(x, y)
    ensures InDocumentOrder(a + b)
  {
    var c := a + b;
    forall j, k | 0 <= j < k < |c|
      ensures Before(c[j], c[k])
    {
      if k < |a| {
        assert c[j] == a[j] && c[k] == a[k];
      } else if j >= |a| {
        assert c[j] == b[j - |a|] && c[k] == b[k - |a|];
      } else {
        assert c[j] in a && c[k] in b;
      }
    }
  }

  /**
   * The paths of all proper descendants of `n`, in document order (the order
   * of a depth-first, parent-before-children walk).
   */
  function Descendants(n: Element): (r: seq<Path>)
    ensures forall p :: p in r ==> p != [] && ValidPath(n, p)
    ensures InDocumentOrder(r)
    decreases n, 1
  {
    DescendantsFrom(n, 0)
  }

  /** The descendants reached through the children of `n` from position `i` on. */
  function DescendantsFrom(n: Element, i: nat): (r: seq<Path>)
    requires i <= |n.children|
    ensures forall p :: p in r ==> p != [] && i <= p[0] < |n.children| && ValidPath(n, p)
    ensures InDocumentOrder(r)
    decreases n, 0, |n.children| - i
  {
    if i == |n.children| then []
    else
      var below := Descendants(n.children[i]);
      var sub := Prefixed(i, below);
      var rest := DescendantsFrom(n, i + 1);
      assert forall p :: p in sub ==> p != [] && p[0] == i && ValidPath(n, p) by {
        forall p | p in sub
          ensures p != [] && p[0] == i && ValidPath(n, p)
        {
          var k :| 0 <= k < |sub| && sub[k] == p;
          assert p[1..] == below[k];
        }
      }
      PrefixedOrder(i, below);
      assert forall y :: y in sub ==> Before([i], y) by {
        forall y | y in sub
          ensures Before([i], y)
        {
          var k :| 0 <= k < |sub| && sub[k] == y;
          assert below[k] in below;
          assert y[0] == i && y[1..] == below[k] && below[k] != [];
        }
      }
      ConcatOrder([[i]], sub);
      ConcatOrder([[i]] + sub, rest);
      [[i]] + sub + rest
  }

  /** Every proper descendant is enumerated. */
  lemma {:induction false} DescendantsComplete(n: Element, p: Path)
    requires ValidPath(n, p) && p != []
    ensures p in Descendants(n)
    decreases |p|
  {
    var i := p[0];
    var c := n.children[i];
    if |p| > 1 {
      DescendantsComplete(c, p[1..]);
      var k :| 0 <= k < |Descendants(c)| && Descendants(c)[k] == p[1..];
      assert Prefixed(i, Descendants(c))[k] == p;
    }
    DescendantsFromReaches(n, 0, i, p);
  }

  /** `DescendantsFrom(n, i)` holds the child at `k >= i` and everything prefixed by it. */
  lemma {:induction false} DescendantsFromReaches(n: Element, i: nat, k: nat, p: Path)
    requires i <= k < |n.children|
    requires p == [k] || (p != [] && p[0] == k && p in Prefixed(k, Descendants(n.children[k])))
    ensures p in DescendantsFrom(n, i)
    decreases k - i
  {
    var whole := DescendantsFrom(n, i);
    var sub := Prefixed(i, Descendants(n.children[i]));
    var rest := DescendantsFrom(n, i + 1);
    assert whole == [[i]] + sub + rest;
    if i < k {
      DescendantsFromReaches(n, i + 1, k, p);
      assert p in rest;
    } else if p == [k] {
      assert p in [[i]];
    } else {
      assert p in sub;
    }
  }
}
