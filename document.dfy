/**
 * The page's DOM, flattened to its elements in document order. Each element
 * is a node by identity; `isAsset` says it carries the `data-hypothesis-asset`
 * attribute that the boot script puts on every node it injects, and
 * `isSidebarLink` that it is the `<link type="application/annotator+html"
 * rel="sidebar">` the boot script adds.
 */
module Document {
  import opened Wrappers

  datatype Element = Element(id: nat, isAsset: bool, isSidebarLink: bool)

  predicate NoAssets(doc: seq<Element>) {
    forall i :: 0 <= i < |doc| ==> !doc[i].isAsset
  }

  /** `document.querySelectorAll('[data-hypothesis-asset]')`: the marked elements, in document order. */
  function Assets(doc: seq<Element>): (r: seq<Element>)
    ensures forall x :: x in r <==> x in doc && x.isAsset
  {
    if doc == [] then []
    else if doc[0].isAsset then [doc[0]] + Assets(doc[1..])
    else Assets(doc[1..])
  }

  /** The document with every marked element gone and the others in their order. */
  function NonAssets(doc: seq<Element>): (r: seq<Element>)
    ensures forall x :: x in r <==> x in doc && !x.isAsset
    ensures NoAssets(r)
  {
    if doc == [] then []
    else if doc[0].isAsset then NonAssets(doc[1..])
    else [doc[0]] + NonAssets(doc[1..])
  }

  /** The document after the nodes in `gone` have each been removed (`el.remove()`). */
  function Except(doc: seq<Element>, gone: set<Element>): (r: seq<Element>)
    ensures forall x :: x in r <==> x in doc && x !in gone
  {
    if doc == [] then []
    else if doc[0] in gone then Except(doc[1..], gone)
    else [doc[0]] + Except(doc[1..], gone)
  }

  /** The position of the first sidebar link, or `|doc|` when there is none. */
  function SidebarLinkIndex(doc: seq<Element>): (k: nat)
    ensures k <= |doc|
    ensures forall j :: 0 <= j < k ==> !doc[j].isSidebarLink
    ensures k < |doc| ==> doc[k].isSidebarLink
  {
    if doc == [] || doc[0].isSidebarLink then 0 else 1 + SidebarLinkIndex(doc[1..])
  }

  /** `document.querySelector('link[type="application/annotator+html"][rel="sidebar"]')`. */
  function QuerySidebarLink(doc: seq<Element>): (r: Option<Element>)
    ensures r.None? <==> forall j :: 0 <= j < |doc| ==> !doc[j].isSidebarLink
    ensures r.Some? ==> r.value.isSidebarLink && r.value in doc
  {
    var k := SidebarLinkIndex(doc);
    if k < |doc| then Some(doc[k]) else None
  }

  /** `r` is `s` with some of its elements left out, the rest in their order. */
  ghost predicate IsSubsequence(r: seq<Element>, s: seq<Element>)
    decreases |s|
  {
    r == [] ||
    (s != [] && ((r[0] == s[0] && IsSubsequence(r[1..], s[1..])) || IsSubsequence(r, s[1..])))
  }

  /** Removing no node leaves the document as it is. */
  lemma {:induction false} ExceptNothing(doc: seq<Element>)
    ensures Except(doc, {}) == doc
  {
    if doc != [] {
      ExceptNothing(doc[1..]);
    }
  }

  /** Removing one more node is removing the enlarged set. */
  lemma {:induction false} ExceptStep(doc: seq<Element>, gone: set<Element>, e: Element)
    ensures Except(Except(doc, gone), {e}) == Except(doc, gone + {e})
  {
    if doc != [] {
      ExceptStep(doc[1..], gone, e);
      if doc[0] !in gone {
        assert ([doc[0]] + Except(doc[1..], gone))[1..] == Except(doc[1..], gone);
      }
    }
  }

  /** Removing a set that holds exactly the document's marked elements leaves the unmarked ones. */
  lemma {:induction false} ExceptAssets(doc: seq<Element>, gone: set<Element>)
    requires forall x :: x in doc ==> (x in gone <==> x.isAsset)
    ensures Except(doc, gone) == NonAssets(doc)
  {
    if doc != [] {
      ExceptAssets(doc[1..], gone);
    }
  }

  /** An unmarked document is left as it is. */
  lemma {:induction false} NonAssetsOfAssetFree(doc: seq<Element>)
    requires NoAssets(doc)
    ensures NonAssets(doc) == doc
  {
    if doc != [] {
      assert !doc[0].isAsset;
      NonAssetsOfAssetFree(doc[1..]);
    }
  }

  /** A document made only of marked elements is emptied. */
  lemma {:induction false} NonAssetsOfAllAssets(doc: seq<Element>)
    requires forall i :: 0 <= i < |doc| ==> doc[i].isAsset
    ensures NonAssets(doc) == []
  {
    if doc != [] {
      NonAssetsOfAllAssets(doc[1..]);
    }
  }

  /** Removing the marked elements twice removes nothing more. */
  lemma NonAssetsIdempotent(doc: seq<Element>)
    ensures NonAssets(NonAssets(doc)) == NonAssets(doc)
  {
    NonAssetsOfAssetFree(NonAssets(doc));
  }

  /** Filtering distributes over concatenation, so the kept elements keep their relative order. */
  lemma {:induction false} NonAssetsAppend(a: seq<Element>, b: seq<Element>)
    ensures NonAssets(a + b) == NonAssets(a) + NonAssets(b)
  {
    if a != [] {
      assert (a + b)[0] == a[0] && (a + b)[1..] == a[1..] + b;
      NonAssetsAppend(a[1..], b);
      if a[0].isAsset {
        assert NonAssets(a + b) == NonAssets(a[1..] + b);
        assert NonAssets(a) == NonAssets(a[1..]);
        assert NonAssets(a + b) == NonAssets(a) + NonAssets(b);
      } else {
        assert NonAssets(a + b) == [a[0]] + (NonAssets(a[1..]) + NonAssets(b));
        assert [a[0]] + (NonAssets(a[1..]) + NonAssets(b)) == ([a[0]] + NonAssets(a[1..])) + NonAssets(b);
        assert NonAssets(a + b) == NonAssets(a) + NonAssets(b);
      }
    } else {
      assert a + b == b;
      assert NonAssets(a) == [];
      assert NonAssets(a + b) == NonAssets(a) + NonAssets(b);
    }
  }

  /** The unmarked elements are a subsequence of the document. */
  lemma {:induction false} NonAssetsIsSubsequence(doc: seq<Element>)
    ensures IsSubsequence(NonAssets(doc), doc)
  {
    if doc != [] {
      NonAssetsIsSubsequence(doc[1..]);
      if !doc[0].isAsset {
        assert ([doc[0]] + NonAssets(doc[1..]))[1..] == NonAssets(doc[1..]);
      }
    }
  }

  /** Every element is either marked or kept: the two filters partition the document. */
  lemma {:induction false} AssetsPartition(doc: seq<Element>)
    ensures multiset(Assets(doc)) + multiset(NonAssets(doc)) == multiset(doc)
  {
    if doc != [] {
      AssetsPartition(doc[1..]);
      assert doc == [doc[0]] + doc[1..];
    }
  }
}
