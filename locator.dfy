/**
 * The widget and submit-button locator: a depth-first, pre-order walk over
 * the children of the form element that appends what it finds to an
 * accumulator.
 */
module Locator {
  import opened Wrappers
  import opened Dom

  /**
   * What seekInDom finds among the first i children of n: a widget child is
   * taken and not entered, any other HTML child is entered, a non-HTML child
   * is skipped.
   */
  function WidgetsUpTo(n: Element, i: nat): (r: seq<Element>)
    requires i <= |n.children|
    ensures forall k :: 0 <= k < |r| ==> IsWidget(r[k])
    decreases n, i
  {
    if i == 0 then []
    else
      var c := n.children[i - 1];
      WidgetsUpTo(n, i - 1) +
        (if !c.html then [] else if c.tag in TagNames then [c] else WidgetsUpTo(c, |c.children|))
  }

  /** The widgets below n (n itself excluded). */
  function Widgets(n: Element): seq<Element> {
    WidgetsUpTo(n, |n.children|)
  }

  /** The widget list of a possibly absent form element. */
  function Located(root: Option<Element>): seq<Element> {
    if root.None? then [] else Widgets(root.value)
  }

  /**
   * What seekButtons finds among the first i children of n: a direct child
   * submit button is taken; for every other HTML child it is seekInDom, not
   * seekButtons, that runs beneath it.
   */
  function ButtonsUpTo(n: Element, i: nat): (r: seq<Element>)
    requires i <= |n.children|
    ensures forall k :: 0 <= k < |r| ==> IsWidget(r[k]) || (IsSubmitButton(r[k]) && r[k] in n.children[..i])
  {
    if i == 0 then []
    else
      var c := n.children[i - 1];
      ButtonsUpTo(n, i - 1) +
        (if !c.html then [] else if IsSubmitButton(c) then [c] else Widgets(c))
  }

  /** The "submit button" list of a possibly absent form element. */
  function LocatedButtons(root: Option<Element>): seq<Element> {
    if root.None? then [] else ButtonsUpTo(root.value, |root.value.children|)
  }

  // ---------------------------------------------------------------------
  // An independent description of the widget list: every descendant, in
  // pre-order, together with the chain of its ancestors below the root.
  // ---------------------------------------------------------------------

  /** Prefixes every chain with c. */
  function Under(c: Element, chs: seq<seq<Element>>): seq<seq<Element>> {
    seq(|chs|, k requires 0 <= k < |chs| => [c] + chs[k])
  }

  /**
   * The descendants of n reached through its first i children, in pre-order
   * document order, each as the chain from a child of n down to it.
   */
  ghost function ChainsUpTo(n: Element, i: nat): (r: seq<seq<Element>>)
    requires i <= |n.children|
    ensures forall k :: 0 <= k < |r| ==> |r[k]| > 0
    decreases n, i
  {
    if i == 0 then []
    else
      var c := n.children[i - 1];
      ChainsUpTo(n, i - 1) + [[c]] + Under(c, ChainsUpTo(c, |c.children|))
  }

  /** ch descends from n: it starts at a child of n and each next node is a child of the one before. */
  ghost predicate IsPath(n: Element, ch: seq<Element>) {
    |ch| > 0 && ch[0] in n.children &&
    forall j :: 0 <= j < |ch| - 1 ==> ch[j + 1] in ch[j].children
  }

  /** Every chain the enumeration lists is a path down from n through its first i children. */
  lemma {:induction false} ChainsArePaths(n: Element, i: nat)
    requires i <= |n.children|
    ensures forall k :: 0 <= k < |ChainsUpTo(n, i)| ==>
      IsPath(n, ChainsUpTo(n, i)[k]) && ChainsUpTo(n, i)[k][0] in n.children[..i]
    decreases n, i
  {
    if i > 0 {
      var c := n.children[i - 1];
      var before := ChainsUpTo(n, i - 1);
      var inner := ChainsUpTo(c, |c.children|);
      ChainsArePaths(n, i - 1);
      ChainsArePaths(c, |c.children|);
      var r := ChainsUpTo(n, i);
      assert r == before + [[c]] + Under(c, inner);
      assert n.children[..i] == n.children[..i - 1] + [c];
      forall k | 0 <= k < |r|
        ensures IsPath(n, r[k]) && r[k][0] in n.children[..i]
      {
        if k < |before| {
          assert r[k] == before[k];
        } else if k == |before| {
          assert r[k] == [c];
        } else {
          var ch := inner[k - |before| - 1];
          assert IsPath(c, ch);
          var path := [c] + ch;
          assert r[k] == path;
          forall j | 0 <= j < |path| - 1
            ensures path[j + 1] in path[j].children
          {
            if j > 0 {
              assert path[j] == ch[j - 1] && path[j + 1] == ch[j];
            }
          }
        }
      }
    }
  }

  /** A descendant that is a widget with no widget and no non-HTML node above it. */
  ghost predicate Eligible(ch: seq<Element>) {
    |ch| > 0 && IsWidget(ch[|ch| - 1]) &&
    forall k :: 0 <= k < |ch| - 1 ==> IsTransparent(ch[k])
  }

  /**
   * What seekButtons takes below the form: a direct child that is a submit
   * button, or, below an HTML direct child that is not one, what seekInDom
   * takes there.
   */
  ghost predicate EligibleButton(ch: seq<Element>) {
    || (|ch| == 1 && IsSubmitButton(ch[0]))
    || (|ch| >= 2 && ch[0].html && !IsSubmitButton(ch[0]) && Eligible(ch[1..]))
  }

  /** The last nodes of the nonempty chains that keep holds of, in the order of the chains. */
  ghost function Select(keep: seq<Element> -> bool, chs: seq<seq<Element>>): seq<Element> {
    if chs == [] then []
    else (if |chs[0]| > 0 && keep(chs[0]) then [chs[0][|chs[0]| - 1]] else []) + Select(keep, chs[1..])
  }

  lemma {:induction false} SelectAppend(keep: seq<Element> -> bool, a: seq<seq<Element>>, b: seq<seq<Element>>)
    ensures Select(keep, a + b) == Select(keep, a) + Select(keep, b)
  {
    if a != [] {
      assert (a + b)[0] == a[0];
      assert (a + b)[1..] == a[1..] + b;
      SelectAppend(keep, a[1..], b);
    } else {
      assert a + b == b;
    }
  }

  /** A chain below c is eligible exactly when c is transparent and the rest of the chain is eligible. */
  lemma EligibleUnder(c: Element, ch: seq<Element>)
    requires |ch| > 0
    ensures Eligible([c] + ch) == (IsTransparent(c) && Eligible(ch))
  {
    var u := [c] + ch;
    assert u[|u| - 1] == ch[|ch| - 1];
    if IsTransparent(c) && Eligible(ch) {
      forall k | 0 <= k < |u| - 1
        ensures IsTransparent(u[k])
      {
        if k > 0 { assert u[k] == ch[k - 1]; }
      }
    }
    if Eligible(u) {
      assert IsTransparent(u[0]);
      forall k | 0 <= k < |ch| - 1
        ensures IsTransparent(ch[k])
      {
        assert ch[k] == u[k + 1];
      }
    }
  }

  /** Below a collected or non-HTML node nothing is eligible; below any other node, exactly what is eligible there. */
  lemma {:induction false} SelectUnder(c: Element, chs: seq<seq<Element>>)
    requires forall k :: 0 <= k < |chs| ==> |chs[k]| > 0
    ensures Select(Eligible, Under(c, chs)) == if IsTransparent(c) then Select(Eligible, chs) else []
  {
    if chs != [] {
      var u := Under(c, chs);
      var ch := chs[0];
      assert u[1..] == Under(c, chs[1..]);
      SelectUnder(c, chs[1..]);
      assert u[0] == [c] + ch;
      assert u[0][|u[0]| - 1] == ch[|ch| - 1];
      EligibleUnder(c, ch);
    }
  }

  /**
   * seekInDom finds exactly the eligible descendants in pre-order document
   * order: the widgets with no collected (and no non-HTML) node above them.
   */
  lemma {:induction false} WidgetsArePreorderEligible(n: Element, i: nat)
    requires i <= |n.children|
    ensures WidgetsUpTo(n, i) == Select(Eligible, ChainsUpTo(n, i))
    decreases n, i
  {
    if i > 0 {
      var c := n.children[i - 1];
      var before := ChainsUpTo(n, i - 1);
      var inner := ChainsUpTo(c, |c.children|);
      var piece := if !c.html then [] else if c.tag in TagNames then [c] else WidgetsUpTo(c, |c.children|);
      assert WidgetsUpTo(n, i) == WidgetsUpTo(n, i - 1) + piece;
      WidgetsArePreorderEligible(n, i - 1);
      assert piece == Select(Eligible, [[c]]) + Select(Eligible, Under(c, inner)) by {
        assert [[c]][1..] == [];
        assert Eligible([c]) == IsWidget(c);
        SelectUnder(c, inner);
        if IsTransparent(c) {
          WidgetsArePreorderEligible(c, |c.children|);
        }
      }
      calc {
        Select(Eligible, ChainsUpTo(n, i));
        Select(Eligible, before + [[c]] + Under(c, inner));
        { SelectAppend(Eligible, before + [[c]], Under(c, inner)); }
        Select(Eligible, before + [[c]]) + Select(Eligible, Under(c, inner));
        { SelectAppend(Eligible, before, [[c]]); }
        Select(Eligible, before) + Select(Eligible, [[c]]) + Select(Eligible, Under(c, inner));
        Select(Eligible, before) + piece;
        WidgetsUpTo(n, i - 1) + piece;
      }
    } else {
      assert ChainsUpTo(n, i) == [];
    }
  }

  /** Every direct child that is a submit button is collected by seekButtons. */
  lemma {:induction false} DirectSubmitButtonsCollected(n: Element, i: nat, k: nat)
    requires k < i <= |n.children|
    requires IsSubmitButton(n.children[k])
    ensures n.children[k] in ButtonsUpTo(n, i)
  {
    if k < i - 1 {
      DirectSubmitButtonsCollected(n, i - 1, k);
    }
  }

  /** Below a submit button or a non-HTML child nothing is taken; below any other child, what seekInDom takes there. */
  lemma {:induction false} SelectButtonsUnder(c: Element, chs: seq<seq<Element>>)
    requires forall k :: 0 <= k < |chs| ==> |chs[k]| > 0
    ensures Select(EligibleButton, Under(c, chs)) ==
      if c.html && !IsSubmitButton(c) then Select(Eligible, chs) else []
  {
    if chs != [] {
      var u := Under(c, chs);
      var ch := chs[0];
      assert u[1..] == Under(c, chs[1..]);
      SelectButtonsUnder(c, chs[1..]);
      assert u[0] == [c] + ch && u[0][1..] == ch;
      assert u[0][|u[0]| - 1] == ch[|ch| - 1];
      assert EligibleButton(u[0]) == (c.html && !IsSubmitButton(c) && Eligible(ch));
    }
  }

  /**
   * seekButtons takes exactly, in pre-order document order, the direct
   * children that are submit buttons and the descendants seekInDom takes
   * below the other HTML direct children; so a direct-child widget is never
   * in the list, and every widget below a non-button child is.
   */
  lemma {:induction false} ButtonsArePreorderEligible(n: Element, i: nat)
    requires i <= |n.children|
    ensures ButtonsUpTo(n, i) == Select(EligibleButton, ChainsUpTo(n, i))
  {
    if i > 0 {
      var c := n.children[i - 1];
      var before := ChainsUpTo(n, i - 1);
      var below := [[c]] + Under(c, ChainsUpTo(c, |c.children|));
      var piece := if !c.html then [] else if IsSubmitButton(c) then [c] else Widgets(c);
      assert ButtonsUpTo(n, i) == ButtonsUpTo(n, i - 1) + piece;
      assert ChainsUpTo(n, i) == before + below;
      ButtonsArePreorderEligible(n, i - 1);
      ButtonsBelowChild(c);
      SelectAppend(EligibleButton, before, below);
    } else {
      assert ChainsUpTo(n, i) == [];
    }
  }

  /** What seekButtons takes for one direct child c is what EligibleButton keeps among the chains through c. */
  lemma ButtonsBelowChild(c: Element)
    ensures (if !c.html then [] else if IsSubmitButton(c) then [c] else Widgets(c)) ==
      Select(EligibleButton, [[c]] + Under(c, ChainsUpTo(c, |c.children|)))
  {
    var inner := ChainsUpTo(c, |c.children|);
    SelectAppend(EligibleButton, [[c]], Under(c, inner));
    assert [[c]][1..] == [];
    assert EligibleButton([c]) == IsSubmitButton(c);
    SelectButtonsUnder(c, inner);
    if c.html && !IsSubmitButton(c) {
      WidgetsArePreorderEligible(c, |c.children|);
    }
  }

  // ---------------------------------------------------------------------
  // The imperative walks.
  // ---------------------------------------------------------------------

  /** seekInDom(acc, node): appends to acc the widgets below node. */
  method SeekInDom(acc: seq<Element>, node: Option<Element>) returns (r: seq<Element>)
    ensures node.None? ==> r == acc
    ensures node.Some? ==> r == acc + Widgets(node.value)
  {
    if node.None? {
      return acc;
    }
    r := ScanChildren(acc, node.value);
  }

  /** The loop of seekInDom over the children of a present node. */
  method ScanChildren(acc: seq<Element>, n: Element) returns (r: seq<Element>)
    ensures r == acc + Widgets(n)
    decreases n
  {
    r := acc;
    var i := 0;
    while i < |n.children|
      invariant 0 <= i <= |n.children|
      invariant r == acc + WidgetsUpTo(n, i)
    {
      var child := n.children[i];
      if child.html {
        if child.tag in TagNames {
          r := r + [child];
        } else {
          r := ScanChildren(r, child);
        }
      }
      i := i + 1;
    }
  }

  /** seekButtons(acc, node): appends direct-child submit buttons and what seekInDom finds below every other child. */
  method SeekButtons(acc: seq<Element>, node: Option<Element>) returns (r: seq<Element>)
    ensures node.None? ==> r == acc
    ensures node.Some? ==> r == acc + ButtonsUpTo(node.value, |node.value.children|)
  {
    if node.None? {
      return acc;
    }
    var n := node.value;
    r := acc;
    var i := 0;
    while i < |n.children|
      invariant 0 <= i <= |n.children|
      invariant r == acc + ButtonsUpTo(n, i)
    {
      var child := n.children[i];
      if child.html {
        if child.tag == "button" && child.kind == "submit" {
          r := r + [child];
        } else {
          r := SeekInDom(r, Some(child));
        }
      }
      i := i + 1;
    }
  }
}
