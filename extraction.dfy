/**
 * Value extraction on submit-intent: a left fold over the located nodes into
 * a name-to-value map, failing on a node that is not a select, input or
 * textarea element.
 */
module Extraction {
  import opened Wrappers
  import opened Dom

  /** The form contents: widget name to current value. */
  type Contents = map<string, string>

  /** The message of the error thrown on an unrecognised node. */
  const UnknownElement: string := "Unknown element bound!"

  /** Every node is one extraction can read. */
  predicate AllBindable(nodes: seq<Element>) {
    forall k :: 0 <= k < |nodes| ==> IsBindable(nodes[k])
  }

  /**
   * The one name a plain object never receives as a key: assigning a string
   * to it goes to the inherited prototype setter, which ignores it.
   */
  const ProtoKey: string := "__proto__"

  /** The accumulator after folding every node, in list order, into an empty object. */
  function FoldValues(nodes: seq<Element>): Contents {
    if nodes == [] then map[]
    else
      var last := nodes[|nodes| - 1];
      var init := FoldValues(nodes[..|nodes| - 1]);
      if last.name == ProtoKey then init else init[last.name := last.value]
  }

  /** What the reduce produces: the folded map, or the thrown error. */
  function Extract(nodes: seq<Element>): Result<Contents, string> {
    if AllBindable(nodes) then Success(FoldValues(nodes)) else Failure(UnknownElement)
  }

  /** The set of names the nodes carry. */
  function Names(nodes: seq<Element>): set<string> {
    set k | 0 <= k < |nodes| :: nodes[k].name
  }

  /** The reduce over the nodes, writing into the accumulator one node at a time. */
  method Collect(nodes: seq<Element>) returns (r: Result<Contents, string>)
    ensures r == Extract(nodes)
  {
    var p: Contents := map[];
    var i := 0;
    while i < |nodes|
      invariant 0 <= i <= |nodes|
      invariant AllBindable(nodes[..i])
      invariant p == FoldValues(nodes[..i])
    {
      var node := nodes[i];
      if !IsBindable(node) {
        assert !AllBindable(nodes);
        return Failure(UnknownElement);
      }
      assert nodes[..i + 1][..i] == nodes[..i];
      if node.name != ProtoKey {
        p := p[node.name := node.value];
      }
      i := i + 1;
    }
    assert nodes[..i] == nodes;
    return Success(p);
  }

  /** The extracted map has exactly one key per distinct node name, except the prototype name. */
  lemma {:induction false} FoldKeys(nodes: seq<Element>)
    ensures FoldValues(nodes).Keys == Names(nodes) - {ProtoKey}
  {
    if nodes != [] {
      var init := nodes[..|nodes| - 1];
      FoldKeys(init);
      assert Names(nodes) == Names(init) + {nodes[|nodes| - 1].name} by {
        forall x | x in Names(nodes) ensures x in Names(init) + {nodes[|nodes| - 1].name} {
          var k :| 0 <= k < |nodes| && nodes[k].name == x;
          if k < |nodes| - 1 { assert init[k] == nodes[k]; }
        }
        forall x | x in Names(init) ensures x in Names(nodes) {
          var k :| 0 <= k < |init| && init[k].name == x;
          assert nodes[k] == init[k];
        }
      }
    }
  }

  /** A name maps to the value of the last node in list order that carries it. */
  lemma {:induction false} FoldLastWins(nodes: seq<Element>, i: nat)
    requires i < |nodes|
    requires nodes[i].name != ProtoKey
    requires forall j :: i < j < |nodes| ==> nodes[j].name != nodes[i].name
    ensures nodes[i].name in FoldValues(nodes)
    ensures FoldValues(nodes)[nodes[i].name] == nodes[i].value
  {
    var init := nodes[..|nodes| - 1];
    if i < |nodes| - 1 {
      assert init[i] == nodes[i];
      forall j | i < j < |init| ensures init[j].name != init[i].name {
        assert init[j] == nodes[j];
      }
      FoldLastWins(init, i);
    }
  }
}
