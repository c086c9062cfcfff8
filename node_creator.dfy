/**
 * The registry of node types: each type name maps to the list of attributes
 * a node of that type is created with. A type is registered once; creating
 * a node of a registered type copies its attribute list into the new node.
 */
module NodeCreation {
  import opened Optional
  import opened Geometry

  datatype AttributeKind = Input | Output | Member

  /** How to build one attribute of a new node. */
  datatype AttributeInfo = AttributeInfo(name: string, dataType: string, kind: AttributeKind)

  /** A newly created node: its type, name, stage, position and attributes in order. */
  datatype Node = Node(nodeType: string, name: string, stage: string, pos: Point, attributes: seq<AttributeInfo>)

  class NodeCreator {
    var availableItems: map<string, seq<AttributeInfo>>

    constructor ()
      ensures availableItems == map[]
    {
      availableItems := map[];
    }

    /**
     * Registers `attributes` under `nodeType` unless the type is already
     * known, in which case the registry is left as it is: the first
     * registration wins, and no entry is ever removed or altered.
     */
    method AddItem(nodeType: string, attributes: seq<AttributeInfo>)
      modifies this
      ensures nodeType !in old(availableItems) ==> availableItems == old(availableItems)[nodeType := attributes]
      ensures nodeType in old(availableItems) ==> availableItems == old(availableItems)
      ensures availableItems.Keys == old(availableItems).Keys + {nodeType}
      ensures forall t :: t in old(availableItems) ==> availableItems[t] == old(availableItems)[t]
    {
      if nodeType in availableItems {
        return;
      }
      availableItems := availableItems[nodeType := attributes];
    }

    /**
     * Builds a node of a registered type, adding the registered attributes
     * one by one; an unknown type yields no node. The registry is only read.
     */
    method CreateItem(nodeType: string, name: string, stage: string, pos: Point) returns (node: Option<Node>)
      ensures nodeType !in availableItems ==> node == None
      ensures nodeType in availableItems ==>
                node == Some(Node(nodeType, name, stage, pos, availableItems[nodeType]))
    {
      if nodeType !in availableItems {
        return None;
      }
      var registered := availableItems[nodeType];
      var created := Node(nodeType, name, stage, pos, []);
      var i := 0;
      while i < |registered|
        invariant 0 <= i <= |registered|
        invariant created == Node(nodeType, name, stage, pos, registered[..i])
      {
        created := created.(attributes := created.attributes + [registered[i]]);
        i := i + 1;
      }
      assert registered[..i] == registered;
      node := Some(created);
    }
  }

  /** Registering a type twice keeps the first attribute list; nodes of that type get it. */
  method FirstRegistrationWins(nodeType: string, first: seq<AttributeInfo>, second: seq<AttributeInfo>,
                               name: string, stage: string, pos: Point)
    returns (node: Option<Node>)
    ensures node == Some(Node(nodeType, name, stage, pos, first))
  {
    var creator := new NodeCreator();
    creator.AddItem(nodeType, first);
    creator.AddItem(nodeType, second);
    node := creator.CreateItem(nodeType, name, stage, pos);
  }

  /** An unregistered type yields no node, whatever else is registered. */
  method UnknownTypeYieldsNothing(known: string, attributes: seq<AttributeInfo>, unknown: string,
                                  name: string, stage: string, pos: Point)
    returns (node: Option<Node>)
    requires known != unknown
    ensures node == None
  {
    var creator := new NodeCreator();
    creator.AddItem(known, attributes);
    node := creator.CreateItem(unknown, name, stage, pos);
  }
}
