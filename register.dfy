/** `_register_node` of __init__.py: the menu category, node id and title a
    node class receives when the extension registers it, and the list it is
    appended to. */
module Register {
  import opened Wrappers
  import opened Text
  import Json
  import NodeHelpers

  const ProjectEmoji: string := "⚡"
  const ProjectMenu: string := "Z-Image"
  const ProjectId: string := "//ZImagePowerNodes"

  /** The subcategory with a leading `/` added when it is non-empty and
      lacks one. */
  function Subcategory(sub: string): (r: string)
    ensures r == [] <==> sub == []
    ensures r != [] ==> StartsWith(r, "/")
    ensures StartsWith(sub, "/") ==> r == sub
  {
    if sub != [] && !StartsWith(sub, "/") then "/" + sub else sub
  }

  /** The menu category: the project emoji and menu, then the subcategory. */
  function Category(sub: string): string {
    ProjectEmoji + ProjectMenu + Subcategory(sub)
  }

  /** The node id: the class name, a space and the project id. */
  function NodeId(className: string): string {
    className + " " + ProjectId
  }

  /** The displayed title. */
  function Title(title: string, deprecated: bool): string {
    if deprecated then "❌" + title + " [Deprecated]" else ProjectEmoji + "| " + title
  }

  /** A node class: its name and the four class attributes registration sets. */
  class NodeClass {
    const name: string
    var title: string
    var category: Option<string>
    var nodeId: Option<string>
    var deprecated: Option<bool>

    /** A class as defined, before registration (`xCATEGORY`,
        `xCOMFY_NODE_ID` and `xDEPRECATED` are `None`). */
    constructor(name: string, title: string)
      ensures this.name == name && this.title == title
      ensures category == None && nodeId == None && deprecated == None
    {
      this.name := name;
      this.title := title;
      category := None;
      nodeId := None;
      deprecated := None;
    }
  }

  /** The list the registered classes are appended to. */
  class NodeList {
    var items: seq<NodeClass>

    constructor()
      ensures items == []
    {
      items := [];
    }
  }

  /** `_register_node(node_class, node_subcategory, node_list, deprecated)`. */
  method RegisterNode(node: NodeClass, sub: string, list: NodeList, deprecated: bool)
    modifies node, list
    ensures node.title == Title(old(node.title), deprecated)
    ensures node.category == Some(Category(sub))
    ensures node.nodeId == Some(NodeId(node.name))
    ensures node.deprecated == Some(deprecated)
    ensures list.items == old(list.items) + [node]
  {
    var subcategory := sub;
    if subcategory != [] && !StartsWith(subcategory, "/") {
      subcategory := "/" + subcategory;
    }
    var title := node.title;
    var category := ProjectEmoji + ProjectMenu + subcategory;
    var id := node.name + " " + ProjectId;
    if deprecated {
      title := "❌" + title + " [Deprecated]";
    } else {
      title := ProjectEmoji + "| " + title;
    }
    node.title := title;
    node.category := Some(category);
    node.nodeId := Some(id);
    node.deprecated := Some(deprecated);
    list.items := list.items + [node];
  }

  // ---------------------------------------------------------------------
  // Properties

  /** Adding the slash is idempotent, and the category always starts with
      the project menu. */
  lemma SubcategoryNormalised(sub: string)
    ensures Subcategory(Subcategory(sub)) == Subcategory(sub)
    ensures StartsWith(Category(sub), ProjectEmoji + ProjectMenu)
    ensures Category(sub) == Category(Subcategory(sub))
  {
    assert Category(sub)[..|ProjectEmoji + ProjectMenu|] == ProjectEmoji + ProjectMenu;
  }

  /** The title changes at every registration: registering a class twice
      puts the prefix on twice. */
  lemma TitleNotIdempotent(title: string, deprecated: bool)
    ensures |Title(title, deprecated)| > |title|
    ensures Title(Title(title, false), false) == ProjectEmoji + "| " + ProjectEmoji + "| " + title
  {
  }

  /** `get_class_type` on a prompt node whose `class` entry is a registered
      node id gives back the class name, for any class name without white
      space (a Python identifier). */
  lemma ClassTypeOfNodeId(className: string)
    requires forall i :: 0 <= i < |className| ==> className[i] != ' '
    ensures NodeHelpers.GetClassType(Json.Object(map["class" := Json.Str(NodeId(className))])) == Ok(className)
  {
    var id := NodeId(className);
    var n := |className|;
    assert OccursAt(id, " //", n) by {
      assert id[n..n + 3] == " //";
    }
    forall j: nat | j < n
      ensures !OccursAt(id, " //", j)
    {
      assert id[j] == className[j];
    }
    IndexOfFirst(id, " //", n);
    assert id[..n] == className;
  }
}
