/** boost::property_tree::ptree: a text and an ordered list of named subtrees, where a name may occur twice. */
module PropertyTree {
  import opened Wrappers

  datatype Tree = Tree(data: string, children: seq<(string, Tree)>)

  const EMPTY := Tree("", [])

  function IndexOf(children: seq<(string, Tree)>, key: string): (r: nat)
    ensures r <= |children|
    ensures r < |children| ==> children[r].0 == key
    ensures forall k :: 0 <= k < r ==> children[k].0 != key
  {
    if children == [] || children[0].0 == key then 0
    else
      var r := IndexOf(children[1..], key);
      assert forall k :: 1 <= k < r + 1 ==> children[k] == children[1..][k - 1];
      r + 1
  }

  /** find, or get_child_optional. */
  function Find(t: Tree, key: string): Option<Tree> {
    var k := IndexOf(t.children, key);
    if k < |t.children| then Some(t.children[k].1) else None
  }

  /** put_child: the first subtree of the name is replaced, or a new one is put at the end. */
  function PutChild(t: Tree, key: string, child: Tree): Tree {
    var k := IndexOf(t.children, key);
    if k < |t.children| then Tree(t.data, t.children[k := (key, child)])
    else Tree(t.data, t.children + [(key, child)])
  }

  /** put: the text of a subtree; the subtrees it may have already stay. */
  function Put(t: Tree, key: string, text: string): Tree {
    var former := Find(t, key);
    PutChild(t, key, Tree(text, if former.Some? then former.value.children else []))
  }

  /** get of a path, without its throw. */
  function Get(t: Tree, path: seq<string>): Option<string>
    decreases |path|
  {
    if path == [] then Some(t.data)
    else
      var child := Find(t, path[0]);
      if child.None? then None else Get(child.value, path[1..])
  }

  lemma IndexIs(children: seq<(string, Tree)>, key: string, k: nat)
    requires k <= |children| && (k < |children| ==> children[k].0 == key)
    requires forall i :: 0 <= i < k ==> children[i].0 != key
    ensures IndexOf(children, key) == k
  {
  }

  /** What was put is found; what has another name is not touched. */
  lemma FindAfterPutChild(t: Tree, key: string, child: Tree, other: string)
    ensures Find(PutChild(t, key, child), other) == if other == key then Some(child) else Find(t, other)
  {
    var k, j := IndexOf(t.children, key), IndexOf(t.children, other);
    var after := PutChild(t, key, child).children;
    if other == key {
      IndexIs(after, key, k);
    } else if j < |t.children| {
      IndexIs(after, other, j);
    } else {
      IndexIs(after, other, |after|);
    }
  }

  lemma FindAfterPut(t: Tree, key: string, text: string, other: string)
    ensures Find(Put(t, key, text), key).Some? && Find(Put(t, key, text), key).value.data == text
    ensures other != key ==> Find(Put(t, key, text), other) == Find(t, other)
  {
    var former := Find(t, key);
    var child := Tree(text, if former.Some? then former.value.children else []);
    FindAfterPutChild(t, key, child, key);
    FindAfterPutChild(t, key, child, other);
  }

  /** The names of the subtrees, in order. */
  function Keys(t: Tree): seq<string> {
    seq(|t.children|, k requires 0 <= k < |t.children| => t.children[k].0)
  }

  /** A put leaves the order of the names, with a new one at the end; the text of the tree and, under the name, the
      subtrees there were, stay. */
  lemma PutKeepsOrder(t: Tree, key: string, text: string)
    ensures Put(t, key, text).data == t.data
    ensures Keys(Put(t, key, text)) == if key in Keys(t) then Keys(t) else Keys(t) + [key]
    ensures Find(Put(t, key, text), key) ==
            Some(Tree(text, if key in Keys(t) then Find(t, key).value.children else []))
  {
    var k := IndexOf(t.children, key);
    assert key in Keys(t) <==> k < |t.children| by {
      assert k < |t.children| ==> Keys(t)[k] == key;
    }
    FindAfterPutChild(t, key, Tree(text, if k < |t.children| then t.children[k].1.children else []), key);
  }
}
