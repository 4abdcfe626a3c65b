/**
 * The skiplist variant of `reconstruct_tree` in app/baseparser.py.  Terminal
 * nodes are kept as they are (shared with the original tree), skipped
 * non-terminals vanish with their subtree, listed non-terminals are shallow
 * copies holding their rebuilt children, and all other nodes dissolve into
 * their rebuilt children.
 */
module Legacy {
  import opened Text
  import opened Nodes
  import Trees

  /** The exceptions the root handling raises: iterating over None, and `nc[0]` on an empty tuple. */
  datatype LegacyError = ChildrenNone | NoNodeKept

  /** `reconstructnode`; None stands for the subtree of a skipped node. */
  function Rebuild(n: Node, types: set<string>, skip: set<string>): (r: Option<seq<Node>>)
    ensures r.None? <==> IsNonTerminal(n) && Type(n) in skip
    ensures n.Terminal? ==> r == Some([n])
    ensures r.Some? && IsNonTerminal(n) && Type(n) in types ==>
      |r.value| == 1 && Type(r.value[0]) == Type(n) && r.value[0].NonTerminal? == n.NonTerminal?
  {
    if n.Terminal? then Some([n])
    else if IsNonTerminal(n) && Type(n) in skip then None
    else if !IsNonTerminal(n) then Some([])
    else
      var kids := RebuildAll(Kids(n), types, skip);
      if Type(n) in types then Some([Trees.WithKids(n, kids)]) else Some(kids)
  }

  /** The loop over the children: the tuples concatenated, skipped subtrees left out. */
  function RebuildAll(ns: seq<Node>, types: set<string>, skip: set<string>): seq<Node>
  {
    if ns == [] then []
    else
      var head := Rebuild(ns[0], types, skip);
      (if head.Some? then head.value else []) + RebuildAll(ns[1..], types, skip)
  }

  /**
   * The root handling: an unlisted non-terminal root keeps a copy holding the
   * rebuilt children; otherwise the first rebuilt node is the new root.
   */
  function ReconstructTree(root: Node, types: set<string>, skip: set<string>): (r: Result<Node, LegacyError>)
    ensures IsNonTerminal(root) && Type(root) in skip ==> r == Err(ChildrenNone)
    ensures root.Failure? ==> r == Err(NoNodeKept)
    ensures root.Terminal? ==> r == Ok(root)
    ensures r.Ok? ==> Type(r.value) == Type(root)
  {
    var nc := Rebuild(root, types, skip);
    if IsNonTerminal(root) && Type(root) !in types then
      if nc.None? then Err(ChildrenNone) else Ok(Trees.WithKids(root, nc.value))
    else if nc.None? then Err(ChildrenNone)
    else if nc.value == [] then Err(NoNodeKept)
    else Ok(nc.value[0])
  }

  /** The terminals outside skipped subtrees, in order; failure nodes are dropped. */
  function Surviving(n: Node, skip: set<string>): seq<Node>
  {
    if n.Terminal? then [n]
    else if !IsNonTerminal(n) || Type(n) in skip then []
    else SurvivingAll(Kids(n), skip)
  }

  function SurvivingAll(ns: seq<Node>, skip: set<string>): seq<Node>
  {
    if ns == [] then [] else Surviving(ns[0], skip) + SurvivingAll(ns[1..], skip)
  }

  /** The types of the kept non-terminals in preorder: listed, and not inside a skipped subtree. */
  function KeptOutline(n: Node, types: set<string>, skip: set<string>): seq<string>
  {
    if !IsNonTerminal(n) || Type(n) in skip then []
    else (if Type(n) in types then [Type(n)] else []) + KeptOutlineAll(Kids(n), types, skip)
  }

  function KeptOutlineAll(ns: seq<Node>, types: set<string>, skip: set<string>): seq<string>
  {
    if ns == [] then [] else KeptOutline(ns[0], types, skip) + KeptOutlineAll(ns[1..], types, skip)
  }

  /** The non-terminal types met in preorder. */
  function NonTerminalOutline(ns: seq<Node>): seq<string>
  {
    if ns == [] then []
    else (if IsNonTerminal(ns[0]) then [Type(ns[0])] + NonTerminalOutline(Kids(ns[0])) else [])
         + NonTerminalOutline(ns[1..])
  }

  lemma {:induction false} LeavesOfAppend(a: seq<Node>, b: seq<Node>)
    ensures LeavesOf(a + b) == LeavesOf(a) + LeavesOf(b)
  {
    if a == [] {
      assert a + b == b;
    } else {
      assert (a + b)[0] == a[0];
      assert (a + b)[1..] == a[1..] + b;
      LeavesOfAppend(a[1..], b);
    }
  }

  lemma {:induction false} NonTerminalOutlineAppend(a: seq<Node>, b: seq<Node>)
    ensures NonTerminalOutline(a + b) == NonTerminalOutline(a) + NonTerminalOutline(b)
  {
    if a == [] {
      assert a + b == b;
    } else {
      assert (a + b)[0] == a[0];
      assert (a + b)[1..] == a[1..] + b;
      NonTerminalOutlineAppend(a[1..], b);
    }
  }

  /** The rebuilt nodes of one subtree hold exactly its surviving terminals. */
  lemma {:induction false} RebuildKeepsTerminals(n: Node, types: set<string>, skip: set<string>)
    requires Rebuild(n, types, skip).Some?
    ensures LeavesOf(Rebuild(n, types, skip).value) == Surviving(n, skip)
  {
    if n.Terminal? {
      assert LeavesOf([n]) == Leaves(n) + LeavesOf([]);
    } else if IsNonTerminal(n) {
      var kids := RebuildAll(Kids(n), types, skip);
      RebuildAllKeepsTerminals(Kids(n), types, skip);
      if Type(n) in types {
        var x := Trees.WithKids(n, kids);
        assert LeavesOf([x]) == Leaves(x) + LeavesOf([]);
        assert Leaves(x) == LeavesOf(kids);
      }
    }
  }

  lemma {:induction false} RebuildAllKeepsTerminals(ns: seq<Node>, types: set<string>, skip: set<string>)
    ensures LeavesOf(RebuildAll(ns, types, skip)) == SurvivingAll(ns, skip)
  {
    if ns != [] {
      var head := Rebuild(ns[0], types, skip);
      RebuildAllKeepsTerminals(ns[1..], types, skip);
      LeavesOfAppend(if head.Some? then head.value else [], RebuildAll(ns[1..], types, skip));
      if head.Some? {
        RebuildKeepsTerminals(ns[0], types, skip);
      }
    }
  }

  /** The rebuilt nodes of one subtree are exactly its kept non-terminals, in document order. */
  lemma {:induction false} RebuildKeepsListedTypes(n: Node, types: set<string>, skip: set<string>)
    requires Rebuild(n, types, skip).Some?
    ensures NonTerminalOutline(Rebuild(n, types, skip).value) == KeptOutline(n, types, skip)
  {
    if n.Terminal? {
      assert NonTerminalOutline([n]) == [] + NonTerminalOutline([]);
    } else if IsNonTerminal(n) {
      var kids := RebuildAll(Kids(n), types, skip);
      RebuildAllKeepsListedTypes(Kids(n), types, skip);
      if Type(n) in types {
        var x := Trees.WithKids(n, kids);
        assert NonTerminalOutline([x]) == [Type(x)] + NonTerminalOutline(Kids(x)) + NonTerminalOutline([]);
      }
    }
  }

  lemma {:induction false} RebuildAllKeepsListedTypes(ns: seq<Node>, types: set<string>, skip: set<string>)
    ensures NonTerminalOutline(RebuildAll(ns, types, skip)) == KeptOutlineAll(ns, types, skip)
  {
    if ns != [] {
      var head := Rebuild(ns[0], types, skip);
      RebuildAllKeepsListedTypes(ns[1..], types, skip);
      NonTerminalOutlineAppend(if head.Some? then head.value else [], RebuildAll(ns[1..], types, skip));
      if head.Some? {
        RebuildKeepsListedTypes(ns[0], types, skip);
      } else {
        assert KeptOutline(ns[0], types, skip) == [];
      }
    }
  }

  /** A reconstructed tree holds exactly the terminals that lie outside skipped subtrees. */
  lemma ReconstructKeepsTerminals(root: Node, types: set<string>, skip: set<string>)
    requires ReconstructTree(root, types, skip).Ok?
    ensures Leaves(ReconstructTree(root, types, skip).value) == Surviving(root, skip)
  {
    var nc := Rebuild(root, types, skip);
    if IsNonTerminal(root) {
      RebuildAllKeepsTerminals(Kids(root), types, skip);
      if Type(root) in types {
        var x := Trees.WithKids(root, RebuildAll(Kids(root), types, skip));
        assert Leaves(x) == LeavesOf(Kids(x));
      }
    }
  }
}
