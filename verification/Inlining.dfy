/** Recovering inline matcher trees from a content-addressed node graph: `inline` expands shared
    nodes under a cycle check, a depth limit and one node budget shared by every call. */
module Inlining {

  type Id = string
  type Config = string

  /** One child field of a node. A field that is not a list holds exactly one reference. */
  datatype Child = Child(field: string, many: bool, ids: seq<Id>)
  datatype Node = Node(op: string, config: Config, children: seq<Child>)
  type Program = map<Id, Node>

  datatype Branch = Branch(field: string, many: bool, trees: seq<Tree>)
  datatype Tree = Tree(op: string, config: Config, fields: seq<Branch>)

  datatype Error = NodeBudget | CyclicOrTooDeep | MissingNode | UnsupportedChild
  datatype Outcome = Inlined(tree: Tree) | Refused(error: Error)

  const NODE_BUDGET: nat := 16_384
  const MAX_PATH_NODES: nat := 33

  predicate SupportedField(f: string) {
    f in {"matchers", "producer", "consumer"}
  }

  predicate SupportedNode(n: Node) {
    forall k :: 0 <= k < |n.children| ==> SupportedField(n.children[k].field)
  }

  // ---- What a tree has to be -------------------------------------------------------------

  /** `t` is the unfolding of the graph at `id`: same operation, same configuration, and under
      each field the unfoldings of the referenced nodes, in order. */
  ghost predicate IsUnfolding(p: Program, id: Id, t: Tree)
    decreases t
  {
    && id in p
    && t.op == p[id].op && t.config == p[id].config
    && |t.fields| == |p[id].children|
    && forall k :: 0 <= k < |t.fields| ==> BranchUnfolds(p, p[id].children[k], t.fields[k])
  }

  ghost predicate BranchUnfolds(p: Program, c: Child, b: Branch)
    decreases b
  {
    b.field == c.field && b.many == c.many && UnfoldAll(p, c.ids, b.trees)
  }

  ghost predicate UnfoldAll(p: Program, ids: seq<Id>, ts: seq<Tree>)
    decreases ts
  {
    |ts| == |ids| && forall j :: 0 <= j < |ts| ==> IsUnfolding(p, ids[j], ts[j])
  }

  /** Every root-to-leaf path of `t` has at most `h` nodes, and every field is a supported one. */
  ghost predicate Admissible(t: Tree, h: nat)
    decreases t
  {
    h >= 1 && forall k :: 0 <= k < |t.fields| ==>
      SupportedField(t.fields[k].field) && AllAdmissible(t.fields[k].trees, h - 1)
  }

  ghost predicate AllAdmissible(ts: seq<Tree>, h: nat)
    decreases ts
  {
    forall j :: 0 <= j < |ts| ==> Admissible(ts[j], h)
  }

  ghost function Size(t: Tree): nat
    decreases t
  {
    1 + SizeOfFields(t.fields)
  }

  ghost function SizeOfFields(fs: seq<Branch>): nat
    decreases fs
  {
    if fs == [] then 0 else SizeOfFields(fs[..|fs| - 1]) + SizeOfTrees(fs[|fs| - 1].trees)
  }

  ghost function SizeOfTrees(ts: seq<Tree>): nat
    decreases ts
  {
    if ts == [] then 0 else SizeOfTrees(ts[..|ts| - 1]) + Size(ts[|ts| - 1])
  }

  /** The tree fits the limits that remain below `depth` ancestors after `used` nodes. */
  ghost predicate Fits(t: Tree, depth: nat, used: nat) {
    depth <= MAX_PATH_NODES && Admissible(t, MAX_PATH_NODES - depth) && used + Size(t) <= NODE_BUDGET
  }

  ghost predicate AllFit(ts: seq<Tree>, depth: nat, used: nat) {
    depth <= MAX_PATH_NODES && AllAdmissible(ts, MAX_PATH_NODES - depth) && used + SizeOfTrees(ts) <= NODE_BUDGET
  }

  // ---- Sizes of prefixes ------------------------------------------------------------------

  lemma {:induction false} TreesPrefixSize(ts: seq<Tree>, j: nat)
    requires j < |ts|
    ensures SizeOfTrees(ts[..j]) + Size(ts[j]) <= SizeOfTrees(ts)
    decreases |ts|
  {
    if j < |ts| - 1 {
      TreesPrefixSize(ts[..|ts| - 1], j);
      assert ts[..|ts| - 1][..j] == ts[..j];
    }
  }

  lemma {:induction false} FieldsPrefixSize(fs: seq<Branch>, k: nat)
    requires k < |fs|
    ensures SizeOfFields(fs[..k]) + SizeOfTrees(fs[k].trees) <= SizeOfFields(fs)
    decreases |fs|
  {
    if k < |fs| - 1 {
      FieldsPrefixSize(fs[..|fs| - 1], k);
      assert fs[..|fs| - 1][..k] == fs[..k];
    }
  }

  // ---- Unfoldings are unique and exclude cycles ------------------------------------------

  lemma {:induction false} UnfoldingIsUnique(p: Program, id: Id, t: Tree, u: Tree)
    requires IsUnfolding(p, id, t) && IsUnfolding(p, id, u)
    ensures t == u
    decreases t, 1
  {
    forall k | 0 <= k < |t.fields|
      ensures t.fields[k] == u.fields[k]
    {
      var c := p[id].children[k];
      assert BranchUnfolds(p, c, t.fields[k]) && BranchUnfolds(p, c, u.fields[k]);
      UnfoldAllIsUnique(p, c.ids, t.fields[k].trees, u.fields[k].trees);
    }
    assert t.fields == u.fields;
  }

  lemma {:induction false} UnfoldAllIsUnique(p: Program, ids: seq<Id>, ts: seq<Tree>, us: seq<Tree>)
    requires UnfoldAll(p, ids, ts) && UnfoldAll(p, ids, us)
    ensures ts == us
    decreases ts, 0
  {
    forall j | 0 <= j < |ts|
      ensures ts[j] == us[j]
    {
      UnfoldingIsUnique(p, ids[j], ts[j], us[j]);
    }
  }

  ghost predicate Edge(p: Program, a: Id, b: Id) {
    a in p && exists k :: 0 <= k < |p[a].children| && b in p[a].children[k].ids
  }

  /** `s` is a path of the graph: at least one node, each step an edge. */
  ghost predicate Path(p: Program, s: seq<Id>) {
    s != [] && forall i :: 0 <= i < |s| - 1 ==> Edge(p, s[i], s[i + 1])
  }

  lemma {:induction false} SubPath(p: Program, s: seq<Id>, lo: nat, hi: nat)
    requires Path(p, s) && lo < hi <= |s|
    ensures Path(p, s[lo..hi])
  {
    forall i | 0 <= i < hi - lo - 1 ensures Edge(p, s[lo..hi][i], s[lo..hi][i + 1]) {
      assert Edge(p, s[lo + i], s[lo + i + 1]);
    }
  }

  lemma {:induction false} PathsJoin(p: Program, a: seq<Id>, b: seq<Id>)
    requires Path(p, a) && Path(p, b) && Edge(p, a[|a| - 1], b[0])
    ensures Path(p, a + b)
  {
    var s := a + b;
    forall i | 0 <= i < |s| - 1 ensures Edge(p, s[i], s[i + 1]) {
      if i < |a| - 1 {
        assert Edge(p, a[i], a[i + 1]);
      } else if i >= |a| {
        assert Edge(p, b[i - |a|], b[i - |a| + 1]);
      }
    }
  }

  /** The sub-tree of an unfolding that stands for one edge of the graph. */
  lemma {:induction false} ChildUnfolds(p: Program, a: Id, t: Tree, b: Id) returns (u: Tree)
    requires IsUnfolding(p, a, t) && Edge(p, a, b)
    ensures IsUnfolding(p, b, u) && Size(u) < Size(t)
    ensures forall h: nat :: Admissible(t, h) ==> h >= 1 && Admissible(u, h - 1)
  {
    var k :| 0 <= k < |p[a].children| && b in p[a].children[k].ids;
    var j :| 0 <= j < |p[a].children[k].ids| && p[a].children[k].ids[j] == b;
    var trees := t.fields[k].trees;
    assert BranchUnfolds(p, p[a].children[k], t.fields[k]);
    assert UnfoldAll(p, p[a].children[k].ids, trees);
    u := trees[j];
    FieldsPrefixSize(t.fields, k);
    TreesPrefixSize(trees, j);
    forall h: nat | Admissible(t, h) ensures h >= 1 && Admissible(u, h - 1) {
      assert AllAdmissible(trees, h - 1);
    }
  }

  /** The end of a path that starts at an unfolded node unfolds too, to a smaller tree. */
  lemma {:induction false} PathEndUnfolds(p: Program, s: seq<Id>, t: Tree) returns (u: Tree)
    requires Path(p, s) && IsUnfolding(p, s[0], t)
    ensures IsUnfolding(p, s[|s| - 1], u)
    ensures Size(u) <= Size(t) && (|s| > 1 ==> Size(u) < Size(t))
    ensures forall h: nat :: Admissible(t, h) ==> |s| <= h && Admissible(u, h - |s| + 1)
    decreases |s|
  {
    if |s| == 1 {
      u := t;
    } else {
      assert Edge(p, s[0], s[0 + 1]);
      var child := ChildUnfolds(p, s[0], t, s[1]);
      SubPath(p, s, 1, |s|);
      u := PathEndUnfolds(p, s[1..|s|], child);
      forall h: nat | Admissible(t, h) ensures |s| <= h && Admissible(u, h - |s| + 1) {
        assert Admissible(child, h - 1);
      }
    }
  }

  /** A node that can reach itself has no unfolding, of any size. */
  lemma {:induction false} CycleHasNoUnfolding(p: Program, s: seq<Id>, t: Tree)
    requires Path(p, s) && |s| > 1 && s[0] == s[|s| - 1]
    ensures !IsUnfolding(p, s[0], t)
  {
    if IsUnfolding(p, s[0], t) {
      var id := s[0];
      var u := PathEndUnfolds(p, s, t);
      UnfoldingIsUnique(p, id, t, u);
      assert false;
    }
  }

  // ---- The inliner ------------------------------------------------------------------------

  /** `ancestors` is the chain of nodes from the root down to the parent of `id`. */
  ghost predicate AncestorsOf(p: Program, ancestors: seq<Id>, id: Id) {
    Path(p, ancestors + [id])
  }

  /** The first fields of the tree under construction, each already an admissible unfolding. */
  ghost predicate FieldsBuilt(p: Program, node: Node, fields: seq<Branch>, h: nat) {
    && |fields| <= |node.children|
    && forall i :: 0 <= i < |fields| ==>
         && BranchUnfolds(p, node.children[i], fields[i])
         && SupportedField(fields[i].field)
         && AllAdmissible(fields[i].trees, h)
  }

  datatype ListOutcome = InlinedAll(trees: seq<Tree>) | RefusedOne(error: Error)

  class Inliner {
    const program: Program
    var expandedNodes: nat

    constructor (program: Program)
      ensures this.program == program && expandedNodes == 0
    {
      this.program := program;
      expandedNodes := 0;
    }

    /** Inlines `id`. It returns a tree exactly when the graph has an unfolding at `id` that fits
        the remaining limits, the tree is that unfolding, and the counter grew by its size. */
    method Inline(id: Id, ancestors: seq<Id>) returns (r: Outcome)
      requires AncestorsOf(program, ancestors, id)
      requires expandedNodes <= NODE_BUDGET && |ancestors| <= MAX_PATH_NODES
      modifies this
      ensures r.Inlined? ==>
                && IsUnfolding(program, id, r.tree)
                && Fits(r.tree, |ancestors|, old(expandedNodes))
                && expandedNodes == old(expandedNodes) + Size(r.tree)
      ensures forall t :: IsUnfolding(program, id, t) && Fits(t, |ancestors|, old(expandedNodes)) ==> r == Inlined(t)
      decreases MAX_PATH_NODES - |ancestors|, 1
    {
      expandedNodes := expandedNodes + 1;
      if expandedNodes > NODE_BUDGET {
        return Refused(NodeBudget);
      }
      if id in ancestors || |ancestors| > MAX_PATH_NODES - 1 {
        RepeatedAncestorIsCyclic(program, ancestors, id);
        return Refused(CyclicOrTooDeep);
      }
      if id !in program {
        return Refused(MissingNode);
      }
      var node := program[id];
      var fields: seq<Branch> := [];
      while |fields| < |node.children|
        invariant FieldsBuilt(program, node, fields, MAX_PATH_NODES - |ancestors| - 1)
        invariant expandedNodes == old(expandedNodes) + 1 + SizeOfFields(fields) <= NODE_BUDGET
        decreases |node.children| - |fields|
      {
        var child := node.children[|fields|];
        if !SupportedField(child.field) {
          UnsupportedFieldIsForced(program, id, |fields|);
          return Refused(UnsupportedChild);
        }
        ghost var used := expandedNodes;
        ExtendAncestors(program, ancestors, id, |fields|);
        var sub := InlineReferences(child.ids, ancestors + [id]);
        if sub.RefusedOne? {
          forall t | IsUnfolding(program, id, t)
            ensures !Fits(t, |ancestors|, old(expandedNodes))
          {
            RestFits(program, id, t, fields, |ancestors|, old(expandedNodes));
          }
          return Refused(sub.error);
        }
        var branch := Branch(child.field, child.many, sub.trees);
        assert (fields + [branch])[..|fields|] == fields;
        fields := fields + [branch];
      }
      r := Inlined(Tree(node.op, node.config, fields));
      forall t | IsUnfolding(program, id, t) ensures r == Inlined(t) {
        UnfoldingIsUnique(program, id, t, r.tree);
      }
    }

    /** Inlines every reference of one child field, in order, stopping at the first refusal. */
    method InlineReferences(ids: seq<Id>, ancestors: seq<Id>) returns (r: ListOutcome)
      requires forall j :: 0 <= j < |ids| ==> AncestorsOf(program, ancestors, ids[j])
      requires expandedNodes <= NODE_BUDGET && |ancestors| <= MAX_PATH_NODES
      modifies this
      ensures r.InlinedAll? ==>
                && UnfoldAll(program, ids, r.trees)
                && AllFit(r.trees, |ancestors|, old(expandedNodes))
                && expandedNodes == old(expandedNodes) + SizeOfTrees(r.trees)
      ensures r.RefusedOne? ==>
                forall ts :: UnfoldAll(program, ids, ts) ==> !AllFit(ts, |ancestors|, old(expandedNodes))
      decreases MAX_PATH_NODES - |ancestors|, 2
    {
      var trees: seq<Tree> := [];
      while |trees| < |ids|
        invariant |trees| <= |ids| && UnfoldAll(program, ids[..|trees|], trees)
        invariant AllAdmissible(trees, MAX_PATH_NODES - |ancestors|)
        invariant expandedNodes == old(expandedNodes) + SizeOfTrees(trees) <= NODE_BUDGET
        decreases |ids| - |trees|
      {
        var one := Inline(ids[|trees|], ancestors);
        if one.Refused? {
          forall ts | UnfoldAll(program, ids, ts)
            ensures !AllFit(ts, |ancestors|, old(expandedNodes))
          {
            UnfoldAllIsUnique(program, ids[..|trees|], trees, ts[..|trees|]);
            TreesPrefixSize(ts, |trees|);
            assert IsUnfolding(program, ids[|trees|], ts[|trees|]);
          }
          return RefusedOne(one.error);
        }
        assert (trees + [one.tree])[..|trees|] == trees;
        trees := trees + [one.tree];
      }
      assert ids[..|trees|] == ids;
      return InlinedAll(trees);
    }
  }

  /** If an unfolding of `id` fits, the field reached next fits what the built fields left over. */
  lemma {:induction false} RestFits(p: Program, id: Id, t: Tree, fields: seq<Branch>, depth: nat, used: nat)
    requires IsUnfolding(p, id, t) && depth < MAX_PATH_NODES
    requires FieldsBuilt(p, p[id], fields, MAX_PATH_NODES - depth - 1) && |fields| < |p[id].children|
    ensures UnfoldAll(p, p[id].children[|fields|].ids, t.fields[|fields|].trees)
    ensures Fits(t, depth, used) ==> AllFit(t.fields[|fields|].trees, depth + 1, used + 1 + SizeOfFields(fields))
  {
    var k := |fields|;
    assert BranchUnfolds(p, p[id].children[k], t.fields[k]);
    forall i | 0 <= i < k ensures t.fields[i] == fields[i] {
      assert BranchUnfolds(p, p[id].children[i], t.fields[i]) && BranchUnfolds(p, p[id].children[i], fields[i]);
      UnfoldAllIsUnique(p, p[id].children[i].ids, t.fields[i].trees, fields[i].trees);
    }
    assert t.fields[..k] == fields;
    FieldsPrefixSize(t.fields, k);
  }

  lemma {:induction false} RepeatedAncestorIsCyclic(p: Program, ancestors: seq<Id>, id: Id)
    requires AncestorsOf(p, ancestors, id)
    ensures id in ancestors ==> forall t :: !IsUnfolding(p, id, t)
  {
    if id in ancestors {
      var k :| 0 <= k < |ancestors| && ancestors[k] == id;
      var all := ancestors + [id];
      SubPath(p, all, k, |all|);
      forall t ensures !IsUnfolding(p, id, t) {
        CycleHasNoUnfolding(p, all[k..|all|], t);
      }
    }
  }

  lemma {:induction false} UnsupportedFieldIsForced(p: Program, id: Id, k: nat)
    requires id in p && k < |p[id].children| && !SupportedField(p[id].children[k].field)
    ensures forall t, h: nat :: IsUnfolding(p, id, t) ==> !Admissible(t, h)
  {
    forall t, h: nat | IsUnfolding(p, id, t) ensures !Admissible(t, h) {
      assert BranchUnfolds(p, p[id].children[k], t.fields[k]);
    }
  }

  lemma {:induction false} ExtendAncestors(p: Program, ancestors: seq<Id>, id: Id, k: nat)
    requires AncestorsOf(p, ancestors, id) && id in p && k < |p[id].children|
    ensures forall j :: 0 <= j < |p[id].children[k].ids| ==> AncestorsOf(p, ancestors + [id], p[id].children[k].ids[j])
  {
    forall j | 0 <= j < |p[id].children[k].ids|
      ensures AncestorsOf(p, ancestors + [id], p[id].children[k].ids[j])
    {
      var b := p[id].children[k].ids[j];
      assert Edge(p, id, b);
      PathsJoin(p, ancestors + [id], [b]);
    }
  }

  // ---- The same condition said on the graph ----------------------------------------------

  /** Every path that starts at `id` has at most `n` nodes, and ends at a node that exists and has
      only supported child fields. */
  ghost predicate BoundedComplete(p: Program, id: Id, n: nat) {
    forall s :: Path(p, s) && s[0] == id ==> |s| <= n && s[|s| - 1] in p && SupportedNode(p[s[|s| - 1]])
  }

  /** `id` unfolds within `n` levels exactly when the graph below it is complete, supported and
      has no path of more than `n` nodes. */
  lemma {:induction false} UnfoldsIffBoundedComplete(p: Program, id: Id, n: nat)
    ensures (exists t :: IsUnfolding(p, id, t) && Admissible(t, n)) <==> BoundedComplete(p, id, n)
  {
    if t :| IsUnfolding(p, id, t) && Admissible(t, n) {
      forall s | Path(p, s) && s[0] == id
        ensures |s| <= n && s[|s| - 1] in p && SupportedNode(p[s[|s| - 1]])
      {
        var u := PathEndUnfolds(p, s, t);
        AdmissibleIsSupported(p, s[|s| - 1], u, n - |s| + 1);
      }
    }
    if BoundedComplete(p, id, n) {
      var t := BuildUnfolding(p, id, n);
      assert IsUnfolding(p, id, t) && Admissible(t, n);
    }
  }

  lemma {:induction false} AdmissibleIsSupported(p: Program, id: Id, t: Tree, h: nat)
    requires IsUnfolding(p, id, t) && Admissible(t, h)
    ensures SupportedNode(p[id])
  {
    forall k | 0 <= k < |p[id].children| ensures SupportedField(p[id].children[k].field) {
      assert BranchUnfolds(p, p[id].children[k], t.fields[k]);
    }
  }

  lemma {:induction false} ChildIsBoundedComplete(p: Program, id: Id, n: nat, b: Id)
    requires BoundedComplete(p, id, n) && Edge(p, id, b)
    ensures n >= 2 && BoundedComplete(p, b, n - 1)
  {
    forall s | Path(p, s) && s[0] == b
      ensures |s| <= n - 1 && s[|s| - 1] in p && SupportedNode(p[s[|s| - 1]])
    {
      PathsJoin(p, [id], s);
      var longer := [id] + s;
      assert longer[0] == id && longer[|longer| - 1] == s[|s| - 1];
    }
    assert Path(p, [id, b]) && [id, b][0] == id;
  }

  lemma {:induction false} BoundedNode(p: Program, id: Id, n: nat)
    requires BoundedComplete(p, id, n)
    ensures n >= 1 && id in p && SupportedNode(p[id])
    ensures forall b :: Edge(p, id, b) ==> n >= 2 && BoundedComplete(p, b, n - 1)
  {
    assert Path(p, [id]) && [id][0] == id;
    forall b | Edge(p, id, b) ensures n >= 2 && BoundedComplete(p, b, n - 1) {
      ChildIsBoundedComplete(p, id, n, b);
    }
  }

  lemma {:induction false} BuildUnfolding(p: Program, id: Id, n: nat) returns (t: Tree)
    requires BoundedComplete(p, id, n)
    ensures IsUnfolding(p, id, t) && Admissible(t, n)
    decreases n, 0, 0
  {
    BoundedNode(p, id, n);
    var fields := BuildFields(p, id, n, |p[id].children|);
    t := Tree(p[id].op, p[id].config, fields);
  }

  lemma {:induction false} BuildFields(p: Program, id: Id, n: nat, k: nat) returns (fields: seq<Branch>)
    requires n >= 1 && id in p && SupportedNode(p[id]) && k <= |p[id].children|
    requires forall b :: Edge(p, id, b) ==> n >= 2 && BoundedComplete(p, b, n - 1)
    ensures |fields| == k && FieldsBuilt(p, p[id], fields, n - 1)
    decreases n - 1, 2, k
  {
    if k == 0 {
      fields := [];
    } else {
      var before := BuildFields(p, id, n, k - 1);
      var c := p[id].children[k - 1];
      forall j | 0 <= j < |c.ids| ensures BoundedComplete(p, c.ids[j], n - 1) {
        assert Edge(p, id, c.ids[j]);
      }
      var trees := BuildAll(p, c.ids, n - 1);
      fields := before + [Branch(c.field, c.many, trees)];
      assert UnfoldAll(p, c.ids, trees);
    }
  }

  lemma {:induction false} BuildAll(p: Program, ids: seq<Id>, n: nat) returns (ts: seq<Tree>)
    requires forall j :: 0 <= j < |ids| ==> BoundedComplete(p, ids[j], n)
    ensures UnfoldAll(p, ids, ts) && AllAdmissible(ts, n)
    decreases n, 1, |ids|
  {
    if ids == [] {
      ts := [];
    } else {
      var one := BuildUnfolding(p, ids[0], n);
      var rest := BuildAll(p, ids[1..], n);
      ts := [one] + rest;
    }
  }

  /** A root inlines after `used` nodes exactly when the graph below it is complete and supported, has no
      path of more than 33 nodes, and its unfolding fits what is left of the node budget. */
  lemma {:induction false} RootInlinesIff(p: Program, id: Id, used: nat)
    ensures (exists t :: IsUnfolding(p, id, t) && Fits(t, 0, used)) <==>
            BoundedComplete(p, id, MAX_PATH_NODES) && exists t :: IsUnfolding(p, id, t) && used + Size(t) <= NODE_BUDGET
  {
    UnfoldsIffBoundedComplete(p, id, MAX_PATH_NODES);
    if BoundedComplete(p, id, MAX_PATH_NODES) {
      var t :| IsUnfolding(p, id, t) && Admissible(t, MAX_PATH_NODES);
      forall u | IsUnfolding(p, id, u) ensures u == t {
        UnfoldingIsUnique(p, id, u, t);
      }
    }
  }

  /** A node that unfolds reaches no cycle: no path from it meets a node twice. */
  lemma {:induction false} UnfoldingMeansAcyclic(p: Program, t: Tree, s: seq<Id>, i: nat, j: nat)
    requires Path(p, s) && IsUnfolding(p, s[0], t) && i < j < |s|
    ensures s[i] != s[j]
  {
    SubPath(p, s, 0, i + 1);
    SubPath(p, s, i, j + 1);
    var u := PathEndUnfolds(p, s[0..i + 1], t);
    if s[i] == s[j] {
      CycleHasNoUnfolding(p, s[i..j + 1], u);
    }
  }

  // ---- Inlining preserves meaning ---------------------------------------------------------

  /** An arbitrary compositional meaning: what an operation makes of the meanings below it. */
  type Algebra<!M> = (string, Config, seq<(string, bool, seq<M>)>) -> M

  ghost function Meaning<M>(alg: Algebra<M>, t: Tree): M
    decreases t
  {
    alg(t.op, t.config,
        seq(|t.fields|, k requires 0 <= k < |t.fields| =>
          (t.fields[k].field, t.fields[k].many,
           seq(|t.fields[k].trees|, j requires 0 <= j < |t.fields[k].trees| => Meaning(alg, t.fields[k].trees[j])))))
  }

  /** `m` gives every node of the closed set `region` the meaning its operation makes of its
      children's meanings. */
  ghost predicate GivesMeaning<M(!new)>(p: Program, alg: Algebra<M>, m: Id -> M, region: set<Id>) {
    forall id :: id in region ==>
      && id in p
      && (forall b :: Edge(p, id, b) ==> b in region)
      && m(id) == alg(p[id].op, p[id].config,
                      seq(|p[id].children|, k requires 0 <= k < |p[id].children| =>
                        (p[id].children[k].field, p[id].children[k].many,
                         seq(|p[id].children[k].ids|, j requires 0 <= j < |p[id].children[k].ids| =>
                           m(p[id].children[k].ids[j])))))
  }

  lemma {:induction false} InliningPreservesMeaning<M(!new)>(p: Program, alg: Algebra<M>, m: Id -> M, region: set<Id>,
      id: Id, t: Tree)
    requires IsUnfolding(p, id, t) && id in region && GivesMeaning(p, alg, m, region)
    ensures Meaning(alg, t) == m(id)
    decreases t
  {
    var ofGraph := seq(|p[id].children|, k requires 0 <= k < |p[id].children| =>
      (p[id].children[k].field, p[id].children[k].many,
       seq(|p[id].children[k].ids|, j requires 0 <= j < |p[id].children[k].ids| => m(p[id].children[k].ids[j]))));
    var ofTree := seq(|t.fields|, k requires 0 <= k < |t.fields| =>
      (t.fields[k].field, t.fields[k].many,
       seq(|t.fields[k].trees|, j requires 0 <= j < |t.fields[k].trees| => Meaning(alg, t.fields[k].trees[j]))));
    forall k | 0 <= k < |t.fields| ensures ofTree[k] == ofGraph[k] {
      var c, b := p[id].children[k], t.fields[k];
      assert BranchUnfolds(p, c, b) && UnfoldAll(p, c.ids, b.trees);
      forall j | 0 <= j < |b.trees| ensures Meaning(alg, b.trees[j]) == m(c.ids[j]) {
        assert Edge(p, id, c.ids[j]);
        InliningPreservesMeaning(p, alg, m, region, c.ids[j], b.trees[j]);
      }
      assert ofTree[k].2 == ofGraph[k].2;
    }
    assert ofTree == ofGraph;
  }
}
