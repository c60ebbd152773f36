/** Parent and child agents, and the containment of an agent with everything below it.
    Source: src/agent_containment/agent_tree.py. */
module AgentTree {
  import opened Wrappers
  import opened RuntimeModel
  import opened Ordering

  datatype Node = Node(parent: Option<string>, state: RuntimeState, epoch: nat, capabilities: set<string>,
                       children: set<string>) {
    /** What the containment controller of a node does to it. */
    function Fenced(): Node {
      this.(state := Contained, epoch := epoch + 1, capabilities := {})
    }
  }

  type Nodes = map<string, Node>

  /** The nodes, and for each how many were there before it. */
  datatype Forest = Forest(nodes: Nodes, rank: map<string, nat>)

  predicate IsChild(t: Forest, p: string, a: string) {
    p in t.nodes && a in t.nodes[p].children && p in t.rank && a in t.rank && t.rank[p] < t.rank[a]
  }

  /** The links of one node: its parent came before it, and each side of a link has the other. */
  ghost predicate NodeLinked(t: Forest, a: string)
    requires a in t.nodes
  {
    && (t.nodes[a].parent.Some? ==> IsChild(t, t.nodes[a].parent.value, a))
    && (forall c :: c in t.nodes[a].children && c in t.nodes ==> t.nodes[c].parent == Some(a))
  }

  /** Finite, acyclic, and parent and child links agree. */
  ghost predicate Linked(t: Forest) {
    && t.rank.Keys == t.nodes.Keys
    && (forall a :: a in t.nodes ==> t.rank[a] < |t.nodes|)
    && (forall a, c :: a in t.nodes && c in t.nodes[a].children ==> c in t.nodes)
    && forall a {:trigger NodeLinked(t, a)} :: a in t.nodes ==> NodeLinked(t, a)
  }

  /** A child never holds more than its parent, and is contained whenever its parent is. */
  ghost predicate NodeKept(t: Forest, a: string)
    requires a in t.nodes
  {
    && t.nodes[a].state in {Active, Contained}
    && (t.nodes[a].state == Contained ==> t.nodes[a].capabilities == {})
    && (t.nodes[a].parent.Some? && t.nodes[a].parent.value in t.nodes ==>
          var p := t.nodes[t.nodes[a].parent.value];
          t.nodes[a].capabilities <= p.capabilities && (p.state == Contained ==> t.nodes[a].state == Contained))
  }

  ghost predicate Kept(t: Forest) {
    forall a {:trigger NodeKept(t, a)} :: a in t.nodes ==> NodeKept(t, a)
  }

  // ----- being below an agent -----

  /** `b` is `a`, or a descendant of it. */
  ghost predicate Under(t: Forest, a: string, b: string)
    requires Linked(t) && b in t.nodes
    decreases t.rank[b]
  {
    assert NodeLinked(t, b);
    b == a || (t.nodes[b].parent.Some? && Under(t, a, t.nodes[b].parent.value))
  }

  lemma {:induction false} UnderRank(t: Forest, a: string, b: string)
    requires Linked(t) && b in t.nodes && Under(t, a, b)
    ensures a in t.nodes && t.rank[a] <= t.rank[b]
    ensures a != b ==> t.rank[a] < t.rank[b]
    decreases t.rank[b]
  {
    if a != b {
      var p := t.nodes[b].parent.value;
      assert NodeLinked(t, b);
      UnderRank(t, a, p);
    }
  }

  lemma {:induction false} UnderTransitive(t: Forest, a: string, b: string, c: string)
    requires Linked(t) && c in t.nodes && b in t.nodes && Under(t, a, b) && Under(t, b, c)
    ensures Under(t, a, c)
    decreases t.rank[c]
  {
    if b != c {
      assert NodeLinked(t, c);
      UnderTransitive(t, a, b, t.nodes[c].parent.value);
    }
  }

  /** The agents above a given one form a line. */
  lemma {:induction false} UnderLine(t: Forest, a: string, b: string, c: string)
    requires Linked(t) && a in t.nodes && b in t.nodes && c in t.nodes && Under(t, a, c) && Under(t, b, c)
    ensures Under(t, a, b) || Under(t, b, a)
    decreases t.rank[c]
  {
    if c != a && c != b {
      assert NodeLinked(t, c);
      UnderLine(t, a, b, t.nodes[c].parent.value);
    }
  }

  /** Whatever is strictly below an agent is below one of its children. */
  lemma {:induction false} UnderChild(t: Forest, a: string, b: string) returns (c: string)
    requires Linked(t) && a in t.nodes && b in t.nodes && Under(t, a, b) && a != b
    ensures c in t.nodes[a].children && Under(t, c, b)
    decreases t.rank[b]
  {
    var p := t.nodes[b].parent.value;
    assert NodeLinked(t, b);
    if p == a {
      c := b;
    } else {
      c := UnderChild(t, a, p);
    }
  }

  ghost predicate Unrelated(t: Forest, a: string, b: string)
    requires Linked(t) && a in t.nodes && b in t.nodes
  {
    !Under(t, a, b) && !Under(t, b, a)
  }

  lemma {:induction false} ChildNotAbove(t: Forest, c: string, a: string)
    requires Linked(t) && a in t.nodes && c in t.nodes[a].children
    ensures !Under(t, c, a) && Under(t, a, c)
  {
    assert NodeLinked(t, a) && NodeLinked(t, c);
    assert Under(t, a, a);
    if Under(t, c, a) {
      UnderRank(t, c, a);
    }
  }

  lemma {:induction false} SiblingsUnrelated(t: Forest, a: string, c: string, d: string)
    requires Linked(t) && a in t.nodes && c in t.nodes[a].children && d in t.nodes[a].children && c != d
    ensures Unrelated(t, c, d)
  {
    assert NodeLinked(t, a);
    ChildNotAbove(t, c, a);
    ChildNotAbove(t, d, a);
  }

  // ----- sorted preorder -----

  function Height(t: Forest, cs: seq<string>): nat
    requires forall i :: 0 <= i < |cs| ==> cs[i] in t.rank && t.rank[cs[i]] < |t.nodes|
  {
    if cs == [] then 0
    else
      var here, rest := |t.nodes| - t.rank[cs[0]], Height(t, cs[1..]);
      if here >= rest then here else rest
  }

  lemma {:induction false} HeightBelow(t: Forest, cs: seq<string>, bound: nat)
    requires forall i :: 0 <= i < |cs| ==>
              cs[i] in t.rank && t.rank[cs[i]] < |t.nodes| && |t.nodes| - t.rank[cs[i]] < bound
    requires bound > 0
    ensures Height(t, cs) < bound
  {
    if cs != [] {
      HeightBelow(t, cs[1..], bound);
    }
  }

  ghost predicate Known(t: Forest, cs: seq<string>) {
    forall i :: 0 <= i < |cs| ==> cs[i] in t.nodes
  }

  ghost function SortedChildren(t: Forest, a: string): (r: seq<string>)
    requires Linked(t) && a in t.nodes
    ensures Known(t, r) && (forall x :: x in r <==> x in t.nodes[a].children)
    ensures forall i, j :: 0 <= i < j < |r| ==> Before(r[i], r[j])
    ensures Height(t, r) < |t.nodes| - t.rank[a]
  {
    StringsAreOrdered();
    var r := Sorted(t.nodes[a].children, Before);
    ChildrenKnown(t, a, r);
    r
  }

  lemma {:induction false} ChildrenKnown(t: Forest, a: string, r: seq<string>)
    requires Linked(t) && a in t.nodes && forall x :: x in r ==> x in t.nodes[a].children
    ensures Known(t, r) && Height(t, r) < |t.nodes| - t.rank[a]
  {
    forall i | 0 <= i < |r| ensures r[i] in t.nodes && |t.nodes| - t.rank[r[i]] < |t.nodes| - t.rank[a] {
      assert r[i] in r;
      assert NodeLinked(t, a) && NodeLinked(t, r[i]);
    }
    HeightBelow(t, r, |t.nodes| - t.rank[a]);
  }

  /** Each agent of the list with everything below it, parents first and siblings in order. */
  ghost function Preorder(t: Forest, cs: seq<string>): seq<string>
    requires Linked(t) && Known(t, cs)
    decreases Height(t, cs), |cs|
  {
    if cs == [] then []
    else [cs[0]] + Preorder(t, SortedChildren(t, cs[0])) + Preorder(t, cs[1..])
  }

  lemma {:induction false} PreorderAppend(t: Forest, cs: seq<string>, ds: seq<string>)
    requires Linked(t) && Known(t, cs) && Known(t, ds)
    ensures Preorder(t, cs + ds) == Preorder(t, cs) + Preorder(t, ds)
    decreases |cs|
  {
    if cs == [] {
      assert cs + ds == ds;
    } else {
      assert (cs + ds)[1..] == cs[1..] + ds;
      PreorderAppend(t, cs[1..], ds);
    }
  }

  ghost predicate UnderOne(t: Forest, cs: seq<string>, b: string)
    requires Linked(t) && b in t.nodes
  {
    exists i :: 0 <= i < |cs| && Under(t, cs[i], b)
  }

  ghost predicate NoRepeats(r: seq<string>) {
    forall i, j :: 0 <= i < j < |r| ==> r[i] != r[j]
  }

  /** The list has the children of `a`, each once, in some order. */
  ghost predicate Lists(t: Forest, a: string, kids: seq<string>)
    requires a in t.nodes
  {
    NoRepeats(kids) && forall x :: x in kids <==> x in t.nodes[a].children
  }

  lemma {:induction false} BelowKids(t: Forest, a: string, kids: seq<string>, b: string)
    requires Linked(t) && a in t.nodes && b in t.nodes && Lists(t, a, kids)
    ensures Known(t, kids) && (UnderOne(t, kids, b) <==> Under(t, a, b) && b != a)
  {
    if Under(t, a, b) && b != a {
      var c := UnderChild(t, a, b);
      assert c in kids;
    }
    if UnderOne(t, kids, b) {
      var k :| 0 <= k < |kids| && Under(t, kids[k], b);
      assert kids[k] in kids;
      ChildNotAbove(t, kids[k], a);
      UnderTransitive(t, a, kids[k], b);
    }
  }

  /** What is below a list is below its first agent or below the others; what is below an agent is
      the agent or below a child. */
  lemma {:induction false} UnderOneUnfolds(t: Forest, cs: seq<string>, b: string)
    requires Linked(t) && Known(t, cs) && b in t.nodes && cs != []
    ensures UnderOne(t, cs, b) <==> b == cs[0] || UnderOne(t, SortedChildren(t, cs[0]), b) || UnderOne(t, cs[1..], b)
  {
    var kids := SortedChildren(t, cs[0]);
    SortedLists(t, cs[0]);
    BelowKids(t, cs[0], kids, b);
    if UnderOne(t, cs, b) {
      var i :| 0 <= i < |cs| && Under(t, cs[i], b);
      if i > 0 {
        assert Under(t, cs[1..][i - 1], b);
      }
    }
    if UnderOne(t, cs[1..], b) {
      var k :| 0 <= k < |cs[1..]| && Under(t, cs[1..][k], b);
      assert Under(t, cs[k + 1], b);
    }
    if b == cs[0] || UnderOne(t, kids, b) {
      assert Under(t, cs[0], b);
    }
  }

  lemma SortedLists(t: Forest, a: string)
    requires Linked(t) && a in t.nodes
    ensures Lists(t, a, SortedChildren(t, a))
  {
    var kids := SortedChildren(t, a);
    forall i, j | 0 <= i < j < |kids| ensures kids[i] != kids[j] {
      BeforeTotal(kids[i], kids[j]);
    }
  }

  lemma {:induction false} PreorderMembers(t: Forest, cs: seq<string>, b: string)
    requires Linked(t) && Known(t, cs)
    ensures b in Preorder(t, cs) <==> b in t.nodes && UnderOne(t, cs, b)
    decreases Height(t, cs), |cs|
  {
    if cs != [] {
      var kids := SortedChildren(t, cs[0]);
      PreorderMembers(t, kids, b);
      PreorderMembers(t, cs[1..], b);
      if b in t.nodes {
        UnderOneUnfolds(t, cs, b);
      }
    }
  }

  ghost predicate AllUnrelated(t: Forest, cs: seq<string>)
    requires Linked(t) && Known(t, cs)
  {
    forall i, j :: 0 <= i < j < |cs| ==> Unrelated(t, cs[i], cs[j])
  }

  lemma NoRepeatsJoin(a: string, r: seq<string>, q: seq<string>)
    requires NoRepeats(r) && NoRepeats(q) && a !in r && a !in q && forall x :: x in r ==> x !in q
    ensures NoRepeats([a] + r + q)
  {
    var all := [a] + r + q;
    assert all[0] == a;
    assert forall i :: 1 <= i < 1 + |r| ==> all[i] == r[i - 1] && all[i] in r;
    assert forall i :: 1 + |r| <= i < |all| ==> all[i] == q[i - 1 - |r|] && all[i] in q;
  }

  lemma {:induction false} KidsUnrelated(t: Forest, a: string)
    requires Linked(t) && a in t.nodes
    ensures AllUnrelated(t, SortedChildren(t, a))
  {
    var kids := SortedChildren(t, a);
    forall i, j | 0 <= i < j < |kids| ensures Unrelated(t, kids[i], kids[j]) {
      assert kids[i] in kids && kids[j] in kids;
      BeforeTotal(kids[i], kids[j]);
      SiblingsUnrelated(t, a, kids[i], kids[j]);
    }
  }

  /** Unrelated agents have nothing below them in common. */
  lemma {:induction false} PartsDisjoint(t: Forest, cs: seq<string>, x: string)
    requires Linked(t) && Known(t, cs) && AllUnrelated(t, cs) && cs != []
    requires x in t.nodes && (x == cs[0] || UnderOne(t, SortedChildren(t, cs[0]), x))
    ensures !UnderOne(t, cs[1..], x)
  {
    UnderOneUnfolds(t, cs[..1], x);
    assert cs[..1][1..] == [];
    assert Under(t, cs[0], x);
    if UnderOne(t, cs[1..], x) {
      var k :| 0 <= k < |cs[1..]| && Under(t, cs[1..][k], x);
      assert Unrelated(t, cs[0], cs[k + 1]);
      UnderLine(t, cs[0], cs[k + 1], x);
    }
  }

  lemma {:induction false} PreorderNoRepeats(t: Forest, cs: seq<string>)
    requires Linked(t) && Known(t, cs) && AllUnrelated(t, cs)
    ensures NoRepeats(Preorder(t, cs))
    decreases Height(t, cs), |cs|
  {
    if cs != [] {
      var kids := SortedChildren(t, cs[0]);
      KidsUnrelated(t, cs[0]);
      PreorderNoRepeats(t, kids);
      PreorderNoRepeats(t, cs[1..]);
      PreorderMembers(t, kids, cs[0]);
      PreorderMembers(t, cs[1..], cs[0]);
      PartsDisjoint(t, cs, cs[0]);
      NotUnderOwnKids(t, cs[0]);
      forall x | x in Preorder(t, kids) ensures x !in Preorder(t, cs[1..]) {
        PreorderMembers(t, kids, x);
        PreorderMembers(t, cs[1..], x);
        PartsDisjoint(t, cs, x);
      }
      NoRepeatsJoin(cs[0], Preorder(t, kids), Preorder(t, cs[1..]));
    }
  }

  lemma {:induction false} NotUnderOwnKids(t: Forest, a: string)
    requires Linked(t) && a in t.nodes
    ensures !UnderOne(t, SortedChildren(t, a), a)
  {
    var kids := SortedChildren(t, a);
    forall k | 0 <= k < |kids| ensures !Under(t, kids[k], a) {
      assert kids[k] in kids;
      ChildNotAbove(t, kids[k], a);
    }
  }

  // ----- what containment does to the whole tree -----

  ghost function Subtree(t: Forest, a: string): set<string>
    requires Linked(t)
  {
    set b | b in t.nodes && Under(t, a, b)
  }

  /** The listed agents fenced, everything else as it was. */
  ghost function Marked(nodes: Nodes, ids: set<string>): Nodes {
    map k | k in nodes :: if k in ids then nodes[k].Fenced() else nodes[k]
  }

  /** Fencing an agent with everything below it keeps the invariants. */
  lemma {:induction false} MarkedKeeps(t: Forest, a: string)
    requires Linked(t) && Kept(t) && a in t.nodes
    ensures var u := t.(nodes := Marked(t.nodes, Subtree(t, a))); Linked(u) && Kept(u)
  {
    var u := t.(nodes := Marked(t.nodes, Subtree(t, a)));
    assert u.nodes.Keys == t.nodes.Keys;
    assert |u.nodes| == |u.nodes.Keys| == |t.nodes|;
    forall b | b in u.nodes ensures NodeLinked(u, b) && NodeKept(u, b) {
      MarkedNode(t, a, u, b);
    }
  }

  lemma {:induction false} MarkedNode(t: Forest, a: string, u: Forest, b: string)
    requires Linked(t) && Kept(t) && b in t.nodes
    requires u == t.(nodes := Marked(t.nodes, Subtree(t, a))) && |u.nodes| == |t.nodes|
    ensures NodeLinked(u, b) && NodeKept(u, b)
  {
    assert NodeLinked(t, b) && NodeKept(t, b);
    if t.nodes[b].parent.Some? {
      var p := t.nodes[b].parent.value;
      assert NodeKept(t, p);
      assert p in Subtree(t, a) ==> b in Subtree(t, a);
    }
  }

  /** Along every run the tree keeps `Linked` and `Kept`; this is what they mean for descendants. */
  lemma {:induction false} DescendantsHold(t: Forest, a: string, b: string)
    requires Linked(t) && Kept(t) && a in t.nodes && b in t.nodes && Under(t, a, b)
    ensures t.nodes[b].capabilities <= t.nodes[a].capabilities
    ensures t.nodes[a].state == Contained ==> t.nodes[b].state == Contained && t.nodes[b].capabilities == {}
    decreases t.rank[b]
  {
    assert NodeLinked(t, b) && NodeKept(t, b) && NodeKept(t, a);
    if a != b {
      DescendantsHold(t, a, t.nodes[b].parent.value);
    }
  }

  function Elements(r: seq<string>): set<string> {
    set x | x in r
  }

  /** The preorder of one agent lists it and everything below it, each once. */
  lemma {:induction false} PreorderExact(t: Forest, a: string)
    requires Linked(t) && a in t.nodes
    ensures NoRepeats(Preorder(t, [a]))
    ensures Elements(Preorder(t, [a])) == Subtree(t, a)
  {
    PreorderNoRepeats(t, [a]);
    forall b: string ensures b in Preorder(t, [a]) <==> b in Subtree(t, a) {
      PreorderMembers(t, [a], b);
      if b in t.nodes && Under(t, a, b) {
        assert Under(t, [a][0], b);
      }
    }
  }

  /** `x` is below an earlier child than `y`. */
  ghost predicate EarlierBranch(t: Forest, x: string, y: string)
    requires Linked(t) && x in t.nodes && y in t.nodes
  {
    exists p, c, d :: p in t.nodes && c in t.nodes[p].children && d in t.nodes[p].children
      && Before(c, d) && Under(t, c, x) && Under(t, d, y)
  }

  /** `x` is below an earlier agent of the list than `y`. */
  ghost predicate EarlierIn(t: Forest, cs: seq<string>, x: string, y: string)
    requires Linked(t) && x in t.nodes && y in t.nodes
  {
    exists k, l :: 0 <= k < l < |cs| && Under(t, cs[k], x) && Under(t, cs[l], y)
  }

  ghost predicate Precedes(t: Forest, cs: seq<string>, x: string, y: string)
    requires Linked(t)
  {
    && x in t.nodes && y in t.nodes
    && (Under(t, x, y) || EarlierBranch(t, x, y) || EarlierIn(t, cs, x, y))
  }

  lemma {:induction false} RootPrecedes(t: Forest, cs: seq<string>, y: string)
    requires Linked(t) && Known(t, cs) && cs != [] && y in Preorder(t, SortedChildren(t, cs[0]))
    ensures Precedes(t, cs, cs[0], y)
  {
    PreorderMembers(t, SortedChildren(t, cs[0]), y);
    SortedLists(t, cs[0]);
    BelowKids(t, cs[0], SortedChildren(t, cs[0]), y);
  }

  lemma {:induction false} KidsPrecede(t: Forest, cs: seq<string>, x: string, y: string)
    requires Linked(t) && Known(t, cs) && cs != [] && Precedes(t, SortedChildren(t, cs[0]), x, y)
    ensures Precedes(t, cs, x, y)
  {
    var kids := SortedChildren(t, cs[0]);
    if EarlierIn(t, kids, x, y) {
      var k, l :| 0 <= k < l < |kids| && Under(t, kids[k], x) && Under(t, kids[l], y);
      assert kids[k] in kids && kids[l] in kids && Before(kids[k], kids[l]);
      assert EarlierBranch(t, x, y);
    }
  }

  lemma {:induction false} RestPrecedes(t: Forest, cs: seq<string>, x: string, y: string)
    requires Linked(t) && Known(t, cs) && cs != [] && Precedes(t, cs[1..], x, y)
    ensures Precedes(t, cs, x, y)
  {
    if EarlierIn(t, cs[1..], x, y) {
      var k, l :| 0 <= k < l < |cs[1..]| && Under(t, cs[1..][k], x) && Under(t, cs[1..][l], y);
      assert cs[1..][k] == cs[k + 1] && cs[1..][l] == cs[l + 1];
    }
  }

  lemma {:induction false} FirstPrecedes(t: Forest, cs: seq<string>, x: string, y: string)
    requires Linked(t) && Known(t, cs) && cs != [] && y in Preorder(t, cs[1..])
    requires x == cs[0] || x in Preorder(t, SortedChildren(t, cs[0]))
    ensures Precedes(t, cs, x, y)
  {
    PreorderMembers(t, cs[1..], y);
    var l :| 0 <= l < |cs[1..]| && Under(t, cs[1..][l], y);
    assert cs[1..][l] == cs[l + 1];
    if x != cs[0] {
      var kids := SortedChildren(t, cs[0]);
      PreorderMembers(t, kids, x);
      SortedLists(t, cs[0]);
      BelowKids(t, cs[0], kids, x);
    }
    assert Under(t, cs[0], x);
  }

  ghost predicate InOrder(t: Forest, cs: seq<string>, r: seq<string>)
    requires Linked(t)
  {
    forall i, j :: 0 <= i < j < |r| ==> Precedes(t, cs, r[i], r[j])
  }

  lemma {:induction false} JoinInOrder(t: Forest, cs: seq<string>, a: string, below: seq<string>, after: seq<string>)
    requires Linked(t) && InOrder(t, cs, below) && InOrder(t, cs, after)
    requires forall y :: y in below ==> Precedes(t, cs, a, y)
    requires forall x, y :: (x == a || x in below) && y in after ==> Precedes(t, cs, x, y)
    ensures InOrder(t, cs, [a] + below + after)
  {
    var all, n := [a] + below + after, 1 + |below|;
    forall i, j | 0 <= i < j < |all| ensures Precedes(t, cs, all[i], all[j]) {
      assert all[j] == if j < n then below[j - 1] else after[j - n];
      assert all[i] == if i == 0 then a else if i < n then below[i - 1] else after[i - n];
    }
  }

  /** Every agent comes before what is below it, and what is below one child before what is below a later
      one. */
  lemma {:induction false} PreorderInOrder(t: Forest, cs: seq<string>)
    requires Linked(t) && Known(t, cs)
    ensures InOrder(t, cs, Preorder(t, cs))
    decreases Height(t, cs), |cs|
  {
    if cs != [] {
      var below, after := Preorder(t, SortedChildren(t, cs[0])), Preorder(t, cs[1..]);
      PreorderInOrder(t, SortedChildren(t, cs[0]));
      PreorderInOrder(t, cs[1..]);
      KidsInOrder(t, cs, below);
      RestInOrder(t, cs, after);
      forall y | y in below ensures Precedes(t, cs, cs[0], y) {
        RootPrecedes(t, cs, y);
      }
      forall x, y | (x == cs[0] || x in below) && y in after ensures Precedes(t, cs, x, y) {
        FirstPrecedes(t, cs, x, y);
      }
      JoinInOrder(t, cs, cs[0], below, after);
    }
  }

  lemma {:induction false} KidsInOrder(t: Forest, cs: seq<string>, r: seq<string>)
    requires Linked(t) && Known(t, cs) && cs != [] && InOrder(t, SortedChildren(t, cs[0]), r)
    ensures InOrder(t, cs, r)
  {
    forall i, j | 0 <= i < j < |r| ensures Precedes(t, cs, r[i], r[j]) {
      KidsPrecede(t, cs, r[i], r[j]);
    }
  }

  lemma {:induction false} RestInOrder(t: Forest, cs: seq<string>, r: seq<string>)
    requires Linked(t) && Known(t, cs) && cs != [] && InOrder(t, cs[1..], r)
    ensures InOrder(t, cs, r)
  {
    forall i, j | 0 <= i < j < |r| ensures Precedes(t, cs, r[i], r[j]) {
      RestPrecedes(t, cs, r[i], r[j]);
    }
  }

  /** The order in which a stack is emptied. */
  function Popped(stack: seq<string>): (r: seq<string>)
    ensures |r| == |stack|
    ensures forall i :: 0 <= i < |r| ==> r[i] == stack[|stack| - 1 - i]
  {
    if stack == [] then [] else [stack[|stack| - 1]] + Popped(stack[..|stack| - 1])
  }

  lemma PoppedPushed(stack: seq<string>, kids: seq<string>)
    ensures Popped(stack + Popped(kids)) == kids + Popped(stack)
  {
    var a, b := Popped(stack + Popped(kids)), kids + Popped(stack);
    forall i | 0 <= i < |a| ensures a[i] == b[i] {
      if i < |kids| {
        assert (stack + Popped(kids))[|a| - 1 - i] == Popped(kids)[|kids| - 1 - i];
      }
    }
  }

  /** One turn of the loop in `contain`: the agent on top of the stack is visited, and its children
      take its place. */
  lemma {:induction false} VisitNext(t: Forest, current: string, rest: seq<string>)
    requires Linked(t) && Known(t, [current] + rest) && current in t.nodes && Known(t, rest)
    requires Known(t, SortedChildren(t, current) + rest)
    ensures Preorder(t, [current] + rest) == [current] + Preorder(t, SortedChildren(t, current) + rest)
  {
    var stack, kids := [current] + rest, SortedChildren(t, current);
    assert stack[0] == current && stack[1..] == rest;
    PreorderUnfolds(t, stack, current, rest);
    PreorderAppend(t, kids, rest);
  }

  lemma PreorderUnfolds(t: Forest, stack: seq<string>, current: string, rest: seq<string>)
    requires Linked(t) && Known(t, stack) && stack != [] && stack[0] == current && stack[1..] == rest
    ensures current in t.nodes && Known(t, rest)
    ensures Preorder(t, stack) == [current] + (Preorder(t, SortedChildren(t, current)) + Preorder(t, rest))
  {
    var below, after := Preorder(t, SortedChildren(t, current)), Preorder(t, rest);
    assert [current] + below + after == [current] + (below + after);
  }

  lemma KnownParts(t: Forest, current: string, rest: seq<string>)
    requires Known(t, [current] + rest)
    ensures current in t.nodes && Known(t, rest)
  {
    assert ([current] + rest)[0] == current;
    assert forall i :: 0 <= i < |rest| ==> rest[i] == ([current] + rest)[i + 1];
  }

  lemma NextIsNew(done: seq<string>, rest: seq<string>, all: seq<string>)
    requires done + rest == all && NoRepeats(all) && rest != []
    ensures rest[0] !in done
  {
    assert all[|done|] == rest[0];
    assert forall i :: 0 <= i < |done| ==> all[i] == done[i];
  }

  /** A new node at the top, or below one that is there, keeps the tree in order. */
  ghost predicate Grown(t: Forest, u: Forest, c: string, node: Node) {
    && c !in t.nodes && node.state == Active && node.children == {} && u.rank == t.rank[c := |t.nodes|]
    && match node.parent
       case None => u.nodes == t.nodes[c := node]
       case Some(p) =>
         && p in t.nodes && t.nodes[p].state == Active && node.capabilities <= t.nodes[p].capabilities
         && u.nodes == t.nodes[c := node][p := t.nodes[p].(children := t.nodes[p].children + {c})]
  }

  /** The same, key by key and node by node. */
  ghost predicate OneMoreKey(t: Forest, u: Forest, c: string) {
    && c !in t.nodes && u.nodes.Keys == t.nodes.Keys + {c} && |u.nodes| == |t.nodes| + 1
    && u.rank.Keys == t.rank.Keys + {c} && u.rank[c] == |t.nodes|
    && (forall a :: a in t.rank ==> u.rank[a] == t.rank[a])
  }

  ghost predicate OneMoreNode(t: Forest, u: Forest, c: string, node: Node) {
    && c in u.nodes && u.nodes[c] == node && node.children == {}
    && (node.parent.Some? ==> node.parent.value in t.nodes)
    && (forall a :: a in t.nodes && a in u.nodes ==>
          && u.nodes[a].parent == t.nodes[a].parent && u.nodes[a].state == t.nodes[a].state
          && u.nodes[a].capabilities == t.nodes[a].capabilities
          && u.nodes[a].children == t.nodes[a].children + if node.parent == Some(a) then {c} else {})
  }

  lemma GrownKey(t: Forest, u: Forest, c: string, node: Node)
    requires Grown(t, u, c, node) && t.rank.Keys == t.nodes.Keys
    ensures OneMoreKey(t, u, c)
  {
    assert u.nodes.Keys == t.nodes.Keys + {c};
    assert |u.nodes.Keys| == |t.nodes.Keys| + 1;
  }

  lemma GrownNode(t: Forest, u: Forest, c: string, node: Node)
    requires Grown(t, u, c, node)
    ensures OneMoreNode(t, u, c, node)
  {}

  lemma {:induction false} OneMoreParent(t: Forest, u: Forest, c: string, node: Node, a: string)
    requires Linked(t) && OneMoreKey(t, u, c) && OneMoreNode(t, u, c, node) && a in u.nodes && u.nodes[a].parent.Some?
    ensures IsChild(u, u.nodes[a].parent.value, a)
  {
    if a != c {
      assert NodeLinked(t, a);
    }
  }

  lemma {:induction false} OneMoreChild(t: Forest, u: Forest, c: string, node: Node, a: string, k: string)
    requires Linked(t) && OneMoreKey(t, u, c) && OneMoreNode(t, u, c, node) && a in u.nodes && k in u.nodes[a].children
    ensures k in u.nodes && u.nodes[k].parent == Some(a)
  {
    assert a in t.nodes;
    if k != c {
      assert NodeLinked(t, a);
    }
  }

  lemma {:induction false} OneMoreNodeLinked(t: Forest, u: Forest, c: string, node: Node, a: string)
    requires Linked(t) && OneMoreKey(t, u, c) && OneMoreNode(t, u, c, node) && a in u.nodes
    ensures NodeLinked(u, a)
  {
    if u.nodes[a].parent.Some? {
      OneMoreParent(t, u, c, node, a);
    }
    forall k | k in u.nodes[a].children && k in u.nodes ensures u.nodes[k].parent == Some(a) {
      OneMoreChild(t, u, c, node, a, k);
    }
  }

  lemma {:induction false} OneMoreLinked(t: Forest, u: Forest, c: string, node: Node)
    requires Linked(t) && OneMoreKey(t, u, c) && OneMoreNode(t, u, c, node)
    ensures Linked(u)
  {
    forall a | a in u.nodes ensures NodeLinked(u, a) {
      OneMoreNodeLinked(t, u, c, node, a);
    }
    forall a, k | a in u.nodes && k in u.nodes[a].children ensures k in u.nodes {
      OneMoreChild(t, u, c, node, a, k);
    }
    forall a | a in u.nodes ensures u.rank[a] < |u.nodes| {
      if a != c {
        assert a in t.nodes;
      }
    }
  }

  lemma {:induction false} OneMoreKept(t: Forest, u: Forest, c: string, node: Node)
    requires Linked(t) && Kept(t) && OneMoreKey(t, u, c) && OneMoreNode(t, u, c, node) && node.state == Active
    requires node.parent.Some? ==>
              t.nodes[node.parent.value].state == Active && node.capabilities <= t.nodes[node.parent.value].capabilities
    ensures Kept(u)
  {
    forall a | a in u.nodes ensures NodeKept(u, a) {
      if a != c {
        assert NodeLinked(t, a) && NodeKept(t, a);
      }
    }
  }

  lemma {:induction false} GrownKeeps(t: Forest, u: Forest, c: string, node: Node)
    requires Linked(t) && Kept(t) && Grown(t, u, c, node)
    ensures Linked(u) && Kept(u)
  {
    GrownKey(t, u, c, node);
    GrownNode(t, u, c, node);
    OneMoreLinked(t, u, c, node);
    OneMoreKept(t, u, c, node);
  }

  lemma MarkedOneMore(nodes: Nodes, ids: set<string>, x: string)
    requires x in nodes && x !in ids
    ensures var m := Marked(nodes, ids); m[x := m[x].Fenced()] == Marked(nodes, ids + {x})
  {}

  lemma ElementsOneMore(r: seq<string>, x: string)
    ensures Elements(r + [x]) == Elements(r) + {x}
  {}

  // ----- descendants -----

  method Listed(s: set<string>) returns (r: seq<string>)
    ensures NoRepeats(r) && forall x :: x in r <==> x in s
  {
    r := [];
    var rest := s;
    while rest != {}
      invariant rest <= s && NoRepeats(r) && forall x :: x in r <==> x in s - rest
      decreases rest
    {
      var x :| x in rest;
      assert forall i :: 0 <= i < |r| ==> r[i] in r;
      r := r + [x];
      rest := rest - {x};
    }
  }

  lemma {:induction false} ListedUnrelated(t: Forest, a: string, kids: seq<string>)
    requires Linked(t) && a in t.nodes && Lists(t, a, kids)
    ensures Known(t, kids) && AllUnrelated(t, kids)
  {
    forall i | 0 <= i < |kids| ensures kids[i] in t.nodes[a].children {
      assert kids[i] in kids;
    }
    forall i, j | 0 <= i < j < |kids| ensures Unrelated(t, kids[i], kids[j]) {
      SiblingsUnrelated(t, a, kids[i], kids[j]);
    }
  }

  /** `goal` is what has been listed together with what lies under the stack, without overlap. */
  ghost predicate Pending(t: Forest, goal: set<string>, result: seq<string>, stack: seq<string>) {
    && Linked(t) && Known(t, stack) && AllUnrelated(t, stack) && NoRepeats(result)
    && (forall x :: x in result ==> x in goal) && (forall x :: x in goal ==> x in t.nodes)
    && (forall b :: b in t.nodes ==> (UnderOne(t, stack, b) <==> b in goal && b !in result))
  }

  lemma {:induction false} PendingStart(t: Forest, a: string, kids: seq<string>)
    requires Linked(t) && a in t.nodes && Lists(t, a, kids)
    ensures Pending(t, Subtree(t, a) - {a}, [], kids)
  {
    ListedUnrelated(t, a, kids);
    forall b | b in t.nodes ensures UnderOne(t, kids, b) <==> b in Subtree(t, a) - {a} {
      BelowKids(t, a, kids, b);
    }
  }

  lemma {:induction false} KidUnrelated(t: Forest, f: string, child: string, kid: string)
    requires Linked(t) && f in t.nodes && child in t.nodes && kid in t.nodes[child].children && Unrelated(t, f, child)
    ensures Unrelated(t, f, kid)
  {
    ChildNotAbove(t, kid, child);
    if Under(t, kid, f) {
      UnderTransitive(t, child, kid, f);
    }
    if Under(t, f, kid) {
      UnderLine(t, f, child, kid);
    }
  }

  lemma {:induction false} SwapUnrelated(t: Forest, front: seq<string>, child: string, kids: seq<string>)
    requires Linked(t) && Known(t, front + [child]) && AllUnrelated(t, front + [child])
    requires child in t.nodes && Lists(t, child, kids)
    ensures Known(t, front + kids) && AllUnrelated(t, front + kids)
  {
    ListedUnrelated(t, child, kids);
    var all, was := front + kids, front + [child];
    assert forall i :: 0 <= i < |front| ==> was[i] == front[i];
    assert was[|front|] == child;
    assert Known(t, all);
    forall i, j | 0 <= i < j < |all| ensures Unrelated(t, all[i], all[j]) {
      if j < |front| {
        assert Unrelated(t, was[i], was[j]);
      } else if i < |front| {
        assert Unrelated(t, was[i], was[|front|]);
        assert kids[j - |front|] in kids;
        KidUnrelated(t, front[i], child, all[j]);
      } else {
        assert Unrelated(t, kids[i - |front|], kids[j - |front|]);
      }
    }
  }

  lemma {:induction false} SwapUnder(t: Forest, front: seq<string>, child: string, kids: seq<string>, b: string)
    requires Linked(t) && Known(t, front + [child]) && AllUnrelated(t, front + [child]) && b in t.nodes
    requires child in t.nodes && Lists(t, child, kids) && Known(t, front + kids)
    ensures UnderOne(t, front + kids, b) <==> UnderOne(t, front + [child], b) && b != child
  {
    var all, was := front + kids, front + [child];
    BelowKids(t, child, kids, b);
    assert was[|front|] == child;
    if UnderOne(t, all, b) {
      var i :| 0 <= i < |all| && Under(t, all[i], b);
      if i < |front| {
        assert was[i] == all[i] && Unrelated(t, was[i], was[|front|]);
      } else {
        assert Under(t, kids[i - |front|], b);
      }
    }
    if UnderOne(t, was, b) && b != child {
      var i :| 0 <= i < |was| && Under(t, was[i], b);
      if i < |front| {
        assert all[i] == was[i];
      } else {
        var k :| 0 <= k < |kids| && Under(t, kids[k], b);
        assert all[|front| + k] == kids[k];
      }
    }
  }

  lemma {:induction false} PendingStep(t: Forest, goal: set<string>, result: seq<string>, front: seq<string>,
                                       child: string, kids: seq<string>)
    requires Pending(t, goal, result, front + [child])
    requires child in t.nodes && Lists(t, child, kids)
    ensures child in goal && child !in result
    ensures Pending(t, goal, result + [child], front + kids)
  {
    var was := front + [child];
    assert was[|front|] == child;
    assert Under(t, was[|front|], child);
    assert UnderOne(t, was, child);
    SwapUnrelated(t, front, child, kids);
    forall b | b in t.nodes
      ensures UnderOne(t, front + kids, b) <==> b in goal && b !in result + [child]
    {
      SwapUnder(t, front, child, kids, b);
    }
  }

  /** What has been visited and what is still to come from the stack make up the goal. */
  ghost predicate Visiting(t: Forest, goal: seq<string>, done: seq<string>, stack: seq<string>) {
    Linked(t) && Known(t, Popped(stack)) && done + Preorder(t, Popped(stack)) == goal
  }

  lemma {:induction false} VisitingTop(t: Forest, goal: seq<string>, done: seq<string>, front: seq<string>,
                                       current: string)
    requires Visiting(t, goal, done, front + [current]) && NoRepeats(goal)
    ensures current in t.nodes && current !in done && |done| < |goal|
  {
    var stack := front + [current];
    assert Popped(stack)[0] == current;
    NextIsNew(done, Preorder(t, Popped(stack)), goal);
  }

  lemma {:induction false} VisitingStep(t: Forest, goal: seq<string>, done: seq<string>, front: seq<string>,
                                        current: string)
    requires Visiting(t, goal, done, front + [current]) && current in t.nodes
    ensures Visiting(t, goal, done + [current], front + Popped(SortedChildren(t, current)))
  {
    var stack, kids, rest := front + [current], SortedChildren(t, current), Popped(front);
    assert stack[..|stack| - 1] == front;
    assert Popped(stack) == [current] + rest;
    KnownParts(t, current, rest);
    PoppedPushed(front, kids);
    VisitNext(t, current, rest);
  }

  datatype TreeError = AlreadyRegistered | UnknownAgent | ParentCannotSpawn

  class AgentTree {
    var nodes: Nodes
    ghost var rank: map<string, nat>

    ghost function Tree(): Forest
      reads this
    {
      Forest(nodes, rank)
    }

    ghost predicate Valid()
      reads this
    {
      Linked(Tree()) && Kept(Tree())
    }

    constructor ()
      ensures Valid() && nodes == map[]
    {
      nodes, rank := map[], map[];
    }

    method RegisterRoot(agentId: string, capabilities: set<string>) returns (r: Result<(), TreeError>)
      requires Valid()
      modifies this
      ensures Valid()
      ensures r == if agentId in old(nodes) then Err(AlreadyRegistered) else Ok(())
      ensures nodes == if r.Ok? then old(nodes)[agentId := Node(None, Active, 0, capabilities, {})] else old(nodes)
    {
      if agentId in nodes {
        return Err(AlreadyRegistered);
      }
      var node := Node(None, Active, 0, capabilities, {});
      rank := rank[agentId := |nodes|];
      nodes := nodes[agentId := node];
      GrownKeeps(old(Tree()), Tree(), agentId, node);
      return Ok(());
    }

    /** A child gets what it asks for out of what its parent has; without asking, all of it. Under a
        contained agent nothing can be spawned. */
    method Spawn(parentId: string, childId: string, capabilities: Option<set<string>>)
      returns (r: Result<(), TreeError>)
      requires Valid()
      modifies this
      ensures Valid()
      ensures r == if childId in old(nodes) then Err(AlreadyRegistered)
                   else if parentId !in old(nodes) then Err(UnknownAgent)
                   else if old(nodes[parentId].state) != Active then Err(ParentCannotSpawn)
                   else Ok(())
      ensures nodes == if r.Err? then old(nodes) else
                var p := old(nodes)[parentId];
                var held := if capabilities.Some? then p.capabilities * capabilities.value else p.capabilities;
                old(nodes)[childId := Node(Some(parentId), Active, 0, held,
                                           {})][parentId := p.(children := p.children + {childId})]
    {
      if childId in nodes {
        return Err(AlreadyRegistered);
      }
      if parentId !in nodes {
        return Err(UnknownAgent);
      }
      var parent := nodes[parentId];
      if parent.state != Active || parent.state == Contained {
        return Err(ParentCannotSpawn);
      }
      var inherited := parent.capabilities;
      if capabilities.Some? {
        inherited := inherited * capabilities.value;
      }
      var node := Node(Some(parentId), Active, 0, inherited, {});
      rank := rank[childId := |nodes|];
      nodes := nodes[childId := node];
      nodes := nodes[parentId := parent.(children := parent.children + {childId})];
      GrownKeeps(old(Tree()), Tree(), childId, node);
      return Ok(());
    }

    /** The loop over the explicit stack. */
    method FenceAll(agentId: string, ghost t: Forest) returns (contained: seq<string>)
      requires t == Tree() && Linked(t) && agentId in nodes
      modifies `nodes
      ensures contained == Preorder(t, [agentId]) && nodes == Marked(t.nodes, Elements(contained))
    {
      ghost var goal := Preorder(t, [agentId]);
      PreorderExact(t, agentId);
      contained := [];
      var stack := [agentId];
      while stack != []
        invariant nodes == Marked(t.nodes, Elements(contained))
        invariant Visiting(t, goal, contained, stack)
        decreases |goal| - |contained|
      {
        var current := stack[|stack| - 1];
        assert stack == stack[..|stack| - 1] + [current];
        stack := stack[..|stack| - 1];
        VisitingTop(t, goal, contained, stack, current);
        VisitingStep(t, goal, contained, stack, current);
        MarkedOneMore(t.nodes, Elements(contained), current);
        ElementsOneMore(contained, current);
        nodes := nodes[current := nodes[current].Fenced()];
        contained := contained + [current];
        StringsAreOrdered();
        var kids := Sort(nodes[current].children, Before);
        stack := stack + Popped(kids);
      }
    }

    /** An explicit stack visits the agent and everything below it, each exactly once and in sorted
        preorder; each is fenced once, and no other node changes. */
    method Contain(agentId: string) returns (r: Result<seq<string>, TreeError>)
      requires Valid()
      modifies `nodes
      ensures Valid()
      ensures r.Ok? <==> agentId in old(nodes)
      ensures r.Err? ==> r == Err(UnknownAgent) && nodes == old(nodes)
      ensures r.Ok? ==>
                r.value == old(Preorder(Tree(), [agentId]))
                  && nodes == Marked(old(nodes), old(Subtree(Tree(), agentId)))
      // Who is listed, in what order, and what happens to each.
      ensures r.Ok? ==>
                && NoRepeats(r.value)
                && (forall b :: b in r.value <==> b in old(nodes) && old(Under(Tree(), agentId, b)))
                && (forall i, j :: 0 <= i < j < |r.value| ==>
                      old(Under(Tree(), r.value[i], r.value[j]) || EarlierBranch(Tree(), r.value[i], r.value[j])))
                && nodes.Keys == old(nodes).Keys
                && forall b :: b in nodes ==>
                     nodes[b] == if b !in r.value then old(nodes)[b]
                                 else old(nodes)[b].(state := Contained, epoch := old(nodes)[b].epoch + 1,
                                                     capabilities := {})
    {
      if agentId !in nodes {
        return Err(UnknownAgent);
      }
      ghost var t := Tree();
      PreorderExact(t, agentId);
      MarkedKeeps(t, agentId);
      var contained := FenceAll(agentId, t);
      PreorderInOrder(t, [agentId]);
      assert forall b :: b in contained <==> b in Elements(contained);
      assert Tree() == t.(nodes := Marked(t.nodes, Subtree(t, agentId)));
      return Ok(contained);
    }

    /** Everything strictly below the agent, each once, in no particular order. */
    method Descendants(agentId: string) returns (r: Result<seq<string>, TreeError>)
      requires Valid()
      ensures r.Ok? <==> agentId in nodes
      ensures r.Ok? ==> NoRepeats(r.value) && Elements(r.value) == Subtree(Tree(), agentId) - {agentId}
    {
      if agentId !in nodes {
        return Err(UnknownAgent);
      }
      ghost var t := Tree();
      var result: seq<string> := [];
      var stack := Listed(nodes[agentId].children);
      ghost var goal := Subtree(t, agentId) - {agentId};
      PendingStart(t, agentId, stack);
      while stack != []
        invariant Pending(t, goal, result, stack)
        decreases goal - Elements(result)
      {
        var child := stack[|stack| - 1];
        assert stack == stack[..|stack| - 1] + [child];
        stack := stack[..|stack| - 1];
        var kids := Listed(nodes[child].children);
        PendingStep(t, goal, result, stack, child, kids);
        ElementsOneMore(result, child);
        result := result + [child];
        stack := stack + kids;
      }
      return Ok(result);
    }
  }
}
