/** An abstract document tree: the part of the DOM that the inspector's
    undoable edits read and change. Nodes are numbered; a container has an
    ordered child list, an element an attribute map, a character-data node
    its data. ContainerNode.cpp, Element.cpp and Text.cpp are not part of
    this model: insertBefore, removeChild and replaceChild below make the
    DOM Standard's tree-shape checks (a container parent, no node put
    under itself or one of its descendants, an anchor that is a child of
    the parent), but not its checks on node types; setAttribute applies
    the XML name rule to ASCII characters. */
module DomTree {
  import opened Common

  type NodeId = nat

  datatype Dom = Dom(
    children: map<NodeId, seq<NodeId>>,
    parent: map<NodeId, NodeId>,
    attributes: map<NodeId, map<string, string>>,
    values: map<NodeId, string>)

  datatype ExceptionCode = NotFoundError | HierarchyRequestError | InvalidCharacterError

  datatype DomException = DomException(code: ExceptionCode, message: string)

  /** What a DOM mutation does: the new tree, or the exception it raises
      (in which case the tree is left as it was). */
  datatype Outcome = Done(dom: Dom) | Thrown(error: DomException)

  const NotAChild := DomException(NotFoundError, "The node is not a child of this node.")
  const CannotContain := DomException(HierarchyRequestError, "The new child cannot be inserted here.")
  const BadName := DomException(InvalidCharacterError, "The attribute name is not valid.")

  /** The tree after a mutation: unchanged when it threw. */
  function After(d: Dom, o: Outcome): (r: Dom)
    ensures o.Thrown? ==> r == d
    ensures o.Done? ==> r == o.dom
  {
    if o.Done? then o.dom else d
  }

  // ----- sequence helpers -----

  /** Position of the first occurrence of x in s, or |s| when absent. */
  function IndexOf(s: seq<NodeId>, x: NodeId): (i: nat)
    ensures i <= |s|
    ensures i < |s| ==> s[i] == x
    ensures forall k :: 0 <= k < i ==> s[k] != x
  {
    if |s| == 0 then 0 else if s[0] == x then 0 else 1 + IndexOf(s[1..], x)
  }

  function RemoveAt(s: seq<NodeId>, i: nat): (r: seq<NodeId>)
    ensures i < |s| ==> |r| == |s| - 1 && r == s[..i] + s[i + 1..]
    ensures i >= |s| ==> r == s
  {
    if i < |s| then s[..i] + s[i + 1..] else s
  }

  function InsertAt(s: seq<NodeId>, i: nat, x: NodeId): (r: seq<NodeId>)
    requires i <= |s|
    ensures |r| == |s| + 1 && r[i] == x
    ensures r[..i] == s[..i] && r[i + 1..] == s[i..]
  {
    s[..i] + [x] + s[i..]
  }

  predicate Distinct(s: seq<NodeId>)
  {
    forall i, j :: 0 <= i < j < |s| ==> s[i] != s[j]
  }

  // ----- ancestry -----

  /** Walks up the parent links from x and says whether a is met; the walk
      ends at a node without a parent, or at a node it has already passed
      (which only a cycle of parent links can bring about). */
  function ReachesUp(up: map<NodeId, NodeId>, x: NodeId, a: NodeId, passed: set<NodeId>): bool
    decreases up.Keys - passed
  {
    x == a || (x in up && x !in passed && ReachesUp(up, up[x], a, passed + {x}))
  }

  /** a is x itself or one of x's ancestors (Node::contains, seen from a). */
  predicate IsInclusiveAncestor(d: Dom, a: NodeId, x: NodeId)
  {
    ReachesUp(d.parent, x, a, {})
  }

  /** a is met within f steps up from x. */
  ghost predicate AncestorWithin(up: map<NodeId, NodeId>, a: NodeId, x: NodeId, f: nat)
    decreases f
  {
    x == a || (f > 0 && x in up && AncestorWithin(up, a, up[x], f - 1))
  }

  /** The parent links form no cycle: no node is an ancestor of its parent. */
  ghost predicate Acyclic(up: map<NodeId, NodeId>)
  {
    forall x, f: nat :: x in up ==> !AncestorWithin(up, x, up[x], f)
  }

  /** Every link of small is also a link of big. */
  ghost predicate SubMap(small: map<NodeId, NodeId>, big: map<NodeId, NodeId>)
  {
    forall k :: k in small ==> k in big && big[k] == small[k]
  }

  /** The parent map and the child lists describe the same tree: every
      attached node sits exactly once in its parent's list, every listed
      child points back to the list's owner, and the parent links form no
      cycle. */
  ghost predicate WellFormed(d: Dom)
  {
    (forall n :: n in d.parent ==> d.parent[n] in d.children && n in d.children[d.parent[n]] && d.parent[n] != n) &&
    (forall p, i :: p in d.children && 0 <= i < |d.children[p]| ==>
      d.children[p][i] in d.parent && d.parent[d.children[p][i]] == p) &&
    (forall p :: p in d.children ==> Distinct(d.children[p])) &&
    Acyclic(d.parent)
  }

  // ----- queries -----

  function ParentNode(d: Dom, n: NodeId): (r: Option<NodeId>)
    ensures r.Some? <==> n in d.parent
    ensures r.Some? ==> r.value == d.parent[n]
  {
    if n in d.parent then Some(d.parent[n]) else None
  }

  /** The child list that n belongs to (empty for a detached node). */
  function Siblings(d: Dom, n: NodeId): seq<NodeId>
  {
    if n in d.parent && d.parent[n] in d.children then d.children[d.parent[n]] else []
  }

  function NextSibling(d: Dom, n: NodeId): (r: Option<NodeId>)
    ensures n !in d.parent ==> r == None
  {
    var s := Siblings(d, n);
    var i := IndexOf(s, n);
    if i + 1 < |s| then Some(s[i + 1]) else None
  }

  function PreviousSibling(d: Dom, n: NodeId): (r: Option<NodeId>)
    ensures n !in d.parent ==> r == None
  {
    var s := Siblings(d, n);
    var i := IndexOf(s, n);
    if 0 < i < |s| then Some(s[i - 1]) else None
  }

  /** The node's attribute, or null when it has none (or is not an element). */
  function GetAttribute(d: Dom, e: NodeId, name: string): (r: Option<string>)
    ensures r.Some? <==> e in d.attributes && name in d.attributes[e]
    ensures r.Some? ==> r.value == d.attributes[e][name]
  {
    if e in d.attributes && name in d.attributes[e] then Some(d.attributes[e][name]) else None
  }

  /** nodeValue(): the data of a character-data node; the null string,
      modelled as "", for any other node. */
  function NodeValue(d: Dom, n: NodeId): (r: string)
    ensures n in d.values ==> r == d.values[n]
  {
    if n in d.values then d.values[n] else ""
  }

  // ----- mutations -----

  /** Takes n out of its parent's child list; no change for a detached node. */
  function Detach(d: Dom, n: NodeId): (r: Dom)
    ensures n !in r.parent
    ensures r.children.Keys == d.children.Keys
    ensures r.attributes == d.attributes && r.values == d.values
    ensures n !in d.parent ==> r == d
  {
    if n !in d.parent then d
    else
      var q := d.parent[n];
      var s := Siblings(d, n);
      d.(children := if q in d.children then d.children[q := RemoveAt(s, IndexOf(s, n))] else d.children,
         parent := d.parent - {n})
  }

  /** Puts n at position i of p's child list. */
  function Insert(d: Dom, p: NodeId, n: NodeId, i: nat): Dom
    requires p in d.children && i <= |d.children[p]|
  {
    d.(children := d.children[p := InsertAt(d.children[p], i, n)], parent := d.parent[n := p])
  }

  /** removeChild: NotFoundError unless n is a child of p. */
  function RemoveChildOutcome(d: Dom, p: NodeId, n: NodeId): (r: Outcome)
    ensures r.Thrown? <==> ParentNode(d, n) != Some(p)
    ensures r.Thrown? ==> r.error.code == NotFoundError
    ensures r.Done? ==> r.dom == Detach(d, n)
  {
    if ParentNode(d, n) != Some(p) then Thrown(NotAChild) else Done(Detach(d, n))
  }

  /** insertBefore: a HierarchyRequestError when p is not a container or
      when n is p or one of its ancestors; a NotFoundError when the anchor
      is not a child of p; nothing to do when n already stands right before
      the anchor; otherwise n leaves its old parent and is put before the
      anchor (at the end for a null anchor). */
  function InsertBeforeOutcome(d: Dom, p: NodeId, n: NodeId, anchor: Option<NodeId>): (r: Outcome)
  {
    if p !in d.children || IsInclusiveAncestor(d, n, p) then Thrown(CannotContain)
    else if anchor.None? then
      var d1 := Detach(d, n);
      Done(Insert(d1, p, n, |d1.children[p]|))
    else if ParentNode(d, anchor.value) != Some(p) then Thrown(NotAChild)
    else if anchor.value == n || PreviousSibling(d, anchor.value) == Some(n) then Done(d)
    else
      var d1 := Detach(d, n);
      Done(Insert(d1, p, n, IndexOf(d1.children[p], anchor.value)))
  }

  /** replaceChild(newChild, oldChild): nothing to do when they are the
      same node; otherwise the checks of insertBefore, then newChild leaves
      its old parent and takes oldChild's place, and oldChild is detached. */
  function ReplaceChildOutcome(d: Dom, p: NodeId, newChild: NodeId, oldChild: NodeId): (r: Outcome)
  {
    if newChild == oldChild then Done(d)
    else if p !in d.children || IsInclusiveAncestor(d, newChild, p) then Thrown(CannotContain)
    else if ParentNode(d, oldChild) != Some(p) then Thrown(NotAChild)
    else
      var d1 := Detach(d, newChild);
      var s := d1.children[p];
      var i := IndexOf(s, oldChild);
      if i < |s| then
        Done(d1.(children := d1.children[p := s[i := newChild]],
                 parent := (d1.parent - {oldChild})[newChild := p]))
      else Done(d1)
  }

  /** The ASCII characters an XML name may start with: letters, '_' and
      ':'. Characters beyond ASCII are let through. */
  predicate NameStartChar(c: char)
  {
    'a' <= c <= 'z' || 'A' <= c <= 'Z' || c == '_' || c == ':' || c >= '\U{0080}'
  }

  /** The characters that may follow: also digits, '-' and '.'. */
  predicate NameChar(c: char)
  {
    NameStartChar(c) || '0' <= c <= '9' || c == '-' || c == '.'
  }

  /** Document::isValidName: a non-empty XML name. */
  predicate ValidName(name: string)
  {
    |name| > 0 && NameStartChar(name[0]) && forall i :: 1 <= i < |name| ==> NameChar(name[i])
  }

  /** setAttribute: an InvalidCharacterError for a bad name; a null value
      removes the attribute. */
  function SetAttributeOutcome(d: Dom, e: NodeId, name: string, value: Option<string>): (r: Outcome)
    ensures r.Thrown? <==> !ValidName(name)
    ensures r.Done? ==> GetAttribute(r.dom, e, name) == (if e in d.attributes then value else None)
    ensures r.Done? ==> forall other :: other != name ==> GetAttribute(r.dom, e, other) == GetAttribute(d, e, other)
    ensures r.Done? ==> r.dom.children == d.children && r.dom.parent == d.parent && r.dom.values == d.values
  {
    if !ValidName(name) then Thrown(BadName)
    else if e !in d.attributes then Done(d)
    else if value.None? then Done(d.(attributes := d.attributes[e := d.attributes[e] - {name}]))
    else Done(d.(attributes := d.attributes[e := d.attributes[e][name := value.value]]))
  }

  /** removeAttribute never throws. */
  function WithoutAttribute(d: Dom, e: NodeId, name: string): (r: Dom)
    ensures GetAttribute(r, e, name) == None
    ensures forall other :: other != name ==> GetAttribute(r, e, other) == GetAttribute(d, e, other)
    ensures r.children == d.children && r.parent == d.parent && r.values == d.values
  {
    if e in d.attributes then d.(attributes := d.attributes[e := d.attributes[e] - {name}]) else d
  }

  /** setNodeValue: replaces the data of a character-data node; no effect
      on other nodes. */
  function WithNodeValue(d: Dom, n: NodeId, v: string): (r: Dom)
    ensures n in d.values ==> NodeValue(r, n) == v
    ensures forall m :: m != n ==> NodeValue(r, m) == NodeValue(d, m)
    ensures r.values.Keys == d.values.Keys
    ensures r.children == d.children && r.parent == d.parent && r.attributes == d.attributes
  {
    if n in d.values then d.(values := d.values[n := v]) else d
  }

  /** The thrown exception after a mutation: the new one, or whatever the
      exception state held before. */
  function Raise(previous: Option<DomException>, o: Outcome): (r: Option<DomException>)
    ensures r.None? <==> previous.None? && o.Done?
  {
    if o.Thrown? then Some(o.error) else previous
  }

  /** The accumulator the DOM calls report into. */
  class ExceptionState {
    var thrown: Option<DomException>

    constructor()
      ensures thrown == None
    {
      thrown := None;
    }

    predicate HadException()
      reads this
    {
      thrown.Some?
    }
  }

  /** The document whose tree the edits change. */
  class Document {
    var tree: Dom

    constructor(d: Dom)
      ensures tree == d
    {
      tree := d;
    }

    /** Carries out a DOM call: a thrown exception goes to es and leaves the
        tree alone, otherwise the tree becomes the result. */
    method Apply(o: Outcome, es: ExceptionState)
      modifies this, es
      ensures tree == After(old(tree), o)
      ensures es.thrown == Raise(old(es.thrown), o)
    {
      if o.Thrown? {
        es.thrown := Some(o.error);
      } else {
        tree := o.dom;
      }
    }
  }

  // ----- lemmas about the tree operations -----

  lemma UpdateRestores<K, V>(m: map<K, V>, k: K, v: V)
    requires k in m
    ensures m[k := v][k := m[k]] == m
  {
  }

  lemma RemoveRestores<K, V>(m: map<K, V>, k: K)
    requires k in m
    ensures (m - {k})[k := m[k]] == m
  {
  }

  lemma AddRemoves<K, V>(m: map<K, V>, k: K, v: V)
    requires k !in m
    ensures m[k := v] - {k} == m
  {
  }

  /** IndexOf finds the first occurrence. */
  lemma IndexOfFirst(s: seq<NodeId>, x: NodeId, i: nat)
    requires i < |s| && s[i] == x
    requires forall k :: 0 <= k < i ==> s[k] != x
    ensures IndexOf(s, x) == i
  {
  }

  lemma IndexOfDistinct(s: seq<NodeId>, i: nat)
    requires Distinct(s) && i < |s|
    ensures IndexOf(s, s[i]) == i
  {
  }

  lemma IndexOfInserted(c: seq<NodeId>, i: nat, n: NodeId)
    requires i <= |c| && n !in c
    ensures IndexOf(InsertAt(c, i, n), n) == i
  {
    var s := InsertAt(c, i, n);
    assert forall k :: 0 <= k < i ==> s[k] == c[k];
  }

  lemma RemoveAtShifts(s: seq<NodeId>, i: nat)
    requires i < |s|
    ensures forall k :: 0 <= k < i ==> RemoveAt(s, i)[k] == s[k]
    ensures forall k :: i <= k < |s| - 1 ==> RemoveAt(s, i)[k] == s[k + 1]
  {
  }

  // ----- lemmas about ancestry -----

  /** One step up: from an attached x other than a, a is met within f + 1
      steps exactly when it is met within f steps from x's parent. */
  lemma AncestorStep(up: map<NodeId, NodeId>, a: NodeId, x: NodeId, f: nat)
    requires x in up && x != a
    ensures AncestorWithin(up, a, x, f + 1) == AncestorWithin(up, a, up[x], f)
  {
  }

  lemma {:induction false} AncestorWithinMonotone(up: map<NodeId, NodeId>, a: NodeId, x: NodeId, f: nat, g: nat)
    requires f <= g
    ensures AncestorWithin(up, a, x, f) ==> AncestorWithin(up, a, x, g)
    decreases f
  {
    if AncestorWithin(up, a, x, f) && x != a {
      AncestorWithinMonotone(up, a, up[x], f - 1, g - 1);
    }
  }

  /** Ancestry composes: b is met within f steps up from c, and a within g
      steps up from b. */
  lemma {:induction false} AncestorWithinTransitive(up: map<NodeId, NodeId>, a: NodeId, b: NodeId, c: NodeId, f: nat, g: nat)
    ensures AncestorWithin(up, b, c, f) && AncestorWithin(up, a, b, g) ==> AncestorWithin(up, a, c, f + g)
    decreases f
  {
    if AncestorWithin(up, b, c, f) && AncestorWithin(up, a, b, g) {
      if c == b {
        AncestorWithinMonotone(up, a, b, g, f + g);
      } else if c != a {
        AncestorWithinTransitive(up, a, b, up[c], f - 1, g);
      }
    }
  }

  /** A walk over fewer links is also a walk over more. */
  lemma {:induction false} AncestorWithinSubMap(small: map<NodeId, NodeId>, big: map<NodeId, NodeId>, a: NodeId, x: NodeId, f: nat)
    requires SubMap(small, big)
    ensures AncestorWithin(small, a, x, f) ==> AncestorWithin(big, a, x, f)
    decreases f
  {
    if AncestorWithin(small, a, x, f) && x != a {
      AncestorWithinSubMap(small, big, a, small[x], f - 1);
    }
  }

  /** Dropping links keeps them acyclic. */
  lemma AcyclicSubMap(small: map<NodeId, NodeId>, big: map<NodeId, NodeId>)
    requires SubMap(small, big) && Acyclic(big)
    ensures Acyclic(small)
  {
    forall x, f: nat | x in small
      ensures !AncestorWithin(small, x, small[x], f)
    {
      AncestorWithinSubMap(small, big, x, small[x], f);
    }
  }

  /** What the walk finds lies some number of steps up. */
  lemma {:induction false} ReachesUpBound(up: map<NodeId, NodeId>, x: NodeId, a: NodeId, passed: set<NodeId>) returns (f: nat)
    ensures ReachesUp(up, x, a, passed) ==> AncestorWithin(up, a, x, f)
    decreases up.Keys - passed
  {
    if x == a || !ReachesUp(up, x, a, passed) {
      f := 0;
    } else {
      assert x in up && x !in passed;
      var g := ReachesUpBound(up, up[x], a, passed + {x});
      f := g + 1;
    }
  }

  /** Over acyclic links the walk misses nothing that lies some number of
      steps up, as long as no node it has passed lies on the way. */
  lemma {:induction false} WithinFoundByWalk(up: map<NodeId, NodeId>, a: NodeId, x: NodeId, f: nat, passed: set<NodeId>)
    requires Acyclic(up)
    requires forall s, g: nat :: s in passed ==> !AncestorWithin(up, s, x, g)
    ensures AncestorWithin(up, a, x, f) ==> ReachesUp(up, x, a, passed)
    decreases f
  {
    if AncestorWithin(up, a, x, f) && x != a {
      assert x !in passed by {
        assert AncestorWithin(up, x, x, 0);
      }
      forall s, g: nat | s in passed + {x}
        ensures !AncestorWithin(up, s, up[x], g)
      {
        if s != x {
          AncestorStep(up, s, x, g);
        }
      }
      WithinFoundByWalk(up, a, up[x], f - 1, passed + {x});
    }
  }

  /** Over acyclic links the walk decides ancestry exactly: a is found
      from x when, and only when, it lies some number of steps up. */
  lemma InclusiveAncestorExact(d: Dom, a: NodeId, x: NodeId)
    requires Acyclic(d.parent)
    ensures IsInclusiveAncestor(d, a, x) <==> exists f: nat :: AncestorWithin(d.parent, a, x, f)
  {
    var f := ReachesUpBound(d.parent, x, a, {});
    forall g: nat
      ensures AncestorWithin(d.parent, a, x, g) ==> IsInclusiveAncestor(d, a, x)
    {
      WithinFoundByWalk(d.parent, a, x, g, {});
    }
    assert IsInclusiveAncestor(d, a, x) ==> exists g: nat :: AncestorWithin(d.parent, a, x, g);
  }

  /** A walk over the links with n hung under p that never meets n is a
      walk over the old links. */
  lemma {:induction false} WalkAvoidingNode(up: map<NodeId, NodeId>, n: NodeId, p: NodeId, a: NodeId, y: NodeId, f: nat)
    requires n !in up
    requires forall g: nat :: !AncestorWithin(up, n, y, g)
    ensures AncestorWithin(up[n := p], a, y, f) ==> AncestorWithin(up, a, y, f)
    decreases f
  {
    if AncestorWithin(up[n := p], a, y, f) && y != a {
      assert !AncestorWithin(up, n, y, 0);
      forall g: nat
        ensures !AncestorWithin(up, n, up[y], g)
      {
        AncestorStep(up, n, y, g);
      }
      WalkAvoidingNode(up, n, p, a, up[y], f - 1);
    }
  }

  /** A walk over the links with the detached n hung under p either is a
      walk over the old links, or passes n and goes on from p. */
  lemma {:induction false} WalkThroughInserted(up: map<NodeId, NodeId>, n: NodeId, p: NodeId, a: NodeId, y: NodeId, f: nat)
    requires n !in up
    requires forall g: nat :: !AncestorWithin(up, n, p, g)
    ensures AncestorWithin(up[n := p], a, y, f) ==>
      AncestorWithin(up, a, y, f) || (AncestorWithin(up, n, y, f) && AncestorWithin(up, a, p, f))
    decreases f
  {
    if AncestorWithin(up[n := p], a, y, f) && y != a {
      if y == n {
        AncestorWithinMonotone(up, n, y, 0, f);
        WalkAvoidingNode(up, n, p, a, p, f - 1);
        AncestorWithinMonotone(up, a, p, f - 1, f);
      } else {
        WalkThroughInserted(up, n, p, a, up[y], f - 1);
        AncestorWithinMonotone(up, a, p, f - 1, f);
      }
    }
  }

  /** Hanging a detached n under p keeps the links acyclic when n is not
      an ancestor of p. */
  lemma InsertKeepsAcyclic(up: map<NodeId, NodeId>, n: NodeId, p: NodeId)
    requires Acyclic(up) && n !in up
    requires forall g: nat :: !AncestorWithin(up, n, p, g)
    ensures Acyclic(up[n := p])
  {
    var up' := up[n := p];
    forall x, f: nat | x in up'
      ensures !AncestorWithin(up', x, up'[x], f)
    {
      WalkThroughInserted(up, n, p, x, up'[x], f);
      if x != n {
        var z := up[x];
        assert AncestorWithin(up, z, x, 1) by {
          assert AncestorWithin(up, z, z, 0);
        }
        AncestorWithinTransitive(up, z, x, p, f, 1);
        AncestorWithinTransitive(up, n, z, p, f + 1, f);
      }
    }
  }

  /** Detaching n from acyclic links, when n is not an ancestor of p,
      leaves acyclic links in which n lies nowhere above p. */
  lemma DetachedBelowNonAncestor(d: Dom, n: NodeId, p: NodeId)
    requires Acyclic(d.parent) && !IsInclusiveAncestor(d, n, p)
    ensures var up := Detach(d, n).parent;
      Acyclic(up) && n !in up && forall g: nat :: !AncestorWithin(up, n, p, g)
  {
    var up := Detach(d, n).parent;
    InclusiveAncestorExact(d, n, p);
    AcyclicSubMap(up, d.parent);
    forall g: nat
      ensures !AncestorWithin(up, n, p, g)
    {
      assert !AncestorWithin(d.parent, n, p, g);
      AncestorWithinSubMap(up, d.parent, n, p, g);
    }
  }

  /** A node that is p or an ancestor of p, p's parent among them, cannot
      be inserted under p, nor put in place of one of p's children. */
  lemma InsertingAncestorThrows(d: Dom, p: NodeId, n: NodeId, anchor: Option<NodeId>, oldChild: NodeId)
    ensures p in d.parent && d.parent[p] == n ==> IsInclusiveAncestor(d, n, p)
    ensures IsInclusiveAncestor(d, n, p) ==> InsertBeforeOutcome(d, p, n, anchor) == Thrown(CannotContain)
    ensures IsInclusiveAncestor(d, n, p) && n != oldChild ==> ReplaceChildOutcome(d, p, n, oldChild) == Thrown(CannotContain)
  {
  }

  /** insertBefore keeps the parent links acyclic. */
  lemma InsertBeforeKeepsAcyclic(d: Dom, p: NodeId, n: NodeId, anchor: Option<NodeId>)
    requires Acyclic(d.parent)
    ensures Acyclic(After(d, InsertBeforeOutcome(d, p, n, anchor)).parent)
  {
    if p in d.children && !IsInclusiveAncestor(d, n, p) {
      DetachedBelowNonAncestor(d, n, p);
      InsertKeepsAcyclic(Detach(d, n).parent, n, p);
    }
  }

  /** replaceChild keeps the parent links acyclic. */
  lemma ReplaceChildKeepsAcyclic(d: Dom, p: NodeId, newChild: NodeId, oldChild: NodeId)
    requires Acyclic(d.parent)
    ensures Acyclic(After(d, ReplaceChildOutcome(d, p, newChild, oldChild)).parent)
  {
    if newChild != oldChild && p in d.children && !IsInclusiveAncestor(d, newChild, p) {
      DetachedBelowNonAncestor(d, newChild, p);
      var up := Detach(d, newChild).parent;
      var up2 := up - {oldChild};
      AcyclicSubMap(up2, up);
      forall g: nat
        ensures !AncestorWithin(up2, newChild, p, g)
      {
        AncestorWithinSubMap(up2, up, newChild, p, g);
      }
      InsertKeepsAcyclic(up2, newChild, p);
    }
  }

  /** In acyclic links a node is not an ancestor of its parent, and stays
      so once detached. */
  lemma DetachedNotAboveOldParent(d: Dom, n: NodeId)
    requires Acyclic(d.parent) && n in d.parent
    ensures !IsInclusiveAncestor(Detach(d, n), n, d.parent[n])
  {
    var d1 := Detach(d, n);
    var f := ReachesUpBound(d1.parent, d.parent[n], n, {});
    AncestorWithinSubMap(d1.parent, d.parent, n, d.parent[n], f);
  }

  /** Once the detached newChild has taken oldChild's place under p,
      oldChild is no ancestor of p. */
  lemma ReplacedNotAboveParent(d: Dom, p: NodeId, newChild: NodeId, oldChild: NodeId)
    requires Acyclic(d.parent) && newChild !in d.parent
    requires oldChild in d.parent && d.parent[oldChild] == p
    requires !IsInclusiveAncestor(d, newChild, p)
    ensures !ReachesUp((d.parent - {oldChild})[newChild := p], p, oldChild, {})
  {
    var up2 := d.parent - {oldChild};
    InclusiveAncestorExact(d, newChild, p);
    forall g: nat
      ensures !AncestorWithin(up2, newChild, p, g)
    {
      assert !AncestorWithin(d.parent, newChild, p, g);
      AncestorWithinSubMap(up2, d.parent, newChild, p, g);
    }
    var f := ReachesUpBound(up2[newChild := p], p, oldChild, {});
    WalkThroughInserted(up2, newChild, p, oldChild, p, f);
    AncestorWithinSubMap(up2, d.parent, oldChild, p, f);
  }

  /** A node of a well-formed tree that has no parent is in no child list. */
  lemma DetachedIsInNoList(d: Dom, p: NodeId, n: NodeId)
    requires WellFormed(d) && n !in d.parent && p in d.children
    ensures n !in d.children[p]
  {
    forall k | 0 <= k < |d.children[p]|
      ensures d.children[p][k] != n
    {
      assert d.children[p][k] in d.parent;
    }
  }

  /** The parent of an attached node in a well-formed tree, its child list
      and the node's place in it. */
  lemma DetachShape(d: Dom, n: NodeId) returns (q: NodeId, s: seq<NodeId>, i: nat)
    requires WellFormed(d) && n in d.parent
    ensures q == d.parent[n] && q in d.children && s == d.children[q]
    ensures i < |s| && s[i] == n && Distinct(s)
    ensures Detach(d, n).children == d.children[q := RemoveAt(s, i)]
    ensures Detach(d, n).parent == d.parent - {n}
  {
    q := d.parent[n];
    s := d.children[q];
    i := IndexOf(s, n);
  }

  lemma DetachKeepsParentLinks(d: Dom, n: NodeId)
    requires WellFormed(d) && n in d.parent
    ensures var r := Detach(d, n);
      forall m :: m in r.parent ==> r.parent[m] in r.children && m in r.children[r.parent[m]] && r.parent[m] != m
  {
    var q, s, i := DetachShape(d, n);
    var r := Detach(d, n);
    var s' := RemoveAt(s, i);
    RemoveAtShifts(s, i);
    forall m | m in r.parent
      ensures r.parent[m] in r.children && m in r.children[r.parent[m]] && r.parent[m] != m
    {
      if d.parent[m] == q {
        var k := IndexOf(s, m);
        assert k != i;
        if k < i {
          assert s'[k] == m;
        } else {
          assert s'[k - 1] == m;
        }
      }
    }
  }

  lemma DetachKeepsChildLinks(d: Dom, n: NodeId)
    requires WellFormed(d) && n in d.parent
    ensures var r := Detach(d, n);
      forall p, k :: p in r.children && 0 <= k < |r.children[p]| ==>
        r.children[p][k] in r.parent && r.parent[r.children[p][k]] == p
  {
    var q, s, i := DetachShape(d, n);
    var r := Detach(d, n);
    RemoveAtShifts(s, i);
    forall p, k | p in r.children && 0 <= k < |r.children[p]|
      ensures r.children[p][k] in r.parent && r.parent[r.children[p][k]] == p
    {
      if p == q {
        if k < i {
          assert r.children[p][k] == s[k];
        } else {
          assert r.children[p][k] == s[k + 1];
        }
      }
    }
  }

  lemma DetachKeepsDistinct(d: Dom, n: NodeId)
    requires WellFormed(d) && n in d.parent
    ensures var r := Detach(d, n);
      forall p :: p in r.children ==> Distinct(r.children[p])
  {
    var q, s, i := DetachShape(d, n);
    var s' := RemoveAt(s, i);
    RemoveAtShifts(s, i);
    forall a, b | 0 <= a < b < |s'|
      ensures s'[a] != s'[b]
    {
      var a' := if a < i then a else a + 1;
      var b' := if b < i then b else b + 1;
      assert s'[a] == s[a'] && s'[b] == s[b'];
    }
    assert Distinct(s');
  }

  /** Detaching keeps the tree well formed. */
  lemma DetachPreservesWellFormed(d: Dom, n: NodeId)
    requires WellFormed(d)
    ensures WellFormed(Detach(d, n))
  {
    if n in d.parent {
      DetachKeepsParentLinks(d, n);
      DetachKeepsChildLinks(d, n);
      DetachKeepsDistinct(d, n);
      AcyclicSubMap(Detach(d, n).parent, d.parent);
    }
  }

  /** insertBefore of a detached node into a container of a well-formed
      tree, before one of its children or at the end: the node lands right
      before the anchor. */
  lemma InsertDetached(d: Dom, p: NodeId, n: NodeId, anchor: Option<NodeId>)
    requires WellFormed(d) && n !in d.parent && p in d.children && !IsInclusiveAncestor(d, n, p)
    requires anchor.None? || ParentNode(d, anchor.value) == Some(p)
    ensures var c := d.children[p];
      InsertBeforeOutcome(d, p, n, anchor)
        == Done(Insert(d, p, n, if anchor.None? then |c| else IndexOf(c, anchor.value)))
  {
    if anchor.Some? {
      var r := anchor.value;
      var c := d.children[p];
      var k := IndexOf(c, r);
      assert k < |c|;
      if 0 < k {
        assert c[k - 1] in d.parent;
      }
      assert PreviousSibling(d, r) != Some(n);
    }
  }

  /** Putting a detached node back at its old index restores the tree. */
  lemma DetachInsertRestores(d: Dom, n: NodeId, q: NodeId, i: nat)
    requires n in d.parent && q == d.parent[n] && q in d.children
    requires i == IndexOf(d.children[q], n) && i < |d.children[q]|
    ensures q in Detach(d, n).children && i <= |Detach(d, n).children[q]|
    ensures Insert(Detach(d, n), q, n, i) == d
  {
    var c := d.children[q];
    var c' := RemoveAt(c, i);
    assert InsertAt(c', i, n) == c;
    RemoveRestores(d.parent, n);
    UpdateRestores(d.children, q, c');
  }

  /** In the child list left after detaching n, its old next sibling sits
      at n's old index; a last child leaves that index at the end. */
  lemma NextSiblingAfterDetach(d: Dom, n: NodeId)
    requires WellFormed(d) && n in d.parent
    ensures var q := d.parent[n];
      var c' := Detach(d, n).children[q];
      var anchor := NextSibling(d, n);
      (if anchor.None? then |c'| else IndexOf(c', anchor.value)) == IndexOf(d.children[q], n)
      && (anchor.None? || ParentNode(Detach(d, n), anchor.value) == Some(q))
  {
    var q, c, i := DetachShape(d, n);
    var c' := RemoveAt(c, i);
    RemoveAtShifts(c, i);
    if i + 1 < |c| {
      assert NextSibling(d, n) == Some(c[i + 1]);
      assert c'[i] == c[i + 1];
      DetachPreservesWellFormed(d, n);
      IndexOfDistinct(c', i);
    }
  }

  /** removeChild then insertBefore(the old next sibling) puts the node back
      where it was. */
  lemma RemoveThenReinsert(d: Dom, p: NodeId, n: NodeId)
    requires WellFormed(d)
    requires RemoveChildOutcome(d, p, n).Done?
    ensures InsertBeforeOutcome(RemoveChildOutcome(d, p, n).dom, p, n, NextSibling(d, n)) == Done(d)
  {
    DetachPreservesWellFormed(d, n);
    NextSiblingAfterDetach(d, n);
    DetachedNotAboveOldParent(d, n);
    InsertDetached(Detach(d, n), p, n, NextSibling(d, n));
    var q, c, i := DetachShape(d, n);
    DetachInsertRestores(d, n, q, i);
  }

  /** insertBefore of a detached node then removeChild gives the tree back. */
  lemma InsertThenRemove(d: Dom, p: NodeId, n: NodeId, anchor: Option<NodeId>)
    requires WellFormed(d) && n !in d.parent
    requires InsertBeforeOutcome(d, p, n, anchor).Done?
    ensures RemoveChildOutcome(InsertBeforeOutcome(d, p, n, anchor).dom, p, n) == Done(d)
  {
    var c := d.children[p];
    InsertDetached(d, p, n, anchor);
    var i := if anchor.None? then |c| else IndexOf(c, anchor.value);
    DetachedIsInNoList(d, p, n);
    var d2 := Insert(d, p, n, i);
    IndexOfInserted(c, i, n);
    assert RemoveAt(InsertAt(c, i, n), i) == c;
    AddRemoves(d.parent, n, p);
    UpdateRestores(d.children, p, InsertAt(c, i, n));
  }

  /** replaceChild with a detached new node is undone by the reverse
      replaceChild. */
  lemma ReplaceThenSwapBack(d: Dom, p: NodeId, newChild: NodeId, oldChild: NodeId)
    requires WellFormed(d) && newChild !in d.parent
    requires ReplaceChildOutcome(d, p, newChild, oldChild).Done?
    ensures ReplaceChildOutcome(ReplaceChildOutcome(d, p, newChild, oldChild).dom, p, oldChild, newChild) == Done(d)
  {
    if newChild != oldChild {
      var i, s1 := SwappedList(d, p, newChild, oldChild);
      ReplacedNotAboveParent(d, p, newChild, oldChild);
      var d1 := d.(children := d.children[p := s1], parent := (d.parent - {oldChild})[newChild := p]);
      assert ReplaceChildOutcome(d, p, newChild, oldChild) == Done(d1);
      UpdateRestores(d.children, p, s1);
      AddRemoves(d.parent - {oldChild}, newChild, p);
      RemoveRestores(d.parent, oldChild);
      assert ReplaceChildOutcome(d1, p, oldChild, newChild) == Done(d);
    }
  }

  /** The child list after a detached newChild took oldChild's place:
      newChild sits at oldChild's old index, its first occurrence, and
      writing oldChild back there gives the old list. */
  lemma SwappedList(d: Dom, p: NodeId, newChild: NodeId, oldChild: NodeId) returns (i: nat, s1: seq<NodeId>)
    requires WellFormed(d) && newChild !in d.parent
    requires oldChild in d.parent && d.parent[oldChild] == p
    ensures p in d.children && i < |d.children[p]| && d.children[p][i] == oldChild
    ensures i == IndexOf(d.children[p], oldChild)
    ensures s1 == d.children[p][i := newChild] && IndexOf(s1, newChild) == i
    ensures s1[i := oldChild] == d.children[p]
  {
    var q, s, k := DetachShape(d, oldChild);
    i := k;
    s1 := s[i := newChild];
    DetachedIsInNoList(d, p, newChild);
    forall j | 0 <= j < i
      ensures s1[j] != newChild
    {
      assert s[j] in d.parent;
    }
    IndexOfFirst(s1, newChild, i);
    assert s1[i := oldChild] == s;
  }
}

/** The inspector's undoable DOM edits (DOMEditor.cpp). Each action records
    what it needs when it is performed and then calls the DOM; undo and redo
    replay recorded calls. The DOM calls report failures into an
    ExceptionState, and an action reports success as "no exception". */
module DomEditor {
  import opened Common
  import opened DomTree

  datatype Response = OK | Error(message: string)

  function ErrorName(code: ExceptionCode): (r: string)
    ensures |r| > 0
  {
    match code
    case NotFoundError => "NotFoundError"
    case HierarchyRequestError => "HierarchyRequestError"
    case InvalidCharacterError => "InvalidCharacterError"
  }

  /** toResponse: OK when nothing was thrown, otherwise an error carrying
      the exception's name and message. */
  function ToResponse(thrown: Option<DomException>): (r: Response)
    ensures r.OK? <==> thrown.None?
    ensures thrown.Some? ==> r.message == ErrorName(thrown.value.code) + " " + thrown.value.message
  {
    if thrown.Some? then Error(ErrorName(thrown.value.code) + " " + thrown.value.message) else OK
  }

  /** Removes a child; undo puts it back before the sibling that followed it. */
  class RemoveChildAction {
    const parent: NodeId
    const node: NodeId
    var anchor: Option<NodeId>

    constructor(parent: NodeId, node: NodeId)
      ensures this.parent == parent && this.node == node && anchor == None
    {
      this.parent := parent;
      this.node := node;
      anchor := None;
    }

    method Perform(doc: Document, es: ExceptionState) returns (ok: bool)
      modifies this, doc, es
      ensures anchor == NextSibling(old(doc.tree), node)
      ensures doc.tree == After(old(doc.tree), RemoveChildOutcome(old(doc.tree), parent, node))
      ensures es.thrown == Raise(old(es.thrown), RemoveChildOutcome(old(doc.tree), parent, node))
      ensures ok <==> es.thrown.None?
    {
      anchor := NextSibling(doc.tree, node);
      ok := Redo(doc, es);
    }

    method Undo(doc: Document, es: ExceptionState) returns (ok: bool)
      modifies doc, es
      ensures doc.tree == After(old(doc.tree), InsertBeforeOutcome(old(doc.tree), parent, node, anchor))
      ensures es.thrown == Raise(old(es.thrown), InsertBeforeOutcome(old(doc.tree), parent, node, anchor))
      ensures ok <==> es.thrown.None?
    {
      doc.Apply(InsertBeforeOutcome(doc.tree, parent, node, anchor), es);
      ok := !es.HadException();
    }

    method Redo(doc: Document, es: ExceptionState) returns (ok: bool)
      modifies doc, es
      ensures doc.tree == After(old(doc.tree), RemoveChildOutcome(old(doc.tree), parent, node))
      ensures es.thrown == Raise(old(es.thrown), RemoveChildOutcome(old(doc.tree), parent, node))
      ensures ok <==> es.thrown.None?
    {
      doc.Apply(RemoveChildOutcome(doc.tree, parent, node), es);
      ok := !es.HadException();
    }
  }

  /** Moves a node before an anchor; a node that already has a parent is
      first taken out through a RemoveChildAction of its own, which undo
      replays backwards. */
  class InsertBeforeAction {
    const parent: NodeId
    const node: NodeId
    const anchor: Option<NodeId>
    var removeChildAction: RemoveChildAction?

    /** The nested removal, when there is one, is about the same node. */
    predicate Valid()
      reads this
    {
      removeChildAction != null ==> removeChildAction.node == node
    }

    constructor(parent: NodeId, node: NodeId, anchor: Option<NodeId>)
      ensures this.parent == parent && this.node == node && this.anchor == anchor
      ensures removeChildAction == null && Valid()
    {
      this.parent := parent;
      this.node := node;
      this.anchor := anchor;
      removeChildAction := null;
    }

    method Perform(doc: Document, es: ExceptionState) returns (ok: bool)
      requires Valid()
      modifies this, doc, es
      ensures Valid()
      ensures node in old(doc.tree).parent ==>
        fresh(removeChildAction) && removeChildAction.parent == old(doc.tree).parent[node]
        && removeChildAction.anchor == NextSibling(old(doc.tree), node)
      ensures node !in old(doc.tree).parent ==> removeChildAction == old(removeChildAction)
      ensures var d1 := Detach(old(doc.tree), node);
        var o := InsertBeforeOutcome(d1, parent, node, anchor);
        if node in old(doc.tree).parent && old(es.thrown).Some? then
          !ok && doc.tree == d1 && es.thrown == old(es.thrown)
        else
          doc.tree == After(d1, o) && es.thrown == Raise(old(es.thrown), o) && (ok <==> es.thrown.None?)
    {
      if node in doc.tree.parent {
        removeChildAction := new RemoveChildAction(doc.tree.parent[node], node);
        var removed := removeChildAction.Perform(doc, es);
        if !removed {
          return false;
        }
      }
      doc.Apply(InsertBeforeOutcome(doc.tree, parent, node, anchor), es);
      ok := !es.HadException();
    }

    method Undo(doc: Document, es: ExceptionState) returns (ok: bool)
      requires Valid()
      modifies doc, es
      ensures var o1 := RemoveChildOutcome(old(doc.tree), parent, node);
        var d1 := After(old(doc.tree), o1);
        var e1 := Raise(old(es.thrown), o1);
        if e1.Some? then !ok && doc.tree == d1 && es.thrown == e1
        else if removeChildAction == null then ok && doc.tree == d1 && es.thrown == None
        else
          var o2 := InsertBeforeOutcome(d1, removeChildAction.parent, node, removeChildAction.anchor);
          doc.tree == After(d1, o2) && es.thrown == Raise(None, o2) && (ok <==> o2.Done?)
    {
      doc.Apply(RemoveChildOutcome(doc.tree, parent, node), es);
      if es.HadException() {
        return false;
      }
      if removeChildAction != null {
        ok := removeChildAction.Undo(doc, es);
        return;
      }
      return true;
    }

    method Redo(doc: Document, es: ExceptionState) returns (ok: bool)
      requires Valid()
      modifies doc, es
      ensures var d1 := if removeChildAction == null then old(doc.tree)
          else After(old(doc.tree), RemoveChildOutcome(old(doc.tree), removeChildAction.parent, node));
        var e1 := if removeChildAction == null then old(es.thrown)
          else Raise(old(es.thrown), RemoveChildOutcome(old(doc.tree), removeChildAction.parent, node));
        var o2 := InsertBeforeOutcome(d1, parent, node, anchor);
        if removeChildAction != null && e1.Some? then !ok && doc.tree == d1 && es.thrown == e1
        else doc.tree == After(d1, o2) && es.thrown == Raise(e1, o2) && (ok <==> es.thrown.None?)
    {
      if removeChildAction != null {
        var removed := removeChildAction.Redo(doc, es);
        if !removed {
          return false;
        }
      }
      doc.Apply(InsertBeforeOutcome(doc.tree, parent, node, anchor), es);
      ok := !es.HadException();
    }
  }

  /** Removes an attribute, remembering its value (null when absent). */
  class RemoveAttributeAction {
    const element: NodeId
    const name: string
    var value: Option<string>

    constructor(element: NodeId, name: string)
      ensures this.element == element && this.name == name && value == None
    {
      this.element := element;
      this.name := name;
      value := None;
    }

    method Perform(doc: Document, es: ExceptionState) returns (ok: bool)
      modifies this, doc, es
      ensures value == GetAttribute(old(doc.tree), element, name)
      ensures ok && doc.tree == WithoutAttribute(old(doc.tree), element, name)
      ensures es.thrown == old(es.thrown)
    {
      value := GetAttribute(doc.tree, element, name);
      ok := Redo(doc, es);
    }

    /** Sets the recorded value back; reports success even if that threw. */
    method Undo(doc: Document, es: ExceptionState) returns (ok: bool)
      modifies doc, es
      ensures ok
      ensures doc.tree == After(old(doc.tree), SetAttributeOutcome(old(doc.tree), element, name, value))
      ensures es.thrown == Raise(old(es.thrown), SetAttributeOutcome(old(doc.tree), element, name, value))
    {
      doc.Apply(SetAttributeOutcome(doc.tree, element, name, value), es);
      return true;
    }

    method Redo(doc: Document, es: ExceptionState) returns (ok: bool)
      modifies doc
      ensures ok && doc.tree == WithoutAttribute(old(doc.tree), element, name)
    {
      doc.tree := WithoutAttribute(doc.tree, element, name);
      return true;
    }
  }

  /** Sets an attribute, remembering whether it existed and its old value. */
  class SetAttributeAction {
    const element: NodeId
    const name: string
    const value: string
    var hadAttribute: bool
    var oldValue: string

    constructor(element: NodeId, name: string, value: string)
      ensures this.element == element && this.name == name && this.value == value
      ensures !hadAttribute && oldValue == ""
    {
      this.element := element;
      this.name := name;
      this.value := value;
      hadAttribute := false;
      oldValue := "";
    }

    method Perform(doc: Document, es: ExceptionState) returns (ok: bool)
      modifies this, doc, es
      ensures hadAttribute <==> GetAttribute(old(doc.tree), element, name).Some?
      ensures hadAttribute ==> GetAttribute(old(doc.tree), element, name) == Some(oldValue)
      ensures !hadAttribute ==> oldValue == old(oldValue)
      ensures ok
      ensures doc.tree == After(old(doc.tree), SetAttributeOutcome(old(doc.tree), element, name, Some(value)))
      ensures es.thrown == Raise(old(es.thrown), SetAttributeOutcome(old(doc.tree), element, name, Some(value)))
    {
      var current := GetAttribute(doc.tree, element, name);
      hadAttribute := current.Some?;
      if hadAttribute {
        oldValue := current.value;
      }
      ok := Redo(doc, es);
    }

    /** Puts the old value back, or removes the attribute if there was none. */
    method Undo(doc: Document, es: ExceptionState) returns (ok: bool)
      modifies doc, es
      ensures ok
      ensures hadAttribute ==>
        doc.tree == After(old(doc.tree), SetAttributeOutcome(old(doc.tree), element, name, Some(oldValue)))
        && es.thrown == Raise(old(es.thrown), SetAttributeOutcome(old(doc.tree), element, name, Some(oldValue)))
      ensures !hadAttribute ==>
        doc.tree == WithoutAttribute(old(doc.tree), element, name) && es.thrown == old(es.thrown)
    {
      if hadAttribute {
        doc.Apply(SetAttributeOutcome(doc.tree, element, name, Some(oldValue)), es);
      } else {
        doc.tree := WithoutAttribute(doc.tree, element, name);
      }
      return true;
    }

    /** Sets the new value; reports success even if that threw. */
    method Redo(doc: Document, es: ExceptionState) returns (ok: bool)
      modifies doc, es
      ensures ok
      ensures doc.tree == After(old(doc.tree), SetAttributeOutcome(old(doc.tree), element, name, Some(value)))
      ensures es.thrown == Raise(old(es.thrown), SetAttributeOutcome(old(doc.tree), element, name, Some(value)))
    {
      doc.Apply(SetAttributeOutcome(doc.tree, element, name, Some(value)), es);
      return true;
    }
  }

  /** Replaces a text node's whole text, remembering the old text. */
  class ReplaceWholeTextAction {
    const textNode: NodeId
    const text: string
    var oldText: string

    constructor(textNode: NodeId, text: string)
      ensures this.textNode == textNode && this.text == text && oldText == ""
    {
      this.textNode := textNode;
      this.text := text;
      oldText := "";
    }

    method Perform(doc: Document) returns (ok: bool)
      modifies this, doc
      ensures oldText == NodeValue(old(doc.tree), textNode)
      ensures ok && doc.tree == WithNodeValue(old(doc.tree), textNode, text)
    {
      oldText := NodeValue(doc.tree, textNode);
      ok := Redo(doc);
    }

    method Undo(doc: Document) returns (ok: bool)
      modifies doc
      ensures ok && doc.tree == WithNodeValue(old(doc.tree), textNode, oldText)
    {
      doc.tree := WithNodeValue(doc.tree, textNode, oldText);
      return true;
    }

    method Redo(doc: Document) returns (ok: bool)
      modifies doc
      ensures ok && doc.tree == WithNodeValue(old(doc.tree), textNode, text)
    {
      doc.tree := WithNodeValue(doc.tree, textNode, text);
      return true;
    }
  }

  /** Replaces one child by another; undo swaps them back. */
  class ReplaceChildNodeAction {
    const parent: NodeId
    const newNode: NodeId
    const oldNode: NodeId

    constructor(parent: NodeId, newNode: NodeId, oldNode: NodeId)
      ensures this.parent == parent && this.newNode == newNode && this.oldNode == oldNode
    {
      this.parent := parent;
      this.newNode := newNode;
      this.oldNode := oldNode;
    }

    method Perform(doc: Document, es: ExceptionState) returns (ok: bool)
      modifies doc, es
      ensures doc.tree == After(old(doc.tree), ReplaceChildOutcome(old(doc.tree), parent, newNode, oldNode))
      ensures es.thrown == Raise(old(es.thrown), ReplaceChildOutcome(old(doc.tree), parent, newNode, oldNode))
      ensures ok <==> es.thrown.None?
    {
      ok := Redo(doc, es);
    }

    method Undo(doc: Document, es: ExceptionState) returns (ok: bool)
      modifies doc, es
      ensures doc.tree == After(old(doc.tree), ReplaceChildOutcome(old(doc.tree), parent, oldNode, newNode))
      ensures es.thrown == Raise(old(es.thrown), ReplaceChildOutcome(old(doc.tree), parent, oldNode, newNode))
      ensures ok <==> es.thrown.None?
    {
      doc.Apply(ReplaceChildOutcome(doc.tree, parent, oldNode, newNode), es);
      ok := !es.HadException();
    }

    method Redo(doc: Document, es: ExceptionState) returns (ok: bool)
      modifies doc, es
      ensures doc.tree == After(old(doc.tree), ReplaceChildOutcome(old(doc.tree), parent, newNode, oldNode))
      ensures es.thrown == Raise(old(es.thrown), ReplaceChildOutcome(old(doc.tree), parent, newNode, oldNode))
      ensures ok <==> es.thrown.None?
    {
      doc.Apply(ReplaceChildOutcome(doc.tree, parent, newNode, oldNode), es);
      ok := !es.HadException();
    }
  }

  /** Sets a node's value, remembering the old one. */
  class SetNodeValueAction {
    const node: NodeId
    const value: string
    var oldValue: string

    constructor(node: NodeId, value: string)
      ensures this.node == node && this.value == value && oldValue == ""
    {
      this.node := node;
      this.value := value;
      oldValue := "";
    }

    method Perform(doc: Document) returns (ok: bool)
      modifies this, doc
      ensures oldValue == NodeValue(old(doc.tree), node)
      ensures ok && doc.tree == WithNodeValue(old(doc.tree), node, value)
    {
      oldValue := NodeValue(doc.tree, node);
      ok := Redo(doc);
    }

    method Undo(doc: Document) returns (ok: bool)
      modifies doc
      ensures ok && doc.tree == WithNodeValue(old(doc.tree), node, oldValue)
    {
      doc.tree := WithNodeValue(doc.tree, node, oldValue);
      return true;
    }

    method Redo(doc: Document) returns (ok: bool)
      modifies doc
      ensures ok && doc.tree == WithNodeValue(old(doc.tree), node, value)
    {
      doc.tree := WithNodeValue(doc.tree, node, value);
      return true;
    }
  }

  // ----- undo and redo round trips -----

  /** RemoveChildAction: undo puts the node back where it was, and redo
      after undo removes it again with the same result. */
  lemma RemoveChildUndoRedo(d: Dom, p: NodeId, n: NodeId)
    requires WellFormed(d)
    requires RemoveChildOutcome(d, p, n).Done?
    ensures var d1 := RemoveChildOutcome(d, p, n).dom;
      var o := InsertBeforeOutcome(d1, p, n, NextSibling(d, n));
      o == Done(d) && RemoveChildOutcome(o.dom, p, n) == Done(d1)
  {
    RemoveThenReinsert(d, p, n);
  }

  /** InsertBeforeAction: after a successful perform, undo's removeChild
      gives back the tree with the node detached, and the nested
      RemoveChildAction's undo then gives back the original tree; redo
      from there repeats perform's two steps. */
  lemma InsertBeforeUndoRedo(d: Dom, p: NodeId, n: NodeId, anchor: Option<NodeId>)
    requires WellFormed(d)
    requires InsertBeforeOutcome(Detach(d, n), p, n, anchor).Done?
    ensures var d1 := Detach(d, n);
      var d2 := InsertBeforeOutcome(d1, p, n, anchor).dom;
      RemoveChildOutcome(d2, p, n) == Done(d1)
      && (n in d.parent ==> InsertBeforeOutcome(d1, d.parent[n], n, NextSibling(d, n)) == Done(d)
                             && RemoveChildOutcome(d, d.parent[n], n) == Done(d1))
      && (n !in d.parent ==> d1 == d)
  {
    DetachPreservesWellFormed(d, n);
    InsertThenRemove(Detach(d, n), p, n, anchor);
    if n in d.parent {
      RemoveThenReinsert(d, d.parent[n], n);
    }
  }

  /** InsertBeforeAction is not atomic: when the insertion fails after the
      node was taken from its parent, the node stays detached although the
      action reports failure (and is therefore never undone). */
  lemma InsertBeforeFailureKeepsRemoval(d: Dom, p: NodeId, n: NodeId, anchor: Option<NodeId>)
    requires n in d.parent
    requires InsertBeforeOutcome(Detach(d, n), p, n, anchor).Thrown?
    ensures After(Detach(d, n), InsertBeforeOutcome(Detach(d, n), p, n, anchor)) != d
  {
    assert n !in Detach(d, n).parent;
  }

  /** SetAttributeAction: undo restores the attribute map whether or not the
      attribute existed (and also when the name was refused), and redo after
      undo sets the value again. */
  lemma SetAttributeUndoRedo(d: Dom, e: NodeId, name: string, value: string)
    ensures var previous := GetAttribute(d, e, name);
      var d1 := After(d, SetAttributeOutcome(d, e, name, Some(value)));
      var d2 := if previous.Some? then After(d1, SetAttributeOutcome(d1, e, name, previous))
        else WithoutAttribute(d1, e, name);
      d2 == d && After(d2, SetAttributeOutcome(d2, e, name, Some(value))) == d1
  {
    var previous := GetAttribute(d, e, name);
    if ValidName(name) && e in d.attributes {
      var m := d.attributes[e];
      var d1 := d.(attributes := d.attributes[e := m[name := value]]);
      assert After(d, SetAttributeOutcome(d, e, name, Some(value))) == d1;
      if previous.Some? {
        UpdateRestores(m, name, value);
        assert d1.attributes[e := m] == d.attributes;
      } else {
        AddRemoves(m, name, value);
        assert d1.attributes[e := m] == d.attributes;
      }
    } else if e in d.attributes && previous.None? {
      assert d.attributes[e] - {name} == d.attributes[e];
      assert d.attributes[e := d.attributes[e]] == d.attributes;
    }
  }

  /** RemoveAttributeAction: undo sets the recorded value back; when the
      attribute was absent the recorded value is null and undo removes
      nothing. Redo after undo removes it again. */
  lemma RemoveAttributeUndoRedo(d: Dom, e: NodeId, name: string)
    requires ValidName(name) || GetAttribute(d, e, name).None?
    ensures var d1 := WithoutAttribute(d, e, name);
      var d2 := After(d1, SetAttributeOutcome(d1, e, name, GetAttribute(d, e, name)));
      d2 == d && WithoutAttribute(d2, e, name) == d1
  {
    if e in d.attributes {
      var m := d.attributes[e];
      if name in m {
        RemoveRestores(m, name);
        assert d.attributes[e := m - {name}][e := m] == d.attributes;
      } else {
        assert m - {name} == m;
        assert d.attributes[e := m] == d.attributes;
      }
    }
  }

  /** The attribute an undone RemoveAttributeAction cannot bring back: one
      whose name setAttribute refuses. Undo still reports success. */
  lemma RemoveAttributeUndoLosesBadName(d: Dom, e: NodeId, name: string)
    requires !ValidName(name) && GetAttribute(d, e, name).Some?
    ensures var d1 := WithoutAttribute(d, e, name);
      var d2 := After(d1, SetAttributeOutcome(d1, e, name, GetAttribute(d, e, name)));
      GetAttribute(d2, e, name).None? && d2 != d
  {
  }

  /** SetNodeValueAction and ReplaceWholeTextAction: undo writes the
      recorded old value back, which restores the tree; redo after undo
      writes the new value again. */
  lemma NodeValueUndoRedo(d: Dom, n: NodeId, v: string)
    ensures var d1 := WithNodeValue(d, n, v);
      var d2 := WithNodeValue(d1, n, NodeValue(d, n));
      d2 == d && WithNodeValue(d2, n, v) == d1
  {
    if n in d.values {
      UpdateRestores(d.values, n, v);
    }
  }

  /** ReplaceChildNodeAction: with a new node that had no parent, undo swaps
      the two nodes back and redo after undo swaps them again. */
  lemma ReplaceChildUndoRedo(d: Dom, p: NodeId, newNode: NodeId, oldNode: NodeId)
    requires WellFormed(d) && newNode !in d.parent
    requires ReplaceChildOutcome(d, p, newNode, oldNode).Done?
    ensures var d1 := ReplaceChildOutcome(d, p, newNode, oldNode).dom;
      var o := ReplaceChildOutcome(d1, p, oldNode, newNode);
      o == Done(d) && ReplaceChildOutcome(o.dom, p, newNode, oldNode) == Done(d1)
  {
    ReplaceThenSwapBack(d, p, newNode, oldNode);
  }

  /** A new node taken from the same parent is not put back by undo:
      replacing child 2 of [1, 2] by child 1 leaves [1], and undo leaves [2]. */
  lemma ReplaceChildUndoDropsMovedNode()
    ensures var d := Dom(map[0 := [1, 2]], map[1 := 0, 2 := 0], map[], map[]);
      var d1 := After(d, ReplaceChildOutcome(d, 0, 1, 2));
      d1.children[0] == [1] && After(d1, ReplaceChildOutcome(d1, 0, 2, 1)).children[0] == [2]
  {
    var d := Dom(map[0 := [1, 2]], map[1 := 0, 2 := 0], map[], map[]);
    var d0 := Detach(d, 1);
    assert IndexOf([1, 2], 1) == 0;
    assert d0.children[0] == [2];
    assert IndexOf([2], 2) == 0;
    var d1 := After(d, ReplaceChildOutcome(d, 0, 1, 2));
    assert d1.children[0] == [1];
    assert IndexOf([1], 1) == 0;
  }

  /** Moving a node under its own child is refused: in the tree 1 → 2,
      inserting the root 1 into 2 throws a HierarchyRequestError, the tree
      is left alone and the editor answers with an error. */
  lemma InsertAncestorUnderDescendantFails()
    ensures var d := Dom(map[1 := [2], 2 := []], map[2 := 1], map[], map[]);
      var o := InsertBeforeOutcome(Detach(d, 1), 2, 1, None);
      o == Thrown(CannotContain) && After(Detach(d, 1), o) == d
      && ToResponse(Raise(None, o)).Error?
  {
  }

  /** Attribute names follow the XML name rule: a digit may not come
      first, while '-', '.' and digits may follow. */
  lemma AttributeNameExamples(d: Dom, e: NodeId)
    ensures SetAttributeOutcome(d, e, "1abc", Some("v")) == Thrown(BadName)
    ensures SetAttributeOutcome(d, e, "data-x.1", Some("v")).Done?
  {
  }

  // ----- the editor's entry points -----

  /** DOMEditor::insertBefore: performs an InsertBeforeAction with a fresh
      exception state and turns the outcome into a response. */
  method InsertBefore(doc: Document, p: NodeId, n: NodeId, anchor: Option<NodeId>) returns (r: Response)
    modifies doc
    ensures var d1 := Detach(old(doc.tree), n);
      var o := InsertBeforeOutcome(d1, p, n, anchor);
      doc.tree == After(d1, o) && r == ToResponse(Raise(None, o))
  {
    var es := new ExceptionState();
    var action := new InsertBeforeAction(p, n, anchor);
    var _ := action.Perform(doc, es);
    r := ToResponse(es.thrown);
  }

  /** DOMEditor::removeChild. */
  method RemoveChild(doc: Document, p: NodeId, n: NodeId) returns (r: Response)
    modifies doc
    ensures doc.tree == After(old(doc.tree), RemoveChildOutcome(old(doc.tree), p, n))
    ensures r == ToResponse(Raise(None, RemoveChildOutcome(old(doc.tree), p, n)))
  {
    var es := new ExceptionState();
    var action := new RemoveChildAction(p, n);
    var _ := action.Perform(doc, es);
    r := ToResponse(es.thrown);
  }

  /** DOMEditor::setAttribute: a refused name leaves the element alone and
      yields an error response. */
  method SetAttribute(doc: Document, e: NodeId, name: string, value: string) returns (r: Response)
    modifies doc
    ensures doc.tree == After(old(doc.tree), SetAttributeOutcome(old(doc.tree), e, name, Some(value)))
    ensures r == ToResponse(Raise(None, SetAttributeOutcome(old(doc.tree), e, name, Some(value))))
    ensures r.OK? <==> ValidName(name)
  {
    var es := new ExceptionState();
    var action := new SetAttributeAction(e, name, value);
    var _ := action.Perform(doc, es);
    r := ToResponse(es.thrown);
  }

  /** DOMEditor::removeAttribute: always OK. */
  method RemoveAttribute(doc: Document, e: NodeId, name: string) returns (r: Response)
    modifies doc
    ensures doc.tree == WithoutAttribute(old(doc.tree), e, name)
    ensures r == OK
  {
    var es := new ExceptionState();
    var action := new RemoveAttributeAction(e, name);
    var _ := action.Perform(doc, es);
    r := ToResponse(es.thrown);
  }

  /** DOMEditor::replaceWholeText: always OK. */
  method ReplaceWholeText(doc: Document, textNode: NodeId, text: string) returns (r: Response)
    modifies doc
    ensures doc.tree == WithNodeValue(old(doc.tree), textNode, text)
    ensures r == OK
  {
    var action := new ReplaceWholeTextAction(textNode, text);
    var _ := action.Perform(doc);
    r := OK;
  }

  /** DOMEditor::replaceChild (the overload reporting into the caller's
      exception state). */
  method ReplaceChild(doc: Document, p: NodeId, newNode: NodeId, oldNode: NodeId, es: ExceptionState)
    returns (ok: bool)
    modifies doc, es
    ensures doc.tree == After(old(doc.tree), ReplaceChildOutcome(old(doc.tree), p, newNode, oldNode))
    ensures es.thrown == Raise(old(es.thrown), ReplaceChildOutcome(old(doc.tree), p, newNode, oldNode))
    ensures ok <==> es.thrown.None?
  {
    var action := new ReplaceChildNodeAction(p, newNode, oldNode);
    ok := action.Perform(doc, es);
  }

  /** DOMEditor::setNodeValue: never fails. */
  method SetNodeValue(doc: Document, n: NodeId, value: string) returns (ok: bool)
    modifies doc
    ensures ok && doc.tree == WithNodeValue(old(doc.tree), n, value)
  {
    var action := new SetNodeValueAction(n, value);
    ok := action.Perform(doc);
  }
}
