/** Admission of decoded JSON: an explicit stack finds the first node that cannot enter local text surfaces. */
module JsonAdmission {
  import opened Common
  import opened JsonTree

  const MAX_DEPTH: nat := 128

  /** UTF-8 has no encoding for surrogates. */
  predicate Encodable(text: Text) {
    forall c :: c in text ==> !(0xD800 <= c <= 0xDFFF)
  }

  function MemberNodes(members: seq<(Text, Json)>): (kids: seq<Json>)
    ensures |kids| == 2 * |members|
  {
    if members == [] then [] else [Str(members[0].0), members[0].1] + MemberNodes(members[1..])
  }

  /** The nodes below a value, in order; an object's keys are nodes, each before its value. */
  function Kids(v: Json): seq<Json> {
    match v
    case Array(items) => items
    case Object(members) => MemberNodes(members)
    case _ => []
  }

  /** A node's position: which child to take at every level. */
  type Path = seq<nat>

  function NodeAt(v: Json, path: Path): Option<Json>
    decreases |path|
  {
    if path == [] then Some(v)
    else if path[0] < |Kids(v)| then NodeAt(Kids(v)[path[0]], path[1..])
    else None
  }

  predicate BadText(v: Json) {
    v.Str? && !Encodable(v.text)
  }

  /** There is a node at this position, and it is too deep or cannot be encoded. */
  predicate Offends(v: Json, path: Path, depth: nat) {
    NodeAt(v, path).Some? && (depth + |path| > MAX_DEPTH || BadText(NodeAt(v, path).value))
  }

  /** Left-to-right pre-order: a node before the nodes below it, and those before the ones to their right. */
  predicate Before(p: Path, q: Path) {
    q != [] && (p == [] || p[0] < q[0] || (p[0] == q[0] && Before(p[1..], q[1..])))
  }

  /** Of two different positions exactly one is before the other, and none is before itself. */
  lemma {:induction false} BeforeIsStrict(p: Path, q: Path)
    ensures Before(p, q) || Before(q, p) || p == q
    ensures !(Before(p, q) && Before(q, p)) && (p == q ==> !Before(p, q))
  {
    if p != [] && q != [] && p[0] == q[0] {
      BeforeIsStrict(p[1..], q[1..]);
      assert p == [p[0]] + p[1..] && q == [q[0]] + q[1..];
    }
  }

  // ---- the recursive definition ----

  /** The first offending node of a tree whose root is at the given depth. */
  function First(v: Json, depth: nat): Option<Path>
    decreases MAX_DEPTH + 1 - depth, 0
  {
    if depth > MAX_DEPTH || BadText(v) then Some([]) else FirstBelow(Kids(v), 0, depth + 1)
  }

  function FirstBelow(kids: seq<Json>, i: nat, depth: nat): Option<Path>
    requires i <= |kids| && depth <= MAX_DEPTH + 1
    decreases MAX_DEPTH + 1 - depth, |kids| - i + 1
  {
    if i == |kids| then None
    else
      var found := First(kids[i], depth);
      if found.Some? then Some([i] + found.value) else FirstBelow(kids, i + 1, depth)
  }

  /**
   A tree is accepted exactly if no node offends; otherwise the node found offends, before
   every other one that does.
   */
  lemma FirstIsFirst(v: Json, depth: nat)
    requires depth <= MAX_DEPTH + 1
    ensures First(v, depth).None? ==> forall q :: !Offends(v, q, depth)
    ensures First(v, depth).Some? ==> Offends(v, First(v, depth).value, depth)
    ensures First(v, depth).Some? ==>
      forall q :: Offends(v, q, depth) ==> q == First(v, depth).value || Before(First(v, depth).value, q)
    decreases MAX_DEPTH + 1 - depth, 0
  {
    if depth > MAX_DEPTH || BadText(v) {
      assert Offends(v, [], depth);
    } else {
      FirstBelowIsFirst(Kids(v), 0, depth + 1);
      var found := FirstBelow(Kids(v), 0, depth + 1);
      forall q | Offends(v, q, depth)
        ensures found.Some? && (q == found.value || Before(found.value, q))
      {
        assert OffendsBelow(Kids(v), q, depth + 1);
      }
      if found.Some? {
        assert OffendsBelow(Kids(v), found.value, depth + 1);
      }
    }
  }

  predicate OffendsBelow(kids: seq<Json>, path: Path, depth: nat) {
    path != [] && path[0] < |kids| && Offends(kids[path[0]], path[1..], depth)
  }

  lemma {:induction false} FirstBelowIsFirst(kids: seq<Json>, i: nat, depth: nat)
    requires i <= |kids| && depth <= MAX_DEPTH + 1
    ensures var found := FirstBelow(kids, i, depth);
      (found.Some? ==> OffendsBelow(kids, found.value, depth) && found.value[0] >= i) &&
      (forall q :: OffendsBelow(kids, q, depth) && q[0] >= i ==>
        found.Some? && (q == found.value || Before(found.value, q)))
    decreases MAX_DEPTH + 1 - depth, |kids| - i + 1
  {
    if i == |kids| {
    } else {
      FirstIsFirst(kids[i], depth);
      FirstBelowIsFirst(kids, i + 1, depth);
      var here := First(kids[i], depth);
      if here.Some? {
        assert ([i] + here.value)[1..] == here.value;
        forall q | OffendsBelow(kids, q, depth) && q[0] >= i
          ensures q == [i] + here.value || Before([i] + here.value, q)
        {
          if q[0] == i {
            assert Offends(kids[i], q[1..], depth) && q == [i] + q[1..];
          }
        }
      } else {
        assert forall q :: OffendsBelow(kids, q, depth) && q[0] >= i ==> q[0] >= i + 1;
      }
    }
  }

  // ---- what is accepted, by the structure of the value ----

  /** No surrogate in any string or key, and nothing below level 128; keys are one level below their object. */
  predicate Safe(v: Json, depth: nat)
    decreases v
  {
    depth <= 128 &&
    match v
    case Str(text) => forall c :: c in text ==> c < 0xD800 || 0xDFFF < c
    case Array(items) => forall i :: 0 <= i < |items| ==> Safe(items[i], depth + 1)
    case Object(members) =>
      forall i :: 0 <= i < |members| ==>
        (forall c :: c in members[i].0 ==> c < 0xD800 || 0xDFFF < c) && Safe(members[i].1, depth + 1)
    case _ => true
  }

  lemma {:induction false} MemberNodesAt(members: seq<(Text, Json)>, i: nat)
    requires i < |members|
    ensures MemberNodes(members)[2 * i] == Str(members[i].0) && MemberNodes(members)[2 * i + 1] == members[i].1
  {
    if i == 0 {
    } else {
      MemberNodesAt(members[1..], i - 1);
    }
  }

  ghost predicate NoneFrom(kids: seq<Json>, i: nat, depth: nat)
    requires depth <= MAX_DEPTH + 1
  {
    forall k :: i <= k < |kids| ==> First(kids[k], depth).None?
  }

  lemma {:induction false} NoneFromNext(kids: seq<Json>, i: nat, depth: nat)
    requires i < |kids| && depth <= MAX_DEPTH + 1
    ensures NoneFrom(kids, i, depth) <==> First(kids[i], depth).None? && NoneFrom(kids, i + 1, depth)
  {
  }

  lemma {:induction false} NoneBelowIff(kids: seq<Json>, i: nat, depth: nat)
    requires i <= |kids| && depth <= MAX_DEPTH + 1
    ensures FirstBelow(kids, i, depth).None? <==> NoneFrom(kids, i, depth)
    decreases |kids| - i
  {
    if i == |kids| {
    } else {
      NoneBelowIff(kids, i + 1, depth);
      NoneFromNext(kids, i, depth);
    }
  }

  ghost predicate AllSafe(kids: seq<Json>, depth: nat) {
    forall k :: 0 <= k < |kids| ==> Safe(kids[k], depth)
  }

  /** Exactly the safe values are accepted. */
  lemma {:induction false} AcceptedIffSafe(v: Json, depth: nat)
    requires depth <= MAX_DEPTH + 1
    ensures First(v, depth).None? <==> Safe(v, depth)
    decreases MAX_DEPTH + 1 - depth
  {
    if depth <= MAX_DEPTH {
      var kids := Kids(v);
      NoneBelowIff(kids, 0, depth + 1);
      forall k | 0 <= k < |kids|
        ensures First(kids[k], depth + 1).None? <==> Safe(kids[k], depth + 1)
      {
        AcceptedIffSafe(kids[k], depth + 1);
      }
      SafeIffKidsAre(v, depth);
    }
  }

  /** A value is safe if its own text is and everything directly below it. */
  lemma {:induction false} SafeIffKidsAre(v: Json, depth: nat)
    requires depth <= MAX_DEPTH
    ensures Safe(v, depth) <==> !BadText(v) && AllSafe(Kids(v), depth + 1)
  {
    if v.Object? {
      MembersSafe(v.members, depth + 1);
    }
  }

  /** All nodes of an object's members are safe exactly if its keys and its values are. */
  lemma {:induction false} MembersSafe(members: seq<(Text, Json)>, depth: nat)
    ensures AllSafe(MemberNodes(members), depth) <==>
      forall i :: 0 <= i < |members| ==> Safe(Str(members[i].0), depth) && Safe(members[i].1, depth)
  {
    var kids := MemberNodes(members);
    if AllSafe(kids, depth) {
      forall i | 0 <= i < |members|
        ensures Safe(Str(members[i].0), depth) && Safe(members[i].1, depth)
      {
        MemberNodesAt(members, i);
        assert Safe(kids[2 * i], depth) && Safe(kids[2 * i + 1], depth);
      }
    }
    if forall i :: 0 <= i < |members| ==> Safe(Str(members[i].0), depth) && Safe(members[i].1, depth) {
      forall k | 0 <= k < |kids|
        ensures Safe(kids[k], depth)
      {
        MemberNodesAt(members, k / 2);
        assert k == 2 * (k / 2) || k == 2 * (k / 2) + 1;
      }
    }
  }

  // ---- the explicit stack ----

  datatype Frame = Frame(value: Json, path: Path, depth: nat)

  /** What the stack will find: its last frame is looked at first. */
  function Explore(stack: seq<Frame>): Option<Path> {
    if stack == [] then None
    else
      var top := stack[|stack| - 1];
      var found := First(top.value, top.depth);
      if found.Some? then Some(top.path + found.value) else Explore(stack[..|stack| - 1])
  }

  /** The children of a frame from the i-th on, pushed in reverse. */
  function Pushed(f: Frame, i: nat): (frames: seq<Frame>)
    requires i <= |Kids(f.value)|
    decreases |Kids(f.value)| - i
  {
    if i == |Kids(f.value)| then []
    else Pushed(f, i + 1) + [Frame(Kids(f.value)[i], f.path + [i], f.depth + 1)]
  }

  lemma PushingChildren(stack: seq<Frame>, f: Frame, i: nat)
    requires i <= |Kids(f.value)| && f.depth <= MAX_DEPTH
    ensures var below := FirstBelow(Kids(f.value), i, f.depth + 1);
      Explore(stack + Pushed(f, i)) == if below.Some? then Some(f.path + below.value) else Explore(stack)
    decreases |Kids(f.value)| - i
  {
    var kids := Kids(f.value);
    if i == |kids| {
      assert stack + Pushed(f, i) == stack;
    } else {
      PushingChildren(stack, f, i + 1);
      var frames := stack + Pushed(f, i);
      assert frames[..|frames| - 1] == stack + Pushed(f, i + 1);
      var found := First(kids[i], f.depth + 1);
      if found.Some? {
        assert f.path + [i] + found.value == f.path + ([i] + found.value);
      }
    }
  }

  // ---- termination: how many nodes there are ----

  function Size(v: Json): nat
    decreases v
  {
    match v
    case Array(items) => 1 + ItemSizes(items)
    case Object(members) => 1 + MemberSizes(members)
    case _ => 1
  }

  function ItemSizes(items: seq<Json>): nat
    decreases items
  {
    if items == [] then 0 else Size(items[0]) + ItemSizes(items[1..])
  }

  function MemberSizes(members: seq<(Text, Json)>): nat
    decreases members
  {
    if members == [] then 0 else MemberSize(members[0]) + MemberSizes(members[1..])
  }

  function MemberSize(member: (Text, Json)): nat
    decreases member
  {
    match member
    case (_, value) => 1 + Size(value)
  }

  lemma {:induction false} MemberNodeSizes(members: seq<(Text, Json)>)
    ensures ItemSizes(MemberNodes(members)) == MemberSizes(members)
  {
    if members == [] {
    } else {
      var kids := MemberNodes(members);
      MemberNodeSizes(members[1..]);
      assert kids[1..][0] == members[0].1 && kids[1..][1..] == MemberNodes(members[1..]);
    }
  }

  lemma KidsAreSmaller(v: Json)
    ensures ItemSizes(Kids(v)) == Size(v) - 1
  {
    if v.Object? {
      MemberNodeSizes(v.members);
    }
  }

  function StackSize(stack: seq<Frame>): nat {
    if stack == [] then 0 else StackSize(stack[..|stack| - 1]) + Size(stack[|stack| - 1].value)
  }

  lemma {:induction false} PushedSize(stack: seq<Frame>, f: Frame, i: nat)
    requires i <= |Kids(f.value)|
    ensures StackSize(stack + Pushed(f, i)) == StackSize(stack) + ItemSizes(Kids(f.value)[i..])
    decreases |Kids(f.value)| - i
  {
    if i == |Kids(f.value)| {
      assert stack + Pushed(f, i) == stack;
    } else {
      PushedSize(stack, f, i + 1);
      var child := Frame(Kids(f.value)[i], f.path + [i], f.depth + 1);
      assert stack + Pushed(f, i) == stack + Pushed(f, i + 1) + [child];
      StackSizeAppend(stack + Pushed(f, i + 1), child);
      ItemSizesFirst(Kids(f.value), i);
    }
  }

  lemma StackSizeAppend(stack: seq<Frame>, f: Frame)
    ensures StackSize(stack + [f]) == StackSize(stack) + Size(f.value)
  {
    assert (stack + [f])[..|stack|] == stack;
  }

  lemma ItemSizesFirst(kids: seq<Json>, i: nat)
    requires i < |kids|
    ensures ItemSizes(kids[i..]) == Size(kids[i]) + ItemSizes(kids[i + 1..])
  {
    assert kids[i..][0] == kids[i] && kids[i..][1..] == kids[i + 1..];
  }

  datatype Verdict = Accepted | TooDeep(path: Path) | UnsafeText(path: Path)

  /** Accepted if no node offends; else the first one that does, and why. */
  ghost predicate Right(root: Json, verdict: Verdict) {
    match verdict
    case Accepted => forall path :: !Offends(root, path, 0)
    case TooDeep(path) => FirstOffence(root, path) && |path| > MAX_DEPTH
    case UnsafeText(path) => FirstOffence(root, path) && |path| <= MAX_DEPTH
  }

  ghost predicate FirstOffence(root: Json, path: Path) {
    Offends(root, path, 0) && forall q :: Offends(root, q, 0) ==> q == path || Before(path, q)
  }

  /** What the recursive definition says of a verdict. */
  predicate Agrees(found: Option<Path>, verdict: Verdict) {
    match verdict
    case Accepted => found.None?
    case TooDeep(path) => found == Some(path) && |path| > MAX_DEPTH
    case UnsafeText(path) => found == Some(path) && |path| <= MAX_DEPTH
  }

  /** `_validate_parsed_text`, with a verdict for its exceptions. */
  method Validate(root: Json) returns (verdict: Verdict)
    ensures Agrees(First(root, 0), verdict) && Right(root, verdict)
    ensures verdict.Accepted? <==> Safe(root, 0)
  {
    FirstIsFirst(root, 0);
    AcceptedIffSafe(root, 0);
    verdict := Search(root);
  }

  /** Its loop: the explicit stack finds what the recursive definition finds. */
  method Search(root: Json) returns (verdict: Verdict)
    ensures Agrees(First(root, 0), verdict)
  {
    var stack := [Frame(root, [], 0)];
    ExploreLast([], Frame(root, [], 0));
    while stack != []
      invariant Explore(stack) == First(root, 0)
      invariant forall f :: f in stack ==> f.depth == |f.path| && f.depth <= MAX_DEPTH + 1
      decreases StackSize(stack)
    {
      var current := stack[|stack| - 1];
      stack := stack[..|stack| - 1];
      if current.depth > MAX_DEPTH {
        assert current.path + [] == current.path;
        return TooDeep(current.path);
      }
      if BadText(current.value) {
        assert current.path + [] == current.path;
        return UnsafeText(current.path);
      }
      PushingChildren(stack, current, 0);
      PushedSize(stack, current, 0);
      KidsAreSmaller(current.value);
      var children := PushChildren(current);
      stack := stack + children;
    }
    return Accepted;
  }

  lemma ExploreLast(stack: seq<Frame>, f: Frame)
    requires Explore(stack).None? && f.path == []
    ensures Explore(stack + [f]) == First(f.value, f.depth)
  {
    var frames := stack + [f];
    assert frames[..|frames| - 1] == stack;
    if First(f.value, f.depth).Some? {
      assert [] + First(f.value, f.depth).value == First(f.value, f.depth).value;
    }
  }

  /** The children of an array or an object, last child first. */
  method PushChildren(f: Frame) returns (frames: seq<Frame>)
    requires f.depth == |f.path| <= MAX_DEPTH
    ensures frames == Pushed(f, 0)
    ensures forall x :: x in frames ==> x.depth == |x.path| && x.depth <= MAX_DEPTH + 1
  {
    var kids := Kids(f.value);
    var i: nat := |kids|;
    frames := [];
    while i > 0
      invariant i <= |kids| && frames == Pushed(f, i)
      invariant forall x :: x in frames ==> x.depth == |x.path| && x.depth <= MAX_DEPTH + 1
    {
      i := i - 1;
      frames := frames + [Frame(kids[i], f.path + [i], f.depth + 1)];
    }
  }
}
