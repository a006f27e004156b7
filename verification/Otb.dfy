/** The OTB node format: the tree parser, the unescaper and what they must give back. */
module Otb {
  import opened Options
  import opened Bytes
  import opened PropStreams

  const ESCAPE: Byte := 0xFD
  const START: Byte := 0xFE
  const END: Byte := 0xFF

  const WILDCARD: seq<Byte> := [0, 0, 0, 0]

  predicate Acceptable(contents: seq<Byte>, accepted: seq<Byte>) {
    |contents| > 7 && (contents[..4] == accepted || contents[..4] == WILDCARD)
  }

  // A parsed node by position: its properties are the bytes from `begin` up to `end`.
  datatype Span = Span(kind: Byte, begin: nat, end: nat, children: seq<Span>)

  // The properties of a node end at its first child or at its end mark, whichever comes first.
  function Marked(n: Span, pos: nat): Span {
    if n.children == [] then n.(end := pos) else n
  }

  function Opened(kind: Byte, begin: nat): Span {
    Span(kind, begin, 0, [])
  }

  // Recursive descent: reads on in an open node until it closes, and says where it closed.
  function ReadBody(b: seq<Byte>, pos: nat, n: Span): (r: Option<(Span, nat)>)
    ensures r.Some? ==> pos < r.value.1 <= |b|
    decreases |b| - pos
  {
    if pos >= |b| then None
    else if b[pos] == START then
      if pos + 1 >= |b| then None
      else
        match ReadBody(b, pos + 2, Opened(b[pos + 1], pos + 2))
        case None => None
        case Some((child, next)) => ReadBody(b, next, Adopt(Marked(n, pos), child))
    else if b[pos] == END then Some((Marked(n, pos), pos + 1))
    else if b[pos] == ESCAPE then
      if pos + 1 >= |b| then None else ReadBody(b, pos + 2, n)
    else ReadBody(b, pos + 1, n)
  }

  function Adopt(n: Span, child: Span): Span {
    n.(children := n.children + [child])
  }

  // After the root has closed only plain and escaped bytes may follow.
  predicate Trailing(b: seq<Byte>, pos: nat)
    decreases |b| - pos
  {
    pos >= |b|
    || (if b[pos] == START || b[pos] == END then false
        else if b[pos] == ESCAPE then pos + 1 < |b| && Trailing(b, pos + 2)
        else Trailing(b, pos + 1))
  }

  // The whole file, after the four identifier bytes.
  function ReadFile(b: seq<Byte>): Option<Span>
    requires |b| > 7
  {
    if b[4] != START then None
    else
      match ReadBody(b, 6, Opened(b[5], 6))
      case None => None
      case Some((root, next)) => if Trailing(b, next) then Some(root) else None
  }

  // What remains to happen when the nodes in `open` (outermost first) are still open.
  function Finish(b: seq<Byte>, pos: nat, open: seq<Span>, done: Span): Option<Span>
    decreases |open|
  {
    if open == [] then if Trailing(b, pos) then Some(done) else None
    else
      var k := |open| - 1;
      match ReadBody(b, pos, open[k])
      case None => None
      case Some((node, next)) => Finish(b, next, Closed(open, node), node)
  }

  // The stack after its top node closed as `node`: the node below adopts it.
  function Closed(open: seq<Span>, node: Span): (rest: seq<Span>)
    requires open != []
    ensures |rest| == |open| - 1
  {
    var k := |open| - 1;
    if k == 0 then [] else open[..k - 1] + [Adopt(open[k - 1], node)]
  }

  /** A node under construction; the parser's stack points at these. */
  class Node {
    var children: seq<Node>
    var propsBegin: nat
    var propsEnd: nat
    var kind: Byte

    constructor (kind: Byte, propsBegin: nat)
      ensures this.kind == kind && this.propsBegin == propsBegin
      ensures children == [] && propsEnd == 0
    {
      this.children, this.propsBegin, this.propsEnd, this.kind := [], propsBegin, 0, kind;
    }
  }

  // The objects from n down, all inside `nodes`, have the shape of t.
  ghost predicate Lays(n: Node, t: Span, nodes: set<Node>)
    reads nodes
    decreases t
  {
    && n in nodes
    && n.kind == t.kind && n.propsBegin == t.begin && n.propsEnd == t.end
    && LayAll(n.children, t.children, nodes)
  }

  ghost predicate LayAll(ns: seq<Node>, ts: seq<Span>, nodes: set<Node>)
    reads nodes
    decreases ts
  {
    && |ns| == |ts|
    && forall k | 0 <= k < |ts| :: Lays(ns[k], ts[k], nodes)
  }

  lemma {:induction false} LaysInMore(n: Node, t: Span, nodes: set<Node>, more: set<Node>)
    requires Lays(n, t, nodes) && nodes <= more
    ensures Lays(n, t, more)
    decreases t
  {
    LayAllInMore(n.children, t.children, nodes, more);
  }

  lemma {:induction false} LayAllInMore(ns: seq<Node>, ts: seq<Span>, nodes: set<Node>, more: set<Node>)
    requires LayAll(ns, ts, nodes) && nodes <= more
    ensures LayAll(ns, ts, more)
    decreases ts
  {
    forall k | 0 <= k < |ts| ensures Lays(ns[k], ts[k], more) {
      LaysInMore(ns[k], ts[k], nodes, more);
    }
  }

  // An open node on the stack: `t` is what is known of it. All its children are closed, but
  // for one when `above` is given: then that last child is the node above it on the stack.
  ghost predicate Holds(n: Node, t: Span, above: Option<Node>, closed: set<Node>)
    reads n, closed
  {
    && n !in closed
    && n.kind == t.kind && n.propsBegin == t.begin && n.propsEnd == t.end
    && |n.children| == |t.children| + (if above == None then 0 else 1)
    && (above.Some? ==> n.children[|t.children|] == above.value)
    && LayAll(n.children[..|t.children|], t.children, closed)
  }

  ghost predicate HoldsAt(stack: seq<Node>, open: seq<Span>, closed: set<Node>, i: nat)
    requires i < |stack| == |open|
    reads stack[i], closed
  {
    Holds(stack[i], open[i], if i + 1 < |stack| then Some(stack[i + 1]) else None, closed)
  }

  // The stack shape: every node on it is the last child of the one below.
  ghost predicate Stacked(stack: seq<Node>, open: seq<Span>, closed: set<Node>)
    reads stack, closed
  {
    && |stack| == |open|
    && (forall i, j | 0 <= i < j < |stack| :: stack[i] != stack[j])
    && forall i {:trigger HoldsAt(stack, open, closed, i)} | 0 <= i < |stack| :: HoldsAt(stack, open, closed, i)
  }

  function Pushed(open: seq<Span>, pos: nat, child: Span): seq<Span>
    requires open != []
  {
    open[..|open| - 1] + [Marked(open[|open| - 1], pos), child]
  }

  // A start mark: descending into the child first is the same as pushing it.
  lemma StartStep(b: seq<Byte>, pos: nat, open: seq<Span>, done: Span)
    requires open != [] && pos + 1 < |b| && b[pos] == START
    ensures Finish(b, pos, open, done) == Finish(b, pos + 2, Pushed(open, pos, Opened(b[pos + 1], pos + 2)), done)
  {
    var k := |open| - 1;
    var pushed := Pushed(open, pos, Opened(b[pos + 1], pos + 2));
    match ReadBody(b, pos + 2, Opened(b[pos + 1], pos + 2))
    case None =>
    case Some((child, next)) =>
      var back := Closed(pushed, child);
      assert back == open[..k] + [Adopt(Marked(open[k], pos), child)];
      assert forall node :: Closed(back, node) == Closed(open, node);
  }

  // Reading the file is finishing its root.
  lemma FirstStep(b: seq<Byte>, done: Span)
    requires |b| > 7 && b[4] == START
    ensures Finish(b, 6, [Opened(b[5], 6)], done) == ReadFile(b)
  {
  }

  // An end mark closes the top node; with none open it is an error.
  lemma EndStep(b: seq<Byte>, pos: nat, open: seq<Span>, done: Span)
    requires pos < |b| && b[pos] == END
    ensures Finish(b, pos, open, done) ==
      if open == [] then None
      else var node := Marked(open[|open| - 1], pos); Finish(b, pos + 1, Closed(open, node), node)
  {
  }

  // At the end of the file every node must be closed.
  lemma LastStep(b: seq<Byte>, open: seq<Span>, done: Span)
    ensures Finish(b, |b|, open, done) == if open == [] then Some(done) else None
  {
  }

  // Plain and escaped bytes are passed over, inside a node and after the root.
  lemma SkipStep(b: seq<Byte>, pos: nat, open: seq<Span>, done: Span)
    requires pos < |b| && b[pos] != START && b[pos] != END
    ensures b[pos] != ESCAPE ==> Finish(b, pos, open, done) == Finish(b, pos + 1, open, done)
    ensures b[pos] == ESCAPE ==>
      Finish(b, pos, open, done) == if pos + 1 < |b| then Finish(b, pos + 2, open, done) else None
  {
  }

  // The stack after a push, from what holds of its parts.
  lemma PushStacked(stack: seq<Node>, open: seq<Span>, closed: set<Node>, child: Node, pos: nat, t: Span)
    requires stack != [] && |stack| == |open| && child !in stack
    requires forall i, j | 0 <= i < j < |stack| :: stack[i] != stack[j]
    requires forall i | 0 <= i < |stack| - 1 :: HoldsAt(stack, open, closed, i)
    requires Holds(stack[|stack| - 1], Marked(open[|open| - 1], pos), Some(child), closed)
    requires Holds(child, t, None, closed)
    ensures Stacked(stack + [child], Pushed(open, pos, t), closed)
  {
    var k, stack', open' := |stack| - 1, stack + [child], Pushed(open, pos, t);
    forall i | 0 <= i < |stack'| ensures HoldsAt(stack', open', closed, i) {
      assert i < k ==> HoldsAt(stack, open, closed, i) && stack'[i + 1] == stack[i + 1];
    }
  }

  /** Reads one file's bytes into a tree of nodes, and property blocks into a buffer. */
  class Loader {
    const fileContents: seq<Byte>
    const root: Node
    var propBuffer: seq<Byte>

    constructor (contents: seq<Byte>)
      ensures fileContents == contents && fresh(root) && root.children == []
    {
      fileContents := contents;
      root := new Node(0, 0);
      propBuffer := [];
    }

    /** Takes a file for reading when it is long enough and carries the expected or the wildcard
        identifier. */
    static method Open(contents: seq<Byte>, acceptedIdentifier: seq<Byte>) returns (loader: Option<Loader>)
      requires |acceptedIdentifier| == 4
      ensures loader.Some? <==> Acceptable(contents, acceptedIdentifier)
      ensures loader.Some? ==> fresh(loader.value) && fresh(loader.value.root)
      ensures loader.Some? ==> loader.value.fileContents == contents && loader.value.root.children == []
    {
      if |contents| <= 4 + 1 + 1 + 1 {
        return None;
      }
      var fileIdentifier := contents[..4];
      if fileIdentifier != acceptedIdentifier && fileIdentifier != WILDCARD {
        return None;
      }
      var l := new Loader(contents);
      loader := Some(l);
    }

    // The start-mark arm: the top node's properties end here if this is its first child.
    method OpenChild(stack: seq<Node>, pos: nat, kind: Byte, ghost open: seq<Span>, ghost closed: set<Node>)
      returns (child: Node)
      requires stack != [] && Stacked(stack, open, closed)
      modifies stack[|stack| - 1]
      ensures fresh(child)
      ensures Stacked(stack + [child], Pushed(open, pos, Opened(kind, pos + 2)), closed)
    {
      ghost var k := |stack| - 1;
      assert HoldsAt(stack, open, closed, k);
      var currentNode := stack[|stack| - 1];
      if currentNode.children == [] {
        currentNode.propsEnd := pos;
      }
      child := new Node(kind, pos + 2);
      currentNode.children := currentNode.children + [child];
      assert currentNode.children[..|currentNode.children| - 1] == old(currentNode.children);
      assert old(currentNode.children[..|currentNode.children|]) == old(currentNode.children);
      assert forall i | 0 <= i < k :: HoldsAt(stack, open, closed, i);
      PushStacked(stack, open, closed, child, pos, Opened(kind, pos + 2));
    }

    // The end-mark arm.
    method CloseTop(stack: seq<Node>, pos: nat, ghost open: seq<Span>, ghost closed: set<Node>)
      requires stack != [] && Stacked(stack, open, closed)
      modifies stack[|stack| - 1]
      ensures var node := Marked(open[|open| - 1], pos); var more := closed + {stack[|stack| - 1]};
        && Lays(stack[|stack| - 1], node, more)
        && Stacked(stack[..|stack| - 1], Closed(open, node), more)
    {
      ghost var k := |stack| - 1;
      assert HoldsAt(stack, open, closed, k);
      var currentNode := stack[|stack| - 1];
      if currentNode.children == [] {
        currentNode.propsEnd := pos;
      }
      ghost var node, more := Marked(open[k], pos), closed + {currentNode};
      assert currentNode.children == currentNode.children[..|node.children|];
      LayAllInMore(currentNode.children, node.children, closed, more);
      ghost var stack', open' := stack[..k], Closed(open, node);
      forall i | 0 <= i < |stack'| ensures HoldsAt(stack', open', more, i) {
        assert HoldsAt(stack, open, closed, i);
        LayAllInMore(stack[i].children[..|open[i].children|], open[i].children, closed, more);
      }
    }

    method ParseTree() returns (ok: bool, ghost nodes: set<Node>)
      requires |fileContents| > 7 && root.children == []
      modifies root
      ensures ok == ReadFile(fileContents).Some?
      ensures ok ==> Lays(root, ReadFile(fileContents).value, nodes)
    {
      var it := 4;
      nodes := {};
      if fileContents[it] != START {
        return false, nodes;
      }
      it := it + 1;
      root.kind := fileContents[it];
      it := it + 1;
      root.propsBegin, root.propsEnd := it, 0;
      var parseStack := [root];
      ghost var open := [Opened(root.kind, it)];
      ghost var done, want := open[0], ReadFile(fileContents);
      FirstStep(fileContents, done);
      while it < |fileContents|
        invariant it <= |fileContents|
        invariant Stacked(parseStack, open, nodes)
        invariant parseStack == [] ==> Lays(root, done, nodes)
        invariant forall i | 0 <= i < |parseStack| :: parseStack[i] == root || fresh(parseStack[i])
        invariant parseStack == [] || parseStack[0] == root
        invariant Finish(fileContents, it, open, done) == want
      {
        if fileContents[it] == START {
          if parseStack == [] {
            return false, nodes;
          }
          if it + 1 == |fileContents| {
            return false, nodes;
          }
          StartStep(fileContents, it, open, done);
          var child := OpenChild(parseStack, it, fileContents[it + 1], open, nodes);
          open := Pushed(open, it, Opened(fileContents[it + 1], it + 2));
          parseStack := parseStack + [child];
          it := it + 1;
        } else if fileContents[it] == END {
          EndStep(fileContents, it, open, done);
          if parseStack == [] {
            return false, nodes;
          }
          CloseTop(parseStack, it, open, nodes);
          ghost var node := Marked(open[|open| - 1], it);
          nodes := nodes + {parseStack[|parseStack| - 1]};
          open, done := Closed(open, node), node;
          parseStack := parseStack[..|parseStack| - 1];
        } else {
          SkipStep(fileContents, it, open, done);
          if fileContents[it] == ESCAPE {
            it := it + 1;
            if it == |fileContents| {
              return false, nodes;
            }
          }
        }
        it := it + 1;
      }
      LastStep(fileContents, open, done);
      ok := parseStack == [];
    }

    /** Fills the buffer with the node's unescaped properties; nothing to read when there are none. */
    method GetProps(node: Node, props: PropStream) returns (ok: bool)
      requires node.propsBegin <= node.propsEnd <= |fileContents|
      modifies this, props
      ensures var raw := fileContents[node.propsBegin..node.propsEnd];
        && ok == (raw != [])
        && (if ok then props.Valid() && props.Rest() == Unescape(raw)
            else props.buffer == old(props.buffer) && props.p == old(props.p) && props.end == old(props.end))
    {
      var size := node.propsEnd - node.propsBegin;
      if size == 0 {
        return false;
      }
      var raw := fileContents[node.propsBegin..node.propsEnd];
      var lastEscaped := false;
      propBuffer := [];
      for i := 0 to size
        invariant Copied(raw, i, lastEscaped, propBuffer)
      {
        CopyByte(raw, i, lastEscaped, propBuffer);
        lastEscaped := raw[i] == ESCAPE && !lastEscaped;
        if !lastEscaped {
          propBuffer := propBuffer + [raw[i]];
        }
      }
      CopyEnd(raw, lastEscaped, propBuffer);
      props.Init(propBuffer, |propBuffer|);
      ok := true;
    }
  }

  // The bytes an escaped block stands for; a lone escape at the end stands for nothing.
  function Unescape(s: seq<Byte>): seq<Byte> {
    if s == [] then []
    else if s[0] != ESCAPE then [s[0]] + Unescape(s[1..])
    else if |s| == 1 then []
    else [s[1]] + Unescape(s[2..])
  }

  // Reading on after an escape takes the next byte as it is.
  function Resume(escaped: bool, s: seq<Byte>): seq<Byte> {
    if escaped && s != [] then [s[0]] + Unescape(s[1..]) else Unescape(s)
  }

  // The first i bytes have been copied, and what is still to come completes them.
  ghost predicate Copied(raw: seq<Byte>, i: nat, escaped: bool, out: seq<Byte>) {
    i <= |raw| && Unescape(raw) == out + Resume(escaped, raw[i..])
  }

  // One byte on: dropped when it is an escape that is not itself escaped.
  lemma CopyByte(raw: seq<Byte>, i: nat, escaped: bool, out: seq<Byte>)
    requires i < |raw| && Copied(raw, i, escaped, out)
    ensures var now := raw[i] == ESCAPE && !escaped;
      Copied(raw, i + 1, now, if now then out else out + [raw[i]])
  {
  }

  lemma CopyEnd(raw: seq<Byte>, escaped: bool, out: seq<Byte>)
    requires Copied(raw, |raw|, escaped, out)
    ensures out == Unescape(raw)
  {
  }
}
