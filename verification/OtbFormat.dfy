/** What the OTB parser must do: invert the encoder, and accept exactly the balanced files. */
module OtbFormat {
  import opened Options
  import opened Bytes
  import opened Otb

  datatype Tree = Tree(kind: Byte, props: seq<Byte>, children: seq<Tree>)

  function Escape(props: seq<Byte>): (s: seq<Byte>)
    ensures |s| >= |props|
    ensures s == [] <==> props == []
  {
    if props == [] then []
    else (if props[0] >= ESCAPE then [ESCAPE, props[0]] else [props[0]]) + Escape(props[1..])
  }

  function Encode(t: Tree): (s: seq<Byte>)
    ensures |s| >= 3 + |t.props| + |t.children|
  {
    [START, t.kind] + (Escape(t.props) + (EncodeAll(t.children) + [END]))
  }

  function EncodeAll(ts: seq<Tree>): (s: seq<Byte>)
    ensures |s| >= |ts|
    ensures ts == [] ==> s == []
  {
    if ts == [] then [] else Encode(ts[0]) + EncodeAll(ts[1..])
  }

  lemma {:induction false} UnescapeEscape(props: seq<Byte>)
    ensures Unescape(Escape(props)) == props
  {
    if props != [] {
      UnescapeEscape(props[1..]);
      var s, rest := Escape(props), Escape(props[1..]);
      if props[0] >= ESCAPE {
        assert s[2..] == rest;
      } else {
        assert s[1..] == rest;
      }
    }
  }

  // The bytes s stand in b at pos.
  predicate At(b: seq<Byte>, pos: nat, s: seq<Byte>) {
    pos + |s| <= |b| && b[pos..pos + |s|] == s
  }

  lemma AtSplit(b: seq<Byte>, pos: nat, s: seq<Byte>, t: seq<Byte>)
    requires At(b, pos, s + t)
    ensures At(b, pos, s) && At(b, pos + |s|, t)
  {
    var whole := b[pos..pos + |s + t|];
    assert b[pos..pos + |s|] == whole[..|s|] == s;
    assert b[pos + |s|..pos + |s| + |t|] == whole[|s|..] == t;
  }

  lemma AtByte(b: seq<Byte>, pos: nat, s: seq<Byte>, i: nat)
    requires At(b, pos, s) && i < |s|
    ensures b[pos + i] == s[i]
  {
  }

  // Reading on in n at pos ends with n as m, at next.
  predicate Reads(b: seq<Byte>, pos: nat, n: Span, m: Span, next: nat) {
    ReadBody(b, pos, n) == Some((m, next))
  }

  // Escaped properties are passed over without a mark being seen.
  lemma {:induction false} PassProps(b: seq<Byte>, pos: nat, props: seq<Byte>, n: Span, m: Span, next: nat)
    requires At(b, pos, Escape(props))
    requires Reads(b, pos + |Escape(props)|, n, m, next)
    ensures Reads(b, pos, n, m, next)
    decreases props
  {
    if props != [] {
      var head := if props[0] >= ESCAPE then [ESCAPE, props[0]] else [props[0]];
      AtByte(b, pos, Escape(props), 0);
      AtSplit(b, pos, head, Escape(props[1..]));
      PassProps(b, pos + |head|, props[1..], n, m, next);
    }
  }

  // Where the parser must place a tree whose encoding starts at `at`.
  function Placed(t: Tree, at: nat): Span {
    var end := at + 2 + |Escape(t.props)|;
    Span(t.kind, at + 2, end, PlacedAll(t.children, end))
  }

  function PlacedAll(ts: seq<Tree>, at: nat): (spans: seq<Span>)
    ensures |spans| == |ts|
  {
    if ts == [] then [] else [Placed(ts[0], at)] + PlacedAll(ts[1..], at + |Encode(ts[0])|)
  }

  // A node in four parts, whatever they hold.
  lemma Parts(b: seq<Byte>, at: nat, kind: Byte, props: seq<Byte>, children: seq<Byte>)
    requires At(b, at, [START, kind] + (props + (children + [END])))
    ensures at + 1 < |b| && b[at] == START && b[at + 1] == kind
    ensures At(b, at + 2, props)
    ensures At(b, at + 2 + |props|, children + [END])
  {
    var head, rest := [START, kind], props + (children + [END]);
    AtSplit(b, at, head, rest);
    AtByte(b, at, head, 0);
    AtByte(b, at, head, 1);
    AtSplit(b, at + 2, props, children + [END]);
  }

  // The parts of an encoded node, where they stand.
  lemma NodeParts(b: seq<Byte>, at: nat, t: Tree)
    requires At(b, at, Encode(t))
    ensures at + 1 < |b| && b[at] == START && b[at + 1] == t.kind
    ensures At(b, at + 2, Escape(t.props))
    ensures AtChildren(b, at + 2 + |Escape(t.props)|, t.children)
    ensures |Encode(t)| == 3 + |Escape(t.props)| + |EncodeAll(t.children)|
  {
    Parts(b, at, t.kind, Escape(t.props), EncodeAll(t.children));
  }

  lemma ReadChild(b: seq<Byte>, pos: nat, n: Span, kind: Byte, child: Span, next: nat, m: Span, after: nat)
    requires pos + 1 < |b| && b[pos] == START && b[pos + 1] == kind
    requires Reads(b, pos + 2, Opened(kind, pos + 2), child, next)
    requires Reads(b, next, Adopt(Marked(n, pos), child), m, after)
    ensures Reads(b, pos, n, m, after)
  {
  }

  // n once it has read the children ts from pos on.
  function WithAll(n: Span, ts: seq<Tree>, pos: nat): Span {
    Marked(n, pos).(children := n.children + PlacedAll(ts, pos))
  }

  lemma WithNone(n: Span, pos: nat)
    ensures WithAll(n, [], pos) == Marked(n, pos)
  {
  }

  lemma WithMore(n: Span, ts: seq<Tree>, pos: nat, next: nat)
    requires ts != [] && next == pos + |Encode(ts[0])|
    ensures WithAll(Adopt(Marked(n, pos), Placed(ts[0], pos)), ts[1..], next) == WithAll(n, ts, pos)
  {
    var child, rest := Placed(ts[0], pos), PlacedAll(ts[1..], next);
    assert PlacedAll(ts, pos) == [child] + rest;
    assert (n.children + [child]) + rest == n.children + ([child] + rest);
  }

  lemma WhollyPlaced(t: Tree, at: nat, pos: nat)
    requires pos == at + 2 + |Escape(t.props)|
    ensures WithAll(Opened(t.kind, at + 2), t.children, pos) == Placed(t, at)
    ensures After(pos, t.children) == at + |Encode(t)|
  {
  }

  // One child read, then the rest, named by what they come to.
  lemma ReadOneMore(b: seq<Byte>, pos: nat, n: Span, ts: seq<Tree>, next: nat, m: Span, after: nat)
    requires ts != [] && At(b, pos, Encode(ts[0])) && next == pos + |Encode(ts[0])|
    requires Reads(b, pos + 2, Opened(ts[0].kind, pos + 2), Placed(ts[0], pos), next)
    requires Reads(b, next, Adopt(Marked(n, pos), Placed(ts[0], pos)), m, after)
    ensures Reads(b, pos, n, m, after)
  {
    NodeParts(b, pos, ts[0]);
    ReadChild(b, pos, n, ts[0].kind, Placed(ts[0], pos), next, m, after);
  }

  // From the properties of a node on to its children.
  lemma ReadProps(b: seq<Byte>, at: nat, t: Tree, pos: nat, m: Span, after: nat)
    requires At(b, at, Encode(t)) && pos == at + 2 + |Escape(t.props)|
    requires Reads(b, pos, Opened(t.kind, at + 2), m, after)
    ensures Reads(b, at + 2, Opened(t.kind, at + 2), m, after)
  {
    NodeParts(b, at, t);
    PassProps(b, at + 2, t.props, Opened(t.kind, at + 2), m, after);
  }

  // The encoded children ts stand at pos, and the end mark of their parent after them.
  predicate AtChildren(b: seq<Byte>, pos: nat, ts: seq<Tree>) {
    At(b, pos, EncodeAll(ts) + [END])
  }

  lemma NoChildren(b: seq<Byte>, pos: nat)
    requires AtChildren(b, pos, [])
    ensures pos < |b| && b[pos] == END
  {
  }

  lemma FirstChild(b: seq<Byte>, pos: nat, ts: seq<Tree>)
    requires ts != [] && AtChildren(b, pos, ts)
    ensures At(b, pos, Encode(ts[0])) && AtChildren(b, pos + |Encode(ts[0])|, ts[1..])
    ensures After(pos, ts) == After(pos + |Encode(ts[0])|, ts[1..])
  {
    var head, tail := Encode(ts[0]), EncodeAll(ts[1..]) + [END];
    assert EncodeAll(ts) + [END] == head + tail;
    AtSplit(b, pos, head, tail);
  }

  // Where the parser is after the children of a node and its end mark.
  function After(pos: nat, ts: seq<Tree>): nat {
    pos + |EncodeAll(ts)| + 1
  }

  // A node is read once its children are.
  lemma ReadWhole(b: seq<Byte>, at: nat, t: Tree, pos: nat)
    requires At(b, at, Encode(t)) && pos == at + 2 + |Escape(t.props)|
    requires var n := Opened(t.kind, at + 2); Reads(b, pos, n, WithAll(n, t.children, pos), After(pos, t.children))
    ensures Reads(b, at + 2, Opened(t.kind, at + 2), Placed(t, at), at + |Encode(t)|)
  {
    WhollyPlaced(t, at, pos);
    ReadProps(b, at, t, pos, Placed(t, at), at + |Encode(t)|);
  }

  lemma {:induction false} ReadsNode(b: seq<Byte>, at: nat, t: Tree)
    requires At(b, at, Encode(t))
    ensures Reads(b, at + 2, Opened(t.kind, at + 2), Placed(t, at), at + |Encode(t)|)
    decreases t, 1
  {
    var pos := at + 2 + |Escape(t.props)|;
    NodeParts(b, at, t);
    ReadsChildren(b, pos, t.children, Opened(t.kind, at + 2));
    ReadWhole(b, at, t, pos);
  }

  lemma {:induction false} ReadsChildren(b: seq<Byte>, pos: nat, ts: seq<Tree>, n: Span)
    requires AtChildren(b, pos, ts)
    ensures Reads(b, pos, n, WithAll(n, ts, pos), After(pos, ts))
    decreases ts, 0
  {
    if ts == [] {
      NoChildren(b, pos);
      WithNone(n, pos);
    } else {
      var child, next := Placed(ts[0], pos), pos + |Encode(ts[0])|;
      FirstChild(b, pos, ts);
      ReadsNode(b, pos, ts[0]);
      ReadsChildren(b, next, ts[1..], Adopt(Marked(n, pos), child));
      WithMore(n, ts, pos, next);
      ReadOneMore(b, pos, n, ts, next, WithAll(n, ts, pos), After(pos, ts));
    }
  }

  // The span gives back the tree: same shape, types and child order, and the same properties.
  predicate Recovers(b: seq<Byte>, s: Span, t: Tree) {
    && s.kind == t.kind
    && s.begin <= s.end <= |b|
    && Unescape(b[s.begin..s.end]) == t.props
    && (s.begin == s.end <==> t.props == [])
    && RecoversAll(b, s.children, t.children)
  }

  predicate RecoversAll(b: seq<Byte>, ss: seq<Span>, ts: seq<Tree>) {
    if ts == [] then ss == []
    else ss != [] && Recovers(b, ss[0], ts[0]) && RecoversAll(b, ss[1..], ts[1..])
  }

  lemma {:induction false} PlacedRecovers(b: seq<Byte>, at: nat, t: Tree)
    requires At(b, at, Encode(t))
    ensures Recovers(b, Placed(t, at), t)
    decreases t, 1
  {
    var pos := at + 2 + |Escape(t.props)|;
    assert At(b, at + 2, Escape(t.props)) && At(b, pos, EncodeAll(t.children)) by {
      NodeParts(b, at, t);
      AtSplit(b, pos, EncodeAll(t.children), [END]);
    }
    UnescapeEscape(t.props);
    PlacedAllRecover(b, pos, t.children);
  }

  lemma {:induction false} PlacedAllRecover(b: seq<Byte>, pos: nat, ts: seq<Tree>)
    requires At(b, pos, EncodeAll(ts))
    ensures RecoversAll(b, PlacedAll(ts, pos), ts)
    decreases ts, 0
  {
    if ts != [] {
      AtSplit(b, pos, Encode(ts[0]), EncodeAll(ts[1..]));
      PlacedRecovers(b, pos, ts[0]);
      PlacedAllRecover(b, pos + |Encode(ts[0])|, ts[1..]);
      assert PlacedAll(ts, pos)[1..] == PlacedAll(ts[1..], pos + |Encode(ts[0])|);
    }
  }

  predicate BareRoot(t: Tree) {
    t.props == [] && t.children == []
  }

  /** Every tree but a bare root survives the trip through its escaped encoding; the bare root is
      refused for its length. */
  lemma RoundTrip(identifier: seq<Byte>, t: Tree)
    requires |identifier| == 4
    ensures var b := identifier + Encode(t);
      && (Acceptable(b, identifier) <==> !BareRoot(t))
      && (Acceptable(b, identifier) ==> ReadFile(b).Some? && Recovers(b, ReadFile(b).value, t))
  {
    var b := identifier + Encode(t);
    assert b[..4] == identifier;
    assert b[4..4 + |Encode(t)|] == Encode(t);
    if !BareRoot(t) {
      ReadsNode(b, 4, t);
      PlacedRecovers(b, 4, t);
    }
  }

  // A node of type 7 whose properties are the bytes 1 and 254, with one of type 8 inside.
  lemma SmallTree(child: Tree, root: Tree)
    requires child == Tree(8, [2], []) && root == Tree(7, [1, 0xFE], [child])
    ensures Encode(root) == [0xFE, 7, 1, 0xFD, 0xFE, 0xFE, 8, 2, 0xFF, 0xFF]
    ensures Placed(root, 4) == Span(7, 6, 9, [Span(8, 11, 12, [])])
  {
    assert [2][1..] == [] && Escape([2]) == [2] && Encode(child) == [0xFE, 8, 2, 0xFF];
    assert [0xFE][1..] == [] && Escape([0xFE]) == [0xFD, 0xFE];
    assert [1, 0xFE][1..] == [0xFE] && Escape([1, 0xFE]) == [1, 0xFD, 0xFE];
    assert EncodeAll([child]) == Encode(child) + EncodeAll([]);
    assert PlacedAll([child], 9) == [Placed(child, 9)] + PlacedAll([], 13);
  }

  /** The file of that tree, byte by byte: the byte 254 among the properties has an escape before it. */
  lemma SmallFile(b: seq<Byte>)
    requires b == [0x4F, 0x54, 0x42, 0x49, 0xFE, 7, 1, 0xFD, 0xFE, 0xFE, 8, 2, 0xFF, 0xFF]
    ensures ReadFile(b) == Some(Span(7, 6, 9, [Span(8, 11, 12, [])]))
    ensures Unescape(b[6..9]) == [1, 0xFE]
  {
    var child := Tree(8, [2], []);
    var root := Tree(7, [1, 0xFE], [child]);
    SmallTree(child, root);
    assert At(b, 4, Encode(root));
    ReadsNode(b, 4, root);
    assert Trailing(b, 14);
    assert [1, 0xFE][1..] == [0xFE] && [0xFE][1..] == [];
    assert b[6..9] == Escape([1, 0xFE]);
    UnescapeEscape([1, 0xFE]);
  }

  // The unescaped marks from pos on, +1 for a start and -1 for an end; none if the file stops
  // right after a start mark or an escape.
  function Marks(b: seq<Byte>, pos: nat): Option<seq<int>>
    decreases |b| - pos
  {
    if pos >= |b| then Some([])
    else if b[pos] == END then Then(-1, Marks(b, pos + 1))
    else if b[pos] == START then if pos + 1 >= |b| then None else Then(1, Marks(b, pos + 2))
    else if b[pos] == ESCAPE then if pos + 1 >= |b| then None else Marks(b, pos + 2)
    else Marks(b, pos + 1)
  }

  function Then(x: int, rest: Option<seq<int>>): Option<seq<int>> {
    if rest == None then None else Some([x] + rest.value)
  }

  function Sum(m: seq<int>): int {
    if m == [] then 0 else m[0] + Sum(m[1..])
  }

  // Starting inside `depth` nodes, every mark falls inside a node and the last one closes all.
  predicate Balanced(depth: int, m: seq<int>) {
    && (forall k | 0 <= k < |m| :: depth + Sum(m[..k]) > 0)
    && depth + Sum(m) == 0
  }

  lemma BalancedThen(depth: int, x: int, m: seq<int>)
    ensures Balanced(depth, [x] + m) <==> depth > 0 && Balanced(depth + x, m)
  {
    var all := [x] + m;
    assert all[1..] == m && all[..0] == [];
    forall k | 0 <= k < |m| ensures Sum(all[..k + 1]) == x + Sum(m[..k]) {
      assert all[..k + 1][1..] == m[..k];
    }
    if Balanced(depth, all) {
      assert depth + Sum(all[..0]) > 0;
      forall k | 0 <= k < |m| ensures depth + x + Sum(m[..k]) > 0 {
        assert depth + Sum(all[..k + 1]) > 0;
      }
    }
    if depth > 0 && Balanced(depth + x, m) {
      forall k | 0 <= k < |all| ensures depth + Sum(all[..k]) > 0 {
        if k > 0 {
          var j := k - 1;
          assert Sum(all[..j + 1]) == x + Sum(m[..j]);
        }
      }
    }
  }

  predicate MarksBalance(b: seq<Byte>, pos: nat, depth: int) {
    Marks(b, pos).Some? && Balanced(depth, Marks(b, pos).value)
  }

  // How the balance of the rest of the file changes over one byte.
  lemma MarksStep(b: seq<Byte>, pos: nat, depth: int)
    requires pos < |b|
    ensures MarksBalance(b, pos, depth) <==>
      if b[pos] == END then depth > 0 && MarksBalance(b, pos + 1, depth - 1)
      else if b[pos] == START then pos + 1 < |b| && depth > 0 && MarksBalance(b, pos + 2, depth + 1)
      else if b[pos] == ESCAPE then pos + 1 < |b| && MarksBalance(b, pos + 2, depth)
      else MarksBalance(b, pos + 1, depth)
  {
    if b[pos] == END {
      if Marks(b, pos + 1).Some? {
        BalancedThen(depth, -1, Marks(b, pos + 1).value);
      }
    } else if b[pos] == START && pos + 1 < |b| && Marks(b, pos + 2).Some? {
      BalancedThen(depth, 1, Marks(b, pos + 2).value);
    }
  }

  // A node that closes leaves a balanced rest balanced, one level up; one that never closes
  // has no balanced rest.
  lemma {:induction false} BodyBalance(b: seq<Byte>, pos: nat, n: Span, depth: int)
    requires depth > 0
    ensures MarksBalance(b, pos, depth) <==>
      ReadBody(b, pos, n).Some? && MarksBalance(b, ReadBody(b, pos, n).value.1, depth - 1)
    decreases |b| - pos
  {
    if pos < |b| {
      MarksStep(b, pos, depth);
      if b[pos] == START {
        if pos + 1 < |b| {
          var child := Opened(b[pos + 1], pos + 2);
          BodyBalance(b, pos + 2, child, depth + 1);
          match ReadBody(b, pos + 2, child)
          case None =>
          case Some((c, next)) => BodyBalance(b, next, Adopt(Marked(n, pos), c), depth);
        }
      } else if b[pos] == ESCAPE {
        BodyBalance(b, pos + 2, n, depth);
      } else if b[pos] != END {
        BodyBalance(b, pos + 1, n, depth);
      }
    }
  }

  lemma {:induction false} TrailingBalance(b: seq<Byte>, pos: nat)
    ensures MarksBalance(b, pos, 0) <==> Trailing(b, pos)
    decreases |b| - pos
  {
    if pos < |b| {
      MarksStep(b, pos, 0);
      if b[pos] == ESCAPE {
        TrailingBalance(b, pos + 2);
      } else if b[pos] != START && b[pos] != END {
        TrailingBalance(b, pos + 1);
      }
    }
  }

  /** The parser accepts exactly the files that open with a start mark and whose unescaped marks
      then close that one root and nothing more. */
  lemma AcceptsIffBalanced(b: seq<Byte>)
    requires |b| > 7
    ensures ReadFile(b).Some? <==> b[4] == START && MarksBalance(b, 6, 1)
  {
    BodyBalance(b, 6, Opened(b[5], 6), 1);
    match ReadBody(b, 6, Opened(b[5], 6))
    case None =>
    case Some((root, next)) => TrailingBalance(b, next);
  }

  // Every node of a parsed file has its properties inside the file.
  predicate InRange(b: seq<Byte>, s: Span) {
    s.begin <= s.end <= |b| && forall k | 0 <= k < |s.children| :: InRange(b, s.children[k])
  }

  lemma {:induction false} ParsedInRange(b: seq<Byte>, pos: nat, n: Span)
    requires n.begin <= pos && (n.children != [] ==> n.begin <= n.end <= pos)
    requires forall k | 0 <= k < |n.children| :: InRange(b, n.children[k])
    ensures ReadBody(b, pos, n).Some? ==> InRange(b, ReadBody(b, pos, n).value.0)
    decreases |b| - pos
  {
    if pos < |b| {
      if b[pos] == START {
        if pos + 1 < |b| {
          var child := Opened(b[pos + 1], pos + 2);
          ParsedInRange(b, pos + 2, child);
          match ReadBody(b, pos + 2, child)
          case None =>
          case Some((c, next)) => ParsedInRange(b, next, Adopt(Marked(n, pos), c));
        }
      } else if b[pos] == ESCAPE {
        ParsedInRange(b, pos + 2, n);
      } else if b[pos] != END {
        ParsedInRange(b, pos + 1, n);
      }
    }
  }

  // So the property reader may be given any node of a parsed tree.
  lemma ParsedFileInRange(b: seq<Byte>)
    requires |b| > 7 && ReadFile(b).Some?
    ensures InRange(b, ReadFile(b).value)
  {
    ParsedInRange(b, 6, Opened(b[5], 6));
  }
}
