/** The shape of a combat area: the offsets of its cells from the centre, and how it turns. */
module AreaShape {

  datatype Offset = Offset(dx: int, dy: int)

  type Shape = set<Offset>

  datatype Rotation = Quarter | Half | ThreeQuarters

  // A turn of an offset; x runs east and y south, so a quarter turn is clockwise.
  function Turn(r: Rotation, v: Offset): Offset {
    match r
    case Quarter => Offset(-v.dy, v.dx)
    case Half => Offset(-v.dx, -v.dy)
    case ThreeQuarters => Offset(v.dy, -v.dx)
  }

  // The turn that undoes a turn.
  function Back(r: Rotation): Rotation {
    match r
    case Quarter => ThreeQuarters
    case Half => Half
    case ThreeQuarters => Quarter
  }

  function Turned(r: Rotation, s: Shape): Shape {
    set v | v in s :: Turn(r, v)
  }

  lemma TurnBack(r: Rotation, v: Offset)
    ensures Turn(Back(r), Turn(r, v)) == v && Turn(r, Turn(Back(r), v)) == v
  {
  }

  /** A turn loses no cell and adds none. */
  lemma {:induction false} TurnKeepsSize(r: Rotation, s: Shape)
    ensures |Turned(r, s)| == |s|
  {
    if s != {} {
      var v :| v in s;
      TurnKeepsSize(r, s - {v});
      var rest := Turned(r, s - {v});
      assert Turned(r, s) == rest + {Turn(r, v)};
      assert Turn(r, v) !in rest by {
        if Turn(r, v) in rest {
          var u :| u in s - {v} && Turn(r, u) == Turn(r, v);
          TurnBack(r, u);
          TurnBack(r, v);
        }
      }
    }
  }

  function Quarters(r: Rotation): nat {
    match r
    case Quarter => 1
    case Half => 2
    case ThreeQuarters => 3
  }

  lemma TurnTwice(first: Rotation, second: Rotation, both: Rotation, v: Offset)
    requires Quarters(first) + Quarters(second) == Quarters(both)
    ensures Turn(second, Turn(first, v)) == Turn(both, v)
  {
  }

  // Turning twice is turning by both.
  lemma TurnedTwice(first: Rotation, second: Rotation, both: Rotation, s: Shape)
    requires Quarters(first) + Quarters(second) == Quarters(both)
    ensures Turned(second, Turned(first, s)) == Turned(both, s)
  {
    forall x | x in Turned(both, s) ensures x in Turned(second, Turned(first, s)) {
      var v :| v in s && x == Turn(both, v);
      TurnTwice(first, second, both, v);
      assert Turn(first, v) in Turned(first, s);
    }
    forall x | x in Turned(second, Turned(first, s)) ensures x in Turned(both, s) {
      var u :| u in Turned(first, s) && x == Turn(second, u);
      var v :| v in s && u == Turn(first, v);
      TurnTwice(first, second, both, v);
    }
  }

  lemma TurnedBack(r: Rotation, s: Shape)
    ensures Turned(Back(r), Turned(r, s)) == s
  {
    forall v | v in s ensures v in Turned(Back(r), Turned(r, s)) {
      TurnBack(r, v);
      assert Turn(r, v) in Turned(r, s);
    }
    forall v | v in Turned(Back(r), Turned(r, s)) ensures v in s {
      var u :| u in Turned(r, s) && v == Turn(Back(r), u);
      var w :| w in s && u == Turn(r, w);
      TurnBack(r, w);
    }
  }

  /** The half turn is the quarter turn twice, the three-quarter turn is it three times, and four
      quarter turns are none. */
  lemma QuarterTurns(s: Shape)
    ensures Turned(Half, s) == Turned(Quarter, Turned(Quarter, s))
    ensures Turned(ThreeQuarters, s) == Turned(Quarter, Turned(Half, s))
    ensures Turned(Quarter, Turned(ThreeQuarters, s)) == s
  {
    TurnedTwice(Quarter, Quarter, Half, s);
    TurnedTwice(Half, Quarter, ThreeQuarters, s);
    TurnedBack(ThreeQuarters, s);
  }

  // Reflections; a wrong centre moves the reflected shape by `off`.
  function Mirrored(s: Shape, off: int): Shape {
    set v | v in s :: Offset(off - v.dx, v.dy)
  }

  function Flipped(s: Shape, off: int): Shape {
    set v | v in s :: Offset(v.dx, off - v.dy)
  }

  // n steps of size off from x.
  function Steps(x: int, off: int, n: nat): int {
    if n == 0 then x else Steps(x, off, n - 1) + off
  }

  lemma {:induction false} StepsGoFar(x: int, off: int, n: nat)
    ensures off >= 1 ==> Steps(x, off, n) >= x + n
    ensures off <= -1 ==> Steps(x, off, n) <= x - n
  {
    if n > 0 {
      StepsGoFar(x, off, n - 1);
    }
  }

  // A shape that holds a moved copy of itself goes on for ever.
  lemma {:induction false} MovesForEver(s: Shape, off: int, v: Offset, n: nat)
    requires v in s && forall u | u in s :: Offset(u.dx + off, u.dy) in s
    ensures Offset(Steps(v.dx, off, n), v.dy) in s
  {
    if n == 0 {
      assert Offset(v.dx, v.dy) == v;
    } else {
      MovesForEver(s, off, v, n - 1);
      var u := Offset(Steps(v.dx, off, n - 1), v.dy);
      assert Offset(u.dx + off, u.dy) in s;
    }
  }

  lemma {:induction false} Bounded(s: Shape) returns (b: int)
    ensures b >= 0 && forall v | v in s :: -b < v.dx < b
  {
    if s == {} {
      b := 0;
    } else {
      var v :| v in s;
      var rest := Bounded(s - {v});
      var m := if v.dx < 0 then -v.dx else v.dx;
      b := rest + m + 1;
      forall u | u in s ensures -b < u.dx < b {
        assert u == v || u in s - {v};
      }
    }
  }

  lemma NotMovedOntoItself(s: Shape, off: int)
    requires s != {} && off != 0
    ensures exists u :: u in s && Offset(u.dx + off, u.dy) !in s
  {
    if forall u | u in s :: Offset(u.dx + off, u.dy) in s {
      var v :| v in s;
      var b := Bounded(s);
      StepsGoFar(v.dx, off, 2 * b);
      MovesForEver(s, off, v, 2 * b);
      assert false;
    }
  }

  /** A reflection about a centre that is off is right exactly when the centre is not off, or there
      is nothing to reflect. */
  lemma MirrorRightIff(s: Shape, off: int)
    ensures Mirrored(s, off) == Mirrored(s, 0) <==> off == 0 || s == {}
  {
    if off != 0 && s != {} {
      var m := Mirrored(s, 0);
      var v :| v in s;
      assert Offset(0 - v.dx, v.dy) in m;
      NotMovedOntoItself(m, off);
      var u :| u in m && Offset(u.dx + off, u.dy) !in m;
      var w :| w in s && u == Offset(0 - w.dx, w.dy);
      assert Offset(off - w.dx, w.dy) in Mirrored(s, off);
      assert Offset(off - w.dx, w.dy) == Offset(u.dx + off, u.dy);
    }
  }

  // A flip is a mirroring between two quarter turns.
  lemma FlipByMirror(s: Shape, off: int)
    ensures Flipped(s, off) == Turned(Quarter, Mirrored(Turned(ThreeQuarters, s), off))
  {
    var t := Turned(ThreeQuarters, s);
    forall v | v in s ensures Offset(v.dx, off - v.dy) in Turned(Quarter, Mirrored(t, off)) {
      var u := Turn(ThreeQuarters, v);
      assert u in t;
      var w := Offset(off - u.dx, u.dy);
      assert w in Mirrored(t, off);
      assert Offset(v.dx, off - v.dy) == Turn(Quarter, w);
    }
    forall x | x in Turned(Quarter, Mirrored(t, off)) ensures x in Flipped(s, off) {
      var w :| w in Mirrored(t, off) && x == Turn(Quarter, w);
      var u :| u in t && w == Offset(off - u.dx, u.dy);
      var v :| v in s && u == Turn(ThreeQuarters, v);
      assert x == Offset(v.dx, off - v.dy);
    }
  }

  lemma FlipRightIff(s: Shape, off: int)
    ensures Flipped(s, off) == Flipped(s, 0) <==> off == 0 || s == {}
  {
    var t := Turned(ThreeQuarters, s);
    FlipByMirror(s, off);
    FlipByMirror(s, 0);
    MirrorRightIff(t, off);
    TurnedBack(ThreeQuarters, s);
    TurnedBack(Quarter, Mirrored(t, off));
    TurnedBack(Quarter, Mirrored(t, 0));
    assert t == {} ==> s == {} by {
      if t == {} {
        assert Turned(Quarter, t) == {};
      }
    }
  }
}
