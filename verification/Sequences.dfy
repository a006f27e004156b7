/** Sequences without duplicates, and the edits of lists. */
module Sequences {

  ghost predicate NoDup<T>(s: seq<T>) {
    forall i, j | 0 <= i < j < |s| :: s[i] != s[j]
  }

  function InsertAt<T>(s: seq<T>, k: nat, x: T): seq<T>
    requires k <= |s|
  {
    s[..k] + [x] + s[k..]
  }

  function DropAt<T>(s: seq<T>, k: nat): (t: seq<T>)
    requires k < |s|
    ensures |t| == |s| - 1
    ensures forall j | 0 <= j < |t| :: t[j] == if j < k then s[j] else s[j + 1]
  {
    s[..k] + s[k + 1..]
  }

  lemma NoDupInsert<T>(s: seq<T>, k: nat, x: T)
    requires NoDup(s) && k <= |s| && x !in s
    ensures NoDup(InsertAt(s, k, x))
    ensures forall y :: y in InsertAt(s, k, x) <==> y == x || y in s
  {
  }

  lemma NoDupDrop<T>(s: seq<T>, k: nat)
    requires NoDup(s) && k < |s|
    ensures NoDup(DropAt(s, k))
    ensures s[k] !in DropAt(s, k)
    ensures forall y :: y in DropAt(s, k) <==> y != s[k] && y in s
  {
  }

  lemma NoDupConcat<T>(a: seq<T>, b: seq<T>)
    requires NoDup(a) && NoDup(b) && forall x | x in a :: x !in b
    ensures NoDup(a + b)
  {
    var s := a + b;
    forall i, j | 0 <= i < j < |s| ensures s[i] != s[j] {
      assert i < |a| ==> s[i] in a;
      assert j >= |a| ==> s[j] in b;
      assert i >= |a| ==> s[i] == b[i - |a|] && s[j] == b[j - |a|];
    }
  }

  lemma Assoc<T>(a: seq<T>, b: seq<T>, c: seq<T>)
    ensures (a + b) + c == a + (b + c)
  {
  }

  lemma OneLess<T>(s: seq<T>, k: nat)
    requires k < |s|
    ensures s[k..] != [] && s[k..][0] == s[k] && s[k..][1..] == s[k + 1..]
  {
  }
}
