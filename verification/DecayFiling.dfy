/** Which list of the decay wheel holds an item: bucket 0 to 3, or the list of new items. */
module DecayFiling {
  import opened Sequences

  const OUT := -1
  const NEW := 4

  // Every list holds exactly the items filed under it, each once.
  ghost predicate Filed<T>(ls: seq<seq<T>>, slots: map<T, int>) {
    && |ls| == 5
    && (forall s {:trigger ListFiled(ls, slots, s)} | 0 <= s < 5 :: ListFiled(ls, slots, s))
    && forall i {:trigger ItemFiled(ls, slots, i)} | i in slots :: ItemFiled(ls, slots, i)
  }

  ghost predicate ListFiled<T>(ls: seq<seq<T>>, slots: map<T, int>, s: nat)
    requires s < |ls|
  {
    && NoDup(ls[s])
    && forall i | i in ls[s] :: i in slots && slots[i] == s
  }

  ghost predicate ItemFiled<T>(ls: seq<seq<T>>, slots: map<T, int>, i: T)
    requires |ls| == 5 && i in slots
  {
    slots[i] == OUT || (0 <= slots[i] <= NEW && i in ls[slots[i]])
  }

  lemma Unfile<T>(ls: seq<seq<T>>, slots: map<T, int>, s: nat, k: nat)
    requires Filed(ls, slots) && s < 5 && k < |ls[s]|
    ensures ls[s][k] in slots && slots[ls[s][k]] == s
    ensures Filed(ls[s := DropAt(ls[s], k)], slots[ls[s][k] := OUT])
  {
    var x, ls' := ls[s][k], ls[s := DropAt(ls[s], k)];
    assert ListFiled(ls, slots, s);
    assert x in ls[s];
    var slots' := slots[x := OUT];
    NoDupDrop(ls[s], k);
    forall r | 0 <= r < 5 ensures ListFiled(ls', slots', r) {
      assert ListFiled(ls, slots, r);
    }
    forall i | i in slots' ensures ItemFiled(ls', slots', i) {
      assert i in slots && ItemFiled(ls, slots, i);
    }
  }

  lemma FileIn<T>(ls: seq<seq<T>>, slots: map<T, int>, s: nat, x: T, t: seq<T>)
    requires Filed(ls, slots) && s < 5 && x in slots && slots[x] == OUT
    requires t == ls[s] + [x] || t == [x] + ls[s]
    ensures Filed(ls[s := t], slots[x := s])
  {
    var ls', slots' := ls[s := t], slots[x := s];
    forall r | 0 <= r < 5 ensures ListFiled(ls', slots', r) {
      assert ListFiled(ls, slots, r);
    }
    forall i | i in slots' ensures ItemFiled(ls', slots', i) {
      assert i in slots && ItemFiled(ls, slots, i);
      assert x in t;
      assert forall j | j in ls[s] :: j in t;
    }
  }

  /** An item is never in two lists, nor twice in one. */
  lemma OneFileOnly<T>(ls: seq<seq<T>>, slots: map<T, int>, r: nat, j: nat, s: nat, k: nat)
    requires Filed(ls, slots) && r < 5 && s < 5 && j < |ls[r]| && k < |ls[s]|
    requires ls[r][j] == ls[s][k]
    ensures r == s && j == k
  {
    assert ListFiled(ls, slots, r) && ListFiled(ls, slots, s);
    assert ls[r][j] in ls[r] && ls[s][k] in ls[s];
  }
}
