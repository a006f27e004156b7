/** Who trades with whom, and what every step of the protocol keeps. */
module TradeTable {
  import opened Options

  datatype TradeState = NONE | INITIATED | ACCEPT | ACKNOWLEDGE | TRANSFER

  // One player's side of a trade.
  datatype Side<P, I> = Side(state: TradeState, partner: Option<P>, item: Option<I>)

  type Table<P, I> = map<P, Side<P, I>>

  // Links are symmetric, a state says what it should about the item, and of two linked players
  // at least one offers something.
  ghost predicate Seated<P, I>(t: Table<P, I>, p: P)
    requires p in t
  {
    var s := t[p];
    if s.partner == None then s == Side(NONE, None, None)
    else
      && s.state != NONE
      && s.partner.value in t && s.partner.value != p
      && var q := t[s.partner.value];
         && q.partner == Some(p)
         && (s.state == INITIATED ==> s.item.Some?)
         && (s.state == ACKNOWLEDGE ==> s.item == None)
         && (s.state == TRANSFER <==> q.state == TRANSFER)
         && (s.state != TRANSFER ==> s.item.Some? || q.item.Some?)
  }

  // `held` is the offered items, each with its owner, but for those already being transferred.
  ghost predicate Offered<P, I>(t: Table<P, I>, held: map<I, P>, p: P)
    requires p in t
  {
    t[p].item.Some? && t[p].state != TRANSFER ==> t[p].item.value in held && held[t[p].item.value] == p
  }

  ghost predicate Owned<P, I>(t: Table<P, I>, held: map<I, P>, i: I)
    requires i in held
  {
    held[i] in t && t[held[i]].item == Some(i) && t[held[i]].state != TRANSFER
  }

  ghost predicate Consistent<P, I>(t: Table<P, I>, held: map<I, P>) {
    && (forall p {:trigger Seated(t, p)} | p in t :: Seated(t, p))
    && (forall p {:trigger Offered(t, held, p)} | p in t :: Offered(t, held, p))
    && forall i {:trigger Owned(t, held, i)} | i in held :: Owned(t, held, i)
  }

  function Idle<P, I>(): Side<P, I> {
    Side(NONE, None, None)
  }

  // Whether a trade of p may begin or be answered with q.
  predicate MayStart<P(==), I>(t: Table<P, I>, p: P, q: P)
    requires p in t && q in t
  {
    && (t[p].state == NONE || (t[p].state == ACKNOWLEDGE && t[p].partner == Some(q)))
    && (t[q].state == NONE || t[q].partner == Some(p))
  }

  function Started<P, I>(t: Table<P, I>, p: P, q: P, i: I): Table<P, I>
    requires p in t && q in t && p != q
  {
    var s := t[p := Side(INITIATED, Some(q), Some(i))];
    if t[q].state == NONE then s[q := Side(ACKNOWLEDGE, Some(p), t[q].item)] else s
  }

  lemma StartKeeps<P, I>(t: Table<P, I>, held: map<I, P>, p: P, q: P, i: I)
    requires Consistent(t, held) && p in t && q in t && p != q && i !in held && MayStart(t, p, q)
    ensures Consistent(Started(t, p, q, i), held[i := p])
  {
    var u, more := Started(t, p, q, i), held[i := p];
    assert Seated(t, p) && Seated(t, q);
    forall r | r in u ensures Seated(u, r) && Offered(u, more, r) {
      assert r in t && Seated(t, r) && Offered(t, held, r);
    }
    forall j | j in more ensures Owned(u, more, j) {
      assert j in held ==> Owned(t, held, j);
    }
  }

  // A trade in transfer is left alone; otherwise both sides are cleared.
  predicate Busy<P, I>(t: Table<P, I>, p: P)
    requires p in t
  {
    t[p].state == TRANSFER
    || (t[p].partner.Some? && t[p].partner.value in t && t[t[p].partner.value].state == TRANSFER)
  }

  function Cleared<P, I>(t: Table<P, I>, p: P): Table<P, I>
    requires p in t
  {
    if t[p].partner.Some? then t[p := Idle()][t[p].partner.value := Idle()] else t[p := Idle()]
  }

  function Closed<P, I>(t: Table<P, I>, p: P): Table<P, I>
    requires p in t
  {
    if Busy(t, p) then t else Cleared(t, p)
  }

  // The items that leave the table of offers with p's trade.
  function ItemOf<P, I>(t: Table<P, I>, p: P): set<I>
    requires p in t
  {
    if t[p].item.Some? then {t[p].item.value} else {}
  }

  function Offers<P, I>(t: Table<P, I>, p: P): set<I>
    requires p in t
  {
    ItemOf(t, p)
    + if t[p].partner.Some? && t[p].partner.value in t then ItemOf(t, t[p].partner.value) else {}
  }

  lemma CloseKeeps<P, I>(t: Table<P, I>, held: map<I, P>, p: P)
    requires Consistent(t, held) && p in t && !Busy(t, p)
    ensures Consistent(Cleared(t, p), held - Offers(t, p))
    ensures Cleared(t, p).Keys == t.Keys && Offers(t, p) <= held.Keys
  {
    var u, less := Cleared(t, p), held - Offers(t, p);
    assert Seated(t, p) && Offered(t, held, p);
    if t[p].partner.Some? {
      assert Seated(t, t[p].partner.value) && Offered(t, held, t[p].partner.value);
    }
    forall r | r in u ensures Seated(u, r) && Offered(u, less, r) {
      assert r in t && Seated(t, r) && Offered(t, held, r);
    }
    forall j | j in less ensures Owned(u, less, j) {
      assert Owned(t, held, j);
    }
  }

  /** Closing any player's trade, even one's own, changes nothing for players in transfer. */
  lemma CloseLeavesTransfers<P, I>(t: Table<P, I>, held: map<I, P>, p: P, r: P)
    requires Consistent(t, held) && p in t && r in t && t[r].state == TRANSFER
    ensures Closed(t, p).Keys == t.Keys && Closed(t, p)[r] == t[r]
    ensures p == r || t[r].partner == Some(p) ==> Closed(t, p) == t
  {
    assert Seated(t, p) && Seated(t, r);
  }

  function Accepting<P, I>(t: Table<P, I>, p: P): Table<P, I>
    requires p in t
  {
    t[p := t[p].(state := ACCEPT)]
  }

  lemma AcceptKeeps<P, I>(t: Table<P, I>, held: map<I, P>, p: P)
    requires Consistent(t, held) && p in t && (t[p].state == ACKNOWLEDGE || t[p].state == INITIATED)
    ensures Consistent(Accepting(t, p), held)
  {
    var u := Accepting(t, p);
    assert Seated(t, p) && Offered(t, held, p) && Seated(t, t[p].partner.value);
    forall r | r in u ensures Seated(u, r) && Offered(u, held, r) {
      assert r in t && Seated(t, r) && Offered(t, held, r);
    }
    forall j | j in held ensures Owned(u, held, j) {
      assert Owned(t, held, j);
    }
  }

  function Transferring<P, I>(t: Table<P, I>, p: P, q: P): Table<P, I>
    requires p in t && q in t
  {
    t[p := t[p].(state := TRANSFER)][q := t[q].(state := TRANSFER)]
  }

  lemma TransferKeeps<P, I>(t: Table<P, I>, held: map<I, P>, p: P, q: P)
    requires Consistent(t, held) && p in t && t[p].partner == Some(q) && q in t
    requires t[p].state == ACCEPT && t[q].state == ACCEPT
    ensures p != q && t[q].partner == Some(p)
    ensures Consistent(Transferring(t, p, q), held - Offers(t, p)) && Offers(t, p) <= held.Keys
  {
    var u, less := Transferring(t, p, q), held - Offers(t, p);
    assert Seated(t, p) && Seated(t, q) && Offered(t, held, p) && Offered(t, held, q);
    forall r | r in u ensures Seated(u, r) && Offered(u, less, r) {
      assert r in t && Seated(t, r) && Offered(t, held, r);
    }
    forall j | j in less ensures Owned(u, less, j) {
      assert Owned(t, held, j);
    }
  }

  lemma EndKeeps<P, I>(t: Table<P, I>, held: map<I, P>, p: P, q: P)
    requires Consistent(t, held) && p in t && t[p].partner == Some(q) && q in t && t[p].state == TRANSFER
    ensures Consistent(t[p := Idle()][q := Idle()], held)
  {
    var u := t[p := Idle()][q := Idle()];
    assert Seated(t, p) && Seated(t, q);
    forall r | r in u ensures Seated(u, r) && Offered(u, held, r) {
      assert r in t && Seated(t, r) && Offered(t, held, r);
    }
    forall j | j in held ensures Owned(u, held, j) {
      assert Owned(t, held, j);
    }
  }

  // The table, the offers, and every reference taken and released so far.
  datatype State<P, I> = State(table: Table<P, I>, held: map<I, P>, taken: multiset<I>, released: multiset<I>)

  // What any number of players can make happen, in any order.
  datatype Step<P, I> = Start(p: P, q: P, i: I) | Accept(p: P) | Close(p: P) | Begin(p: P, q: P) | End(p: P, q: P)

  // When each step can happen; an exchange begins only when both sides of a trade accept.
  predicate Enabled<P(==), I(==)>(s: State<P, I>, step: Step<P, I>) {
    var t := s.table;
    match step
    case Start(p, q, i) => p in t && q in t && p != q && i !in s.held && MayStart(t, p, q)
    case Accept(p) => p in t && (t[p].state == ACKNOWLEDGE || t[p].state == INITIATED)
    case Close(p) => p in t
    case Begin(p, q) => p in t && q in t && t[p].partner == Some(q) && t[p].state == ACCEPT && t[q].state == ACCEPT
    case End(p, q) => p in t && q in t && t[p].partner == Some(q) && t[p].state == TRANSFER
  }

  function Apply<P, I>(s: State<P, I>, step: Step<P, I>): State<P, I>
    requires Enabled(s, step)
  {
    var t := s.table;
    match step
    case Start(p, q, i) => State(Started(t, p, q, i), s.held[i := p], s.taken + multiset{i}, s.released)
    case Accept(p) => s.(table := Accepting(t, p))
    case Close(p) =>
      if Busy(t, p) then s
      else State(Cleared(t, p), s.held - Offers(t, p), s.taken, s.released + multiset(Offers(t, p)))
    case Begin(p, q) =>
      State(Transferring(t, p, q), s.held - Offers(t, p), s.taken, s.released + multiset(Offers(t, p)))
    case End(p, q) => s.(table := t[p := Idle()][q := Idle()])
  }

  ghost predicate Safe<P, I>(s: State<P, I>) {
    Consistent(s.table, s.held) && Balanced(s)
  }

  ghost predicate IsRun<P, I>(run: seq<State<P, I>>, steps: seq<Step<P, I>>) {
    && |run| == |steps| + 1
    && forall k {:trigger steps[k]} | 0 <= k < |steps| ::
      Enabled(run[k], steps[k]) && run[k + 1] == Apply(run[k], steps[k])
  }

  lemma StepIsConsistent<P, I>(s: State<P, I>, step: Step<P, I>)
    requires Consistent(s.table, s.held) && Enabled(s, step)
    ensures Consistent(Apply(s, step).table, Apply(s, step).held)
  {
    match step
    case Start(p, q, i) => StartKeeps(s.table, s.held, p, q, i);
    case Accept(p) => AcceptKeeps(s.table, s.held, p);
    case Close(p) =>
      if !Busy(s.table, p) {
        CloseKeeps(s.table, s.held, p);
      }
    case Begin(p, q) => TransferKeeps(s.table, s.held, p, q);
    case End(p, q) => EndKeeps(s.table, s.held, p, q);
  }

  ghost predicate Balanced<P, I>(s: State<P, I>) {
    s.taken == s.released + multiset(s.held.Keys)
  }

  lemma WithdrawalBalances<P, I>(s: State<P, I>, u: State<P, I>, gone: set<I>)
    requires Balanced(s) && gone <= s.held.Keys
    requires u.taken == s.taken && u.held == s.held - gone && u.released == s.released + multiset(gone)
    ensures Balanced(u)
  {
  }

  lemma StepBalances<P, I>(s: State<P, I>, step: Step<P, I>)
    requires Consistent(s.table, s.held) && Balanced(s) && Enabled(s, step)
    ensures Balanced(Apply(s, step))
  {
    match step
    case Start(p, q, i) =>
      assert s.held[i := p].Keys == s.held.Keys + {i};
    case Close(p) =>
      if !Busy(s.table, p) {
        CloseKeeps(s.table, s.held, p);
        WithdrawalBalances(s, Apply(s, step), Offers(s.table, p));
      }
    case Begin(p, q) =>
      TransferKeeps(s.table, s.held, p, q);
      WithdrawalBalances(s, Apply(s, step), Offers(s.table, p));
    case _ =>
  }

  /** In every run, whatever the players do: the links stay symmetric, the table of offers holds
      exactly the offered items, and each reference taken is held or has been released once. */
  lemma {:induction false} RunIsSafe<P, I>(run: seq<State<P, I>>, steps: seq<Step<P, I>>, k: nat)
    requires IsRun(run, steps) && k < |run| && Safe(run[0])
    ensures Safe(run[k])
  {
    if k > 0 {
      RunIsSafe(run, steps, k - 1);
      assert Enabled(run[k - 1], steps[k - 1]);
      StepIsConsistent(run[k - 1], steps[k - 1]);
      StepBalances(run[k - 1], steps[k - 1]);
    }
  }

  /** To accept is not to have seen the other item: a player who accepts before there is a counter-offer
      stays accepting when it comes, and the exchange may begin as soon as the other accepts. */
  lemma AcceptsUnseen<P, I>(s: State<P, I>, p: P, q: P, i: I, j: I)
    returns (s1: State<P, I>, s2: State<P, I>, s3: State<P, I>, s4: State<P, I>)
    requires Consistent(s.table, s.held) && p in s.table && q in s.table && p != q
    requires s.table[p] == Idle() && s.table[q] == Idle() && i != j && i !in s.held && j !in s.held
    ensures Enabled(s, Start(p, q, i)) && s1 == Apply(s, Start(p, q, i))
    ensures Enabled(s1, Accept(p)) && s2 == Apply(s1, Accept(p)) && q in s2.table && s2.table[q].item == None
    ensures Enabled(s2, Start(q, p, j)) && s3 == Apply(s2, Start(q, p, j))
    ensures p in s3.table && s3.table[p].state == ACCEPT
    ensures Enabled(s3, Accept(q)) && s4 == Apply(s3, Accept(q)) && Enabled(s4, Begin(p, q))
  {
    s1 := Apply(s, Start(p, q, i));
    s2 := Apply(s1, Accept(p));
    s3 := Apply(s2, Start(q, p, j));
    s4 := Apply(s3, Accept(q));
  }

  // p has accepted a trade with q that has not ended.
  predicate Accepted<P(==), I>(t: Table<P, I>, p: P, q: P) {
    p in t && q in t && t[p].state == ACCEPT && t[p].partner == Some(q)
  }

  // Who accepts after a step had accepted that trade before, unless the step was the acceptance; and
  // an offer of the partner does not change meanwhile.
  lemma AcceptedBefore<P, I>(s: State<P, I>, step: Step<P, I>, p: P, q: P)
    requires Consistent(s.table, s.held) && Enabled(s, step) && step != Accept(p)
    requires Accepted(Apply(s, step).table, p, q)
    ensures Accepted(s.table, p, q)
    ensures s.table[q].item.Some? ==> Apply(s, step).table[q].item == s.table[q].item
  {
    match step
    case Start(r, o, i) => AcceptedBeforeStart(s.table, s.held, r, o, i, p, q);
    case Accept(r) =>
    case Close(r) =>
      if !Busy(s.table, r) {
        AcceptedBeforeClose(s.table, s.held, r, p, q);
      }
    case Begin(r, o) => assert Seated(s.table, r) && Seated(s.table, p);
    case End(r, o) => assert Seated(s.table, r) && Seated(s.table, p);
  }

  lemma AcceptedBeforeStart<P, I>(t: Table<P, I>, held: map<I, P>, r: P, o: P, i: I, p: P, q: P)
    requires Consistent(t, held) && r in t && o in t && r != o && MayStart(t, r, o)
    requires Accepted(Started(t, r, o, i), p, q)
    ensures Accepted(t, p, q) && (t[q].item.Some? ==> Started(t, r, o, i)[q].item == t[q].item)
  {
    assert Seated(t, p) && Seated(t, q);
  }

  lemma AcceptedBeforeClose<P, I>(t: Table<P, I>, held: map<I, P>, r: P, p: P, q: P)
    requires Consistent(t, held) && r in t && Accepted(Cleared(t, r), p, q)
    ensures Accepted(t, p, q) && Cleared(t, r)[q].item == t[q].item
  {
    assert Seated(t, r) && Seated(t, p);
  }

  // None of the steps from m to b is an acceptance by p.
  ghost predicate Unaccepted<P, I>(steps: seq<Step<P, I>>, p: P, m: nat, b: nat) {
    forall k | m <= k < b && k < |steps| :: steps[k] != Accept(p)
  }

  // Back from moment b to any moment m after the last acceptance.
  lemma {:induction false} OfferStays<P, I>(run: seq<State<P, I>>, steps: seq<Step<P, I>>, p: P, q: P, m: nat, b: nat)
    requires IsRun(run, steps) && Safe(run[0]) && m <= b < |run| && Accepted(run[b].table, p, q)
    requires Unaccepted(steps, p, m, b)
    ensures Accepted(run[m].table, p, q)
    ensures run[m].table[q].item.Some? ==> run[b].table[q].item == run[m].table[q].item
    decreases b - m
  {
    if m < b {
      OfferStays(run, steps, p, q, m + 1, b);
      var s, u := StepOf(run, steps, steps[m], m);
      AcceptedBefore(s, steps[m], p, q);
    }
  }

  /** Of an exchange that begins at step b, with p's last acceptance at step a: what p gets offered is
      what was there when p accepted, exactly when something was. So a player gets an item unseen only
      by accepting while the partner has none on offer. */
  lemma SeenIff<P, I>(run: seq<State<P, I>>, steps: seq<Step<P, I>>, p: P, q: P, a: nat, b: nat)
    requires IsRun(run, steps) && Safe(run[0]) && a < b < |steps|
    requires steps[a] == Accept(p) && (steps[b] == Begin(p, q) || steps[b] == Begin(q, p))
    requires Unaccepted(steps, p, a + 1, b)
    ensures p in run[a].table && run[a].table[p].partner == Some(q) && q in run[a].table && q in run[b].table
    ensures run[a].table[q].item.Some?
      <==> run[b].table[q].item.Some? && run[b].table[q].item == run[a].table[q].item
  {
    var e := BeginsAccepted(run, steps, p, q, b);
    OfferStays(run, steps, p, q, a + 1, b);
    var s, u := StepOf(run, steps, Accept(p), a);
    AcceptsOffer(s, u, p, q);
  }

  lemma StepOf<P, I>(run: seq<State<P, I>>, steps: seq<Step<P, I>>, step: Step<P, I>, k: nat)
    returns (s: State<P, I>, u: State<P, I>)
    requires IsRun(run, steps) && Safe(run[0]) && k < |steps| && step == steps[k]
    ensures s == run[k] && u == run[k + 1] && Consistent(s.table, s.held) && Enabled(s, step) && u == Apply(s, step)
  {
    RunIsSafe(run, steps, k);
    s, u := run[k], run[k + 1];
  }

  lemma AcceptsOffer<P, I>(s: State<P, I>, u: State<P, I>, p: P, q: P)
    requires Consistent(s.table, s.held) && Enabled(s, Accept(p)) && u == Apply(s, Accept(p))
    requires Accepted(u.table, p, q)
    ensures s.table[p].partner == Some(q) && q in s.table && u.table[q].item == s.table[q].item
  {
    assert Seated(s.table, p);
  }

  lemma BeginsAccepted<P, I>(run: seq<State<P, I>>, steps: seq<Step<P, I>>, p: P, q: P, b: nat)
    returns (s: State<P, I>)
    requires IsRun(run, steps) && Safe(run[0]) && b < |steps| && (steps[b] == Begin(p, q) || steps[b] == Begin(q, p))
    ensures s == run[b] && Accepted(s.table, p, q)
  {
    var u;
    s, u := StepOf(run, steps, steps[b], b);
    assert steps[b] == Begin(q, p) ==> Seated(s.table, q);
  }
}
