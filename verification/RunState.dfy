/** The position of a training run: shuffled epochs, random crops and the decaying learning rate. Random
    numbers, shuffling and float arithmetic are deterministic operations of their arguments. */
module RunState {
  import opened Spools
  import opened Bytes

  /** The words a Mersenne twister prints: its state and the position in it. */
  type Rng = r: seq<Word> | |r| == 625 witness seq(625, _ => 0)

  /** The operations a run is made of. */
  datatype Oracle = Oracle(
    seed: nat -> Rng,
    shuffle: (seq<int>, Rng) -> (seq<int>, Rng),
    draw: (Rng, nat) -> (nat, Rng),
    mul: (Word, Word) -> Word,
    positive: Word -> bool,
    atMostOne: Word -> bool)

  ghost predicate ShuffleLaw(o: Oracle, s: seq<int>, r: Rng) { multiset(o.shuffle(s, r).0) == multiset(s) }

  ghost predicate MulLaw(o: Oracle, a: Word, b: Word) { o.positive(b) && o.positive(o.mul(a, b)) ==> o.positive(a) }

  /** A shuffle permutes, and a product with a finite positive factor is finite and positive only if the other factor
      is. */
  ghost predicate ValidOracle(o: Oracle) {
    (forall s, r :: ShuffleLaw(o, s, r)) && (forall a, b :: MulLaw(o, a, b))
  }

  datatype State = State(identity: string, epochs: int, step: int, lr: Word, decay: Word, order: seq<int>, random: Rng)

  predicate HexDigest(s: string) { |s| == 64 && forall i :: 0 <= i < 64 ==> '0' <= s[i] <= '9' || 'a' <= s[i] <= 'f' }

  function Iota(n: nat): (s: seq<int>)
    ensures |s| == n && forall i :: 0 <= i < n ==> s[i] == i
  {
    if n == 0 then [] else Iota(n - 1) + [n - 1]
  }

  predicate Permutation(order: seq<int>) { multiset(order) == multiset(Iota(|order|)) }

  /** The learning rate after k decays. */
  function Decayed(o: Oracle, lr: Word, decay: Word, k: nat): Word {
    if k == 0 then lr else o.mul(Decayed(o, lr, decay, k - 1), decay)
  }

  function Total(s: State): int { s.epochs * |s.order| }

  function Epoch(s: State): int
    requires |s.order| > 0
  {
    s.step / |s.order|
  }

  function Slot(s: State): int
    requires |s.order| > 0
  {
    s.step % |s.order|
  }

  predicate Done(s: State) { s.step == Total(s) }

  predicate Shaped(o: Oracle, s: State) {
    && HexDigest(s.identity) && 1 <= |s.order| <= 4096 && 1 <= s.epochs <= 2000 && 0 <= s.step <= Total(s)
    && o.positive(s.lr) && o.atMostOne(s.lr) && o.positive(s.decay) && o.atMostOne(s.decay) && Permutation(s.order)
  }

  function Rate(o: Oracle, s: State): Word
    requires |s.order| > 0 && s.step >= 0
  {
    Decayed(o, s.lr, s.decay, Epoch(s))
  }

  /** `validate`. */
  predicate Valid(o: Oracle, s: State) { Shaped(o, s) && o.positive(Rate(o, s)) }

  /** The preflight check: the rate stays positive to the end of the schedule. */
  predicate Planned(o: Oracle, s: State) { Valid(o, s) && o.positive(Decayed(o, s.lr, s.decay, s.epochs)) }

  /** `begin`. */
  function Begin(o: Oracle, id: string, clips: nat, epochs: int, seed: nat, lr: Word, decay: Word): Option<State> {
    if clips < 1 || clips > 4096 then None else
    var shuffled := o.shuffle(Iota(clips), o.seed(seed));
    var s := State(id, epochs, 0, lr, decay, shuffled.0, shuffled.1);
    if Valid(o, s) then Some(s) else None
  }

  /** `advance`: the next step, with a new order at the start of an epoch. */
  function Advanced(o: Oracle, s: State): State
    requires |s.order| > 0 && s.step >= 0
  {
    var next := s.(step := s.step + 1);
    if Slot(next) == 0 && !Done(next) then
      var shuffled := o.shuffle(s.order, s.random);
      next.(order := shuffled.0, random := shuffled.1)
    else next
  }

  /** `crop`: a start frame, and the generator moved on. */
  function Cropped(o: Oracle, s: State, frames: nat): (nat, State)
    requires frames >= 32
  {
    var d := o.draw(s.random, frames - 32);
    (d.0, s.(random := d.1))
  }

  /** What one training step works on. */
  datatype Visit = Visit(clip: int, crop: nat, rate: Word)

  /** Every clip has a usable number of frames. */
  predicate Clips(frames: seq<nat>, s: State) {
    |frames| == |s.order| && forall i :: 0 <= i < |frames| ==> 32 <= frames[i] <= 600
  }

  /** The visit of one turn of the training loop. */
  function VisitOf(o: Oracle, s: State, frames: seq<nat>): Visit
    requires Shaped(o, s) && !Done(s) && Clips(frames, s)
  {
    InRange(s);
    Visit(s.order[Slot(s)], Cropped(o, s, frames[s.order[Slot(s)]]).0, Rate(o, s))
  }

  /** The state after one turn of the training loop. */
  function Next(o: Oracle, s: State, frames: seq<nat>): State
    requires Shaped(o, s) && !Done(s) && Clips(frames, s)
  {
    InRange(s);
    Advanced(o, Cropped(o, s, frames[s.order[Slot(s)]]).1)
  }

  lemma InIota(n: nat, x: int)
    ensures x in multiset(Iota(n)) <==> 0 <= x < n
  {
    if 0 <= x < n { assert Iota(n)[x] == x; }
    if x in multiset(Iota(n)) { assert x in Iota(n); }
  }

  /** Slots are valid, and so are the clips in them. */
  lemma InRange(s: State)
    requires |s.order| > 0 && Permutation(s.order) && s.step >= 0
    ensures 0 <= Slot(s) < |s.order| && 0 <= s.order[Slot(s)] < |s.order|
  {
    var x := s.order[Slot(s)];
    assert x in multiset(s.order);
    InIota(|s.order|, x);
  }

  // ---------------------------------------------------------------- the laws can be met

  /** The sign bit, and what is left of a float without it. */
  function Sign(w: Word): nat { w / 0x8000_0000 }

  function Magnitude(w: Word): Word { w % 0x8000_0000 }

  const One: Word := 0x3f80_0000

  /** Bit patterns of finite positive floats. */
  predicate PositiveFloat(w: Word) { 0 < w < 0x7f80_0000 }

  /** Operations that keep the laws: no shuffling at all, and multiplication by one and minus one with the signs of
      floats. */
  function PlainOracle(): Oracle {
    Oracle(_ => seq(625, _ => 0), (s, r) => (s, r), (r, _) => (0, r),
           (a: Word, b: Word) => (Sign(a) + Sign(b)) % 2 * 0x8000_0000 + Magnitude(a),
           (w: Word) => PositiveFloat(w), (w: Word) => w <= One)
  }

  /** They are valid although two negative factors have a positive product, and some run can be planned with them. */
  lemma OracleExists() returns (s: State)
    ensures var o := PlainOracle();
      && ValidOracle(o) && o.mul(0x8000_0000 + One, 0x8000_0000 + One) == One && o.positive(One)
        && !o.positive(0x8000_0000 + One)
      && Begin(o, seq(64, _ => '0'), 1, 1, 0, One, One) == Some(s) && Planned(o, s)
  {
    var o := PlainOracle();
    forall a, b ensures MulLaw(o, a, b) {}
    forall t, r ensures ShuffleLaw(o, t, r) {}
    s := State(seq(64, _ => '0'), 1, 0, One, One, [0], o.seed(0));
    assert Iota(0) == [] && Iota(1) == [0];
    assert o.mul(One, One) == One;
    assert Decayed(o, One, One, 0) == One && Decayed(o, One, One, 1) == One;
  }

  /** A run that begins and passes the preflight check of its last learning rate is planned, from step zero. */
  lemma BeginIsPlanned(o: Oracle, id: string, clips: nat, epochs: int, seed: nat, lr: Word, decay: Word)
    requires ValidOracle(o) && epochs >= 0 && o.positive(Decayed(o, lr, decay, epochs))
    ensures var s := Begin(o, id, clips, epochs, seed, lr, decay);
      s.Some? ==> Planned(o, s.value) && s.value.step == 0 && |s.value.order| == clips && s.value.epochs == epochs
  {
    var s := Begin(o, id, clips, epochs, seed, lr, decay);
    if s.Some? {
      assert ShuffleLaw(o, Iota(clips), o.seed(seed));
      assert |multiset(s.value.order)| == |multiset(Iota(clips))|;
    }
  }

  // ---------------------------------------------------------------- every step keeps the state valid

  lemma ShufflePermutes(o: Oracle, order: seq<int>, r: Rng)
    requires ValidOracle(o) && Permutation(order)
    ensures Permutation(o.shuffle(order, r).0) && |o.shuffle(order, r).0| == |order|
  {
    assert ShuffleLaw(o, order, r);
    assert |multiset(o.shuffle(order, r).0)| == |multiset(order)|;
  }

  lemma {:induction false} EarlierRate(o: Oracle, lr: Word, decay: Word, k: nat, n: nat)
    requires ValidOracle(o) && o.positive(decay) && k <= n && o.positive(Decayed(o, lr, decay, n))
    ensures o.positive(Decayed(o, lr, decay, k))
    decreases n - k
  {
    if k < n {
      assert MulLaw(o, Decayed(o, lr, decay, n - 1), decay);
      EarlierRate(o, lr, decay, k, n - 1);
    }
  }

  lemma Above(q: int, e: int, n: int)
    requires n >= 0
    ensures q > e ==> q * n >= e * n + n
  {
    if q > e { Times(e + 1, q, n); }
  }

  lemma Times(a: int, b: int, n: int)
    requires a <= b && n >= 0
    ensures a * n <= b * n
  {
  }

  lemma EpochBound(step: int, n: int, epochs: int)
    requires n > 0 && 0 <= step <= epochs * n
    ensures 0 <= step / n <= epochs
  {
    var q := step / n;
    assert step == q * n + step % n;
    Above(q, epochs, n);
  }

  /** A planned run that starts valid is valid at every step. */
  lemma PlannedIsValid(o: Oracle, s: State)
    requires ValidOracle(o) && Shaped(o, s) && o.positive(Decayed(o, s.lr, s.decay, s.epochs))
    ensures Valid(o, s)
  {
    EpochBound(s.step, |s.order|, s.epochs);
    EarlierRate(o, s.lr, s.decay, Epoch(s), s.epochs);
  }

  /** The next state is valid again, with the same recipe. */
  lemma NextKeeps(o: Oracle, s: State, frames: seq<nat>)
    requires ValidOracle(o) && Planned(o, s) && !Done(s) && Clips(frames, s)
    ensures var t := Next(o, s, frames);
      && Planned(o, t) && Clips(frames, t) && t.step == s.step + 1 && |t.order| == |s.order|
      && t.identity == s.identity && t.epochs == s.epochs && t.lr == s.lr && t.decay == s.decay
  {
    InRange(s);
    var c := Cropped(o, s, frames[s.order[Slot(s)]]).1;
    ShufflePermutes(o, c.order, c.random);
    PlannedIsValid(o, Next(o, s, frames));
  }

  // ---------------------------------------------------------------- whole runs

  /** A loop that moves a state on and shows something of it at every turn. */
  datatype Loop<!S, !V> = Loop(next: S -> S, visit: S -> V)

  /** The state after k turns. */
  function Run<S, V>(l: Loop<S, V>, s: S, k: nat): S {
    if k == 0 then s else l.next(Run(l, s, k - 1))
  }

  /** What the next `count` turns show. */
  function Trace<S, V>(l: Loop<S, V>, s: S, count: nat): (v: seq<V>)
    ensures |v| == count
    decreases count
  {
    if count == 0 then [] else [l.visit(s)] + Trace(l, l.next(s), count - 1)
  }

  lemma {:induction false} RunNext<S, V>(l: Loop<S, V>, s: S, k: nat)
    ensures Run(l, l.next(s), k) == Run(l, s, k + 1)
  {
    if k > 0 { RunNext(l, s, k - 1); }
  }

  /** Cutting a run at any turn and going on from the state there shows the same. */
  lemma {:induction false} TraceSplit<S, V>(l: Loop<S, V>, s: S, k: nat, count: nat)
    requires k <= count
    ensures Trace(l, s, count) == Trace(l, s, k) + Trace(l, Run(l, s, k), count - k)
    decreases k
  {
    if k > 0 {
      RunNext(l, s, k - 1);
      TraceSplit(l, l.next(s), k - 1, count - 1);
    }
  }

  lemma {:induction false} TraceAt<S, V>(l: Loop<S, V>, s: S, count: nat, k: nat)
    requires k < count
    ensures Trace(l, s, count)[k] == l.visit(Run(l, s, k))
    decreases k
  {
    if k > 0 {
      RunNext(l, s, k - 1);
      TraceAt(l, l.next(s), count - 1, k - 1);
    }
  }

  /** l turns a run that is under way as the training loop does. */
  ghost predicate TurnsAt(l: Loop<State, Visit>, o: Oracle, frames: seq<nat>, s: State) {
    Shaped(o, s) && !Done(s) && Clips(frames, s) ==>
      l.next(s) == Next(o, s, frames) && l.visit(s) == VisitOf(o, s, frames)
  }

  ghost predicate Turns(l: Loop<State, Visit>, o: Oracle, frames: seq<nat>) { forall s :: TurnsAt(l, o, frames, s) }

  /** The training loop over clips of the given lengths. */
  function Training(o: Oracle, frames: seq<nat>): (l: Loop<State, Visit>)
    ensures Turns(l, o, frames)
  {
    var l := Loop(
      (s: State) => if Shaped(o, s) && !Done(s) && Clips(frames, s) then Next(o, s, frames) else s,
      (s: State) => if Shaped(o, s) && !Done(s) && Clips(frames, s) then VisitOf(o, s, frames) else Visit(0, 0, 0));
    assert forall s :: TurnsAt(l, o, frames, s);
    l
  }

  /** t continues the run of s, k steps further on. */
  predicate Continues(s: State, t: State, k: nat) {
    && t.step == s.step + k && |t.order| == |s.order| && t.identity == s.identity && t.epochs == s.epochs
    && t.lr == s.lr && t.decay == s.decay
  }

  /** Every step of a planned run is valid, to its end. */
  lemma {:induction false} RunKeeps(l: Loop<State, Visit>, o: Oracle, s: State, frames: seq<nat>, k: nat)
    requires ValidOracle(o) && Planned(o, s) && Clips(frames, s) && Turns(l, o, frames) && s.step + k <= Total(s)
    ensures Planned(o, Run(l, s, k)) && Clips(frames, Run(l, s, k)) && Continues(s, Run(l, s, k), k)
  {
    if k > 0 {
      RunKeeps(l, o, s, frames, k - 1);
      assert TurnsAt(l, o, frames, Run(l, s, k - 1));
      NextKeeps(o, Run(l, s, k - 1), frames);
    }
  }

  // ---------------------------------------------------------------- epochs

  lemma SlotInEpoch(e: int, i: int, n: int)
    requires n > 0 && 0 <= i < n && e >= 0
    ensures (e * n + i) % n == i && (e * n + i) / n == e
  {
    var x := e * n + i;
    var q := x / n;
    assert x == q * n + x % n;
    Above(q, e, n);
    Above(e, q, n);
  }

  /** Away from the last slot a turn keeps the order. */
  lemma OrderStays(o: Oracle, s: State, frames: seq<nat>, e: nat, i: nat)
    requires ValidOracle(o) && Planned(o, s) && Clips(frames, s) && !Done(s)
    requires s.step == e * |s.order| + i && i + 1 < |s.order|
    ensures Next(o, s, frames).order == s.order
  {
    InRange(s);
    SlotInEpoch(e, i + 1, |s.order|);
  }

  /** Within an epoch the order stays as it is. */
  lemma {:induction false} OrderHolds(l: Loop<State, Visit>, o: Oracle, s: State, frames: seq<nat>, e: nat, i: nat)
    requires ValidOracle(o) && Planned(o, s) && Clips(frames, s) && Turns(l, o, frames)
    requires s.step == e * |s.order| && i < |s.order| && s.step + i < Total(s)
    ensures Run(l, s, i).order == s.order
  {
    if i > 0 {
      OrderHolds(l, o, s, frames, e, i - 1);
      RunKeeps(l, o, s, frames, i - 1);
      var before := Run(l, s, i - 1);
      assert TurnsAt(l, o, frames, before);
      OrderStays(o, before, frames, e, i - 1);
    }
  }

  /** The j-th turn of an epoch visits the j-th clip of its order. */
  lemma EpochTurn(l: Loop<State, Visit>, o: Oracle, s: State, frames: seq<nat>, e: nat, j: nat)
    requires ValidOracle(o) && Planned(o, s) && Clips(frames, s) && Turns(l, o, frames)
    requires s.step == e * |s.order| && s.step + |s.order| <= Total(s) && j < |s.order|
    ensures Trace(l, s, |s.order|)[j].clip == s.order[j]
  {
    var t := Run(l, s, j);
    TraceAt(l, s, |s.order|, j);
    OrderHolds(l, o, s, frames, e, j);
    RunKeeps(l, o, s, frames, j);
    SlotInEpoch(e, j, |s.order|);
    assert TurnsAt(l, o, frames, t);
    InRange(t);
  }

  lemma OncePerOrder(order: seq<int>, c: int) returns (i: nat)
    requires Permutation(order) && 0 <= c < |order|
    ensures i < |order| && order[i] == c && forall j :: 0 <= j < |order| && order[j] == c ==> j == i
  {
    InIota(|order|, c);
    assert c in multiset(order);
    i :| i < |order| && order[i] == c;
    IotaOnce(|order|, c);
    forall j | 0 <= j < |order| && order[j] == c ensures j == i {
      if j != i { TwiceCounts(order, i, j); }
    }
  }

  lemma CountLast(s: seq<int>, x: int, c: int)
    ensures multiset(s + [x])[c] == multiset(s)[c] + (if c == x then 1 else 0)
  {
  }

  lemma {:induction false} IotaOnce(n: nat, c: int)
    requires 0 <= c < n
    ensures multiset(Iota(n))[c] == 1
  {
    CountLast(Iota(n - 1), n - 1, c);
    InIota(n - 1, c);
    if c < n - 1 { IotaOnce(n - 1, c); }
  }

  lemma TwiceCounts(s: seq<int>, i: nat, j: nat)
    requires i < |s| && j < |s| && i != j && s[i] == s[j]
    ensures multiset(s)[s[i]] >= 2
  {
    var a, b := if i < j then i else j, if i < j then j else i;
    assert s == s[..a] + [s[a]] + s[a + 1..b] + [s[b]] + s[b + 1..];
  }

  /** Every epoch of every run visits every clip exactly once. */
  lemma EpochVisitsEachClipOnce(l: Loop<State, Visit>, o: Oracle, s: State, frames: seq<nat>, e: nat, c: int)
    returns (i: nat)
    requires ValidOracle(o) && Planned(o, s) && Clips(frames, s) && Turns(l, o, frames)
    requires s.step == e * |s.order| && s.step + |s.order| <= Total(s) && 0 <= c < |s.order|
    ensures var v := Trace(l, s, |s.order|);
      i < |v| && v[i].clip == c && forall j :: 0 <= j < |v| && v[j].clip == c ==> j == i
  {
    i := OncePerOrder(s.order, c);
    forall j: nat | j < |s.order| ensures Trace(l, s, |s.order|)[j].clip == s.order[j] {
      EpochTurn(l, o, s, frames, e, j);
    }
  }

  // ---------------------------------------------------------------- orders and generators of whole runs

  /** The largest start a crop of this clip can have. */
  function LastStart(frames: seq<nat>, clip: int): nat {
    if 0 <= clip < |frames| && frames[clip] >= 32 then frames[clip] - 32 else 0
  }

  /** The generator after the crops of the first k clips of an order. */
  function AfterCrops(o: Oracle, frames: seq<nat>, order: seq<int>, random: Rng, k: nat): Rng
    requires k <= |order|
  {
    if k == 0 then random
    else o.draw(AfterCrops(o, frames, order, random, k - 1), LastStart(frames, order[k - 1])).1
  }

  /** One turn at slot i of epoch e: the crop of its clip moves the generator on. Only behind the last slot, and only if
      another epoch follows, the order and the generator are those of a shuffle. */
  lemma TurnDraws(l: Loop<State, Visit>, o: Oracle, s: State, frames: seq<nat>, e: nat, i: nat)
    requires Shaped(o, s) && !Done(s) && Clips(frames, s) && Turns(l, o, frames)
    requires s.step == e * |s.order| + i && i < |s.order|
    ensures var drawn := o.draw(s.random, LastStart(frames, s.order[i])); var t := l.next(s);
      && t.step == s.step + 1
      && (t.order, t.random) ==
        (if i + 1 == |s.order| && e + 1 != s.epochs then o.shuffle(s.order, drawn.1) else (s.order, drawn.1))
      && l.visit(s) == Visit(s.order[i], drawn.0, Decayed(o, s.lr, s.decay, e))
  {
    assert TurnsAt(l, o, frames, s);
    SlotInEpoch(e, i, |s.order|);
    InRange(s);
    var drawn := o.draw(s.random, LastStart(frames, s.order[i]));
    assert l.visit(s) == Visit(s.order[i], drawn.0, Rate(o, s));
    assert l.next(s) == Advanced(o, s.(random := drawn.1));
    AdvancedIs(o, s.(random := drawn.1), e, i);
  }

  lemma AdvancedIs(o: Oracle, s: State, e: nat, i: nat)
    requires s.step == e * |s.order| + i && i < |s.order|
    ensures var t := Advanced(o, s);
      && t.step == s.step + 1
      && (t.order, t.random) ==
        if i + 1 == |s.order| && e + 1 != s.epochs then o.shuffle(s.order, s.random) else (s.order, s.random)
  {
    if i + 1 < |s.order| {
      SlotInEpoch(e, i + 1, |s.order|);
    } else {
      SlotInEpoch(e + 1, 0, |s.order|);
      EpochsLeft(e + 1, s.epochs, |s.order|);
      assert s.step + 1 == (e + 1) * |s.order| + 0;
    }
  }

  lemma EpochsLeft(e: int, epochs: int, n: int)
    requires n > 0
    ensures e * n < epochs * n <==> e < epochs
    ensures e * n == epochs * n <==> e == epochs
  {
    if e < epochs { Times(e + 1, epochs, n); }
    if e > epochs { Times(epochs + 1, e, n); }
  }

  lemma InEpoch(e: nat, epochs: int, n: nat, i: nat)
    requires n > 0 && i < n && e < epochs
    ensures e * n + i < epochs * n
  {
    Times(e + 1, epochs, n);
  }

  /** Within an epoch the order stays and the generator is moved by the crops alone. */
  lemma {:induction false} EpochRuns(l: Loop<State, Visit>, o: Oracle, s: State, frames: seq<nat>, e: nat, i: nat)
    requires ValidOracle(o) && Planned(o, s) && Clips(frames, s) && Turns(l, o, frames)
    requires s.step == e * |s.order| && e < s.epochs && i < |s.order|
    ensures Run(l, s, i).order == s.order && Run(l, s, i).random == AfterCrops(o, frames, s.order, s.random, i)
  {
    if i > 0 {
      EpochRuns(l, o, s, frames, e, i - 1);
      InEpoch(e, s.epochs, |s.order|, i);
      RunKeeps(l, o, s, frames, i - 1);
      TurnDraws(l, o, Run(l, s, i - 1), frames, e, i - 1);
    }
  }

  /** The next epoch has the shuffled order, under the generator this epoch's crops have left; behind the last epoch
      nothing is shuffled. */
  lemma EpochEnds(l: Loop<State, Visit>, o: Oracle, s: State, frames: seq<nat>, e: nat)
    requires ValidOracle(o) && Planned(o, s) && Clips(frames, s) && Turns(l, o, frames)
    requires s.step == e * |s.order| && e < s.epochs
    ensures var left := AfterCrops(o, frames, s.order, s.random, |s.order|); var t := Run(l, s, |s.order|);
      (t.order, t.random) == if e + 1 < s.epochs then o.shuffle(s.order, left) else (s.order, left)
  {
    var i := |s.order| - 1;
    EpochRuns(l, o, s, frames, e, i);
    InEpoch(e, s.epochs, |s.order|, i);
    RunKeeps(l, o, s, frames, i);
    TurnDraws(l, o, Run(l, s, i), frames, e, i);
  }

  /** Order and generator at the start of epoch e. */
  function EpochStart(o: Oracle, frames: seq<nat>, order: seq<int>, random: Rng, e: nat): (seq<int>, Rng) {
    if e == 0 then (order, random) else
    var (before, r) := EpochStart(o, frames, order, random, e - 1);
    o.shuffle(before, AfterCrops(o, frames, before, r, |before|))
  }

  lemma {:induction false} RunSplit<S, V>(l: Loop<S, V>, s: S, a: nat, b: nat)
    ensures Run(l, s, a + b) == Run(l, Run(l, s, a), b)
  {
    if b > 0 { RunSplit(l, s, a, b - 1); }
  }

  /** Every epoch of a run starts with the order and the generator that shuffling and the crops have left. */
  lemma {:induction false} EpochStarts(l: Loop<State, Visit>, o: Oracle, s: State, frames: seq<nat>, e: nat)
    requires ValidOracle(o) && Planned(o, s) && Clips(frames, s) && Turns(l, o, frames) && s.step == 0 && e < s.epochs
    ensures e * |s.order| < Total(s)
    ensures var t := Run(l, s, e * |s.order|); (t.order, t.random) == EpochStart(o, frames, s.order, s.random, e)
    decreases e
  {
    var n := |s.order|;
    InEpoch(e, s.epochs, n, 0);
    if e > 0 {
      EpochStarts(l, o, s, frames, e - 1);
      var t := Run(l, s, (e - 1) * n);
      RunKeeps(l, o, s, frames, (e - 1) * n);
      EpochEnds(l, o, t, frames, e - 1);
      RunSplit(l, s, (e - 1) * n, n);
      assert (e - 1) * n + n == e * n;
    } else {
      assert 0 * n == 0;
    }
  }

  /** The visits of a whole run: in epoch e the j-th visit is to the j-th clip of that epoch's order, its crop is drawn
      from the generator the crops before it have left, and its rate has decayed once for every epoch before. */
  lemma UncutVisit(l: Loop<State, Visit>, o: Oracle, s: State, frames: seq<nat>, e: nat, j: nat)
    requires ValidOracle(o) && Planned(o, s) && Clips(frames, s) && Turns(l, o, frames) && s.step == 0
    requires e < s.epochs && j < |s.order|
    ensures 0 <= e * |s.order| + j < Total(s) && |EpochStart(o, frames, s.order, s.random, e).0| == |s.order|
    ensures var (order, random) := EpochStart(o, frames, s.order, s.random, e);
      Trace(l, s, Total(s))[e * |s.order| + j]
      == Visit(order[j], o.draw(AfterCrops(o, frames, order, random, j), LastStart(frames, order[j])).0,
        Decayed(o, s.lr, s.decay, e))
  {
    var k := e * |s.order| + j;
    InEpoch(e, s.epochs, |s.order|, j);
    StateInEpoch(l, o, s, frames, e, j);
    RunKeeps(l, o, s, frames, k);
    TurnDraws(l, o, Run(l, s, k), frames, e, j);
    TraceAt(l, s, Total(s), k);
  }

  lemma StateInEpoch(l: Loop<State, Visit>, o: Oracle, s: State, frames: seq<nat>, e: nat, j: nat)
    requires ValidOracle(o) && Planned(o, s) && Clips(frames, s) && Turns(l, o, frames) && s.step == 0
    requires e < s.epochs && j < |s.order|
    ensures |EpochStart(o, frames, s.order, s.random, e).0| == |s.order|
    ensures var (order, random) := EpochStart(o, frames, s.order, s.random, e); var t := Run(l, s, e * |s.order| + j);
      t.order == order && t.random == AfterCrops(o, frames, order, random, j)
  {
    var n := |s.order|;
    InEpoch(e, s.epochs, n, 0);
    EpochStarts(l, o, s, frames, e);
    RunKeeps(l, o, s, frames, e * n);
    EpochRuns(l, o, Run(l, s, e * n), frames, e, j);
    RunSplit(l, s, e * n, j);
  }

  /** The rate is that of the start in the first epoch, and decays once from each epoch to the next. */
  lemma EpochDecays(l: Loop<State, Visit>, o: Oracle, s: State, frames: seq<nat>, e: nat, i: nat, j: nat)
    requires ValidOracle(o) && Planned(o, s) && Clips(frames, s) && Turns(l, o, frames) && s.step == 0
    requires e < s.epochs && i < |s.order| && j < |s.order|
    ensures 0 <= e * |s.order| + j < Total(s) && (e > 0 ==> 0 <= (e - 1) * |s.order| + i < Total(s))
    ensures Trace(l, s, Total(s))[e * |s.order| + j].rate
      == if e == 0 then s.lr else o.mul(Trace(l, s, Total(s))[(e - 1) * |s.order| + i].rate, s.decay)
  {
    RateOf(l, o, s, frames, e, j);
    if e > 0 { RateOf(l, o, s, frames, e - 1, i); }
  }

  lemma RateOf(l: Loop<State, Visit>, o: Oracle, s: State, frames: seq<nat>, e: nat, j: nat)
    requires ValidOracle(o) && Planned(o, s) && Clips(frames, s) && Turns(l, o, frames) && s.step == 0
    requires e < s.epochs && j < |s.order|
    ensures 0 <= e * |s.order| + j < Total(s)
    ensures Trace(l, s, Total(s))[e * |s.order| + j].rate == Decayed(o, s.lr, s.decay, e)
  {
    UncutVisit(l, o, s, frames, e, j);
  }
}
