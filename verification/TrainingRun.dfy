/** The training run as an object whose methods move it on, print it and read it back. */
module TrainingRun {
  import opened Spools
  import opened Bytes
  import opened Decimals
  import opened RunState
  import opened RunText

  class Run {
    const oracle: Oracle
    var identity: string
    var epochs: int
    var step: int
    var lr: Word
    var decay: Word
    var order: seq<int>
    var random: Rng

    constructor Restore(oracle: Oracle, s: State)
      ensures this.oracle == oracle && Value() == s
    {
      this.oracle := oracle;
      identity, epochs, step, lr, decay, order, random := s.identity, s.epochs, s.step, s.lr, s.decay, s.order,
        s.random;
    }

    function Value(): State
      reads this
    {
      State(identity, epochs, step, lr, decay, order, random)
    }

    /** The clip of the next step; None when the run is complete. */
    method CurrentClip() returns (clip: Option<int>)
      requires Valid(oracle, Value())
      ensures clip.None? <==> Done(Value())
      ensures clip.Some? ==> 0 <= clip.value < |order| && clip.value == order[step % |order|]
    {
      InRange(Value());
      clip := if step == epochs * |order| then None else Some(order[step % |order|]);
    }

    method Crop(frames: nat) returns (start: Option<nat>)
      requires Valid(oracle, Value())
      modifies `random
      ensures start.Some? <==> !Done(old(Value())) && 32 <= frames <= 600
      ensures start.Some? ==> (start.value, Value()) == Cropped(oracle, old(Value()), frames)
      ensures start.None? ==> Value() == old(Value())
    {
      if step == epochs * |order| || frames < 32 || frames > 600 { return None; }
      var d := oracle.draw(random, frames - 32);
      random := d.1;
      start := Some(d.0);
    }

    method Advance() returns (ok: bool)
      requires Valid(oracle, Value())
      modifies `step, `order, `random
      ensures ok == !Done(old(Value()))
      ensures ok ==> Value() == Advanced(oracle, old(Value()))
      ensures ok ==> step == old(step) + 1
      ensures ok && step % |old(order)| == 0 && step != epochs * |old(order)| ==>
        (order, random) == oracle.shuffle(old(order), old(random))
      ensures ok && (step % |old(order)| != 0 || step == epochs * |old(order)|) ==>
        order == old(order) && random == old(random)
      ensures !ok ==> Value() == old(Value())
    {
      if step == epochs * |order| { return false; }
      step := step + 1;
      if step % |order| == 0 && step != epochs * |order| {
        var shuffled := oracle.shuffle(order, random);
        order, random := shuffled.0, shuffled.1;
      }
      ok := true;
    }

    method LearningRate() returns (rate: Option<Word>)
      requires |order| > 0 && step >= 0
      ensures rate == if oracle.positive(Rate(oracle, Value())) then Some(Rate(oracle, Value())) else None
    {
      var value := lr;
      var i := 0;
      EpochNonNegative(step, |order|);
      while i < step / |order|
        invariant 0 <= i <= step / |order| && value == Decayed(oracle, lr, decay, i)
      {
        value := oracle.mul(value, decay);
        i := i + 1;
      }
      rate := if oracle.positive(value) then Some(value) else None;
    }

    /** One turn of the training loop: the clip, its crop, and the state moved on. */
    method Turn(frames: seq<nat>) returns (visit: Visit)
      requires ValidOracle(oracle) && Planned(oracle, Value()) && !Done(Value()) && Clips(frames, Value())
      modifies `step, `order, `random
      ensures visit == VisitOf(oracle, old(Value()), frames) && Value() == Next(oracle, old(Value()), frames)
      ensures Planned(oracle, Value()) && Clips(frames, Value())
    {
      NextKeeps(oracle, Value(), frames);
      InRange(Value());
      var rate := LearningRate();
      var clip := CurrentClip();
      var crop := Crop(frames[clip.value]);
      var ok := Advance();
      visit := Visit(clip.value, crop.value, rate.value);
    }

    /** Training to the end of the schedule. */
    method Finish(frames: seq<nat>, ghost l: Loop<State, Visit>) returns (visits: seq<Visit>)
      requires ValidOracle(oracle) && Planned(oracle, Value()) && Clips(frames, Value()) && Turns(l, oracle, frames)
      modifies `step, `order, `random
      ensures Done(Value()) && visits == Trace(l, old(Value()), Total(old(Value())) - old(step))
    {
      ghost var s0, count := Value(), Total(Value()) - step;
      visits := [];
      while step != epochs * |order|
        invariant Planned(oracle, Value()) && Clips(frames, Value()) && Total(Value()) == Total(s0)
          && step == s0.step + |visits|
        invariant 0 <= |visits| <= count && visits + Trace(l, Value(), count - |visits|) == Trace(l, s0, count)
        decreases epochs * |order| - step
      {
        ghost var now := Value();
        assert TurnsAt(l, oracle, frames, now);
        NextKeeps(oracle, now, frames);
        var visit := Turn(frames);
        NextVisit(l, s0, count, now, visits, visit, Value());
        visits := visits + [visit];
      }
      assert visits + [] == visits;
    }
  }

  /** The visit made and those to come are the whole trace again. */
  lemma NextVisit(l: Loop<State, Visit>, s0: State, count: nat, now: State, visits: seq<Visit>, visit: Visit,
                  after: State)
    requires |visits| < count && visits + Trace(l, now, count - |visits|) == Trace(l, s0, count)
    requires visit == l.visit(now) && after == l.next(now)
    ensures visits + [visit] + Trace(l, after, count - |visits| - 1) == Trace(l, s0, count)
  {
    assert Trace(l, now, count - |visits|) == [visit] + Trace(l, after, count - |visits| - 1);
  }

  lemma EpochNonNegative(step: int, n: int)
    requires step >= 0 && n > 0
    ensures step / n >= 0
  {
  }

  /** `serialize`: validated, printed and checked against the size bound. */
  method Serialize(f: FloatText, o: Oracle, s: State) returns (text: Option<string>)
    requires ValidFloats(f, o)
    ensures text.Some? <==> Valid(o, s)
    ensures text.Some? ==> (forall i :: 0 <= i < |s.order| ==> s.order[i] >= 0) && text.value == Serialized(f, s)
  {
    if !Valid(o, s) { return None; }
    ParseSerialized(f, o, s);
    var order := PrintOrder(Nats(s.order));
    var words := PrintRng(s.random);
    var out := Magic + ([' '] + (Num(1) + (['\n'] + Recipe(f, s, order + (['\n'] + (words + ['\n']))))));
    if |out| > MaxText { return None; }
    text := Some(out);
  }

  lemma Join3(a: string, b: string, c: string)
    ensures a + b + c == a + (b + c)
  {
  }

  method PrintOrder(order: seq<nat>) returns (text: string)
    ensures text == Separated(order)
  {
    text := "";
    var i := 0;
    assert order[0..] == order && "" + Separated(order) == Separated(order);
    while i < |order|
      invariant 0 <= i <= |order| && text + Separated(order[i..]) == Separated(order)
    {
      assert order[i..][1..] == order[i + 1..];
      Join3(text, Num(order[i]), [' '] + Separated(order[i + 1..]));
      Join3(text + Num(order[i]), [' '], Separated(order[i + 1..]));
      text := text + Num(order[i]) + [' '];
      i := i + 1;
    }
    assert text + "" == text;
  }

  /** The words of the generator: a space before every word but the first. */
  method PrintRng(r: seq<Word>) returns (text: string)
    requires |r| > 0
    ensures text == RngText(r)
  {
    text := Num(r[0]);
    var i := 1;
    ghost var left, whole := r[1..], RngText(r);
    RngOne(r);
    while i < |r|
      invariant 1 <= i <= |r| && left == r[i..] && text + RngRest(left) == whole
    {
      Dropped(r, i, left);
      RngStep(text, left, left[1..], whole);
      text := text + [' '] + Num(r[i]);
      left := left[1..];
      i := i + 1;
    }
    assert text + "" == text;
  }

  lemma Dropped<T>(r: seq<T>, i: nat, left: seq<T>)
    requires i < |r| && left == r[i..]
    ensures |left| > 0 && left[0] == r[i] && left[1..] == r[i + 1..]
  {
  }

  /** One more word printed, the rest still to come. */
  lemma RngStep(text: string, left: seq<nat>, rest: seq<nat>, whole: string)
    requires |left| > 0 && rest == left[1..] && text + RngRest(left) == whole
    ensures text + [' '] + Num(left[0]) + RngRest(rest) == whole
  {
    RngOne(left);
    Join3(text, [' '], Num(left[0]) + RngRest(rest));
    Join3(text + [' '], Num(left[0]), RngRest(rest));
  }

  lemma RngOne(r: seq<nat>)
    requires |r| > 0
    ensures RngText(r) == Num(r[0]) + RngRest(r[1..])
  {
    if |r| == 1 { assert Num(r[0]) + "" == Num(r[0]); }
  }

  function RngRest(r: seq<nat>): string { if |r| == 0 then "" else [' '] + RngText(r) }

  /** Reading `count` numbers one after the other. */
  method ReadNumbers(s: string, count: nat, limit: nat) returns (r: Option<Numbers>)
    ensures r == ReadNats(s, count, limit)
  {
    var values: seq<nat> := [];
    var rest := s;
    ghost var goal := ReadNats(s, count, limit);
    BeforeNone(goal);
    while |values| < count
      invariant |values| <= count && Before(values, ReadNats(rest, count - |values|, limit)) == goal
      decreases count - |values|
    {
      var n := ReadNat(rest, limit);
      if n.None? { return None; }
      BeforeMore(values, n.value.value, ReadNats(n.value.rest, count - |values| - 1, limit));
      values := values + [n.value.value];
      rest := n.value.rest;
    }
    assert values + [] == values;
    r := Some(Numbers(values, rest));
  }

  ghost function Before(values: seq<nat>, r: Option<Numbers>): Option<Numbers> {
    if r.None? then None else Some(Numbers(values + r.value.values, r.value.rest))
  }

  lemma BeforeNone(r: Option<Numbers>)
    ensures Before([], r) == r
  {
    if r.Some? { assert [] + r.value.values == r.value.values; }
  }

  lemma BeforeMore(values: seq<nat>, n: nat, r: Option<Numbers>)
    ensures Before(values, if r.None? then None else Some(Numbers([n] + r.value.values, r.value.rest)))
      == Before(values + [n], r)
  {
    if r.Some? { assert values + ([n] + r.value.values) == values + [n] + r.value.values; }
  }

  /** `parse`: the fields one after the other, the two lists by loops, and validation at the end. */
  method Parse(f: FloatText, o: Oracle, text: string) returns (s: Option<State>)
    ensures s == Parsed(f, o, text)
  {
    if |text| == 0 || |text| > MaxText { return None; }
    var magic := ReadToken(text);
    if magic.None? || magic.value.text != Magic { return None; }
    var version := ReadNat(magic.value.rest, IntMax);
    if version.None? || version.value.value != 1 { return None; }
    s := ParseRecipe(f, o, version.value.rest);
  }

  method ParseRecipe(f: FloatText, o: Oracle, text: string) returns (s: Option<State>)
    ensures s == ParsedRecipe(f, o, text)
  {
    var identity := ReadToken(text);
    if identity.None? { return None; }
    var epochs := ReadNat(identity.value.rest, IntMax);
    if epochs.None? { return None; }
    var step := ReadNat(epochs.value.rest, IntMax);
    if step.None? { return None; }
    var lr := ReadFloat(f, step.value.rest);
    if lr.None? { return None; }
    var decay := ReadFloat(f, lr.value.1);
    if decay.None? { return None; }
    var n := ReadNat(decay.value.1, IntMax);
    if n.None? || n.value.value < 1 || n.value.value > 4096 { return None; }
    var order := ReadNumbers(n.value.rest, n.value.value, IntMax);
    if order.None? { return None; }
    var words := ReadNumbers(order.value.rest, 625, 0xffff_ffff);
    if words.None? || SkipSpace(words.value.rest) != "" { return None; }
    var state := State(identity.value.text, epochs.value.value, step.value.value, lr.value.0, decay.value.0,
      order.value.values, words.value.values);
    s := if Valid(o, state) then Some(state) else None;
  }
}
