/** The cancel channel of a training job: a one-byte file that a source writes and a reader polls between steps. */
module TrainingCancel {
  import opened Spools
  import opened Bytes

  datatype TrainingResult = Completed | Error | Cancelled
  datatype CancelDelivery = Delivered | Closed | Failed

  const Zero: byte := 48
  const One: byte := 49

  // ---------------------------------------------------------------- every interleaving of a job and its source

  /** Where the job is: before the poll of iteration i (the final poll when i is past the last), in the body of
      iteration i, or returned. */
  datatype Place = Polling(i: nat) | Stepping(i: nat) | Stopped(result: TrainingResult)

  /** `broken` and `unreadable` are the sticky errors of the two ends; `log` the iterations completed so far. */
  datatype State = State(place: Place, cell: byte, open: bool, broken: bool, requested: bool, unreadable: bool,
                         log: seq<nat>)

  /** One step of the job or one serialized call on the source; the flag is false when its system call, or the body,
      fails. */
  datatype Event = Request(ok: bool) | Close(ok: bool) | Poll(ok: bool) | Body(ok: bool)

  function Start(): State { State(Polling(0), Zero, true, false, false, false, []) }

  predicate Enabled(s: State, e: Event) {
    match e
    case Request(_) => true
    case Close(_) => true
    case Poll(_) => s.place.Polling?
    case Body(_) => s.place.Stepping?
  }

  function RequestStep(s: State, ok: bool): State {
    if s.broken || !s.open || s.requested then s
    else if ok then s.(cell := One, requested := true)
    else s.(broken := true)
  }

  function CloseStep(s: State, ok: bool): State {
    if s.open then s.(open := false, broken := s.broken || !ok) else s
  }

  function PollStep(s: State, steps: int, ok: bool): State
    requires s.place.Polling?
  {
    if s.unreadable || !ok then s.(unreadable := true, place := Stopped(Error))
    else if s.cell == One then s.(place := Stopped(Cancelled))
    else if s.place.i < steps then s.(place := Stepping(s.place.i))
    else s.(place := Stopped(Completed))
  }

  function BodyStep(s: State, ok: bool): State
    requires s.place.Stepping?
  {
    if ok then s.(place := Polling(s.place.i + 1), log := s.log + [s.place.i]) else s.(place := Stopped(Error))
  }

  function Next(s: State, steps: int, e: Event): State
    requires Enabled(s, e)
  {
    match e
    case Request(ok) => RequestStep(s, ok)
    case Close(ok) => CloseStep(s, ok)
    case Poll(ok) => PollStep(s, steps, ok)
    case Body(ok) => BodyStep(s, ok)
  }

  /** A possible order of events from s. */
  predicate Path(s: State, steps: int, events: seq<Event>)
    decreases |events|
  {
    |events| == 0 || (Enabled(s, events[0]) && Path(Next(s, steps, events[0]), steps, events[1..]))
  }

  function After(s: State, steps: int, events: seq<Event>): State
    requires Path(s, steps, events)
    decreases |events|
  {
    if |events| == 0 then s else After(Next(s, steps, events[0]), steps, events[1..])
  }

  function UpTo(n: nat): seq<nat> { seq(n, i => i) }

  /** What holds between any two events. */
  predicate Sound(s: State, steps: int) {
    && (s.requested <==> s.cell == One) && (s.cell == Zero || s.cell == One)
    && s.log == UpTo(|s.log|) && |s.log| <= Max(steps, 0)
    && (s.unreadable ==> s.place == Stopped(Error))
    && match s.place
       case Polling(i) => i == |s.log|
       case Stepping(i) => i == |s.log| < steps
       case Stopped(r) => (r == Completed ==> |s.log| == Max(steps, 0)) && (r == Cancelled ==> s.requested)
  }

  lemma SoundNext(s: State, steps: int, e: Event)
    requires Sound(s, steps) && Enabled(s, e)
    ensures Sound(Next(s, steps, e), steps)
  {
    if e.Body? {
      assert UpTo(|s.log|) + [|s.log|] == UpTo(|s.log| + 1);
    }
  }

  lemma {:induction false} SoundAfter(s: State, steps: int, events: seq<Event>)
    requires Sound(s, steps) && Path(s, steps, events)
    ensures Sound(After(s, steps, events), steps)
    decreases |events|
  {
    if |events| > 0 {
      SoundNext(s, steps, events[0]);
      SoundAfter(Next(s, steps, events[0]), steps, events[1..]);
    }
  }

  /** Steps the job itself takes. */
  function Turns(events: seq<Event>): nat
    decreases |events|
  {
    if |events| == 0 then 0 else (if events[0].Poll? || events[0].Body? then 1 else 0) + Turns(events[1..])
  }

  predicate Failure(events: seq<Event>) { exists e :: e in events && (e == Poll(false) || e == Body(false)) }

  /** The turns left to a job whose channel already says 1. */
  function TurnsLeft(p: Place): nat {
    match p
    case Stepping(_) => 2
    case Polling(_) => 1
    case Stopped(_) => 0
  }

  /** Once a request has been delivered, only the body already past its poll may still complete; the job stops at
      its next poll, as cancelled, or as an error when that body or that poll fails; and a job that had already
      returned is left alone. */
  lemma {:induction false} AfterDelivery(s: State, steps: int, events: seq<Event>)
    requires Sound(s, steps) && s.requested && Path(s, steps, events)
    ensures var t := After(s, steps, events);
      && s.log <= t.log && |t.log| <= |s.log| + (if s.place.Stepping? then 1 else 0)
      && Turns(events) <= TurnsLeft(s.place)
      && (Turns(events) == TurnsLeft(s.place) ==> t.place.Stopped?)
      && (s.place.Stopped? ==> t.place == s.place)
      && (!s.place.Stopped? && t.place.Stopped? ==> t.place.result == if Failure(events) then Error else Cancelled)
      && t.requested && t.cell == One
    decreases |events|
  {
    if |events| > 0 {
      var n := Next(s, steps, events[0]);
      SoundNext(s, steps, events[0]);
      assert n.requested;
      AfterDelivery(n, steps, events[1..]);
      FailureFirst(events);
      if n.place.Stopped? { NoFailureAfterStop(n, steps, events[1..]); }
    }
  }

  lemma FailureFirst(events: seq<Event>)
    requires |events| > 0
    ensures Failure(events) <==> events[0] == Poll(false) || events[0] == Body(false) || Failure(events[1..])
  {
    assert events[0] in events;
    assert forall e :: e in events[1..] ==> e in events;
    if Failure(events) {
      var e :| e in events && (e == Poll(false) || e == Body(false));
      var k :| 0 <= k < |events| && events[k] == e;
      assert k == 0 || events[1..][k - 1] == e;
      assert k == 0 || e in events[1..];
    }
  }

  lemma {:induction false} NoFailureAfterStop(s: State, steps: int, events: seq<Event>)
    requires s.place.Stopped? && Path(s, steps, events)
    ensures !Failure(events) && After(s, steps, events).place == s.place && After(s, steps, events).log == s.log
    decreases |events|
  {
    if |events| > 0 {
      NoFailureAfterStop(Next(s, steps, events[0]), steps, events[1..]);
      FailureFirst(events);
    }
  }

  lemma {:induction false} Split(s: State, steps: int, a: seq<Event>, b: seq<Event>)
    ensures Path(s, steps, a + b) <==> Path(s, steps, a) && Path(After(s, steps, a), steps, b)
    ensures Path(s, steps, a + b) ==> After(s, steps, a + b) == After(After(s, steps, a), steps, b)
    decreases |a|
  {
    if |a| == 0 {
      assert a + b == b;
    } else {
      assert (a + b)[1..] == a[1..] + b;
      if Enabled(s, a[0]) { Split(Next(s, steps, a[0]), steps, a[1..], b); }
    }
  }

  /** A job that reports completion ran every iteration in order, and its final poll came before any delivery. */
  lemma CompletedRanAll(steps: int, a: seq<Event>, b: seq<Event>)
    requires Path(Start(), steps, a + b)
    ensures var t := After(Start(), steps, a + b);
      t.place == Stopped(Completed) ==>
        && t.log == UpTo(Max(steps, 0))
        && Path(Start(), steps, a)
        && (After(Start(), steps, a).requested ==> After(Start(), steps, a).place == Stopped(Completed))
  {
    Split(Start(), steps, a, b);
    SoundAfter(Start(), steps, a + b);
    SoundAfter(Start(), steps, a);
    var s := After(Start(), steps, a);
    if s.requested { AfterDelivery(s, steps, b); }
  }

  /** A job is cancelled only on request, and fails only when a body or a poll did. */
  lemma {:induction false} ErrorIsFailure(s: State, steps: int, events: seq<Event>)
    requires Sound(s, steps) && Path(s, steps, events) && !s.place.Stopped?
    ensures After(s, steps, events).place == Stopped(Error) <==> Failure(events)
    ensures After(s, steps, events).place == Stopped(Cancelled) ==> After(s, steps, events).requested
    decreases |events|
  {
    if |events| > 0 {
      var n := Next(s, steps, events[0]);
      SoundNext(s, steps, events[0]);
      FailureFirst(events);
      if n.place.Stopped? {
        NoFailureAfterStop(n, steps, events[1..]);
        SoundAfter(n, steps, events[1..]);
      } else {
        ErrorIsFailure(n, steps, events[1..]);
      }
    }
  }

  /** After the source is closed no call on it changes the channel. */
  lemma {:induction false} ClosedIsQuiet(s: State, steps: int, events: seq<Event>)
    requires !s.open && Path(s, steps, events)
    ensures var t := After(s, steps, events); !t.open && t.cell == s.cell && t.requested == s.requested
    decreases |events|
  {
    if |events| > 0 { ClosedIsQuiet(Next(s, steps, events[0]), steps, events[1..]); }
  }

  // ---------------------------------------------------------------- the two ends of the channel

  /** The channel file. */
  class Channel {
    var content: seq<byte>
    /** When false, no read or write reports an error. */
    const mayFail: bool

    constructor (mayFail: bool)
      ensures content == [] && this.mayFail == mayFail
    {
      content, this.mayFail := [], mayFail;
    }

    /** At most two bytes from the start. */
    method Read() returns (bytes: Option<seq<byte>>)
      ensures bytes.None? ==> mayFail
      ensures bytes.Some? ==> bytes.value == content[..Min(2, |content|)]
    {
      if mayFail {
        if * { return None; }
      }
      bytes := Some(content[..Min(2, |content|)]);
    }

    /** One byte at the start. */
    method Write(b: byte) returns (ok: bool)
      modifies this
      ensures !ok ==> mayFail && content == old(content)
      ensures ok ==> content == [b] + old(content)[Min(1, |old(content)|)..]
    {
      if mayFail {
        if * { return false; }
      }
      content := [b] + content[Min(1, |content|)..];
      ok := true;
    }
  }

  class CancelReader {
    /** Opened once; without a path there is no channel. */
    const channel: Option<Channel>
    var error: bool

    constructor (channel: Option<Channel>)
      ensures this.channel == channel
      ensures error <==> channel.Some? && |channel.value.content| != 1
    {
      this.channel := channel;
      error := channel.Some? && |channel.value.content| != 1;
    }

    method Poll() returns (r: TrainingResult)
      modifies this
      ensures r == Error <==> error
      ensures old(error) ==> error
      ensures channel.None? ==> error == old(error)
      ensures channel.Some? && !error ==>
        var c := channel.value.content; c == (if r == Cancelled then [One] else [Zero])
      ensures channel.Some? && error && !old(error) ==>
        channel.value.mayFail || (channel.value.content != [Zero] && channel.value.content != [One])
      ensures r == Cancelled ==> channel.Some?
    {
      if error { return Error; }
      if channel.None? { return Completed; }
      var bytes := channel.value.Read();
      if bytes.None? || |bytes.value| != 1 || (bytes.value[0] != Zero && bytes.value[0] != One) {
        error := true;
        return Error;
      }
      r := if bytes.value[0] == One then Cancelled else Completed;
    }
  }

  class CancelSource {
    const channel: Channel
    var open: bool
    var error: bool
    var requested: bool

    /** A fresh channel holding 0; the source is of no use when that first write fails. */
    constructor (mayFail: bool)
      ensures fresh(channel) && channel.mayFail == mayFail && !error && !requested
      ensures open ==> channel.content == [Zero]
      ensures !mayFail ==> open
    {
      var c := new Channel(mayFail);
      var ok := c.Write(Zero);
      channel, open, error, requested := c, ok, false, false;
    }

    method Request() returns (d: CancelDelivery)
      modifies this`requested, this`error, channel
      ensures d == Delivered ==> requested && (!old(requested) ==>
        channel.content == [One] + old(channel.content)[Min(1, |old(channel.content)|)..])
      ensures d != Delivered || old(requested) ==>
        channel.content == old(channel.content) && requested == old(requested)
      ensures d == Delivered <==> !error && open
      ensures d == Failed <==> error
      ensures error && !old(error) ==> channel.mayFail && !old(requested) && open
      ensures old(error) ==> error
    {
      if error { return Failed; }
      if !open { return Closed; }
      if requested { return Delivered; }
      var ok := channel.Write(One);
      if !ok {
        error := true;
        return Failed;
      }
      requested := true;
      d := Delivered;
    }

    /** The descriptor is released whatever its close reports, and never closed twice. */
    method Close() returns (ok: bool)
      modifies this`open, this`error
      ensures !open && ok == !error
      ensures old(error) || !old(open) ==> error == old(error)
      ensures error && !old(error) ==> channel.mayFail
    {
      if open {
        open := false;
        if channel.mayFail && !error {
          if * { error := true; }
        }
      }
      ok := !error;
    }
  }

  // ---------------------------------------------------------------- the job loop among concurrent calls

  /** The state of a job and its channel. */
  ghost function View(place: Place, source: CancelSource, reader: CancelReader, log: seq<nat>): State
    reads source, source.channel, reader
    requires |source.channel.content| == 1
  {
    State(place, source.channel.content[0], source.open, source.error, source.requested, reader.error, log)
  }

  ghost predicate Joined(source: CancelSource, reader: CancelReader)
    reads source, source.channel, reader
  {
    && reader.channel == Some(source.channel)
    && (source.channel.content == [Zero] || source.channel.content == [One])
    && (source.requested <==> source.channel.content == [One])
  }

  /** Any number of calls on the source, from any thread. */
  method Others(source: CancelSource, reader: CancelReader, ghost place: Place, ghost steps: int, ghost log: seq<nat>,
                ghost before: State, ghost events: seq<Event>)
    returns (ghost more: seq<Event>)
    requires Joined(source, reader) && Path(before, steps, events)
      && After(before, steps, events) == View(place, source, reader, log)
    modifies source, source.channel
    ensures Joined(source, reader)
    ensures events <= more && Path(before, steps, more)
      && After(before, steps, more) == View(place, source, reader, log)
  {
    more := events;
    var calls: nat := *;
    while calls > 0
      invariant Joined(source, reader)
      invariant events <= more && Path(before, steps, more)
        && After(before, steps, more) == View(place, source, reader, log)
    {
      if * {
        var d := source.Request();
        ghost var e := Request(!source.error);
        Split(before, steps, more, [e]);
        more := more + [e];
      } else {
        var ok := source.Close();
        ghost var e := Close(ok);
        Split(before, steps, more, [e]);
        more := more + [e];
      }
      calls := calls - 1;
    }
  }

  /** The poll of an iteration, as an event. */
  method PollAmong(source: CancelSource, reader: CancelReader, ghost i: nat, ghost steps: int, ghost log: seq<nat>,
                   ghost events: seq<Event>)
    returns (r: TrainingResult, ghost more: seq<Event>)
    requires Joined(source, reader) && !reader.error
    requires Path(Start(), steps, events) && After(Start(), steps, events) == View(Polling(i), source, reader, log)
    modifies source, source.channel, reader
    ensures Joined(source, reader) && Path(Start(), steps, more) && (reader.error <==> r == Error)
    ensures After(Start(), steps, more) == View(if r != Completed then Stopped(r) else if i < steps then Stepping(i)
      else Stopped(Completed), source, reader, log)
  {
    more := Others(source, reader, Polling(i), steps, log, Start(), events);
    r := reader.Poll();
    ghost var e := Poll(r != Error);
    Split(Start(), steps, more, [e]);
    more := more + [e];
  }

  /** `run_training_iterations` with every call on the source that other threads make before each of its steps. The
      bodies answer from outside. */
  method RunTrainingIterations(steps: int, source: CancelSource, reader: CancelReader)
    returns (r: TrainingResult, log: seq<nat>, ghost events: seq<Event>)
    requires reader.channel == Some(source.channel) && !reader.error
    requires source.open && !source.error && !source.requested && source.channel.content == [Zero]
    modifies source, source.channel, reader
    ensures Path(Start(), steps, events) && |source.channel.content| == 1
    ensures After(Start(), steps, events) == View(Stopped(r), source, reader, log)
  {
    log, events := [], [];
    var iteration := 0;
    while iteration < steps
      invariant 0 <= iteration && Joined(source, reader) && !reader.error
      invariant Path(Start(), steps, events) && After(Start(), steps, events)
        == View(Polling(iteration), source, reader, log)
    {
      r, events := PollAmong(source, reader, iteration, steps, log, events);
      if r != Completed { return; }
      events := Others(source, reader, Stepping(iteration), steps, log, Start(), events);
      var complete: bool := *;
      ghost var e := Body(complete);
      Split(Start(), steps, events, [e]);
      events := events + [e];
      if !complete { return Error, log, events; }
      log := log + [iteration];
      iteration := iteration + 1;
    }
    r, events := PollAmong(source, reader, iteration, steps, log, events);
  }

  /** What its callers learn from a run, whatever the other threads did: completion means that every iteration ran
      in order, cancellation that someone asked for it, an error that a body or a poll failed. */
  lemma RunResult(steps: int, events: seq<Event>, r: TrainingResult)
    requires Path(Start(), steps, events) && After(Start(), steps, events).place == Stopped(r)
    ensures var t := After(Start(), steps, events);
      && t.log == UpTo(|t.log|) && |t.log| <= Max(steps, 0)
      && (r == Completed ==> |t.log| == Max(steps, 0))
      && (r == Cancelled ==> t.requested)
      && (r == Error <==> Failure(events))
  {
    SoundAfter(Start(), steps, events);
    ErrorIsFailure(Start(), steps, events);
  }
}
