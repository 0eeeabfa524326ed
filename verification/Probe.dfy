/**
 The diagnostic probe beside a running session: it reads the clock, the ownership flag, the pending
 count and the progress time one after another, without the lock, and the write path goes on in
 between.
 */
module Probes {
  import opened Wrappers
  import opened WriteQueues
  import opened Session

  /** How far a probe has got. */
  datatype Reading =
    | Resting
    | HasClock(clock: nat)
    | NotWriting(clock: nat)       // found the flag clear, about to read the pending count
    | SawOwner(clock: nat)         // found either, about to read the progress time

  /** `report` is what the last finished probe said. */
  datatype System = System(s: State, reading: Reading, report: Option<bool>)

  datatype Action = Core(l: Label) | ReadClock | ReadWriting | ReadPending | ReadProgress

  predicate CanDo(y: System, a: Action) {
    match a
    case Core(l) => Enabled(y.s, l)
    case ReadClock => y.reading.Resting?
    case ReadWriting => y.reading.HasClock?
    case ReadPending => y.reading.NotWriting?
    case ReadProgress => y.reading.SawOwner?
  }

  function Do(y: System, a: Action): System
    requires CanDo(y, a)
  {
    match a
    case Core(l) => y.(s := Apply(y.s, l))
    case ReadClock => y.(reading := HasClock(y.s.now))
    case ReadWriting =>
      y.(reading := if y.s.wq.writing then SawOwner(y.reading.clock) else NotWriting(y.reading.clock))
    case ReadPending =>
      if y.s.wq.pending > 0 then y.(reading := SawOwner(y.reading.clock))
      else y.(reading := Resting, report := Some(false))
    case ReadProgress =>
      y.(reading := Resting,
         report := Some(SubU64(y.reading.clock, y.s.wq.lastProgressMs) >= EffectiveThresholdMs(y.s.wq.thresholdMs)))
  }

  predicate Possible(y: System, actions: seq<Action>)
    decreases |actions|
  {
    actions == [] || (CanDo(y, actions[0]) && Possible(Do(y, actions[0]), actions[1..]))
  }

  function Perform(y: System, actions: seq<Action>): System
    requires Possible(y, actions)
    decreases |actions|
  {
    if actions == [] then y else Perform(Do(y, actions[0]), actions[1..])
  }

  // ---------------------------------------------------------------- what holds between the readings

  /** Until a kicked DoWrite has taken it, its message is in the queue. */
  predicate Kicked(s: State) {
    Kickers(s) != {} || s.tasks > 0 || s.strand == Taking(false) ==> s.wq.q != []
  }

  lemma KickedStep(s: State, l: Label)
    requires Ownership(s) && Kicked(s) && Enabled(s, l)
    ensures Kicked(Apply(s, l))
  {
    if l.SendCheck? || l.SendEnqueue? || l.SendDispatch? {
      KickersChange(s, Apply(s, l), l.t);
    } else {
      assert Kickers(Apply(s, l)) == Kickers(s);
    }
  }

  /** Ownership is given back only where progress is noted. */
  lemma ReleaseIsProgress(s: State, l: Label)
    requires Ownership(s) && Timing(s) && Kicked(s) && Enabled(s, l)
    ensures var s' := Apply(s, l);
      && s.now <= s'.now
      && (s'.wq.lastProgressMs == s.wq.lastProgressMs || s'.wq.lastProgressMs == s.now)
      && (Owned(s.wq) && !Owned(s'.wq) ==> s'.wq.lastProgressMs == s.now)
  {
  }

  ghost predicate Sound(y: System) {
    && Inv(y.s) && Kicked(y.s)
    && (!y.reading.Resting? ==> y.reading.clock <= y.s.now)
    && (y.reading.SawOwner? ==> Owned(y.s.wq) || y.s.wq.lastProgressMs >= y.reading.clock)
  }

  lemma SoundStep(y: System, a: Action)
    requires Sound(y) && CanDo(y, a)
    ensures Sound(Do(y, a)) && TEff(Do(y, a).s) == TEff(y.s)
  {
    if a.Core? {
      OwnershipStep(y.s, a.l);
      OrderStep(y.s, a.l);
      TimingStep(y.s, a.l);
      KickedStep(y.s, a.l);
      ReleaseIsProgress(y.s, a.l);
    }
  }

  lemma {:induction false} SoundRun(y: System, actions: seq<Action>)
    requires Sound(y) && Possible(y, actions)
    ensures Sound(Perform(y, actions)) && TEff(Perform(y, actions).s) == TEff(y.s)
    decreases |actions|
  {
    if actions != [] {
      SoundStep(y, actions[0]);
      SoundRun(Do(y, actions[0]), actions[1..]);
    }
  }

  /** The writer is owned and has made no progress for the effective threshold, as of now. */
  predicate IsStalled(s: State) {
    Owned(s.wq) && s.now - s.wq.lastProgressMs >= TEff(s)
  }

  /**
   What a probe that saw an owner says, in every run: a progress time newer than its clock reading
   wraps, and counts as stalled unless it is newer by almost all of the 64 bits. So it cries wolf
   exactly then, whatever happened between its readings.
   */
  lemma ProbeStalledExact(y0: System, thresholdMs: nat, actions: seq<Action>)
    requires Init(y0.s, thresholdMs) && y0.reading.Resting? && thresholdMs < 0x1_0000_0000
    requires Possible(y0, actions) && Perform(y0, actions).reading.SawOwner?
    ensures var y := Perform(y0, actions);
      var clock, last, tEff := y.reading.clock, y.s.wq.lastProgressMs, EffectiveThresholdMs(thresholdMs);
      var stalled := Do(y, ReadProgress).report == Some(true);
      && (stalled <==> if clock < last then last - clock <= U64 - tEff else clock - last >= tEff)
      && (stalled && !IsStalled(y.s) <==> clock < last && last - clock <= U64 - tEff && !IsStalled(y.s))
  {
    InitInv(y0.s, thresholdMs);
    assert Kickers(y0.s) == {};
    SoundRun(y0, actions);
    var y := Perform(y0, actions);
    SubExact(y.reading.clock, y.s.wq.lastProgressMs);
  }

  lemma {:induction false} ClockKept(y: System, actions: seq<Action>, clock: nat)
    requires y.reading.Resting? || y.reading.clock == clock
    requires Possible(y, actions) && ReadClock !in actions
    ensures Perform(y, actions).reading.Resting? || Perform(y, actions).reading.clock == clock
    decreases |actions|
  {
    if actions != [] {
      ClockKept(Do(y, actions[0]), actions[1..], clock);
    }
  }

  /** What a probe compares the progress time with is the time at which it began. */
  lemma ProbeClock(y: System, actions: seq<Action>)
    requires CanDo(y, ReadClock) && Possible(Do(y, ReadClock), actions) && ReadClock !in actions
    ensures var y' := Perform(Do(y, ReadClock), actions);
      y'.reading.Resting? || y'.reading.clock == y.s.now
  {
    ClockKept(Do(y, ReadClock), actions, y.s.now);
  }

  /**
   In every run a probe looks at the progress time exactly if it finds the flag set or a message queued;
   otherwise it reports no stall, and rightly so if nothing was enqueued since it read the flag.
   */
  lemma OwnerSeenExact(y0: System, thresholdMs: nat, actions: seq<Action>)
    requires Init(y0.s, thresholdMs) && y0.reading.Resting? && Possible(y0, actions)
    ensures var y := Perform(y0, actions);
      && (y.reading.SawOwner? ==> Do(y, ReadProgress).reading.Resting?)
      && (y.reading.HasClock? ==> (Do(y, ReadWriting).reading.SawOwner? <==> y.s.wq.writing))
      && (y.reading.NotWriting? ==>
           && (Do(y, ReadPending).reading.SawOwner? <==> y.s.wq.q != [])
           && (y.s.wq.q == [] ==> Do(y, ReadPending).report == Some(false) && Do(y, ReadPending).reading.Resting?)
           && (!y.s.wq.writing ==> !IsStalled(y.s) && y.s.wq.q == []))
  {
    InitInv(y0.s, thresholdMs);
    assert Kickers(y0.s) == {};
    SoundRun(y0, actions);
  }

  // ---------------------------------------------------------------- a false alarm

  lemma PerformCons(y: System, a: Action, actions: seq<Action>)
    requires CanDo(y, a) && Possible(Do(y, a), actions)
    ensures Possible(y, [a] + actions) && Perform(y, [a] + actions) == Perform(Do(y, a), actions)
  {
    assert ([a] + actions)[1..] == actions;
  }

  const LATE := [ReadClock, Core(Tick(1)), ReadWriting, Core(RunDoWrite), Core(Take), ReadProgress]

  function Sends(m: Message): seq<Action> {
    [Core(SendCheck(0, m)), Core(SendEnqueue(0)), Core(SendDispatch(0))]
  }

  /** A message is taken between the readings: the probe reports a stall that is not there. */
  lemma FalseAlarm(y0: System, m: Message)
    requires Init(y0.s, 30000) && y0.s.now == 0 && y0.reading.Resting? && !Oversize(m)
    ensures var actions := Sends(m) + LATE;
      && Possible(y0, actions)
      && Perform(y0, actions).report == Some(true) && !IsStalled(Perform(y0, actions).s)
  {
    Sent(y0, m);
    TakenBetween(Perform(y0, Sends(m)), m);
    PerformAppend(y0, Sends(m), LATE);
  }

  lemma {:induction false} PerformAppend(y: System, a: seq<Action>, b: seq<Action>)
    requires Possible(y, a) && Possible(Perform(y, a), b)
    ensures Possible(y, a + b) && Perform(y, a + b) == Perform(Perform(y, a), b)
    decreases |a|
  {
    if a == [] {
      assert a + b == b;
    } else {
      PerformAppend(Do(y, a[0]), a[1..], b);
      PerformCons(y, a[0], a[1..] + b);
      assert [a[0]] + (a[1..] + b) == a + b;
    }
  }

  lemma Sent(y: System, m: Message)
    requires Init(y.s, 30000) && y.s.now == 0 && y.reading.Resting? && !Oversize(m)
    ensures Possible(y, Sends(m))
    ensures var y' := Perform(y, Sends(m));
      && y'.reading.Resting? && y'.s.now == 0 && !y'.s.closed && y'.s.strand.Free? && y'.s.tasks == 1
      && y'.s.wq.q == [m] && y'.s.wq.writing && y'.s.wq.thresholdMs == 30000
  {
    var y1 := Do(y, Core(SendCheck(0, m)));
    var y2 := Do(y1, Core(SendEnqueue(0)));
    assert DropOldestN([], m.isText, 0) + [m] == [m];
    PerformCons(y2, Core(SendDispatch(0)), []);
    PerformCons(y1, Core(SendEnqueue(0)), [Core(SendDispatch(0))]);
    PerformCons(y, Core(SendCheck(0, m)), [Core(SendEnqueue(0)), Core(SendDispatch(0))]);
  }

  lemma TakenBetween(y: System, m: Message)
    requires y.reading.Resting? && y.s.now == 0 && !y.s.closed && y.s.strand.Free? && y.s.tasks == 1
    requires y.s.wq.q == [m] && y.s.wq.writing && y.s.wq.thresholdMs == 30000
    ensures Possible(y, LATE) && Perform(y, LATE).report == Some(true) && !IsStalled(Perform(y, LATE).s)
  {
    var y1 := Do(y, ReadClock);
    var y2 := Do(y1, Core(Tick(1)));
    var y3 := Do(y2, ReadWriting);
    var y4 := Do(y3, Core(RunDoWrite));
    var y5 := Do(y4, Core(Take));
    SubExact(0, 1);
    PerformCons(y5, ReadProgress, []);
    PerformCons(y4, Core(Take), [ReadProgress]);
    PerformCons(y3, Core(RunDoWrite), [Core(Take), ReadProgress]);
    PerformCons(y2, ReadWriting, [Core(RunDoWrite), Core(Take), ReadProgress]);
    PerformCons(y1, Core(Tick(1)), [ReadWriting, Core(RunDoWrite), Core(Take), ReadProgress]);
    PerformCons(y, ReadClock, [Core(Tick(1)), ReadWriting, Core(RunDoWrite), Core(Take), ReadProgress]);
  }
}
