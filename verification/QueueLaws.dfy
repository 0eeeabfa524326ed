/** What the drop-oldest policy of the write queue guarantees. */
module QueueLaws {
  import opened WriteQueues

  // ---------------------------------------------------------------- classes of messages

  lemma {:induction false} ClassSplit(q: seq<Message>)
    ensures Count(q, false) == |OfClass(q, false)| && Count(q, true) == |OfClass(q, true)|
    ensures Bytes(q) == Bytes(OfClass(q, false)) + Bytes(OfClass(q, true))
    ensures |q| == Count(q, false) + Count(q, true)
  {
    if q != [] {
      ClassSplit(q[1..]);
      var c := q[0].isText;
      assert OfClass(q, c)[1..] == OfClass(q[1..], c);
      assert OfClass(q, !c) == OfClass(q[1..], !c);
    }
  }

  lemma {:induction false} DropOldestClasses(q: seq<Message>, isText: bool)
    ensures OfClass(DropOldest(q, isText), !isText) == OfClass(q, !isText)
    ensures OfClass(DropOldest(q, isText), isText)
         == if OfClass(q, isText) == [] then [] else OfClass(q, isText)[1..]
  {
    if q != [] && q[0].isText != isText {
      DropOldestClasses(q[1..], isText);
      var d := DropOldest(q[1..], isText);
      assert ([q[0]] + d)[1..] == d;
      assert OfClass(q, isText) == OfClass(q[1..], isText);
    } else if q != [] {
      assert OfClass(q, isText)[1..] == OfClass(q[1..], isText);
    }
  }

  /** Dropping the `k` oldest of a class leaves that class's suffix and the other class alone. */
  lemma {:induction false} DropOldestNClasses(q: seq<Message>, isText: bool, k: nat)
    requires k <= Count(q, isText)
    ensures OfClass(DropOldestN(q, isText, k), !isText) == OfClass(q, !isText)
    ensures k <= |OfClass(q, isText)|
    ensures OfClass(DropOldestN(q, isText, k), isText) == OfClass(q, isText)[k..]
    decreases k
  {
    ClassSplit(q);
    if k > 0 {
      DropOldestClasses(q, isText);
      ClassSplit(DropOldest(q, isText));
      DropOldestNClasses(DropOldest(q, isText), isText, k - 1);
      assert OfClass(q, isText)[1..][k - 1..] == OfClass(q, isText)[k..];
    }
  }

  // ---------------------------------------------------------------- the policy is optimal

  /** Both budgets, for the suffix of `binaries` from `k` on beside all of `texts`. */
  predicate Room(binaries: seq<Message>, texts: seq<Message>, k: nat, size: nat)
    requires k <= |binaries|
  {
    |binaries| - k < 200 && Bytes(texts) + Bytes(binaries[k..]) + size <= 8 * 1024 * 1024
  }

  lemma {:induction false} VictimsAreFewest(q: seq<Message>, size: nat)
    ensures var k, b, t := BinaryVictims(q, size), OfClass(q, false), OfClass(q, true);
      && k <= |b| == Count(q, false)
      && (k == |b| || Room(b, t, k, size))
      && forall j: nat | j < k :: !Room(b, t, j, size)
    decreases Count(q, false)
  {
    ClassSplit(q);
    var b, t := OfClass(q, false), OfClass(q, true);
    assert b[0..] == b;
    if Count(q, false) > 0 && !Fits(Count(q, false), Bytes(q), size) {
      DropOldestCounts(q, false);
      var q' := DropOldest(q, false);
      VictimsAreFewest(q', size);
      DropOldestClasses(q, false);
      FewerDoNotFit(b, t, BinaryVictims(q', size), size);
    }
  }

  /** The rooms of a queue without its first binary are those of the queue, one further. */
  lemma RoomShift(b: seq<Message>, t: seq<Message>, j: nat, size: nat)
    requires 0 < j <= |b|
    ensures Room(b, t, j, size) <==> Room(b[1..], t, j - 1, size)
  {
    assert b[1..][j - 1..] == b[j..];
  }

  lemma FewerDoNotFit(b: seq<Message>, t: seq<Message>, k: nat, size: nat)
    requires b != [] && k <= |b[1..]| && !Room(b, t, 0, size)
    requires forall j: nat | j < k :: !Room(b[1..], t, j, size)
    ensures forall j: nat | j < k + 1 :: !Room(b, t, j, size)
    ensures Room(b, t, k + 1, size) <==> Room(b[1..], t, k, size)
  {
    RoomShift(b, t, k + 1, size);
    forall j: nat | j < k + 1
      ensures !Room(b, t, j, size)
    {
      if j > 0 {
        RoomShift(b, t, j, size);
      }
    }
  }

  /**
   The retained old binaries are the longest suffix that leaves room in both budgets, or none;
   text is never touched.
   */
  lemma DropPolicyOptimal(q: seq<Message>, size: nat)
    ensures var k, b, t := BinaryVictims(q, size), OfClass(q, false), OfClass(q, true);
      var kept := DropOldestN(q, false, k);
      && OfClass(kept, true) == t
      && k <= |b| && OfClass(kept, false) == b[k..]
      && (k < |b| ==> Room(b, t, k, size))
      && forall longer: nat | longer < k :: !Room(b, t, longer, size)
  {
    VictimsAreFewest(q, size);
    DropOldestNClasses(q, false, BinaryVictims(q, size));
  }

  /** A text enqueue keeps every binary and the last 15 texts. */
  lemma TextPolicy(q: seq<Message>, m: Message)
    requires m.isText && Count(q, true) <= 16
    ensures var kept, t := DropOldestN(q, true, Victims(q, m)), OfClass(q, true);
      && OfClass(kept, false) == OfClass(q, false)
      && OfClass(kept, true) == if |t| < 16 then t else t[1..]
  {
    ClassSplit(q);
    DropOldestNClasses(q, true, TextVictims(q));
  }

  // ---------------------------------------------------------------- which messages are accepted

  lemma {:induction false} DropOldestNLength(q: seq<Message>, isText: bool, k: nat)
    requires k <= Count(q, isText)
    ensures |DropOldestN(q, isText, k)| + k == |q|
    decreases k
  {
    if k > 0 {
      DropOldestCounts(q, isText);
      DropOldestNLength(DropOldest(q, isText), isText, k - 1);
    }
  }

  /**
   Exactly the binary messages above 8 MB are turned away, and leave no trace but one more drop. Every
   other message is queued, last, behind what the policy keeps; and what was queued or arrives is
   queued or counted as dropped afterwards.
   */
  lemma EnqueueExact(s: Queue, m: Message)
    ensures var (s', kick) := Enqueue(s, m);
      && |s'.q| + s'.droppedTotal == |s.q| + 1 + s.droppedTotal
      && if m.isText || |m.data| <= 8 * 1024 * 1024 then
           && s'.q == DropOldestN(s.q, m.isText, s'.droppedTotal - s.droppedTotal) + [m]
           && s'.enqueued == s.enqueued + 1 && s'.writing && kick == !s.writing
         else s' == s.(droppedTotal := s.droppedTotal + 1) && !kick
  {
    VictimsAreQueued(s.q, m);
    DropOldestNLength(s.q, m.isText, Victims(s.q, m));
  }

  // ---------------------------------------------------------------- the effective threshold

  /** The largest whole number of milliseconds that is at most a second and a tenth of the threshold. */
  predicate IsGrace(thresholdMs: nat, g: nat) {
    g <= 1000 && 10 * g <= thresholdMs && (g == 1000 || 10 * (g + 1) > thresholdMs)
  }

  /** The watchdog judges that much before the threshold, and after at least 1 ms. */
  lemma ThresholdExact(thresholdMs: nat, g: nat)
    ensures thresholdMs > 0 && IsGrace(thresholdMs, g) ==> EffectiveThresholdMs(thresholdMs) + g == thresholdMs
    ensures EffectiveThresholdMs(0) == 1
    ensures IsGrace(thresholdMs, Grace(thresholdMs))
  {
  }

  // ---------------------------------------------------------------- the budgets

  predicate WithinBudgets(q: seq<Message>) {
    && Count(q, false) <= 200
    && Count(q, true) <= 16
    && Bytes(OfClass(q, false)) <= 8 * 1024 * 1024
  }

  lemma {:induction false} OfClassAppend(q: seq<Message>, m: Message, isText: bool)
    ensures OfClass(q + [m], isText) == OfClass(q, isText) + (if m.isText == isText then [m] else [])
  {
    if q == [] {
      assert q + [m] == [m];
    } else {
      OfClassAppend(q[1..], m, isText);
      OfClassCons(q[0], q[1..] + [m], isText);
      OfClassCons(q[0], q[1..], isText);
      assert [q[0]] + (q[1..] + [m]) == q + [m] && [q[0]] + q[1..] == q;
    }
  }

  lemma OfClassCons(m: Message, rest: seq<Message>, isText: bool)
    ensures OfClass([m] + rest, isText) == (if m.isText == isText then [m] else []) + OfClass(rest, isText)
  {
    assert ([m] + rest)[1..] == rest;
  }

  lemma {:induction false} BytesOfSuffix(q: seq<Message>, k: nat)
    requires k <= |q|
    ensures Bytes(q[k..]) <= Bytes(q)
  {
    if k > 0 {
      assert q[k..] == q[1..][k - 1..];
      BytesOfSuffix(q[1..], k - 1);
    }
  }

  /** Every enqueue and every take stays within the two counts and the binary byte budget. */
  lemma BudgetsKept(s: Queue, m: Message, nowMs: nat)
    requires Counted(s) && WithinBudgets(s.q)
    ensures Counted(Enqueue(s, m).0) && WithinBudgets(Enqueue(s, m).0.q)
    ensures Counted(TakeNext(s, nowMs).0) && WithinBudgets(TakeNext(s, nowMs).0.q)
  {
    if !Oversize(m) {
      EnqueueWithinBudgets(s.q, m);
    }
    if s.q != [] && s.q[0].isText {
      assert OfClass(s.q, false) == OfClass(s.q[1..], false);
    } else if s.q != [] {
      assert OfClass(s.q, false)[1..] == OfClass(s.q[1..], false);
    }
  }

  lemma EnqueueWithinBudgets(q: seq<Message>, m: Message)
    requires WithinBudgets(q) && !Oversize(m)
    ensures WithinBudgets(DropOldestN(q, m.isText, Victims(q, m)) + [m])
  {
    var kept := DropOldestN(q, m.isText, Victims(q, m));
    if m.isText {
      TextPolicy(q, m);
    } else {
      DropPolicyOptimal(q, |m.data|);
      BytesOfSuffix(OfClass(q, false), BinaryVictims(q, |m.data|));
    }
    ClassSplit(q);
    ClassSplit(kept);
    ClassSplit(kept + [m]);
    OfClassAppend(kept, m, false);
    OfClassAppend(kept, m, true);
    CountAppend(OfClass(kept, false), m, false);
    if m.isText {
      assert OfClass(kept + [m], false) == OfClass(q, false);
    } else {
      assert OfClass(kept + [m], false) == OfClass(kept, false) + [m];
    }
  }

  /** The bytes a text enqueue frees: those of the oldest text once 16 are queued. */
  function EvictedText(q: seq<Message>): nat {
    if |OfClass(q, true)| < 16 then 0 else |OfClass(q, true)[0].data|
  }

  /**
   The byte budget is a ceiling on the whole queue exactly when the text in it leaves room:
   the text branch has no byte check, and a binary enqueue never removes text.
   */
  lemma CeilingExact(s: Queue, m: Message)
    requires Counted(s) && WithinBudgets(s.q) && !Oversize(m)
    ensures !m.isText ==>
      (Accept(s, m).queuedBytes <= 8 * 1024 * 1024 <==> Bytes(OfClass(s.q, true)) + |m.data| <= 8 * 1024 * 1024)
    ensures m.isText ==>
      (Accept(s, m).queuedBytes <= 8 * 1024 * 1024
       <==> s.queuedBytes - EvictedText(s.q) + |m.data| <= 8 * 1024 * 1024)
  {
    var kept := DropOldestN(s.q, m.isText, Victims(s.q, m));
    ClassSplit(s.q);
    ClassSplit(kept);
    CountAppend(kept, m, true);
    if m.isText {
      TextPolicy(s.q, m);
      var t := OfClass(s.q, true);
      if |t| == 16 {
        assert Bytes(t) == |t[0].data| + Bytes(t[1..]);
      }
    } else {
      DropPolicyOptimal(s.q, |m.data|);
      var b, k := OfClass(s.q, false), BinaryVictims(s.q, |m.data|);
      assert k == |b| ==> b[k..] == [];
    }
  }

  /** One binary message of exactly the byte budget. */
  const FULL := Message(false, seq(MAX_QUEUED_BYTES, _ => 0))

  /**
   The comment on the 8 MB limit calls it a memory ceiling: behind a full binary budget any text,
   however short, passes it.
   */
  lemma CeilingExceeded(m: Message)
    requires m.isText && m.data != []
    ensures var full := Enqueue(EMPTY, FULL).0;
      && Counted(full) && WithinBudgets(full.q) && full.queuedBytes == MAX_QUEUED_BYTES
      && Enqueue(full, m).0.queuedBytes == MAX_QUEUED_BYTES + |m.data|
  {
    assert DropOldestN([], false, 0) + [FULL] == [FULL] && [] + [FULL] == [FULL];
    CountAppend([], FULL, false);
    CountAppend([], FULL, true);
    assert WithinBudgets([]);
    BudgetsKept(EMPTY, FULL, 0);
    CountAppend([FULL], m, true);
    assert DropOldestN([FULL], true, 0) == [FULL];
  }

  // ---------------------------------------------------------------- what became of each message

  /** One accepted message, in the order of acceptance, and whether the policy dropped it later. */
  datatype Logged = Logged(msg: Message, dropped: bool)

  function Kept(log: seq<Logged>): seq<Message> {
    if log == [] then [] else (if log[0].dropped then [] else [log[0].msg]) + Kept(log[1..])
  }

  function DroppedCount(log: seq<Logged>): nat {
    if log == [] then 0 else (if log[0].dropped then 1 else 0) + DroppedCount(log[1..])
  }

  /** Marks as dropped the first kept message of the class behind the `skip` oldest kept ones. */
  function MarkOldest(log: seq<Logged>, skip: nat, isText: bool): seq<Logged> {
    if log == [] then []
    else if log[0].dropped then [log[0]] + MarkOldest(log[1..], skip, isText)
    else if skip > 0 then [log[0]] + MarkOldest(log[1..], skip - 1, isText)
    else if log[0].msg.isText == isText then [log[0].(dropped := true)] + log[1..]
    else [log[0]] + MarkOldest(log[1..], 0, isText)
  }

  function MarkOldestN(log: seq<Logged>, skip: nat, isText: bool, k: nat): seq<Logged>
    decreases k
  {
    if k == 0 then log else MarkOldestN(MarkOldest(log, skip, isText), skip, isText, k - 1)
  }

  /** `later` is `log` with some messages of one class marked: no message moves or changes. */
  predicate Marked(log: seq<Logged>, later: seq<Logged>, isText: bool) {
    && |later| == |log|
    && (forall i | 0 <= i < |log| :: later[i].msg == log[i].msg)
    && (forall i | 0 <= i < |log| && later[i] != log[i] :: log[i].msg.isText == isText && later[i].dropped)
  }

  lemma {:induction false} MarkOldestMarks(log: seq<Logged>, skip: nat, isText: bool)
    ensures Marked(log, MarkOldest(log, skip, isText), isText)
  {
    if log != [] {
      MarkOldestMarks(log[1..], skip, isText);
      if skip > 0 {
        MarkOldestMarks(log[1..], skip - 1, isText);
      }
    }
  }

  lemma {:induction false} MarkOldestNMarks(log: seq<Logged>, skip: nat, isText: bool, k: nat)
    ensures Marked(log, MarkOldestN(log, skip, isText, k), isText)
    decreases k
  {
    if k > 0 {
      MarkOldestMarks(log, skip, isText);
      MarkOldestNMarks(MarkOldest(log, skip, isText), skip, isText, k - 1);
    }
  }

  lemma {:induction false} KeptAndDropped(log: seq<Logged>)
    ensures |Kept(log)| + DroppedCount(log) == |log|
  {
    if log != [] {
      KeptAndDropped(log[1..]);
    }
  }

  lemma {:induction false} KeptAppend(log: seq<Logged>, m: Message)
    ensures Kept(log + [Logged(m, false)]) == Kept(log) + [m]
    ensures DroppedCount(log + [Logged(m, false)]) == DroppedCount(log)
  {
    var more := log + [Logged(m, false)];
    if log == [] {
      assert more[1..] == [];
    } else {
      KeptAppend(log[1..], m);
      assert more[1..] == log[1..] + [Logged(m, false)];
    }
  }

  lemma KeptCons(e: Logged, rest: seq<Logged>)
    ensures Kept([e] + rest) == (if e.dropped then [] else [e.msg]) + Kept(rest)
  {
    assert ([e] + rest)[1..] == rest;
  }

  lemma SkipOne(m: Message, rest: seq<Message>, skip: nat, isText: bool)
    requires 0 < skip <= |rest| + 1
    ensures ([m] + rest)[..skip] + DropOldest(([m] + rest)[skip..], isText)
         == [m] + (rest[..skip - 1] + DropOldest(rest[skip - 1..], isText))
  {
    assert ([m] + rest)[skip..] == rest[skip - 1..];
    assert ([m] + rest)[..skip] == [m] + rest[..skip - 1];
  }

  /** Marking a message in the log is dropping it from the queue behind the taken prefix. */
  lemma {:induction false} MarkIsDrop(log: seq<Logged>, skip: nat, isText: bool)
    requires skip <= |Kept(log)|
    ensures Kept(MarkOldest(log, skip, isText)) == Kept(log)[..skip] + DropOldest(Kept(log)[skip..], isText)
    decreases |log|, 0
  {
    if log != [] {
      var e, rest := log[0], log[1..];
      if e.dropped {
        MarkIsDrop(rest, skip, isText);
        KeptCons(e, MarkOldest(rest, skip, isText));
        assert Kept(log) == Kept(rest);
      } else if skip > 0 {
        MarkIsDrop(rest, skip - 1, isText);
        KeptCons(e, MarkOldest(rest, skip - 1, isText));
        SkipOne(e.msg, Kept(rest), skip, isText);
      } else {
        MarkAtFront(e, rest, isText);
        assert [e] + rest == log && Kept(log)[0..] == Kept(log);
      }
    }
  }

  lemma {:induction false} MarkAtFront(e: Logged, rest: seq<Logged>, isText: bool)
    requires !e.dropped
    ensures Kept(MarkOldest([e] + rest, 0, isText)) == DropOldest(Kept([e] + rest), isText)
    decreases |rest|, 1
  {
    KeptCons(e, rest);
    assert ([e] + rest)[1..] == rest;
    assert ([e.msg] + Kept(rest))[1..] == Kept(rest);
    if e.msg.isText == isText {
      KeptCons(e.(dropped := true), rest);
    } else {
      KeptCons(e, MarkOldest(rest, 0, isText));
      MarkIsDrop(rest, 0, isText);
      assert Kept(rest)[0..] == Kept(rest);
    }
  }

  lemma {:induction false} MarkNIsDropN(log: seq<Logged>, taken: seq<Message>, q: seq<Message>, isText: bool, k: nat)
    requires Kept(log) == taken + q && k <= Count(q, isText)
    ensures Kept(MarkOldestN(log, |taken|, isText, k)) == taken + DropOldestN(q, isText, k)
    ensures DroppedCount(MarkOldestN(log, |taken|, isText, k)) == DroppedCount(log) + k
    decreases k
  {
    if k > 0 {
      var next := MarkOldest(log, |taken|, isText);
      MarkIsDrop(log, |taken|, isText);
      MarkOldestMarks(log, |taken|, isText);
      DropOldestCounts(q, isText);
      assert (taken + q)[..|taken|] == taken && (taken + q)[|taken|..] == q;
      KeptAndDropped(log);
      KeptAndDropped(next);
      MarkNIsDropN(next, taken, DropOldest(q, isText), isText, k - 1);
    }
  }

  lemma VictimsAreQueued(q: seq<Message>, m: Message)
    ensures Victims(q, m) <= Count(q, m.isText)
  {
    VictimsAreFewest(q, |m.data|);
  }
}
