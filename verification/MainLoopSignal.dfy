/** Redraw and wake signalling: any number of threads asking for redraws and wake deadlines, and the
    main loop that promotes due deadlines, sleeps and draws. Each atomic operation is one step. */
module MainLoopSignal {
  import opened Options

  // ---------------------------------------------------------------- state

  /** A call of RequestGuiWakeAt under way: its deadline and the revision when it began. */
  datatype Call = Call(deadline: int, began: nat)

  /** Where a thread stands. `Increment` is before the fetch_add of RequestGuiRedraw, `Notify` between
      it and the posted event, `NotifyOnly` between a stored deadline and the posted event. An increment
      owed for a zeroed slot names that zeroing, one made for a wake request names the call. `seen` and
      `known` count the zeroings and the promises there were when the slot was last read. */
  datatype Pc =
    | Resting
    | WakeClock(call: Call)
    | WakeLoad(call: Call)
    | WakeLoop(call: Call, current: int, seen: nat)
    | Increment(zeroing: Option<nat>, serves: Option<Call>)
    | Notify
    | NotifyOnly
    | PromoteClock
    | PromoteLoad(reading: int)
    | PromoteLoop(reading: int, current: int, known: nat)

  /** A clearing of the deadline slot: the deadline cleared, the clock reading it was compared with,
      and the revision at that moment. */
  datatype Zeroing = Zeroing(value: int, reading: int, revision: nat)

  /** A wake request that has been answered: by a redraw, or by a deadline in the slot that is at or
      before the requested one, in which case `seen` counts the zeroings there had been by then. */
  datatype Promise = Redrawn(call: Call) | Stored(call: Call, seen: nat)

  /** The main loop. Its own calls of the signalling functions run as thread 0; it moves on only when
      that thread rests. `work` is the visual-work flag read before the wait. */
  datatype Main =
    | Top
    | PromoteFirst(suspended: bool)
    | ReadSlot(suspended: bool, work: bool)
    | ReadClock(suspended: bool, work: bool, slotSeen: int)
    | PumpEvents(suspended: bool, work: bool, slotSeen: int, reading: int)
    | Waiting(suspended: bool, work: bool, slotSeen: int, reading: int, start: int, until: int)
    | PromoteAfter(suspended: bool, work: bool)
    | AfterPump(suspended: bool, work: bool)
    | FrameCheck(work: bool)
    | FrameStart
    | Drawing(revision: nat)

  datatype State = State(
    slot: int,
    revision: nat,
    posted: bool,
    now: int,
    threads: seq<Pc>,
    main: Main,
    rendered: nat,
    zeroings: seq<Zeroing>,
    promises: seq<Promise>)
  {
    function With(i: nat, pc: Pc): State
      requires i < |threads|
    {
      this.(threads := threads[i := pc])
    }
  }

  // ---------------------------------------------------------------- the signalling functions

  /** A thread at rest begins RequestGuiRedraw, RequestGuiWakeAt or PromoteDueGuiWakeDeadline. A wake
      request for the zero time point returns at once. */
  ghost predicate BeginStep(s: State, s': State, i: nat)
    requires i < |s.threads|
  {
    || s' == s.With(i, Increment(None, None))
    || (exists deadline: int :: deadline != 0 && s' == s.With(i, WakeClock(Call(deadline, s.revision))))
    || (i != 0 && s' == s.With(i, PromoteClock))
  }

  ghost predicate WakeLoopStep(s: State, s': State, i: nat, call: Call, current: int, seen: nat)
    requires i < |s.threads|
  {
    if current == 0 || call.deadline < current then
      || (s.slot == current
          && s' == s.(slot := call.deadline, promises := s.promises + [Stored(call, |s.zeroings|)]).With(i, NotifyOnly))
      || s' == s.With(i, WakeLoop(call, s.slot, |s.zeroings|))
    else
      s' == s.(promises := s.promises + [Stored(call, seen)]).With(i, Resting)
  }

  ghost predicate PromoteLoopStep(s: State, s': State, i: nat, reading: int, current: int)
    requires i < |s.threads|
  {
    if current != 0 && current <= reading then
      || (s.slot == current
          && s' == s.(slot := 0, zeroings := s.zeroings + [Zeroing(current, reading, s.revision)])
                    .With(i, Increment(Some(|s.zeroings|), None)))
      || s' == s.With(i, PromoteLoop(reading, s.slot, |s.promises|))
    else
      s' == s.With(i, Resting)
  }

  function Incremented(s: State, i: nat, serves: Option<Call>): State
    requires i < |s.threads|
  {
    var promises := if serves.Some? then s.promises + [Redrawn(serves.value)] else s.promises;
    s.(revision := s.revision + 1, promises := promises).With(i, Notify)
  }

  ghost predicate ThreadStep(s: State, s': State, i: nat)
    requires i < |s.threads|
  {
    match s.threads[i]
    case Resting => (i != 0 || RunsUiCode(s.main)) && BeginStep(s, s', i)
    case WakeClock(call) =>
      s' == s.With(i, if call.deadline <= s.now then Increment(None, Some(call)) else WakeLoad(call))
    case WakeLoad(call) => s' == s.With(i, WakeLoop(call, s.slot, |s.zeroings|))
    case WakeLoop(call, current, seen) => WakeLoopStep(s, s', i, call, current, seen)
    case Increment(_, serves) => s' == Incremented(s, i, serves)
    case Notify => s' == s.(posted := true).With(i, Resting)
    case NotifyOnly => s' == s.(posted := true).With(i, Resting)
    case PromoteClock => s' == s.With(i, PromoteLoad(s.now))
    case PromoteLoad(reading) => s' == s.With(i, PromoteLoop(reading, s.slot, |s.promises|))
    case PromoteLoop(reading, current, _) => PromoteLoopStep(s, s', i, reading, current)
  }

  // ---------------------------------------------------------------- the main loop

  /** 0.01 s, 0.05 s and 30 s in nanoseconds. */
  const LEAST_WAIT: int := 10_000_000
  const AUDIO_WAIT: int := 50_000_000
  const LONGEST_WAIT: int := 30_000_000_000

  /** Where user-interface code runs and may ask for redraws and wakes: the service pumps before the
      wait and after it (font reload included), and the drawing of a frame. */
  predicate RunsUiCode(main: Main) {
    main.Top? || main.AfterPump? || main.Drawing?
  }

  function Clamp(wait: int): int {
    if wait < LEAST_WAIT then LEAST_WAIT else if wait > LONGEST_WAIT then LONGEST_WAIT else wait
  }

  /** A wait the schedule may compute: a fixed one while an alert sounds; otherwise clamped, and no
      longer than the deadline seen in the slot allows unless the window is suspended. The other
      sources of urgency are arbitrary. */
  ghost predicate ScheduledWait(wait: int, suspended: bool, slotSeen: int, reading: int) {
    || wait == AUDIO_WAIT
    || exists urgent: int :: wait == Clamp(urgent)
                             && (!suspended && slotSeen != 0 ==> UrgentEnough(urgent, slotSeen, reading))
  }

  predicate UrgentEnough(urgent: int, slotSeen: int, reading: int) {
    urgent <= (if slotSeen <= reading then 0 else slotSeen - reading)
  }

  /** The events are drained, the posted one with them, and the second promotion begins. */
  function Pumped(s: State, suspended: bool, work: bool): State
    requires s.threads != []
  {
    s.(posted := false, main := PromoteAfter(suspended, work)).With(0, PromoteClock)
  }

  ghost predicate PumpStep(s: State, s': State)
    requires s.threads != [] && s.main.PumpEvents?
  {
    var PumpEvents(suspended, work, slotSeen, reading) := s.main;
    || (!suspended && s' == Pumped(s, suspended, work))
    || ((suspended || !work)
        && exists wait: int :: ScheduledWait(wait, suspended, slotSeen, reading)
                               && s' == s.(main := Waiting(suspended, work, slotSeen, reading, s.now, s.now + wait)))
  }

  /** Polling is always allowed when the window is not suspended: a held mouse button or a settling
      input asks for it. The wait ends by a posted event, by its timeout or by any other input. */
  ghost predicate MainStep(s: State, s': State)
    requires s.threads != []
  {
    && s.threads[0] == Resting
    && match s.main
       case Top => exists suspended: bool :: s' == s.(main := PromoteFirst(suspended)).With(0, PromoteClock)
       case PromoteFirst(suspended) => s' == s.(main := ReadSlot(suspended, s.revision != s.rendered))
       case ReadSlot(suspended, work) => s' == s.(main := ReadClock(suspended, work, s.slot))
       case ReadClock(suspended, work, slotSeen) => s' == s.(main := PumpEvents(suspended, work, slotSeen, s.now))
       case PumpEvents(_, _, _, _) => PumpStep(s, s')
       case Waiting(suspended, work, _, _, _, _) => s' == Pumped(s, suspended, work)
       case PromoteAfter(suspended, work) => s' == s.(main := AfterPump(suspended, work)) || s' == s.(main := Top)
       case AfterPump(suspended, work) => s' == s.(main := if suspended then Top else FrameCheck(work))
       case FrameCheck(work) =>
         || s' == s.(main := FrameStart)
         || (!work && s.revision == s.rendered && s' == s.(main := Top))
       case FrameStart => s' == s.(main := Drawing(s.revision))
       case Drawing(revision) => s' == s.(rendered := revision, main := Top)
  }

  ghost predicate Init(s: State) {
    && s.slot == 0 && s.revision == 1 && s.rendered == 0 && !s.posted && s.now >= 0 && s.main == Top
    && s.zeroings == [] && s.promises == []
    && s.threads != [] && forall i :: 0 <= i < |s.threads| ==> s.threads[i] == Resting
  }

  ghost predicate Step(s: State, s': State) {
    && s.threads != []
    && (|| MainStep(s, s')
        || (exists i: nat :: i < |s.threads| && ThreadStep(s, s', i))
        || (s'.now >= s.now && s' == s.(now := s'.now)))
  }

  // ---------------------------------------------------------------- the invariant

  predicate Owes(pc: Pc, k: nat) {
    pc.Increment? && pc.zeroing == Some(k)
  }

  /** Some thread that cleared the slot has yet to raise the revision for it. */
  ghost predicate Owed(s: State, k: nat) {
    exists i: nat :: i < |s.threads| && Owes(s.threads[i], k)
  }

  /** Since the slot was read after `seen` zeroings it holds a deadline no later than this one, or the
      first zeroing since then cleared such a deadline. */
  predicate HeldSince(s: State, call: Call, seen: nat) {
    && seen <= |s.zeroings|
    && if seen == |s.zeroings| then 0 < s.slot <= call.deadline
       else s.zeroings[seen].value <= call.deadline && s.zeroings[seen].revision >= call.began
  }

  ghost predicate Covered(s: State, k: nat)
    requires k < |s.zeroings|
  {
    s.revision > s.zeroings[k].revision || Owed(s, k)
  }

  predicate GoodZeroing(s: State, k: nat)
    requires k < |s.zeroings|
  {
    0 < s.zeroings[k].value <= s.zeroings[k].reading <= s.now && s.zeroings[k].revision <= s.revision
  }

  predicate GoodPromise(s: State, p: Promise) {
    match p
    case Redrawn(call) => s.revision > call.began
    case Stored(call, seen) => HeldSince(s, call, seen)
  }

  /** A promise whose deadline has been reached is no longer waiting in the slot. */
  predicate ServedBy(s: State, p: Promise, reading: int) {
    p.Stored? && p.call.deadline <= reading ==> p.seen < |s.zeroings|
  }

  predicate Knows(s: State, reading: int, known: nat) {
    known <= |s.promises| && forall k :: 0 <= k < known ==> ServedBy(s, s.promises[k], reading)
  }

  predicate GoodPc(s: State, pc: Pc) {
    match pc
    case WakeClock(call) => call.began <= s.revision
    case WakeLoad(call) => call.began <= s.revision && call.deadline > 0
    case WakeLoop(call, current, seen) =>
      && call.began <= s.revision && call.deadline > 0 && current >= 0
      && (0 < current <= call.deadline ==> HeldSince(s, call, seen))
    case Increment(zeroing, serves) =>
      && (zeroing.Some? ==> zeroing.value < |s.zeroings|)
      && (serves.Some? ==> serves.value.began <= s.revision)
    case PromoteLoad(reading) => reading <= s.now
    case PromoteLoop(reading, current, known) =>
      && reading <= s.now && current >= 0
      && (current == 0 || reading < current ==> Knows(s, reading, known))
    case _ => true
  }

  /** A thread between its change of the shared words and the event it posts. */
  predicate Signals(pc: Pc) {
    pc.Increment? || pc.Notify? || pc.NotifyOnly?
  }

  ghost predicate WakeInFlight(s: State) {
    s.posted || exists i: nat :: i < |s.threads| && Signals(s.threads[i])
  }

  ghost predicate RedrawInFlight(s: State) {
    s.posted || exists i: nat :: i < |s.threads| && s.threads[i].Notify?
  }

  ghost predicate GoodMain(s: State) {
    match s.main
    case ReadSlot(_, work) => !work && s.rendered != s.revision ==> RedrawInFlight(s)
    case ReadClock(_, work, slotSeen) =>
      && (!work && s.rendered != s.revision ==> RedrawInFlight(s))
      && (slotSeen != s.slot ==> WakeInFlight(s))
    case PumpEvents(_, work, slotSeen, reading) =>
      && (!work && s.rendered != s.revision ==> RedrawInFlight(s))
      && (slotSeen != s.slot ==> WakeInFlight(s))
      && reading <= s.now
    case Waiting(suspended, work, slotSeen, reading, start, until) =>
      && (!work && s.rendered != s.revision ==> RedrawInFlight(s))
      && (slotSeen != s.slot ==> WakeInFlight(s))
      && reading <= start <= s.now && (work ==> suspended)
      && ScheduledWait(until - start, suspended, slotSeen, reading)
    case Drawing(revision) => s.rendered <= revision <= s.revision
    case _ => true
  }

  ghost predicate Inv(s: State) {
    && s.now >= 0 && s.slot >= 0 && s.rendered <= s.revision && s.threads != []
    && (forall i: nat :: i < |s.threads| ==> GoodPc(s, s.threads[i]))
    && (forall k: nat :: k < |s.zeroings| ==> GoodZeroing(s, k) && Covered(s, k))
    && (forall k: nat :: k < |s.promises| ==> GoodPromise(s, s.promises[k]))
    && GoodMain(s)
  }

  lemma InitInv(s: State)
    requires Init(s)
    ensures Inv(s)
  {
  }

  // ---------------------------------------------------------------- every step keeps it

  /** How the shared words may change in one step: the slot is lowered, or filled when empty, or cleared
      and the clearing recorded; everything else only grows. */
  predicate Later(s: State, s': State) {
    && s.revision <= s'.revision <= s.revision + 1 && s.now <= s'.now
    && s.zeroings <= s'.zeroings && s.promises <= s'.promises
    && if s'.slot == s.slot then s'.zeroings == s.zeroings
       else if s'.slot == 0 then |s'.zeroings| == |s.zeroings| + 1 && s'.zeroings[|s.zeroings|].value == s.slot
                                 && s'.zeroings[|s.zeroings|].revision == s.revision
       else s'.zeroings == s.zeroings && s'.slot > 0 && (s.slot == 0 || s'.slot < s.slot)
  }

  lemma PcStaysGood(s: State, s': State, pc: Pc)
    requires Later(s, s') && GoodPc(s, pc)
    ensures GoodPc(s', pc)
  {
    if pc.PromoteLoop? && (pc.current == 0 || pc.reading < pc.current) {
      KnowledgeStays(s, s', pc.reading, pc.known);
    }
  }

  lemma KnowledgeStays(s: State, s': State, reading: int, known: nat)
    requires Later(s, s') && Knows(s, reading, known)
    ensures Knows(s', reading, known)
  {
    forall k | 0 <= k < known
      ensures ServedBy(s', s'.promises[k], reading)
    {
      assert ServedBy(s, s.promises[k], reading);
    }
  }

  lemma ThreadsStayGood(s: State, s': State, i: nat)
    requires Inv(s) && Later(s, s') && i < |s.threads| == |s'.threads|
    requires forall j: nat :: j < |s.threads| && j != i ==> s'.threads[j] == s.threads[j]
    requires GoodPc(s', s'.threads[i])
    ensures forall j: nat :: j < |s'.threads| ==> GoodPc(s', s'.threads[j])
  {
    forall j: nat | j < |s'.threads|
      ensures GoodPc(s', s'.threads[j])
    {
      if j != i {
        PcStaysGood(s, s', s.threads[j]);
      }
    }
  }

  predicate PromisesBegan(s: State) {
    forall k: nat :: k < |s.promises| ==> s.promises[k].call.began <= s.revision
  }

  lemma PromisesStayGood(s: State, s': State)
    requires Inv(s) && PromisesBegan(s) && Later(s, s')
    requires forall k: nat :: |s.promises| <= k < |s'.promises| ==>
               GoodPromise(s', s'.promises[k]) && s'.promises[k].call.began <= s'.revision
    ensures forall k: nat :: k < |s'.promises| ==> GoodPromise(s', s'.promises[k])
    ensures PromisesBegan(s')
  {
    hide GoodMain, Covered, GoodPc;
    forall k: nat | k < |s'.promises|
      ensures GoodPromise(s', s'.promises[k]) && s'.promises[k].call.began <= s'.revision
    {
      if k < |s.promises| {
        assert GoodPromise(s, s.promises[k]);
      }
    }
  }

  /** A thread that moves without raising the revision must not have owed it. */
  lemma ZeroingsStayGood(s: State, s': State, i: nat)
    requires Inv(s) && Later(s, s') && i < |s.threads| == |s'.threads|
    requires forall j: nat :: j < |s.threads| && j != i ==> s'.threads[j] == s.threads[j]
    requires s.threads[i].Increment? ==> s'.threads[i] == s.threads[i] || s'.revision > s.revision
    requires forall k: nat :: |s.zeroings| <= k < |s'.zeroings| ==> GoodZeroing(s', k) && Owed(s', k)
    ensures forall k: nat :: k < |s'.zeroings| ==> GoodZeroing(s', k) && Covered(s', k)
  {
    hide GoodMain, GoodPc, GoodPromise;
    forall k: nat | k < |s'.zeroings|
      ensures GoodZeroing(s', k) && Covered(s', k)
    {
      if k < |s.zeroings| {
        assert GoodZeroing(s, k) && Covered(s, k);
        if s.revision <= s.zeroings[k].revision {
          var j: nat :| j < |s.threads| && Owes(s.threads[j], k);
          if j != i {
            assert Owes(s'.threads[j], k);
          }
        }
      }
    }
  }

  /** A signalling thread that moves either still signals or has posted the event; a slot that changes
      leaves its thread signalling, and so does a raised revision. */
  lemma MainStaysGood(s: State, s': State, i: nat)
    requires GoodMain(s) && Later(s, s') && i < |s.threads| == |s'.threads|
    requires forall j: nat :: j < |s.threads| && j != i ==> s'.threads[j] == s.threads[j]
    requires s'.main == s.main && s'.rendered == s.rendered && (s.posted ==> s'.posted)
    requires Signals(s.threads[i]) || s'.slot != s.slot ==> s'.posted || Signals(s'.threads[i])
    requires s.threads[i].Notify? || s'.revision != s.revision ==> s'.posted || s'.threads[i].Notify?
    ensures GoodMain(s')
  {
    if WakeInFlight(s) && !s'.posted {
      var j: nat :| j < |s.threads| && Signals(s.threads[j]);
      assert Signals(s'.threads[j]);
    }
    if s'.slot != s.slot {
      assert s'.posted || Signals(s'.threads[i]);
    }
    if RedrawInFlight(s) && !s'.posted {
      var j: nat :| j < |s.threads| && s.threads[j].Notify?;
      assert s'.threads[j].Notify?;
    }
    if s'.revision != s.revision {
      assert s'.posted || s'.threads[i].Notify?;
    }
  }

  lemma ThreadStepKeepsInv(s: State, s': State, i: nat)
    requires Inv(s) && PromisesBegan(s) && i < |s.threads| && ThreadStep(s, s', i)
    ensures Inv(s') && PromisesBegan(s')
  {
    hide ThreadStep, GoodPc, GoodMain, GoodPromise, GoodZeroing, Covered, PromisesBegan;
    ThreadStepIsLater(s, s', i);
    assert GoodPc(s', s'.threads[i]) by { MovedPcIsGood(s, s', i); }
    ThreadsStayGood(s, s', i);
    NewPromisesAreGood(s, s', i);
    PromisesStayGood(s, s');
    NewZeroingsAreGood(s, s', i);
    ZeroingsStayGood(s, s', i);
    ThreadStepSignals(s, s', i);
    MainStaysGood(s, s', i);
  }

  /** What a step of thread i leaves alone. */
  predicate LaterFor(s: State, s': State, i: nat) {
    && Later(s, s') && |s'.threads| == |s.threads| && s'.main == s.main && s'.rendered == s.rendered
    && s'.now == s.now && s'.slot >= 0
    && forall j: nat :: j < |s.threads| && j != i ==> s'.threads[j] == s.threads[j]
  }

  lemma WakeLoopIsLater(s: State, s': State, i: nat, call: Call, current: int, seen: nat)
    requires i < |s.threads| && s.slot >= 0 && call.deadline > 0 && current >= 0
    requires WakeLoopStep(s, s', i, call, current, seen)
    ensures LaterFor(s, s', i)
  {
  }

  lemma PromoteLoopIsLater(s: State, s': State, i: nat, reading: int, current: int)
    requires i < |s.threads| && s.slot >= 0 && PromoteLoopStep(s, s', i, reading, current)
    ensures LaterFor(s, s', i)
  {
  }

  lemma PlainStepIsLater(s: State, s': State, i: nat)
    requires i < |s.threads| && s.slot >= 0 && ThreadStep(s, s', i)
    requires !s.threads[i].WakeLoop? && !s.threads[i].PromoteLoop?
    ensures LaterFor(s, s', i)
  {
    hide WakeLoopStep, PromoteLoopStep;
  }

  lemma ThreadStepIsLater(s: State, s': State, i: nat)
    requires Inv(s) && i < |s.threads| && ThreadStep(s, s', i)
    ensures LaterFor(s, s', i)
  {
    hide GoodMain, Covered, GoodPromise, GoodZeroing, Knows, HeldSince, LaterFor;
    hide WakeLoopStep, PromoteLoopStep, BeginStep;
    assert GoodPc(s, s.threads[i]);
    match s.threads[i]
    case WakeLoop(call, current, seen) => WakeLoopIsLater(s, s', i, call, current, seen);
    case PromoteLoop(reading, current, _) => PromoteLoopIsLater(s, s', i, reading, current);
    case _ => PlainStepIsLater(s, s', i);
  }

  /** A slot read empty or later than the reading holds no promise that is due by then. */
  lemma SlotTells(s: State, reading: int)
    requires Inv(s) && (s.slot == 0 || reading < s.slot)
    ensures Knows(s, reading, |s.promises|)
  {
    hide GoodMain, Covered, GoodZeroing, GoodPc;
    forall k | 0 <= k < |s.promises|
      ensures ServedBy(s, s.promises[k], reading)
    {
      assert GoodPromise(s, s.promises[k]);
    }
  }

  lemma MovedPcIsGood(s: State, s': State, i: nat)
    requires Inv(s) && i < |s.threads| && ThreadStep(s, s', i)
    ensures i < |s'.threads| && GoodPc(s', s'.threads[i])
  {
    hide Inv, BeginStep, WakeLoopStep, PromoteLoopStep;
    assert s.slot >= 0 && s.now >= 0 && GoodPc(s, s.threads[i]) by { FactsOf(s, i); }
    match s.threads[i]
    case PromoteLoad(reading) => ReadForPromotion(s, s', i, reading);
    case PromoteLoop(reading, current, _) =>
      if s' == s.With(i, PromoteLoop(reading, s.slot, |s.promises|)) {
        ReadForPromotion(s, s', i, reading);
      } else {
        assert PromoteLoopStep(s, s', i, reading, current);
        PromoteLoopMoves(s, s', i, reading, current);
      }
    case WakeLoop(call, current, seen) => WakeLoopMoves(s, s', i, call, current, seen);
    case Resting => BeginMoves(s, s', i);
    case _ =>
  }

  lemma FactsOf(s: State, i: nat)
    requires Inv(s) && i < |s.threads|
    ensures s.slot >= 0 && s.now >= 0 && GoodPc(s, s.threads[i])
  {
  }

  lemma BeginMoves(s: State, s': State, i: nat)
    requires i < |s.threads| && BeginStep(s, s', i)
    ensures i < |s'.threads| && GoodPc(s', s'.threads[i])
  {
  }

  lemma WakeLoopMoves(s: State, s': State, i: nat, call: Call, current: int, seen: nat)
    requires s.slot >= 0 && call.began <= s.revision && call.deadline > 0
    requires i < |s.threads| && WakeLoopStep(s, s', i, call, current, seen)
    ensures i < |s'.threads| && GoodPc(s', s'.threads[i])
  {
  }

  lemma PromoteLoopMoves(s: State, s': State, i: nat, reading: int, current: int)
    requires i < |s.threads| && PromoteLoopStep(s, s', i, reading, current)
    requires s' != s.With(i, PromoteLoop(reading, s.slot, |s.promises|))
    ensures i < |s'.threads| && GoodPc(s', s'.threads[i])
  {
  }

  lemma ReadForPromotion(s: State, s': State, i: nat, reading: int)
    requires Inv(s) && i < |s.threads| && reading <= s.now
    requires s' == s.With(i, PromoteLoop(reading, s.slot, |s.promises|))
    ensures GoodPc(s', s'.threads[i])
  {
    hide Inv, Knows;
    FactsOf(s, i);
    if s.slot == 0 || reading < s.slot {
      SlotTells(s, reading);
      assert Later(s, s');
      KnowledgeStays(s, s', reading, |s.promises|);
    }
  }

  lemma NewPromisesAreGood(s: State, s': State, i: nat)
    requires Inv(s) && i < |s.threads| && ThreadStep(s, s', i)
    ensures forall k: nat :: |s.promises| <= k < |s'.promises| ==>
              GoodPromise(s', s'.promises[k]) && s'.promises[k].call.began <= s'.revision
  {
    hide GoodMain, Covered, GoodZeroing, Knows;
    assert GoodPc(s, s.threads[i]);
  }

  lemma NewZeroingsAreGood(s: State, s': State, i: nat)
    requires Inv(s) && i < |s.threads| && ThreadStep(s, s', i)
    ensures s.threads[i].Increment? ==> s'.revision > s.revision
    ensures forall k: nat :: |s.zeroings| <= k < |s'.zeroings| ==> GoodZeroing(s', k) && Owed(s', k)
  {
    hide GoodMain, Covered, GoodPromise, Knows;
    assert GoodPc(s, s.threads[i]);
    if |s'.zeroings| > |s.zeroings| {
      assert Owes(s'.threads[i], |s.zeroings|);
    }
  }

  lemma ThreadStepSignals(s: State, s': State, i: nat)
    requires i < |s.threads| && ThreadStep(s, s', i)
    ensures |s'.threads| == |s.threads| && (s.posted ==> s'.posted)
    ensures Signals(s.threads[i]) || s'.slot != s.slot ==> s'.posted || Signals(s'.threads[i])
    ensures s.threads[i].Notify? || s'.revision != s.revision ==> s'.posted || s'.threads[i].Notify?
  {
  }

  lemma MainStepKeepsInv(s: State, s': State)
    requires Inv(s) && PromisesBegan(s) && MainStep(s, s')
    ensures Inv(s') && PromisesBegan(s')
  {
    assert Later(s, s') && |s'.threads| == |s.threads| && s'.now == s.now && s'.slot == s.slot;
    assert GoodPc(s', s'.threads[0]);
    ThreadsStayGood(s, s', 0);
    PromisesStayGood(s, s');
    ZeroingsStayGood(s, s', 0);
    MainMoves(s, s');
  }

  lemma MainMoves(s: State, s': State)
    requires Inv(s) && MainStep(s, s')
    ensures GoodMain(s') && s'.rendered <= s'.revision
  {
    hide GoodPc, Covered, GoodPromise, GoodZeroing;
    if s.main.ReadSlot? || s.main.ReadClock? || s.main.PumpEvents? {
      assert s'.threads == s.threads || s'.main.PromoteAfter?;
    }
  }

  lemma TickKeepsInv(s: State, s': State)
    requires Inv(s) && PromisesBegan(s) && s'.now >= s.now && s' == s.(now := s'.now)
    ensures Inv(s') && PromisesBegan(s')
  {
    assert Later(s, s');
    ThreadsStayGood(s, s', 0);
    PromisesStayGood(s, s');
    ZeroingsStayGood(s, s', 0);
    MainStaysGood(s, s', 0);
  }

  lemma StepKeepsInv(s: State, s': State)
    requires Inv(s) && PromisesBegan(s) && Step(s, s')
    ensures Inv(s') && PromisesBegan(s')
  {
    hide Inv, PromisesBegan, MainStep, ThreadStep;
    if MainStep(s, s') {
      MainStepKeepsInv(s, s');
    } else if i: nat :| i < |s.threads| && ThreadStep(s, s', i) {
      ThreadStepKeepsInv(s, s', i);
    } else {
      TickKeepsInv(s, s');
    }
  }
}
