/** What redraw and wake signalling keeps over whole runs. */
module MainLoopRuns {
  import opened Options
  import opened MainLoopSignal

  ghost predicate IsRun(run: seq<State>) {
    run != [] && Init(run[0]) && forall i :: 0 <= i < |run| - 1 ==> Linked(run, i)
  }

  ghost predicate Linked(run: seq<State>, i: nat)
    requires i + 1 < |run|
  {
    Step(run[i], run[i + 1]) && |run[i + 1].threads| == |run[i].threads|
  }

  lemma {:induction false} RunKeepsInv(run: seq<State>, i: nat)
    requires IsRun(run) && i < |run|
    ensures Inv(run[i]) && PromisesBegan(run[i])
    decreases i
  {
    hide Inv, PromisesBegan, Step;
    if i == 0 {
      hide Init;
      InitInv(run[0]);
      assert PromisesBegan(run[0]) by { InitNoPromise(run[0]); }
    } else {
      RunKeepsInv(run, i - 1);
      assert Linked(run, i - 1);
      StepKeepsInv(run[i - 1], run[i]);
    }
  }

  lemma InitNoPromise(s: State)
    requires Init(s)
    ensures PromisesBegan(s)
  {
  }

  lemma StepIsLater(s: State, s': State)
    requires Inv(s) && Step(s, s')
    ensures Later(s, s')
  {
    hide Inv, ThreadStep, MainStep;
    if MainStep(s, s') {
      MainIsLater(s, s');
    } else if i: nat :| i < |s.threads| && ThreadStep(s, s', i) {
      ThreadStepIsLater(s, s', i);
    }
  }

  lemma MainIsLater(s: State, s': State)
    requires s.threads != [] && MainStep(s, s')
    ensures Later(s, s')
  {
  }

  lemma {:induction false} RunGrows(run: seq<State>, i: nat, j: nat)
    requires IsRun(run) && i <= j < |run|
    ensures run[i].revision <= run[j].revision && run[i].now <= run[j].now
    ensures run[i].promises <= run[j].promises && run[i].zeroings <= run[j].zeroings
    ensures |run[j].threads| == |run[i].threads|
    decreases j
  {
    hide Inv, Step, Init;
    if i < j {
      RunGrows(run, i, j - 1);
      RunKeepsInv(run, j - 1);
      assert Linked(run, j - 1);
      StepIsLater(run[j - 1], run[j]);
    }
  }

  /** How many steps have raised the revision. */
  function Raised(run: seq<State>, i: nat): nat
    requires i < |run|
  {
    if i == 0 then 0 else Raised(run, i - 1) + if run[i].revision != run[i - 1].revision then 1 else 0
  }

  /** The revision counts the redraws requested. */
  lemma {:induction false} RevisionCounts(run: seq<State>, i: nat)
    requires IsRun(run) && i < |run|
    ensures run[i].revision == 1 + Raised(run, i)
    decreases i
  {
    hide Inv, Step;
    if i > 0 {
      RevisionCounts(run, i - 1);
      RunKeepsInv(run, i - 1);
      assert Linked(run, i - 1);
      StepIsLater(run[i - 1], run[i]);
    }
  }

  // ---------------------------------------------------------------- no deadline is lost

  predicate Serves(pc: Pc, call: Call) {
    match pc
    case WakeClock(c) => c == call
    case WakeLoad(c) => c == call
    case WakeLoop(c, _, _) => c == call
    case Increment(_, serves) => serves == Some(call)
    case _ => false
  }

  /** The slot holds a deadline no later than this, or a redraw has been requested since the revision
      was `began`, or a thread that cleared such a deadline since then still owes its redraw. */
  ghost predicate Kept(s: State, deadline: int, began: nat) {
    || 0 < s.slot <= deadline
    || s.revision > began
    || OwedFor(s, deadline, began)
  }

  ghost predicate OwedFor(s: State, deadline: int, began: nat) {
    exists k: nat :: k < |s.zeroings| && Owed(s, k) && s.zeroings[k].value <= deadline
                     && s.zeroings[k].revision >= began
  }

  predicate Answers(p: Promise, call: Call) {
    p.call == call
  }

  lemma PromiseIsKept(s: State, k: nat)
    requires Inv(s) && k < |s.promises|
    ensures Kept(s, s.promises[k].call.deadline, s.promises[k].call.began)
  {
    hide GoodMain, GoodPc;
    var p := s.promises[k];
    assert GoodPromise(s, p);
    if p.Stored? && p.seen < |s.zeroings| {
      assert GoodZeroing(s, p.seen) && Covered(s, p.seen);
    }
  }

  /** The step that ends the waiting of a wake request leaves its promise. */
  lemma AnswerIsPromised(s: State, s': State, t: nat, call: Call)
    requires s.threads != [] && Step(s, s') && t < |s.threads| == |s'.threads|
    requires Serves(s.threads[t], call) && !Serves(s'.threads[t], call)
    ensures exists k: nat :: k < |s'.promises| && Answers(s'.promises[k], call)
  {
    hide MainStep, ThreadStep;
    if MainStep(s, s') {
      MainKeepsCalls(s, s', t, call);
      assert false;
    } else if i: nat :| i < |s.threads| && ThreadStep(s, s', i) {
      ThreadAnswers(s, s', i, t, call);
      assert Answers(s'.promises[|s.promises|], call);
    }
  }

  lemma MainKeepsCalls(s: State, s': State, t: nat, call: Call)
    requires s.threads != [] && MainStep(s, s') && t < |s.threads| == |s'.threads| && Serves(s.threads[t], call)
    ensures Serves(s'.threads[t], call)
  {
  }

  lemma ThreadAnswers(s: State, s': State, i: nat, t: nat, call: Call)
    requires i < |s.threads| && ThreadStep(s, s', i) && t < |s.threads| == |s'.threads|
    requires Serves(s.threads[t], call) && !Serves(s'.threads[t], call)
    ensures |s'.promises| == |s.promises| + 1 && s'.promises[|s.promises|].call == call
  {
    hide BeginStep;
    if i != t {
      ThreadStepLeavesOthers(s, s', i, t);
      assert false;
    }
  }

  lemma ThreadStepLeavesOthers(s: State, s': State, i: nat, t: nat)
    requires i < |s.threads| && ThreadStep(s, s', i) && t < |s.threads| && t != i
    ensures |s'.threads| == |s.threads| && s'.threads[t] == s.threads[t]
  {
  }

  lemma CallBegins(s: State, s': State, t: nat, call: Call)
    requires s.threads != [] && Step(s, s') && t < |s.threads| == |s'.threads|
    requires s.threads[t] == Resting && Serves(s'.threads[t], call)
    ensures call.began == s.revision
  {
    hide MainStep;
    if MainStep(s, s') {
      MainBeginsNoCall(s, s', t, call);
      assert false;
    } else if i: nat :| i < |s.threads| && ThreadStep(s, s', i) {
      if i != t {
        ThreadStepLeavesOthers(s, s', i, t);
        assert false;
      }
    }
  }

  lemma MainBeginsNoCall(s: State, s': State, t: nat, call: Call)
    requires s.threads != [] && MainStep(s, s') && t < |s.threads| == |s'.threads| && s.threads[t] == Resting
    ensures !Serves(s'.threads[t], call)
  {
  }

  /** Thread t's RequestGuiWakeAt for `call.deadline` begins in step a and is answered in step b. */
  predicate WakeRequest(run: seq<State>, t: nat, a: nat, b: nat, call: Call) {
    && a < b < |run| - 1 && (forall k :: 0 <= k < |run| ==> t < |run[k].threads|)
    && run[a].threads[t] == Resting && (forall k :: a < k <= b ==> Serves(run[k].threads[t], call))
    && !Serves(run[b + 1].threads[t], call)
  }

  /** No deadline is lost: ever after a request for it has been answered, the slot holds it or an earlier
      one, or a redraw was requested since the request began, or a thread that cleared it owes one. */
  lemma DeadlineIsNotLost(run: seq<State>, t: nat, a: nat, b: nat, call: Call, j: nat)
    requires IsRun(run) && WakeRequest(run, t, a, b, call) && b < j < |run|
    ensures Kept(run[j], call.deadline, run[a].revision)
  {
    hide Inv, Step, Kept;
    assert Linked(run, a) && Linked(run, b);
    assert Serves(run[a + 1].threads[t], call) && Serves(run[b].threads[t], call);
    RunHasThreads(run, a);
    RunHasThreads(run, b);
    CallBegins(run[a], run[a + 1], t, call);
    AnswerIsPromised(run[b], run[b + 1], t, call);
    var k: nat :| k < |run[b + 1].promises| && Answers(run[b + 1].promises[k], call);
    RunGrows(run, b + 1, j);
    RunKeepsInv(run, j);
    PromiseIsKept(run[j], k);
  }

  lemma RunHasThreads(run: seq<State>, i: nat)
    requires IsRun(run) && i < |run|
    ensures run[i].threads != []
  {
    hide Step;
    RunKeepsInv(run, i);
  }

  /** The slot is emptied only by a thread whose clock reading had reached its deadline and which then
      owes a redraw; otherwise a deadline in it is only ever replaced by an earlier one. */
  lemma SlotIsClearedWhenDue(run: seq<State>, i: nat)
    requires IsRun(run) && i + 1 < |run| && run[i].slot != 0
    ensures 0 < run[i + 1].slot <= run[i].slot
            || (&& run[i + 1].slot == 0 && Owed(run[i + 1], |run[i].zeroings|)
                && |run[i + 1].zeroings| == |run[i].zeroings| + 1
                && run[i].slot <= run[i + 1].zeroings[|run[i].zeroings|].reading <= run[i].now)
  {
    RunKeepsInv(run, i);
    RunKeepsInv(run, i + 1);
    assert Linked(run, i);
    var s, s' := run[i], run[i + 1];
    hide Init, ThreadStep, MainStep;
    if MainStep(s, s') {
      MainKeepsSlot(s, s');
    } else if t: nat :| t < |s.threads| && ThreadStep(s, s', t) {
      hide Inv;
      ThreadStepIsLater(s, s', t);
      if s'.slot == 0 {
        NewZeroingsAreGood(s, s', t);
        assert GoodZeroing(s', |s.zeroings|);
      }
    }
  }

  lemma MainKeepsSlot(s: State, s': State)
    requires s.threads != [] && MainStep(s, s')
    ensures s'.slot == s.slot
  {
  }

  // ---------------------------------------------------------------- due deadlines are promoted

  /** Thread t's PromoteDueGuiWakeDeadline reads the clock in step a and ends in step b. */
  predicate Promotion(run: seq<State>, t: nat, a: nat, b: nat) {
    && a < b < |run| - 1 && (forall k :: 0 <= k < |run| ==> t < |run[k].threads|)
    && run[a].threads[t] == PromoteClock && (forall k :: a < k <= b ==> Promoting(run[k].threads[t]))
    && !Promoting(run[b + 1].threads[t])
  }

  predicate Promoting(pc: Pc) {
    pc.PromoteLoad? || pc.PromoteLoop?
  }

  /** A promotion compares with a reading no older than its start and sees every earlier promise. */
  predicate Informed(pc: Pc, now: int, promises: nat) {
    Promoting(pc) && pc.reading >= now && (pc.PromoteLoop? ==> pc.known >= promises)
  }

  lemma {:induction false} PromotionIsInformed(run: seq<State>, t: nat, a: nat, b: nat, k: nat)
    requires IsRun(run) && Promotion(run, t, a, b) && a < k <= b
    ensures Informed(run[k].threads[t], run[a].now, |run[a].promises|)
    decreases k
  {
    hide Inv, Step, Init;
    assert Linked(run, k - 1);
    assert Promoting(run[k].threads[t]);
    RunHasThreads(run, k - 1);
    RunGrows(run, a, k - 1);
    if k == a + 1 {
      PromotionMoves(run[a], run[k], t, run[a].now, |run[a].promises|);
    } else {
      PromotionIsInformed(run, t, a, b, k - 1);
      PromotionMoves(run[k - 1], run[k], t, run[a].now, |run[a].promises|);
    }
  }

  lemma PromotionMoves(s: State, s': State, t: nat, now: int, promises: nat)
    requires s.threads != [] && Step(s, s') && t < |s.threads| == |s'.threads| && Promoting(s'.threads[t])
    requires now <= s.now && promises <= |s.promises|
    requires s.threads[t] == PromoteClock || Informed(s.threads[t], now, promises)
    ensures Informed(s'.threads[t], now, promises)
  {
    hide MainStep, BeginStep, WakeLoopStep;
    if MainStep(s, s') {
      MainMovesThreadZero(s, s');
    } else if i: nat :| i < |s.threads| && ThreadStep(s, s', i) {
      if i != t {
        ThreadStepLeavesOthers(s, s', i, t);
      }
    }
  }

  lemma MainMovesThreadZero(s: State, s': State)
    requires s.threads != [] && MainStep(s, s')
    ensures s.threads[0] == Resting && |s'.threads| == |s.threads|
    ensures s'.threads[0] == Resting || s'.threads[0] == PromoteClock
    ensures forall t: nat :: 0 < t < |s.threads| ==> s'.threads[t] == s.threads[t]
  {
  }

  /** The end of a promotion leaves no promise due by its reading in the slot. */
  lemma PromotionEnds(s: State, s': State, t: nat, now: int, k: nat)
    requires Inv(s) && Step(s, s') && t < |s.threads| == |s'.threads| && k < |s.promises|
    requires Informed(s.threads[t], now, k + 1) && !Promoting(s'.threads[t])
    requires s.promises[k].call.deadline <= now
    ensures k < |s'.promises| && s'.promises[k] == s.promises[k] && ServedBy(s', s.promises[k], now)
  {
    hide MainStep, ThreadStep, GoodMain, Covered, GoodZeroing;
    if MainStep(s, s') {
      MainMovesThreadZero(s, s');
      assert false;
    } else if i: nat :| i < |s.threads| && ThreadStep(s, s', i) {
      if i != t {
        ThreadStepLeavesOthers(s, s', i, t);
        assert false;
      }
      LastPromotionStep(s, s', t, now, k);
    }
  }

  lemma LastPromotionStep(s: State, s': State, t: nat, now: int, k: nat)
    requires Inv(s) && t < |s.threads| && ThreadStep(s, s', t) && k < |s.promises|
    requires Informed(s.threads[t], now, k + 1) && t < |s'.threads| && !Promoting(s'.threads[t])
    requires s.promises[k].call.deadline <= now
    ensures k < |s'.promises| && s'.promises[k] == s.promises[k] && ServedBy(s', s.promises[k], now)
  {
    hide GoodMain, Covered, GoodZeroing, BeginStep, WakeLoopStep;
    assert GoodPc(s, s.threads[t]);
    var PromoteLoop(reading, current, known) := s.threads[t];
    assert GoodPromise(s, s.promises[k]);
    if current == 0 || reading < current {
      assert ServedBy(s, s.promises[k], reading);
    }
  }

  /** A deadline due when a promotion starts does not stay in the slot: when the promotion ends, a redraw
      has been requested since the request for it began, or a thread owes one. */
  lemma PromotionServesDueDeadlines(run: seq<State>, t: nat, a: nat, b: nat, k: nat)
    requires IsRun(run) && Promotion(run, t, a, b)
    requires k < |run[a].promises| && run[a].promises[k].call.deadline <= run[a].now
    ensures var call := run[a].promises[k].call;
            run[b + 1].revision > call.began || OwedFor(run[b + 1], call.deadline, call.began)
  {
    hide Step, Init;
    RunKeepsInv(run, b);
    RunKeepsInv(run, b + 1);
    RunGrows(run, a, b);
    assert Linked(run, b);
    PromotionIsInformed(run, t, a, b, b);
    assert Promoting(run[b].threads[t]) && !Promoting(run[b + 1].threads[t]);
    PromotionEnds(run[b], run[b + 1], t, run[a].now, k);
    ServedIsKept(run[b + 1], k, run[a].now);
  }

  lemma ServedIsKept(s: State, k: nat, now: int)
    requires Inv(s) && k < |s.promises| && s.promises[k].call.deadline <= now && ServedBy(s, s.promises[k], now)
    ensures s.revision > s.promises[k].call.began
            || OwedFor(s, s.promises[k].call.deadline, s.promises[k].call.began)
  {
    hide GoodMain, GoodPc;
    var p := s.promises[k];
    assert GoodPromise(s, p);
    if p.Stored? {
      assert GoodZeroing(s, p.seen) && Covered(s, p.seen);
    }
  }

  // ---------------------------------------------------------------- no redraw is lost

  /** The loop never sleeps over a redraw: while it waits in a window that is not suspended, a revision
      not yet drawn has its wake posted or about to be; and unless a wake is on its way the wait ends
      by the deadline in the slot, or, should that be nearer, 0.05 s after the wait began. */
  lemma SleepMissesNothing(run: seq<State>, i: nat)
    requires IsRun(run) && i < |run| && run[i].main.Waiting? && !run[i].main.suspended
    ensures run[i].rendered != run[i].revision ==> RedrawInFlight(run[i])
    ensures var m := run[i].main;
            WakeInFlight(run[i]) || run[i].slot == 0
            || m.until <= m.start + 50_000_000 || m.until <= run[i].slot + (m.start - m.reading)
  {
    hide Init, Step, GoodPc, GoodZeroing, GoodPromise, Covered;
    RunKeepsInv(run, i);
  }

  /** Every wait, also in a suspended window, ends by itself after 0.01 s to 30 s. */
  lemma WaitIsBounded(run: seq<State>, i: nat)
    requires IsRun(run) && i < |run| && run[i].main.Waiting?
    ensures 10_000_000 <= run[i].main.until - run[i].main.start <= 30_000_000_000
  {
    hide Init, Step, GoodPc, GoodZeroing, GoodPromise, Covered;
    RunKeepsInv(run, i);
  }

  lemma MainAdvances(s: State, s': State, v: nat)
    requires Inv(s) && Step(s, s')
    ensures s'.main.Drawing? && s'.main.revision >= v && s'.main != s.main ==>
              s.main.FrameStart? && s.revision >= v
    ensures s'.rendered != s.rendered ==> s.main.Drawing? && s'.rendered == s.main.revision
    ensures s.main.FrameCheck? && s'.main != s.main ==>
              s'.main.FrameStart? || (s'.main.Top? && s.rendered == s.revision)
    ensures s.main.FrameStart? && s'.main != s.main ==> s'.main == Drawing(s.revision)
    ensures s.main.Drawing? && s'.main != s.main ==> s'.rendered == s.main.revision
    ensures s'.rendered >= s.rendered
  {
    hide GoodPc, GoodZeroing, GoodPromise, Covered, ThreadStep;
    if MainStep(s, s') {
    } else if i: nat :| i < |s.threads| && ThreadStep(s, s', i) {
      ThreadKeepsMain(s, s', i);
    }
  }

  lemma ThreadKeepsMain(s: State, s': State, i: nat)
    requires i < |s.threads| && ThreadStep(s, s', i)
    ensures s'.main == s.main && s'.rendered == s.rendered
  {
  }

  /** Step k started a frame for revision v or a later one. */
  predicate StartsFrame(run: seq<State>, k: nat, v: nat)
    requires k + 1 < |run|
  {
    run[k].main.FrameStart? && run[k].revision >= v && run[k + 1].main == Drawing(run[k].revision)
  }

  /** Once the rendered revision has reached a request's revision, a frame that began after that request
      has been drawn. The request is step i, which raised the revision past v - 1. */
  lemma {:induction false} DrawnAfterRequested(run: seq<State>, i: nat, v: nat, j: nat)
    requires IsRun(run) && i < j < |run| && run[i].revision < v
    requires run[j].rendered >= v || (run[j].main.Drawing? && run[j].main.revision >= v)
    ensures exists k: nat :: i < k < j && StartsFrame(run, k, v)
    decreases j
  {
    hide Step, Init, GoodPc, GoodZeroing, GoodPromise, Covered;
    RunKeepsInv(run, j - 1);
    assert Linked(run, j - 1);
    MainAdvances(run[j - 1], run[j], v);
    if run[j - 1].main.FrameStart? && run[j].main.Drawing? {
      assert j - 1 != i;
      assert StartsFrame(run, j - 1, v) || run[j].rendered >= v;
    }
    if run[j - 1].rendered >= v || (run[j - 1].main.Drawing? && run[j - 1].main.revision >= v) {
      DrawnAfterRequested(run, i, v, j - 1);
    }
  }

  /** A pass of the loop that comes to the frame check draws everything requested so far before it comes
      round again. */
  lemma {:induction false} PassDrawsEverythingRequested(run: seq<State>, i: nat, j: nat)
    requires IsRun(run) && i <= j < |run| && run[i].main.FrameCheck?
    ensures || run[j].main.FrameCheck? || run[j].main.FrameStart?
            || (run[j].main.Drawing? && run[j].main.revision >= run[i].revision)
            || run[j].rendered >= run[i].revision
    ensures run[j].main.Top? ==> run[j].rendered >= run[i].revision
    decreases j
  {
    hide Step, Init, Inv;
    if i < j {
      PassDrawsEverythingRequested(run, i, j - 1);
      RunKeepsInv(run, j - 1);
      RunGrows(run, i, j - 1);
      assert Linked(run, j - 1);
      MainAdvances(run[j - 1], run[j], run[i].revision);
    }
  }
}
