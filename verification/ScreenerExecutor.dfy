/** The single-slot executor of the screener, whose latest job wins. Each method is one locked region. */
module ScreenerExecutor {
  import opened Options

  /** The executor's fields. */
  datatype Slot<J> = Slot(pending: Option<J>, stopping: bool, busy: bool)
  {
    function Submit(job: J): Slot<J> {
      if stopping then this else this.(pending := Some(job), busy := true)
    }

    function Stop(): Slot<J> {
      this.(stopping := true, pending := None)
    }

    /** The end of Stop, once the worker has been joined. */
    function Joined(): Slot<J> {
      this.(busy := false)
    }

    /** The worker may take a job, or leaves when the executor is stopping. */
    predicate MayWake() {
      stopping || pending.Some?
    }

    function Take(): Slot<J> {
      if stopping then this.(pending := None, busy := false) else this.(pending := None)
    }

    function Finish(): Slot<J> {
      if pending == None then this.(busy := false) else this
    }
  }

  class LatestScreenerJobExecutor<J(==)> {
    var pending: Option<J>
    var stopping: bool
    var busy: bool

    function State(): Slot<J>
      reads this
    {
      Slot(pending, stopping, busy)
    }

    constructor ()
      ensures State() == Slot(None, false, false)
    {
      pending, stopping, busy := None, false, false;
    }

    method Submit(job: J) returns (accepted: bool)
      modifies this
      ensures State() == old(State()).Submit(job)
      ensures accepted <==> !old(stopping)
      ensures accepted ==> pending == Some(job) && busy
    {
      if stopping {
        return false;
      }
      pending := Some(job);
      busy := true;
      return true;
    }

    /** The first part of Stop, before the worker is joined. */
    method Stop()
      modifies this
      ensures State() == if old(stopping) then old(State()) else old(State()).Stop()
    {
      if stopping {
        return;
      }
      stopping := true;
      pending := None;
    }

    /** The last part of Stop, after the worker is joined. */
    method FinishStop()
      modifies this`busy
      ensures State() == old(State()).Joined()
    {
      busy := false;
    }

    /** The worker waking up. */
    method Take() returns (job: Option<J>)
      requires State().MayWake()
      modifies this
      ensures State() == old(State()).Take()
      ensures job == if old(stopping) then None else old(pending)
    {
      if stopping {
        pending := None;
        busy := false;
        return None;
      }
      job := pending;
      pending := None;
    }

    /** The worker after a job. */
    method Finish()
      modifies this
      ensures State() == old(State()).Finish()
    {
      if pending == None {
        busy := false;
      }
    }
  }

  // ---------------------------------------------------------------- runs

  datatype Event<J> = Submitted(job: J) | Stopped | Taken | Finished | Joined

  /** The slot, and whether the worker is running a job or has left. */
  datatype State<J> = State(slot: Slot<J>, running: bool, left: bool)

  predicate Enabled<J(==)>(s: State<J>, e: Event<J>) {
    match e
    case Taken => !s.running && !s.left && s.slot.MayWake()
    case Finished => s.running
    case Joined => s.left
    case _ => true
  }

  function Next<J(==)>(s: State<J>, e: Event<J>): State<J> {
    match e
    case Submitted(job) => s.(slot := s.slot.Submit(job))
    case Stopped => s.(slot := s.slot.Stop())
    case Taken => State(s.slot.Take(), !s.slot.stopping, s.slot.stopping)
    case Finished => s.(slot := s.slot.Finish(), running := false)
    case Joined => s.(slot := s.slot.Joined())
  }

  predicate IsRun<J(==)>(run: seq<State<J>>, events: seq<Event<J>>) {
    && |run| == |events| + 1 && run[0] == State(Slot(None, false, false), false, false)
    && forall i :: 0 <= i < |events| ==> Enabled(run[i], events[i]) && run[i + 1] == Next(run[i], events[i])
  }

  /** The job pending, if any, is the last one submitted, and was submitted after the last job was taken. */
  predicate IsLatest<J(==)>(events: seq<Event<J>>, k: nat, i: nat, job: J)
    requires i <= |events|
  {
    k < i && events[k] == Submitted(job) && forall m :: k < m < i ==> !events[m].Submitted? && !events[m].Taken?
  }

  lemma {:induction false} PendingIsLatest<J>(run: seq<State<J>>, events: seq<Event<J>>, i: nat) returns (k: nat)
    requires IsRun(run, events) && i <= |events| && run[i].slot.pending.Some?
    ensures IsLatest(events, k, i, run[i].slot.pending.value)
    decreases i
  {
    var e := events[i - 1];
    assert run[i] == Next(run[i - 1], e);
    if e.Submitted? && !run[i - 1].slot.stopping {
      k := i - 1;
    } else {
      StoppedIsEmpty(run, events, i - 1);
      k := PendingIsLatest(run, events, i - 1);
    }
  }

  lemma {:induction false} StoppedIsEmpty<J>(run: seq<State<J>>, events: seq<Event<J>>, i: nat)
    requires IsRun(run, events) && i <= |events|
    ensures run[i].slot.stopping ==> run[i].slot.pending == None
  {
    if i > 0 {
      StoppedIsEmpty(run, events, i - 1);
      assert run[i] == Next(run[i - 1], events[i - 1]);
    }
  }

  /** The latest job wins: the job a worker takes is the last one submitted; any other submitted since the
      last job was taken has been displaced by it. */
  lemma TakenIsLatest<J>(run: seq<State<J>>, events: seq<Event<J>>, i: nat) returns (k: nat)
    requires IsRun(run, events) && i < |events| && events[i].Taken? && !run[i].slot.stopping
    ensures run[i].slot.pending.Some? && IsLatest(events, k, i, run[i].slot.pending.value)
    ensures run[i + 1].running && run[i + 1].slot.pending == None
  {
    k := PendingIsLatest(run, events, i);
  }

  /** A worker leaves only when the executor is stopping, and leaves nothing behind. */
  lemma {:induction false} LeftIsQuiet<J>(run: seq<State<J>>, events: seq<Event<J>>, i: nat)
    requires IsRun(run, events) && i <= |events| && run[i].left
    ensures run[i] == State(Slot(None, true, false), false, true)
  {
    if i > 0 {
      assert run[i] == Next(run[i - 1], events[i - 1]) && Enabled(run[i - 1], events[i - 1]);
      if run[i - 1].left {
        LeftIsQuiet(run, events, i - 1);
      }
    }
  }

  /** From the moment the worker has left, the executor is stopped, idle and not busy for good, before and
      after Stop returns: no submission is accepted any more. */
  lemma {:induction false} StoppedForGood<J>(run: seq<State<J>>, events: seq<Event<J>>, i: nat, j: nat)
    requires IsRun(run, events) && i <= j <= |events| && run[i].left
    ensures run[j] == State(Slot(None, true, false), false, true)
  {
    if i < j {
      StoppedForGood(run, events, i, j - 1);
      assert run[j] == Next(run[j - 1], events[j - 1]) && Enabled(run[j - 1], events[j - 1]);
    } else {
      LeftIsQuiet(run, events, i);
    }
  }

  /** Until it is stopped the executor is busy exactly while a job is pending or running. */
  lemma {:induction false} BusyMeansWork<J>(run: seq<State<J>>, events: seq<Event<J>>, i: nat)
    requires IsRun(run, events) && i <= |events| && !run[i].slot.stopping
    ensures run[i].slot.busy <==> run[i].slot.pending.Some? || run[i].running
  {
    if i > 0 {
      assert run[i] == Next(run[i - 1], events[i - 1]);
      if run[i - 1].left {
        LeftIsQuiet(run, events, i - 1);
      }
      BusyMeansWork(run, events, i - 1);
    }
  }
}
