/** The request generations of a stock context: which response may be applied. */
module RequestTracker {

  datatype Channel = Chart | Quote | Refresh

  const CHANNELS: nat := 3

  function Index(channel: Channel): (i: nat)
    ensures i < CHANNELS
  {
    match channel
    case Chart => 0
    case Quote => 1
    case Refresh => 2
  }

  /** The newest generation asked for, the one in flight (zero for none) and the last one applied. */
  datatype Generation = Generation(desired: nat, inFlight: nat, applied: nat)
  {
    predicate Settled() {
      inFlight == 0 && applied == desired
    }

    function Request(): Generation {
      this.(desired := desired + 1)
    }

    function EnsureDesired(): Generation {
      if desired == applied then Request() else this
    }

    predicate MayBegin(generation: nat) {
      generation != 0 && generation == desired && inFlight == 0
    }

    function Begin(generation: nat): Generation {
      if MayBegin(generation) then this.(inFlight := generation) else this
    }

    predicate CanApply(generation: nat) {
      generation != 0 && generation == desired && generation == inFlight && generation > applied
    }

    function Complete(generation: nat, succeeded: bool): Generation {
      if generation == 0 || generation != inFlight then this
      else this.(inFlight := 0, applied := if succeeded && CanApply(generation) then generation else applied)
    }

    function CancelDesired(): Generation {
      if inFlight == 0 then this.(desired := applied) else this
    }
  }

  class StockRequestTracker {
    const generations: array<Generation>

    ghost predicate Valid()
      reads generations
    {
      generations.Length == CHANNELS
    }

    constructor ()
      ensures Valid() && fresh(generations)
      ensures forall i :: 0 <= i < CHANNELS ==> generations[i] == Generation(0, 0, 0)
    {
      generations := new Generation[CHANNELS](_ => Generation(0, 0, 0));
    }

    function State(channel: Channel): Generation
      requires Valid()
      reads generations
    {
      generations[Index(channel)]
    }

    method Request(channel: Channel) returns (generation: nat)
      requires Valid()
      modifies generations
      ensures Valid() && generations[..] == old(generations[..])[Index(channel) := old(State(channel)).Request()]
      ensures generation == old(State(channel)).desired + 1
    {
      var state := generations[Index(channel)];
      generation := state.desired + 1;
      generations[Index(channel)] := state.(desired := generation);
    }

    method EnsureDesired(channel: Channel) returns (generation: nat)
      requires Valid()
      modifies generations
      ensures Valid() && generations[..] == old(generations[..])[Index(channel) := old(State(channel)).EnsureDesired()]
      ensures generation == State(channel).desired
      ensures old(State(channel)).applied <= old(State(channel)).desired ==> generation > State(channel).applied
    {
      var state := generations[Index(channel)];
      if state.desired == state.applied {
        generation := Request(channel);
      } else {
        generation := state.desired;
      }
    }

    method Begin(channel: Channel, generation: nat) returns (begun: bool)
      requires Valid()
      modifies generations
      ensures Valid()
      ensures generations[..] == old(generations[..])[Index(channel) := old(State(channel)).Begin(generation)]
      ensures begun <==> old(State(channel)).MayBegin(generation)
    {
      var state := generations[Index(channel)];
      if generation == 0 || generation != state.desired || state.inFlight != 0 {
        return false;
      }
      generations[Index(channel)] := state.(inFlight := generation);
      return true;
    }

    method Complete(channel: Channel, generation: nat, succeeded: bool) returns (apply: bool)
      requires Valid()
      modifies generations
      ensures Valid()
      ensures generations[..]
              == old(generations[..])[Index(channel) := old(State(channel)).Complete(generation, succeeded)]
      ensures apply <==> succeeded && old(State(channel)).CanApply(generation)
    {
      var state := generations[Index(channel)];
      if generation == 0 || generation != state.inFlight {
        return false;
      }
      apply := succeeded && generation == state.desired && generation > state.applied;
      state := state.(inFlight := 0);
      if apply {
        state := state.(applied := generation);
      }
      generations[Index(channel)] := state;
    }

    method CancelDesired(channel: Channel)
      requires Valid()
      modifies generations
      ensures Valid() && generations[..] == old(generations[..])[Index(channel) := old(State(channel)).CancelDesired()]
    {
      var state := generations[Index(channel)];
      if state.inFlight == 0 {
        generations[Index(channel)] := state.(desired := state.applied);
      }
    }

    /** The tracker's part in TriggerFetch. A fetch that starts has its generation in flight, the newest
        one and newer than anything applied. */
    method TriggerFetch(channel: Channel) returns (started: bool, generation: nat)
      requires Valid()
      modifies generations
      ensures Valid() && generations[..] == old(generations[..])[Index(channel) := Triggered(old(State(channel)))]
      ensures started <==> State(channel).inFlight == generation
      ensures old(Ordered(State(channel))) && started ==> State(channel).CanApply(generation)
      ensures old(Ordered(State(channel))) && old(State(channel)).inFlight == 0 ==> started
    {
      generation := EnsureDesired(channel);
      var begun := Begin(channel, generation);
      if !begun && generations[Index(channel)].inFlight != generation {
        return false, generation;
      }
      started := true;
    }
  }

  function Triggered(g: Generation): Generation {
    var ensured := g.EnsureDesired();
    ensured.Begin(ensured.desired)
  }

  // ---------------------------------------------------------------- runs

  datatype Event =
    | Requested(channel: Channel)
    | Ensured(channel: Channel)
    | Started(channel: Channel)
    | Begun(channel: Channel, generation: nat)
    | Completed(channel: Channel, generation: nat, succeeded: bool)
    | Cancelled(channel: Channel)

  type State = s: seq<Generation> | |s| == CHANNELS witness seq(CHANNELS, _ => Generation(0, 0, 0))

  function Effect(g: Generation, e: Event): Generation {
    match e
    case Requested(_) => g.Request()
    case Ensured(_) => g.EnsureDesired()
    case Started(_) => Triggered(g)
    case Begun(_, generation) => g.Begin(generation)
    case Completed(_, generation, succeeded) => g.Complete(generation, succeeded)
    case Cancelled(_) => g.CancelDesired()
  }

  function Apply(s: State, e: Event): State {
    s[Index(e.channel) := Effect(s[Index(e.channel)], e)]
  }

  predicate IsRun(run: seq<State>, events: seq<Event>) {
    && |run| == |events| + 1 && (forall c: Channel :: run[0][Index(c)] == Generation(0, 0, 0))
    && forall i :: 0 <= i < |events| ==> run[i + 1] == Apply(run[i], events[i])
  }

  function At(run: seq<State>, i: nat, c: Channel): Generation
    requires i < |run|
  {
    run[i][Index(c)]
  }

  predicate Ordered(g: Generation) {
    g.inFlight <= g.desired && g.applied <= g.desired
  }

  lemma ChannelStep(run: seq<State>, events: seq<Event>, i: nat, c: Channel)
    requires IsRun(run, events) && i < |events|
    ensures At(run, i + 1, c) == if events[i].channel == c then Effect(At(run, i, c), events[i]) else At(run, i, c)
  {
    assert run[i + 1] == Apply(run[i], events[i]);
  }

  /** Neither the generation in flight nor the applied one is ever newer than the desired one, and the
      applied one never decreases, although cancelling lets numbers be used again. */
  lemma {:induction false} AppliedNeverDecreases(run: seq<State>, events: seq<Event>, i: nat, j: nat, c: Channel)
    requires IsRun(run, events) && i <= j < |run|
    ensures Ordered(At(run, j, c)) && At(run, i, c).applied <= At(run, j, c).applied
    decreases j
  {
    if j > 0 {
      ChannelStep(run, events, j - 1, c);
      AppliedNeverDecreases(run, events, if i < j then i else j - 1, j - 1, c);
      if i == j {
        assert Ordered(At(run, j - 1, c));
      }
    }
  }

  /** How many requests there have been on a channel, fetches that may have needed one included. */
  function Asked(events: seq<Event>, i: nat, c: Channel): nat
    requires i <= |events|
  {
    if i == 0 then 0
    else
      var e := events[i - 1];
      Asked(events, i - 1, c) + if e.channel == c && (e.Requested? || e.Ensured? || e.Started?) then 1 else 0
  }

  /** Generations are numbered by the requests: a request asks for the next number, and there are never more
      numbers than requests. */
  lemma {:induction false} GenerationsAreCounted(run: seq<State>, events: seq<Event>, i: nat, c: Channel)
    requires IsRun(run, events) && i < |run|
    ensures At(run, i, c).desired <= Asked(events, i, c) && Ordered(At(run, i, c))
    ensures i > 0 && events[i - 1] == Requested(c) ==> At(run, i, c).desired == At(run, i - 1, c).desired + 1
    decreases i
  {
    if i > 0 {
      GenerationsAreCounted(run, events, i - 1, c);
      AppliedNeverDecreases(run, events, i, i, c);
      ChannelStep(run, events, i - 1, c);
    }
  }

  /** Generation g is put in flight on a channel in step i, being newer than the applied one. */
  predicate BeginsAt(run: seq<State>, events: seq<Event>, i: nat, c: Channel, g: nat)
    requires i < |events| && i + 1 < |run|
  {
    && events[i].channel == c && (events[i].Begun? || events[i].Started?)
    && At(run, i, c).inFlight == 0 && At(run, i + 1, c).inFlight == g != 0 && g > At(run, i, c).applied
  }

  predicate Asks(run: seq<State>, k: nat, c: Channel)
    requires k + 1 < |run|
  {
    At(run, k + 1, c).desired > At(run, k, c).desired
  }

  /** No step strictly between i and j asks for a newer generation. */
  predicate NoneAsked(run: seq<State>, i: nat, j: nat, c: Channel)
    requires j < |run|
  {
    forall k: nat :: i < k < j ==> !Asks(run, k, c)
  }

  lemma NoneAskedStep(run: seq<State>, i: nat, j: nat, c: Channel)
    requires i < j < |run| - 1
    ensures NoneAsked(run, i, j + 1, c) <==> NoneAsked(run, i, j, c) && !Asks(run, j, c)
  {
  }

  /** While g is in flight the applied generation stays and the desired one is g until a newer one is
      asked for. */
  lemma {:induction false} InFlight(run: seq<State>, events: seq<Event>, i: nat, j: nat, c: Channel, g: nat)
    requires IsRun(run, events) && i < j < |run| && BeginsAt(run, events, i, c, g)
    requires forall k :: i < k < j ==> !(events[k].Completed? && events[k].channel == c && events[k].generation == g)
    ensures var s := At(run, j, c);
            && s.inFlight == g && s.applied == At(run, i, c).applied && s.desired >= g > s.applied
            && (s.desired == g <==> NoneAsked(run, i, j, c))
    decreases j
  {
    ChannelStep(run, events, j - 1, c);
    AppliedNeverDecreases(run, events, i, i, c);
    if i < j - 1 {
      InFlight(run, events, i, j - 1, c, g);
      NoneAskedStep(run, i, j - 1, c);
    }
  }

  /** A successful completion of the generation in flight is accepted exactly when no newer generation was
      asked for since it began. Refused, it changes nothing applied and leaves the channel unsettled, the
      newest generation still to be fetched by the next trigger. */
  lemma AcceptedUnlessSuperseded(run: seq<State>, events: seq<Event>, i: nat, j: nat, c: Channel, g: nat, ok: bool)
    requires IsRun(run, events) && i < j < |events| && BeginsAt(run, events, i, c, g)
    requires forall k :: i < k < j ==> !(events[k].Completed? && events[k].channel == c && events[k].generation == g)
    requires events[j] == Completed(c, g, ok)
    ensures var s, s' := At(run, j, c), At(run, j + 1, c);
            && (s.CanApply(g) <==> NoneAsked(run, i, j, c))
            && s'.inFlight == 0 && s'.desired == s.desired
            && s'.applied == (if ok && s.CanApply(g) then g else s.applied)
            && (ok && s.CanApply(g) ==> s'.Settled())
            && (!(ok && s.CanApply(g)) ==> !s'.Settled() && Triggered(s') == s'.(inFlight := s.desired))
  {
    InFlight(run, events, i, j, c, g);
    ChannelStep(run, events, j, c);
  }

  /** The handling of a failed response that was still wanted, cancelling after completing, settles the
      channel on what was applied before. */
  lemma FailureSettles(s: Generation, g: nat)
    requires Ordered(s) && s.CanApply(g)
    ensures s.Complete(g, false).CancelDesired().Settled()
    ensures s.Complete(g, false).CancelDesired().applied == s.applied
  {
  }
}
