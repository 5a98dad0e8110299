// Single-flight refresh of the conversation rail and of the attention feed:
// one load at a time, with a flag that asks for one more.
module RefreshFlight {

  // What the script keeps: whether a load's promise is held, and whether a
  // call came while it was.
  datatype Fields = Fields(flight: bool, queued: bool)

  // The fields, the loads in progress, the callers that will resume after a
  // finished load, whether a load waits for itself, and the times of interest.
  datatype System = System(
    fields: Fields, running: nat, resuming: nat, stuck: bool,
    now: nat, lastCall: nat, lastStart: nat, lastDrop: nat, started: nat)

  // `listed` says whether the page holds the rail at that moment. A load that
  // finds an active row missing replaces the sidebar and calls again from within.
  // The attention feed has no such condition and no such load.
  datatype Event =
    | Call(listed: bool)
    | Settle
    | Resume(listed: bool)
    | RowMissing

  const INITIAL := System(Fields(false, false), 0, 0, false, 1, 0, 0, 0, 0)

  // --- The script's steps --------------------------------------------------

  // A call starts a load exactly when it finds the page and no flight.
  function Called(f: Fields, listed: bool): Fields {
    if !listed then f
    else if f.flight then f.(queued := true)
    else f.(flight := true)
  }

  predicate Starts(f: Fields, listed: bool) {
    listed && !f.flight
  }

  function Resumed(f: Fields, listed: bool): Fields {
    if f.queued then Called(f.(queued := false), listed) else f
  }

  // --- Runs ----------------------------------------------------------------

  function Enter(s: System, f: Fields, listed: bool): System {
    var called := s.(fields := Called(f, listed));
    if Starts(f, listed) then
      called.(running := s.running + 1, started := s.started + 1, lastStart := s.now)
    else called
  }

  predicate Enabled(s: System, e: Event) {
    match e
    case Call(_) => true
    case Settle => s.running > 0 && !s.stuck
    case RowMissing => s.running > 0 && !s.stuck
    case Resume(_) => s.resuming > 0
  }

  // A call counts from its own time. A load that misses a row calls from within
  // itself, and waits for the flight that call returns.
  function Step(s: System, e: Event): System
    requires Enabled(s, e)
  {
    var t := s.(now := s.now + 1);
    match e
    case Call(listed) =>
      Enter(s, s.fields, listed).(now := s.now + 1, lastCall := if listed then s.now else s.lastCall)
    case Settle =>
      t.(fields := s.fields.(flight := false), running := s.running - 1, resuming := s.resuming + 1)
    case Resume(listed) =>
      var awake := s.(resuming := s.resuming - 1);
      if !s.fields.queued then awake.(now := s.now + 1)
      else
        Enter(awake, s.fields.(queued := false), listed).(
          now := s.now + 1, lastDrop := if listed then s.lastDrop else s.now)
    case RowMissing =>
      Enter(s, s.fields, true).(now := s.now + 1, lastCall := s.now, stuck := s.fields.flight)
  }

  // Each step changes the fields as the script does.
  lemma StepsFollowTheFields(s: System, e: Event)
    requires Inv(s) && Enabled(s, e)
    ensures e.Call? ==> Step(s, e).fields == Called(s.fields, e.listed)
    ensures e.Resume? ==> Step(s, e).fields == Resumed(s.fields, e.listed)
    ensures e.Settle? ==> !Step(s, e).fields.flight
    ensures (e.Call? && Starts(s.fields, e.listed)) || (e.Resume? && s.fields.queued && Starts(s.fields, e.listed))
            <==> Step(s, e).started == s.started + 1
  {
  }

  predicate Possible(s: System, events: seq<Event>)
    decreases |events|
  {
    events == [] || (Enabled(s, events[0]) && Possible(Step(s, events[0]), events[1..]))
  }

  function Run(s: System, events: seq<Event>): System
    requires Possible(s, events)
    decreases |events|
  {
    if events == [] then s else Run(Step(s, events[0]), events[1..])
  }

  // --- What every run keeps ------------------------------------------------

  // A call is covered once a load starts no earlier than it, or is dropped once
  // the page no longer holds the rail. The last call stands for all before it.
  predicate Covered(s: System) {
    s.lastCall <= s.lastStart || s.lastCall <= s.lastDrop
  }

  predicate Inv(s: System) {
    && s.running == (if s.fields.flight then 1 else 0)
    && (s.fields.queued ==> s.fields.flight || s.resuming > 0)
    && (s.stuck ==> s.fields.flight)
    && s.lastCall < s.now && s.lastStart < s.now && s.lastDrop < s.now
    && (Covered(s) || s.fields.queued)
  }

  lemma StepKeepsInv(s: System, e: Event)
    requires Inv(s) && Enabled(s, e)
    ensures Inv(Step(s, e))
  {
  }

  lemma {:induction false} RunKeepsInv(s: System, events: seq<Event>)
    requires Inv(s) && Possible(s, events)
    ensures Inv(Run(s, events))
    decreases |events|
  {
    if events != [] {
      StepKeepsInv(s, events[0]);
      RunKeepsInv(Step(s, events[0]), events[1..]);
    }
  }

  // However calls and completions interleave, at most one load is in progress.
  lemma AtMostOneLoad(events: seq<Event>)
    requires Possible(INITIAL, events)
    ensures Run(INITIAL, events).running <= 1
  {
    RunKeepsInv(INITIAL, events);
  }

  // A call not yet covered is still owed a load: the flag is up, and someone
  // will look at it.
  lemma CallsAreOwedALoad(events: seq<Event>)
    requires Possible(INITIAL, events)
    ensures var s := Run(INITIAL, events);
      Covered(s) || (s.fields.queued && (s.fields.flight || s.resuming > 0))
  {
    RunKeepsInv(INITIAL, events);
  }

  // --- After the last call -------------------------------------------------

  predicate Quiet(events: seq<Event>) {
    forall k | 0 <= k < |events| :: !events[k].Call?
  }

  // Nothing is left to happen unless someone calls.
  predicate Idle(s: System) {
    s.running == 0 && s.resuming == 0
  }

  predicate AtRest(s: System) {
    !Enabled(s, Settle) && !Enabled(s, Resume(true))
  }

  function Remaining(s: System): nat {
    if s.stuck then s.resuming
    else 2 * s.running + s.resuming + if s.fields.queued then 2 else 0
  }

  lemma QuietStepCostsOne(s: System, e: Event)
    requires Inv(s) && Enabled(s, e) && !e.Call?
    ensures Remaining(Step(s, e)) < Remaining(s)
  {
  }

  lemma {:induction false} QuietRunsAreShort(s: System, events: seq<Event>)
    requires Inv(s) && Possible(s, events) && Quiet(events)
    ensures |events| <= Remaining(s)
    decreases |events|
  {
    if events != [] {
      StepKeepsInv(s, events[0]);
      assert !events[0].Call?;
      assert forall k | 0 <= k < |events[1..]| :: events[1..][k] == events[k + 1];
      QuietStepCostsOne(s, events[0]);
      QuietRunsAreShort(Step(s, events[0]), events[1..]);
    }
  }

  function Owed(s: System): nat {
    if s.fields.queued && !s.stuck then 1 else 0
  }

  lemma StartUsesTheFlag(s: System, e: Event)
    requires Inv(s) && Enabled(s, e) && !e.Call?
    ensures s.started <= Step(s, e).started
    ensures Step(s, e).started + Owed(Step(s, e)) <= s.started + Owed(s)
  {
  }

  // Once calls stop, at most one more load starts, and only if the flag was up.
  lemma {:induction false} OneMoreLoadAtMost(s: System, events: seq<Event>)
    requires Inv(s) && Possible(s, events) && Quiet(events)
    ensures s.started <= Run(s, events).started <= s.started + Owed(s)
    decreases |events|
  {
    if events != [] {
      StepKeepsInv(s, events[0]);
      assert !events[0].Call?;
      assert forall k | 0 <= k < |events[1..]| :: events[1..][k] == events[k + 1];
      StartUsesTheFlag(s, events[0]);
      OneMoreLoadAtMost(Step(s, events[0]), events[1..]);
    }
  }

  // Left alone, the system does come to rest.
  function Drain(s: System): (events: seq<Event>)
    requires Inv(s)
    ensures Possible(s, events) && Quiet(events) && AtRest(Run(s, events))
    decreases Remaining(s)
  {
    if AtRest(s) then []
    else
      var e := if Enabled(s, Settle) then Settle else Resume(true);
      StepKeepsInv(s, e);
      QuietStepCostsOne(s, e);
      var more := Drain(Step(s, e));
      assert ([e] + more)[1..] == more;
      [e] + more
  }

  // --- A load that waits for itself ----------------------------------------

  // A load that finds a row missing waits for the flight it is: from then on no
  // load ever starts, whatever calls follow, and the next call stays uncovered.
  lemma {:induction false} StuckStartsNothing(s: System, events: seq<Event>)
    requires Inv(s) && s.stuck && Possible(s, events)
    ensures Run(s, events).stuck && Run(s, events).started == s.started
    decreases |events|
  {
    if events != [] {
      StepKeepsInv(s, events[0]);
      StuckStartsNothing(Step(s, events[0]), events[1..]);
    }
  }

  // The page still holds the rail when a caller resumes.
  predicate Listed(e: Event) {
    e.Resume? ==> e.listed
  }

  lemma {:induction false} StuckNeverCovers(s: System, events: seq<Event>)
    requires Inv(s) && s.stuck && !Covered(s) && Possible(s, events)
    requires forall k | 0 <= k < |events| :: Listed(events[k])
    ensures !Covered(Run(s, events))
    decreases |events|
  {
    if events != [] {
      StepKeepsInv(s, events[0]);
      assert Listed(events[0]);
      assert forall k | 0 <= k < |events[1..]| :: events[1..][k] == events[k + 1];
      StuckNeverCovers(Step(s, events[0]), events[1..]);
    }
  }

  predicate MissesRow(events: seq<Event>) {
    exists k | 0 <= k < |events| :: events[k].RowMissing?
  }

  // A load waits for itself exactly if one has found a row missing.
  lemma {:induction false} StuckIffRowMissing(s: System, events: seq<Event>)
    requires Inv(s) && Possible(s, events)
    ensures Run(s, events).stuck <==> s.stuck || MissesRow(events)
    decreases |events|
  {
    if events != [] {
      StepKeepsInv(s, events[0]);
      StuckIffRowMissing(Step(s, events[0]), events[1..]);
      MissesRowFirst(events);
    }
  }

  lemma MissesRowFirst(events: seq<Event>)
    requires events != []
    ensures MissesRow(events) <==> events[0].RowMissing? || MissesRow(events[1..])
  {
    if MissesRow(events[1..]) {
      var k :| 0 <= k < |events[1..]| && events[1..][k].RowMissing?;
      assert events[k + 1].RowMissing?;
    }
    if MissesRow(events) && !events[0].RowMissing? {
      var k :| 0 <= k < |events| && events[k].RowMissing?;
      assert events[1..][k - 1].RowMissing?;
    }
  }

  // From the moment a row is found missing some call is never covered.
  lemma {:induction false} MissedRowIsNeverCovered(s: System, events: seq<Event>)
    requires Inv(s) && !s.stuck && Possible(s, events) && MissesRow(events)
    requires forall k | 0 <= k < |events| :: Listed(events[k])
    ensures !Covered(Run(s, events))
    decreases |events|
  {
    StepKeepsInv(s, events[0]);
    MissesRowFirst(events);
    assert forall k | 0 <= k < |events[1..]| :: events[1..][k] == events[k + 1];
    var t := Step(s, events[0]);
    if events[0].RowMissing? {
      StuckNeverCovers(t, events[1..]);
    } else {
      MissedRowIsNeverCovered(t, events[1..]);
    }
  }

  // Once everything in progress has finished, nothing is left to happen and
  // every call has been followed by a load that started no earlier, unless the
  // page lost the rail: if and only if no load found an active row missing.
  lemma RestIsIdleIffNoRowMissing(events: seq<Event>)
    requires Possible(INITIAL, events) && AtRest(Run(INITIAL, events))
    ensures Idle(Run(INITIAL, events)) <==> !MissesRow(events)
    ensures !MissesRow(events) ==>
      var s := Run(INITIAL, events); Covered(s) && !s.fields.queued && !s.fields.flight
  {
    RunKeepsInv(INITIAL, events);
    StuckIffRowMissing(INITIAL, events);
  }

  // While the page holds the rail, every call comes to be covered if and only if
  // no load finds an active row missing.
  lemma CallsAreCoveredIffNoRowMissing(events: seq<Event>)
    requires Possible(INITIAL, events) && AtRest(Run(INITIAL, events))
    requires forall k | 0 <= k < |events| :: Listed(events[k])
    ensures Covered(Run(INITIAL, events)) <==> !MissesRow(events)
  {
    RestIsIdleIffNoRowMissing(events);
    if MissesRow(events) {
      MissedRowIsNeverCovered(INITIAL, events);
    }
  }

  const STALLING: seq<Event> := [Call(true), RowMissing, Call(true)]

  lemma ARowMissingStallsTheRail()
    ensures Possible(INITIAL, STALLING)
    ensures var s := Run(INITIAL, STALLING);
      AtRest(s) && !Idle(s) && !Covered(s) && s.stuck && s.started == 1
  {
    var one := Step(INITIAL, Call(true));
    var two := Step(one, RowMissing);
    var three := Step(two, Call(true));
    assert STALLING[1..] == [RowMissing, Call(true)] && STALLING[1..][1..] == [Call(true)];
    assert STALLING[1..][1..][1..] == [];
    assert Run(three, []) == three && Possible(three, []);
    assert Run(two, [Call(true)]) == three;
    assert Run(one, [RowMissing, Call(true)]) == three;
  }

  // --- The script's own fields ---------------------------------------------

  class Refresher {
    var flight: bool
    var refreshQueued: bool

    function View(): Fields
      reads this
    {
      Fields(flight, refreshQueued)
    }

    constructor ()
      ensures View() == INITIAL.fields
    {
      flight, refreshQueued := false, false;
    }

    // Whether a load starts.
    method Refresh(listed: bool) returns (starts: bool)
      modifies this
      ensures View() == Called(old(View()), listed)
      ensures starts == Starts(old(View()), listed)
    {
      if !listed {
        return false;
      }
      if flight {
        refreshQueued := true;
        return false;
      }
      flight := true;
      return true;
    }

    method LoadSettled()
      modifies this`flight
      ensures View() == old(View()).(flight := false)
    {
      flight := false;
    }

    // The caller that started the load resumes, and calls again if asked to.
    method AfterFlight(listed: bool) returns (starts: bool)
      modifies this
      ensures View() == Resumed(old(View()), listed)
      ensures starts == (old(refreshQueued) && Starts(old(View()), listed))
    {
      if !refreshQueued {
        return false;
      }
      refreshQueued := false;
      starts := Refresh(listed);
    }
  }
}
