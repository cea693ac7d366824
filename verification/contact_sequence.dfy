/** The contact sequence: contact phases alternating with discrete events
    (impulses, where a contact becomes active, and lifts, where one becomes
    inactive). The state mirrors the class's parallel deques: the phase
    statuses, the flat event list (`isImpulseEvent`, `eventTime`), and per
    kind the positions of that kind's events in the flat list, their times
    and their switching-time-optimisation (STO) flags. A contact status is
    the vector of per-contact activity flags. */
module ContactSequences {
  import opened Outcomes

  type ContactStatus = seq<bool>

  datatype DiscreteEvent = DiscreteEvent(pre: ContactStatus, post: ContactStatus)

  datatype DiscreteEventType = ImpulseEvent | LiftEvent | NoEvent

  datatype SequenceError =
    | NegativeCapacity
    | PreContactStatusMismatch
    | NoDiscreteEvent
    | TooManyImpulseEvents
    | TooManyLiftEvents
    | EventTimeNotIncreasing

  /** The number of contacts both statuses of an event describe. */
  function CommonSize(e: DiscreteEvent): nat
  {
    if |e.pre| < |e.post| then |e.pre| else |e.post|
  }

  predicate ExistsImpulse(e: DiscreteEvent)
  {
    exists c :: 0 <= c < CommonSize(e) && !e.pre[c] && e.post[c]
  }

  predicate ExistsLift(e: DiscreteEvent)
  {
    exists c :: 0 <= c < CommonSize(e) && e.pre[c] && !e.post[c]
  }

  /** An event is an impulse when some contact becomes active, otherwise a
      lift when some contact becomes inactive, otherwise no event. */
  function EventTypeOf(e: DiscreteEvent): (k: DiscreteEventType)
    ensures k == ImpulseEvent <==> ExistsImpulse(e)
    ensures k == LiftEvent <==> !ExistsImpulse(e) && ExistsLift(e)
  {
    if ExistsImpulse(e) then ImpulseEvent else if ExistsLift(e) then LiftEvent else NoEvent
  }

  /** The impulse status of an event: the contacts that become active. */
  function ImpulseStatusOf(e: DiscreteEvent): (r: seq<bool>)
    ensures |r| == CommonSize(e)
    ensures forall c :: 0 <= c < |r| ==> (r[c] <==> !e.pre[c] && e.post[c])
  {
    seq(CommonSize(e), c requires 0 <= c < CommonSize(e) => !e.pre[c] && e.post[c])
  }

  /** `idx` lists, in increasing order, exactly the positions of `flags`
      that hold `b`. */
  ghost predicate ListsPositions(idx: seq<int>, flags: seq<bool>, b: bool)
  {
    (forall k :: 0 <= k < |idx| ==> 0 <= idx[k] < |flags| && flags[idx[k]] == b)
    && (forall k, l :: 0 <= k < l < |idx| ==> idx[k] < idx[l])
    && (forall i :: 0 <= i < |flags| && flags[i] == b ==> i in idx)
  }

  function Decrement(s: seq<int>): (r: seq<int>)
    ensures |r| == |s| && forall k :: 0 <= k < |s| ==> r[k] == s[k] - 1
  {
    seq(|s|, k requires 0 <= k < |s| => s[k] - 1)
  }

  datatype ContactSequence = ContactSequence(
    maxNumEachEvents: int, maxNumEvents: int,
    defaultContactStatus: ContactStatus,
    contactStatuses: seq<ContactStatus>,
    impulseEvents: seq<DiscreteEvent>,
    eventIndexImpulse: seq<int>, eventIndexLift: seq<int>,
    eventTime: seq<real>, impulseTime: seq<real>, liftTime: seq<real>,
    isImpulseEvent: seq<bool>, stoImpulse: seq<bool>, stoLift: seq<bool>)

  /** The class invariant tying the parallel deques together: phases and
      events alternate, the per-kind index deques list exactly the flat
      positions of that kind, per-kind times and flags run parallel to
      them, each kind stays within its capacity, and every recorded event
      is the transition between the phases around it. */
  ghost predicate Valid(cs: ContactSequence)
  {
    Shape(cs) && IndexesListPositions(cs) && TimesMatch(cs) && EventsMatch(cs)
  }

  ghost predicate Shape(cs: ContactSequence)
  {
    cs.maxNumEvents == 2 * cs.maxNumEachEvents
    && |cs.contactStatuses| == |cs.isImpulseEvent| + 1
    && |cs.eventTime| == |cs.isImpulseEvent|
    && |cs.eventIndexImpulse| + |cs.eventIndexLift| == |cs.isImpulseEvent|
    && |cs.impulseEvents| == |cs.eventIndexImpulse| && |cs.impulseTime| == |cs.eventIndexImpulse|
    && |cs.stoImpulse| == |cs.eventIndexImpulse|
    && |cs.liftTime| == |cs.eventIndexLift| && |cs.stoLift| == |cs.eventIndexLift|
    && |cs.eventIndexImpulse| <= cs.maxNumEachEvents && |cs.eventIndexLift| <= cs.maxNumEachEvents
  }

  ghost predicate IndexesListPositions(cs: ContactSequence)
  {
    ListsPositions(cs.eventIndexImpulse, cs.isImpulseEvent, true)
    && ListsPositions(cs.eventIndexLift, cs.isImpulseEvent, false)
  }

  /** Each per-kind time is the flat time at that event's position. */
  ghost predicate TimesMatch(cs: ContactSequence)
    requires Shape(cs) && IndexesListPositions(cs)
  {
    (forall k :: 0 <= k < |cs.impulseTime| ==> cs.eventTime[cs.eventIndexImpulse[k]] == cs.impulseTime[k])
    && (forall k :: 0 <= k < |cs.liftTime| ==> cs.eventTime[cs.eventIndexLift[k]] == cs.liftTime[k])
  }

  /** Each event is the transition between the phases around it, of the
      kind its flag records. */
  ghost predicate EventsMatch(cs: ContactSequence)
    requires Shape(cs) && IndexesListPositions(cs)
  {
    (forall k :: 0 <= k < |cs.impulseEvents| ==>
       cs.impulseEvents[k] == PhaseTransition(cs, cs.eventIndexImpulse[k]))
    && (forall i :: 0 <= i < |cs.isImpulseEvent| ==>
          EventTypeOf(PhaseTransition(cs, i)) == (if cs.isImpulseEvent[i] then ImpulseEvent else LiftEvent))
  }

  /** The transition from phase `i` to phase `i + 1`. */
  function PhaseTransition(cs: ContactSequence, i: int): DiscreteEvent
    requires 0 <= i && i + 1 < |cs.contactStatuses|
  {
    DiscreteEvent(cs.contactStatuses[i], cs.contactStatuses[i + 1])
  }

  /** Appending a flag appends its position to the list of its value. */
  lemma PositionsAppend(idx: seq<int>, flags: seq<bool>, b: bool, x: bool)
    requires ListsPositions(idx, flags, b)
    ensures ListsPositions(idx + (if x == b then [|flags|] else []), flags + [x], b)
  {
    var r := idx + (if x == b then [|flags|] else []);
    var f := flags + [x];
    forall i | 0 <= i < |f| && f[i] == b
      ensures i in r
    {
      if i < |flags| {
        assert flags[i] == b;
        assert i in idx;
      } else {
        assert r[|r| - 1] == i;
      }
    }
  }

  /** Removing the last flag removes its position, which was the last entry
      of the list of its value. */
  lemma PositionsDropLast(idx: seq<int>, flags: seq<bool>, b: bool)
    requires ListsPositions(idx, flags, b) && |flags| > 0
    ensures flags[|flags| - 1] == b ==> |idx| > 0 && idx[|idx| - 1] == |flags| - 1
    ensures ListsPositions(if flags[|flags| - 1] == b then idx[..|idx| - 1] else idx, flags[..|flags| - 1], b)
  {
    if flags[|flags| - 1] == b {
      PositionsDropLastOwn(idx, flags, b);
    } else {
      PositionsDropLastOther(idx, flags, b);
    }
  }

  lemma PositionsDropLastOwn(idx: seq<int>, flags: seq<bool>, b: bool)
    requires ListsPositions(idx, flags, b) && |flags| > 0 && flags[|flags| - 1] == b
    ensures |idx| > 0 && idx[|idx| - 1] == |flags| - 1
    ensures ListsPositions(idx[..|idx| - 1], flags[..|flags| - 1], b)
  {
    var n := |flags|;
    var g := flags[..n - 1];
    assert n - 1 in idx;
    var k :| 0 <= k < |idx| && idx[k] == n - 1;
    var last := |idx| - 1;
    assert idx[k] <= idx[last];
    var r := idx[..last];
    forall k | 0 <= k < |r|
      ensures 0 <= r[k] < |g| && g[r[k]] == b
    {
      assert idx[k] < idx[last];
    }
    forall i | 0 <= i < |g| && g[i] == b
      ensures i in r
    {
      assert flags[i] == b;
      var j :| 0 <= j < |idx| && idx[j] == i;
      assert j != last;
      assert r[j] == i;
    }
  }

  lemma PositionsDropLastOther(idx: seq<int>, flags: seq<bool>, b: bool)
    requires ListsPositions(idx, flags, b) && |flags| > 0 && flags[|flags| - 1] != b
    ensures ListsPositions(idx, flags[..|flags| - 1], b)
  {
    var n := |flags|;
    var g := flags[..n - 1];
    forall k | 0 <= k < |idx|
      ensures 0 <= idx[k] < n - 1 && g[idx[k]] == b
    {
      assert flags[idx[k]] == b;
    }
    forall i | 0 <= i < |g| && g[i] == b
      ensures i in idx
    {
      assert flags[i] == b;
    }
  }

  /** Removing the first flag removes position 0 from the list of its value
      and moves every other position down by one. */
  lemma PositionsDropFirst(idx: seq<int>, flags: seq<bool>, b: bool)
    requires ListsPositions(idx, flags, b) && |flags| > 0
    ensures flags[0] == b ==> |idx| > 0 && idx[0] == 0
    ensures ListsPositions(Decrement(if flags[0] == b then idx[1..] else idx), flags[1..], b)
  {
    if flags[0] == b {
      PositionsDropFirstOwn(idx, flags, b);
    } else {
      PositionsDropFirstOther(idx, flags, b);
    }
  }

  lemma PositionsDropFirstOwn(idx: seq<int>, flags: seq<bool>, b: bool)
    requires ListsPositions(idx, flags, b) && |flags| > 0 && flags[0] == b
    ensures |idx| > 0 && idx[0] == 0
    ensures ListsPositions(Decrement(idx[1..]), flags[1..], b)
  {
    var g := flags[1..];
    assert 0 in idx;
    var k0 :| 0 <= k0 < |idx| && idx[k0] == 0;
    assert idx[0] <= idx[k0];
    var r := Decrement(idx[1..]);
    forall k | 0 <= k < |r|
      ensures r[k] == idx[k + 1] - 1 && 0 <= r[k] < |g| && g[r[k]] == b
    {
      assert idx[0] < idx[k + 1];
    }
    forall k, l | 0 <= k < l < |r|
      ensures r[k] < r[l]
    {
      assert idx[k + 1] < idx[l + 1];
    }
    forall i | 0 <= i < |g| && g[i] == b
      ensures i in r
    {
      assert flags[i + 1] == b;
      var j :| 0 <= j < |idx| && idx[j] == i + 1;
      assert r[j - 1] == i;
    }
  }

  lemma PositionsDropFirstOther(idx: seq<int>, flags: seq<bool>, b: bool)
    requires ListsPositions(idx, flags, b) && |flags| > 0 && flags[0] != b
    ensures ListsPositions(Decrement(idx), flags[1..], b)
  {
    var g := flags[1..];
    var r := Decrement(idx);
    forall k | 0 <= k < |r|
      ensures 0 <= r[k] < |g| && g[r[k]] == b
    {
      assert idx[k] != 0 by {
        assert flags[idx[k]] == b;
      }
      assert g[r[k]] == flags[idx[k]];
    }
    forall i | 0 <= i < |g| && g[i] == b
      ensures i in r
    {
      assert flags[i + 1] == b;
      var j :| 0 <= j < |idx| && idx[j] == i + 1;
      assert r[j] == i;
    }
  }

  // ---------------------------------------------------------------------
  // Queries

  function NumImpulseEvents(cs: ContactSequence): int
  {
    |cs.eventIndexImpulse|
  }

  function NumLiftEvents(cs: ContactSequence): int
  {
    |cs.eventIndexLift|
  }

  function NumDiscreteEvents(cs: ContactSequence): int
  {
    |cs.isImpulseEvent|
  }

  function NumContactPhases(cs: ContactSequence): int
  {
    |cs.contactStatuses|
  }

  function MaxNumEachEvents(cs: ContactSequence): int
  {
    cs.maxNumEachEvents
  }

  function MaxNumEvents(cs: ContactSequence): int
  {
    cs.maxNumEvents
  }

  function LastStatus(cs: ContactSequence): ContactStatus
    requires |cs.contactStatuses| > 0
  {
    cs.contactStatuses[|cs.contactStatuses| - 1]
  }

  /** The counters agree: every event is an impulse or a lift, there is one
      more phase than events, and the total capacity is twice the per-kind
      capacity. */
  lemma CountersAgree(cs: ContactSequence)
    requires Valid(cs)
    ensures NumDiscreteEvents(cs) == NumImpulseEvents(cs) + NumLiftEvents(cs)
    ensures NumContactPhases(cs) == NumDiscreteEvents(cs) + 1
    ensures MaxNumEvents(cs) == 2 * MaxNumEachEvents(cs)
    ensures NumDiscreteEvents(cs) <= MaxNumEvents(cs)
  {
  }

  /** `contactStatus(contact_phase)`: the status before event `phase` is
      the pre-status of that event's transition, the status after it the
      post-status, and the last phase's status is the one pushes start from. */
  function ContactStatusAt(cs: ContactSequence, phase: int): (r: ContactStatus)
    requires 0 <= phase < NumContactPhases(cs)
    ensures phase + 1 < NumContactPhases(cs) ==> r == PhaseTransition(cs, phase).pre
    ensures phase > 0 ==> r == PhaseTransition(cs, phase - 1).post
    ensures phase == NumContactPhases(cs) - 1 ==> r == LastStatus(cs)
  {
    cs.contactStatuses[phase]
  }

  /** `eventType(event_index)`: impulse exactly for the positions listed in
      the impulse index deque, lift exactly for those in the lift one. */
  function EventType(cs: ContactSequence, i: int): (k: DiscreteEventType)
    requires Valid(cs) && 0 <= i < NumDiscreteEvents(cs)
    ensures k == ImpulseEvent <==> i in cs.eventIndexImpulse
    ensures k == LiftEvent <==> i in cs.eventIndexLift
    ensures k == EventTypeOf(PhaseTransition(cs, i))
  {
    if cs.isImpulseEvent[i] then ImpulseEvent else LiftEvent
  }

  /** `impulseStatus(impulse_index)`: the contacts made by that impulse,
      read off the phases around it. */
  function ImpulseStatus(cs: ContactSequence, k: int): (r: seq<bool>)
    requires Valid(cs) && 0 <= k < NumImpulseEvents(cs)
    ensures var i := cs.eventIndexImpulse[k];
      0 <= i < NumDiscreteEvents(cs) && cs.isImpulseEvent[i]
      && r == ImpulseStatusOf(DiscreteEvent(ContactStatusAt(cs, i), ContactStatusAt(cs, i + 1)))
  {
    ImpulseStatusOf(cs.impulseEvents[k])
  }

  /** `impulseTime(impulse_index)`: the time of the event at that position. */
  function ImpulseTime(cs: ContactSequence, k: int): (t: real)
    requires Valid(cs) && 0 <= k < NumImpulseEvents(cs)
    ensures t == cs.eventTime[cs.eventIndexImpulse[k]]
  {
    cs.impulseTime[k]
  }

  /** `liftTime(lift_index)`: the time of the event at that position. */
  function LiftTime(cs: ContactSequence, k: int): (t: real)
    requires Valid(cs) && 0 <= k < NumLiftEvents(cs)
    ensures t == cs.eventTime[cs.eventIndexLift[k]]
  {
    cs.liftTime[k]
  }

  function IsSTOEnabledImpulse(cs: ContactSequence, k: int): bool
    requires Valid(cs) && 0 <= k < NumImpulseEvents(cs)
  {
    cs.stoImpulse[k]
  }

  function IsSTOEnabledLift(cs: ContactSequence, k: int): bool
    requires Valid(cs) && 0 <= k < NumLiftEvents(cs)
  {
    cs.stoLift[k]
  }


  // ---------------------------------------------------------------------
  // Construction

  /** The single-phase sequence with no events. */
  function Initial(maxNumEachEvents: int, defaultStatus: ContactStatus, status: ContactStatus): ContactSequence
  {
    ContactSequence(maxNumEachEvents, 2 * maxNumEachEvents, defaultStatus, [status], [], [], [],
                    [], [], [], [], [], [])
  }

  /** The constructor: one phase with the robot's default contact status and
      capacity for `maxNumEachEvents` events of each kind (none unless
      given). A negative capacity is rejected. */
  function Create(defaultStatus: ContactStatus, maxNumEachEvents: int := 0): (r: Result<ContactSequence, SequenceError>)
    ensures r.Ok? <==> maxNumEachEvents >= 0
    ensures r.Err? ==> r.error == NegativeCapacity
    ensures r.Ok? ==> Valid(r.value) && NumContactPhases(r.value) == 1 && NumDiscreteEvents(r.value) == 0
    ensures r.Ok? ==> ContactStatusAt(r.value, 0) == defaultStatus
    ensures r.Ok? ==> MaxNumEachEvents(r.value) == maxNumEachEvents && MaxNumEvents(r.value) == 2 * maxNumEachEvents
  {
    if maxNumEachEvents < 0 then Err(NegativeCapacity)
    else Ok(Initial(maxNumEachEvents, defaultStatus, defaultStatus))
  }

  /** `initContactSequence`: a single phase with the given status and no
      events; the capacity is kept. */
  function InitContactSequence(cs: ContactSequence, status: ContactStatus): (r: ContactSequence)
    requires Valid(cs)
    ensures Valid(r)
    ensures NumContactPhases(r) == 1 && ContactStatusAt(r, 0) == status
    ensures NumDiscreteEvents(r) == 0 && NumImpulseEvents(r) == 0 && NumLiftEvents(r) == 0
    ensures MaxNumEachEvents(r) == MaxNumEachEvents(cs) && MaxNumEvents(r) == MaxNumEvents(cs)
  {
    Initial(cs.maxNumEachEvents, cs.defaultContactStatus, status)
  }

  // ---------------------------------------------------------------------
  // Push and pop

  /** Whether an event of the given kind still fits within the capacity. */
  predicate HasRoomFor(cs: ContactSequence, kind: DiscreteEventType)
  {
    match kind
    case ImpulseEvent => NumImpulseEvents(cs) < cs.maxNumEachEvents
    case LiftEvent => NumLiftEvents(cs) < cs.maxNumEachEvents
    case NoEvent => false
  }

  /** Whether `t` lies after every event already in the sequence. */
  predicate IsLaterThanLastEvent(cs: ContactSequence, t: real)
  {
    |cs.eventTime| == 0 || cs.eventTime[|cs.eventTime| - 1] < t
  }

  /** `push_back(discrete_event, event_time, sto)`: appends the event and
      the phase after it. The event must start from the last phase, must
      change some contact, must fit in its kind's capacity and must come
      after the last event. */
  function PushBack(cs: ContactSequence, e: DiscreteEvent, t: real, sto: bool := false): (r: Result<ContactSequence, SequenceError>)
    requires Valid(cs)
    ensures r.Ok? <==>
      e.pre == LastStatus(cs) && EventTypeOf(e) != NoEvent && HasRoomFor(cs, EventTypeOf(e))
      && IsLaterThanLastEvent(cs, t)
    ensures e.pre != LastStatus(cs) ==> r == Err(PreContactStatusMismatch)
    ensures e.pre == LastStatus(cs) && EventTypeOf(e) == NoEvent ==> r == Err(NoDiscreteEvent)
    ensures r.Ok? ==> Valid(r.value)
    ensures r.Ok? ==> r.value.contactStatuses == cs.contactStatuses + [e.post]
    ensures r.Ok? ==> r.value.eventTime == cs.eventTime + [t]
    ensures r.Ok? ==> NumContactPhases(r.value) == NumContactPhases(cs) + 1
    ensures r.Ok? ==> EventType(r.value, NumDiscreteEvents(cs)) == EventTypeOf(e)
    ensures r.Ok? ==> MaxNumEachEvents(r.value) == MaxNumEachEvents(cs)
  {
    var kind := EventTypeOf(e);
    if e.pre != LastStatus(cs) then Err(PreContactStatusMismatch)
    else if kind == NoEvent then Err(NoDiscreteEvent)
    else if kind == ImpulseEvent && !HasRoomFor(cs, kind) then Err(TooManyImpulseEvents)
    else if kind == LiftEvent && !HasRoomFor(cs, kind) then Err(TooManyLiftEvents)
    else if !IsLaterThanLastEvent(cs, t) then Err(EventTimeNotIncreasing)
    else
      Ok(Appended(cs, e, t, sto))
  }

  /** What a successful push does per kind: the count of the event's kind
      grows by one and its new last entry carries the event's time, STO
      flag and (for an impulse) impulse status; the other kind is untouched
      and earlier entries keep their values. */
  lemma PushBackPerKind(cs: ContactSequence, e: DiscreteEvent, t: real, sto: bool)
    requires Valid(cs) && PushBack(cs, e, t, sto).Ok?
    ensures var r := PushBack(cs, e, t, sto).value;
      (EventTypeOf(e) == ImpulseEvent ==> (
         NumImpulseEvents(r) == NumImpulseEvents(cs) + 1 && NumLiftEvents(r) == NumLiftEvents(cs)
         && ImpulseTime(r, NumImpulseEvents(cs)) == t
         && IsSTOEnabledImpulse(r, NumImpulseEvents(cs)) == sto
         && ImpulseStatus(r, NumImpulseEvents(cs)) == ImpulseStatusOf(e)))
      && (EventTypeOf(e) == LiftEvent ==> (
         NumLiftEvents(r) == NumLiftEvents(cs) + 1 && NumImpulseEvents(r) == NumImpulseEvents(cs)
         && LiftTime(r, NumLiftEvents(cs)) == t
         && IsSTOEnabledLift(r, NumLiftEvents(cs)) == sto))
      && r.impulseTime[..NumImpulseEvents(cs)] == cs.impulseTime
      && r.liftTime[..NumLiftEvents(cs)] == cs.liftTime
      && r.stoImpulse[..NumImpulseEvents(cs)] == cs.stoImpulse
      && r.stoLift[..NumLiftEvents(cs)] == cs.stoLift
  {
  }

  /** The state after appending an event that passed the checks. */
  function Appended(cs: ContactSequence, e: DiscreteEvent, t: real, sto: bool): (r: ContactSequence)
    requires Valid(cs)
    requires e.pre == LastStatus(cs) && EventTypeOf(e) != NoEvent && HasRoomFor(cs, EventTypeOf(e))
    ensures Valid(r)
    ensures AppendedShape(cs, r, EventTypeOf(e) == ImpulseEvent)
    ensures r.contactStatuses == cs.contactStatuses + [e.post] && r.eventTime == cs.eventTime + [t]
    ensures EventTypeOf(e) == ImpulseEvent ==> r.impulseEvents == cs.impulseEvents + [e] && r.stoImpulse == cs.stoImpulse + [sto]
    ensures EventTypeOf(e) == LiftEvent ==> r.stoLift == cs.stoLift + [sto]
  {
    var n := |cs.isImpulseEvent|;
    var base := cs.(contactStatuses := cs.contactStatuses + [e.post], eventTime := cs.eventTime + [t]);
    var r := if EventTypeOf(e) == ImpulseEvent then
      base.(impulseEvents := cs.impulseEvents + [e], eventIndexImpulse := cs.eventIndexImpulse + [n],
            impulseTime := cs.impulseTime + [t], isImpulseEvent := cs.isImpulseEvent + [true],
            stoImpulse := cs.stoImpulse + [sto])
    else
      base.(eventIndexLift := cs.eventIndexLift + [n], liftTime := cs.liftTime + [t],
            isImpulseEvent := cs.isImpulseEvent + [false], stoLift := cs.stoLift + [sto]);
    AppendedPositions(cs, r, EventTypeOf(e) == ImpulseEvent);
    AppendedTimes(cs, r, EventTypeOf(e) == ImpulseEvent);
    AppendedEvents(cs, r, e);
    r
  }

  /** What appending does to the deques, for either kind of event. */
  ghost predicate AppendedShape(cs: ContactSequence, r: ContactSequence, isImpulse: bool)
  {
    var n := |cs.isImpulseEvent|;
    r.maxNumEachEvents == cs.maxNumEachEvents && r.maxNumEvents == cs.maxNumEvents
    && |r.contactStatuses| == |cs.contactStatuses| + 1 && r.contactStatuses[..|cs.contactStatuses|] == cs.contactStatuses
    && |r.eventTime| == n + 1 && r.eventTime[..n] == cs.eventTime
    && r.isImpulseEvent == cs.isImpulseEvent + [isImpulse]
    && (isImpulse ==>
          |cs.impulseEvents| + 1 == |r.impulseEvents| && r.impulseEvents[..|cs.impulseEvents|] == cs.impulseEvents
          && r.eventIndexImpulse == cs.eventIndexImpulse + [n]
          && r.impulseTime == cs.impulseTime + [r.eventTime[n]] && |r.stoImpulse| == |cs.stoImpulse| + 1
          && r.eventIndexLift == cs.eventIndexLift && r.liftTime == cs.liftTime && r.stoLift == cs.stoLift)
    && (!isImpulse ==>
          r.eventIndexLift == cs.eventIndexLift + [n]
          && r.liftTime == cs.liftTime + [r.eventTime[n]] && |r.stoLift| == |cs.stoLift| + 1
          && r.impulseEvents == cs.impulseEvents && r.eventIndexImpulse == cs.eventIndexImpulse
          && r.impulseTime == cs.impulseTime && r.stoImpulse == cs.stoImpulse)
  }

  lemma AppendedPositions(cs: ContactSequence, r: ContactSequence, isImpulse: bool)
    requires Shape(cs) && IndexesListPositions(cs) && AppendedShape(cs, r, isImpulse)
    requires isImpulse ==> |cs.eventIndexImpulse| < cs.maxNumEachEvents
    requires !isImpulse ==> |cs.eventIndexLift| < cs.maxNumEachEvents
    ensures Shape(r) && IndexesListPositions(r)
  {
    PositionsAppend(cs.eventIndexImpulse, cs.isImpulseEvent, true, isImpulse);
    PositionsAppend(cs.eventIndexLift, cs.isImpulseEvent, false, isImpulse);
  }

  lemma AppendedTimes(cs: ContactSequence, r: ContactSequence, isImpulse: bool)
    requires Shape(cs) && IndexesListPositions(cs) && TimesMatch(cs)
    requires Shape(r) && IndexesListPositions(r)
    requires AppendedShape(cs, r, isImpulse)
    ensures TimesMatch(r)
  {
    var n := |cs.isImpulseEvent|;
    forall k | 0 <= k < |r.impulseTime|
      ensures r.eventTime[r.eventIndexImpulse[k]] == r.impulseTime[k]
    {
      if k < |cs.impulseTime| {
        assert r.eventTime[cs.eventIndexImpulse[k]] == cs.eventTime[cs.eventIndexImpulse[k]];
      }
    }
    forall k | 0 <= k < |r.liftTime|
      ensures r.eventTime[r.eventIndexLift[k]] == r.liftTime[k]
    {
      if k < |cs.liftTime| {
        assert r.eventTime[cs.eventIndexLift[k]] == cs.eventTime[cs.eventIndexLift[k]];
      }
    }
  }

  lemma AppendedEvents(cs: ContactSequence, r: ContactSequence, e: DiscreteEvent)
    requires Shape(cs) && IndexesListPositions(cs) && EventsMatch(cs)
    requires Shape(r) && IndexesListPositions(r)
    requires e.pre == LastStatus(cs) && EventTypeOf(e) != NoEvent
    requires AppendedShape(cs, r, EventTypeOf(e) == ImpulseEvent)
    requires r.contactStatuses[|cs.contactStatuses|] == e.post
    requires EventTypeOf(e) == ImpulseEvent ==> r.impulseEvents[|cs.impulseEvents|] == e
    ensures EventsMatch(r)
  {
    var n := |cs.isImpulseEvent|;
    assert PhaseTransition(r, n) == e;
    forall i | 0 <= i < n
      ensures PhaseTransition(r, i) == PhaseTransition(cs, i)
    {
      assert r.contactStatuses[i] == cs.contactStatuses[i];
      assert r.contactStatuses[i + 1] == cs.contactStatuses[i + 1];
    }
    forall k | 0 <= k < |cs.impulseEvents|
      ensures r.impulseEvents[k] == cs.impulseEvents[k]
    {
      assert r.impulseEvents[..|cs.impulseEvents|][k] == r.impulseEvents[k];
    }
  }

  /** `push_back(contact_status, event_time, sto)`: the event is the
      transition from the last phase to `status`. */
  function PushBackStatus(cs: ContactSequence, status: ContactStatus, t: real, sto: bool := false): (r: Result<ContactSequence, SequenceError>)
    requires Valid(cs)
    ensures r.Ok? <==>
      var e := DiscreteEvent(LastStatus(cs), status);
      EventTypeOf(e) != NoEvent && HasRoomFor(cs, EventTypeOf(e)) && IsLaterThanLastEvent(cs, t)
    ensures r.Ok? ==> Valid(r.value) && LastStatus(r.value) == status
    ensures r.Ok? ==> NumContactPhases(r.value) == NumContactPhases(cs) + 1
    ensures r.Ok? ==> EventType(r.value, NumDiscreteEvents(cs)) == EventTypeOf(DiscreteEvent(LastStatus(cs), status))
  {
    PushBack(cs, DiscreteEvent(LastStatus(cs), status), t, sto)
  }

  /** `pop_back`: removes the last event and the phase after it; with no
      event there is nothing to remove. */
  function PopBack(cs: ContactSequence): (r: ContactSequence)
    requires Valid(cs)
    ensures Valid(r)
    ensures NumDiscreteEvents(cs) == 0 ==> r == cs
    ensures NumDiscreteEvents(cs) > 0 ==>
      var n := NumDiscreteEvents(cs);
      r.contactStatuses == cs.contactStatuses[..n] && r.eventTime == cs.eventTime[..n - 1]
      && NumContactPhases(r) == NumContactPhases(cs) - 1
      && (cs.isImpulseEvent[n - 1] ==>
            NumImpulseEvents(r) == NumImpulseEvents(cs) - 1 && NumLiftEvents(r) == NumLiftEvents(cs)
            && r.impulseTime == cs.impulseTime[..NumImpulseEvents(r)] && r.liftTime == cs.liftTime
            && r.stoImpulse == cs.stoImpulse[..NumImpulseEvents(r)] && r.stoLift == cs.stoLift)
      && (!cs.isImpulseEvent[n - 1] ==>
            NumLiftEvents(r) == NumLiftEvents(cs) - 1 && NumImpulseEvents(r) == NumImpulseEvents(cs)
            && r.liftTime == cs.liftTime[..NumLiftEvents(r)] && r.impulseTime == cs.impulseTime
            && r.stoLift == cs.stoLift[..NumLiftEvents(r)] && r.stoImpulse == cs.stoImpulse)
    ensures MaxNumEachEvents(r) == MaxNumEachEvents(cs)
  {
    var n := |cs.isImpulseEvent|;
    if n == 0 then cs
    else
      var flags := cs.isImpulseEvent[..n - 1];
      var base := cs.(contactStatuses := cs.contactStatuses[..n], eventTime := cs.eventTime[..n - 1],
                      isImpulseEvent := flags);
      var ni := |cs.eventIndexImpulse|;
      var nl := |cs.eventIndexLift|;
      var r := if cs.isImpulseEvent[n - 1] then
        base.(impulseEvents := cs.impulseEvents[..ni - 1], eventIndexImpulse := cs.eventIndexImpulse[..ni - 1],
              impulseTime := cs.impulseTime[..ni - 1], stoImpulse := cs.stoImpulse[..ni - 1])
      else
        base.(eventIndexLift := cs.eventIndexLift[..nl - 1], liftTime := cs.liftTime[..nl - 1],
              stoLift := cs.stoLift[..nl - 1]);
      PoppedBackValid(cs, r);
      r
  }

  /** What removing the last event does to the deques. */
  ghost predicate PoppedBackShape(cs: ContactSequence, r: ContactSequence)
    requires |cs.isImpulseEvent| > 0
  {
    var n := |cs.isImpulseEvent|;
    r.maxNumEachEvents == cs.maxNumEachEvents && r.maxNumEvents == cs.maxNumEvents
    && |cs.contactStatuses| == n + 1 && r.contactStatuses == cs.contactStatuses[..n]
    && |cs.eventTime| == n && r.eventTime == cs.eventTime[..n - 1]
    && r.isImpulseEvent == cs.isImpulseEvent[..n - 1]
    && (cs.isImpulseEvent[n - 1] ==>
          var ni := |cs.eventIndexImpulse|;
          ni > 0 && |cs.impulseEvents| == ni && |cs.impulseTime| == ni && |cs.stoImpulse| == ni
          && r.impulseEvents == cs.impulseEvents[..ni - 1] && r.eventIndexImpulse == cs.eventIndexImpulse[..ni - 1]
          && r.impulseTime == cs.impulseTime[..ni - 1] && r.stoImpulse == cs.stoImpulse[..ni - 1]
          && r.eventIndexLift == cs.eventIndexLift && r.liftTime == cs.liftTime && r.stoLift == cs.stoLift)
    && (!cs.isImpulseEvent[n - 1] ==>
          var nl := |cs.eventIndexLift|;
          nl > 0 && |cs.liftTime| == nl && |cs.stoLift| == nl
          && r.eventIndexLift == cs.eventIndexLift[..nl - 1] && r.liftTime == cs.liftTime[..nl - 1]
          && r.stoLift == cs.stoLift[..nl - 1]
          && r.impulseEvents == cs.impulseEvents && r.eventIndexImpulse == cs.eventIndexImpulse
          && r.impulseTime == cs.impulseTime && r.stoImpulse == cs.stoImpulse)
  }

  lemma PoppedBackValid(cs: ContactSequence, r: ContactSequence)
    requires Valid(cs) && |cs.isImpulseEvent| > 0 && PoppedBackShape(cs, r)
    ensures Valid(r)
  {
    PoppedBackPositions(cs, r);
    PoppedBackTimes(cs, r);
    PoppedBackEvents(cs, r);
  }

  lemma PoppedBackPositions(cs: ContactSequence, r: ContactSequence)
    requires Shape(cs) && IndexesListPositions(cs) && |cs.isImpulseEvent| > 0 && PoppedBackShape(cs, r)
    ensures Shape(r) && IndexesListPositions(r)
  {
    PositionsDropLast(cs.eventIndexImpulse, cs.isImpulseEvent, true);
    PositionsDropLast(cs.eventIndexLift, cs.isImpulseEvent, false);
  }

  lemma PoppedBackTimes(cs: ContactSequence, r: ContactSequence)
    requires Shape(cs) && IndexesListPositions(cs) && TimesMatch(cs)
    requires |cs.isImpulseEvent| > 0 && PoppedBackShape(cs, r)
    requires Shape(r) && IndexesListPositions(r)
    ensures TimesMatch(r)
  {
    forall k | 0 <= k < |r.impulseTime|
      ensures r.eventTime[r.eventIndexImpulse[k]] == r.impulseTime[k]
    {
      assert r.eventIndexImpulse[k] == cs.eventIndexImpulse[k];
    }
    forall k | 0 <= k < |r.liftTime|
      ensures r.eventTime[r.eventIndexLift[k]] == r.liftTime[k]
    {
      assert r.eventIndexLift[k] == cs.eventIndexLift[k];
    }
  }

  lemma PoppedBackEvents(cs: ContactSequence, r: ContactSequence)
    requires Shape(cs) && IndexesListPositions(cs) && EventsMatch(cs)
    requires |cs.isImpulseEvent| > 0 && PoppedBackShape(cs, r)
    requires Shape(r) && IndexesListPositions(r)
    ensures EventsMatch(r)
  {
    forall i | 0 <= i < |r.isImpulseEvent|
      ensures PhaseTransition(r, i) == PhaseTransition(cs, i)
    {
    }
    forall k | 0 <= k < |r.impulseEvents|
      ensures r.impulseEvents[k] == PhaseTransition(r, r.eventIndexImpulse[k])
    {
      assert r.eventIndexImpulse[k] == cs.eventIndexImpulse[k];
    }
  }

  /** `pop_front`: removes the first event and the phase before it; the
      remaining events move one position forward in the flat list. With no
      event there is nothing to remove. */
  function PopFront(cs: ContactSequence): (r: ContactSequence)
    requires Valid(cs)
    ensures Valid(r)
    ensures NumDiscreteEvents(cs) == 0 ==> r == cs
    ensures NumDiscreteEvents(cs) > 0 ==>
      r.contactStatuses == cs.contactStatuses[1..] && r.eventTime == cs.eventTime[1..]
      && NumContactPhases(r) == NumContactPhases(cs) - 1
      && (cs.isImpulseEvent[0] ==>
            NumImpulseEvents(r) == NumImpulseEvents(cs) - 1 && NumLiftEvents(r) == NumLiftEvents(cs)
            && r.impulseTime == cs.impulseTime[1..] && r.liftTime == cs.liftTime
            && r.stoImpulse == cs.stoImpulse[1..] && r.stoLift == cs.stoLift)
      && (!cs.isImpulseEvent[0] ==>
            NumLiftEvents(r) == NumLiftEvents(cs) - 1 && NumImpulseEvents(r) == NumImpulseEvents(cs)
            && r.liftTime == cs.liftTime[1..] && r.impulseTime == cs.impulseTime
            && r.stoLift == cs.stoLift[1..] && r.stoImpulse == cs.stoImpulse)
    ensures MaxNumEachEvents(r) == MaxNumEachEvents(cs)
  {
    var n := |cs.isImpulseEvent|;
    if n == 0 then cs
    else
      var base := cs.(contactStatuses := cs.contactStatuses[1..], eventTime := cs.eventTime[1..],
                      isImpulseEvent := cs.isImpulseEvent[1..]);
      var r := if cs.isImpulseEvent[0] then
        base.(impulseEvents := cs.impulseEvents[1..], eventIndexImpulse := Decrement(cs.eventIndexImpulse[1..]),
              eventIndexLift := Decrement(cs.eventIndexLift),
              impulseTime := cs.impulseTime[1..], stoImpulse := cs.stoImpulse[1..])
      else
        base.(eventIndexImpulse := Decrement(cs.eventIndexImpulse),
              eventIndexLift := Decrement(cs.eventIndexLift[1..]),
              liftTime := cs.liftTime[1..], stoLift := cs.stoLift[1..]);
      PoppedFrontValid(cs, r);
      r
  }

  /** What removing the first event does to the deques. */
  ghost predicate PoppedFrontShape(cs: ContactSequence, r: ContactSequence)
    requires |cs.isImpulseEvent| > 0
  {
    r.maxNumEachEvents == cs.maxNumEachEvents && r.maxNumEvents == cs.maxNumEvents
    && |cs.contactStatuses| > 0 && r.contactStatuses == cs.contactStatuses[1..]
    && |cs.eventTime| > 0 && r.eventTime == cs.eventTime[1..]
    && r.isImpulseEvent == cs.isImpulseEvent[1..]
    && (cs.isImpulseEvent[0] ==>
          |cs.eventIndexImpulse| > 0 && |cs.impulseEvents| > 0 && |cs.impulseTime| > 0 && |cs.stoImpulse| > 0
          && r.impulseEvents == cs.impulseEvents[1..] && r.eventIndexImpulse == Decrement(cs.eventIndexImpulse[1..])
          && r.impulseTime == cs.impulseTime[1..] && r.stoImpulse == cs.stoImpulse[1..]
          && r.eventIndexLift == Decrement(cs.eventIndexLift) && r.liftTime == cs.liftTime && r.stoLift == cs.stoLift)
    && (!cs.isImpulseEvent[0] ==>
          |cs.eventIndexLift| > 0 && |cs.liftTime| > 0 && |cs.stoLift| > 0
          && r.eventIndexLift == Decrement(cs.eventIndexLift[1..]) && r.liftTime == cs.liftTime[1..]
          && r.stoLift == cs.stoLift[1..]
          && r.impulseEvents == cs.impulseEvents && r.eventIndexImpulse == Decrement(cs.eventIndexImpulse)
          && r.impulseTime == cs.impulseTime && r.stoImpulse == cs.stoImpulse)
  }

  lemma PoppedFrontValid(cs: ContactSequence, r: ContactSequence)
    requires Valid(cs) && |cs.isImpulseEvent| > 0 && PoppedFrontShape(cs, r)
    ensures Valid(r)
  {
    PoppedFrontPositions(cs, r);
    PoppedFrontTimes(cs, r);
    PoppedFrontEvents(cs, r);
  }

  lemma PoppedFrontPositions(cs: ContactSequence, r: ContactSequence)
    requires Shape(cs) && IndexesListPositions(cs) && |cs.isImpulseEvent| > 0 && PoppedFrontShape(cs, r)
    ensures Shape(r) && IndexesListPositions(r)
    ensures cs.isImpulseEvent[0] ==> cs.eventIndexImpulse[0] == 0
    ensures !cs.isImpulseEvent[0] ==> cs.eventIndexLift[0] == 0
  {
    PositionsDropFirst(cs.eventIndexImpulse, cs.isImpulseEvent, true);
    PositionsDropFirst(cs.eventIndexLift, cs.isImpulseEvent, false);
  }

  /** Dropping the first flat event: a per-kind list that drops `drop`
      entries from its front and shifts its positions down by one still
      finds each time at its position. */
  lemma ShiftedTimesMatch(et: seq<real>, idx: seq<int>, ts: seq<real>, drop: nat,
                          ret: seq<real>, ridx: seq<int>, rts: seq<real>)
    requires |et| > 0 && ret == et[1..]
    requires drop <= |idx| == |ts| && ridx == Decrement(idx[drop..]) && rts == ts[drop..]
    requires forall k :: 0 <= k < |idx| ==> 0 <= idx[k] < |et| && et[idx[k]] == ts[k]
    requires forall k :: 0 <= k < |ridx| ==> 0 <= ridx[k] < |ret|
    ensures forall k :: 0 <= k < |rts| ==> ret[ridx[k]] == rts[k]
  {
    forall k | 0 <= k < |rts|
      ensures ret[ridx[k]] == rts[k]
    {
      assert ridx[k] == idx[k + drop] - 1;
    }
  }

  /** Position `k` of a shortened per-kind list is position `k + 1` (the
      kind that lost its first entry) or `k` (the other kind) of the old
      list, shifted down by one. */
  lemma PoppedFrontTimes(cs: ContactSequence, r: ContactSequence)
    requires Shape(cs) && IndexesListPositions(cs) && TimesMatch(cs)
    requires |cs.isImpulseEvent| > 0 && PoppedFrontShape(cs, r)
    requires Shape(r) && IndexesListPositions(r)
    ensures TimesMatch(r)
  {
    var front := cs.isImpulseEvent[0];
    ShiftedTimesMatch(cs.eventTime, cs.eventIndexImpulse, cs.impulseTime, if front then 1 else 0,
                      r.eventTime, r.eventIndexImpulse, r.impulseTime);
    ShiftedTimesMatch(cs.eventTime, cs.eventIndexLift, cs.liftTime, if front then 0 else 1,
                      r.eventTime, r.eventIndexLift, r.liftTime);
  }

  lemma PoppedFrontEvents(cs: ContactSequence, r: ContactSequence)
    requires Shape(cs) && IndexesListPositions(cs) && EventsMatch(cs)
    requires |cs.isImpulseEvent| > 0 && PoppedFrontShape(cs, r)
    requires Shape(r) && IndexesListPositions(r)
    ensures EventsMatch(r)
  {
    PoppedFrontTransitions(cs, r);
    if cs.isImpulseEvent[0] {
      forall k | 0 <= k < |r.impulseEvents|
        ensures r.impulseEvents[k] == PhaseTransition(r, r.eventIndexImpulse[k])
      {
        assert r.eventIndexImpulse[k] == cs.eventIndexImpulse[k + 1] - 1;
        assert r.impulseEvents[k] == cs.impulseEvents[k + 1];
      }
    } else {
      forall k | 0 <= k < |r.impulseEvents|
        ensures r.impulseEvents[k] == PhaseTransition(r, r.eventIndexImpulse[k])
      {
        assert r.eventIndexImpulse[k] == cs.eventIndexImpulse[k] - 1;
      }
    }
  }

  /** After dropping the first phase, transition `i` is the old transition
      `i + 1`. */
  lemma PoppedFrontTransitions(cs: ContactSequence, r: ContactSequence)
    requires Shape(cs) && |cs.isImpulseEvent| > 0 && PoppedFrontShape(cs, r)
    ensures forall i :: 0 <= i < |r.isImpulseEvent| ==>
      i + 1 < |r.contactStatuses| && PhaseTransition(r, i) == PhaseTransition(cs, i + 1)
      && r.isImpulseEvent[i] == cs.isImpulseEvent[i + 1]
  {
  }

  // ---------------------------------------------------------------------
  // Event times

  /** `setImpulseTime`: moves one impulse; its flat event moves with it and
      nothing else changes. */
  function SetImpulseTime(cs: ContactSequence, k: int, t: real): (r: ContactSequence)
    requires Valid(cs) && 0 <= k < NumImpulseEvents(cs)
    ensures Valid(r)
    ensures r.eventIndexImpulse == cs.eventIndexImpulse && r.eventIndexLift == cs.eventIndexLift
    ensures ImpulseTime(r, k) == t
    ensures forall j :: 0 <= j < NumImpulseEvents(cs) && j != k ==> ImpulseTime(r, j) == ImpulseTime(cs, j)
    ensures r.liftTime == cs.liftTime && r.stoImpulse == cs.stoImpulse && r.stoLift == cs.stoLift
    ensures r.contactStatuses == cs.contactStatuses && r.isImpulseEvent == cs.isImpulseEvent
    ensures forall i :: 0 <= i < NumDiscreteEvents(cs) && i != cs.eventIndexImpulse[k] ==> r.eventTime[i] == cs.eventTime[i]
  {
    var r := cs.(impulseTime := cs.impulseTime[k := t], eventTime := cs.eventTime[cs.eventIndexImpulse[k] := t]);
    forall j | 0 <= j < |r.liftTime|
      ensures r.eventTime[r.eventIndexLift[j]] == r.liftTime[j]
    {
      assert !cs.isImpulseEvent[cs.eventIndexLift[j]];
    }
    r
  }

  /** `setLiftTime`: moves one lift; its flat event moves with it and
      nothing else changes. */
  function SetLiftTime(cs: ContactSequence, k: int, t: real): (r: ContactSequence)
    requires Valid(cs) && 0 <= k < NumLiftEvents(cs)
    ensures Valid(r)
    ensures r.eventIndexImpulse == cs.eventIndexImpulse && r.eventIndexLift == cs.eventIndexLift
    ensures LiftTime(r, k) == t
    ensures forall j :: 0 <= j < NumLiftEvents(cs) && j != k ==> LiftTime(r, j) == LiftTime(cs, j)
    ensures r.impulseTime == cs.impulseTime && r.stoImpulse == cs.stoImpulse && r.stoLift == cs.stoLift
    ensures r.contactStatuses == cs.contactStatuses && r.isImpulseEvent == cs.isImpulseEvent
    ensures forall i :: 0 <= i < NumDiscreteEvents(cs) && i != cs.eventIndexLift[k] ==> r.eventTime[i] == cs.eventTime[i]
  {
    var r := cs.(liftTime := cs.liftTime[k := t], eventTime := cs.eventTime[cs.eventIndexLift[k] := t]);
    forall j | 0 <= j < |r.impulseTime|
      ensures r.eventTime[r.eventIndexImpulse[j]] == r.impulseTime[j]
    {
      assert cs.isImpulseEvent[cs.eventIndexImpulse[j]];
    }
    r
  }

  ghost predicate StrictlyIncreasing(ts: seq<real>)
  {
    forall i, j :: 0 <= i < j < |ts| ==> ts[i] < ts[j]
  }

  /** Event times strictly increase along the flat event list. */
  ghost predicate EventTimesIncreasing(cs: ContactSequence)
  {
    StrictlyIncreasing(cs.eventTime)
  }

  lemma IncreasingAppend(ts: seq<real>, t: real)
    requires StrictlyIncreasing(ts) && (|ts| == 0 || ts[|ts| - 1] < t)
    ensures StrictlyIncreasing(ts + [t])
  {
    var r := ts + [t];
    forall i, j | 0 <= i < j < |r|
      ensures r[i] < r[j]
    {
      if j == |ts| && i < j - 1 {
        assert ts[i] < ts[j - 1];
      }
    }
  }

  /** Initialisation and a successful push keep the event times
      increasing. */
  lemma InitAndPushKeepTimesIncreasing(cs: ContactSequence, e: DiscreteEvent, t: real, sto: bool, status: ContactStatus)
    requires Valid(cs) && EventTimesIncreasing(cs)
    ensures EventTimesIncreasing(InitContactSequence(cs, status))
    ensures PushBack(cs, e, t, sto).Ok? ==> EventTimesIncreasing(PushBack(cs, e, t, sto).value)
  {
    if PushBack(cs, e, t, sto).Ok? {
      IncreasingAppend(cs.eventTime, t);
    }
  }

  lemma IncreasingSlices(ts: seq<real>)
    requires StrictlyIncreasing(ts) && |ts| > 0
    ensures StrictlyIncreasing(ts[..|ts| - 1]) && StrictlyIncreasing(ts[1..])
  {
    var back := ts[..|ts| - 1];
    forall i, j | 0 <= i < j < |back|
      ensures back[i] < back[j]
    {
      assert back[i] == ts[i] && back[j] == ts[j];
    }
    var front := ts[1..];
    forall i, j | 0 <= i < j < |front|
      ensures front[i] < front[j]
    {
      assert front[i] == ts[i + 1] && front[j] == ts[j + 1];
    }
  }

  /** `pop_back` leaves every remaining event's STO flag where it was. */
  lemma PopBackKeepsSTOFlags(cs: ContactSequence)
    requires Valid(cs) && NumDiscreteEvents(cs) > 0
    ensures var b := PopBack(cs);
      (forall k :: 0 <= k < NumImpulseEvents(b) ==> IsSTOEnabledImpulse(b, k) == IsSTOEnabledImpulse(cs, k))
      && (forall k :: 0 <= k < NumLiftEvents(b) ==> IsSTOEnabledLift(b, k) == IsSTOEnabledLift(cs, k))
  {
    var b := PopBack(cs);
    assert b.stoImpulse == cs.stoImpulse[..NumImpulseEvents(b)];
    assert b.stoLift == cs.stoLift[..NumLiftEvents(b)];
  }

  /** `pop_front` keeps every remaining event's STO flag; the kind that
      lost its first event has its indices shifted down by one. */
  lemma PopFrontKeepsSTOFlags(cs: ContactSequence)
    requires Valid(cs) && NumDiscreteEvents(cs) > 0
    ensures var f, di := PopFront(cs), if cs.isImpulseEvent[0] then 1 else 0;
      (forall k :: 0 <= k < NumImpulseEvents(f) ==> IsSTOEnabledImpulse(f, k) == IsSTOEnabledImpulse(cs, k + di))
      && (forall k :: 0 <= k < NumLiftEvents(f) ==> IsSTOEnabledLift(f, k) == IsSTOEnabledLift(cs, k + 1 - di))
  {
    var f := PopFront(cs);
    if cs.isImpulseEvent[0] {
      assert f.stoImpulse == cs.stoImpulse[1..] && f.stoLift == cs.stoLift;
    } else {
      assert f.stoLift == cs.stoLift[1..] && f.stoImpulse == cs.stoImpulse;
    }
  }

  /** Popping at either end keeps the event times increasing. */
  lemma PopsKeepTimesIncreasing(cs: ContactSequence)
    requires Valid(cs) && EventTimesIncreasing(cs)
    ensures EventTimesIncreasing(PopBack(cs))
    ensures EventTimesIncreasing(PopFront(cs))
  {
    if |cs.eventTime| > 0 {
      IncreasingSlices(cs.eventTime);
    }
  }

  /** Pushing an event and popping it from the back restores the sequence. */
  lemma PushBackThenPopBack(cs: ContactSequence, e: DiscreteEvent, t: real, sto: bool)
    requires Valid(cs) && PushBack(cs, e, t, sto).Ok?
    ensures PopBack(PushBack(cs, e, t, sto).value) == cs
  {
    var r := Appended(cs, e, t, sto);
    assert PushBack(cs, e, t, sto).value == r;
    var n := |cs.isImpulseEvent|;
    assert r.isImpulseEvent[..n] == cs.isImpulseEvent;
    var p := PopBack(r);
    assert p.contactStatuses == cs.contactStatuses;
    assert p.eventTime == cs.eventTime;
    if EventTypeOf(e) == ImpulseEvent {
      assert p.eventIndexImpulse == cs.eventIndexImpulse;
      assert p.impulseEvents == cs.impulseEvents;
      assert p.impulseTime == cs.impulseTime;
      assert p.stoImpulse == cs.stoImpulse;
    } else {
      assert p.eventIndexLift == cs.eventIndexLift;
      assert p.liftTime == cs.liftTime;
      assert p.stoLift == cs.stoLift;
    }
  }

  /** From all four contacts active, a lift at 0.5 then an impulse at 1.2
      give three phases, one event of each kind, the lift first. */
  lemma LiftThenImpulseScenario(cs: ContactSequence)
    requires Valid(cs) && cs.maxNumEachEvents >= 1
    ensures var allOn := [true, true, true, true];
            var oneOff := [true, false, true, true];
            var s0 := InitContactSequence(cs, allOn);
            var s1 := PushBack(s0, DiscreteEvent(allOn, oneOff), 0.5);
            s1.Ok?
            && var s2 := PushBack(s1.value, DiscreteEvent(oneOff, allOn), 1.2);
               s2.Ok?
               && NumContactPhases(s2.value) == 3
               && NumLiftEvents(s2.value) == 1 && NumImpulseEvents(s2.value) == 1
               && EventType(s2.value, 0) == LiftEvent && EventType(s2.value, 1) == ImpulseEvent
  {
    var allOn := [true, true, true, true];
    var oneOff := [true, false, true, true];
    var lift := DiscreteEvent(allOn, oneOff);
    var impulse := DiscreteEvent(oneOff, allOn);
    assert !ExistsImpulse(lift) by {
      forall c | 0 <= c < CommonSize(lift)
        ensures !(!lift.pre[c] && lift.post[c])
      {
      }
    }
    assert lift.pre[1] && !lift.post[1];
    assert !impulse.pre[1] && impulse.post[1];
  }
}
