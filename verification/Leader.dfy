/** The Leader window (crates/bitty-config/src/keymap.rs): arm, cancel and poll
    against the caller's clock, and what every run of them satisfies. */
module Leader {
  import opened Wrappers

  const MAX_U64: nat := 0xFFFF_FFFF_FFFF_FFFF

  type Millis = n: nat | n <= MAX_U64

  datatype State = Idle | Armed(deadline: Millis)

  datatype Poll = PollIdle | PollArmed | PollExpired

  /** `u64::saturating_add`. */
  function SaturatingAdd(a: Millis, b: Millis): Millis {
    if a + b > MAX_U64 then MAX_U64 else a + b
  }

  /** What the caller does to the state. */
  datatype Event = DoArm(now: Millis, timeout: Millis) | DoCancel | DoPoll(now: Millis)

  /** What it hears back. */
  datatype Reply = Silent | Consumed | NotConsumed | Polled(poll: Poll)

  function Next(s: State, e: Event): State {
    match e
    case DoArm(now, timeout) => Armed(SaturatingAdd(now, timeout))
    case DoCancel => Idle
    case DoPoll(now) => if s.Armed? && now >= s.deadline then Idle else s
  }

  function ReplyOf(s: State, e: Event): Reply {
    match e
    case DoArm(_, _) => Silent
    case DoCancel => if s.Armed? then Consumed else NotConsumed
    case DoPoll(now) =>
      Polled(if s.Idle? then PollIdle else if now >= s.deadline then PollExpired else PollArmed)
  }

  class LeaderState {
    var state: State

    constructor ()
      ensures state == Idle
    {
      state := Idle;
    }

    function IsArmed(): bool
      reads this
    {
      state.Armed?
    }

    method Arm(now: Millis, timeout: Millis)
      modifies this
      ensures state == Next(old(state), DoArm(now, timeout))
    {
      state := Armed(SaturatingAdd(now, timeout));
    }

    method Cancel() returns (consumed: bool)
      modifies this
      ensures state == Next(old(state), DoCancel)
      ensures ReplyOf(old(state), DoCancel) == if consumed then Consumed else NotConsumed
    {
      if IsArmed() {
        state := Idle;
        return true;
      } else {
        return false;
      }
    }

    method PollAt(now: Millis) returns (r: Poll)
      modifies this
      ensures state == Next(old(state), DoPoll(now))
      ensures ReplyOf(old(state), DoPoll(now)) == Polled(r)
    {
      match state
      case Idle => return PollIdle;
      case Armed(deadline) =>
        if now >= deadline {
          state := Idle;
          return PollExpired;
        } else {
          return PollArmed;
        }
    }

    /** Drives the state through a run, collecting the replies. */
    method Drive(events: seq<Event>) returns (replies: seq<Reply>)
      modifies this
      ensures state == Run(old(state), events)
      ensures replies == Replies(old(state), events)
    {
      replies := [];
      ghost var start := state;
      for i := 0 to |events|
        invariant state == Run(start, events[..i])
        invariant replies == Replies(start, events[..i])
      {
        TakeNext(events, i);
        RunSnoc(start, events[..i], events[i]);
        match events[i] {
          case DoArm(now, timeout) =>
            Arm(now, timeout);
            replies := replies + [Silent];
          case DoCancel =>
            var consumed := Cancel();
            replies := replies + [if consumed then Consumed else NotConsumed];
          case DoPoll(now) =>
            var r := PollAt(now);
            replies := replies + [Polled(r)];
        }
      }
      assert events[..|events|] == events;
    }
  }

  // ---------------------------------------------------------------- runs

  function Run(s: State, events: seq<Event>): State
    decreases |events|
  {
    if events == [] then s else Run(Next(s, events[0]), events[1..])
  }

  function Replies(s: State, events: seq<Event>): seq<Reply>
    decreases |events|
  {
    if events == [] then [] else [ReplyOf(s, events[0])] + Replies(Next(s, events[0]), events[1..])
  }

  lemma {:induction false} RunSnoc(s: State, events: seq<Event>, e: Event)
    ensures Run(s, events + [e]) == Next(Run(s, events), e)
    ensures Replies(s, events + [e]) == Replies(s, events) + [ReplyOf(Run(s, events), e)]
    decreases |events|
  {
    if events == [] {
    } else {
      assert (events + [e])[1..] == events[1..] + [e];
      RunSnoc(Next(s, events[0]), events[1..], e);
    }
  }

  lemma {:induction false} RunConcat(s: State, a: seq<Event>, b: seq<Event>)
    ensures Run(s, a + b) == Run(Run(s, a), b)
    decreases |a|
  {
    if a == [] {
      assert a + b == b;
    } else {
      assert (a + b)[1..] == a[1..] + b;
      RunConcat(Next(s, a[0]), a[1..], b);
    }
  }

  function Arms(events: seq<Event>): nat {
    if events == [] then 0 else (if events[0].DoArm? then 1 else 0) + Arms(events[1..])
  }

  /** Arms that found the window already armed. */
  function Rearms(s: State, events: seq<Event>): nat
    decreases |events|
  {
    if events == [] then 0
    else (if events[0].DoArm? && s.Armed? then 1 else 0) + Rearms(Next(s, events[0]), events[1..])
  }

  function Heard(replies: seq<Reply>, r: Reply): nat {
    if replies == [] then 0 else (if replies[0] == r then 1 else 0) + Heard(replies[1..], r)
  }

  function Pending(s: State): nat { if s.Armed? then 1 else 0 }

  /** Every arm is accounted for once: it expires, is cancelled, is replaced by a
      later arm, or is still pending. */
  lemma {:induction false} ArmsAreConserved(s: State, events: seq<Event>)
    ensures Pending(s) + Arms(events)
         == Heard(Replies(s, events), Polled(PollExpired)) + Heard(Replies(s, events), Consumed)
            + Rearms(s, events) + Pending(Run(s, events))
    decreases |events|
  {
    if events == [] {
    } else {
      var next := Next(s, events[0]);
      ArmsAreConserved(next, events[1..]);
      var rest := Replies(next, events[1..]);
      assert Replies(s, events)[1..] == rest;
    }
  }

  /** No arm and no cancel among these events, and every poll comes before the
      deadline. */
  predicate WaitsUntil(events: seq<Event>, deadline: Millis) {
    forall i :: 0 <= i < |events| ==> events[i].DoPoll? && events[i].now < deadline
  }

  lemma {:induction false} WaitingKeepsArmed(deadline: Millis, events: seq<Event>)
    requires WaitsUntil(events, deadline)
    ensures Run(Armed(deadline), events) == Armed(deadline)
    ensures forall r :: r in Replies(Armed(deadline), events) ==> r == Polled(PollArmed)
    decreases |events|
  {
    if events == [] {
    } else {
      WaitingKeepsArmed(deadline, events[1..]);
    }
  }

  /** An armed window expires at the first poll at or past the saturated deadline
      of the latest arm, whatever came before that arm. */
  lemma ExpiresAtFirstLatePoll(s: State, before: seq<Event>, now: Millis, timeout: Millis,
                               waits: seq<Event>, late: Millis)
    requires WaitsUntil(waits, SaturatingAdd(now, timeout)) && late >= SaturatingAdd(now, timeout)
    ensures var events := before + [DoArm(now, timeout)] + waits;
            && Run(s, events) == Armed(SaturatingAdd(now, timeout))
            && ReplyOf(Run(s, events), DoPoll(late)) == Polled(PollExpired)
            && Run(s, events + [DoPoll(late)]) == Idle
  {
    var armed := before + [DoArm(now, timeout)];
    RunSnoc(s, before, DoArm(now, timeout));
    RunConcat(s, armed, waits);
    WaitingKeepsArmed(SaturatingAdd(now, timeout), waits);
    RunSnoc(s, armed + waits, DoPoll(late));
  }

  /** The deadline is the exact sum while that fits, and the last instant of the
      clock otherwise; so it never lies before the arm. */
  lemma DeadlineNeverWraps(now: Millis, timeout: Millis)
    ensures now + timeout <= MAX_U64 ==> SaturatingAdd(now, timeout) == now + timeout
    ensures now + timeout > MAX_U64 ==> SaturatingAdd(now, timeout) == MAX_U64
    ensures now <= SaturatingAdd(now, timeout)
  {
  }

  /** Before its deadline an armed window answers every poll as armed and consumes
      the first cancel; the exact sum is the deadline while it fits. */
  lemma ArmedUntilDeadline(s: State, before: seq<Event>, now: Millis, timeout: Millis, waits: seq<Event>, early: Millis)
    requires WaitsUntil(waits, SaturatingAdd(now, timeout)) && early < now + timeout && early < MAX_U64
    ensures var at := Run(s, before + [DoArm(now, timeout)] + waits);
            && ReplyOf(at, DoPoll(early)) == Polled(PollArmed) && Next(at, DoPoll(early)) == at
            && ReplyOf(at, DoCancel) == Consumed && Next(at, DoCancel) == Idle
  {
    RunSnoc(s, before, DoArm(now, timeout));
    RunConcat(s, before + [DoArm(now, timeout)], waits);
    WaitingKeepsArmed(SaturatingAdd(now, timeout), waits);
  }

  /** Until the next arm an idle state stays idle: nothing expires, and no cancel
      is consumed. */
  lemma {:induction false} IdleUntilArmed(events: seq<Event>)
    requires forall i :: 0 <= i < |events| ==> !events[i].DoArm?
    ensures Run(Idle, events) == Idle
    ensures forall r :: r in Replies(Idle, events) ==> r == NotConsumed || r == Polled(PollIdle)
    decreases |events|
  {
    if events == [] {
    } else {
      IdleUntilArmed(events[1..]);
    }
  }
}
