/** One client shared by any number of goroutines: the closed flag and the kept
    service info, behind the mutex that every look at either takes. */
module Lifecycle {
  import opened Options

  datatype Info = Info(version: string, capabilities: seq<string>)

  /** How the service takes being asked for its info. */
  datatype Answer = Answered(info: Info) | Unimplemented | Failed

  const EMPTY := Info("", [])

  /** What a preflight makes of an answer: a service that predates the question
      can do nothing in particular. */
  function Kept(answer: Answer): Option<Info> {
    match answer
    case Answered(info) => Some(info)
    case Unimplemented => Some(EMPTY)
    case Failed => None
  }

  // ---------- one goroutine alone ----------

  /** The fields, and how often the transport was closed and was asked for info. */
  datatype Shared = Shared(closed: bool, info: Option<Info>, closes: nat, asks: nat)

  function Closed(s: Shared): Shared {
    if s.closed then s else s.(closed := true, closes := s.closes + 1)
  }

  function Preflighted(s: Shared, answer: Answer): (Shared, Option<Info>) {
    if s.info.Some? then (s, s.info)
    else if s.closed then (s, None)
    else
      var kept := Kept(answer);
      (s.(info := kept, asks := s.asks + 1), kept)
  }

  class Client {
    var closed: bool
    var info: Option<Info>
    var closes: nat
    var asks: nat

    function Fields(): Shared
      reads this
    {
      Shared(closed, info, closes, asks)
    }

    constructor ()
      ensures Fields() == Shared(false, None, 0, 0)
    {
      closed, info, closes, asks := false, None, 0, 0;
    }

    /** live */
    method Live() returns (ok: bool)
      ensures ok <==> !Fields().closed
    {
      if closed {
        return false;
      }
      return true;
    }

    method Close()
      modifies this
      ensures Fields() == Closed(old(Fields()))
    {
      if closed {
        return;
      }
      closed := true;
      closes := closes + 1;
    }

    /** ServerInfo: refused by a closed client, else the transport's answer. */
    method Ask(answer: Answer) returns (r: Option<Answer>)
      modifies this
      ensures old(closed) ==> r == None && Fields() == old(Fields())
      ensures !old(closed) ==> r == Some(answer) && Fields() == old(Fields()).(asks := old(asks) + 1)
    {
      var ok := Live();
      if !ok {
        return None;
      }
      asks := asks + 1;
      return Some(answer);
    }

    /** serverInfo */
    method Preflight(answer: Answer) returns (r: Option<Info>)
      modifies this
      ensures (Fields(), r) == Preflighted(old(Fields()), answer)
    {
      if info.Some? {
        return info;
      }
      var asked := Ask(answer);
      if asked.None? || asked.value.Failed? {
        return None;
      }
      var got := if asked.value.Unimplemented? then EMPTY else asked.value.info;
      info := Some(got);
      return info;
    }
  }

  // ---------- all interleavings ----------

  /** Whose liveness check it is: the operation's own, or that of the preflight's
      question to the service. */
  datatype Check = OfOperation | OfPreflight

  /** Where a goroutine stands.  At… waits for the mutex, In… holds it. */
  datatype Place =
    | Idle
    | AtLive(check: Check) | InLive(check: Check)
    | Running
    | AtCache | InCache
    | Asking
    | AtKeep(got: Info) | InKeep(got: Info)
    | AtClose | InClose | Closing | Releasing

  /** `late` is whether some Close had returned when the operation began, `knew`
      whether an answer was kept when the preflight did. */
  datatype Thread = Thread(place: Place, late: bool, knew: bool)

  datatype Call = Call(late: bool)

  datatype Ask = Ask(knew: bool)

  datatype State = State(threads: seq<Thread>, holder: Option<nat>, closed: bool, info: Option<Info>,
                         closes: nat, closeReturned: bool, calls: seq<Call>, asks: seq<Ask>, seen: seq<Info>)

  function Start(n: nat): State {
    State(seq(n, i => Thread(Idle, false, false)), None, false, None, 0, false, [], [], [])
  }

  datatype Step =
    | BeginOperation(t: nat)
    | BeginClose(t: nat)
    | Acquire(t: nat)
    | Section(t: nat)
    | CallTransport(t: nat)
    | BeginPreflight(t: nat)
    | AskService(t: nat, answer: Answer)
    | Return(t: nat)

  predicate Holds(p: Place) {
    p.InLive? || p.InCache? || p.InKeep? || p.InClose? || p.Closing? || p.Releasing?
  }

  predicate Waits(p: Place) {
    p.AtLive? || p.AtCache? || p.AtKeep? || p.AtClose?
  }

  function Inside(p: Place): Place
    requires Waits(p)
  {
    match p
    case AtLive(check) => InLive(check)
    case AtCache => InCache
    case AtKeep(got) => InKeep(got)
    case AtClose => InClose
  }

  predicate Enabled(s: State, step: Step) {
    step.t < |s.threads| &&
    var p := s.threads[step.t].place;
    match step
    case BeginOperation(_) => p.Idle?
    case BeginClose(_) => p.Idle?
    case Acquire(_) => Waits(p) && s.holder.None?
    case Section(_) => Holds(p)
    case CallTransport(_) => p.Running?
    case BeginPreflight(_) => p.Running?
    case AskService(_, _) => p.Asking?
    case Return(_) => p.Running?
  }

  function Moved(s: State, t: nat, p: Place): State
    requires t < |s.threads|
  {
    s.(threads := s.threads[t := s.threads[t].(place := p)])
  }

  /** A critical section's next step; all but a first Close's are their only one,
      and let the mutex go. */
  function InSection(s: State, t: nat): State
    requires t < |s.threads| && Holds(s.threads[t].place)
  {
    var freed := s.(holder := None);
    match s.threads[t].place
    case InLive(check) =>
      if s.closed then Moved(freed, t, Idle)
      else Moved(freed, t, if check.OfOperation? then Running else Asking)
    case InCache =>
      if s.info.Some? then Moved(freed, t, Running).(seen := s.seen + [s.info.value])
      else Moved(freed, t, AtLive(OfPreflight))
    case InKeep(got) => Moved(freed, t, Running).(info := Some(got), seen := s.seen + [got])
    case InClose =>
      if s.closed then Moved(freed, t, Idle).(closeReturned := true)
      else Moved(s, t, Closing).(closed := true)
    case Closing => Moved(s, t, Releasing).(closes := s.closes + 1)
    case Releasing => Moved(freed, t, Idle).(closeReturned := true)
  }

  function After(s: State, step: Step): State
    requires Enabled(s, step)
  {
    var t := step.t;
    var thread := s.threads[t];
    match step
    case BeginOperation(_) =>
      s.(threads := s.threads[t := Thread(AtLive(OfOperation), s.closeReturned, false)])
    case BeginClose(_) => Moved(s, t, AtClose)
    case Acquire(_) => Moved(s, t, Inside(thread.place)).(holder := Some(t))
    case Section(_) => InSection(s, t)
    case CallTransport(_) => s.(calls := s.calls + [Call(thread.late)])
    case BeginPreflight(_) =>
      s.(threads := s.threads[t := thread.(place := AtCache, knew := s.info.Some?)])
    case AskService(_, answer) =>
      var kept := Kept(answer);
      Moved(s, t, if kept.Some? then AtKeep(kept.value) else Idle)
        .(calls := s.calls + [Call(thread.late)], asks := s.asks + [Ask(thread.knew)])
    case Return(_) => Moved(s, t, Idle)
  }

  /** The steps can be taken one after another from s. */
  predicate CanRun(s: State, steps: seq<Step>)
    decreases |steps|
  {
    steps == [] || (Enabled(s, steps[0]) && CanRun(After(s, steps[0]), steps[1..]))
  }

  function Run(s: State, steps: seq<Step>): State
    requires CanRun(s, steps)
    decreases |steps|
  {
    if steps == [] then s else Run(After(s, steps[0]), steps[1..])
  }

  // ---------- what every step keeps ----------

  /** One holder, and it is the goroutine inside. */
  predicate Exclusive(s: State) {
    (s.holder.Some? ==> s.holder.value < |s.threads|) &&
    forall t | 0 <= t < |s.threads| :: Holds(s.threads[t].place) <==> s.holder == Some(t)
  }

  /** Where the goroutine holding the mutex stands. */
  function HolderPlace(s: State): Place {
    if s.holder.Some? && s.holder.value < |s.threads| then s.threads[s.holder.value].place else Idle
  }

  /** The flag goes up before the transport is closed, in one section, so the
      transport is closed once, by whoever raised it. */
  predicate ClosesOnce(s: State) {
    && (!s.closed ==> s.closes == 0 && HolderPlace(s) != Closing && HolderPlace(s) != Releasing)
    && (s.closed ==> s.closes == if HolderPlace(s) == Closing then 0 else 1)
    && (s.closeReturned ==> s.closed && s.closes == 1)
  }

  /** On the way to asking the service, the kept info having been missing. */
  predicate BoundToAsk(p: Place) {
    p.Asking? || ((p.AtLive? || p.InLive?) && p.check.OfPreflight?)
  }

  /** Past the operation's own liveness check. */
  predicate Admitted(p: Place) {
    BoundToAsk(p) || p.Running? || p.AtCache? || p.InCache? || p.AtKeep? || p.InKeep?
  }

  /** A late operation gets no further than its liveness check, and no preflight
      that knew the answer asks. */
  predicate KeptBack(s: State, thread: Thread) {
    && (thread.late ==> s.closeReturned && !Admitted(thread.place))
    && (thread.knew ==> s.info.Some? && !BoundToAsk(thread.place))
  }

  predicate Guarded(s: State) {
    && (forall t | 0 <= t < |s.threads| :: KeptBack(s, s.threads[t]))
    && (forall c | c in s.calls :: !c.late)
    && (forall a | a in s.asks :: !a.knew)
  }

  predicate Carries(p: Place, info: Info) {
    p.AtKeep? || p.InKeep? ==> p.got == info
  }

  /** The one info the service ever gives is the one anybody holds. */
  predicate Agreed(s: State, info: Info) {
    && (s.info.Some? ==> s.info.value == info)
    && (forall t | 0 <= t < |s.threads| :: Carries(s.threads[t].place, info))
    && (forall i | i in s.seen :: i == info)
  }

  lemma {:induction false} StepKeepsExclusive(s: State, step: Step)
    requires Exclusive(s) && Enabled(s, step)
    ensures Exclusive(After(s, step))
  {
    var next, t := After(s, step), step.t;
    var p, q := s.threads[t].place, next.threads[t].place;
    assert next.threads == s.threads[t := next.threads[t]];
    assert Holds(p) <==> s.holder == Some(t);
    assert Holds(q) ==> next.holder == Some(t);
    assert !Holds(q) ==> next.holder == if Holds(p) then None else s.holder;
    assert Holds(q) && !Holds(p) ==> s.holder == None;
  }

  lemma {:induction false} StepClosesOnce(s: State, step: Step)
    requires Exclusive(s) && ClosesOnce(s) && Enabled(s, step)
    ensures ClosesOnce(After(s, step))
  {
    var p := s.threads[step.t].place;
    assert Holds(p) ==> s.holder == Some(step.t);
  }

  /** A step moves one goroutine. */
  lemma {:induction false} OthersStay(s: State, step: Step)
    requires Enabled(s, step)
    ensures |After(s, step).threads| == |s.threads|
    ensures forall u | 0 <= u < |s.threads| && u != step.t :: After(s, step).threads[u] == s.threads[u]
  {
  }

  lemma {:induction false} SectionKeepsBack(s: State, t: nat)
    requires t < |s.threads| && Holds(s.threads[t].place)
    requires KeptBack(s, s.threads[t]) && (s.closeReturned ==> s.closed)
    ensures |InSection(s, t).threads| == |s.threads| && KeptBack(InSection(s, t), InSection(s, t).threads[t])
  {
  }

  lemma {:induction false} RestKeepsBack(s: State, step: Step)
    requires Enabled(s, step) && !step.Section? && KeptBack(s, s.threads[step.t])
    ensures |After(s, step).threads| == |s.threads| && KeptBack(After(s, step), After(s, step).threads[step.t])
  {
  }

  lemma {:induction false} MoverKeptBack(s: State, step: Step)
    requires Enabled(s, step) && KeptBack(s, s.threads[step.t]) && (s.closeReturned ==> s.closed)
    ensures |After(s, step).threads| == |s.threads| && KeptBack(After(s, step), After(s, step).threads[step.t])
  {
    if step.Section? {
      SectionKeepsBack(s, step.t);
    } else {
      RestKeepsBack(s, step);
    }
  }

  lemma {:induction false} OnlyGrows(s: State, step: Step)
    requires Enabled(s, step)
    ensures s.closeReturned ==> After(s, step).closeReturned
    ensures s.info.Some? ==> After(s, step).info.Some?
  {
  }

  lemma {:induction false} CallsComeFromTheGuarded(s: State, step: Step)
    requires Enabled(s, step) && KeptBack(s, s.threads[step.t])
    ensures After(s, step).calls == s.calls || After(s, step).calls == s.calls + [Call(false)]
    ensures After(s, step).asks == s.asks || After(s, step).asks == s.asks + [Ask(false)]
  {
  }

  lemma {:induction false} GuardedAfter(s: State, next: State, t: nat)
    requires Guarded(s) && t < |s.threads| == |next.threads| && KeptBack(next, next.threads[t])
    requires forall u | 0 <= u < |s.threads| && u != t :: next.threads[u] == s.threads[u]
    requires (s.closeReturned ==> next.closeReturned) && (s.info.Some? ==> next.info.Some?)
    requires next.calls == s.calls || next.calls == s.calls + [Call(false)]
    requires next.asks == s.asks || next.asks == s.asks + [Ask(false)]
    ensures Guarded(next)
  {
    forall u | 0 <= u < |next.threads| ensures KeptBack(next, next.threads[u]) {
      assert KeptBack(s, s.threads[u]);
    }
  }

  lemma {:induction false} StepStaysGuarded(s: State, step: Step)
    requires ClosesOnce(s) && Guarded(s) && Enabled(s, step)
    ensures Guarded(After(s, step))
  {
    assert KeptBack(s, s.threads[step.t]);
    OthersStay(s, step);
    MoverKeptBack(s, step);
    OnlyGrows(s, step);
    CallsComeFromTheGuarded(s, step);
    GuardedAfter(s, After(s, step), step.t);
  }

  predicate Consistent(step: Step, info: Info) {
    step.AskService? ==> Kept(step.answer) == None || Kept(step.answer) == Some(info)
  }

  predicate InfoIs(kept: Option<Info>, info: Info) {
    kept.Some? ==> kept.value == info
  }

  /** Infos handed out before a step and what it hands out. */
  predicate HandsOut(before: seq<Info>, after: seq<Info>, info: Info) {
    after == before || after == before + [info]
  }

  lemma {:induction false} SectionAgrees(s: State, t: nat, info: Info)
    requires t < |s.threads| && Holds(s.threads[t].place) && Carries(s.threads[t].place, info) && InfoIs(s.info, info)
    ensures var next := InSection(s, t);
            |next.threads| == |s.threads| && Carries(next.threads[t].place, info) && InfoIs(next.info, info) &&
            HandsOut(s.seen, next.seen, info)
  {
  }

  lemma {:induction false} AskAgrees(s: State, t: nat, answer: Answer, info: Info)
    requires Enabled(s, AskService(t, answer)) && (Kept(answer) == None || Kept(answer) == Some(info))
    ensures var next := After(s, AskService(t, answer));
            |next.threads| == |s.threads| && Carries(next.threads[t].place, info) && next.info == s.info &&
            next.seen == s.seen
  {
  }

  lemma {:induction false} RestAgrees(s: State, step: Step, info: Info)
    requires Enabled(s, step) && !step.Section? && !step.AskService? && Carries(s.threads[step.t].place, info)
    ensures var next := After(s, step);
            |next.threads| == |s.threads| && Carries(next.threads[step.t].place, info) && next.info == s.info &&
            next.seen == s.seen
  {
  }

  lemma {:induction false} MoverAgrees(s: State, step: Step, info: Info)
    requires Enabled(s, step) && Consistent(step, info)
    requires Carries(s.threads[step.t].place, info) && InfoIs(s.info, info)
    ensures var next := After(s, step);
            |next.threads| == |s.threads| && Carries(next.threads[step.t].place, info) && InfoIs(next.info, info) &&
            HandsOut(s.seen, next.seen, info)
  {
    if step.Section? {
      SectionAgrees(s, step.t, info);
    } else if step.AskService? {
      AskAgrees(s, step.t, step.answer, info);
    } else {
      RestAgrees(s, step, info);
    }
  }

  lemma {:induction false} AgreedAfter(s: State, next: State, t: nat, info: Info)
    requires Agreed(s, info) && t < |s.threads| == |next.threads|
    requires forall u | 0 <= u < |s.threads| && u != t :: next.threads[u] == s.threads[u]
    requires Carries(next.threads[t].place, info) && InfoIs(next.info, info) && HandsOut(s.seen, next.seen, info)
    ensures Agreed(next, info)
  {
    forall u | 0 <= u < |next.threads| ensures Carries(next.threads[u].place, info) {
      assert Carries(s.threads[u].place, info);
    }
  }

  lemma {:induction false} StepStaysAgreed(s: State, step: Step, info: Info)
    requires Agreed(s, info) && Enabled(s, step) && Consistent(step, info)
    ensures Agreed(After(s, step), info)
  {
    assert Carries(s.threads[step.t].place, info);
    OthersStay(s, step);
    MoverAgrees(s, step, info);
    AgreedAfter(s, After(s, step), step.t, info);
  }

  predicate Inv(s: State) {
    Exclusive(s) && ClosesOnce(s) && Guarded(s)
  }

  lemma {:induction false} RunsKeepInv(s: State, steps: seq<Step>)
    requires Inv(s) && CanRun(s, steps)
    ensures Inv(Run(s, steps))
    decreases |steps|
  {
    if steps != [] {
      StepKeepsExclusive(s, steps[0]);
      StepClosesOnce(s, steps[0]);
      StepStaysGuarded(s, steps[0]);
      RunsKeepInv(After(s, steps[0]), steps[1..]);
    }
  }

  lemma {:induction false} RunsStayAgreed(s: State, steps: seq<Step>, info: Info)
    requires Agreed(s, info) && CanRun(s, steps) && forall step | step in steps :: Consistent(step, info)
    ensures Agreed(Run(s, steps), info)
    decreases |steps|
  {
    if steps != [] {
      StepStaysAgreed(s, steps[0], info);
      RunsStayAgreed(After(s, steps[0]), steps[1..], info);
    }
  }

  // ---------- over every run ----------

  /** Any number of closers close the transport at most once, and once a Close has
      returned it is closed. */
  lemma {:induction false} TransportClosesOnce(n: nat, steps: seq<Step>)
    requires CanRun(Start(n), steps)
    ensures var s := Run(Start(n), steps);
            s.closes <= 1 && (s.closeReturned ==> s.closes == 1)
  {
    RunsKeepInv(Start(n), steps);
  }

  /** No operation that begins after a Close has returned reaches the transport,
      whether to call it or to ask it for info. */
  lemma {:induction false} NoLateCall(n: nat, steps: seq<Step>)
    requires CanRun(Start(n), steps)
    ensures forall c | c in Run(Start(n), steps).calls :: !c.late
  {
    RunsKeepInv(Start(n), steps);
  }

  /** When the service has one info to give, whether or not it fails now and then,
      every preflight that gets one gets that one, whoever kept it. */
  lemma {:induction false} PreflightsAgree(n: nat, steps: seq<Step>, info: Info)
    requires CanRun(Start(n), steps) && forall step | step in steps :: Consistent(step, info)
    ensures forall i | i in Run(Start(n), steps).seen :: i == info
  {
    RunsStayAgreed(Start(n), steps, info);
  }

  /** Once an answer is kept, no preflight that begins asks again. */
  lemma {:induction false} KeptAnswersAreNotAskedFor(n: nat, steps: seq<Step>)
    requires CanRun(Start(n), steps)
    ensures forall a | a in Run(Start(n), steps).asks :: !a.knew
  {
    RunsKeepInv(Start(n), steps);
  }

  /** The mutex never wedges: whoever holds it can go on, and when nobody does any
      goroutine in the middle of something can. */
  lemma {:induction false} SomeoneCanGoOn(n: nat, steps: seq<Step>, t: nat) returns (step: Step)
    requires CanRun(Start(n), steps)
    requires var s := Run(Start(n), steps); t < |s.threads| && !s.threads[t].place.Idle?
    ensures Enabled(Run(Start(n), steps), step)
    ensures step.t == t || Run(Start(n), steps).holder == Some(step.t)
  {
    RunsKeepInv(Start(n), steps);
    var s := Run(Start(n), steps);
    var p := s.threads[t].place;
    if Holds(p) {
      step := Section(t);
    } else if Waits(p) {
      if s.holder.None? {
        step := Acquire(t);
      } else {
        assert Holds(s.threads[s.holder.value].place);
        step := Section(s.holder.value);
      }
    } else if p.Running? {
      step := Return(t);
    } else {
      step := AskService(t, Failed);
    }
  }

  // ---------- undisturbed goroutines ----------

  lemma {:induction false} RunThen(s: State, step: Step, rest: seq<Step>, next: State)
    requires Enabled(s, step) && next == After(s, step) && CanRun(next, rest)
    ensures CanRun(s, [step] + rest) && Run(s, [step] + rest) == Run(next, rest)
  {
    assert ([step] + rest)[1..] == rest;
  }

  lemma {:induction false} RunAppend(s: State, first: seq<Step>, rest: seq<Step>)
    requires CanRun(s, first) && CanRun(Run(s, first), rest)
    ensures CanRun(s, first + rest) && Run(s, first + rest) == Run(Run(s, first), rest)
    decreases |first|
  {
    if first == [] {
      assert first + rest == rest;
    } else {
      RunAppend(After(s, first[0]), first[1..], rest);
      RunAppendOne(s, first[0], first[1..], rest);
      assert first == [first[0]] + first[1..];
    }
  }

  lemma {:induction false} RunAppendOne(s: State, step: Step, more: seq<Step>, rest: seq<Step>)
    requires Enabled(s, step) && CanRun(After(s, step), more) && CanRun(Run(After(s, step), more), rest)
    requires CanRun(After(s, step), more + rest)
    requires Run(After(s, step), more + rest) == Run(Run(After(s, step), more), rest)
    ensures CanRun(s, [step] + more) && CanRun(Run(s, [step] + more), rest)
    ensures CanRun(s, [step] + more + rest)
    ensures Run(s, [step] + more + rest) == Run(Run(s, [step] + more), rest)
  {
    var next := After(s, step);
    RunThen(s, step, more, next);
    RunThen(s, step, more + rest, next);
    assert [step] + more + rest == [step] + (more + rest);
  }

  lemma {:induction false} RunOne(s: State, step: Step)
    requires Enabled(s, step)
    ensures CanRun(s, [step]) && Run(s, [step]) == After(s, step)
  {
    assert [step][1..] == [];
    assert CanRun(After(s, step), []);
    assert Run(After(s, step), []) == After(s, step);
  }

  function TakeSection(t: nat): seq<Step> {
    [Acquire(t)] + [Section(t)]
  }

  lemma {:induction false} RunSection(s: State, t: nat)
    requires t < |s.threads| && Waits(s.threads[t].place) && s.holder.None?
    ensures CanRun(s, TakeSection(t))
    ensures Run(s, TakeSection(t)) == InSection(After(s, Acquire(t)), t)
  {
    var inside := After(s, Acquire(t));
    RunOne(s, Acquire(t));
    RunOne(inside, Section(t));
    RunAppend(s, [Acquire(t)], [Section(t)]);
  }

  /** What one preflight does when nobody comes between its steps. */
  function PreflightSteps(s: State, t: nat, answer: Answer): seq<Step> {
    [BeginPreflight(t)] + TakeSection(t) +
    if s.info.Some? then []
    else
      TakeSection(t) +
      if s.closed then []
      else [AskService(t, answer)] + if Kept(answer).None? then [] else TakeSection(t)
  }

  function Outcome(s: State): Shared {
    Shared(s.closed, s.info, s.closes, |s.asks|)
  }

  /** Asking: the part of a preflight after its liveness check. */
  lemma {:induction false} AskAlone(s: State, t: nat, answer: Answer)
    requires t < |s.threads| && s.threads[t].place == Asking && s.holder.None? && s.info.None? && !s.closed
    ensures var steps := [AskService(t, answer)] + if Kept(answer).None? then [] else TakeSection(t);
            var shared := Preflighted(Outcome(s), answer);
            && CanRun(s, steps)
            && Outcome(Run(s, steps)) == shared.0
            && Run(s, steps).seen == s.seen + (if shared.1.Some? then [shared.1.value] else [])
  {
    var asked := After(s, AskService(t, answer));
    RunOne(s, AskService(t, answer));
    if Kept(answer).None? {
      assert [AskService(t, answer)] + [] == [AskService(t, answer)];
    } else {
      RunSection(asked, t);
      RunAppend(s, [AskService(t, answer)], TakeSection(t));
    }
  }

  /** The steps of a preflight, run together, are the sequential preflight. */
  lemma {:induction false} PreflightAlone(s: State, t: nat, answer: Answer)
    requires t < |s.threads| && s.threads[t].place == Running && s.holder.None?
    ensures var steps := PreflightSteps(s, t, answer);
            var shared := Preflighted(Outcome(s), answer);
            && CanRun(s, steps)
            && Outcome(Run(s, steps)) == shared.0
            && Run(s, steps).seen == s.seen + (if shared.1.Some? then [shared.1.value] else [])
  {
    var begun := After(s, BeginPreflight(t));
    var looked := InSection(After(begun, Acquire(t)), t);
    var opening := [BeginPreflight(t)] + TakeSection(t);
    RunOne(s, BeginPreflight(t));
    RunSection(begun, t);
    RunAppend(s, [BeginPreflight(t)], TakeSection(t));
    if s.info.Some? {
      assert opening + [] == opening;
    } else {
      var checked := InSection(After(looked, Acquire(t)), t);
      RunSection(looked, t);
      if s.closed {
        assert TakeSection(t) + [] == TakeSection(t);
        RunAppend(s, opening, TakeSection(t));
      } else {
        var asking := [AskService(t, answer)] + if Kept(answer).None? then [] else TakeSection(t);
        AskAlone(checked, t, answer);
        RunAppend(looked, TakeSection(t), asking);
        RunAppend(s, opening, TakeSection(t) + asking);
      }
    }
  }

  function CloseSteps(s: State, t: nat): seq<Step> {
    [BeginClose(t)] + (TakeSection(t) + if s.closed then [] else [Section(t)] + [Section(t)])
  }

  /** So is a Close, in however many steps. */
  lemma {:induction false} CloseAlone(s: State, t: nat)
    requires t < |s.threads| && s.threads[t].place == Idle && s.holder.None?
    ensures CanRun(s, CloseSteps(s, t))
    ensures Outcome(Run(s, CloseSteps(s, t))) == Closed(Outcome(s)) && Run(s, CloseSteps(s, t)).closeReturned
  {
    var begun := After(s, BeginClose(t));
    var inside := InSection(After(begun, Acquire(t)), t);
    RunOne(s, BeginClose(t));
    RunSection(begun, t);
    if s.closed {
      assert TakeSection(t) + [] == TakeSection(t);
      RunAppend(s, [BeginClose(t)], TakeSection(t));
    } else {
      var closed := InSection(inside, t);
      RunOne(inside, Section(t));
      RunOne(closed, Section(t));
      RunAppend(inside, [Section(t)], [Section(t)]);
      RunAppend(begun, TakeSection(t), [Section(t)] + [Section(t)]);
      RunAppend(s, [BeginClose(t)], TakeSection(t) + ([Section(t)] + [Section(t)]));
    }
  }

  /** The steps that bring goroutine t, on an open client that keeps no answer yet,
      from idle to asking the service. */
  function AskingSteps(t: nat): seq<Step> {
    [BeginOperation(t)] + (TakeSection(t) + ([BeginPreflight(t)] + (TakeSection(t) + TakeSection(t))))
  }

  lemma {:induction false} ReachesAsking(s: State, t: nat)
    requires t < |s.threads| && s.threads[t].place == Idle
    requires s.holder.None? && s.info.None? && !s.closed && !s.closeReturned
    ensures CanRun(s, AskingSteps(t))
    ensures Run(s, AskingSteps(t)) == s.(threads := s.threads[t := Thread(Asking, false, false)])
  {
    var begun := After(s, BeginOperation(t));
    var running := InSection(After(begun, Acquire(t)), t);
    var looking := After(running, BeginPreflight(t));
    var looked := InSection(After(looking, Acquire(t)), t);
    RunOne(s, BeginOperation(t));
    RunSection(begun, t);
    RunOne(running, BeginPreflight(t));
    RunSection(looking, t);
    RunSection(looked, t);
    RunAppend(looking, TakeSection(t), TakeSection(t));
    RunAppend(running, [BeginPreflight(t)], TakeSection(t) + TakeSection(t));
    RunAppend(begun, TakeSection(t), [BeginPreflight(t)] + (TakeSection(t) + TakeSection(t)));
    RunAppend(s, [BeginOperation(t)],
              TakeSection(t) + ([BeginPreflight(t)] + (TakeSection(t) + TakeSection(t))));
  }

  // ---------- when the service is asked once ----------

  /** Every answer the service gives in the run is one of these. */
  ghost predicate AnswersIn(steps: seq<Step>, may: iset<Answer>) {
    forall step | step in steps && step.AskService? :: step.answer in may
  }

  ghost predicate AskedAtMostOnce(n: nat, may: iset<Answer>) {
    forall steps | CanRun(Start(n), steps) && AnswersIn(steps, may) :: |Run(Start(n), steps).asks| <= 1
  }

  /** One goroutine, of which nothing has failed: it has asked only if it keeps the
      answer or is about to. */
  predicate Alone(s: State) {
    |s.threads| == 1 && |s.asks| <= 1 &&
    var p := s.threads[0].place;
    (s.info.None? && !p.AtKeep? && !p.InKeep? ==> s.asks == []) &&
    (BoundToAsk(p) ==> s.info.None?)
  }

  lemma {:induction false} StepStaysAlone(s: State, step: Step)
    requires Alone(s) && Enabled(s, step) && (step.AskService? ==> Kept(step.answer).Some?)
    ensures Alone(After(s, step))
  {
  }

  lemma {:induction false} RunsStayAlone(s: State, steps: seq<Step>)
    requires Alone(s) && CanRun(s, steps)
    requires forall step | step in steps && step.AskService? :: Kept(step.answer).Some?
    ensures Alone(Run(s, steps))
    decreases |steps|
  {
    if steps != [] {
      StepStaysAlone(s, steps[0]);
      RunsStayAlone(After(s, steps[0]), steps[1..]);
    }
  }

  lemma {:induction false} UnaskedStaysUnasked(s: State, step: Step)
    requires Enabled(s, step) && !step.AskService?
    ensures After(s, step).asks == s.asks
  {
  }

  lemma {:induction false} NobodyAsks(s: State, steps: seq<Step>)
    requires CanRun(s, steps) && forall step | step in steps :: !step.AskService?
    ensures Run(s, steps).asks == s.asks
    decreases |steps|
  {
    if steps != [] {
      UnaskedStaysUnasked(s, steps[0]);
      NobodyAsks(After(s, steps[0]), steps[1..]);
    }
  }

  lemma {:induction false} AskingDoesNotAsk(t: nat, step: Step)
    requires step in AskingSteps(t)
    ensures !step.AskService?
  {
  }

  lemma {:induction false} TwoAsk(s: State, answer: Answer)
    requires |s.threads| >= 2 && s.threads[0].place == Asking && s.threads[1].place == Asking
    ensures var steps := [AskService(0, answer)] + [AskService(1, answer)];
            CanRun(s, steps) && |Run(s, steps).asks| == |s.asks| + 2
  {
    var once := After(s, AskService(0, answer));
    RunOne(s, AskService(0, answer));
    assert once.threads[1] == s.threads[1];
    RunOne(once, AskService(1, answer));
    RunAppend(s, [AskService(0, answer)], [AskService(1, answer)]);
  }

  function AskTwice(answer: Answer): seq<Step> {
    AskingSteps(0) + AskingSteps(1) + ([AskService(0, answer)] + [AskService(1, answer)])
  }

  lemma {:induction false} BothReachAsking(n: nat)
    requires n >= 2
    ensures CanRun(Start(n), AskingSteps(0) + AskingSteps(1))
    ensures var s := Run(Start(n), AskingSteps(0) + AskingSteps(1));
            |s.threads| == n && s.threads[0].place == Asking && s.threads[1].place == Asking && s.asks == []
  {
    var start := Start(n);
    var one := start.(threads := start.threads[0 := Thread(Asking, false, false)]);
    ReachesAsking(start, 0);
    ReachesAsking(one, 1);
    RunAppend(start, AskingSteps(0), AskingSteps(1));
  }

  /** Two goroutines that both look before either keeps an answer both ask, however
      the service answers. */
  lemma {:induction false} TheServiceCanBeAskedTwice(n: nat, answer: Answer)
    requires n >= 2
    ensures CanRun(Start(n), AskTwice(answer)) && |Run(Start(n), AskTwice(answer)).asks| == 2
    ensures forall step | step in AskTwice(answer) && step.AskService? :: step.answer == answer
  {
    BothReachAsking(n);
    var both := Run(Start(n), AskingSteps(0) + AskingSteps(1));
    var asking := [AskService(0, answer)] + [AskService(1, answer)];
    TwoAsk(both, answer);
    RunAppend(Start(n), AskingSteps(0) + AskingSteps(1), asking);
    forall step | step in AskTwice(answer) && step.AskService? ensures step.answer == answer {
      if step in AskingSteps(0) {
        AskingDoesNotAsk(0, step);
      } else if step in AskingSteps(1) {
        AskingDoesNotAsk(1, step);
      }
    }
  }

  function AskOnce(t: nat, answer: Answer): seq<Step> {
    AskingSteps(t) + [AskService(t, answer)]
  }

  lemma {:induction false} FailingLeavesIdle(s: State, t: nat, answer: Answer)
    requires t < |s.threads| && s.threads[t].place == Idle
    requires s.holder.None? && s.info.None? && !s.closed && !s.closeReturned && Kept(answer).None?
    ensures CanRun(s, AskOnce(t, answer))
    ensures var next := Run(s, AskOnce(t, answer));
            next.holder.None? && next.info.None? && !next.closed && !next.closeReturned &&
            |next.threads| == |s.threads| && next.threads[t].place == Idle && |next.asks| == |s.asks| + 1
  {
    ReachesAsking(s, t);
    var asking := Run(s, AskingSteps(t));
    RunOne(asking, AskService(t, answer));
    RunAppend(s, AskingSteps(t), [AskService(t, answer)]);
  }

  /** One goroutine alone asks again when the service failed it. */
  lemma {:induction false} AFailingServiceIsAskedAgain(n: nat, answer: Answer)
    requires n >= 1 && Kept(answer).None?
    ensures var steps := AskOnce(0, answer) + AskOnce(0, answer);
            CanRun(Start(n), steps) && |Run(Start(n), steps).asks| == 2
    ensures forall step | step in AskOnce(0, answer) + AskOnce(0, answer) && step.AskService? :: step.answer == answer
  {
    FailingLeavesIdle(Start(n), 0, answer);
    var once := Run(Start(n), AskOnce(0, answer));
    FailingLeavesIdle(once, 0, answer);
    RunAppend(Start(n), AskOnce(0, answer), AskOnce(0, answer));
    forall step | step in AskOnce(0, answer) + AskOnce(0, answer) && step.AskService? ensures step.answer == answer {
      if step in AskingSteps(0) {
        AskingDoesNotAsk(0, step);
      }
    }
  }

  /** The service is asked at most once whatever happens exactly when there is
      nobody to ask it or nothing it can answer, or one goroutine only and every
      answer it can give is one to keep. */
  lemma {:induction false} AskedAtMostOnceExactlyWhen(n: nat, may: iset<Answer>)
    ensures AskedAtMostOnce(n, may) <==>
            n == 0 || may == iset{} || (n == 1 && forall a | a in may :: Kept(a).Some?)
  {
    if n == 0 || may == iset{} || (n == 1 && forall a | a in may :: Kept(a).Some?) {
      AskedOnceWhen(n, may);
    } else if n >= 2 {
      var answer :| answer in may;
      TheServiceCanBeAskedTwice(n, answer);
      assert AnswersIn(AskTwice(answer), may);
    } else {
      var answer :| answer in may && Kept(answer).None?;
      AFailingServiceIsAskedAgain(n, answer);
      assert AnswersIn(AskOnce(0, answer) + AskOnce(0, answer), may);
    }
  }

  lemma {:induction false} AskedOnceWhen(n: nat, may: iset<Answer>)
    requires n == 0 || may == iset{} || (n == 1 && forall a | a in may :: Kept(a).Some?)
    ensures AskedAtMostOnce(n, may)
  {
    forall steps | CanRun(Start(n), steps) && AnswersIn(steps, may) ensures |Run(Start(n), steps).asks| <= 1 {
      if n == 1 && may != iset{} {
        RunsStayAlone(Start(1), steps);
      } else {
        assert n == 0 ==> steps == [];
        NobodyAsks(Start(n), steps);
      }
    }
  }
}
