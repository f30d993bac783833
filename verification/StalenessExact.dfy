/**
 * When an answer can still be out of date: the exact condition, on the readers under way and the stored entry, under
 * which every answer from now on is that of the current row until somebody writes it again.
 */
module StalenessExact {
  import opened Types
  import opened UrlCache
  import opened Staleness

  // ---------------------------------------------------------------- what may still answer by an old row

  /** Answers by the link may come up to and including this time. */
  datatype Source = Source(link: Option<Link>, until: Time)

  /** How long, in milliseconds, an entry made from the link between two times may live. */
  function Life(s: State, link: Option<Link>, from: Time, to: Time): Time {
    if !EntryOf(link, from).Url? then NEGATIVE_TTL_SECONDS * 1000
    else if EntryOf(link, to).Url? || NEGATIVE_TTL_SECONDS <= s.ttlSeconds then s.ttlSeconds * 1000
    else NEGATIVE_TTL_SECONDS * 1000
  }

  /** A reader that has a row or an entry, and is not yet too late to use it. */
  function SourceOf(s: State, reader: Reader): Option<Source> {
    match reader
    case Missed => None
    case HasRow(link, readAt) =>
      var last := readAt + s.delays.readToStore;
      if s.clock <= last then Some(Source(link, last + Life(s, link, s.clock, last) - 1 + s.delays.hitToAnswer)) else None
    case Storing(link, readAt, entry, _) =>
      var last := readAt + s.delays.readToStore;
      if s.clock <= last then
        Some(Source(link, last + TtlOf(entry, s.ttlSeconds) * 1000 - 1 + s.delays.hitToAnswer))
      else None
    case Hit(cached, lookedAt) =>
      if s.clock <= lookedAt + s.delays.hitToAnswer then Some(Source(cached.link, lookedAt + s.delays.hitToAnswer))
      else None
  }

  function SlotSource(s: State): Option<Source> {
    if s.slot.Some? && s.clock < s.slot.value.deadline then
      Some(Source(s.slot.value.link, s.slot.value.deadline - 1 + s.delays.hitToAnswer))
    else None
  }

  /** The source may answer differently from the current row. A caller can tell by looking at three moments. */
  predicate Lags(s: State, source: Option<Source>)
    requires s.versions != []
  {
    source.Some? && SeenToDiffer(source.value.link, Current(s), s.clock, source.value.until)
  }

  predicate ReaderLags(s: State, r: nat)
    requires s.versions != [] && r in s.readers
  {
    Lags(s, SourceOf(s, s.readers[r]))
  }

  predicate AnyLags(s: State)
    requires s.versions != []
  {
    Lags(s, SlotSource(s)) || exists r {:trigger ReaderLags(s, r)} :: r in s.readers && ReaderLags(s, r)
  }

  /** The answer is not the one of this row at the time. */
  predicate Stale(g: Given, link: Option<Link>) {
    g.answer != Rule(link, g.at)
  }

  /** A way on without a write in which somebody gets an answer that is not the current row's. */
  ghost predicate GoesStale(s: State, run: seq<Step>) {
    && s.versions != [] && CanRun(s, run) && (forall step <- run :: !step.Write?)
    && exists i :: |s.given| <= i < |Run(s, run).given| && Stale(Run(s, run).given[i], Current(s))
  }

  // ---------------------------------------------------------------- nothing lags: no stale answer ever

  ghost predicate Agrees(s: State, source: Option<Source>, link: Option<Link>) {
    source.Some? ==> !Differ(source.value.link, link, s.clock, source.value.until)
  }

  ghost predicate AllAgree(s: State, link: Option<Link>) {
    && Agrees(s, SlotSource(s), link)
    && forall r {:trigger SourceOf(s, s.readers[r])} | r in s.readers :: Agrees(s, SourceOf(s, s.readers[r]), link)
  }

  /** A source that answers by the same link and no longer, later on. */
  ghost predicate Narrower(b: Option<Source>, a: Option<Source>) {
    b.Some? ==> a.Some? && b.value.link == a.value.link && b.value.until <= a.value.until
  }

  lemma NarrowerAgrees(s: State, a: Option<Source>, q: State, b: Option<Source>, link: Option<Link>)
    requires Agrees(s, a, link) && Narrower(b, a) && s.clock <= q.clock
    ensures Agrees(q, b, link)
  {
  }

  lemma TickNarrows(s: State, elapsed: nat, reader: Reader)
    ensures Narrower(SourceOf(s.(clock := s.clock + elapsed), reader), SourceOf(s, reader))
    ensures Narrower(SlotSource(s.(clock := s.clock + elapsed)), SlotSource(s))
  {
  }

  /** What a step makes of the reader it moves on, and of the slot, answers for no longer than before. */
  lemma StepNarrows(s: State, step: Step)
    requires Inv(s) && Enabled(s, step)
    ensures var q := Apply(s, step);
            && (step.Evaluate? ==> Narrower(SourceOf(q, q.readers[step.r]), SourceOf(s, s.readers[step.r])))
            && (step.Store? && step.up ==> Narrower(SlotSource(q), SourceOf(s, s.readers[step.r])))
            && (step.LookUp? ==> Narrower(SourceOf(q, q.readers[step.r]), SlotSource(s)))
  {
  }

  lemma StepKeepsSlotAgreement(s: State, step: Step, link: Option<Link>)
    requires Inv(s) && Enabled(s, step) && !step.Write? && AllAgree(s, link)
    ensures Agrees(Apply(s, step), SlotSource(Apply(s, step)), link)
  {
    var q := Apply(s, step);
    if step.Store? && step.up {
      StepNarrows(s, step);
      assert Agrees(s, SourceOf(s, s.readers[step.r]), link);
      NarrowerAgrees(s, SourceOf(s, s.readers[step.r]), q, SlotSource(q), link);
    } else if step.Tick? {
      TickNarrows(s, step.elapsed, Missed);
      NarrowerAgrees(s, SlotSource(s), q, SlotSource(q), link);
    }
  }

  /** A reader the step does not touch. */
  lemma OtherReaderAgrees(s: State, step: Step, r: nat, link: Option<Link>)
    requires Enabled(s, step) && s.versions != [] && !step.Write? && r in s.readers && r in Apply(s, step).readers
    requires Apply(s, step).readers[r] == s.readers[r] && Agrees(s, SourceOf(s, s.readers[r]), link)
    ensures Agrees(Apply(s, step), SourceOf(Apply(s, step), s.readers[r]), link)
  {
    var q := Apply(s, step);
    if step.Tick? {
      TickNarrows(s, step.elapsed, s.readers[r]);
      NarrowerAgrees(s, SourceOf(s, s.readers[r]), q, SourceOf(q, s.readers[r]), link);
    }
  }

  lemma MovedReaderAgrees(s: State, step: Step)
    requires Inv(s) && Enabled(s, step) && AllAgree(s, Current(s))
    requires step.LookUp? || step.Read? || step.Evaluate?
    ensures var q := Apply(s, step); Agrees(q, SourceOf(q, q.readers[step.r]), Current(s))
  {
    var q := Apply(s, step);
    StepNarrows(s, step);
    if step.LookUp? {
      NarrowerAgrees(s, SlotSource(s), q, SourceOf(q, q.readers[step.r]), Current(s));
    } else if step.Evaluate? {
      assert Agrees(s, SourceOf(s, s.readers[step.r]), Current(s));
      NarrowerAgrees(s, SourceOf(s, s.readers[step.r]), q, SourceOf(q, q.readers[step.r]), Current(s));
    }
  }

  lemma StepKeepsAgreement(s: State, step: Step)
    requires Inv(s) && Enabled(s, step) && !step.Write? && AllAgree(s, Current(s))
    ensures AllAgree(Apply(s, step), Current(s)) && Current(Apply(s, step)) == Current(s)
  {
    var q, link := Apply(s, step), Current(s);
    StepKeepsSlotAgreement(s, step, link);
    forall r | r in q.readers ensures Agrees(q, SourceOf(q, q.readers[r]), link) {
      if (step.LookUp? || step.Read? || step.Evaluate?) && r == step.r {
        MovedReaderAgrees(s, step);
      } else {
        assert Agrees(s, SourceOf(s, s.readers[r]), link);
        OtherReaderAgrees(s, step, r, link);
      }
    }
  }

  lemma NewAnswerIsCurrent(s: State, step: Step, i: nat)
    requires Inv(s) && Enabled(s, step) && !step.Write? && AllAgree(s, Current(s))
    requires |s.given| <= i < |Apply(s, step).given|
    ensures !Stale(Apply(s, step).given[i], Current(s))
  {
    var reader := s.readers[step.r];
    assert ReaderOk(s, reader);
    assert Agrees(s, SourceOf(s, reader), Current(s));
    var link := SourceOf(s, reader).value.link;
    assert Rule(link, s.clock) == Rule(Current(s), s.clock);
  }

  lemma {:induction false} NeverStale(s: State, run: seq<Step>, i: nat)
    requires Inv(s) && AllAgree(s, Current(s)) && CanRun(s, run) && forall step <- run :: !step.Write?
    requires |s.given| <= i < |Run(s, run).given|
    ensures !Stale(Run(s, run).given[i], Current(s))
    decreases |run|
  {
    if run != [] {
      var q := Apply(s, run[0]);
      StepKeeps(s, run[0]);
      StepKeepsAgreement(s, run[0]);
      if i < |q.given| {
        NewAnswerIsCurrent(s, run[0], i);
        GivenStays(q, run[1..], i);
      } else {
        NeverStale(q, run[1..], i);
      }
    }
  }

  lemma {:induction false} GivenStays(s: State, run: seq<Step>, i: nat)
    requires s.versions != [] && CanRun(s, run) && i < |s.given|
    ensures i < |Run(s, run).given| && Run(s, run).given[i] == s.given[i]
    decreases |run|
  {
    if run != [] {
      GivenStays(Apply(s, run[0]), run[1..], i);
    }
  }

  // ---------------------------------------------------------------- something lags: a stale answer can come

  lemma StepThenStale(s: State, step: Step, rest: seq<Step>)
    requires s.versions != [] && Enabled(s, step) && !step.Write? && GoesStale(Apply(s, step), rest)
    ensures GoesStale(s, [step] + rest)
  {
    Then(s, step, Apply(s, step), rest);
    var i :| |Apply(s, step).given| <= i < |Run(Apply(s, step), rest).given|
          && Stale(Run(Apply(s, step), rest).given[i], Current(Apply(s, step)));
    assert Stale(Run(s, [step] + rest).given[i], Current(s));
  }

  lemma StaleAtOnce(s: State, step: Step)
    requires s.versions != [] && Enabled(s, step) && !step.Write? && |Apply(s, step).given| == |s.given| + 1
    requires Stale(Apply(s, step).given[|s.given|], Current(s))
    ensures GoesStale(s, [step])
  {
    Then(s, step, Apply(s, step), []);
    assert [step] + [] == [step];
  }

  /** From s, after waiting until t. */
  function At(s: State, t: Time): State
    requires s.clock <= t
  {
    s.(clock := t)
  }

  lemma WaitThenStale(s: State, t: Time, rest: seq<Step>)
    requires s.versions != [] && s.clock <= t && GoesStale(At(s, t), rest)
    ensures GoesStale(s, [Tick(t - s.clock)] + rest)
  {
    StepThenStale(s, Tick(t - s.clock), rest);
  }

  lemma WaitKeeps(s: State, t: Time)
    requires Inv(s) && s.clock <= t
    ensures Inv(At(s, t))
  {
    StepKeeps(s, Tick(t - s.clock));
  }

  lemma HitGoesStale(s: State, r: nat, t: Time) returns (run: seq<Step>)
    requires Inv(s) && r in s.readers && s.readers[r].Hit?
    requires s.clock <= t <= s.readers[r].lookedAt + s.delays.hitToAnswer
    requires Rule(s.readers[r].cached.link, t) != Rule(Current(s), t)
    ensures GoesStale(s, run)
  {
    var q := At(s, t);
    assert ReaderOk(s, s.readers[r]);
    StaleAtOnce(q, AnswerHit(r));
    WaitThenStale(s, t, [AnswerHit(r)]);
    run := [Tick(t - s.clock)] + [AnswerHit(r)];
  }

  lemma {:induction false} Bounded(keys: set<nat>) returns (n: nat)
    ensures forall k <- keys :: k < n
  {
    if keys == {} {
      n := 0;
    } else {
      var k :| k in keys;
      var m := Bounded(keys - {k});
      assert forall j <- keys :: j == k || j in keys - {k};
      n := if m <= k then k + 1 else m;
    }
  }

  lemma SlotGoesStale(s: State, t: Time) returns (run: seq<Step>)
    requires Inv(s) && s.slot.Some? && s.clock < s.slot.value.deadline
    requires s.clock <= t <= s.slot.value.deadline - 1 + s.delays.hitToAnswer
    requires Rule(s.slot.value.link, t) != Rule(Current(s), t)
    ensures GoesStale(s, run)
  {
    var v := Min(t, s.slot.value.deadline - 1);
    var q := At(s, v);
    var r := Bounded(s.readers.Keys);
    WaitKeeps(s, v);
    StepKeeps(q, LookUp(r, true));
    var rest := HitGoesStale(Apply(q, LookUp(r, true)), r, t);
    StepThenStale(q, LookUp(r, true), rest);
    WaitThenStale(s, v, [LookUp(r, true)] + rest);
    run := [Tick(v - s.clock)] + ([LookUp(r, true)] + rest);
  }

  lemma StoringGoesStale(s: State, r: nat, t: Time) returns (run: seq<Step>)
    requires Inv(s) && r in s.readers && s.readers[r].Storing?
    requires var source := SourceOf(s, s.readers[r]);
             source.Some? && s.clock <= t <= source.value.until
             && Rule(source.value.link, t) != Rule(Current(s), t)
    ensures GoesStale(s, run)
  {
    var u := Min(t, s.readers[r].readAt + s.delays.readToStore);
    var q := At(s, u);
    WaitKeeps(s, u);
    StepKeeps(q, Store(r, true));
    var rest := SlotGoesStale(Apply(q, Store(r, true)), t);
    StepThenStale(q, Store(r, true), rest);
    WaitThenStale(s, u, [Store(r, true)] + rest);
    run := [Tick(u - s.clock)] + ([Store(r, true)] + rest);
  }

  /** The row is evaluated at time u and the entry made of it lives long enough. */
  lemma EvaluatedGoesStale(s: State, r: nat, u: Time, t: Time) returns (run: seq<Step>)
    requires Inv(s) && r in s.readers && s.readers[r].HasRow?
    requires var last := s.readers[r].readAt + s.delays.readToStore;
             && s.clock <= u <= last && u <= t
             && t <= last + TtlOf(EntryOf(s.readers[r].link, u), s.ttlSeconds) * 1000 - 1 + s.delays.hitToAnswer
    requires Rule(s.readers[r].link, t) != Rule(Current(s), t)
    ensures GoesStale(s, run)
  {
    var q := At(s, u);
    WaitKeeps(s, u);
    StepKeeps(q, Evaluate(r));
    var rest := StoringGoesStale(Apply(q, Evaluate(r)), r, t);
    StepThenStale(q, Evaluate(r), rest);
    WaitThenStale(s, u, [Evaluate(r)] + rest);
    run := [Tick(u - s.clock)] + ([Evaluate(r)] + rest);
  }

  lemma HasRowGoesStale(s: State, r: nat, t: Time) returns (run: seq<Step>)
    requires Inv(s) && r in s.readers && s.readers[r].HasRow?
    requires var source := SourceOf(s, s.readers[r]);
             source.Some? && s.clock <= t <= source.value.until
             && Rule(source.value.link, t) != Rule(Current(s), t)
    ensures GoesStale(s, run)
  {
    var link, last := s.readers[r].link, s.readers[r].readAt + s.delays.readToStore;
    var long := TtlOf(EntryOf(link, s.clock), s.ttlSeconds) * 1000;
    if t <= last + long - 1 + s.delays.hitToAnswer {
      run := EvaluatedGoesStale(s, r, s.clock, t);
    } else {
      run := EvaluatedGoesStale(s, r, last, t);
    }
  }

  lemma LaggingReaderGoesStale(s: State, r: nat) returns (run: seq<Step>)
    requires Inv(s) && r in s.readers && ReaderLags(s, r)
    ensures GoesStale(s, run)
  {
    var source := SourceOf(s, s.readers[r]).value;
    DifferIsSeen(source.link, Current(s), s.clock, source.until);
    var t :| s.clock <= t <= source.until && Rule(source.link, t) != Rule(Current(s), t);
    if s.readers[r].HasRow? {
      run := HasRowGoesStale(s, r, t);
    } else if s.readers[r].Storing? {
      run := StoringGoesStale(s, r, t);
    } else {
      run := HitGoesStale(s, r, t);
    }
  }

  lemma LaggingSlotGoesStale(s: State) returns (run: seq<Step>)
    requires Inv(s) && Lags(s, SlotSource(s))
    ensures GoesStale(s, run)
  {
    var source := SlotSource(s).value;
    DifferIsSeen(source.link, Current(s), s.clock, source.until);
    var t :| s.clock <= t <= source.until && Rule(source.link, t) != Rule(Current(s), t);
    run := SlotGoesStale(s, t);
  }

  // ---------------------------------------------------------------- the exact condition

  lemma NothingLagsAgrees(s: State)
    requires Inv(s) && !AnyLags(s)
    ensures AllAgree(s, Current(s))
  {
    if SlotSource(s).Some? {
      DifferIsSeen(SlotSource(s).value.link, Current(s), s.clock, SlotSource(s).value.until);
    }
    forall r | r in s.readers ensures Agrees(s, SourceOf(s, s.readers[r]), Current(s)) {
      assert !ReaderLags(s, r);
      var source := SourceOf(s, s.readers[r]);
      if source.Some? {
        DifferIsSeen(source.value.link, Current(s), s.clock, source.value.until);
      }
    }
  }

  lemma CurrentFromHereIff(s: State)
    requires Inv(s)
    ensures (forall run: seq<Step> {:trigger GoesStale(s, run)} :: !GoesStale(s, run)) <==> !AnyLags(s)
  {
    if AnyLags(s) {
      if Lags(s, SlotSource(s)) {
        var run := LaggingSlotGoesStale(s);
      } else {
        var r :| r in s.readers && ReaderLags(s, r);
        var run := LaggingReaderGoesStale(s, r);
      }
    } else {
      NothingLagsAgrees(s);
      forall run: seq<Step> | s.versions != [] && CanRun(s, run) && (forall step <- run :: !step.Write?)
        ensures forall i :: |s.given| <= i < |Run(s, run).given| ==> !Stale(Run(s, run).given[i], Current(s))
      {
        forall i | |s.given| <= i < |Run(s, run).given| ensures !Stale(Run(s, run).given[i], Current(s)) {
          NeverStale(s, run, i);
        }
      }
    }
  }

  /**
   * "Never stale after an invalidation", with its exact condition: in every reachable state in which an invalidation
   * takes effect, every answer given from then on until the next write is the current row's at the time, if and only
   * if no reader then under way holds a row or an entry that answers differently at the time of the invalidation or at
   * an expiry up to the last moment at which that reader, or a look-up served by what it stores, may answer.
   */
  lemma InvalidationSettlesIff(ttlSeconds: nat, delays: Delays, clock: Time, link: Option<Link>, history: seq<Step>)
    requires ttlSeconds > 0 && CanRun(Init(ttlSeconds, delays, clock, link), history)
    ensures var s := Apply(Run(Init(ttlSeconds, delays, clock, link), history), Invalidate);
            (forall run: seq<Step> {:trigger GoesStale(s, run)} :: !GoesStale(s, run))
            <==> forall r {:trigger ReaderLags(s, r)} | r in s.readers :: !ReaderLags(s, r)
  {
    var s := Run(Init(ttlSeconds, delays, clock, link), history);
    RunKeeps(Init(ttlSeconds, delays, clock, link), history);
    StepKeeps(s, Invalidate);
    CurrentFromHereIff(Apply(s, Invalidate));
  }

  /** The same in every reachable state, where a live entry may lag too. */
  lemma AnswersStayCurrentIff(ttlSeconds: nat, delays: Delays, clock: Time, link: Option<Link>, history: seq<Step>)
    requires ttlSeconds > 0 && CanRun(Init(ttlSeconds, delays, clock, link), history)
    ensures var s := Run(Init(ttlSeconds, delays, clock, link), history);
            (forall run: seq<Step> {:trigger GoesStale(s, run)} :: !GoesStale(s, run)) <==> !AnyLags(s)
  {
    RunKeeps(Init(ttlSeconds, delays, clock, link), history);
    CurrentFromHereIff(Run(Init(ttlSeconds, delays, clock, link), history));
  }
}
