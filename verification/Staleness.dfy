/**
 * How old an answer can be when resolutions, writes and invalidations of one short code overlap
 * (`doResolve` in apps/api/src/services/url.service.ts over apps/api/src/cache/url-cache.ts).
 *
 * A resolution looks up the key, reads the row, evaluates it, stores the result and answers; a write commits and
 * later invalidates. Each of these is a step, and any Redis command may have no effect.
 */
module Staleness {
  import opened Types
  import opened UrlCache

  /** The row of the code from `since` until the next version. */
  datatype Version = Version(link: Option<Link>, since: Time)

  /** A stored entry; what it was made from, and when, is history. */
  datatype Cached = Cached(entry: CachedEntry, deadline: Time, link: Option<Link>, readAt: Time, storedAt: Time)

  datatype Reader =
    | Missed
    | HasRow(link: Option<Link>, readAt: Time)
    | Storing(link: Option<Link>, readAt: Time, entry: CachedEntry, evaluatedAt: Time)
    | Hit(cached: Cached, lookedAt: Time)

  /** An answer given at `at` for the row read at `readAt`; `cached` tells a cache hit from a database answer. */
  datatype Given = Given(answer: Answer, at: Time, link: Option<Link>, readAt: Time, cached: bool)

  /** The longest delays of a run: from reading a row to storing it, and from a cache hit to its answer. */
  datatype Delays = Delays(readToStore: nat, hitToAnswer: nat)

  datatype State = State(
    ttlSeconds: nat,
    delays: Delays,
    clock: Time,
    versions: seq<Version>,
    slot: Option<Cached>,
    readers: map<nat, Reader>,
    given: seq<Given>)

  datatype Step =
    | Tick(elapsed: nat)
    | Write(link: Option<Link>)
    | Invalidate
    | LookUp(r: nat, up: bool)
    | Read(r: nat)
    | Evaluate(r: nat)
    | Store(r: nat, up: bool)
    | AnswerHit(r: nat)
    | ReaderDies(r: nat)

  predicate Enabled(s: State, step: Step) {
    match step
    case Tick(_) => true
    case Write(_) => true
    case Invalidate => true
    case LookUp(r, _) => r !in s.readers
    case Read(r) => r in s.readers && s.readers[r].Missed?
    case Evaluate(r) => r in s.readers && s.readers[r].HasRow? && s.clock <= s.readers[r].readAt + s.delays.readToStore
    case Store(r, _) => r in s.readers && s.readers[r].Storing? && s.clock <= s.readers[r].readAt + s.delays.readToStore
    case AnswerHit(r) => r in s.readers && s.readers[r].Hit? && s.clock <= s.readers[r].lookedAt + s.delays.hitToAnswer
    case ReaderDies(r) => r in s.readers
  }

  /** A live key is a hit; hits do not extend it. */
  function AfterLookUp(s: State, up: bool): Reader {
    if up && s.slot.Some? && s.clock < s.slot.value.deadline then Hit(s.slot.value, s.clock) else Missed
  }

  function Current(s: State): Option<Link>
    requires s.versions != []
  {
    s.versions[|s.versions| - 1].link
  }

  function Apply(s: State, step: Step): State
    requires s.versions != [] && Enabled(s, step)
  {
    match step
    case Tick(elapsed) => s.(clock := s.clock + elapsed)
    case Write(link) => s.(versions := s.versions + [Version(link, s.clock)])
    case Invalidate => s.(slot := None)
    case LookUp(r, up) => s.(readers := s.readers[r := AfterLookUp(s, up)])
    case Read(r) => s.(readers := s.readers[r := HasRow(Current(s), s.clock)])
    case Evaluate(r) =>
      var row := s.readers[r];
      s.(readers := s.readers[r := Storing(row.link, row.readAt, EntryOf(row.link, s.clock), s.clock)],
         given := s.given + [Given(Rule(row.link, s.clock), s.clock, row.link, row.readAt, false)])
    case Store(r, up) =>
      var w := s.readers[r];
      var made := Cached(w.entry, s.clock + TtlOf(w.entry, s.ttlSeconds) * 1000, w.link, w.readAt, s.clock);
      s.(readers := s.readers - {r}, slot := if up then Some(made) else s.slot)
    case AnswerHit(r) =>
      var c := s.readers[r].cached;
      s.(readers := s.readers - {r},
         given := s.given + [Given(FromCache(c.entry, s.clock), s.clock, c.link, c.readAt, true)])
    case ReaderDies(r) => s.(readers := s.readers - {r})
  }

  function Init(ttlSeconds: nat, delays: Delays, clock: Time, link: Option<Link>): State {
    State(ttlSeconds, delays, clock, [Version(link, clock)], None, map[], [])
  }

  ghost predicate CanRun(s: State, run: seq<Step>)
    requires s.versions != []
    decreases |run|
  {
    run == [] || (Enabled(s, run[0]) && CanRun(Apply(s, run[0]), run[1..]))
  }

  ghost function Run(s: State, run: seq<Step>): (q: State)
    requires s.versions != [] && CanRun(s, run)
    ensures q.versions != []
    decreases |run|
  {
    if run == [] then s else Run(Apply(s, run[0]), run[1..])
  }

  // ---------------------------------------------------------------- the invariant

  predicate CurrentDuring(versions: seq<Version>, k: nat, t: Time)
    requires k < |versions|
  {
    versions[k].since <= t && (k + 1 < |versions| ==> t <= versions[k + 1].since)
  }

  /** The link was the row's content at time t. */
  ghost predicate WasCurrent(versions: seq<Version>, link: Option<Link>, t: Time) {
    exists k: nat :: k < |versions| && CurrentDuring(versions, k, t) && versions[k].link == link
  }

  /**
   * How long a cached entry that gives this answer can have lived, in seconds: a redirect comes from a positive
   * entry, a missing or deactivated link from a negative one, an expired link from either.
   */
  function LongestTtl(answer: Answer, ttlSeconds: nat): nat {
    match answer
    case Redirect(_) => ttlSeconds
    case NotFound => 60
    case GoneFor(Deactivated) => 60
    case GoneFor(Expired) => if ttlSeconds < 60 then 60 else ttlSeconds
  }

  ghost predicate CachedOk(s: State, c: Cached) {
    && WasCurrent(s.versions, c.link, c.readAt)
    && (c.entry.Url? ==> c.entry.link.isActive)
    && c.readAt <= c.storedAt <= s.clock && c.storedAt <= c.readAt + s.delays.readToStore
    && c.deadline == c.storedAt + TtlOf(c.entry, s.ttlSeconds) * 1000
    && forall t {:trigger FromCache(c.entry, t)} | c.storedAt <= t :: FromCache(c.entry, t) == Rule(c.link, t)
  }

  ghost predicate ReaderOk(s: State, reader: Reader) {
    match reader
    case Missed => true
    case HasRow(link, readAt) => readAt <= s.clock && WasCurrent(s.versions, link, readAt)
    case Storing(link, readAt, entry, evaluatedAt) =>
      && readAt <= evaluatedAt <= s.clock && WasCurrent(s.versions, link, readAt)
      && entry == EntryOf(link, evaluatedAt)
    case Hit(cached, lookedAt) => CachedOk(s, cached) && cached.storedAt <= lookedAt <= s.clock && lookedAt < cached.deadline
  }

  /** How long ago the row behind an answer may have been read. */
  function Age(g: Given, ttlSeconds: nat, delays: Delays): nat {
    delays.readToStore
    + if g.cached then LongestTtl(g.answer, ttlSeconds) * 1000 + delays.hitToAnswer else 0
  }

  /** The verdict, when it is given, of a version that was current within the stated age. */
  ghost predicate GivenOk(s: State, g: Given) {
    && g.answer == Rule(g.link, g.at)
    && WasCurrent(s.versions, g.link, g.readAt)
    && g.readAt <= g.at <= s.clock
    && g.at - Age(g, s.ttlSeconds, s.delays) <= g.readAt
  }

  ghost predicate Inv(s: State) {
    && s.versions != [] && s.versions[|s.versions| - 1].since <= s.clock
    && s.ttlSeconds > 0
    && (s.slot.Some? ==> CachedOk(s, s.slot.value))
    && (forall r {:trigger ReaderOk(s, s.readers[r])} | r in s.readers :: ReaderOk(s, s.readers[r]))
    && (forall i {:trigger GivenOk(s, s.given[i])} | 0 <= i < |s.given| :: GivenOk(s, s.given[i]))
  }

  // ---------------------------------------------------------------- every step

  /** Later versions and a later clock change nothing about what was current when. */
  ghost predicate Later(s: State, q: State) {
    && s.clock <= q.clock && q.ttlSeconds == s.ttlSeconds && q.delays == s.delays
    && forall link, t {:trigger WasCurrent(q.versions, link, t)} | t <= s.clock && WasCurrent(s.versions, link, t) ::
         WasCurrent(q.versions, link, t)
  }

  lemma WriteIsLater(s: State, link: Option<Link>)
    requires s.versions != []
    ensures Later(s, Apply(s, Write(link)))
  {
    var q := Apply(s, Write(link));
    forall l, t | t <= s.clock && WasCurrent(s.versions, l, t) ensures WasCurrent(q.versions, l, t) {
      var k: nat :| k < |s.versions| && CurrentDuring(s.versions, k, t) && s.versions[k].link == l;
      assert CurrentDuring(q.versions, k, t) && q.versions[k].link == l;
    }
  }

  lemma StepIsLater(s: State, step: Step)
    requires s.versions != [] && Enabled(s, step)
    ensures Later(s, Apply(s, step))
  {
    if step.Write? {
      WriteIsLater(s, step.link);
    }
  }

  lemma LastIsCurrent(s: State)
    requires s.versions != [] && s.versions[|s.versions| - 1].since <= s.clock
    ensures WasCurrent(s.versions, Current(s), s.clock)
  {
    assert CurrentDuring(s.versions, |s.versions| - 1, s.clock);
  }

  /** The reader a step moves on is in order afterwards. */
  lemma StepKeepsReader(s: State, step: Step, r: nat)
    requires Inv(s) && Enabled(s, step) && r in Apply(s, step).readers
    ensures ReaderOk(Apply(s, step), Apply(s, step).readers[r])
  {
    var q := Apply(s, step);
    StepIsLater(s, step);
    LastIsCurrent(s);
    if r in s.readers {
      assert ReaderOk(s, s.readers[r]);
    }
  }

  lemma StepKeepsSlot(s: State, step: Step)
    requires Inv(s) && Enabled(s, step)
    ensures Apply(s, step).slot.Some? ==> CachedOk(Apply(s, step), Apply(s, step).slot.value)
  {
    StepIsLater(s, step);
    if step.Store? {
      assert ReaderOk(s, s.readers[step.r]);
      var w := s.readers[step.r];
      forall t | s.clock <= t ensures FromCache(w.entry, t) == Rule(w.link, t) {
        EntryAnswersLikeLink(w.link, w.evaluatedAt, t);
      }
    }
  }

  lemma StepKeepsGiven(s: State, step: Step, i: nat)
    requires Inv(s) && Enabled(s, step) && i < |Apply(s, step).given|
    ensures GivenOk(Apply(s, step), Apply(s, step).given[i])
  {
    StepIsLater(s, step);
    if i < |s.given| {
      assert GivenOk(s, s.given[i]);
    } else {
      assert ReaderOk(s, s.readers[step.r]);
    }
  }

  lemma StepKeeps(s: State, step: Step)
    requires Inv(s) && Enabled(s, step)
    ensures Inv(Apply(s, step))
  {
    var q := Apply(s, step);
    StepKeepsSlot(s, step);
    forall r | r in q.readers ensures ReaderOk(q, q.readers[r]) {
      StepKeepsReader(s, step, r);
    }
    forall i | 0 <= i < |q.given| ensures GivenOk(q, q.given[i]) {
      StepKeepsGiven(s, step, i);
    }
  }

  lemma {:induction false} RunKeeps(s: State, run: seq<Step>)
    requires Inv(s) && CanRun(s, run)
    ensures Inv(Run(s, run)) && Run(s, run).delays == s.delays && Run(s, run).ttlSeconds == s.ttlSeconds
    decreases |run|
  {
    if run != [] {
      StepKeeps(s, run[0]);
      RunKeeps(Apply(s, run[0]), run[1..]);
    }
  }

  // ---------------------------------------------------------------- main results

  /**
   * Over every interleaving, every answer is the verdict, at the time it is given, of a version of the row that
   * was current at some time within TTL + delays before. The TTL is the configured one for redirects and 60 seconds
   * for missing and deactivated links; an uncached answer has no TTL.
   */
  lemma StalenessIsBounded(ttlSeconds: nat, delays: Delays, clock: Time, link: Option<Link>, run: seq<Step>, i: nat)
    requires ttlSeconds > 0 && CanRun(Init(ttlSeconds, delays, clock, link), run)
    requires i < |Run(Init(ttlSeconds, delays, clock, link), run).given|
    ensures var after := Run(Init(ttlSeconds, delays, clock, link), run);
            var g := after.given[i];
            exists t, l ::
              && WasCurrent(after.versions, l, t) && g.at - Age(g, ttlSeconds, delays) <= t <= g.at
              && g.answer == Rule(l, g.at)
  {
    var s := Init(ttlSeconds, delays, clock, link);
    RunKeeps(s, run);
    var after := Run(s, run);
    assert GivenOk(after, after.given[i]);
    assert WasCurrent(after.versions, after.given[i].link, after.given[i].readAt);
  }

  /** One more step at the front of a run. */
  lemma Then(s: State, step: Step, next: State, rest: seq<Step>)
    requires s.versions != [] && Enabled(s, step) && Apply(s, step) == next && CanRun(next, rest)
    ensures CanRun(s, [step] + rest) && Run(s, [step] + rest) == Run(next, rest)
  {
    assert ([step] + rest)[1..] == rest;
  }

  /** A reader reads the row; the row is written and invalidated; the reader stores what it has. */
  function ReadThenInvalidated(after: Option<Link>): seq<Step> {
    [LookUp(0, true)] + ([Read(0)] + ([Write(after)] + [Invalidate]))
  }

  const STORE_THEN_HIT: seq<Step> := [Evaluate(0)] + ([Store(0, true)] + ([LookUp(1, true)] + [AnswerHit(1)]))

  function Invalidated(s: State, before: Option<Link>, after: Option<Link>): State {
    s.(versions := [Version(before, s.clock), Version(after, s.clock)], readers := map[0 := HasRow(before, s.clock)])
  }

  lemma FirstHalf(s: State, before: Option<Link>, after: Option<Link>)
    requires s == Init(s.ttlSeconds, s.delays, s.clock, before)
    ensures CanRun(s, ReadThenInvalidated(after)) && Run(s, ReadThenInvalidated(after)) == Invalidated(s, before, after)
  {
    var s1 := s.(readers := map[0 := Missed]);
    var s2 := s.(readers := map[0 := HasRow(before, s.clock)]);
    var s4 := Invalidated(s, before, after);
    Then(s4, Invalidate, s4, []);
    assert [Invalidate] + [] == [Invalidate];
    Then(s2, Write(after), s4, [Invalidate]);
    Then(s1, Read(0), s2, [Write(after)] + [Invalidate]);
    Then(s, LookUp(0, true), s1, [Read(0)] + ([Write(after)] + [Invalidate]));
  }

  lemma SecondHalf(s: State, before: Option<Link>, after: Option<Link>)
    requires s == Init(s.ttlSeconds, s.delays, s.clock, before) && s.ttlSeconds > 0
    ensures var mid := Invalidated(s, before, after);
            && CanRun(mid, STORE_THEN_HIT)
            && var end := Run(mid, STORE_THEN_HIT);
            && Current(end) == after && end.readers == map[] && end.clock == s.clock && end.given != []
            && end.given[|end.given| - 1].answer == Rule(before, s.clock) && end.given[|end.given| - 1].at == s.clock
  {
    var mid := Invalidated(s, before, after);
    var entry := EntryOf(before, s.clock);
    var ttl := TtlOf(entry, s.ttlSeconds);
    var made := Cached(entry, s.clock + ttl * 1000, before, s.clock, s.clock);
    var fresh0 := Given(Rule(before, s.clock), s.clock, before, s.clock, false);
    var hit := Given(FromCache(entry, s.clock), s.clock, before, s.clock, true);
    var s5 := mid.(readers := map[0 := Storing(before, s.clock, entry, s.clock)], given := [fresh0]);
    var s6 := s5.(readers := map[], slot := Some(made));
    var s7 := s6.(readers := map[1 := Hit(made, s.clock)]);
    var s8 := s6.(given := [fresh0] + [hit]);
    assert s7.readers - {1} == map[] && s5.readers - {0} == map[];
    Then(s7, AnswerHit(1), s8, []);
    assert [AnswerHit(1)] + [] == [AnswerHit(1)];
    Then(s6, LookUp(1, true), s7, [AnswerHit(1)]);
    Then(s5, Store(0, true), s6, [LookUp(1, true)] + [AnswerHit(1)]);
    Then(mid, Evaluate(0), s5, [Store(0, true)] + ([LookUp(1, true)] + [AnswerHit(1)]));
    EntryAnswersLikeLink(before, s.clock, s.clock);
  }

  lemma {:induction false} RunJoins(s: State, a: seq<Step>, b: seq<Step>)
    requires s.versions != [] && CanRun(s, a) && CanRun(Run(s, a), b)
    ensures CanRun(s, a + b) && Run(s, a + b) == Run(Run(s, a), b)
    decreases |a|
  {
    if a == [] {
      assert a + b == b;
    } else {
      assert (a + b)[1..] == a[1..] + b;
      RunJoins(Apply(s, a[0]), a[1..], b);
    }
  }

  /**
   * "Never stale after an invalidation" is false: a reader may store a row it read before a write whose
   * invalidation succeeded in between. A later hit then answers by the old row, with no writer under way.
   */
  lemma InvalidationCanBeOvertaken(ttlSeconds: nat, delays: Delays, clock: Time, before: Option<Link>, after: Option<Link>)
    requires ttlSeconds > 0 && Rule(before, clock) != Rule(after, clock)
    ensures var s, run := Init(ttlSeconds, delays, clock, before), ReadThenInvalidated(after) + STORE_THEN_HIT;
            && CanRun(s, run)
            && var end := Run(s, run);
            && Current(end) == after && end.readers == map[] && end.given != []
            && var last := end.given[|end.given| - 1];
            && last.at == end.clock && last.answer != Rule(Current(end), end.clock)
  {
    var s := Init(ttlSeconds, delays, clock, before);
    FirstHalf(s, before, after);
    SecondHalf(s, before, after);
    RunJoins(s, ReadThenInvalidated(after), STORE_THEN_HIT);
  }
}
