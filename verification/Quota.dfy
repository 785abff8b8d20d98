/** Per-account daily quotas: the check reads the audit log, the record lands on it later. */
module Quota {
  import opened Common

  const ONE_DAY_MS := 24 * 60 * 60 * 1000

  /** The most rows one listing of the audit log returns. */
  const LIST_LIMIT := 100_000

  /** An audit row: its event type, the account its payload names (if any) and its timestamp. */
  datatype Row = Row(eventType: string, accountId: Option<string>, at: int)

  // ---- The check -----------------------------------------------------------------------

  /** The rows of the event type not older than `since`. */
  function Matching(log: seq<Row>, eventType: string, since: int): seq<Row> {
    if log == [] then []
    else
      var rows, last := Matching(log[..|log| - 1], eventType, since), log[|log| - 1];
      if last.eventType == eventType && last.at >= since then rows + [last] else rows
  }

  /** What the log hands back: a listing longer than the limit keeps its newest rows. */
  function List(log: seq<Row>, eventType: string, since: int): seq<Row> {
    var rows := Matching(log, eventType, since);
    if |rows| <= LIST_LIMIT then rows else rows[|rows| - LIST_LIMIT..]
  }

  function CountFor(rows: seq<Row>, accountId: string): nat {
    if rows == [] then 0
    else CountFor(rows[..|rows| - 1], accountId) + (if rows[|rows| - 1].accountId == Some(accountId) then 1 else 0)
  }

  /** Whether `assertUnderDailyQuota` throws. */
  predicate Exceeded(log: seq<Row>, eventType: string, accountId: string, dailyLimit: nat, now: int) {
    CountFor(List(log, eventType, now - ONE_DAY_MS), accountId) >= dailyLimit
  }

  /** A route with no quota configured, or with quota 0, checks nothing. */
  predicate Refused(quota: nat, log: seq<Row>, eventType: string, accountId: string, now: int) {
    quota != 0 && Exceeded(log, eventType, accountId, quota, now)
  }

  // ---- What is really in a window --------------------------------------------------------

  predicate InWindow(r: Row, eventType: string, accountId: string, from: int, to: int) {
    r.eventType == eventType && r.accountId == Some(accountId) && from <= r.at <= to
  }

  function WindowCount(log: seq<Row>, eventType: string, accountId: string, from: int, to: int): nat {
    if log == [] then 0
    else
      WindowCount(log[..|log| - 1], eventType, accountId, from, to)
      + (if InWindow(log[|log| - 1], eventType, accountId, from, to) then 1 else 0)
  }

  predicate NotAfter(log: seq<Row>, now: int) {
    forall i :: 0 <= i < |log| ==> log[i].at <= now
  }

  lemma {:induction false} MatchingCountsTheWindow(log: seq<Row>, eventType: string, accountId: string, since: int, now: int)
    requires NotAfter(log, now)
    ensures CountFor(Matching(log, eventType, since), accountId) == WindowCount(log, eventType, accountId, since, now)
  {
    if log != [] {
      var init, last := log[..|log| - 1], log[|log| - 1];
      MatchingCountsTheWindow(init, eventType, accountId, since, now);
      if last.eventType == eventType && last.at >= since {
        var rows := Matching(init, eventType, since);
        assert (rows + [last])[..|rows|] == rows;
      }
    }
  }

  lemma {:induction false} CountSplits(rows: seq<Row>, k: nat, accountId: string)
    requires k <= |rows|
    ensures CountFor(rows, accountId) == CountFor(rows[..k], accountId) + CountFor(rows[k..], accountId)
  {
    if k == |rows| {
      assert rows[..k] == rows && rows[k..] == [];
    } else {
      var n := |rows| - 1;
      CountSplits(rows[..n], k, accountId);
      assert rows[..n][..k] == rows[..k] && rows[..n][k..] == rows[k..][..n - k];
    }
  }

  /** The rows a full listing leaves out. */
  function CutOff(log: seq<Row>, eventType: string, since: int): seq<Row> {
    var rows := Matching(log, eventType, since);
    if |rows| <= LIST_LIMIT then [] else rows[..|rows| - LIST_LIMIT]
  }

  /** Exactly when a request is refused, for any log: the account's events of the trailing day, less
      those a full listing cut off, have reached the quota. */
  lemma RefusedIff(quota: nat, log: seq<Row>, eventType: string, accountId: string, now: int)
    requires quota > 0 && NotAfter(log, now)
    ensures Refused(quota, log, eventType, accountId, now)
       <==> WindowCount(log, eventType, accountId, now - ONE_DAY_MS, now)
            - CountFor(CutOff(log, eventType, now - ONE_DAY_MS), accountId) >= quota
  {
    MatchingCountsTheWindow(log, eventType, accountId, now - ONE_DAY_MS, now);
    var rows := Matching(log, eventType, now - ONE_DAY_MS);
    if |rows| > LIST_LIMIT {
      CountSplits(rows, |rows| - LIST_LIMIT, accountId);
    }
  }

  /** A request is refused exactly when its trailing day already holds `quota` of the account's events,
      provided the day's rows of the event type fit one listing. */
  lemma RefusedIffTrailingDayIsFull(quota: nat, log: seq<Row>, eventType: string, accountId: string, now: int)
    requires quota > 0 && NotAfter(log, now)
    requires |Matching(log, eventType, now - ONE_DAY_MS)| <= LIST_LIMIT
    ensures Refused(quota, log, eventType, accountId, now)
       <==> WindowCount(log, eventType, accountId, now - ONE_DAY_MS, now) >= quota
  {
    MatchingCountsTheWindow(log, eventType, accountId, now - ONE_DAY_MS, now);
  }

  /** Shrinking a window, or moving its end past every row, loses no row it should keep. */
  lemma {:induction false} WiderWindow(log: seq<Row>, eventType: string, accountId: string, from: int, to: int, from': int, to': int)
    requires from' <= from && (to <= to' || NotAfter(log, to'))
    ensures WindowCount(log, eventType, accountId, from, to) <= WindowCount(log, eventType, accountId, from', to')
  {
    if log != [] {
      WiderWindow(log[..|log| - 1], eventType, accountId, from, to, from', to');
    }
  }

  lemma WindowGrows(log: seq<Row>, row: Row, eventType: string, accountId: string, from: int, to: int)
    ensures WindowCount(log + [row], eventType, accountId, from, to)
         == WindowCount(log, eventType, accountId, from, to) + (if InWindow(row, eventType, accountId, from, to) then 1 else 0)
  {
    assert (log + [row])[..|log|] == log;
  }

  // ---- Overlapping requests ----------------------------------------------------------------

  /** A request that passed its check and has not been recorded yet. */
  datatype Ticket = Ticket(eventType: string, accountId: string)

  datatype State = State(log: seq<Row>, pending: seq<Ticket>, clock: int)

  datatype Step =
    | Check(eventType: string, accountId: string, now: int)
    | Record(k: nat, now: int)
    | Abandon(k: nat, now: int)
    | LogOther(row: Row)

  const VC_ISSUED := "ACCOUNT_VC_ISSUED"
  const ENROLLMENT_TOKEN_GENERATED := "ACCOUNT_ENROLLMENT_TOKEN_GENERATED"

  predicate IsQuotaEvent(eventType: string) {
    eventType == VC_ISSUED || eventType == ENROLLMENT_TOKEN_GENERATED
  }

  datatype Quotas = Quotas(vcIssuance: nat, enrollmentTokens: nat)

  function QuotaFor(q: Quotas, eventType: string): nat {
    if eventType == VC_ISSUED then q.vcIssuance
    else if eventType == ENROLLMENT_TOKEN_GENERATED then q.enrollmentTokens
    else 0
  }

  predicate Enabled(s: State, step: Step) {
    match step
    case Check(eventType, _, now) => s.clock <= now && IsQuotaEvent(eventType)
    case Record(k, now) => s.clock <= now && k < |s.pending|
    case Abandon(k, now) => s.clock <= now && k < |s.pending|
    case LogOther(row) => s.clock <= row.at && !IsQuotaEvent(row.eventType)
  }

  /** The check admits or refuses; issuing may still fail; the route logs the event only after issuing. */
  function Next(q: Quotas, s: State, step: Step): State
    requires Enabled(s, step)
  {
    match step
    case Check(eventType, accountId, now) =>
      if Refused(QuotaFor(q, eventType), s.log, eventType, accountId, now) then s.(clock := now)
      else s.(clock := now, pending := s.pending + [Ticket(eventType, accountId)])
    case Record(k, now) =>
      var t := s.pending[k];
      State(s.log + [Row(t.eventType, Some(t.accountId), now)], s.pending[..k] + s.pending[k + 1..], now)
    case Abandon(k, now) => s.(clock := now, pending := s.pending[..k] + s.pending[k + 1..])
    case LogOther(row) => s.(log := s.log + [row], clock := row.at)
  }

  function InFlight(pending: seq<Ticket>, t: Ticket): nat {
    multiset(pending)[t]
  }

  /** The listing the check reads is complete, and at most `K` requests of the account are in flight. */
  predicate Calm(q: Quotas, K: nat, t: Ticket, s: State, step: Step) {
    && Enabled(s, step)
    && (step.Check? && step.eventType == t.eventType ==> |Matching(s.log, t.eventType, step.now - ONE_DAY_MS)| <= LIST_LIMIT)
    && InFlight(Next(q, s, step).pending, t) <= K
  }

  predicate CalmRun(q: Quotas, K: nat, t: Ticket, s: State, run: seq<Step>)
    decreases |run|
  {
    run == [] || (Calm(q, K, t, s, run[0]) && CalmRun(q, K, t, Next(q, s, run[0]), run[1..]))
  }

  function Run(q: Quotas, K: nat, t: Ticket, s: State, run: seq<Step>): State
    requires CalmRun(q, K, t, s, run)
    decreases |run|
  {
    if run == [] then s else Run(q, K, t, Next(q, s, run[0]), run[1..])
  }

  /** The account's events in the day from `from`, plus what is in flight if that day is not over. */
  function Load(t: Ticket, s: State, from: int): nat {
    WindowCount(s.log, t.eventType, t.accountId, from, from + ONE_DAY_MS)
    + (if from >= s.clock - ONE_DAY_MS then InFlight(s.pending, t) else 0)
  }

  /** Every window is within the bound, and a window still open leaves room for what is in flight. */
  ghost predicate Bounded(q: Quotas, K: nat, t: Ticket, s: State) {
    && NotAfter(s.log, s.clock)
    && forall from :: Load(t, s, from) <= QuotaFor(q, t.eventType) + K - 1
  }

  lemma RemoveInFlight(pending: seq<Ticket>, k: nat, t: Ticket)
    requires k < |pending|
    ensures InFlight(pending[..k] + pending[k + 1..], t) == InFlight(pending, t) - (if pending[k] == t then 1 else 0)
  {
    assert pending == pending[..k] + [pending[k]] + pending[k + 1..];
  }

  /** Admitting a request found the trailing day short of the quota, which leaves room for `K` in flight. */
  lemma CheckKeepsLoad(q: Quotas, K: nat, t: Ticket, s: State, step: Step, from: int)
    requires step.Check? && Bounded(q, K, t, s) && Calm(q, K, t, s, step) && QuotaFor(q, t.eventType) > 0
    ensures Load(t, Next(q, s, step), from) <= QuotaFor(q, t.eventType) + K - 1
  {
    hide WindowCount, Matching, QuotaFor;
    assert Load(t, s, from) <= QuotaFor(q, t.eventType) + K - 1;
    if Ticket(step.eventType, step.accountId) == t && Next(q, s, step).pending != s.pending {
      RefusedIffTrailingDayIsFull(QuotaFor(q, t.eventType), s.log, t.eventType, t.accountId, step.now);
      if from >= step.now - ONE_DAY_MS {
        WiderWindow(s.log, t.eventType, t.accountId, from, from + ONE_DAY_MS, step.now - ONE_DAY_MS, step.now);
      }
    }
  }

  /** No other step raises the load of a window: a record moves one request from in flight to the log. */
  lemma OtherStepKeepsLoad(q: Quotas, t: Ticket, s: State, step: Step, from: int)
    requires !step.Check? && Enabled(s, step) && QuotaFor(q, t.eventType) > 0
    ensures Load(t, Next(q, s, step), from) <= Load(t, s, from)
  {
    hide WindowCount, InFlight;
    match step
    case Record(k, now) =>
      RemoveInFlight(s.pending, k, t);
      WindowGrows(s.log, Row(s.pending[k].eventType, Some(s.pending[k].accountId), now), t.eventType, t.accountId, from, from + ONE_DAY_MS);
    case Abandon(k, _) => RemoveInFlight(s.pending, k, t);
    case LogOther(row) => WindowGrows(s.log, row, t.eventType, t.accountId, from, from + ONE_DAY_MS);
  }

  lemma StepKeepsBound(q: Quotas, K: nat, t: Ticket, s: State, step: Step)
    requires QuotaFor(q, t.eventType) > 0
    requires Bounded(q, K, t, s) && Calm(q, K, t, s, step)
    ensures Bounded(q, K, t, Next(q, s, step))
  {
    hide Load, WindowCount, Matching, QuotaFor;
    var s' := Next(q, s, step);
    forall from ensures Load(t, s', from) <= QuotaFor(q, t.eventType) + K - 1 {
      if step.Check? {
        CheckKeepsLoad(q, K, t, s, step, from);
      } else {
        OtherStepKeepsLoad(q, t, s, step, from);
      }
    }
  }

  /** With at most `K` requests of the account between check and record, every 24h window, wherever
      it starts, holds at most `quota + K - 1` of its events; one at a time, at most `quota`. */
  lemma {:induction false} WindowsAreBounded(q: Quotas, K: nat, t: Ticket, s: State, run: seq<Step>, from: int)
    requires K > 0 && QuotaFor(q, t.eventType) > 0
    requires Bounded(q, K, t, s) && CalmRun(q, K, t, s, run)
    ensures WindowCount(Run(q, K, t, s, run).log, t.eventType, t.accountId, from, from + ONE_DAY_MS)
         <= QuotaFor(q, t.eventType) + K - 1
    decreases |run|
  {
    assert Load(t, s, from) <= QuotaFor(q, t.eventType) + K - 1;
    if run != [] {
      StepKeepsBound(q, K, t, s, run[0]);
      WindowsAreBounded(q, K, t, Next(q, s, run[0]), run[1..], from);
    }
  }

  lemma EmptyLogIsBounded(q: Quotas, K: nat, t: Ticket, now: int)
    requires K > 0
    ensures Bounded(q, K, t, State([], [], now))
  {
    forall from ensures Load(t, State([], [], now), from) == 0 {
    }
  }

  // ---- The bound is attained -----------------------------------------------------------------

  /** `n` recorded events and `m` requests in flight, all of one account at one instant. */
  function Burst(t: Ticket, n: nat, m: nat, now: int): State {
    State(seq(n, _ => Row(t.eventType, Some(t.accountId), now)), seq(m, _ => t), now)
  }

  lemma {:induction false} BurstCounts(t: Ticket, n: nat, m: nat, now: int)
    ensures var log := Burst(t, n, m, now).log;
            && NotAfter(log, now)
            && |Matching(log, t.eventType, now - ONE_DAY_MS)| == n
            && WindowCount(log, t.eventType, t.accountId, now - ONE_DAY_MS, now) == n
  {
    if n > 0 {
      BurstCounts(t, n - 1, m, now);
      assert Burst(t, n, m, now).log[..n - 1] == Burst(t, n - 1, m, now).log;
    }
  }

  lemma BurstInFlight(t: Ticket, n: nat, m: nat, now: int)
    ensures InFlight(Burst(t, n, m, now).pending, t) == m
  {
    if m > 0 {
      BurstInFlight(t, n, m - 1, now);
      assert Burst(t, n, m, now).pending == Burst(t, n, m - 1, now).pending + [t];
    }
  }

  lemma OnlyQuotaEventsHaveQuotas(q: Quotas, eventType: string)
    ensures QuotaFor(q, eventType) > 0 ==> IsQuotaEvent(eventType)
  {
  }

  lemma BurstCheck(q: Quotas, K: nat, t: Ticket, n: nat, m: nat, now: int)
    requires n < QuotaFor(q, t.eventType) <= LIST_LIMIT && m < K
    ensures var step := Check(t.eventType, t.accountId, now);
            Calm(q, K, t, Burst(t, n, m, now), step) && Next(q, Burst(t, n, m, now), step) == Burst(t, n, m + 1, now)
  {
    hide QuotaFor, WindowCount, Matching, Refused, NotAfter, InFlight;
    OnlyQuotaEventsHaveQuotas(q, t.eventType);
    var s := Burst(t, n, m, now);
    BurstCounts(t, n, m, now);
    BurstInFlight(t, n, m + 1, now);
    RefusedIffTrailingDayIsFull(QuotaFor(q, t.eventType), s.log, t.eventType, t.accountId, now);
    assert s.pending + [t] == Burst(t, n, m + 1, now).pending;
  }

  lemma BurstRecord(q: Quotas, K: nat, t: Ticket, n: nat, m: nat, now: int)
    requires 0 < m <= K
    ensures Calm(q, K, t, Burst(t, n, m, now), Record(0, now))
    ensures Next(q, Burst(t, n, m, now), Record(0, now)) == Burst(t, n + 1, m - 1, now)
  {
    var s := Burst(t, n, m, now);
    BurstInFlight(t, n + 1, m - 1, now);
    assert s.pending[..0] + s.pending[1..] == Burst(t, n + 1, m - 1, now).pending;
    assert s.log + [Row(t.eventType, Some(t.accountId), now)] == Burst(t, n + 1, m - 1, now).log;
  }

  /** From `n` recorded and `m` in flight, a calm run to the fullest window there can be. */
  lemma {:induction false} FillTheWindow(q: Quotas, K: nat, t: Ticket, n: nat, m: nat, now: int) returns (run: seq<Step>)
    requires 0 < QuotaFor(q, t.eventType) <= LIST_LIMIT && K > 0
    requires var quota := QuotaFor(q, t.eventType);
             if n < quota - 1 then m <= 1 else if n == quota - 1 then m <= K else n + m == quota + K - 1
    ensures CalmRun(q, K, t, Burst(t, n, m, now), run)
    ensures Run(q, K, t, Burst(t, n, m, now), run) == Burst(t, QuotaFor(q, t.eventType) + K - 1, 0, now)
    decreases 2 * (QuotaFor(q, t.eventType) + K - 1 - n) - m
  {
    hide QuotaFor, Calm, Next, Burst;
    var quota := QuotaFor(q, t.eventType);
    if n == quota + K - 1 {
      run := [];
    } else if (n < quota - 1 && m == 0) || (n == quota - 1 && m < K) {
      BurstCheck(q, K, t, n, m, now);
      var rest := FillTheWindow(q, K, t, n, m + 1, now);
      run := [Check(t.eventType, t.accountId, now)] + rest;
      assert run[1..] == rest;
    } else {
      BurstRecord(q, K, t, n, m, now);
      var rest := FillTheWindow(q, K, t, n + 1, m - 1, now);
      run := [Record(0, now)] + rest;
      assert run[1..] == rest;
    }
  }

  /** The bound cannot be lowered: for every quota and every `K` some calm run fills one day to it. */
  lemma BoundIsAttained(q: Quotas, K: nat, t: Ticket, now: int) returns (run: seq<Step>)
    requires 0 < QuotaFor(q, t.eventType) <= LIST_LIMIT && K > 0
    ensures CalmRun(q, K, t, State([], [], now), run)
    ensures WindowCount(Run(q, K, t, State([], [], now), run).log, t.eventType, t.accountId, now - ONE_DAY_MS, now)
         == QuotaFor(q, t.eventType) + K - 1
  {
    hide QuotaFor, WindowCount, Matching, CalmRun, Run, NotAfter;
    assert Burst(t, 0, 0, now) == State([], [], now);
    run := FillTheWindow(q, K, t, 0, 0, now);
    BurstCounts(t, QuotaFor(q, t.eventType) + K - 1, 0, now);
  }
}
