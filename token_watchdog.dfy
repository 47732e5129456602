/**
 * The token-rate watchdog (`TokenWatchdog` in scripts/token-watchdog.js): a
 * sliding one-minute window of recorded requests, an estimate of the tokens
 * spent per minute, and a cooldown that starts when the estimate reaches the
 * threshold. Times are milliseconds; the clock reading `Date.now()` is the
 * parameter `now` of every operation.
 */
module TokenWatchdog {
  import opened Wrappers

  const TpmLimit: int := 1000000
  const TpmThreshold: int := 900000
  const CooldownSeconds: int := 30
  /** Length of the sliding window, in milliseconds. */
  const WindowMs: int := 60000
  /** What a request is assumed to cost when its entry names no tokens. */
  const DefaultTokens: int := 4000

  /** One history entry `{time, tokens}`; a state file may hold entries
      without `tokens`. */
  datatype Entry = Entry(time: int, tokens: Option<int>)

  /** `this.state` */
  datatype WatchState = WatchState(
    lastCheck: int,
    currentTPM: int,
    cooldownUntil: int,
    totalBlocked: int,
    history: seq<Entry>)

  /** The state `loadState` returns when there is no state file. */
  const DefaultState: WatchState := WatchState(0, 0, 0, 0, [])

  // ---------------------------------------------------------------------------
  // the sliding window

  /** `history.filter(h => h.time > now - 60000)` */
  function Window(history: seq<Entry>, now: int): (w: seq<Entry>)
    ensures |w| <= |history|
  {
    if history == [] then []
    else if history[0].time > now - WindowMs then [history[0]] + Window(history[1..], now)
    else Window(history[1..], now)
  }

  /** The window keeps exactly the entries younger than a minute. */
  lemma {:induction false} WindowMembers(history: seq<Entry>, now: int)
    ensures forall e :: e in Window(history, now) <==> e in history && e.time > now - WindowMs
  {
    if history != [] {
      WindowMembers(history[1..], now);
      assert history == [history[0]] + history[1..];
    }
  }

  /** Filtering keeps the order: the window of a concatenation is the
      concatenation of the windows. */
  lemma {:induction false} WindowConcat(a: seq<Entry>, b: seq<Entry>, now: int)
    ensures Window(a + b, now) == Window(a, now) + Window(b, now)
  {
    if a == [] {
      assert a + b == b;
    } else {
      assert (a + b)[0] == a[0] && (a + b)[1..] == a[1..] + b;
      WindowConcat(a[1..], b, now);
    }
  }

  /** Filtering twice at the same instant filters once. */
  lemma {:induction false} WindowIdempotent(history: seq<Entry>, now: int)
    ensures Window(Window(history, now), now) == Window(history, now)
  {
    if history != [] {
      WindowIdempotent(history[1..], now);
      if history[0].time > now - WindowMs {
        assert ([history[0]] + Window(history[1..], now))[1..] == Window(history[1..], now);
      }
    }
  }

  /** `h.tokens || 4000`: a missing or zero count is charged 4000 tokens. */
  function Charge(e: Entry): (c: int)
    ensures e.tokens.None? ==> c == DefaultTokens
    ensures e.tokens.Some? && e.tokens.value == 0 ==> c == DefaultTokens
    ensures e.tokens.Some? && e.tokens.value != 0 ==> c == e.tokens.value
  {
    match e.tokens
    case None => DefaultTokens
    case Some(t) => if t == 0 then DefaultTokens else t
  }

  /** `reduce((sum, h) => sum + (h.tokens || 4000), 0)` */
  function Total(entries: seq<Entry>): int {
    if entries == [] then 0 else Total(entries[..|entries| - 1]) + Charge(entries[|entries| - 1])
  }

  lemma {:induction false} TotalConcat(a: seq<Entry>, b: seq<Entry>)
    ensures Total(a + b) == Total(a) + Total(b)
  {
    if b == [] {
      assert a + b == a;
    } else {
      assert (a + b)[..|a + b| - 1] == a + b[..|b| - 1];
      assert (a + b)[|a + b| - 1] == b[|b| - 1];
      TotalConcat(a, b[..|b| - 1]);
    }
  }

  /** With every count positive, the estimate is at least 1 per request:
      no recorded request is free. */
  lemma {:induction false} TotalPositive(entries: seq<Entry>)
    requires forall k :: 0 <= k < |entries| ==> entries[k].tokens.None? || entries[k].tokens.value >= 0
    ensures Total(entries) >= |entries|
  {
    if entries != [] {
      TotalPositive(entries[..|entries| - 1]);
    }
  }

  // ---------------------------------------------------------------------------
  // estimateTokenUsage, checkBeforeRequest, getStatus

  datatype Usage = Usage(current: int, allowed: bool)

  /** `estimateTokenUsage` */
  function Estimate(s: WatchState, now: int): (u: Usage)
    ensures u.allowed <==> u.current < TpmThreshold && now > s.cooldownUntil
  {
    var current := Total(Window(s.history, now));
    Usage(current, current < TpmThreshold && now > s.cooldownUntil)
  }

  /** Stale entries do not count: pruning the history at the same instant
      leaves the estimate as it was. */
  lemma EstimateIgnoresStale(s: WatchState, now: int)
    ensures Estimate(s.(history := Window(s.history, now)), now) == Estimate(s, now)
  {
    WindowIdempotent(s.history, now);
  }

  /** `Math.ceil(ms / 1000)` for a positive number of milliseconds. */
  function CeilSeconds(ms: int): (r: int)
    requires ms >= 1
    ensures r >= 1 && (r - 1) * 1000 < ms <= r * 1000
  {
    (ms + 999) / 1000
  }

  /** The answers of `checkBeforeRequest`; the messages built around these
      numbers are not part of this model. */
  datatype Decision =
    | CooldownActive(remainingSeconds: int)
    | ThresholdExceeded(currentTPM: int, cooldownSeconds: int)
    | Allowed(currentTPM: int)

  /** `checkBeforeRequest`: the answer and the state it leaves. */
  function Check(s: WatchState, now: int): (WatchState, Decision) {
    if now < s.cooldownUntil then
      (s, CooldownActive(CeilSeconds(s.cooldownUntil - now)))
    else
      var current := Estimate(s, now).current;
      if current >= TpmThreshold then
        (s.(cooldownUntil := now + CooldownSeconds * 1000, totalBlocked := s.totalBlocked + 1),
         ThresholdExceeded(current, CooldownSeconds))
      else
        (s, Allowed(current))
  }

  /** The three outcomes of a check, and what each does to the state. */
  lemma CheckSpec(s: WatchState, now: int)
    ensures var (s', d) := Check(s, now);
      && (now < s.cooldownUntil ==>
            s' == s && d.CooldownActive? && d.remainingSeconds >= 1
            && (d.remainingSeconds - 1) * 1000 < s.cooldownUntil - now <= d.remainingSeconds * 1000)
      && (now >= s.cooldownUntil && Estimate(s, now).current >= TpmThreshold ==>
            d == ThresholdExceeded(Estimate(s, now).current, 30)
            && s' == s.(cooldownUntil := now + 30000, totalBlocked := s.totalBlocked + 1))
      && (now >= s.cooldownUntil && Estimate(s, now).current < TpmThreshold ==>
            s' == s && d == Allowed(Estimate(s, now).current))
      && (d.Allowed? <==> now >= s.cooldownUntil && Estimate(s, now).current < TpmThreshold)
  {
  }

  /** A check never forgets a block: the block count grows by one on a
      threshold block and is otherwise kept, and the history is never
      touched. */
  lemma CheckCounts(s: WatchState, now: int)
    ensures var (s', d) := Check(s, now);
      && s'.totalBlocked == s.totalBlocked + (if d.ThresholdExceeded? then 1 else 0)
      && s'.history == s.history && s'.lastCheck == s.lastCheck
  {
  }

  /** Once a block starts at `now`, every check during the next thirty
      seconds is refused by the cooldown and changes nothing. */
  lemma CooldownHolds(s: WatchState, now: int, later: int)
    requires Check(s, now).1.ThresholdExceeded?
    requires now <= later < now + CooldownSeconds * 1000
    ensures var s1 := Check(s, now).0;
      Check(s1, later) == (s1, CooldownActive(CeilSeconds(now + 30000 - later)))
      && Check(s1, later).1.remainingSeconds <= CooldownSeconds
  {
  }

  /** Whenever the estimate says a request is allowed the check lets it
      through; the converse holds except at the very millisecond the
      cooldown ends, where the estimate still refuses and the check
      already allows. */
  lemma EstimateAgreesWithCheck(s: WatchState, now: int)
    ensures Estimate(s, now).allowed ==> Check(s, now).1.Allowed?
    ensures Check(s, now).1.Allowed? && now != s.cooldownUntil ==> Estimate(s, now).allowed
    ensures Check(s, now).1.Allowed? && now == s.cooldownUntil ==> !Estimate(s, now).allowed
  {
  }

  /** A fresh watchdog at a non-negative clock reading allows the request. */
  lemma DefaultAllows(now: int)
    requires now >= 0
    ensures Check(DefaultState, now) == (DefaultState, Allowed(0))
  {
  }

  /** `getStatus` without the `utilization` percentage. */
  datatype Status = Status(
    currentTPM: int,
    threshold: int,
    limit: int,
    inCooldown: bool,
    cooldownRemaining: int,
    totalBlocked: int,
    recentRequests: int)

  function StatusOf(s: WatchState, now: int): (r: Status)
    ensures r.inCooldown <==> now < s.cooldownUntil
    ensures !r.inCooldown ==> r.cooldownRemaining == 0
    ensures r.inCooldown ==> r.cooldownRemaining >= 1
    ensures r.recentRequests == |s.history| && r.totalBlocked == s.totalBlocked
    ensures r.threshold == TpmThreshold && r.limit == TpmLimit
    ensures r.currentTPM == Estimate(s, now).current
  {
    var inCooldown := now < s.cooldownUntil;
    Status(Estimate(s, now).current, TpmThreshold, TpmLimit, inCooldown,
           if inCooldown then CeilSeconds(s.cooldownUntil - now) else 0,
           s.totalBlocked, |s.history|)
  }

  /** The status reports a cooldown exactly when a check would answer
      COOLDOWN_ACTIVE, with the same number of seconds. */
  lemma StatusMatchesCheck(s: WatchState, now: int)
    ensures StatusOf(s, now).inCooldown <==> Check(s, now).1.CooldownActive?
    ensures StatusOf(s, now).inCooldown ==>
              Check(s, now).1.remainingSeconds == StatusOf(s, now).cooldownRemaining
  {
  }

  // ---------------------------------------------------------------------------
  // recordRequest

  /** `recordRequest`: prune the window, then append the new entry. */
  function Record(s: WatchState, now: int, tokens: int): WatchState {
    s.(history := Window(s.history, now) + [Entry(now, Some(tokens))], lastCheck := now)
  }

  /** After recording, every entry lies inside the window, the new entry is
      last and the older survivors keep their order. */
  lemma RecordSpec(s: WatchState, now: int, tokens: int)
    ensures var h := Record(s, now, tokens).history;
      && |h| >= 1 && h[|h| - 1] == Entry(now, Some(tokens))
      && h[..|h| - 1] == Window(s.history, now)
      && (forall e :: e in h ==> e.time > now - WindowMs)
      && (forall e :: e in h[..|h| - 1] <==> e in s.history && e.time > now - WindowMs)
    ensures Record(s, now, tokens).lastCheck == now
    ensures Record(s, now, tokens).cooldownUntil == s.cooldownUntil
    ensures Record(s, now, tokens).totalBlocked == s.totalBlocked
  {
    WindowMembers(s.history, now);
    var h := Record(s, now, tokens).history;
    assert h[..|h| - 1] == Window(s.history, now);
  }

  /** Recording a request raises the estimate at that instant by exactly
      what the request is charged. */
  lemma RecordRaisesEstimate(s: WatchState, now: int, tokens: int)
    ensures Estimate(Record(s, now, tokens), now).current
         == Estimate(s, now).current + Charge(Entry(now, Some(tokens)))
  {
    var w := Window(s.history, now);
    var e := Entry(now, Some(tokens));
    WindowConcat(w, [e], now);
    WindowIdempotent(s.history, now);
    assert Window([e], now) == [e];
    TotalConcat(w, [e]);
  }

  // ---------------------------------------------------------------------------
  // the watchdog object

  class Watchdog {
    var lastCheck: int
    var currentTPM: int
    var cooldownUntil: int
    var totalBlocked: int
    var history: seq<Entry>

    function State(): WatchState
      reads this
    {
      WatchState(lastCheck, currentTPM, cooldownUntil, totalBlocked, history)
    }

    /** `new TokenWatchdog()` when no state file exists. */
    constructor ()
      ensures State() == DefaultState
    {
      lastCheck := 0;
      currentTPM := 0;
      cooldownUntil := 0;
      totalBlocked := 0;
      history := [];
    }

    /** `estimateTokenUsage` */
    function EstimateTokenUsage(now: int): Usage
      reads this
    {
      Estimate(State(), now)
    }

    /** `checkBeforeRequest` */
    method CheckBeforeRequest(now: int) returns (d: Decision)
      modifies this
      ensures (State(), d) == Check(old(State()), now)
    {
      if now < cooldownUntil {
        return CooldownActive(CeilSeconds(cooldownUntil - now));
      }
      var usage := EstimateTokenUsage(now);
      if usage.current >= TpmThreshold {
        cooldownUntil := now + CooldownSeconds * 1000;
        totalBlocked := totalBlocked + 1;
        return ThresholdExceeded(usage.current, CooldownSeconds);
      }
      return Allowed(usage.current);
    }

    /** `recordRequest(tokens)` */
    method RecordRequest(now: int, tokens: int)
      modifies this
      ensures State() == Record(old(State()), now, tokens)
    {
      history := Window(history, now);
      history := history + [Entry(now, Some(tokens))];
      lastCheck := now;
    }

    /** `getStatus` */
    function GetStatus(now: int): Status
      reads this
    {
      StatusOf(State(), now)
    }
  }
}
