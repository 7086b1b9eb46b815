/**
 * timers.c: the timer service task, its two timer lists and its commands,
 * against a schedule in unbounded time.  A timer started at time C with period P
 * is due at C + P, C + 2P and so on.
 *
 * Callbacks are recorded and touch neither the lists nor the timers.  Sampling
 * the tick count is a parameter: the unbounded time of the sample.
 */
module Timers {
  import opened Ticks
  import opened Rings
  import opened Wrappers

  /** A call of a timer's callback: the expiry it is for, and the time it was made. */
  datatype Fire = Fire(due: nat, at: nat)

  datatype Placement = ProcessNow | InCurrent | InOverflow

  datatype Command = Start | Stop | ChangePeriod(period: Period) | Delete

  /** An entry of the timer queue: sent at `sent`, and processed when the time is `now`. */
  datatype Message = Message(command: Command, timer: Timer, sent: nat, now: nat)

  /** One turn of the daemon's loop: when it looks at the lists, and what the queue holds then. */
  datatype Round = Round(now: nat, messages: seq<Message>)

  /** The kernel refuses a period of zero. */
  type Period = p: Tick | p > 0 witness 1

  // ---- time -----------------------------------------------------------------------------

  /** The decision of prvInsertTimerInActiveList on tick values. */
  function Place(expiry: Tick, now: Tick, command: Tick, period: Period): Placement {
    if expiry <= now then
      if Sub(now, command) >= period then ProcessNow else InOverflow
    else
      if now < command && expiry >= command then ProcessNow else InCurrent
  }

  /**
   * The placement is exact across wrap-around: a timer started at C is processed at
   * once exactly when C + P has been reached, and goes to the list of its epoch.
   */
  lemma PlaceExact(C: nat, P: Period, N: nat)
    requires C <= N < C + TICK_MOD
    ensures var p := Place(Low(C + P), Low(N), Low(C), P);
            && (p.ProcessNow? <==> C + P <= N)
            && (p.InCurrent? <==> C + P > N && Epoch(C + P) == Epoch(N))
            && (p.InOverflow? <==> C + P > N && Epoch(C + P) == Epoch(N) + 1)
  {
  }

  /** The same as needed to file a timer. */
  lemma PlaceFiles(C: nat, P: Period, N: nat)
    requires C <= N < C + TICK_MOD
    ensures var p, v := Place(Low(C + P), Low(N), Low(C), P), Low(C + P);
            && Add(Low(C), P) == v
            && (p.ProcessNow? <==> C + P <= N)
            && (p.InCurrent? ==> C + P == Epoch(N) * TICK_MOD + v && N != EpochEnd(Epoch(N)))
            && (p.InOverflow? ==> C + P == (Epoch(N) + 1) * TICK_MOD + v)
            && (p.InCurrent? ==> Epoch(C + P) == Epoch(N))
            && (p.InOverflow? ==> Epoch(C + P) != Epoch(N))
  {
    AddAdvances(C, P);
    PlaceExact(C, P, N);
  }

  /** A command that waited for a whole turn of the counter or more may be judged wrongly. */
  lemma PlaceExactIff(C: nat, P: Period, N: nat)
    requires C <= N
    ensures (Place(Low(C + P), Low(N), Low(C), P).ProcessNow? <==> C + P <= N)
            <==>
            (N < C + TICK_MOD || P <= (N - C) % TICK_MOD)
  {
    var seen := C + (N - C) % TICK_MOD;
    assert Low(seen) == Low(N);
    PlaceExact(C, P, seen);
  }

  /** The last tick of epoch `e`. */
  function EpochEnd(e: nat): nat {
    (e + 1) * TICK_MOD - 1
  }

  /** How often a sample at `now` switches the lists after one at `last`. */
  function SwitchesBy(last: nat, now: nat): nat {
    if Low(now) < Low(last) then 1 else 0
  }

  /**
   * The lists are switched as often as a new epoch has begun if and only if less
   * than a full turn has passed: one sample in each epoch is not enough.
   */
  lemma SwitchSeenIff(last: nat, now: nat)
    requires last <= now
    ensures SwitchesBy(last, now) == Epoch(now) - Epoch(last) <==> now < last + TICK_MOD
  {
    EpochsApart(last, now);
  }

  lemma EpochsApart(last: nat, now: nat)
    requires last <= now
    ensures Epoch(last) <= Epoch(now)
    ensures now - last == (Epoch(now) - Epoch(last)) * TICK_MOD + Low(now) - Low(last)
  {
  }

  /** Two samples, each in an epoch of its own, between which the wrap goes unseen. */
  lemma WrapBetweenSamplesMissed()
    ensures var last, now := 5, TICK_MOD + 10;
            Epoch(now) == Epoch(last) + 1 && SwitchesBy(last, now) == 0
  {
  }

  /** A start that waited a turn and three ticks: its timer was due after ten, and is filed as if it were not. */
  lemma OldCommandMisjudged()
    ensures var C, P, N := 0, 10, TICK_MOD + 3;
            C + P <= N && Place(Low(C + P), Low(N), Low(C), P).InCurrent?
  {
  }

  /** Expiry k of a timer started at `start`. */
  function Expiry(start: nat, P: Period, k: nat): nat {
    if k == 0 then start else Expiry(start, P, k - 1) + P
  }

  lemma {:induction false} ExpiryShift(start: nat, P: Period, j: nat, k: nat)
    ensures Expiry(Expiry(start, P, j), P, k) == Expiry(start, P, j + k)
  {
    if k > 0 {
      ExpiryShift(start, P, j, k - 1);
    }
  }

  lemma {:induction false} ExpiryIs(start: nat, P: Period, k: nat)
    ensures Expiry(start, P, k) == start + k * P
  {
    if k > 0 {
      ExpiryIs(start, P, k - 1);
      assert k * P == (k - 1) * P + P;
    }
  }

  /** How many expiries of a timer due at E and every P after that lie at or before N. */
  function Backlog(E: nat, P: Period, N: nat): nat
    decreases if E <= N then N - E + 1 else 0
  {
    if E > N then 0 else 1 + Backlog(E + P, P, N)
  }

  /** The expiry after the backlog is the first beyond N. */
  lemma {:induction false} BacklogEnds(E: nat, P: Period, N: nat)
    requires E <= N
    ensures Backlog(E, P, N) > 0
    ensures Expiry(E, P, Backlog(E, P, N) - 1) <= N < Expiry(E, P, Backlog(E, P, N))
    decreases N - E
  {
    assert Expiry(E, P, 0) == E && Expiry(E, P, 1) == E + P;
    if E + P <= N {
      var n := Backlog(E + P, P, N);
      BacklogEnds(E + P, P, N);
      ExpiryShift(E, P, 1, n);
      ExpiryShift(E, P, 1, n - 1);
    }
  }

  /** The backlog is floor((N - E) / P) + 1. */
  lemma BacklogIs(E: nat, P: Period, N: nat)
    requires E <= N
    ensures Backlog(E, P, N) == (N - E) / P + 1
  {
    var n := Backlog(E, P, N);
    BacklogEnds(E, P, N);
    ExpiryIs(E, P, n - 1);
    ExpiryIs(E, P, n);
    QuotientIs(N - E, P, n - 1);
  }

  lemma QuotientIs(a: nat, P: nat, q: nat)
    requires P > 0 && q * P <= a < (q + 1) * P
    ensures a / P == q
  {
    var r := a / P;
    QuotientBounds(a, P);
    if r < q {
      Monotone(r + 1, q, P);
    } else if q < r {
      Monotone(q + 1, r, P);
    }
  }

  lemma QuotientBounds(a: nat, P: nat)
    requires P > 0
    ensures (a / P) * P <= a < (a / P + 1) * P
  {
  }

  lemma Monotone(a: nat, b: nat, P: nat)
    requires a <= b
    ensures a * P <= b * P
  {
  }

  /** Callback k since a start was for expiry k + 1, and not made before it. */
  ghost predicate OnTime(start: nat, P: Period, fires: seq<Fire>) {
    forall i :: 0 <= i < |fires| ==>
      fires[i].due == Expiry(start, P, i + 1) && fires[i].due <= fires[i].at
  }

  lemma {:induction false} ExpiryGrows(E: nat, P: Period, i: nat, j: nat)
    requires i <= j
    ensures Expiry(E, P, i) <= Expiry(E, P, j)
  {
    if i < j {
      ExpiryGrows(E, P, i, j - 1);
    }
  }

  /** Catching up keeps the account: the callbacks made are for the expiries that were next. */
  lemma StaysOnTime(start: nat, P: Period, fires: seq<Fire>, n: nat, at: nat)
    requires OnTime(start, P, fires)
    requires var E := Expiry(start, P, |fires| + 1); n > 0 && Expiry(E, P, n - 1) <= at
    ensures var E := Expiry(start, P, |fires| + 1);
            && OnTime(start, P, fires + Fires(E, P, n, at))
            && Expiry(E, P, n) == Expiry(start, P, |fires| + n + 1)
  {
    var E := Expiry(start, P, |fires| + 1);
    var more := Fires(E, P, n, at);
    forall i | 0 <= i < n
      ensures more[i].due == Expiry(start, P, |fires| + i + 1) && more[i].due <= at
    {
      ExpiryShift(start, P, |fires| + 1, i);
      ExpiryGrows(E, P, i, n - 1);
    }
    ExpiryShift(start, P, |fires| + 1, n);
  }

  /** A timer's schedule: when it was set going, what it has fired for since, and when it is due next. */
  datatype Account = Account(autoReload: bool, period: Period, active: bool, started: nat, fires: seq<Fire>, due: nat)

  /** While a timer is active its next expiry is the one after those it has fired for. */
  ghost predicate Kept(a: Account) {
    && OnTime(a.started, a.period, a.fires)
    && (a.active ==> a.due == Expiry(a.started, a.period, |a.fires| + 1))
    && (a.active && !a.autoReload ==> a.fires == [])
  }

  /** A timer that is due is processed as of time N: it fires for every expiry reached by then, or once. */
  ghost function Expired(a: Account, N: nat, at: nat): Account
  {
    var n := FireCount(a.autoReload, a.due, a.period, N);
    a.(fires := a.fires + Fires(a.due, a.period, n, at),
       active := a.autoReload,
       due := if a.autoReload then Expiry(a.due, a.period, n) else a.due)
  }

  /** Processing a timer that is due keeps its account, and its next expiry is the first beyond N. */
  lemma ExpiredKeepsAccount(a: Account, N: nat, at: nat)
    requires Kept(a) && a.active && a.due <= N <= at
    ensures var b := Expired(a, N, at);
            Kept(b) && |b.fires| > |a.fires| && (b.active ==> b.due > N)
  {
    BacklogEnds(a.due, a.period, N);
    StaysOnTime(a.started, a.period, a.fires, FireCount(a.autoReload, a.due, a.period, N), at);
  }

  /** An active timer is due no later than one period after the last sample. */
  ghost predicate Near(a: Account, N: nat) {
    a.active ==> a.due <= N + a.period
  }

  /** What holds of every timer as of the last sample, at N. */
  ghost predicate OnSchedule(a: Account, N: nat) {
    Kept(a) && Near(a, N)
  }

  lemma ExpiredIsNear(a: Account, N: nat, at: nat)
    requires a.due <= N
    ensures Near(Expired(a, N, at), N)
  {
    BacklogEnds(a.due, a.period, N);
  }

  /** The same in the order of the code: the reload loop first, then one more callback. */
  lemma ExpiredInSteps(a: Account, N: nat, at: nat)
    requires a.due <= N
    ensures var n := FireCount(a.autoReload, a.due, a.period, N);
            var r := Reload(a.due, a.period, N, at, []);
            var last := Fire(Expiry(a.due, a.period, n - 1), at);
            && n > 0
            && Expired(a, N, at) ==
                 if a.autoReload then a.(fires := a.fires + r.made + [last], active := true, due := r.due)
                 else a.(fires := a.fires + [last], active := false)
  {
    var n := FireCount(a.autoReload, a.due, a.period, N);
    BacklogEnds(a.due, a.period, N);
    assert Fires(a.due, a.period, 0, at) == [];
    ReloadIs(a.due, a.period, N, at, 0, a.due);
    var last := Fire(Expiry(a.due, a.period, n - 1), at);
    assert Fires(a.due, a.period, n, at) == Fires(a.due, a.period, n - 1, at) + [last];
    assert a.fires + Fires(a.due, a.period, n, at) == a.fires + Fires(a.due, a.period, n - 1, at) + [last];
  }

  /** A timer set going at time C. */
  ghost function SetGoingAt(a: Account, C: nat): Account {
    a.(active := true, started := C, fires := [], due := C + a.period)
  }

  /** A timer started at time C by a command that is processed at N. */
  ghost function Started(a: Account, C: nat, N: nat): Account {
    var b := SetGoingAt(a, C);
    if b.due <= N then Expired(b, N, N) else b
  }

  lemma StartedKeepsAccount(a: Account, C: nat, N: nat)
    ensures Kept(SetGoingAt(a, C)) && Kept(Started(a, C, N))
    ensures C <= N ==> Near(SetGoingAt(a, C), N) && Near(Started(a, C, N), N)
  {
    assert Expiry(C, a.period, 1) == C + a.period;
    if C + a.period <= N {
      ExpiredKeepsAccount(SetGoingAt(a, C), N, N);
      ExpiredIsNear(SetGoingAt(a, C), N, N);
    }
  }

  /** What a command does to the account of its timer. */
  ghost function Commanded(a: Account, m: Message): Account {
    match m.command
    case Start => Started(a, m.sent, m.now)
    case Stop => a.(active := false)
    case ChangePeriod(period) => SetGoingAt(a.(period := period), m.now)
    case Delete => a.(active := false)
  }

  // ---- the books ----------------------------------------------------------------------------

  /** The accounts of all timers, as of the last sample: the timer service in unbounded time. */
  datatype Books = Books(sampled: nat, accounts: map<Timer, Account>)

  /** A sample at N in a new epoch processes a timer still due in the old one, as of the end of that. */
  ghost function Switched(a: Account, last: nat, N: nat): Account {
    if a.active && Epoch(a.due) == Epoch(last) && Epoch(N) != Epoch(last)
    then Expired(a, EpochEnd(Epoch(last)), N) else a
  }

  /** A sample, with the timers in `off` on no list. */
  ghost function SampledAt(b: Books, N: nat, off: set<Timer>): Books {
    Books(N, map t | t in b.accounts :: if t in off then b.accounts[t] else Switched(b.accounts[t], b.sampled, N))
  }

  /** A command is carried out; deleting a dynamic timer frees it. */
  ghost function Executed(b: Books, m: Message): Books {
    if m.timer !in b.accounts then b
    else if m.command.Delete? && !m.timer.isStatic then Books(b.sampled, b.accounts - {m.timer})
    else Books(b.sampled, b.accounts[m.timer := Commanded(b.accounts[m.timer], m)])
  }

  /** A command is obeyed: the time is sampled while its timer is on no list, and then it is carried out. */
  ghost function Obeyed(b: Books, m: Message): Books {
    Executed(SampledAt(b, m.now, {m.timer}), m)
  }

  ghost function ObeyedAll(b: Books, messages: seq<Message>): Books {
    if messages == [] then b
    else Obeyed(ObeyedAll(b, messages[..|messages| - 1]), messages[|messages| - 1])
  }

  /** The daemon looks at the lists at N: a new epoch, or the head of the current list if it is due. */
  ghost function Looked(b: Books, head: Option<Timer>, N: nat): Books {
    if Epoch(N) != Epoch(b.sampled) then SampledAt(b, N, {})
    else if head.Some? && head.value in b.accounts && b.accounts[head.value].due <= N
    then Books(N, b.accounts[head.value := Expired(b.accounts[head.value], N, N)])
    else Books(N, b.accounts)
  }

  lemma LookedAfterSample(b: Books, head: Option<Timer>, N: nat)
    ensures var s := SampledAt(b, N, {});
            && (Epoch(N) != Epoch(b.sampled) ==> Looked(b, head, N) == s)
            && (Epoch(N) == Epoch(b.sampled) ==> Looked(b, head, N) == Looked(s, head, N))
            && Looked(s, None, N) == s
  {
    var s := SampledAt(b, N, {});
    if Epoch(N) == Epoch(b.sampled) {
      assert s.accounts == b.accounts;
    }
  }

  /** One turn of the daemon's loop. */
  ghost function Turn(b: Books, head: Option<Timer>, r: Round): Books {
    ObeyedAll(Looked(b, head, r.now), r.messages)
  }

  /** When it looks at N the lists are not switched, and the head is not due. */
  ghost predicate Blocks(b: Books, head: Option<Timer>, N: nat) {
    && Low(N) >= Low(b.sampled)
    && (head.Some? && head.value in b.accounts ==> b.accounts[head.value].due > N)
  }

  /** The head of the current list: an active timer due first, if any is due in this epoch. */
  ghost predicate IsHead(b: Books, head: Option<Timer>) {
    match head
    case None => forall t :: t in b.accounts && b.accounts[t].active ==> Epoch(b.accounts[t].due) > Epoch(b.sampled)
    case Some(h) =>
      && h in b.accounts && b.accounts[h].active && Epoch(b.accounts[h].due) == Epoch(b.sampled)
      && forall t :: t in b.accounts && b.accounts[t].active ==> b.accounts[h].due <= b.accounts[t].due
  }

  /** The time may be sampled at N: less than a full turn later, or while no timer is active. */
  ghost predicate MaySample(b: Books, N: nat) {
    b.sampled <= N
    && (N < b.sampled + TICK_MOD || forall t :: t in b.accounts ==> !b.accounts[t].active)
  }

  /** No active timer has reached its next expiry. */
  ghost predicate NoneDue(b: Books) {
    forall t :: t in b.accounts && b.accounts[t].active ==> b.accounts[t].due > b.sampled
  }

  /** A command for a timer there is, less than a full turn old. */
  ghost predicate MayObey(b: Books, m: Message) {
    m.timer in b.accounts && MaySample(b, m.now) && m.sent <= m.now < m.sent + TICK_MOD
  }

  ghost predicate MayObeyAll(b: Books, messages: seq<Message>) {
    forall i :: 0 <= i < |messages| ==> MayObey(ObeyedAll(b, messages[..i]), messages[i])
  }

  lemma ObeyedNext(b: Books, messages: seq<Message>, i: nat)
    requires i < |messages| && MayObeyAll(b, messages)
    ensures MayObey(ObeyedAll(b, messages[..i]), messages[i])
    ensures ObeyedAll(b, messages[..i + 1]) == Obeyed(ObeyedAll(b, messages[..i]), messages[i])
  {
    assert messages[..i + 1][..i] == messages[..i];
  }

  ghost predicate MayTurn(b: Books, head: Option<Timer>, r: Round) {
    MaySample(b, r.now) && MayObeyAll(Looked(b, head, r.now), r.messages)
  }

  /** The daemon's loop, when these timers are the heads it finds. */
  ghost function RunOf(b: Books, heads: seq<Option<Timer>>, rounds: seq<Round>): Books
    requires |heads| == |rounds|
    decreases |rounds|
  {
    if rounds == [] then b
    else
      var n := |rounds| - 1;
      Turn(RunOf(b, heads[..n], rounds[..n]), heads[n], rounds[n])
  }

  /** Each of the heads is one the daemon may find, and each turn is one it may take. */
  ghost predicate Served(b: Books, heads: seq<Option<Timer>>, rounds: seq<Round>)
    requires |heads| == |rounds|
    decreases |rounds|
  {
    rounds == [] ||
      var n := |rounds| - 1;
      var c := RunOf(b, heads[..n], rounds[..n]);
      Served(b, heads[..n], rounds[..n]) && IsHead(c, heads[n]) && MayTurn(c, heads[n], rounds[n])
  }

  /** The rounds are timely, whichever of the timers due first is the head. */
  ghost predicate MayRun(b: Books, rounds: seq<Round>)
    decreases |rounds|
  {
    rounds == [] || (
      && (IsHead(b, None) ==> MayTurn(b, None, rounds[0]) && MayRun(Turn(b, None, rounds[0]), rounds[1..]))
      && forall t :: t in b.accounts && IsHead(b, Some(t)) ==>
           MayTurn(b, Some(t), rounds[0]) && MayRun(Turn(b, Some(t), rounds[0]), rounds[1..]))
  }

  lemma ServedNext(b: Books, heads: seq<Option<Timer>>, rounds: seq<Round>, i: nat, head: Option<Timer>)
    requires i < |rounds| && |heads| == i && Served(b, heads, rounds[..i])
    requires var c := RunOf(b, heads, rounds[..i]); IsHead(c, head) && MayRun(c, rounds[i..])
    ensures MayTurn(RunOf(b, heads, rounds[..i]), head, rounds[i])
    ensures Served(b, heads + [head], rounds[..i + 1])
    ensures var d := RunOf(b, heads + [head], rounds[..i + 1]);
            && d == Turn(RunOf(b, heads, rounds[..i]), head, rounds[i])
            && MayRun(d, rounds[i + 1..])
  {
    assert rounds[..i + 1][..i] == rounds[..i] && (heads + [head])[..i] == heads;
    assert rounds[i..][1..] == rounds[i + 1..];
  }

  ghost predicate AllOnSchedule(b: Books) {
    forall t :: t in b.accounts ==> OnSchedule(b.accounts[t], b.sampled)
  }

  lemma SwitchedOnSchedule(a: Account, last: nat, N: nat)
    requires OnSchedule(a, last) && last <= N
    ensures OnSchedule(Switched(a, last, N), N)
  {
    EpochsApart(last, N);
    if Switched(a, last, N) != a {
      var end := EpochEnd(Epoch(last));
      assert a.due <= end <= N;
      ExpiredKeepsAccount(a, end, N);
      ExpiredIsNear(a, end, N);
    }
  }

  lemma SampledOnSchedule(b: Books, N: nat, off: set<Timer>)
    requires AllOnSchedule(b) && b.sampled <= N
    ensures AllOnSchedule(SampledAt(b, N, off))
  {
    forall t | t in b.accounts
      ensures OnSchedule(SampledAt(b, N, off).accounts[t], N)
    {
      SwitchedOnSchedule(b.accounts[t], b.sampled, N);
    }
  }

  lemma LookedOnSchedule(b: Books, head: Option<Timer>, N: nat)
    requires AllOnSchedule(b) && b.sampled <= N && IsHead(b, head)
    ensures AllOnSchedule(Looked(b, head, N))
  {
    SampledOnSchedule(b, N, {});
    if head.Some? && b.accounts[head.value].due <= N {
      ExpiredKeepsAccount(b.accounts[head.value], N, N);
      ExpiredIsNear(b.accounts[head.value], N, N);
    }
  }

  lemma CommandedOnSchedule(a: Account, m: Message)
    requires OnSchedule(a, m.now) && m.sent <= m.now
    ensures OnSchedule(Commanded(a, m), m.now)
  {
    StartedKeepsAccount(a, m.sent, m.now);
    if m.command.ChangePeriod? {
      StartedKeepsAccount(a.(period := m.command.period), m.now, m.now);
    }
  }

  lemma ObeyedOnSchedule(b: Books, m: Message)
    requires AllOnSchedule(b) && MayObey(b, m)
    ensures AllOnSchedule(Obeyed(b, m))
  {
    SampledOnSchedule(b, m.now, {m.timer});
    CommandedOnSchedule(SampledAt(b, m.now, {m.timer}).accounts[m.timer], m);
  }

  lemma {:induction false} ObeyedAllOnSchedule(b: Books, messages: seq<Message>)
    requires AllOnSchedule(b) && MayObeyAll(b, messages)
    ensures AllOnSchedule(ObeyedAll(b, messages))
    decreases |messages|
  {
    if messages != [] {
      var n := |messages| - 1;
      assert forall i {:trigger messages[..i]} :: 0 <= i < n ==> messages[..n][..i] == messages[..i];
      ObeyedAllOnSchedule(b, messages[..n]);
      ObeyedOnSchedule(ObeyedAll(b, messages[..n]), messages[n]);
    }
  }

  /** Over every run of the daemon every timer stays on its schedule: no expiry is skipped and no callback is early. */
  lemma {:induction false} RunOnSchedule(b: Books, heads: seq<Option<Timer>>, rounds: seq<Round>)
    requires AllOnSchedule(b) && |heads| == |rounds| && Served(b, heads, rounds)
    ensures AllOnSchedule(RunOf(b, heads, rounds))
    decreases |rounds|
  {
    if rounds != [] {
      var n := |rounds| - 1;
      var c := RunOf(b, heads[..n], rounds[..n]);
      RunOnSchedule(b, heads[..n], rounds[..n]);
      LookedOnSchedule(c, heads[n], rounds[n].now);
      ObeyedAllOnSchedule(Looked(c, heads[n], rounds[n].now), rounds[n].messages);
    }
  }

  /** When the daemon blocks, no active timer is due. */
  lemma BlockedNoneDue(b: Books, head: Option<Timer>, N: nat)
    requires IsHead(b, head) && MaySample(b, N) && Blocks(b, head, N)
    ensures NoneDue(Looked(b, head, N))
  {
    if exists t :: t in b.accounts && b.accounts[t].active {
      EpochsApart(b.sampled, N);
      assert Epoch(N) == Epoch(b.sampled);
    } else {
      var c := Looked(b, head, N);
      assert forall t :: t in c.accounts ==> c.accounts[t] == b.accounts[t];
    }
  }

  /** The expiry that callback k of a timer is for. */
  ghost function DueFor(a: Account, k: nat): nat {
    Expiry(a.started, a.period, k + 1)
  }

  /** A timer has fired once for every expiry of its schedule that has been reached. */
  ghost predicate HasFiredFor(a: Account, N: nat) {
    forall k: nat :: DueFor(a, k) <= N ==> k < |a.fires| && a.fires[k].due == DueFor(a, k)
  }

  lemma NotDueHasFired(a: Account, N: nat)
    requires Kept(a) && a.active && a.due > N
    ensures HasFiredFor(a, N)
  {
    forall k: nat | DueFor(a, k) <= N
      ensures k < |a.fires|
    {
      if k >= |a.fires| {
        ExpiryGrows(a.started, a.period, |a.fires| + 1, k + 1);
      }
    }
  }

  /**
   * In any run of the daemon, whenever it blocks every active timer has fired
   * exactly once for each expiry reached since it was set going.
   */
  lemma BlocksOnlyWhenAllFired(b: Books, heads: seq<Option<Timer>>, rounds: seq<Round>,
                               head: Option<Timer>, N: nat)
    requires AllOnSchedule(b) && |heads| == |rounds| && Served(b, heads, rounds)
    requires var c := RunOf(b, heads, rounds); IsHead(c, head) && MaySample(c, N) && Blocks(c, head, N)
    ensures var c := Looked(RunOf(b, heads, rounds), head, N);
            forall t :: t in c.accounts && c.accounts[t].active ==> HasFiredFor(c.accounts[t], N)
  {
    var c := RunOf(b, heads, rounds);
    RunOnSchedule(b, heads, rounds);
    LookedOnSchedule(c, head, N);
    BlockedNoneDue(c, head, N);
    var d := Looked(c, head, N);
    forall t | t in d.accounts && d.accounts[t].active
      ensures HasFiredFor(d.accounts[t], N)
    {
      NotDueHasFired(d.accounts[t], N);
    }
  }

  // ---- timers -----------------------------------------------------------------------------

  class Timer {
    const autoReload: bool
    const isStatic: bool
    var period: Period
    var active: bool
    // Value of the timer's list item.
    var value: Tick
    // The next expiry, the time of the command that set it going, and its callbacks since then.
    ghost var due: nat
    ghost var started: nat
    ghost var fires: seq<Fire>

    constructor (autoReload: bool, isStatic: bool, period: Period)
      ensures this.autoReload == autoReload && this.isStatic == isStatic && this.period == period
      ensures !active && fires == []
    {
      this.autoReload := autoReload;
      this.isStatic := isStatic;
      this.period := period;
      active := false;
      value := 0;
      fires := [];
    }

    ghost function Ledger(): Account
      reads this
    {
      Account(autoReload, period, active, started, fires, due)
    }
  }

  /** The callbacks for `n` expiries from `E` on, all made at time `at`. */
  ghost function Fires(E: nat, P: Period, n: nat, at: nat): seq<Fire> {
    seq(n, i requires i >= 0 => Fire(Expiry(E, P, i), at))
  }

  datatype Reloaded = Reloaded(made: seq<Fire>, due: nat)

  /** The reload loop from expiry `e` on: the callbacks made besides `made`, and the next expiry. */
  ghost function Reload(e: nat, P: Period, N: nat, at: nat, made: seq<Fire>): Reloaded
    decreases if e <= N then N - e + 1 else 0
  {
    if e + P > N then Reloaded(made, e + P) else Reload(e + P, P, N, at, made + [Fire(e, at)])
  }

  lemma {:induction false} ReloadIs(E: nat, P: Period, N: nat, at: nat, k: nat, e: nat)
    requires e <= N && e == Expiry(E, P, k) && Backlog(E, P, N) == k + Backlog(e, P, N)
    ensures var n := Backlog(E, P, N);
            n > 0 && Reload(e, P, N, at, Fires(E, P, k, at)) == Reloaded(Fires(E, P, n - 1, at), Expiry(E, P, n))
    decreases N - e
  {
    if e + P > N {
      assert Backlog(e + P, P, N) == 0;
    } else {
      assert Fires(E, P, k + 1, at) == Fires(E, P, k, at) + [Fire(e, at)];
      ReloadIs(E, P, N, at, k + 1, e + P);
    }
  }

  /** How often a timer due at `E` fires when it is processed at `N`. */
  ghost function FireCount(autoReload: bool, E: nat, P: Period, N: nat): nat
  {
    if autoReload then Backlog(E, P, N) else 1
  }

  function Values(list: seq<Timer>): (v: seq<Tick>)
    reads list
    ensures |v| == |list|
  {
    seq(|list|, i requires 0 <= i < |list| reads list => list[i].value)
  }

  /** vListInsert. */
  function Inserted(list: seq<Timer>, t: Timer): seq<Timer>
    reads list, t
  {
    var k := InsertPosition(Values(list), t.value);
    list[..k] + [t] + list[k..]
  }

  lemma InsertedFacts(list: seq<Timer>, t: Timer)
    requires Distinct(list) && t !in list && Sorted(Values(list))
    ensures var s := Inserted(list, t);
            && Distinct(s) && Sorted(Values(s))
            && (forall u :: u in s <==> u in list || u == t)
  {
    var k := InsertPosition(Values(list), t.value);
    var s := Inserted(list, t);
    InsertKeepsSorted(Values(list), t.value);
    assert Values(s) == Values(list)[..k] + [t.value] + Values(list)[k..];
  }

  lemma RemovedStaysSorted(list: seq<Timer>, t: Timer)
    requires Distinct(list) && Sorted(Values(list))
    ensures Sorted(Values(Removed(list, t)))
  {
    if t !in list {
      NothingRemoved(list, t);
    } else {
      var k :| 0 <= k < |list| && list[k] == t;
      RemovedAt(list, k);
      RemovedIsSorted(Values(list), k, Values(Removed(list, t)));
    }
  }

  lemma UnlistedFacts(list: seq<Timer>, t: Timer)
    requires Distinct(list) && Sorted(Values(list))
    ensures var s := Removed(list, t);
            && Distinct(s) && Sorted(Values(s))
            && (forall u :: u in s <==> u in list && u != t)
  {
    RemovedFacts(list, t);
    RemovedStaysSorted(list, t);
  }

  class TimerService {
    var current: seq<Timer>
    var overflow: seq<Timer>
    var lastTime: Tick
    ghost var timers: set<Timer>
    // The epoch the current list is for, and the time of the last sample.
    ghost var epoch: nat
    ghost var sampled: nat

    constructor ()
      ensures Valid({}) && timers == {}
    {
      current, overflow, lastTime := [], [], 0;
      timers, epoch, sampled := {}, 0, 0;
    }

    /** A new timer is in no list until it is started. */
    method CreateTimer(autoReload: bool, isStatic: bool, period: Period) returns (t: Timer)
      requires Valid({})
      modifies this`timers
      ensures Valid({}) && fresh(t) && timers == old(timers) + {t}
      ensures t.autoReload == autoReload && t.isStatic == isStatic && t.period == period && !t.active
      ensures State() == Books(old(sampled), old(State()).accounts[t := t.Ledger()])
    {
      t := new Timer(autoReload, isStatic, period);
      AddTimer(t);
    }

    method AddTimer(t: Timer)
      requires Valid({}) && t !in timers && !t.active && t.fires == []
      modifies this`timers
      ensures Valid({}) && timers == old(timers) + {t}
      ensures State() == Books(sampled, old(State()).accounts[t := t.Ledger()])
    {
      timers := timers + {t};
    }

    /** A list of active timers, sorted, all due in epoch `e`. */
    ghost predicate Listed(list: seq<Timer>, e: nat)
      reads this, timers, list
    {
      && Distinct(list)
      && (forall t :: t in list ==> t in timers && t.active && t.due == e * TICK_MOD + t.value)
      && Sorted(Values(list))
    }

    /** Every active timer is in exactly one list, except the ones in `free`, which are in none. */
    ghost predicate Lists(free: set<Timer>)
      reads this, timers, current, overflow
    {
      && Listed(current, epoch) && Listed(overflow, epoch + 1)
      && (forall t :: t in current ==> t !in overflow && t !in free)
      && (forall t :: t in overflow ==> t !in free)
      && (forall t :: t in timers && t.active && t !in free ==> t in current || t in overflow)
    }

    ghost predicate Valid(free: set<Timer>)
      reads this, timers, current, overflow
    {
      && Lists(free)
      && epoch == Epoch(sampled) && lastTime == Low(sampled)
      && (forall t :: t in timers ==> OnSchedule(t.Ledger(), sampled))
    }

    ghost function State(): Books
      reads this`timers, this`sampled, timers
    {
      Books(sampled, map t | t in timers :: t.Ledger())
    }

    ghost function Head(): Option<Timer>
      reads this`current
    {
      if current == [] then None else Some(current[0])
    }

    /** `N` is the last tick of the epoch the current list is for. */
    ghost predicate EpochEnds(N: nat)
      reads this`epoch
    {
      N == EpochEnd(epoch)
    }

    method SetExpiry(t: Timer, expiry: Tick, ghost due: nat, ghost free: set<Timer>)
      requires t in free && Lists(free)
      modifies t`value, t`due
      ensures t.value == expiry && t.due == due
      ensures Lists(free)
    {
      assert t !in current && t !in overflow;
      t.value := expiry;
      t.due := due;
      assert Values(current) == old(Values(current)) && Values(overflow) == old(Values(overflow));
    }

    method InsertInCurrent(t: Timer, ghost free: set<Timer>)
      requires t in free && t in timers && t.active && Lists(free)
      requires t.due == epoch * TICK_MOD + t.value
      modifies this`current
      ensures current == Inserted(old(current), t)
      ensures Lists(free - {t})
    {
      InsertedFacts(current, t);
      current := Inserted(current, t);
    }

    method InsertInOverflow(t: Timer, ghost free: set<Timer>)
      requires t in free && t in timers && t.active && Lists(free)
      requires t.due == (epoch + 1) * TICK_MOD + t.value
      modifies this`overflow
      ensures overflow == Inserted(old(overflow), t)
      ensures Lists(free - {t})
    {
      InsertedFacts(overflow, t);
      overflow := Inserted(overflow, t);
    }

    method InsertTimerInActiveList(t: Timer, expiry: Tick, now: Tick, command: Tick,
                                   ghost C: nat, ghost N: nat, ghost free: set<Timer>)
      returns (processNow: bool)
      requires t in free && t in timers && t.active && Lists(free)
      requires C <= N < C + TICK_MOD && Epoch(N) == epoch
      requires expiry == Add(command, t.period) && now == Low(N) && command == Low(C)
      modifies this`current, this`overflow, t`value, t`due
      ensures t.due == C + t.period && t.value == expiry
      ensures processNow <==> t.due <= N
      ensures Lists(if processNow then free else free - {t})
      ensures current == if !processNow && Epoch(t.due) == epoch then Inserted(old(current), t) else old(current)
      ensures overflow == if !processNow && Epoch(t.due) != epoch then Inserted(old(overflow), t) else old(overflow)
      ensures processNow || EpochEnds(N) ==> current == old(current)
    {
      PlaceFiles(C, t.period, N);
      SetExpiry(t, expiry, C + t.period, free);
      processNow := false;
      if expiry <= now {
        if Sub(now, command) >= t.period {
          processNow := true;
        } else {
          InsertInOverflow(t, free);
        }
      } else {
        if now < command && expiry >= command {
          processNow := true;
        } else {
          InsertInCurrent(t, free);
        }
      }
    }

    /** The callback, recorded with the expiry it is for. */
    method Callback(t: Timer, ghost due: nat, ghost at: nat, ghost free: set<Timer>)
      requires Lists(free)
      modifies t`fires
      ensures t.fires == old(t.fires) + [Fire(due, at)]
      ensures Lists(free)
    {
      t.fires := t.fires + [Fire(due, at)];
      assert Values(current) == old(Values(current)) && Values(overflow) == old(Values(overflow));
    }

    /** One turn of the loop in prvReloadTimer: the callback for expiry `e`, and the next expiry entered. */
    method ReloadOnce(t: Timer, expired: Tick, now: Tick,
                      ghost e: nat, ghost N: nat, ghost at: nat, ghost free: set<Timer>)
      returns (expiredTime: Tick, processNow: bool)
      requires t in free && t in timers && t.active && Lists(free)
      requires e + t.period <= N < e + TICK_MOD && Epoch(N) == epoch
      requires expired == Low(e) && now == Low(N)
      modifies this`current, this`overflow, t`value, t`due, t`fires
      ensures expiredTime == Low(e + t.period)
      ensures t.due == (e + t.period) + t.period
      ensures processNow <==> (e + t.period) + t.period <= N
      ensures Lists(if processNow then free else free - {t})
      ensures t.fires == old(t.fires) + [Fire(e, at)]
      ensures processNow || EpochEnds(N) ==> current == old(current)
    {
      AddAdvances(e, t.period);
      expiredTime := Add(expired, t.period);
      Callback(t, e, at, free);
      processNow := InsertTimerInActiveList(t, Add(expiredTime, t.period), now, expiredTime, e + t.period, N, free);
    }

    /**
     * prvReloadTimer: one callback for every expiry from E on that is not the last
     * one reached by N; the caller makes that last one.
     */
    method ReloadTimer(t: Timer, expired: Tick, now: Tick,
                       ghost E: nat, ghost N: nat, ghost at: nat, ghost free: set<Timer>)
      requires t in free && t in timers && t.active && Lists(free)
      requires E <= N < E + TICK_MOD && Epoch(N) == epoch
      requires expired == Low(E) && now == Low(N)
      modifies this`current, this`overflow, t`value, t`due, t`fires
      ensures Lists(free - {t})
      ensures var r := Reload(E, t.period, N, at, []);
              t.due == r.due && t.fires == old(t.fires) + r.made
      ensures t.due > N
      ensures EpochEnds(N) ==> current == old(current)
    {
      var expiredTime := expired;
      ghost var e: nat, P: Period, made: seq<Fire> := E, t.period, [];
      ghost var all := Reload(E, P, N, at, []);
      var processNow := InsertTimerInActiveList(t, Add(expiredTime, t.period), now, expiredTime, e, N, free);
      while processNow
        invariant E <= e <= N && expiredTime == Low(e)
        invariant Reload(e, P, N, at, made) == all
        invariant t.due == e + P
        invariant processNow <==> e + P <= N
        invariant Lists(if processNow then free else free - {t})
        invariant t.fires == old(t.fires) + made
        invariant processNow || EpochEnds(N) ==> current == old(current)
        decreases N - e
      {
        expiredTime, processNow := ReloadOnce(t, expiredTime, now, e, N, at, free);
        assert t.fires == old(t.fires) + (made + [Fire(e, at)]);
        e, made := e + P, made + [Fire(e, at)];
      }
    }

    method RemoveHead(ghost free: set<Timer>) returns (t: Timer)
      requires current != [] && Lists(free)
      modifies this`current
      ensures t == old(current[0]) && current == old(current[1..])
      ensures t !in free && Lists(free + {t})
    {
      t := current[0];
      assert Values(current[1..]) == Values(current)[1..];
      current := current[1..];
    }

    method Deactivate(t: Timer, ghost free: set<Timer>)
      requires t in free && Lists(free)
      modifies t`active
      ensures !t.active && Lists(free - {t})
    {
      t.active := false;
      assert Values(current) == old(Values(current)) && Values(overflow) == old(Values(overflow));
    }

    /** An expired timer, off its list, is reloaded or becomes inactive, and its callback is made. */
    method Expire(t: Timer, expired: Tick, now: Tick,
                  ghost E: nat, ghost N: nat, ghost at: nat, ghost free: set<Timer>)
      requires t in free && t in timers && t.active && t.due == E && Kept(t.Ledger()) && Lists(free)
      requires E <= N <= at && N < E + TICK_MOD && Epoch(N) == epoch
      requires expired == Low(E) && now == Low(N)
      modifies this`current, this`overflow, t
      ensures Lists(free - {t})
      ensures OnSchedule(t.Ledger(), at) && t.Ledger() == Expired(old(t.Ledger()), N, at)
      ensures t.active ==> t.due > N
      ensures EpochEnds(N) ==> current == old(current)
    {
      ghost var n := FireCount(t.autoReload, E, t.period, N);
      ExpiredInSteps(t.Ledger(), N, at);
      ExpiredKeepsAccount(t.Ledger(), N, at);
      ExpiredIsNear(t.Ledger(), N, at);
      if t.autoReload {
        ReloadTimer(t, expired, now, E, N, at, free);
      } else {
        Deactivate(t, free);
      }
      Callback(t, Expiry(E, t.period, n - 1), at, free - {t});
    }

    /**
     * prvProcessExpiredTimer: the timer at the head of the current list fires once
     * for every expiry reached by N, or once if it is a one-shot timer.
     */
    method ProcessExpiredTimer(nextExpireTime: Tick, now: Tick,
                               ghost N: nat, ghost at: nat, ghost free: set<Timer>)
      requires current != [] && Lists(free) && Kept(current[0].Ledger())
      requires nextExpireTime == current[0].value && now == Low(N)
      requires current[0].due <= N <= at && Epoch(N) == epoch
      modifies this`current, this`overflow, current[0]
      ensures Lists(free)
      ensures var t := old(current[0]);
              && OnSchedule(t.Ledger(), at) && t.Ledger() == Expired(old(t.Ledger()), N, at)
              && (t.active ==> t.due > N)
      ensures EpochEnds(N) ==> current == old(current[1..])
    {
      var t := RemoveHead(free);
      Expire(t, nextExpireTime, now, t.due, N, at, free + {t});
      assert free + {t} - {t} == free;
    }

    /**
     * prvSwitchTimerLists: every timer left in the current list has expired, and is
     * processed as of the end of the epoch; no other timer is touched.
     */
    method SwitchTimerLists(ghost at: nat, ghost free: set<Timer>)
      requires Lists(free) && EpochEnd(epoch) < at
      requires forall t :: t in timers ==> OnSchedule(t.Ledger(), at)
      modifies this`current, this`overflow, this`epoch, timers
      ensures epoch == old(epoch) + 1 && Lists(free)
      ensures forall t :: t in timers ==> OnSchedule(t.Ledger(), at)
      ensures forall t :: t in timers ==>
                t.Ledger() == if t in old(current) then Expired(old(t.Ledger()), EpochEnd(old(epoch)), at)
                               else old(t.Ledger())
      ensures old(current) == [] ==> current == old(overflow) && overflow == []
    {
      ghost var end, list := EpochEnd(epoch), current;
      while current != []
        invariant epoch == old(epoch) && Lists(free)
        invariant forall t :: t in current ==> t in list
        invariant forall t :: t in timers ==> OnSchedule(t.Ledger(), at)
        invariant forall t :: t in timers ==>
                    t.Ledger() == if t in list && t !in current then Expired(old(t.Ledger()), end, at)
                                  else old(t.Ledger())
        invariant list == [] ==> overflow == old(overflow)
        decreases |current|
      {
        ghost var t, rest := current[0], current[1..];
        assert current == [t] + rest && t !in rest;
        ProcessExpiredTimer(current[0].value, MAX_DELAY, end, at, free);
        assert current == rest;
      }
      SwapLists(free);
    }

    method SwapLists(ghost free: set<Timer>)
      requires Lists(free) && current == []
      modifies this`current, this`overflow, this`epoch
      ensures epoch == old(epoch) + 1 && Lists(free)
      ensures current == old(overflow) && overflow == []
    {
      current, overflow := overflow, current;
      epoch := epoch + 1;
    }

    method SampleLists(tick: Tick, ghost N: nat, ghost free: set<Timer>) returns (switched: bool)
      requires Valid(free) && tick == Low(N) && MaySample(State(), N)
      modifies this`current, this`overflow, this`epoch, this`sampled, this`lastTime, timers
      ensures Valid(free) && sampled == N
      ensures switched <==> Low(N) < Low(old(sampled))
      ensures switched ==> Epoch(N) != Epoch(old(sampled))
      ensures !switched ==> Epoch(N) == Epoch(old(sampled)) || (current == [] && overflow == [])
      ensures forall t :: t in timers ==>
                t.Ledger() == if t in free then old(t.Ledger()) else Switched(old(t.Ledger()), old(sampled), N)
      ensures !switched ==> current == old(current) && overflow == old(overflow)
      ensures !switched ==> forall t :: t in timers ==> t.value == old(t.value)
    {
      SwitchSeenIff(sampled, N);
      EpochsApart(sampled, N);
      FiledByEpoch(this, free);
      ListedAreActive(this, free);
      switched := tick < lastTime;
      if switched {
        SwitchTimerLists(N, free);
      }
      SetLastTime(tick, N, free);
    }

    /**
     * prvSampleTimeNow, for a sample taken less than a full turn of the counter
     * after the last one, or while no timer is listed.
     */
    method SampleTimeNow(tick: Tick, ghost N: nat, ghost free: set<Timer>) returns (now: Tick, switched: bool)
      requires Valid(free) && tick == Low(N) && MaySample(State(), N)
      modifies this`current, this`overflow, this`epoch, this`sampled, this`lastTime, timers
      ensures Valid(free) && sampled == N && now == tick
      ensures State() == SampledAt(old(State()), N, free)
      ensures switched <==> Low(N) < Low(old(sampled))
      ensures !switched ==> Epoch(N) == Epoch(old(sampled)) || (current == [] && overflow == [])
      ensures !switched ==> current == old(current) && overflow == old(overflow)
      ensures !switched ==> forall t :: t in timers ==> t.value == old(t.value)
    {
      now := tick;
      switched := SampleLists(tick, N, free);
    }

    method SetLastTime(now: Tick, ghost N: nat, ghost free: set<Timer>)
      requires Lists(free) && now == Low(N)
      requires forall t :: t in timers ==> OnSchedule(t.Ledger(), N)
      requires epoch == Epoch(N) || (current == [] && overflow == [])
      modifies this`epoch, this`sampled, this`lastTime
      ensures Valid(free) && sampled == N && lastTime == now
    {
      ghost var e := Epoch(N);
      if e != epoch {
        epoch := e;
      }
      sampled := N;
      lastTime := now;
    }

    /**
     * prvGetNextExpireTime: the head of the current list is due first; without one
     * nothing is due before the counter wraps.
     */
    method GetNextExpireTime() returns (next: Tick, listWasEmpty: bool)
      requires Valid({})
      ensures listWasEmpty <==> current == []
      ensures next == if current == [] then 0 else current[0].value
      ensures forall t :: t in timers && t.active ==>
                t.due >= if current == [] then EpochEnd(epoch) + 1 else current[0].due
    {
      listWasEmpty := current == [];
      next := if listWasEmpty then 0 else current[0].value;
      forall t | t in timers && t.active && current != []
        ensures t.due >= current[0].due
      {
        assert t in overflow || t in current;
        assert forall i :: 0 <= i < |current| ==> Values(current)[i] == current[i].value;
      }
    }

    /** Only one timer's account has changed. */
    twostate lemma OneAccountChanged(t: Timer)
      requires t in timers && timers == old(timers) && sampled == old(sampled)
      requires forall u :: u in timers && u != t ==> u.Ledger() == old(u.Ledger())
      ensures State() == Books(sampled, old(State()).accounts[t := t.Ledger()])
    {
    }

    /** The head has expired. */
    method ProcessHead(nextExpireTime: Tick, now: Tick)
      requires Valid({}) && now == lastTime && current != []
      requires nextExpireTime == current[0].value && current[0].due <= sampled
      modifies this`current, this`overflow, current[0]
      ensures Valid({})
      ensures var t := old(current[0]);
              State() == Books(sampled, old(State()).accounts[t := Expired(old(t.Ledger()), sampled, sampled)])
    {
      ghost var t := current[0];
      assert t in timers;
      ProcessExpiredTimer(nextExpireTime, now, sampled, sampled, {});
      OneAccountChanged(t);
    }

    /** The head has expired and is processed, or the daemon blocks. */
    method ProcessHeadOrBlock(nextExpireTime: Tick, listWasEmpty: bool, now: Tick)
      returns (blocked: bool, ticks: Tick, forever: bool)
      requires Valid({}) && now == lastTime && listWasEmpty == (current == [])
      requires nextExpireTime == if current == [] then 0 else current[0].value
      modifies this`current, this`overflow, timers
      ensures Valid({})
      ensures State() == Looked(old(State()), old(Head()), sampled)
      ensures blocked <==> old(current == [] || current[0].due > sampled)
      ensures blocked ==> State() == old(State()) && current == old(current) && overflow == old(overflow)
      ensures blocked ==> (forever <==> current == [] && overflow == [])
      ensures blocked && !forever ==>
                && ticks > 0
                && sampled + ticks == if current == [] then EpochEnd(Epoch(sampled)) + 1 else current[0].due
    {
      blocked, ticks, forever := false, 0, false;
      assert current != [] ==> current[0] in timers;
      if !listWasEmpty && nextExpireTime <= now {
        ProcessHead(nextExpireTime, now);
      } else {
        blocked := true;
        forever := listWasEmpty && overflow == [];
        ticks := Sub(nextExpireTime, now);
        if overflow != [] {
          NothingInOverflowAtWrap(this);
        }
      }
    }

    /**
     * prvProcessTimerOrBlockTask.  Either the lists were switched, or the head has
     * expired and is processed, or no active timer is due and the daemon blocks: for
     * ever if no timer is active, and otherwise for at least one tick and exactly
     * until the first is due or the counter wraps.
     */
    method ProcessTimerOrBlockTask(nextExpireTime: Tick, listWasEmpty: bool, tick: Tick, ghost N: nat)
      returns (blocked: bool, ticks: Tick, forever: bool)
      requires Valid({}) && tick == Low(N) && MaySample(State(), N)
      requires listWasEmpty <==> current == []
      requires nextExpireTime == if current == [] then 0 else current[0].value
      modifies this`current, this`overflow, this`epoch, this`sampled, this`lastTime, timers
      ensures Valid({}) && State() == Looked(old(State()), old(Head()), N)
      ensures blocked <==> Blocks(old(State()), old(Head()), N)
      ensures blocked ==> forall t :: t in timers && t.active ==> t.due > N
      ensures blocked ==> (forever <==> forall t :: t in timers ==> !t.active)
      ensures blocked && !forever ==>
                && ticks > 0
                && N + ticks == (if current == [] then EpochEnd(Epoch(N)) + 1 else current[0].due)
                && forall t :: t in timers && t.active ==> N + ticks <= t.due
    {
      ghost var before, head := State(), Head();
      var now, switched := SampleTimeNow(tick, N, {});
      LookedAfterSample(before, head, N);
      blocked, ticks, forever := false, 0, false;
      if !switched {
        blocked, ticks, forever := ProcessHeadOrBlock(nextExpireTime, listWasEmpty, now);
      }
      ListsBound(this);
    }

    method LeaveCurrent(t: Timer)
      requires t in current && Lists({})
      modifies this`current
      ensures Lists({t}) && current == Removed(old(current), t)
    {
      UnlistedFacts(current, t);
      current := Removed(current, t);
    }

    method LeaveOverflow(t: Timer)
      requires t in overflow && Lists({})
      modifies this`overflow
      ensures Lists({t}) && overflow == Removed(old(overflow), t)
    {
      UnlistedFacts(overflow, t);
      overflow := Removed(overflow, t);
    }

    /** The commanded timer leaves the list it is in, if any. */
    method Unlist(t: Timer)
      requires t in timers && Valid({})
      modifies this`current, this`overflow
      ensures Valid({t}) && State() == old(State())
      ensures current == Removed(old(current), t) && overflow == Removed(old(overflow), t)
    {
      if t in current {
        NothingRemoved(overflow, t);
        LeaveCurrent(t);
      } else {
        NothingRemoved(current, t);
        if t in overflow {
          LeaveOverflow(t);
        } else {
          NothingRemoved(overflow, t);
        }
      }
    }

    /** A command sets a timer off its list going anew. */
    method Restart(t: Timer, period: Period, ghost C: nat, ghost free: set<Timer>)
      requires t in free && Lists(free)
      modifies t`active, t`period, t`started, t`fires
      ensures t.active && t.period == period && t.started == C && t.fires == []
      ensures Lists(free)
    {
      t.active := true;
      t.period := period;
      t.started := C;
      t.fires := [];
      assert Values(current) == old(Values(current)) && Values(overflow) == old(Values(overflow));
    }

    /** A timer off its list is set going from time C and entered, unless it has expired by now. */
    method SetGoing(t: Timer, period: Period, command: Tick, now: Tick, ghost C: nat, ghost N: nat)
      returns (expired: bool)
      requires t in timers && Lists({t}) && C <= N < C + TICK_MOD && Epoch(N) == epoch
      requires command == Low(C) && now == Low(N)
      modifies this`current, this`overflow, t
      ensures t.Ledger() == SetGoingAt(old(t.Ledger()).(period := period), C)
      ensures expired <==> t.due <= N
      ensures Lists(if expired then {t} else {})
      ensures Add(command, period) == Low(t.due)
    {
      Restart(t, period, C, {t});
      AddAdvances(C, period);
      expired := InsertTimerInActiveList(t, Add(command, period), now, command, C, N, {t});
      assert {t} - {t} == {};
    }

    /** tmrCOMMAND_START and tmrCOMMAND_RESET, sent at time C. */
    method StartTimer(t: Timer, command: Tick, now: Tick, ghost C: nat, ghost N: nat)
      requires t in timers && Valid({t}) && C <= N < C + TICK_MOD && N == sampled
      requires command == Low(C) && now == Low(N)
      modifies this`current, this`overflow, t
      ensures Valid({})
      ensures t.Ledger() == Started(old(t.Ledger()), C, N)
    {
      StartedKeepsAccount(t.Ledger(), C, N);
      var expired := SetGoing(t, t.period, command, now, C, N);
      if expired {
        ExpireStarted(t, Add(command, t.period), now, N);
      }
    }

    method ExpireStarted(t: Timer, expired: Tick, now: Tick, ghost N: nat)
      requires t in timers && t.active && Kept(t.Ledger()) && Lists({t}) && Epoch(N) == epoch
      requires t.due <= N < t.due + TICK_MOD && expired == Low(t.due) && now == Low(N)
      modifies this`current, this`overflow, t
      ensures Lists({}) && OnSchedule(t.Ledger(), N)
      ensures t.Ledger() == Expired(old(t.Ledger()), N, N)
    {
      Expire(t, expired, now, t.due, N, N, {t});
      assert {t} - {t} == {};
    }

    /** tmrCOMMAND_CHANGE_PERIOD: the new period counts from the sample. */
    method ChangeTimerPeriod(t: Timer, period: Period, now: Tick, ghost N: nat)
      requires t in timers && Valid({t}) && N == sampled && now == Low(N)
      modifies this`current, this`overflow, t
      ensures Valid({})
      ensures t.Ledger() == SetGoingAt(old(t.Ledger()).(period := period), N)
    {
      StartedKeepsAccount(t.Ledger().(period := period), N, N);
      var _ := SetGoing(t, period, now, now, N, N);
    }

    /** tmrCOMMAND_STOP. */
    method StopTimer(t: Timer)
      requires t in timers && Valid({t})
      modifies t`active
      ensures Valid({})
      ensures t.Ledger() == old(t.Ledger()).(active := false)
    {
      Deactivate(t, {t});
      assert {t} - {t} == {};
    }

    /** tmrCOMMAND_DELETE: a dynamic timer is freed. */
    method DeleteTimer(t: Timer)
      requires t in timers && Valid({t})
      modifies this`timers, t`active
      ensures Valid({})
      ensures timers == if t.isStatic then old(timers) else old(timers) - {t}
      ensures State() == Books(sampled, if t.isStatic then old(State()).accounts[t := t.Ledger()]
                                         else old(State()).accounts - {t})
      ensures t.isStatic ==> t.Ledger() == old(t.Ledger()).(active := false)
    {
      if t.isStatic {
        StopTimer(t);
        OneAccountChanged(t);
      } else {
        timers := timers - {t};
      }
    }

    /** The command itself, on a timer that is off its list, after the sample. */
    method Obey(m: Message, now: Tick)
      requires m.timer in timers && Valid({m.timer}) && sampled == m.now && now == Low(m.now)
      requires m.sent <= m.now < m.sent + TICK_MOD
      modifies this`current, this`overflow, this`timers, m.timer
      ensures Valid({}) && State() == Executed(old(State()), m) && timers <= old(timers)
    {
      if m.command.Delete? {
        DeleteTimer(m.timer);
      } else {
        SetOrStop(m, now);
        OneAccountChanged(m.timer);
      }
    }

    /** A command other than tmrCOMMAND_DELETE. */
    method SetOrStop(m: Message, now: Tick)
      requires m.timer in timers && Valid({m.timer}) && sampled == m.now && now == Low(m.now)
      requires m.sent <= m.now < m.sent + TICK_MOD && !m.command.Delete?
      modifies this`current, this`overflow, m.timer
      ensures Valid({}) && m.timer.Ledger() == Commanded(old(m.timer.Ledger()), m)
    {
      var t := m.timer;
      match m.command
      case Start => StartTimer(t, Low(m.sent), now, m.sent, m.now);
      case Stop => StopTimer(t);
      case ChangePeriod(period) => ChangeTimerPeriod(t, period, now, m.now);
    }

    /**
     * One command.  The timer is taken off its list before the time is sampled, so
     * when the sample switches the lists it is not among those processed.
     */
    method ProcessCommand(m: Message)
      requires Valid({}) && MayObey(State(), m)
      modifies this, timers
      ensures Valid({}) && State() == Obeyed(old(State()), m) && timers <= old(timers)
    {
      Unlist(m.timer);
      var now, _ := SampleTimeNow(Low(m.now), m.now, {m.timer});
      Obey(m, now);
    }

    /** prvProcessReceivedCommands, given what it receives before the queue is empty. */
    method ProcessReceivedCommands(messages: seq<Message>)
      requires Valid({}) && MayObeyAll(State(), messages)
      modifies this, timers
      ensures Valid({}) && timers <= old(timers)
      ensures State() == ObeyedAll(old(State()), messages)
    {
      var i := 0;
      ghost var before := State();
      assert messages[..0] == [];
      while i < |messages|
        invariant i <= |messages| && Valid({}) && timers <= old(timers)
        invariant State() == ObeyedAll(before, messages[..i])
      {
        ObeyedNext(before, messages, i);
        ProcessCommand(messages[i]);
        i := i + 1;
      }
      assert messages[..i] == messages;
    }

    /** The first half of a turn of the daemon's loop. */
    method LookAtTimers(tick: Tick, ghost N: nat) returns (blocked: bool)
      requires Valid({}) && tick == Low(N) && MaySample(State(), N)
      modifies this`current, this`overflow, this`epoch, this`sampled, this`lastTime, timers
      ensures Valid({}) && State() == Looked(old(State()), old(Head()), N)
      ensures blocked <==> Blocks(old(State()), old(Head()), N)
    {
      var next, listWasEmpty := GetNextExpireTime();
      var ticks, forever;
      blocked, ticks, forever := ProcessTimerOrBlockTask(next, listWasEmpty, tick, N);
    }

    /**
     * One turn of the daemon's loop: it looks at the lists, and then obeys what is in
     * its queue, having blocked in between if nothing was due.
     */
    method TimerTaskTurn(round: Round) returns (blocked: bool)
      requires Valid({}) && MayTurn(State(), Head(), round)
      modifies this, timers
      ensures Valid({}) && timers <= old(timers)
      ensures State() == Turn(old(State()), old(Head()), round)
      ensures blocked <==> Blocks(old(State()), old(Head()), round.now)
    {
      blocked := LookAtTimers(Low(round.now), round.now);
      ProcessReceivedCommands(round.messages);
    }

    /** prvTimerTask: any number of turns, from any state of the timers. */
    method TimerTask(rounds: seq<Round>) returns (ghost heads: seq<Option<Timer>>)
      requires Valid({}) && MayRun(State(), rounds)
      modifies this, timers
      ensures Valid({}) && AllOnSchedule(old(State()))
      ensures |heads| == |rounds| && Served(old(State()), heads, rounds)
      ensures State() == RunOf(old(State()), heads, rounds)
    {
      heads := [];
      var i := 0;
      ghost var before := State();
      while i < |rounds|
        invariant i <= |rounds| && Valid({}) && timers <= old(timers) && |heads| == i
        invariant State() == RunOf(before, heads, rounds[..i]) && Served(before, heads, rounds[..i])
        invariant MayRun(State(), rounds[i..])
      {
        ListsBound(this);
        ghost var head := Head();
        ServedNext(before, heads, rounds, i, head);
        var _ := TimerTaskTurn(rounds[i]);
        heads, i := heads + [head], i + 1;
      }
      assert rounds[..i] == rounds;
    }
  }

  /** The first of the current list bounds all expiries; without one they lie beyond the epoch. */
  lemma ListsBound(s: TimerService)
    requires s.Valid({})
    ensures forall t :: t in s.timers && t.active ==>
              t.due >= if s.current == [] then EpochEnd(s.epoch) + 1 else s.current[0].due
    ensures (s.current == [] && s.overflow == []) <==> forall t :: t in s.timers ==> !t.active
    ensures IsHead(s.State(), s.Head())
  {
    FiledByEpoch(s, {});
    assert forall i :: 0 <= i < |s.current| ==> Values(s.current)[i] == s.current[i].value;
    assert s.current != [] ==> s.current[0] in s.timers && s.current[0] in s.current;
    assert s.overflow != [] ==> s.overflow[0] in s.timers;
  }

  lemma ListedAreActive(s: TimerService, free: set<Timer>)
    requires s.Valid(free)
    ensures (forall t :: t in s.State().accounts ==> !s.State().accounts[t].active) ==>
              s.current == [] && s.overflow == []
  {
    assert s.current != [] ==> s.current[0] in s.State().accounts;
    assert s.overflow != [] ==> s.overflow[0] in s.State().accounts;
  }

  /** In the tick in which the counter has wrapped no timer can be due in the next epoch. */
  lemma NothingInOverflowAtWrap(s: TimerService)
    requires s.Valid({})
    ensures s.lastTime == 0 ==> s.overflow == []
  {
    if s.overflow != [] {
      assert s.overflow[0] in s.timers && Near(s.overflow[0].Ledger(), s.sampled);
    }
  }

  /** Each active timer is in one list: the current one if due in the epoch last sampled, the other if in the next. */
  lemma FiledByEpoch(s: TimerService, free: set<Timer>)
    requires s.Valid(free)
    ensures forall t :: t in s.timers && t !in free ==>
              && (t in s.current <==> t.active && Epoch(t.due) == Epoch(s.sampled))
              && (t in s.overflow <==> t.active && Epoch(t.due) == Epoch(s.sampled) + 1)
  {
    forall t | t in s.timers && t !in free
      ensures t in s.current <==> t.active && Epoch(t.due) == Epoch(s.sampled)
      ensures t in s.overflow <==> t.active && Epoch(t.due) == Epoch(s.sampled) + 1
    {
      assert t in s.current ==> t.due == s.epoch * TICK_MOD + t.value;
      assert t in s.overflow ==> t.due == (s.epoch + 1) * TICK_MOD + t.value;
    }
  }

  /** The expiries callbacks are for. */
  ghost function Dues(fires: seq<Fire>): set<nat> {
    set f | f in fires :: f.due
  }

  /** The callbacks made of a timer by the time a command has been carried out. */
  ghost function MadeBy(a: Account, m: Message): seq<Fire> {
    if m.command.Start? then a.fires + Commanded(a, m).fires else a.fires
  }

  /** Expiry k + 1 of a schedule is one the timer owes a callback for. */
  ghost predicate Owed(a: Account, k: nat, N: nat) {
    (a.autoReload || k == 0) && DueFor(a, k) <= N
  }

  lemma StartFiresLater(a: Account, m: Message)
    requires Kept(a) && m.sent <= m.now
    ensures var b := Commanded(a, m); b.active ==> b.started >= m.sent && b.due > m.sent
    ensures m.command.Start? ==> forall f :: f in Commanded(a, m).fires ==> f.due > m.sent
  {
    StartedKeepsAccount(a, m.sent, m.now);
    var b := Commanded(a, m);
    if m.command.Start? {
      ExpiryGrows(m.sent, a.period, 1, |b.fires| + 1);
      forall i | 0 <= i < |b.fires|
        ensures b.fires[i].due > m.sent
      {
        ExpiryGrows(m.sent, a.period, 1, i + 1);
      }
    }
  }

  /**
   * A command overtakes an expiry.  Of the expiries an active timer owed when the
   * command was sent, each has its callback by the time any command has been
   * carried out if and only if its next expiry was later than the command; and if the
   * command leaves it going, every later callback is for an expiry after the command.
   */
  lemma CommandKeepsExpiriesIff(a: Account, m: Message)
    requires Kept(a) && a.active && m.sent <= m.now
    ensures (forall k: nat :: Owed(a, k, m.sent) ==> DueFor(a, k) in Dues(MadeBy(a, m))) <==> a.due > m.sent
    ensures Commanded(a, m).active ==> Commanded(a, m).started >= m.sent && Commanded(a, m).due > m.sent
  {
    StartFiresLater(a, m);
    var made := MadeBy(a, m);
    if a.due > m.sent {
      NotDueHasFired(a, m.sent);
      forall k: nat | Owed(a, k, m.sent)
        ensures DueFor(a, k) in Dues(made)
      {
        assert made[k] == a.fires[k];
      }
    } else {
      forall f | f in made
        ensures f.due != a.due
      {
        if f in a.fires {
          var i :| 0 <= i < |a.fires| && a.fires[i] == f;
          ExpiryGrows(a.started, a.period, i + 1, |a.fires|);
        }
      }
      assert Owed(a, |a.fires|, m.sent);
    }
  }

  /**
   * A start command that discards: a timer that was due before the command was sent,
   * but had not been processed, never fires for that expiry, although it would have
   * without the command.
   */
  lemma StartOvertakesExpiry(a: Account, m: Message)
    requires Kept(a) && a.active && m.command == Start && a.due <= m.sent <= m.now
    ensures forall f :: f in Commanded(a, m).fires ==> f.due > a.due
    ensures Fire(a.due, m.now) in Expired(a, m.now, m.now).fires
  {
    var b := Commanded(a, m);
    StartedKeepsAccount(a, m.sent, m.now);
    forall i | 0 <= i < |b.fires|
      ensures b.fires[i].due > a.due
    {
      ExpiryGrows(m.sent, a.period, 1, i + 1);
    }
    var e := Expired(a, m.now, m.now);
    BacklogEnds(a.due, a.period, m.now);
    assert e.fires[|a.fires|] == Fire(a.due, m.now);
  }
}
