/**
 * What becomes of a timer over whole runs of the daemon: a stopped one makes no
 * callback, one that no command concerns goes on as it was set going, and the
 * daemon gets round to every timer that is due.
 */
module TimerRuns {
  import opened Ticks
  import opened Wrappers
  import opened Timers

  // ---- stopped timers -------------------------------------------------------------------------

  /** The timer is gone, or inactive and has made these callbacks and no other. */
  ghost predicate Silent(b: Books, t: Timer, fires: seq<Fire>) {
    t in b.accounts ==> !b.accounts[t].active && b.accounts[t].fires == fires
  }

  /** Not a command that sets the timer going. */
  predicate LeavesStopped(m: Message, t: Timer) {
    m.timer == t ==> m.command.Stop? || m.command.Delete?
  }

  lemma LookedKeepsSilent(b: Books, head: Option<Timer>, N: nat, t: Timer, fires: seq<Fire>)
    requires IsHead(b, head) && Silent(b, t, fires)
    ensures Silent(Looked(b, head, N), t, fires)
  {
  }

  lemma ObeyedKeepsSilent(b: Books, m: Message, t: Timer, fires: seq<Fire>)
    requires Silent(b, t, fires) && LeavesStopped(m, t)
    ensures Silent(Obeyed(b, m), t, fires)
  {
  }

  lemma {:induction false} ObeyedAllKeepsSilent(b: Books, messages: seq<Message>, t: Timer, fires: seq<Fire>)
    requires Silent(b, t, fires) && forall m :: m in messages ==> LeavesStopped(m, t)
    ensures Silent(ObeyedAll(b, messages), t, fires)
    decreases |messages|
  {
    if messages != [] {
      var n := |messages| - 1;
      ObeyedAllKeepsSilent(b, messages[..n], t, fires);
      ObeyedKeepsSilent(ObeyedAll(b, messages[..n]), messages[n], t, fires);
    }
  }

  /** No message in the run sets the timer going. */
  ghost predicate NeverSetGoing(rounds: seq<Round>, t: Timer) {
    forall i :: 0 <= i < |rounds| ==> forall m :: m in rounds[i].messages ==> LeavesStopped(m, t)
  }

  /** A timer that is not active makes no callback, over any run, until a start or a new period sets it going. */
  lemma {:induction false} RunKeepsSilent(b: Books, heads: seq<Option<Timer>>, rounds: seq<Round>,
                                          t: Timer, fires: seq<Fire>)
    requires |heads| == |rounds| && Served(b, heads, rounds)
    requires Silent(b, t, fires) && NeverSetGoing(rounds, t)
    ensures Silent(RunOf(b, heads, rounds), t, fires)
    decreases |rounds|
  {
    if rounds != [] {
      var n := |rounds| - 1;
      var c := RunOf(b, heads[..n], rounds[..n]);
      RunKeepsSilent(b, heads[..n], rounds[..n], t, fires);
      LookedKeepsSilent(c, heads[n], rounds[n].now, t, fires);
      ObeyedAllKeepsSilent(Looked(c, heads[n], rounds[n].now), rounds[n].messages, t, fires);
    }
  }

  /**
   * After a stop or a delete command the timer makes no callback over any run of the
   * daemon, until a later command sets it going.
   */
  lemma StoppedStaysSilent(b: Books, m: Message, heads: seq<Option<Timer>>, rounds: seq<Round>)
    requires m.timer in b.accounts && (m.command.Stop? || m.command.Delete?)
    requires |heads| == |rounds| && Served(Obeyed(b, m), heads, rounds) && NeverSetGoing(rounds, m.timer)
    ensures var u, t := RunOf(Obeyed(b, m), heads, rounds), m.timer;
            t in u.accounts ==> !u.accounts[t].active && u.accounts[t].fires == b.accounts[t].fires
  {
    RunKeepsSilent(Obeyed(b, m), heads, rounds, m.timer, b.accounts[m.timer].fires);
  }

  // ---- timers left alone ----------------------------------------------------------------------

  /**
   * How a timer goes on when no command concerns it: its schedule stays, callbacks are
   * only added, an auto-reload timer stays active, and a one-shot timer becomes
   * inactive with its one callback.
   */
  ghost predicate GoesOn(a: Account, b: Account) {
    && b.autoReload == a.autoReload && b.period == a.period && b.started == a.started && a.fires <= b.fires
    && (!a.active ==> b == a)
    && (a.active && a.autoReload ==> b.active)
    && (a.active && !a.autoReload ==>
          if b.active then b == a else |b.fires| == 1 && b.fires[0].due == a.started + a.period)
  }

  lemma GoesOnAndOn(a: Account, b: Account, c: Account)
    requires GoesOn(a, b) && GoesOn(b, c)
    ensures GoesOn(a, c)
  {
  }

  lemma ExpiredGoesOn(a: Account, N: nat, at: nat)
    requires Kept(a) && a.active && a.due <= N
    ensures GoesOn(a, Expired(a, N, at))
  {
    assert Expiry(a.started, a.period, 1) == a.started + a.period;
    BacklogEnds(a.due, a.period, N);
  }

  lemma SwitchedGoesOn(a: Account, last: nat, N: nat)
    requires OnSchedule(a, last) && last <= N
    ensures GoesOn(a, Switched(a, last, N))
  {
    EpochsApart(last, N);
    if Switched(a, last, N) != a {
      assert a.due <= EpochEnd(Epoch(last));
      ExpiredGoesOn(a, EpochEnd(Epoch(last)), N);
    }
  }

  lemma LookedGoesOn(b: Books, head: Option<Timer>, N: nat, t: Timer)
    requires AllOnSchedule(b) && b.sampled <= N && IsHead(b, head) && t in b.accounts
    ensures var u := Looked(b, head, N); t in u.accounts && GoesOn(b.accounts[t], u.accounts[t])
  {
    SwitchedGoesOn(b.accounts[t], b.sampled, N);
    if head == Some(t) && b.accounts[t].due <= N {
      ExpiredGoesOn(b.accounts[t], N, N);
    }
  }

  lemma ObeyedGoesOn(b: Books, m: Message, t: Timer)
    requires AllOnSchedule(b) && MayObey(b, m) && t in b.accounts && m.timer != t
    ensures var u := Obeyed(b, m); t in u.accounts && GoesOn(b.accounts[t], u.accounts[t])
  {
    SwitchedGoesOn(b.accounts[t], b.sampled, m.now);
  }

  lemma {:induction false} ObeyedAllGoesOn(b: Books, messages: seq<Message>, t: Timer)
    requires AllOnSchedule(b) && MayObeyAll(b, messages) && t in b.accounts
    requires forall m :: m in messages ==> m.timer != t
    ensures var u := ObeyedAll(b, messages); t in u.accounts && GoesOn(b.accounts[t], u.accounts[t])
    decreases |messages|
  {
    if messages != [] {
      var n := |messages| - 1;
      var c := ObeyedAll(b, messages[..n]);
      FewerMayObey(b, messages);
      ObeyedAllGoesOn(b, messages[..n], t);
      ObeyedAllOnSchedule(b, messages[..n]);
      ObeyedGoesOn(c, messages[n], t);
      GoesOnAndOn(b.accounts[t], c.accounts[t], Obeyed(c, messages[n]).accounts[t]);
    }
  }

  lemma FewerMayObey(b: Books, messages: seq<Message>)
    requires messages != [] && MayObeyAll(b, messages)
    ensures var n := |messages| - 1;
            MayObeyAll(b, messages[..n]) && MayObey(ObeyedAll(b, messages[..n]), messages[n])
  {
    var n := |messages| - 1;
    assert forall i {:trigger messages[..i]} :: 0 <= i < n ==> messages[..n][..i] == messages[..i];
  }

  /** No message in the run is for the timer. */
  ghost predicate NeverNamed(rounds: seq<Round>, t: Timer) {
    forall i :: 0 <= i < |rounds| ==> forall m :: m in rounds[i].messages ==> m.timer != t
  }

  /** Over every run in which no command names it a timer goes on as it was set going. */
  lemma {:induction false} RunGoesOn(b: Books, heads: seq<Option<Timer>>, rounds: seq<Round>, t: Timer)
    requires AllOnSchedule(b) && |heads| == |rounds| && Served(b, heads, rounds)
    requires t in b.accounts && NeverNamed(rounds, t)
    ensures var u := RunOf(b, heads, rounds); t in u.accounts && GoesOn(b.accounts[t], u.accounts[t])
    decreases |rounds|
  {
    if rounds != [] {
      var n := |rounds| - 1;
      var c := RunOf(b, heads[..n], rounds[..n]);
      var d := Looked(c, heads[n], rounds[n].now);
      RunGoesOn(b, heads[..n], rounds[..n], t);
      RunOnSchedule(b, heads[..n], rounds[..n]);
      LookedGoesOn(c, heads[n], rounds[n].now, t);
      LookedOnSchedule(c, heads[n], rounds[n].now);
      ObeyedAllGoesOn(d, rounds[n].messages, t);
      GoesOnAndOn(b.accounts[t], c.accounts[t], d.accounts[t]);
      GoesOnAndOn(b.accounts[t], d.accounts[t], ObeyedAll(d, rounds[n].messages).accounts[t]);
    }
  }

  /** No callback was made in the future. */
  ghost predicate NoneAhead(a: Account, N: nat) {
    forall i :: 0 <= i < |a.fires| ==> a.fires[i].at <= N
  }

  ghost predicate AllNoneAhead(b: Books) {
    forall t :: t in b.accounts ==> NoneAhead(b.accounts[t], b.sampled)
  }

  lemma LookedNoneAhead(b: Books, head: Option<Timer>, N: nat)
    requires AllNoneAhead(b) && b.sampled <= N
    ensures AllNoneAhead(Looked(b, head, N))
  {
  }

  lemma ObeyedNoneAhead(b: Books, m: Message)
    requires AllNoneAhead(b) && MayObey(b, m)
    ensures AllNoneAhead(Obeyed(b, m))
  {
  }

  lemma {:induction false} ObeyedAllNoneAhead(b: Books, messages: seq<Message>)
    requires AllNoneAhead(b) && MayObeyAll(b, messages)
    ensures AllNoneAhead(ObeyedAll(b, messages))
    decreases |messages|
  {
    if messages != [] {
      var n := |messages| - 1;
      FewerMayObey(b, messages);
      ObeyedAllNoneAhead(b, messages[..n]);
      ObeyedNoneAhead(ObeyedAll(b, messages[..n]), messages[n]);
    }
  }

  lemma {:induction false} RunNoneAhead(b: Books, heads: seq<Option<Timer>>, rounds: seq<Round>)
    requires AllNoneAhead(b) && |heads| == |rounds| && Served(b, heads, rounds)
    ensures AllNoneAhead(RunOf(b, heads, rounds))
    decreases |rounds|
  {
    if rounds != [] {
      var n := |rounds| - 1;
      var c := RunOf(b, heads[..n], rounds[..n]);
      RunNoneAhead(b, heads[..n], rounds[..n]);
      LookedNoneAhead(c, heads[n], rounds[n].now);
      ObeyedAllNoneAhead(Looked(c, heads[n], rounds[n].now), rounds[n].messages);
    }
  }

  /**
   * What a running timer promises.  However long ago it was set going, if no command
   * has named it since, then whenever the daemon blocks an auto-reload timer is still
   * active and has fired once for each of its periods that has passed; and a one-shot
   * timer has fired, once, if and only if its period has passed.
   */
  lemma RunningTimerKeepsItsPromise(b: Books, heads: seq<Option<Timer>>, rounds: seq<Round>,
                                    head: Option<Timer>, N: nat, t: Timer)
    requires AllOnSchedule(b) && AllNoneAhead(b) && |heads| == |rounds| && Served(b, heads, rounds)
    requires t in b.accounts && b.accounts[t].active && NeverNamed(rounds, t)
    requires var c := RunOf(b, heads, rounds); IsHead(c, head) && MaySample(c, N) && Blocks(c, head, N)
    ensures var c, a := Looked(RunOf(b, heads, rounds), head, N), b.accounts[t];
            t in c.accounts &&
            var e := c.accounts[t];
            && e.started == a.started && e.period == a.period
            && if a.autoReload then e.active && HasFiredFor(e, N)
               else if a.started + a.period <= N then
                 !e.active && |e.fires| == 1 && e.fires[0].due == a.started + a.period
               else e.active && e.fires == []
  {
    var c := RunOf(b, heads, rounds);
    var d, a := Looked(c, head, N), b.accounts[t];
    RunGoesOn(b, heads, rounds, t);
    RunOnSchedule(b, heads, rounds);
    LookedGoesOn(c, head, N, t);
    LookedOnSchedule(c, head, N);
    GoesOnAndOn(a, c.accounts[t], d.accounts[t]);
    BlocksOnlyWhenAllFired(b, heads, rounds, head, N);
    BlockedNoneDue(c, head, N);
    RunNoneAhead(b, heads, rounds);
    LookedNoneAhead(c, head, N);
    assert Expiry(a.started, a.period, 1) == a.started + a.period;
  }

  // ---- the daemon gets on -----------------------------------------------------------------------------

  /** The timers that have reached their next expiry. */
  ghost function DueBy(b: Books, N: nat): set<Timer> {
    set t | t in b.accounts && b.accounts[t].active && b.accounts[t].due <= N
  }

  /**
   * A look at the lists that does not block, in the epoch of the one before, deals
   * with the head, which was due, and with no other timer: one fewer is due.
   */
  lemma EachLookGetsOn(b: Books, head: Option<Timer>, N: nat)
    requires AllOnSchedule(b) && IsHead(b, head) && b.sampled <= N && Epoch(N) == Epoch(b.sampled)
    requires !Blocks(b, head, N)
    ensures head.Some? && head.value in DueBy(b, N)
    ensures var u := Looked(b, head, N);
            DueBy(u, N) == DueBy(b, N) - {head.value} && |u.accounts[head.value].fires| > |b.accounts[head.value].fires|
    ensures forall t :: t in b.accounts && t != head.value ==> Looked(b, head, N).accounts[t] == b.accounts[t]
  {
    EpochsApart(b.sampled, N);
    ExpiredKeepsAccount(b.accounts[head.value], N, N);
  }

  /** A look in a new epoch deals with every timer that was due in the old one. */
  lemma NewEpochGetsOn(b: Books, head: Option<Timer>, N: nat, t: Timer)
    requires AllOnSchedule(b) && IsHead(b, head) && b.sampled <= N && Epoch(N) > Epoch(b.sampled)
    requires t in b.accounts && b.accounts[t].active && Epoch(b.accounts[t].due) == Epoch(b.sampled)
    ensures var u := Looked(b, head, N);
            && |u.accounts[t].fires| > |b.accounts[t].fires|
            && (u.accounts[t].active ==> u.accounts[t].due > EpochEnd(Epoch(b.sampled)))
  {
    EpochsApart(b.sampled, N);
    assert b.accounts[t].due <= EpochEnd(Epoch(b.sampled)) <= N;
    ExpiredKeepsAccount(b.accounts[t], EpochEnd(Epoch(b.sampled)), N);
  }
}
