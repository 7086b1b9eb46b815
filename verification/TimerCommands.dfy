/**
 * What each command does to its timer and to no other, and what becomes of a timer
 * over whole runs of the daemon: a stopped timer is silent, a running one goes on.
 */
module TimerCommands {
  import opened Ticks
  import opened Wrappers
  import opened Timers

  // ---- one command ----------------------------------------------------------------------------

  /** A stopped timer is inactive, and the command makes no callback. */
  lemma StopSilences(b: Books, m: Message)
    requires m.command.Stop? && m.timer in b.accounts
    ensures var u := Obeyed(b, m);
            && m.timer in u.accounts && !u.accounts[m.timer].active
            && u.accounts[m.timer].fires == b.accounts[m.timer].fires
  {
  }

  /** A deleted timer is gone if it was allocated dynamically, and inactive if it was not. */
  lemma DeleteSilences(b: Books, m: Message)
    requires m.command.Delete? && m.timer in b.accounts
    ensures var u := Obeyed(b, m);
            && (m.timer in u.accounts <==> m.timer.isStatic)
            && (m.timer.isStatic ==>
                  !u.accounts[m.timer].active && u.accounts[m.timer].fires == b.accounts[m.timer].fires)
  {
  }

  /** A new period counts from the sample: the timer is active, due one period later and has not fired since. */
  lemma PeriodRestarts(b: Books, m: Message)
    requires m.command.ChangePeriod? && m.timer in b.accounts
    ensures var u, p := Obeyed(b, m), m.command.period;
            m.timer in u.accounts &&
            var a := u.accounts[m.timer];
            && a.active && a.period == p && a.started == m.now && a.due == m.now + p && a.fires == []
            && a.autoReload == b.accounts[m.timer].autoReload
  {
  }

  /** Callbacks made at N for C + P, C + 2P and so on. */
  ghost predicate FiredEveryPeriod(fires: seq<Fire>, C: nat, P: Period, N: nat) {
    forall i :: 0 <= i < |fires| ==> fires[i] == Fire(C + (i + 1) * P, N)
  }

  /**
   * A started auto-reload timer is active and due at the least C + kP beyond the
   * sample, and has fired once for each earlier one; a one-shot timer has fired
   * once, and is inactive, if C + P has been reached, and otherwise is due then.
   */
  ghost predicate GoingSince(a: Account, C: nat, N: nat) {
    && a.started == C
    && if a.autoReload then
         && a.active && a.due > N && a.due <= (if C <= N then N else C) + a.period
         && a.due == C + (|a.fires| + 1) * a.period
         && FiredEveryPeriod(a.fires, C, a.period, N)
       else if C + a.period <= N then !a.active && a.fires == [Fire(C + a.period, N)]
       else a.active && a.fires == [] && a.due == C + a.period
  }

  lemma StartRestarts(b: Books, m: Message)
    requires m.command.Start? && m.timer in b.accounts && m.sent <= m.now
    ensures var u := Obeyed(b, m);
            && m.timer in u.accounts && GoingSince(u.accounts[m.timer], m.sent, m.now)
            && u.accounts[m.timer].period == b.accounts[m.timer].period
            && u.accounts[m.timer].autoReload == b.accounts[m.timer].autoReload
  {
    StartedIsGoing(b.accounts[m.timer], m.sent, m.now);
  }

  lemma PeriodLater(C: nat, P: Period, n: nat)
    ensures Expiry(C + P, P, n) == C + (n + 1) * P
  {
    ExpiryIs(C + P, P, n);
  }

  lemma FiresAre(C: nat, P: Period, n: nat, N: nat)
    ensures FiredEveryPeriod(Fires(C + P, P, n, N), C, P, N)
  {
    var fires := Fires(C + P, P, n, N);
    forall i | 0 <= i < n
      ensures fires[i] == Fire(C + (i + 1) * P, N)
    {
      PeriodLater(C, P, i);
    }
  }

  lemma BacklogReaches(C: nat, P: Period, N: nat)
    requires C + P <= N
    ensures var n := Backlog(C + P, P, N); n > 0 && N < Expiry(C + P, P, n) <= N + P
  {
    BacklogEnds(C + P, P, N);
  }

  lemma StartedIsGoing(a: Account, C: nat, N: nat)
    requires C <= N
    ensures GoingSince(Started(a, C, N), C, N)
  {
    if C + a.period > N {
      assert (0 + 1) * a.period == a.period;
    } else if a.autoReload {
      ReloadedIsGoing(a, C, N);
    } else {
      assert Fires(C + a.period, a.period, 1, N) == [Fire(C + a.period, N)];
    }
  }

  lemma ReloadedIsGoing(a: Account, C: nat, N: nat)
    requires C + a.period <= N && a.autoReload
    ensures GoingSince(Started(a, C, N), C, N)
  {
    var n := Backlog(C + a.period, a.period, N);
    BacklogReaches(C, a.period, N);
    PeriodLater(C, a.period, n);
    FiresAre(C, a.period, n, N);
    var b := Started(a, C, N);
    assert b.fires == Fires(C + a.period, a.period, n, N);
  }

  /** A command changes its own timer, and others only by the sample it takes, if that begins a new epoch. */
  lemma OthersKeepTheirAccounts(b: Books, m: Message, t: Timer)
    requires t != m.timer && t in b.accounts
    ensures var u := Obeyed(b, m);
            && u.sampled == m.now && t in u.accounts
            && (Epoch(m.now) == Epoch(b.sampled) ==> u.accounts[t] == b.accounts[t])
            && (!b.accounts[t].active ==> u.accounts[t] == b.accounts[t])
  {
  }
}
