/**
 * What each call on an event group returns, clears and leaves, told bit by bit.
 */
module EventGroupCalls {
  import opened Rings
  import opened EventGroupProtocol

  /** All of the bits waited for are there, or one of them. */
  ghost predicate Answered(bits: Bits, r: Request) {
    if r.all then forall b :: b in r.bits ==> b in bits else exists b :: b in r.bits && b in bits
  }

  lemma AnsweredIsMet(bits: Bits, r: Request)
    ensures Met(bits, r) <==> Answered(bits, r)
  {
    MetIs(bits, r);
  }

  /** Nothing has been cleared but, if `clear`, the bits of the request. */
  ghost predicate ClearedFor(before: Bits, after: Bits, clear: bool, bits: Bits) {
    forall b :: b in after <==> b in before && !(clear && b in bits)
  }

  /** No task but `t` has changed. */
  ghost predicate OthersKeep(s: State, u: State, t: Task) {
    u.tcbs.Keys == s.tcbs.Keys && forall v :: v in s.tcbs && v != t ==> u.tcbs[v] == s.tcbs[v]
  }

  /**
   * xEventGroupWaitBits before it blocks.  If the bits are there it returns the bits
   * as they were, and clears those waited for if asked; otherwise it changes nothing
   * and returns the bits, or joins the end of the list with its request in its word.
   */
  lemma WaitReplies(s: State, t: Task, r: Request, block: bool)
    requires Inv(s) && Enabled(s, DoWaitBits(t, r, block))
    ensures var o := WaitBits(s, t, r, block);
            if Answered(s.bits, r) then
              && o.reply == Replied(s.bits) && ClearedFor(s.bits, o.state.bits, r.clear, r.bits)
              && o.state.waiting == s.waiting && o.state.tcbs == s.tcbs
            else if !block then o.reply == Replied(s.bits) && o.state == s
            else
              && o.reply == Blocks && o.state.bits == s.bits && o.state.waiting == s.waiting + [t]
              && o.state.tcbs[t].phase == Waiting(r) && Unpack(o.state.tcbs[t].eventValue) == r
              && OthersKeep(s, o.state, t)
  {
    AnsweredIsMet(s.bits, r);
    PackUnpack(r);
  }

  /** xEventGroupClearBits clears the bits it is given and no other, and wakes nobody. */
  lemma ClearClears(s: State, clear: Bits)
    requires Inv(s)
    ensures var u := ClearBits(s, clear);
            && (forall b :: b in u.bits <==> b in s.bits && b !in clear)
            && u.waiting == s.waiting && u.tcbs == s.tcbs
  {
  }

  /** A task a set releases holds all bits there were and all bits set in its word; any other task is as it was. */
  lemma ReleasedTasks(s: State, set_: Bits, t: Task)
    requires Inv(s) && !s.deleted && set_ !! CONTROL_BYTES && t in s.tcbs
    ensures var u := SetBits(s, set_);
            && t in u.tcbs
            && if t in s.waiting && t !in u.waiting then
                 && u.tcbs[t].phase == Woken(s.tcbs[t].phase.request)
                 && u.tcbs[t].eventValue * UNBLOCKED_DUE_TO_BIT_SET != {}
                 && (forall b :: b in u.tcbs[t].eventValue - CONTROL_BYTES <==> b in s.bits || b in set_)
               else u.tcbs[t] == s.tcbs[t]
  {
    var now := s.bits + set_;
    RemainingFacts(s.tcbs, now, s.waiting);
    ReleasedValue(now);
  }

  /**
   * xEventGroupSync before it blocks: the bits are set as by xEventGroupSetBits.  If
   * with the bits there were they cover the mask the call returns them all and clears
   * the mask; otherwise it returns what a set leaves, or waits for the whole mask.
   */
  lemma SyncReplies(s: State, t: Task, set_: Bits, mask: Bits, block: bool)
    requires Inv(s) && Enabled(s, DoSync(t, set_, mask, block))
    ensures var o, after := Sync(s, t, set_, mask, block), SetBits(s, set_);
            if forall b :: b in mask ==> b in s.bits || b in set_ then
              && o.reply == Replied(s.bits + set_) && (forall b :: b in o.state.bits <==> b in after.bits && b !in mask)
              && o.state.waiting == after.waiting && o.state.tcbs == after.tcbs
            else if !block then o.reply == Replied(after.bits) && o.state == after
            else
              && o.reply == Blocks && o.state.bits == after.bits && o.state.waiting == after.waiting + [t]
              && o.state.tcbs[t].phase == Waiting(Request(mask, true, true))
              && Unpack(o.state.tcbs[t].eventValue) == Request(mask, true, true)
              && OthersKeep(after, o.state, t)
  {
    var covered := s.bits + set_;
    assert covered * mask == mask <==> forall b :: b in mask ==> b in s.bits || b in set_ by {
      assert covered * mask == mask ==> forall b :: b in mask ==> b in covered * mask;
    }
    PackUnpack(Request(mask, true, true));
  }

  /** A task released by a set returns the bits in its word, and clears nothing. */
  lemma ReturnAfterRelease(s: State, t: Task)
    requires Inv(s) && Enabled(s, DoReturn(t)) && s.tcbs[t].eventValue * UNBLOCKED_DUE_TO_BIT_SET != {}
    ensures var o := Return(s, t);
            && o.reply.Replied? && (forall b :: b in o.reply.value <==> b in s.tcbs[t].eventValue && !(24 <= b < 32))
            && o.state.bits == s.bits && o.state.waiting == s.waiting && OthersKeep(s, o.state, t)
            && o.state.tcbs[t].phase == Running
  {
    assert forall b: nat :: b in CONTROL_BYTES <==> 24 <= b < 32;
  }

  /**
   * A task whose wait has timed out returns the bits as they are when it runs again,
   * and clears those it waited for if they are there after all and it was asked to.
   */
  lemma ReturnAfterTimeOut(s: State, t: Task)
    requires Inv(s) && Enabled(s, DoReturn(t)) && s.tcbs[t].eventValue * UNBLOCKED_DUE_TO_BIT_SET == {}
    ensures var o, r := Return(s, t), s.tcbs[t].phase.request;
            && o.reply == Replied(s.bits)
            && ClearedFor(s.bits, o.state.bits, Answered(s.bits, r) && r.clear, r.bits)
            && o.state.waiting == s.waiting && OthersKeep(s, o.state, t) && o.state.tcbs[t].phase == Running
  {
    AnsweredIsMet(s.bits, s.tcbs[t].phase.request);
    assert s.bits - CONTROL_BYTES == s.bits;
  }

  /** A waiter whose time is up leaves the list, with its word and the bits as they were. */
  lemma TimeOutTakesOff(s: State, t: Task)
    requires Inv(s) && t in s.waiting
    ensures var u := TimeOut(s, t);
            && (forall v :: v in u.waiting <==> v in s.waiting && v != t)
            && u.bits == s.bits && OthersKeep(s, u, t)
            && u.tcbs[t].eventValue == s.tcbs[t].eventValue && u.tcbs[t].phase == Woken(s.tcbs[t].phase.request)
  {
    assert Consistent(s, s.tcbs[t], true);
    RemovedFacts(s.waiting, t);
  }

  /** Deleting the group releases every waiter with no bits, and touches no other task. */
  lemma DeleteReleases(s: State, t: Task)
    requires Inv(s) && !s.deleted && t in s.tcbs
    ensures var u := Delete(s);
            && u.waiting == [] && t in u.tcbs
            && if t in s.waiting then
                 u.tcbs[t].phase == Woken(s.tcbs[t].phase.request) && u.tcbs[t].eventValue - CONTROL_BYTES == {}
               else u.tcbs[t] == s.tcbs[t]
  {
    assert Consistent(s, s.tcbs[t], t in s.waiting);
  }

  // ---- words that hold numbers ------------------------------------------------------------------

  /** Digit `k` of the number `n` in binary is one. */
  predicate Digit(n: nat, k: nat) {
    if k == 0 then n % 2 == 1 else Digit(n / 2, k - 1)
  }

  lemma {:induction false} ZeroHasNoDigit(k: nat)
    ensures !Digit(0, k)
  {
    if k > 0 {
      ZeroHasNoDigit(k - 1);
    }
  }

  /** The word of a number has a one exactly where the number has one in binary. */
  lemma {:induction false} WordHoldsNumber(n: nat, i: nat, k: nat)
    requires k >= i
    ensures k in WordOf(n, i) <==> Digit(n, k - i)
    decreases n
  {
    if n == 0 {
      ZeroHasNoDigit(k - i);
    } else if k == i {
      StartsAt(n / 2, i + 1);
    } else {
      WordHoldsNumber(n / 2, i + 1, k);
    }
  }

  lemma {:induction false} StartsAt(n: nat, i: nat)
    ensures forall k :: k in WordOf(n, i) ==> k >= i
  {
    if n > 0 {
      StartsAt(n / 2, i + 1);
    }
  }

  /**
   * After a change of priority the word of a task that is not in a wait holds, digit by
   * digit, the number of priorities less the new one; that of a task that is stays.
   */
  lemma PriorityInWord(s: State, t: Task, priority: nat, k: nat)
    requires Inv(s) && Enabled(s, DoSetPriority(t, priority))
    ensures var u := SetPriority(s, t, priority);
            && u.tcbs[t].priority == priority && u.tcbs[t].phase == s.tcbs[t].phase && OthersKeep(s, u, t)
            && u.bits == s.bits && u.waiting == s.waiting
            && if s.tcbs[t].phase.Running? then k in u.tcbs[t].eventValue <==> Digit(s.maxPriorities - priority, k)
               else u.tcbs[t].eventValue == s.tcbs[t].eventValue
  {
    assert Consistent(s, s.tcbs[t], t in s.waiting);
    NormalNotInUse(s, s.tcbs[t].priority);
    WordHoldsNumber(s.maxPriorities - priority, 0, k);
    if s.tcbs[t].phase.Waiting? {
      PackUnpack(s.tcbs[t].phase.request);
    }
  }

  /** The word of a task in no wait holds, digit by digit, the number of priorities less its own. */
  lemma RunningWord(s: State, t: Task, k: nat)
    requires Inv(s) && t in s.tcbs && s.tcbs[t].phase.Running?
    ensures k in s.tcbs[t].eventValue <==> Digit(s.maxPriorities - s.tcbs[t].priority, k)
  {
    assert Consistent(s, s.tcbs[t], t in s.waiting);
    WordHoldsNumber(s.maxPriorities - s.tcbs[t].priority, 0, k);
  }
}
