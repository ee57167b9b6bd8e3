/** How the owner gets out: a short plan of owner-signed transactions, and exactly when
    every step of it succeeds. */
module EscrowExit {
  import opened Machine
  import opened EscrowState
  import opened EscrowSpec
  import opened EscrowInvariants
  import opened EscrowTraces
  import MapSum

  /** Runs a plan in which every step has to succeed. */
  function RunPlan(w: World, plan: seq<Event>): Option<World>
    decreases |plan|
  {
    if plan == [] then Some(w)
    else match Step(w, plan[0])
      case Ok(next) => RunPlan(next, plan[1..])
      case Err(_) => None
  }

  function OwnerContext(a: Account, now: i64): Context {
    Context(a.user, a.tokenMint, 0, 0, now, false)
  }

  /** Unpause if need be, revoke both roles, withdraw whatever is left. */
  function ExitPlan(w: World, now: i64): seq<Event>
    requires w.account.Some?
  {
    var a := w.account.value;
    var ctx := OwnerContext(a, now);
    (if IsPaused(a) then [Invoke(ctx, Unpause)] else [])
    + [Invoke(ctx, RevokePlatform), Invoke(ctx, RevokeTrading)]
    + (if Balance(w) > 0 then [Invoke(ctx, Withdraw(Balance(w)))] else [])
  }

  /** The owner holds a token account, and the escrow is not paused. */
  ghost predicate Leaving(w: World, user: Pubkey, mint: Pubkey) {
    && Inv(w) && w.account.Some? && !IsPaused(w.account.value)
    && w.account.value.user == user && w.account.value.tokenMint == mint
    && user in w.ledger
  }

  /** Everything a step of the plan must leave alone until the final withdrawal. */
  ghost predicate SameFunds(w: World, next: World) {
    && next.account.Some? && w.account.Some?
    && next.ledger == w.ledger && next.address == w.address
    && next.account.value.totalWithdrawn == w.account.value.totalWithdrawn
  }

  lemma UnpauseStep(w: World, ctx: Context) returns (next: World)
    requires Inv(w) && w.account.Some? && w.account.value.user in w.ledger
    requires ctx.signer == w.account.value.user && CanUnpause(w.account.value, ctx.now) == Some(true)
    ensures Transaction(w, ctx, Unpause) == Ok(next)
    ensures Leaving(next, ctx.signer, w.account.value.tokenMint) && SameFunds(w, next)
  {
    next := Transaction(w, ctx, Unpause).value;
    StepKeepsInv(w, Invoke(ctx, Unpause));
    FlagsIndependent(w.account.value.flags, FLAG_PAUSED, FLAG_PAUSED, false);
  }

  lemma RevokeStep(w: World, ctx: Context, role: Role) returns (next: World)
    requires Leaving(w, ctx.signer, ctx.mint)
    ensures Transaction(w, ctx, if role.Platform? then RevokePlatform else RevokeTrading) == Ok(next)
    ensures Leaving(next, ctx.signer, ctx.mint) && SameFunds(w, next)
    ensures Authority(next.account.value, role) == DEFAULT_KEY
    ensures forall other :: other != role ==>
              Authority(next.account.value, other) == Authority(w.account.value, other)
  {
    var ins := if role.Platform? then RevokePlatform else RevokeTrading;
    next := Transaction(w, ctx, ins).value;
    StepKeepsInv(w, Invoke(ctx, ins));
    FlagsIndependent(w.account.value.flags, RoleFlag(role), FLAG_PAUSED, false);
  }

  /** No authority is left, the escrow is empty and its owner holds `wealth` tokens. */
  ghost predicate Out(w: World, user: Pubkey, wealth: nat) {
    && w.account.Some? && Balance(w) == 0
    && user in w.ledger && w.ledger[user] == wealth
    && Authority(w.account.value, Platform) == DEFAULT_KEY
    && Authority(w.account.value, Trading) == DEFAULT_KEY
  }

  /** The withdrawal counter has room for the whole balance. */
  predicate Fits(w: World) {
    w.account.Some? && w.account.value.totalWithdrawn + Balance(w) <= U64_MAX
  }

  /** Nothing but a full counter can keep the owner's account from taking the balance. */
  lemma WithdrawAllStep(w: World, ctx: Context) returns (next: World)
    requires Leaving(w, ctx.signer, ctx.mint) && Balance(w) > 0
    requires Authority(w.account.value, Platform) == DEFAULT_KEY
    requires Authority(w.account.value, Trading) == DEFAULT_KEY
    ensures if Fits(w) then Transaction(w, ctx, Withdraw(Balance(w))) == Ok(next)
                            && Out(next, ctx.signer, w.ledger[ctx.signer] + Balance(w))
            else Transaction(w, ctx, Withdraw(Balance(w))) == Err(MathOverflow)
  {
    next := w;
    if Fits(w) {
      MapSum.TwoAtMostTotal<Pubkey>(w.ledger, w.address, ctx.signer);
      TransferMoves(w.ledger, w.address, ctx.signer, Balance(w));
      next := Transaction(w, ctx, Withdraw(Balance(w))).value;
    }
  }

  lemma PlanStep(w: World, e: Event, rest: seq<Event>, next: World)
    requires Step(w, e) == Ok(next)
    ensures RunPlan(w, [e] + rest) == RunPlan(next, rest)
  {
    hide Transaction;
    assert ([e] + rest)[1..] == rest;
  }

  /** The plan ends well: every step succeeds and the owner has everything. */
  ghost predicate Leaves(w: World, now: i64)
    requires w.account.Some?
  {
    var end, user := RunPlan(w, ExitPlan(w, now)), w.account.value.user;
    end.Some? && user in w.ledger && Out(end.value, user, w.ledger[user] + Balance(w))
  }

  /** The plan from a state that is not, or no longer, paused. */
  lemma LeaveFrom(w: World, ctx: Context)
    requires Leaving(w, ctx.signer, ctx.mint) && ctx == OwnerContext(w.account.value, ctx.now)
    ensures if Fits(w) then Leaves(w, ctx.now) else RunPlan(w, ExitPlan(w, ctx.now)) == None
  {
    hide Transaction;
    var w1 := RevokeStep(w, ctx, Platform);
    var w2 := RevokeStep(w1, ctx, Trading);
    assert Authority(w2.account.value, Platform) == DEFAULT_KEY;
    var last := Invoke(ctx, Withdraw(Balance(w)));
    var tail := if Balance(w) > 0 then [last] else [];
    assert ExitPlan(w, ctx.now) == [Invoke(ctx, RevokePlatform)] + ([Invoke(ctx, RevokeTrading)] + tail);
    PlanStep(w, Invoke(ctx, RevokePlatform), [Invoke(ctx, RevokeTrading)] + tail, w1);
    PlanStep(w1, Invoke(ctx, RevokeTrading), tail, w2);
    if Balance(w) > 0 {
      var w3 := WithdrawAllStep(w2, ctx);
      if Fits(w) {
        PlanStep(w2, last, [], w3);
        assert tail == [last] + [];
      }
    }
  }

  lemma ExitFrom(w: World, now: i64)
    requires Inv(w) && w.account.Some? && w.account.value.user in w.ledger
    requires IsPaused(w.account.value) ==> CanUnpause(w.account.value, now) == Some(true)
    ensures if Fits(w) then Leaves(w, now) else RunPlan(w, ExitPlan(w, now)) == None
  {
    hide Transaction;
    var ctx := OwnerContext(w.account.value, now);
    if IsPaused(w.account.value) {
      var next := UnpauseStep(w, ctx);
      LeaveFrom(next, ctx);
      PlanStep(w, Invoke(ctx, Unpause), ExitPlan(next, now), next);
      assert ExitPlan(w, now) == [Invoke(ctx, Unpause)] + ExitPlan(next, now);
    } else {
      LeaveFrom(w, ctx);
    }
  }

  /** What the owner needs in order to leave by this plan at a given time: a token account
      of his own, and the cooldown of the last pause behind him. */
  ghost predicate MayLeave(w: World, now: i64) {
    && w.account.Some? && w.account.value.user in w.ledger
    && (IsPaused(w.account.value) ==> CanUnpause(w.account.value, now) == Some(true))
  }

  /** From every reachable state, paused or not, expired or not, with any authorities: the
      owner's plan succeeds at every step exactly if the withdrawal counter has room for
      the balance, and then it ends with no authority and an empty escrow, and the owner
      has the money. */
  lemma OwnerExit(w: World, es: seq<Event>, n: nat, now: i64)
    requires Genesis(w) && n <= |es| && MayLeave(At(w, es, n), now)
    ensures var s := At(w, es, n);
            && (RunPlan(s, ExitPlan(s, now)).Some? <==> s.account.value.totalWithdrawn + Balance(s) <= U64_MAX)
            && (RunPlan(s, ExitPlan(s, now)).Some? ==> Leaves(s, now))
  {
    Reachable(w, es, n);
    ExitFrom(At(w, es, n), now);
    hide At, RunPlan, ExitPlan, Step;
  }

  /** There is room as long as the deposits and the outside transfers fit in u64. */
  lemma OrdinaryUseFits(w: World, es: seq<Event>, n: nat)
    requires Genesis(w) && n <= |es| && At(w, es, n).account.Some?
    requires At(w, es, n).account.value.totalDeposited + Outside(w, es, n) <= U64_MAX
    ensures Fits(At(w, es, n))
  {
    Conservation(w, es, n);
    hide At, Outside;
  }

  lemma StepRecordsPause(w: World, ctx: Context, ins: Instruction)
    ensures var next := Next(w, Invoke(ctx, ins)).account;
            next.Some? ==>
              || next.value.lastPausedAt in {0, ctx.now}
              || (w.account.Some? && next.value.lastPausedAt == w.account.value.lastPausedAt)
  {
  }

  /** A recorded pause lies between zero and the clock. */
  lemma {:induction false} PauseRecorded(w: World, es: seq<Event>, n: nat, clock: i64)
    requires Genesis(w) && n <= |es| && clock >= 0
    requires forall k :: 0 <= k < n && es[k].Invoke? ==> 0 <= es[k].ctx.now <= clock
    ensures At(w, es, n).account.Some? ==> 0 <= At(w, es, n).account.value.lastPausedAt <= clock
  {
    if n > 0 {
      PauseRecorded(w, es, n - 1, clock);
      if es[n - 1].Invoke? {
        StepRecordsPause(At(w, es, n - 1), es[n - 1].ctx, es[n - 1].ins);
      }
      hide Transaction;
    }
  }

  /** Waiting out one cooldown on the clock is always enough for the plan to succeed,
      again exactly if the counter has room. */
  lemma ExitWithinOneCooldown(w: World, es: seq<Event>, clock: i64)
    requires Genesis(w) && 0 <= clock <= I64_MAX - UNPAUSE_COOLDOWN
    requires forall k :: 0 <= k < |es| && es[k].Invoke? ==> 0 <= es[k].ctx.now <= clock
    requires At(w, es, |es|).account.Some?
    requires At(w, es, |es|).account.value.user in At(w, es, |es|).ledger
    ensures Leaves(At(w, es, |es|), clock + UNPAUSE_COOLDOWN) <==> Fits(At(w, es, |es|))
  {
    hide Step, RunPlan, ExitPlan, At, Out;
    PauseRecorded(w, es, |es|, clock);
    OwnerExit(w, es, |es|, clock + UNPAUSE_COOLDOWN);
  }
}
