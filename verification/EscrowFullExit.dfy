/** The owner's last resort: the two delegated roles have counters of their own, and the
    owner may delegate them to himself. Exactly when the escrow can be emptied at all. */
module EscrowFullExit {
  import opened Machine
  import opened EscrowState
  import opened EscrowSpec
  import opened EscrowEffects
  import opened EscrowInvariants
  import opened EscrowExit
  import MapSum

  /** What the three counters have recorded, and what they can still record. */
  function Spent(a: Account): nat {
    a.totalWithdrawn + a.totalFeesPaid + a.totalTraded
  }

  function Room(a: Account): nat {
    (U64_MAX - a.totalWithdrawn) + (U64_MAX - a.totalFeesPaid) + (U64_MAX - a.totalTraded)
  }

  lemma {:induction false} PlanAppend(w: World, p: seq<Event>, q: seq<Event>)
    ensures RunPlan(w, p + q) == match RunPlan(w, p) case Some(mid) => RunPlan(mid, q) case None => None
    decreases |p|
  {
    hide Step;
    if p == [] {
      assert p + q == q;
    } else {
      assert (p + q)[1..] == p[1..] + q;
      if Step(w, p[0]).Ok? { PlanAppend(Step(w, p[0]).value, p[1..], q); }
    }
  }

  function Takes(role: Role, amount: u64): Instruction {
    match role
    case Platform => WithdrawSubscriptionFee(amount)
    case Trading => WithdrawForTrade(amount)
  }

  /** Withdrawals of a role that add up to an amount, each within the cap. */
  function Chunks(ctx: Context, role: Role, amount: u64): seq<Event> {
    if amount == 0 then []
    else
      var x: u64 := if amount <= Cap(role) then amount else Cap(role);
      [Invoke(ctx, Takes(role, x))] + Chunks(ctx, role, amount - x)
  }

  /** The owner holds both roles, and the time-lock is over. */
  ghost predicate SelfDelegated(w: World, ctx: Context) {
    && Leaving(w, ctx.signer, ctx.mint)
    && (forall role :: Authority(w.account.value, role) == ctx.signer)
    && (forall role :: IsMature(w.account.value, role, ctx.now) == Some(true))
  }

  /** `next` differs from `w` by what a role took out for the owner. */
  ghost predicate TookOut(w: World, next: World, user: Pubkey, role: Role, amount: nat)
    requires w.account.Some? && user in w.ledger
  {
    && next.account.Some? && user in next.ledger && next.address == w.address
    && Balance(next) == Balance(w) - amount
    && next.ledger[user] == w.ledger[user] + amount
    && next.account.value.totalWithdrawn == w.account.value.totalWithdrawn
    && (forall r :: Taken(next.account.value, r)
                    == Taken(w.account.value, r) + if r == role then amount else 0)
  }

  lemma ChunkStep(w: World, ctx: Context, role: Role, x: u64) returns (next: World)
    requires SelfDelegated(w, ctx) && 0 < x <= Cap(role) && x <= Balance(w)
    requires Taken(w.account.value, role) + x <= U64_MAX
    ensures Step(w, Invoke(ctx, Takes(role, x))) == Ok(next)
    ensures SelfDelegated(next, ctx) && TookOut(w, next, ctx.signer, role, x)
  {
    MapSum.TwoAtMostTotal<Pubkey>(w.ledger, w.address, ctx.signer);
    TransferMoves(w.ledger, w.address, ctx.signer, x);
    var e := Invoke(ctx, Takes(role, x));
    assert Step(w, e).Ok?;
    next := Step(w, e).value;
    StepKeepsInv(w, e);
    forall r ensures IsMature(next.account.value, r, ctx.now) == Some(true) {
      assert IsMature(w.account.value, r, ctx.now) == Some(true);
    }
  }

  lemma {:induction false} ChunksRun(w: World, ctx: Context, role: Role, amount: u64) returns (next: World)
    requires SelfDelegated(w, ctx) && amount <= Balance(w)
    requires Taken(w.account.value, role) + amount <= U64_MAX
    ensures RunPlan(w, Chunks(ctx, role, amount)) == Some(next)
    ensures SelfDelegated(next, ctx) && TookOut(w, next, ctx.signer, role, amount)
    decreases amount
  {
    hide Transaction;
    if amount == 0 {
      next := w;
    } else {
      var x: u64 := if amount <= Cap(role) then amount else Cap(role);
      var mid := ChunkStep(w, ctx, role, x);
      next := ChunksRun(mid, ctx, role, amount - x);
      PlanStep(w, Invoke(ctx, Takes(role, x)), Chunks(ctx, role, amount - x), mid);
    }
  }

  /** A step that touches nothing but the roles and the lifetime. */
  ghost predicate FundsKept(w: World, next: World) {
    && SameFunds(w, next)
    && forall role :: Taken(next.account.value, role) == Taken(w.account.value, role)
  }

  lemma UnexpireStep(w: World, ctx: Context) returns (next: World)
    requires Leaving(w, ctx.signer, ctx.mint)
    ensures Step(w, Invoke(ctx, SetMaxLifetime(0))) == Ok(next)
    ensures Leaving(next, ctx.signer, ctx.mint) && FundsKept(w, next)
    ensures next.account.value.maxLifetime == 0
    ensures forall role :: Authority(next.account.value, role) == Authority(w.account.value, role)
  {
    next := Step(w, Invoke(ctx, SetMaxLifetime(0))).value;
    StepKeepsInv(w, Invoke(ctx, SetMaxLifetime(0)));
  }

  lemma RevokeKeepsFunds(w: World, ctx: Context, role: Role)
    requires Leaving(w, ctx.signer, ctx.mint)
    ensures var step := Step(w, Invoke(ctx, if role.Platform? then RevokePlatform else RevokeTrading));
            step.Ok? ==> FundsKept(w, step.value)
  {
  }

  lemma DelegateStep(w: World, ctx: Context, role: Role) returns (next: World)
    requires Leaving(w, ctx.signer, ctx.mint)
    requires w.account.value.maxLifetime == 0 && Authority(w.account.value, role) == DEFAULT_KEY
    ensures Step(w, Invoke(ctx, if role.Platform? then DelegatePlatform(ctx.signer) else DelegateTrading(ctx.signer)))
            == Ok(next)
    ensures Leaving(next, ctx.signer, ctx.mint) && FundsKept(w, next) && next.account.value.maxLifetime == 0
    ensures Authority(next.account.value, role) == ctx.signer && ActivatedAt(next.account.value, role) == ctx.now
    ensures forall other :: other != role ==>
              && Authority(next.account.value, other) == Authority(w.account.value, other)
              && ActivatedAt(next.account.value, other) == ActivatedAt(w.account.value, other)
  {
    var e := Invoke(ctx, if role.Platform? then DelegatePlatform(ctx.signer) else DelegateTrading(ctx.signer));
    next := Step(w, e).value;
    StepKeepsInv(w, e);
    FlagsIndependent(w.account.value.flags, RoleFlag(role), FLAG_PAUSED, true);
  }

  /** Fresh self-delegations, whatever was delegated before and however long expired. */
  function Preparation(ctx: Context): seq<Event> {
    [Invoke(ctx, SetMaxLifetime(0)), Invoke(ctx, RevokePlatform), Invoke(ctx, RevokeTrading),
     Invoke(ctx, DelegatePlatform(ctx.signer)), Invoke(ctx, DelegateTrading(ctx.signer))]
  }

  lemma RunFive(w: World, p: seq<Event>, w1: World, w2: World, w3: World, w4: World, w5: World)
    requires |p| == 5 && Step(w, p[0]) == Ok(w1) && Step(w1, p[1]) == Ok(w2) && Step(w2, p[2]) == Ok(w3)
    requires Step(w3, p[3]) == Ok(w4) && Step(w4, p[4]) == Ok(w5)
    ensures RunPlan(w, p) == Some(w5)
  {
    hide Step;
    PlanStep(w4, p[4], [], w5);
    PlanStep(w3, p[3], [p[4]] + [], w4);
    PlanStep(w2, p[2], [p[3]] + ([p[4]] + []), w3);
    PlanStep(w1, p[1], [p[2]] + ([p[3]] + ([p[4]] + [])), w2);
    PlanStep(w, p[0], [p[1]] + ([p[2]] + ([p[3]] + ([p[4]] + []))), w1);
    assert p == [p[0]] + ([p[1]] + ([p[2]] + ([p[3]] + ([p[4]] + []))));
  }

  lemma PreparationRuns(w: World, ctx: Context, later: Context) returns (next: World)
    requires Leaving(w, ctx.signer, ctx.mint) && ctx.now > 0
    requires later.signer == ctx.signer && later.mint == ctx.mint && later.now == ctx.now + MIN_AUTHORITY_AGE
    ensures RunPlan(w, Preparation(ctx)) == Some(next)
    ensures SelfDelegated(next, later) && FundsKept(w, next)
  {
    hide Transaction;
    var w1 := UnexpireStep(w, ctx);
    RevokeKeepsFunds(w1, ctx, Platform);
    var w2 := RevokeStep(w1, ctx, Platform);
    RevokeKeepsFunds(w2, ctx, Trading);
    var w3 := RevokeStep(w2, ctx, Trading);
    RevocationKeepsLifetime(w1, ctx, Platform);
    RevocationKeepsLifetime(w2, ctx, Trading);
    var w4 := DelegateStep(w3, ctx, Platform);
    next := DelegateStep(w4, ctx, Trading);
    RunFive(w, Preparation(ctx), w1, w2, w3, w4, next);
    Matured(next.account.value, ctx, later);
  }

  lemma RevocationKeepsLifetime(w: World, ctx: Context, role: Role)
    requires Leaving(w, ctx.signer, ctx.mint)
    ensures var step := Transaction(w, ctx, if role.Platform? then RevokePlatform else RevokeTrading);
            step.Ok? ==> step.value.account.Some?
                         && step.value.account.value.maxLifetime == w.account.value.maxLifetime
  {
  }

  lemma Matured(a: Account, ctx: Context, later: Context)
    requires ctx.now > 0 && later.now == ctx.now + MIN_AUTHORITY_AGE
    requires a.platformActivatedAt == ctx.now && a.tradingActivatedAt == ctx.now
    ensures forall role :: IsMature(a, role, later.now) == Some(true)
  {
  }

  /** Every event is a transaction that the owner signs at the given time, not a close. */
  ghost predicate SignedAt(plan: seq<Event>, user: Pubkey, now: int) {
    forall e :: e in plan ==> e.Invoke? && e.ctx.signer == user && e.ctx.now == now && !e.ins.Close?
  }

  /** Two owner-signed stretches, one time-lock apart. */
  ghost predicate OwnerPlan(plan: seq<Event>, user: Pubkey, now: int) {
    exists k :: 0 <= k <= |plan| && SignedAt(plan[..k], user, now) && SignedAt(plan[k..], user, now + MIN_AUTHORITY_AGE)
  }

  lemma {:induction false} ChunksSigned(ctx: Context, role: Role, amount: u64)
    ensures SignedAt(Chunks(ctx, role, amount), ctx.signer, ctx.now)
    decreases amount
  {
    if amount > 0 {
      ChunksSigned(ctx, role, amount - if amount <= Cap(role) then amount else Cap(role));
    }
  }

  /** How much to take through each of the three counters. */
  function Split(a: Account, balance: u64): (parts: (u64, u64, u64))
    requires balance <= Room(a)
    ensures parts.0 + parts.1 + parts.2 == balance
    ensures a.totalWithdrawn + parts.0 <= U64_MAX
    ensures a.totalFeesPaid + parts.1 <= U64_MAX && a.totalTraded + parts.2 <= U64_MAX
  {
    var owner: u64 := if balance <= U64_MAX - a.totalWithdrawn then balance else U64_MAX - a.totalWithdrawn;
    var fees: u64 :=
      if balance - owner <= U64_MAX - a.totalFeesPaid then balance - owner else U64_MAX - a.totalFeesPaid;
    (owner, fees, balance - owner - fees)
  }

  /** From the moment the roles are mature: fees, trades, then the ordinary exit. */
  lemma SecondStretch(w: World, ctx: Context) returns (plan: seq<Event>, end: World)
    requires SelfDelegated(w, ctx) && Balance(w) <= Room(w.account.value)
    requires ctx == OwnerContext(w.account.value, ctx.now)
    ensures SignedAt(plan, ctx.signer, ctx.now) && RunPlan(w, plan) == Some(end)
    ensures Out(end, ctx.signer, w.ledger[ctx.signer] + Balance(w))
  {
    hide Step, Chunks;
    var (owner, fees, trades) := Split(w.account.value, Balance(w));
    assert Taken(w.account.value, Platform) == w.account.value.totalFeesPaid;
    var w1 := ChunksRun(w, ctx, Platform, fees);
    assert Taken(w1.account.value, Trading) == Taken(w.account.value, Trading);
    var w2 := ChunksRun(w1, ctx, Trading, trades);
    LeaveFrom(w2, ctx);
    end := RunPlan(w2, ExitPlan(w2, ctx.now)).value;
    var p, q, r := Chunks(ctx, Platform, fees), Chunks(ctx, Trading, trades), ExitPlan(w2, ctx.now);
    ChunksSigned(ctx, Platform, fees);
    ChunksSigned(ctx, Trading, trades);
    PlanAppend(w, p, q);
    PlanAppend(w, p + q, r);
    plan := p + q + r;
  }

  /** From the present state: unpause if need be and delegate both roles to oneself. */
  lemma FirstStretch(w: World, now: i64) returns (plan: seq<Event>, next: World)
    requires Inv(w) && MayLeave(w, now) && 0 < now <= I64_MAX - MIN_AUTHORITY_AGE
    ensures SignedAt(plan, w.account.value.user, now) && RunPlan(w, plan) == Some(next)
    ensures SelfDelegated(next, OwnerContext(w.account.value, now + MIN_AUTHORITY_AGE)) && FundsKept(w, next)
  {
    hide Transaction;
    var ctx, later := OwnerContext(w.account.value, now), OwnerContext(w.account.value, now + MIN_AUTHORITY_AGE);
    if IsPaused(w.account.value) {
      var w1 := UnpauseStep(w, ctx);
      UnpauseKeepsTaken(w, ctx);
      next := PreparationRuns(w1, ctx, later);
      PlanStep(w, Invoke(ctx, Unpause), Preparation(ctx), w1);
      plan := [Invoke(ctx, Unpause)] + Preparation(ctx);
    } else {
      next := PreparationRuns(w, ctx, later);
      plan := Preparation(ctx);
    }
  }

  lemma UnpauseKeepsTaken(w: World, ctx: Context)
    requires Transaction(w, ctx, Unpause).Ok?
    ensures var next := Transaction(w, ctx, Unpause).value.account;
            next.Some? && forall role :: Taken(next.value, role) == Taken(w.account.value, role)
  {
  }

  /** The owner empties the escrow whenever the three counters together have room. */
  lemma FullExit(w: World, now: i64) returns (plan: seq<Event>, end: World)
    requires Inv(w) && MayLeave(w, now) && 0 < now <= I64_MAX - MIN_AUTHORITY_AGE
    requires Balance(w) <= Room(w.account.value)
    ensures OwnerPlan(plan, w.account.value.user, now) && RunPlan(w, plan) == Some(end)
    ensures var user := w.account.value.user; Out(end, user, w.ledger[user] + Balance(w))
  {
    hide Step;
    var p, mid := FirstStretch(w, now);
    assert Taken(mid.account.value, Platform) == Taken(w.account.value, Platform);
    assert Taken(mid.account.value, Trading) == Taken(w.account.value, Trading);
    var q;
    q, end := SecondStretch(mid, OwnerContext(w.account.value, now + MIN_AUTHORITY_AGE));
    PlanAppend(w, p, q);
    plan := p + q;
    assert plan[..|p|] == p && plan[|p|..] == q;
  }

  ghost predicate NeverCloses(plan: seq<Event>) {
    forall e :: e in plan && e.Invoke? ==> !e.ins.Close?
  }

  /** What leaves the escrow is recorded, so balance and records never shrink together. */
  lemma NothingLeavesUnrecorded(w: World, e: Event)
    requires Inv(w) && w.account.Some? && Step(w, e).Ok? && !(e.Invoke? && e.ins.Close?)
    ensures var next := Step(w, e).value;
            && Inv(next) && next.account.Some?
            && Balance(next) + Spent(next.account.value) >= Balance(w) + Spent(w.account.value)
  {
    StepKeepsInv(w, e);
    BalanceFollowsFlows(w, e);
    if e.Invoke? {
      SpentFollowsOutflow(w, e.ctx, e.ins);
    }
    hide Transaction;
  }

  lemma SpentFollowsOutflow(w: World, ctx: Context, ins: Instruction)
    requires Inv(w) && w.account.Some? && Transaction(w, ctx, ins).Ok? && !ins.Close?
    ensures var next := Transaction(w, ctx, ins).value.account;
            next.Some? && Spent(next.value) == Spent(w.account.value) + Outflow(w, Invoke(ctx, ins))
  {
    hide Transaction, HasFlag, SetFlag, IsMature, CanUnpause, WrappingInc;
    Committed(w, ctx, ins);
  }

  lemma {:induction false} PlanRecords(w: World, plan: seq<Event>)
    requires Inv(w) && w.account.Some? && NeverCloses(plan) && RunPlan(w, plan).Some?
    ensures var end := RunPlan(w, plan).value;
            && end.account.Some?
            && Balance(end) + Spent(end.account.value) >= Balance(w) + Spent(w.account.value)
    decreases |plan|
  {
    if plan != [] {
      NothingLeavesUnrecorded(w, plan[0]);
      hide Step;
      PlanRecords(Step(w, plan[0]).value, plan[1..]);
    }
  }

  /** Nobody, owner or not, can take out more than the counters have room for. */
  lemma BeyondRoomStays(w: World, plan: seq<Event>)
    requires Inv(w) && w.account.Some? && NeverCloses(plan) && RunPlan(w, plan).Some?
    ensures Balance(RunPlan(w, plan).value) + Room(w.account.value) >= Balance(w)
  {
    PlanRecords(w, plan);
    hide RunPlan;
  }

  /** Some plan that the owner alone signs ends with no authority, an empty escrow and
      the whole balance in the owner's hands. */
  ghost predicate CanEmpty(w: World, now: int)
    requires w.account.Some? && w.account.value.user in w.ledger
  {
    var user := w.account.value.user;
    exists plan ::
      && OwnerPlan(plan, user, now) && RunPlan(w, plan).Some?
      && Out(RunPlan(w, plan).value, user, w.ledger[user] + Balance(w))
  }

  lemma EmptyIff(w: World, now: i64)
    requires Inv(w) && MayLeave(w, now) && 0 < now <= I64_MAX - MIN_AUTHORITY_AGE
    ensures CanEmpty(w, now) <==> Balance(w) <= Room(w.account.value)
  {
    hide RunPlan, Step;
    var user := w.account.value.user;
    if Balance(w) <= Room(w.account.value) {
      var plan, end := FullExit(w, now);
      assert Out(RunPlan(w, plan).value, user, w.ledger[user] + Balance(w));
    }
    if CanEmpty(w, now) {
      var plan :| && OwnerPlan(plan, user, now) && RunPlan(w, plan).Some?
                  && Out(RunPlan(w, plan).value, user, w.ledger[user] + Balance(w));
      OwnerPlanNeverCloses(plan, user, now);
      BeyondRoomStays(w, plan);
    }
  }

  /** Exactly when the owner of a reachable escrow can get everything out without closing
      it: when the three counters together have room for the balance. */
  lemma ExitPossibleIff(w: World, es: seq<Event>, n: nat, now: i64)
    requires Genesis(w) && n <= |es| && MayLeave(At(w, es, n), now)
    requires 0 < now <= I64_MAX - MIN_AUTHORITY_AGE
    ensures CanEmpty(At(w, es, n), now) <==> Balance(At(w, es, n)) <= Room(At(w, es, n).account.value)
  {
    hide CanEmpty, At, Step;
    Reachable(w, es, n);
    EmptyIff(At(w, es, n), now);
  }

  lemma OwnerPlanNeverCloses(plan: seq<Event>, user: Pubkey, now: int)
    requires OwnerPlan(plan, user, now)
    ensures NeverCloses(plan)
  {
    var k :| 0 <= k <= |plan| && SignedAt(plan[..k], user, now) && SignedAt(plan[k..], user, now + MIN_AUTHORITY_AGE);
    assert plan == plan[..k] + plan[k..];
  }
}
