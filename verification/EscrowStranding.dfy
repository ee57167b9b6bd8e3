/** Room does run out: a run of the owner's own transactions and outside transfers after
    which a token is in the escrow that nobody can take out. */
module EscrowStranding {
  import opened Machine
  import opened EscrowState
  import opened EscrowSpec
  import opened EscrowInvariants
  import opened EscrowTraces
  import opened EscrowExit
  import opened EscrowFullExit
  import MapSum

  /** A plan that succeeds is a run. */
  lemma {:induction false} PlanIsRun(w: World, plan: seq<Event>, n: nat)
    requires n <= |plan| && RunPlan(w, plan).Some?
    ensures RunPlan(w, plan[..n]) == Some(At(w, plan, n))
  {
    hide Step;
    PlanAppend(w, plan[..n], plan[n..]);
    assert plan[..n] + plan[n..] == plan;
    if n > 0 {
      PlanIsRun(w, plan, n - 1);
      PlanAppend(w, plan[..n - 1], [plan[n - 1]]);
      assert plan[..n - 1] + [plan[n - 1]] == plan[..n];
      LastStep(At(w, plan, n - 1), plan[n - 1]);
    }
  }

  lemma LastStep(w: World, e: Event)
    ensures RunPlan(w, [e]) == match Step(w, e) case Ok(next) => Some(next) case Err(_) => None
  {
    hide Step;
    assert [e][1..] == [];
  }

  /** The owner sends tokens to the escrow as an ordinary transfer. */
  lemma TopUp(w: World, ctx: Context, amount: u64) returns (next: World)
    requires SelfDelegated(w, ctx) && amount <= w.ledger[ctx.signer]
    ensures Step(w, WalletTransfer(ctx.signer, w.address, amount)) == Ok(next)
    ensures SelfDelegated(next, ctx) && next.account == w.account && next.address == w.address
    ensures Balance(next) == Balance(w) + amount && next.ledger[ctx.signer] == w.ledger[ctx.signer] - amount
  {
    var e := WalletTransfer(ctx.signer, w.address, amount);
    MapSum.TwoAtMostTotal<Pubkey>(w.ledger, w.address, ctx.signer);
    TransferMoves(w.ledger, ctx.signer, w.address, amount);
    next := Step(w, e).value;
    StepKeepsInv(w, e);
  }

  /** Everything in, everything out through one role: the role's counter is full. */
  lemma FillRole(w: World, ctx: Context, role: Role) returns (next: World)
    requires SelfDelegated(w, ctx) && Balance(w) == 0 && w.ledger[ctx.signer] == U64_MAX
    requires Taken(w.account.value, role) == 0
    ensures RunPlan(w, [WalletTransfer(ctx.signer, w.address, U64_MAX)] + Chunks(ctx, role, U64_MAX)) == Some(next)
    ensures SelfDelegated(next, ctx) && Balance(next) == 0 && next.ledger[ctx.signer] == U64_MAX
    ensures next.address == w.address
    ensures next.account.value.totalWithdrawn == w.account.value.totalWithdrawn
    ensures forall r :: Taken(next.account.value, r) == if r == role then U64_MAX else Taken(w.account.value, r)
  {
    hide Step, Chunks;
    var mid := TopUp(w, ctx, U64_MAX);
    next := ChunksRun(mid, ctx, role, U64_MAX);
    PlanStep(w, WalletTransfer(ctx.signer, w.address, U64_MAX), Chunks(ctx, role, U64_MAX), mid);
    assert forall r :: Taken(mid.account.value, r) == Taken(w.account.value, r);
  }

  function Opening(ctx: Context, address: Pubkey): seq<Event> {
    [Invoke(ctx, Initialize(0, 0)), WalletTransfer(ctx.signer, address, U64_MAX), Invoke(ctx, Withdraw(U64_MAX))]
  }

  /** The same through the owner's own withdrawal, from the beginning. */
  lemma FillWithdrawn(w: World, ctx: Context) returns (next: World)
    requires w == World(w.address, None, map[ctx.signer := U64_MAX])
    requires ctx.signer != w.address && ctx.signer != DEFAULT_KEY && ctx.decimals == 6
    ensures Genesis(w) && RunPlan(w, Opening(ctx, w.address)) == Some(next)
    ensures Leaving(next, ctx.signer, ctx.mint) && next.address == w.address
    ensures Balance(next) == 0 && next.ledger[ctx.signer] == U64_MAX
    ensures next.account.value.totalWithdrawn == U64_MAX
    ensures forall role :: Taken(next.account.value, role) == 0
  {
    MapSum.Split<Pubkey>(w.ledger, ctx.signer);
    assert w.ledger - {ctx.signer} == map[];
    var es := Opening(ctx, w.address);
    var w1 := Step(w, es[0]).value;
    assert w1.ledger == map[ctx.signer := U64_MAX, w.address := 0];
    var w2 := Step(w1, es[1]).value;
    assert w2.ledger == map[ctx.signer := 0, w.address := U64_MAX];
    StepKeepsInv(w, es[0]);
    StepKeepsInv(w1, es[1]);
    next := SpendAll(w2, es[2], ctx, w1.account.value);
    PlanStep(w2, es[2], [], next);
    PlanStep(w1, es[1], [es[2]] + [], w2);
    PlanStep(w, es[0], [es[1]] + ([es[2]] + []), w1);
    assert es == [es[0]] + ([es[1]] + ([es[2]] + []));
  }

  lemma SpendAll(w: World, e: Event, ctx: Context, a: Account) returns (next: World)
    requires Inv(w) && e == Invoke(ctx, Withdraw(U64_MAX)) && w.account == Some(a)
    requires a.user == ctx.signer && a.tokenMint == ctx.mint && a.flags == 0
    requires a.totalWithdrawn == 0 && a.totalFeesPaid == 0 && a.totalTraded == 0
    requires w.ledger == map[ctx.signer := 0, w.address := U64_MAX]
    ensures Step(w, e) == Ok(next) && Leaving(next, ctx.signer, ctx.mint) && next.address == w.address
    ensures Balance(next) == 0 && next.ledger[ctx.signer] == U64_MAX
    ensures next.account.value.totalWithdrawn == U64_MAX
    ensures forall role :: Taken(next.account.value, role) == 0
  {
    next := Step(w, e).value;
    StepKeepsInv(w, e);
    assert next.ledger == map[ctx.signer := U64_MAX, w.address := 0];
  }

  ghost predicate ClockIs(plan: seq<Event>, now: int) {
    forall e :: e in plan && e.Invoke? ==> e.ctx.now == now
  }

  lemma TwoClocks(p: seq<Event>, q: seq<Event>, now: int, later: int)
    requires ClockIs(p, now) && ClockIs(q, later) && now <= later
    ensures MonotoneClock(p + q)
  {
    forall j, k | 0 <= j < k < |p + q| && (p + q)[j].Invoke? && (p + q)[k].Invoke?
      ensures (p + q)[j].ctx.now <= (p + q)[k].ctx.now
    {
      assert (p + q)[j] in p || (p + q)[j] in q;
      assert j >= |p| ==> (p + q)[j] in q;
      assert k < |p| ==> (p + q)[k] in p;
      assert (p + q)[k] in p || (p + q)[k] in q;
    }
  }

  /** A token that stays for good: all three counters are full, the owner is the only
      other holder, and no continuation by anybody, short of a close, takes it out. */
  ghost predicate Stranded(w: World) {
    && w.account.Some? && Balance(w) == 1
    && forall plan :: NeverCloses(plan) && RunPlan(w, plan).Some? ==> Balance(RunPlan(w, plan).value) >= 1
  }

  lemma FullCountersStrand(w: World)
    requires Inv(w) && w.account.Some? && Balance(w) == 1 && Room(w.account.value) == 0
    ensures Stranded(w)
  {
    forall plan | NeverCloses(plan) && RunPlan(w, plan).Some?
      ensures Balance(RunPlan(w, plan).value) >= 1
    {
      BeyondRoomStays(w, plan);
    }
  }

  function TopUpAll(ctx: Context, address: Pubkey, role: Role): seq<Event> {
    [WalletTransfer(ctx.signer, address, U64_MAX)] + Chunks(ctx, role, U64_MAX)
  }

  /** Fill the withdrawal counter and delegate to oneself; one time-lock later fill the
      roles' counters and send one more token. */
  function FirstPart(ctx: Context, address: Pubkey): seq<Event> {
    Opening(ctx, address) + Preparation(ctx)
  }

  function SecondPart(later: Context, address: Pubkey): seq<Event> {
    TopUpAll(later, address, Platform) + TopUpAll(later, address, Trading)
    + [WalletTransfer(later.signer, address, 1)]
  }

  lemma SecondPartRuns(w: World, later: Context) returns (end: World)
    requires SelfDelegated(w, later) && Balance(w) == 0 && w.ledger[later.signer] == U64_MAX
    requires w.account.value.totalWithdrawn == U64_MAX
    requires forall role :: Taken(w.account.value, role) == 0
    ensures RunPlan(w, SecondPart(later, w.address)) == Some(end)
    ensures Inv(end) && end.account.Some? && Balance(end) == 1 && Room(end.account.value) == 0
  {
    hide Step, Chunks;
    var w1 := FillRole(w, later, Platform);
    var w2 := FillRole(w1, later, Trading);
    end := TopUp(w2, later, 1);
    assert Taken(w2.account.value, Platform) == Taken(w2.account.value, Trading) == U64_MAX;
    LastStep(w2, WalletTransfer(later.signer, w.address, 1));
    PlanAppend(w, TopUpAll(later, w.address, Platform), TopUpAll(later, w.address, Trading));
    PlanAppend(w, TopUpAll(later, w.address, Platform) + TopUpAll(later, w.address, Trading),
               [WalletTransfer(later.signer, w.address, 1)]);
  }

  lemma StrandingRuns(w: World, ctx: Context, later: Context) returns (end: World)
    requires w == World(w.address, None, map[ctx.signer := U64_MAX])
    requires ctx.signer != w.address && ctx.signer != DEFAULT_KEY && ctx.decimals == 6 && ctx.now > 0
    requires later.signer == ctx.signer && later.mint == ctx.mint && later.now == ctx.now + MIN_AUTHORITY_AGE
    ensures Genesis(w) && RunPlan(w, FirstPart(ctx, w.address) + SecondPart(later, w.address)) == Some(end)
    ensures Inv(end) && end.account.Some? && Balance(end) == 1 && Room(end.account.value) == 0
  {
    hide Step, SecondPart, Opening, Preparation;
    var w1 := FillWithdrawn(w, ctx);
    var w2 := PreparationRuns(w1, ctx, later);
    assert forall role :: Taken(w2.account.value, role) == Taken(w1.account.value, role);
    end := SecondPartRuns(w2, later);
    PlanAppend(w, Opening(ctx, w.address), Preparation(ctx));
    PlanAppend(w, FirstPart(ctx, w.address), SecondPart(later, w.address));
  }

  lemma FirstClock(ctx: Context, address: Pubkey)
    ensures ClockIs(FirstPart(ctx, address), ctx.now)
  {
  }

  lemma SecondClock(later: Context, address: Pubkey)
    ensures ClockIs(SecondPart(later, address), later.now)
  {
    hide Chunks;
    ChunksSigned(later, Platform, U64_MAX);
    ChunksSigned(later, Trading, U64_MAX);
    var p, q := TopUpAll(later, address, Platform), TopUpAll(later, address, Trading);
    assert ClockIs(p, later.now) && ClockIs(q, later.now);
    hide TopUpAll;
  }

  lemma StrandingClock(ctx: Context, later: Context, address: Pubkey)
    requires 0 < ctx.now <= later.now
    ensures var es := FirstPart(ctx, address) + SecondPart(later, address);
            PositiveClock(es) && MonotoneClock(es)
  {
    hide FirstPart, SecondPart;
    var p, q := FirstPart(ctx, address), SecondPart(later, address);
    FirstClock(ctx, address);
    SecondClock(later, address);
    TwoClocks(p, q, ctx.now, later.now);
    forall k | 0 <= k < |p + q| && (p + q)[k].Invoke? ensures (p + q)[k].ctx.now > 0 {
      assert (p + q)[k] in p || (p + q)[k] in q;
    }
  }

  /** Such a state is reached by a run with a positive monotone clock, without a single
      deposit, whoever the owner is. */
  lemma TokensCanStrand(user: Pubkey, address: Pubkey, mint: Pubkey) returns (es: seq<Event>)
    requires user != address && user != DEFAULT_KEY
    ensures var w := World(address, None, map[user := U64_MAX]);
            && Genesis(w) && PositiveClock(es) && MonotoneClock(es)
            && Stranded(At(w, es, |es|))
  {
    hide Step, FirstPart, SecondPart, At, RunPlan, Stranded, Supply, PositiveClock, MonotoneClock;
    var w := World(address, None, map[user := U64_MAX]);
    var ctx, later := Context(user, mint, 6, 0, 1, false), Context(user, mint, 6, 0, 301, false);
    var end := StrandingRuns(w, ctx, later);
    es := FirstPart(ctx, address) + SecondPart(later, address);
    StrandingClock(ctx, later, address);
    PlanIsRun(w, es, |es|);
    assert es[..|es|] == es;
    FullCountersStrand(end);
  }
}
