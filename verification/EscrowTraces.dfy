/** Properties of whole runs: the time-lock behind every delegated withdrawal, what a
    pause freezes and for how long. */
module EscrowTraces {
  import opened Machine
  import opened EscrowState
  import opened EscrowSpec
  import opened EscrowEffects
  import opened EscrowInvariants

  /** Ends a delegation: a revocation of the role, or the end of the escrow itself. */
  predicate EndsDelegation(ins: Instruction, role: Role) {
    ins.Close? || Revokes(ins, role)
  }

  predicate DelegatedIn(w: World, es: seq<Event>, j: nat, role: Role, key: Pubkey, at: i64) {
    && Succeeds(w, es, j) && es[j].Invoke?
    && Delegates(es[j].ins, role, key) && es[j].ctx.now == at
    && key != DEFAULT_KEY
  }

  ghost predicate InForceSince(w: World, es: seq<Event>, j: nat, n: nat, role: Role)
    requires n <= |es|
  {
    forall i :: j < i < n && Succeeds(w, es, i) && es[i].Invoke? ==> !EndsDelegation(es[i].ins, role)
  }

  /** How one committed transaction changes a role's authority and activation time. */
  lemma AuthorityChange(w: World, ctx: Context, ins: Instruction, role: Role)
    requires Transaction(w, ctx, ins).Ok? && Transaction(w, ctx, ins).value.account.Some?
    ensures var after := Transaction(w, ctx, ins).value.account.value;
            var key := Authority(after, role);
            && (Delegates(ins, role, key) ==> ActivatedAt(after, role) == ctx.now)
            && (!Delegates(ins, role, key) && key != DEFAULT_KEY ==>
                  && w.account.Some?
                  && !EndsDelegation(ins, role)
                  && Authority(w.account.value, role) == key
                  && ActivatedAt(w.account.value, role) == ActivatedAt(after, role))
  {
    Committed(w, ctx, ins);
    var next := Transaction(w, ctx, ins).value.account;
    hide Transaction;
    if !ins.Initialize? {
      EffectOnRole(w.account.value, next.value, ctx, ins, role);
    }
    hide Effect;
  }

  /** An authority on record was delegated, to exactly that key, at the recorded
      activation time, and has been in force ever since. */
  lemma {:induction false} LastDelegation(w: World, es: seq<Event>, n: nat, role: Role) returns (j: nat)
    requires w.account.None? && n <= |es| && At(w, es, n).account.Some?
    requires Authority(At(w, es, n).account.value, role) != DEFAULT_KEY
    ensures j < n
    ensures var a := At(w, es, n).account.value;
            DelegatedIn(w, es, j, role, Authority(a, role), ActivatedAt(a, role))
    ensures InForceSince(w, es, j, n, role)
  {
    hide Transaction;
    var s, e := At(w, es, n - 1), es[n - 1];
    if e.WalletTransfer? || !Succeeds(w, es, n - 1) {
      j := LastDelegation(w, es, n - 1, role);
    } else {
      AuthorityChange(s, e.ctx, e.ins, role);
      var key := Authority(At(w, es, n).account.value, role);
      if Delegates(e.ins, role, key) {
        j := n - 1;
      } else {
        j := LastDelegation(w, es, n - 1, role);
      }
    }
  }

  lemma RoleMature(w: World, ctx: Context, ins: Instruction, role: Role)
    requires Inv(w) && RoleTakes(ins, role) && Transaction(w, ctx, ins).Ok?
    ensures w.account.Some? && ctx.signer == Authority(w.account.value, role) != DEFAULT_KEY
    ensures ActivatedAt(w.account.value, role) + MIN_AUTHORITY_AGE <= ctx.now
  {
    RoleSigns(w, ctx, ins, role);
    Committed(w, ctx, ins);
    hide Transaction, HasFlag;
  }

  /** Every committed withdrawal of a role at time t by key k goes back to a delegation
      of exactly k at least MIN_AUTHORITY_AGE before t, not revoked in between. */
  lemma TimeLock(w: World, es: seq<Event>, n: nat, role: Role)
    requires Genesis(w) && Succeeds(w, es, n) && es[n].Invoke? && RoleTakes(es[n].ins, role)
    ensures exists j: nat, at: i64 ::
              && 0 <= j < n && at + MIN_AUTHORITY_AGE <= es[n].ctx.now
              && DelegatedIn(w, es, j, role, es[n].ctx.signer, at)
              && InForceSince(w, es, j, n, role)
  {
    Reachable(w, es, n);
    RoleMature(At(w, es, n), es[n].ctx, es[n].ins, role);
    hide Transaction, At, InForceSince;
    var a := At(w, es, n).account.value;
    var j := LastDelegation(w, es, n, role);
    assert DelegatedIn(w, es, j, role, es[n].ctx.signer, ActivatedAt(a, role));
  }

  predicate PausedIn(w: World) {
    w.account.Some? && IsPaused(w.account.value)
  }

  /** Events lo..hi of the run all start from a paused escrow. */
  ghost predicate PauseWindow(w: World, es: seq<Event>, lo: nat, hi: nat)
    requires lo <= hi <= |es|
  {
    forall k :: lo <= k <= hi ==> PausedIn(At(w, es, k))
  }

  /** While the escrow is paused a transaction leaves both roles as they are, and only
      the emergency withdrawal lowers the balance. */
  lemma PausedStep(w: World, e: Event)
    requires Inv(w) && PausedIn(w)
    ensures var next := Next(w, e);
            && next.account.Some?
            && (forall role :: Authority(next.account.value, role) == Authority(w.account.value, role))
            && (forall role :: ActivatedAt(next.account.value, role) == ActivatedAt(w.account.value, role))
            && (forall role :: IsActive(next.account.value, role) <==> IsActive(w.account.value, role))
            && (Balance(next) < Balance(w) ==> e.Invoke? && e.ins.EmergencyWithdraw? && Step(w, e).Ok?)
            && (PausedIn(next) || (e.Invoke? && e.ins.Unpause? && Step(w, e).Ok?))
  {
    Stepped(w, e);
    if Balance(Next(w, e)) < Balance(w) { PausedOutflow(w, e); }
    if Step(w, e).Ok? && e.Invoke? {
      var a, b := w.account.value, Next(w, e).account.value;
      EffectOnRole(a, b, e.ctx, e.ins, Platform);
      EffectOnRole(a, b, e.ctx, e.ins, Trading);
      EffectOnFlags(a, b, e.ctx, e.ins, Platform);
      EffectOnFlags(a, b, e.ctx, e.ins, Trading);
    }
    hide Next, Step, HasFlag, Effect;
  }

  lemma PausedOutflow(w: World, e: Event)
    requires Inv(w) && PausedIn(w) && Balance(Next(w, e)) < Balance(w)
    ensures e.Invoke? && e.ins.EmergencyWithdraw? && Step(w, e).Ok?
  {
    Stepped(w, e);
    BalanceFollowsFlows(w, e);
    hide Transaction, HasFlag;
  }

  /** Over a whole pause window no authority changes. */
  lemma {:induction false} PauseFreezesAuthorities(w: World, es: seq<Event>, lo: nat, hi: nat, role: Role)
    requires Genesis(w) && lo <= hi <= |es| && PauseWindow(w, es, lo, hi)
    ensures var a, b := At(w, es, lo).account.value, At(w, es, hi).account.value;
            && Authority(a, role) == Authority(b, role)
            && ActivatedAt(a, role) == ActivatedAt(b, role)
            && (IsActive(a, role) <==> IsActive(b, role))
  {
    if lo < hi {
      PauseFreezesAuthorities(w, es, lo, hi - 1, role);
      Reachable(w, es, hi - 1);
      PausedStep(At(w, es, hi - 1), es[hi - 1]);
    }
  }

  lemma EmergencyChecks(w: World, e: Event)
    requires e.Invoke? && e.ins.EmergencyWithdraw? && Step(w, e).Ok?
    ensures !HasActiveAuthority(w.account.value)
  {
    Committed(w, e.ctx, e.ins);
    hide Transaction;
  }

  /** An emergency withdrawal succeeds inside a window only if no authority was active
      when the window began. */
  lemma EmergencyNeedsNoAuthority(w: World, es: seq<Event>, lo: nat, k: nat)
    requires Genesis(w) && lo <= k && Succeeds(w, es, k) && PauseWindow(w, es, lo, k)
    requires es[k].Invoke? && es[k].ins.EmergencyWithdraw?
    ensures !HasActiveAuthority(At(w, es, lo).account.value)
  {
    EmergencyChecks(At(w, es, k), es[k]);
    hide Step, At;
    PauseFreezesAuthorities(w, es, lo, k, Platform);
    PauseFreezesAuthorities(w, es, lo, k, Trading);
  }

  /** Inside a window the balance falls only by emergency withdrawals. */
  lemma PauseGuardsBalance(w: World, es: seq<Event>, lo: nat, hi: nat, k: nat)
    requires Genesis(w) && lo <= k < hi <= |es| && PauseWindow(w, es, lo, hi)
    requires Balance(At(w, es, k + 1)) < Balance(At(w, es, k))
    ensures Succeeds(w, es, k) && es[k].Invoke? && es[k].ins.EmergencyWithdraw?
  {
    Reachable(w, es, k);
    assert PausedIn(At(w, es, k));
    PausedOutflow(At(w, es, k), es[k]);
    hide Step;
  }

  /** The clock never runs backwards between transactions. */
  ghost predicate MonotoneClock(es: seq<Event>) {
    forall j, k :: 0 <= j < k < |es| && es[j].Invoke? && es[k].Invoke? ==> es[j].ctx.now <= es[k].ctx.now
  }

  predicate PausesAt(w: World, es: seq<Event>, j: nat) {
    Succeeds(w, es, j) && es[j].Invoke? && es[j].ins.Pause?
  }

  /** What a pause in the past implies for the present state: either the escrow is still
      paused on a record at least as recent, or the cooldown has gone by. */
  ghost predicate Cooled(s: World, pausedAt: i64, now: i64) {
    if PausedIn(s) then s.account.value.lastPausedAt >= pausedAt && s.account.value.lastPausedAt > 0
    else now >= pausedAt + UNPAUSE_COOLDOWN
  }

  lemma StepCooled(w: World, ctx: Context, ins: Instruction, pausedAt: i64, before: i64)
    requires Inv(w) && Cooled(w, pausedAt, before) && before <= ctx.now && pausedAt <= ctx.now && ctx.now > 0
    ensures Cooled(Next(w, Invoke(ctx, ins)), pausedAt, ctx.now)
  {
    var e := Invoke(ctx, ins);
    Stepped(w, e);
    if Step(w, e).Ok? && !ins.Initialize? && !ins.Close? {
      var a, b := w.account.value, Next(w, e).account.value;
      EffectOnFlags(a, b, ctx, ins, Platform);
      EffectOnPause(a, b, ctx, ins);
    }
    hide Next, Step, HasFlag, Effect;
  }

  lemma EffectOnPause(a: Account, b: Account, ctx: Context, ins: Instruction)
    requires Effect(a, b, ctx, ins)
    ensures b.lastPausedAt == if ins.Pause? then ctx.now else a.lastPausedAt
    ensures ins.Unpause? && a.lastPausedAt > 0 ==> a.lastPausedAt + UNPAUSE_COOLDOWN <= ctx.now
  {
    hide HasFlag, SetFlag, IsMature, WrappingInc;
  }

  lemma PauseStarts(w: World, ctx: Context)
    requires Transaction(w, ctx, Pause).Ok?
    ensures var next := Transaction(w, ctx, Pause).value;
            PausedIn(next) && next.account.value.lastPausedAt == ctx.now
  {
    Committed(w, ctx, Pause);
    hide Transaction;
    var next := Transaction(w, ctx, Pause).value;
    EffectOnFlags(w.account.value, next.account.value, ctx, Pause, Platform);
    hide HasFlag, SetFlag;
  }

  lemma {:induction false} CooledAfterPause(w: World, es: seq<Event>, j: nat, n: nat, now: i64)
    requires Genesis(w) && PositiveClock(es) && MonotoneClock(es)
    requires j < n <= |es| && PausesAt(w, es, j)
    requires forall k :: 0 <= k < n && es[k].Invoke? ==> es[k].ctx.now <= now
    ensures Cooled(At(w, es, n), es[j].ctx.now, now)
  {
    hide Transaction;
    Reachable(w, es, n - 1);
    var e := es[n - 1];
    if n - 1 == j {
      PauseStarts(At(w, es, j), e.ctx);
    } else if e.WalletTransfer? {
      CooledAfterPause(w, es, j, n - 1, now);
    } else {
      CooledAfterPause(w, es, j, n - 1, e.ctx.now);
      StepCooled(At(w, es, n - 1), e.ctx, e.ins, es[j].ctx.now, e.ctx.now);
    }
  }

  predicate Ordinary(ins: Instruction) {
    ins.Deposit? || ins.Withdraw? || ins.WithdrawSubscriptionFee? || ins.WithdrawForTrade?
  }

  /** Under a monotone positive clock an ordinary deposit or withdrawal comes at least
      UNPAUSE_COOLDOWN after every earlier pause. */
  lemma CooldownBeforeOrdinaryUse(w: World, es: seq<Event>, j: nat, n: nat)
    requires Genesis(w) && PositiveClock(es) && MonotoneClock(es)
    requires j < n && PausesAt(w, es, j)
    requires Succeeds(w, es, n) && es[n].Invoke? && Ordinary(es[n].ins)
    ensures es[n].ctx.now >= es[j].ctx.now + UNPAUSE_COOLDOWN
  {
    CooledAfterPause(w, es, j, n, es[n].ctx.now);
  }
}
