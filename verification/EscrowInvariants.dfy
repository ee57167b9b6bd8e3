/** What every reachable state of the escrow satisfies: flag words that mirror the
    authorities, conserved tokens, bounded balances. */
module EscrowInvariants {
  import opened Machine
  import opened EscrowState
  import opened EscrowSpec
  import opened EscrowEffects
  import MapSum

  ghost predicate SoundRole(a: Account, role: Role) {
    && (IsActive(a, role) <==> Authority(a, role) != DEFAULT_KEY)
    && (ActivatedAt(a, role) != 0 ==> IsActive(a, role))
  }

  ghost predicate Sound(a: Account) {
    && a.flags & FLAGS_RESERVED == 0
    && SoundRole(a, Platform) && SoundRole(a, Trading)
    && 0 < a.maxBalance <= MAX_ALLOWED_BALANCE
    && a.maxLifetime >= 0
  }

  ghost predicate Inv(w: World) {
    && Supply(w.ledger) <= U64_MAX
    && (w.account.Some? <==> w.address in w.ledger)
    && (w.account.Some? ==>
          Sound(w.account.value) && w.account.value.user != w.address && w.account.value.user != DEFAULT_KEY)
  }

  /** A token move never creates or destroys tokens. */
  lemma TransferConserves(ledger: Ledger, from: Pubkey, to: Pubkey, amount: u64)
    ensures var m := Transfer(ledger, from, to, amount);
            m.Moved? ==>
              && Supply(m.ledger) == Supply(ledger)
              && m.ledger.Keys == ledger.Keys
  {
    var m := Transfer(ledger, from, to, amount);
    if m.Moved? && from != to {
      var debited := ledger[from := ledger[from] - amount];
      MapSum.Update<Pubkey>(ledger, from, ledger[from] - amount);
      MapSum.Update<Pubkey>(debited, to, debited[to] + amount);
      assert m.ledger == debited[to := debited[to] + amount];
    }
  }

  lemma TransferMoves(ledger: Ledger, from: Pubkey, to: Pubkey, amount: u64)
    requires from != to && Transfer(ledger, from, to, amount).Moved?
    ensures var after := Transfer(ledger, from, to, amount).ledger;
            && from in after && to in after
            && after[from] == ledger[from] - amount && after[to] == ledger[to] + amount
            && forall k :: k in ledger && k != from && k != to ==> k in after && after[k] == ledger[k]
  {
  }

  /** What a successful close wipes out along with the token account. */
  function Dust(w: World, e: Event): nat {
    if e.Invoke? && e.ins.Close? && Step(w, e).Ok? then Balance(w) else 0
  }

  /** The sum over all token accounts is constant; only a close may destroy the
      dust, at most DUST_THRESHOLD, that was left in the escrow. */
  lemma LedgerConserved(w: World, e: Event)
    requires w.account.None? ==> w.address !in w.ledger
    ensures Supply(Next(w, e).ledger) + Dust(w, e) == Supply(w.ledger)
    ensures Dust(w, e) <= DUST_THRESHOLD
  {
    match e
    case WalletTransfer(from, to, amount) => TransferConserves(w.ledger, from, to, amount);
    case Invoke(ctx, ins) =>
      if Step(w, e).Ok? {
        LedgerCommitted(w, ctx, ins);
        hide Transaction, Transfer;
        if ins.Initialize? {
          MapSum.Update<Pubkey>(w.ledger, w.address, 0);
        } else if ins.Close? {
          MapSum.Remove<Pubkey>(w.ledger, w.address);
        } else if ins.Deposit? {
          TransferConserves(w.ledger, ctx.signer, w.address, ins.amount);
        } else if MovesTokens(ins) {
          TransferConserves(w.ledger, w.address, ctx.signer, ins.amount);
        }
      }
  }

  lemma StepKeepsRole(w: World, ctx: Context, ins: Instruction, role: Role)
    requires Inv(w) && Transaction(w, ctx, ins).Ok?
    ensures var a := Transaction(w, ctx, ins).value.account;
            a.Some? ==> SoundRole(a.value, role)
  {
    Committed(w, ctx, ins);
    var next := Transaction(w, ctx, ins).value.account;
    hide Transaction;
    if next.Some? && !ins.Initialize? {
      EffectKeepsRole(w.account.value, next.value, ctx, ins, role);
    }
    hide Effect;
  }

  lemma EffectKeepsRole(a: Account, b: Account, ctx: Context, ins: Instruction, role: Role)
    requires Effect(a, b, ctx, ins) && SoundRole(a, role)
    ensures SoundRole(b, role)
  {
    hide Effect, HasFlag;
    EffectOnFlags(a, b, ctx, ins, role);
    EffectOnRole(a, b, ctx, ins, role);
  }

  lemma StepKeepsRest(w: World, ctx: Context, ins: Instruction)
    requires Inv(w) && Transaction(w, ctx, ins).Ok?
    ensures var a := Transaction(w, ctx, ins).value.account;
            a.Some? ==>
              && a.value.flags & FLAGS_RESERVED == 0
              && 0 < a.value.maxBalance <= MAX_ALLOWED_BALANCE && a.value.maxLifetime >= 0
              && a.value.user != w.address && a.value.user != DEFAULT_KEY
  {
    Committed(w, ctx, ins);
    var next := Transaction(w, ctx, ins).value.account;
    hide Transaction;
    if next.Some? && !ins.Initialize? {
      EffectOnFlags(w.account.value, next.value, ctx, ins, Platform);
    }
    hide HasFlag, SetFlag, IsMature, CanUnpause, WrappingInc;
  }

  lemma StepKeepsSound(w: World, ctx: Context, ins: Instruction)
    requires Inv(w) && Transaction(w, ctx, ins).Ok?
    ensures var a := Transaction(w, ctx, ins).value.account;
            a.Some? ==> Sound(a.value) && a.value.user != w.address && a.value.user != DEFAULT_KEY
  {
    StepKeepsRole(w, ctx, ins, Platform);
    StepKeepsRole(w, ctx, ins, Trading);
    StepKeepsRest(w, ctx, ins);
    hide Transaction;
  }

  /** The account and its token account come and go together. */
  lemma StepKeepsTokenAccount(w: World, e: Event)
    requires w.account.Some? <==> w.address in w.ledger
    ensures var next := Next(w, e);
            && next.address == w.address
            && (next.account.Some? <==> next.address in next.ledger)
            && (e.WalletTransfer? ==> next.account == w.account)
  {
    match e
    case WalletTransfer(from, to, amount) => TransferConserves(w.ledger, from, to, amount);
    case Invoke(ctx, ins) =>
      if Step(w, e).Ok? {
        Committed(w, ctx, ins);
        LedgerCommitted(w, ctx, ins);
        hide Transaction, Transfer, Effect;
        if ins.Deposit? {
          TransferConserves(w.ledger, ctx.signer, w.address, ins.amount);
        } else if MovesTokens(ins) {
          TransferConserves(w.ledger, w.address, ctx.signer, ins.amount);
        }
      }
  }

  lemma StepKeepsInv(w: World, e: Event)
    requires Inv(w)
    ensures Inv(Next(w, e)) && Next(w, e).address == w.address
  {
    LedgerConserved(w, e);
    StepKeepsTokenAccount(w, e);
    if e.Invoke? && Step(w, e).Ok? {
      StepKeepsSound(w, e.ctx, e.ins);
    }
    hide Transaction, Transfer;
  }

  /** Every reachable state satisfies the invariant. */
  lemma {:induction false} Reachable(w: World, es: seq<Event>, n: nat)
    requires Genesis(w) && n <= |es|
    ensures Inv(At(w, es, n)) && At(w, es, n).address == w.address
  {
    if n > 0 {
      Reachable(w, es, n - 1);
      StepKeepsInv(At(w, es, n - 1), es[n - 1]);
    }
  }

  /** In every reachable state a role's flag is set exactly when its authority is set,
      independently for the two roles, and the reserved flag bits are zero. */
  lemma FlagsMirrorAuthorities(w: World, es: seq<Event>, n: nat)
    requires Genesis(w) && n <= |es| && At(w, es, n).account.Some?
    ensures var a := At(w, es, n).account.value;
            && a.flags & FLAGS_RESERVED == 0
            && (forall role :: IsActive(a, role) <==> Authority(a, role) != DEFAULT_KEY)
            && (forall role :: ActivatedAt(a, role) != 0 ==> IsActive(a, role))
  {
    Reachable(w, es, n);
  }

  ghost predicate PositiveClock(es: seq<Event>) {
    forall k :: 0 <= k < |es| && es[k].Invoke? ==> es[k].ctx.now > 0
  }

  ghost predicate ActivationMirrors(w: World, role: Role) {
    w.account.Some? ==> (IsActive(w.account.value, role) <==> ActivatedAt(w.account.value, role) != 0)
  }

  lemma StepMirrorsActivation(w: World, ctx: Context, ins: Instruction, role: Role)
    requires Inv(w) && ctx.now > 0 && ActivationMirrors(w, role)
    ensures ActivationMirrors(Next(w, Invoke(ctx, ins)), role)
  {
    Stepped(w, Invoke(ctx, ins));
    var next := Next(w, Invoke(ctx, ins)).account;
    hide Next, Step;
    if Step(w, Invoke(ctx, ins)).Ok? && !ins.Initialize? && !ins.Close? {
      EffectOnFlags(w.account.value, next.value, ctx, ins, role);
      EffectOnRole(w.account.value, next.value, ctx, ins, role);
    }
    hide HasFlag, Effect;
  }

  /** With positive clock values the activation time is a third mirror of the flag. */
  lemma {:induction false} ActivationMirrorsFlag(w: World, es: seq<Event>, n: nat, role: Role)
    requires Genesis(w) && n <= |es| && PositiveClock(es)
    ensures ActivationMirrors(At(w, es, n), role)
  {
    if n > 0 {
      Reachable(w, es, n - 1);
      ActivationMirrorsFlag(w, es, n - 1, role);
      var e := es[n - 1];
      if e.Invoke? {
        StepMirrorsActivation(At(w, es, n - 1), e.ctx, e.ins, role);
      }
    }
  }

  predicate OwnerTakes(ins: Instruction) {
    ins.Withdraw? || ins.EmergencyWithdraw?
  }

  predicate RoleTakes(ins: Instruction, role: Role) {
    match role
    case Platform => ins.WithdrawSubscriptionFee?
    case Trading => ins.WithdrawForTrade?
  }

  /** No reachable state lets both the owner and a delegated role take tokens out. */
  lemma OwnerAndRoleExclusive(w: World, es: seq<Event>, n: nat, c1: Context, i1: Instruction,
                              c2: Context, i2: Instruction, role: Role)
    requires Genesis(w) && n <= |es|
    requires OwnerTakes(i1) && RoleTakes(i2, role)
    ensures !(Transaction(At(w, es, n), c1, i1).Ok? && Transaction(At(w, es, n), c2, i2).Ok?)
  {
    hide At, Transaction;
    Reachable(w, es, n);
    var s := At(w, es, n);
    if Transaction(s, c1, i1).Ok? && Transaction(s, c2, i2).Ok? {
      Committed(s, c1, i1);
      Committed(s, c2, i2);
      RoleSigns(s, c2, i2, role);
    }
  }

  /** A role withdrawal is signed by an authority that is set and active. */
  lemma RoleSigns(w: World, ctx: Context, ins: Instruction, role: Role)
    requires Inv(w) && RoleTakes(ins, role) && Transaction(w, ctx, ins).Ok?
    ensures w.account.Some? && ctx.signer == Authority(w.account.value, role) && IsActive(w.account.value, role)
  {
    Committed(w, ctx, ins);
    assert ctx.signer != DEFAULT_KEY;
    hide Transaction, HasFlag, IsMature;
  }

  /** Tokens that wallets sent to the escrow on their own, since its initialisation. */
  function Received(w: World, e: Event, before: nat): nat {
    if Step(w, e).Err? then before
    else if e.WalletTransfer? then if e.to == w.address then before + e.amount else before
    else if e.ins.Initialize? then 0
    else before
  }

  function Outside(w: World, es: seq<Event>, n: nat): nat
    requires n <= |es|
  {
    if n == 0 then 0 else Received(At(w, es, n - 1), es[n - 1], Outside(w, es, n - 1))
  }

  ghost predicate Conserved(w: World, outside: nat) {
    w.account.Some? ==>
      var a := w.account.value;
      && Balance(w) + a.totalWithdrawn + a.totalFeesPaid + a.totalTraded == a.totalDeposited + outside
      && Balance(w) <= a.maxBalance + outside
  }

  /** What a committed event brings into the escrow's token account, and takes out. */
  function Inflow(w: World, e: Event): nat {
    match e
    case WalletTransfer(_, to, amount) => if to == w.address then amount else 0
    case Invoke(_, ins) => if ins.Deposit? then ins.amount else 0
  }

  function Outflow(w: World, e: Event): nat {
    if e.WalletTransfer? then 0
    else
      match e.ins
      case WithdrawSubscriptionFee(amount) => amount
      case WithdrawForTrade(amount) => amount
      case Withdraw(amount) => amount
      case EmergencyWithdraw(amount) => amount
      case Close => Balance(w)
      case _ => 0
  }

  lemma BalanceFollowsFlows(w: World, e: Event)
    requires Inv(w) && Step(w, e).Ok?
    ensures Balance(Next(w, e)) == Balance(w) + Inflow(w, e) - Outflow(w, e)
  {
    match e
    case WalletTransfer(from, to, amount) =>
      if from != to { TransferMoves(w.ledger, from, to, amount); }
    case Invoke(ctx, ins) =>
      LedgerCommitted(w, ctx, ins);
      StepKeepsTokenAccount(w, e);
      hide Transaction, Transfer;
      if ins.Deposit? {
        TransferMoves(w.ledger, ctx.signer, w.address, ins.amount);
      } else if MovesTokens(ins) {
        TransferMoves(w.ledger, w.address, ctx.signer, ins.amount);
      }
  }

  /** The part of the account that a committed event may count. */
  lemma CountersFollowFlow(w: World, ctx: Context, ins: Instruction)
    requires Inv(w) && !ins.Initialize? && Transaction(w, ctx, ins).Ok?
    ensures var next := Transaction(w, ctx, ins).value.account;
            next.Some? ==>
              var a, b := w.account.value, next.value;
              && b.maxBalance == a.maxBalance
              && b.totalDeposited - b.totalWithdrawn - b.totalFeesPaid - b.totalTraded
                 == a.totalDeposited - a.totalWithdrawn - a.totalFeesPaid - a.totalTraded
                    + Inflow(w, Invoke(ctx, ins)) - Outflow(w, Invoke(ctx, ins))
              && (ins.Deposit? ==> Balance(w) + ins.amount <= a.maxBalance)
  {
    Committed(w, ctx, ins);
    if ins.Deposit? { DepositWithinLimit(w, ctx, ins); }
    hide Transaction, HasFlag, SetFlag, IsMature, CanUnpause, WrappingInc;
  }

  lemma DepositWithinLimit(w: World, ctx: Context, ins: Instruction)
    requires Inv(w) && ins.Deposit? && Transaction(w, ctx, ins).Ok?
    ensures Balance(w) + ins.amount <= w.account.value.maxBalance
  {
    hide Transfer, HasFlag, IsExpired;
  }

  lemma StepConserves(w: World, e: Event, outside: nat)
    requires Inv(w) && Conserved(w, outside)
    ensures Conserved(Next(w, e), Received(w, e, outside))
  {
    if Step(w, e).Ok? {
      BalanceFollowsFlows(w, e);
      if e.Invoke? && !e.ins.Initialize? {
        CountersFollowFlow(w, e.ctx, e.ins);
        hide Handled;
      }
    }
  }

  /** In every reachable state the balance and everything that ever left add up to the
      deposits and the outside transfers, and the limit is exceeded by these at most. */
  lemma {:induction false} Conservation(w: World, es: seq<Event>, n: nat)
    requires Genesis(w) && n <= |es|
    ensures Conserved(At(w, es, n), Outside(w, es, n))
  {
    if n > 0 {
      Conservation(w, es, n - 1);
      Reachable(w, es, n - 1);
      StepConserves(At(w, es, n - 1), es[n - 1], Outside(w, es, n - 1));
    }
  }

  lemma FitsCounters(w: World, outside: nat, ctx: Context, ins: Instruction)
    requires Inv(w) && Conserved(w, outside) && w.account.Some?
    requires w.account.value.totalDeposited + outside <= U64_MAX
    requires OwnerTakes(ins) || RoleTakes(ins, Platform) || RoleTakes(ins, Trading)
    ensures Transaction(w, ctx, ins) != Err(MathOverflow)
  {
  }

  /** The overflow branches of the four withdrawal handlers are dead as long as the
      deposits and the outside transfers together fit in u64. */
  lemma WithdrawalsNeverOverflow(w: World, es: seq<Event>, n: nat, ctx: Context, ins: Instruction)
    requires Genesis(w) && n <= |es| && At(w, es, n).account.Some?
    requires At(w, es, n).account.value.totalDeposited + Outside(w, es, n) <= U64_MAX
    requires OwnerTakes(ins) || RoleTakes(ins, Platform) || RoleTakes(ins, Trading)
    ensures Transaction(At(w, es, n), ctx, ins) != Err(MathOverflow)
  {
    Reachable(w, es, n);
    Conservation(w, es, n);
    FitsCounters(At(w, es, n), Outside(w, es, n), ctx, ins);
    hide Transaction;
  }

  ghost predicate NoOutsideTransfers(address: Pubkey, es: seq<Event>) {
    forall k :: 0 <= k < |es| && es[k].WalletTransfer? ==> es[k].to != address
  }

  lemma {:induction false} NothingReceived(w: World, es: seq<Event>, n: nat)
    requires Genesis(w) && n <= |es| && NoOutsideTransfers(w.address, es)
    ensures Outside(w, es, n) == 0
  {
    if n > 0 {
      NothingReceived(w, es, n - 1);
      Reachable(w, es, n - 1);
    }
  }

  /** Without outside transfers the balance stays within the escrow's own limit, and no
      withdrawal can overflow its counter, whatever happened before. */
  lemma ClosedSystem(w: World, es: seq<Event>, n: nat, ctx: Context, ins: Instruction)
    requires Genesis(w) && n <= |es| && NoOutsideTransfers(w.address, es)
    requires At(w, es, n).account.Some?
    requires OwnerTakes(ins) || RoleTakes(ins, Platform) || RoleTakes(ins, Trading)
    ensures Balance(At(w, es, n)) <= At(w, es, n).account.value.maxBalance <= MAX_ALLOWED_BALANCE
    ensures Transaction(At(w, es, n), ctx, ins) != Err(MathOverflow)
  {
    NothingReceived(w, es, n);
    Conservation(w, es, n);
    Reachable(w, es, n);
    WithdrawalsNeverOverflow(w, es, n, ctx, ins);
  }

  /** The amounts a role took out in committed withdrawals since the initialisation. */
  function Takings(w: World, es: seq<Event>, n: nat, role: Role): seq<u64>
    requires n <= |es|
  {
    if n == 0 then []
    else TakingsAfter(Takings(w, es, n - 1, role), es[n - 1], Succeeds(w, es, n - 1), role)
  }

  function Sum(s: seq<u64>): nat {
    if s == [] then 0 else Sum(s[..|s| - 1]) + s[|s| - 1]
  }

  lemma SumAppend(s: seq<u64>, x: u64)
    ensures Sum(s + [x]) == Sum(s) + x
  {
  }

  lemma {:induction false} SumAtMost(s: seq<u64>, cap: u64)
    requires forall i :: 0 <= i < |s| ==> s[i] <= cap
    ensures Sum(s) <= |s| * cap
  {
    if s != [] {
      SumAtMost(s[..|s| - 1], cap);
    }
  }

  /** How one event extends the list of a role's takings. */
  function TakingsAfter(before: seq<u64>, e: Event, ok: bool, role: Role): seq<u64> {
    if !ok || e.WalletTransfer? then before
    else if e.ins.Initialize? then []
    else if RoleTakes(e.ins, role) then before + [e.ins.amount]
    else before
  }

  ghost predicate TakenIs(w: World, role: Role, s: seq<u64>) {
    && (forall i :: 0 <= i < |s| ==> 0 < s[i] <= Cap(role))
    && (w.account.Some? ==> Taken(w.account.value, role) == Sum(s))
  }

  lemma TakenChange(w: World, ctx: Context, ins: Instruction, role: Role)
    requires Transaction(w, ctx, ins).Ok?
    ensures RoleTakes(ins, role) ==> 0 < ins.amount <= Cap(role)
    ensures var next := Transaction(w, ctx, ins).value.account;
            next.Some? ==>
              Taken(next.value, role) ==
              if ins.Initialize? then 0
              else Taken(w.account.value, role) + if RoleTakes(ins, role) then ins.amount else 0
  {
    Committed(w, ctx, ins);
    hide Transaction, HasFlag, SetFlag, IsMature, CanUnpause, WrappingInc;
  }

  lemma StepTakings(w: World, e: Event, role: Role, s: seq<u64>)
    requires TakenIs(w, role, s)
    ensures TakenIs(Next(w, e), role, TakingsAfter(s, e, Step(w, e).Ok?, role))
  {
    if e.Invoke? && Step(w, e).Ok? {
      TakenChange(w, e.ctx, e.ins, role);
      if RoleTakes(e.ins, role) {
        SumAppend(s, e.ins.amount);
      }
      assert e.ins.Initialize? || w.account.Some?;
      hide Transaction;
    }
  }

  /** A role's counter is the sum of its committed withdrawals, each within the cap. */
  lemma {:induction false} TakenIsSumOfTakings(w: World, es: seq<Event>, n: nat, role: Role)
    requires Genesis(w) && n <= |es|
    ensures TakenIs(At(w, es, n), role, Takings(w, es, n, role))
  {
    if n > 0 {
      TakenIsSumOfTakings(w, es, n - 1, role);
      StepTakings(At(w, es, n - 1), es[n - 1], role, Takings(w, es, n - 1, role));
    }
  }

  /** After k withdrawals a role has taken at most k times its cap. */
  lemma RoleTotalBounded(w: World, es: seq<Event>, n: nat, role: Role)
    requires Genesis(w) && n <= |es| && At(w, es, n).account.Some?
    ensures Taken(At(w, es, n).account.value, role) <= |Takings(w, es, n, role)| * Cap(role)
  {
    TakenIsSumOfTakings(w, es, n, role);
    SumAtMost(Takings(w, es, n, role), Cap(role));
  }

  /** The number of committed owner and role actions since the initialisation. */
  function Actions(w: World, es: seq<Event>, n: nat): nat
    requires n <= |es|
  {
    if n == 0 then 0
    else if !Succeeds(w, es, n - 1) || es[n - 1].WalletTransfer? then Actions(w, es, n - 1)
    else if es[n - 1].ins.Initialize? then 0
    else Actions(w, es, n - 1) + 1
  }

  ghost predicate NonceIs(w: World, count: nat) {
    w.account.Some? ==> w.account.value.actionNonce == count % (U64_MAX + 1)
  }

  lemma StepNonce(w: World, ctx: Context, ins: Instruction, count: nat)
    requires NonceIs(w, count) && Transaction(w, ctx, ins).Ok?
    ensures NonceIs(Transaction(w, ctx, ins).value, if ins.Initialize? then 0 else count + 1)
  {
    Committed(w, ctx, ins);
    var next := Transaction(w, ctx, ins).value.account;
    hide Transaction;
    if !ins.Initialize? && next.Some? {
      EffectCounts(w.account.value, next.value, ctx, ins);
    }
    hide Effect;
  }

  /** The replay counter is that number modulo 2^64, so each committed action changes it. */
  lemma {:induction false} NonceCountsActions(w: World, es: seq<Event>, n: nat)
    requires n <= |es| && w.account.None?
    ensures NonceIs(At(w, es, n), Actions(w, es, n))
  {
    if n > 0 {
      NonceCountsActions(w, es, n - 1);
      if es[n - 1].Invoke? && Succeeds(w, es, n - 1) {
        StepNonce(At(w, es, n - 1), es[n - 1].ctx, es[n - 1].ins, Actions(w, es, n - 1));
      }
      hide Transaction, NonceIs;
      assert es[n - 1].WalletTransfer? || !Succeeds(w, es, n - 1) ==> At(w, es, n).account == At(w, es, n - 1).account;
    }
  }
}
