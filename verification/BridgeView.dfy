/** The bridge's picture of an escrow that has gone through any run of transactions. */
module BridgeView {
  import opened Machine
  import opened EscrowState
  import opened EscrowSpec
  import opened EscrowInvariants
  import opened AccountCodec

  /** What the bridge serves for a reachable account is consistent: it reports a role as
      active exactly when it also shows a delegated key for it, with the totals balancing
      the token account up to outside transfers. */
  lemma ReportIsConsistent(w: World, es: seq<Event>, n: nat, tag: Bytes, rest: Bytes)
    requires Genesis(w) && n <= |es| && At(w, es, n).account.Some? && |tag| == TAG_LEN
    ensures |Encode(tag, At(w, es, n).account.value)| == TAG_LEN + INIT_SPACE
    ensures var s := At(w, es, n);
            var r := RecordAt(Encode(tag, s.account.value) + rest);
            && (BridgeTest(r.flags, 1) <==> r.platformAuthority != DEFAULT_KEY)
            && (BridgeTest(r.flags, 2) <==> r.tradingAuthority != DEFAULT_KEY)
            && Balance(s) + r.totalWithdrawn + r.totalFeesPaid + r.totalTraded
               == r.totalDeposited + Outside(w, es, n)
  {
    hide RecordAt, Encode, BridgeTest, At, Outside;
    FetchInvertsEncode(tag, At(w, es, n).account.value, rest);
    FlagTestsAgree(tag, At(w, es, n).account.value, rest);
    FlagsMirrorAuthorities(w, es, n);
    Conservation(w, es, n);
  }
}
