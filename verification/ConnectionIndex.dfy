/** The lists and the registry of the connection manager describe the same connections,
    and the limits hold, over whole runs. */
module ConnectionIndex {
  import opened Machine
  import opened Connections
  import MapSum

  datatype Op =
    | Add(w: Socket, name: string, user: Option<string>, wallet: Option<string>)
    | Remove(w: Socket, name: string)
    | Cleanup

  ghost function Next(l: Limits, s: State, op: Op): State {
    match op
    case Add(w, name, user, wallet) =>
      var r := AddOutcome(l, s, name, user, wallet);
      if r.Added? then WithClient(s, w, r.client) else s
    case Remove(w, name) => WithoutClient(s, w, name)
    case Cleanup => Cleaned(s)
  }

  ghost function StateAt(l: Limits, ops: seq<Op>, n: nat): State
    requires n <= |ops|
  {
    if n == 0 then EMPTY else Next(l, StateAt(l, ops, n - 1), ops[n - 1])
  }

  function Occurrences(list: seq<Socket>, w: Socket): nat {
    if list == [] then 0 else Occurrences(list[1..], w) + if list[0] == w then 1 else 0
  }

  /** Each registered socket is in the list of its own channel once, and nothing else is
      in any list. */
  ghost predicate Agree(s: State) {
    forall name, w ::
      Occurrences(Subscribers(s.channels, name), w)
      == if w in s.registry && s.registry[w].channel == name then 1 else 0
  }

  /** A socket is added once, and removed with its own channel. */
  predicate Proper(s: State, op: Op) {
    match op
    case Add(w, _, _, _) => w !in s.registry
    case Remove(w, name) => w in s.registry ==> s.registry[w].channel == name
    case Cleanup => true
  }

  lemma {:induction false} OccursAppended(list: seq<Socket>, x: Socket, w: Socket)
    ensures Occurrences(list + [x], w) == Occurrences(list, w) + if x == w then 1 else 0
  {
    if list == [] {
      assert [x][1..] == [];
    } else {
      assert (list + [x])[1..] == list[1..] + [x];
      OccursAppended(list[1..], x, w);
    }
  }

  lemma {:induction false} OccursIfIn(list: seq<Socket>, w: Socket)
    ensures w in list <==> Occurrences(list, w) > 0
  {
    if list != [] {
      assert list == [list[0]] + list[1..];
      OccursIfIn(list[1..], w);
    }
  }

  lemma {:induction false} OccursRemoved(list: seq<Socket>, x: Socket, w: Socket)
    ensures Occurrences(RemoveFirst(list, x), w)
            == Occurrences(list, w) - if x == w && Occurrences(list, w) > 0 then 1 else 0
    ensures |RemoveFirst(list, x)| == |list| - if Occurrences(list, x) > 0 then 1 else 0
  {
    if list != [] {
      OccursRemoved(list[1..], x, w);
      if list[0] != x {
        var rest := RemoveFirst(list[1..], x);
        assert ([list[0]] + rest)[1..] == rest;
      }
    }
  }

  lemma AddAgrees(s: State, w: Socket, client: Client)
    requires Agree(s)
    ensures Agree(WithClient(s, w, client)) <==> w !in s.registry
  {
    var s' := WithClient(s, w, client);
    forall name, v
      ensures Occurrences(Subscribers(s'.channels, name), v)
              == Occurrences(Subscribers(s.channels, name), v) + if name == client.channel && v == w then 1 else 0
    {
      OccursAppended(Subscribers(s.channels, client.channel), w, v);
    }
    hide Subscribers;
    if w in s.registry {
      var own := s.registry[w].channel;
      assert Occurrences(Subscribers(s.channels, own), w) == 1;
      assert Occurrences(Subscribers(s'.channels, own), w)
             != if w in s'.registry && s'.registry[w].channel == own then 1 else 0;
      assert !Agree(s');
    } else {
      assert Agree(s');
    }
  }

  lemma RemoveAgrees(s: State, w: Socket, name: string)
    requires Agree(s)
    ensures Agree(WithoutClient(s, w, name)) <==> (w in s.registry ==> s.registry[w].channel == name)
  {
    var s' := WithoutClient(s, w, name);
    forall other, v
      ensures var before := Occurrences(Subscribers(s.channels, other), v);
              Occurrences(Subscribers(s'.channels, other), v)
              == before - if other == name && v == w && before > 0 then 1 else 0
    {
      OccursRemoved(Subscribers(s.channels, name), w, v);
      hide Occurrences, Agree;
    }
    hide Subscribers, Occurrences;
    assert s'.registry == s.registry - {w};
    hide WithoutClient;
    if w in s.registry && s.registry[w].channel != name {
      var own := s.registry[w].channel;
      assert Occurrences(Subscribers(s.channels, own), w) == 1;
      assert Occurrences(Subscribers(s'.channels, own), w) == 1 && w !in s'.registry;
      assert !Agree(s');
    } else {
      assert Agree(s');
    }
  }

  /** Cleaning drops exactly the empty channels, and changes no channel's subscribers. */
  lemma CleanupKeepsCounts(s: State, name: string)
    ensures Subscribers(Cleaned(s).channels, name) == Subscribers(s.channels, name)
    ensures name in Cleaned(s).channels <==> name in s.channels && s.channels[name] != []
    ensures Cleaned(s).registry == s.registry
  {
  }

  lemma CleanupAgrees(s: State)
    requires Agree(s)
    ensures Agree(Cleaned(s))
  {
    forall name
      ensures Subscribers(Cleaned(s).channels, name) == Subscribers(s.channels, name)
    {
      CleanupKeepsCounts(s, name);
    }
    hide Subscribers;
  }

  /** Exactly the proper operations keep lists and registry in agreement; an add that is
      refused changes nothing. */
  lemma AgreementIffProper(l: Limits, s: State, op: Op)
    requires Agree(s)
    ensures op.Add? && !AddOutcome(l, s, op.name, op.user, op.wallet).Added? ==> Next(l, s, op) == s
    ensures !op.Add? || AddOutcome(l, s, op.name, op.user, op.wallet).Added? ==>
              (Agree(Next(l, s, op)) <==> Proper(s, op))
  {
    match op
    case Add(w, name, user, wallet) =>
      var r := AddOutcome(l, s, name, user, wallet);
      if r.Added? { AddAgrees(s, w, r.client); }
    case Remove(w, name) => RemoveAgrees(s, w, name);
    case Cleanup => CleanupAgrees(s);
  }

  /** Replacing one list by another moves the total by the difference of their lengths. */
  lemma TotalUpdate(channels: Channels, name: string, list: seq<Socket>)
    ensures TotalConnections(channels[name := list])
            == TotalConnections(channels) - |Subscribers(channels, name)| + |list|
  {
    assert Lengths(channels[name := list]) == Lengths(channels)[name := |list|];
    MapSum.Update<string>(Lengths(channels), name, |list|);
  }

  lemma {:induction false} TotalWithoutEmpty(channels: Channels)
    ensures TotalConnections(Cleaned(State(channels, map[])).channels) == TotalConnections(channels)
    decreases |channels|
  {
    var kept := Cleaned(State(channels, map[])).channels;
    if name :| name in channels && channels[name] == [] {
      var fewer := channels - {name};
      MapSum.Remove<string>(Lengths(channels), name);
      assert Lengths(fewer) == Lengths(channels) - {name};
      assert Cleaned(State(fewer, map[])).channels == kept;
      TotalWithoutEmpty(fewer);
    } else {
      assert kept == channels;
    }
  }

  /** How an operation changes the number of list entries. */
  lemma TotalStep(l: Limits, s: State, op: Op)
    ensures var before, after := TotalConnections(s.channels), TotalConnections(Next(l, s, op).channels);
            match op
            case Add(_, name, user, wallet) =>
              after == before + if AddOutcome(l, s, name, user, wallet).Added? then 1 else 0
            case Remove(w, name) => after == before - if w in Subscribers(s.channels, name) then 1 else 0
            case Cleanup => after == before
  {
    match op
    case Add(w, name, user, wallet) => TotalUpdate(s.channels, name, Subscribers(s.channels, name) + [w]);
    case Remove(w, name) =>
      if name in s.channels {
        OccursRemoved(s.channels[name], w, w);
        OccursIfIn(s.channels[name], w);
        TotalUpdate(s.channels, name, RemoveFirst(s.channels[name], w));
      }
    case Cleanup =>
      TotalWithoutEmpty(s.channels);
  }

  ghost predicate ProperRun(l: Limits, ops: seq<Op>) {
    forall k :: 0 <= k < |ops| ==> Proper(StateAt(l, ops, k), ops[k])
  }

  /** A removal with the right channel drops a list entry exactly when it drops a client. */
  lemma RegistryStep(s: State, op: Op)
    requires Agree(s) && Proper(s, op)
    ensures op.Remove? ==> (op.w in Subscribers(s.channels, op.name) <==> op.w in s.registry)
    ensures op.Remove? ==> |s.registry - {op.w}| == |s.registry| - if op.w in s.registry then 1 else 0
  {
    if op.Remove? {
      OccursIfIn(Subscribers(s.channels, op.name), op.w);
      assert (s.registry - {op.w}).Keys == s.registry.Keys - {op.w};
    }
  }

  /** Lists and registry agree, entry by entry and in number. */
  ghost predicate Indexed(s: State) {
    Agree(s) && TotalConnections(s.channels) == |s.registry|
  }

  lemma IndexStep(l: Limits, s: State, op: Op)
    requires Indexed(s) && Proper(s, op)
    ensures Indexed(Next(l, s, op))
  {
    AgreementIffProper(l, s, op);
    TotalStep(l, s, op);
    RegistryStep(s, op);
    hide Agree, TotalConnections;
  }

  lemma EmptyIndexed()
    ensures Indexed(EMPTY)
  {
  }

  /** Over every proper run lists and registry agree, and there are as many list entries
      as registered clients. */
  lemma {:induction false} IndexAgreement(l: Limits, ops: seq<Op>, n: nat)
    requires n <= |ops| && ProperRun(l, ops)
    ensures Indexed(StateAt(l, ops, n))
  {
    hide Indexed, Next, Proper;
    EmptyIndexed();
    if n > 0 {
      IndexAgreement(l, ops, n - 1);
      assert Proper(StateAt(l, ops, n - 1), ops[n - 1]);
      IndexStep(l, StateAt(l, ops, n - 1), ops[n - 1]);
    }
  }

  ghost predicate WithinLimits(l: Limits, s: State) {
    && (l.total > 0 ==> TotalConnections(s.channels) <= l.total)
    && (l.perUser > 0 ==> forall user :: user != "" ==> |OfUser(s.registry, user)| <= l.perUser)
    && (l.perChannel > 0 ==> forall name :: |Subscribers(s.channels, name)| <= l.perChannel)
  }

  lemma UserStep(l: Limits, s: State, op: Op, user: string)
    ensures |OfUser(Next(l, s, op).registry, user)|
            <= |OfUser(s.registry, user)|
               + if op.Add? && op.user == Some(user) && Next(l, s, op) != s then 1 else 0
  {
    var before, after := OfUser(s.registry, user), OfUser(Next(l, s, op).registry, user);
    if op.Add? && op.user == Some(user) {
      assert after <= before + {op.w};
      Larger(after, before + {op.w});
    } else {
      assert after <= before;
      Larger(after, before);
    }
  }

  lemma {:induction false} Larger(a: set<Socket>, b: set<Socket>)
    requires a <= b
    ensures |a| <= |b|
  {
    assert b == a + (b - a);
  }

  lemma ChannelStep(l: Limits, s: State, op: Op, name: string)
    ensures |Subscribers(Next(l, s, op).channels, name)|
            <= |Subscribers(s.channels, name)| + if op.Add? && op.name == name && Next(l, s, op) != s then 1 else 0
  {
    if op.Remove? && op.name in s.channels { OccursRemoved(s.channels[op.name], op.w, op.w); }
  }

  lemma StepWithinLimits(l: Limits, s: State, op: Op)
    requires WithinLimits(l, s)
    ensures WithinLimits(l, Next(l, s, op))
  {
    TotalStep(l, s, op);
    forall user | user != ""
      ensures l.perUser > 0 ==> |OfUser(Next(l, s, op).registry, user)| <= l.perUser
    {
      UserStep(l, s, op, user);
    }
    forall name: string
      ensures l.perChannel > 0 ==> |Subscribers(Next(l, s, op).channels, name)| <= l.perChannel
    {
      ChannelStep(l, s, op, name);
    }
    hide TotalConnections, OfUser, Subscribers;
  }

  /** All three limits hold in every state of every run, proper or not. */
  lemma {:induction false} LimitsAlwaysHold(l: Limits, ops: seq<Op>, n: nat)
    requires n <= |ops|
    ensures WithinLimits(l, StateAt(l, ops, n))
  {
    if n == 0 {
      assert Lengths(map[]) == map[];
      assert forall user :: OfUser(map[], user) == {};
    } else {
      LimitsAlwaysHold(l, ops, n - 1);
      StepWithinLimits(l, StateAt(l, ops, n - 1), ops[n - 1]);
    }
  }

  /** New sockets of one user that all ask for one channel. */
  ghost predicate Newcomers(ops: seq<Op>, name: string, user: string) {
    && (forall k :: 0 <= k < |ops| ==> ops[k].Add? && ops[k].name == name && ops[k].user == Some(user))
    && (forall j, k :: 0 <= j < k < |ops| ==> ops[j].w != ops[k].w)
  }

  function Capped(limit: int, n: nat): nat {
    if 0 < limit < n then limit else n
  }

  /** All three counts of the state are n, and only these sockets are registered. */
  ghost predicate Filled(s: State, ops: seq<Op>, k: nat, name: string, user: string, n: nat)
    requires k <= |ops| && Newcomers(ops, name, user)
  {
    && TotalConnections(s.channels) == n
    && |Subscribers(s.channels, name)| == n
    && |OfUser(s.registry, user)| == n
    && forall w :: w in s.registry ==> exists j :: 0 <= j < k && ops[j].w == w
  }

  /** The limits refuse nobody too early: of n newcomers, the first ones get in until the
      smallest limit that is set is reached, and nobody after that. */
  lemma {:induction false} CapacityReached(l: Limits, ops: seq<Op>, n: nat, name: string, user: string)
    requires n <= |ops| && Newcomers(ops, name, user) && Documented(name) && user != ""
    ensures Filled(StateAt(l, ops, n), ops, n, name, user,
                   Capped(l.total, Capped(l.perUser, Capped(l.perChannel, n))))
  {
    hide Filled, Next, Newcomers, Documented;
    if n == 0 {
      NobodyYet(ops, name, user);
    } else {
      CapacityReached(l, ops, n - 1, name, user);
      NewcomerStep(l, StateAt(l, ops, n - 1), ops, n - 1, name, user,
                   Capped(l.total, Capped(l.perUser, Capped(l.perChannel, n - 1))));
    }
  }

  lemma NobodyYet(ops: seq<Op>, name: string, user: string)
    requires Newcomers(ops, name, user)
    ensures Filled(EMPTY, ops, 0, name, user, 0)
  {
    assert Lengths(map[]) == map[];
    assert OfUser(map[], user) == {};
  }

  lemma Admitted(s: State, w: Socket, client: Client, user: string)
    requires w !in s.registry && client.user == Some(user)
    ensures var next := WithClient(s, w, client);
            && |OfUser(next.registry, user)| == |OfUser(s.registry, user)| + 1
            && |Subscribers(next.channels, client.channel)| == |Subscribers(s.channels, client.channel)| + 1
            && forall v :: v in next.registry <==> v == w || v in s.registry
  {
    assert OfUser(WithClient(s, w, client).registry, user) == OfUser(s.registry, user) + {w};
  }

  lemma NewcomerStep(l: Limits, s: State, ops: seq<Op>, k: nat, name: string, user: string, n: nat)
    requires k < |ops| && Newcomers(ops, name, user) && Documented(name) && user != ""
    requires Filled(s, ops, k, name, user, n)
    ensures var full := (l.total > 0 && n >= l.total) || (l.perUser > 0 && n >= l.perUser)
                        || (l.perChannel > 0 && n >= l.perChannel);
            Filled(Next(l, s, ops[k]), ops, k + 1, name, user, if full then n else n + 1)
  {
    hide TotalConnections, OfUser, Subscribers, WithClient;
    var op := ops[k];
    TotalStep(l, s, op);
    if Exceeded(l, s, name, Some(user)).None? {
      assert op.w !in s.registry;
      assert Next(l, s, op) == WithClient(s, op.w, Client(name, Some(user), op.wallet));
      Admitted(s, op.w, Client(name, Some(user), op.wallet), user);
    } else {
      assert Next(l, s, op) == s;
    }
    hide Next, Exceeded;
  }
}
