/** Courier's connection manager: subscriber lists per channel beside a registry of
    clients, with limits on connections. */
module Connections {
  import opened Machine
  import MapSum

  /** A socket stands for its object identity. */
  datatype Socket = Socket(id: nat)

  datatype Client = Client(channel: string, user: Option<string>, wallet: Option<string>)

  /** A limit of zero or less is no limit. */
  datatype Limits = Limits(total: int, perUser: int, perChannel: int)

  datatype Limit = Global | PerUser | PerChannel

  datatype AddResult = Added(client: Client) | LimitExceeded(limit: Limit) | InvalidName

  type Channels = map<string, seq<Socket>>

  type Registry = map<Socket, Client>

  datatype State = State(channels: Channels, registry: Registry)

  const EMPTY := State(map[], map[])

  function Lengths(channels: Channels): map<string, nat> {
    map name | name in channels :: |channels[name]|
  }

  ghost function TotalConnections(channels: Channels): nat {
    MapSum.Total<string>(Lengths(channels))
  }

  function Subscribers(channels: Channels, name: string): seq<Socket> {
    if name in channels then channels[name] else []
  }

  function OfUser(registry: Registry, user: string): set<Socket> {
    set w | w in registry && registry[w].user == Some(user)
  }

  predicate NameChar(c: char) {
    'a' <= c <= 'z' || '0' <= c <= '9' || c == '.' || c == '-'
  }

  predicate NameChars(s: string) {
    s != "" && forall i :: 0 <= i < |s| ==> NameChar(s[i])
  }

  /** The pattern's `$` also matches before one final newline. */
  predicate ValidName(name: string) {
    && 0 < |name| <= 100
    && (NameChars(name) || (name[|name| - 1] == '\n' && NameChars(name[..|name| - 1])))
  }

  /** The naming rules as documented. */
  predicate Documented(name: string) {
    NameChars(name) && |name| <= 100
  }

  predicate Blocked(count: int, limit: int) {
    limit > 0 && count >= limit
  }

  /** The first limit that a new connection would exceed; users without an identifier
      have no limit of their own. */
  ghost function Exceeded(l: Limits, s: State, name: string, user: Option<string>): Option<Limit> {
    if Blocked(TotalConnections(s.channels), l.total) then Some(Global)
    else if user.Some? && user.value != "" && Blocked(|OfUser(s.registry, user.value)|, l.perUser) then Some(PerUser)
    else if Blocked(|Subscribers(s.channels, name)|, l.perChannel) then Some(PerChannel)
    else None
  }

  ghost function AddOutcome(l: Limits, s: State, name: string, user: Option<string>, wallet: Option<string>)
    : AddResult
  {
    match Exceeded(l, s, name, user)
    case Some(limit) => LimitExceeded(limit)
    case None => if ValidName(name) then Added(Client(name, user, wallet)) else InvalidName
  }

  /** What each refusal says: the first limit, in the order total, user, channel, that is
      set and already reached. */
  lemma ExceededMeans(l: Limits, s: State, name: string, user: Option<string>)
    ensures var r := Exceeded(l, s, name, user);
            var full := l.total > 0 && TotalConnections(s.channels) >= l.total;
            var mine := set w | w in s.registry && user.Some? && s.registry[w].user == user;
            var userFull := user.Some? && user.value != "" && l.perUser > 0 && |mine| >= l.perUser;
            var count := if name in s.channels then |s.channels[name]| else 0;
            var channelFull := l.perChannel > 0 && count >= l.perChannel;
            && (r == Some(Global) <==> full)
            && (r == Some(PerUser) <==> !full && userFull)
            && (r == Some(PerChannel) <==> !full && !userFull && channelFull)
            && (r == None <==> !full && !userFull && !channelFull)
  {
    hide TotalConnections;
    if user.Some? {
      assert OfUser(s.registry, user.value)
             == set w | w in s.registry && user.Some? && s.registry[w].user == user;
    }
  }

  /** Where no limit is in the way, every documented name is accepted, and exactly these
      others: a documented name with one newline after it, a hundred characters in all. */
  lemma StrayNewline(l: Limits, s: State, name: string, user: Option<string>, wallet: Option<string>)
    requires Exceeded(l, s, name, user).None?
    ensures Documented(name) ==> AddOutcome(l, s, name, user, wallet) == Added(Client(name, user, wallet))
    ensures AddOutcome(l, s, name, user, wallet).Added? && !Documented(name)
            <==> |name| <= 100 && exists base :: Documented(base) && name == base + ['\n']
  {
    hide Exceeded;
    forall base | NameChars(base) && name == base + ['\n']
      ensures !NameChars(name) && name[..|name| - 1] == base
    {
      assert name[|base|] == '\n';
    }
    if ValidName(name) && !Documented(name) {
      var base := name[..|name| - 1];
      assert Documented(base) && name == base + ['\n'];
    }
  }

  function WithClient(s: State, w: Socket, client: Client): State {
    State(s.channels[client.channel := Subscribers(s.channels, client.channel) + [w]], s.registry[w := client])
  }

  function RemoveFirst(list: seq<Socket>, w: Socket): seq<Socket> {
    if list == [] then []
    else if list[0] == w then list[1..]
    else [list[0]] + RemoveFirst(list[1..], w)
  }

  function WithoutClient(s: State, w: Socket, name: string): State {
    State(if name in s.channels then s.channels[name := RemoveFirst(s.channels[name], w)] else s.channels,
          s.registry - {w})
  }

  function Cleaned(s: State): State {
    s.(channels := map name | name in s.channels && s.channels[name] != [] :: s.channels[name])
  }

  /** Python's `list.remove`: the first occurrence goes. */
  method ListRemove(list: seq<Socket>, w: Socket) returns (r: seq<Socket>)
    requires w in list
    ensures r == RemoveFirst(list, w)
  {
    var i := 0;
    while list[i] != w
      invariant 0 <= i < |list| && w in list[i..]
      invariant RemoveFirst(list, w) == list[..i] + RemoveFirst(list[i..], w)
      decreases |list| - i
    {
      assert list[i..] == [list[i]] + list[i + 1..];
      i := i + 1;
    }
    assert list[i..][1..] == list[i + 1..];
    r := list[..i] + list[i + 1..];
  }

  class ConnectionManager {
    const limits: Limits
    var channels: Channels
    var registry: Registry

    constructor (limits: Limits)
      ensures this.limits == limits && View() == EMPTY
    {
      this.limits := limits;
      channels, registry := map[], map[];
    }

    function View(): State
      reads this
    {
      State(channels, registry)
    }

    method GetTotalConnections() returns (total: nat)
      ensures total == TotalConnections(channels)
    {
      total := 0;
      ghost var done: map<string, nat> := map[];
      var names := channels.Keys;
      while names != {}
        invariant names <= channels.Keys
        invariant done == Lengths(channels) - names
        invariant total == MapSum.Total<string>(done)
      {
        var name :| name in names;
        MapSum.Update<string>(done, name, |channels[name]|);
        done := done[name := |channels[name]|];
        total := total + |channels[name]|;
        names := names - {name};
        assert done == Lengths(channels) - names;
      }
      assert Lengths(channels) - {} == Lengths(channels);
    }

    method GetChannelCount(name: string) returns (count: nat)
      ensures count == |Subscribers(channels, name)|
    {
      count := if name in channels then |channels[name]| else 0;
    }

    method GetUserConnectionCount(user: string) returns (count: nat)
      ensures count == |OfUser(registry, user)|
    {
      count := 0;
      var left := registry.Keys;
      while left != {}
        invariant left <= registry.Keys
        invariant count == |OfUser(registry, user) - left|
      {
        var w :| w in left;
        ghost var counted := OfUser(registry, user) - left;
        left := left - {w};
        if registry[w].user == Some(user) {
          count := count + 1;
          assert OfUser(registry, user) - left == counted + {w};
        } else {
          assert OfUser(registry, user) - left == counted;
        }
      }
      assert OfUser(registry, user) - {} == OfUser(registry, user);
    }

    method CheckConnectionLimits(name: string, user: Option<string>) returns (exceeded: Option<Limit>)
      ensures exceeded == Exceeded(limits, View(), name, user)
    {
      if limits.total > 0 {
        var total := GetTotalConnections();
        if total >= limits.total { return Some(Global); }
      }
      if user.Some? && user.value != "" && limits.perUser > 0 {
        var count := GetUserConnectionCount(user.value);
        if count >= limits.perUser { return Some(PerUser); }
      }
      if limits.perChannel > 0 {
        var count := GetChannelCount(name);
        if count >= limits.perChannel { return Some(PerChannel); }
      }
      exceeded := None;
    }

    /** A refused connection leaves lists and registry as they were. */
    method AddClient(w: Socket, name: string, user: Option<string>, wallet: Option<string>) returns (r: AddResult)
      modifies this
      ensures r == AddOutcome(limits, old(View()), name, user, wallet)
      ensures View() == if r.Added? then WithClient(old(View()), w, r.client) else old(View())
      ensures r.Added? ==>
                && channels == old(channels)[name := (if name in old(channels) then old(channels)[name] else []) + [w]]
                && registry == old(registry)[w := Client(name, user, wallet)]
    {
      var exceeded := CheckConnectionLimits(name, user);
      if exceeded.Some? { return LimitExceeded(exceeded.value); }
      if !ValidName(name) { return InvalidName; }
      var client := Client(name, user, wallet);
      if name !in channels {
        channels := channels[name := []];
      }
      channels := channels[name := channels[name] + [w]];
      registry := registry[w := client];
      r := Added(client);
    }

    method RemoveClient(w: Socket, name: string)
      modifies this
      ensures View() == WithoutClient(old(View()), w, name)
    {
      if name in channels {
        if w in channels[name] {
          var list := ListRemove(channels[name], w);
          channels := channels[name := list];
        } else {
          NothingToRemove(channels[name], w);
          assert channels[name := channels[name]] == channels;
        }
      }
      registry := registry - {w};
    }

    method CleanupEmptyChannels() returns (empty: set<string>)
      modifies this
      ensures empty == set name | name in old(channels) && old(channels)[name] == []
      ensures View() == Cleaned(old(View()))
    {
      empty := set name | name in channels && channels[name] == [];
      var left := empty;
      while left != {}
        invariant left <= empty
        invariant channels == old(channels) - (empty - left) && registry == old(registry)
      {
        var name :| name in left;
        left := left - {name};
        channels := channels - {name};
      }
      assert channels == Cleaned(old(View())).channels;
    }
  }

  /** Removing takes out the first occurrence and keeps the order of all others. */
  lemma {:induction false} FirstGoes(list: seq<Socket>, w: Socket) returns (i: nat)
    requires w in list
    ensures i < |list| && list[i] == w && w !in list[..i]
    ensures RemoveFirst(list, w) == list[..i] + list[i + 1..]
  {
    i := 0;
    if list[0] != w {
      var k := FirstGoes(list[1..], w);
      i := k + 1;
      assert list[..i] == [list[0]] + list[1..][..k];
    }
  }

  lemma {:induction false} NothingToRemove(list: seq<Socket>, w: Socket)
    requires w !in list
    ensures RemoveFirst(list, w) == list
  {
    if list != [] {
      NothingToRemove(list[1..], w);
    }
  }
}
