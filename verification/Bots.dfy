/** BotServ bots. The engine keeps four tables that mirror what the ircd believes
    about its bots, and `ReconcileBots` emits actions that bring the network in
    line with the registry. The ircd is an abstract machine that executes those
    actions; `Sim` says when the tables tell the truth about it. */
module Bots {
  import opened Text
  import opened Numerals
  import opened Iteration

  datatype Identity = Identity(user: string, host: string, gecos: string)

  datatype Bot = Bot(nick: string, identity: Identity)

  datatype Chan = Chan(name: string, bot: Option<string>, lockModes: string)

  /** The registry as reconciliation reads it: `db.bots()` and `db.channels()`. */
  datatype Store = Store(bots: seq<Bot>, channels: seq<Chan>)

  datatype Action =
    | IntroduceUser(uid: string, bot: Bot)
    | QuitUser(uid: string)
    | ServiceJoin(uid: string, channel: string, modes: string)
    | ServicePart(uid: string, channel: string)
    | ChannelMode(source: string, channel: string, modes: string)

  /** `format!("{}B{:05}", sid, index)`. */
  function Uid(sid: string, index: nat): string {
    sid + "B" + Padded(index, 5)
  }

  /** A bot's uid is the server's id, a B and its index in at least five digits. */
  lemma UidReads(sid: string, index: nat)
    ensures var uid := Uid(sid, index);
            && |uid| >= |sid| + 6 && uid[..|sid|] == sid && uid[|sid|] == 'B'
            && Value(uid[|sid| + 1..], 10) == index && (index < 100000 ==> |uid| == |sid| + 6)
  {
    var digits := Padded(index, 5);
    assert Uid(sid, index) == sid + "B" + digits;
    assert Uid(sid, index)[|sid| + 1..] == digits;
    PaddedReads(index, 5);
    if index < 100000 {
      ShortNumeral(index, 5, 100000);
    }
  }

  lemma UidInjective(sid: string, i: nat, j: nat)
    requires Uid(sid, i) == Uid(sid, j)
    ensures i == j
  {
    var a, b := Uid(sid, i), Uid(sid, j);
    assert a[|sid + "B"|..] == Padded(i, 5) && b[|sid + "B"|..] == Padded(j, 5);
    PaddedInjective(i, j, 5);
  }

  // ----- The ircd ---------------------------------------------------------

  /** What the ircd knows of our link: live clients, the channels they are in
      (channel names compare without case) and every uid used on this link. */
  datatype Ircd = Ircd(clients: map<string, Bot>, joined: set<(string, string)>, minted: set<string>)

  const FRESH_LINK := Ircd(map[], {}, {})

  /** Executing one action. `None` is a protocol fault: a uid used twice, a nick
      already taken by one of our clients, or an action about an unknown uid. */
  function Exec(net: Ircd, a: Action): Option<Ircd> {
    match a
    case IntroduceUser(uid, bot) =>
      if uid in net.minted
         || (exists u <- net.clients.Keys :: Lower(net.clients[u].nick) == Lower(bot.nick))
      then None
      else Some(Ircd(net.clients[uid := bot], net.joined, net.minted + {uid}))
    case QuitUser(uid) =>
      if uid !in net.clients then None
      else Some(DropClient(net, uid))
    case ServiceJoin(uid, channel, _) =>
      if uid !in net.clients then None
      else Some(net.(joined := net.joined + {(uid, Lower(channel))}))
    case ServicePart(uid, channel) =>
      if uid !in net.clients then None
      else Some(LeaveChannel(net, uid, channel))
    case ChannelMode(source, _, _) =>
      if source !in net.clients then None else Some(net)
  }

  /** A client is gone: a QUIT of ours, or a KILL by an oper. */
  function DropClient(net: Ircd, uid: string): Ircd {
    Ircd(net.clients - {uid}, (set m | m in net.joined && m.0 != uid), net.minted)
  }

  /** A client left a channel: a PART of ours, or a KICK. */
  function LeaveChannel(net: Ircd, uid: string, channel: string): Ircd {
    net.(joined := net.joined - {(uid, Lower(channel))})
  }

  function Run(net: Ircd, actions: seq<Action>): Option<Ircd> {
    if actions == [] then Some(net)
    else
      match Run(net, actions[..|actions| - 1])
      case None => None
      case Some(n) => Exec(n, actions[|actions| - 1])
  }

  // ----- The engine's tables ----------------------------------------------

  datatype Tables = Tables(
    uids: map<string, string>,            // lower nick -> live uid
    idents: map<string, int>,             // lower nick -> hash of its identity
    channels: set<(string, string)>,      // (lower nick, channel as spelled in the registry)
    next: nat)

  type Hash = Identity -> int

  /** `bot_channels.retain(|(b, _)| *b != k)`. */
  function Without(channels: set<(string, string)>, k: string): set<(string, string)> {
    set m | m in channels && m.0 != k
  }

  function Forget(t: Tables, k: string): Tables {
    Tables(t.uids - {k}, t.idents - {k}, Without(t.channels, k), t.next)
  }

  function Owner(t: Tables, uid: string): set<string> {
    set k | k in t.uids && t.uids[k] == uid
  }

  /** How the tables move with each action the engine emits. */
  function TabExec(t: Tables, a: Action, hash: Hash): Tables {
    match a
    case IntroduceUser(uid, bot) =>
      var k := Lower(bot.nick);
      Tables(t.uids[k := uid], t.idents[k := hash(bot.identity)], t.channels, t.next + 1)
    case QuitUser(uid) =>
      var ks := Owner(t, uid);
      Tables(t.uids - ks, t.idents - ks, (set m | m in t.channels && m.0 !in ks), t.next)
    case ServiceJoin(uid, channel, _) =>
      t.(channels := t.channels + (set k | k in Owner(t, uid) :: (k, channel)))
    case ServicePart(uid, channel) =>
      t.(channels := t.channels - (set k | k in Owner(t, uid) :: (k, channel)))
    case ChannelMode(_, _, _) => t
  }

  function TabRun(t: Tables, actions: seq<Action>, hash: Hash): Tables {
    if actions == [] then t
    else TabExec(TabRun(t, actions[..|actions| - 1], hash), actions[|actions| - 1], hash)
  }

  /** The engine may emit `a` in table state `t`. A join is only in order when the
      bot is not already in that channel under some spelling. */
  ghost predicate Legal(t: Tables, a: Action, sid: string) {
    match a
    case IntroduceUser(uid, bot) => uid == Uid(sid, t.next) && Lower(bot.nick) !in t.uids
    case QuitUser(uid) => uid in t.uids.Values
    case ServiceJoin(uid, channel, _) =>
      && uid in t.uids.Values
      && forall m <- t.channels :: m.0 in t.uids && t.uids[m.0] == uid ==> Lower(m.1) != Lower(channel)
    case ServicePart(uid, channel) =>
      uid in t.uids.Values && exists m <- t.channels :: m.0 in t.uids && t.uids[m.0] == uid && m.1 == channel
    case ChannelMode(source, _, _) => source in t.uids.Values
  }

  ghost predicate LegalRun(t: Tables, actions: seq<Action>, hash: Hash, sid: string) {
    actions != [] ==>
      && LegalRun(t, actions[..|actions| - 1], hash, sid)
      && Legal(TabRun(t, actions[..|actions| - 1], hash), actions[|actions| - 1], sid)
  }

  ghost predicate MintedBefore(uid: string, sid: string, bound: nat) {
    exists i: nat :: i < bound && uid == Uid(sid, i)
  }

  ghost predicate OneUidEach(t: Tables) {
    forall j, k :: j in t.uids && k in t.uids && t.uids[j] == t.uids[k] ==> j == k
  }

  ghost predicate OneSpellingEach(t: Tables) {
    forall m, n :: m in t.channels && n in t.channels && m.0 == n.0 && Lower(m.1) == Lower(n.1) ==> m == n
  }

  /** Well-formed tables: one uid per bot, no channel under two spellings, and
      only uids minted on this link. */
  ghost predicate Coherent(t: Tables, sid: string) {
    && t.idents.Keys == t.uids.Keys
    && OneUidEach(t)
    && (forall m <- t.channels :: m.0 in t.uids)
    && OneSpellingEach(t)
    && (forall k :: k in t.uids ==> MintedBefore(t.uids[k], sid, t.next))
  }

  /** The memberships the tables claim, as the ircd would name them. */
  ghost function Claimed(t: Tables): set<(string, string)>
    requires forall m <- t.channels :: m.0 in t.uids
  {
    set m | m in t.channels :: (t.uids[m.0], Lower(m.1))
  }

  ghost predicate SameClients(t: Tables, net: Ircd, hash: Hash) {
    && t.idents.Keys == t.uids.Keys
    && net.clients.Keys == t.uids.Values
    && forall k :: k in t.uids ==>
         && Lower(net.clients[t.uids[k]].nick) == k
         && hash(net.clients[t.uids[k]].identity) == t.idents[k]
  }

  ghost predicate NextUnused(t: Tables, net: Ircd, sid: string) {
    forall i: nat :: t.next <= i ==> Uid(sid, i) !in net.minted
  }

  /** The tables tell the truth about the ircd. */
  ghost predicate Sim(t: Tables, net: Ircd, hash: Hash, sid: string) {
    Coherent(t, sid) && SameClients(t, net, hash) && net.joined == Claimed(t) && NextUnused(t, net, sid)
  }

  // ----- Each legal action keeps the simulation ----------------------------

  lemma NextIsUnowned(t: Tables, sid: string)
    requires Coherent(t, sid)
    ensures Uid(sid, t.next) !in t.uids.Values
  {
    if k :| k in t.uids && t.uids[k] == Uid(sid, t.next) {
      var i: nat :| i < t.next && t.uids[k] == Uid(sid, i);
      UidInjective(sid, i, t.next);
    }
  }

  lemma NextStaysUnused(t: Tables, net: Ircd, uid: string, sid: string)
    requires NextUnused(t, net, sid) && uid == Uid(sid, t.next)
    ensures forall i: nat :: t.next + 1 <= i ==> Uid(sid, i) !in net.minted + {uid}
  {
    forall i: nat | t.next + 1 <= i ensures Uid(sid, i) != uid {
      if Uid(sid, i) == Uid(sid, t.next) {
        UidInjective(sid, i, t.next);
      }
    }
  }

  lemma ValuesAfterInsert(m: map<string, string>, k: string, v: string)
    requires k !in m
    ensures m[k := v].Values == m.Values + {v}
  {
    var m' := m[k := v];
    forall u | u in m.Values + {v} ensures u in m'.Values {
      if u == v {
        assert m'[k] == v;
      } else {
        var j :| j in m && m[j] == u;
        assert m'[j] == u;
      }
    }
  }

  lemma ValuesAfterRemove(m: map<string, string>, k: string)
    requires k in m
    requires forall i, j :: i in m && j in m && m[i] == m[j] ==> i == j
    ensures (m - {k}).Values == m.Values - {m[k]}
  {
    forall u | u in m.Values - {m[k]} ensures u in (m - {k}).Values {
      var j :| j in m && m[j] == u;
      assert (m - {k})[j] == u;
    }
  }

  lemma IntroduceKeepsCoherent(t: Tables, a: Action, hash: Hash, sid: string)
    requires Coherent(t, sid) && Legal(t, a, sid) && a.IntroduceUser?
    ensures Coherent(TabExec(t, a, hash), sid)
    ensures Claimed(TabExec(t, a, hash)) == Claimed(t)
  {
    hide Lower, Uid;
    var t' := TabExec(t, a, hash);
    NextIsUnowned(t, sid);
    forall k | k in t'.uids ensures MintedBefore(t'.uids[k], sid, t'.next) {
      if k in t.uids {
        var i: nat :| i < t.next && t.uids[k] == Uid(sid, i);
        assert i < t'.next;
      }
    }
    assert forall m <- t.channels :: t'.uids[m.0] == t.uids[m.0];
  }

  lemma IntroduceKeepsClients(t: Tables, net: Ircd, a: Action, hash: Hash, sid: string)
    requires Sim(t, net, hash, sid) && Legal(t, a, sid) && a.IntroduceUser?
    ensures Exec(net, a).Some?
    ensures SameClients(TabExec(t, a, hash), Exec(net, a).value, hash)
  {
    var k := Lower(a.bot.nick);
    NextIsUnowned(t, sid);
    forall u | u in net.clients ensures Lower(net.clients[u].nick) != k {
      var j :| j in t.uids && t.uids[j] == u;
    }
    ValuesAfterInsert(t.uids, k, a.uid);
  }

  lemma OwnerIsUnique(t: Tables, uid: string) returns (k: string)
    requires OneUidEach(t) && uid in t.uids.Values
    ensures k in t.uids && t.uids[k] == uid && Owner(t, uid) == {k}
  {
    k :| k in t.uids && t.uids[k] == uid;
  }

  lemma QuitForgetsOwner(t: Tables, a: Action, hash: Hash) returns (k: string)
    requires OneUidEach(t) && a.QuitUser? && a.uid in t.uids.Values
    ensures k in t.uids && t.uids[k] == a.uid
    ensures TabExec(t, a, hash) == Forget(t, k)
  {
    k := OwnerIsUnique(t, a.uid);
  }

  lemma ClaimKept(t: Tables, k: string, c: (string, string))
    requires OneUidEach(t) && k in t.uids && (forall n <- t.channels :: n.0 in t.uids)
    requires c in Claimed(t) && c.0 != t.uids[k]
    ensures c in Claimed(Forget(t, k))
  {
    hide Lower;
    var n :| n in t.channels && c == (t.uids[n.0], Lower(n.1));
    assert n in Forget(t, k).channels;
  }

  lemma ClaimDropped(t: Tables, k: string, c: (string, string))
    requires OneUidEach(t) && k in t.uids && (forall n <- t.channels :: n.0 in t.uids)
    requires c in Claimed(Forget(t, k))
    ensures c in Claimed(t) && c.0 != t.uids[k]
  {
    hide Lower;
    var n :| n in Forget(t, k).channels && c == (t.uids[n.0], Lower(n.1));
    assert n in t.channels && n.0 != k;
  }

  lemma ClaimsAfterForget(t: Tables, k: string)
    requires OneUidEach(t) && k in t.uids && forall n <- t.channels :: n.0 in t.uids
    ensures Claimed(Forget(t, k)) == set m | m in Claimed(t) && m.0 != t.uids[k]
  {
    hide Lower, Claimed, OneUidEach;
    forall c | c in Claimed(t) && c.0 != t.uids[k] ensures c in Claimed(Forget(t, k)) {
      ClaimKept(t, k, c);
    }
    forall c | c in Claimed(Forget(t, k)) ensures c in Claimed(t) && c.0 != t.uids[k] {
      ClaimDropped(t, k, c);
    }
  }

  lemma ForgetStaysCoherent(t: Tables, k: string, sid: string)
    requires Coherent(t, sid)
    ensures Coherent(Forget(t, k), sid)
  {
  }

  /** Forgetting one bot matches the ircd losing that client, whoever caused it. */
  lemma ForgetKeepsSim(t: Tables, net: Ircd, k: string, hash: Hash, sid: string)
    requires Sim(t, net, hash, sid) && k in t.uids
    ensures Sim(Forget(t, k), DropClient(net, t.uids[k]), hash, sid)
  {
    ValuesAfterRemove(t.uids, k);
    ForgetStaysCoherent(t, k, sid);
    ClaimsAfterForget(t, k);
  }

  lemma ClaimsAfterLeave(t: Tables, m: (string, string))
    requires OneUidEach(t) && OneSpellingEach(t) && m in t.channels && forall n <- t.channels :: n.0 in t.uids
    ensures Claimed(t.(channels := t.channels - {m})) == Claimed(t) - {(t.uids[m.0], Lower(m.1))}
  {
    var t', gone := t.(channels := t.channels - {m}), (t.uids[m.0], Lower(m.1));
    forall c | c in Claimed(t') ensures c != gone {
      var n :| n in t'.channels && c == (t.uids[n.0], Lower(n.1));
      assert n in t.channels && n != m;
      assert n.0 != m.0 ==> t.uids[n.0] != t.uids[m.0];
    }
    forall c | c in Claimed(t) && c != gone ensures c in Claimed(t') {
      var n :| n in t.channels && c == (t.uids[n.0], Lower(n.1));
      assert n in t'.channels;
    }
  }

  /** Dropping one membership matches the ircd losing it under any spelling. */
  lemma LeaveKeepsSim(t: Tables, net: Ircd, m: (string, string), hash: Hash, sid: string)
    requires Sim(t, net, hash, sid) && m in t.channels
    ensures Sim(t.(channels := t.channels - {m}), LeaveChannel(net, t.uids[m.0], m.1), hash, sid)
  {
    ClaimsAfterLeave(t, m);
  }

  lemma JoinStaysCoherent(t: Tables, d: (string, string), sid: string)
    requires Coherent(t, sid) && d.0 in t.uids
    requires forall m <- t.channels :: m.0 == d.0 ==> Lower(m.1) != Lower(d.1)
    ensures Coherent(t.(channels := t.channels + {d}), sid)
  {
  }

  lemma ClaimsAfterJoin(t: Tables, d: (string, string))
    requires d.0 in t.uids && forall m <- t.channels :: m.0 in t.uids
    ensures Claimed(t.(channels := t.channels + {d})) == Claimed(t) + {(t.uids[d.0], Lower(d.1))}
  {
    var t' := t.(channels := t.channels + {d});
    assert d in t'.channels;
    forall c | c in Claimed(t) ensures c in Claimed(t') {
      var n :| n in t.channels && c == (t.uids[n.0], Lower(n.1));
      assert n in t'.channels;
    }
  }

  lemma JoinKeepsSim(t: Tables, net: Ircd, d: (string, string), hash: Hash, sid: string)
    requires Sim(t, net, hash, sid) && d.0 in t.uids
    requires forall m <- t.channels :: m.0 == d.0 ==> Lower(m.1) != Lower(d.1)
    ensures Sim(t.(channels := t.channels + {d}),
                net.(joined := net.joined + {(t.uids[d.0], Lower(d.1))}), hash, sid)
  {
    JoinStaysCoherent(t, d, sid);
    ClaimsAfterJoin(t, d);
  }

  lemma ServiceJoinKeepsSim(t: Tables, net: Ircd, a: Action, hash: Hash, sid: string)
    requires Sim(t, net, hash, sid) && Legal(t, a, sid) && a.ServiceJoin?
    ensures Exec(net, a).Some? && Sim(TabExec(t, a, hash), Exec(net, a).value, hash, sid)
  {
    var k := OwnerIsUnique(t, a.uid);
    JoinKeepsSim(t, net, (k, a.channel), hash, sid);
    assert TabExec(t, a, hash).channels == t.channels + {(k, a.channel)};
  }

  lemma ServicePartKeepsSim(t: Tables, net: Ircd, a: Action, hash: Hash, sid: string)
    requires Sim(t, net, hash, sid) && Legal(t, a, sid) && a.ServicePart?
    ensures Exec(net, a).Some? && Sim(TabExec(t, a, hash), Exec(net, a).value, hash, sid)
  {
    var k := OwnerIsUnique(t, a.uid);
    LeaveKeepsSim(t, net, (k, a.channel), hash, sid);
    assert TabExec(t, a, hash).channels == t.channels - {(k, a.channel)};
  }

  lemma IntroduceKeepsSim(t: Tables, net: Ircd, a: Action, hash: Hash, sid: string)
    requires Sim(t, net, hash, sid) && Legal(t, a, sid) && a.IntroduceUser?
    ensures Exec(net, a).Some? && Sim(TabExec(t, a, hash), Exec(net, a).value, hash, sid)
  {
    IntroduceKeepsCoherent(t, a, hash, sid);
    IntroduceKeepsClients(t, net, a, hash, sid);
    NextStaysUnused(t, net, a.uid, sid);
  }

  lemma ActionKeepsSim(t: Tables, net: Ircd, a: Action, hash: Hash, sid: string)
    requires Sim(t, net, hash, sid) && Legal(t, a, sid)
    ensures Exec(net, a).Some? && Sim(TabExec(t, a, hash), Exec(net, a).value, hash, sid)
  {
    match a
    case IntroduceUser(_, _) => IntroduceKeepsSim(t, net, a, hash, sid);
    case QuitUser(_) =>
      var k := QuitForgetsOwner(t, a, hash);
      ForgetKeepsSim(t, net, k, hash, sid);
    case ServiceJoin(_, _, _) => ServiceJoinKeepsSim(t, net, a, hash, sid);
    case ServicePart(_, _) => ServicePartKeepsSim(t, net, a, hash, sid);
    case ChannelMode(_, _, _) =>
  }

  /** A legal run of actions is executed without a single fault (so no uid is ever
      minted twice on a link) and leaves the tables telling the truth. */
  lemma {:induction false} LegalRunKeepsSim(t: Tables, net: Ircd, out: seq<Action>, hash: Hash, sid: string)
    requires Sim(t, net, hash, sid) && LegalRun(t, out, hash, sid)
    ensures Run(net, out).Some? && Sim(TabRun(t, out, hash), Run(net, out).value, hash, sid)
  {
    if out != [] {
      var front := out[..|out| - 1];
      LegalRunKeepsSim(t, net, front, hash, sid);
      ActionKeepsSim(TabRun(t, front, hash), Run(net, front).value, out[|out| - 1], hash, sid);
    }
  }

  lemma {:induction false} RunConcat(net: Ircd, a: seq<Action>, b: seq<Action>)
    ensures Run(net, a + b) == match Run(net, a) case None => None case Some(n) => Run(n, b)
  {
    if b == [] {
      assert a + b == a;
    } else {
      var front := b[..|b| - 1];
      RunConcat(net, a, front);
      assert (a + b)[..|a + b| - 1] == a + front;
    }
  }

  lemma {:induction false} LegalRunConcat(t: Tables, a: seq<Action>, b: seq<Action>, hash: Hash, sid: string)
    ensures TabRun(t, a + b, hash) == TabRun(TabRun(t, a, hash), b, hash)
    ensures LegalRun(t, a + b, hash, sid) <==> LegalRun(t, a, hash, sid) && LegalRun(TabRun(t, a, hash), b, hash, sid)
  {
    if b == [] {
      assert a + b == a;
    } else {
      var front := b[..|b| - 1];
      LegalRunConcat(t, a, front, hash, sid);
      assert (a + b)[..|a + b| - 1] == a + front;
    }
  }

  lemma EmitOne(t: Tables, out: seq<Action>, a: Action, hash: Hash, sid: string)
    ensures TabRun(t, out + [a], hash) == TabExec(TabRun(t, out, hash), a, hash)
    ensures LegalRun(t, out + [a], hash, sid) <==>
            LegalRun(t, out, hash, sid) && Legal(TabRun(t, out, hash), a, sid)
  {
    assert (out + [a])[..|out + [a]| - 1] == out;
  }

  // ----- The registry, as reconciliation reads it ---------------------------

  ghost predicate UniqueNicks(bots: seq<Bot>) {
    forall i, j :: 0 <= i < |bots| && 0 <= j < |bots| && Lower(bots[i].nick) == Lower(bots[j].nick) ==> i == j
  }

  ghost predicate UniqueNames(chans: seq<Chan>) {
    forall i, j :: 0 <= i < |chans| && 0 <= j < |chans| && Lower(chans[i].name) == Lower(chans[j].name) ==> i == j
  }

  ghost predicate WellFormed(store: Store) {
    && UniqueNicks(store.bots)
    && UniqueNames(store.channels)
  }

  function Keys(bots: seq<Bot>): set<string> {
    set b | b in bots :: Lower(b.nick)
  }

  /** The assignments whose bot is live: what `bot_channels` should become. */
  function Desired(store: Store, live: set<string>): set<(string, string)> {
    set c | c in store.channels && c.bot.Some? && Lower(c.bot.value) in live :: (Lower(c.bot.value), c.name)
  }

  /** The bot known as `k` is registered with the identity its live client has. */
  ghost predicate Kept(t: Tables, bots: seq<Bot>, hash: Hash, k: string) {
    k in t.uids && k in t.idents && exists b :: b in bots && Lower(b.nick) == k && hash(b.identity) == t.idents[k]
  }

  /** The tables say exactly what the registry says. */
  ghost predicate Synced(t: Tables, store: Store, hash: Hash) {
    && t.uids.Keys == Keys(store.bots)
    && (forall b :: b in store.bots ==> Lower(b.nick) in t.idents && t.idents[Lower(b.nick)] == hash(b.identity))
    && t.channels == Desired(store, t.uids.Keys)
  }

  function LockModes(channels: seq<Chan>, name: string): string {
    if channels == [] then ""
    else if Lower(channels[0].name) == Lower(name) then channels[0].lockModes
    else LockModes(channels[1..], name)
  }

  /** What one registry entry costs: nothing if it is live with its identity. */
  function IntroduceActions(t: Tables, bot: Bot, hash: Hash, sid: string): seq<Action> {
    var k := Lower(bot.nick);
    var intro := IntroduceUser(Uid(sid, t.next), bot);
    if k !in t.uids then [intro]
    else if k in t.idents && t.idents[k] == hash(bot.identity) then []
    else [QuitUser(t.uids[k]), intro]
  }

  /** The engine got from `t0` to `t` by emitting `out`, legally. */
  ghost predicate Progress(t0: Tables, out: seq<Action>, t: Tables, hash: Hash, sid: string) {
    LegalRun(t0, out, hash, sid) && t == TabRun(t0, out, hash) && Coherent(t, sid)
  }

  lemma ProgressConcat(t0: Tables, out: seq<Action>, t: Tables, more: seq<Action>, t': Tables, hash: Hash, sid: string)
    requires Progress(t0, out, t, hash, sid) && Progress(t, more, t', hash, sid)
    ensures Progress(t0, out + more, t', hash, sid)
  {
    LegalRunConcat(t0, out, more, hash, sid);
  }

  lemma IntroduceFresh(t: Tables, bot: Bot, hash: Hash, sid: string)
    requires Coherent(t, sid) && Lower(bot.nick) !in t.uids
    ensures Progress(t, [IntroduceUser(Uid(sid, t.next), bot)], Introduced(t, bot, hash, sid), hash, sid)
  {
    var intro := IntroduceUser(Uid(sid, t.next), bot);
    EmitOne(t, [], intro, hash, sid);
    assert [] + [intro] == [intro];
    IntroduceKeepsCoherent(t, intro, hash, sid);
  }

  lemma QuitStale(t: Tables, k: string, hash: Hash, sid: string)
    requires Coherent(t, sid) && k in t.uids
    ensures Progress(t, [QuitUser(t.uids[k])], Forget(t, k), hash, sid)
  {
    var quit := QuitUser(t.uids[k]);
    EmitOne(t, [], quit, hash, sid);
    assert [] + [quit] == [quit];
    var k' := QuitForgetsOwner(t, quit, hash);
  }

  lemma Reinsert<V>(m: map<string, V>, k: string, v: V)
    ensures (m - {k})[k := v] == m[k := v]
  {
  }

  lemma IntroduceActionsAreLegal(t: Tables, bot: Bot, hash: Hash, sid: string)
    requires Coherent(t, sid)
    ensures Progress(t, IntroduceActions(t, bot, hash, sid), Introduced(t, bot, hash, sid), hash, sid)
  {
    var k := Lower(bot.nick);
    if k !in t.uids {
      IntroduceFresh(t, bot, hash, sid);
    } else if t.idents[k] != hash(bot.identity) {
      QuitStale(t, k, hash, sid);
      var f := Forget(t, k);
      IntroduceFresh(f, bot, hash, sid);
      var quit, intro := QuitUser(t.uids[k]), IntroduceUser(Uid(sid, t.next), bot);
      Reinsert(t.uids, k, Uid(sid, t.next));
      Reinsert(t.idents, k, hash(bot.identity));
      ProgressConcat(t, [quit], f, [intro], Introduced(t, bot, hash, sid), hash, sid);
      assert [quit] + [intro] == [quit, intro];
    }
  }

  /** The tables once `bot` has been looked at. */
  function Introduced(t: Tables, bot: Bot, hash: Hash, sid: string): Tables {
    var k := Lower(bot.nick);
    if k in t.uids && k in t.idents && t.idents[k] == hash(bot.identity) then t
    else Tables(t.uids[k := Uid(sid, t.next)], t.idents[k := hash(bot.identity)],
                if k in t.uids then Without(t.channels, k) else t.channels, t.next + 1)
  }

  /** What the first pass has achieved once the nicks in `done` were looked at. */
  ghost predicate Refreshed(t0: Tables, t: Tables, done: set<string>, live: seq<Bot>, hash: Hash) {
    && t.uids.Keys == t0.uids.Keys + done
    && t.idents.Keys == t.uids.Keys
    && (forall b :: b in live && Lower(b.nick) in done ==> t.idents[Lower(b.nick)] == hash(b.identity))
    && (forall k :: k in t0.uids && (k !in done || Kept(t0, live, hash, k)) ==> Same(t0, t, k))
    && (forall m :: m in t.channels <==> m in t0.channels && (m.0 in done ==> Kept(t0, live, hash, m.0)))
  }

  ghost predicate Same(t0: Tables, t: Tables, k: string) {
    && k in t0.uids && k in t.uids && t.uids[k] == t0.uids[k]
    && k in t0.idents && k in t.idents && t.idents[k] == t0.idents[k]
  }

  lemma RefreshedStep(t0: Tables, t: Tables, done: set<string>, live: seq<Bot>, bot: Bot, hash: Hash, sid: string)
    requires UniqueNicks(live) && Coherent(t0, sid) && bot in live && Lower(bot.nick) !in done
    requires Refreshed(t0, t, done, live, hash)
    ensures Refreshed(t0, Introduced(t, bot, hash, sid), done + {Lower(bot.nick)}, live, hash)
  {
    var k := Lower(bot.nick);
    var t' := Introduced(t, bot, hash, sid);
    KeptMeansSameHash(t0, live, hash, bot);
    assert k in t0.uids ==> Same(t0, t, k);
    forall b | b in live && Lower(b.nick) in done + {k} ensures t'.idents[Lower(b.nick)] == hash(b.identity) {
      if Lower(b.nick) == k {
        assert b == bot;
      }
    }
    forall j | j in t0.uids && (j !in done + {k} || Kept(t0, live, hash, j)) ensures Same(t0, t', j) {
      assert Same(t0, t, j);
    }
  }

  function PassTables(t: Tables, live: seq<Bot>, hash: Hash, sid: string): Tables {
    if live == [] then t
    else Introduced(PassTables(t, live[..|live| - 1], hash, sid), live[|live| - 1], hash, sid)
  }

  function PassActions(t: Tables, live: seq<Bot>, hash: Hash, sid: string): seq<Action> {
    if live == [] then []
    else
      var front := live[..|live| - 1];
      PassActions(t, front, hash, sid)
      + IntroduceActions(PassTables(t, front, hash, sid), live[|live| - 1], hash, sid)
  }

  ghost predicate AllKept(t: Tables, live: seq<Bot>, hash: Hash) {
    forall b :: b in live ==> Kept(t, live, hash, Lower(b.nick))
  }

  ghost predicate NoMemberships(out: seq<Action>) {
    forall a :: a in out ==> a.IntroduceUser? || a.QuitUser?
  }

  /** After the first pass every registered bot is live under its registered
      identity, and bots that already were keep uid and channels. */
  ghost predicate PassSoFar(t: Tables, out: seq<Action>, t': Tables, done: set<string>, live: seq<Bot>, hash: Hash,
      sid: string) {
    && Progress(t, out, t', hash, sid)
    && Refreshed(t, t', done, live, hash)
    && NoMemberships(out)
  }

  lemma IntroducesOnly(t: Tables, bot: Bot, hash: Hash, sid: string)
    ensures NoMemberships(IntroduceActions(t, bot, hash, sid))
  {
  }

  lemma IntroduceProgress(t: Tables, out: seq<Action>, t1: Tables, bot: Bot, hash: Hash, sid: string)
    requires Progress(t, out, t1, hash, sid)
    ensures Progress(t, out + IntroduceActions(t1, bot, hash, sid), Introduced(t1, bot, hash, sid), hash, sid)
  {
    IntroduceActionsAreLegal(t1, bot, hash, sid);
    ProgressConcat(t, out, t1, IntroduceActions(t1, bot, hash, sid), Introduced(t1, bot, hash, sid), hash, sid);
  }

  lemma NoMembershipsConcat(a: seq<Action>, b: seq<Action>)
    requires NoMemberships(a) && NoMemberships(b)
    ensures NoMemberships(a + b)
  {
  }

  lemma {:induction false} PassRefreshes(t: Tables, live: seq<Bot>, n: nat, hash: Hash, sid: string)
    requires UniqueNicks(live) && Coherent(t, sid) && n <= |live|
    ensures PassSoFar(t, PassActions(t, live[..n], hash, sid), PassTables(t, live[..n], hash, sid),
                      Keys(live[..n]), live, hash, sid)
  {
    hide Coherent, Introduced, IntroduceActions, Lower, Progress, Refreshed, NoMemberships, Keys;
    if n == 0 {
      PassStart(t, live, hash, sid);
      assert live[..0] == [];
    } else {
      PassRefreshes(t, live, n - 1, hash, sid);
      var bot, front := live[n - 1], live[..n - 1];
      assert live[..n][..n - 1] == front;
      KeysOfPrefix(live, n - 1);
      var out, t1 := PassActions(t, front, hash, sid), PassTables(t, front, hash, sid);
      IntroduceProgress(t, out, t1, bot, hash, sid);
      RefreshedStep(t, t1, Keys(front), live, bot, hash, sid);
      IntroducesOnly(t1, bot, hash, sid);
      NoMembershipsConcat(out, IntroduceActions(t1, bot, hash, sid));
    }
  }

  lemma PassStart(t: Tables, live: seq<Bot>, hash: Hash, sid: string)
    requires Coherent(t, sid)
    ensures PassSoFar(t, [], t, Keys([]), live, hash, sid)
  {
  }

  // ----- Second pass: retire bots that left the registry --------------------

  lemma HasElement<X>(order: seq<X>)
    ensures order == [] || order[0] in order
    ensures order == [] || exists x :: x in Elements(order)
  {
    if order != [] {
      assert order[0] in order && order[0] in Elements(order);
    }
  }

  function RetireTables(t: Tables, order: seq<string>): Tables {
    if order == [] then t else Forget(RetireTables(t, order[..|order| - 1]), order[|order| - 1])
  }

  function RetireActions(t: Tables, order: seq<string>): seq<Action> {
    if order == [] then []
    else
      var k := order[|order| - 1];
      RetireActions(t, order[..|order| - 1]) + if k in t.uids then [QuitUser(t.uids[k])] else []
  }

  ghost predicate Retired(t: Tables, t': Tables, gone: set<string>) {
    && t'.uids == t.uids - gone
    && t'.idents == t.idents - gone
    && t'.next == t.next
    && forall m :: m in t'.channels <==> m in t.channels && m.0 !in gone
  }

  ghost predicate RetiredSoFar(t: Tables, out: seq<Action>, t': Tables, gone: set<string>, hash: Hash, sid: string) {
    Progress(t, out, t', hash, sid) && Retired(t, t', gone) && NoMemberships(out)
  }

  lemma RetiredStep(t: Tables, t1: Tables, gone: set<string>, k: string)
    requires Retired(t, t1, gone)
    ensures Retired(t, Forget(t1, k), gone + {k})
  {
  }

  lemma RetireStep(t: Tables, out: seq<Action>, t1: Tables, gone: set<string>, k: string, hash: Hash, sid: string)
    requires RetiredSoFar(t, out, t1, gone, hash, sid) && k in t.uids && k !in gone
    ensures RetiredSoFar(t, out + [QuitUser(t.uids[k])], Forget(t1, k), gone + {k}, hash, sid)
  {
    QuitStale(t1, k, hash, sid);
    ProgressConcat(t, out, t1, [QuitUser(t.uids[k])], Forget(t1, k), hash, sid);
    RetiredStep(t, t1, gone, k);
    NoMembershipsConcat(out, [QuitUser(t.uids[k])]);
  }

  lemma {:induction false} RetireIsLegal(t: Tables, order: seq<string>, hash: Hash, sid: string)
    requires Coherent(t, sid) && Distinct(order) && Elements(order) <= t.uids.Keys
    ensures RetiredSoFar(t, RetireActions(t, order), RetireTables(t, order), Elements(order), hash, sid)
  {
    if order == [] {
      NothingRetired(t, hash, sid);
    } else {
      var front, k := order[..|order| - 1], order[|order| - 1];
      ElementsSnoc(order);
      RetireIsLegal(t, front, hash, sid);
      RetireStep(t, RetireActions(t, front), RetireTables(t, front), Elements(front), k, hash, sid);
    }
  }

  lemma NothingRetired(t: Tables, hash: Hash, sid: string)
    requires Coherent(t, sid)
    ensures RetiredSoFar(t, [], t, Elements([]), hash, sid)
  {
    assert t.uids - Elements([]) == t.uids && t.idents - Elements([]) == t.idents;
  }

  // ----- Third pass: join the assigned channels -----------------------------

  /** `channel_mode_source`: the channel's own bot when live, else ChanServ. */
  function ModeSource(uids: map<string, string>, channels: seq<Chan>, name: string, chanService: Option<string>): string {
    if channels == [] then (if chanService.Some? then chanService.value else "")
    else if Lower(channels[0].name) == Lower(name) then
      if channels[0].bot.Some? && Lower(channels[0].bot.value) in uids then uids[Lower(channels[0].bot.value)]
      else if chanService.Some? then chanService.value else ""
    else ModeSource(uids, channels[1..], name, chanService)
  }

  /** The mode-lock re-assertion that follows a join is sourced from the joining bot. */
  lemma {:induction false} ModeSourceIsBot(uids: map<string, string>, chans: seq<Chan>, c: Chan, svc: Option<string>)
    requires c in chans && c.bot.Some? && Lower(c.bot.value) in uids && UniqueNames(chans)
    ensures ModeSource(uids, chans, c.name, svc) == uids[Lower(c.bot.value)]
  {
    if chans[0] != c {
      var i :| 0 < i < |chans| && chans[i] == c;
      assert Lower(chans[0].name) != Lower(c.name);
      assert chans[1..][i - 1] == c;
      ModeSourceIsBot(uids, chans[1..], c, svc);
    }
  }

  function JoinActions(t: Tables, store: Store, d: (string, string), svc: Option<string>): seq<Action> {
    if d in t.channels || d.0 !in t.uids then []
    else
      var modes := LockModes(store.channels, d.1);
      [ServiceJoin(t.uids[d.0], d.1, "ao")]
      + if modes == "" then [] else [ChannelMode(ModeSource(t.uids, store.channels, d.1, svc), d.1, modes)]
  }

  function WithMembership(t: Tables, d: (string, string)): Tables {
    if d.0 in t.uids then t.(channels := t.channels + {d}) else t
  }

  function JoinTables(t: Tables, order: seq<(string, string)>): Tables {
    if order == [] then t else WithMembership(JoinTables(t, order[..|order| - 1]), order[|order| - 1])
  }

  function JoinPassActions(t: Tables, store: Store, order: seq<(string, string)>, svc: Option<string>): seq<Action> {
    if order == [] then []
    else
      var front := order[..|order| - 1];
      JoinPassActions(t, store, front, svc) + JoinActions(JoinTables(t, front), store, order[|order| - 1], svc)
  }

  /** No membership in the tables names an assigned channel in another spelling. */
  ghost predicate NoClash(channels: set<(string, string)>, d: (string, string)) {
    forall m :: m in channels && m.0 == d.0 && Lower(m.1) == Lower(d.1) ==> m == d
  }

  /** What `JoinTables` needs: every action's uid has exactly one owner. */
  ghost predicate Owned(t: Tables) {
    t.idents.Keys == t.uids.Keys && OneUidEach(t) && forall m <- t.channels :: m.0 in t.uids
  }

  lemma JoinOne(t: Tables, store: Store, d: (string, string), svc: Option<string>, hash: Hash, sid: string)
    requires Owned(t) && WellFormed(store) && d in Desired(store, t.uids.Keys)
    ensures TabRun(t, JoinActions(t, store, d, svc), hash) == WithMembership(t, d)
    ensures Owned(WithMembership(t, d))
    ensures Coherent(t, sid) && NoClash(t.channels, d) ==>
              Progress(t, JoinActions(t, store, d, svc), WithMembership(t, d), hash, sid)
  {
    var acts, t' := JoinActions(t, store, d, svc), WithMembership(t, d);
    if d !in t.channels {
      var uid := t.uids[d.0];
      var c :| c in store.channels && c.bot.Some? && d == (Lower(c.bot.value), c.name);
      var join := ServiceJoin(uid, d.1, "ao");
      var k := OwnerIsUnique(t, uid);
      assert TabExec(t, join, hash).channels == t.channels + {d};
      assert TabExec(t, join, hash) == t';
      EmitOne(t, [], join, hash, sid);
      assert [] + [join] == [join];
      ModeSourceIsBot(t.uids, store.channels, c, svc);
      var modes := LockModes(store.channels, d.1);
      if modes != "" {
        EmitOne(t, [join], ChannelMode(uid, d.1, modes), hash, sid);
        assert acts == [join] + [ChannelMode(uid, d.1, modes)];
      } else {
        assert acts == [join];
      }
      if Coherent(t, sid) && NoClash(t.channels, d) {
        JoinStaysCoherent(t, d, sid);
        assert Legal(t, join, sid);
      }
    } else {
      assert t' == t && acts == [];
    }
  }

  ghost predicate NoClashes(channels: set<(string, string)>, ds: set<(string, string)>) {
    forall m, d :: m in channels && d in ds && m.0 == d.0 && Lower(m.1) == Lower(d.1) ==> m == d
  }

  /** Only joins of memberships the tables did not have, and their mode locks. */
  ghost predicate OnlyNewJoins(out: seq<Action>, t: Tables, ds: set<(string, string)>) {
    forall a :: a in out ==>
      || a.ChannelMode?
      || (a.ServiceJoin? && exists d :: d in ds - t.channels && d.0 in t.uids && a.uid == t.uids[d.0] && a.channel == d.1)
  }

  lemma JoinOneIsNew(t0: Tables, t: Tables, store: Store, d: (string, string), svc: Option<string>)
    requires t.uids == t0.uids && t0.channels <= t.channels
    ensures OnlyNewJoins(JoinActions(t, store, d, svc), t0, {d})
    ensures d in t.channels ==> JoinActions(t, store, d, svc) == []
  {
  }

  lemma OnlyNewJoinsConcat(a: seq<Action>, b: seq<Action>, t: Tables, ds: set<(string, string)>, d: (string, string))
    requires OnlyNewJoins(a, t, ds) && OnlyNewJoins(b, t, {d})
    ensures OnlyNewJoins(a + b, t, ds + {d})
  {
    forall x | x in a + b && !x.ChannelMode?
      ensures x.ServiceJoin?
      ensures exists e ::
                e in (ds + {d}) - t.channels && e.0 in t.uids && x.uid == t.uids[e.0] && x.channel == e.1
    {
      if x in a {
        var e :| e in ds - t.channels && e.0 in t.uids && x.uid == t.uids[e.0] && x.channel == e.1;
        assert e in (ds + {d}) - t.channels;
      } else {
        var e :| e in {d} - t.channels && e.0 in t.uids && x.uid == t.uids[e.0] && x.channel == e.1;
        assert e in (ds + {d}) - t.channels;
      }
    }
  }

  lemma DesiredDoNotClash(store: Store, live: set<string>)
    requires WellFormed(store)
    ensures NoClashes(Desired(store, live), Desired(store, live))
  {
  }

  lemma {:induction false} JoinPass(t: Tables, store: Store, order: seq<(string, string)>, svc: Option<string>,
      hash: Hash, sid: string)
    requires Owned(t) && WellFormed(store) && Distinct(order) && Elements(order) <= Desired(store, t.uids.Keys)
    ensures JoinTables(t, order) == t.(channels := t.channels + Elements(order))
    ensures Owned(JoinTables(t, order))
    ensures TabRun(t, JoinPassActions(t, store, order, svc), hash) == JoinTables(t, order)
    ensures OnlyNewJoins(JoinPassActions(t, store, order, svc), t, Elements(order))
    ensures Coherent(t, sid) && NoClashes(t.channels, Elements(order)) ==>
              Progress(t, JoinPassActions(t, store, order, svc), JoinTables(t, order), hash, sid)
  {
    if order == [] {
      assert t.channels + Elements(order) == t.channels;
    } else {
      var front, d := order[..|order| - 1], order[|order| - 1];
      ElementsSnoc(order);
      JoinPass(t, store, front, svc, hash, sid);
      var t1 := JoinTables(t, front);
      var acts, more := JoinPassActions(t, store, front, svc), JoinActions(t1, store, d, svc);
      JoinOne(t1, store, d, svc, hash, sid);
      JoinOneIsNew(t, t1, store, d, svc);
      OnlyNewJoinsConcat(acts, more, t, Elements(front), d);
      LegalRunConcat(t, acts, more, hash, sid);
      assert t.channels + Elements(order) == t1.channels + {d};
      if Coherent(t, sid) && NoClashes(t.channels, Elements(order)) {
        DesiredDoNotClash(store, t.uids.Keys);
        assert NoClash(t1.channels, d);
        ProgressConcat(t, acts, t1, more, JoinTables(t, order), hash, sid);
      }
    }
  }

  // ----- Fourth pass: part the channels no longer assigned ------------------

  function PartActions(t: Tables, order: seq<(string, string)>): seq<Action> {
    if order == [] then []
    else
      var m := order[|order| - 1];
      PartActions(t, order[..|order| - 1]) + if m.0 in t.uids then [ServicePart(t.uids[m.0], m.1)] else []
  }

  /** Exactly one kind of part: for a membership in `gone`. */
  ghost predicate PartsOf(out: seq<Action>, t: Tables, gone: set<(string, string)>) {
    && (forall a :: a in out ==> a.ServicePart? && exists m ::
        m in gone && m.0 in t.uids && a == ServicePart(t.uids[m.0], m.1))
    && (forall m :: m in gone && m.0 in t.uids ==> ServicePart(t.uids[m.0], m.1) in out)
  }

  lemma PartOne(t: Tables, m: (string, string), hash: Hash, sid: string)
    requires Owned(t) && m in t.channels
    ensures var part := [ServicePart(t.uids[m.0], m.1)];
            TabRun(t, part, hash) == t.(channels := t.channels - {m}) && LegalRun(t, part, hash, sid)
  {
    var part := ServicePart(t.uids[m.0], m.1);
    var k := OwnerIsUnique(t, t.uids[m.0]);
    EmitOne(t, [], part, hash, sid);
    assert [] + [part] == [part];
    assert TabExec(t, part, hash).channels == t.channels - {m};
  }

  lemma {:induction false} PartPass(t: Tables, order: seq<(string, string)>, hash: Hash, sid: string)
    requires Owned(t) && Distinct(order) && Elements(order) <= t.channels
    ensures TabRun(t, PartActions(t, order), hash) == t.(channels := t.channels - Elements(order))
    ensures LegalRun(t, PartActions(t, order), hash, sid)
    ensures PartsOf(PartActions(t, order), t, Elements(order))
  {
    if order == [] {
      assert t.channels - Elements(order) == t.channels;
    } else {
      var front, m := order[..|order| - 1], order[|order| - 1];
      ElementsSnoc(order);
      PartPass(t, front, hash, sid);
      var t1 := t.(channels := t.channels - Elements(front));
      PartOne(t1, m, hash, sid);
      LegalRunConcat(t, PartActions(t, front), [ServicePart(t.uids[m.0], m.1)], hash, sid);
      assert t.channels - Elements(order) == t1.channels - {m};
    }
  }

  // ----- Reconciliation as a whole ------------------------------------------

  /** A kept bot sits in a channel that the registry now spells differently. */
  ghost predicate Respells(t: Tables, store: Store, hash: Hash, m: (string, string), d: (string, string)) {
    && m in t.channels && Kept(t, store.bots, hash, m.0)
    && d in Desired(store, Keys(store.bots))
    && m.0 == d.0 && Lower(m.1) == Lower(d.1) && m.1 != d.1
  }

  ghost predicate Respelled(t: Tables, store: Store, hash: Hash) {
    exists m, d :: Respells(t, store, hash, m, d)
  }

  /** All parts come last: nothing joins a channel after a part. */
  ghost predicate PartsLast(out: seq<Action>) {
    forall i, j :: 0 <= i < j < |out| && out[i].ServicePart? ==> out[j].ServicePart?
  }

  /** Respelled memberships are parted, and parted last; memberships that were
      right already are left alone. */
  ghost predicate MembershipOrder(t: Tables, store: Store, out: seq<Action>, hash: Hash) {
    && PartsLast(out)
    && (forall m, d :: Respells(t, store, hash, m, d) ==> ServicePart(t.uids[m.0], m.1) in out)
    && (forall m :: m in t.channels && Kept(t, store.bots, hash, m.0) && m in Desired(store, Keys(store.bots)) ==>
          && ServicePart(t.uids[m.0], m.1) !in out
          && forall a :: a in out && a.ServiceJoin? ==> a.uid != t.uids[m.0] || a.channel != m.1)
  }

  ghost predicate KeepsUids(t: Tables, t': Tables, store: Store, hash: Hash) {
    forall k :: Kept(t, store.bots, hash, k) ==> k in t'.uids && t'.uids[k] == t.uids[k]
  }

  /** An assigned channel that its live bot is not in yet as the registry spells it. */
  ghost predicate Missing(t: Tables, store: Store, hash: Hash, c: Chan) {
    && c in store.channels && c.bot.Some? && Lower(c.bot.value) in Keys(store.bots)
    && !(Kept(t, store.bots, hash, Lower(c.bot.value)) && (Lower(c.bot.value), c.name) in t.channels)
  }

  ghost function MissingChans(t: Tables, store: Store, hash: Hash): set<Chan> {
    set c | c in store.channels && Missing(t, store, hash, c)
  }

  /** The uid of the channel's bot. */
  ghost function UidOf(uids: map<string, string>, c: Chan): string {
    if c.bot.Some? && Lower(c.bot.value) in uids then uids[Lower(c.bot.value)] else ""
  }

  /** At `i` the channel's bot joins it, and sets its mode lock right after if there is one. */
  ghost predicate JoinsAt(out: seq<Action>, i: int, uids: map<string, string>, c: Chan) {
    && 0 <= i < |out| && out[i] == ServiceJoin(UidOf(uids, c), c.name, "ao")
    && if c.lockModes != "" then i + 1 < |out| && out[i + 1] == ChannelMode(UidOf(uids, c), c.name, c.lockModes)
       else i + 1 < |out| ==> !out[i + 1].ChannelMode?
  }

  /** A join at `i` is that of one of the channels `cs`. */
  ghost predicate JoinIn(out: seq<Action>, i: int, uids: map<string, string>, cs: set<Chan>) {
    0 <= i < |out| && out[i].ServiceJoin? ==> exists c :: c in cs && JoinsAt(out, i, uids, c)
  }

  /** A mode change at `i` directly follows a join. */
  ghost predicate ModeAfterJoin(out: seq<Action>, i: int) {
    0 <= i < |out| && out[i].ChannelMode? ==> 0 < i && out[i - 1].ServiceJoin?
  }

  /** The joins in `out` are those of the channels `cs`, once each, and every mode change
      is the mode lock of the channel just joined. */
  ghost predicate JoinsExactly(out: seq<Action>, uids: map<string, string>, cs: set<Chan>) {
    && (forall c :: c in cs ==> exists i :: JoinsAt(out, i, uids, c))
    && (forall i :: JoinIn(out, i, uids, cs))
    && (forall i :: ModeAfterJoin(out, i))
    && (forall i, j :: 0 <= i < j < |out| && out[i].ServiceJoin? ==> out[i] != out[j])
  }

  /** So far as the nicks `done` and the live bots `over` go: whoever is not kept is quit, and
      introduced as registered if registered, under the uid the tables now hold; and nobody else. */
  ghost predicate Turned(t: Tables, uids: map<string, string>, out: seq<Action>, done: set<string>, over: set<string>,
                         live: seq<Bot>, hash: Hash) {
    && (forall b :: b in live && Lower(b.nick) in done && !Kept(t, live, hash, Lower(b.nick)) ==>
          Lower(b.nick) in uids && IntroduceUser(uids[Lower(b.nick)], b) in out)
    && (forall a :: a in out && a.IntroduceUser? ==>
          && a.bot in live && Lower(a.bot.nick) in done && !Kept(t, live, hash, Lower(a.bot.nick))
          && Lower(a.bot.nick) in uids && a.uid == uids[Lower(a.bot.nick)])
    && (forall k :: k in t.uids && k in over && !Kept(t, live, hash, k) ==> QuitUser(t.uids[k]) in out)
    && (forall a :: a in out && a.QuitUser? ==>
          exists k :: k in t.uids && k in over && !Kept(t, live, hash, k) && a.uid == t.uids[k])
  }

  /** The bots that are introduced and the clients that are quit, told by the registry. */
  ghost predicate Turnover(t: Tables, uids: map<string, string>, out: seq<Action>, store: Store, hash: Hash) {
    Turned(t, uids, out, Keys(store.bots), t.uids.Keys, store.bots, hash)
  }

  /** What `ReconcileBots` promises about the actions it emits in state `t`. */
  ghost predicate Reconciled(t: Tables, store: Store, out: seq<Action>, hash: Hash, sid: string) {
    && Synced(TabRun(t, out, hash), store, hash)
    && KeepsUids(t, TabRun(t, out, hash), store, hash)
    && (!Respelled(t, store, hash) ==> LegalRun(t, out, hash, sid))
    && MembershipOrder(t, store, out, hash)
    && Turnover(t, TabRun(t, out, hash).uids, out, store, hash)
    && JoinsExactly(out, TabRun(t, out, hash).uids, MissingChans(t, store, hash))
    && (Synced(t, store, hash) ==> out == [])
  }

  /** Between the second and the third pass: the live bots are the registered ones,
      and the only memberships left are those of bots that were kept. */
  ghost predicate Settled(t: Tables, t2: Tables, store: Store, hash: Hash) {
    && t2.uids.Keys == Keys(store.bots) == t2.idents.Keys
    && (forall b :: b in store.bots ==> t2.idents[Lower(b.nick)] == hash(b.identity))
    && (forall k :: Kept(t, store.bots, hash, k) ==> k in t2.uids && t2.uids[k] == t.uids[k])
    && (forall m :: m in t2.channels <==> m in t.channels && Kept(t, store.bots, hash, m.0))
  }

  lemma SettledAfterRetiring(t: Tables, t1: Tables, t2: Tables, store: Store, hash: Hash, sid: string)
    requires Coherent(t, sid) && Coherent(t1, sid) && Refreshed(t, t1, Keys(store.bots), store.bots, hash)
    requires Retired(t1, t2, t1.uids.Keys - Keys(store.bots))
    ensures Settled(t, t2, store, hash)
  {
    hide Lower, OneUidEach, OneSpellingEach, MintedBefore;
    assert forall b :: b in store.bots ==> Lower(b.nick) in Keys(store.bots);
    forall k | Kept(t, store.bots, hash, k) ensures k in t2.uids && t2.uids[k] == t.uids[k] {
      assert Same(t, t1, k);
    }
    MembershipsLeft(t, t1, t2, store, hash, sid);
  }

  lemma MembershipsLeft(t: Tables, t1: Tables, t2: Tables, store: Store, hash: Hash, sid: string)
    requires Coherent(t1, sid) && Refreshed(t, t1, Keys(store.bots), store.bots, hash)
    requires Retired(t1, t2, t1.uids.Keys - Keys(store.bots))
    ensures forall m :: m in t2.channels <==> m in t.channels && Kept(t, store.bots, hash, m.0)
  {
    hide Lower, Same, OneUidEach, OneSpellingEach, MintedBefore;
    forall m ensures m in t2.channels <==> m in t.channels && Kept(t, store.bots, hash, m.0) {
      assert Kept(t, store.bots, hash, m.0) ==> m.0 in Keys(store.bots);
      assert m in t1.channels ==> m.0 in t1.uids;
    }
  }

  lemma SyncedIsAllKept(t: Tables, store: Store, hash: Hash)
    requires Synced(t, store, hash)
    ensures AllKept(t, store.bots, hash)
  {
    forall b | b in store.bots ensures Kept(t, store.bots, hash, Lower(b.nick)) {
      assert Lower(b.nick) in Keys(store.bots);
    }
  }

  lemma {:induction false} KeptPassIsIdle(t: Tables, live: seq<Bot>, n: nat, hash: Hash, sid: string)
    requires UniqueNicks(live) && n <= |live| && AllKept(t, live, hash)
    ensures PassTables(t, live[..n], hash, sid) == t && PassActions(t, live[..n], hash, sid) == []
  {
    if n > 0 {
      KeptPassIsIdle(t, live, n - 1, hash, sid);
      assert live[..n][..n - 1] == live[..n - 1];
      assert live[n - 1] in live;
      KeptMeansSameHash(t, live, hash, live[n - 1]);
    }
  }

  lemma FirstTwoPasses(t: Tables, store: Store, gone: seq<string>, hash: Hash, sid: string)
    requires Coherent(t, sid) && WellFormed(store) && Distinct(gone)
    requires Elements(gone) == PassTables(t, store.bots, hash, sid).uids.Keys - Keys(store.bots)
    ensures var t1 := PassTables(t, store.bots, hash, sid);
            var out := PassActions(t, store.bots, hash, sid) + RetireActions(t1, gone);
            && Progress(t, out, RetireTables(t1, gone), hash, sid)
            && NoMemberships(out)
            && Settled(t, RetireTables(t1, gone), store, hash)
  {
    var live := store.bots;
    assert live[..|live|] == live;
    PassRefreshes(t, live, |live|, hash, sid);
    var t1 := PassTables(t, live, hash, sid);
    RetireIsLegal(t1, gone, hash, sid);
    var t2 := RetireTables(t1, gone);
    ProgressConcat(t, PassActions(t, live, hash, sid), t1, RetireActions(t1, gone), t2, hash, sid);
    SettledAfterRetiring(t, t1, t2, store, hash, sid);
  }

  lemma FirstTwoPassesIdle(t: Tables, store: Store, gone: seq<string>, hash: Hash, sid: string)
    requires Coherent(t, sid) && WellFormed(store) && Synced(t, store, hash)
    requires Elements(gone) == PassTables(t, store.bots, hash, sid).uids.Keys - Keys(store.bots)
    ensures var t1 := PassTables(t, store.bots, hash, sid);
            && PassActions(t, store.bots, hash, sid) + RetireActions(t1, gone) == []
            && RetireTables(t1, gone) == t
  {
    var live := store.bots;
    assert live[..|live|] == live;
    SyncedIsAllKept(t, store, hash);
    KeptPassIsIdle(t, live, |live|, hash, sid);
    HasElement(gone);
  }

  lemma SettledIsOwned(t: Tables, t2: Tables, store: Store, hash: Hash, sid: string)
    requires Settled(t, t2, store, hash) && Coherent(t2, sid)
    ensures Owned(t2)
    ensures !Respelled(t, store, hash) ==> NoClashes(t2.channels, Desired(store, t2.uids.Keys))
  {
    if !Respelled(t, store, hash) {
      forall m, d | m in t2.channels && d in Desired(store, t2.uids.Keys) && m.0 == d.0 && Lower(m.1) == Lower(d.1)
        ensures m == d
      {
        assert !Respells(t, store, hash, m, d);
      }
    }
  }

  /** The memberships after the last two passes, and the actions that got there. */
  lemma LastTwoPasses(t2: Tables, store: Store, joins: seq<(string, string)>, parts: seq<(string, string)>,
                      svc: Option<string>, hash: Hash, sid: string)
    requires Owned(t2) && WellFormed(store) && Distinct(joins) && Distinct(parts)
    requires Elements(joins) == Desired(store, t2.uids.Keys)
    requires Elements(parts) == t2.channels + Elements(joins) - Desired(store, t2.uids.Keys)
    ensures var want := Desired(store, t2.uids.Keys);
            var js, ps := JoinPassActions(t2, store, joins, svc), PartActions(JoinTables(t2, joins), parts);
            && JoinTables(t2, joins).channels == t2.channels + want
            && TabRun(t2, js + ps, hash) == t2.(channels := want)
            && (Coherent(t2, sid) && NoClashes(t2.channels, want) ==> LegalRun(t2, js + ps, hash, sid))
            && OnlyNewJoins(js, t2, want)
            && PartsOf(ps, t2, t2.channels - want)
  {
    JoinPass(t2, store, joins, svc, hash, sid);
    var want, t3 := Desired(store, t2.uids.Keys), JoinTables(t2, joins);
    PartPass(t3, parts, hash, sid);
    var js, ps := JoinPassActions(t2, store, joins, svc), PartActions(t3, parts);
    LegalRunConcat(t2, js, ps, hash, sid);
    assert t3.channels - Elements(parts) == want;
    assert Elements(parts) == t2.channels - want;
  }

  lemma NothingToJoin(t2: Tables, js: seq<Action>, ps: seq<Action>)
    requires OnlyNewJoins(js, t2, t2.channels) && PartsOf(ps, t2, {})
    requires js != [] ==> js[0].ServiceJoin?
    ensures js == [] && ps == []
  {
    HasElement(js);
    HasElement(ps);
  }

  lemma {:induction false} JoinsStartWithJoin(t: Tables, store: Store, order: seq<(string, string)>, svc: Option<string>)
    ensures var js := JoinPassActions(t, store, order, svc); js != [] ==> js[0].ServiceJoin?
  {
    if order != [] {
      JoinsStartWithJoin(t, store, order[..|order| - 1], svc);
    }
  }

  ghost predicate Orders(t1: Tables, t2: Tables, t3: Tables, store: Store, gone: seq<string>,
                         joins: seq<(string, string)>, parts: seq<(string, string)>) {
    && Distinct(gone) && Elements(gone) == t1.uids.Keys - Keys(store.bots)
    && t2 == RetireTables(t1, gone)
    && Distinct(joins) && Elements(joins) == Desired(store, t2.uids.Keys)
    && t3 == JoinTables(t2, joins)
    && Distinct(parts) && Elements(parts) == t3.channels - Desired(store, t2.uids.Keys)
  }

  function PassesOut(t: Tables, t1: Tables, t2: Tables, t3: Tables, store: Store, gone: seq<string>,
                     joins: seq<(string, string)>, parts: seq<(string, string)>,
                     svc: Option<string>, hash: Hash, sid: string): seq<Action> {
    PassActions(t, store.bots, hash, sid) + RetireActions(t1, gone)
    + (JoinPassActions(t2, store, joins, svc) + PartActions(t3, parts))
  }

  lemma PassesLand(t: Tables, store: Store, gone: seq<string>, joins: seq<(string, string)>,
                   parts: seq<(string, string)>, svc: Option<string>, hash: Hash, sid: string,
                   t1: Tables, t2: Tables, t3: Tables)
    requires Coherent(t, sid) && WellFormed(store) && t1 == PassTables(t, store.bots, hash, sid)
    requires Orders(t1, t2, t3, store, gone, joins, parts)
    ensures var out := PassesOut(t, t1, t2, t3, store, gone, joins, parts, svc, hash, sid);
            && TabRun(t, out, hash) == t3.(channels := t3.channels - Elements(parts))
            && Synced(TabRun(t, out, hash), store, hash)
            && KeepsUids(t, TabRun(t, out, hash), store, hash)
            && (!Respelled(t, store, hash) ==> LegalRun(t, out, hash, sid))
  {
    var ab := PassActions(t, store.bots, hash, sid) + RetireActions(t1, gone);
    var js, ps := JoinPassActions(t2, store, joins, svc), PartActions(t3, parts);
    FirstTwoPasses(t, store, gone, hash, sid);
    SettledIsOwned(t, t2, store, hash, sid);
    JoinPass(t2, store, joins, svc, hash, sid);
    LastTwoPasses(t2, store, joins, parts, svc, hash, sid);
    LegalRunConcat(t, ab, js + ps, hash, sid);
  }

  lemma PassesOrdered(t: Tables, store: Store, gone: seq<string>, joins: seq<(string, string)>,
                      parts: seq<(string, string)>, svc: Option<string>, hash: Hash, sid: string,
                      t1: Tables, t2: Tables, t3: Tables)
    requires Coherent(t, sid) && WellFormed(store) && t1 == PassTables(t, store.bots, hash, sid)
    requires Orders(t1, t2, t3, store, gone, joins, parts)
    ensures MembershipOrder(t, store, PassesOut(t, t1, t2, t3, store, gone, joins, parts, svc, hash, sid), hash)
  {
    FirstTwoPasses(t, store, gone, hash, sid);
    SettledIsOwned(t, t2, store, hash, sid);
    JoinPass(t2, store, joins, svc, hash, sid);
    LastTwoPasses(t2, store, joins, parts, svc, hash, sid);
    PassesInOrder(t, t2, store, PassActions(t, store.bots, hash, sid) + RetireActions(t1, gone),
                  JoinPassActions(t2, store, joins, svc), PartActions(t3, parts), hash);
  }

  lemma PassesIdle(t: Tables, store: Store, gone: seq<string>, joins: seq<(string, string)>,
                   parts: seq<(string, string)>, svc: Option<string>, hash: Hash, sid: string,
                   t1: Tables, t2: Tables, t3: Tables)
    requires Coherent(t, sid) && WellFormed(store) && t1 == PassTables(t, store.bots, hash, sid)
    requires Orders(t1, t2, t3, store, gone, joins, parts) && Synced(t, store, hash)
    ensures PassesOut(t, t1, t2, t3, store, gone, joins, parts, svc, hash, sid) == []
  {
    FirstTwoPassesIdle(t, store, gone, hash, sid);
    JoinPass(t2, store, joins, svc, hash, sid);
    LastTwoPasses(t2, store, joins, parts, svc, hash, sid);
    JoinsStartWithJoin(t2, store, joins, svc);
    NothingToJoin(t2, JoinPassActions(t2, store, joins, svc), PartActions(t3, parts));
  }

  // ----- Introductions and quits, told by the registry alone -------------------

  lemma TurnedStep(t: Tables, t1: Tables, out: seq<Action>, done: set<string>, live: seq<Bot>, bot: Bot, hash: Hash,
      sid: string)
    requires UniqueNicks(live) && Coherent(t, sid) && bot in live && Lower(bot.nick) !in done
    requires Refreshed(t, t1, done, live, hash) && Turned(t, t1.uids, out, done, done, live, hash)
    ensures var k := Lower(bot.nick);
            Turned(t, Introduced(t1, bot, hash, sid).uids, out + IntroduceActions(t1, bot, hash, sid), done + {k}, done + {k},
                   live, hash)
  {
    hide Lower, Uid, MintedBefore, OneUidEach, OneSpellingEach;
    var k := Lower(bot.nick);
    KeptMeansSameHash(t, live, hash, bot);
    assert k in t.uids ==> Same(t, t1, k);
    var more, uids' := IntroduceActions(t1, bot, hash, sid), Introduced(t1, bot, hash, sid).uids;
    assert Kept(t, live, hash, k) <==> more == [];
    assert forall b :: b in live && Lower(b.nick) == k ==> b == bot;
    if more != [] {
      assert IntroduceUser(uids'[k], bot) in more && (k in t.uids ==> QuitUser(t.uids[k]) in more);
    }
  }

  lemma {:induction false} PassTurns(t: Tables, live: seq<Bot>, n: nat, hash: Hash, sid: string)
    requires UniqueNicks(live) && Coherent(t, sid) && n <= |live|
    ensures Turned(t, PassTables(t, live[..n], hash, sid).uids, PassActions(t, live[..n], hash, sid),
                   Keys(live[..n]), Keys(live[..n]), live, hash)
  {
    hide Coherent, Introduced, IntroduceActions, Lower, Kept, Turned, UniqueNicks, Progress, Refreshed;
    if n == 0 {
      assert live[..0] == [];
      NobodyTurned(t, live, hash);
    } else {
      PassTurns(t, live, n - 1, hash, sid);
      PassRefreshes(t, live, n - 1, hash, sid);
      var bot, front := live[n - 1], live[..n - 1];
      assert live[..n][..n - 1] == front;
      KeysOfPrefix(live, n - 1);
      TurnedStep(t, PassTables(t, front, hash, sid), PassActions(t, front, hash, sid), Keys(front), live, bot, hash, sid);
    }
  }

  lemma NobodyTurned(t: Tables, live: seq<Bot>, hash: Hash)
    ensures Turned(t, t.uids, [], Keys([]), Keys([]), live, hash)
  {
  }

  lemma {:induction false} RetireQuits(t: Tables, order: seq<string>)
    requires Elements(order) <= t.uids.Keys
    ensures forall a :: a in RetireActions(t, order) <==> exists k :: k in Elements(order) && a == QuitUser(t.uids[k])
  {
    if order != [] {
      var front, k := order[..|order| - 1], order[|order| - 1];
      assert order == front + [k];
      assert Elements(order) == Elements(front) + {k};
      RetireQuits(t, front);
    }
  }

  lemma TurnedRetires(t: Tables, t1: Tables, out: seq<Action>, gone: seq<string>, live: seq<Bot>, hash: Hash)
    requires Refreshed(t, t1, Keys(live), live, hash) && Turned(t, t1.uids, out, Keys(live), Keys(live), live, hash)
    requires Elements(gone) == t1.uids.Keys - Keys(live)
    ensures Turned(t, t1.uids, out + RetireActions(t1, gone), Keys(live), t.uids.Keys, live, hash)
  {
    hide Lower, Refreshed, Kept, Keys, Elements;
    RetireQuits(t1, gone);
    GoneWereLive(t, t1, live, hash);
    var quits := RetireActions(t1, gone);
    forall k | k in t.uids && !Kept(t, live, hash, k) ensures QuitUser(t.uids[k]) in out + quits {
      if k !in Keys(live) {
        assert k in Elements(gone);
        assert QuitUser(t.uids[k]) in quits;
      }
    }
    forall a | a in out + quits && a.QuitUser?
      ensures exists k :: k in t.uids && !Kept(t, live, hash, k) && a.uid == t.uids[k]
    {
      if a in quits {
        var k :| k in Elements(gone) && a == QuitUser(t1.uids[k]);
        assert k in t.uids && a.uid == t.uids[k];
      }
    }
  }

  lemma GoneWereLive(t: Tables, t1: Tables, live: seq<Bot>, hash: Hash)
    requires Refreshed(t, t1, Keys(live), live, hash)
    ensures forall k :: k in t1.uids && k !in Keys(live) ==>
              k in t.uids && t.uids[k] == t1.uids[k] && !Kept(t, live, hash, k)
    ensures t.uids.Keys <= t1.uids.Keys
  {
    hide Lower;
    assert forall k :: k in t1.uids && k !in Keys(live) ==> Same(t, t1, k);
  }

  lemma TurnedMore(t: Tables, uids: map<string, string>, uids': map<string, string>, out: seq<Action>, more: seq<Action>,
                   done: set<string>, over: set<string>, live: seq<Bot>, hash: Hash)
    requires Turned(t, uids, out, done, over, live, hash) && forall a :: a in more ==> !a.IntroduceUser? && !a.QuitUser?
    requires forall k :: k in done && k in uids ==> k in uids' && uids'[k] == uids[k]
    ensures Turned(t, uids', out + more, done, over, live, hash)
  {
    hide Lower, Kept;
  }

  lemma PassesTurn(t: Tables, store: Store, gone: seq<string>, joins: seq<(string, string)>,
                   parts: seq<(string, string)>, svc: Option<string>, hash: Hash, sid: string,
                   t1: Tables, t2: Tables, t3: Tables)
    requires Coherent(t, sid) && WellFormed(store) && t1 == PassTables(t, store.bots, hash, sid)
    requires Orders(t1, t2, t3, store, gone, joins, parts)
    ensures var out := PassesOut(t, t1, t2, t3, store, gone, joins, parts, svc, hash, sid);
            Turnover(t, t2.uids, out, store, hash)
  {
    hide Coherent, Kept, Lower, Owned, Settled, Turned, Refreshed, OnlyNewJoins;
    var live := store.bots;
    assert live[..|live|] == live;
    PassTurns(t, live, |live|, hash, sid);
    PassRefreshes(t, live, |live|, hash, sid);
    TurnedRetires(t, t1, PassActions(t, live, hash, sid), gone, live, hash);
    RetireIsLegal(t1, gone, hash, sid);
    FirstTwoPasses(t, store, gone, hash, sid);
    SettledIsOwned(t, t2, store, hash, sid);
    JoinPass(t2, store, joins, svc, hash, sid);
    LastTwoPasses(t2, store, joins, parts, svc, hash, sid);
    var more := JoinPassActions(t2, store, joins, svc) + PartActions(t3, parts);
    OnlyMemberships(t2, JoinPassActions(t2, store, joins, svc), PartActions(t3, parts), Desired(store, t2.uids.Keys),
                    t2.channels - Desired(store, t2.uids.Keys));
    TurnedMore(t, t1.uids, t2.uids, PassActions(t, live, hash, sid) + RetireActions(t1, gone), more, Keys(live), t.uids.Keys,
               live, hash);
  }

  lemma OnlyMemberships(t: Tables, js: seq<Action>, ps: seq<Action>, ds: set<(string, string)>, gone: set<(string, string)>)
    requires OnlyNewJoins(js, t, ds) && PartsOf(ps, t, gone)
    ensures forall a :: a in js + ps ==> !a.IntroduceUser? && !a.QuitUser?
  {
  }

  // ----- Joins and mode locks, told by the registry alone ----------------------

  lemma JoinsAtLonger(a: seq<Action>, b: seq<Action>, i: int, uids: map<string, string>, c: Chan)
    requires b != [] ==> !b[0].ChannelMode?
    ensures JoinsAt(a, i, uids, c) ==> JoinsAt(a + b, i, uids, c)
    ensures JoinsAt(b, i, uids, c) ==> JoinsAt(a + b, |a| + i, uids, c)
  {
  }

  lemma JoinsConcat(a: seq<Action>, b: seq<Action>, uids: map<string, string>, cs: set<Chan>, ds: set<Chan>)
    requires JoinsExactly(a, uids, cs) && JoinsExactly(b, uids, ds)
    requires forall c, d :: c in cs && d in ds ==> c.name != d.name
    ensures JoinsExactly(a + b, uids, cs + ds)
  {
    hide JoinsAt;
    var out := a + b;
    assert ModeAfterJoin(b, 0);
    forall c | c in cs + ds ensures exists i :: JoinsAt(out, i, uids, c) {
      if c in cs {
        var i :| JoinsAt(a, i, uids, c);
        JoinsAtLonger(a, b, i, uids, c);
      } else {
        var i :| JoinsAt(b, i, uids, c);
        JoinsAtLonger(a, b, i, uids, c);
      }
    }
    forall i ensures JoinIn(out, i, uids, cs + ds) {
      JoinSomewhere(a, b, i, uids, cs, ds);
    }
    forall i ensures ModeAfterJoin(out, i) {
      assert ModeAfterJoin(a, i) && ModeAfterJoin(b, i - |a|);
    }
    forall i, j | 0 <= i < j < |out| && out[i].ServiceJoin? ensures out[i] != out[j] {
      JoinsDiffer(a, b, i, j, uids, cs, ds);
    }
  }

  lemma JoinSomewhere(a: seq<Action>, b: seq<Action>, i: int, uids: map<string, string>, cs: set<Chan>, ds: set<Chan>)
    requires JoinsExactly(a, uids, cs) && JoinsExactly(b, uids, ds)
    ensures JoinIn(a + b, i, uids, cs + ds)
  {
    hide JoinsAt;
    assert ModeAfterJoin(b, 0);
    if !(0 <= i < |a + b|) || !(a + b)[i].ServiceJoin? {
    } else if i < |a| {
      assert JoinIn(a, i, uids, cs);
      var c :| c in cs && JoinsAt(a, i, uids, c);
      JoinsAtLonger(a, b, i, uids, c);
    } else {
      assert JoinIn(b, i - |a|, uids, ds);
      var d :| d in ds && JoinsAt(b, i - |a|, uids, d);
      JoinsAtLonger(a, b, i - |a|, uids, d);
    }
  }

  lemma JoinsDiffer(a: seq<Action>, b: seq<Action>, i: int, j: int, uids: map<string, string>, cs: set<Chan>, ds: set<Chan>)
    requires JoinsExactly(a, uids, cs) && JoinsExactly(b, uids, ds)
    requires forall c, d :: c in cs && d in ds ==> c.name != d.name
    requires 0 <= i < j < |a + b| && (a + b)[i].ServiceJoin?
    ensures (a + b)[i] != (a + b)[j]
  {
    if j < |a| {
      assert a[i] != a[j];
    } else if i >= |a| {
      assert b[i - |a|] != b[j - |a|];
    } else if b[j - |a|].ServiceJoin? {
      assert JoinIn(a, i, uids, cs) && JoinIn(b, j - |a|, uids, ds);
    }
  }

  lemma NoJoins(out: seq<Action>, uids: map<string, string>)
    requires forall a :: a in out ==> !a.ServiceJoin? && !a.ChannelMode?
    ensures JoinsExactly(out, uids, {})
  {
    assert forall i :: 0 <= i < |out| ==> out[i] in out;
  }

  lemma {:induction false} LockModesAre(chans: seq<Chan>, c: Chan)
    requires c in chans && UniqueNames(chans)
    ensures LockModes(chans, c.name) == c.lockModes
  {
    if chans[0] != c {
      var i :| 0 < i < |chans| && chans[i] == c;
      assert Lower(chans[0].name) != Lower(c.name);
      assert chans[1..][i - 1] == c;
      LockModesAre(chans[1..], c);
    }
  }

  /** The channels of `ds` that are still to be joined. */
  ghost function NewChans(t: Tables, store: Store, ds: set<(string, string)>): set<Chan> {
    set c | c in store.channels && c.bot.Some? && (Lower(c.bot.value), c.name) in ds - t.channels
  }

  lemma ChanOf(store: Store, live: set<string>, d: (string, string)) returns (c: Chan)
    requires WellFormed(store) && d in Desired(store, live)
    ensures c in store.channels && c.bot.Some? && d == (Lower(c.bot.value), c.name) && d.0 in live
    ensures forall e :: e in store.channels && e.name == c.name ==> e == c
  {
    c :| c in store.channels && c.bot.Some? && d == (Lower(c.bot.value), c.name);
  }

  lemma JoinOneLocks(t: Tables, store: Store, d: (string, string), c: Chan, svc: Option<string>)
    requires WellFormed(store) && c in store.channels && c.bot.Some? && d == (Lower(c.bot.value), c.name)
    requires d.0 in t.uids && d !in t.channels
    ensures JoinsExactly(JoinActions(t, store, d, svc), t.uids, {c})
  {
    hide Lower, LockModes, ModeSource, UniqueNames;
    LockModesAre(store.channels, c);
    ModeSourceIsBot(t.uids, store.channels, c, svc);
    var out := JoinActions(t, store, d, svc);
    assert JoinsAt(out, 0, t.uids, c);
    assert JoinIn(out, 0, t.uids, {c});
  }

  lemma {:induction false} JoinPassLocks(t: Tables, store: Store, order: seq<(string, string)>, svc: Option<string>,
      hash: Hash, sid: string)
    requires Owned(t) && WellFormed(store) && Distinct(order) && Elements(order) <= Desired(store, t.uids.Keys)
    ensures JoinsExactly(JoinPassActions(t, store, order, svc), t.uids, NewChans(t, store, Elements(order)))
  {
    hide Lower, JoinsExactly, JoinActions, WellFormed, Owned;
    if order == [] {
      NoJoins([], t.uids);
      assert NewChans(t, store, Elements(order)) == {};
    } else {
      var front, d := order[..|order| - 1], order[|order| - 1];
      ElementsSnoc(order);
      JoinPassLocks(t, store, front, svc, hash, sid);
      JoinPass(t, store, front, svc, hash, sid);
      var c := ChanOf(store, t.uids.Keys, d);
      var was, t1 := NewChans(t, store, Elements(front)), JoinTables(t, front);
      var now := NewChans(t, store, Elements(order));
      if d in t.channels {
        JoinedAlready(t1, store, d, svc);
        assert JoinPassActions(t, store, front, svc) + [] == JoinPassActions(t, store, front, svc);
        assert now == was;
      } else {
        assert d !in t1.channels;
        JoinOneLocks(t1, store, d, c, svc);
        assert now == was + {c};
        JoinsConcat(JoinPassActions(t, store, front, svc), JoinActions(t1, store, d, svc), t.uids, was, {c});
      }
    }
  }

  lemma JoinedAlready(t: Tables, store: Store, d: (string, string), svc: Option<string>)
    requires d in t.channels
    ensures JoinActions(t, store, d, svc) == []
  {
  }

  lemma SettledMissing(t: Tables, t2: Tables, store: Store, hash: Hash)
    requires Settled(t, t2, store, hash)
    ensures NewChans(t2, store, Desired(store, t2.uids.Keys)) == MissingChans(t, store, hash)
  {
    hide Lower, Kept;
    forall c | c in store.channels
      ensures c in NewChans(t2, store, Desired(store, t2.uids.Keys)) <==> Missing(t, store, hash, c)
    {
      assert c.bot.Some? ==> ((Lower(c.bot.value), c.name) in Desired(store, t2.uids.Keys) <==> Lower(c.bot.value) in t2.uids);
    }
  }

  lemma PassesLock(t: Tables, store: Store, gone: seq<string>, joins: seq<(string, string)>,
                   parts: seq<(string, string)>, svc: Option<string>, hash: Hash, sid: string,
                   t1: Tables, t2: Tables, t3: Tables)
    requires Coherent(t, sid) && WellFormed(store) && t1 == PassTables(t, store.bots, hash, sid)
    requires Orders(t1, t2, t3, store, gone, joins, parts)
    ensures var out := PassesOut(t, t1, t2, t3, store, gone, joins, parts, svc, hash, sid);
            JoinsExactly(out, t2.uids, MissingChans(t, store, hash)) && t3.uids == t2.uids
  {
    hide JoinsExactly, Coherent, Kept, Lower, WellFormed, Owned, Settled;
    FirstTwoPasses(t, store, gone, hash, sid);
    SettledIsOwned(t, t2, store, hash, sid);
    JoinPass(t2, store, joins, svc, hash, sid);
    LastTwoPasses(t2, store, joins, parts, svc, hash, sid);
    JoinPassLocks(t2, store, joins, svc, hash, sid);
    SettledMissing(t, t2, store, hash);
    var ab := PassActions(t, store.bots, hash, sid) + RetireActions(t1, gone);
    var js, ps := JoinPassActions(t2, store, joins, svc), PartActions(t3, parts);
    NoJoins(ab, t2.uids);
    NoJoins(ps, t2.uids);
    var cs := MissingChans(t, store, hash);
    JoinsConcat(js, ps, t2.uids, cs, {});
    assert cs + {} == cs && {} + cs == cs;
    JoinsConcat(ab, js + ps, t2.uids, {}, cs);
  }

  /** The four passes, in whatever order the hash maps yield their entries. */
  lemma PassesReconcile(t: Tables, store: Store, gone: seq<string>, joins: seq<(string, string)>,
                        parts: seq<(string, string)>, svc: Option<string>, hash: Hash, sid: string,
                        t1: Tables, t2: Tables, t3: Tables)
    requires Coherent(t, sid) && WellFormed(store) && t1 == PassTables(t, store.bots, hash, sid)
    requires Orders(t1, t2, t3, store, gone, joins, parts)
    ensures var out := PassesOut(t, t1, t2, t3, store, gone, joins, parts, svc, hash, sid);
            && Reconciled(t, store, out, hash, sid)
            && TabRun(t, out, hash) == t3.(channels := t3.channels - Elements(parts))
  {
    PassesLand(t, store, gone, joins, parts, svc, hash, sid, t1, t2, t3);
    PassesOrdered(t, store, gone, joins, parts, svc, hash, sid, t1, t2, t3);
    PassesTurn(t, store, gone, joins, parts, svc, hash, sid, t1, t2, t3);
    PassesLock(t, store, gone, joins, parts, svc, hash, sid, t1, t2, t3);
    if Synced(t, store, hash) {
      PassesIdle(t, store, gone, joins, parts, svc, hash, sid, t1, t2, t3);
    }
  }

  lemma InConcat<X>(a: seq<X>, b: seq<X>, i: nat)
    requires i < |a + b|
    ensures if i < |a| then (a + b)[i] in a else (a + b)[i] in b
  {
  }

  lemma PassesInOrder(t: Tables, t2: Tables, store: Store, ab: seq<Action>, js: seq<Action>, ps: seq<Action>, hash: Hash)
    requires WellFormed(store) && Settled(t, t2, store, hash) && NoMemberships(ab) && OneUidEach(t2)
    requires OnlyNewJoins(js, t2, Desired(store, t2.uids.Keys))
    requires PartsOf(ps, t2, t2.channels - Desired(store, t2.uids.Keys))
    ensures MembershipOrder(t, store, ab + (js + ps), hash)
  {
    var want, out := Desired(store, t2.uids.Keys), ab + (js + ps);
    DesiredDoNotClash(store, t2.uids.Keys);
    forall i, j | 0 <= i < j < |out| && out[i].ServicePart? ensures out[j].ServicePart? {
      assert out == (ab + js) + ps;
      InConcat(ab, js + ps, i);
      InConcat(ab + js, ps, i);
      InConcat(ab + js, ps, j);
    }
    forall m, d | Respells(t, store, hash, m, d) ensures ServicePart(t.uids[m.0], m.1) in out {
      assert m in t2.channels;
      assert d in want && m !in want;
      assert ServicePart(t2.uids[m.0], m.1) in ps;
    }
  }

  // ----- What a reconciliation means for the ircd ---------------------------

  lemma {:induction false} PartedStaysOut(net: Ircd, out: seq<Action>, uid: string, channel: string)
    requires PartsLast(out) && ServicePart(uid, channel) in out && Run(net, out).Some?
    ensures (uid, Lower(channel)) !in Run(net, out).value.joined
  {
    var front, last := out[..|out| - 1], out[|out| - 1];
    assert out == front + [last];
    if last != ServicePart(uid, channel) {
      PartedStaysOut(net, front, uid, channel);
      var i :| 0 <= i < |front| && front[i] == ServicePart(uid, channel);
      assert out[i].ServicePart? && out[|out| - 1].ServicePart?;
    }
  }

  lemma ClaimsAreJoined(t: Tables, net: Ircd, m: (string, string), hash: Hash, sid: string)
    requires m in t.channels && m.0 in t.uids
    ensures Sim(t, net, hash, sid) ==> (t.uids[m.0], Lower(m.1)) in net.joined
  {
  }

  /** Reconciliation leaves the tables telling the truth exactly when no kept bot
      sits in a channel the registry has since respelled (which the engine would
      join under the new spelling and then part under the old one). */
  lemma ReconcileIsSoundIff(t: Tables, net: Ircd, store: Store, out: seq<Action>, hash: Hash, sid: string)
    requires Sim(t, net, hash, sid) && WellFormed(store) && Reconciled(t, store, out, hash, sid)
    ensures (Run(net, out).Some? && Sim(TabRun(t, out, hash), Run(net, out).value, hash, sid))
            <==> !Respelled(t, store, hash)
  {
    if m, d :| Respells(t, store, hash, m, d) {
      if Run(net, out).Some? {
        PartedStaysOut(net, out, t.uids[m.0], m.1);
        var t' := TabRun(t, out, hash);
        assert d in t'.channels && t'.uids[d.0] == t.uids[m.0];
        ClaimsAreJoined(t', Run(net, out).value, d, hash, sid);
      }
    } else {
      LegalRunKeepsSim(t, net, out, hash, sid);
    }
  }

  ghost predicate CollisionFree(hash: Hash) {
    forall x, y :: hash(x) == hash(y) ==> x == y
  }

  ghost predicate PlaysBot(net: Ircd, uid: string, b: Bot) {
    uid in net.clients && Lower(net.clients[uid].nick) == Lower(b.nick) && net.clients[uid].identity == b.identity
  }

  lemma BotsHaveClients(t: Tables, net: Ircd, store: Store, hash: Hash, sid: string)
    requires Sim(t, net, hash, sid) && Synced(t, store, hash) && CollisionFree(hash)
    ensures forall b :: b in store.bots ==> exists uid :: PlaysBot(net, uid, b)
  {
    forall b | b in store.bots ensures exists uid :: PlaysBot(net, uid, b) {
      assert Lower(b.nick) in Keys(store.bots);
      assert PlaysBot(net, t.uids[Lower(b.nick)], b);
    }
  }

  lemma ClientsHaveBots(t: Tables, net: Ircd, store: Store, hash: Hash, sid: string)
    requires Sim(t, net, hash, sid) && Synced(t, store, hash) && CollisionFree(hash)
    ensures forall uid :: uid in net.clients ==> exists b :: b in store.bots && PlaysBot(net, uid, b)
  {
    forall uid | uid in net.clients ensures exists b :: b in store.bots && PlaysBot(net, uid, b) {
      var k :| k in t.uids && t.uids[k] == uid;
      var b :| b in store.bots && Lower(b.nick) == k;
      assert PlaysBot(net, uid, b);
    }
  }

  /** In a synced state the ircd has exactly one client per registered bot, under
      its nick (up to case) and its identity, in exactly its assigned channels. */
  lemma SyncedMirrorsRegistry(t: Tables, net: Ircd, store: Store, hash: Hash, sid: string)
    requires Sim(t, net, hash, sid) && WellFormed(store) && Synced(t, store, hash) && CollisionFree(hash)
    ensures forall b :: b in store.bots ==> exists uid :: PlaysBot(net, uid, b)
    ensures forall uid :: uid in net.clients ==> exists b :: b in store.bots && PlaysBot(net, uid, b)
    ensures forall u, v ::
            u in net.clients && v in net.clients && Lower(net.clients[u].nick) == Lower(net.clients[v].nick) ==> u == v
    ensures forall uid, c :: uid in net.clients && c in store.channels ==>
              ((uid, Lower(c.name)) in net.joined <==>
               c.bot.Some? && Lower(c.bot.value) == Lower(net.clients[uid].nick))
  {
    hide Sim, Synced, WellFormed, CollisionFree, PlaysBot, Lower;
    BotsHaveClients(t, net, store, hash, sid);
    ClientsHaveBots(t, net, store, hash, sid);
    ClientsHaveDistinctNicks(t, net, hash, sid);
    forall uid, c | uid in net.clients && c in store.channels
      ensures (uid, Lower(c.name)) in net.joined <==>
              c.bot.Some? && Lower(c.bot.value) == Lower(net.clients[uid].nick)
    {
      MembershipMirrors(t, net, store, hash, sid, uid, c);
    }
  }

  lemma ClientsHaveDistinctNicks(t: Tables, net: Ircd, hash: Hash, sid: string)
    requires Sim(t, net, hash, sid)
    ensures forall u, v ::
            u in net.clients && v in net.clients && Lower(net.clients[u].nick) == Lower(net.clients[v].nick) ==> u == v
  {
    forall u, v | u in net.clients && v in net.clients && Lower(net.clients[u].nick) == Lower(net.clients[v].nick)
      ensures u == v
    {
      var j :| j in t.uids && t.uids[j] == u;
      var k :| k in t.uids && t.uids[k] == v;
    }
  }

  lemma MembershipMirrors(t: Tables, net: Ircd, store: Store, hash: Hash, sid: string, uid: string, c: Chan)
    requires Sim(t, net, hash, sid) && WellFormed(store) && Synced(t, store, hash)
    requires uid in net.clients && c in store.channels
    ensures (uid, Lower(c.name)) in net.joined <==>
            c.bot.Some? && Lower(c.bot.value) == Lower(net.clients[uid].nick)
  {
    var k :| k in t.uids && t.uids[k] == uid;
    if (uid, Lower(c.name)) in net.joined {
      var m :| m in t.channels && (uid, Lower(c.name)) == (t.uids[m.0], Lower(m.1));
      var d :| d in store.channels && d.bot.Some? && m == (Lower(d.bot.value), d.name);
      assert d == c;
    }
    if c.bot.Some? && Lower(c.bot.value) == k {
      assert (k, c.name) in t.channels;
    }
  }

  // ----- Runs: everything that can move the tables or the ircd --------------

  datatype Event =
    | Relink                                  // a fresh link: `startup_actions`
    | Edit(store: Store)                      // the registry changes, nothing is emitted
    | Command(store: Store)                   // a command changed the registry, then reconcile
    | Kill(uid: string)                       // an oper killed this client
    | Leave(uid: string, channel: string)     // it was kicked from (or parted) this channel

  const NO_TABLES := Tables(map[], map[], {}, 0)

  /** What the event itself does to the ircd, before the engine reacts. */
  function NetAfter(net: Ircd, e: Event): Ircd {
    match e
    case Relink => FRESH_LINK
    case Kill(uid) => DropClient(net, uid)
    case Leave(uid, channel) => LeaveChannel(net, uid, channel)
    case _ => net
  }

  function StoreAfter(store: Store, e: Event): Store {
    match e
    case Edit(s) => s
    case Command(s) => s
    case _ => store
  }

  /** The tables the engine reconciles from in reaction to `e`; `None`: it does not. */
  ghost function Base(t: Tables, e: Event): Option<Tables> {
    match e
    case Relink => Some(NO_TABLES)
    case Edit(_) => None
    case Command(_) => Some(t)
    case Kill(uid) =>
      if exists k :: k in t.uids && t.uids[k] == uid
      then var k :| k in t.uids && t.uids[k] == uid; Some(Forget(t, k))
      else None
    case Leave(uid, channel) =>
      if exists k :: k in t.uids && t.uids[k] == uid && (k, channel) in t.channels
      then
        var k :| k in t.uids && t.uids[k] == uid && (k, channel) in t.channels;
        Some(t.(channels := t.channels - {(k, channel)}))
      else None
  }

  /** One reaction of the engine. */
  ghost predicate EngineStep(t: Tables, store: Store, e: Event, out: seq<Action>, t': Tables, hash: Hash, sid: string) {
    match Base(t, e)
    case None => out == [] && t' == t
    case Some(b) => Reconciled(b, StoreAfter(store, e), out, hash, sid) && t' == TabRun(b, out, hash)
  }

  /** The ircd reported a departure in another spelling than the one joined. */
  ghost predicate Misreported(t: Tables, e: Event) {
    e.Leave? && exists m :: m in t.channels && m.0 in t.uids && t.uids[m.0] == e.uid
                            && Lower(m.1) == Lower(e.channel) && m.1 != e.channel
  }

  /** Every channel name in play is spelled one way only. */
  ghost predicate WellSpelled(t: Tables, store: Store, e: Event, hash: Hash) {
    && !Misreported(t, e)
    && (Base(t, e).Some? ==> !Respelled(Base(t, e).value, StoreAfter(store, e), hash))
  }

  lemma BaseAfterKill(t: Tables, net: Ircd, uid: string, hash: Hash, sid: string)
    requires Sim(t, net, hash, sid)
    ensures match Base(t, Kill(uid))
            case Some(b) => Sim(b, DropClient(net, uid), hash, sid)
            case None => Sim(t, DropClient(net, uid), hash, sid)
  {
    if k :| k in t.uids && t.uids[k] == uid {
      ForgetKeepsSim(t, net, k, hash, sid);
      assert Base(t, Kill(uid)) == Some(Forget(t, k));
    } else {
      StrangerLeaves(t, net, uid, hash, sid);
    }
  }

  lemma BaseAfterLeave(t: Tables, net: Ircd, uid: string, channel: string, hash: Hash, sid: string)
    requires Sim(t, net, hash, sid) && !Misreported(t, Leave(uid, channel))
    ensures match Base(t, Leave(uid, channel))
            case Some(b) => Sim(b, LeaveChannel(net, uid, channel), hash, sid)
            case None => Sim(t, LeaveChannel(net, uid, channel), hash, sid)
  {
    if k :| k in t.uids && t.uids[k] == uid && (k, channel) in t.channels {
      LeaveKeepsSim(t, net, (k, channel), hash, sid);
      assert Base(t, Leave(uid, channel)) == Some(t.(channels := t.channels - {(k, channel)}));
    } else {
      NotAMember(t, net, uid, channel, hash, sid);
    }
  }

  lemma FreshLinkIsTrue(hash: Hash, sid: string)
    ensures Sim(NO_TABLES, FRESH_LINK, hash, sid)
  {
  }

  lemma BaseIsTrue(t: Tables, net: Ircd, e: Event, hash: Hash, sid: string)
    requires Sim(t, net, hash, sid) && !Misreported(t, e)
    ensures match Base(t, e)
            case Some(b) => Sim(b, NetAfter(net, e), hash, sid)
            case None => Sim(t, NetAfter(net, e), hash, sid)
  {
    match e
    case Relink => FreshLinkIsTrue(hash, sid);
    case Kill(uid) => BaseAfterKill(t, net, uid, hash, sid);
    case Leave(uid, channel) => BaseAfterLeave(t, net, uid, channel, hash, sid);
    case Edit(_) =>
    case Command(_) =>
  }

  lemma StrangerLeaves(t: Tables, net: Ircd, uid: string, hash: Hash, sid: string)
    requires Sim(t, net, hash, sid) && forall k :: k in t.uids ==> t.uids[k] != uid
    ensures Sim(t, DropClient(net, uid), hash, sid)
  {
    assert uid !in net.clients;
    forall m | m in net.joined ensures m.0 != uid {
      var c :| c in t.channels && m == (t.uids[c.0], Lower(c.1));
    }
    assert DropClient(net, uid) == net;
  }

  lemma NotAMember(t: Tables, net: Ircd, uid: string, channel: string, hash: Hash, sid: string)
    requires Sim(t, net, hash, sid) && !Misreported(t, Leave(uid, channel))
    requires forall k :: k in t.uids && t.uids[k] == uid ==> (k, channel) !in t.channels
    ensures Sim(t, LeaveChannel(net, uid, channel), hash, sid)
  {
    hide Lower, SameClients, NextUnused, OneUidEach, OneSpellingEach, MintedBefore;
    forall c | c in t.channels ensures (uid, Lower(channel)) != (t.uids[c.0], Lower(c.1)) {
      assert c == (c.0, c.1);
    }
    assert LeaveChannel(net, uid, channel) == net;
  }

  /** A departure reported in another spelling leaves a membership in the tables
      that the ircd no longer has, and the engine does nothing about it. */
  lemma MisreportedBreaks(t: Tables, net: Ircd, e: Event, hash: Hash, sid: string)
    requires Sim(t, net, hash, sid) && Misreported(t, e)
    ensures Base(t, e) == None && !Sim(t, NetAfter(net, e), hash, sid)
  {
    var m :| m in t.channels && m.0 in t.uids && t.uids[m.0] == e.uid && Lower(m.1) == Lower(e.channel) && m.1 != e.channel;
    assert (t.uids[m.0], Lower(m.1)) in Claimed(t);
    forall k | k in t.uids && t.uids[k] == e.uid ensures (k, e.channel) !in t.channels {
      assert k == m.0 && (k, e.channel) != m;
    }
  }

  /** One step keeps the tables truthful, whatever the event, exactly when the
      channel names involved are spelled as the tables have them. */
  lemma StepIsSoundIff(t: Tables, net: Ircd, store: Store, e: Event, out: seq<Action>, t': Tables, hash: Hash, sid: string)
    requires Sim(t, net, hash, sid) && WellFormed(StoreAfter(store, e))
    requires EngineStep(t, store, e, out, t', hash, sid)
    ensures (Run(NetAfter(net, e), out).Some? && Sim(t', Run(NetAfter(net, e), out).value, hash, sid))
            <==> WellSpelled(t, store, e, hash)
  {
    if Misreported(t, e) {
      MisreportedBreaks(t, net, e, hash, sid);
    } else {
      BaseIsTrue(t, net, e, hash, sid);
      match Base(t, e)
      case None =>
      case Some(b) => ReconcileIsSoundIff(b, NetAfter(net, e), StoreAfter(store, e), out, hash, sid);
    }
  }

  /** A bot whose nick changed in case only is already in sync: its client keeps the
      nick it was introduced with. */
  lemma NickCaseIsIgnored(t: Tables, store: Store, i: nat, nick: string, hash: Hash)
    requires Synced(t, store, hash) && i < |store.bots| && Lower(nick) == Lower(store.bots[i].nick)
    ensures Synced(t, store.(bots := store.bots[i := store.bots[i].(nick := nick)]), hash)
  {
    hide Lower;
    var bots, bots' := store.bots, store.bots[i := store.bots[i].(nick := nick)];
    forall k | k in Keys(bots) ensures k in Keys(bots') {
      var j :| 0 <= j < |bots| && Lower(bots[j].nick) == k;
      assert bots'[j] in bots';
    }
    forall b | b in bots' ensures exists a :: a in bots && Lower(a.nick) == Lower(b.nick) && a.identity == b.identity {
      var j :| 0 <= j < |bots'| && bots'[j] == b;
      assert bots[j] in bots;
    }
    forall k | k in Keys(bots') ensures k in Keys(bots) {
      var b :| b in bots' && Lower(b.nick) == k;
      var a :| a in bots && Lower(a.nick) == Lower(b.nick);
    }
    assert Keys(bots') == Keys(bots);
  }

  datatype Moment = Moment(event: Event, out: seq<Action>, tables: Tables)

  function StoreAt(store: Store, run: seq<Moment>): Store {
    if run == [] then store else StoreAfter(StoreAt(store, run[..|run| - 1]), run[|run| - 1].event)
  }

  function TablesAt(run: seq<Moment>): Tables {
    if run == [] then NO_TABLES else run[|run| - 1].tables
  }

  /** The ircd after a whole run; `None` once any action of the engine faulted. */
  function NetAt(run: seq<Moment>): Option<Ircd> {
    if run == [] then Some(FRESH_LINK)
    else
      match NetAt(run[..|run| - 1])
      case None => None
      case Some(net) => Run(NetAfter(net, run[|run| - 1].event), run[|run| - 1].out)
  }

  /** A run of the engine from start-up, with well-formed registries and no
      channel named in two spellings. */
  ghost predicate IsRun(store: Store, run: seq<Moment>, hash: Hash, sid: string) {
    run != [] ==>
      var front, last := run[..|run| - 1], run[|run| - 1];
      && IsRun(store, front, hash, sid)
      && WellFormed(StoreAt(store, run))
      && EngineStep(TablesAt(front), StoreAt(store, front), last.event, last.out, last.tables, hash, sid)
      && WellSpelled(TablesAt(front), StoreAt(store, front), last.event, hash)
  }

  /** In every run of relinks, registry edits, kills and kicks the ircd accepts every
      action and the four tables describe it exactly, at every moment. */
  lemma {:induction false} EveryRunIsTruthful(store: Store, run: seq<Moment>, hash: Hash, sid: string)
    requires IsRun(store, run, hash, sid)
    ensures NetAt(run).Some? && Sim(TablesAt(run), NetAt(run).value, hash, sid)
  {
    if run != [] {
      var front, last := run[..|run| - 1], run[|run| - 1];
      EveryRunIsTruthful(store, front, hash, sid);
      StepIsSoundIff(TablesAt(front), NetAt(front).value, StoreAt(store, front), last.event, last.out, last.tables,
          hash, sid);
    }
  }

  /** After any step that reconciled, the ircd mirrors the registry. */
  lemma RunMirrorsRegistry(store: Store, run: seq<Moment>, hash: Hash, sid: string)
    requires run != [] && IsRun(store, run, hash, sid)
    requires Base(TablesAt(run[..|run| - 1]), run[|run| - 1].event).Some?
    ensures Synced(TablesAt(run), StoreAt(store, run), hash)
    ensures NetAt(run).Some? && Sim(TablesAt(run), NetAt(run).value, hash, sid)
  {
    EveryRunIsTruthful(store, run, hash, sid);
  }

  /** The registry with one bot, assigned to one channel. */
  function OneChannel(bot: Bot, name: string): Store {
    Store([bot], [Chan(name, Some(bot.nick), "")])
  }

  lemma OneChannelIs(bot: Bot, name: string)
    ensures WellFormed(OneChannel(bot, name))
    ensures Keys(OneChannel(bot, name).bots) == {Lower(bot.nick)}
    ensures forall live :: Lower(bot.nick) in live ==> Desired(OneChannel(bot, name), live) == {(Lower(bot.nick), name)}
  {
    hide Lower;
    var store := OneChannel(bot, name);
    assert store.channels[0] in store.channels && store.bots[0] in store.bots;
  }

  /** The first reconciliation after start-up, with that registry. */
  lemma FirstLink(bot: Bot, name: string, hash: Hash, sid: string) returns (m: Moment)
    ensures m.event == Relink && IsRun(OneChannel(bot, name), [m], hash, sid)
    ensures m.tables == Tables(map[Lower(bot.nick) := Uid(sid, 0)], map[Lower(bot.nick) := hash(bot.identity)],
                               {(Lower(bot.nick), name)}, 1)
  {
    hide Lower, Reconciled, Coherent, WellFormed, Uid, Desired, Keys, WellSpelled;
    var store, k := OneChannel(bot, name), Lower(bot.nick);
    OneChannelIs(bot, name);
    var t1 := PassTables(NO_TABLES, store.bots, hash, sid);
    assert store.bots == [bot] && [bot][..0] == [];
    assert PassTables(NO_TABLES, [bot][..0], hash, sid) == NO_TABLES;
    assert t1 == Introduced(NO_TABLES, bot, hash, sid);
    assert t1 == Tables(map[k := Uid(sid, 0)], map[k := hash(bot.identity)], {}, 1);
    var joins := [(k, name)];
    assert joins[..0] == [] && Elements(joins) == {(k, name)};
    var t3 := JoinTables(t1, joins);
    NothingIsCoherent(sid);
    assert RetireTables(t1, []) == t1;
    assert t1.uids.Keys - Keys(store.bots) == Elements<string>([]);
    assert JoinTables(t1, joins[..0]) == t1 && t3 == WithMembership(t1, (k, name));
    assert t3.channels - Desired(store, t1.uids.Keys) == Elements<(string, string)>([]);
    assert Orders(t1, t1, t3, store, [], joins, []);
    PassesReconcile(NO_TABLES, store, [], joins, [], None, hash, sid, t1, t1, t3);
    var out := PassesOut(NO_TABLES, t1, t1, t3, store, [], joins, [], None, hash, sid);
    assert t3.channels - Elements<(string, string)>([]) == t3.channels;
    m := Moment(Relink, out, t3);
    RelinkIsSpelled(store, hash);
    assert EngineStep(NO_TABLES, store, Relink, out, t3, hash, sid);
    RunOfOne(store, m, hash, sid);
  }

  lemma RunOfOne(store: Store, m: Moment, hash: Hash, sid: string)
    requires WellFormed(StoreAfter(store, m.event)) && WellSpelled(NO_TABLES, store, m.event, hash)
    requires EngineStep(NO_TABLES, store, m.event, m.out, m.tables, hash, sid)
    ensures IsRun(store, [m], hash, sid)
  {
    hide WellFormed, WellSpelled, EngineStep;
    assert [m][..0] == [] && IsRun(store, [m][..0], hash, sid);
    assert StoreAt(store, [m][..0]) == store && TablesAt([m][..0]) == NO_TABLES;
    assert StoreAt(store, [m]) == StoreAfter(store, m.event);
  }

  lemma NothingIsCoherent(sid: string)
    ensures Coherent(NO_TABLES, sid)
  {
  }

  lemma RelinkIsSpelled(store: Store, hash: Hash)
    ensures WellSpelled(NO_TABLES, store, Relink, hash)
  {
  }

  /** What any first reconciliation with that registry leaves. */
  lemma FirstLinkSyncs(bot: Bot, name: string, m: Moment, hash: Hash, sid: string)
    requires m.event == Relink && IsRun(OneChannel(bot, name), [m], hash, sid)
    ensures TablesAt([m]) == m.tables && Synced(m.tables, OneChannel(bot, name), hash)
  {
    hide Synced, LegalRun, KeepsUids, MembershipOrder, Respelled, WellFormed, WellSpelled;
    assert [m][..0] == [] && TablesAt([m][..0]) == NO_TABLES;
    assert StoreAt(OneChannel(bot, name), [m][..0]) == OneChannel(bot, name);
  }

  lemma RenameRespells(bot: Bot, t: Tables, hash: Hash)
    requires Synced(t, OneChannel(bot, "#A"), hash)
    ensures var k := Lower(bot.nick); k in t.uids && Misreported(t, Leave(t.uids[k], "#a"))
    ensures !WellSpelled(t, OneChannel(bot, "#A"), Command(OneChannel(bot, "#a")), hash)
  {
    var k, store := Lower(bot.nick), OneChannel(bot, "#a");
    OneChannelIs(bot, "#A");
    OneChannelIs(bot, "#a");
    assert Lower("#A") == "#a" == Lower("#a") && "#A" != "#a";
    assert bot in OneChannel(bot, "#A").bots && bot in store.bots;
    assert (k, "#A") in t.channels && Kept(t, store.bots, hash, k);
    assert Respells(t, store, hash, (k, "#A"), (k, "#a"));
  }

  /** Such spellings happen: after any start-up with a bot in "#A" (there is one, by
      `FirstLink`), a kick reported from "#a" goes unnoticed, and a registry that renamed
      the channel to "#a" leads reconciliation, whatever its order, to tables that the
      ircd contradicts. */
  lemma SpellingMatters(bot: Bot, m: Moment, out: seq<Action>, t: Tables, hash: Hash, sid: string)
    requires m.event == Relink && IsRun(OneChannel(bot, "#A"), [m], hash, sid)
    requires EngineStep(m.tables, OneChannel(bot, "#A"), Command(OneChannel(bot, "#a")), out, t, hash, sid)
    ensures var k := Lower(bot.nick); k in m.tables.uids && Misreported(m.tables, Leave(m.tables.uids[k], "#a"))
    ensures NetAt([m]).Some? && Sim(m.tables, NetAt([m]).value, hash, sid)
    ensures !(Run(NetAt([m]).value, out).Some? && Sim(t, Run(NetAt([m]).value, out).value, hash, sid))
  {
    hide Lower, Sim, EngineStep, IsRun, WellSpelled, Misreported, OneChannel;
    FirstLinkSyncs(bot, "#A", m, hash, sid);
    RenameRespells(bot, m.tables, hash);
    EveryRunIsTruthful(OneChannel(bot, "#A"), [m], hash, sid);
    OneChannelIs(bot, "#a");
    StepIsSoundIff(m.tables, NetAt([m]).value, OneChannel(bot, "#A"), Command(OneChannel(bot, "#a")), out, t, hash, sid);
  }

  // ----- The engine ---------------------------------------------------------

  class Engine {
    const sid: string
    const hash: Hash
    const chanService: Option<string>
    var botUids: map<string, string>
    var botIdents: map<string, int>
    var botChannels: set<(string, string)>
    var nextBotIndex: nat

    ghost function T(): Tables
      reads this
    {
      Tables(botUids, botIdents, botChannels, nextBotIndex)
    }

    constructor (sid: string, hash: Hash, chanService: Option<string>)
      ensures this.sid == sid && this.hash == hash && this.chanService == chanService && T() == NO_TABLES
    {
      this.sid, this.hash, this.chanService := sid, hash, chanService;
      botUids, botIdents, botChannels, nextBotIndex := map[], map[], {}, 0;
    }

    /** One registry entry: quit a live client whose identity changed, then
        introduce the bot if it is not live. */
    method IntroduceBot(bot: Bot) returns (out: seq<Action>)
      modifies this
      ensures out == IntroduceActions(old(T()), bot, hash, sid)
      ensures T() == Introduced(old(T()), bot, hash, sid)
    {
      out := [];
      var k := Lower(bot.nick);
      var ident := hash(bot.identity);
      if k in botUids && (k !in botIdents || botIdents[k] != ident) {
        var uid := botUids[k];
        botUids := botUids - {k};
        out := out + [QuitUser(uid)];
        botChannels := Without(botChannels, k);
      }
      if k !in botUids {
        var uid := Uid(sid, nextBotIndex);
        nextBotIndex := nextBotIndex + 1;
        out := out + [IntroduceUser(uid, bot)];
        botUids := botUids[k := uid];
        botIdents := botIdents[k := ident];
      }
    }

    /** First pass over the registry. */
    method IntroduceBots(live: seq<Bot>) returns (out: seq<Action>)
      modifies this
      ensures T() == PassTables(old(T()), live, hash, sid)
      ensures out == PassActions(old(T()), live, hash, sid)
    {
      out := [];
      ghost var t0 := T();
      for i := 0 to |live|
        invariant T() == PassTables(t0, live[..i], hash, sid)
        invariant out == PassActions(t0, live[..i], hash, sid)
      {
        assert live[..i + 1][..i] == live[..i];
        var more := IntroduceBot(live[i]);
        out := out + more;
      }
      assert live[..|live|] == live;
    }

    /** Second pass: quit the bots that left the registry. */
    method RetireBots(removed: seq<string>) returns (out: seq<Action>)
      requires Distinct(removed)
      modifies this
      ensures T() == RetireTables(old(T()), removed)
      ensures out == RetireActions(old(T()), removed)
    {
      out := [];
      ghost var t0 := T();
      for i := 0 to |removed|
        invariant T() == RetireTables(t0, removed[..i])
        invariant out == RetireActions(t0, removed[..i])
        invariant forall k :: k in t0.uids && k !in removed[..i] ==> k in botUids && botUids[k] == t0.uids[k]
        invariant botUids.Keys <= t0.uids.Keys
      {
        var k := removed[i];
        assert removed[..i + 1][..i] == removed[..i];
        assert k !in removed[..i];
        if k in botUids {
          out := out + [QuitUser(botUids[k])];
          botUids := botUids - {k};
        } else {
          assert botUids - {k} == botUids;
        }
        botIdents := botIdents - {k};
        botChannels := Without(botChannels, k);
      }
      assert removed[..|removed|] == removed;
    }

    /** Third pass: join every assigned channel not joined yet, re-asserting its mode lock. */
    method JoinAssigned(store: Store, desired: seq<(string, string)>) returns (out: seq<Action>)
      modifies this
      ensures T() == JoinTables(old(T()), desired)
      ensures out == JoinPassActions(old(T()), store, desired, chanService)
    {
      hide Lower, ModeSource, LockModes;
      out := [];
      ghost var t0 := T();
      for i := 0 to |desired|
        invariant T() == JoinTables(t0, desired[..i])
        invariant out == JoinPassActions(t0, store, desired[..i], chanService)
      {
        var d := desired[i];
        assert desired[..i + 1][..i] == desired[..i];
        if d !in botChannels {
          if d.0 in botUids {
            out := out + [ServiceJoin(botUids[d.0], d.1, "ao")];
            var modes := LockModes(store.channels, d.1);
            if modes != "" {
              var source := ModeSource(botUids, store.channels, d.1, chanService);
              out := out + [ChannelMode(source, d.1, modes)];
            }
            botChannels := botChannels + {d};
          }
        } else {
          assert botChannels + {d} == botChannels;
        }
      }
      assert desired[..|desired|] == desired;
    }

    /** Fourth pass: part every channel that is no longer assigned. */
    method PartUnassigned(toPart: seq<(string, string)>) returns (out: seq<Action>)
      requires Elements(toPart) <= botChannels
      modifies this`botChannels
      ensures botChannels == old(botChannels) - Elements(toPart)
      ensures out == PartActions(old(T()), toPart)
    {
      out := [];
      ghost var t0 := T();
      for i := 0 to |toPart|
        invariant botChannels == t0.channels - Elements(toPart[..i])
        invariant out == PartActions(t0, toPart[..i])
      {
        var m := toPart[i];
        assert toPart[..i + 1][..i] == toPart[..i];
        assert Elements(toPart[..i + 1]) == Elements(toPart[..i]) + {m};
        botChannels := botChannels - {m};
        if m.0 in botUids {
          out := out + [ServicePart(botUids[m.0], m.1)];
        }
      }
      assert toPart[..|toPart|] == toPart;
    }

    /** Bring the bot pseudo-clients in line with the registry. */
    method ReconcileBots(store: Store) returns (out: seq<Action>)
      requires Coherent(T(), sid) && WellFormed(store)
      modifies this
      ensures Reconciled(old(T()), store, out, hash, sid)
      ensures T() == TabRun(old(T()), out, hash)
      ensures Synced(old(T()), store, hash) ==> out == [] && T() == old(T())
    {
      ghost var t0 := T();
      var introduced := IntroduceBots(store.bots);
      ghost var t1 := T();
      var removed := Enumerate(botUids.Keys - Keys(store.bots));
      var retired := RetireBots(removed);
      ghost var t2 := T();
      var want := Desired(store, botUids.Keys);
      var desired := Enumerate(want);
      var joined := JoinAssigned(store, desired);
      ghost var t3 := T();
      var toPart := Enumerate(botChannels - want);
      var parted := PartUnassigned(toPart);
      out := introduced + retired + (joined + parted);
      PassesReconcile(t0, store, removed, desired, toPart, chanService, hash, sid, t1, t2, t3);
    }

    /** A fresh link: forget everything minted on the previous one. */
    method StartupActions(store: Store) returns (out: seq<Action>)
      requires WellFormed(store)
      modifies this
      ensures EngineStep(old(T()), store, Relink, out, T(), hash, sid)
    {
      botUids, botIdents, botChannels, nextBotIndex := map[], map[], {}, 0;
      out := ReconcileBots(store);
    }

    /** The ircd killed a client: if it was a bot, forget it and bring it back. */
    method UserKilled(uid: string, store: Store) returns (out: seq<Action>)
      requires Coherent(T(), sid) && WellFormed(store)
      modifies this
      ensures EngineStep(old(T()), store, Kill(uid), out, T(), hash, sid)
    {
      ghost var t := T();
      if k :| k in botUids && botUids[k] == uid {
        botUids := botUids - {k};
        botIdents := botIdents - {k};
        botChannels := Without(botChannels, k);
        ForgetStaysCoherent(t, k, sid);
        assert Base(t, Kill(uid)) == Some(T());
        out := ReconcileBots(store);
      } else {
        out := [];
      }
    }

    /** A client left a channel: if it was one of our bots, put it back. */
    method MemberLeft(channel: string, uid: string, store: Store) returns (out: seq<Action>)
      requires Coherent(T(), sid) && WellFormed(store)
      modifies this
      ensures EngineStep(old(T()), store, Leave(uid, channel), out, T(), hash, sid)
    {
      ghost var t := T();
      out := [];
      if k :| k in botUids && botUids[k] == uid {
        if (k, channel) in botChannels {
          botChannels := botChannels - {(k, channel)};
          assert Base(t, Leave(uid, channel)) == Some(T());
          out := ReconcileBots(store);
        }
      }
    }
  }

  lemma KeysOfPrefix(live: seq<Bot>, i: nat)
    requires i < |live| && UniqueNicks(live)
    ensures Lower(live[i].nick) !in Keys(live[..i])
    ensures Keys(live[..i + 1]) == Keys(live[..i]) + {Lower(live[i].nick)}
  {
    assert live[..i + 1] == live[..i] + [live[i]];
  }

  lemma KeptMeansSameHash(t: Tables, live: seq<Bot>, hash: Hash, bot: Bot)
    requires bot in live && UniqueNicks(live)
    ensures Kept(t, live, hash, Lower(bot.nick)) <==>
            var k := Lower(bot.nick); k in t.uids && k in t.idents && t.idents[k] == hash(bot.identity)
  {
  }
}
