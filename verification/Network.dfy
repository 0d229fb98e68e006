/** The live network view: users, one session slot per connecting IP, and the server
    tree behind our uplink. */
module Network {
  import opened Text
  import opened Iteration

  datatype User = User(nick: string, host: string, ip: string)

  datatype State = State(users: map<string, User>, sessions: map<string, nat>, servers: map<string, string>)

  const EMPTY := State(map[], map[], map[])

  // ----- Session slots -------------------------------------------------------------

  function Slots(sessions: map<string, nat>, ip: string): nat {
    if ip in sessions then sessions[ip] else 0
  }

  function From(users: map<string, User>, ip: string): set<string> {
    set u | u in users && users[u].ip == ip
  }

  /** How many connected users come from `ip`. */
  function Count(users: map<string, User>, ip: string): nat {
    |From(users, ip)|
  }

  function Connected(s: State, uid: string, user: User): State {
    State(s.users[uid := user],
          if user.ip == "" then s.sessions else s.sessions[user.ip := Slots(s.sessions, user.ip) + 1],
          s.servers)
  }

  /** Releasing one slot: the entry goes with its last session. */
  function Released(sessions: map<string, nat>, ip: string): map<string, nat>
    requires ip in sessions ==> sessions[ip] > 0
  {
    if ip !in sessions then sessions
    else if sessions[ip] == 1 then sessions - {ip}
    else sessions[ip := sessions[ip] - 1]
  }

  /** No entry is zero and no entry is for the empty IP. */
  ghost predicate Tidy(sessions: map<string, nat>) {
    "" !in sessions && forall ip :: ip in sessions ==> sessions[ip] > 0
  }

  function Quit(s: State, uid: string): State
    requires Tidy(s.sessions)
  {
    if uid in s.users then State(s.users - {uid}, Released(s.sessions, s.users[uid].ip), s.servers) else s
  }

  lemma QuitStaysTidy(s: State, uid: string)
    requires Tidy(s.sessions)
    ensures Tidy(Quit(s, uid).sessions)
  {
  }

  /** Forgetting several users, one after the other. */
  function QuitAll(s: State, uids: seq<string>): (r: State)
    requires Tidy(s.sessions)
    ensures Tidy(r.sessions)
  {
    if uids == [] then s
    else
      var before := QuitAll(s, uids[..|uids| - 1]);
      QuitStaysTidy(before, uids[|uids| - 1]);
      Quit(before, uids[|uids| - 1])
  }

  lemma CountInsert(users: map<string, User>, uid: string, user: User, ip: string)
    ensures Count(users[uid := user], ip)
            == Count(users, ip) + (if user.ip == ip then 1 else 0) - (if uid in users && users[uid].ip == ip then 1 else 0)
  {
    var rest := From(users, ip) - {uid};
    assert From(users[uid := user], ip) == if user.ip == ip then rest + {uid} else rest;
    assert From(users, ip) == if uid in users && users[uid].ip == ip then rest + {uid} else rest;
  }

  lemma CountRemove(users: map<string, User>, uid: string, ip: string)
    requires uid in users
    ensures Count(users - {uid}, ip) == Count(users, ip) - if users[uid].ip == ip then 1 else 0
  {
    assert From(users - {uid}, ip) == From(users, ip) - {uid};
  }

  /** Slots held for `ip` beyond its connected users. */
  function Surplus(s: State, ip: string): int {
    Slots(s.sessions, ip) - Count(s.users, ip)
  }

  /** Connecting over a uid that is still connected leaves that user's slot behind. */
  function Leak(s: State, uid: string, ip: string): nat {
    if uid in s.users && s.users[uid].ip == ip then 1 else 0
  }

  lemma ConnectLeaks(s: State, uid: string, user: User, ip: string)
    requires ip != ""
    ensures Surplus(Connected(s, uid, user), ip) == Surplus(s, ip) + Leak(s, uid, ip)
  {
    CountInsert(s.users, uid, user, ip);
  }

  /** Never fewer slots than users, so a quit always finds its slot. */
  ghost predicate Covered(s: State) {
    Tidy(s.sessions) && forall ip :: ip != "" ==> Surplus(s, ip) >= 0
  }

  lemma QuitKeepsSurplus(s: State, uid: string, ip: string)
    requires Covered(s) && ip != ""
    ensures Surplus(Quit(s, uid), ip) == Surplus(s, ip)
  {
    if uid in s.users {
      CountRemove(s.users, uid, ip);
      if s.users[uid].ip == ip {
        assert uid in From(s.users, ip);
        assert Surplus(s, ip) >= 0;
      }
    }
  }

  lemma QuitKeepsCovered(s: State, uid: string)
    requires Covered(s)
    ensures Covered(Quit(s, uid))
  {
    hide Quit, Surplus;
    QuitStaysTidy(s, uid);
    forall ip | ip != "" ensures Surplus(Quit(s, uid), ip) >= 0 {
      QuitKeepsSurplus(s, uid, ip);
    }
  }

  lemma {:induction false} QuitAllKeepsSurplus(s: State, uids: seq<string>, ip: string)
    requires Covered(s) && ip != ""
    ensures Covered(QuitAll(s, uids)) && Surplus(QuitAll(s, uids), ip) == Surplus(s, ip)
  {
    assert Tidy(s.sessions);
    hide Covered, Surplus, Quit;
    if uids != [] {
      QuitAllKeepsSurplus(s, uids[..|uids| - 1], ip);
      var before := QuitAll(s, uids[..|uids| - 1]);
      QuitKeepsCovered(before, uids[|uids| - 1]);
      QuitKeepsSurplus(before, uids[|uids| - 1], ip);
    }
  }

  /** Exactly the named users are gone. */
  lemma {:induction false} QuitAllForgets(s: State, uids: seq<string>)
    requires Tidy(s.sessions)
    ensures QuitAll(s, uids).users == s.users - Elements(uids)
    ensures QuitAll(s, uids).servers == s.servers
  {
    if uids == [] {
      assert s.users - Elements(uids) == s.users;
    } else {
      QuitAllForgets(s, uids[..|uids| - 1]);
      assert uids == uids[..|uids| - 1] + [uids[|uids| - 1]];
      assert Elements(uids) == Elements(uids[..|uids| - 1]) + {uids[|uids| - 1]};
      assert s.users - Elements(uids) == (s.users - Elements(uids[..|uids| - 1])) - {uids[|uids| - 1]};
    }
  }

  // ----- The server tree -----------------------------------------------------------------

  /** `sid` is `n` links below `root`. */
  predicate Below(servers: map<string, string>, root: string, sid: string, n: nat)
    decreases n
  {
    if n == 0 then sid == root else sid in servers && Below(servers, root, servers[sid], n - 1)
  }

  /** The subtree behind a server: everything that reaches it through uplinks. */
  ghost predicate Behind(servers: map<string, string>, root: string, sid: string) {
    exists n: nat :: Below(servers, root, sid, n)
  }

  ghost predicate ChildrenIn(servers: map<string, string>, parent: string, subtree: seq<string>) {
    forall c :: c in servers && servers[c] == parent ==> c in subtree
  }

  ghost predicate ChildrenDone(servers: map<string, string>, subtree: seq<string>, done: nat)
    requires done <= |subtree|
  {
    forall i :: 0 <= i < done ==> ChildrenIn(servers, subtree[i], subtree)
  }

  ghost predicate AllBehind(servers: map<string, string>, root: string, subtree: seq<string>) {
    forall s :: s in subtree ==> Behind(servers, root, s)
  }

  lemma ChildIsBehind(servers: map<string, string>, root: string, child: string)
    requires child in servers && Behind(servers, root, servers[child])
    ensures Behind(servers, root, child)
  {
    var n: nat :| Below(servers, root, servers[child], n);
    assert Below(servers, root, child, n + 1);
  }

  /** A list closed under children holds the whole subtree. */
  lemma {:induction false} ClosedHoldsAll(servers: map<string, string>, root: string, subtree: seq<string>,
      sid: string, n: nat)
    requires root in subtree && ChildrenDone(servers, subtree, |subtree|) && Below(servers, root, sid, n)
    ensures sid in subtree
    decreases n
  {
    if n > 0 {
      ClosedHoldsAll(servers, root, subtree, servers[sid], n - 1);
      var i :| 0 <= i < |subtree| && subtree[i] == servers[sid];
      assert ChildrenIn(servers, subtree[i], subtree);
    }
  }

  /** What a split takes: each server of the subtree once. */
  ghost predicate IsSubtree(servers: map<string, string>, root: string, subtree: seq<string>) {
    Distinct(subtree) && forall s :: s in subtree <==> Behind(servers, root, s)
  }

  /** No server is left whose uplink is gone. */
  lemma NoOrphans(servers: map<string, string>, root: string, subtree: seq<string>)
    requires IsSubtree(servers, root, subtree)
    ensures root in subtree
    ensures forall s :: s in servers && s !in subtree ==> servers[s] !in subtree
  {
    assert Below(servers, root, root, 0);
    forall s | s in servers && s !in subtree ensures servers[s] !in subtree {
      if servers[s] in subtree {
        ChildIsBehind(servers, root, s);
      }
    }
  }

  lemma DistinctFits(subtree: seq<string>, all: set<string>)
    requires Distinct(subtree) && Elements(subtree) <= all
    ensures |subtree| <= |all|
  {
    DistinctCount(subtree);
    assert all == Elements(subtree) + (all - Elements(subtree));
    assert |all| == |Elements(subtree)| + |all - Elements(subtree)|;
  }

  lemma {:induction false} DistinctCount(xs: seq<string>)
    requires Distinct(xs)
    ensures |Elements(xs)| == |xs|
  {
    if xs != [] {
      ElementsSnoc(xs);
      DistinctCount(xs[..|xs| - 1]);
    }
  }

  // ----- Splits ---------------------------------------------------------------------------

  /** The users behind any of the servers. */
  function UsersBehind(users: map<string, User>, sids: set<string>): set<string> {
    set u | u in users && exists sid <- sids :: sid <= u
  }

  /** A split forgot the subtree and, in some order, every user behind it. */
  ghost predicate SplitInto(s: State, root: string, s': State) {
    exists subtree, uids :: IsSplit(s, root, s', subtree, uids)
  }

  ghost predicate IsSplit(s: State, root: string, s': State, subtree: seq<string>, uids: seq<string>) {
    && Tidy(s.sessions)
    && IsSubtree(s.servers, root, subtree)
    && Elements(uids) == UsersBehind(s.users, Elements(subtree))
    && s' == QuitAll(s.(servers := s.servers - Elements(subtree)), uids)
  }

  /** After a split no user is left behind a removed server, everyone else stays, and no
      remaining server hangs off a removed one. */
  lemma SplitForgets(s: State, root: string, s': State)
    requires SplitInto(s, root, s')
    ensures forall u :: u in s'.users <==> u in s.users && !exists sid :: Behind(s.servers, root, sid) && sid <= u
    ensures forall u :: u in s'.users ==> s'.users[u] == s.users[u]
    ensures forall sid :: sid in s'.servers <==> sid in s.servers && !Behind(s.servers, root, sid)
    ensures forall sid :: sid in s'.servers ==>
            s'.servers[sid] == s.servers[sid] && !Behind(s.servers, root, s.servers[sid])
  {
    var subtree, uids :| IsSplit(s, root, s', subtree, uids);
    QuitAllForgets(s.(servers := s.servers - Elements(subtree)), uids);
    NoOrphans(s.servers, root, subtree);
    forall u | u in s.users ensures u in uids <==> exists sid :: Behind(s.servers, root, sid) && sid <= u {
      assert u in uids <==> u in Elements(uids);
      assert forall sid :: sid in Elements(subtree) <==> Behind(s.servers, root, sid);
    }
  }

  // ----- Runs ---------------------------------------------------------------------------------

  datatype Event =
    | Connect(uid: string, user: User)
    | Leave(uid: string)
    | Link(sid: string, parent: string)
    | Split(sid: string)

  datatype Moment = Moment(event: Event, state: State)

  function StateAt(run: seq<Moment>): State {
    if run == [] then EMPTY else run[|run| - 1].state
  }

  ghost predicate Step(s: State, e: Event, s': State) {
    match e
    case Connect(uid, user) => s' == Connected(s, uid, user)
    case Leave(uid) => Tidy(s.sessions) && s' == Quit(s, uid)
    case Link(sid, parent) => s' == s.(servers := s.servers[sid := parent])
    case Split(sid) => SplitInto(s, sid, s')
  }

  ghost predicate IsRun(run: seq<Moment>) {
    run != [] ==>
      var front, last := run[..|run| - 1], run[|run| - 1];
      IsRun(front) && Step(StateAt(front), last.event, last.state)
  }

  /** Slots of `ip` left behind by connections over a uid that was still connected. */
  function Leaks(run: seq<Moment>, ip: string): nat {
    if run == [] then 0
    else
      var front, e := run[..|run| - 1], run[|run| - 1].event;
      Leaks(front, ip) + if e.Connect? then Leak(StateAt(front), e.uid, ip) else 0
  }

  lemma SplitKeepsSurplus(s: State, root: string, s': State, ip: string)
    requires Covered(s) && SplitInto(s, root, s') && ip != ""
    ensures Covered(s') && Surplus(s', ip) == Surplus(s, ip)
  {
    hide IsSubtree, Quit, QuitAll;
    var subtree, uids :| IsSplit(s, root, s', subtree, uids);
    var cut := s.(servers := s.servers - Elements(subtree));
    CoveredIgnoresServers(s, cut);
    QuitAllKeepsSurplus(cut, uids, ip);
  }

  lemma CoveredIgnoresServers(s: State, s': State)
    requires Covered(s) && s'.users == s.users && s'.sessions == s.sessions
    ensures Covered(s')
  {
    assert forall ip :: Surplus(s', ip) == Surplus(s, ip);
  }

  lemma ConnectKeepsCovered(s: State, uid: string, user: User)
    requires Covered(s)
    ensures Covered(Connected(s, uid, user))
  {
    hide Surplus;
    forall ip | ip != "" ensures Surplus(Connected(s, uid, user), ip) >= 0 {
      ConnectLeaks(s, uid, user, ip);
    }
  }

  lemma StepKeepsSurplus(s: State, e: Event, s': State, ip: string)
    requires Covered(s) && Step(s, e, s') && ip != ""
    ensures Covered(s')
    ensures Surplus(s', ip) == Surplus(s, ip) + if e.Connect? then Leak(s, e.uid, ip) else 0
  {
    hide Covered, Surplus, Quit, SplitInto, Connected, Leak;
    match e
    case Connect(uid, user) =>
      ConnectKeepsCovered(s, uid, user);
      ConnectLeaks(s, uid, user, ip);
    case Leave(uid) =>
      QuitKeepsCovered(s, uid);
      QuitKeepsSurplus(s, uid, ip);
    case Link(sid, parent) =>
      CoveredIgnoresServers(s, s');
      SameSurplus(s, s', ip);
    case Split(sid) => SplitKeepsSurplus(s, sid, s', ip);
  }

  lemma SameSurplus(s: State, s': State, ip: string)
    requires s'.users == s.users && s'.sessions == s.sessions
    ensures Surplus(s', ip) == Surplus(s, ip)
  {
  }

  lemma NothingLeaked(ip: string)
    ensures Covered(EMPTY) && Surplus(EMPTY, ip) == 0
  {
    forall ip ensures Surplus(EMPTY, ip) == 0 {
      assert From(EMPTY.users, ip) == {};
    }
  }

  /** In every run the slots of an IP are its connected users plus what earlier
      connections over a live uid left behind, no entry is zero, and so the decrement
      on quit never underflows. */
  lemma {:induction false} SlotsAreConserved(run: seq<Moment>, ip: string)
    requires IsRun(run) && ip != ""
    ensures Covered(StateAt(run))
    ensures Slots(StateAt(run).sessions, ip) == Count(StateAt(run).users, ip) + Leaks(run, ip)
  {
    hide Covered, Step, Leak;
    if run == [] {
      NothingLeaked(ip);
    } else {
      var front, last := run[..|run| - 1], run[|run| - 1];
      SlotsAreConserved(front, ip);
      StepKeepsSurplus(StateAt(front), last.event, last.state, ip);
    }
  }

  /** Every connection used a uid that was not connected. */
  ghost predicate FreshUids(run: seq<Moment>) {
    run != [] ==>
      var front, e := run[..|run| - 1], run[|run| - 1].event;
      FreshUids(front) && (e.Connect? ==> e.uid !in StateAt(front).users)
  }

  lemma {:induction false} FreshRunsLeakNothing(run: seq<Moment>, ip: string)
    requires FreshUids(run)
    ensures Leaks(run, ip) == 0
  {
    if run != [] {
      FreshRunsLeakNothing(run[..|run| - 1], ip);
    }
  }

  /** With fresh uids the table is exact: an entry for each IP somebody is connected
      from, holding how many. */
  lemma SessionsAreExact(run: seq<Moment>, ip: string)
    requires IsRun(run) && FreshUids(run) && ip != ""
    ensures var s := StateAt(run);
            && (ip in s.sessions <==> Count(s.users, ip) > 0)
            && (ip in s.sessions ==> s.sessions[ip] == Count(s.users, ip))
  {
    SlotsAreConserved(run, ip);
    FreshRunsLeakNothing(run, ip);
  }

  // ----- The view itself ---------------------------------------------------------------------

  class View {
    var users: map<string, User>
    var sessions: map<string, nat>
    var servers: map<string, string>

    ghost function S(): State
      reads this
    {
      State(users, sessions, servers)
    }

    constructor ()
      ensures S() == EMPTY
    {
      users, sessions, servers := map[], map[], map[];
    }

    method UserConnect(uid: string, user: User)
      modifies this
      ensures Step(old(S()), Connect(uid, user), S())
    {
      if user.ip != "" {
        if user.ip !in sessions {
          sessions := sessions[user.ip := 0];
        }
        sessions := sessions[user.ip := sessions[user.ip] + 1];
      }
      users := users[uid := user];
    }

    /** The slot is there to give back whenever the table is tidy. */
    method UserQuit(uid: string)
      requires Tidy(sessions)
      modifies this
      ensures Step(old(S()), Leave(uid), S()) && Tidy(sessions)
    {
      if uid in users {
        var ip := users[uid].ip;
        if ip in sessions {
          sessions := sessions[ip := sessions[ip] - 1];
          if sessions[ip] == 0 {
            sessions := sessions - {ip};
          }
        }
        users := users - {uid};
      }
    }

    method ServerLink(sid: string, parent: string)
      modifies this`servers
      ensures Step(old(S()), Link(sid, parent), S())
    {
      servers := servers[sid := parent];
    }

    /** The children of one server, added to the worklist in whatever order they come. */
    method AddChildren(parent: string, subtree: seq<string>) returns (r: seq<string>)
      requires Distinct(subtree)
      ensures Distinct(r) && subtree <= r && ChildrenIn(servers, parent, r)
      ensures forall s :: s in r && s !in subtree ==> s in servers && servers[s] == parent
    {
      r := subtree;
      var children := Enumerate(servers.Keys);
      for i := 0 to |children|
        invariant Distinct(r) && subtree <= r
        invariant forall s :: s in r && s !in subtree ==> s in servers && servers[s] == parent
        invariant forall j :: 0 <= j < i && servers[children[j]] == parent ==> children[j] in r
      {
        var child := children[i];
        assert child in Elements(children);
        if servers[child] == parent && child !in r {
          r := r + [child];
        }
      }
      forall c | c in servers && servers[c] == parent ensures c in r {
        assert c in Elements(children);
      }
    }

    /** The worklist loop, then the removal: forget the subtree behind `sid` and say
        what it was. */
    method ServerSplit(sid: string) returns (subtree: seq<string>)
      modifies this`servers
      ensures IsSubtree(old(servers), sid, subtree)
      ensures servers == old(servers) - Elements(subtree)
    {
      hide IsSubtree, Working, Distinct, ChildrenIn;
      subtree := [sid];
      var i := 0;
      WorkBegins(servers, sid);
      while i < |subtree|
        invariant servers == old(servers)
        invariant 0 <= i <= |subtree| && Working(servers, sid, subtree, i)
        decreases |servers.Keys + {sid}| - i
      {
        WorkIsDistinct(servers, sid, subtree, i);
        var grown := AddChildren(subtree[i], subtree);
        Grown(servers, sid, subtree, grown, i);
        subtree := grown;
        i := i + 1;
        WorkFits(servers, sid, subtree, i);
      }
      Closed(servers, sid, subtree);
      ForgetServers(subtree);
    }

    method ForgetServers(subtree: seq<string>)
      modifies this`servers
      ensures servers == old(servers) - Elements(subtree)
    {
      ghost var before := servers;
      assert before - Elements(subtree[..0]) == before;
      for j := 0 to |subtree|
        invariant servers == before - Elements(subtree[..j])
      {
        assert Elements(subtree[..j + 1]) == Elements(subtree[..j]) + {subtree[j]};
        assert before - Elements(subtree[..j + 1]) == (before - Elements(subtree[..j])) - {subtree[j]};
        servers := servers - {subtree[j]};
      }
      assert subtree[..|subtree|] == subtree;
    }

    /** The users whose uid starts with the server's id. */
    method UidsOnServer(sid: string) returns (uids: seq<string>)
      ensures Elements(uids) == UsersBehind(users, {sid})
    {
      uids := Enumerate(set u | u in users && sid <= u);
    }

    /** A server split: forget everyone behind the departed server and its descendants. */
    method SplitServer(sid: string)
      requires Tidy(sessions)
      modifies this
      ensures Step(old(S()), Split(sid), S()) && Tidy(sessions)
    {
      ghost var s0 := S();
      var subtree := ServerSplit(sid);
      ghost var s1 := S();
      ghost var gone: seq<string> := [];
      for i := 0 to |subtree|
        invariant Tidy(sessions) && S() == QuitAll(s1, gone)
        invariant Elements(gone) == UsersBehind(s0.users, Elements(subtree[..i]))
      {
        ghost var before := gone;
        QuitAllForgets(s1, gone);
        var uids := UidsOnServer(subtree[i]);
        ForgetAll(uids);
        gone := gone + uids;
        QuitAllConcat(s1, before, uids);
        BehindOneMore(s0.users, subtree, i, before, uids);
      }
      assert subtree[..|subtree|] == subtree;
      assert IsSplit(s0, sid, S(), subtree, gone);
    }

    method ForgetAll(uids: seq<string>)
      requires Tidy(sessions)
      modifies this
      ensures S() == QuitAll(old(S()), uids) && Tidy(sessions)
    {
      ghost var s0 := S();
      for i := 0 to |uids|
        invariant Tidy(sessions) && S() == QuitAll(s0, uids[..i])
      {
        assert uids[..i + 1][..i] == uids[..i];
        UserQuit(uids[i]);
      }
      assert uids[..|uids|] == uids;
    }
  }

  /** The worklist so far: part of the subtree, with the children of its first `i` servers. */
  ghost predicate Working(servers: map<string, string>, root: string, subtree: seq<string>, i: nat) {
    && i <= |subtree| && root in subtree && Distinct(subtree) && Elements(subtree) <= servers.Keys + {root}
    && AllBehind(servers, root, subtree) && ChildrenDone(servers, subtree, i)
  }

  lemma WorkBegins(servers: map<string, string>, root: string)
    ensures Working(servers, root, [root], 0)
  {
    assert Below(servers, root, root, 0);
  }

  lemma WorkIsDistinct(servers: map<string, string>, root: string, subtree: seq<string>, i: nat)
    requires Working(servers, root, subtree, i)
    ensures Distinct(subtree)
  {
  }

  lemma WorkFits(servers: map<string, string>, root: string, subtree: seq<string>, i: nat)
    requires Working(servers, root, subtree, i)
    ensures i <= |subtree| <= |servers.Keys + {root}|
  {
    DistinctFits(subtree, servers.Keys + {root});
  }

  lemma Grown(servers: map<string, string>, root: string, subtree: seq<string>, grown: seq<string>, i: nat)
    requires i < |subtree| && subtree <= grown && Working(servers, root, subtree, i) && Distinct(grown)
    requires ChildrenIn(servers, subtree[i], grown)
    requires forall s :: s in grown && s !in subtree ==> s in servers && servers[s] == subtree[i]
    ensures Working(servers, root, grown, i + 1)
  {
    hide Behind, Distinct;
    forall s | s in grown ensures Behind(servers, root, s) {
      if s !in subtree {
        assert subtree[i] in subtree;
        ChildIsBehind(servers, root, s);
      }
    }
    forall j | 0 <= j < i + 1 ensures ChildrenIn(servers, grown[j], grown) {
      assert grown[j] == subtree[j];
      if j < i {
        assert ChildrenIn(servers, subtree[j], subtree);
      }
    }
    forall s | s in Elements(grown) ensures s in servers.Keys + {root} {
      assert s in subtree ==> s in Elements(subtree);
    }
  }

  lemma Closed(servers: map<string, string>, root: string, subtree: seq<string>)
    requires Working(servers, root, subtree, |subtree|)
    ensures IsSubtree(servers, root, subtree)
  {
    forall s | Behind(servers, root, s) ensures s in subtree {
      var n: nat :| Below(servers, root, s, n);
      ClosedHoldsAll(servers, root, subtree, s, n);
    }
  }

  lemma {:induction false} QuitAllConcat(s: State, a: seq<string>, b: seq<string>)
    requires Tidy(s.sessions)
    ensures QuitAll(s, a + b) == QuitAll(QuitAll(s, a), b)
  {
    if b == [] {
      assert a + b == a;
    } else {
      QuitAllConcat(s, a, b[..|b| - 1]);
      assert (a + b)[..|a + b| - 1] == a + b[..|b| - 1];
    }
  }

  lemma BehindOneMore(users: map<string, User>, subtree: seq<string>, i: nat, before: seq<string>, uids: seq<string>)
    requires i < |subtree| && Elements(before) == UsersBehind(users, Elements(subtree[..i]))
    requires Elements(uids) == UsersBehind(users - Elements(before), {subtree[i]})
    ensures Elements(before + uids) == UsersBehind(users, Elements(subtree[..i + 1]))
  {
    assert Elements(before + uids) == Elements(before) + Elements(uids);
    assert Elements(subtree[..i + 1]) == Elements(subtree[..i]) + {subtree[i]};
  }
}
