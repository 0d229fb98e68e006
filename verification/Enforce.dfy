/** Nick protection: the guest-nick allocator with its wrapping 32-bit counter, the
    list of registered nicks awaiting identify-or-rename, and the sweep over it. */
module Enforce {
  import opened Text
  import opened Numerals
  import opened Iteration

  const TRIES := 100000
  const WRAP := 0x1_0000_0000
  const GRACE := 60

  type U32 = n: nat | n < WRAP

  datatype Account = Account(name: string, noProtect: bool)

  /** What the engine can look up when an event is handled. Keys are lower case. */
  datatype View = View(
    synced: bool,
    nickService: Option<string>,
    uidByNick: map<string, string>,
    accountOf: map<string, string>,
    accounts: map<string, Account>,
    grouped: map<string, string>)

  function UidByNick(v: View, nick: string): Option<string> {
    if Lower(nick) in v.uidByNick then Some(v.uidByNick[Lower(nick)]) else None
  }

  function AccountOf(v: View, uid: string): Option<string> {
    if uid in v.accountOf then Some(v.accountOf[uid]) else None
  }

  /** `resolved_key`: an account of that name, else the account the nick is grouped to. */
  function ResolvedKey(v: View, name: string): Option<string> {
    if Lower(name) in v.accounts then Some(Lower(name))
    else if Lower(name) in v.grouped then Some(Lower(v.grouped[Lower(name)]))
    else None
  }

  function ResolveAccount(v: View, name: string): Option<string> {
    match ResolvedKey(v, name)
    case None => None
    case Some(k) => if k in v.accounts then Some(v.accounts[k].name) else None
  }

  predicate WantsProtect(v: View, account: string) {
    Lower(account) in v.accounts ==> !v.accounts[Lower(account)].noProtect
  }

  predicate Free(v: View, nick: string) {
    UidByNick(v, nick).None? && ResolvedKey(v, nick).None?
  }

  /** Every nick (as a key) that is online or registered. */
  function Taken(v: View): set<string> {
    v.uidByNick.Keys + v.accounts.Keys + v.grouped.Keys
  }

  lemma FreeIsNotTaken(v: View, nick: string)
    ensures Free(v, nick) <==> Lower(nick) !in Taken(v)
  {
  }

  // ----- Guest nicks -------------------------------------------------------------

  /** `wrapping_add`. */
  function Wrapped(n: nat): U32 {
    n % WRAP
  }

  /** The candidate `k` places after the counter value `start`. */
  function Candidate(base: string, start: nat, k: nat): string {
    base + Numeral(Wrapped(start + k), 10)
  }

  /** A candidate is the base followed by a 32-bit counter value in decimal. */
  lemma CandidateReads(base: string, start: nat, k: nat)
    ensures var nick := Candidate(base, start, k);
            |nick| > |base| && nick[..|base|] == base && Value(nick[|base|..], 10) == (start + k) % 0x1_0000_0000
  {
    var digits := Numeral(Wrapped(start + k), 10);
    ValueOfNumeral(Wrapped(start + k), 10);
    assert (base + digits)[|base|..] == digits;
  }

  lemma LowerNumeral(n: nat)
    ensures Lower(Numeral(n, 10)) == Numeral(n, 10)
  {
    NumeralDigits(n, 10);
    var s := Numeral(n, 10);
    forall i | 0 <= i < |s| ensures LowerChar(s[i]) == s[i] {
      assert s[i] in s;
    }
  }

  lemma WrapApart(start: nat, i: nat, j: nat)
    requires i <= j < i + WRAP && Wrapped(start + i) == Wrapped(start + j)
    ensures i == j
  {
    var a, b := start + i, start + j;
    assert a == a / WRAP * WRAP + a % WRAP && b == b / WRAP * WRAP + b % WRAP;
    assert j - i == (b / WRAP - a / WRAP) * WRAP;
  }

  /** Fewer than 2^32 places apart, two candidates are different nicks, wrap-around or not. */
  lemma CandidatesDiffer(base: string, start: nat, i: nat, j: nat)
    requires i <= j < i + 0x1_0000_0000
    requires Lower(Candidate(base, start, i)) == Lower(Candidate(base, start, j))
    ensures i == j
  {
    var a, b := Numeral(Wrapped(start + i), 10), Numeral(Wrapped(start + j), 10);
    LowerConcat(base, a);
    LowerConcat(base, b);
    assert (Lower(base) + Lower(a))[|base|..] == Lower(a) && (Lower(base) + Lower(b))[|base|..] == Lower(b);
    LowerNumeral(Wrapped(start + i));
    LowerNumeral(Wrapped(start + j));
    NumeralInjective(Wrapped(start + i), Wrapped(start + j), 10);
    WrapApart(start, i, j);
  }

  /** The search stops `k` places on: at the first free candidate, or, when the first
      100000 are all taken, at the one after them, which nobody checked. */
  ghost predicate StopsAt(base: string, start: nat, taken: set<string>, k: nat) {
    && k <= TRIES
    && (forall j: nat :: j < k ==> Lower(Candidate(base, start, j)) in taken)
    && (k < TRIES ==> Lower(Candidate(base, start, k)) !in taken)
  }

  function CandidateKeys(base: string, start: nat, n: nat): set<string> {
    if n == 0 then {} else CandidateKeys(base, start, n - 1) + {Lower(Candidate(base, start, n - 1))}
  }

  lemma {:induction false} CandidateKeysAre(base: string, start: nat, n: nat)
    requires n <= WRAP
    ensures |CandidateKeys(base, start, n)| == n
  {
    hide Candidate, Lower;
    if n > 0 {
      CandidateKeysAre(base, start, n - 1);
      var last := Lower(Candidate(base, start, n - 1));
      if last in CandidateKeys(base, start, n - 1) {
        var j := CandidateOfKey(base, start, n - 1, last);
        CandidatesDiffer(base, start, j, n - 1);
      }
    }
  }

  lemma {:induction false} CandidateOfKey(base: string, start: nat, n: nat, x: string) returns (j: nat)
    requires x in CandidateKeys(base, start, n)
    ensures j < n && x == Lower(Candidate(base, start, j))
  {
    hide Candidate, Lower;
    if x == Lower(Candidate(base, start, n - 1)) {
      j := n - 1;
    } else {
      j := CandidateOfKey(base, start, n - 1, x);
    }
  }

  lemma {:induction false} KeyOfCandidate(base: string, start: nat, n: nat, j: nat)
    requires j < n
    ensures Lower(Candidate(base, start, j)) in CandidateKeys(base, start, n)
    decreases n
  {
    hide Candidate, Lower;
    if j < n - 1 {
      KeyOfCandidate(base, start, n - 1, j);
    }
  }

  /** The nick handed out is taken exactly when 100001 candidates in a row are. */
  lemma GuestIsTakenIff(base: string, start: nat, taken: set<string>, k: nat)
    requires StopsAt(base, start, taken, k)
    ensures Lower(Candidate(base, start, k)) in taken
            <==> forall j: nat :: j <= 100000 ==> Lower(Candidate(base, start, j)) in taken
  {
    hide Candidate, Lower;
    assert k == TRIES || Lower(Candidate(base, start, k)) !in taken;
  }

  /** With at most 100000 nicks online or registered the nick handed out is free, even
      when the search ran into the unchecked fallback. */
  lemma GuestIsFree(base: string, start: nat, taken: set<string>, k: nat)
    requires StopsAt(base, start, taken, k) && |taken| <= 100000
    ensures Lower(Candidate(base, start, k)) !in taken
  {
    hide Candidate, Lower;
    if Lower(Candidate(base, start, k)) in taken {
      var s := CandidateKeys(base, start, TRIES + 1);
      CandidateKeysAre(base, start, TRIES + 1);
      forall x | x in s ensures x in taken {
        var j := CandidateOfKey(base, start, TRIES + 1, x);
      }
      SubsetFits(s, taken);
    }
  }

  /** One more taken nick and the fallback can hand out a nick in use. */
  lemma RoomIsNeeded(base: string, start: nat) returns (taken: set<string>)
    ensures |taken| == 100001
    ensures StopsAt(base, start, taken, 100000) && Lower(Candidate(base, start, 100000)) in taken
  {
    hide Candidate, Lower;
    taken := CandidateKeys(base, start, TRIES + 1);
    CandidateKeysAre(base, start, TRIES + 1);
    forall j: nat | j <= TRIES ensures Lower(Candidate(base, start, j)) in taken {
      KeyOfCandidate(base, start, TRIES + 1, j);
    }
  }

  // ----- Guest nicks of one sweep ----------------------------------------------------

  /** `places[i]` is how far the counter had moved when call `i` returned. */
  ghost predicate Calls(base: string, start: nat, taken: set<string>, places: seq<nat>) {
    places != [] ==>
      var front, last := places[..|places| - 1], places[|places| - 1];
      && Calls(base, start, taken, front)
      && Used(front) <= last
      && StopsAt(base, start + Used(front), taken, last - Used(front))
  }

  /** Counter values used up by the calls so far. */
  function Used(places: seq<nat>): nat {
    if places == [] then 0 else places[|places| - 1] + 1
  }

  lemma PlaceShift(base: string, start: nat, u: nat, k: nat)
    ensures Candidate(base, start + u, k) == Candidate(base, start, u + k)
  {
  }

  /** Every counter value passed over belongs to a nick in use. */
  lemma {:induction false} SkippedAreTaken(base: string, start: nat, taken: set<string>, places: seq<nat>, p: nat)
    requires Calls(base, start, taken, places) && p < Used(places) && p !in places
    ensures Lower(Candidate(base, start, p)) in taken
  {
    hide Candidate, Lower;
    var front, last := places[..|places| - 1], places[|places| - 1];
    assert places == front + [last];
    if p < Used(front) {
      SkippedAreTaken(base, start, taken, front, p);
    } else {
      PlaceShift(base, start, Used(front), p - Used(front));
    }
  }

  lemma {:induction false} PlacesGrow(base: string, start: nat, taken: set<string>, places: seq<nat>)
    requires Calls(base, start, taken, places)
    ensures forall i, j :: 0 <= i < j < |places| ==> places[i] < places[j]
    ensures forall i :: 0 <= i < |places| ==> places[i] < Used(places)
  {
    if places != [] {
      PlacesGrow(base, start, taken, places[..|places| - 1]);
    }
  }

  ghost function KeysAt(base: string, start: nat, ps: set<nat>): set<string> {
    set p | p in ps :: Lower(Candidate(base, start, p))
  }

  lemma {:induction false} KeysAtCount(base: string, start: nat, ps: set<nat>)
    requires forall p :: p in ps ==> p < WRAP
    ensures |KeysAt(base, start, ps)| == |ps|
    decreases |ps|
  {
    hide Candidate, Lower;
    if p :| p in ps {
      var rest := ps - {p};
      KeysAtCount(base, start, rest);
      var key := Lower(Candidate(base, start, p));
      assert KeysAt(base, start, ps) == KeysAt(base, start, rest) + {key};
      if key in KeysAt(base, start, rest) {
        var q :| q in rest && key == Lower(Candidate(base, start, q));
        CandidatesDiffer(base, start, if p < q then p else q, if p < q then q else p);
      }
    }
  }

  function Below(n: nat): (s: set<nat>)
    ensures |s| == n
    ensures forall p: nat :: p in s <==> p < n
  {
    if n == 0 then {} else Below(n - 1) + {n - 1}
  }

  function Given(places: seq<nat>): set<nat> {
    set p | p in places
  }

  lemma {:induction false} GivenCount(places: seq<nat>)
    requires forall i, j :: 0 <= i < j < |places| ==> places[i] < places[j]
    ensures |Given(places)| == |places|
  {
    if places != [] {
      var front, last := places[..|places| - 1], places[|places| - 1];
      GivenCount(front);
      assert places == front + [last];
      assert Given(places) == Given(front) + {last};
    }
  }

  /** A counter value is either handed out or passed over for a nick in use. */
  lemma PassedOver(base: string, start: nat, taken: set<string>, places: seq<nat>, n: nat)
    requires Calls(base, start, taken, places) && Used(places) <= n <= WRAP
    requires forall p: nat :: Used(places) <= p < n ==> Lower(Candidate(base, start, p)) in taken
    ensures n <= |places| + |taken|
  {
    hide Candidate, Lower, StopsAt;
    var given := Given(places);
    PlacesGrow(base, start, taken, places);
    GivenCount(places);
    assert given <= Below(n);
    var passed := Below(n) - given;
    assert Below(n) == passed + given;
    KeysAtCount(base, start, passed);
    forall x | x in KeysAt(base, start, passed) ensures x in taken {
      var p :| p in passed && x == Lower(Candidate(base, start, p));
      if p < Used(places) {
        SkippedAreTaken(base, start, taken, places, p);
      }
    }
    SubsetFits(KeysAt(base, start, passed), taken);
  }

  /** The counter does not come round within a sweep of at most 2^32 - |taken| renames. */
  lemma {:induction false} NoLap(base: string, start: nat, taken: set<string>, places: seq<nat>)
    requires Calls(base, start, taken, places) && |places| + |taken| <= 0x1_0000_0000
    ensures Used(places) <= WRAP
  {
    hide StopsAt, Candidate, Lower;
    if places != [] {
      var front, last := places[..|places| - 1], places[|places| - 1];
      NoLap(base, start, taken, front);
      if last >= WRAP {
        ShiftedPlaces(base, start, taken, Used(front), last);
        PassedOver(base, start, taken, front, WRAP);
      }
    }
  }

  lemma ShiftedPlaces(base: string, start: nat, taken: set<string>, used: nat, last: nat)
    requires used <= last && StopsAt(base, start + used, taken, last - used)
    ensures forall p: nat :: used <= p < last ==> Lower(Candidate(base, start, p)) in taken
  {
    hide Candidate, Lower;
    forall p: nat | used <= p < last ensures Lower(Candidate(base, start, p)) in taken {
      PlaceShift(base, start, used, p - used);
    }
  }

  /** The guest nicks one sweep hands out. */
  function Guests(base: string, start: nat, places: seq<nat>): (r: seq<string>)
    ensures |r| == |places|
  {
    seq(|places|, i requires 0 <= i < |places| => Candidate(base, start, places[i]))
  }

  /** No two renames of one sweep land on the same nick, and none on a nick in use. */
  lemma GuestsDoNotCollide(base: string, start: nat, taken: set<string>, places: seq<nat>)
    requires Calls(base, start, taken, places) && |places| + |taken| <= 0x1_0000_0000
    ensures forall i, j :: 0 <= i < j < |places| ==>
              Lower(Guests(base, start, places)[i]) != Lower(Guests(base, start, places)[j])
    ensures |taken| <= 100000 ==>
              forall i :: 0 <= i < |places| ==> Lower(Guests(base, start, places)[i]) !in taken
  {
    hide Candidate, Lower;
    NoLap(base, start, taken, places);
    PlacesGrow(base, start, taken, places);
    forall i, j | 0 <= i < j < |places|
      ensures Lower(Candidate(base, start, places[i])) != Lower(Candidate(base, start, places[j]))
    {
      if Lower(Candidate(base, start, places[i])) == Lower(Candidate(base, start, places[j])) {
        CandidatesDiffer(base, start, places[i], places[j]);
      }
    }
    if |taken| <= TRIES {
      forall i | 0 <= i < |places| ensures Lower(Candidate(base, start, places[i])) !in taken {
        EachGuestIsFree(base, start, taken, places, i);
      }
    }
  }

  lemma {:induction false} EachGuestIsFree(base: string, start: nat, taken: set<string>, places: seq<nat>, i: nat)
    requires Calls(base, start, taken, places) && |taken| <= TRIES && i < |places|
    ensures Lower(Candidate(base, start, places[i])) !in taken
  {
    hide Candidate, Lower;
    var front, last := places[..|places| - 1], places[|places| - 1];
    if i < |front| {
      EachGuestIsFree(base, start, taken, front, i);
    } else {
      GuestIsFree(base, start + Used(front), taken, last - Used(front));
      PlaceShift(base, start, Used(front), last - Used(front));
    }
  }

  // ----- Armed timers -------------------------------------------------------------------

  datatype Pending = Pending(uid: string, nick: string, deadline: nat)

  datatype Event =
    | Arrives(uid: string, nick: string)
    | Renames(uid: string, nick: string)
    | LogsIn(uid: string)
    | Leaves(uid: string)
    | Sweep
    | Relink

  /** One event, when it was handled and what the engine could see then. */
  datatype Moment = Moment(event: Event, now: nat, view: View)

  /** The nick is registered, by an account of that name or else by the account it is
      grouped to; the user is not logged in to that account; and the account has not
      switched protection off. */
  predicate Protected(v: View, uid: string, nick: string) {
    var name := Lower(nick);
    var key := if name in v.accounts then name else if name in v.grouped then Lower(v.grouped[name]) else name;
    && key in v.accounts
    && var owner := v.accounts[key].name;
       && (uid in v.accountOf ==> v.accountOf[uid] != owner)
       && (Lower(owner) in v.accounts ==> !v.accounts[Lower(owner)].noProtect)
  }

  /** Taking the nick arms a timer. */
  predicate Arms(v: View, uid: string, nick: string) {
    v.synced && v.nickService.Some? && Protected(v, uid, nick)
  }

  /** An overdue entry leads to a rename: the user still holds the nick, and it is still
      protected from that user. */
  predicate Fires(v: View, p: Pending) {
    Lower(p.nick) in v.uidByNick && v.uidByNick[Lower(p.nick)] == p.uid && Protected(v, p.uid, p.nick)
  }

  lemma ProtectedIff(v: View, uid: string, nick: string)
    ensures Protected(v, uid, nick) <==>
            var owner := ResolveAccount(v, nick);
            owner.Some? && AccountOf(v, uid) != owner && WantsProtect(v, owner.value)
  {
    hide Lower;
  }

  lemma FiresIff(v: View, p: Pending)
    ensures Fires(v, p) <==>
            var owner := ResolveAccount(v, p.nick);
            && UidByNick(v, p.nick) == Some(p.uid)
            && owner.Some? && AccountOf(v, p.uid) != owner && WantsProtect(v, owner.value)
  {
    ProtectedIff(v, p.uid, p.nick);
  }

  /** `Vec::retain`. */
  function Retain(pending: seq<Pending>, keep: Pending -> bool): seq<Pending> {
    if pending == [] then []
    else
      var last := pending[|pending| - 1];
      Retain(pending[..|pending| - 1], keep) + if keep(last) then [last] else []
  }

  function OtherThan(uid: string): Pending -> bool {
    (p: Pending) => p.uid != uid
  }

  function NotDue(now: nat): Pending -> bool {
    (p: Pending) => p.deadline > now
  }

  function Enforced(pending: seq<Pending>, m: Moment, uid: string, nick: string): seq<Pending> {
    if Arms(m.view, uid, nick) then Retain(pending, OtherThan(uid)) + [Pending(uid, nick, m.now + GRACE)] else pending
  }

  /** What each event does to the armed timers. */
  function After(pending: seq<Pending>, m: Moment): seq<Pending> {
    match m.event
    case Arrives(uid, nick) => Enforced(pending, m, uid, nick)
    case Renames(uid, nick) => Enforced(Retain(pending, OtherThan(uid)), m, uid, nick)
    case LogsIn(uid) => Retain(pending, OtherThan(uid))
    case Leaves(uid) => Retain(pending, OtherThan(uid))
    case Sweep => Retain(pending, NotDue(m.now))
    case Relink => []
  }

  function PendingAt(run: seq<Moment>): seq<Pending> {
    if run == [] then [] else After(PendingAt(run[..|run| - 1]), run[|run| - 1])
  }

  /** The uids a sweep renames, in the order their timers were armed. */
  function Fired(pending: seq<Pending>, now: nat, v: View): seq<string> {
    if pending == [] then []
    else
      var last := pending[|pending| - 1];
      Fired(pending[..|pending| - 1], now, v) + if last.deadline <= now && Fires(v, last) then [last.uid] else []
  }

  ghost predicate OneEach(pending: seq<Pending>) {
    forall i, j :: 0 <= i < j < |pending| ==> pending[i].uid != pending[j].uid
  }

  lemma {:induction false} RetainKeeps(pending: seq<Pending>, keep: Pending -> bool)
    ensures forall p :: p in Retain(pending, keep) <==> p in pending && keep(p)
  {
    if pending != [] {
      RetainKeeps(pending[..|pending| - 1], keep);
      assert pending == pending[..|pending| - 1] + [pending[|pending| - 1]];
    }
  }

  lemma {:induction false} RetainKeepsOneEach(pending: seq<Pending>, keep: Pending -> bool)
    requires OneEach(pending)
    ensures OneEach(Retain(pending, keep))
  {
    if pending != [] {
      var front, last := pending[..|pending| - 1], pending[|pending| - 1];
      RetainKeepsOneEach(front, keep);
      RetainKeeps(front, keep);
      forall p | p in Retain(front, keep) ensures p.uid != last.uid {
        var i :| 0 <= i < |front| && front[i] == p;
        assert pending[i].uid != last.uid;
      }
    }
  }

  lemma EnforcedKeepsOneEach(pending: seq<Pending>, m: Moment, uid: string, nick: string)
    requires OneEach(pending)
    ensures OneEach(Enforced(pending, m, uid, nick))
  {
    hide Arms;
    RetainKeeps(pending, OtherThan(uid));
    RetainKeepsOneEach(pending, OtherThan(uid));
    var rest := Retain(pending, OtherThan(uid));
    assert forall i :: 0 <= i < |rest| ==> rest[i] in rest;
  }

  /** In every run a user has at most one armed timer. */
  lemma {:induction false} OneTimerEach(run: seq<Moment>)
    ensures OneEach(PendingAt(run))
  {
    hide OneEach, Arms, Retain;
    if run == [] {
      assert OneEach([]) by { NoTimers(); }
    } else {
      var before, m := PendingAt(run[..|run| - 1]), run[|run| - 1];
      OneTimerEach(run[..|run| - 1]);
      match m.event
      case Arrives(uid, nick) => EnforcedKeepsOneEach(before, m, uid, nick);
      case Renames(uid, nick) =>
        RetainKeepsOneEach(before, OtherThan(uid));
        EnforcedKeepsOneEach(Retain(before, OtherThan(uid)), m, uid, nick);
      case LogsIn(uid) => RetainKeepsOneEach(before, OtherThan(uid));
      case Leaves(uid) => RetainKeepsOneEach(before, OtherThan(uid));
      case Sweep => RetainKeepsOneEach(before, NotDue(m.now));
      case Relink => NoTimers();
    }
  }

  lemma NoTimers()
    ensures OneEach([])
  {
  }

  // ----- Who is renamed, in terms of what happened -----------------------------------------

  /** The moment armed exactly this timer. */
  predicate ArmedBy(m: Moment, p: Pending) {
    && (m.event == Arrives(p.uid, p.nick) || m.event == Renames(p.uid, p.nick))
    && Arms(m.view, p.uid, p.nick) && p.deadline == m.now + 60
  }

  /** The moment takes this timer off the list. */
  predicate Clears(m: Moment, p: Pending) {
    match m.event
    case Arrives(uid, nick) => uid == p.uid && Arms(m.view, uid, nick)
    case Renames(uid, _) => uid == p.uid
    case LogsIn(uid) => uid == p.uid
    case Leaves(uid) => uid == p.uid
    case Sweep => p.deadline <= m.now
    case Relink => true
  }

  ghost predicate ArmedSince(run: seq<Moment>, p: Pending, i: int) {
    0 <= i < |run| && ArmedBy(run[i], p) && forall j :: i < j < |run| ==> !Clears(run[j], p)
  }

  lemma AfterIff(pending: seq<Pending>, m: Moment, p: Pending)
    ensures p in After(pending, m) <==> ArmedBy(m, p) || (p in pending && !Clears(m, p))
  {
    hide Arms, Retain;
    match m.event
    case Arrives(uid, nick) => RetainKeeps(pending, OtherThan(uid));
    case Renames(uid, nick) =>
      RetainKeeps(pending, OtherThan(uid));
      RetainKeeps(Retain(pending, OtherThan(uid)), OtherThan(uid));
    case LogsIn(uid) => RetainKeeps(pending, OtherThan(uid));
    case Leaves(uid) => RetainKeeps(pending, OtherThan(uid));
    case Sweep => RetainKeeps(pending, NotDue(m.now));
    case Relink =>
  }

  /** A timer is on the list exactly when some event armed it and none since cleared it. */
  lemma {:induction false} PendingIff(run: seq<Moment>, p: Pending)
    ensures p in PendingAt(run) <==> exists i :: ArmedSince(run, p, i)
  {
    hide ArmedSince, ArmedBy, Clears, After;
    if run == [] {
      assert !exists i :: ArmedSince(run, p, i) by { NeverArmed(p); }
    } else {
      var front, m := run[..|run| - 1], run[|run| - 1];
      PendingIff(front, p);
      AfterIff(PendingAt(front), m, p);
      SinceStep(front, m, p);
      assert run == front + [m];
    }
  }

  lemma NeverArmed(p: Pending)
    ensures forall i :: !ArmedSince([], p, i)
  {
  }

  lemma SinceStep(front: seq<Moment>, m: Moment, p: Pending)
    ensures (exists i :: ArmedSince(front + [m], p, i))
            <==> ArmedBy(m, p) || ((exists i :: ArmedSince(front, p, i)) && !Clears(m, p))
  {
    hide ArmedBy, Clears;
    var run := front + [m];
    if i :| ArmedSince(run, p, i) {
      if i < |front| {
        assert run[|front|] == m && run[i] == front[i];
        assert forall j :: i < j < |front| ==> run[j] == front[j];
        assert ArmedSince(front, p, i);
      }
    }
    if ArmedBy(m, p) {
      assert ArmedSince(run, p, |front|);
    }
    if i :| ArmedSince(front, p, i) && !Clears(m, p) {
      assert ArmedSince(run, p, i);
    }
  }

  lemma {:induction false} FiredAre(pending: seq<Pending>, now: nat, v: View)
    ensures forall u :: u in Fired(pending, now, v) <==> exists p ::
            p in pending && p.uid == u && p.deadline <= now && Fires(v, p)
  {
    hide Fires;
    if pending != [] {
      FiredAre(pending[..|pending| - 1], now, v);
      assert pending == pending[..|pending| - 1] + [pending[|pending| - 1]];
    }
  }

  lemma {:induction false} FiredOnce(pending: seq<Pending>, now: nat, v: View)
    requires OneEach(pending)
    ensures Distinct(Fired(pending, now, v))
  {
    hide Fires;
    if pending != [] {
      var front, last := pending[..|pending| - 1], pending[|pending| - 1];
      var before := Fired(front, now, v);
      FiredOnce(front, now, v);
      FiredAre(front, now, v);
      forall i | 0 <= i < |before| ensures before[i] != last.uid {
        assert before[i] in before;
        var p :| p in front && p.uid == before[i] && p.deadline <= now && Fires(v, p);
        var j :| 0 <= j < |front| && front[j] == p;
        assert pending[j].uid != last.uid;
      }
    }
  }

  /** `uid` took a protected nick at moment `i`, at least a minute ago, and has not
      logged in, moved, left or been dealt with since. */
  ghost predicate Overdue(run: seq<Moment>, i: int, uid: string, nick: string, now: nat) {
    0 <= i < |run| && run[i].now + 60 <= now && ArmedSince(run, Pending(uid, nick, run[i].now + 60), i)
  }

  /** A sweep renames exactly the users whose overdue timer still applies, each once. */
  lemma RenamedIff(run: seq<Moment>, now: nat, v: View, uid: string)
    ensures uid in Fired(PendingAt(run), now, v)
            <==> exists i, nick :: Overdue(run, i, uid, nick, now) && Fires(v, Pending(uid, nick, run[i].now + 60))
    ensures Distinct(Fired(PendingAt(run), now, v))
  {
    hide Fires, Fired, PendingAt;
    var pending := PendingAt(run);
    OneTimerEach(run);
    FiredAre(pending, now, v);
    FiredOnce(pending, now, v);
    if uid in Fired(pending, now, v) {
      var p :| p in pending && p.uid == uid && p.deadline <= now && Fires(v, p);
      PendingIff(run, p);
      var i :| ArmedSince(run, p, i);
      assert p == Pending(uid, p.nick, run[i].now + 60);
      assert Overdue(run, i, uid, p.nick, now);
    }
    if i, nick :| Overdue(run, i, uid, nick, now) && Fires(v, Pending(uid, nick, run[i].now + 60)) {
      PendingIff(run, Pending(uid, nick, run[i].now + 60));
    }
  }

  // ----- The engine's part ---------------------------------------------------------------------

  datatype Action = Notice(from: string, to: string) | ForceNick(uid: string, nick: string)

  function SweepActions(ns: Option<string>, fire: seq<string>, guests: seq<string>): seq<Action>
    requires |fire| == |guests|
  {
    if fire == [] then []
    else
      var n := |fire| - 1;
      SweepActions(ns, fire[..n], guests[..n]) + Rename(ns, fire[n], guests[n])
  }

  /** Each user to rename, in order, is sent a notice (if there is a service to send it) and
      then renamed to the guest nick drawn for them, and nobody else hears anything. */
  lemma {:induction false} SweepActionsAre(ns: Option<string>, fire: seq<string>, guests: seq<string>)
    requires |fire| == |guests|
    ensures var out := SweepActions(ns, fire, guests);
            match ns
            case None => |out| == |fire| && forall i :: 0 <= i < |fire| ==> out[i] == ForceNick(fire[i], guests[i])
            case Some(service) =>
              && |out| == 2 * |fire|
              && forall i :: 0 <= i < |fire| ==>
                   out[2 * i] == Notice(service, fire[i]) && out[2 * i + 1] == ForceNick(fire[i], guests[i])
  {
    if fire != [] {
      SweepActionsAre(ns, fire[..|fire| - 1], guests[..|fire| - 1]);
    }
  }

  lemma SweepActionsStep(ns: Option<string>, fire: seq<string>, i: nat, guests: seq<string>, guest: string)
    requires i < |fire| && |guests| == i
    ensures SweepActions(ns, fire[..i + 1], guests + [guest])
            == SweepActions(ns, fire[..i], guests) + Rename(ns, fire[i], guest)
  {
    assert fire[..i + 1][..i] == fire[..i] && (guests + [guest])[..i] == guests;
  }

  /** `Vec::remove`. */
  function RemoveAt<X>(xs: seq<X>, i: nat): seq<X>
    requires i < |xs|
  {
    xs[..i] + xs[i + 1..]
  }

  lemma StepsOver<X>(xs: seq<X>, i: nat, was: seq<X>, done: nat)
    requires i < |xs| && done <= |was| && xs[i..] == was[done..]
    ensures done < |was| && xs[i] == was[done]
    ensures RemoveAt(xs, i)[..i] == xs[..i] && RemoveAt(xs, i)[i..] == was[done + 1..]
    ensures xs[..i + 1] == xs[..i] + [xs[i]] && xs[i + 1..] == was[done + 1..]
  {
    assert xs[i..][1..] == xs[i + 1..] && was[done..][1..] == was[done + 1..];
  }

  lemma SweepOne(was: seq<Pending>, done: nat, now: nat, v: View)
    requires done < |was|
    ensures Retain(was[..done + 1], NotDue(now)) ==
            Retain(was[..done], NotDue(now)) + if was[done].deadline > now then [was[done]] else []
    ensures Fired(was[..done + 1], now, v) ==
            Fired(was[..done], now, v) + if was[done].deadline <= now && Fires(v, was[done]) then [was[done].uid] else []
  {
    hide Fires;
    assert was[..done + 1][..done] == was[..done];
  }

  /** One more guest nick, with the counter value the engine really has. */
  lemma OneMoreCall(base: string, start: nat, taken: set<string>, before: seq<nat>, current: U32, place: nat, guest: string)
    requires Calls(base, start, taken, before) && current == Wrapped(start + Used(before))
    requires StopsAt(base, current, taken, place) && guest == Candidate(base, current, place)
    ensures var places := before + [Used(before) + place];
            && Calls(base, start, taken, places)
            && Guests(base, start, places) == Guests(base, start, before) + [guest]
            && Wrapped(current + place + 1) == Wrapped(start + Used(places))
  {
    hide StopsAt, Candidate, Wrapped;
    var places := before + [Used(before) + place];
    assert places[..|places| - 1] == before;
    WrappedStart(base, start + Used(before), taken, place);
    PlaceShift(base, start, Used(before), place);
    WrapAdd(start + Used(before), place + 1);
  }

  function Rename(ns: Option<string>, uid: string, guest: string): seq<Action> {
    (if ns.Some? then [Notice(ns.value, uid)] else []) + [ForceNick(uid, guest)]
  }

  /** The second half of a sweep, once the uids in `fire` have been renamed. */
  ghost predicate Swept(base: string, start: nat, v: View, fire: seq<string>, places: seq<nat>, current: U32,
      out: seq<Action>) {
    && |places| == |fire| && Calls(base, start, Taken(v), places) && current == Wrapped(start + Used(places))
    && out == SweepActions(v.nickService, fire, Guests(base, start, places))
  }

  lemma NothingSwept(base: string, start: U32, v: View)
    ensures Swept(base, start, v, [], [], start, [])
  {
  }

  lemma SweptMeans(base: string, start: nat, v: View, fire: seq<string>, places: seq<nat>, current: U32, out: seq<Action>)
    requires Swept(base, start, v, fire, places, current, out)
    ensures |places| == |fire| && Calls(base, start, Taken(v), places) && current == Wrapped(start + Used(places))
    ensures out == SweepActions(v.nickService, fire, Guests(base, start, places))
  {
  }

  lemma SweptStep(base: string, start: nat, v: View, fire: seq<string>, i: nat, places: seq<nat>, current: U32,
                  out: seq<Action>, place: nat, guest: string)
    requires i < |fire| && Swept(base, start, v, fire[..i], places, current, out)
    requires StopsAt(base, current, Taken(v), place) && guest == Candidate(base, current, place)
    ensures Swept(base, start, v, fire[..i + 1], places + [Used(places) + place], Wrapped(current + place + 1),
                  out + Rename(v.nickService, fire[i], guest))
  {
    hide Calls, StopsAt, Candidate, Wrapped, Taken, Guests, SweepActions;
    OneMoreCall(base, start, Taken(v), places, current, place, guest);
    SweepActionsStep(v.nickService, fire, i, Guests(base, start, places), guest);
  }

  class NickGuard {
    const guestNick: string
    var enforceSeq: U32
    var pendingEnforce: seq<Pending>

    constructor (guestNick: string)
      ensures this.guestNick == guestNick && enforceSeq == 0 && pendingEnforce == PendingAt([])
    {
      this.guestNick, enforceSeq, pendingEnforce := guestNick, 0, [];
    }

    /** The next guest nick: the first free candidate, or the one after 100000 taken ones. */
    method NextGuestNick(v: View) returns (nick: string, ghost place: nat)
      modifies this`enforceSeq
      ensures StopsAt(guestNick, old(enforceSeq), Taken(v), place)
      ensures nick == Candidate(guestNick, old(enforceSeq), place)
      ensures enforceSeq == Wrapped(old(enforceSeq) + place + 1)
    {
      place := 0;
      ghost var start := enforceSeq;
      for tries := 0 to TRIES
        invariant place == tries && enforceSeq == Wrapped(start + place)
        invariant forall j: nat :: j < place ==> Lower(Candidate(guestNick, start, j)) in Taken(v)
      {
        nick := guestNick + Numeral(enforceSeq, 10);
        assert nick == Candidate(guestNick, start, place);
        enforceSeq := Wrapped(enforceSeq + 1);
        WrapStep(start + place);
        FreeIsNotTaken(v, nick);
        if Free(v, nick) {
          return;
        }
        place := place + 1;
      }
      nick := guestNick + Numeral(enforceSeq, 10);
      enforceSeq := Wrapped(enforceSeq + 1);
      WrapStep(start + place);
    }

    /** A user took a nick: arm the timer if it is registered, protected and not theirs. */
    method EnforceRegisteredNick(uid: string, nick: string, now: nat, v: View) returns (out: seq<Action>)
      modifies this`pendingEnforce
      ensures pendingEnforce == After(old(pendingEnforce), Moment(Arrives(uid, nick), now, v))
      ensures out == if Arms(v, uid, nick) then [Notice(v.nickService.value, uid)] else []
    {
      out := [];
      ProtectedIff(v, uid, nick);
      if !v.synced {
        return;
      }
      var owner := ResolveAccount(v, nick);
      if owner.None? || AccountOf(v, uid) == owner || !WantsProtect(v, owner.value) || v.nickService.None? {
        return;
      }
      pendingEnforce := Retain(pendingEnforce, OtherThan(uid)) + [Pending(uid, nick, now + GRACE)];
      out := [Notice(v.nickService.value, uid)];
    }

    method NickChange(uid: string, nick: string, now: nat, v: View) returns (out: seq<Action>)
      modifies this`pendingEnforce
      ensures pendingEnforce == After(old(pendingEnforce), Moment(Renames(uid, nick), now, v))
      ensures out == if Arms(v, uid, nick) then [Notice(v.nickService.value, uid)] else []
    {
      pendingEnforce := Retain(pendingEnforce, OtherThan(uid));
      out := EnforceRegisteredNick(uid, nick, now, v);
    }

    /** Logging in or leaving disarms the user's timer. */
    method Disarm(uid: string)
      modifies this`pendingEnforce
      ensures forall m: Moment :: m.event == LogsIn(uid) || m.event == Leaves(uid) ==>
              pendingEnforce == After(old(pendingEnforce), m)
    {
      pendingEnforce := Retain(pendingEnforce, OtherThan(uid));
    }

    /** Take the due timers off the list, in place, keeping the others in order. */
    method TakeDue(now: nat, v: View) returns (fire: seq<string>)
      modifies this`pendingEnforce
      ensures pendingEnforce == After(old(pendingEnforce), Moment(Sweep, now, v))
      ensures fire == Fired(old(pendingEnforce), now, v)
    {
      ghost var was := pendingEnforce;
      ghost var done := 0;
      fire := [];
      var i := 0;
      assert Retain(was[..0], NotDue(now)) == [] && Fired(was[..0], now, v) == [];
      hide Fires, Retain, Fired;
      while i < |pendingEnforce|
        invariant 0 <= done <= |was| && i <= |pendingEnforce|
        invariant pendingEnforce[..i] == Retain(was[..done], NotDue(now)) && pendingEnforce[i..] == was[done..]
        invariant fire == Fired(was[..done], now, v)
        decreases |pendingEnforce| - i
      {
        SweepOne(was, done, now, v);
        StepsOver(pendingEnforce, i, was, done);
        if pendingEnforce[i].deadline <= now {
          var p := pendingEnforce[i];
          pendingEnforce := RemoveAt(pendingEnforce, i);
          FiresIff(v, p);
          var owner := ResolveAccount(v, p.nick);
          if UidByNick(v, p.nick) == Some(p.uid) && AccountOf(v, p.uid) != owner && owner.Some?
             && WantsProtect(v, owner.value)
          {
            fire := fire + [p.uid];
          }
        } else {
          i := i + 1;
        }
        done := done + 1;
      }
      assert was[..done] == was && pendingEnforce[..i] == pendingEnforce;
    }

    /** Rename everyone whose time is up. */
    method EnforceSweep(now: nat, v: View) returns (out: seq<Action>, ghost places: seq<nat>)
      modifies this
      ensures pendingEnforce == After(old(pendingEnforce), Moment(Sweep, now, v))
      ensures Calls(guestNick, old(enforceSeq), Taken(v), places)
      ensures |places| == |Fired(old(pendingEnforce), now, v)|
      ensures out == SweepActions(v.nickService, Fired(old(pendingEnforce), now, v), Guests(guestNick,
              old(enforceSeq), places))
    {
      ghost var start := enforceSeq;
      var fire := TakeDue(now, v);
      out, places := [], [];
      NothingSwept(guestNick, start, v);
      hide Swept, After, Fired, Candidate, StopsAt, Taken, Wrapped;
      for i := 0 to |fire|
        invariant Swept(guestNick, start, v, fire[..i], places, enforceSeq, out)
        invariant pendingEnforce == After(old(pendingEnforce), Moment(Sweep, now, v))
      {
        ghost var current := enforceSeq;
        var guest, place := NextGuestNick(v);
        SweptStep(guestNick, start, v, fire, i, places, current, out, place, guest);
        places := places + [Used(places) + place];
        ghost var emitted := out;
        if v.nickService.Some? {
          out := out + [Notice(v.nickService.value, fire[i])];
        }
        out := out + [ForceNick(fire[i], guest)];
        assert out == emitted + Rename(v.nickService, fire[i], guest);
      }
      assert fire[..|fire|] == fire;
      SweptMeans(guestNick, start, v, fire, places, enforceSeq, out);
    }
  }

  lemma WrapStep(n: nat)
    ensures Wrapped(Wrapped(n) + 1) == Wrapped(n + 1) && Wrapped(Wrapped(n)) == Wrapped(n)
  {
  }

  lemma WrapAdd(n: nat, k: nat)
    ensures Wrapped(Wrapped(n) + k) == Wrapped(n + k)
  {
    assert n == n / WRAP * WRAP + n % WRAP;
    assert n + k == n / WRAP * WRAP + (n % WRAP + k);
    MultiplesVanish(n % WRAP + k, n / WRAP);
  }

  lemma {:induction false} MultiplesVanish(n: nat, q: nat)
    ensures Wrapped(q * WRAP + n) == Wrapped(n)
  {
    if q > 0 {
      MultiplesVanish(n, q - 1);
      assert Wrapped((q - 1) * WRAP + n + WRAP) == Wrapped((q - 1) * WRAP + n);
    }
  }

  /** The counter stands for every start value it may have wrapped from. */
  lemma WrappedStart(base: string, start: nat, taken: set<string>, k: nat)
    requires StopsAt(base, Wrapped(start), taken, k)
    ensures StopsAt(base, start, taken, k)
    ensures Candidate(base, Wrapped(start), k) == Candidate(base, start, k)
  {
    forall j: nat ensures Candidate(base, Wrapped(start), j) == Candidate(base, start, j) {
      WrapAdd(start, j);
    }
  }
}
