/** Community moderation: `!votekick` and `!voteban` tallies. */
module Votes {
  import opened Iteration
  import opened Text

  const TTL := 120
  const U16 := 65536

  /** A vote command, with what the engine looks up about it. `guarded` says that the
      target is one of our bots, an operator or a channel op. */
  datatype Ballot = Ballot(
    voter: string, channel: string, ban: bool, now: nat, threshold: nat, bot: Option<string>,
    target: Option<string>, display: string, isMember: bool, guarded: bool)

  datatype Tally = Tally(ban: bool, voters: set<string>, started: nat)

  /** Keyed by lower-case channel and lower-case target nick. */
  type Key = (string, string)
  type Table = map<Key, Tally>

  /** `PassThrough` hands the line on to the other kickers. */
  datatype Verdict = PassThrough | Refused | Announced(count: nat) | Passed(target: string, ban: bool, count: nat)

  function KeyOf(b: Ballot): Key {
    (Lower(b.channel), Lower(b.display))
  }

  predicate Valid(b: Ballot) {
    b.threshold > 0 && b.bot.Some? && b.target.Some? && b.isMember
  }

  /** The vote gets as far as the tally. */
  predicate Counts(b: Ballot) {
    Valid(b) && !b.guarded
  }

  predicate Recent(t: Tally, now: nat) {
    now <= t.started + TTL
  }

  function Swept(t: Table, now: nat): Table {
    map k | k in t && Recent(t[k], now) :: t[k]
  }

  /** The tally a vote joins. */
  function Open(t: Table, b: Ballot): Tally {
    var swept := Swept(t, b.now);
    if KeyOf(b) in swept then swept[KeyOf(b)].(ban := b.ban) else Tally(b.ban, {}, b.now)
  }

  function Cast(t: Table, b: Ballot): (Table, Verdict) {
    if !Valid(b) then (t, PassThrough)
    else if b.guarded then (t, Refused)
    else
      var swept, k, tally := Swept(t, b.now), KeyOf(b), Open(t, b);
      if b.voter in tally.voters then (swept[k := tally], PassThrough)
      else
        var voters := tally.voters + {b.voter};
        var count := |voters| % U16;
        if count < b.threshold then (swept[k := tally.(voters := voters)], Announced(count))
        else (swept - {k}, Passed(b.target.value, b.ban, count))
  }

  // ----- Runs ------------------------------------------------------------------------

  function TableAfter(run: seq<Ballot>): Table {
    if run == [] then map[] else Cast(TableAfter(run[..|run| - 1]), run[|run| - 1]).0
  }

  function LastVerdict(run: seq<Ballot>): Verdict
    requires run != []
  {
    Cast(TableAfter(run[..|run| - 1]), run[|run| - 1]).1
  }

  /** The vote is one, of whoever may vote, in that channel against that nick. */
  predicate CountsFor(b: Ballot, k: Key) {
    && b.threshold > 0 && b.bot.Some? && b.target.Some? && b.isMember && !b.guarded
    && Lower(b.channel) == k.0 && Lower(b.display) == k.1
  }

  lemma CountsForIff(b: Ballot)
    ensures forall k :: CountsFor(b, k) <==> Counts(b) && KeyOf(b) == k
  {
  }

  /** Everybody who voted under `k` from moment `i` on. */
  function VotersSince(run: seq<Ballot>, k: Key, i: nat): set<string> {
    set j | i <= j < |run| && CountsFor(run[j], k) :: run[j].voter
  }

  /** The tally is exactly the votes cast from moment `i` on. */
  ghost predicate Began(run: seq<Ballot>, k: Key, t: Tally, i: nat) {
    i < |run| && CountsFor(run[i], k) && run[i].now == t.started && t.voters == VotersSince(run, k, i)
  }

  /** Thresholds are 16-bit. */
  ghost predicate InRange(run: seq<Ballot>) {
    forall i :: 0 <= i < |run| ==> run[i].threshold < 65536
  }

  // ----- The tally in terms of the history ---------------------------------------------------

  /** Where the open tally under `k` began: with the first counted vote under `k` since
      one last passed, or since a counted vote (any sweeps) found it over 120 seconds old. */
  function Current(run: seq<Ballot>, k: Key): (i: Option<nat>)
    ensures i.Some? ==> i.value < |run|
    decreases |run|, 0
  {
    if run == [] then None
    else
      var front, b := run[..|run| - 1], run[|run| - 1];
      if !Counts(b) then Current(front, k)
      else if KeyOf(b) != k then Live(front, k, b.now)
      else if Carries(front, b) then None
      else Some(Joined(front, b))
  }

  /** The open tally, unless it is too old by now. */
  function Live(front: seq<Ballot>, k: Key, now: nat): (i: Option<nat>)
    ensures i.Some? ==> i.value < |front| && now <= front[i.value].now + 120
    decreases |front|, 1
  {
    var i := Current(front, k);
    if i.Some? && now <= front[i.value].now + 120 then i else None
  }

  /** Where the tally began that this vote counts in: the live one, or its own. */
  function Joined(front: seq<Ballot>, b: Ballot): (i: nat)
    ensures i <= |front|
    decreases |front|, 2
  {
    var i := Live(front, KeyOf(b), b.now);
    if i.Some? then i.value else |front|
  }

  /** With this vote, of somebody who has not voted in its tally, enough users have. */
  predicate Carries(front: seq<Ballot>, b: Ballot)
    decreases |front|, 3
  {
    var i := Joined(front, b);
    && b.voter !in VotersSince(front, KeyOf(b), i)
    && |VotersSince(front, KeyOf(b), i) + {b.voter}| >= b.threshold
  }

  /** The table holds, for every key, the voters since its tally began, and no more
      than the 16-bit count can hold. */
  ghost predicate Faithful(run: seq<Ballot>, t: Table) {
    forall k ::
      && (k in t <==> Current(run, k).Some?)
      && (k in t ==> Began(run, k, t[k], Current(run, k).value) && |t[k].voters| < 65535)
  }

  lemma VotersGrow(front: seq<Ballot>, b: Ballot, k: Key, i: nat)
    requires i <= |front|
    ensures VotersSince(front + [b], k, i) == VotersSince(front, k, i) + if CountsFor(b, k) then {b.voter} else {}
  {
    hide CountsFor;
    var run := front + [b];
    assert run[|front|] == b;
    forall v | v in VotersSince(front, k, i) ensures v in VotersSince(run, k, i) {
      var j :| i <= j < |front| && CountsFor(front[j], k) && front[j].voter == v;
      assert run[j] == front[j];
    }
    forall v | v in VotersSince(run, k, i) ensures v in VotersSince(front, k, i) || (CountsFor(b, k) && v == b.voter) {
      var j :| i <= j < |run| && CountsFor(run[j], k) && run[j].voter == v;
      if j < |front| {
        assert run[j] == front[j];
      }
    }
  }

  lemma BeganBefore(front: seq<Ballot>, b: Ballot, k: Key, t: Tally, i: nat)
    requires Began(front, k, t, i)
    ensures Began(front + [b], k, t.(voters := t.voters + if CountsFor(b, k) then {b.voter} else {}), i)
  {
    hide CountsFor;
    VotersGrow(front, b, k, i);
    assert (front + [b])[i] == front[i];
  }

  /** The tally a counted vote opens or joins is the history's. */
  lemma Joins(front: seq<Ballot>, t: Table, b: Ballot)
    requires Faithful(front, t) && Counts(b)
    ensures var tally, i := Open(t, b), Joined(front, b);
            && tally.voters == VotersSince(front, KeyOf(b), i) && |tally.voters| < 65535
            && Began(front + [b], KeyOf(b), tally.(voters := tally.voters + {b.voter}), i)
            && b.now <= (front + [b])[i].now + 120
  {
    var k := KeyOf(b);
    if k in Swept(t, b.now) {
      BeganBefore(front, b, k, t[k], Current(front, k).value);
      assert (front + [b])[Current(front, k).value] == front[Current(front, k).value];
    } else {
      assert VotersSince(front, k, |front|) == {};
      VotersGrow(front, b, k, |front|);
      assert (front + [b])[|front|] == b;
    }
  }

  /** What the code answers a counted vote with, from the history alone. */
  lemma CastIs(front: seq<Ballot>, t: Table, b: Ballot)
    requires Faithful(front, t) && Counts(b) && b.threshold < 65536
    ensures var i, v := Joined(front, b), Cast(t, b).1;
            && (v == PassThrough <==> b.voter in VotersSince(front, KeyOf(b), i))
            && (v.Passed? <==> Carries(front, b))
            && (KeyOf(b) in Cast(t, b).0 <==> !Carries(front, b))
  {
    hide KeyOf, VotersSince;
    Joins(front, t, b);
    var tally := Open(t, b);
    if b.voter !in tally.voters {
      assert |tally.voters + {b.voter}| == |tally.voters| + 1;
    }
  }

  lemma OthersStay(front: seq<Ballot>, t: Table, b: Ballot, k: Key)
    requires Faithful(front, t) && k in t && !CountsFor(b, k)
    ensures Began(front + [b], k, t[k], Current(front, k).value)
  {
    hide CountsFor, VotersSince;
    BeganBefore(front, b, k, t[k], Current(front, k).value);
    assert t[k].(voters := t[k].voters + {}) == t[k];
  }

  lemma CurrentSnoc(front: seq<Ballot>, b: Ballot, k: Key)
    ensures Current(front + [b], k) ==
            if !Counts(b) then Current(front, k)
            else if KeyOf(b) != k then Live(front, k, b.now)
            else if Carries(front, b) then None
            else Some(Joined(front, b))
  {
    assert (front + [b])[..|front|] == front;
  }

  lemma UncountedStays(front: seq<Ballot>, t: Table, b: Ballot, k: Key)
    requires Faithful(front, t) && !CountsFor(b, k)
    ensures var t', i := Cast(t, b).0, Current(front + [b], k);
            (k in t' <==> i.Some?) && (k in t' ==> Began(front + [b], k, t'[k], i.value) && |t'[k].voters| < 65535)
  {
    hide KeyOf, VotersSince, Began, CountsFor;
    CountsForIff(b);
    CurrentSnoc(front, b, k);
    if k in t {
      OthersStay(front, t, b, k);
      BeganWhen(front, k, t[k], Current(front, k).value);
    }
    assert k in Cast(t, b).0 ==> k in t && Cast(t, b).0[k] == t[k];
  }

  lemma BeganWhen(run: seq<Ballot>, k: Key, t: Tally, i: nat)
    requires Began(run, k, t, i)
    ensures i < |run| && run[i].now == t.started && t.voters == VotersSince(run, k, i)
  {
  }

  lemma CountedStays(front: seq<Ballot>, t: Table, b: Ballot)
    requires Faithful(front, t) && Counts(b) && b.threshold < 65536
    ensures var t', k := Cast(t, b).0, KeyOf(b);
            var i := Current(front + [b], k);
            (k in t' <==> i.Some?) && (k in t' ==> Began(front + [b], k, t'[k], i.value) && |t'[k].voters| < 65535)
  {
    hide KeyOf, VotersSince, Began, Joined, Carries;
    var k := KeyOf(b);
    CurrentSnoc(front, b, k);
    CastIs(front, t, b);
    Joins(front, t, b);
    var tally := Open(t, b);
    if b.voter in tally.voters {
      assert tally.(voters := tally.voters + {b.voter}) == tally by {
        assert tally.voters + {b.voter} == tally.voters;
      }
    } else {
      assert |tally.voters + {b.voter}| == |tally.voters| + 1;
    }
  }

  lemma CastIsFaithful(front: seq<Ballot>, t: Table, b: Ballot)
    requires Faithful(front, t) && b.threshold < 65536
    ensures Faithful(front + [b], Cast(t, b).0)
  {
    hide Began, Current, Cast, CountsFor;
    CountsForIff(b);
    forall k ensures
      var t', i := Cast(t, b).0, Current(front + [b], k);
      (k in t' <==> i.Some?) && (k in t' ==> Began(front + [b], k, t'[k], i.value) && |t'[k].voters| < 65535)
    {
      if CountsFor(b, k) {
        CountedStays(front, t, b);
      } else {
        UncountedStays(front, t, b, k);
      }
    }
  }

  lemma {:induction false} TalliesAreFaithful(run: seq<Ballot>)
    requires InRange(run)
    ensures Faithful(run, TableAfter(run))
  {
    hide Cast, Faithful;
    if run == [] {
      NoTallies();
    } else {
      var front := run[..|run| - 1];
      TalliesAreFaithful(front);
      CastIsFaithful(front, TableAfter(front), run[|run| - 1]);
      assert run == front + [run[|run| - 1]];
    }
  }

  lemma NoTallies()
    ensures Faithful([], map[])
  {
  }

  /** A verdict on a counted vote tells how many have voted, and whom it acts on and how. */
  predicate Says(v: Verdict, b: Ballot, voters: nat) {
    match v
    case PassThrough => true
    case Refused => false
    case Announced(count) => count == voters
    case Passed(target, ban, count) => Some(target) == b.target && ban == b.ban && count == voters
  }

  lemma CastSays(front: seq<Ballot>, t: Table, b: Ballot)
    requires Faithful(front, t) && Counts(b)
    ensures Says(Cast(t, b).1, b, |VotersSince(front, KeyOf(b), Joined(front, b)) + {b.voter}|)
  {
    hide KeyOf, VotersSince, Joined;
    Joins(front, t, b);
    var tally := Open(t, b);
    if b.voter !in tally.voters {
      assert |tally.voters + {b.voter}| == |tally.voters| + 1;
    }
  }

  /** Over every run: a counted vote passes if and only if its author had not voted since
      the tally began and, with it, at least `threshold` different users have; it is
      passed on if and only if its author had; and the tally is at most 120 seconds old.
      The 16-bit count never wraps. */
  lemma PassesIff(run: seq<Ballot>, i: nat)
    requires run != [] && InRange(run) && Counts(run[|run| - 1]) && i == Joined(run[..|run| - 1], run[|run| - 1])
    ensures var front, b := run[..|run| - 1], run[|run| - 1];
            && i < |run| && CountsFor(run[i], KeyOf(b)) && b.now <= run[i].now + 120
            && (LastVerdict(run) == PassThrough <==> b.voter in VotersSince(front, KeyOf(b), i))
            && (LastVerdict(run).Passed? <==>
                  b.voter !in VotersSince(front, KeyOf(b), i) && |VotersSince(run, KeyOf(b), i)| >= b.threshold)
            && Says(LastVerdict(run), b, |VotersSince(run, KeyOf(b), i)|)
  {
    hide KeyOf, VotersSince, CountsFor;
    var front, b := run[..|run| - 1], run[|run| - 1];
    CountsForIff(b);
    assert run == front + [b];
    TalliesAreFaithful(front);
    Joins(front, TableAfter(front), b);
    CastIs(front, TableAfter(front), b);
    CastSays(front, TableAfter(front), b);
    VotersGrow(front, b, KeyOf(b), i);
  }

  /** A vote that may not be cast changes no tally: against a protected user it is refused,
      and without threshold, bot, target or membership it is ordinary talk. */
  lemma UncountedIsIdle(run: seq<Ballot>)
    requires run != [] && !Counts(run[|run| - 1])
    ensures var b := run[|run| - 1];
            && TableAfter(run) == TableAfter(run[..|run| - 1])
            && LastVerdict(run) ==
               if b.threshold > 0 && b.bot.Some? && b.target.Some? && b.isMember && b.guarded then Refused else PassThrough
  {
  }

  lemma CurrentFrom(front: seq<Ballot>, b: Ballot, k: Key)
    requires Current(front + [b], k).Some?
    ensures var i := Current(front + [b], k).value;
            && i <= |front|
            && (CountsFor(b, k) ==> !Carries(front, b))
            && (i < |front| ==> Current(front, k) == Some(i) && (Counts(b) ==> b.now <= front[i].now + 120))
            && (i == |front| ==> CountsFor(b, k) && Live(front, k, b.now).None?)
  {
    hide KeyOf, Carries, CountsFor;
    CountsForIff(b);
    CurrentSnoc(front, b, k);
  }

  /** Nothing ended the tally since it began: no vote under its key passed, and no counted
      vote came after its 120 seconds; and the votes before it belong to another. */
  lemma {:induction false} CurrentHolds(run: seq<Ballot>, k: Key)
    requires Current(run, k).Some?
    ensures var i := Current(run, k).value;
            && CountsFor(run[i], k) && Live(run[..i], k, run[i].now).None?
            && (forall j :: i < j < |run| && Counts(run[j]) ==> run[j].now <= run[i].now + 120)
            && (forall j :: i <= j < |run| && CountsFor(run[j], k) ==> !Carries(run[..j], run[j]))
  {
    hide KeyOf, VotersSince, Carries, Joined, Live;
    var front, b := run[..|run| - 1], run[|run| - 1];
    var i := Current(run, k).value;
    assert run == front + [b];
    CurrentFrom(front, b, k);
    if i < |front| {
      CurrentHolds(front, k);
      assert front[..i] == run[..i] && front[i] == run[i];
      forall j | i <= j < |run| && CountsFor(run[j], k) ensures !Carries(run[..j], run[j]) {
        if j < |front| {
          assert front[..j] == run[..j] && front[j] == run[j];
        }
      }
      forall j | i < j < |run| && Counts(run[j]) ensures run[j].now <= run[i].now + 120 {
        if j < |front| {
          assert front[j] == run[j];
        }
      }
    } else {
      assert run[..i] == front && run[i] == b;
    }
  }

  // ----- Whom the votes were against ----------------------------------------------------------

  /** Those of them who voted while the nick was `uid`'s. */
  function NamedSince(run: seq<Ballot>, k: Key, i: nat, uid: string): set<string> {
    set j | i <= j < |run| && CountsFor(run[j], k) && run[j].target == Some(uid) :: run[j].voter
  }

  /** The channel's threshold did not change since the tally began. */
  ghost predicate SameThreshold(run: seq<Ballot>, k: Key, i: nat, threshold: nat) {
    forall j :: i <= j < |run| && CountsFor(run[j], k) ==> run[j].threshold == threshold
  }

  /** Short of a pass, fewer than `threshold` users have voted. */
  lemma {:induction false} OpenIsShort(run: seq<Ballot>, k: Key, threshold: nat)
    requires Current(run, k).Some? && SameThreshold(run, k, Current(run, k).value, threshold)
    ensures |VotersSince(run, k, Current(run, k).value)| < threshold
  {
    hide KeyOf, VotersSince, Carries, Joined, Live, Current, SameThreshold, CountsFor;
    CurrentIsSome(run, k);
    var front, b := run[..|run| - 1], run[|run| - 1];
    CountsForIff(b);
    var i := Current(run, k).value;
    assert run == front + [b];
    CurrentFrom(front, b, k);
    VotersGrow(front, b, k, i);
    if i < |front| {
      ThresholdBefore(front, b, k, i, threshold);
      OpenIsShort(front, k, threshold);
      if CountsFor(b, k) {
        NotCarried(front, b, i, threshold);
      } else {
        assert VotersSince(front, k, i) + {} == VotersSince(front, k, i);
      }
    } else {
      NobodyYet(front, k);
      ThresholdNow(run, k, i, threshold);
      NotCarriedAlone(front, b);
    }
  }

  lemma CurrentIsSome(run: seq<Ballot>, k: Key)
    requires Current(run, k).Some?
    ensures run != []
  {
  }

  lemma NobodyYet(front: seq<Ballot>, k: Key)
    ensures VotersSince(front, k, |front|) == {}
  {
  }

  lemma ThresholdBefore(front: seq<Ballot>, b: Ballot, k: Key, i: nat, threshold: nat)
    requires SameThreshold(front + [b], k, i, threshold) && i <= |front|
    ensures SameThreshold(front, k, i, threshold) && (CountsFor(b, k) ==> b.threshold == threshold)
  {
    hide CountsFor;
    var run := front + [b];
    assert run[|front|] == b && forall j :: 0 <= j < |front| ==> front[j] == run[j];
  }

  lemma ThresholdNow(run: seq<Ballot>, k: Key, i: nat, threshold: nat)
    requires SameThreshold(run, k, i, threshold) && i < |run| && CountsFor(run[i], k)
    ensures run[i].threshold == threshold
  {
  }

  /** A vote that did not carry its tally left it short. */
  lemma NotCarried(front: seq<Ballot>, b: Ballot, i: nat, threshold: nat)
    requires Counts(b) && !Carries(front, b) && b.threshold == threshold
    requires Current(front, KeyOf(b)) == Some(i) && b.now <= front[i].now + 120
    requires |VotersSince(front, KeyOf(b), i)| < threshold
    ensures |VotersSince(front, KeyOf(b), i) + {b.voter}| < threshold
  {
    hide KeyOf, VotersSince;
    assert Live(front, KeyOf(b), b.now) == Some(i);
    assert Joined(front, b) == i;
    if b.voter in VotersSince(front, KeyOf(b), i) {
      assert VotersSince(front, KeyOf(b), i) + {b.voter} == VotersSince(front, KeyOf(b), i);
    }
  }

  lemma NotCarriedAlone(front: seq<Ballot>, b: Ballot)
    requires Counts(b) && !Carries(front, b) && Live(front, KeyOf(b), b.now).None?
    ensures |VotersSince(front, KeyOf(b), |front|) + {b.voter}| < b.threshold
  {
    NobodyYet(front, KeyOf(b));
  }

  /** Under an unchanged threshold a vote passes with exactly that many voters. */
  lemma PassedExactly(run: seq<Ballot>, i: nat)
    requires run != [] && InRange(run) && Counts(run[|run| - 1]) && i == Joined(run[..|run| - 1], run[|run| - 1])
    requires LastVerdict(run).Passed? && SameThreshold(run, KeyOf(run[|run| - 1]), i, run[|run| - 1].threshold)
    ensures |VotersSince(run, KeyOf(run[|run| - 1]), i)| == run[|run| - 1].threshold
  {
    hide KeyOf, VotersSince, Current, SameThreshold;
    var front, b := run[..|run| - 1], run[|run| - 1];
    var k := KeyOf(b);
    assert run == front + [b];
    PassesIff(run, i);
    VotersGrow(front, b, k, i);
    if i < |front| {
      ThresholdBefore(front, b, k, i, b.threshold);
      OpenIsShort(front, k, b.threshold);
    } else {
      NobodyYet(front, k);
    }
  }

  lemma NamedAreVoters(run: seq<Ballot>, k: Key, i: nat, uid: string)
    ensures NamedSince(run, k, i, uid) <= VotersSince(run, k, i)
  {
  }

  /** Over every run, a passed vote is the vote of `threshold` users against the user it
      removes if everybody who voted since the tally began voted at least once while
      the nick was that user's; and if the threshold stood unchanged, only then. */
  lemma PassedIsMeantIff(run: seq<Ballot>, i: nat, uid: string)
    requires run != [] && InRange(run) && Counts(run[|run| - 1]) && i == Joined(run[..|run| - 1], run[|run| - 1])
    requires LastVerdict(run).Passed? && LastVerdict(run).target == uid
    ensures var b := run[|run| - 1];
            var voters, named := VotersSince(run, KeyOf(b), i), NamedSince(run, KeyOf(b), i, uid);
            && (voters <= named ==> |named| >= b.threshold)
            && (SameThreshold(run, KeyOf(b), i, b.threshold) ==> (|named| >= b.threshold <==> voters <= named))
  {
    hide KeyOf, VotersSince, NamedSince, SameThreshold, Joined;
    var b := run[|run| - 1];
    var voters, named := VotersSince(run, KeyOf(b), i), NamedSince(run, KeyOf(b), i, uid);
    PassesIff(run, i);
    NamedAreVoters(run, KeyOf(b), i, uid);
    SubsetFits(named, voters);
    assert voters <= named ==> voters == named;
    assert |voters| >= b.threshold;
    if SameThreshold(run, KeyOf(b), i, b.threshold) {
      PassedExactly(run, i);
    }
  }

  /** In particular when the nick was that user's at every vote since the tally began. */
  lemma SameHolderIsMeant(run: seq<Ballot>, i: nat, uid: string)
    requires run != [] && InRange(run) && Counts(run[|run| - 1]) && i == Joined(run[..|run| - 1], run[|run| - 1])
    requires LastVerdict(run).Passed? && LastVerdict(run).target == uid
    requires forall j :: i <= j < |run| && CountsFor(run[j], KeyOf(run[|run| - 1])) ==> run[j].target == Some(uid)
    ensures |NamedSince(run, KeyOf(run[|run| - 1]), i, uid)| >= run[|run| - 1].threshold
  {
    hide KeyOf, CountsFor, Joined;
    var k := KeyOf(run[|run| - 1]);
    forall v | v in VotersSince(run, k, i) ensures v in NamedSince(run, k, i, uid) {
      var j :| i <= j < |run| && CountsFor(run[j], k) && run[j].voter == v;
    }
    PassedIsMeantIff(run, i, uid);
  }

  /** A second vote since the tally began never carries it, and changes neither when it
      began nor who has voted. */
  lemma SecondVoteIsIdle(run: seq<Ballot>, b: Ballot)
    requires InRange(run + [b]) && Counts(b) && b.voter in VotersSince(run, KeyOf(b), Joined(run, b))
    ensures LastVerdict(run + [b]) == PassThrough
    ensures Current(run + [b], KeyOf(b)) == Some(Joined(run, b)) == Current(run, KeyOf(b))
    ensures VotersSince(run + [b], KeyOf(b), Joined(run, b)) == VotersSince(run, KeyOf(b), Joined(run, b))
  {
    assert (run + [b])[..|run|] == run;
    PassesIff(run + [b], Joined(run, b));
    CurrentSnoc(run, b, KeyOf(b));
    VotersGrow(run, b, KeyOf(b), Joined(run, b));
    assert VotersSince(run, KeyOf(b), |run|) == {};
  }

  /** Tallies go by nick: a vote against whoever held it before counts against the
      present holder. */
  lemma VotesFollowTheNick(a: Ballot, b: Ballot)
    requires Counts(a) && Counts(b) && KeyOf(a) == KeyOf(b) && a.now == b.now
    requires a.threshold == b.threshold == 2 && a.voter != b.voter && a.target != b.target
    ensures LastVerdict([a, b]) == Passed(b.target.value, b.ban, 2)
  {
    assert [a, b][..1] == [a] && [a][..0] == [];
    assert Cast(map[], a).0[KeyOf(a)] == Tally(a.ban, {a.voter}, a.now) by {
      assert {} + {a.voter} == {a.voter};
    }
    assert TableAfter([a]) == Cast(map[], a).0;
    assert |{a.voter} + {b.voter}| == 2;
  }

  class Ballots {
    var votes: Table

    constructor ()
      ensures votes == TableAfter([])
    {
      votes := map[];
    }

    /** `handle_vote`, after the command was recognised. */
    method HandleVote(b: Ballot) returns (v: Verdict)
      modifies this
      ensures (votes, v) == Cast(old(votes), b)
    {
      ghost var t := votes;
      v := PassThrough;
      if b.threshold > 0 && b.bot.Some? && b.target.Some? && b.isMember {
        if b.guarded {
          v := Refused;
        } else {
          votes := Swept(votes, b.now);
          var k := KeyOf(b);
          if k !in votes {
            votes := votes[k := Tally(b.ban, {}, b.now)];
          }
          votes := votes[k := votes[k].(ban := b.ban)];
          ghost var swept, tally := Swept(t, b.now), Open(t, b);
          assert votes == swept[k := tally];
          if b.voter !in votes[k].voters {
            votes := votes[k := votes[k].(voters := votes[k].voters + {b.voter})];
            assert votes == swept[k := tally.(voters := tally.voters + {b.voter})];
            var count := |votes[k].voters| % U16;
            if count < b.threshold {
              v := Announced(count);
            } else {
              votes := votes - {k};
              assert votes == swept - {k};
              v := Passed(b.target.value, b.ban, count);
            }
          }
        }
      }
    }
  }
}
