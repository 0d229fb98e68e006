/** ChanFix: op-time scores per channel and identity, sampled from who holds op now. */
module Chanfix {
  import opened Text
  import opened Iteration

  const MAX := 5000
  const BUMP := 2

  /** Channel (lower case) -> identity -> score. */
  type Table = map<string, map<string, nat>>

  /** What a pass reads: who is opped where, logged-in accounts and displayed hosts, by uid. */
  datatype Live = Live(ops: map<string, set<string>>, accounts: map<string, string>, hosts: map<string, string>)

  /** The account, else the host; nothing for a uid the view does not know. */
  function Identity(v: Live, uid: string): Option<string> {
    if uid in v.accounts then Some(v.accounts[uid])
    else if uid in v.hosts then Some(v.hosts[uid])
    else None
  }

  /** The sessions known by `id`: logged in to that account, or, logged in to none, shown
      with that host. */
  function Sharing(v: Live, uids: set<string>, id: string): set<string> {
    set u | u in uids && if u in v.accounts then v.accounts[u] == id else u in v.hosts && v.hosts[u] == id
  }

  lemma SharingIdentity(v: Live, uids: set<string>, id: string)
    ensures Sharing(v, uids, id) == set u | u in uids && Identity(v, u) == Some(id)
  {
  }

  /** How many sessions of `id` hold op in `chan`. */
  function Opped(v: Live, chan: string, id: string): nat {
    if chan in v.ops then |Sharing(v, v.ops[chan], id)| else 0
  }

  function Score(t: Table, chan: string, id: string): nat {
    if chan in t && id in t[chan] then t[chan][id] else 0
  }

  function Capped(n: nat): nat {
    if n < MAX then n else MAX
  }

  function Less(n: nat): nat {
    if n == 0 then 0 else n - 1
  }

  /** One pass over one score, `k` sessions of the identity being opped. */
  function Next(s: nat, k: nat): nat {
    var n := (if s == 0 then 0 else s - 1) + 2 * k;
    if n < 5000 then n else 5000
  }

  /** Scores are 1 to 5000, and no channel is kept without one. */
  ghost predicate Valid(t: Table) {
    forall c :: c in t ==> t[c] != map[] && forall id :: id in t[c] ==> 1 <= t[c][id] <= 5000
  }

  /** The scores alone determine a stored table. */
  lemma ScoresDetermine(t: Table, u: Table)
    requires Valid(t) && Valid(u) && forall c, id :: Score(t, c, id) == Score(u, c, id)
    ensures t == u
  {
    forall c | c in t ensures c in u && t[c] == u[c] {
      SameChannel(t, u, c);
    }
    forall c | c in u ensures c in t {
      SameChannel(u, t, c);
    }
  }

  lemma SameChannel(t: Table, u: Table, c: string)
    requires Valid(t) && Valid(u) && (forall d, id :: Score(t, d, id) == Score(u, d, id)) && c in t
    ensures c in u && t[c] == u[c]
  {
    forall id | id in t[c] ensures c in u && id in u[c] && u[c][id] == t[c][id] {
      assert Score(t, c, id) == Score(u, c, id);
    }
    assert t[c] != map[];
    var some :| some in t[c];
    forall id | id in u[c] ensures id in t[c] {
      assert Score(t, c, id) == Score(u, c, id);
    }
  }

  /** One pass over the view: every score moves by its own opped sessions. */
  ghost predicate Passed(t: Table, v: Live, t': Table) {
    Valid(t') && forall c, id :: Score(t', c, id) == Next(Score(t, c, id), Opped(v, c, id))
  }

  // ----- The pass ---------------------------------------------------------------------------

  ghost predicate Bounded(t: Table) {
    forall c, id :: Score(t, c, id) <= MAX
  }

  /** One sample: the identity's score in the channel, created at zero if need be. */
  function Bumped(t: Table, chan: string, id: string): Table {
    var scores := if chan in t then t[chan] else map[];
    var s := if id in scores then scores[id] else 0;
    t[chan := scores[id := Capped(s + BUMP)]]
  }

  lemma BumpedScore(t: Table, chan: string, id: string, c: string, i: string)
    ensures Score(Bumped(t, chan, id), c, i) ==
            if c == chan && i == id then Capped(Score(t, c, i) + BUMP) else Score(t, c, i)
  {
  }

  /** Every entry but those at zero, and every channel that still has one. */
  function Kept(scores: map<string, nat>): map<string, nat> {
    map id | id in scores && scores[id] > 0 :: scores[id]
  }

  function Pruned(t: Table): Table {
    map c | c in t && Kept(t[c]) != map[] :: Kept(t[c])
  }

  lemma PrunedScore(t: Table, c: string, id: string)
    ensures Score(Pruned(t), c, id) == Score(t, c, id)
  {
    if c in t && id in t[c] && t[c][id] > 0 {
      assert id in Kept(t[c]);
    }
  }

  lemma PrunedIsValid(t: Table)
    requires Bounded(t)
    ensures Valid(Pruned(t))
  {
    var p := Pruned(t);
    forall c, id | c in p && id in p[c] ensures 1 <= p[c][id] <= MAX {
      assert Score(t, c, id) == p[c][id];
    }
  }

  function Decayed(t: Table): Table {
    map c | c in t :: DecayedScores(t[c])
  }

  function DecayedScores(scores: map<string, nat>): map<string, nat> {
    map id | id in scores :: Less(scores[id])
  }

  class ChanfixTable {
    var chanfix: Table

    constructor ()
      ensures Valid(chanfix) && chanfix == map[]
    {
      chanfix := map[];
    }

    /** Every score loses a point, none below zero. */
    method Decay()
      modifies this
      ensures chanfix == Decayed(old(chanfix))
    {
      ghost var t0 := chanfix;
      var chans := Enumerate(chanfix.Keys);
      for i := 0 to |chans|
        invariant chanfix.Keys == t0.Keys
        invariant forall j :: 0 <= j < i ==> chans[j] in t0 && chanfix[chans[j]] == DecayedScores(t0[chans[j]])
        invariant forall j :: i <= j < |chans| ==> chans[j] in t0 && chanfix[chans[j]] == t0[chans[j]]
      {
        var scores := DecayChannel(chanfix[chans[i]]);
        chanfix := chanfix[chans[i] := scores];
      }
      EachElement(chans, t0.Keys);
    }

    static method DecayChannel(was: map<string, nat>) returns (scores: map<string, nat>)
      ensures scores == DecayedScores(was)
    {
      scores := was;
      var ids := Enumerate(scores.Keys);
      for n := 0 to |ids|
        invariant scores.Keys == was.Keys
        invariant forall m :: 0 <= m < n ==> ids[m] in was && scores[ids[m]] == Less(was[ids[m]])
        invariant forall m :: n <= m < |ids| ==> ids[m] in was && scores[ids[m]] == was[ids[m]]
      {
        scores := scores[ids[n] := Less(scores[ids[n]])];
      }
      EachElement(ids, was.Keys);
    }

    /** One sample for every session that is opped somewhere and can be identified. */
    static method TakeSamples(v: Live) returns (samples: seq<(string, string)>)
      ensures forall c, id :: multiset(samples)[(c, id)] == Opped(v, c, id)
    {
      samples := [];
      var chans := Enumerate(v.ops.Keys);
      for i := 0 to |chans|
        invariant forall c, id :: multiset(samples)[(c, id)] == if c in chans[..i] then Opped(v, c, id) else 0
      {
        assert chans[..i + 1] == chans[..i] + [chans[i]];
        assert chans[i] in Elements(chans);
        var uids := Enumerate(v.ops[chans[i]]);
        var more := SampleChannel(v, chans[i], uids);
        assert chans[i] !in chans[..i];
        MultisetConcat(samples, more);
        samples := samples + more;
      }
      assert chans[..|chans|] == chans;
      assert forall c :: c in chans <==> c in Elements(chans);
    }

    static method SampleChannel(v: Live, chan: string, uids: seq<string>) returns (samples: seq<(string, string)>)
      requires Distinct(uids)
      ensures forall c, id :: multiset(samples)[(c, id)] == if c == chan then |Sharing(v, Elements(uids), id)| else 0
    {
      samples := [];
      for i := 0 to |uids|
        invariant forall c, id :: multiset(samples)[(c, id)] == if c == chan then |Sharing(v, Elements(uids[..i]),
                id)| else 0
      {
        SharingOneMore(v, uids, i);
        var id := Identity(v, uids[i]);
        if id.Some? {
          MultisetConcat(samples, [(chan, id.value)]);
          samples := samples + [(chan, id.value)];
        }
      }
      assert uids[..|uids|] == uids;
    }

    /** Credit every sample, in the order given. */
    method Credit(samples: seq<(string, string)>)
      requires Bounded(chanfix)
      modifies this
      ensures Credited(old(chanfix), chanfix, samples)
    {
      hide Bumped, Credited;
      ghost var t := chanfix;
      NothingCredited(t);
      for i := 0 to |samples|
        invariant Credited(t, chanfix, samples[..i])
      {
        CreditOne(t, chanfix, samples, i);
        chanfix := Bumped(chanfix, samples[i].0, samples[i].1);
      }
      assert samples[..|samples|] == samples;
    }

    /** One sampling pass. */
    method Sample(v: Live)
      requires Valid(chanfix)
      modifies this
      ensures Passed(old(chanfix), v, chanfix)
    {
      hide Opped, Score, Decayed, Pruned, Valid;
      Decay();
      DecayedScore(old(chanfix));
      var samples := TakeSamples(v);
      Credit(samples);
      PrunedScores(chanfix);
      PrunedIsValid(chanfix);
      chanfix := Pruned(chanfix);
    }
  }

  /** Every score moved by its samples, and no further than the cap. */
  ghost predicate Credited(t: Table, t': Table, samples: seq<(string, string)>) {
    forall c, id :: Score(t', c, id) == Capped(Score(t, c, id) + BUMP * multiset(samples)[(c, id)])
  }

  lemma NothingCredited(t: Table)
    requires Bounded(t)
    ensures Credited(t, t, [])
  {
    forall c, id ensures Score(t, c, id) == Capped(Score(t, c, id)) {
      assert Score(t, c, id) <= MAX;
    }
  }

  lemma CreditOne(t: Table, t': Table, samples: seq<(string, string)>, i: nat)
    requires i < |samples| && Credited(t, t', samples[..i])
    ensures Credited(t, Bumped(t', samples[i].0, samples[i].1), samples[..i + 1])
  {
    hide Score, Bumped;
    var (chan, id) := samples[i];
    assert samples[..i + 1] == samples[..i] + [samples[i]];
    MultisetConcat(samples[..i], [samples[i]]);
    forall c, j
      ensures Score(Bumped(t', chan, id), c, j) == Capped(Score(t, c, j) + BUMP * multiset(samples[..i + 1])[(c, j)])
    {
      BumpedScore(t', chan, id, c, j);
    }
  }

  lemma PrunedScores(t: Table)
    ensures forall c, id :: Score(Pruned(t), c, id) == Score(t, c, id)
  {
    forall c, id ensures Score(Pruned(t), c, id) == Score(t, c, id) {
      PrunedScore(t, c, id);
    }
  }

  lemma EachElement(xs: seq<string>, s: set<string>)
    requires Elements(xs) == s
    ensures forall x :: x in s ==> exists i :: 0 <= i < |xs| && xs[i] == x
  {
    assert forall x :: x in s ==> x in Elements(xs);
  }

  lemma MultisetConcat<X>(a: seq<X>, b: seq<X>)
    ensures multiset(a + b) == multiset(a) + multiset(b)
  {
  }

  lemma SharingOneMore(v: Live, uids: seq<string>, i: nat)
    requires Distinct(uids) && i < |uids|
    ensures forall id :: |Sharing(v, Elements(uids[..i + 1]), id)|
                         == |Sharing(v, Elements(uids[..i]), id)| + if Identity(v, uids[i]) == Some(id) then 1 else 0
  {
    hide Identity;
    forall id ensures |Sharing(v, Elements(uids[..i + 1]), id)|
                      == |Sharing(v, Elements(uids[..i]), id)| + if Identity(v, uids[i]) == Some(id) then 1 else 0
    {
      SharingIdentity(v, Elements(uids[..i]), id);
      SharingIdentity(v, Elements(uids[..i + 1]), id);
      var before, after := Sharing(v, Elements(uids[..i]), id), Sharing(v, Elements(uids[..i + 1]), id);
      assert uids[..i + 1] == uids[..i] + [uids[i]];
      assert after == if Identity(v, uids[i]) == Some(id) then before + {uids[i]} else before;
      assert uids[i] !in before;
    }
  }

  lemma DecayedScore(t: Table)
    requires Valid(t)
    ensures forall c, id :: Score(Decayed(t), c, id) == Less(Score(t, c, id))
    ensures Bounded(Decayed(t))
  {
  }

  /** A pass depends on nothing but the scores before and who is opped: two passes that
      sampled in different orders store the same table. */
  lemma PassIsDetermined(t: Table, v: Live, a: Table, b: Table)
    requires Passed(t, v, a) && Passed(t, v, b)
    ensures a == b
  {
    ScoresDetermine(a, b);
  }

  // ----- Many passes ---------------------------------------------------------------------

  /** The tables `ts`, each a pass over the next view after the one before. */
  ghost predicate Passes(ts: seq<Table>, vs: seq<Live>) {
    && |ts| == |vs| + 1 && Valid(ts[0])
    && forall i :: 0 <= i < |vs| ==> Passed(ts[i], vs[i], ts[i + 1])
  }

  /** What is left of a score after `n` passes without op. */
  function Faded(s: nat, n: nat): nat {
    if s > n then s - n else 0
  }

  /** All but the last pass. */
  lemma PassesFront(ts: seq<Table>, vs: seq<Live>)
    requires Passes(ts, vs) && vs != []
    ensures Passes(ts[..|vs|], vs[..|vs| - 1]) && Passed(ts[|vs| - 1], vs[|vs| - 1], ts[|vs|])
  {
  }

  lemma ScoreIsBounded(t: Table, c: string, id: string)
    requires Valid(t)
    ensures Score(t, c, id) <= MAX
  {
  }

  /** After any passes the scores stored are within 1 to 5000. */
  lemma {:induction false} ScoresStayValid(ts: seq<Table>, vs: seq<Live>)
    requires Passes(ts, vs)
    ensures Valid(ts[|vs|])
  {
    if vs != [] {
      PassesFront(ts, vs);
    }
  }

  /** An identity that is opped at no pass loses a point each time until it is forgotten. */
  lemma {:induction false} IdleFades(ts: seq<Table>, vs: seq<Live>, c: string, id: string)
    requires Passes(ts, vs) && forall i :: 0 <= i < |vs| ==> Opped(vs[i], c, id) == 0
    ensures Score(ts[|vs|], c, id) == Faded(Score(ts[0], c, id), |vs|)
    decreases |vs|
  {
    hide Opped, Score, Valid;
    ScoreIsBounded(ts[0], c, id);
    if vs != [] {
      PassesFront(ts, vs);
      IdleFades(ts[..|vs|], vs[..|vs| - 1], c, id);
    }
  }

  /** An identity opped at every pass gains at least a point each time, up to the cap. */
  lemma {:induction false} RegularRises(ts: seq<Table>, vs: seq<Live>, c: string, id: string)
    requires Passes(ts, vs) && forall i :: 0 <= i < |vs| ==> Opped(vs[i], c, id) >= 1
    ensures var s := Score(ts[0], c, id) + |vs|; Score(ts[|vs|], c, id) >= if s < 5000 then s else 5000
    decreases |vs|
  {
    hide Opped, Score, Valid;
    ScoreIsBounded(ts[0], c, id);
    if vs != [] {
      PassesFront(ts, vs);
      RegularRises(ts[..|vs|], vs[..|vs| - 1], c, id);
      assert Opped(vs[|vs| - 1], c, id) >= 1;
    }
  }

  /** Opped sessions of the identity seen over all passes. */
  function Seen(vs: seq<Live>, c: string, id: string): nat {
    if vs == [] then 0 else Seen(vs[..|vs| - 1], c, id) + Opped(vs[|vs| - 1], c, id)
  }

  /** No history of passes gains more than two points for each of them. */
  lemma {:induction false} GainIsBounded(ts: seq<Table>, vs: seq<Live>, c: string, id: string)
    requires Passes(ts, vs)
    ensures Score(ts[|vs|], c, id) <= Score(ts[0], c, id) + 2 * Seen(vs, c, id)
    decreases |vs|
  {
    hide Opped, Score, Valid;
    if vs != [] {
      PassesFront(ts, vs);
      GainIsBounded(ts[..|vs|], vs[..|vs| - 1], c, id);
    }
  }
}
