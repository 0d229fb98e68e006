/** The searchable incident log: a bounded ring of numbered records. */
module Incidents {
  import opened Numerals

  const CAP := 10000

  datatype Incident = Incident(id: string, ts: nat, summary: string)

  /** What gets recorded: when, and the summary. */
  datatype Note = Note(ts: nat, summary: string)

  datatype Log = Log(seqNo: nat, ring: seq<Incident>)

  const FRESH := Log(0, [])

  function LastOf<X>(xs: seq<X>, n: nat): seq<X> {
    if |xs| <= n then xs else xs[|xs| - n..]
  }

  function Entry(l: Log, note: Note): Incident {
    Incident(Numeral(l.seqNo, 36), note.ts, note.summary)
  }

  /** Recording: append under the next id, then drop from the front down to the cap. */
  function Record(l: Log, note: Note): Log {
    Log(l.seqNo + 1, LastOf(l.ring + [Entry(l, note)], CAP))
  }

  function RecordAll(l: Log, notes: seq<Note>): Log {
    if notes == [] then l else Record(RecordAll(l, notes[..|notes| - 1]), notes[|notes| - 1])
  }

  /** The incidents a history makes when counting starts at `first`. */
  function Numbered(notes: seq<Note>, first: nat): seq<Incident> {
    seq(|notes|, i requires 0 <= i < |notes| => Incident(Numeral(first + i, 36), notes[i].ts, notes[i].summary))
  }

  lemma DropThenAppend<X>(xs: seq<X>, x: X, n: nat)
    requires n > 0
    ensures LastOf(LastOf(xs, n) + [x], n) == LastOf(xs + [x], n)
  {
  }

  lemma NumberedSnoc(notes: seq<Note>, first: nat)
    requires notes != []
    ensures var last := notes[|notes| - 1];
            Numbered(notes, first) == Numbered(notes[..|notes| - 1], first)
                                      + [Incident(Numeral(first + |notes| - 1, 36), last.ts, last.summary)]
  {
    hide Numeral;
  }

  /** After any history the ring is the last min(n, 10000) incidents, those it started
      with included, and the counter has moved once for each. */
  lemma {:induction false} RingIsTheRecentPast(l: Log, notes: seq<Note>)
    requires |l.ring| <= 10000
    ensures RecordAll(l, notes) == Log(l.seqNo + |notes|, LastOf(l.ring + Numbered(notes, l.seqNo), 10000))
  {
    hide LastOf, Numeral, Numbered;
    if notes == [] {
      NothingNumbered(l);
    } else {
      var front, last := notes[..|notes| - 1], notes[|notes| - 1];
      RingIsTheRecentPast(l, front);
      NumberedSnoc(notes, l.seqNo);
      var all, next := l.ring + Numbered(front, l.seqNo), Incident(Numeral(l.seqNo + |front|, 36), last.ts, last.summary);
      assert l.ring + (Numbered(front, l.seqNo) + [next]) == all + [next];
      DropThenAppend(all, next, CAP);
    }
  }

  lemma NothingNumbered(l: Log)
    requires |l.ring| <= 10000
    ensures LastOf(l.ring + Numbered([], l.seqNo), 10000) == l.ring
  {
    assert l.ring + Numbered([], l.seqNo) == l.ring;
  }

  /** The ring holds the latest ids, in order. */
  ghost predicate WellNumbered(l: Log) {
    |l.ring| <= l.seqNo && forall i :: 0 <= i < |l.ring| ==> l.ring[i].id == Numeral(l.seqNo - |l.ring| + i, 36)
  }

  lemma RecordStaysWellNumbered(l: Log, note: Note)
    requires WellNumbered(l)
    ensures WellNumbered(Record(l, note))
  {
    hide Numeral;
    var all := l.ring + [Entry(l, note)];
    var l' := Record(l, note);
    forall i | 0 <= i < |l'.ring| ensures l'.ring[i].id == Numeral(l'.seqNo - |l'.ring| + i, 36) {
      assert l'.ring[i] == all[|all| - |l'.ring| + i];
    }
  }

  /** The ids in the ring are pairwise distinct after any history, from a fresh log or
      from one restored with its own counter. */
  lemma {:induction false} IdsAreDistinct(l: Log, notes: seq<Note>)
    requires WellNumbered(l)
    ensures WellNumbered(RecordAll(l, notes))
    ensures var ring := RecordAll(l, notes).ring; forall i, j :: 0 <= i < j < |ring| ==> ring[i].id != ring[j].id
  {
    hide Record, Numeral;
    if notes != [] {
      IdsAreDistinct(l, notes[..|notes| - 1]);
      RecordStaysWellNumbered(RecordAll(l, notes[..|notes| - 1]), notes[|notes| - 1]);
    }
    var l' := RecordAll(l, notes);
    forall i, j | 0 <= i < j < |l'.ring| ensures l'.ring[i].id != l'.ring[j].id {
      if l'.ring[i].id == l'.ring[j].id {
        NumeralInjective(l'.seqNo - |l'.ring| + i, l'.seqNo - |l'.ring| + j, 36);
      }
    }
  }

  /** `incident_code`: digits come out least significant first and are then reversed. */
  method IncidentCode(seqNo: nat) returns (code: string)
    ensures code == Numeral(seqNo, 36)
  {
    if seqNo == 0 {
      return "0";
    }
    var n := seqNo;
    var out: string := [];
    while n > 0
      invariant Numeral(seqNo, 36) == Pending(n) + Reversed(out)
    {
      ReversedSnoc(out, Digit(n % 36));
      PendingStep(n, Reversed(out));
      out := out + [Digit(n % 36)];
      n := n / 36;
    }
    code := Reverse(out);
  }

  /** The digits still to come out. */
  function Pending(n: nat): string {
    if n == 0 then [] else Numeral(n, 36)
  }

  lemma PendingStep(n: nat, tail: string)
    requires n > 0
    ensures Pending(n) + tail == Pending(n / 36) + ([Digit(n % 36)] + tail)
  {
    if n >= 36 {
      assert Numeral(n, 36) == Numeral(n / 36, 36) + [Digit(n % 36)];
    }
  }

  function Reversed(s: string): string {
    if s == [] then [] else Reversed(s[1..]) + [s[0]]
  }

  lemma {:induction false} ReversedSnoc(s: string, c: char)
    ensures Reversed(s + [c]) == [c] + Reversed(s)
  {
    if s == [] {
      assert s + [c] == [c];
    } else {
      assert (s + [c])[1..] == s[1..] + [c];
      ReversedSnoc(s[1..], c);
    }
  }

  method Reverse(s: string) returns (r: string)
    ensures r == Reversed(s)
  {
    r := [];
    var i := |s|;
    assert s[..i] == s;
    while i > 0
      invariant 0 <= i <= |s| && Reversed(s) == r + Reversed(s[..i])
    {
      ReversedSnoc(s[..i - 1], s[i - 1]);
      assert s[..i] == s[..i - 1] + [s[i - 1]];
      i := i - 1;
      r := r + [s[i]];
    }
    assert s[..0] == [];
  }

  class IncidentLog {
    var incidents: seq<Incident>
    var incidentSeq: nat

    ghost function L(): Log
      reads this
    {
      Log(incidentSeq, incidents)
    }

    constructor ()
      ensures L() == FRESH
    {
      incidents, incidentSeq := [], 0;
    }

    /** Record an action and return its id. */
    method RecordIncident(summary: string, now: nat) returns (id: string)
      modifies this
      ensures L() == Record(old(L()), Note(now, summary))
      ensures id == Numeral(old(incidentSeq), 36)
    {
      hide Numeral;
      id := IncidentCode(incidentSeq);
      incidentSeq := incidentSeq + 1;
      incidents := incidents + [Incident(id, now, summary)];
      ghost var grown := incidents;
      while |incidents| > CAP
        invariant incidentSeq == old(incidentSeq) + 1
        invariant |grown| >= |incidents| && incidents == grown[|grown| - |incidents|..]
        invariant |incidents| >= CAP || incidents == grown
      {
        incidents := incidents[1..];
      }
    }

    method Snapshot() returns (data: (nat, seq<(string, nat, string)>))
      ensures data.0 == incidentSeq && |data.1| == |incidents|
      ensures forall i :: 0 <= i < |incidents| ==> data.1[i] == (incidents[i].id, incidents[i].ts, incidents[i].summary)
    {
      var rows := seq(|incidents|, i requires 0 <= i < |incidents| reads this => (incidents[i].id, incidents[i].ts,
          incidents[i].summary));
      data := (incidentSeq, rows);
    }

    method Seed(data: (nat, seq<(string, nat, string)>))
      modifies this
      ensures incidentSeq == data.0 && |incidents| == |data.1|
      ensures forall i :: 0 <= i < |incidents| ==> incidents[i] == Incident(data.1[i].0, data.1[i].1, data.1[i].2)
    {
      incidentSeq := data.0;
      incidents := seq(|data.1|, i requires 0 <= i < |data.1| => Incident(data.1[i].0, data.1[i].1, data.1[i].2));
    }
  }

  /** A log seeded from another's snapshot holds the same ring and the same next id. */
  method SaveAndRestore(was: IncidentLog, now: IncidentLog)
    requires was != now
    modifies now
    ensures now.L() == was.L() == old(was.L())
  {
    var data := was.Snapshot();
    now.Seed(data);
    assert now.incidents == was.incidents;
  }
}
