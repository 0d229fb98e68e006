/** The DNS resolver's wire format: query building, reading names through
    compression pointers (section 4.1.4 of RFC 1035) and walking the answers. */
module Dns {
  import opened Text

  type byte = x: int | 0 <= x < 256
  type Bytes = seq<byte>
  type Label = Bytes

  const MAX_JUMPS: nat := 16
  const DOT: byte := 0x2E
  const CLASS_IN: nat := 1

  // ----- What a name is ------------------------------------------------------

  function Target(hi: byte, lo: byte): nat
    requires hi >= 0xC0
  {
    (hi - 0xC0) * 256 + lo
  }

  /** The labels of the name at `pos`, following at most `hops` pointers. */
  function NameAt(msg: Bytes, pos: nat, hops: nat): Option<seq<Label>>
    decreases hops, if pos <= |msg| then |msg| - pos else 0
  {
    if pos >= |msg| then None
    else
      var len := msg[pos];
      if len >= 0xC0 then
        if pos + 1 >= |msg| || hops == 0 then None
        else NameAt(msg, Target(len, msg[pos + 1]), hops - 1)
      else if len == 0 then Some([])
      else if pos + 1 + len > |msg| then None
      else Prefixed([msg[pos + 1..pos + 1 + len]], NameAt(msg, pos + 1 + len, hops))
  }

  function Prefixed(done: seq<Label>, rest: Option<seq<Label>>): Option<seq<Label>> {
    match rest
    case None => None
    case Some(labels) => Some(done + labels)
  }

  /** Where the record continues after the name at `pos`: past the root octet, or
      past the first pointer. */
  function EndAt(msg: Bytes, pos: nat): nat
    decreases if pos <= |msg| then |msg| - pos else 0
  {
    if pos >= |msg| then pos
    else if msg[pos] >= 0xC0 then pos + 2
    else if msg[pos] == 0 then pos + 1
    else EndAt(msg, pos + 1 + msg[pos])
  }

  lemma {:induction false} EndIsLater(msg: Bytes, pos: nat, hops: nat)
    requires NameAt(msg, pos, hops).Some?
    ensures pos < EndAt(msg, pos) <= |msg|
    decreases if pos <= |msg| then |msg| - pos else 0
  {
    if 0 < msg[pos] < 0xC0 {
      EndIsLater(msg, pos + 1 + msg[pos], hops);
    }
  }

  /** More hops never change a name that was found. */
  lemma {:induction false} MoreHops(msg: Bytes, pos: nat, hops: nat, more: nat)
    requires NameAt(msg, pos, hops).Some? && hops <= more
    ensures NameAt(msg, pos, more) == NameAt(msg, pos, hops)
    decreases hops, if pos <= |msg| then |msg| - pos else 0
  {
    var len := msg[pos];
    if len >= 0xC0 {
      MoreHops(msg, Target(len, msg[pos + 1]), hops - 1, more - 1);
    } else if len > 0 {
      MoreHops(msg, pos + 1 + len, hops, more);
    }
  }

  /** The name of section 4.1.4 of RFC 1035, where a length octet of 64 to 191 is
      reserved and no name. */
  function RfcNameAt(msg: Bytes, pos: nat, hops: nat): Option<seq<Label>>
    decreases hops, if pos <= |msg| then |msg| - pos else 0
  {
    if pos >= |msg| then None
    else
      var len := msg[pos];
      if len >= 0xC0 then
        if pos + 1 >= |msg| || hops == 0 then None
        else RfcNameAt(msg, Target(len, msg[pos + 1]), hops - 1)
      else if len == 0 then Some([])
      else if len > 63 || pos + 1 + len > |msg| then None
      else Prefixed([msg[pos + 1..pos + 1 + len]], RfcNameAt(msg, pos + 1 + len, hops))
  }

  ghost predicate ShortLabels(labels: seq<Label>) {
    forall l <- labels :: 1 <= |l| <= 63
  }

  /** The walk from `pos`, with at most `hops` pointers, comes upon a length octet of 64
      to 191. */
  predicate MeetsReserved(msg: Bytes, pos: nat, hops: nat)
    decreases hops, if pos <= |msg| then |msg| - pos else 0
  {
    pos < |msg|
    && var len := msg[pos];
       if len >= 0xC0 then pos + 1 < |msg| && hops > 0 && MeetsReserved(msg, Target(len, msg[pos + 1]), hops - 1)
       else len > 63 || (len > 0 && pos + 1 + len <= |msg| && MeetsReserved(msg, pos + 1 + len, hops))
  }

  /** The reader's names are the RFC's names exactly where no reserved length octet is met:
      there the RFC has no name, whatever the reader makes of it. */
  lemma {:induction false} RfcNameIff(msg: Bytes, pos: nat, hops: nat)
    ensures RfcNameAt(msg, pos, hops) == if MeetsReserved(msg, pos, hops) then None else NameAt(msg, pos, hops)
    ensures RfcNameAt(msg, pos, hops) == NameAt(msg, pos, hops)
            <==> !(MeetsReserved(msg, pos, hops) && NameAt(msg, pos, hops).Some?)
    decreases hops, if pos <= |msg| then |msg| - pos else 0
  {
    if pos < |msg| {
      var len := msg[pos];
      if len >= 0xC0 {
        if pos + 1 < |msg| && hops > 0 {
          RfcNameIff(msg, Target(len, msg[pos + 1]), hops - 1);
        }
      } else if 0 < len <= 63 && pos + 1 + len <= |msg| {
        RfcNameIff(msg, pos + 1 + len, hops);
      }
    }
  }

  /** Seen from the name that was read: one of its labels is longer than 63 octets. */
  lemma {:induction false} ReservedIsLong(msg: Bytes, pos: nat, hops: nat)
    requires NameAt(msg, pos, hops).Some?
    ensures MeetsReserved(msg, pos, hops) <==> !ShortLabels(NameAt(msg, pos, hops).value)
    decreases hops, if pos <= |msg| then |msg| - pos else 0
  {
    var len := msg[pos];
    if len >= 0xC0 {
      ReservedIsLong(msg, Target(len, msg[pos + 1]), hops - 1);
    } else if len > 0 {
      ReservedIsLong(msg, pos + 1 + len, hops);
      var piece, rest := msg[pos + 1..pos + 1 + len], NameAt(msg, pos + 1 + len, hops).value;
      assert ([piece] + rest)[0] == piece;
      assert forall l :: l in [piece] + rest <==> l == piece || l in rest;
    }
  }

  /** So the RFC's name is the reader's wherever all its labels are short, and nowhere else. */
  lemma RfcNamesAreShort(msg: Bytes, pos: nat, hops: nat)
    ensures RfcNameAt(msg, pos, hops) ==
            var name := NameAt(msg, pos, hops);
            if name.Some? && ShortLabels(name.value) then name else None
  {
    RfcNameIff(msg, pos, hops);
    if NameAt(msg, pos, hops).Some? {
      ReservedIsLong(msg, pos, hops);
    }
  }

  /** A label of 64 octets behind a reserved length octet is read as a name. */
  lemma ReservedOctetIsRead(l: Label, hops: nat)
    requires |l| == 64
    ensures var msg := [64] + l + [0];
            NameAt(msg, 0, hops) == Some([l]) && RfcNameAt(msg, 0, hops) == None
  {
    var msg := [64] + l + [0];
    assert msg[1..65] == l && msg[65] == 0;
    assert NameAt(msg, 65, hops) == Some([]);
    assert [l] + [] == [l];
    RfcNamesAreShort(msg, 0, hops);
    assert [l][0] == l;
  }

  // ----- Dotted text -----------------------------------------------------------

  /** How raw label bytes become text; the replacement of invalid UTF-8 is a parameter. */
  type Lossy = Label -> Bytes

  function Dotted(labels: seq<Label>, lossy: Lossy): Bytes {
    if labels == [] then []
    else
      var front := Dotted(labels[..|labels| - 1], lossy);
      (if front == [] then [] else front + [DOT]) + lossy(labels[|labels| - 1])
  }

  lemma DottedSnoc(labels: seq<Label>, piece: Label, lossy: Lossy)
    ensures Dotted(labels + [piece], lossy) ==
            var front := Dotted(labels, lossy); (if front == [] then [] else front + [DOT]) + lossy(piece)
  {
    assert (labels + [piece])[..|labels + [piece]| - 1] == labels;
  }

  // ----- Reading a name ----------------------------------------------------------

  function Get(msg: Bytes, i: nat): Option<byte> {
    if i < |msg| then Some(msg[i]) else None
  }

  /** What `ReadName` returns: text and end of the name, within 16 hops. */
  function NameText(msg: Bytes, pos: nat, lossy: Lossy): Option<(Bytes, nat)> {
    match NameAt(msg, pos, MAX_JUMPS)
    case None => None
    case Some(labels) => Some((Dotted(labels, lossy), EndAt(msg, pos)))
  }

  /** The loop's position stands for the whole name still to be read. */
  ghost predicate Reading(msg: Bytes, start: nat, pos: nat, jumps: nat, endAfter: Option<nat>, done: seq<Label>) {
    && jumps <= MAX_JUMPS
    && NameAt(msg, start, MAX_JUMPS) == Prefixed(done, NameAt(msg, pos, MAX_JUMPS - jumps))
    && EndAt(msg, start) == (if endAfter.Some? then endAfter.value else EndAt(msg, pos))
  }

  lemma ReadingLabel(msg: Bytes, start: nat, pos: nat, jumps: nat, endAfter: Option<nat>, done: seq<Label>)
    requires Reading(msg, start, pos, jumps, endAfter, done)
    requires pos < |msg| && 0 < msg[pos] < 0xC0 && pos + 1 + msg[pos] <= |msg|
    ensures Reading(msg, start, pos + 1 + msg[pos], jumps, endAfter, done + [msg[pos + 1..pos + 1 + msg[pos]]])
  {
    var rest := NameAt(msg, pos + 1 + msg[pos], MAX_JUMPS - jumps);
    var piece := msg[pos + 1..pos + 1 + msg[pos]];
    if rest.Some? {
      assert done + ([piece] + rest.value) == (done + [piece]) + rest.value;
    }
  }

  lemma ReadingStarts(msg: Bytes, start: nat)
    ensures Reading(msg, start, start, 0, None, [])
  {
    var name := NameAt(msg, start, MAX_JUMPS);
    assert name.Some? ==> [] + name.value == name.value;
  }

  lemma ReadingPointer(msg: Bytes, start: nat, pos: nat, jumps: nat, endAfter: Option<nat>, done: seq<Label>)
    requires Reading(msg, start, pos, jumps, endAfter, done)
    requires pos + 1 < |msg| && msg[pos] >= 0xC0 && jumps < MAX_JUMPS
    ensures Reading(msg, start, Target(msg[pos], msg[pos + 1]), jumps + 1,
                    if endAfter.None? then Some(pos + 2) else endAfter, done)
  {
  }

  /** The loop gives up: past the end, or one hop too many. */
  predicate Stuck(msg: Bytes, pos: nat, jumps: nat) {
    || pos >= |msg|
    || (msg[pos] >= 0xC0 && (pos + 1 >= |msg| || jumps == MAX_JUMPS))
    || (0 < msg[pos] < 0xC0 && pos + 1 + msg[pos] > |msg|)
  }

  lemma ReadingFails(msg: Bytes, start: nat, pos: nat, jumps: nat, endAfter: Option<nat>, done: seq<Label>)
    requires Reading(msg, start, pos, jumps, endAfter, done) && Stuck(msg, pos, jumps)
    ensures NameAt(msg, start, MAX_JUMPS).None?
  {
  }

  lemma ReadingEnds(msg: Bytes, start: nat, pos: nat, jumps: nat, endAfter: Option<nat>, done: seq<Label>)
    requires Reading(msg, start, pos, jumps, endAfter, done) && pos < |msg| && msg[pos] == 0
    ensures NameAt(msg, start, MAX_JUMPS) == Some(done)
    ensures EndAt(msg, start) == if endAfter.Some? then endAfter.value else pos + 1
  {
    assert done + [] == done;
  }

  /** `k * n`, by addition. */
  function Times(k: nat, n: nat): nat {
    if k == 0 then 0 else Times(k - 1, n) + n
  }

  lemma {:induction false} TimesIsProduct(k: nat, n: nat)
    ensures Times(k, n) == k * n
  {
    if k > 0 {
      TimesIsProduct(k - 1, n);
      assert (k - 1) * n + n == k * n;
    }
  }

  lemma {:induction false} TimesMonotone(j: nat, k: nat, n: nat)
    requires j <= k
    ensures Times(j, n) <= Times(k, n)
  {
    if j < k {
      TimesMonotone(j, k - 1, n);
    }
  }

  /** Loop turns so far: at most one for each octet of each segment read. */
  ghost predicate TurnsSpent(msg: Bytes, turns: nat, segments: nat, pos: nat) {
    turns <= Times(segments, |msg|) + if pos <= |msg| then pos else 0
  }

  lemma TurnsBounded(msg: Bytes, turns: nat, segments: nat, pos: nat)
    requires TurnsSpent(msg, turns, segments, pos) && segments <= MAX_JUMPS
    ensures turns + 1 <= 17 * |msg| + 1
  {
    TimesMonotone(segments, MAX_JUMPS, |msg|);
    TimesIsProduct(MAX_JUMPS, |msg|);
  }

  lemma TurnsStep(msg: Bytes, turns: nat, segments: nat, pos: nat, pos': nat)
    requires TurnsSpent(msg, turns, segments, pos) && pos < pos' <= |msg|
    ensures TurnsSpent(msg, turns + 1, segments, pos')
  {
  }

  lemma TurnsHop(msg: Bytes, turns: nat, segments: nat, pos: nat, pos': nat)
    requires TurnsSpent(msg, turns, segments, pos) && pos < |msg|
    ensures TurnsSpent(msg, turns + 1, segments + 1, pos')
  {
  }

  method ReadName(msg: Bytes, start: nat, lossy: Lossy) returns (r: Option<(Bytes, nat)>, ghost turns: nat)
    ensures r == NameText(msg, start, lossy)
    ensures turns <= 17 * |msg| + 1
  {
    assert Dotted([], lossy) == [] && TurnsSpent(msg, 0, 0, start);
    hide NameAt, EndAt, Reading, Dotted, TurnsSpent, Target;
    var pos: nat := start;
    var name: Bytes := [];
    var jumps: nat := 0;
    var endAfter: Option<nat> := None;
    ghost var done: seq<Label> := [];
    turns := 0;
    ReadingStarts(msg, start);
    while true
      invariant jumps <= MAX_JUMPS && Reading(msg, start, pos, jumps, endAfter, done)
      invariant name == Dotted(done, lossy)
      invariant TurnsSpent(msg, turns, jumps, pos)
      decreases MAX_JUMPS - jumps, if pos <= |msg| then |msg| - pos else 0
    {
      TurnsBounded(msg, turns, jumps, pos);
      ghost var before := turns;
      turns := turns + 1;
      var first := Get(msg, pos);
      if first.None? {
        ReadingFails(msg, start, pos, jumps, endAfter, done);
        return None, turns;
      }
      var len := first.value;
      if len >= 0xC0 {
        var second := Get(msg, pos + 1);
        if second.None? {
          ReadingFails(msg, start, pos, jumps, endAfter, done);
          return None, turns;
        }
        if jumps < MAX_JUMPS {
          ReadingPointer(msg, start, pos, jumps, endAfter, done);
        } else {
          ReadingFails(msg, start, pos, jumps, endAfter, done);
        }
        if endAfter.None? {
          endAfter := Some(pos + 2);
        }
        jumps := jumps + 1;
        if jumps > MAX_JUMPS {
          return None, turns;
        }
        TurnsHop(msg, before, jumps - 1, pos, Target(len, second.value));
        pos := Target(len, second.value);
        continue;
      }
      if len == 0 {
        ReadingEnds(msg, start, pos, jumps, endAfter, done);
        pos := pos + 1;
        break;
      }
      if pos + 1 + len > |msg| {
        ReadingFails(msg, start, pos, jumps, endAfter, done);
        return None, turns;
      }
      var piece := msg[pos + 1..pos + 1 + len];
      ReadingLabel(msg, start, pos, jumps, endAfter, done);
      DottedSnoc(done, piece, lossy);
      TurnsStep(msg, before, jumps, pos, pos + 1 + len);
      if name != [] {
        name := name + [DOT];
      }
      name := name + lossy(piece);
      done := done + [piece];
      pos := pos + 1 + len;
    }
    r := Some((name, if endAfter.Some? then endAfter.value else pos));
  }

  // ----- Building a query ----------------------------------------------------------

  /** `name.split('.')`: one piece more than there are dots. */
  function Split(name: Bytes): seq<Label> {
    if name == [] then [[]]
    else
      var front := Split(name[..|name| - 1]);
      if name[|name| - 1] == DOT then front + [[]]
      else front[..|front| - 1] + [Last(front) + [name[|name| - 1]]]
  }

  function Last(pieces: seq<Label>): Label {
    if pieces == [] then [] else pieces[|pieces| - 1]
  }

  /** The octets a label keeps: the first 63. */
  function Cut(l: Label): Label {
    if |l| <= 63 then l else l[..63]
  }

  /** The labels a query is built from: empty pieces are skipped, long ones cut. */
  function Kept(pieces: seq<Label>): seq<Label> {
    if pieces == [] then []
    else Kept(pieces[..|pieces| - 1]) + if Last(pieces) == [] then [] else [Cut(Last(pieces))]
  }

  /** What the label loop appends. */
  function Encoded(pieces: seq<Label>): Bytes {
    if pieces == [] then []
    else Encoded(pieces[..|pieces| - 1]) + Octets(Last(pieces))
  }

  function Octets(piece: Label): Bytes {
    if piece == [] then [] else [|Cut(piece)|] + Cut(piece)
  }

  function U16(n: nat): Bytes
    requires n < 65536
  {
    [n / 256, n % 256]
  }

  const HEADER_TAIL: Bytes := [1, 0, 0, 1, 0, 0, 0, 0, 0, 0]

  /** The label loop of `build_query`. */
  method PushLabels(head: Bytes, pieces: seq<Label>) returns (q: Bytes)
    ensures q == head + Encoded(pieces)
  {
    q := head;
    for i := 0 to |pieces|
      invariant q == head + Encoded(pieces[..i])
    {
      var piece := pieces[i];
      EncodedStep(head, pieces, i);
      if piece != [] {
        var n := if |piece| <= 63 then |piece| else 63;
        assert piece[..n] == Cut(piece);
        ConcatAssoc(q, [n as byte], piece[..n]);
        q := q + [n];
        q := q + piece[..n];
      }
    }
    assert pieces[..|pieces|] == pieces;
  }

  method BuildQuery(id: nat, name: Bytes, qtype: nat) returns (q: Bytes)
    requires id < 65536 && qtype < 65536
    ensures q == Query(id, name, qtype)
  {
    q := U16(id);
    q := q + [1, 0];
    q := q + [0, 1];
    q := q + [0, 0, 0, 0, 0, 0];
    assert q == U16(id) + HEADER_TAIL;
    q := PushLabels(q, Split(name));
    q := q + [0];
    q := q + U16(qtype);
    q := q + U16(CLASS_IN);
  }

  function Query(id: nat, name: Bytes, qtype: nat): Bytes
    requires id < 65536 && qtype < 65536
  {
    U16(id) + [1, 0, 0, 1, 0, 0, 0, 0, 0, 0] + Encoded(Split(name)) + [0] + U16(qtype) + [0, 1]
  }

  lemma EncodedStep(head: Bytes, pieces: seq<Label>, i: nat)
    requires i < |pieces|
    ensures head + Encoded(pieces[..i + 1]) == head + Encoded(pieces[..i]) + Octets(pieces[i])
  {
    assert pieces[..i + 1][..i] == pieces[..i] && Last(pieces[..i + 1]) == pieces[i];
    ConcatAssoc(head, Encoded(pieces[..i]), Octets(pieces[i]));
  }

  // ----- Reading back what was built -------------------------------------------------

  lemma ShortFront(pieces: seq<Label>)
    requires pieces != []
    ensures ShortLabels(pieces) <==> ShortLabels(pieces[..|pieces| - 1]) && 1 <= |Last(pieces)| <= 63
  {
    var front, l := pieces[..|pieces| - 1], Last(pieces);
    assert forall x :: x in pieces <==> x in front || x == l;
  }

  lemma ShortSnoc(labels: seq<Label>, l: Label)
    requires ShortLabels(labels) && 1 <= |l| <= 63
    ensures ShortLabels(labels + [l])
  {
  }

  lemma {:induction false} KeptIsShort(pieces: seq<Label>)
    ensures ShortLabels(Kept(pieces))
  {
    if pieces != [] {
      var front := pieces[..|pieces| - 1];
      KeptIsShort(front);
      if Last(pieces) != [] {
        ShortSnoc(Kept(front), Cut(Last(pieces)));
      }
    }
  }

  /** Wire form of short labels, first label first. */
  function Wire(labels: seq<Label>): Bytes
    requires ShortLabels(labels)
  {
    if labels == [] then []
    else
      assert labels[0] in labels && forall x :: x in labels[1..] ==> x in labels;
      [|labels[0]|] + labels[0] + Wire(labels[1..])
  }

  lemma {:induction false} WireSnoc(labels: seq<Label>, l: Label)
    requires ShortLabels(labels) && 1 <= |l| <= 63
    ensures ShortLabels(labels + [l]) && Wire(labels + [l]) == Wire(labels) + ([|l|] + l)
    decreases |labels|
  {
    ShortSnoc(labels, l);
    if labels == [] {
      assert labels + [l] == [l];
    } else {
      ShortTail(labels);
      WireSnoc(labels[1..], l);
      assert (labels + [l])[1..] == labels[1..] + [l];
      ConcatAssoc([|labels[0]|] + labels[0], Wire(labels[1..]), [|l|] + l);
    }
  }

  lemma ShortTail(labels: seq<Label>)
    requires ShortLabels(labels) && labels != []
    ensures ShortLabels(labels[1..]) && 1 <= |labels[0]| <= 63
  {
    assert labels[0] in labels;
    forall x | x in labels[1..] ensures 1 <= |x| <= 63 {
      assert x in labels;
    }
  }

  lemma {:induction false} EncodedIsWire(pieces: seq<Label>)
    ensures ShortLabels(Kept(pieces)) && Encoded(pieces) == Wire(Kept(pieces))
  {
    KeptIsShort(pieces);
    if pieces != [] {
      var front := pieces[..|pieces| - 1];
      EncodedIsWire(front);
      if Last(pieces) == [] {
        assert Kept(front) + [] == Kept(front) && Encoded(front) + [] == Encoded(front);
      } else {
        WireSnoc(Kept(front), Cut(Last(pieces)));
      }
    }
  }

  /** `chunk` stands in the message at `pos`. */
  ghost predicate Holds(msg: Bytes, pos: nat, chunk: Bytes) {
    pos + |chunk| <= |msg| && forall i :: 0 <= i < |chunk| ==> msg[pos + i] == chunk[i]
  }

  lemma HoldsOne(msg: Bytes, pos: nat, b: byte)
    requires Holds(msg, pos, [b])
    ensures pos < |msg| && msg[pos] == b
  {
    var chunk := [b];
    assert msg[pos + 0] == chunk[0];
  }

  lemma HoldsSplit(msg: Bytes, pos: nat, a: Bytes, b: Bytes)
    requires Holds(msg, pos, a + b)
    ensures Holds(msg, pos, a) && Holds(msg, pos + |a|, b)
  {
    forall i | 0 <= i < |a| ensures msg[pos + i] == a[i] {
      assert (a + b)[i] == a[i];
    }
    forall i | 0 <= i < |b| ensures msg[pos + |a| + i] == b[i] {
      assert (a + b)[|a| + i] == b[i];
    }
  }

  ghost predicate ReadsAt(msg: Bytes, pos: nat, hops: nat, labels: seq<Label>, end: nat) {
    NameAt(msg, pos, hops) == Some(labels) && EndAt(msg, pos) == end
  }

  lemma ReadsOneMore(msg: Bytes, pos: nat, hops: nat, l: Label, labels: seq<Label>, end: nat)
    requires 1 <= |l| <= 63 && Holds(msg, pos, [|l|]) && Holds(msg, pos + 1, l)
    requires ReadsAt(msg, pos + 1 + |l|, hops, labels, end)
    ensures ReadsAt(msg, pos, hops, [l] + labels, end)
  {
    HoldsOne(msg, pos, |l|);
    assert msg[pos + 1..pos + 1 + |l|] == l;
  }

  /** A name written without compression reads back, anywhere in a message. */
  lemma {:induction false} WireReadsBack(msg: Bytes, pos: nat, labels: seq<Label>, hops: nat)
    requires ShortLabels(labels) && Holds(msg, pos, Wire(labels)) && Holds(msg, pos + |Wire(labels)|, [0])
    ensures ReadsAt(msg, pos, hops, labels, pos + |Wire(labels)| + 1)
    decreases |labels|
  {
    if labels == [] {
      HoldsOne(msg, pos, 0);
    } else {
      var l, rest := labels[0], labels[1..];
      ShortTail(labels);
      HoldsSplit(msg, pos, [|l|] + l, Wire(rest));
      HoldsSplit(msg, pos, [|l|], l);
      WireReadsBack(msg, pos + 1 + |l|, rest, hops);
      ReadsOneMore(msg, pos, hops, l, rest, pos + |Wire(labels)| + 1);
      assert [l] + rest == labels;
    }
  }

  lemma QueryHolds(id: nat, name: Bytes, qtype: nat) returns (q: Bytes)
    requires id < 65536 && qtype < 65536
    ensures q == Query(id, name, qtype)
    ensures var e := Encoded(Split(name)); Holds(q, 12, e) && Holds(q, 12 + |e|, [0]) && |q| == 12 + |e| + 5
  {
    q := Query(id, name, qtype);
    var head, e, tail := U16(id) + HEADER_TAIL, Encoded(Split(name)), U16(qtype) + U16(CLASS_IN);
    InTheMiddle(head, e, tail);
    assert q == head + e + [0] + tail;
  }

  lemma InTheMiddle(head: Bytes, e: Bytes, tail: Bytes)
    ensures var q := head + e + [0] + tail; Holds(q, |head|, e) && Holds(q, |head| + |e|, [0])
  {
  }

  lemma PiecesReadBack(q: Bytes, pieces: seq<Label>, lossy: Lossy)
    requires Holds(q, 12, Encoded(pieces)) && Holds(q, 12 + |Encoded(pieces)|, [0])
    ensures NameText(q, 12, lossy) == Some((Dotted(Kept(pieces), lossy), 12 + |Encoded(pieces)| + 1))
  {
    EncodedIsWire(pieces);
    WireReadsBack(q, 12, Kept(pieces), MAX_JUMPS);
  }

  /** Reading at offset 12 gives back the name a query was built for, each label cut
      to 63 octets, and stops right before the type. */
  lemma QueryReadsBack(id: nat, name: Bytes, qtype: nat, lossy: Lossy)
    requires id < 65536 && qtype < 65536
    ensures var q := Query(id, name, qtype);
            NameText(q, 12, lossy) == Some((Dotted(Kept(Split(name)), lossy), |q| - 4))
  {
    var q := QueryHolds(id, name, qtype);
    PiecesReadBack(q, Split(name), lossy);
  }

  // ----- Which names survive the round trip ---------------------------------------------

  function Joined(pieces: seq<Label>): Bytes {
    if |pieces| <= 1 then Last(pieces)
    else Joined(pieces[..|pieces| - 1]) + [0x2E] + Last(pieces)
  }

  lemma SplitNonEmpty(name: Bytes)
    ensures Split(name) != []
  {
  }

  lemma JoinedSnoc(pieces: seq<Label>, l: Label)
    ensures Joined(pieces + [l]) == if pieces == [] then l else Joined(pieces) + [DOT] + l
  {
    assert (pieces + [l])[..|pieces|] == pieces && Last(pieces + [l]) == l;
  }

  lemma AppendOctet(first: bool, j: Bytes, l: Label, b: byte)
    ensures (if first then l + [b] else j + [DOT] + (l + [b])) == (if first then l else j + [DOT] + l) + [b]
  {
    ConcatAssoc(j + [DOT], l, [b]);
  }

  lemma ConcatAssoc<X>(a: seq<X>, b: seq<X>, c: seq<X>)
    ensures a + (b + c) == (a + b) + c
  {
  }

  lemma JoinedExtend(front: seq<Label>, l: Label, b: byte)
    ensures Joined(front + [l + [b]]) == Joined(front + [l]) + [b]
  {
    JoinedSnoc(front, l);
    JoinedSnoc(front, l + [b]);
    AppendOctet(front == [], Joined(front), l, b);
  }

  lemma JoinedAfterOctet(ps: seq<Label>, b: byte)
    requires ps != []
    ensures Joined(if b == DOT then ps + [[]] else ps[..|ps| - 1] + [Last(ps) + [b]]) == Joined(ps) + [b]
  {
    if b == DOT {
      JoinedSnoc(ps, []);
      assert Joined(ps) + [DOT] + [] == Joined(ps) + [DOT];
    } else {
      assert ps == ps[..|ps| - 1] + [Last(ps)];
      JoinedExtend(ps[..|ps| - 1], Last(ps), b);
    }
  }

  /** Splitting at dots loses nothing. */
  lemma {:induction false} SplitJoins(name: Bytes)
    ensures Joined(Split(name)) == name
  {
    if name != [] {
      var front, b := name[..|name| - 1], name[|name| - 1];
      SplitJoins(front);
      SplitNonEmpty(front);
      assert name == front + [b];
      JoinedAfterOctet(Split(front), b);
    }
  }

  ghost predicate Identity(lossy: Lossy, labels: seq<Label>) {
    forall l <- labels :: lossy(l) == l
  }

  /** Octets of text the pieces stand for, counting one separator each. */
  function Weight(pieces: seq<Label>): nat {
    if pieces == [] then 0 else Weight(pieces[..|pieces| - 1]) + |Last(pieces)| + 1
  }

  lemma {:induction false} JoinedWeight(pieces: seq<Label>)
    requires pieces != []
    ensures |Joined(pieces)| + 1 == Weight(pieces)
  {
    if |pieces| > 1 {
      JoinedWeight(pieces[..|pieces| - 1]);
    } else {
      assert pieces[..0] == [];
    }
  }

  lemma {:induction false} DottedIsJoined(labels: seq<Label>, lossy: Lossy)
    requires ShortLabels(labels) && Identity(lossy, labels)
    ensures Dotted(labels, lossy) == Joined(labels)
    ensures labels != [] ==> Dotted(labels, lossy) != []
  {
    if labels != [] {
      var front := labels[..|labels| - 1];
      assert labels[|labels| - 1] in labels;
      ShortFront(labels);
      forall l | l in front ensures lossy(l) == l {
        assert l in labels;
      }
      DottedIsJoined(front, lossy);
    }
  }

  lemma WeightSnoc(pieces: seq<Label>, l: Label)
    ensures Weight(pieces + [l]) == Weight(pieces) + |l| + 1
  {
    assert (pieces + [l])[..|pieces|] == pieces;
  }

  /** Dropping empty pieces and cutting long ones costs text, unless there are none. */
  ghost predicate CostsText(pieces: seq<Label>, back: seq<Label>) {
    && Weight(back) <= Weight(pieces)
    && (Weight(back) == Weight(pieces) <==> ShortLabels(pieces))
    && (ShortLabels(pieces) ==> back == pieces)
  }

  lemma CostsTextStep(pieces: seq<Label>, back: seq<Label>)
    requires pieces != [] && CostsText(pieces[..|pieces| - 1], back)
    ensures CostsText(pieces, back + if Last(pieces) == [] then [] else [Cut(Last(pieces))])
  {
    ShortFront(pieces);
    if Last(pieces) == [] {
      assert back + [] == back;
    } else {
      WeightSnoc(back, Cut(Last(pieces)));
      assert pieces == pieces[..|pieces| - 1] + [Last(pieces)];
    }
  }

  lemma {:induction false} WeightLost(pieces: seq<Label>)
    ensures CostsText(pieces, Kept(pieces))
  {
    if pieces != [] {
      WeightLost(pieces[..|pieces| - 1]);
      CostsTextStep(pieces, Kept(pieces[..|pieces| - 1]));
    }
  }

  /** A queried name comes back unchanged exactly when every dot-separated piece of it
      has 1 to 63 octets (or the name is empty). */
  lemma NameSurvivesIff(name: Bytes, lossy: Lossy)
    requires Identity(lossy, Kept(Split(name)))
    ensures Dotted(Kept(Split(name)), lossy) == name <==> name == [] || ShortLabels(Split(name))
  {
    var ps := Split(name);
    var back := Kept(ps);
    SplitNonEmpty(name);
    SplitJoins(name);
    JoinedWeight(ps);
    KeptIsShort(ps);
    DottedIsJoined(back, lossy);
    WeightLost(ps);
    if back != [] {
      JoinedWeight(back);
    }
    if name == [] {
      assert ps == [[]] && ps[..0] == [];
    }
  }

  // ----- Walking the answers ---------------------------------------------------------

  function U16At(msg: Bytes, i: nat): nat
    requires i + 1 < |msg|
  {
    (msg[i] as int) * 256 + msg[i + 1] as int
  }

  /** `skip_name`: where the record continues after the name at `pos`. */
  function SkipName(msg: Bytes, pos: nat): Option<nat> {
    if NameAt(msg, pos, MAX_JUMPS).Some? then Some(EndAt(msg, pos)) else None
  }

  /** One answer record: its owner name ends at `body`, ten octets before the data. */
  datatype Record = Record(body: nat, rdlen: nat) {
    function Data(): nat { body + 10 }
    function End(): nat { body + 10 + rdlen }
  }

  /** The record at `pos`, if it is whole. */
  function RecordAt(msg: Bytes, pos: nat): Option<Record> {
    match SkipName(msg, pos)
    case None => None
    case Some(p) =>
      if p + 10 > |msg| then None
      else
        var rdlen := U16At(msg, p + 8);
        if p + 10 + rdlen > |msg| then None else Some(Record(p, rdlen))
  }

  /** The records from `pos` on: up to `n`, ending at the first that is not whole. */
  function Records(msg: Bytes, pos: nat, n: nat): seq<Record>
    decreases n
  {
    if n == 0 then []
    else
      match RecordAt(msg, pos)
      case None => []
      case Some(rec) => [rec] + Records(msg, rec.End(), n - 1)
  }

  function OfType(msg: Bytes, recs: seq<Record>, want: nat): seq<(nat, nat)> {
    if recs == [] then []
    else
      var r := recs[0];
      (if r.body + 1 < |msg| && U16At(msg, r.body) == want then [(r.Data(), r.rdlen)] else [])
      + OfType(msg, recs[1..], want)
  }

  function SkipQuestions(msg: Bytes, pos: nat, n: nat): Option<nat>
    decreases n
  {
    if n == 0 then Some(pos)
    else
      match SkipName(msg, pos)
      case None => None
      case Some(p) => SkipQuestions(msg, p + 4, n - 1)
  }

  function AnswerRanges(msg: Bytes, want: nat): seq<(nat, nat)> {
    if |msg| < 12 then []
    else
      match SkipQuestions(msg, 12, U16At(msg, 4))
      case None => []
      case Some(pos) => OfType(msg, Records(msg, pos, U16At(msg, 6)), want)
  }

  method WalkQuestions(msg: Bytes, qd: nat, lossy: Lossy) returns (start: Option<nat>)
    ensures start == SkipQuestions(msg, 12, qd)
  {
    var pos: nat := 12;
    for i := 0 to qd
      invariant SkipQuestions(msg, 12, qd) == SkipQuestions(msg, pos, qd - i)
    {
      var r, _ := ReadName(msg, pos, lossy);
      if r.None? {
        return None;
      }
      pos := r.value.1 + 4;
    }
    return Some(pos);
  }

  lemma RecordsStep(msg: Bytes, pos: nat, n: nat, want: nat)
    requires n > 0 && RecordAt(msg, pos).Some?
    ensures var rec := RecordAt(msg, pos).value;
            OfType(msg, Records(msg, pos, n), want) ==
            (if U16At(msg, rec.body) == want then [(rec.Data(), rec.rdlen)] else [])
            + OfType(msg, Records(msg, rec.End(), n - 1), want)
  {
    var rec := RecordAt(msg, pos).value;
    assert ([rec] + Records(msg, rec.End(), n - 1))[1..] == Records(msg, rec.End(), n - 1);
  }

  /** One turn of the answer loop up to its bounds checks. */
  method ReadRecord(msg: Bytes, pos: nat, lossy: Lossy) returns (rec: Option<Record>)
    ensures rec == RecordAt(msg, pos)
  {
    var r, _ := ReadName(msg, pos, lossy);
    if r.None? {
      return None;
    }
    var p := r.value.1;
    if p + 10 > |msg| {
      return None;
    }
    var rdlen := U16At(msg, p + 8);
    if p + 10 + rdlen > |msg| {
      return None;
    }
    return Some(Record(p, rdlen));
  }

  method WalkAnswers(msg: Bytes, start: nat, an: nat, want: nat, lossy: Lossy) returns (out: seq<(nat, nat)>)
    ensures out == OfType(msg, Records(msg, start, an), want)
  {
    var pos: nat := start;
    out := [];
    for i := 0 to an
      invariant OfType(msg, Records(msg, start, an), want) == out + OfType(msg, Records(msg, pos, an - i), want)
    {
      var rec := ReadRecord(msg, pos, lossy);
      if rec.None? {
        return;
      }
      RecordsStep(msg, pos, an - i, want);
      ghost var rest := OfType(msg, Records(msg, rec.value.End(), an - i - 1), want);
      if U16At(msg, rec.value.body) == want {
        ConcatAssoc(out, [(rec.value.Data(), rec.value.rdlen)], rest);
        out := out + [(rec.value.Data(), rec.value.rdlen)];
      } else {
        assert [] + rest == rest;
      }
      pos := rec.value.End();
    }
  }

  method AnswerRdatas(msg: Bytes, want: nat, lossy: Lossy) returns (out: seq<(nat, nat)>)
    ensures out == AnswerRanges(msg, want)
  {
    if |msg| < 12 {
      return [];
    }
    var start := WalkQuestions(msg, U16At(msg, 4), lossy);
    if start.None? {
      return [];
    }
    out := WalkAnswers(msg, start.value, U16At(msg, 6), want, lossy);
  }

  // ----- What the ranges are worth -----------------------------------------------------

  /** A range of the wanted type: behind the header at `from` or later, inside the message. */
  ghost predicate Good(msg: Bytes, from: nat, want: nat, r: (nat, nat)) {
    && from + 10 < r.0 && r.0 + r.1 <= |msg|
    && U16At(msg, r.0 - 10) == want && U16At(msg, r.0 - 2) == r.1
  }

  ghost predicate Ordered(ranges: seq<(nat, nat)>) {
    forall i, j :: 0 <= i < j < |ranges| ==> ranges[i].0 + ranges[i].1 <= ranges[j].0
  }

  ghost predicate AllGood(msg: Bytes, from: nat, want: nat, ranges: seq<(nat, nat)>) {
    forall i :: 0 <= i < |ranges| ==> Good(msg, from, want, ranges[i])
  }

  lemma ConsGood(msg: Bytes, pos: nat, want: nat, first: seq<(nat, nat)>, rest: seq<(nat, nat)>, end: nat)
    requires AllGood(msg, pos, want, first) && |first| <= 1 && (first != [] ==> first[0].0 + first[0].1 == end)
    requires pos <= end && AllGood(msg, end, want, rest) && Ordered(rest)
    ensures AllGood(msg, pos, want, first + rest) && Ordered(first + rest)
  {
    assert forall i :: 0 <= i < |rest| ==> Good(msg, end, want, rest[i]);
  }

  ghost predicate SafeFrom(msg: Bytes, pos: nat, want: nat, ranges: seq<(nat, nat)>) {
    AllGood(msg, pos, want, ranges) && Ordered(ranges)
  }

  lemma RangesStep(msg: Bytes, pos: nat, rec: Record, want: nat, rest: seq<(nat, nat)>)
    requires RecordAt(msg, pos) == Some(rec) && SafeFrom(msg, rec.End(), want, rest)
    ensures SafeFrom(msg, pos, want,
                     (if U16At(msg, rec.body) == want then [(rec.Data(), rec.rdlen)] else []) + rest)
  {
    EndIsLater(msg, pos, MAX_JUMPS);
    var first := if U16At(msg, rec.body) == want then [(rec.Data(), rec.rdlen)] else [];
    ConsGood(msg, pos, want, first, rest, rec.End());
  }

  lemma {:induction false} RangesFrom(msg: Bytes, pos: nat, n: nat, want: nat)
    ensures SafeFrom(msg, pos, want, OfType(msg, Records(msg, pos, n), want))
    decreases n
  {
    if n > 0 && RecordAt(msg, pos).Some? {
      var rec := RecordAt(msg, pos).value;
      RangesFrom(msg, rec.End(), n - 1, want);
      RecordsStep(msg, pos, n, want);
      RangesStep(msg, pos, rec, want, OfType(msg, Records(msg, rec.End(), n - 1), want));
    }
  }

  /** Every range handed out lies inside the message, behind a record header of the
      wanted type and of that length; the ranges follow one another without overlap. */
  lemma RangesAreSafe(msg: Bytes, want: nat)
    ensures var out := AnswerRanges(msg, want);
            && (forall i :: 0 <= i < |out| ==>
                  && 22 < out[i].0 && out[i].0 + out[i].1 <= |msg|
                  && U16At(msg, out[i].0 - 10) == want && U16At(msg, out[i].0 - 2) == out[i].1)
            && (forall i, j :: 0 <= i < j < |out| ==> out[i].0 + out[i].1 <= out[j].0)
  {
    if |msg| >= 12 {
      var start := SkipQuestions(msg, 12, U16At(msg, 4));
      if start.Some? {
        QuestionsMoveOn(msg, 12, U16At(msg, 4));
        RangesFrom(msg, start.value, U16At(msg, 6), want);
      }
    }
  }

  lemma {:induction false} QuestionsMoveOn(msg: Bytes, pos: nat, n: nat)
    requires SkipQuestions(msg, pos, n).Some?
    ensures pos <= SkipQuestions(msg, pos, n).value
    decreases n
  {
    if n > 0 {
      EndIsLater(msg, pos, MAX_JUMPS);
      QuestionsMoveOn(msg, SkipName(msg, pos).value + 4, n - 1);
    }
  }
}
