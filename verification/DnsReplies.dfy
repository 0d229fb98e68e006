/** Whole DNS replies as a server writes them (section 4.1 of RFC 1035), and what the
    reader makes of every one of them. Nothing here is told by the reader's own steps. */
module DnsReplies {
  import opened Text
  import opened Dns

  // ----- Names as they are written ---------------------------------------------

  /** How a name ends: with the root octet, or with a pointer into the message. */
  datatype Tail = Root | Jump(offset: nat)

  /** A name as written in one place: labels, then its end. */
  datatype Part = Part(labels: seq<Label>, tail: Tail)

  ghost predicate WellWritten(n: Part) {
    ShortLabels(n.labels) && (n.tail.Jump? ==> n.tail.offset < 0x4000)
  }

  function TailOctets(tail: Tail): Bytes
    requires tail.Jump? ==> tail.offset < 0x4000
  {
    match tail
    case Root => [0]
    case Jump(offset) => [0xC0 + offset / 256, offset % 256]
  }

  /** The octets of a name: a length octet before each label, and the end. */
  function NameOctets(labels: seq<Label>, tail: Tail): (octets: Bytes)
    requires WellWritten(Part(labels, tail))
    ensures octets != []
  {
    if labels == [] then TailOctets(tail)
    else
      ShortTail(labels);
      [|labels[0]|] + labels[0] + NameOctets(labels[1..], tail)
  }

  function Octets(n: Part): (octets: Bytes)
    requires WellWritten(n)
    ensures octets != []
  {
    NameOctets(n.labels, n.tail)
  }

  /** The name stands at `pos`; its pointer leads to the next part, and so on to one that
      ends in the root. */
  ghost predicate Leads(msg: Bytes, pos: nat, chain: seq<Part>)
    decreases |chain|
  {
    && chain != [] && WellWritten(chain[0]) && Holds(msg, pos, Octets(chain[0]))
    && match chain[0].tail
       case Root => |chain| == 1
       case Jump(offset) => Leads(msg, offset, chain[1..])
  }

  /** The labels along a chain. */
  function Labels(chain: seq<Part>): seq<Label>
    decreases |chain|
  {
    if chain == [] then [] else chain[0].labels + Labels(chain[1..])
  }

  lemma HoldsTwo(msg: Bytes, pos: nat, a: byte, b: byte)
    requires Holds(msg, pos, [a, b])
    ensures pos + 1 < |msg| && msg[pos] == a && msg[pos + 1] == b
  {
    var chunk := [a, b];
    assert msg[pos + 0] == chunk[0] && msg[pos + 1] == chunk[1];
  }

  /** What reading the labels of a part and then its end amounts to. */
  function After(msg: Bytes, labels: seq<Label>, tail: Tail, hops: nat): Option<seq<Label>> {
    match tail
    case Root => Some(labels)
    case Jump(offset) => if hops == 0 then None else Prefixed(labels, NameAt(msg, offset, hops - 1))
  }

  lemma LabelReads(msg: Bytes, pos: nat, l: Label, hops: nat)
    requires 1 <= |l| <= 63 && Holds(msg, pos, [|l|] + l)
    ensures pos + 1 + |l| <= |msg|
    ensures NameAt(msg, pos, hops) == Prefixed([l], NameAt(msg, pos + 1 + |l|, hops))
    ensures EndAt(msg, pos) == EndAt(msg, pos + 1 + |l|)
  {
    HoldsSplit(msg, pos, [|l|], l);
    HoldsOne(msg, pos, |l|);
    assert msg[pos + 1..pos + 1 + |l|] == l;
  }

  lemma AfterLabel(msg: Bytes, l: Label, rest: seq<Label>, tail: Tail, hops: nat)
    ensures Prefixed([l], After(msg, rest, tail, hops)) == After(msg, [l] + rest, tail, hops)
  {
    hide NameAt;
    if tail.Jump? && hops > 0 && NameAt(msg, tail.offset, hops - 1).Some? {
      var name := NameAt(msg, tail.offset, hops - 1).value;
      assert [l] + (rest + name) == ([l] + rest) + name;
    }
  }

  lemma {:induction false} PartReads(msg: Bytes, pos: nat, labels: seq<Label>, tail: Tail, hops: nat)
    requires WellWritten(Part(labels, tail)) && Holds(msg, pos, NameOctets(labels, tail))
    ensures EndAt(msg, pos) == pos + |NameOctets(labels, tail)|
    ensures NameAt(msg, pos, hops) == After(msg, labels, tail, hops)
    decreases |labels|
  {
    hide NameAt, EndAt, Holds, After;
    if labels == [] {
      TailReads(msg, pos, tail, hops);
    } else {
      var l, rest := labels[0], labels[1..];
      ShortTail(labels);
      HoldsSplit(msg, pos, [|l|] + l, NameOctets(rest, tail));
      LabelReads(msg, pos, l, hops);
      PartReads(msg, pos + 1 + |l|, rest, tail, hops);
      AfterLabel(msg, l, rest, tail, hops);
      assert labels == [l] + rest;
    }
  }

  lemma TailReads(msg: Bytes, pos: nat, tail: Tail, hops: nat)
    requires WellWritten(Part([], tail)) && Holds(msg, pos, TailOctets(tail))
    ensures EndAt(msg, pos) == pos + |TailOctets(tail)|
    ensures NameAt(msg, pos, hops) == After(msg, [], tail, hops)
  {
    match tail
    case Root => HoldsOne(msg, pos, 0);
    case Jump(offset) =>
      HoldsTwo(msg, pos, 0xC0 + offset / 256, offset % 256);
      assert Target(msg[pos], msg[pos + 1]) == offset;
      if hops > 0 && NameAt(msg, offset, hops - 1).Some? {
        assert [] + NameAt(msg, offset, hops - 1).value == NameAt(msg, offset, hops - 1).value;
      }
  }

  /** A compressed name is read as the labels along its pointers, and the record goes on
      right behind its first part, exactly when there are no more pointers than hops. */
  lemma {:induction false} ChainReads(msg: Bytes, pos: nat, chain: seq<Part>, hops: nat)
    requires Leads(msg, pos, chain)
    ensures NameAt(msg, pos, hops) == if |chain| - 1 <= hops then Some(Labels(chain)) else None
    ensures EndAt(msg, pos) == pos + |Octets(chain[0])|
    decreases |chain|
  {
    var n := chain[0];
    PartReads(msg, pos, n.labels, n.tail, hops);
    if n.tail.Root? {
      assert chain[1..] == [] && n.labels + [] == n.labels;
    } else if hops > 0 {
      ChainReads(msg, n.tail.offset, chain[1..], hops - 1);
    }
  }

  // ----- Replies as they are written ---------------------------------------------

  datatype Question = Question(name: Part, qtype: nat, qclass: nat)

  datatype Answer = Answer(name: Part, rtype: nat, rclass: nat, ttl: Bytes, data: Bytes)

  datatype Reply = Reply(id: nat, flags: nat, questions: seq<Question>, answers: seq<Answer>,
                         authorities: nat, additionals: nat, more: Bytes)

  ghost predicate GoodQuestion(q: Question) {
    WellWritten(q.name) && q.qtype < 65536 && q.qclass < 65536
  }

  ghost predicate GoodAnswer(a: Answer) {
    WellWritten(a.name) && a.rtype < 65536 && a.rclass < 65536 && |a.ttl| == 4 && |a.data| < 65536
  }

  function QuestionOctets(q: Question): Bytes
    requires GoodQuestion(q)
  {
    Octets(q.name) + (U16(q.qtype) + U16(q.qclass))
  }

  /** Type, class, time to live and length of an answer. */
  function Fixed(a: Answer): (octets: Bytes)
    requires GoodAnswer(a)
    ensures |octets| == 10
  {
    U16(a.rtype) + U16(a.rclass) + a.ttl + U16(|a.data|)
  }

  function AnswerOctets(a: Answer): Bytes
    requires GoodAnswer(a)
  {
    Octets(a.name) + (Fixed(a) + a.data)
  }

  ghost predicate GoodQuestions(qs: seq<Question>) {
    forall q <- qs :: GoodQuestion(q)
  }

  ghost predicate GoodAnswers(answers: seq<Answer>) {
    forall a <- answers :: GoodAnswer(a)
  }

  function AllQuestions(qs: seq<Question>): Bytes
    requires GoodQuestions(qs)
  {
    if qs == [] then [] else QuestionOctets(qs[0]) + AllQuestions(qs[1..])
  }

  function AllAnswers(answers: seq<Answer>): Bytes
    requires GoodAnswers(answers)
  {
    if answers == [] then [] else AnswerOctets(answers[0]) + AllAnswers(answers[1..])
  }

  ghost predicate GoodReply(m: Reply) {
    && m.id < 65536 && m.flags < 65536 && m.authorities < 65536 && m.additionals < 65536
    && |m.questions| < 65536 && |m.answers| < 65536
    && GoodQuestions(m.questions) && GoodAnswers(m.answers)
  }

  function Header(m: Reply): (octets: Bytes)
    requires GoodReply(m)
    ensures |octets| == 12
  {
    U16(m.id) + U16(m.flags) + U16(|m.questions|) + U16(|m.answers|) + U16(m.authorities) + U16(m.additionals)
  }

  function ReplyOctets(m: Reply): Bytes
    requires GoodReply(m)
  {
    Header(m) + (AllQuestions(m.questions) + (AllAnswers(m.answers) + m.more))
  }

  /** Every pointer in use leads to a name in at most 16 hops. */
  ghost predicate Resolves(msg: Bytes, n: Part) {
    n.tail.Jump? ==> exists chain :: |chain| <= 16 && Leads(msg, n.tail.offset, chain)
  }

  ghost predicate AllResolve(msg: Bytes, m: Reply) {
    && (forall q <- m.questions :: Resolves(msg, q.name))
    && (forall a <- m.answers :: Resolves(msg, a.name))
  }

  /** Where the data of the answers of type `want` lie, the first answer being at `pos`. */
  function Places(pos: nat, answers: seq<Answer>, want: nat): seq<(nat, nat)>
    requires GoodAnswers(answers)
    decreases |answers|
  {
    if answers == [] then []
    else
      var a := answers[0];
      assert GoodAnswer(a);
      (if a.rtype == want then [(pos + |Octets(a.name)| + 10, |a.data|)] else [])
      + Places(pos + |AnswerOctets(a)|, answers[1..], want)
  }

  /** The data themselves. */
  function Wanted(answers: seq<Answer>, want: nat): seq<Bytes> {
    if answers == [] then []
    else (if answers[0].rtype == want then [answers[0].data] else []) + Wanted(answers[1..], want)
  }

  lemma NameSkips(msg: Bytes, pos: nat, n: Part)
    requires WellWritten(n) && Holds(msg, pos, Octets(n)) && Resolves(msg, n)
    ensures SkipName(msg, pos) == Some(pos + |Octets(n)|)
  {
    hide NameAt, EndAt, Holds, Octets, Labels, WellWritten;
    if n.tail.Root? {
      assert Leads(msg, pos, [n]);
      ChainReads(msg, pos, [n], MAX_JUMPS);
    } else {
      var rest :| |rest| <= 16 && Leads(msg, n.tail.offset, rest);
      assert ([n] + rest)[1..] == rest;
      assert Leads(msg, pos, [n] + rest);
      ChainReads(msg, pos, [n] + rest, MAX_JUMPS);
    }
  }

  lemma {:induction false} QuestionsSkip(msg: Bytes, pos: nat, qs: seq<Question>)
    requires GoodQuestions(qs) && Holds(msg, pos, AllQuestions(qs)) && forall q <- qs :: Resolves(msg, q.name)
    ensures SkipQuestions(msg, pos, |qs|) == Some(pos + |AllQuestions(qs)|)
    decreases |qs|
  {
    hide Octets, Holds, Resolves, WellWritten, SkipName;
    if qs != [] {
      var q := qs[0];
      HoldsSplit(msg, pos, QuestionOctets(q), AllQuestions(qs[1..]));
      HoldsSplit(msg, pos, Octets(q.name), U16(q.qtype) + U16(q.qclass));
      NameSkips(msg, pos, q.name);
      QuestionsSkip(msg, pos + |QuestionOctets(q)|, qs[1..]);
    }
  }

  lemma HoldsAt(msg: Bytes, pos: nat, chunk: Bytes, i: nat)
    requires Holds(msg, pos, chunk) && i < |chunk|
    ensures pos + i < |msg| && msg[pos + i] == chunk[i]
  {
  }

  lemma HoldsU16(msg: Bytes, pos: nat, chunk: Bytes, i: nat, n: nat)
    requires Holds(msg, pos, chunk) && n < 65536 && i + 1 < |chunk|
    requires chunk[i] == n / 256 && chunk[i + 1] == n % 256
    ensures pos + i + 1 < |msg| && U16At(msg, pos + i) == n
  {
    HoldsAt(msg, pos, chunk, i);
    HoldsAt(msg, pos, chunk, i + 1);
  }

  lemma AnswerReads(msg: Bytes, pos: nat, a: Answer)
    requires GoodAnswer(a) && Holds(msg, pos, AnswerOctets(a)) && Resolves(msg, a.name)
    ensures var body := pos + |Octets(a.name)|;
            && RecordAt(msg, pos) == Some(Record(body, |a.data|))
            && body + 10 <= |msg| && U16At(msg, body) == a.rtype
  {
    hide Octets, Holds, Resolves, WellWritten, SkipName, U16At;
    var body := pos + |Octets(a.name)|;
    HoldsSplit(msg, pos, Octets(a.name), Fixed(a) + a.data);
    HoldsSplit(msg, body, Fixed(a), a.data);
    HoldsFits(msg, body + 10, a.data);
    NameSkips(msg, pos, a.name);
    HoldsU16(msg, body, Fixed(a), 0, a.rtype);
    HoldsU16(msg, body, Fixed(a), 8, |a.data|);
  }

  lemma HoldsFits(msg: Bytes, pos: nat, chunk: Bytes)
    requires Holds(msg, pos, chunk)
    ensures pos + |chunk| <= |msg| && msg[pos..pos + |chunk|] == chunk
  {
  }

  lemma {:induction false} AnswersRead(msg: Bytes, pos: nat, answers: seq<Answer>, want: nat)
    requires GoodAnswers(answers) && Holds(msg, pos, AllAnswers(answers))
    requires forall a <- answers :: Resolves(msg, a.name)
    ensures OfType(msg, Records(msg, pos, |answers|), want) == Places(pos, answers, want)
    decreases |answers|
  {
    hide Octets, Holds, Resolves, GoodAnswer, RecordAt, U16At;
    if answers != [] {
      var a := answers[0];
      HoldsSplit(msg, pos, AnswerOctets(a), AllAnswers(answers[1..]));
      AnswerReads(msg, pos, a);
      RecordsStep(msg, pos, |answers|, want);
      AnswersRead(msg, pos + |AnswerOctets(a)|, answers[1..], want);
    }
  }

  /** Each range is where the octets of that entry stand. */
  ghost predicate Cover(msg: Bytes, ranges: seq<(nat, nat)>, data: seq<Bytes>) {
    && |ranges| == |data|
    && forall i :: 0 <= i < |data| ==>
         ranges[i].0 + ranges[i].1 <= |msg| && msg[ranges[i].0..ranges[i].0 + ranges[i].1] == data[i]
  }

  lemma CoverCons(msg: Bytes, start: nat, data: Bytes, ranges: seq<(nat, nat)>, rest: seq<Bytes>)
    requires Holds(msg, start, data) && Cover(msg, ranges, rest)
    ensures Cover(msg, [(start, |data|)] + ranges, [data] + rest)
  {
    HoldsFits(msg, start, data);
    var out := [(start, |data|)] + ranges;
    forall i | 0 <= i < |out|
      ensures out[i].0 + out[i].1 <= |msg| && msg[out[i].0..out[i].0 + out[i].1] == ([data] + rest)[i]
    {
      assert i > 0 ==> out[i] == ranges[i - 1];
    }
  }

  lemma AnswerHolds(msg: Bytes, pos: nat, a: Answer)
    requires GoodAnswer(a) && Holds(msg, pos, AnswerOctets(a))
    ensures Holds(msg, pos + |Octets(a.name)| + 10, a.data)
  {
    hide Octets, Holds;
    HoldsSplit(msg, pos, Octets(a.name), Fixed(a) + a.data);
    HoldsSplit(msg, pos + |Octets(a.name)|, Fixed(a), a.data);
  }

  lemma {:induction false} PlacesHold(msg: Bytes, pos: nat, answers: seq<Answer>, want: nat)
    requires GoodAnswers(answers) && Holds(msg, pos, AllAnswers(answers))
    ensures Cover(msg, Places(pos, answers, want), Wanted(answers, want))
    decreases |answers|
  {
    hide Octets, Holds, Cover, AnswerOctets;
    if answers == [] {
      assert Cover(msg, [], []) by { NothingCovered(msg); }
    } else {
      var a := answers[0];
      assert GoodAnswer(a);
      HoldsSplit(msg, pos, AnswerOctets(a), AllAnswers(answers[1..]));
      AnswerHolds(msg, pos, a);
      var start := pos + |AnswerOctets(a)|;
      PlacesHold(msg, start, answers[1..], want);
      var ranges, rest := Places(start, answers[1..], want), Wanted(answers[1..], want);
      if a.rtype == want {
        CoverCons(msg, pos + |Octets(a.name)| + 10, a.data, ranges, rest);
      } else {
        assert [] + ranges == ranges && [] + rest == rest;
      }
    }
  }

  lemma NothingCovered(msg: Bytes)
    ensures Cover(msg, [], [])
  {
  }

  lemma HoldsItself(msg: Bytes)
    ensures Holds(msg, 0, msg)
  {
  }

  lemma HeaderReads(m: Reply)
    requires GoodReply(m)
    ensures var msg := ReplyOctets(m);
            && |msg| >= 12 && U16At(msg, 4) == |m.questions| && U16At(msg, 6) == |m.answers|
            && Holds(msg, 12, AllQuestions(m.questions))
            && Holds(msg, 12 + |AllQuestions(m.questions)|, AllAnswers(m.answers))
  {
    hide AllQuestions, AllAnswers, Holds, U16At, GoodQuestions, GoodAnswers;
    var msg := ReplyOctets(m);
    var qs, answers := AllQuestions(m.questions), AllAnswers(m.answers);
    HoldsItself(msg);
    HoldsSplit(msg, 0, Header(m), qs + (answers + m.more));
    HoldsSplit(msg, 12, qs, answers + m.more);
    HoldsSplit(msg, 12 + |qs|, answers, m.more);
    HoldsU16(msg, 0, Header(m), 4, |m.questions|);
    HoldsU16(msg, 0, Header(m), 6, |m.answers|);
  }

  /** Of every well-formed reply, compressed or not and whatever follows the answers, the
      walk gives exactly the answers of the wanted type, in order: each range is where that
      answer's data stand. */
  lemma ReplyIsRead(m: Reply, want: nat)
    requires GoodReply(m) && AllResolve(ReplyOctets(m), m)
    ensures var msg := ReplyOctets(m);
            var out, data := AnswerRanges(msg, want), Wanted(m.answers, want);
            out == Places(12 + |AllQuestions(m.questions)|, m.answers, want) && Cover(msg, out, data)
  {
    hide AllQuestions, AllAnswers, Holds, U16At, GoodQuestions, GoodAnswers, Places, ReplyOctets, Wanted, Cover;
    var msg := ReplyOctets(m);
    HeaderReads(m);
    QuestionsSkip(msg, 12, m.questions);
    var pos := 12 + |AllQuestions(m.questions)|;
    AnswersRead(msg, pos, m.answers, want);
    PlacesHold(msg, pos, m.answers, want);
  }

  // ----- Queries and pointers --------------------------------------------------------

  /** A name's text can be read exactly when it takes at most 16 pointers; it is then the
      labels along them, joined by dots, and ends where its first part ends. */
  lemma SixteenPointers(msg: Bytes, pos: nat, chain: seq<Part>, lossy: Lossy)
    requires Leads(msg, pos, chain)
    ensures NameText(msg, pos, lossy) ==
            if |chain| <= 17 then Some((Dotted(Labels(chain), lossy), pos + |Octets(chain[0])|)) else None
  {
    hide Leads, Dotted, Octets, Labels;
    assert chain != [] by { ChainStarts(msg, pos, chain); }
    ChainReads(msg, pos, chain, MAX_JUMPS);
  }

  lemma ChainStarts(msg: Bytes, pos: nat, chain: seq<Part>)
    requires Leads(msg, pos, chain)
    ensures chain != [] && WellWritten(chain[0])
  {
  }

  lemma {:induction false} PlainName(labels: seq<Label>)
    requires ShortLabels(labels)
    ensures NameOctets(labels, Root) == Wire(labels) + [0]
    decreases |labels|
  {
    if labels != [] {
      ShortTail(labels);
      PlainName(labels[1..]);
      ConcatAssoc([|labels[0]|] + labels[0], Wire(labels[1..]), [0]);
    }
  }

  /** The query with these labels, as a message: recursion desired, one question of class IN. */
  function Asking(id: nat, labels: seq<Label>, qtype: nat): Reply {
    Reply(id, 0x0100, [Question(Part(labels, Root), qtype, 1)], [], 0, 0, [])
  }

  /** What is sent is a well-formed message with one question: the kept labels of the name,
      the type asked for, class IN. */
  lemma QueryIsMessage(id: nat, name: Bytes, qtype: nat)
    requires id < 65536 && qtype < 65536
    ensures var m := Asking(id, Kept(Split(name)), qtype);
            GoodReply(m) && Query(id, name, qtype) == ReplyOctets(m)
  {
    hide Wire, NameOctets, Encoded, Kept;
    var labels := Kept(Split(name));
    EncodedIsWire(Split(name));
    PlainName(labels);
    var m := Asking(id, labels, qtype);
    var q := m.questions[0];
    assert GoodQuestion(q);
    assert m.questions[1..] == [];
    assert AllQuestions(m.questions) == QuestionOctets(q) + AllQuestions([]);
    var wire := Wire(labels);
    assert QuestionOctets(q) == wire + [0] + (U16(qtype) + U16(1));
    assert Header(m) == U16(id) + [1, 0, 0, 1, 0, 0, 0, 0, 0, 0];
    assert ReplyOctets(m) == Header(m) + (wire + [0] + (U16(qtype) + U16(1)) + [] + ([] + []));
    assert U16(1) == [0, 1];
  }
}
