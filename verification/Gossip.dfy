/** The gossip handshake: a mutual challenge-response over a shared secret, run by
    any number of interleaved sessions over a network that belongs to the peer. */
module Gossip {

  datatype Role = Listener | Dialer

  function Opposite(r: Role): Role {
    if r == Listener then Dialer else Listener
  }

  function Label(r: Role): string {
    if r == Listener then "L" else "D"
  }

  /** HMAC-SHA256, idealised: a proof is the secret and the input it was computed
      from, so equal proofs mean equal secret and input. */
  datatype Proof = Hmac(secret: string, input: string) | Garbage(bytes: string)

  function AuthProof(secret: string, direction: Role, nonce: string): Proof {
    Hmac(secret, Label(direction) + "\0" + nonce)
  }

  /** The label, the separator and the nonce can be read back from the input. */
  lemma AuthProofInjective(secret: string, d: Role, n: string, e: Role, m: string)
    requires AuthProof(secret, d, n) == AuthProof(secret, e, m)
    ensures d == e && n == m
  {
    var x, y := Label(d) + "\0" + n, Label(e) + "\0" + m;
    assert x[0] == Label(d)[0] && y[0] == Label(e)[0];
    assert x[2..] == n && y[2..] == m;
  }

  // ----- One session ---------------------------------------------------------

  datatype Msg =
    | Hello(nonce: string)
    | Auth(proof: Proof)
    | Digest
    | Entry
    | Malformed      // end of stream, timeout, oversized line or unparsable text

  datatype Phase = AwaitHello | AwaitAuth | Accepted | Failed

  datatype Session = Session(role: Role, nonce: string, phase: Phase)

  /** What a session does with one received message: its next phase, and whether it
      signed a nonce, accepted the peer or handled replicated data. */
  datatype Effect = Nothing | Signs(nonce: string) | Accepts | Handles

  function Receive(secret: string, s: Session, m: Msg): (Session, Effect) {
    match s.phase
    case AwaitHello =>
      if m.Hello? && m.nonce != s.nonce then (s.(phase := AwaitAuth), Signs(m.nonce))
      else (s.(phase := Failed), Nothing)
    case AwaitAuth =>
      if m.Auth? && m.proof == AuthProof(secret, Opposite(s.role), s.nonce) then (s.(phase := Accepted), Accepts)
      else (s.(phase := Failed), Nothing)
    case Accepted => (s, if m.Digest? || m.Entry? then Handles else Nothing)
    case Failed => (s, Nothing)
  }

  // ----- The network -----------------------------------------------------------

  datatype Event =
    | Opened(id: nat, role: Role, nonce: string)
    | Signed(id: nat, role: Role, nonce: string)   // AuthProof(secret, role, nonce) went on the wire
    | AcceptedPeer(id: nat)
    | HandledData(id: nat)

  datatype World = World(sessions: map<nat, Session>, log: seq<Event>)

  const EMPTY := World(map[], [])

  datatype Move =
    | Open(id: nat, role: Role, nonce: string)     // an honest session starts and sends its Hello
    | Deliver(id: nat, msg: Msg)                   // the peer hands it any message it can compose

  /** A proof under the secret is available to the peer once some session sent it. */
  ghost predicate OnTheWire(log: seq<Event>, secret: string, p: Proof) {
    exists i :: 0 <= i < |log| && log[i].Signed? && p == AuthProof(secret, log[i].role, log[i].nonce)
  }

  /** The peer replays and forwards what it saw and composes everything else, but
      cannot compute an HMAC under a secret it does not hold. */
  ghost predicate Allowed(w: World, secret: string, mv: Move) {
    match mv
    case Open(id, role, nonce) =>
      && id !in w.sessions
      // a 24-byte random nonce is new, and nobody was made to sign it beforehand
      && forall e <- w.log :: (e.Opened? || e.Signed?) ==> e.nonce != nonce
    case Deliver(id, msg) =>
      && id in w.sessions
      && (msg.Auth? && msg.proof.Hmac? && msg.proof.secret == secret ==> OnTheWire(w.log, secret, msg.proof))
  }

  function LogOf(id: nat, s: Session, e: Effect): seq<Event> {
    match e
    case Nothing => []
    case Signs(n) => [Signed(id, s.role, n)]
    case Accepts => [AcceptedPeer(id)]
    case Handles => [HandledData(id)]
  }

  function Apply(w: World, secret: string, mv: Move): World {
    match mv
    case Open(id, role, nonce) =>
      World(w.sessions[id := Session(role, nonce, AwaitHello)], w.log + [Opened(id, role, nonce)])
    case Deliver(id, msg) =>
      if id !in w.sessions then w
      else
        var (s, e) := Receive(secret, w.sessions[id], msg);
        World(w.sessions[id := s], w.log + LogOf(id, s, e))
  }

  function After(secret: string, run: seq<Move>): World {
    if run == [] then EMPTY else Apply(After(secret, run[..|run| - 1]), secret, run[|run| - 1])
  }

  ghost predicate IsRun(secret: string, run: seq<Move>) {
    run != [] ==>
      IsRun(secret, run[..|run| - 1]) && Allowed(After(secret, run[..|run| - 1]), secret, run[|run| - 1])
  }

  // ----- What every run keeps ---------------------------------------------------

  ghost predicate WasOpened(log: seq<Event>, id: nat, s: Session) {
    exists i :: 0 <= i < |log| && log[i] == Opened(id, s.role, s.nonce)
  }

  /** The record is by known sessions, in a phase that explains it. */
  ghost predicate Explained(sessions: map<nat, Session>, e: Event) {
    && e.id in sessions
    && (e.Opened? ==> sessions[e.id].role == e.role && sessions[e.id].nonce == e.nonce)
    && (e.Signed? ==> sessions[e.id].role == e.role && sessions[e.id].phase != AwaitHello)
  }

  ghost predicate HasAccepted(log: seq<Event>, id: nat, before: nat) {
    exists a :: 0 <= a < before && a < |log| && log[a] == AcceptedPeer(id)
  }

  ghost predicate Recorded(w: World) {
    && (forall id :: id in w.sessions ==> WasOpened(w.log, id, w.sessions[id]))
    && (forall i :: 0 <= i < |w.log| ==> Explained(w.sessions, w.log[i]))
    && (forall id :: id in w.sessions && w.sessions[id].phase == Accepted ==> HasAccepted(w.log, id, |w.log|))
  }

  /** No two sessions chose the same nonce. */
  ghost predicate OwnNonces(w: World) {
    forall a, b :: a in w.sessions && b in w.sessions && w.sessions[a].nonce == w.sessions[b].nonce ==> a == b
  }

  /** No session signs twice, and no nonce is signed before it is chosen. */
  ghost predicate SignedOnce(log: seq<Event>) {
    && (forall i, j :: 0 <= i < j < |log| && log[i].Signed? && log[j].Signed? ==> log[i].id != log[j].id)
    && (forall i, j :: 0 <= i < j < |log| && log[i].Signed? && log[j].Opened? ==> log[i].nonce != log[j].nonce)
  }

  ghost predicate SignedAfterOpen(log: seq<Event>, id: nat, role: Role, nonce: string, peer: nat, k: nat) {
    exists i, j :: 0 <= i < j < k <= |log|
      && log[i] == Opened(id, role, nonce) && log[j] == Signed(peer, Opposite(role), nonce)
  }

  /** `id` opened with some nonce, and later, before position k, the honest session
      `peer`, in the opposite role, signed exactly that nonce. */
  ghost predicate Vouched(w: World, id: nat, peer: nat, k: nat) {
    && id in w.sessions && peer in w.sessions && peer != id
    && w.sessions[peer].role == Opposite(w.sessions[id].role)
    && SignedAfterOpen(w.log, id, w.sessions[id].role, w.sessions[id].nonce, peer, k)
  }

  ghost predicate AcceptsAreVouched(w: World) {
    forall k :: 0 <= k < |w.log| && w.log[k].AcceptedPeer? ==> exists peer :: Vouched(w, w.log[k].id, peer, k)
  }

  ghost predicate DataAfterAccept(w: World) {
    forall k :: 0 <= k < |w.log| && w.log[k].HandledData? ==> HasAccepted(w.log, w.log[k].id, k)
  }

  ghost predicate Inv(w: World) {
    Recorded(w) && OwnNonces(w) && SignedOnce(w.log) && AcceptsAreVouched(w) && DataAfterAccept(w)
  }

  /** Moves only add sessions and at most one event; role and nonce are fixed. */
  ghost predicate Extends(w: World, w': World, added: seq<Event>) {
    && w'.log == w.log + added && |added| <= 1
    && forall id :: id in w.sessions ==>
         id in w'.sessions && w'.sessions[id].role == w.sessions[id].role && w'.sessions[id].nonce == w.sessions[id].nonce
  }

  lemma VouchedStays(w: World, w': World, added: seq<Event>, id: nat, peer: nat, k: nat)
    requires Extends(w, w', added) && Vouched(w, id, peer, k)
    ensures Vouched(w', id, peer, k)
  {
    var s := w.sessions[id];
    var i, j :| 0 <= i < j < k <= |w.log|
      && w.log[i] == Opened(id, s.role, s.nonce) && w.log[j] == Signed(peer, Opposite(s.role), s.nonce);
    assert w'.log[i] == w.log[i] && w'.log[j] == w.log[j];
  }

  lemma HasAcceptedStays(log: seq<Event>, added: seq<Event>, id: nat, k: nat)
    requires HasAccepted(log, id, k)
    ensures HasAccepted(log + added, id, k)
  {
    var a :| 0 <= a < k && a < |log| && log[a] == AcceptedPeer(id);
    assert (log + added)[a] == log[a];
  }

  lemma AcceptsStayVouched(w: World, w': World, added: seq<Event>)
    requires Extends(w, w', added) && AcceptsAreVouched(w)
    requires added != [] && added[0].AcceptedPeer? ==> exists peer :: Vouched(w, added[0].id, peer, |w.log|)
    ensures AcceptsAreVouched(w')
  {
    forall k | 0 <= k < |w'.log| && w'.log[k].AcceptedPeer? ensures exists peer :: Vouched(w', w'.log[k].id, peer, k) {
      var peer :| Vouched(w, w'.log[k].id, peer, k);
      VouchedStays(w, w', added, w'.log[k].id, peer, k);
    }
  }

  lemma DataStaysAfterAccept(w: World, w': World, added: seq<Event>)
    requires Extends(w, w', added) && DataAfterAccept(w)
    requires added != [] && added[0].HandledData? ==> HasAccepted(w.log, added[0].id, |w.log|)
    ensures DataAfterAccept(w')
  {
    forall k | 0 <= k < |w'.log| && w'.log[k].HandledData? ensures HasAccepted(w'.log, w'.log[k].id, k) {
      HasAcceptedStays(w.log, added, w'.log[k].id, k);
    }
  }

  lemma OpenedStays(log: seq<Event>, added: seq<Event>, id: nat, s: Session)
    requires WasOpened(log, id, s)
    ensures WasOpened(log + added, id, s)
  {
    var i :| 0 <= i < |log| && log[i] == Opened(id, s.role, s.nonce);
    assert (log + added)[i] == log[i];
  }

  lemma NewNonceIsOwn(w: World, nonce: string)
    requires Recorded(w) && forall e <- w.log :: e.Opened? ==> e.nonce != nonce
    ensures forall a :: a in w.sessions ==> w.sessions[a].nonce != nonce
  {
    forall a | a in w.sessions ensures w.sessions[a].nonce != nonce {
      var s := w.sessions[a];
      var i :| 0 <= i < |w.log| && w.log[i] == Opened(a, s.role, s.nonce);
      assert w.log[i] in w.log;
    }
  }

  lemma NewNonceUnsigned(log: seq<Event>, id: nat, role: Role, nonce: string)
    requires SignedOnce(log) && forall e <- log :: e.Signed? ==> e.nonce != nonce
    ensures SignedOnce(log + [Opened(id, role, nonce)])
  {
    assert forall i :: 0 <= i < |log| ==> log[i] in log;
  }

  lemma OpenKeepsRecorded(w: World, secret: string, mv: Move)
    requires Recorded(w) && Allowed(w, secret, mv) && mv.Open?
    ensures Recorded(Apply(w, secret, mv))
  {
    var w', e := Apply(w, secret, mv), Opened(mv.id, mv.role, mv.nonce);
    forall id | id in w'.sessions ensures WasOpened(w'.log, id, w'.sessions[id]) {
      if id == mv.id {
        assert w'.log[|w.log|] == e;
      } else {
        OpenedStays(w.log, [e], id, w.sessions[id]);
      }
    }
    forall i | 0 <= i < |w'.log| ensures Explained(w'.sessions, w'.log[i]) {
      assert i < |w.log| ==> Explained(w.sessions, w'.log[i]);
    }
    forall id | id in w'.sessions && w'.sessions[id].phase == Accepted ensures HasAccepted(w'.log, id, |w'.log|) {
      HasAcceptedStays(w.log, [e], id, |w.log|);
    }
  }

  lemma OpenKeepsInv(w: World, secret: string, mv: Move)
    requires Inv(w) && Allowed(w, secret, mv) && mv.Open?
    ensures Inv(Apply(w, secret, mv))
  {
    var w', added := Apply(w, secret, mv), [Opened(mv.id, mv.role, mv.nonce)];
    assert Extends(w, w', added);
    OpenKeepsRecorded(w, secret, mv);
    NewNonceIsOwn(w, mv.nonce);
    NewNonceUnsigned(w.log, mv.id, mv.role, mv.nonce);
    AcceptsStayVouched(w, w', added);
    DataStaysAfterAccept(w, w', added);
  }

  lemma SignerIsExplained(w: World, secret: string, p: Proof, role: Role, nonce: string) returns (j: nat)
    requires OnTheWire(w.log, secret, p) && p == AuthProof(secret, role, nonce)
    ensures j < |w.log| && w.log[j].Signed? && w.log[j].role == role && w.log[j].nonce == nonce
  {
    j :| 0 <= j < |w.log| && w.log[j].Signed? && p == AuthProof(secret, w.log[j].role, w.log[j].nonce);
    AuthProofInjective(secret, role, nonce, w.log[j].role, w.log[j].nonce);
  }

  /** The heart of the matter: a proof over (opposite role, my nonce) that is on the
      wire was made, after this session opened, by an honest session in that role. */
  lemma SignerVouches(w: World, id: nat, j: nat)
    requires Inv(w) && id in w.sessions && j < |w.log|
    requires w.log[j] == Signed(w.log[j].id, Opposite(w.sessions[id].role), w.sessions[id].nonce)
    ensures Vouched(w, id, w.log[j].id, |w.log|)
  {
    var s := w.sessions[id];
    var i :| 0 <= i < |w.log| && w.log[i] == Opened(id, s.role, s.nonce);
    assert Explained(w.sessions, w.log[j]);
    assert i < j;
  }

  /** What `Receive` may have appended, without the arithmetic of proofs. */
  ghost predicate Lawful(s: Session, s': Session, id: nat, added: seq<Event>) {
    && s'.role == s.role && s'.nonce == s.nonce
    && match s.phase
       case AwaitHello =>
         (s'.phase == Failed && added == [])
         || (s'.phase == AwaitAuth && |added| == 1 && added[0].Signed? && added[0].id == id && added[0].role == s.role)
       case AwaitAuth => (s'.phase == Failed && added == []) || (s'.phase == Accepted && added == [AcceptedPeer(id)])
       case Accepted => s' == s && (added == [] || added == [HandledData(id)])
       case Failed => s' == s && added == []
  }

  lemma ReceiveIsLawful(secret: string, s: Session, m: Msg, id: nat)
    ensures var (s', e) := Receive(secret, s, m); Lawful(s, s', id, LogOf(id, s', e))
  {
  }

  lemma LawfulKeepsRecorded(w: World, id: nat, s': Session, added: seq<Event>)
    requires Recorded(w) && id in w.sessions && Lawful(w.sessions[id], s', id, added)
    ensures Recorded(World(w.sessions[id := s'], w.log + added))
  {
    var w' := World(w.sessions[id := s'], w.log + added);
    forall x | x in w'.sessions ensures WasOpened(w'.log, x, w'.sessions[x]) {
      OpenedStays(w.log, added, x, w.sessions[x]);
    }
    forall i | 0 <= i < |w'.log| ensures Explained(w'.sessions, w'.log[i]) {
      assert i < |w.log| ==> Explained(w.sessions, w'.log[i]);
    }
    forall x | x in w'.sessions && w'.sessions[x].phase == Accepted ensures HasAccepted(w'.log, x, |w'.log|) {
      if x in w.sessions && w.sessions[x].phase == Accepted {
        HasAcceptedStays(w.log, added, x, |w.log|);
      } else {
        assert w'.log[|w.log|] == AcceptedPeer(x);
      }
    }
  }

  lemma LawfulKeepsSignedOnce(w: World, id: nat, s': Session, added: seq<Event>)
    requires Recorded(w) && SignedOnce(w.log) && id in w.sessions && Lawful(w.sessions[id], s', id, added)
    ensures SignedOnce(w.log + added)
  {
    forall i | 0 <= i < |w.log| && w.log[i].Signed? && w.log[i].id == id ensures added == [] || !added[0].Signed? {
      assert Explained(w.sessions, w.log[i]);
    }
  }

  /** Everything `Inv` needs of one received message. */
  lemma LawfulKeepsInv(w: World, id: nat, s': Session, added: seq<Event>)
    requires Inv(w) && id in w.sessions && Lawful(w.sessions[id], s', id, added)
    requires added == [AcceptedPeer(id)] ==> exists peer :: Vouched(w, id, peer, |w.log|)
    ensures Inv(World(w.sessions[id := s'], w.log + added))
  {
    var w' := World(w.sessions[id := s'], w.log + added);
    LawfulKeepsRecorded(w, id, s', added);
    LawfulKeepsSignedOnce(w, id, s', added);
    AcceptsStayVouched(w, w', added);
    DataStaysAfterAccept(w, w', added);
  }

  lemma AcceptIsVouched(w: World, secret: string, id: nat, msg: Msg)
    requires Inv(w) && Allowed(w, secret, Deliver(id, msg))
    requires Receive(secret, w.sessions[id], msg).1 == Accepts
    ensures exists peer :: Vouched(w, id, peer, |w.log|)
  {
    var s := w.sessions[id];
    var j := SignerIsExplained(w, secret, msg.proof, Opposite(s.role), s.nonce);
    SignerVouches(w, id, j);
  }

  lemma DeliverKeepsInv(w: World, secret: string, id: nat, msg: Msg)
    requires Inv(w) && Allowed(w, secret, Deliver(id, msg))
    ensures Inv(Apply(w, secret, Deliver(id, msg)))
  {
    var (s', e) := Receive(secret, w.sessions[id], msg);
    ReceiveIsLawful(secret, w.sessions[id], msg, id);
    if e == Accepts {
      AcceptIsVouched(w, secret, id, msg);
    }
    LawfulKeepsInv(w, id, s', LogOf(id, s', e));
  }

  lemma {:induction false} RunKeepsInv(secret: string, run: seq<Move>)
    requires IsRun(secret, run)
    ensures Inv(After(secret, run))
  {
    if run != [] {
      var front, mv := run[..|run| - 1], run[|run| - 1];
      RunKeepsInv(secret, front);
      match mv
      case Open(_, _, _) => OpenKeepsInv(After(secret, front), secret, mv);
      case Deliver(id, msg) => DeliverKeepsInv(After(secret, front), secret, id, msg);
    }
  }

  // ----- The guarantees ----------------------------------------------------------

  /** In every interleaving, a session that accepted did so after an honest session in
      the opposite role, while this session was open, signed exactly its nonce. */
  lemma Agreement(secret: string, run: seq<Move>, id: nat)
    requires IsRun(secret, run)
    requires id in After(secret, run).sessions && After(secret, run).sessions[id].phase == Accepted
    ensures var w := After(secret, run);
            exists peer, k :: 0 <= k < |w.log| && w.log[k] == AcceptedPeer(id) && Vouched(w, id, peer, k)
  {
    RunKeepsInv(secret, run);
    var w := After(secret, run);
    var k :| 0 <= k < |w.log| && w.log[k] == AcceptedPeer(id);
    var peer :| Vouched(w, w.log[k].id, peer, k);
  }

  /** One honest session vouches for at most one acceptance, so a recorded proof cannot
      be replayed into a second session. */
  lemma NoPeerVouchesTwice(secret: string, run: seq<Move>, a: nat, b: nat, peer: nat, k: nat, l: nat)
    requires IsRun(secret, run)
    requires Vouched(After(secret, run), a, peer, k) && Vouched(After(secret, run), b, peer, l)
    ensures a == b
  {
    RunKeepsInv(secret, run);
    var w := After(secret, run);
    var s, t := w.sessions[a], w.sessions[b];
    var x :| 0 <= x < |w.log| && w.log[x] == Signed(peer, Opposite(s.role), s.nonce);
    var y :| 0 <= y < |w.log| && w.log[y] == Signed(peer, Opposite(t.role), t.nonce);
    assert x == y;
  }

  /** No Digest or Entry is handled by a session before it accepted its peer. */
  lemma NoDataBeforeAccept(secret: string, run: seq<Move>, k: nat)
    requires IsRun(secret, run)
    requires k < |After(secret, run).log| && After(secret, run).log[k].HandledData?
    ensures var w := After(secret, run);
            exists a, peer :: 0 <= a < k && w.log[a] == AcceptedPeer(w.log[k].id) && Vouched(w, w.log[k].id, peer, a)
  {
    RunKeepsInv(secret, run);
    var w := After(secret, run);
    assert HasAccepted(w.log, w.log[k].id, k);
    var a :| 0 <= a < k && w.log[a] == AcceptedPeer(w.log[k].id);
    var peer :| Vouched(w, w.log[a].id, peer, a);
  }

  /** Replicated data is handled exactly when it reaches a session that accepted its peer, and
      a session that failed does nothing ever after. */
  lemma DataIsHandledIff(secret: string, run: seq<Move>, id: nat, msg: Msg)
    requires id in After(secret, run).sessions
    ensures var w, w' := After(secret, run), After(secret, run + [Deliver(id, msg)]);
            && (w'.log == w.log + [HandledData(id)] <==>
                  w.sessions[id].phase == Accepted && (msg == Digest || msg == Entry))
            && (w.sessions[id].phase == Failed ==> w' == w)
  {
    var w := After(secret, run);
    assert (run + [Deliver(id, msg)])[..|run|] == run;
    var (s, e) := Receive(secret, w.sessions[id], msg);
    var more := LogOf(id, s, e);
    assert w.log + more == w.log + [HandledData(id)] <==> more == [HandledData(id)] by {
      assert (w.log + more)[|w.log|..] == more && (w.log + [HandledData(id)])[|w.log|..] == [HandledData(id)];
    }
    assert w.sessions[id].phase == Failed ==> w.log + more == w.log && w.sessions[id := s] == w.sessions;
  }

  /** The handshake does complete: two honest sessions in opposite roles whose messages
      are delivered unchanged accept each other. */
  lemma HonestPairAccepts(secret: string, a: Session, b: Session)
    requires a.phase == AwaitHello && b.phase == AwaitHello && b.role == Opposite(a.role) && a.nonce != b.nonce
    ensures var (a1, x) := Receive(secret, a, Hello(b.nonce));
            var (b1, y) := Receive(secret, b, Hello(a.nonce));
            var (labelA, labelB) := if a.role == Listener then ("L", "D") else ("D", "L");
            && x == Signs(b.nonce) && y == Signs(a.nonce)
            && Receive(secret, a1, Auth(Hmac(secret, labelB + "\0" + a.nonce))).1 == Accepts
            && Receive(secret, b1, Auth(Hmac(secret, labelA + "\0" + b.nonce))).1 == Accepts
  {
  }
}
