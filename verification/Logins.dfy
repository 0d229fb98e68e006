/** Runs of the SASL agent over all clients, and what every login rests on, told from
    the run alone: who said what, when, and what the store answered then. */
module Logins {
  import opened Text
  import opened Fields
  import opened Sasl
  import S = Scram

  /** One input, and what the engine found outside the agent when handling it. */
  datatype Moment = Moment(env: Env, input: Input)

  function SessionsAt(kit: Kit, run: seq<Moment>): Sessions {
    if run == [] then map[]
    else Step(kit, run[|run| - 1].env, SessionsAt(kit, run[..|run| - 1]), run[|run| - 1].input).sessions
  }

  /** What moment `i` of the run made the agent emit. */
  function OutAt(kit: Kit, run: seq<Moment>, i: nat): seq<Action>
    requires i < |run|
  {
    Step(kit, run[i].env, SessionsAt(kit, run[..i]), run[i].input).out
  }

  /** The job was handed to the link layer at moment `i`. */
  ghost predicate DeferredAt(kit: Kit, run: seq<Moment>, job: Job, i: int) {
    0 <= i < |run| && Defer(job) in OutAt(kit, run, i)
  }

  /** The link layer answers jobs it was given, and password jobs by checking them. */
  ghost predicate Admissible(kit: Kit, run: seq<Moment>, input: Input) {
    input.Verified? ==>
      && (exists i :: DeferredAt(kit, run, input.job, i))
      && (input.job.Password? ==> input.ok == S.VerifyPlain(kit.c, S.Sha256, input.job.verifier, input.job.password))
  }

  ghost predicate IsRun(kit: Kit, run: seq<Moment>) {
    run != [] ==> IsRun(kit, run[..|run| - 1]) && Admissible(kit, run[..|run| - 1], run[|run| - 1].input)
  }

  // ----- One client's exchange ----------------------------------------------------------

  /** A continuation from `client`. */
  predicate Replies(m: Moment, client: string) {
    m.input.Message? && m.input.client == client && m.input.mode == "C"
  }

  function Chunk(m: Moment): string
    requires m.input.Message?
  {
    First(m.input.data)
  }

  /** `client` asks for the exchange `s`. */
  predicate Asks(m: Moment, client: string, s: Session) {
    m.input.Message? && m.input.client == client && m.input.mode == "S" && Opening(m.input.data) == Some(s)
  }

  /** The input is one that touches this client's exchange: a reply, an end, or an
      opening that is not refused. */
  predicate Handles(m: Moment, sessions: Sessions, client: string) {
    match m.input
    case Message(c, mode, data) =>
      && c == client
      && (mode == "C" || mode == "D"
          || (mode == "S" && |Swept(sessions, m.env.now)| < MAX_SASL_SESSIONS && Opening(data).Some?))
    case Verified(_, _) => false
    case Gone(c) => c == client
    case Relink => true
  }

  predicate HandledAt(kit: Kit, run: seq<Moment>, client: string, j: int) {
    0 <= j < |run| && Handles(run[j], SessionsAt(kit, run[..j]), client)
  }

  /** Nothing touched the client's exchange between two moments. */
  ghost predicate Untouched(kit: Kit, run: seq<Moment>, client: string, from: int, end: int) {
    forall j :: from < j < end ==> !HandledAt(kit, run, client, j)
  }

  /** Only replies touched it. */
  ghost predicate OnlyReplies(kit: Kit, run: seq<Moment>, client: string, from: int, end: int) {
    forall j :: from < j < end && HandledAt(kit, run, client, j) ==> Replies(run[j], client)
  }

  /** Opened at moment `k` and not touched since. */
  ghost predicate StartedAt(kit: Kit, run: seq<Moment>, client: string, s: Session, k: int, end: int) {
    0 <= k < end <= |run| && Asks(run[k], client, s) && Untouched(kit, run, client, k, end)
  }

  /** The client-first message of moment `m` is answered with the challenge of `x`: the
      verifier is the one the store gave for `account` under the name it was asked for,
      the nonce extends the client's by the one drawn at that moment. */
  ghost predicate Opens(kit: Kit, m: Moment, client: string, hash: Hash, account: string, x: S.Exchange) {
    && Replies(m, client) && DecodeText(kit, Chunk(m)).Some?
    && var cf := S.ParseClientFirst(DecodeText(kit, Chunk(m)).value);
       && cf.Some? && m.env.scram(cf.value.username, hash).Some?
       && var (name, encoded) := m.env.scram(cf.value.username, hash).value;
          && name == account && !m.env.lockedOut(account)
          && S.VerifierOf(kit.c, encoded) == Some(x.verifier)
          && x.nonce == cf.value.cnonce + m.env.snonce
          && x.gs2Header == cf.value.gs2Header && x.clientFirstBare == cf.value.clientFirstBare
          && x.serverFirst == S.ServerFirst(kit.c, cf.value.cnonce, x.verifier, m.env.snonce).0
  }

  /** A SCRAM exchange opened at `i`, in answer to a request of that mechanism. */
  ghost predicate OpenedAt(kit: Kit, run: seq<Moment>, client: string, hash: Hash, account: string, x: S.Exchange,
      i: int, end: int)
  {
    && 0 <= i < end <= |run| && Opens(kit, run[i], client, hash, account, x) && Untouched(kit, run, client, i, end)
    && exists k :: StartedAt(kit, run, client, Scram(hash, ClientFirst), k, i)
  }

  /** The final of that exchange was verified at `j`. */
  ghost predicate ProvedAt(kit: Kit, run: seq<Moment>, client: string, hash: Hash, account: string, x: S.Exchange,
      i: int, j: int, end: int)
  {
    && j < end <= |run| && OpenedAt(kit, run, client, hash, account, x, i, j)
    && Replies(run[j], client) && DecodeText(kit, Chunk(run[j])).Some?
    && S.Verdict(kit.c, hash, x, DecodeText(kit, Chunk(run[j])).value).Some?
    && Untouched(kit, run, client, j, end)
  }

  /** An ECDSA challenge issued at `i` for the key the store gave for `account`. */
  ghost predicate ChallengedAt(kit: Kit, run: seq<Moment>, client: string, account: string, key: string,
      challenge: Bytes, i: int, end: int)
  {
    && 0 <= i < end <= |run| && Replies(run[i], client) && DecodeText(kit, Chunk(run[i])).Some?
    && run[i].env.pubkey(Sasl.Last(Split(DecodeText(kit, Chunk(run[i])).value, '\0'))) == Some((account, key))
    && challenge == run[i].env.challenge && Untouched(kit, run, client, i, end)
    && exists k :: StartedAt(kit, run, client, Ecdsa(AccountName), k, i)
  }

  /** What the client's replies after moment `k` add up to. */
  function Gathered(run: seq<Moment>, client: string, k: nat, end: nat): string
    requires end <= |run|
    decreases end
  {
    if end <= k + 1 then ""
    else Gathered(run, client, k, end - 1) + Said(run[end - 1], client)
  }

  function Said(m: Moment, client: string): string {
    if Replies(m, client) && Chunk(m) != "+" then Chunk(m) else ""
  }

  /** A PLAIN response collected since the request at `k`. */
  ghost predicate CollectedAt(kit: Kit, run: seq<Moment>, client: string, response: string, k: int, end: int) {
    && 0 <= k < end <= |run| && Asks(run[k], client, Plain("")) && OnlyReplies(kit, run, client, k, end)
    && response == Gathered(run, client, k, end)
  }

  /** Each open exchange is what its own messages made it. */
  ghost predicate Backed(kit: Kit, run: seq<Moment>, client: string, s: Session) {
    match s
    case Plain(r) => exists k :: CollectedAt(kit, run, client, r, k, |run|)
    case Scram(hash, ClientFirst) => exists k :: StartedAt(kit, run, client, s, k, |run|)
    case Scram(hash, ClientFinal(account, x)) => exists i :: OpenedAt(kit, run, client, hash, account, x, i, |run|)
    case Scram(hash, Ack(account)) => exists x, i, j :: ProvedAt(kit, run, client, hash, account, x, i, j, |run|)
    case External(_) => exists k :: StartedAt(kit, run, client, s, k, |run|)
    case Ecdsa(AccountName) => exists k :: StartedAt(kit, run, client, s, k, |run|)
    case Ecdsa(Signature(account, key, challenge)) =>
      exists i :: ChallengedAt(kit, run, client, account, key, challenge, i, |run|)
  }

  ghost predicate AllBacked(kit: Kit, run: seq<Moment>, sessions: Sessions) {
    forall k :: k in sessions ==> Backed(kit, run, k, sessions[k].session)
  }

  // ----- What a longer run keeps -----------------------------------------------------------

  lemma HandledLonger(kit: Kit, run: seq<Moment>, m: Moment, client: string, j: int)
    requires j < |run|
    ensures HandledAt(kit, run + [m], client, j) == HandledAt(kit, run, client, j)
  {
    hide Handles, Step;
    if 0 <= j {
      assert (run + [m])[..j] == run[..j];
    }
  }

  lemma UntouchedLonger(kit: Kit, run: seq<Moment>, m: Moment, client: string, from: int, end: int)
    requires end <= |run| && Untouched(kit, run, client, from, end)
    ensures Untouched(kit, run + [m], client, from, end)
    ensures end == |run| && !HandledAt(kit, run + [m], client, |run|) ==> Untouched(kit, run + [m], client, from, end + 1)
  {
    hide HandledAt;
    forall j | from < j < end ensures !HandledAt(kit, run + [m], client, j) {
      HandledLonger(kit, run, m, client, j);
    }
  }

  lemma StartedLonger(kit: Kit, run: seq<Moment>, m: Moment, client: string, s: Session, k: int, end: int)
    requires StartedAt(kit, run, client, s, k, end)
    ensures StartedAt(kit, run + [m], client, s, k, end)
    ensures end == |run| && !HandledAt(kit, run + [m], client, |run|) ==> StartedAt(kit, run + [m], client, s, k, end + 1)
  {
    hide HandledAt, Untouched, Asks;
    UntouchedLonger(kit, run, m, client, k, end);
    assert (run + [m])[k] == run[k];
  }

  lemma OpenedLonger(kit: Kit, run: seq<Moment>, m: Moment, client: string, hash: Hash, account: string, x: S.Exchange,
      i: int, end: int)
    requires OpenedAt(kit, run, client, hash, account, x, i, end)
    ensures OpenedAt(kit, run + [m], client, hash, account, x, i, end)
    ensures end == |run| && !HandledAt(kit, run + [m], client, |run|) ==>
              OpenedAt(kit, run + [m], client, hash, account, x, i, end + 1)
  {
    hide HandledAt, Untouched, StartedAt, Opens;
    UntouchedLonger(kit, run, m, client, i, end);
    assert (run + [m])[i] == run[i];
    var k :| StartedAt(kit, run, client, Scram(hash, ClientFirst), k, i);
    StartedLonger(kit, run, m, client, Scram(hash, ClientFirst), k, i);
  }

  lemma ProvedLonger(kit: Kit, run: seq<Moment>, m: Moment, client: string, hash: Hash, account: string, x: S.Exchange,
      i: int, j: int, end: int)
    requires ProvedAt(kit, run, client, hash, account, x, i, j, end)
    ensures ProvedAt(kit, run + [m], client, hash, account, x, i, j, end)
    ensures end == |run| && !HandledAt(kit, run + [m], client, |run|) ==>
              ProvedAt(kit, run + [m], client, hash, account, x, i, j, end + 1)
  {
    hide HandledAt, Untouched, OpenedAt, Replies, DecodeText;
    UntouchedLonger(kit, run, m, client, j, end);
    OpenedLonger(kit, run, m, client, hash, account, x, i, j);
    assert (run + [m])[j] == run[j] by { OpenedBefore(kit, run, client, hash, account, x, i, j); }
  }

  lemma OpenedBefore(kit: Kit, run: seq<Moment>, client: string, hash: Hash, account: string, x: S.Exchange,
      i: int, end: int)
    requires OpenedAt(kit, run, client, hash, account, x, i, end)
    ensures 0 <= i < end <= |run|
  {
  }

  lemma ChallengedLonger(kit: Kit, run: seq<Moment>, m: Moment, client: string, account: string, key: string,
      challenge: Bytes, i: int, end: int)
    requires ChallengedAt(kit, run, client, account, key, challenge, i, end)
    ensures ChallengedAt(kit, run + [m], client, account, key, challenge, i, end)
    ensures end == |run| && !HandledAt(kit, run + [m], client, |run|) ==>
              ChallengedAt(kit, run + [m], client, account, key, challenge, i, end + 1)
  {
    hide HandledAt, Untouched, StartedAt, Replies, DecodeText, Split;
    UntouchedLonger(kit, run, m, client, i, end);
    assert (run + [m])[i] == run[i];
    var k :| StartedAt(kit, run, client, Ecdsa(AccountName), k, i);
    StartedLonger(kit, run, m, client, Ecdsa(AccountName), k, i);
  }

  lemma {:induction false} GatheredLonger(run: seq<Moment>, m: Moment, client: string, k: nat, end: nat)
    requires end <= |run|
    ensures Gathered(run + [m], client, k, end) == Gathered(run, client, k, end)
    decreases end
  {
    if end > k + 1 {
      GatheredLonger(run, m, client, k, end - 1);
      assert (run + [m])[end - 1] == run[end - 1];
    }
  }

  lemma CollectedLonger(kit: Kit, run: seq<Moment>, m: Moment, client: string, response: string, k: int, end: int)
    requires CollectedAt(kit, run, client, response, k, end)
    ensures CollectedAt(kit, run + [m], client, response, k, end)
    ensures end == |run| && (HandledAt(kit, run + [m], client, |run|) ==> Replies(m, client)) ==>
              CollectedAt(kit, run + [m], client, Gathered(run + [m], client, k, end + 1), k, end + 1)
  {
    hide HandledAt, Replies, Asks, Gathered;
    var run' := run + [m];
    assert run'[k] == run[k];
    GatheredLonger(run, m, client, k, end);
    forall j | k < j < end && HandledAt(kit, run', client, j) ensures Replies(run'[j], client) {
      HandledLonger(kit, run, m, client, j);
      assert run'[j] == run[j];
    }
    assert run'[|run|] == m;
  }

  /** A reply is handled, so an unhandled input adds nothing to a response. */
  lemma NothingGathered(kit: Kit, run: seq<Moment>, m: Moment, client: string, k: int)
    requires 0 <= k < |run| && !HandledAt(kit, run + [m], client, |run|)
    ensures Gathered(run + [m], client, k, |run| + 1) == Gathered(run, client, k, |run|)
  {
    GatheredLonger(run, m, client, k, |run|);
    assert (run + [m])[|run|] == m;
    assert !Replies(m, client);
  }

  lemma BackedLonger(kit: Kit, run: seq<Moment>, m: Moment, client: string, s: Session)
    requires Backed(kit, run, client, s) && !HandledAt(kit, run + [m], client, |run|)
    ensures Backed(kit, run + [m], client, s)
  {
    hide HandledAt, StartedAt, OpenedAt, ProvedAt, ChallengedAt, CollectedAt, Gathered;
    match s
    case Plain(r) =>
      var k :| CollectedAt(kit, run, client, r, k, |run|);
      CollectedRange(kit, run, client, r, k, |run|);
      CollectedLonger(kit, run, m, client, r, k, |run|);
      NothingGathered(kit, run, m, client, k);
      assert CollectedAt(kit, run + [m], client, r, k, |run + [m]|);
    case Scram(hash, ClientFirst) =>
      var k :| StartedAt(kit, run, client, s, k, |run|);
      StartedLonger(kit, run, m, client, s, k, |run|);
      assert StartedAt(kit, run + [m], client, s, k, |run + [m]|);
    case Scram(hash, ClientFinal(account, x)) =>
      var i :| OpenedAt(kit, run, client, hash, account, x, i, |run|);
      OpenedLonger(kit, run, m, client, hash, account, x, i, |run|);
      assert OpenedAt(kit, run + [m], client, hash, account, x, i, |run + [m]|);
    case Scram(hash, Ack(account)) =>
      var x, i, j :| ProvedAt(kit, run, client, hash, account, x, i, j, |run|);
      ProvedLonger(kit, run, m, client, hash, account, x, i, j, |run|);
      assert ProvedAt(kit, run + [m], client, hash, account, x, i, j, |run + [m]|);
    case External(_) =>
      var k :| StartedAt(kit, run, client, s, k, |run|);
      StartedLonger(kit, run, m, client, s, k, |run|);
      assert StartedAt(kit, run + [m], client, s, k, |run + [m]|);
    case Ecdsa(AccountName) =>
      var k :| StartedAt(kit, run, client, s, k, |run|);
      StartedLonger(kit, run, m, client, s, k, |run|);
      assert StartedAt(kit, run + [m], client, s, k, |run + [m]|);
    case Ecdsa(Signature(account, key, challenge)) =>
      var i :| ChallengedAt(kit, run, client, account, key, challenge, i, |run|);
      ChallengedLonger(kit, run, m, client, account, key, challenge, i, |run|);
      assert ChallengedAt(kit, run + [m], client, account, key, challenge, i, |run + [m]|);
  }

  lemma CollectedRange(kit: Kit, run: seq<Moment>, client: string, response: string, k: int, end: int)
    requires CollectedAt(kit, run, client, response, k, end)
    ensures 0 <= k < end <= |run| && response == Gathered(run, client, k, end)
  {
  }

  // ----- Each input keeps every exchange backed -------------------------------------------------

  /** What is not handled for a client leaves its exchange as it was, or evicts it. */
  lemma UnhandledStays(kit: Kit, m: Moment, sessions: Sessions, client: string)
    requires !Handles(m, sessions, client)
    ensures var after := Step(kit, m.env, sessions, m.input).sessions;
            client in after ==> client in sessions && after[client] == sessions[client]
  {
  }

  lemma NewMoment(kit: Kit, run: seq<Moment>, m: Moment, client: string)
    ensures SessionsAt(kit, run + [m]) == Step(kit, m.env, SessionsAt(kit, run), m.input).sessions
    ensures HandledAt(kit, run + [m], client, |run|) == Handles(m, SessionsAt(kit, run), client)
    ensures (run + [m])[|run|] == m
    ensures Untouched(kit, run + [m], client, |run|, |run| + 1)
  {
    hide Handles, Step;
    assert (run + [m])[..|run|] == run;
  }

  /** The exchange an accepted opening or a reply leaves behind is backed. */
  lemma AskedIsBacked(kit: Kit, run: seq<Moment>, m: Moment, client: string, s: Session)
    requires Asks(m, client, s)
    ensures Backed(kit, run + [m], client, s)
  {
    NewMoment(kit, run, m, client);
    assert StartedAt(kit, run + [m], client, s, |run|, |run| + 1);
    if s.Plain? {
      assert Gathered(run + [m], client, |run|, |run| + 1) == "";
      assert CollectedAt(kit, run + [m], client, s.response, |run|, |run| + 1);
    }
  }

  lemma ScramIsBacked(kit: Kit, run: seq<Moment>, m: Moment, client: string, hash: Hash, step: ScramStep, rest: Sessions)
    requires Replies(m, client) && Backed(kit, run, client, Scram(hash, step)) && client !in rest
    ensures var after := ScramMove(kit, m.env, rest, client, hash, step, Chunk(m)).sessions;
            client in after ==> Backed(kit, run + [m], client, after[client].session)
  {
    hide Untouched, StartedAt, OpenedAt, S.VerifierOf, S.ParseClientFirst, S.Verdict, DecodeText, OpenScram;
    NewMoment(kit, run, m, client);
    if client in ScramMove(kit, m.env, rest, client, hash, step, Chunk(m)).sessions {
      match step
      case ClientFirst =>
        var k :| StartedAt(kit, run, client, Scram(hash, ClientFirst), k, |run|);
        StartedLonger(kit, run, m, client, Scram(hash, ClientFirst), k, |run|);
        OpenIsBacked(kit, run, m, client, hash, k);
      case ClientFinal(account, x) =>
        var i :| OpenedAt(kit, run, client, hash, account, x, i, |run|);
        OpenedLonger(kit, run, m, client, hash, account, x, i, |run|);
        assert ProvedAt(kit, run + [m], client, hash, account, x, i, |run|, |run + [m]|);
      case Ack(_) =>
    }
  }

  lemma OpenIsBacked(kit: Kit, run: seq<Moment>, m: Moment, client: string, hash: Hash, k: int)
    requires Replies(m, client) && OpenScram(kit, m.env, hash, Chunk(m)).Some?
    requires StartedAt(kit, run + [m], client, Scram(hash, ClientFirst), k, |run|)
    ensures var (account, x) := OpenScram(kit, m.env, hash, Chunk(m)).value;
            Backed(kit, run + [m], client, Scram(hash, ClientFinal(account, x)))
  {
    hide Untouched, StartedAt, S.VerifierOf, S.ParseClientFirst, DecodeText;
    NewMoment(kit, run, m, client);
    var (account, x) := OpenScram(kit, m.env, hash, Chunk(m)).value;
    assert Opens(kit, m, client, hash, account, x);
    assert OpenedAt(kit, run + [m], client, hash, account, x, |run|, |run| + 1);
  }

  lemma EcdsaIsBacked(kit: Kit, run: seq<Moment>, m: Moment, client: string, step: EcdsaStep, rest: Sessions)
    requires Replies(m, client) && Backed(kit, run, client, Ecdsa(step)) && client !in rest
    ensures var after := EcdsaMove(kit, m.env, rest, client, step, Chunk(m)).sessions;
            client in after ==> Backed(kit, run + [m], client, after[client].session)
  {
    hide Untouched, StartedAt, DecodeText, Split;
    NewMoment(kit, run, m, client);
    if client in EcdsaMove(kit, m.env, rest, client, step, Chunk(m)).sessions {
      var k :| StartedAt(kit, run, client, Ecdsa(AccountName), k, |run|);
      StartedLonger(kit, run, m, client, Ecdsa(AccountName), k, |run|);
      var (account, key) := m.env.pubkey(Sasl.Last(Split(DecodeText(kit, Chunk(m)).value, '\0'))).value;
      assert ChallengedAt(kit, run + [m], client, account, key, m.env.challenge, |run|, |run + [m]|);
    }
  }

  lemma PlainIsBacked(kit: Kit, run: seq<Moment>, m: Moment, client: string, r: string)
    requires Replies(m, client) && Backed(kit, run, client, Plain(r))
    ensures Backed(kit, run + [m], client, Plain(if Chunk(m) != "+" then r + Chunk(m) else r))
  {
    hide CollectedAt;
    var k := GatheredWith(kit, run, m, client, r);
    assert CollectedAt(kit, run + [m], client, if Chunk(m) != "+" then r + Chunk(m) else r, k, |run + [m]|);
  }

  /** The response so far, with this reply, is what the replies since the request add up to. */
  lemma GatheredWith(kit: Kit, run: seq<Moment>, m: Moment, client: string, r: string) returns (k: int)
    requires Replies(m, client) && Backed(kit, run, client, Plain(r))
    ensures var whole := if Chunk(m) != "+" then r + Chunk(m) else r;
            CollectedAt(kit, run + [m], client, whole, k, |run| + 1)
  {
    k :| CollectedAt(kit, run, client, r, k, |run|);
    CollectedLonger(kit, run, m, client, r, k, |run|);
    GatheredLonger(run, m, client, k, |run|);
    assert (run + [m])[|run|] == m;
    assert r + "" == r;
  }

  lemma HandledIsBacked(kit: Kit, run: seq<Moment>, m: Moment, client: string)
    requires AllBacked(kit, run, SessionsAt(kit, run)) && Handles(m, SessionsAt(kit, run), client)
    ensures var after := SessionsAt(kit, run + [m]);
            client in after ==> Backed(kit, run + [m], client, after[client].session)
  {
    hide Backed, PlainDecision, ExternalDecision, ScramMove, EcdsaMove, DecodeText, Opening;
    NewMoment(kit, run, m, client);
    var sessions := SessionsAt(kit, run);
    if m.input.Message? && m.input.mode == "S" {
      AskedIsBacked(kit, run, m, client, Opening(m.input.data).value);
    } else if Replies(m, client) && client in sessions {
      match sessions[client].session
      case Plain(r) => PlainIsBacked(kit, run, m, client, r);
      case Scram(hash, step) => ScramIsBacked(kit, run, m, client, hash, step, sessions - {client});
      case External(_) =>
      case Ecdsa(step) => EcdsaIsBacked(kit, run, m, client, step, sessions - {client});
    }
  }

  lemma StepKeepsBacked(kit: Kit, run: seq<Moment>, m: Moment)
    requires AllBacked(kit, run, SessionsAt(kit, run))
    ensures AllBacked(kit, run + [m], SessionsAt(kit, run + [m]))
  {
    hide Backed, Handles, Step, HandledAt, Untouched;
    var after := SessionsAt(kit, run + [m]);
    forall k | k in after ensures Backed(kit, run + [m], k, after[k].session) {
      NewMoment(kit, run, m, k);
      if Handles(m, SessionsAt(kit, run), k) {
        HandledIsBacked(kit, run, m, k);
      } else {
        UnhandledStays(kit, m, SessionsAt(kit, run), k);
        BackedLonger(kit, run, m, k, after[k].session);
      }
    }
  }

  /** In every interleaving each open exchange is what its own client's messages, and
      the store at those moments, made it. */
  lemma {:induction false} ExchangesAreBacked(kit: Kit, run: seq<Moment>)
    ensures AllBacked(kit, run, SessionsAt(kit, run))
  {
    hide Backed, Step;
    if run != [] {
      ExchangesAreBacked(kit, run[..|run| - 1]);
      StepKeepsBacked(kit, run[..|run| - 1], run[|run| - 1]);
      assert run == run[..|run| - 1] + [run[|run| - 1]];
    }
  }

  /** In every interleaving there are at most 4096 exchanges, and no buffered PLAIN
      response is longer than 8192 characters. */
  lemma {:induction false} RunStaysBounded(kit: Kit, run: seq<Moment>)
    ensures Bounded(SessionsAt(kit, run))
  {
    hide Step, Bounded;
    if run == [] {
      assert Bounded(map[]) by { NoSessions(); }
    } else {
      RunStaysBounded(kit, run[..|run| - 1]);
      StepKeepsBounded(kit, run[|run| - 1].env, SessionsAt(kit, run[..|run| - 1]), run[|run| - 1].input);
    }
  }

  lemma NoSessions()
    ensures Bounded(map[])
  {
  }

  // ----- Why a login happened ------------------------------------------------------------------

  /** The acknowledged SCRAM exchange: opened for `account` at `i`, verified at `j`. */
  ghost predicate ByScram(kit: Kit, run: seq<Moment>, n: nat, client: string, account: string)
    requires n < |run|
  {
    Replies(run[n], client) && exists hash, x, i, j :: ProvedAt(kit, run, client, hash, account, x, i, j, n)
  }

  /** A fingerprint the ircd relayed when this exchange was asked for. */
  ghost predicate Shown(kit: Kit, run: seq<Moment>, n: nat, client: string, account: string, k: int, fp: string)
    requires n < |run|
  {
    && 0 <= k < n && run[k].input.Message? && run[k].input.data != [] && First(run[k].input.data) == "EXTERNAL"
    && StartedAt(kit, run, client, External(LowerAll(run[k].input.data[1..])), k, n)
    && fp in LowerAll(run[k].input.data[1..]) && run[n].env.certOwner(fp) == Some(account)
  }

  /** The certificate belongs to `account`, and the name the client gave, if any, too. */
  ghost predicate ByCertificate(kit: Kit, run: seq<Moment>, n: nat, client: string, account: string)
    requires n < |run|
  {
    && Replies(run[n], client) && (exists k, fp :: Shown(kit, run, n, client, account, k, fp))
    && var chunk := Chunk(run[n]);
       (chunk == "+" || chunk == ""
        || (DecodeText(kit, chunk).Some? && NamesAccount(run[n].env, DecodeText(kit, chunk).value, account)))
  }

  /** The challenge of this exchange, signed with the key of `account`. */
  ghost predicate ByKey(kit: Kit, run: seq<Moment>, n: nat, client: string, account: string)
    requires n < |run|
  {
    && Replies(run[n], client)
    && exists key, challenge, i ::
         ChallengedAt(kit, run, client, account, key, challenge, i, n) && kit.signed(key, challenge, Chunk(run[n]))
  }

  /** The job carries what the client's replies since its request at `k` decode to, and
      what the store held under that name at `i`. */
  ghost predicate AskedFor(kit: Kit, run: seq<Moment>, job: Job, k: int, i: int) {
    && 0 <= k < i < |run| && Asks(run[k], job.client, Plain("")) && Replies(run[i], job.client)
    && OnlyReplies(kit, run, job.client, k, i)
    && var plain := DecodePlain(kit, Gathered(run, job.client, k, i + 1));
       plain.Some? && JobFor(run[i].env, plain.value.0, plain.value.1, job)
  }

  predicate JobFor(env: Env, authcid: string, secret: string, job: Job) {
    match job
    case Password(_, account, verifier, password) =>
      password == secret && env.scram(authcid, S.Sha256) == Some((account, verifier)) && !env.lockedOut(account)
    case Keycard(_, account, token) =>
      && token == secret && "kc_" <= token
      && account == if env.resolve(authcid).Some? then env.resolve(authcid).value else authcid
  }

  /** A check asked for by this client's own PLAIN exchange came back good. */
  ghost predicate ByDeferral(kit: Kit, run: seq<Moment>, n: nat, client: string, account: string)
    requires n < |run|
  {
    var input := run[n].input;
    && input.Verified? && input.ok && input.job.client == client && input.job.account == account
    && (exists k, i :: i < n && AskedFor(kit, run, input.job, k, i))
    && (input.job.Password? ==> S.VerifyPlain(kit.c, S.Sha256, input.job.verifier, input.job.password))
  }

  lemma HandledPrefix(kit: Kit, run: seq<Moment>, n: nat, client: string, j: int)
    requires j < n <= |run|
    ensures HandledAt(kit, run[..n], client, j) == HandledAt(kit, run, client, j)
  {
    hide Handles, Step;
    if 0 <= j {
      assert run[..n][..j] == run[..j];
    }
  }

  lemma {:induction false} GatheredPrefix(run: seq<Moment>, n: nat, client: string, k: nat, end: nat)
    requires end <= n <= |run|
    ensures Gathered(run[..n], client, k, end) == Gathered(run, client, k, end)
    decreases end
  {
    if end > k + 1 {
      GatheredPrefix(run, n, client, k, end - 1);
    }
  }

  lemma CollectedPrefix(kit: Kit, run: seq<Moment>, n: nat, client: string, response: string, k: int)
    requires n <= |run| && CollectedAt(kit, run[..n], client, response, k, n)
    ensures CollectedAt(kit, run, client, response, k, n)
  {
    hide HandledAt, Replies, Asks;
    GatheredPrefix(run, n, client, k, n);
    forall j | k < j < n && HandledAt(kit, run, client, j) ensures Replies(run[j], client) {
      HandledPrefix(kit, run, n, client, j);
    }
  }

  lemma DecidedFor(kit: Kit, env: Env, client: string, response: string, job: Job)
    requires Defer(job) in PlainDecision(kit, env, client, response)
    ensures job.client == client && DecodePlain(kit, response).Some?
    ensures JobFor(env, DecodePlain(kit, response).value.0, DecodePlain(kit, response).value.1, job)
  {
  }

  /** Only a PLAIN exchange defers anything. */
  lemma DeferIsPlain(kit: Kit, m: Moment, sessions: Sessions, job: Job)
    requires Defer(job) in Step(kit, m.env, sessions, m.input).out
    ensures m.input.Message? && Replies(m, m.input.client)
    ensures m.input.client in sessions && sessions[m.input.client].session.Plain?
    ensures var r := sessions[m.input.client].session.response;
            Defer(job) in PlainDecision(kit, m.env, m.input.client, if Chunk(m) != "+" then r + Chunk(m) else r)
  {
    hide PlainDecision, OpenScram, DecodeText;
  }

  /** Whatever is deferred was asked for by the client's own replies. */
  lemma DeferredIsAsked(kit: Kit, run: seq<Moment>, job: Job, i: int)
    requires DeferredAt(kit, run, job, i)
    ensures exists k :: AskedFor(kit, run, job, k, i)
  {
    hide PlainDecision, Step, DecodePlain, HandledAt, OnlyReplies, JobFor;
    var sessions := SessionsAt(kit, run[..i]);
    DeferIsPlain(kit, run[i], sessions, job);
    var client := run[i].input.client;
    var r := sessions[client].session.response;
    ExchangesAreBacked(kit, run[..i]);
    assert Backed(kit, run[..i], client, Plain(r));
    var k :| CollectedAt(kit, run[..i], client, r, k, i);
    CollectedPrefix(kit, run, i, client, r, k);
    DecidedFor(kit, run[i].env, client, if Chunk(run[i]) != "+" then r + Chunk(run[i]) else r, job);
    assert r + "" == r;
    assert Gathered(run, client, k, i + 1) == if Chunk(run[i]) != "+" then r + Chunk(run[i]) else r;
    assert AskedFor(kit, run, job, k, i);
  }

  lemma {:induction false} FirstOwnedIsOwned(env: Env, fps: seq<string>)
    ensures FirstOwned(env, fps).Some? ==>
              var (fp, account) := FirstOwned(env, fps).value; fp in fps && env.certOwner(fp) == Some(account)
  {
    if fps != [] {
      FirstOwnedIsOwned(env, fps[1..]);
      assert fps == [fps[0]] + fps[1..];
    }
  }

  /** Only these four ways lead to a login, and never into a suspended account. */
  lemma LoginFrom(kit: Kit, m: Moment, sessions: Sessions, client: string, account: string)
    requires SetAccount(client, account) in Step(kit, m.env, sessions, m.input).out
    ensures !m.env.suspended(account)
    ensures m.input.Verified? ==> m.input.ok && m.input.job.client == client && m.input.job.account == account
    ensures !m.input.Verified? ==>
              Replies(m, client) && client in sessions && Final(kit, m, sessions[client].session, account)
  {
    hide PlainDecision, OpenScram, DecodeText, NamesAccount;
    if m.input.Message? && m.input.mode == "C" && m.input.client in sessions {
      match sessions[m.input.client].session
      case Plain(r) => PlainSetsNothing(kit, m.env, m.input.client, if Chunk(m) != "+" then r + Chunk(m) else r);
      case Scram(_, _) =>
      case External(_) =>
      case Ecdsa(_) =>
    }
  }

  lemma PlainSetsNothing(kit: Kit, env: Env, client: string, response: string)
    ensures forall c, a :: SetAccount(c, a) !in PlainDecision(kit, env, client, response)
  {
  }

  /** The reply completes the exchange with a login to `account`. */
  predicate Final(kit: Kit, m: Moment, s: Session, account: string)
    requires m.input.Message?
  {
    match s
    case Plain(_) => false
    case Scram(_, step) => step == Ack(account)
    case External(fps) =>
      && FirstOwned(m.env, fps).Some? && FirstOwned(m.env, fps).value.1 == account
      && (Chunk(m) == "+" || Chunk(m) == ""
          || (DecodeText(kit, Chunk(m)).Some? && NamesAccount(m.env, DecodeText(kit, Chunk(m)).value, account)))
    case Ecdsa(step) => step.Signature? && step.account == account && kit.signed(step.pubkey, step.challenge, Chunk(m))
  }

  lemma AskedData(m: Moment, client: string, fps: seq<string>)
    requires Asks(m, client, External(fps))
    ensures m.input.data != [] && First(m.input.data) == "EXTERNAL" && fps == LowerAll(m.input.data[1..])
  {
  }

  lemma FinalIsEarned(kit: Kit, front: seq<Moment>, m: Moment, client: string, account: string, s: Session)
    requires Backed(kit, front, client, s) && Replies(m, client) && Final(kit, m, s, account)
    ensures var run := front + [m];
            ByScram(kit, run, |front|, client, account) || ByCertificate(kit, run, |front|, client, account)
            || ByKey(kit, run, |front|, client, account)
  {
    hide HandledAt, Untouched, OpenedAt, DecodeText, NamesAccount;
    var run := front + [m];
    assert run[|front|] == m;
    match s
    case Scram(hash, _) =>
      var x, i, j :| ProvedAt(kit, front, client, hash, account, x, i, j, |front|);
      ProvedLonger(kit, front, m, client, hash, account, x, i, j, |front|);
    case External(fps) =>
      var k :| StartedAt(kit, front, client, s, k, |front|);
      StartedLonger(kit, front, m, client, s, k, |front|);
      AskedData(front[k], client, fps);
      assert run[k] == front[k];
      FirstOwnedIsOwned(m.env, fps);
      assert Shown(kit, run, |front|, client, account, k, FirstOwned(m.env, fps).value.0);
    case Ecdsa(step) =>
      var i :| ChallengedAt(kit, front, client, account, step.pubkey, step.challenge, i, |front|);
      ChallengedLonger(kit, front, m, client, account, step.pubkey, step.challenge, i, |front|);
  }

  /** In every interleaving, a client is logged in to an account only as the end of its
      own exchange: the verifier, key or certificate checked is the one the store gave for
      that account, the nonce or challenge the one drawn in this exchange, and nothing
      else of this client was handled in between; or as the good answer to a check
      that its own PLAIN response asked for. Never to a suspended account. */
  lemma LoginIsEarned(kit: Kit, run: seq<Moment>, n: nat, client: string, account: string)
    requires IsRun(kit, run) && n == |run| - 1
    ensures SetAccount(client, account) in OutAt(kit, run, n) ==>
              && !run[n].env.suspended(account)
              && (|| ByScram(kit, run, n, client, account)
                  || ByCertificate(kit, run, n, client, account)
                  || ByKey(kit, run, n, client, account)
                  || ByDeferral(kit, run, n, client, account))
  {
    hide Step, Backed, Final, ByScram, ByCertificate, ByKey;
    if SetAccount(client, account) in OutAt(kit, run, n) {
      var front, m := run[..n], run[n];
      LoginFrom(kit, m, SessionsAt(kit, front), client, account);
      assert run == front + [m];
      if m.input.Verified? {
        var i :| DeferredAt(kit, front, m.input.job, i);
        assert run[..n][..i] == run[..i];
        DeferredIsAsked(kit, run, m.input.job, i);
      } else {
        ExchangesAreBacked(kit, front);
        FinalIsEarned(kit, front, m, client, account, SessionsAt(kit, front)[client].session);
      }
    }
  }
}
