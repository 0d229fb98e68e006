/** What the SASL agent answers, over whole runs: every answer has one of five forms, and a
    client that does its part is challenged, answered and logged in whatever the other
    clients do meanwhile. */
module LoginOutcomes {
  import opened Text
  import opened Numerals
  import opened Fields
  import opened Sasl
  import opened Logins
  import opened PlainResponses
  import S = Scram

  // ----- The forms of an answer --------------------------------------------------------

  predicate Challenged(out: seq<Action>, client: string) {
    |out| == 1 && out[0].Reply? && out[0].client == client && out[0].mode == "C" && |out[0].data| == 1
  }

  predicate Failed(out: seq<Action>, client: string) {
    out == [Reply(client, "D", ["F"])]
  }

  predicate LoggedIn(out: seq<Action>, client: string, account: string) {
    out == [SetAccount(client, account), Reply(client, "D", ["S"])]
  }

  ghost predicate Succeeded(out: seq<Action>, client: string) {
    exists account :: LoggedIn(out, client, account)
  }

  predicate Deferred(out: seq<Action>, client: string) {
    |out| == 1 && out[0].Defer? && out[0].job.client == client
  }

  ghost predicate Answered(out: seq<Action>, client: string) {
    out == [] || Challenged(out, client) || Failed(out, client) || Succeeded(out, client) || Deferred(out, client)
  }

  /** Whom an input is from. */
  function From(input: Input): string {
    match input
    case Message(client, _, _) => client
    case Verified(job, _) => job.client
    case Gone(client) => client
    case Relink => ""
  }

  /** An answer that ends the exchange. */
  ghost predicate Ends(out: seq<Action>, client: string) {
    Failed(out, client) || Succeeded(out, client) || Deferred(out, client)
  }

  lemma LoginEnds(env: Env, client: string, account: string)
    ensures Ends(Login(env, client, account), client)
    ensures if env.suspended(account) then Failed(Login(env, client, account), client)
            else LoggedIn(Login(env, client, account), client, account)
  {
    assert !env.suspended(account) ==> LoggedIn(Login(env, client, account), client, account);
  }

  /** The exchange is put back with a challenge, or taken out for good with its result. */
  ghost predicate GoesOnOrEnds(o: Outcome, client: string) {
    if client in o.sessions then Challenged(o.out, client) else Ends(o.out, client)
  }

  lemma ScramAnswers(kit: Kit, env: Env, rest: Sessions, client: string, hash: Hash, step: ScramStep, chunk: string)
    requires client !in rest
    ensures GoesOnOrEnds(ScramMove(kit, env, rest, client, hash, step, chunk), client)
  {
    hide OpenScram, S.Verdict, DecodeText, Login;
    if step.Ack? {
      LoginEnds(env, client, step.account);
    }
  }

  lemma EcdsaAnswers(kit: Kit, env: Env, rest: Sessions, client: string, step: EcdsaStep, chunk: string)
    requires client !in rest
    ensures GoesOnOrEnds(EcdsaMove(kit, env, rest, client, step, chunk), client)
  {
    hide DecodeText, Login, Split;
    match step
    case Signature(account, _, _) => LoginEnds(env, client, account);
    case _ =>
  }

  lemma ExternalEnds(kit: Kit, env: Env, client: string, fps: seq<string>, chunk: string)
    ensures Ends(ExternalDecision(kit, env, client, fps, chunk), client)
  {
    hide DecodeText, Login, NamesAccount, FirstOwned;
    if FirstOwned(env, fps).Some? {
      LoginEnds(env, client, FirstOwned(env, fps).value.1);
    }
  }

  lemma PlainEnds(kit: Kit, env: Env, client: string, response: string)
    ensures Ends(PlainDecision(kit, env, client, response), client)
  {
    hide DecodePlain;
  }

  /** A full chunk of a PLAIN response that fits. */
  predicate Buffers(sessions: Sessions, client: string, chunk: string) {
    && client in sessions && sessions[client].session.Plain? && |chunk| >= 400
    && |sessions[client].session.response| + |chunk| <= 8192
  }

  lemma ContinueAnswers(kit: Kit, env: Env, sessions: Sessions, client: string, chunk: string)
    ensures var o := Continue(kit, env, sessions, client, chunk);
            if Buffers(sessions, client, chunk) then o.out == [] && client in o.sessions else GoesOnOrEnds(o, client)
  {
    hide ScramMove, EcdsaMove, ExternalDecision, PlainDecision, GoesOnOrEnds, Ends, Challenged;
    if client !in sessions {
      NoExchangeEnds(sessions, client);
    } else {
      var rest := sessions - {client};
      match sessions[client].session
      case Plain(r) =>
        NoExchangeEnds(rest, client);
        PlainAnswers(kit, env, rest, client, r, chunk);
      case Scram(hash, step) => ScramAnswers(kit, env, rest, client, hash, step, chunk);
      case External(fps) =>
        ExternalEnds(kit, env, client, fps, chunk);
        GoneEnds(rest, ExternalDecision(kit, env, client, fps, chunk), client);
      case Ecdsa(step) => EcdsaAnswers(kit, env, rest, client, step, chunk);
    }
  }

  lemma NoExchangeEnds(rest: Sessions, client: string)
    requires client !in rest
    ensures GoesOnOrEnds(Outcome(rest, Fail(client)), client)
  {
  }

  lemma GoneEnds(rest: Sessions, out: seq<Action>, client: string)
    requires client !in rest && Ends(out, client)
    ensures GoesOnOrEnds(Outcome(rest, out), client)
  {
  }

  lemma PlainAnswers(kit: Kit, env: Env, rest: Sessions, client: string, r: string, chunk: string)
    requires client !in rest
    ensures TakeChunk(r, chunk).Whole? ==>
              GoesOnOrEnds(Outcome(rest, PlainDecision(kit, env, client, TakeChunk(r, chunk).response)), client)
  {
    if TakeChunk(r, chunk).Whole? {
      PlainEnds(kit, env, client, TakeChunk(r, chunk).response);
      GoneEnds(rest, PlainDecision(kit, env, client, TakeChunk(r, chunk).response), client);
    }
  }

  lemma StepAnswers(kit: Kit, m: Moment, sessions: Sessions)
    ensures Answered(Step(kit, m.env, sessions, m.input).out, From(m.input))
  {
    hide Continue, Login, Swept;
    match m.input
    case Message(client, mode, data) =>
      if mode == "C" {
        ContinueAnswers(kit, m.env, sessions, client, First(data));
      }
    case Verified(job, _) => LoginEnds(m.env, job.client, job.account);
    case _ =>
  }

  /** Every answer is nothing, one challenge, a failure, a login with its success, or one
      check handed out, and it goes to the client the input came from. */
  lemma AnswersAreRight(kit: Kit, run: seq<Moment>, n: nat)
    requires n < |run|
    ensures Answered(OutAt(kit, run, n), From(run[n].input))
  {
    hide Step;
    StepAnswers(kit, run[n], SessionsAt(kit, run[..n]));
  }

  /** In every run a client is told of success exactly when it is logged in at that
      moment, and then it is not told of failure too. */
  lemma SuccessIffLogin(kit: Kit, run: seq<Moment>, n: nat, client: string)
    requires n < |run|
    ensures Reply(client, "D", ["S"]) in OutAt(kit, run, n) <==> exists account :: SetAccount(client, account) in OutAt(kit, run, n)
    ensures Reply(client, "D", ["S"]) in OutAt(kit, run, n) ==> Reply(client, "D", ["F"]) !in OutAt(kit, run, n)
    ensures forall account :: SetAccount(client, account) in OutAt(kit, run, n) ==>
              OutAt(kit, run, n) == [SetAccount(client, account), Reply(client, "D", ["S"])]
  {
    hide OutAt;
    AnswersAreRight(kit, run, n);
    var out := OutAt(kit, run, n);
    if Succeeded(out, From(run[n].input)) {
      var account :| LoggedIn(out, From(run[n].input), account);
      assert out[0] == SetAccount(From(run[n].input), account) && out[0] in out && out[1] in out;
    }
  }

  /** A reply is answered with a challenge exactly when the exchange goes on, with its result
      exactly when it is over; only a full chunk of a PLAIN response is not answered. */
  lemma RepliesAreAnswered(kit: Kit, run: seq<Moment>, n: nat, client: string)
    requires n < |run| && Replies(run[n], client)
    ensures var before, after := SessionsAt(kit, run[..n]), SessionsAt(kit, run[..n + 1]);
            if Buffers(before, client, Chunk(run[n])) then OutAt(kit, run, n) == [] && client in after
            else if client in after then Challenged(OutAt(kit, run, n), client)
            else Ends(OutAt(kit, run, n), client)
  {
    hide Continue, Challenged, Ends;
    assert run[..n + 1][..n] == run[..n];
    ContinueAnswers(kit, run[n].env, SessionsAt(kit, run[..n]), client, Chunk(run[n]));
  }

  /** The answer to a deferred check: the login exactly when the check was good and the
      account is not suspended, and failure otherwise. */
  lemma CheckIsAnswered(kit: Kit, run: seq<Moment>, n: nat, job: Job, ok: bool)
    requires n < |run| && run[n].input == Verified(job, ok)
    ensures if ok && !run[n].env.suspended(job.account)
            then OutAt(kit, run, n) == [SetAccount(job.client, job.account), Reply(job.client, "D", ["S"])]
            else OutAt(kit, run, n) == [Reply(job.client, "D", ["F"])]
  {
  }

  /** The exchanges touched less than a minute before `now`. */
  function Unexpired(sessions: Sessions, now: int): set<string> {
    set k | k in sessions && now - sessions[k].touched < 60
  }

  const MECHANISMS := {"PLAIN", "EXTERNAL", "SCRAM-SHA-256", "SCRAM-SHA-512", "ECDSA-NIST256P-CHALLENGE"}

  /** A request evicts whatever was left alone for a minute and nothing else; it is taken,
      in place of any earlier one of that client, exactly when it names one of the five
      mechanisms and fewer than 4096 exchanges are left, and refused otherwise. */
  lemma RequestIsAnswered(kit: Kit, run: seq<Moment>, n: nat, client: string, data: seq<string>)
    requires n < |run| && run[n].input == Message(client, "S", data)
    ensures var before, after := SessionsAt(kit, run[..n]), SessionsAt(kit, run[..n + 1]);
            var live := Unexpired(before, run[n].env.now);
            && (forall k :: k != client ==>
                  (k in after <==> k in live) && (k in live ==> after[k] == before[k]))
            && if |live| < 4096 && data != [] && data[0] in MECHANISMS
               then OutAt(kit, run, n) == [Reply(client, "C", ["+"])] && client in after
               else OutAt(kit, run, n) == [Reply(client, "D", ["F"])]
  {
    hide Lower;
    assert run[..n + 1][..n] == run[..n];
    var before := SessionsAt(kit, run[..n]);
    assert Swept(before, run[n].env.now).Keys == Unexpired(before, run[n].env.now);
  }

  // ----- A client that does its part -----------------------------------------------------

  /** The client's next word after moment `k` is its reply at `n`, with its exchange not
      left alone for a minute. */
  ghost predicate Waits(kit: Kit, run: seq<Moment>, client: string, k: nat, n: nat) {
    && k < n < |run| && Untouched(kit, run, client, k, n) && Replies(run[n], client)
    && forall t :: k < t < n ==> run[t].env.now - run[k].env.now < 60
  }

  /** The client asks for `mech` at `k`, and there is room for its exchange. */
  ghost predicate AsksFor(kit: Kit, run: seq<Moment>, client: string, mech: string, params: seq<string>, k: nat) {
    k < |run| && run[k].input == Message(client, "S", [mech] + params) && HandledAt(kit, run, client, k)
  }

  /** The exchange as moment `k` left it. */
  ghost predicate Holds(kit: Kit, run: seq<Moment>, client: string, k: nat, s: Session)
    requires k < |run|
  {
    var after := SessionsAt(kit, run[..k + 1]); client in after && after[client] == Timed(run[k].env.now, s)
  }

  lemma {:induction false} WaitsStill(kit: Kit, run: seq<Moment>, client: string, k: nat, n: nat, s: Session, t: nat)
    requires Waits(kit, run, client, k, n) && Holds(kit, run, client, k, s) && k < t <= n
    ensures var sessions := SessionsAt(kit, run[..t]); client in sessions && sessions[client] == Timed(run[k].env.now, s)
    decreases t
  {
    hide Step, Handles;
    if t > k + 1 {
      WaitsStill(kit, run, client, k, n, s, t - 1);
      assert run[..t][..t - 1] == run[..t - 1];
      assert !HandledAt(kit, run, client, t - 1);
      UnhandledSurvives(kit, run[t - 1], SessionsAt(kit, run[..t - 1]), client);
    }
  }

  /** What the reply at `n` is met with. */
  lemma Meets(kit: Kit, run: seq<Moment>, client: string, k: nat, n: nat, s: Session)
    requires Waits(kit, run, client, k, n) && Holds(kit, run, client, k, s)
    ensures var o := Continue(kit, run[n].env, SessionsAt(kit, run[..n]), client, Chunk(run[n]));
            && client in SessionsAt(kit, run[..n]) && SessionsAt(kit, run[..n])[client].session == s
            && OutAt(kit, run, n) == o.out && SessionsAt(kit, run[..n + 1]) == o.sessions
  {
    hide Continue, HandledAt;
    WaitsStill(kit, run, client, k, n, s, n);
    assert run[..n + 1][..n] == run[..n];
  }

  lemma AskIsTaken(kit: Kit, run: seq<Moment>, client: string, mech: string, params: seq<string>, k: nat, s: Session)
    requires AsksFor(kit, run, client, mech, params, k) && Opening([mech] + params) == Some(s)
    ensures Holds(kit, run, client, k, s) && OutAt(kit, run, k) == [Reply(client, "C", ["+"])]
  {
    hide Opening;
    assert run[..k + 1][..k] == run[..k];
  }

  /** The text of a challenge, as the client decodes it. */
  function Received(kit: Kit, out: seq<Action>, client: string): Option<string> {
    if Challenged(out, client) then DecodeText(kit, out[0].data[0]) else None
  }

  /** A text in transit. */
  function Sealed(kit: Kit, text: string): string {
    kit.c.enc(kit.c.utf8(text))
  }

  /** Base64 and UTF-8 decoding undo encoding. */
  ghost predicate Decodes(kit: Kit) {
    S.Laws(kit.c) && forall text :: kit.text(kit.c.utf8(text)) == Some(text)
  }

  lemma SealedReads(kit: Kit, text: string)
    requires Decodes(kit)
    ensures DecodeText(kit, Sealed(kit, text)) == Some(text)
  {
  }

  // ----- SCRAM ------------------------------------------------------------------------------

  function ScramName(hash: Hash): string {
    if hash == S.Sha256 then "SCRAM-SHA-256" else "SCRAM-SHA-512"
  }

  /** The account and verifier the store has for the user at that moment, not locked out. */
  ghost predicate Enrolled(kit: Kit, env: Env, user: string, hash: Hash, account: string, v: S.Verifier) {
    && env.scram(user, hash).Some? && env.scram(user, hash).value.0 == account
    && S.VerifierOf(kit.c, env.scram(user, hash).value.1) == Some(v) && !env.lockedOut(account)
  }

  lemma FirstIsChallenged(kit: Kit, run: seq<Moment>, client: string, hash: Hash, k: nat, i: nat, first: string,
      cf: S.ClientFirst, account: string, v: S.Verifier)
    requires Decodes(kit) && Waits(kit, run, client, k, i) && Holds(kit, run, client, k, Scram(hash, ClientFirst))
    requires Chunk(run[i]) == Sealed(kit, first) && S.ParseClientFirst(first) == Some(cf)
    requires Enrolled(kit, run[i].env, cf.username, hash, account, v)
    ensures var x := S.Begin(kit.c, cf, v, run[i].env.snonce);
            && Holds(kit, run, client, i, Scram(hash, ClientFinal(account, x)))
            && OutAt(kit, run, i) == [Reply(client, "C", [Sealed(kit, x.serverFirst)])]
  {
    hide S.Begin, S.VerifierOf, S.ParseClientFirst, DecodeText, Decodes, Waits, OutAt, SessionsAt;
    Meets(kit, run, client, k, i, Scram(hash, ClientFirst));
    SealedReads(kit, first);
  }

  lemma FinalIsChallenged(kit: Kit, run: seq<Moment>, client: string, hash: Hash, i: nat, j: nat, x: S.Exchange,
      account: string, final: string)
    requires Decodes(kit) && Waits(kit, run, client, i, j)
    requires Holds(kit, run, client, i, Scram(hash, ClientFinal(account, x))) && Chunk(run[j]) == Sealed(kit, final)
    ensures match S.Verdict(kit.c, hash, x, final)
            case None => OutAt(kit, run, j) == [Reply(client, "D", ["F"])]
            case Some(text) =>
              && Holds(kit, run, client, j, Scram(hash, Ack(account)))
              && OutAt(kit, run, j) == [Reply(client, "C", [Sealed(kit, text)])]
  {
    hide S.Verdict, DecodeText, Decodes, Waits, OutAt, SessionsAt;
    Meets(kit, run, client, i, j, Scram(hash, ClientFinal(account, x)));
    SealedReads(kit, final);
  }

  lemma AckIsAnswered(kit: Kit, run: seq<Moment>, client: string, hash: Hash, j: nat, n: nat, account: string)
    requires Waits(kit, run, client, j, n) && Holds(kit, run, client, j, Scram(hash, Ack(account)))
    ensures OutAt(kit, run, n) ==
            if run[n].env.suspended(account) then [Reply(client, "D", ["F"])]
            else [SetAccount(client, account), Reply(client, "D", ["S"])]
  {
    hide OutAt, SessionsAt, Login, Untouched;
    Meets(kit, run, client, j, n, Scram(hash, Ack(account)));
    LoginEnds(run[n].env, client, account);
  }

  lemma ScramOpens(hash: Hash)
    ensures Opening([ScramName(hash)] + []) == Some(Scram(hash, ClientFirst))
  {
    assert [ScramName(hash)] + [] == [ScramName(hash)];
  }

  /** The server-first message of RFC 5802 for these nonces and this verifier. */
  function ServerFirstText(kit: Kit, nonce: string, v: S.Verifier): string {
    "r=" + nonce + ",s=" + kit.c.enc(v.salt) + ",i=" + Numeral(v.iterations, 10)
  }

  /** A client of RFC 5802 that holds the password: it asks for the mechanism at `k`, sends its
      first message at `i`, answers the challenge it received there at `j`, and acknowledges
      at `n`. */
  ghost predicate SpeaksScram(kit: Kit, run: seq<Moment>, client: string, hash: Hash, gs2: string, bare: string,
      password: string, k: nat, i: nat, j: nat, n: nat)
  {
    && AsksFor(kit, run, client, ScramName(hash), [], k)
    && Waits(kit, run, client, k, i) && Waits(kit, run, client, i, j) && Waits(kit, run, client, j, n)
    && Chunk(run[i]) == Sealed(kit, gs2 + bare)
    && match Received(kit, OutAt(kit, run, i), client)
       case None => true
       case Some(text) =>
         match S.HonestFinal(kit.c, hash, password, gs2, bare, text)
         case None => true
         case Some(final) => Chunk(run[j]) == Sealed(kit, final)
  }

  /** There are such clients: in any environment, against any password. */
  lemma ScramClientExists(kit: Kit, env: Env, client: string, hash: Hash, gs2: string, bare: string, password: string)
    returns (run: seq<Moment>)
    ensures |run| == 4 && (forall i :: 0 <= i < 4 ==> run[i].env == env)
    ensures SpeaksScram(kit, run, client, hash, gs2, bare, password, 0, 1, 2, 3)
  {
    hide Step, DecodeText, S.HonestFinal, Challenged;
    var ask := Moment(env, Message(client, "S", [ScramName(hash)] + []));
    var first := Moment(env, Message(client, "C", [Sealed(kit, gs2 + bare)]));
    var text := Received(kit, OutAt(kit, [ask, first], 1), client);
    var answer := if text.None? then None else S.HonestFinal(kit.c, hash, password, gs2, bare, text.value);
    var final := Moment(env, Message(client, "C", [if answer.None? then "+" else Sealed(kit, answer.value)]));
    run := [ask, first, final, Moment(env, Message(client, "C", ["+"]))];
    assert run[..1] == [ask, first][..1] && run[..0] == [];
    assert HandledAt(kit, run, client, 0) by {
      ScramOpens(hash);
      assert Swept(map[], env.now) == map[];
    }
  }

  lemma ChallengeReads(kit: Kit, client: string, text: string)
    requires Decodes(kit)
    ensures Received(kit, [Reply(client, "C", [Sealed(kit, text)])], client) == Some(text)
  {
    SealedReads(kit, text);
  }

  /** Whatever other clients do in between, such a client receives the server-first and the
      server-final of its own exchange, and its acknowledgement logs it in. */
  lemma ScramClientLogsIn(kit: Kit, run: seq<Moment>, client: string, hash: Hash, cbflag: string, authzid: string,
      user: string, cnonce: string, password: string, account: string, encoded: string, k: nat, i: nat, j: nat, n: nat)
    requires Decodes(kit) && ',' !in cbflag && !("p" <= cbflag) && ',' !in authzid && ',' !in cnonce
    requires k < i < j < n < |run|
    requires SpeaksScram(kit, run, client, hash, S.Gs2(cbflag, authzid), S.ClientFirstBare(user, cnonce), password, k, i, j, n)
    requires var env := run[i].env;
             env.scram(user, hash) == Some((account, encoded)) && !env.lockedOut(account) && ',' !in env.snonce
    requires S.VerifyPlain(kit.c, hash, encoded, password)
    ensures OutAt(kit, run, k) == [Reply(client, "C", ["+"])]
    ensures var v := S.VerifierOf(kit.c, encoded).value;
            var nonce := cnonce + run[i].env.snonce;
            var first := ServerFirstText(kit, nonce, v);
            var signed := "c=" + kit.c.enc(kit.c.utf8(S.Gs2(cbflag, authzid))) + ",r=" + nonce;
            var message := kit.c.utf8(S.ClientFirstBare(user, cnonce) + "," + first + "," + signed);
            && OutAt(kit, run, i) == [Reply(client, "C", [Sealed(kit, first)])]
            && OutAt(kit, run, j) ==
               [Reply(client, "C", [Sealed(kit, "v=" + kit.c.enc(kit.c.hmac(hash, v.serverKey, message)))])]
    ensures OutAt(kit, run, n) ==
            if run[n].env.suspended(account) then [Reply(client, "D", ["F"])]
            else [SetAccount(client, account), Reply(client, "D", ["S"])]
  {
    hide Waits, AsksFor, Holds, OutAt, Decodes, S.VerifyPlain, S.VerifierOf, S.Verdict, S.HonestFinal, Received, Sealed,
      S.ClientFirstBare, S.Gs2, S.ParseClientFirst;
    var gs2, bare := S.Gs2(cbflag, authzid), S.ClientFirstBare(user, cnonce);
    ScramOpens(hash);
    AskIsTaken(kit, run, client, ScramName(hash), [], k, Scram(hash, ClientFirst));
    KnownUser(kit, hash, encoded, password);
    var v := S.VerifierOf(kit.c, encoded).value;
    S.ParseUndoesClientFirst(cbflag, authzid, user, cnonce);
    var cf := S.ParseClientFirst(gs2 + bare).value;
    var snonce := run[i].env.snonce;
    FirstIsChallenged(kit, run, client, hash, k, i, gs2 + bare, cf, account, v);
    var x := S.Begin(kit.c, cf, v, snonce);
    ChallengeReads(kit, client, x.serverFirst);
    HaveLaws(kit);
    S.HonestClientAccepted(kit.c, hash, encoded, password, cbflag, authzid, user, cnonce, snonce);
    var final := S.HonestFinal(kit.c, hash, password, gs2, bare, x.serverFirst).value;
    FinalIsChallenged(kit, run, client, hash, i, j, x, account, final);
    AckIsAnswered(kit, run, client, hash, j, n, account);
  }

  lemma KnownUser(kit: Kit, hash: Hash, encoded: string, password: string)
    requires S.VerifyPlain(kit.c, hash, encoded, password)
    ensures S.VerifierOf(kit.c, encoded).Some?
  {
  }

  lemma HaveLaws(kit: Kit)
    requires Decodes(kit)
    ensures S.Laws(kit.c)
  {
  }

  /** A client whose password was registered here moreover receives at `j` the very
      signature it expects, so it knows the server too. */
  lemma RegisteredClientKnowsServer(kit: Kit, run: seq<Moment>, client: string, hash: Hash, cbflag: string,
      authzid: string, user: string, cnonce: string, password: string, account: string, iterations: nat, salt: Bytes,
      k: nat, i: nat, j: nat, n: nat)
    requires Decodes(kit) && ',' !in cbflag && !("p" <= cbflag) && ',' !in authzid && ',' !in cnonce
    requires k < i < j < n < |run| && iterations <= S.U32_MAX
    requires SpeaksScram(kit, run, client, hash, S.Gs2(cbflag, authzid), S.ClientFirstBare(user, cnonce), password, k, i, j, n)
    requires var env := run[i].env;
             && env.scram(user, hash) == Some((account, S.Encode(kit.c, S.Fresh(kit.c, hash, password, iterations, salt))))
             && !env.lockedOut(account) && ',' !in env.snonce
    ensures var gs2, bare := S.Gs2(cbflag, authzid), S.ClientFirstBare(user, cnonce);
            && Received(kit, OutAt(kit, run, i), client).Some?
            && var first := Received(kit, OutAt(kit, run, i), client).value;
               && Received(kit, OutAt(kit, run, j), client).Some?
               && Received(kit, OutAt(kit, run, j), client) == S.Expected(kit.c, hash, password, gs2, bare, first)
    ensures !run[n].env.suspended(account) ==> LoggedIn(OutAt(kit, run, n), client, account)
  {
    hide SpeaksScram, OutAt, Decodes, S.VerifyPlain, S.VerifierOf, S.Verdict, S.HonestFinal, S.Expected, Received, Sealed,
      S.ClientFirstBare, S.Gs2, S.ParseClientFirst, S.Encode, S.Fresh;
    var encoded := S.Encode(kit.c, S.Fresh(kit.c, hash, password, iterations, salt));
    var gs2, bare, snonce := S.Gs2(cbflag, authzid), S.ClientFirstBare(user, cnonce), run[i].env.snonce;
    HaveLaws(kit);
    S.RegisteredPasswordLogsIn(kit.c, hash, password, iterations, salt, gs2, bare, cnonce, snonce, user);
    ScramClientLogsIn(kit, run, client, hash, cbflag, authzid, user, cnonce, password, account, encoded, k, i, j, n);
    S.HonestClientAccepted(kit.c, hash, encoded, password, cbflag, authzid, user, cnonce, snonce);
    S.ParseUndoesClientFirst(cbflag, authzid, user, cnonce);
    KnownUser(kit, hash, encoded, password);
    var v := S.VerifierOf(kit.c, encoded).value;
    var first := ServerFirstText(kit, cnonce + snonce, v);
    ChallengeReads(kit, client, first);
    ChallengeReads(kit, client, S.Expected(kit.c, hash, password, gs2, bare, first).value);
  }

  // ----- ECDSA, EXTERNAL and PLAIN -----------------------------------------------------------

  /** A client that names its account at `i`, alone or behind an authorization identity, and
      signs the challenge it received there at `n`. */
  ghost predicate SpeaksEcdsa(kit: Kit, run: seq<Moment>, client: string, prefix: string, name: string, key: string,
      k: nat, i: nat, n: nat)
  {
    && AsksFor(kit, run, client, "ECDSA-NIST256P-CHALLENGE", [], k)
    && Waits(kit, run, client, k, i) && Waits(kit, run, client, i, n)
    && Chunk(run[i]) == Sealed(kit, prefix + name)
    && (Challenged(OutAt(kit, run, i), client) ==>
          match kit.c.dec(OutAt(kit, run, i)[0].data[0])
          case None => true
          case Some(challenge) => kit.signed(key, challenge, Chunk(run[n])))
  }

  lemma {:induction false} LastAfter(front: string, name: string)
    requires '\0' !in name
    ensures Sasl.Last(Split(front + ['\0'] + name, '\0')) == name
    decreases |front|
  {
    var a, b := SplitFirst(front, '\0');
    if '\0' in front {
      assert front + ['\0'] + name == a + ['\0'] + (b + ['\0'] + name);
      SplitAtFirst(a, '\0', b + ['\0'] + name);
      LastAfter(b, name);
    } else {
      SplitAtFirst(front, '\0', name);
      SplitWhole(name, '\0');
    }
  }

  /** The name is what stands behind the last NUL, if there is any. */
  lemma LastIsName(prefix: string, name: string)
    requires '\0' !in name && (prefix != "" ==> prefix[|prefix| - 1] == '\0')
    ensures Sasl.Last(Split(prefix + name, '\0')) == name
  {
    if prefix == "" {
      assert prefix + name == name;
      SplitWhole(name, '\0');
    } else {
      assert prefix == prefix[..|prefix| - 1] + ['\0'];
      LastAfter(prefix[..|prefix| - 1], name);
    }
  }

  lemma EcdsaOpens()
    ensures Opening(["ECDSA-NIST256P-CHALLENGE"] + []) == Some(Ecdsa(AccountName))
  {
    assert ["ECDSA-NIST256P-CHALLENGE"] + [] == ["ECDSA-NIST256P-CHALLENGE"];
  }

  lemma NameIsChallenged(kit: Kit, run: seq<Moment>, client: string, text: string, account: string, key: string,
      k: nat, i: nat)
    requires Decodes(kit) && Waits(kit, run, client, k, i) && Holds(kit, run, client, k, Ecdsa(AccountName))
    requires Chunk(run[i]) == Sealed(kit, text)
    requires run[i].env.pubkey(Sasl.Last(Split(text, '\0'))) == Some((account, key))
    ensures Holds(kit, run, client, i, Ecdsa(Signature(account, key, run[i].env.challenge)))
    ensures OutAt(kit, run, i) == [Reply(client, "C", [kit.c.enc(run[i].env.challenge)])]
  {
    hide DecodeText, Decodes, Waits, OutAt, SessionsAt, Split;
    Meets(kit, run, client, k, i, Ecdsa(AccountName));
    SealedReads(kit, text);
  }

  lemma SignatureIsAnswered(kit: Kit, run: seq<Moment>, client: string, i: nat, n: nat, account: string, key: string,
      challenge: Bytes)
    requires Waits(kit, run, client, i, n) && Holds(kit, run, client, i, Ecdsa(Signature(account, key, challenge)))
    ensures OutAt(kit, run, n) ==
            if kit.signed(key, challenge, Chunk(run[n])) && !run[n].env.suspended(account)
            then [SetAccount(client, account), Reply(client, "D", ["S"])] else [Reply(client, "D", ["F"])]
  {
    hide OutAt, SessionsAt, Login, Untouched;
    Meets(kit, run, client, i, n, Ecdsa(Signature(account, key, challenge)));
    LoginEnds(run[n].env, client, account);
  }

  /** An ECDSA client receives the challenge drawn for it and is logged in by signing it with
      the key the store has for that account, whatever other clients do in between. */
  lemma EcdsaClientLogsIn(kit: Kit, run: seq<Moment>, client: string, prefix: string, name: string, account: string,
      key: string, k: nat, i: nat, n: nat)
    requires Decodes(kit) && '\0' !in name && (prefix != "" ==> prefix[|prefix| - 1] == '\0')
    requires k < i < n < |run| && SpeaksEcdsa(kit, run, client, prefix, name, key, k, i, n)
    requires run[i].env.pubkey(name) == Some((account, key))
    ensures OutAt(kit, run, k) == [Reply(client, "C", ["+"])]
    ensures OutAt(kit, run, i) == [Reply(client, "C", [kit.c.enc(run[i].env.challenge)])]
    ensures OutAt(kit, run, n) ==
            if run[n].env.suspended(account) then [Reply(client, "D", ["F"])]
            else [SetAccount(client, account), Reply(client, "D", ["S"])]
  {
    hide Waits, AsksFor, Holds, OutAt, Sealed, Split;
    EcdsaOpens();
    AskIsTaken(kit, run, client, "ECDSA-NIST256P-CHALLENGE", [], k, Ecdsa(AccountName));
    LastIsName(prefix, name);
    NameIsChallenged(kit, run, client, prefix + name, account, key, k, i);
    assert kit.c.dec(kit.c.enc(run[i].env.challenge)) == Some(run[i].env.challenge);
    SignatureIsAnswered(kit, run, client, i, n, account, key, run[i].env.challenge);
  }

  /** `fps[at]`, lower-cased, is the first of the fingerprints that anybody owns, and `account`
      owns it. */
  ghost predicate FirstOwner(env: Env, fps: seq<string>, at: nat, account: string) {
    && at < |fps| && env.certOwner(Lower(fps[at])) == Some(account)
    && forall j :: 0 <= j < at ==> env.certOwner(Lower(fps[j])) == None
  }

  lemma {:induction false} FirstOwnerFound(env: Env, fps: seq<string>, at: nat, account: string)
    requires FirstOwner(env, fps, at, account)
    ensures FirstOwned(env, LowerAll(fps)) == Some((Lower(fps[at]), account))
  {
    hide Lower;
    assert LowerAll(fps)[1..] == LowerAll(fps[1..]);
    if at > 0 {
      FirstOwnerFound(env, fps[1..], at - 1, account);
    }
  }

  lemma {:induction false} NobodyOwns(env: Env, fps: seq<string>)
    requires forall j :: 0 <= j < |fps| ==> env.certOwner(Lower(fps[j])) == None
    ensures FirstOwned(env, LowerAll(fps)) == None
  {
    hide Lower;
    if fps != [] {
      assert LowerAll(fps)[1..] == LowerAll(fps[1..]);
      NobodyOwns(env, fps[1..]);
    }
  }

  lemma ExternalOpens(fps: seq<string>)
    ensures Opening(["EXTERNAL"] + fps) == Some(External(LowerAll(fps)))
  {
    assert (["EXTERNAL"] + fps)[1..] == fps;
  }

  /** What the client says in its one reply: nothing, or the name it wants to act as. */
  ghost predicate Names(kit: Kit, chunk: string, authzid: string) {
    if authzid == "" then chunk == "+" || chunk == "" else chunk == Sealed(kit, authzid) && chunk != "+" && chunk != ""
  }

  lemma CertificateIsAnswered(kit: Kit, run: seq<Moment>, client: string, fps: seq<string>, authzid: string, k: nat, n: nat)
    requires Decodes(kit) && Waits(kit, run, client, k, n) && Holds(kit, run, client, k, External(fps))
    requires Names(kit, Chunk(run[n]), authzid)
    ensures OutAt(kit, run, n) ==
            match FirstOwned(run[n].env, fps)
            case None => Fail(client)
            case Some((fp, account)) =>
              if NamesAccount(run[n].env, authzid, account) then Login(run[n].env, client, account) else Fail(client)
  {
    hide DecodeText, Decodes, OutAt, SessionsAt, Untouched, FirstOwned, NamesAccount, Login;
    Meets(kit, run, client, k, n, External(fps));
    SealedReads(kit, authzid);
  }

  /** A client with a certificate is logged in to the account that owns the first owned
      fingerprint relayed for it, exactly when it names nobody else and the account is
      not suspended; whatever other clients do in between. */
  lemma CertificateClientLogsIn(kit: Kit, run: seq<Moment>, client: string, fps: seq<string>, authzid: string,
      at: nat, account: string, k: nat, n: nat)
    requires Decodes(kit) && k < n < |run| && AsksFor(kit, run, client, "EXTERNAL", fps, k)
    requires Waits(kit, run, client, k, n) && Names(kit, Chunk(run[n]), authzid)
    requires FirstOwner(run[n].env, fps, at, account)
    ensures OutAt(kit, run, k) == [Reply(client, "C", ["+"])]
    ensures var env := run[n].env;
            var same := || authzid == "" || Lower(authzid) == Lower(account)
                        || (env.resolve(authzid).Some? && Lower(env.resolve(authzid).value) == Lower(account));
            OutAt(kit, run, n) ==
            if same && !env.suspended(account) then [SetAccount(client, account), Reply(client, "D", ["S"])]
            else [Reply(client, "D", ["F"])]
  {
    hide Waits, AsksFor, Holds, OutAt, Lower, Names, Decodes;
    ExternalOpens(fps);
    AskIsTaken(kit, run, client, "EXTERNAL", fps, k, External(LowerAll(fps)));
    FirstOwnerFound(run[n].env, fps, at, account);
    CertificateIsAnswered(kit, run, client, LowerAll(fps), authzid, k, n);
  }

  /** A client none of whose fingerprints anybody owns is refused. */
  lemma StrangerIsRefused(kit: Kit, run: seq<Moment>, client: string, fps: seq<string>, authzid: string, k: nat, n: nat)
    requires Decodes(kit) && k < n < |run| && AsksFor(kit, run, client, "EXTERNAL", fps, k)
    requires Waits(kit, run, client, k, n) && Names(kit, Chunk(run[n]), authzid)
    requires forall j :: 0 <= j < |fps| ==> run[n].env.certOwner(Lower(fps[j])) == None
    ensures OutAt(kit, run, n) == [Reply(client, "D", ["F"])]
  {
    hide Waits, AsksFor, Holds, OutAt, Lower, Names, Decodes;
    ExternalOpens(fps);
    AskIsTaken(kit, run, client, "EXTERNAL", fps, k, External(LowerAll(fps)));
    NobodyOwns(run[n].env, fps);
    CertificateIsAnswered(kit, run, client, LowerAll(fps), authzid, k, n);
  }

  /** A PLAIN client is logged in by the answer to the check its response led to, exactly
      when its password is that of the verifier the store had and the account is not suspended. */
  lemma PlainClientLogsIn(kit: Kit, run: seq<Moment>, client: string, k: nat, n: nat, later: nat, authzid: string,
      user: string, password: string, account: string, verifier: string, ok: bool)
    requires IsRun(kit, run) && Decodes(kit) && k < n < later < |run|
    requires 0 !in kit.c.utf8(authzid) && 0 !in kit.c.utf8(user) && 0 !in kit.c.utf8(password)
    requires var r := PlainResponse(kit, authzid, user, password);
             Talks(kit, run, client, k, n, r) && |r| % 4 == 0 && |r| <= MAX_SASL_RESPONSE
    requires var env := run[n].env;
             env.scram(user, S.Sha256) == Some((account, verifier)) && !env.lockedOut(account) && !("kc_" <= password)
    requires OutAt(kit, run, n) != [] && OutAt(kit, run, n)[0].Defer? ==>
               run[later].input == Verified(OutAt(kit, run, n)[0].job, ok)
    ensures OutAt(kit, run, later) ==
            if S.VerifyPlain(kit.c, S.Sha256, verifier, password) && !run[later].env.suspended(account)
            then [SetAccount(client, account), Reply(client, "D", ["S"])] else [Reply(client, "D", ["F"])]
  {
    hide Talks, OutAt, PlainResponse, S.VerifyPlain;
    PlainClientIsChecked(kit, run, client, k, n, authzid, user, password, account, verifier);
    RunIsAdmissible(kit, run, later);
    CheckIsAnswered(kit, run, later, Password(client, account, verifier, password), ok);
  }

  /** A client that sends a keycard in place of a password has it redeemed for the account its
      name resolves to, or for the name itself, and is logged in by a good answer. */
  lemma KeycardClientLogsIn(kit: Kit, run: seq<Moment>, client: string, k: nat, n: nat, later: nat, authzid: string,
      user: string, token: string, ok: bool)
    requires Decodes(kit) && k < n < later < |run| && "kc_" <= token
    requires 0 !in kit.c.utf8(authzid) && 0 !in kit.c.utf8(user) && 0 !in kit.c.utf8(token)
    requires var r := PlainResponse(kit, authzid, user, token);
             Talks(kit, run, client, k, n, r) && |r| % 4 == 0 && |r| <= MAX_SASL_RESPONSE
    requires OutAt(kit, run, n) != [] && OutAt(kit, run, n)[0].Defer? ==>
               run[later].input == Verified(OutAt(kit, run, n)[0].job, ok)
    ensures var account := if run[n].env.resolve(user).Some? then run[n].env.resolve(user).value else user;
            && OutAt(kit, run, n) == [Defer(Keycard(client, account, token))]
            && OutAt(kit, run, later) ==
               if ok && !run[later].env.suspended(account)
               then [SetAccount(client, account), Reply(client, "D", ["S"])] else [Reply(client, "D", ["F"])]
  {
    hide Talks, OutAt, PlainResponse;
    var r := PlainResponse(kit, authzid, user, token);
    RestKeepsGroups(r);
    PlainDecodes(kit, authzid, user, token);
    TalkIsDecided(kit, run, client, k, n, r);
    var account := if run[n].env.resolve(user).Some? then run[n].env.resolve(user).value else user;
    CheckIsAnswered(kit, run, later, Keycard(client, account, token), ok);
  }

  lemma {:induction false} RunIsAdmissible(kit: Kit, run: seq<Moment>, n: nat)
    requires IsRun(kit, run) && n < |run|
    ensures Admissible(kit, run[..n], run[n].input)
  {
    hide Admissible;
    if n < |run| - 1 {
      RunIsAdmissible(kit, run[..|run| - 1], n);
      assert run[..|run| - 1][..n] == run[..n];
    }
  }
}
