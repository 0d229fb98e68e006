/** The SASL agent: one login exchange per client, driven by the H/S/C/D messages the
    ircd relays, finished inline (SCRAM, EXTERNAL, ECDSA) or after a deferred password
    check (PLAIN). */
module Sasl {
  import opened Text
  import opened Fields
  import opened Iteration
  import S = Scram

  type Bytes = S.Bytes
  type Crypto = S.Crypto
  type Hash = S.Hash

  const MAX_AUTHENTICATE: nat := 400
  const MAX_SASL_RESPONSE: nat := 8192
  const MAX_SASL_SESSIONS: nat := 4096
  const SASL_SESSION_TTL: int := 60

  datatype ScramStep =
    | ClientFirst
    | ClientFinal(account: string, x: S.Exchange)
    | Ack(account: string)

  datatype EcdsaStep =
    | AccountName
    | Signature(account: string, pubkey: string, challenge: Bytes)

  datatype Session =
    | Plain(response: string)
    | Scram(hash: Hash, step: ScramStep)
    | External(fingerprints: seq<string>)
    | Ecdsa(estep: EcdsaStep)

  datatype Timed = Timed(touched: int, session: Session)

  type Sessions = map<string, Timed>

  /** A password check or keycard redemption running off the engine lock. */
  datatype Job =
    | Password(client: string, account: string, verifier: string, password: string)
    | Keycard(client: string, account: string, token: string)

  datatype Action =
    | Reply(client: string, mode: string, data: seq<string>)
    | SetAccount(client: string, account: string)     // accountname metadata: logs the client in
    | Defer(job: Job)

  /** What the agent is built on: codecs and signature checks. */
  datatype Kit = Kit(
    c: Crypto,
    text: Bytes -> Option<string>,                    // UTF-8 decoding
    signed: (string, Bytes, string) -> bool)          // ECDSA: key, challenge, signature

  /** What one message finds outside the agent: clock, store and randomness. */
  datatype Env = Env(
    now: int,
    suspended: string -> bool,
    lockedOut: string -> bool,
    resolve: string -> Option<string>,
    scram: (string, Hash) -> Option<(string, string)>,
    certOwner: string -> Option<string>,
    pubkey: string -> Option<(string, string)>,
    snonce: string,
    challenge: Bytes)

  datatype Outcome = Outcome(sessions: Sessions, out: seq<Action>)

  function Fail(client: string): seq<Action> { [Reply(client, "D", ["F"])] }

  function Challenge(client: string, data: string): seq<Action> { [Reply(client, "C", [data])] }

  // ----- Finishing a login -----------------------------------------------------------

  /** `sasl_login`. */
  function Login(env: Env, client: string, account: string): seq<Action> {
    if env.suspended(account) then Fail(client) else [SetAccount(client, account), Reply(client, "D", ["S"])]
  }

  function Stash(sessions: Sessions, env: Env, client: string, s: Session): Sessions {
    sessions[client := Timed(env.now, s)]
  }

  // ----- PLAIN --------------------------------------------------------------------------

  datatype Reassembly = TooLong | More(response: string) | Whole(response: string)

  function TakeChunk(response: string, chunk: string): Reassembly {
    var r := if chunk != "+" then response + chunk else response;
    if |r| > MAX_SASL_RESPONSE then TooLong
    else if |chunk| >= MAX_AUTHENTICATE then More(r)
    else Whole(r)
  }

  /** `decode_plain`: base64 of authzid NUL authcid NUL password. */
  function DecodePlain(kit: Kit, b64: string): Option<(string, string)> {
    match kit.c.dec(b64)
    case None => None
    case Some(raw) =>
      var parts := Split(raw, 0);
      if |parts| != 3 || kit.text(parts[1]).None? || kit.text(parts[2]).None? then None
      else Some((kit.text(parts[1]).value, kit.text(parts[2]).value))
  }

  function PlainDecision(kit: Kit, env: Env, client: string, response: string): seq<Action> {
    match DecodePlain(kit, response)
    case None => Fail(client)
    case Some((authcid, password)) =>
      if "kc_" <= password then
        var account := if env.resolve(authcid).Some? then env.resolve(authcid).value else authcid;
        [Defer(Keycard(client, account, password))]
      else
        match env.scram(authcid, S.Sha256)
        case None => Fail(client)
        case Some((account, verifier)) =>
          if env.lockedOut(account) then Fail(client)
          else
            [Defer(Password(client, account, verifier, password))]
  }

  // ----- SCRAM ---------------------------------------------------------------------------

  function DecodeText(kit: Kit, chunk: string): Option<string> {
    match kit.c.dec(chunk)
    case None => None
    case Some(b) => kit.text(b)
  }

  /** The exchange a client-first message opens, and for which account. */
  function OpenScram(kit: Kit, env: Env, hash: Hash, chunk: string): Option<(string, S.Exchange)> {
    match DecodeText(kit, chunk)
    case None => None
    case Some(text) =>
      match S.ParseClientFirst(text)
      case None => None
      case Some(cf) =>
        match env.scram(cf.username, hash)
        case None => None
        case Some((account, encoded)) =>
          match S.VerifierOf(kit.c, encoded)
          case None => None
          case Some(v) => if env.lockedOut(account) then None else Some((account, S.Begin(kit.c, cf, v, env.snonce)))
  }

  function ScramMove(kit: Kit, env: Env, sessions: Sessions, client: string, hash: Hash, step: ScramStep,
      chunk: string): Outcome {
    match step
    case ClientFirst =>
      (match OpenScram(kit, env, hash, chunk)
       case None => Outcome(sessions, Fail(client))
       case Some((account, x)) =>
         Outcome(Stash(sessions, env, client, Scram(hash, ClientFinal(account, x))),
                 Challenge(client, kit.c.enc(kit.c.utf8(x.serverFirst)))))
    case ClientFinal(account, x) =>
      (match DecodeText(kit, chunk)
       case None => Outcome(sessions, Fail(client))
       case Some(final) =>
         match S.Verdict(kit.c, hash, x, final)
         case None => Outcome(sessions, Fail(client))
         case Some(serverFinal) =>
           Outcome(Stash(sessions, env, client, Scram(hash, Ack(account))),
                   Challenge(client, kit.c.enc(kit.c.utf8(serverFinal)))))
    case Ack(account) =>
      Outcome(sessions, Login(env, client, account))
  }

  // ----- EXTERNAL and ECDSA ------------------------------------------------------------------

  function FirstOwned(env: Env, fingerprints: seq<string>): Option<(string, string)> {
    if fingerprints == [] then None
    else
      match env.certOwner(fingerprints[0])
      case Some(account) => Some((fingerprints[0], account))
      case None => FirstOwned(env, fingerprints[1..])
  }

  predicate NamesAccount(env: Env, authzid: string, account: string) {
    || authzid == ""
    || Lower(authzid) == Lower(account)
    || (env.resolve(authzid).Some? && Lower(env.resolve(authzid).value) == Lower(account))
  }

  function ExternalDecision(kit: Kit, env: Env, client: string, fingerprints: seq<string>,
      chunk: string): seq<Action> {
    var authzid := if chunk == "+" || chunk == "" then Some("") else DecodeText(kit, chunk);
    if authzid.None? then Fail(client)
    else
      match FirstOwned(env, fingerprints)
      case None => Fail(client)
      case Some((fp, account)) =>
        if !NamesAccount(env, authzid.value, account) then Fail(client)
        else Login(env, client, account)
  }

  function Last(parts: seq<string>): string {
    if parts == [] then "" else parts[|parts| - 1]
  }

  function EcdsaMove(kit: Kit, env: Env, sessions: Sessions, client: string, step: EcdsaStep, chunk: string): Outcome {
    match step
    case AccountName =>
      (match DecodeText(kit, chunk)
       case None => Outcome(sessions, Fail(client))
       case Some(text) =>
         match env.pubkey(Last(Split(text, '\0')))
         case None => Outcome(sessions, Fail(client))
         case Some((account, key)) =>
           Outcome(Stash(sessions, env, client, Ecdsa(Signature(account, key, env.challenge))),
                   Challenge(client, kit.c.enc(env.challenge))))
    case Signature(account, key, challenge) =>
      if kit.signed(key, challenge, chunk) then Outcome(sessions, Login(env, client, account))
      else Outcome(sessions, Fail(client))
  }

  // ----- One message ------------------------------------------------------------------------------

  /** `sweep_sasl`: drop exchanges idle for the TTL. */
  function Swept(sessions: Sessions, now: int): Sessions {
    map k | k in sessions && now - sessions[k].touched < SASL_SESSION_TTL :: sessions[k]
  }

  function First(data: seq<string>): string {
    if data == [] then "" else data[0]
  }

  function LowerAll(fps: seq<string>): seq<string> {
    seq(|fps|, i requires 0 <= i < |fps| => Lower(fps[i]))
  }

  function Opening(data: seq<string>): Option<Session> {
    var mech := First(data);
    if mech == "PLAIN" then Some(Plain(""))
    else if mech == "EXTERNAL" then Some(External(LowerAll(data[1..])))
    else if mech == "SCRAM-SHA-256" then Some(Scram(S.Sha256, ClientFirst))
    else if mech == "SCRAM-SHA-512" then Some(Scram(S.Sha512, ClientFirst))
    else if mech == "ECDSA-NIST256P-CHALLENGE" then Some(Ecdsa(AccountName))
    else None
  }

  function Start(env: Env, sessions: Sessions, client: string, data: seq<string>): Outcome {
    var live := Swept(sessions, env.now);
    if |live| >= MAX_SASL_SESSIONS then Outcome(live, Fail(client))
    else
      match Opening(data)
      case None => Outcome(live, Fail(client))
      case Some(s) => Outcome(Stash(live, env, client, s), Challenge(client, "+"))
  }

  function Continue(kit: Kit, env: Env, sessions: Sessions, client: string, chunk: string): Outcome {
    if client !in sessions then Outcome(sessions, Fail(client))
    else
      var rest := sessions - {client};
      match sessions[client].session
      case Plain(response) =>
        (match TakeChunk(response, chunk)
         case TooLong => Outcome(rest, Fail(client))
         case More(r) => Outcome(Stash(rest, env, client, Plain(r)), [])
         case Whole(r) => Outcome(rest, PlainDecision(kit, env, client, r)))
      case Scram(hash, step) => ScramMove(kit, env, rest, client, hash, step, chunk)
      case External(fps) => Outcome(rest, ExternalDecision(kit, env, client, fps, chunk))
      case Ecdsa(step) => EcdsaMove(kit, env, rest, client, step, chunk)
  }

  /** `complete_authenticate` for a SASL job: the off-lock check answered `ok`. */
  function Finish(env: Env, sessions: Sessions, job: Job, ok: bool): Outcome {
    Outcome(sessions, if ok then Login(env, job.client, job.account) else Fail(job.client))
  }

  datatype Input =
    | Message(client: string, mode: string, data: seq<string>)
    | Verified(job: Job, ok: bool)     // the link layer's answer to a deferred job
    | Gone(client: string)             // the user quit or was killed
    | Relink

  function Step(kit: Kit, env: Env, sessions: Sessions, input: Input): Outcome {
    match input
    case Message(client, mode, data) =>
      if mode == "S" then Start(env, sessions, client, data)
      else if mode == "C" then Continue(kit, env, sessions, client, First(data))
      else if mode == "D" then Outcome(sessions - {client}, [])
      else Outcome(sessions, [])
    case Verified(job, ok) => Finish(env, sessions, job, ok)
    case Gone(client) => Outcome(sessions - {client}, [])
    case Relink => Outcome(map[], [])
  }

  // ----- Bounds ---------------------------------------------------------------------------------------

  ghost predicate ResponsesFit(sessions: Sessions) {
    forall k :: k in sessions && sessions[k].session.Plain? ==> |sessions[k].session.response| <= 8192
  }

  /** At most 4096 exchanges, each buffering at most 8192 bytes. */
  ghost predicate Bounded(sessions: Sessions) {
    |sessions| <= 4096 && ResponsesFit(sessions)
  }

  lemma RestSize(sessions: Sessions, client: string)
    ensures |sessions - {client}| <= |sessions|
    ensures client in sessions ==> |sessions - {client}| == |sessions| - 1
  {
    assert (sessions - {client}).Keys == sessions.Keys - {client};
    if client in sessions {
      assert sessions.Keys == (sessions.Keys - {client}) + {client};
    }
  }

  lemma StashSize(sessions: Sessions, env: Env, client: string, s: Session)
    requires |sessions| < MAX_SASL_SESSIONS && ResponsesFit(sessions)
    requires s.Plain? ==> |s.response| <= MAX_SASL_RESPONSE
    ensures Bounded(Stash(sessions, env, client, s))
  {
    assert Stash(sessions, env, client, s).Keys == sessions.Keys + {client};
  }

  /** An answer puts back at most the one exchange it took out. */
  ghost predicate PutsBack(rest: Sessions, after: Sessions, client: string) {
    after == rest || (client in after && after == rest[client := after[client]]
                      && (after[client].session.Plain? ==> |after[client].session.response| <= MAX_SASL_RESPONSE))
  }

  lemma ContinuePutsBack(kit: Kit, env: Env, sessions: Sessions, client: string, chunk: string)
    requires client in sessions
    ensures PutsBack(sessions - {client}, Continue(kit, env, sessions, client, chunk).sessions, client)
  {
  }

  lemma ContinueKeepsBounded(kit: Kit, env: Env, sessions: Sessions, client: string, chunk: string)
    requires Bounded(sessions)
    ensures Bounded(Continue(kit, env, sessions, client, chunk).sessions)
  {
    if client in sessions {
      var rest, after := sessions - {client}, Continue(kit, env, sessions, client, chunk).sessions;
      RestSize(sessions, client);
      ContinuePutsBack(kit, env, sessions, client, chunk);
      if after != rest {
        assert after.Keys == rest.Keys + {client};
      }
    }
  }

  lemma StartKeepsBounded(env: Env, sessions: Sessions, client: string, data: seq<string>)
    requires Bounded(sessions)
    ensures Bounded(Start(env, sessions, client, data).sessions)
  {
    var live := Swept(sessions, env.now);
    SubsetFits(live.Keys, sessions.Keys);
    if |live| < MAX_SASL_SESSIONS && Opening(data).Some? {
      StashSize(live, env, client, Opening(data).value);
    }
  }

  lemma StepKeepsBounded(kit: Kit, env: Env, sessions: Sessions, input: Input)
    requires Bounded(sessions)
    ensures Bounded(Step(kit, env, sessions, input).sessions)
  {
    match input
    case Message(client, mode, data) =>
      if mode == "S" {
        StartKeepsBounded(env, sessions, client, data);
      } else if mode == "C" {
        ContinueKeepsBounded(kit, env, sessions, client, First(data));
      } else {
        RestSize(sessions, client);
      }
    case Gone(client) => RestSize(sessions, client);
    case Verified(_, _) =>
    case Relink =>
  }

  // ----- The agent -----------------------------------------------------------------------------------------------

  class Agent {
    const kit: Kit
    const service: Option<string>       // uid of the first service, the SASL agent
    var saslSessions: Sessions

    constructor (kit: Kit, service: Option<string>)
      ensures this.kit == kit && this.service == service && saslSessions == map[]
    {
      this.kit, this.service := kit, service;
      saslSessions := map[];
    }

    /** Insert or refresh a client's exchange, stamped now. */
    method StashSasl(env: Env, client: string, session: Session)
      modifies this`saslSessions
      ensures saslSessions == Stash(old(saslSessions), env, client, session)
    {
      saslSessions := saslSessions[client := Timed(env.now, session)];
    }

    /** Evict exchanges idle past the TTL. */
    method SweepSasl(now: int)
      modifies this`saslSessions
      ensures saslSessions == Swept(old(saslSessions), now)
    {
      saslSessions := map k | k in saslSessions && now - saslSessions[k].touched < SASL_SESSION_TTL :: saslSessions[k];
    }

    method SaslScram(env: Env, client: string, hash: Hash, step: ScramStep, chunk: string)
      returns (out: seq<Action>)
      modifies this`saslSessions
      ensures Outcome(saslSessions, out) == ScramMove(kit, env, old(saslSessions), client, hash, step, chunk)
    {
      match step {
        case ClientFirst =>
          var started := OpenScram(kit, env, hash, chunk);
          if started.None? {
            return Fail(client);
          }
          var (account, x) := started.value;
          out := Challenge(client, kit.c.enc(kit.c.utf8(x.serverFirst)));
          StashSasl(env, client, Scram(hash, ClientFinal(account, x)));
        case ClientFinal(account, x) =>
          var msg := DecodeText(kit, chunk);
          if msg.None? {
            return Fail(client);
          }
          var verdict := S.VerifyFinal(kit.c, hash, x, msg.value);
          if verdict.None? {
            return Fail(client);
          }
          out := Challenge(client, kit.c.enc(kit.c.utf8(verdict.value)));
          StashSasl(env, client, Scram(hash, Ack(account)));
        case Ack(account) =>
          out := Login(env, client, account);
      }
    }

    method SaslEcdsa(env: Env, client: string, step: EcdsaStep, chunk: string)
      returns (out: seq<Action>)
      modifies this`saslSessions
      ensures Outcome(saslSessions, out) == EcdsaMove(kit, env, old(saslSessions), client, step, chunk)
    {
      match step {
        case AccountName =>
          var text := DecodeText(kit, chunk);
          if text.None? {
            return Fail(client);
          }
          var found := env.pubkey(Last(Split(text.value, '\0')));
          if found.None? {
            return Fail(client);
          }
          out := Challenge(client, kit.c.enc(env.challenge));
          StashSasl(env, client, Ecdsa(Signature(found.value.0, found.value.1, env.challenge)));
        case Signature(account, pubkey, challenge) =>
          if !kit.signed(pubkey, challenge, chunk) {
            return Fail(client);
          }
          out := Login(env, client, account);
      }
    }

    method SaslPlain(env: Env, client: string, response: string, chunk: string)
      returns (out: seq<Action>)
      requires client !in saslSessions
      modifies this`saslSessions
      ensures Outcome(saslSessions, out) ==
              Continue(kit, env, old(saslSessions)[client := Timed(0, Plain(response))], client, chunk)
    {
      assert saslSessions[client := Timed(0, Plain(response))] - {client} == saslSessions;
      var whole := response;
      if chunk != "+" {
        whole := whole + chunk;
      }
      if |whole| > MAX_SASL_RESPONSE {
        return Fail(client);
      }
      if |chunk| >= MAX_AUTHENTICATE {
        StashSasl(env, client, Plain(whole));
        return [];
      }
      out := PlainDecision(kit, env, client, whole);
    }

    /** A "C" message: take the exchange out, answer, and put back what continues. */
    method SaslContinue(env: Env, client: string, chunk: string) returns (out: seq<Action>)
      modifies this`saslSessions
      ensures Outcome(saslSessions, out) == Continue(kit, env, old(saslSessions), client, chunk)
    {
      if client !in saslSessions {
        return Fail(client);
      }
      var session := saslSessions[client].session;
      ghost var before := saslSessions;
      saslSessions := saslSessions - {client};
      match session {
        case Plain(response) =>
          ghost var rest := saslSessions;
          out := SaslPlain(env, client, response, chunk);
          assert rest[client := Timed(0, Plain(response))] - {client} == before - {client};
        case Scram(hash, step) => out := SaslScram(env, client, hash, step, chunk);
        case External(fps) =>
          out := ExternalDecision(kit, env, client, fps, chunk);
        case Ecdsa(step) => out := SaslEcdsa(env, client, step, chunk);
      }
    }

    /** One relayed SASL message. */
    method Sasl(env: Env, client: string, mode: string, data: seq<string>)
      returns (out: seq<Action>)
      modifies this`saslSessions
      ensures service.Some? ==>
                Outcome(saslSessions, out) == Step(kit, env, old(saslSessions), Message(client, mode, data))
      ensures service.None? ==> out == [] && saslSessions == old(saslSessions)
    {
      if service.None? {
        return [];
      }
      if mode == "S" {
        SweepSasl(env.now);
        if |saslSessions| >= MAX_SASL_SESSIONS {
          return Fail(client);
        }
        var opening := Opening(data);
        if opening.None? {
          return Fail(client);
        }
        StashSasl(env, client, opening.value);
        return Challenge(client, "+");
      } else if mode == "C" {
        out := SaslContinue(env, client, First(data));
      } else if mode == "D" {
        saslSessions := saslSessions - {client};
        out := [];
      } else {
        out := [];
      }
    }

    /** The SASL arm of `complete_authenticate`: the check made off the engine lock
        came back, whatever became of the exchange meanwhile. */
    method CompleteAuthenticate(env: Env, job: Job, ok: bool) returns (out: seq<Action>)
      ensures Outcome(saslSessions, out) == Step(kit, env, saslSessions, Verified(job, ok))
    {
      if ok {
        out := Login(env, job.client, job.account);
      } else {
        out := Fail(job.client);
      }
    }

    /** The SASL half of `forget_user`. */
    method ForgetUser(client: string)
      modifies this`saslSessions
      ensures forall env :: Outcome(saslSessions, []) == Step(kit, env, old(saslSessions), Gone(client))
    {
      saslSessions := saslSessions - {client};
    }
  }
}
