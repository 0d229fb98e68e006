/** Chunked PLAIN responses: what reassembly makes of a response, and a client's whole
    exchange among the messages of every other client. */
module PlainResponses {
  import opened Text
  import opened Fields
  import opened Sasl
  import opened Logins
  import S = Scram

  /** The client's side of IRCv3 SASL 3.1: full chunks of 400 bytes, then the rest, with
      a lone plus standing for an empty rest. */
  function Chunks(r: string): seq<string>
    decreases |r|
  {
    if |r| >= MAX_AUTHENTICATE then [r[..MAX_AUTHENTICATE]] + Chunks(r[MAX_AUTHENTICATE..])
    else if r == "" then ["+"]
    else [r]
  }

  /** What is left after the full chunks. */
  function Rest(r: string): string
    decreases |r|
  {
    if |r| >= MAX_AUTHENTICATE then Rest(r[MAX_AUTHENTICATE..]) else r
  }

  datatype Fed = Waiting(response: string) | Decoded(response: string, unheard: nat) | Refused

  /** What reassembly makes of a list of chunks. */
  function Feed(response: string, chunks: seq<string>): Fed
    decreases |chunks|
  {
    if chunks == [] then Waiting(response)
    else
      match TakeChunk(response, chunks[0])
      case TooLong => Refused
      case More(r) => Feed(r, chunks[1..])
      case Whole(r) => Decoded(r, |chunks| - 1)
  }

  /** What the server makes of `r`: a last partial chunk that is a lone plus is lost. */
  function Heard(r: string): string
    decreases |r|
  {
    if |r| >= MAX_AUTHENTICATE then r[..MAX_AUTHENTICATE] + Heard(r[MAX_AUTHENTICATE..])
    else if r == "+" then ""
    else r
  }

  lemma {:induction false} HeardIsWhole(r: string)
    ensures |Heard(r)| == if Rest(r) == "+" then |r| - 1 else |r|
    ensures Rest(r) != "+" ==> Heard(r) == r
    decreases |r|
  {
    if |r| >= MAX_AUTHENTICATE {
      HeardIsWhole(r[MAX_AUTHENTICATE..]);
      assert r == r[..MAX_AUTHENTICATE] + r[MAX_AUTHENTICATE..];
    }
  }

  lemma {:induction false} FeedChunks(sofar: string, r: string)
    requires |sofar| + |r| <= MAX_SASL_RESPONSE
    ensures Feed(sofar, Chunks(r)) == Decoded(sofar + Heard(r), 0)
    decreases |r|
  {
    if |r| >= MAX_AUTHENTICATE {
      var head, tail := r[..MAX_AUTHENTICATE], r[MAX_AUTHENTICATE..];
      FeedChunks(sofar + head, tail);
      FeedFull(sofar, head, Chunks(tail));
      assert (sofar + head) + Heard(tail) == sofar + (head + Heard(tail));
    } else {
      LastChunk(sofar, r);
    }
  }

  lemma FeedFull(sofar: string, head: string, later: seq<string>)
    requires |head| == MAX_AUTHENTICATE && |sofar| + |head| <= MAX_SASL_RESPONSE
    ensures Feed(sofar, [head] + later) == Feed(sofar + head, later)
  {
    assert ([head] + later)[1..] == later;
  }

  lemma LastChunk(sofar: string, r: string)
    requires |r| < MAX_AUTHENTICATE && |sofar| + |r| <= MAX_SASL_RESPONSE
    ensures Feed(sofar, Chunks(r)) == Decoded(sofar + Heard(r), 0)
  {
    assert sofar + "" == sofar;
    FeedOne(sofar, if r == "" then "+" else r);
  }

  lemma FeedOne(sofar: string, chunk: string)
    requires |chunk| < MAX_AUTHENTICATE && |sofar| + |chunk| <= MAX_SASL_RESPONSE + 1
    requires chunk != "+" ==> |sofar| + |chunk| <= MAX_SASL_RESPONSE
    ensures Feed(sofar, [chunk]) == Decoded(if chunk == "+" then sofar else sofar + chunk, 0)
  {
  }

  lemma {:induction false} DecodedFits(response: string, chunks: seq<string>)
    requires |response| <= MAX_SASL_RESPONSE && Feed(response, chunks).Decoded?
    ensures |Feed(response, chunks).response| <= MAX_SASL_RESPONSE
    decreases |chunks|
  {
    var t := TakeChunk(response, chunks[0]);
    if t.More? {
      DecodedFits(t.response, chunks[1..]);
    }
  }

  /** Reassembly gives back exactly the response, after exactly its last chunk, if and
      only if it is at most 8192 bytes long and its last partial chunk is not a plus
      sign alone. */
  lemma ReassembledIff(r: string)
    ensures Feed("", Chunks(r)) == Decoded(r, 0) <==> |r| <= MAX_SASL_RESPONSE && Rest(r) != "+"
  {
    if |r| <= MAX_SASL_RESPONSE {
      FeedChunks("", r);
      HeardIsWhole(r);
      assert "" + Heard(r) == Heard(r);
    } else if Feed("", Chunks(r)).Decoded? {
      DecodedFits("", Chunks(r));
    }
  }

  lemma {:induction false} RestKeepsGroups(r: string)
    requires |r| % 4 == 0
    ensures Rest(r) != "+"
    decreases |r|
  {
    if |r| >= MAX_AUTHENTICATE {
      RestKeepsGroups(r[MAX_AUTHENTICATE..]);
    } else {
      assert |r| != 1;
    }
  }

  /** Base64 comes in groups of four, so no base64 response is ever mistaken. */
  lemma Base64IsReassembled(r: string)
    requires |r| % 4 == 0 && |r| <= MAX_SASL_RESPONSE
    ensures Feed("", Chunks(r)) == Decoded(r, 0)
  {
    RestKeepsGroups(r);
    ReassembledIff(r);
  }

  /** The response a PLAIN client sends. */
  function PlainResponse(kit: Kit, authzid: string, user: string, password: string): string {
    kit.c.enc(kit.c.utf8(authzid) + [0] + (kit.c.utf8(user) + [0] + kit.c.utf8(password)))
  }

  lemma PlainDecodes(kit: Kit, authzid: string, user: string, password: string)
    requires S.Laws(kit.c) && kit.text(kit.c.utf8(user)) == Some(user) && kit.text(kit.c.utf8(password)) == Some(password)
    requires 0 !in kit.c.utf8(authzid) && 0 !in kit.c.utf8(user) && 0 !in kit.c.utf8(password)
    ensures DecodePlain(kit, PlainResponse(kit, authzid, user, password)) == Some((user, password))
  {
    var a, u, p := kit.c.utf8(authzid), kit.c.utf8(user), kit.c.utf8(password);
    SplitAtFirst(a, 0, u + [0] + p);
    SplitAtFirst(u, 0, p);
    SplitWhole(p, 0);
  }

  /** Three byte strings without NUL, joined by NULs; the second and third are text. */
  ghost predicate PlainShape(kit: Kit, b64: string, authzid: Bytes, u: Bytes, p: Bytes, user: string, password: string) {
    && kit.c.dec(b64) == Some(authzid + [0] + (u + [0] + p)) && 0 !in authzid && 0 !in u && 0 !in p
    && kit.text(u) == Some(user) && kit.text(p) == Some(password)
  }

  /** Exactly the responses of that shape are taken, for that user and password. */
  lemma PlainIff(kit: Kit, b64: string, user: string, password: string)
    ensures DecodePlain(kit, b64) == Some((user, password)) <==>
            exists authzid: Bytes, u: Bytes, p: Bytes :: PlainShape(kit, b64, authzid, u, p, user, password)
  {
    hide Split;
    if authzid: Bytes, u: Bytes, p: Bytes :| PlainShape(kit, b64, authzid, u, p, user, password) {
      SplitAtFirst(authzid, 0, u + [0] + p);
      SplitAtFirst(u, 0, p);
      SplitWhole(p, 0);
    }
    if DecodePlain(kit, b64) == Some((user, password)) {
      var raw := kit.c.dec(b64).value;
      var authzid, rest := SplitFirst(raw, 0);
      var u, tail := SplitFirst(rest, 0);
      var p, none := SplitFirst(tail, 0);
      assert Split(raw, 0) == [authzid] + ([u] + Split(tail, 0));
      assert raw == authzid + [0] + (u + [0] + p);
      assert PlainShape(kit, b64, authzid, u, p, user, password);
    }
  }

  // ----- Among other clients -----------------------------------------------------------------

  /** The chunks a client sent after moment `k`. */
  function Sent(run: seq<Moment>, client: string, k: nat, end: nat): seq<string>
    requires end <= |run|
    decreases end
  {
    if end <= k + 1 then []
    else Sent(run, client, k, end - 1) + if Replies(run[end - 1], client) then [Chunk(run[end - 1])] else []
  }

  /** By the engine's clock, less than the session TTL passes in all. */
  ghost predicate Brisk(run: seq<Moment>, k: nat, n: nat)
    requires n < |run|
  {
    forall i, j :: k <= i <= j <= n ==> run[j].env.now - run[i].env.now < SASL_SESSION_TTL
  }

  /** From its accepted request at `k` to its last chunk at `n` the client sends the
      chunks of `r` and nothing else that is handled; anybody else may do anything. */
  ghost predicate Talks(kit: Kit, run: seq<Moment>, client: string, k: nat, n: nat, r: string) {
    && k < n < |run| && Asks(run[k], client, Plain("")) && HandledAt(kit, run, client, k)
    && OnlyReplies(kit, run, client, k, n) && Replies(run[n], client)
    && Sent(run, client, k, n + 1) == Chunks(r) && Brisk(run, k, n)
  }

  lemma {:induction false} SentGrows(run: seq<Moment>, client: string, k: nat, a: nat, b: nat)
    requires a <= b <= |run|
    ensures Sent(run, client, k, a) <= Sent(run, client, k, b)
    decreases b
  {
    if a < b {
      SentGrows(run, client, k, a, b - 1);
    }
  }

  /** Before its last reply the client has sent a proper prefix of its chunks. */
  lemma SentSoFar(kit: Kit, run: seq<Moment>, client: string, k: nat, n: nat, r: string, t: nat)
    requires Talks(kit, run, client, k, n, r) && k < t <= n
    ensures Sent(run, client, k, t) < Chunks(r)
    ensures Replies(run[t], client) ==> Chunk(run[t]) == Chunks(r)[|Sent(run, client, k, t)|]
    ensures Replies(run[t], client) ==> Sent(run, client, k, t + 1) == Sent(run, client, k, t) + [Chunk(run[t])]
    ensures !Replies(run[t], client) ==> Sent(run, client, k, t + 1) == Sent(run, client, k, t)
    ensures t == n ==> |Sent(run, client, k, t)| == |Chunks(r)| - 1
  {
    hide HandledAt, Asks;
    SentGrows(run, client, k, t, n);
    SentGrows(run, client, k, t + 1, n + 1);
    assert Sent(run, client, k, n + 1) == Sent(run, client, k, n) + [Chunk(run[n])];
  }

  /** All but the last chunk are full, and start where the ones before ended. */
  lemma {:induction false} ChunkAt(r: string, c: nat)
    requires c < |Chunks(r)|
    ensures MAX_AUTHENTICATE * c <= |r|
    ensures c < |Chunks(r)| - 1 ==>
              MAX_AUTHENTICATE * (c + 1) <= |r| && Chunks(r)[c] == r[MAX_AUTHENTICATE * c..MAX_AUTHENTICATE * (c + 1)]
    ensures c == |Chunks(r)| - 1 ==>
              && |r| - MAX_AUTHENTICATE * c < MAX_AUTHENTICATE && r[MAX_AUTHENTICATE * c..] == Rest(r)
              && Chunks(r)[c] == if Rest(r) == "" then "+" else Rest(r)
    decreases c
  {
    if |r| >= MAX_AUTHENTICATE {
      var tail := r[MAX_AUTHENTICATE..];
      if c == 0 {
        assert Chunks(tail) != [];
      } else {
        ChunkAt(tail, c - 1);
        assert tail[MAX_AUTHENTICATE * (c - 1)..] == r[MAX_AUTHENTICATE * c..];
        if c < |Chunks(r)| - 1 {
          assert tail[MAX_AUTHENTICATE * (c - 1)..MAX_AUTHENTICATE * c]
              == r[MAX_AUTHENTICATE * c..MAX_AUTHENTICATE * (c + 1)];
        }
      }
    }
  }

  /** The exchange as it stands before moment `t`: all that was sent, touched since `k`. */
  ghost predicate Stands(kit: Kit, run: seq<Moment>, client: string, k: nat, t: nat, response: string)
    requires t <= |run|
  {
    var sessions := SessionsAt(kit, run[..t]);
    && client in sessions && sessions[client].session == Plain(response)
    && exists i :: k <= i < t && sessions[client].touched == run[i].env.now
  }

  /** Nothing short of the TTL evicts an exchange that is not touched. */
  lemma UnhandledSurvives(kit: Kit, m: Moment, sessions: Sessions, client: string)
    requires !Handles(m, sessions, client) && client in sessions
    requires m.env.now - sessions[client].touched < SASL_SESSION_TTL
    ensures var after := Step(kit, m.env, sessions, m.input).sessions;
            client in after && after[client] == sessions[client]
  {
    hide PlainDecision, ExternalDecision, OpenScram, DecodeText;
  }

  lemma RequestStands(kit: Kit, run: seq<Moment>, client: string, k: nat)
    requires k < |run| && Asks(run[k], client, Plain("")) && HandledAt(kit, run, client, k)
    ensures Stands(kit, run, client, k, k + 1, "")
  {
    assert run[..k + 1][..k] == run[..k];
  }

  lemma WaitStands(kit: Kit, run: seq<Moment>, client: string, k: nat, n: nat, t: nat, response: string)
    requires k < t <= n < |run| && Brisk(run, k, n) && !HandledAt(kit, run, client, t)
    requires Stands(kit, run, client, k, t, response)
    ensures Stands(kit, run, client, k, t + 1, response)
  {
    hide Step, Handles;
    assert run[..t + 1][..t] == run[..t];
    UnhandledSurvives(kit, run[t], SessionsAt(kit, run[..t]), client);
  }

  lemma ChunkStands(kit: Kit, run: seq<Moment>, client: string, k: nat, t: nat, response: string)
    requires k < t < |run| && Replies(run[t], client) && Stands(kit, run, client, k, t, response)
    requires |Chunk(run[t])| == MAX_AUTHENTICATE && |response| + MAX_AUTHENTICATE <= MAX_SASL_RESPONSE
    ensures Stands(kit, run, client, k, t + 1, response + Chunk(run[t])) && OutAt(kit, run, t) == []
  {
    hide PlainDecision, ExternalDecision, OpenScram, DecodeText;
    assert run[..t + 1][..t] == run[..t];
  }

  function Upto(r: string, c: nat): string
    requires MAX_AUTHENTICATE * c <= |r|
  {
    r[..MAX_AUTHENTICATE * c]
  }

  /** Moment `t`, before the last chunk: a chunk is buffered in silence, anything else
      leaves the exchange alone. */
  lemma TalkStep(kit: Kit, run: seq<Moment>, client: string, k: nat, n: nat, r: string, t: nat, c: nat)
    requires Talks(kit, run, client, k, n, r) && |r| <= MAX_SASL_RESPONSE && k < t < n
    requires c == |Sent(run, client, k, t)| && c < |Chunks(r)| && MAX_AUTHENTICATE * c <= |r|
    requires Stands(kit, run, client, k, t, Upto(r, c))
    ensures Replies(run[t], client) ==> OutAt(kit, run, t) == []
    ensures var c' := |Sent(run, client, k, t + 1)|;
            MAX_AUTHENTICATE * c' <= |r| && Stands(kit, run, client, k, t + 1, Upto(r, c'))
  {
    hide Stands, HandledAt, Step, Chunks, Sent;
    SentSoFar(kit, run, client, k, n, r, t);
    SentSoFar(kit, run, client, k, n, r, t + 1);
    ChunkAt(r, c);
    if Replies(run[t], client) {
      assert Upto(r, c + 1) == Upto(r, c) + Chunk(run[t]);
      ChunkStands(kit, run, client, k, t, Upto(r, c));
    } else {
      WaitStands(kit, run, client, k, n, t, Upto(r, c));
    }
  }

  lemma TalkBegins(kit: Kit, run: seq<Moment>, client: string, k: nat, n: nat, r: string)
    requires Talks(kit, run, client, k, n, r)
    ensures k < n < |run| && Sent(run, client, k, k + 1) == [] && Stands(kit, run, client, k, k + 1, Upto(r, 0))
  {
    hide Stands, HandledAt, Asks;
    RequestStands(kit, run, client, k);
    assert Upto(r, 0) == "";
  }

  lemma {:induction false} TalkStands(kit: Kit, run: seq<Moment>, client: string, k: nat, n: nat, r: string, t: nat)
    requires Talks(kit, run, client, k, n, r) && |r| <= MAX_SASL_RESPONSE && k < t <= n < |run|
    ensures var c := |Sent(run, client, k, t)|;
            && c < |Chunks(r)| && MAX_AUTHENTICATE * c <= |r| && Stands(kit, run, client, k, t, Upto(r, c))
    ensures forall j :: k < j < t && Replies(run[j], client) ==> OutAt(kit, run, j) == []
    decreases t
  {
    hide Stands, Talks, Sent, Upto, Replies, OutAt, Chunks;
    TalkBegins(kit, run, client, k, n, r);
    SentSoFar(kit, run, client, k, n, r, t);
    if t > k + 1 {
      TalkStands(kit, run, client, k, n, r, t - 1);
      SentSoFar(kit, run, client, k, n, r, t - 1);
      TalkStep(kit, run, client, k, n, r, t - 1, |Sent(run, client, k, t - 1)|);
    }
  }

  /** The last chunk is answered by the decision on the whole response. */
  lemma LastIsDecided(kit: Kit, run: seq<Moment>, client: string, k: nat, n: nat, response: string, last: string)
    requires n < |run| && Replies(run[n], client) && Stands(kit, run, client, k, n, response)
    requires |last| < MAX_AUTHENTICATE && last != "+" && |response| + |last| <= MAX_SASL_RESPONSE
    requires Chunk(run[n]) == if last == "" then "+" else last
    ensures OutAt(kit, run, n) == PlainDecision(kit, run[n].env, client, response + last)
  {
    hide PlainDecision, ExternalDecision, OpenScram, DecodeText;
    assert response + "" == response;
  }

  /** Among whatever other clients do, a response sent in chunks is buffered in silence and
      decided exactly once, after its last chunk, as a whole. */
  lemma TalkIsDecided(kit: Kit, run: seq<Moment>, client: string, k: nat, n: nat, r: string)
    requires Talks(kit, run, client, k, n, r) && |r| <= MAX_SASL_RESPONSE && Rest(r) != "+"
    ensures forall j :: k < j < n && Replies(run[j], client) ==> OutAt(kit, run, j) == []
    ensures OutAt(kit, run, n) == PlainDecision(kit, run[n].env, client, r)
  {
    hide Stands, HandledAt, Asks, PlainDecision, Chunks, Replies, OutAt;
    TalkStands(kit, run, client, k, n, r, n);
    SentSoFar(kit, run, client, k, n, r, n);
    var c := |Chunks(r)| - 1;
    ChunkAt(r, c);
    assert r == Upto(r, c) + Rest(r);
    LastIsDecided(kit, run, client, k, n, Upto(r, c), Rest(r));
  }

  /** A PLAIN client whose response fits has its password checked against the verifier
      of the account it named, once, after the last chunk, however the chunks fall and
      whatever other clients do in between. */
  lemma PlainClientIsChecked(kit: Kit, run: seq<Moment>, client: string, k: nat, n: nat,
                             authzid: string, user: string, password: string, account: string, verifier: string)
    requires S.Laws(kit.c) && kit.text(kit.c.utf8(user)) == Some(user) && kit.text(kit.c.utf8(password)) == Some(password)
    requires 0 !in kit.c.utf8(authzid) && 0 !in kit.c.utf8(user) && 0 !in kit.c.utf8(password)
    requires var r := PlainResponse(kit, authzid, user, password);
             Talks(kit, run, client, k, n, r) && |r| % 4 == 0 && |r| <= MAX_SASL_RESPONSE
    requires var env := run[n].env;
             env.scram(user, S.Sha256) == Some((account, verifier)) && !env.lockedOut(account) && !("kc_" <= password)
    ensures forall j :: k < j < n && Replies(run[j], client) ==> OutAt(kit, run, j) == []
    ensures OutAt(kit, run, n) == [Defer(Password(client, account, verifier, password))]
  {
    hide Talks, Replies, OutAt, PlainResponse;
    var r := PlainResponse(kit, authzid, user, password);
    RestKeepsGroups(r);
    PlainDecodes(kit, authzid, user, password);
    TalkIsDecided(kit, run, client, k, n, r);
  }
}
