# echo services: a verified model

IRC services sit beside an ircd and keep their own picture of the network. This
project models the parts of echo where that picture, a parser or a protocol can
go wrong, and proves what the code keeps true of them over every input and every
run. Nothing here runs the services; `dafny verify dfyconfig.toml` checks it all.

| file | modules | what it models |
|---|---|---|
| `Bots.dfy` | `Bots` | four tables mirroring what the ircd believes about BotServ bots, the reconciliation that emits actions, and the ircd as a machine executing them |
| `Sasl.dfy`, `Logins.dfy`, `Plain.dfy`, `Outcomes.dfy` | `Sasl`, `Logins`, `PlainResponses`, `LoginOutcomes` | the login exchanges: one state machine over all clients, its runs and what logins rest on, chunked responses, what every client is answered |
| `Scram.dfy` | `Scram`, `Fields` | the SCRAM messages, their parsers and the verifier |
| `Enforce.dfy` | `Enforce` | guest nicks with a wrapping counter, and the timers of nick protection |
| `Limiter.dfy` | `Limiter` | token buckets with a garbage-collecting sweep |
| `Gossip.dfy` | `Gossip` | the two-role challenge-response handshake between nodes |
| `Dns.dfy`, `DnsReplies.dfy` | `Dns`, `DnsReplies` | query building, name decompression and the answer walk; whole replies as they are written |
| `Glob.dfy`, `Calendar.dfy` | `Glob`, `Calendar` | the hostmask matcher and the printed time |
| `Network.dfy`, `Chanfix.dfy`, `Incidents.dfy` | same | session slots, the server tree, op-time scores, the incident ring |
| `Kicker.dfy`, `Votes.dfy` | same | flood, repeat, warn and times-to-ban counters, vote tallies |
| `Text.dfy` | `Text`, `Numerals`, `Iteration`, `Division` | case folding, printed numbers, iteration over unordered containers |

Code that updates fields in place is a class whose methods are proved against
functions of the old state; the theorems are about those functions, over runs.
Where the original iterates a hash map, the order is arbitrary in the model too.
Cryptographic functions, base64 and UTF-8 are function-valued parameters with
stated laws; clocks, randomness and store lookups are parameters of each step.

## Where the code does less than it says

Each of these is proved here, with the exact condition under which the promised
property holds.

- The matcher tries the literal comparison before the star, so a `*` in the text
  uses up a `*` of the pattern (`api/src/lib.rs:2815`; `Glob.ExactForTexts`).
- The limiter's sweep is called lossless; it forgets the last warning, so one host
  can be warned twice within 30 seconds (`src/engine/mod.rs:3560`; `Limiter.DiffersIff`).
- A bot's membership is looked up by the exact spelling of the channel, while the
  ircd and the channel's own key ignore case: a kick reported in another spelling is
  not undone, and a respelled registry entry is joined and then parted
  (`src/engine/mod.rs:507`; `Bots.StepIsSoundIff`).
- The name reader takes the reserved length octets 64 to 191 for lengths
  (`src/dns.rs:101`; `Dns.RfcNameIff`).
- After 100000 taken candidates the guest nick is not checked at all
  (`api/src/lib.rs:2637`; `Enforce.GuestIsTakenIff`).
- Connecting over a uid that is still connected leaves a session slot behind
  (`src/engine/state.rs:212`; `Network.SlotsAreConserved`).
- The flood window tumbles: `flood_lines` lines within `flood_secs` seconds can
  straddle two windows; a line is caught exactly when its own window is full
  (`src/engine/kicker.rs:54`; `Kicker.FloodIff`, `Kicker.FloodIsCaught`).
- Vote tallies are keyed by nick, not by user; under an unchanged threshold, a passed
  vote is the vote of that many users against the user it removes exactly when every
  voter voted while the nick was that user's (`src/engine/kicker.rs:245`;
  `Votes.PassedIsMeantIff`).

## Model

| member | source | states |
|---|---|---|
| `Bots.UidReads` | src/engine/mod.rs:584 | a bot's uid is the server's id, the letter B and its index in at least five digits |
| `Bots.UidInjective` | src/engine/mod.rs:584-585 | two bot indices never print to the same uid |
| `Bots.ActionKeepsSim` | src/engine/mod.rs:554-678 | any action that is in order for the tables is accepted by the ircd and leaves tables and ircd in agreement: bots, identities, memberships, unused uids |
| `Bots.LegalRunKeepsSim` | src/engine/mod.rs:554-678 | a whole run of such actions is executed without a fault (no uid used twice, no nick taken, no unknown uid) and ends in agreement |
| `Bots.Engine.IntroduceBot` | src/engine/mod.rs:568-597 | one registry entry: nothing if live with its identity, otherwise quit the stale client and introduce it under the next uid |
| `Bots.Engine.IntroduceBots` | src/engine/mod.rs:568-597 | the first pass, entry by entry |
| `Bots.Engine.RetireBots` | src/engine/mod.rs:598-616 | the second pass: one quit for each live bot that left the registry, all its table entries gone |
| `Bots.Engine.JoinAssigned` | src/engine/mod.rs:617-661 | the third pass: one join and one mode-lock re-assertion for each assigned channel not joined yet |
| `Bots.Engine.PartUnassigned` | src/engine/mod.rs:662-676 | the fourth pass: one part for each membership no longer assigned |
| `Bots.Engine.ReconcileBots` | src/engine/mod.rs:554-678 | afterwards the tables say exactly what the registry says; whoever is not kept is quit, introduced as registered if registered, and nobody else; for every assigned channel the bot is not in as spelled there is exactly one +ao join, directly followed by that channel's own mode lock if and only if it has one, and no other join or mode change; parts come last, and a second call emits nothing and changes nothing |
| `Bots.PassesReconcile` | src/engine/mod.rs:554-678 | the four passes together reconcile, in whatever order the hash maps yield |
| `Bots.PassesTurn` | src/engine/mod.rs:568-615 | the quits are those of the live bots that left the registry or changed identity, the introductions those of the registered bots not kept, each with the uid the tables then hold |
| `Bots.PassesLock` | src/engine/mod.rs:617-661 | the joins are those of the channels whose live bot was not in them, once each, and a mode change occurs only directly behind such a join, by the bot that joined, with the lock of that very channel |
| `Bots.ReconcileIsSoundIff` | src/engine/mod.rs:617-677 | starting from true tables, the emitted actions leave the tables true if and only if the registry does not respell a channel a kept bot is in (join and part would then hit the same channel) |
| `Bots.SyncedMirrorsRegistry` | src/engine/mod.rs:554-678 | with a collision-free identity hash, synced true tables mean: each registered bot has one client playing it, each client plays a registered bot, and a client is in a channel exactly when it is assigned there |
| `Bots.ModeSourceIsBot` | src/engine/mod.rs:2745-2753 | the mode lock re-asserted after a join is sourced from the joining bot itself |
| `Bots.Engine.StartupActions` | src/engine/mod.rs:1682-1699 | a fresh link forgets every uid of the previous one and reconciles from nothing |
| `Bots.Engine.UserKilled` | src/engine/mod.rs:2480-2491 | a killed bot is forgotten and brought back; any other kill emits nothing |
| `Bots.Engine.MemberLeft` | src/engine/mod.rs:498-512 | a kicked bot loses that membership and is put back; any other departure emits nothing |
| `Bots.MisreportedBreaks` | src/engine/mod.rs:502-511 | a departure reported in another spelling than the tables hold leaves a membership the ircd no longer has, and no reaction |
| `Bots.StepIsSoundIff` | src/engine/mod.rs:498-512 | one step of the engine, whatever the event, keeps the tables true if and only if the channel names involved are spelled as the tables hold them |
| `Bots.EveryRunIsTruthful` | src/engine/mod.rs:554-678 | over every well-spelled run of relinks, registry edits, kills, kicks and parts the ircd accepts every action and the tables describe it exactly at every moment |
| `Bots.RunMirrorsRegistry` | src/engine/mod.rs:554-678 | after each step of such a run that reconciles, tables, registry and ircd agree |
| `Bots.FirstLink` | src/engine/mod.rs:1682-1699 | start-up with one bot assigned to one channel is a run, and leaves that bot in that channel under the first uid |
| `Bots.SpellingMatters` | src/engine/mod.rs:502-511 | after any start-up with a bot in "#A", a kick reported from "#a" goes unnoticed, and any reconciliation with a registry that renamed the channel to "#a" ends in tables the ircd contradicts |
| `Bots.NickCaseIsIgnored` | src/engine/mod.rs:568-583 | a bot whose registered nick changed in letter case only counts as in sync, so its client keeps the old spelling |
| `Enforce.CandidateReads` | api/src/lib.rs:2629-2641 | a candidate is the base followed by a 32-bit counter value in decimal |
| `Enforce.CandidatesDiffer` | api/src/lib.rs:2629-2641 | two guest candidates fewer than 2^32 places apart differ as case-folded nicks, counter wrap-around included |
| `Enforce.NickGuard.NextGuestNick` | api/src/lib.rs:2629-2641 | the nick returned is the first free candidate among the next 100000, else the unchecked one after them, and the counter moved just past it |
| `Enforce.GuestIsTakenIff` | api/src/lib.rs:2629-2641 | the nick handed out is in use if and only if 100001 candidates in a row are |
| `Enforce.GuestIsFree` | api/src/lib.rs:2629-2641 | with at most 100000 nicks online or registered the nick handed out is free, fallback included (pigeonhole) |
| `Enforce.RoomIsNeeded` | api/src/lib.rs:2637-2640 | that bound is tight: with 100001 taken nicks the fallback can return one of them |
| `Enforce.PassedOver` | api/src/lib.rs:2630-2635 | a stretch of counter values is no longer than the nicks given out in it plus the nicks in use |
| `Enforce.GuestsDoNotCollide` | src/engine/mod.rs:1546-1565 | the guest nicks of one sweep are pairwise different as long as renames and taken nicks together do not exceed 2^32, and all free when at most 100000 are taken |
| `Enforce.NickGuard.EnforceRegisteredNick` | src/engine/mod.rs:1487-1518 | a timer of 60 seconds replaces any earlier one of that user, only for a registered, protected nick of somebody else after the burst |
| `Enforce.NickGuard.NickChange` | src/engine/mod.rs:1984-1990 | a nick change drops the old timer before the new nick is looked at |
| `Enforce.NickGuard.Disarm` | src/engine/mod.rs:1076 | quitting or logging in drops the timer |
| `Enforce.NickGuard.TakeDue` | src/engine/mod.rs:1522-1545 | the index-and-remove loop keeps exactly the timers whose deadline is after now, in order, and lists the users to rename |
| `Enforce.NickGuard.EnforceSweep` | src/engine/mod.rs:1522-1566 | each due user is noticed and renamed to the guest nick drawn for them, in order |
| `Enforce.SweepActionsAre` | src/engine/mod.rs:1546-1565 | a sweep sends each of those users, in order, the notice (if there is a service to send it) and then the guest nick drawn for that user, and nothing else |
| `Enforce.OneTimerEach` | src/engine/mod.rs:1505-1510 | in every run a user has at most one armed timer |
| `Enforce.PendingIff` | src/engine/mod.rs:1487-1545 | a timer is on the list if and only if some event armed it and nothing since cleared it |
| `Enforce.RenamedIff` | src/engine/mod.rs:1522-1545 | a sweep renames a user if and only if they took a protected nick at least 60 seconds ago, did nothing since that clears the timer, still hold it, are not logged in to its owner, and the owner still wants protection; nobody is renamed twice |
| `Enforce.ProtectedIff` | src/engine/mod.rs:1487-1500 | the lookups through account and grouped nick find the nick protected exactly when the account of that name, or the one it is grouped to, exists, is not the user's and has not switched protection off |
| `Glob.GlobMatch` | api/src/lib.rs:2807-2834 | the backtracking loop over folded characters terminates and computes the recursive relation that matches literally before it tries a star |
| `Glob.WalkText` | api/src/lib.rs:2814-2829 | the loop over the text: what is left of the pattern decides the rest |
| `Glob.CaseIsIgnored` | api/src/lib.rs:2808-2811 | the verdict does not depend on the case of pattern or text, and characters are folded place by place |
| `Glob.DecidesIsSound` | api/src/lib.rs:2807-2834 | whatever the matcher accepts matches under the usual meaning of * and ?, for all inputs |
| `Glob.PlainIsComplete` | api/src/lib.rs:2807-2834 | without a * in the text (or without one in the pattern) the matcher and that meaning agree |
| `Glob.ExactForTexts` | api/src/lib.rs:2815 | for a given text they agree on every pattern if and only if the text holds no * |
| `Glob.ExactForPatterns` | api/src/lib.rs:2815 | for a given pattern they agree on every text if and only if the pattern holds no * |
| `Glob.StarInTextIsMissed` | api/src/lib.rs:2815 | for every text with a * there is a pattern that matches it and is refused |
| `Glob.StarInPatternIsMissed` | api/src/lib.rs:2815 | for every pattern with a * there is a text that it matches and that is refused |
| `Calendar.ClosedFormIsWalk` | api/src/lib.rs:2896-2905 | for every day since the epoch the closed form is the date reached by walking the Gregorian calendar from 1 January 1970, and it is a valid date |
| `Calendar.YearOfEraIsRight` | api/src/lib.rs:2899 | the year-of-era quotient picks the year the day falls in, for each of the 146097 days of an era |
| `Calendar.NextFromMarch` | api/src/lib.rs:2901-2904 | within a year beginning in March the month formula steps to the next calendar day, across leap-year ends |
| `Calendar.DayNumberUndoesCivil` | api/src/lib.rs:2896-2905 | counting years, months and days back from the date gives the day number |
| `Calendar.CivilUndoesDayNumber` | api/src/lib.rs:2896-2905 | every valid date from 1970 on is the closed form of its own day number |
| `Calendar.HumanTimeIsWalked` | api/src/lib.rs:2892-2907 | what is printed is the time of day on the date reached by walking |
| `Calendar.PrintedFieldsRead` | api/src/lib.rs:2892-2907 | read back field by field, the text is year, month and day of the walked date, then hour, minute and second of that day, with the marks between them |
| `Calendar.PrintedTimeInjective` | api/src/lib.rs:2892-2907 | so printed, two times are alike if and only if they are the same second |
| `Limiter.CmdLimiter.CheckAt` | src/engine/mod.rs:3536-3558 | the method with its swept map gives the verdict of the sweeping specification on the whole history |
| `Limiter.CmdLimiter.Sweep` | src/engine/mod.rs:3563-3571 | the sweep drops exactly the buckets that have refilled, at most once a minute |
| `Limiter.SweepIsLossless` | src/engine/mod.rs:3560-3571 | on every command history the sweeping limiter allows exactly the commands that a limiter which never forgets allows |
| `Limiter.RateIsBounded` | src/engine/mod.rs:3536-3547 | between any two moments w seconds apart a key is allowed at most burst + rate * w commands, sweeps and new buckets included |
| `Limiter.CommandRate` | src/engine/mod.rs:3515-3516 | for commands: at most 15 + w/2 for each host |
| `Limiter.RegistrationRate` | src/engine/mod.rs:3436-3460 | the registration limiter, which has one bucket for everybody, grants at most 8 + w/2 between two moments w seconds apart |
| `Limiter.RegistrationRefusal` | src/engine/mod.rs:3436-3460 | and refuses one only after 8 granted in the last 16 seconds |
| `Limiter.LookupRate` | src/engine/mod.rs:3463-3500 | dictionary lookups: at most 6 + w between two moments w seconds apart |
| `Limiter.LookupRefusal` | src/engine/mod.rs:3463-3500 | and none is refused unless 6 were granted in the last 6 seconds |
| `Limiter.RefusalNeedsBurst` | src/engine/mod.rs:3536-3547 | nobody is refused without having been allowed more than burst - 1 commands in the time a bucket takes to refill |
| `Limiter.CommandRefusal` | src/engine/mod.rs:3515-3516 | a host whose command is refused had 15 allowed in the last 30 seconds |
| `Limiter.WarnIff` | src/engine/mod.rs:3548-3557 | a refused command draws a warning if and only if no Warn verdict of that host lies less than 30 seconds back |
| `Limiter.SweepingWarnIff` | src/engine/mod.rs:3536-3571 | of the limiter that sweeps: if and only if every Warn verdict it gave that host less than 30 seconds back has been forgotten since by a sweep that found the bucket refilled |
| `Limiter.FirstDifference` | src/engine/mod.rs:3548-3571 | the first verdict on which the two limiters differ is Warn against Drop, 28 to 30 seconds after the host's last Warn verdict |
| `Limiter.DiffersIff` | src/engine/mod.rs:3548-3571 | and they differ on a command exactly when it is refused, a Warn verdict of that host lies less than 30 seconds back, and a sweep has forgotten the host's refilled bucket since |
| `Limiter.WarningForgotten` | src/engine/mod.rs:3560-3571 | a concrete history on which the sweep draws a second warning too early |
| `Limiter.GlobalLimiter.TryTake` | src/engine/mod.rs:3447-3460 | the single-bucket limiter is the same specification on one key |
| `Limiter.GlobalLimiter.LifeIsBounded` | src/engine/mod.rs:3447-3460 | in any stretch of its own life such a limiter granted at most burst + rate * w |
| `Scram.ParseUndoesEncode` | src/engine/scram.rs:143-163 | parsing an encoded verifier gives back iterations, salt and both keys |
| `Scram.ParseVerifier` | src/engine/scram.rs:143-163 | the field loop accepts any order, the last of repeated fields, and fails on a missing or malformed one |
| `Scram.ParseU32Iff` | src/engine/scram.rs:143-163 | an iteration count is read exactly from a decimal numeral below 2^32, with or without a plus |
| `Scram.VerifierIff` | src/engine/scram.rs:143-163 | exactly the strings of comma-separated assignments, version 1 throughout, whose last i=, s=, sk= and sv= can be read are verifiers, and those are what the verifier holds; a stored one is good enough with 1000 to 5000000 iterations |
| `Scram.MakeVerifier` | src/engine/scram.rs:103-124 | the salt is the first draw whose base64 is portable, and the result encodes the keys of that password |
| `Scram.XorCancels` | src/engine/scram.rs:89-91 | xor with the same key twice gives the message back |
| `Scram.MadeVerifierOkIff` | src/engine/scram.rs:171-173 | a verifier made by the services is accepted as an external one exactly when its iteration count is within the limits |
| `Scram.UnescapeUndoesEscape` | src/engine/scram.rs:198 | user names survive the =2C and =3D escapes of RFC 5802 |
| `Scram.ParseUndoesClientFirst` | src/engine/scram.rs:186-203 | a client-first message parses to the user, header, bare part and nonce it was built from |
| `Scram.ClientFirstIff` | src/engine/scram.rs:186-203 | exactly the messages cbflag,authzid,n=name,r=nonce, with or without more fields, whose cbflag does not ask for channel binding are taken, and what is read off them |
| `Scram.ClientReadsServerFirst` | src/engine/scram.rs:212-221 | a client reads the joint nonce, salt and iteration count off the server-first message |
| `Scram.VerifyFinal` | src/engine/scram.rs:225-265 | the field loop, nonce, channel-binding and proof checks as one verdict |
| `Scram.FinalAcceptedIff` | src/engine/scram.rs:225-265 | a client-final is accepted if and only if nonce and header are the ones of this exchange, the proof has the length of the hash and unmasks, over client-first-bare, server-first and client-final-without-proof joined by commas, to a key hashing to the stored key; the answer is the server signature of the same |
| `Scram.AcceptedMeans` | src/engine/scram.rs:225-265 | whatever string is accepted as client-final: it ends in a proof that unmasks, over the exchange and all before it, to a key hashing to the stored one; its last r= is the nonce and its last c= the header of this exchange; the answer is the server signature |
| `Scram.HonestClientAccepted` | src/engine/scram.rs:186-265 | whenever verify_plain accepts a password against a stored verifier, the client of RFC 5802 that holds it and builds its final from the messages it sent and received is accepted and answered the server signature of those messages, for any header, user and nonces without commas |
| `Scram.RegisteredPasswordLogsIn` | src/engine/scram.rs:103-141 | the password a verifier was made from passes verify_plain and the exchange, and the client receives the signature it expects |
| `Scram.AcceptanceBinds` | src/engine/scram.rs:225-265 | one client-final accepted in two exchanges on the same verifier has the same nonce, header and server-first in both, and the same client-first-bare unless the two signed messages, or the two keys the proof unmasks to, are an explicit hash collision |
| `Sasl.Agent.Sasl` | src/engine/sasl.rs:9-119 | one relayed message: the method with its map of exchanges takes exactly the step of the state machine |
| `Sasl.Agent.SaslContinue` | src/engine/sasl.rs:52-111 | a continuation takes the exchange out and puts back only what goes on |
| `Sasl.Agent.SaslPlain` | src/engine/sasl.rs:56-105 | PLAIN chunks: buffered while full, dropped when over 8192 bytes, decided after the last |
| `Sasl.Agent.SaslScram` | src/engine/sasl.rs:123-183 | the three SCRAM moves: opening, final verification, login on the acknowledgement |
| `Sasl.Agent.SaslEcdsa` | src/engine/sasl.rs:187-221 | the two ECDSA moves: challenge, then signature |
| `Sasl.Agent.CompleteAuthenticate` | src/engine/register.rs:423-435 | the answer to a deferred password check logs in or fails, as one step of the same machine |
| `Logins.RunStaysBounded` | src/engine/mod.rs:35-63 | in every interleaving there are at most 4096 exchanges and no buffered response exceeds 8192 characters |
| `Logins.LoginIsEarned` | src/engine/mod.rs:721-736 | in every interleaving a client is logged in to an account only as the end of its own exchange, with nothing else of that client handled in between: the SCRAM verifier, ECDSA key or certificate checked is the one the store gave for that account, the nonce or challenge the one drawn in this exchange, an authzid names the account; or its own PLAIN response asked for a check, against what the store held for the account, that came back good; and never to a suspended account |
| `Logins.ExchangesAreBacked` | src/engine/sasl.rs:9-250 | in every interleaving each open exchange is what its own client's messages, and the store at those moments, made it: collected chunks, opened SCRAM exchange, verified final, issued challenge |
| `Logins.DeferredIsAsked` | src/engine/sasl.rs:69-103 | every deferred check carries the account and verifier the store held for the name, and the password, that the client's own chunks since its request decode to |
| `PlainResponses.ReassembledIff` | src/engine/sasl.rs:56-71 | a response cut into 400-character chunks is reassembled and decoded once, after the last, if and only if it is at most 8192 characters and its last partial chunk is not a lone + |
| `PlainResponses.Base64IsReassembled` | src/engine/sasl.rs:56-71 | every base64 response of up to 8192 characters is |
| `PlainResponses.PlainClientIsChecked` | src/engine/mod.rs:3243-3252 | a PLAIN client chunking authzid, user and password within 60 seconds is answered nothing before its last chunk and then with exactly one deferred check of that password against that account, whatever all other clients do in between |
| `PlainResponses.TalkIsDecided` | src/engine/sasl.rs:52-105 | among any messages of other clients and sweeps, a chunked response is buffered in silence and decided as a whole after its last chunk |
| `PlainResponses.PlainIff` | src/engine/mod.rs:3243-3252 | exactly the responses that decode to three NUL-separated byte strings, the second and third of them text, are taken, for that user and password |
| `LoginOutcomes.AnswersAreRight` | src/engine/mod.rs:3262-3291 | in every run each input is answered with nothing, one challenge, one failure, one login with its success, or one deferred check, always to the client it came from |
| `LoginOutcomes.SuccessIffLogin` | src/engine/mod.rs:3273-3291 | in every run a client is told of success exactly when it is logged in at that moment, and then not of failure too |
| `LoginOutcomes.RepliesAreAnswered` | src/engine/sasl.rs:52-111 | a reply is challenged exactly when the exchange goes on and told the result exactly when it is over; only a full chunk of a PLAIN response that fits is met with silence |
| `LoginOutcomes.RequestIsAnswered` | src/engine/sasl.rs:24-50 | a request evicts exactly the exchanges left alone for a minute, and is taken if it names one of the five mechanisms and fewer than 4096 are left, else refused |
| `LoginOutcomes.CheckIsAnswered` | src/engine/register.rs:430-434 | a deferred check that came back good for an account that is not suspended logs the client in and tells it so; every other one is answered with failure |
| `LoginOutcomes.ScramClientLogsIn` | src/engine/sasl.rs:123-183 | a client of RFC 5802 that holds the password is challenged with the server-first and the server-final of its own exchange, and its acknowledgement logs it in (or fails if the account is suspended), whatever other clients do in between |
| `LoginOutcomes.ScramClientExists` | src/engine/sasl.rs:123-183 | such a client exists for every environment and password |
| `LoginOutcomes.RegisteredClientKnowsServer` | src/engine/sasl.rs:123-183 | with a verifier made here for that password, the server-final it receives is the signature it expects |
| `LoginOutcomes.EcdsaClientLogsIn` | src/engine/sasl.rs:187-221 | a client that names its account receives the challenge drawn for it, and signing it with the account's key logs it in |
| `LoginOutcomes.CertificateClientLogsIn` | src/engine/sasl.rs:226-250 | a client is logged in to the owner of the first owned fingerprint relayed for it exactly when it names nobody else and the account is not suspended |
| `LoginOutcomes.StrangerIsRefused` | src/engine/sasl.rs:226-250 | a client none of whose fingerprints is owned is refused |
| `LoginOutcomes.PlainClientLogsIn` | src/engine/register.rs:423-435 | a PLAIN client is logged in by the answer to the check its response led to exactly when its password is that of the verifier the store held and the account is not suspended |
| `LoginOutcomes.KeycardClientLogsIn` | src/engine/sasl.rs:73-85 | a client that sends a keycard has it redeemed for the account its name resolves to, or the name itself, and is logged in exactly by a good answer for an account that is not suspended |
| `Dns.ReadName` | src/dns.rs:77-110 | the loop returns the name of the recursive definition within 16 hops, never reads out of bounds, and turns at most 17 * |msg| + 1 times |
| `Dns.MoreHops` | src/dns.rs:84-96 | allowing more hops never changes a name that was found |
| `Dns.RfcNameIff` | src/dns.rs:84-107 | the reader departs from section 4.1.4 of RFC 1035 exactly where it finds a name though the walk meets a length octet of 64 to 191 |
| `Dns.RfcNamesAreShort` | src/dns.rs:84-107 | equivalently, the RFC's name is the reader's wherever all its labels have at most 63 octets, and nowhere else |
| `Dns.ReservedOctetIsRead` | src/dns.rs:84-107 | a reserved length octet (64 to 191) is read as a length |
| `Dns.BuildQuery` | src/dns.rs:56-72 | the query is id, header, encoded labels, root, type and class |
| `Dns.QueryReadsBack` | src/dns.rs:56-72 | reading a built query at offset 12 gives its labels back, each cut to 63 octets, and ends at the type |
| `Dns.NameSurvivesIff` | src/dns.rs:60-68 | a name comes back unchanged if and only if it is empty or all its labels have 1 to 63 octets |
| `Dns.WalkQuestions` | src/dns.rs:125-130 | the question section is skipped one name and four octets at a time, or given up |
| `Dns.ReadRecord` | src/dns.rs:133-149 | one record: name, type, length and range, or the end of the walk |
| `Dns.AnswerRdatas` | src/dns.rs:118-152 | the walk returns the ranges of the records of the wanted type, in order |
| `Dns.RangesAreSafe` | src/dns.rs:118-152 | every range lies inside the message behind a header of the wanted type and that length, and ranges are disjoint and in order |
| `DnsReplies.ChainReads` | src/dns.rs:77-110 | a compressed name, written as parts each ending in a pointer to the next, is read as their labels in order exactly when it takes no more pointers than allowed, and the record goes on behind its first part |
| `DnsReplies.SixteenPointers` | src/dns.rs:77-110 | so the text of a compressed name is its labels joined by dots exactly when it takes at most 16 pointers |
| `DnsReplies.QueryIsMessage` | src/dns.rs:56-72 | what is sent is a well-formed message, recursion desired, with one question: the kept labels, the type asked for, class IN |
| `DnsReplies.ReplyIsRead` | src/dns.rs:118-152 | of every well-formed reply (header with its counts, any questions, any answers, names plain or compressed with at most 16 pointers, anything behind) the walk returns exactly the answers of the wanted type, in order, each range being where that answer's data stand |
| `Gossip.AuthProofInjective` | src/gossip.rs:61-67 | proofs for different directions or nonces differ |
| `Gossip.Agreement` | src/gossip.rs:262-285 | in every interleaving with a peer that lacks the secret but may replay and forward, a session that accepted is vouched for: an honest session of the opposite role signed this nonce after it was drawn |
| `Gossip.NoPeerVouchesTwice` | src/gossip.rs:262-285 | one honest session never vouches for two |
| `Gossip.NoDataBeforeAccept` | src/gossip.rs:339-362 | digests and entries are handled only by a session that had accepted a vouched peer before |
| `Gossip.HonestPairAccepts` | src/gossip.rs:262-285 | two honest sessions of opposite roles with different nonces accept each other |
| `Gossip.DataIsHandledIff` | src/gossip.rs:262-362 | replicated data is handled exactly when it reaches a session that accepted its peer, and a failed session does nothing ever after |
| `Network.View.UserConnect` | src/engine/state.rs:212-217 | a connection takes a slot for its IP unless the IP is empty |
| `Network.View.UserQuit` | src/engine/state.rs:585-603 | a quit gives the slot back and drops the entry with its last one; the decrement cannot underflow |
| `Network.SlotsAreConserved` | src/engine/state.rs:212-217 | over every run of connects, quits, links and splits the slots of an IP are its connected users plus one for each earlier connection over a uid still connected; no entry is zero |
| `Network.SessionsAreExact` | src/engine/state.rs:212-217 | with fresh uids the table has an entry exactly for the IPs somebody is connected from, holding how many |
| `Network.View.AddChildren` | src/engine/state.rs:556-562 | the inner loop adds each child of a server once, whatever the map order |
| `Network.View.ServerSplit` | src/engine/state.rs:552-569 | the worklist loop terminates with exactly the servers that reach the split one through uplinks, each once, for any parent map, and forgets them |
| `Network.ClosedHoldsAll` | src/engine/state.rs:555-563 | a worklist closed under children holds everything below its root, cycles included |
| `Network.NoOrphans` | src/engine/state.rs:564-568 | no remaining server hangs off a removed one |
| `Network.View.UidsOnServer` | src/engine/state.rs:406-408 | the users whose uid starts with a server id |
| `Network.View.SplitServer` | src/engine/mod.rs:2500-2513 | the split and the forgetting of the users behind it, in whatever order, as one step |
| `Network.SplitForgets` | src/engine/mod.rs:2500-2513 | after a split exactly the users behind the subtree are gone, everyone else is untouched, and no uplink dangles |
| `Chanfix.ChanfixTable.Decay` | src/engine/state.rs:804-808 | every stored score loses a point, none below zero |
| `Chanfix.ChanfixTable.TakeSamples` | src/engine/state.rs:809-816 | one sample for every identifiable opped session, counted with multiplicity |
| `Chanfix.ChanfixTable.Credit` | src/engine/state.rs:817-820 | crediting samples one by one adds two points each up to the cap, in any order |
| `Chanfix.ChanfixTable.Sample` | src/engine/state.rs:803-825 | a pass maps each score s to min(5000, max(0, s-1) + 2k), k being the opped sessions of that identity in that channel, and keeps scores within 1 to 5000 |
| `Chanfix.ScoresDetermine` | src/engine/state.rs:821-824 | a stored table is determined by its scores: no zero entries, no empty channels |
| `Chanfix.PassIsDetermined` | src/engine/state.rs:803-825 | two passes over the same view store the same table whatever order they sampled in |
| `Chanfix.IdleFades` | src/engine/state.rs:803-825 | n passes over any views in which an identity holds no op in the channel take its score from s to max(0, s-n) |
| `Chanfix.RegularRises` | src/engine/state.rs:803-825 | n passes in each of which it holds op take it to at least min(5000, s+n) |
| `Chanfix.GainIsBounded` | src/engine/state.rs:803-825 | any passes gain it at most two points for each opped session they saw |
| `Incidents.IncidentCode` | src/engine/state.rs:75-88 | the digit loop prints the base-36 numeral |
| `Incidents.IncidentLog.RecordIncident` | src/engine/state.rs:318-326 | the incident is appended under the next id and the oldest dropped beyond 10000 |
| `Incidents.RingIsTheRecentPast` | src/engine/state.rs:318-326 | after any history the ring is the last min(n, 10000) incidents, those it started with included |
| `Incidents.IdsAreDistinct` | src/engine/state.rs:75-88 | ids in the ring are pairwise different after any history, also from a restored log |
| `Incidents.IncidentLog.Snapshot` | src/engine/state.rs:754-756 | a snapshot lists counter and ring, oldest first |
| `Incidents.IncidentLog.Seed` | src/engine/state.rs:746-750 | seeding installs exactly the counter and ring given |
| `Incidents.SaveAndRestore` | src/engine/state.rs:746-756 | a log seeded from a snapshot equals the log it was taken of |
| `Kicker.Kickers.KickerCheck` | src/engine/kicker.rs:10-120 | judging one line changes its author's counters in that channel only, gives the verdict of the specification, and schedules an unban exactly with a timed ban |
| `Kicker.Kickers.Punish` | src/engine/kicker.rs:77-119 | warn once, then kick, and ban when the kick count reaches the limit |
| `Kicker.SteppedFollows` | src/engine/kicker.rs:174-206 | a table changed by these methods holds, for every user and channel, what the whole history says of them |
| `Kicker.EntryIsSpoken` | src/engine/kicker.rs:174-206 | a user's counters in a channel are determined by what that user said there since last joining |
| `Kicker.CountersAreBacked` | src/engine/kicker.rs:50-62 | in every run with a monotone clock the flood counter never exceeds the lines spoken since its window began |
| `Kicker.WindowHolds` | src/engine/kicker.rs:54-57 | the flood window of a history: it began with the first line to come after the one before was over, and no line in it came later than its flood_secs |
| `Kicker.CounterIsExact` | src/engine/kicker.rs:53-62 | the stored flood counter is the number of that user's counted lines in the current window, as far as 16 bits can tell, whatever the settings did |
| `Kicker.FloodIff` | src/engine/kicker.rs:53-62 | in every run a line is found to be flooding if and only if, with it, the current window holds at least flood_lines lines of its author |
| `Kicker.FoundIsPunished` | src/engine/kicker.rs:77-119 | a line found to break a rule, to flood or to repeat gets its author warned, if warnings are on and for the first time, or else kicked for that reason; with nothing found nothing happens |
| `Kicker.UnheededIsIgnored` | src/engine/kicker.rs:14-27 | without kickers or a bot in the channel, or from an exempt operator or voiced user, a line changes no counter and has no consequence |
| `Kicker.TrippedIsFound` | src/engine/kicker.rs:32-47 | a rule without memory is what is found exactly when the line breaks one |
| `Kicker.FloodKickMeansFlood` | src/engine/kicker.rs:50-62 | whoever is kicked for flooding spoke at least flood_lines lines in that channel in the last flood_secs seconds, however settings changed and whatever spelling of the channel was used |
| `Kicker.FloodIsCaught` | src/engine/kicker.rs:53-62 | over every run, among any 2 * flood_lines - 2 counted lines of a user within flood_secs seconds one is found to be flooding (with one line more, also of a new user at a clock reading of at most flood_secs) |
| `Kicker.FloodCanHide` | src/engine/kicker.rs:53-62 | that bound is exact: under any limit there is a run in which 2 * flood_lines - 3 lines within a second go by without consequences |
| `Kicker.RepeatIff` | src/engine/kicker.rs:63-73 | in every run a line that gets as far as the repeat counter is found to repeat if and only if with it the user has sent lines of its hash repeat_times + 1 times in a row since joining, a hash of zero also counting the silence before the first |
| `Kicker.RepeatKickMeansRepeats` | src/engine/kicker.rs:63-73 | whoever is kicked for repeating sent repeat_times lines of the same hash beyond the first in a row (one fewer if that hash is the initial zero) |
| `Kicker.WarnedOnceThenKicked` | src/engine/kicker.rs:81-93 | a user is warned at most once between joining and leaving, and with the warning on never kicked without it |
| `Kicker.EveryNthKickBans` | src/engine/kicker.rs:97-117 | exactly every ttb-th kick comes with a ban |
| `Kicker.Kickers.ForgetChatter` | src/engine/kicker.rs:190-198 | leaving a channel drops that user's counters there and nothing else |
| `Kicker.Kickers.ForgetEverywhere` | src/engine/kicker.rs:201-206 | quitting drops them in every channel and nothing else |
| `Votes.Ballots.HandleVote` | src/engine/kicker.rs:229-277 | a vote sweeps old tallies, joins or opens one, and is announced, carried or passed on |
| `Votes.TalliesAreFaithful` | src/engine/kicker.rs:247-260 | in every run there is an open tally under a key exactly if the history says so, holding exactly the voters since it began, fewer than the 16-bit count can hold |
| `Votes.CurrentHolds` | src/engine/kicker.rs:247-265 | that beginning is the first counted vote since one last passed or the tally was found over 120 seconds old; since then none under that key carried it and no counted vote came too late |
| `Votes.PassesIff` | src/engine/kicker.rs:247-265 | a counted vote passes if and only if its author had not voted since the tally it joins began and with it at least threshold different users have; it is handed on if and only if its author had; the tally is at most 120 seconds old; a count announced is the number of those users, and a passed vote acts on the target and in the way its author asked |
| `Votes.UncountedIsIdle` | src/engine/kicker.rs:216-243 | a vote that may not be cast changes no tally: against a protected user it is refused, otherwise it is ordinary talk |
| `Votes.PassedIsMeantIff` | src/engine/kicker.rs:244-265 | a passed vote is the vote of threshold users against the user it removes if everybody who voted since the tally began did so at least once while the nick was that user's; with the threshold unchanged since, only then |
| `Votes.SameHolderIsMeant` | src/engine/kicker.rs:244-265 | so it is whenever the nick had the same holder at every vote since the tally began |
| `Votes.VotesFollowTheNick` | src/engine/kicker.rs:244-245 | otherwise not: a vote against an earlier holder of the nick counts against the present one |
| `Numerals.ValueOfNumeral` | src/engine/state.rs:75-88 | reading a numeral back gives the number |
| `Numerals.NumeralInjective` | src/engine/state.rs:75-88 | no two numbers print alike in the same radix |

## Left out

- The event log, its compaction and the convergence of gossiped entries: their merge rules are another subject; the handshake model stops at "handles a digest or an entry".
- Sockets, TLS, timers, mail, HTTP, the web panel, help and message texts: input and output, or presentation.
- HMAC, the hash functions, PBKDF2, ECDSA, base64 and UTF-8 themselves: parameters with stated laws (fixed output length, decoding undoes encoding, no comma in base64 text, UTF-8 is injective). In `Gossip` a proof is a symbolic term nobody can build without the secret.
- Interleaving of the engine with the ircd: events reach the engine one at a time and its actions are executed before the next event, so a kill that crosses an introduction on the wire is not modelled.
- 32-bit overflow of `next_bot_index`, of a session count and 64-bit overflow of the incident counter: these count unboundedly here; the guest-nick counter, the 16-bit kicker counters and vote counts do wrap, saturate or truncate as in the code.
- Collisions of `ident_hash` and `ci_hash`: reconciliation is proved for any hash; only `Bots.SyncedMirrorsRegistry` assumes that no two identities collide, and repeats are stated of hashes.
- The fixed uids of the services themselves, service introductions and the audit, notice and feed lines around each step.
- Registry nicks and channel names are taken to be unique after lower-casing, as the store keys them; uids online under one nick likewise.
- Connections refused under DEFCON 1 or over the session limit: they never arm a nick timer, so `Enforce` starts after that point.
- Brute-force throttling and screening of failed logins: `Sasl` reads the lock-out as a parameter and does not say how failures feed it.
- The answer to a deferred check is assumed to come from a job that was deferred and to be what `verify_plain` says; that it comes at most once is not used.
- Recognising the text of a vote command, and the formatting, caps and bad-word rules of the kickers: a line arrives with their result.
- Chunked messages of mechanisms other than PLAIN: the code takes every chunk for a whole message, so what is proved of SCRAM, ECDSA and EXTERNAL clients is about messages of one chunk.
- The limits on SASL chunks and responses count characters here and octets in the code; base64 text, which is all an honest client sends, is the same in both.
- Lifting timed bans: only their scheduling is modelled.
- Auto-response triggers, DICT and DNSBL lookups, DNS MX and AAAA decoding: the same shapes as what is modelled, and easier.
- Non-ASCII case folding in the matcher: the folding of one character is a parameter.
- The limiters' clocks are real numbers; rounding of floating-point seconds is not modelled.
