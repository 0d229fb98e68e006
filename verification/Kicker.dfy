/** BotServ kickers: per-user, per-channel counters that stand in for the whole message
    history (flood, repeat, warn-once, times-to-ban). */
module Kicker {
  import opened Division
  import opened Text

  const U16_MAX := 65535

  /** The kicker settings the counters depend on, as stored (0 = default). */
  datatype Settings = Settings(
    flood: bool, floodLines: nat, floodSecs: nat, repeats: bool, repeatTimes: nat,
    ttb: nat, banExpire: nat, warn: bool, anyOther: bool, dontKickOps: bool, dontKickVoices: bool)

  /** Thresholds are 16-bit. */
  predicate InRange(s: Settings) {
    s.floodLines <= 65535 && s.floodSecs <= 65535 && s.repeatTimes <= 65535 && s.ttb <= 65535
  }

  function FloodLines(s: Settings): nat {
    if s.floodLines < 2 then 6 else s.floodLines
  }

  function FloodSecs(s: Settings): nat {
    if s.floodSecs == 0 then 10 else s.floodSecs
  }

  function RepeatTimes(s: Settings): nat {
    if s.repeatTimes == 0 then 3 else s.repeatTimes
  }

  /** One channel line, with what the engine looks up to judge it. `tripped` says that a
      rule without a memory (formatting, caps, bad words) already applies. */
  datatype Line = Line(
    now: nat, settings: Option<Settings>, isOp: bool, isVoiced: bool, bot: Option<string>,
    tripped: bool, hash: nat, host: Option<string>)

  datatype Chatter = Chatter(floodStart: nat, floodLines: nat, lastHash: nat, repeats: nat, kicks: nat, warned: bool)

  const UNSEEN := Chatter(0, 0, 0, 0, 0, false)

  datatype Reason = Rule | Flooding | Repeating

  datatype Outcome = Nothing | Warning | Kick(reason: Reason, ban: bool)

  function Since(now: nat, past: nat): nat {
    if now > past then now - past else 0
  }

  function Inc16(n: nat): nat {
    if n < U16_MAX then n + 1 else U16_MAX
  }

  /** The line gets as far as the kickers. */
  predicate Judged(l: Line) {
    l.settings.Some? && Watched(l, l.settings.value) && l.bot.Some?
  }

  predicate Watched(l: Line, s: Settings) {
    && (s.anyOther || s.flood || s.repeats)
    && !(s.dontKickOps && l.isOp) && !(s.dontKickVoices && l.isVoiced)
  }

  function FloodStep(st: Chatter, now: nat, secs: nat): Chatter {
    var window := if Since(now, st.floodStart) > secs then st.(floodStart := now, floodLines := 0) else st;
    window.(floodLines := Inc16(window.floodLines))
  }

  function RepeatStep(st: Chatter, hash: nat): Chatter {
    if hash == st.lastHash then st.(repeats := Inc16(st.repeats)) else st.(repeats := 0, lastHash := hash)
  }

  /** The flood and repeat counters after a line, and the reason found, if any. */
  function Counted(st: Chatter, l: Line): (Chatter, Option<Reason>)
    requires l.settings.Some?
  {
    var s := l.settings.value;
    var afterFlood := if s.flood then FloodStep(st, l.now, FloodSecs(s)) else st;
    if s.flood && afterFlood.floodLines >= FloodLines(s) then (afterFlood, Some(Flooding))
    else if s.repeats then
      var afterRepeat := RepeatStep(afterFlood, l.hash);
      (afterRepeat, if afterRepeat.repeats >= RepeatTimes(s) then Some(Repeating) else None)
    else (afterFlood, None)
  }

  function Entry(entry: Option<Chatter>): Chatter {
    if entry.Some? then entry.value else UNSEEN
  }

  /** The counting stage: skipped when a rule has tripped already. */
  function Examined(entry: Option<Chatter>, l: Line): (Option<Chatter>, Option<Reason>)
    requires l.settings.Some?
  {
    var s := l.settings.value;
    if l.tripped then (entry, Some(Rule))
    else if s.flood || s.repeats then
      var (st, reason) := Counted(Entry(entry), l);
      (Some(st), reason)
    else (entry, None)
  }

  /** Warn once, then kick, and ban with every `ttb`-th kick. */
  function Punished(entry: Option<Chatter>, l: Line, reason: Reason): (Option<Chatter>, Outcome)
    requires l.settings.Some?
  {
    var s := l.settings.value;
    if s.warn && !Entry(entry).warned then (Some(Entry(entry).(warned := true)), Warning)
    else if s.ttb == 0 then (entry, Kick(reason, false))
    else
      var kicks := Inc16(Entry(entry).kicks);
      if kicks >= s.ttb then (Some(Entry(entry).(kicks := 0)), Kick(reason, l.host.Some?))
      else (Some(Entry(entry).(kicks := kicks)), Kick(reason, false))
  }

  /** What one line does to its author's counters in that channel, and to the author. */
  function Judge(entry: Option<Chatter>, l: Line): (Option<Chatter>, Outcome) {
    if !Judged(l) then (entry, Nothing)
    else
      var (seen, reason) := Examined(entry, l);
      if reason.None? then (seen, Nothing) else Punished(seen, l, reason.value)
  }

  // ----- Runs over every channel and user --------------------------------------------------

  /** Channel (lower case) -> uid -> counters. */
  type Table = map<string, map<string, Chatter>>

  function At(t: Table, channel: string, uid: string): Option<Chatter> {
    if Lower(channel) in t && uid in t[Lower(channel)] then Some(t[Lower(channel)][uid]) else None
  }

  datatype Event =
    | Said(uid: string, channel: string, line: Line)
    | Left(uid: string, channel: string)
    | Gone(uid: string)

  predicate Concerns(e: Event, uid: string, channel: string) {
    match e
    case Said(u, c, _) => u == uid && Lower(c) == Lower(channel)
    case Left(u, c) => u == uid && Lower(c) == Lower(channel)
    case Gone(u) => u == uid
  }

  /** What an event does to one user's counters in one channel. */
  function EntryStep(before: Option<Chatter>, e: Event, uid: string, channel: string): Option<Chatter> {
    if !Concerns(e, uid, channel) then before
    else if e.Said? then Judge(before, e.line).0
    else None
  }

  /** One user's counters in one channel, as a function of what happened. */
  function EntryAfter(run: seq<Event>, uid: string, channel: string): Option<Chatter> {
    if run == [] then None
    else EntryStep(EntryAfter(run[..|run| - 1], uid, channel), run[|run| - 1], uid, channel)
  }

  lemma EntrySnoc(front: seq<Event>, e: Event, uid: string, channel: string)
    ensures EntryAfter(front + [e], uid, channel) == EntryStep(EntryAfter(front, uid, channel), e, uid, channel)
    ensures (front + [e])[..|front|] == front
  {
  }

  /** What became of the last line of a run. */
  function LastOutcome(run: seq<Event>): Outcome
    requires run != [] && run[|run| - 1].Said?
  {
    var e := run[|run| - 1];
    Judge(EntryAfter(run[..|run| - 1], e.uid, e.channel), e.line).1
  }

  ghost predicate MonotoneClock(run: seq<Event>) {
    forall i, j :: 0 <= i < j < |run| && run[i].Said? && run[j].Said? ==> run[i].line.now <= run[j].line.now
  }

  /** Lines by that user in that channel at or after `t`. */
  function LinesSince(run: seq<Event>, uid: string, channel: string, t: nat): nat {
    if run == [] then 0
    else
      var e := run[|run| - 1];
      LinesSince(run[..|run| - 1], uid, channel, t)
      + if e.Said? && Concerns(e, uid, channel) && e.line.now >= t then 1 else 0
  }

  lemma {:induction false} LinesSinceEarlier(run: seq<Event>, uid: string, channel: string, t: nat, u: nat)
    requires u <= t
    ensures LinesSince(run, uid, channel, t) <= LinesSince(run, uid, channel, u)
  {
    if run != [] {
      LinesSinceEarlier(run[..|run| - 1], uid, channel, t, u);
    }
  }

  /** The counter never exceeds the lines spoken since its window began. */
  ghost predicate Backed(run: seq<Event>, uid: string, channel: string, st: Chatter) {
    st.floodLines <= LinesSince(run, uid, channel, st.floodStart)
  }

  lemma BackedStep(front: seq<Event>, e: Event, uid: string, channel: string, st: Chatter, secs: nat)
    requires e.Said? && Concerns(e, uid, channel) && Backed(front, uid, channel, st)
    requires st.floodStart <= e.line.now
    ensures Backed(front + [e], uid, channel, FloodStep(st, e.line.now, secs))
  {
    assert (front + [e])[..|front|] == front;
  }

  lemma BackedLonger(front: seq<Event>, e: Event, uid: string, channel: string, st: Chatter)
    requires Backed(front, uid, channel, st)
    ensures Backed(front + [e], uid, channel, st)
  {
    assert (front + [e])[..|front|] == front;
  }

  lemma CountedBacked(front: seq<Event>, e: Event, uid: string, channel: string, st: Chatter)
    requires e.Said? && Concerns(e, uid, channel) && e.line.settings.Some?
    requires Backed(front, uid, channel, st) && st.floodStart <= e.line.now
    ensures var st' := Counted(st, e.line).0; Backed(front + [e], uid, channel, st') && st'.floodStart <= e.line.now
  {
    BackedStep(front, e, uid, channel, st, FloodSecs(e.line.settings.value));
    BackedLonger(front, e, uid, channel, st);
    var s := e.line.settings.value;
    var afterFlood := if s.flood then FloodStep(st, e.line.now, FloodSecs(s)) else st;
    var st' := Counted(st, e.line).0;
    assert st'.floodLines == afterFlood.floodLines && st'.floodStart == afterFlood.floodStart;
  }

  /** Punishing touches only the warn flag and the kick count. */
  lemma PunishedKeepsCounters(entry: Option<Chatter>, l: Line, reason: Reason)
    requires l.settings.Some?
    ensures var st, st' := Entry(entry), Entry(Punished(entry, l, reason).0);
            && st'.floodStart == st.floodStart && st'.floodLines == st.floodLines
            && st'.lastHash == st.lastHash && st'.repeats == st.repeats
  {
  }

  lemma JudgeBacked(front: seq<Event>, e: Event, uid: string, channel: string, entry: Option<Chatter>)
    requires e.Said? && Concerns(e, uid, channel)
    requires Backed(front, uid, channel, Entry(entry)) && Entry(entry).floodStart <= e.line.now
    ensures var st' := Entry(Judge(entry, e.line).0); Backed(front + [e], uid, channel, st') && st'.floodStart <= e.line.now
  {
    hide Counted, Punished;
    BackedLonger(front, e, uid, channel, Entry(entry));
    if Judged(e.line) {
      CountedBacked(front, e, uid, channel, Entry(entry));
      var (seen, reason) := Examined(entry, e.line);
      if reason.Some? {
        PunishedKeepsCounters(seen, e.line, reason.value);
      }
    }
  }

  /** Latest clock reading of a run. */
  function Latest(run: seq<Event>): nat {
    if run == [] then 0
    else
      var e := run[|run| - 1];
      var before := Latest(run[..|run| - 1]);
      if e.Said? && e.line.now > before then e.line.now else before
  }

  lemma {:induction false} LatestIsPast(run: seq<Event>, t: nat)
    requires forall i :: 0 <= i < |run| && run[i].Said? ==> run[i].line.now <= t
    ensures Latest(run) <= t
  {
    if run != [] {
      LatestIsPast(run[..|run| - 1], t);
    }
  }

  /** In every run with a monotone clock the counter is backed by spoken lines. */
  lemma {:induction false} CountersAreBacked(run: seq<Event>, uid: string, channel: string)
    requires MonotoneClock(run)
    ensures var st := Entry(EntryAfter(run, uid, channel));
            Backed(run, uid, channel, st) && st.floodStart <= Latest(run)
  {
    hide Judge, Concerns;
    if run != [] {
      var front, e := run[..|run| - 1], run[|run| - 1];
      assert run == front + [e];
      CountersAreBacked(front, uid, channel);
      var entry := EntryAfter(front, uid, channel);
      BackedLonger(front, e, uid, channel, Entry(entry));
      if Concerns(e, uid, channel) && e.Said? {
        LatestIsPast(front, e.line.now);
        JudgeBacked(front, e, uid, channel, entry);
      }
    }
  }

  /** Over every run with a monotone clock: whoever is kicked for flooding has spoken at
      least `flood_lines` lines in that channel in the last `flood_secs` seconds,
      however the settings changed meanwhile. */
  lemma FloodKickMeansFlood(run: seq<Event>)
    requires run != [] && run[|run| - 1].Said? && MonotoneClock(run)
    requires LastOutcome(run).Kick? && LastOutcome(run).reason == Flooding
    ensures var e := run[|run| - 1];
            && e.line.settings.Some?
            && var s := e.line.settings.value;
               LinesSince(run, e.uid, e.channel, Since(e.line.now, FloodSecs(s))) >= FloodLines(s)
  {
    var front, e := run[..|run| - 1], run[|run| - 1];
    assert run == front + [e];
    CountersAreBacked(front, e.uid, e.channel);
    LatestIsPast(front, e.line.now);
    FloodVerdictIsBacked(front, e, EntryAfter(front, e.uid, e.channel));
  }

  lemma FloodVerdictIsBacked(front: seq<Event>, e: Event, entry: Option<Chatter>)
    requires e.Said? && Judge(entry, e.line).1.Kick? && Judge(entry, e.line).1.reason == Flooding
    requires Backed(front, e.uid, e.channel, Entry(entry)) && Entry(entry).floodStart <= e.line.now
    ensures e.line.settings.Some?
    ensures var s := e.line.settings.value;
            LinesSince(front + [e], e.uid, e.channel, Since(e.line.now, FloodSecs(s))) >= FloodLines(s)
  {
    var s := e.line.settings.value;
    var st := FloodStep(Entry(entry), e.line.now, FloodSecs(s));
    BackedStep(front, e, e.uid, e.channel, Entry(entry), FloodSecs(s));
    assert st.floodLines >= FloodLines(s);
    LinesSinceEarlier(front + [e], e.uid, e.channel, st.floodStart, Since(e.line.now, FloodSecs(s)));
  }

  // ----- The flood counter, from the lines spoken ------------------------------------------------

  function EntryThrough(entry: Option<Chatter>, lines: seq<Line>): Option<Chatter> {
    if lines == [] then entry else Judge(EntryThrough(entry, lines[..|lines| - 1]), lines[|lines| - 1]).0
  }

  /** What the user has said in the channel since last joining it. */
  function Spoken(run: seq<Event>, uid: string, channel: string): seq<Line> {
    if run == [] then []
    else
      var before, e := Spoken(run[..|run| - 1], uid, channel), run[|run| - 1];
      if !Concerns(e, uid, channel) then before else if e.Said? then before + [e.line] else []
  }

  /** A user's counters depend on nothing but what that user said there since joining. */
  lemma {:induction false} EntryIsSpoken(run: seq<Event>, uid: string, channel: string)
    ensures EntryAfter(run, uid, channel) == EntryThrough(None, Spoken(run, uid, channel))
  {
    hide Judge, Concerns;
    if run != [] {
      var before, e := Spoken(run[..|run| - 1], uid, channel), run[|run| - 1];
      EntryIsSpoken(run[..|run| - 1], uid, channel);
      if Concerns(e, uid, channel) && e.Said? {
        assert (before + [e.line])[..|before|] == before;
      }
    }
  }

  /** Kickers are on for the channel, its bot is there, and the author is not exempt. */
  predicate Heeded(l: Line) {
    && l.settings.Some? && l.bot.Some?
    && var s := l.settings.value;
       && (s.anyOther || s.flood || s.repeats)
       && (l.isOp ==> !s.dontKickOps) && (l.isVoiced ==> !s.dontKickVoices)
  }

  /** A line that is not heeded changes nothing and is not acted on. */
  lemma UnheededIsIgnored(run: seq<Event>)
    requires run != [] && run[|run| - 1].Said? && !Heeded(run[|run| - 1].line)
    ensures LastOutcome(run) == Nothing
    ensures forall uid, channel :: EntryAfter(run, uid, channel) == EntryAfter(run[..|run| - 1], uid, channel)
  {
    hide Examined, Punished, Concerns;
    assert !Judged(run[|run| - 1].line);
  }

  /** The line gets as far as the flood counter. */
  predicate Watches(l: Line) {
    Heeded(l) && !l.tripped && l.settings.value.flood
  }

  lemma HeededIsJudged(l: Line)
    ensures Heeded(l) <==> Judged(l)
  {
  }

  function CountedLines(lines: seq<Line>): seq<Line> {
    if lines == [] then []
    else CountedLines(lines[..|lines| - 1]) + if Watches(lines[|lines| - 1]) then [lines[|lines| - 1]] else []
  }

  /** The line comes more than `flood_secs` after the window's start: it begins a new one. */
  predicate Over(l: Line, start: nat) {
    l.settings.Some? && l.now > start + if l.settings.value.floodSecs == 0 then 10 else l.settings.value.floodSecs
  }

  /** When the window of the last of these lines began: with the first line that came
      after the one before was over. */
  function WindowStart(lines: seq<Line>): nat {
    if lines == [] then 0
    else
      var l, start := lines[|lines| - 1], WindowStart(lines[..|lines| - 1]);
      if Over(l, start) then l.now else start
  }

  /** How many of these lines came before that window. */
  function BeforeWindow(lines: seq<Line>): (n: nat)
    ensures n <= |lines|
  {
    if lines == [] then 0
    else
      var front := lines[..|lines| - 1];
      if Over(lines[|lines| - 1], WindowStart(front)) then |front| else BeforeWindow(front)
  }

  /** The window is what it says: its first line (unless it is the window of time zero)
      gave it its start and came after the one before was over, and no line in it did. */
  lemma {:induction false} WindowHolds(lines: seq<Line>)
    ensures var b := BeforeWindow(lines);
            && (b == |lines| ==> lines == [])
            && (b > 0 ==> Over(lines[b], WindowStart(lines[..b])) && WindowStart(lines) == lines[b].now)
            && (forall i :: b <= i < |lines| ==> !Over(lines[i], WindowStart(lines)))
  {
    if lines != [] {
      var front, l := lines[..|lines| - 1], lines[|lines| - 1];
      WindowHolds(front);
      var b := BeforeWindow(lines);
      if b < |front| {
        assert front[..b] == lines[..b] && front[b] == lines[b];
      } else {
        assert lines[..b] == front;
      }
      forall i | b <= i < |lines| ensures !Over(lines[i], WindowStart(lines)) {
        if i < |front| {
          assert lines[i] == front[i];
        }
      }
    }
  }

  /** Lines of the current window. */
  function InWindow(lines: seq<Line>): nat {
    |lines| - BeforeWindow(lines)
  }

  function Capped16(n: nat): nat {
    if n < 65535 then n else 65535
  }

  lemma JudgeCounts(entry: Option<Chatter>, l: Line)
    requires Watches(l)
    ensures var st, st' := FloodStep(Entry(entry), l.now, FloodSecs(l.settings.value)), Entry(Judge(entry, l).0);
            && st'.floodStart == st.floodStart && st'.floodLines == st.floodLines
            && (Counted(Entry(entry), l).1 == Some(Flooding) <==> st.floodLines >= FloodLines(l.settings.value))
  {
    hide Punished;
    var (seen, reason) := Examined(entry, l);
    if reason.Some? {
      PunishedKeepsCounters(seen, l, reason.value);
    }
  }

  lemma JudgeSkips(entry: Option<Chatter>, l: Line)
    requires !Watches(l)
    ensures var st, st' := Entry(entry), Entry(Judge(entry, l).0);
            st'.floodStart == st.floodStart && st'.floodLines == st.floodLines
  {
    hide Punished;
    if Judged(l) {
      var (seen, reason) := Examined(entry, l);
      if reason.Some? {
        PunishedKeepsCounters(seen, l, reason.value);
      }
    }
  }

  lemma WindowSnoc(lines: seq<Line>, l: Line)
    ensures WindowStart(lines + [l]) == if Over(l, WindowStart(lines)) then l.now else WindowStart(lines)
    ensures InWindow(lines + [l]) == if Over(l, WindowStart(lines)) then 1 else InWindow(lines) + 1
  {
    assert (lines + [l])[..|lines|] == lines;
  }

  /** The stored counter is, exactly and whatever the settings did, the number of lines
      of the current window, as far as 16 bits can tell. */
  lemma {:induction false} CounterIsExact(lines: seq<Line>)
    ensures var st, counted := Entry(EntryThrough(None, lines)), CountedLines(lines);
            st.floodStart == WindowStart(counted) && st.floodLines == Capped16(InWindow(counted))
  {
    hide Judge, Judged, Watches, Over, WindowStart, BeforeWindow;
    if lines == [] {
      NoWindow();
    } else {
      var front, l := lines[..|lines| - 1], lines[|lines| - 1];
      CounterIsExact(front);
      if Watches(l) {
        JudgeCounts(EntryThrough(None, front), l);
        StepCounts(Entry(EntryThrough(None, front)), CountedLines(front), l);
      } else {
        JudgeSkips(EntryThrough(None, front), l);
        assert CountedLines(lines) == CountedLines(front);
      }
    }
  }

  lemma NoWindow()
    ensures WindowStart([]) == 0 && InWindow([]) == 0
  {
  }

  lemma StepCounts(st: Chatter, lines: seq<Line>, l: Line)
    requires Watches(l) && st.floodStart == WindowStart(lines) && st.floodLines == Capped16(InWindow(lines))
    ensures var st' := FloodStep(st, l.now, FloodSecs(l.settings.value));
            st'.floodStart == WindowStart(lines + [l]) && st'.floodLines == Capped16(InWindow(lines + [l]))
  {
    hide WindowStart, BeforeWindow, InWindow;
    WindowSnoc(lines, l);
  }

  /** What was found against the line just spoken. */
  function Found(run: seq<Event>): Option<Reason> {
    if run == [] || !run[|run| - 1].Said? || !Heeded(run[|run| - 1].line) then None
    else var e := run[|run| - 1]; Examined(EntryAfter(run[..|run| - 1], e.uid, e.channel), e.line).1
  }

  /** The line just spoken was found to be flooding. */
  predicate FoundFlooding(run: seq<Event>) {
    Found(run) == Some(Flooding)
  }

  /** A line that breaks a rule without memory is found to, whatever was said before. */
  lemma TrippedIsFound(run: seq<Event>)
    requires run != [] && run[|run| - 1].Said? && Heeded(run[|run| - 1].line)
    ensures Found(run) == Some(Rule) <==> run[|run| - 1].line.tripped
  {
    hide Counted;
    var e := run[|run| - 1];
    CountedReasons(Entry(EntryAfter(run[..|run| - 1], e.uid, e.channel)), e.line);
  }

  lemma CountedReasons(st: Chatter, l: Line)
    requires l.settings.Some?
    ensures Counted(st, l).1 != Some(Rule)
  {
  }

  /** In every run a line is found to be flooding if and only if, with it, the current
      window holds at least `flood_lines` of its author's lines. */
  lemma FloodIff(run: seq<Event>)
    requires run != [] && run[|run| - 1].Said? && Watches(run[|run| - 1].line)
    requires InRange(run[|run| - 1].line.settings.value)
    ensures var e := run[|run| - 1];
            var limit := e.line.settings.value.floodLines;
            FoundFlooding(run) <==>
            InWindow(CountedLines(Spoken(run, e.uid, e.channel))) >= if limit < 2 then 6 else limit
  {
    hide InWindow, Judge, Judged, Counted;
    var front, e := run[..|run| - 1], run[|run| - 1];
    var before := Spoken(front, e.uid, e.channel);
    EntryIsSpoken(front, e.uid, e.channel);
    CounterIsExact(before);
    JudgeCounts(EntryAfter(front, e.uid, e.channel), e.line);
    StepCounts(Entry(EntryAfter(front, e.uid, e.channel)), CountedLines(before), e.line);
    assert Spoken(run, e.uid, e.channel) == before + [e.line];
    assert (before + [e.line])[..|before|] == before;
  }

  /** With something found the author is warned the first time if warnings are on, else
      kicked for it; with nothing found nothing happens. */
  lemma FoundIsPunished(run: seq<Event>)
    requires run != [] && run[|run| - 1].Said?
    ensures var front, e := run[..|run| - 1], run[|run| - 1];
            match Found(run)
            case None => LastOutcome(run) == Nothing
            case Some(reason) =>
              if e.line.settings.value.warn && !Warned(front, e.uid, e.channel) then LastOutcome(run) == Warning
              else LastOutcome(run).Kick? && LastOutcome(run).reason == reason
  {
    hide Examined;
    var front, e := run[..|run| - 1], run[|run| - 1];
    WarnedIsRemembered(front, e.uid, e.channel);
    if Heeded(e.line) {
      ExaminingKeepsWarned(EntryAfter(front, e.uid, e.channel), e.line);
    }
  }

  lemma ExaminingKeepsWarned(entry: Option<Chatter>, l: Line)
    requires Judged(l)
    ensures Entry(Examined(entry, l).0).warned == Entry(entry).warned
  {
  }

  // ----- Which floods are caught -------------------------------------------------------------------

  /** Lines that reach the flood counter under the same settings, within `flood_secs`. */
  ghost predicate Burst(lines: seq<Line>, s: Settings) {
    && s.flood && InRange(s)
    && (forall i :: 0 <= i < |lines| ==> Judged(lines[i]) && !lines[i].tripped && lines[i].settings == Some(s))
    && (forall i, j :: 0 <= i < j < |lines| ==> lines[i].now <= lines[j].now <= lines[i].now + FloodSecs(s))
  }

  /** How the window stands after `m` lines of a burst: all of them in the one the burst
      found, or in one that line `r` of the burst began. */
  ghost predicate Straddles(past: seq<Line>, burst: seq<Line>, m: nat)
    requires m <= |burst|
  {
    || (InWindow(past + burst[..m]) == InWindow(past) + m && WindowStart(past + burst[..m]) == WindowStart(past))
    || exists r :: Restarts(past, burst, m, r)
  }

  /** Line `r` began the present window; the ones before it joined the one before. */
  ghost predicate Restarts(past: seq<Line>, burst: seq<Line>, m: nat, r: nat)
    requires m <= |burst|
  {
    && r < m && InWindow(past + burst[..m]) == m - r && WindowStart(past + burst[..m]) == burst[r].now
    && InWindow(past + burst[..r]) == InWindow(past) + r
    && (r > 0 ==> !Over(burst[0], WindowStart(past)))
  }

  lemma StraddleStep(past: seq<Line>, burst: seq<Line>, s: Settings, m: nat)
    requires Burst(burst, s) && m < |burst| && Straddles(past, burst, m)
    requires m > 0 && Over(burst[0], WindowStart(past)) ==> Restarts(past, burst, m, 0)
    ensures Straddles(past, burst, m + 1)
    ensures Over(burst[0], WindowStart(past)) ==> Restarts(past, burst, m + 1, 0)
  {
    hide WindowStart, InWindow, BeforeWindow, Judged;
    var lines := past + burst[..m];
    assert past + burst[..m + 1] == lines + [burst[m]];
    assert past + burst[..0] == past;
    WindowSnoc(lines, burst[m]);
    if r: nat :| Restarts(past, burst, m, r) {
      NotOver(burst, s, r, m);
      assert Restarts(past, burst, m + 1, r);
      if Over(burst[0], WindowStart(past)) {
        assert r == 0;
      }
    } else if Over(burst[m], WindowStart(past)) {
      assert Restarts(past, burst, m + 1, m);
    }
  }

  lemma NotOver(burst: seq<Line>, s: Settings, r: nat, m: nat)
    requires Burst(burst, s) && r < m < |burst|
    ensures !Over(burst[m], burst[r].now)
  {
  }

  lemma {:induction false} BurstStraddles(past: seq<Line>, burst: seq<Line>, s: Settings, m: nat)
    requires Burst(burst, s) && m <= |burst|
    ensures Straddles(past, burst, m)
    ensures m > 0 && Over(burst[0], WindowStart(past)) ==> Restarts(past, burst, m, 0)
  {
    hide WindowStart, InWindow, BeforeWindow, Burst, Over, Restarts;
    if m == 0 {
      assert past + burst[..0] == past;
    } else {
      BurstStraddles(past, burst, s, m - 1);
      StraddleStep(past, burst, s, m - 1);
    }
  }

  /** Some line of the burst filled its window up to the limit. */
  lemma BurstFills(past: seq<Line>, burst: seq<Line>, s: Settings) returns (m: nat)
    requires Burst(burst, s) && |burst| >= 2 * FloodLines(s) - 2
    requires past != [] || burst[0].now > FloodSecs(s) || |burst| >= 2 * FloodLines(s) - 1
    ensures m < |burst| && InWindow(past + burst[..m + 1]) >= FloodLines(s)
  {
    hide WindowStart, InWindow, BeforeWindow, Judged;
    var n := |burst|;
    BurstStraddles(past, burst, s, n);
    m := n - 1;
    if InWindow(past + burst[..n]) < FloodLines(s) {
      var r: nat :| Restarts(past, burst, n, r);
      FoundWindow(past);
      assert r > 0;
      m := r - 1;
    }
  }

  lemma FoundWindow(past: seq<Line>)
    ensures past == [] ==> WindowStart(past) == 0
    ensures past != [] ==> InWindow(past) >= 1
  {
    WindowHolds(past);
  }

  lemma {:induction false} SpokenRespelled(run: seq<Event>, uid: string, channel: string, other: string)
    requires Lower(channel) == Lower(other)
    ensures Spoken(run, uid, channel) == Spoken(run, uid, other)
  {
    hide Lower;
    if run != [] {
      SpokenRespelled(run[..|run| - 1], uid, channel, other);
    }
  }

  /** Counted line `m` is the last line of the first `j` events. */
  ghost predicate EndsAt(run: seq<Event>, uid: string, channel: string, m: nat, j: nat) {
    var counted := CountedLines(Spoken(run, uid, channel));
    && m < |counted| && 0 < j <= |run| && run[j - 1].Said? && Concerns(run[j - 1], uid, channel) && Watches(run[j - 1].line)
    && run[j - 1].line == counted[m]
    && CountedLines(Spoken(run[..j], uid, channel)) == counted[..m + 1]
  }

  lemma EndsAtLonger(front: seq<Event>, e: Event, uid: string, channel: string, m: nat, j: nat)
    requires EndsAt(front, uid, channel, m, j)
    requires m < |CountedLines(Spoken(front + [e], uid, channel))|
    ensures EndsAt(front + [e], uid, channel, m, j)
  {
    hide Watches, Concerns, Spoken, CountedLines;
    CountedSnoc(front, e, uid, channel);
    var before, after := CountedLines(Spoken(front, uid, channel)), CountedLines(Spoken(front + [e], uid, channel));
    assert (front + [e])[..j] == front[..j];
    assert before[..m + 1] == after[..m + 1];
  }

  lemma EndsNow(front: seq<Event>, e: Event, uid: string, channel: string)
    requires e.Said? && Concerns(e, uid, channel) && Watches(e.line)
    requires CountedLines(Spoken(front + [e], uid, channel)) == CountedLines(Spoken(front, uid, channel)) + [e.line]
    ensures EndsAt(front + [e], uid, channel, |CountedLines(Spoken(front, uid, channel))|, |front| + 1)
  {
    hide Watches, Concerns, Spoken, CountedLines;
    var run := front + [e];
    assert run[..|run|] == run;
    var all := CountedLines(Spoken(run, uid, channel));
    assert all[..|all|] == all;
  }

  /** Each counted line was the last of some earlier run. */
  lemma {:induction false} Position(run: seq<Event>, uid: string, channel: string, m: nat) returns (j: nat)
    requires m < |CountedLines(Spoken(run, uid, channel))|
    ensures EndsAt(run, uid, channel, m, j)
  {
    hide Watches, Concerns, EndsAt;
    var front, e := run[..|run| - 1], run[|run| - 1];
    hide Spoken, CountedLines;
    CountedSnoc(front, e, uid, channel);
    assert run == front + [e];
    if m == |CountedLines(Spoken(front, uid, channel))| {
      j := |run|;
      EndsNow(front, e, uid, channel);
    } else {
      j := Position(front, uid, channel, m);
      EndsAtLonger(front, e, uid, channel, m, j);
    }
  }

  lemma CountedSnoc(front: seq<Event>, e: Event, uid: string, channel: string)
    ensures var before, after := CountedLines(Spoken(front, uid, channel)), CountedLines(Spoken(front + [e], uid, channel));
            || after == before || after == []
            || (e.Said? && Concerns(e, uid, channel) && Watches(e.line) && after == before + [e.line])
  {
    hide Watches, Concerns;
    assert (front + [e])[..|front|] == front;
    var before := Spoken(front, uid, channel);
    if e.Said? {
      assert (before + [e.line])[..|before|] == before;
    }
  }

  /** The last `n` of the lines are a burst long enough to be caught: `2 * flood_lines - 2`,
      or one more for a new user at a clock reading of at most `flood_secs`. */
  ghost predicate EndsInBurst(counted: seq<Line>, s: Settings, n: nat) {
    && 0 < n <= |counted| && n >= 2 * FloodLines(s) - 2 && Burst(counted[|counted| - n..], s)
    && (n < |counted| || counted[0].now > FloodSecs(s) || n >= 2 * FloodLines(s) - 1)
  }

  /** Over every run: among any `2 * flood_lines - 2` counted lines of a user within
      `flood_secs` seconds one is found to be flooding, however the window falls; with
      one line more, even if the user is new and the clock reads at most `flood_secs`. */
  lemma FloodIsCaught(run: seq<Event>, uid: string, channel: string, s: Settings, n: nat) returns (j: nat)
    requires EndsInBurst(CountedLines(Spoken(run, uid, channel)), s, n)
    ensures 0 < j <= |run| && Concerns(run[j - 1], uid, channel) && FoundFlooding(run[..j])
  {
    hide Judge, Judged, Counted, Burst, Spoken, CountedLines, InWindow, FoundFlooding;
    var counted := CountedLines(Spoken(run, uid, channel));
    var past, burst := counted[..|counted| - n], counted[|counted| - n..];
    var m := BurstFills(past, burst, s);
    assert past + burst[..m + 1] == counted[..|past| + m + 1];
    BurstSettings(burst, s, m);
    j := Position(run, uid, channel, |past| + m);
    var e := run[j - 1];
    assert run[..j][|run[..j]| - 1] == e;
    SpokenRespelled(run[..j], uid, channel, e.channel);
    FloodIff(run[..j]);
  }

  lemma BurstSettings(burst: seq<Line>, s: Settings, m: nat)
    requires Burst(burst, s) && m < |burst|
    ensures burst[m].settings == Some(s) && InRange(s)
  {
  }

  function Copies(e: Event, k: nat): seq<Event> {
    if k == 0 then [] else Copies(e, k - 1) + [e]
  }

  function SaidAt(l: Line, uid: string, channel: string, t: nat): Event {
    Said(uid, channel, l.(now := t))
  }

  /** Nothing came of any line of the run. */
  ghost predicate Quiet(run: seq<Event>) {
    forall i :: 0 < i <= |run| ==> QuietAt(run, i)
  }

  predicate QuietAt(run: seq<Event>, i: nat)
    requires 0 < i <= |run|
  {
    run[i - 1].Said? && LastOutcome(run[..i]) == Nothing
  }

  lemma QuietLine(front: seq<Event>, e: Event, uid: string, channel: string, start: nat, lines: nat)
    requires Quiet(front) && e.Said? && e.uid == uid && e.channel == channel
    requires Judged(e.line) && !e.line.tripped && e.line.settings.value.flood && !e.line.settings.value.repeats
    requires var st := FloodStep(Entry(EntryAfter(front, uid, channel)), e.line.now, FloodSecs(e.line.settings.value));
             st.floodStart == start && st.floodLines == lines < FloodLines(e.line.settings.value)
    ensures Quiet(front + [e])
    ensures var st := Entry(EntryAfter(front + [e], uid, channel)); st.floodStart == start && st.floodLines == lines
  {
    EntrySnoc(front, e, uid, channel);
    var run := front + [e];
    forall i | 0 < i <= |run| ensures QuietAt(run, i) {
      if i <= |front| {
        assert QuietAt(front, i);
        assert run[..i] == front[..i] && run[i - 1] == front[i - 1];
      } else {
        assert run[..i] == run;
      }
    }
  }

  lemma {:induction false} QuietCopies(front: seq<Event>, e: Event, uid: string, channel: string,
      start: nat, lines: nat, k: nat)
    requires Quiet(front) && e.Said? && e.uid == uid && e.channel == channel
    requires Judged(e.line) && !e.line.tripped && e.line.settings.value.flood && !e.line.settings.value.repeats
    requires var st := Entry(EntryAfter(front, uid, channel)); st.floodStart == start && st.floodLines == lines
    requires Since(e.line.now, start) <= FloodSecs(e.line.settings.value)
    requires lines + k < FloodLines(e.line.settings.value) <= U16_MAX
    ensures Quiet(front + Copies(e, k))
    ensures var st := Entry(EntryAfter(front + Copies(e, k), uid, channel));
            st.floodStart == start && st.floodLines == lines + k
  {
    hide Quiet, EntryAfter, Judged;
    if k == 0 {
      assert front + Copies(e, 0) == front;
    } else {
      QuietCopies(front, e, uid, channel, start, lines, k - 1);
      QuietLine(front + Copies(e, k - 1), e, uid, channel, start, lines + k);
      assert front + Copies(e, k) == front + Copies(e, k - 1) + [e];
    }
  }

  lemma {:induction false} CopiesAre(e: Event, k: nat)
    ensures |Copies(e, k)| == k && forall i :: 0 <= i < k ==> Copies(e, k)[i] == e
  {
    if k > 0 {
      CopiesAre(e, k - 1);
    }
  }

  /** That bound is exact: under any limit, `2 * flood_lines - 3` lines within a second can
      go by without consequences, when the window of an earlier line ends between them. */
  lemma FloodCanHide(s: Settings, l: Line, uid: string, channel: string) returns (run: seq<Event>)
    requires s.flood && InRange(s) && !s.repeats && Judged(l) && l.settings == Some(s) && !l.tripped
    ensures |run| == 1 + (2 * FloodLines(s) - 3) && Quiet(run)
    ensures forall i :: 0 <= i < |run| ==>
              run[i].Said? && run[i].uid == uid && run[i].channel == channel && run[i].line == l.(now := run[i].line.now)
    ensures forall i, j :: 0 < i <= j < |run| ==> run[i].line.now <= run[j].line.now <= run[i].line.now + 1
  {
    hide Quiet, EntryAfter, Judge, Judged;
    var n, secs := FloodLines(s), FloodSecs(s);
    var a, b := SaidAt(l, uid, channel, secs + 1), SaidAt(l, uid, channel, 2 * secs + 1);
    var c := SaidAt(l, uid, channel, 2 * secs + 2);
    CopiesAre(b, n - 2);
    CopiesAre(c, n - 2);
    StillJudged(l, secs + 1);
    StillJudged(l, 2 * secs + 1);
    StillJudged(l, 2 * secs + 2);
    NothingYet(uid, channel);
    QuietLine([], a, uid, channel, secs + 1, 1);
    assert [] + [a] == [a];
    QuietCopies([a], b, uid, channel, secs + 1, 1, n - 2);
    var half := [a] + Copies(b, n - 2);
    QuietLine(half, c, uid, channel, 2 * secs + 2, 1);
    QuietCopies(half + [c], c, uid, channel, 2 * secs + 2, 1, n - 2);
    run := half + [c] + Copies(c, n - 2);
  }

  lemma StillJudged(l: Line, t: nat)
    requires Judged(l)
    ensures Judged(l.(now := t))
  {
  }

  lemma NothingYet(uid: string, channel: string)
    ensures Quiet([]) && Entry(EntryAfter([], uid, channel)) == UNSEEN
  {
  }

  // ----- Repeats -------------------------------------------------------------------------

  /** The line gets as far as the repeat counter. */
  predicate Compared(entry: Option<Chatter>, l: Line) {
    && Heeded(l) && !l.tripped && l.settings.value.repeats
    && Counted(Entry(entry), l).1 != Some(Flooding)
  }

  /** Hashes of the lines compared since the user's counters were created. */
  function Heard(run: seq<Event>, uid: string, channel: string): seq<nat> {
    if run == [] then []
    else
      var front, e := run[..|run| - 1], run[|run| - 1];
      if !Concerns(e, uid, channel) then Heard(front, uid, channel)
      else if !e.Said? then []
      else Heard(front, uid, channel) + if Compared(EntryAfter(front, uid, channel), e.line) then [e.line.hash] else []
  }

  ghost predicate EndsWith(hs: seq<nat>, n: nat, hash: nat) {
    n <= |hs| && forall i :: |hs| - n <= i < |hs| ==> hs[i] == hash
  }

  /** How many equal hashes `hs` ends with. */
  function Trail(hs: seq<nat>): (n: nat)
    ensures hs != [] ==> 1 <= n <= |hs|
  {
    if |hs| <= 1 then |hs|
    else if hs[|hs| - 1] == hs[|hs| - 2] then Trail(hs[..|hs| - 1]) + 1
    else 1
  }

  lemma {:induction false} TrailIff(hs: seq<nat>, n: nat)
    requires hs != []
    ensures Trail(hs) >= n <==> EndsWith(hs, n, hs[|hs| - 1])
  {
    var front := hs[..|hs| - 1];
    if |hs| > 1 && hs[|hs| - 1] == hs[|hs| - 2] && n > 0 {
      TrailIff(front, n - 1);
      if EndsWith(hs, n, hs[|hs| - 1]) {
        forall i | |front| - (n - 1) <= i < |front| ensures front[i] == hs[|hs| - 1] {
          assert hs[i] == hs[|hs| - 1];
        }
      }
    }
  }

  /** The counter is, as far as 16 bits can tell, the repetitions at the end of what was
      heard; the hash zero stands for the line before the first. */
  ghost predicate Repeated(st: Chatter, hs: seq<nat>) {
    st.lastHash == ([0] + hs)[|hs|] && st.repeats == Capped16(Trail([0] + hs) - 1)
  }

  lemma TrailSnoc(hs: seq<nat>, hash: nat)
    requires hs != []
    ensures Trail(hs + [hash]) == if hash == hs[|hs| - 1] then Trail(hs) + 1 else 1
  {
    assert (hs + [hash])[..|hs|] == hs;
  }

  lemma JudgeRepeats(entry: Option<Chatter>, l: Line, hs: seq<nat>)
    requires Repeated(Entry(entry), hs)
    ensures Repeated(Entry(Judge(entry, l).0), hs + if Compared(entry, l) then [l.hash] else [])
  {
    hide Repeated, Punished, Compared;
    if Judged(l) {
      var (seen, reason) := Examined(entry, l);
      if reason.Some? {
        PunishedKeepsCounters(seen, l, reason.value);
      }
      ExaminedRepeats(entry, l, hs);
      SameRepeats(Entry(seen), Entry(Judge(entry, l).0), hs + if Compared(entry, l) then [l.hash] else []);
    } else {
      NotCompared(entry, l);
      assert hs + [] == hs;
    }
  }

  lemma NotCompared(entry: Option<Chatter>, l: Line)
    requires !Judged(l)
    ensures !Compared(entry, l)
  {
  }

  lemma SameRepeats(st: Chatter, st': Chatter, hs: seq<nat>)
    requires st.lastHash == st'.lastHash && st.repeats == st'.repeats && Repeated(st, hs)
    ensures Repeated(st', hs)
  {
  }

  lemma ExaminedRepeats(entry: Option<Chatter>, l: Line, hs: seq<nat>)
    requires Judged(l) && Repeated(Entry(entry), hs)
    ensures Repeated(Entry(Examined(entry, l).0), hs + if Compared(entry, l) then [l.hash] else [])
  {
    hide Trail;
    var s, st := l.settings.value, Entry(entry);
    if Compared(entry, l) {
      var st' := Entry(Examined(entry, l).0);
      assert st'.lastHash == l.hash;
      assert st'.repeats == if l.hash == st.lastHash then Inc16(st.repeats) else 0;
      TrailSnoc([0] + hs, l.hash);
      assert ([0] + hs) + [l.hash] == [0] + (hs + [l.hash]);
    } else {
      assert hs + [] == hs;
    }
  }

  lemma {:induction false} RepeatsAreHeard(run: seq<Event>, uid: string, channel: string)
    ensures Repeated(Entry(EntryAfter(run, uid, channel)), Heard(run, uid, channel))
  {
    hide Judge, Repeated, Compared, Concerns;
    if run == [] {
      NothingRepeated();
    } else {
      var front, e := run[..|run| - 1], run[|run| - 1];
      RepeatsAreHeard(front, uid, channel);
      if Concerns(e, uid, channel) {
        if e.Said? {
          JudgeRepeats(EntryAfter(front, uid, channel), e.line, Heard(front, uid, channel));
        } else {
          NothingRepeated();
        }
      }
    }
  }

  lemma NothingRepeated()
    ensures Repeated(UNSEEN, [])
  {
    var nothing: seq<nat> := [];
    assert |[0] + nothing| == 1 && ([0] + nothing)[0] == 0;
  }

  /** The line has been sent `repeat_times` times beyond the first. */
  ghost predicate Repeats(heard: seq<nat>, l: Line) {
    l.settings.Some? &&
    var times := l.settings.value.repeatTimes;
    EndsWith([0] + heard, 1 + if times == 0 then 3 else times, l.hash)
  }

  /** A compared line is found to be a repetition if and only if with it the user has sent
      the same line (up to its hash) `repeat_times` times beyond the first, uninterrupted,
      since joining; a line of hash zero also repeats the silence before the first. */
  lemma RepeatIff(run: seq<Event>)
    requires run != [] && run[|run| - 1].Said?
    requires var e := run[|run| - 1]; Compared(EntryAfter(run[..|run| - 1], e.uid, e.channel), e.line)
    ensures var e := run[|run| - 1];
            var heard := Heard(run, e.uid, e.channel);
            && (Found(run) == Some(Repeating) ==> Repeats(heard, e.line))
            && (InRange(e.line.settings.value) && Repeats(heard, e.line) ==> Found(run) == Some(Repeating))
  {
    hide Judge, Repeats, Repeated, Compared, Examined;
    var front, e := run[..|run| - 1], run[|run| - 1];
    var hs := Heard(front, e.uid, e.channel);
    RepeatsAreHeard(front, e.uid, e.channel);
    assert run == front + [e];
    HeardAtLast(front, e);
    hide Heard, EntryAfter, InRange;
    assert Heard(run, e.uid, e.channel) == hs + [e.line.hash];
    FoundAmongHeard(EntryAfter(front, e.uid, e.channel), e.line, hs);
  }

  lemma FoundAmongHeard(entry: Option<Chatter>, l: Line, hs: seq<nat>)
    requires Compared(entry, l) && Repeated(Entry(entry), hs)
    ensures Heeded(l)
    ensures Examined(entry, l).1 == Some(Repeating) ==> Repeats(hs + [l.hash], l)
    ensures InRange(l.settings.value) && Repeats(hs + [l.hash], l) ==> Examined(entry, l).1 == Some(Repeating)
  {
    hide EndsWith, Repeated, Examined;
    ExaminedRepeats(entry, l, hs);
    RepeatsMean(Entry(Examined(entry, l).0), hs + [l.hash], RepeatTimes(l.settings.value));
    ComparedVerdict(entry, l);
  }

  lemma HeardAtLast(front: seq<Event>, e: Event)
    requires e.Said?
    ensures Heard(front + [e], e.uid, e.channel) ==
            Heard(front, e.uid, e.channel) + if Compared(EntryAfter(front, e.uid, e.channel), e.line) then [e.line.hash] else []
  {
    hide Compared;
    assert (front + [e])[..|front|] == front;
  }

  lemma RepeatsMean(st: Chatter, hs: seq<nat>, times: nat)
    requires Repeated(st, hs)
    ensures st.repeats >= times ==> EndsWith([0] + hs, times + 1, st.lastHash)
    ensures EndsWith([0] + hs, times + 1, st.lastHash) && times <= 65535 ==> st.repeats >= times
  {
    TrailIff([0] + hs, times + 1);
  }

  lemma ComparedVerdict(entry: Option<Chatter>, l: Line)
    requires Compared(entry, l)
    ensures var st := Entry(Examined(entry, l).0);
            st.lastHash == l.hash && (Examined(entry, l).1 == Some(Repeating) <==> st.repeats >= RepeatTimes(l.settings.value))
  {
  }

  /** In particular whoever is kicked for repeating has sent that many equal lines. */
  lemma RepeatKickMeansRepeats(run: seq<Event>)
    requires run != [] && run[|run| - 1].Said? && LastOutcome(run).Kick? && LastOutcome(run).reason == Repeating
    ensures run[|run| - 1].line.settings.Some?
    ensures var e := run[|run| - 1];
            var times := if e.line.settings.value.repeatTimes == 0 then 3 else e.line.settings.value.repeatTimes;
            EndsWith(Heard(run, e.uid, e.channel), if e.line.hash == 0 then times else times + 1, e.line.hash)
  {
    hide Examined, Judge, Heard, EndsWith;
    var e := run[|run| - 1];
    FoundIsPunished(run);
    RepeatingIsCompared(EntryAfter(run[..|run| - 1], e.uid, e.channel), e.line);
    RepeatIff(run);
    var times := if e.line.settings.value.repeatTimes == 0 then 3 else e.line.settings.value.repeatTimes;
    WithoutSilence(Heard(run, e.uid, e.channel), times, e.line.hash);
  }

  lemma WithoutSilence(heard: seq<nat>, times: nat, hash: nat)
    requires EndsWith([0] + heard, times + 1, hash)
    ensures EndsWith(heard, if hash == 0 then times else times + 1, hash)
  {
    var hs := [0] + heard;
    assert hs[0] == 0 && forall i :: 0 <= i < |heard| ==> heard[i] == hs[i + 1];
    assert times == |heard| ==> hs[|hs| - (times + 1)] == hash;
  }

  lemma RepeatingIsCompared(entry: Option<Chatter>, l: Line)
    requires Heeded(l) && Examined(entry, l).1 == Some(Repeating)
    ensures Compared(entry, l)
  {
    assert !l.tripped && Examined(entry, l).1 == Counted(Entry(entry), l).1;
  }

  // ----- Warn once, ban every so often ---------------------------------------------------------

  /** The user was warned in this channel since joining it. */
  predicate Warned(run: seq<Event>, uid: string, channel: string) {
    run != [] &&
    var front, e := run[..|run| - 1], run[|run| - 1];
    if !Concerns(e, uid, channel) then Warned(front, uid, channel)
    else e.Said? && (Warned(front, uid, channel) || Judge(EntryAfter(front, uid, channel), e.line).1 == Warning)
  }

  lemma JudgeWarns(entry: Option<Chatter>, l: Line)
    ensures Entry(Judge(entry, l).0).warned <==> Entry(entry).warned || Judge(entry, l).1 == Warning
    ensures Judge(entry, l).1 == Warning ==> !Entry(entry).warned
    ensures Judge(entry, l).1.Kick? && l.settings.value.warn ==> Entry(entry).warned
  {
  }

  lemma {:induction false} WarnedIsRemembered(run: seq<Event>, uid: string, channel: string)
    ensures Entry(EntryAfter(run, uid, channel)).warned <==> Warned(run, uid, channel)
  {
    hide Judge, Concerns;
    if run != [] {
      var front, e := run[..|run| - 1], run[|run| - 1];
      WarnedIsRemembered(front, uid, channel);
      if e.Said? {
        JudgeWarns(EntryAfter(front, uid, channel), e.line);
      }
    }
  }

  /** A user is warned at most once between joining and leaving, and with the warning on
      nobody is kicked without it. */
  lemma WarnedOnceThenKicked(run: seq<Event>)
    requires run != [] && run[|run| - 1].Said?
    ensures var front, e := run[..|run| - 1], run[|run| - 1];
            && (LastOutcome(run) == Warning ==> !Warned(front, e.uid, e.channel))
            && (LastOutcome(run).Kick? && e.line.settings.Some? && e.line.settings.value.warn ==>
                Warned(front, e.uid, e.channel))
  {
    var front, e := run[..|run| - 1], run[|run| - 1];
    WarnedIsRemembered(front, e.uid, e.channel);
    JudgeWarns(EntryAfter(front, e.uid, e.channel), e.line);
  }

  /** How often a sequence of lines got its author kicked, and banned with it. */
  function Kicks(entry: Option<Chatter>, lines: seq<Line>): nat {
    if lines == [] then 0
    else
      var front := lines[..|lines| - 1];
      Kicks(entry, front) + if Judge(EntryThrough(entry, front), lines[|lines| - 1]).1.Kick? then 1 else 0
  }

  function Bans(entry: Option<Chatter>, lines: seq<Line>): nat {
    if lines == [] then 0
    else
      var front := lines[..|lines| - 1];
      var outcome := Judge(EntryThrough(entry, front), lines[|lines| - 1]).1;
      Bans(entry, front) + if outcome.Kick? && outcome.ban then 1 else 0
  }

  ghost predicate SameLimit(lines: seq<Line>, ttb: nat) {
    forall i :: 0 <= i < |lines| ==> lines[i].host.Some? && lines[i].settings.Some? && lines[i].settings.value.ttb == ttb
  }

  lemma JudgeBans(entry: Option<Chatter>, l: Line, ttb: nat)
    requires l.settings.Some? && l.settings.value.ttb == ttb && 0 < ttb <= 65535 && l.host.Some?
    requires Entry(entry).kicks < ttb
    ensures var (e', o) := Judge(entry, l);
            Entry(e').kicks ==
            Entry(entry).kicks + (if o.Kick? then 1 else 0) - (if o.Kick? && o.ban then ttb else 0)
            && Entry(e').kicks < ttb
  {
    if Judged(l) {
      var (seen, reason) := Examined(entry, l);
      assert Entry(seen).kicks == Entry(entry).kicks;
    }
  }

  /** Exactly every `ttb`-th kick comes with a ban. */
  lemma {:induction false} EveryNthKickBans(lines: seq<Line>, ttb: nat)
    requires 0 < ttb <= 65535 && SameLimit(lines, ttb)
    ensures Bans(None, lines) == Kicks(None, lines) / ttb
    ensures Entry(EntryThrough(None, lines)).kicks == Kicks(None, lines) % ttb
  {
    hide Judge;
    if lines != [] {
      var front, l := lines[..|lines| - 1], lines[|lines| - 1];
      EveryNthKickBans(front, ttb);
      JudgeBans(EntryThrough(None, front), l, ttb);
      var o := Judge(EntryThrough(None, front), l).1;
      CountUp(Kicks(None, front), ttb, if o.Kick? then 1 else 0, if o.Kick? && o.ban then 1 else 0);
    }
  }

  lemma CountUp(n: nat, d: nat, more: nat, wrap: nat)
    requires d > 0 && more <= 1 && wrap <= 1 && 0 <= n % d + more - (if wrap == 1 then d else 0) < d
    ensures (n + more) / d == n / d + wrap && (n + more) % d == n % d + more - if wrap == 1 then d else 0
  {
    var q, r := n / d + wrap, n % d + more - if wrap == 1 then d else 0;
    assert n == n / d * d + n % d;
    assert q * d == n / d * d + if wrap == 1 then d else 0;
    Quotient(n + more, d, q);
    Remainder(n + more, d, q, r);
  }

  // ----- The engine's tables --------------------------------------------------------------------

  datatype Unban = Unban(at: nat, from: string, channel: string, host: string)

  class Kickers {
    var chatter: Table
    var pendingUnbans: seq<Unban>

    constructor ()
      ensures Follows(chatter, []) && pendingUnbans == []
    {
      chatter, pendingUnbans := map[], [];
    }

    function State(channel: string, uid: string): Chatter
      reads this`chatter
    {
      Entry(At(chatter, channel, uid))
    }

    /** `chatter_entry(channel, from)` written back. */
    method Store(channel: string, uid: string, st: Chatter)
      modifies this`chatter
      ensures chatter == Put(old(chatter), channel, uid, st)
    {
      var bucket := if Lower(channel) in chatter then chatter[Lower(channel)] else map[];
      chatter := chatter[Lower(channel) := bucket[uid := st]];
    }

    /** Judge one channel line. */
    method KickerCheck(uid: string, channel: string, l: Line) returns (outcome: Outcome)
      modifies this
      ensures outcome == Judge(At(old(chatter), channel, uid), l).1
      ensures Stepped(old(chatter), Said(uid, channel, l), chatter)
      ensures pendingUnbans == old(pendingUnbans) + Unbans(outcome, channel, l)
    {
      ghost var t := chatter;
      ghost var entry := At(chatter, channel, uid);
      outcome := Nothing;
      if !Judged(l) {
        SaidSteps(t, uid, channel, l, chatter);
        return;
      }
      var s := l.settings.value;
      var reason: Option<Reason> := if l.tripped then Some(Rule) else None;
      if reason.None? && (s.flood || s.repeats) {
        var st := State(channel, uid);
        if s.flood {
          st := FloodStep(st, l.now, FloodSecs(s));
          if st.floodLines >= FloodLines(s) {
            reason := Some(Flooding);
          }
        }
        if reason.None? && s.repeats {
          st := RepeatStep(st, l.hash);
          if st.repeats >= RepeatTimes(s) {
            reason := Some(Repeating);
          }
        }
        Store(channel, uid, st);
        PutThenAt(t, channel, uid, st);
      }
      assert (At(chatter, channel, uid), reason) == Examined(entry, l);
      assert chatter == t || chatter == Put(t, channel, uid, Entry(At(chatter, channel, uid)));
      if reason.None? {
        SaidSteps(t, uid, channel, l, chatter);
        return;
      }
      outcome := Punish(uid, channel, l, reason.value, t);
      SaidSteps(t, uid, channel, l, chatter);
    }

    method Punish(uid: string, channel: string, l: Line, reason: Reason, ghost t: Table) returns (outcome: Outcome)
      requires Judged(l) && (chatter == t || chatter == Put(t, channel, uid, Entry(At(chatter, channel, uid))))
      modifies this
      ensures (At(chatter, channel, uid), outcome) == Punished(At(old(chatter), channel, uid), l, reason)
      ensures chatter == t || chatter == Put(t, channel, uid, Entry(At(chatter, channel, uid)))
      ensures pendingUnbans == old(pendingUnbans) + Unbans(outcome, channel, l)
    {
      var s, st := l.settings.value, State(channel, uid);
      if s.warn && !st.warned {
        Store(channel, uid, st.(warned := true));
        PutTwice(t, channel, uid, old(chatter), chatter, st.(warned := true));
        return Warning;
      }
      var ban := false;
      if s.ttb > 0 {
        var kicks := Inc16(st.kicks);
        if kicks >= s.ttb {
          Store(channel, uid, st.(kicks := 0));
          PutTwice(t, channel, uid, old(chatter), chatter, st.(kicks := 0));
          if l.host.Some? {
            ban := true;
            if s.banExpire > 0 {
              pendingUnbans := pendingUnbans + [Unban(l.now + s.banExpire, l.bot.value, channel, l.host.value)];
            }
          }
        } else {
          Store(channel, uid, st.(kicks := kicks));
          PutTwice(t, channel, uid, old(chatter), chatter, st.(kicks := kicks));
        }
      }
      outcome := Kick(reason, ban);
    }

    /** Drop a user's counters in a channel, and the channel's bucket once empty. */
    method ForgetChatter(channel: string, uid: string)
      modifies this`chatter
      ensures Stepped(old(chatter), Left(uid, channel), chatter)
    {
      ghost var t := chatter;
      var k := Lower(channel);
      if k in chatter {
        var bucket := chatter[k] - {uid};
        chatter := if bucket == map[] then chatter - {k} else chatter[k := bucket];
      }
      forall c, u ensures At(chatter, c, u) == if u == uid && Lower(c) == k then None else At(t, c, u) {
        if u != uid && Lower(c) == k && k in t && u in t[k] {
          assert u in t[k] - {uid};
        }
      }
    }

    /** Drop a user's counters in every channel. */
    method ForgetEverywhere(uid: string)
      modifies this`chatter
      ensures Stepped(old(chatter), Gone(uid), chatter)
    {
      ghost var t := chatter;
      chatter := map k | k in chatter && chatter[k] - {uid} != map[] :: chatter[k] - {uid};
      forall c, u ensures At(chatter, c, u) == if u == uid then None else At(t, c, u) {
        if u != uid && Lower(c) in t && u in t[Lower(c)] {
          assert u in t[Lower(c)] - {uid};
        }
      }
    }
  }

  function Unbans(outcome: Outcome, channel: string, l: Line): seq<Unban> {
    if outcome.Kick? && outcome.ban && l.settings.Some? && l.settings.value.banExpire > 0 && l.bot.Some? && l.host.Some?
    then [Unban(l.now + l.settings.value.banExpire, l.bot.value, channel, l.host.value)]
    else []
  }

  function Put(t: Table, channel: string, uid: string, st: Chatter): Table {
    t[Lower(channel) := (if Lower(channel) in t then t[Lower(channel)] else map[])[uid := st]]
  }

  lemma PutThenAt(t: Table, channel: string, uid: string, st: Chatter)
    ensures At(Put(t, channel, uid, st), channel, uid) == Some(st)
    ensures forall c, u :: u != uid || Lower(c) != Lower(channel) ==> At(Put(t, channel, uid, st), c, u) == At(t, c, u)
  {
  }

  lemma PutTwice(t: Table, channel: string, uid: string, t1: Table, t2: Table, st: Chatter)
    requires t1 == t || t1 == Put(t, channel, uid, Entry(At(t1, channel, uid)))
    requires t2 == Put(t1, channel, uid, st)
    ensures t2 == Put(t, channel, uid, st) && At(t2, channel, uid) == Some(st)
  {
    PutThenAt(t1, channel, uid, st);
    var k := Lower(channel);
    var bucket := if k in t then t[k] else map[];
    if t1 != t {
      var mid := Entry(At(t1, channel, uid));
      assert bucket[uid := mid][uid := st] == bucket[uid := st];
      assert t[k := bucket[uid := mid]][k := bucket[uid := st]] == t[k := bucket[uid := st]];
    }
  }

  /** The table holds what the run says of every user in every channel. */
  ghost predicate Follows(t: Table, run: seq<Event>) {
    forall c, u :: At(t, c, u) == EntryAfter(run, u, c)
  }

  /** One event changed the counters it concerns, and no others. */
  ghost predicate Stepped(t: Table, e: Event, t': Table) {
    forall c, u :: At(t', c, u) == EntryStep(At(t, c, u), e, u, c)
  }

  /** A table that follows a run goes on following it, event by event. */
  lemma SteppedFollows(t: Table, e: Event, t': Table, run: seq<Event>)
    requires Stepped(t, e, t') && Follows(t, run)
    ensures Follows(t', run + [e])
  {
    hide EntryStep, At;
    forall c, u ensures At(t', c, u) == EntryAfter(run + [e], u, c) {
      EntrySnoc(run, e, u, c);
    }
  }

  lemma SaidSteps(t: Table, uid: string, channel: string, l: Line, t': Table)
    requires At(t', channel, uid) == Judge(At(t, channel, uid), l).0
    requires t' == t || t' == Put(t, channel, uid, Entry(At(t', channel, uid)))
    ensures Stepped(t, Said(uid, channel, l), t')
  {
    hide Judge;
    PutThenAt(t, channel, uid, Entry(At(t', channel, uid)));
    forall c, u ensures At(t', c, u) == EntryStep(At(t, c, u), Said(uid, channel, l), u, c) {
      if u == uid && Lower(c) == Lower(channel) {
        assert At(t', c, u) == At(t', channel, uid) && At(t, c, u) == At(t, channel, uid);
      }
    }
  }
}
