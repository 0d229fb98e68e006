/** The hostmask matcher of the API crate: an iterative matcher with a single
    backtrack point, against the recursive meaning of `*` and `?`. */
module Glob {
  import opened Text

  // ----- What a mask means ------------------------------------------------

  /** `*` is any run of characters, `?` any one character. */
  predicate Matches(p: string, t: string)
    decreases |p| + |t|
  {
    if p == "" then t == ""
    else if p[0] == '*' then Matches(p[1..], t) || (t != "" && Matches(p, t[1..]))
    else t != "" && (p[0] == '?' || p[0] == t[0]) && Matches(p[1..], t[1..])
  }

  /** What the matcher decides: as `Matches`, except that a `*` of the pattern that
      faces a `*` of the text stands for that one character. */
  predicate Decides(p: string, t: string)
    decreases |p| + |t|, 0
  {
    if t == "" then Stars(p)
    else if p == "" then false
    else if p[0] == '?' || p[0] == t[0] then Decides(p[1..], t[1..])
    else p[0] == '*' && SomeSuffix(p[1..], t)
  }

  /** The pattern decides some suffix of the text. */
  predicate SomeSuffix(p: string, t: string)
    decreases |p| + |t|, 1
  {
    Decides(p, t) || (t != "" && SomeSuffix(p, t[1..]))
  }

  predicate Stars(p: string) {
    forall c <- p :: c == '*'
  }

  lemma StarsCons(p: string)
    requires p != ""
    ensures Stars(p) <==> p[0] == '*' && Stars(p[1..])
    ensures Stars(p) ==> '*' in p
  {
    assert p == [p[0]] + p[1..] && p[0] in p;
    forall c | c in p[1..] ensures c in p {
    }
    forall c | c in p ensures c == p[0] || c in p[1..] {
    }
  }

  // ----- Suffixes ----------------------------------------------------------

  lemma {:induction false} SuffixWitness(p: string, t: string, i: nat) returns (k: nat)
    requires i <= |t| && SomeSuffix(p, t[i..])
    ensures i <= k <= |t| && Decides(p, t[k..])
    decreases |t| - i
  {
    if Decides(p, t[i..]) {
      k := i;
    } else {
      assert t[i..][1..] == t[i + 1..];
      k := SuffixWitness(p, t, i + 1);
    }
  }

  lemma {:induction false} SuffixIntro(p: string, t: string, i: nat, k: nat)
    requires i <= k <= |t| && Decides(p, t[k..])
    ensures SomeSuffix(p, t[i..])
    decreases k - i
  {
    if i < k {
      assert t[i..][1..] == t[i + 1..];
      SuffixIntro(p, t, i + 1, k);
    }
  }

  // ----- Why one backtrack point is enough ----------------------------------

  /** `q` matches the text at offset `m` character by character. */
  predicate Literally(q: string, t: string, m: nat) {
    m + |q| <= |t| && forall i :: 0 <= i < |q| ==> q[i] == '?' || q[i] == t[m + i]
  }

  lemma {:induction false} LiteralRun(q: string, r: string, t: string, m: nat)
    requires Literally(q, t, m)
    ensures Decides(q + r, t[m..]) == Decides(r, t[m + |q|..])
    decreases |q|
  {
    if q == "" {
      assert q + r == r;
    } else {
      assert q[0] == '?' || q[0] == t[m + 0];
      assert (q + r)[1..] == q[1..] + r && t[m..][1..] == t[m + 1..];
      assert Literally(q[1..], t, m + 1) by {
        forall i | 0 <= i < |q[1..]| ensures q[1..][i] == '?' || q[1..][i] == t[m + 1 + i] {
          assert q[i + 1] == '?' || q[i + 1] == t[m + (i + 1)];
        }
      }
      LiteralRun(q[1..], r, t, m + 1);
    }
  }

  /** If `q` fits literally at `m`, no later start of `q + r` can reach `r` earlier
      than the literal run does: a choice made at an older `*` is never needed. */
  lemma {:induction false} NoEarlierArrival(q: string, r: string, t: string, m: nat, k: nat) returns (j: nat)
    requires Literally(q, t, m) && m <= k <= |t| && Decides(q + r, t[k..])
    ensures m + |q| <= j <= |t| && Decides(r, t[j..])
    decreases |q|
  {
    if q == "" {
      assert q + r == r;
      return k;
    }
    assert (q + r)[0] == q[0] && (q + r)[1..] == q[1..] + r;
    assert q[0] == '?' || q[0] == t[m + 0];
    assert Literally(q[1..], t, m + 1) by {
      forall i | 0 <= i < |q[1..]| ensures q[1..][i] == '?' || q[1..][i] == t[m + 1 + i] {
        assert q[i + 1] == '?' || q[i + 1] == t[m + (i + 1)];
      }
    }
    if k == |t| {
      assert Stars(r) by {
        forall c | c in r ensures c == '*' {
          assert c in q + r;
        }
      }
      j := |t|;
    } else if q[0] == '?' || q[0] == t[k] {
      assert t[k..][1..] == t[k + 1..];
      j := NoEarlierArrival(q[1..], r, t, m + 1, k + 1);
    } else {
      var k' := SuffixWitness(q[1..] + r, t, k);
      j := NoEarlierArrival(q[1..], r, t, m + 1, k');
    }
  }

  /** Moving the backtrack point to a newer `*` loses nothing. */
  lemma NewerStarSuffices(q: string, r: string, t: string, m: nat)
    requires Literally(q, t, m) && m + |q| < |t| && t[m + |q|] != '*'
    ensures SomeSuffix(q + "*" + r, t[m..]) == SomeSuffix(r, t[m + |q|..])
  {
    var e := m + |q|;
    var rest := "*" + r;
    assert q + "*" + r == q + rest && rest[1..] == r;
    LiteralRun(q, rest, t, m);
    if SomeSuffix(q + rest, t[m..]) {
      var k := SuffixWitness(q + rest, t, m);
      var j := NoEarlierArrival(q, rest, t, m, k);
      if j == |t| {
        assert Stars(r) by {
          forall c | c in r ensures c == '*' {
            assert c in rest;
          }
        }
        SuffixIntro(r, t, e, j);
      } else if t[j] == '*' {
        assert t[j..][1..] == t[j + 1..];
        SuffixIntro(r, t, e, j + 1);
      } else {
        var k' := SuffixWitness(r, t, j);
        SuffixIntro(r, t, e, k');
      }
    }
  }

  // ----- The matcher ---------------------------------------------------------

  /** `chars().flat_map(char::to_lowercase)`, for whatever folding `lower` is. */
  function Folded(s: string, lower: char -> string): string {
    if s == "" then "" else lower(s[0]) + Folded(s[1..], lower)
  }

  /** Character by character the same up to case. */
  ghost predicate SameButCase(s: string, t: string, lower: char -> string) {
    |s| == |t| && forall i :: 0 <= i < |s| ==> lower(s[i]) == lower(t[i])
  }

  lemma {:induction false} FoldedAlike(s: string, t: string, lower: char -> string)
    requires SameButCase(s, t, lower)
    ensures Folded(s, lower) == Folded(t, lower)
  {
    if s != "" {
      FoldedAlike(s[1..], t[1..], lower);
    }
  }

  /** What folds to single characters is folded place by place. */
  lemma {:induction false} FoldedInPlace(s: string, lower: char -> string)
    requires forall i :: 0 <= i < |s| ==> |lower(s[i])| == 1
    ensures |Folded(s, lower)| == |s| && forall i :: 0 <= i < |s| ==> [Folded(s, lower)[i]] == lower(s[i])
  {
    if s != "" {
      FoldedInPlace(s[1..], lower);
    }
  }

  /** The verdict does not depend on the case of pattern or text, and where every character
      folds to one, the strings compared are the given ones folded place by place. */
  lemma CaseIsIgnored(p: string, t: string, p': string, t': string, lower: char -> string)
    requires SameButCase(p, p', lower) && SameButCase(t, t', lower)
    ensures Decides(Folded(p, lower), Folded(t, lower)) == Decides(Folded(p', lower), Folded(t', lower))
    ensures (forall i :: 0 <= i < |p| ==> |lower(p[i])| == 1) ==>
              |Folded(p, lower)| == |p| && forall i :: 0 <= i < |p| ==> [Folded(p, lower)[i]] == lower(p[i])
  {
    FoldedAlike(p, p', lower);
    FoldedAlike(t, t', lower);
    if forall i :: 0 <= i < |p| ==> |lower(p[i])| == 1 {
      FoldedInPlace(p, lower);
    }
  }

  /** The matcher's position decides the same as the whole input: either no `*` was
      taken yet, or the pattern since the last one fits literally from `mark`. */
  predicate Tracks(p: string, t: string, pi: nat, ti: nat, star: Option<nat>, mark: nat) {
    && pi <= |p| && ti <= |t|
    && match star
       case None => mark == 0 && Decides(p, t) == Decides(p[pi..], t[ti..])
       case Some(s) =>
         && s < pi && mark <= ti && ti - mark == pi - (s + 1)
         && Literally(p[s + 1..pi], t, mark)
         && Decides(p, t) == SomeSuffix(p[s + 1..], t[mark..])
  }

  lemma TakeChar(p: string, t: string, pi: nat, ti: nat, star: Option<nat>, mark: nat)
    requires Tracks(p, t, pi, ti, star, mark) && pi < |p| && ti < |t| && (p[pi] == '?' || p[pi] == t[ti])
    ensures Tracks(p, t, pi + 1, ti + 1, star, mark)
  {
    if star.Some? {
      assert p[star.value + 1..pi + 1] == p[star.value + 1..pi] + [p[pi]];
    } else {
      assert p[pi..][1..] == p[pi + 1..] && t[ti..][1..] == t[ti + 1..];
    }
  }

  lemma TakeStar(p: string, t: string, pi: nat, ti: nat, star: Option<nat>, mark: nat)
    requires Tracks(p, t, pi, ti, star, mark) && pi < |p| && ti < |t| && p[pi] == '*' && t[ti] != '*'
    ensures Tracks(p, t, pi + 1, ti, Some(pi), ti)
  {
    if star.Some? {
      var q := p[star.value + 1..pi];
      assert p[star.value + 1..] == q + "*" + p[pi + 1..];
      NewerStarSuffices(q, p[pi + 1..], t, mark);
    } else {
      assert p[pi..][1..] == p[pi + 1..];
    }
  }

  lemma Backtrack(p: string, t: string, pi: nat, ti: nat, s: nat, mark: nat)
    requires Tracks(p, t, pi, ti, Some(s), mark) && ti < |t|
    requires pi < |p| ==> p[pi] != '?' && p[pi] != t[ti] && p[pi] != '*'
    ensures Tracks(p, t, s + 1, mark + 1, Some(s), mark + 1)
  {
    assert p[s + 1..] == p[s + 1..pi] + p[pi..];
    LiteralRun(p[s + 1..pi], p[pi..], t, mark);
    assert t[mark..][1..] == t[mark + 1..];
  }

  /** The first loop: walk the text, remembering the last `*`. `None` is a mismatch;
      otherwise the pattern position left over at the end of the text. */
  method WalkText(p: string, t: string) returns (left: Option<nat>)
    ensures left.None? ==> !Decides(p, t)
    ensures left.Some? ==> left.value <= |p| && Decides(p, t) == Stars(p[left.value..])
  {
    var pi: nat, ti: nat := 0, 0;
    var star: Option<nat>, mark: nat := None, 0;
    while ti < |t|
      invariant Tracks(p, t, pi, ti, star, mark)
      decreases if star.None? then |p| + 1 else |p| - star.value, |t| - mark, |t| - ti
    {
      if pi < |p| && (p[pi] == '?' || p[pi] == t[ti]) {
        TakeChar(p, t, pi, ti, star, mark);
        pi := pi + 1;
        ti := ti + 1;
      } else if pi < |p| && p[pi] == '*' {
        TakeStar(p, t, pi, ti, star, mark);
        star := Some(pi);
        mark := ti;
        pi := pi + 1;
      } else if star.Some? {
        Backtrack(p, t, pi, ti, star.value, mark);
        pi := star.value + 1;
        mark := mark + 1;
        ti := mark;
      } else {
        return None;
      }
    }
    EndOfText(p, t, pi, star, mark);
    return Some(pi);
  }

  method GlobMatch(pattern: string, text: string, lower: char -> string) returns (matched: bool)
    ensures matched == Decides(Folded(pattern, lower), Folded(text, lower))
  {
    var p, t := Folded(pattern, lower), Folded(text, lower);
    var left := WalkText(p, t);
    if left.None? {
      return false;
    }
    var pi := left.value;
    while pi < |p| && p[pi] == '*'
      invariant pi <= |p|
      invariant Decides(p, t) == Stars(p[pi..])
    {
      assert p[pi..][1..] == p[pi + 1..];
      StarsCons(p[pi..]);
      pi := pi + 1;
    }
    StarsExit(p, pi);
    return pi == |p|;
  }

  lemma StarsExit(p: string, pi: nat)
    requires pi <= |p| && (pi < |p| ==> p[pi] != '*')
    ensures Stars(p[pi..]) <==> pi == |p|
  {
    if pi < |p| {
      StarsCons(p[pi..]);
    }
  }

  lemma EndOfText(p: string, t: string, pi: nat, star: Option<nat>, mark: nat)
    requires Tracks(p, t, pi, |t|, star, mark)
    ensures Decides(p, t) == Stars(p[pi..])
  {
    if star.Some? {
      var q, r := p[star.value + 1..pi], p[pi..];
      assert p[star.value + 1..] == q + r;
      LiteralRun(q, r, t, mark);
      if Decides(p, t) {
        var k := SuffixWitness(q + r, t, mark);
        var j := NoEarlierArrival(q, r, t, mark, k);
      }
    }
  }

  // ----- How far the decision agrees with the meaning -------------------------

  lemma {:induction false} StarsMatchNothing(p: string)
    ensures Matches(p, "") == Stars(p)
  {
    if p != "" {
      StarsCons(p);
      StarsMatchNothing(p[1..]);
    }
  }

  /** A leading `*` may swallow any prefix. */
  lemma {:induction false} StarSwallows(p: string, t: string, k: nat)
    requires k <= |t| && Matches(p, t[k..])
    ensures Matches("*" + p, t)
    decreases |t|
  {
    assert ("*" + p)[1..] == p;
    if k > 0 {
      assert t[1..][k - 1..] == t[k..];
      StarSwallows(p, t[1..], k - 1);
    } else {
      assert t[0..] == t;
    }
  }

  /** The matcher never accepts a text the mask does not mean, on any input. */
  lemma {:induction false} DecidesIsSound(p: string, t: string)
    requires Decides(p, t)
    ensures Matches(p, t)
    decreases |p| + |t|
  {
    if t == "" {
      StarsMatchNothing(p);
    } else if p[0] == '?' || p[0] == t[0] {
      DecidesIsSound(p[1..], t[1..]);
      if p[0] == '*' {
        assert p == "*" + p[1..];
        StarSwallows(p[1..], t, 1);
      }
    } else {
      assert t == t[0..];
      var k := SuffixWitness(p[1..], t, 0);
      DecidesIsSound(p[1..], t[k..]);
      assert p == "*" + p[1..];
      StarSwallows(p[1..], t, k);
    }
  }

  lemma {:induction false} StarSwallowed(p: string, t: string) returns (k: nat)
    requires Matches("*" + p, t)
    ensures k <= |t| && Matches(p, t[k..])
    decreases |t|
  {
    assert ("*" + p)[1..] == p;
    if Matches(p, t) {
      assert t[0..] == t;
      k := 0;
    } else {
      var k' := StarSwallowed(p, t[1..]);
      assert t[1..][k'..] == t[k' + 1..];
      k := k' + 1;
    }
  }

  /** Where no `*` of the pattern can face a `*` of the text the two agree. */
  lemma {:induction false} PlainIsComplete(p: string, t: string)
    requires '*' !in t || '*' !in p
    ensures Decides(p, t) == Matches(p, t)
    decreases |p| + |t|
  {
    if Decides(p, t) {
      DecidesIsSound(p, t);
    } else if Matches(p, t) {
      if t == "" {
        StarsMatchNothing(p);
      } else if p[0] == '*' {
        assert p == "*" + p[1..];
        var k := StarSwallowed(p[1..], t);
        assert t[0..] == t && t[0] in t && p[0] in p;
        PlainIsComplete(p[1..], t[k..]);
        SuffixIntro(p[1..], t, 0, k);
      } else {
        PlainIsComplete(p[1..], t[1..]);
      }
    }
  }

  function Repeat(c: char, n: nat): string {
    seq(n, _ => c)
  }

  lemma {:induction false} AnyString(t: string)
    ensures Matches(Repeat('?', |t|), t)
  {
    if t != "" {
      AnyString(t[1..]);
      assert Repeat('?', |t|)[1..] == Repeat('?', |t| - 1);
    }
  }

  lemma {:induction false} PrefixMatches(q: string, p: string, t: string, i: nat)
    requires i <= |t| && |q| == i && (forall j :: 0 <= j < i ==> q[j] == '?' || q[j] == '*' || q[j] == t[j])
    requires forall j :: 0 <= j < i && q[j] == '*' ==> t[j] == '*'
    requires Matches(p, t[i..])
    ensures Matches(q + p, t)
    decreases i
  {
    if i == 0 {
      assert q + p == p && t[0..] == t;
    } else {
      assert (q + p)[1..] == q[1..] + p && t[1..][i - 1..] == t[i..];
      PrefixMatches(q[1..], p, t[1..], i - 1);
      if q[0] == '*' {
        assert q + p == "*" + (q[1..] + p);
        StarSwallows(q[1..] + p, t, 1);
      }
    }
  }

  /** For a text with a `*` at `i`, a mask that means it and is refused. */
  lemma StarInTextIsMissed(t: string, i: nat) returns (p: string)
    requires i < |t| && t[i] == '*'
    ensures Matches(p, t) && !Decides(p, t)
  {
    var q, tail := Repeat('?', i), Repeat('?', |t| - i);
    p := q + ("*" + tail);
    AnyString(t[i..]);
    StarSwallows(tail, t[i..], 0);
    PrefixMatches(q, "*" + tail, t, i);
    assert t == t[0..];
    LiteralRun(q, "*" + tail, t, 0);
    assert ("*" + tail)[1..] == tail && t[i..][1..] == t[i + 1..];
    TooManyMarks(|t| - i, t[i + 1..]);
  }

  lemma {:induction false} TooManyMarks(n: nat, t: string)
    requires n > |t|
    ensures !Decides(Repeat('?', n), t)
    decreases n
  {
    if t == "" {
      StarsCons(Repeat('?', n));
    } else {
      assert Repeat('?', n)[1..] == Repeat('?', n - 1);
      TooManyMarks(n - 1, t[1..]);
    }
  }

  /** The matcher decides what the mask means on every mask exactly for the texts
      without a `*`. */
  lemma ExactForTexts(t: string)
    ensures (forall p :: Decides(p, t) == Matches(p, t)) <==> '*' !in t
  {
    if '*' in t {
      var i :| 0 <= i < |t| && t[i] == '*';
      var p := StarInTextIsMissed(t, i);
    } else {
      forall p ensures Decides(p, t) == Matches(p, t) {
        PlainIsComplete(p, t);
      }
    }
  }

  lemma StarsNeedStar(p: string)
    ensures Stars(p) ==> p == "" || '*' in p
  {
    if p != "" {
      StarsCons(p);
    }
  }

  lemma {:induction false} NoStarNeedsLength(p: string, t: string)
    requires '*' !in p && Decides(p, t)
    ensures |p| == |t|
    decreases |p|
  {
    if t != "" {
      assert p[0] in p;
      NoStarNeedsLength(p[1..], t[1..]);
    } else {
      StarsNeedStar(p);
    }
  }

  lemma {:induction false} MatchesItself(p: string)
    ensures Matches(p, p)
  {
    if p != "" {
      MatchesItself(p[1..]);
      if p[0] == '*' {
        assert p == "*" + p[1..];
        StarSwallows(p[1..], p, 1);
      }
    }
  }

  /** For a mask whose last `*` is at `i`, a text it means that is refused. */
  lemma StarInPatternIsMissed(p: string, i: nat) returns (t: string)
    requires i < |p| && p[i] == '*' && '*' !in p[i + 1..]
    ensures Matches(p, t) && !Decides(p, t)
  {
    var head, tail := p[..i + 1], p[i + 1..];
    t := head + ("a" + tail);
    assert p == head + tail && p == p[..i] + ("*" + tail);
    assert t[i + 2..] == tail && t[i..][2..] == tail;
    MatchesItself(tail);
    StarSwallows(tail, t[i..], 2);
    PrefixMatches(p[..i], "*" + tail, t, i);
    assert t == t[0..] && t[i + 1..] == "a" + tail;
    LiteralRun(head, tail, t, 0);
    if Decides(tail, t[i + 1..]) {
      NoStarNeedsLength(tail, t[i + 1..]);
    }
  }

  lemma {:induction false} LastStar(p: string) returns (i: nat)
    requires '*' in p
    ensures i < |p| && p[i] == '*' && '*' !in p[i + 1..]
    decreases |p|
  {
    if '*' in p[1..] {
      var j := LastStar(p[1..]);
      assert p[1..][j + 1..] == p[j + 2..];
      i := j + 1;
    } else {
      assert p == [p[0]] + p[1..];
      i := 0;
    }
  }

  /** And on every text exactly for the masks without a `*`. */
  lemma ExactForPatterns(p: string)
    ensures (forall t :: Decides(p, t) == Matches(p, t)) <==> '*' !in p
  {
    if '*' in p {
      var i := LastStar(p);
      var t := StarInPatternIsMissed(p, i);
    } else {
      forall t ensures Decides(p, t) == Matches(p, t) {
        PlainIsComplete(p, t);
      }
    }
  }
}
