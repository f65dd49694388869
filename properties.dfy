/**
 * What the round controller guarantees over sequences of events: buzzes that
 * are not taken change nothing, a field is credited at most once per round,
 * scores move by one at a time, the fade-out ends the round, the countdown
 * reaches zero, and the three retry policies behave as documented.
 */
module RoundProperties {
  import opened Game
  import opened Round

  /** A callback that is not scheduled stays unscheduled however often the
      clock would call it: nothing happens. */
  lemma {:induction false} DisabledCallsInert(c: Config, s: RoundState, e: Event, n: nat)
    requires Inv(c, s) && !Enabled(s, e)
    ensures Run(c, s, Repeat(e, n)) == s
  {
    if n > 0 {
      assert Repeat(e, n)[0] == e && Repeat(e, n)[1..] == Repeat(e, n - 1);
      DisabledCallsInert(c, s, e, n - 1);
    }
  }

  function Repeat(e: Event, n: nat): (es: seq<Event>)
    ensures |es| == n && forall i :: 0 <= i < n ==> es[i] == e
  {
    seq(n, _ => e)
  }

  /** Buzzes while no track is playing are ignored, however many arrive. */
  lemma {:induction false} BuzzesOutsidePlayingInert(c: Config, s: RoundState, es: seq<Event>)
    requires Inv(c, s) && s.step != Playing
    requires forall i :: 0 <= i < |es| ==> es[i].Buzz?
    ensures Run(c, s, es) == s
  {
    if es != [] {
      assert Apply(c, s, es[0]) == s;
      BuzzesOutsidePlayingInert(c, s, es[1..]);
    }
  }

  /** A second press of T or A for the same answer credits nothing more. */
  lemma CreditOnce(c: Config, s: RoundState, key: Key)
    requires Inv(c, s) && (key == TitleKey || key == ArtistKey)
    ensures var once := Apply(c, s, KeyPress(key));
            Apply(c, once, KeyPress(key)) == once
  {
  }

  /** Drawing twice does what drawing once does: the countdown is scheduled
      once and playback is resumed once. */
  lemma DrawOnce(c: Config, s: RoundState)
    requires Inv(c, s)
    ensures Apply(c, Apply(c, s, Draw), Draw) == Apply(c, s, Draw)
  {
  }

  /** The scores of a roster, left as they were. */
  ghost predicate ScoresKept(ts: seq<Team>, us: seq<Team>) {
    |us| == |ts| && forall i :: 0 <= i < |ts| ==> us[i].score == ts[i].score
  }

  /** `us` is `ts` with `d` points added to the team at index `k`. */
  ghost predicate Scored(ts: seq<Team>, us: seq<Team>, k: nat, d: int) {
    k < |ts| && us == AddPoints(ts, k, d)
  }

  /** How many fields of the current track have been credited to a team. */
  function Credits(s: RoundState): (n: nat)
    ensures n <= 2
    ensures n == 0 <==> s.artistFoundBy.None? && s.titleFoundBy.None?
  {
    (if s.artistFoundBy.Some? then 1 else 0) + (if s.titleFoundBy.Some? then 1 else 0)
  }

  /** An event that ends the round (the fade-out reaching silence). */
  ghost predicate EndsRound(c: Config, s: RoundState, e: Event)
    requires Inv(c, s)
  {
    s.step != Idle && Apply(c, s, e).step == Idle
  }

  /** Events other than T, A and the number keys keep every score, and keep
      the credited fields unless they end the round. */
  lemma ScoresKeptByOthers(c: Config, s: RoundState, e: Event)
    requires Inv(c, s)
    requires !(e.KeyPress? && (e.key.TitleKey? || e.key.ArtistKey? || e.key.NumberKey?))
    ensures ScoresKept(s.teams, Apply(c, s, e).teams)
    ensures Credits(Apply(c, s, e)) == Credits(s) || EndsRound(c, s, e)
  {
    if e.Buzz? || e.KeyPress? {
      InputsKeepScores(c, s, e);
    } else if e.Text? || e.Move? || e.Draw? {
      OperatorKeepsScores(c, s, e);
    } else {
      CallbacksKeepScores(c, s, e);
    }
  }

  lemma InputsKeepScores(c: Config, s: RoundState, e: Event)
    requires Inv(c, s) && (e.Buzz? || e.KeyPress?)
    requires !(e.KeyPress? && (e.key.TitleKey? || e.key.ArtistKey? || e.key.NumberKey?))
    ensures ScoresKept(s.teams, Apply(c, s, e).teams)
    ensures Credits(Apply(c, s, e)) == Credits(s)
  {
    match e
    case Buzz(b) =>
      assert Apply(c, s, e) == BuzzStep(c, s, b);
      BuzzKeepsScores(c, s, b);
    case KeyPress(key) =>
      assert Apply(c, s, e) == KeyStep(c, s, key);
      if key.Enter? {
        assert KeyStep(c, s, key) == EnterStep(c, s, key.ctrl);
        EnterKeepsScores(c, s, key.ctrl);
      }
  }

  lemma BuzzKeepsScores(c: Config, s: RoundState, button: int)
    requires Inv(c, s)
    ensures ScoresKept(s.teams, BuzzStep(c, s, button).teams)
    ensures Credits(BuzzStep(c, s, button)) == Credits(s)
  {
  }

  lemma EnterKeepsScores(c: Config, s: RoundState, ctrl: bool)
    requires Inv(c, s)
    ensures ScoresKept(s.teams, EnterStep(c, s, ctrl).teams)
    ensures Credits(EnterStep(c, s, ctrl)) == Credits(s)
  {
    match s.step
    case Idle => assert EnterStep(c, s, ctrl) == Start(c, s);
    case Playing =>
      if !ctrl {
        assert EnterStep(c, s, ctrl) == Reveal(c, s);
      }
    case Answering => assert EnterStep(c, s, ctrl) == Resume(c, s);
    case Revealed =>
  }

  lemma OperatorKeepsScores(c: Config, s: RoundState, e: Event)
    requires Inv(c, s) && (e.Text? || e.Move? || e.Draw?)
    ensures ScoresKept(s.teams, Apply(c, s, e).teams)
    ensures Credits(Apply(c, s, e)) == Credits(s)
  {
  }

  lemma CallbacksKeepScores(c: Config, s: RoundState, e: Event)
    requires Inv(c, s) && (e.FadeCall? || e.CountdownCall? || e.RestoreCall? || e.Elapse?)
    ensures ScoresKept(s.teams, Apply(c, s, e).teams)
    ensures Credits(Apply(c, s, e)) == Credits(s) || EndsRound(c, s, e)
  {
  }

  /** What one event can do to the scores and to the credited fields: nothing,
      except that a credited answer gives the answering team one point and
      credits one more field, a number key moves one team by one point, and
      the end of a round forgets the credits. */
  lemma ScoreShape(c: Config, s: RoundState, e: Event)
    requires Inv(c, s)
    ensures var r := Apply(c, s, e);
      (ScoresKept(s.teams, r.teams) && (Credits(r) == Credits(s) || EndsRound(c, s, e))) ||
      (e.KeyPress? && (e.key == TitleKey || e.key == ArtistKey) && s.step == Answering &&
       Scored(s.teams, r.teams, s.lastTeamToBuzz.value, 1) && Credits(r) == Credits(s) + 1) ||
      (e.KeyPress? && e.key.NumberKey? && FindByNumber(s.teams, e.key.n).Some? &&
       Scored(s.teams, r.teams, FindByNumber(s.teams, e.key.n).value, if e.key.ctrl then -1 else 1) &&
       Credits(r) == Credits(s))
  {
    if e.KeyPress? && (e.key.TitleKey? || e.key.ArtistKey?) {
      CreditShape(c, s, e.key);
    } else if e.KeyPress? && e.key.NumberKey? {
      NumberShape(c, s, e.key.n, e.key.ctrl);
    } else {
      ScoresKeptByOthers(c, s, e);
    }
  }

  /** T or A either changes nothing or credits the answering team. */
  lemma CreditShape(c: Config, s: RoundState, key: Key)
    requires Inv(c, s) && (key.TitleKey? || key.ArtistKey?)
    ensures var r := Apply(c, s, KeyPress(key));
      r == s ||
      (s.step == Answering && Scored(s.teams, r.teams, s.lastTeamToBuzz.value, 1) &&
       Credits(r) == Credits(s) + 1)
  {
    assert Apply(c, s, KeyPress(key)) == CreditStep(c, s, if key.TitleKey? then TitleField else ArtistField);
  }

  /** A number key moves the score of the team with that number, if any, by one. */
  lemma NumberShape(c: Config, s: RoundState, n: int, ctrl: bool)
    requires Inv(c, s)
    ensures var r := Apply(c, s, KeyPress(NumberKey(n, ctrl)));
      r == s ||
      (FindByNumber(s.teams, n).Some? &&
       Scored(s.teams, r.teams, FindByNumber(s.teams, n).value, if ctrl then -1 else 1) &&
       Credits(r) == Credits(s))
  {
    assert Apply(c, s, KeyPress(NumberKey(n, ctrl))) == NumberStep(c, s, n, ctrl);
  }

  /** Every event moves at most one team's score, by exactly one; only a
      number key with Ctrl takes a point away, and a point is gained only by a
      number key or by the answering team's credited answer. */
  lemma ScoreStep(c: Config, s: RoundState, e: Event)
    requires Inv(c, s)
    ensures var r := Apply(c, s, e);
      (forall i :: 0 <= i < |s.teams| ==> -1 <= r.teams[i].score - s.teams[i].score <= 1) &&
      (forall i, j :: 0 <= i < |s.teams| && 0 <= j < |s.teams| && i != j &&
                      r.teams[i].score != s.teams[i].score
                      ==> r.teams[j].score == s.teams[j].score) &&
      (forall i :: 0 <= i < |s.teams| && r.teams[i].score < s.teams[i].score ==>
         e.KeyPress? && e.key.NumberKey? && e.key.ctrl) &&
      (forall i :: 0 <= i < |s.teams| && r.teams[i].score > s.teams[i].score ==>
         e.KeyPress? && (e.key.NumberKey? || (s.step == Answering && s.lastTeamToBuzz == Some(i))))
  {
    ScoreShape(c, s, e);
  }

  /** No event of `es` ends the round and none is a manual score change. */
  ghost predicate WithinRound(c: Config, s: RoundState, es: seq<Event>)
    requires Inv(c, s)
    decreases |es|
  {
    es == [] ||
    (!EndsRound(c, s, es[0]) && !(es[0].KeyPress? && es[0].key.NumberKey?) &&
     WithinRound(c, Apply(c, s, es[0]), es[1..]))
  }

  /** Within a round, and leaving out manual changes, one event raises the
      total score by exactly the number of fields it credits. */
  lemma CreditEvent(c: Config, s: RoundState, e: Event)
    requires Inv(c, s) && !EndsRound(c, s, e) && !(e.KeyPress? && e.key.NumberKey?)
    ensures TotalScore(Apply(c, s, e).teams) - TotalScore(s.teams) == Credits(Apply(c, s, e)) - Credits(s)
  {
    var r := Apply(c, s, e);
    ScoreShape(c, s, e);
    if ScoresKept(s.teams, r.teams) {
      TotalScoreSameScores(s.teams, r.teams);
    } else {
      var k := s.lastTeamToBuzz.value;
      TotalScoreUpdate(s.teams, k, s.teams[k].(score := s.teams[k].score + 1));
      assert r.teams == s.teams[k := s.teams[k].(score := s.teams[k].score + 1)];
    }
  }

  /** A field is credited at most once per round: over any events inside one
      round, except manual score changes, the scores grow by the number of
      newly credited fields, hence by at most two. */
  lemma {:induction false} ScoreFollowsCredits(c: Config, s: RoundState, es: seq<Event>)
    requires Inv(c, s) && WithinRound(c, s, es)
    ensures TotalScore(Run(c, s, es).teams) - TotalScore(s.teams) == Credits(Run(c, s, es)) - Credits(s)
    ensures TotalScore(Run(c, s, es).teams) <= TotalScore(s.teams) + 2
    decreases |es|
  {
    if es != [] {
      CreditEvent(c, s, es[0]);
      ScoreFollowsCredits(c, Apply(c, s, es[0]), es[1..]);
    }
  }

  /** In strict mode no event but the end of the round unlocks a team. */
  lemma StrictLockStep(c: Config, s: RoundState, e: Event, k: nat)
    requires Inv(c, s) && c.retryMode == Strict
    requires k < |s.teams| && !s.teams[k].canBuzz && !EndsRound(c, s, e)
    ensures !Apply(c, s, e).teams[k].canBuzz
  {
    match e
    case Buzz(b) =>
      assert Apply(c, s, e) == BuzzStep(c, s, b);
    case KeyPress(key) =>
      assert Apply(c, s, e) == KeyStep(c, s, key);
      StrictLockKey(c, s, key, k);
    case _ =>
  }

  lemma StrictLockKey(c: Config, s: RoundState, key: Key, k: nat)
    requires Inv(c, s) && k < |s.teams| && !s.teams[k].canBuzz
    ensures !KeyStep(c, s, key).teams[k].canBuzz
  {
    match key
    case NumberKey(n, ctrl) =>
      assert KeyStep(c, s, key) == NumberStep(c, s, n, ctrl);
    case TitleKey =>
      assert KeyStep(c, s, key) == CreditStep(c, s, TitleField);
    case ArtistKey =>
      assert KeyStep(c, s, key) == CreditStep(c, s, ArtistField);
    case _ =>
  }

  /** In strict mode a team that has buzzed stays locked out until the round ends. */
  lemma {:induction false} StrictLockPersists(c: Config, s: RoundState, es: seq<Event>, k: nat)
    requires Inv(c, s) && c.retryMode == Strict
    requires k < |s.teams| && !s.teams[k].canBuzz
    requires WithinRound(c, s, es)
    ensures !Run(c, s, es).teams[k].canBuzz
    decreases |es|
  {
    if es != [] {
      StrictLockStep(c, s, es[0], k);
      StrictLockPersists(c, Apply(c, s, es[0]), es[1..], k);
    }
  }

  /** Three events are applied one after the other. */
  lemma Run3(c: Config, s: RoundState, e0: Event, e1: Event, e2: Event)
    requires Inv(c, s)
    ensures Run(c, s, [e0, e1, e2]) == Apply(c, Apply(c, Apply(c, s, e0), e1), e2)
  {
    var s1 := Apply(c, s, e0);
    var s2 := Apply(c, s1, e1);
    assert [e0, e1, e2][1..] == [e1, e2] && [e1, e2][1..] == [e2] && [e2][1..] == [];
    assert Run(c, s2, [e2]) == Run(c, Apply(c, s2, e2), []);
    assert Run(c, s1, [e1, e2]) == Run(c, s2, [e2]);
  }

  /** While playing, the buzz of an eligible team is taken. */
  lemma BuzzTaken(c: Config, s: RoundState, k: nat)
    requires Inv(c, s) && s.step == Playing && k < |s.teams| && s.teams[k].canBuzz
    ensures Apply(c, s, Buzz(s.teams[k].id)) == Accept(c, s, k)
  {
    assert Buzzer(s, s.teams[k].id) == Some(k);
  }

  /** ENTER during an answer resumes play. */
  lemma EnterResumes(c: Config, s: RoundState)
    requires Inv(c, s) && s.step == Answering
    ensures Apply(c, s, KeyPress(Enter(false))) == Resume(c, s)
  {
    assert KeyStep(c, s, Enter(false)) == EnterStep(c, s, false);
  }

  /** Alternating mode: after team `a` answered and play resumed, team `b` may
      buzz; then everyone but `b`, including `a`, may buzz again. */
  lemma AlternatingHandOver(c: Config, s: RoundState, a: nat, b: nat)
    requires Inv(c, s) && c.retryMode == Alternating && s.step == Playing
    requires a < |s.teams| && b < |s.teams| && a != b && s.teams[a].canBuzz
    ensures var r := Run(c, s, [Buzz(s.teams[a].id), KeyPress(Enter(false)), Buzz(s.teams[b].id)]);
      r.step == Answering && r.lastTeamToBuzz == Some(b) && !r.teams[b].canBuzz &&
      forall i :: 0 <= i < |s.teams| && i != b ==> r.teams[i].canBuzz
  {
    Run3(c, s, Buzz(s.teams[a].id), KeyPress(Enter(false)), Buzz(s.teams[b].id));
    BuzzTaken(c, s, a);
    var s1 := Accept(c, s, a);
    EnterResumes(c, s1);
    var s2 := Resume(c, s1);
    assert s2.teams[b].id == s.teams[b].id && s2.teams[b].canBuzz;
    BuzzTaken(c, s2, b);
  }

  /** Timer mode: once play resumes after team k's answer, k's eligibility comes
      back when the restoration fires, which it does only once the clock has
      advanced by the retry duration. */
  lemma RetryAfterResume(c: Config, s: RoundState, d: Seconds)
    requires Inv(c, s) && c.retryMode == Timed && s.step == Answering
    ensures var k := s.lastTeamToBuzz.value;
      var r := Run(c, s, [KeyPress(Enter(false)), Elapse(d), RestoreCall(|s.restores|)]);
      r.step == Playing &&
      (r.teams[k].canBuzz <==> s.teams[k].canBuzz || d >= c.retryTimerDuration as real)
  {
    Run3(c, s, KeyPress(Enter(false)), Elapse(d), RestoreCall(|s.restores|));
    EnterResumes(c, s);
    var s1 := Resume(c, s);
    var s2 := s1.(clock := s1.clock + d);
    assert s2.restores[|s.restores|] == Restore(s.lastTeamToBuzz.value, s.clock + c.retryTimerDuration as real);
  }

  /** Crediting both fields during an answer, then drawing, reveals the track
      and resumes playback without any further key, the answering team having
      gained two points. */
  lemma BothFoundResumes(c: Config, s: RoundState)
    requires Inv(c, s) && s.step == Answering && !s.artistRevealed && !s.titleRevealed
    ensures var k := s.lastTeamToBuzz.value;
      var r := Run(c, s, [KeyPress(TitleKey), KeyPress(ArtistKey), Draw]);
      r.step == Revealed && r.player == Some(Resumed(c, s.player.value)) &&
      r.teams[k].score == s.teams[k].score + 2 &&
      r.titleFoundBy == Some(k) && r.artistFoundBy == Some(k)
  {
    Run3(c, s, KeyPress(TitleKey), KeyPress(ArtistKey), Draw);
    var s1 := CreditStep(c, s, TitleField);
    assert Apply(c, s, KeyPress(TitleKey)) == s1;
    var s2 := CreditStep(c, s1, ArtistField);
    assert Apply(c, s1, KeyPress(ArtistKey)) == s2;
  }

  /** x to the n-th power. */
  function Pow(x: real, n: nat): real {
    if n == 0 then 1.0 else x * Pow(x, n - 1)
  }

  lemma {:induction false} PowBounds(f: real, n: nat)
    requires 0.0 <= f <= 1.0
    ensures 0.0 <= Pow(f, n) <= 1.0
  {
    if n > 0 {
      PowBounds(f, n - 1);
      assert f * Pow(f, n - 1) <= 1.0 * Pow(f, n - 1);
    }
  }

  /** A Bernoulli-style bound: f^n (f + n (1 - f)) <= f for f in [0, 1]. */
  lemma {:induction false} PowDecay(f: real, n: nat)
    requires 0.0 <= f <= 1.0
    ensures Pow(f, n) * (f + n as real * (1.0 - f)) <= f
  {
    if n > 0 {
      var p := Pow(f, n - 1);
      var m := (n - 1) as real;
      PowDecay(f, n - 1);
      PowBounds(f, n - 1);
      assert p * (f + m * (1.0 - f)) <= f;
      calc {
        Pow(f, n) * (f + n as real * (1.0 - f));
        f * p * (f + m * (1.0 - f) + (1.0 - f));
        f * (p * (f + m * (1.0 - f))) + f * p * (1.0 - f);
      <= { assert f * (p * (f + m * (1.0 - f))) <= f * f; }
        f * f + f * p * (1.0 - f);
      <= { var g := 1.0 - f;
           assert 0.0 <= f * g by { assert 0.0 <= g; }
           assert p * (f * (1.0 - f)) <= 1.0 * (f * (1.0 - f));
         }
        f * f + f * (1.0 - f);
        f;
      }
    }
  }

  /** With a factor in [0, 1), repeated scaling takes any volume to the threshold. */
  lemma FadeBound(v: real, f: real)
    requires 0.0 <= f < 1.0
    ensures exists n: nat :: v * Pow(f, n) <= FadeThreshold
  {
    if v <= FadeThreshold {
      assert v * Pow(f, 0) <= FadeThreshold;
    } else {
      var d := 1.0 - f;
      var x := 100.0 * v / d;
      assert x > 0.0;
      var n: nat := x.Floor + 1;
      assert n as real > x;
      assert n as real * d > 100.0 * v by {
        assert x * d == 100.0 * v;
        assert (n as real - x) * d > 0.0;
      }
      var p := Pow(f, n);
      PowDecay(f, n);
      PowBounds(f, n);
      assert p * (n as real * d) <= 1.0 by {
        assert p * f + p * (n as real * d) <= f;
        assert p * f >= 0.0;
      }
      assert v * p <= FadeThreshold by {
        assert p * (100.0 * v) <= p * (n as real * d);
      }
    }
  }

  /** If `n` more scalings bring the volume to the threshold, `n + 1` calls of
      the fade-out end the round. */
  lemma {:induction false} FadeRun(c: Config, s: RoundState, n: nat)
    requires Inv(c, s) && s.fadeJobs > 0
    requires s.player.value.volume * Pow(c.fadeoutFactor, n) <= FadeThreshold
    ensures Run(c, s, Repeat(FadeCall, n + 1)).step == Idle
    decreases n
  {
    var s1 := Apply(c, s, FadeCall);
    assert Repeat(FadeCall, n + 1)[1..] == Repeat(FadeCall, n);
    if s.player.value.volume <= FadeThreshold {
      DisabledCallsInert(c, s1, FadeCall, n);
    } else {
      var v := s.player.value.volume;
      var f := c.fadeoutFactor;
      assert n > 0;
      assert s1.player.value.volume == v * f;
      assert (v * f) * Pow(f, n - 1) == v * Pow(f, n);
      FadeRun(c, s1, n - 1);
    }
  }

  /** With a fade-out factor in [0, 1), a scheduled fade-out ends the round
      after finitely many calls: the step is idle again, every team may buzz,
      nothing is revealed and the timer is full. */
  lemma FadeTerminates(c: Config, s: RoundState)
    requires Inv(c, s) && s.fadeJobs > 0 && 0.0 <= c.fadeoutFactor < 1.0
    ensures exists n: nat ::
      var r := Run(c, s, Repeat(FadeCall, n));
      r.step == Idle && r.fadeJobs == 0 && r.timer == 1.0 &&
      !r.artistRevealed && !r.titleRevealed &&
      forall i :: 0 <= i < |r.teams| ==> r.teams[i].canBuzz
  {
    FadeBound(s.player.value.volume, c.fadeoutFactor);
    var n: nat :| s.player.value.volume * Pow(c.fadeoutFactor, n) <= FadeThreshold;
    FadeRun(c, s, n);
    var r := Run(c, s, Repeat(FadeCall, n + 1));
    assert r.step == Idle && r.fadeJobs == 0;
  }

  /** The countdown, called every `dt` seconds, never forces a transition and
      reaches exactly zero, unscheduling itself, once the calls cover the time
      left. */
  lemma {:induction false} CountdownReachesZero(c: Config, s: RoundState, dt: Seconds, n: nat)
    requires Inv(c, s) && s.countdownJobs == 1 && dt > 0.0
    requires n as real * (dt / c.answerTimerDuration as real) >= s.timer
    ensures var r := Run(c, s, Repeat(CountdownCall(dt), n));
      r.timer == 0.0 && r.countdownJobs == 0 && r.step == s.step
    decreases n
  {
    var unit := dt / c.answerTimerDuration as real;
    assert n > 0;
    var s1 := Apply(c, s, CountdownCall(dt));
    assert Repeat(CountdownCall(dt), n)[1..] == Repeat(CountdownCall(dt), n - 1);
    if s.timer > unit {
      assert s1.timer == s.timer - unit && s1.countdownJobs == 1;
      assert (n - 1) as real * unit == n as real * unit - unit;
      CountdownReachesZero(c, s1, dt, n - 1);
    } else {
      DisabledCallsInert(c, s1, CountdownCall(dt), n - 1);
    }
  }
}
