/**
 * The round controller as the source runs it: the globals the callbacks
 * overwrite are fields of one object, the teams are records in an array that
 * the callbacks update in place, and each callback is a method. Every method
 * is proved to leave the object in the state the matching function of the
 * Round module computes, so the properties proved about those functions hold
 * of the object.
 */
module Control {
  import opened Game
  import opened Round

  class Controller {
    const config: Config
    /** The roster; a team is identified by its index. */
    const teams: array<Team>

    var step: Step
    var trackNumber: int
    var player: Option<Player>
    var lastTeamToBuzz: Option<nat>
    var artistRevealed: bool
    var titleRevealed: bool
    var artistFoundBy: Option<nat>
    var titleFoundBy: Option<nat>
    var timer: real
    var timerRunning: bool
    var countdownJobs: nat
    var fadeJobs: nat
    var pitch: int
    var leaderboardVisible: bool
    var clock: real
    var restores: seq<Restore>

    /** The object as a value of the state machine. */
    function State(): RoundState
      reads this, teams
    {
      RoundState(step, trackNumber, player, teams[..], lastTeamToBuzz,
                 artistRevealed, titleRevealed, artistFoundBy, titleFoundBy,
                 timer, timerRunning, countdownJobs, fadeJobs, pitch,
                 leaderboardVisible, clock, restores)
    }

    ghost predicate Valid()
      reads this, teams
    {
      Inv(config, State())
    }

    /** The globals as `play` sets them up, with the roster already read. */
    constructor (c: Config, roster: seq<Team>)
      requires |c.tracks| > 0 && c.answerTimerDuration > 0
      requires UniqueIds(roster)
      requires forall i :: 0 <= i < |roster| ==> roster[i].canBuzz
      ensures State() == Initial(c, roster)
      ensures Valid()
      ensures fresh(teams)
    {
      config := c;
      teams := new Team[|roster|](i requires 0 <= i < |roster| => roster[i]);
      step := Idle;
      trackNumber := 0;
      player := None;
      lastTeamToBuzz := None;
      artistRevealed := false;
      titleRevealed := false;
      artistFoundBy := None;
      titleFoundBy := None;
      timer := 1.0;
      timerRunning := false;
      countdownJobs := 0;
      fadeJobs := 0;
      pitch := InitialPitch;
      leaderboardVisible := false;
      clock := 0.0;
      restores := [];
      new;
      assert teams[..] == roster;
    }

    /** Every team may buzz again: the loop over the roster that both the buzz
        handler (alternating mode) and the fade-out reset perform. */
    method UnlockAll()
      modifies teams
      ensures teams[..] == Unlocked(old(teams[..]))
    {
      var i := 0;
      while i < teams.Length
        invariant 0 <= i <= teams.Length
        invariant forall j :: 0 <= j < i ==> teams[j] == old(teams[j]).(canBuzz := true)
        invariant forall j :: i <= j < teams.Length ==> teams[j] == old(teams[j])
      {
        teams[i] := teams[i].(canBuzz := true);
        i := i + 1;
      }
    }

    /** The first team, in roster order, whose number is `n`. */
    method TeamWithNumber(n: int) returns (k: Option<nat>)
      ensures k == FindByNumber(teams[..], n)
    {
      var i := 0;
      while i < teams.Length
        invariant 0 <= i <= teams.Length
        invariant forall j :: 0 <= j < i ==> teams[j].number != n
      {
        if teams[i].number == n {
          return Some(i);
        }
        i := i + 1;
      }
      return None;
    }

    /** `reset_answer_timer`. */
    method ResetAnswerTimer()
      modifies this
      ensures State() == Round.ResetAnswerTimer(old(State()))
    {
      timer := 1.0;
      timerRunning := false;
      countdownJobs := 0;
    }

    /** `reset_turn`: one more fade-out job, whether or not one is running. */
    method ResetTurn()
      modifies this
      ensures State() == Round.ResetTurn(old(State()))
    {
      fadeJobs := fadeJobs + 1;
    }

    /** `on_joybutton_press`. */
    method OnJoybuttonPress(button: int)
      requires Valid()
      modifies this, teams
      ensures State() == BuzzStep(config, old(State()), button)
      ensures Valid()
    {
      if step != Playing {
        return;
      }
      var found := FindTeam(teams[..], button);
      if found.None? {
        return;
      }
      var k := found.value;
      if !teams[k].canBuzz {
        return;
      }
      TakeBuzz(k);
    }

    /** The accepted buzz of the team at `k`. */
    method TakeBuzz(k: nat)
      requires Valid() && step == Playing && k < teams.Length
      modifies this, teams
      ensures State() == Accept(config, old(State()), k)
    {
      lastTeamToBuzz := Some(k);
      step := Answering;
      var p := player.value;
      player := Some(if config.pauseDuringAnswers then p.(paused := true) else p.(volume := AnswerVolume));
      LockOut(k);
    }

    /** Eligibility after the team at `k` buzzed, as the retry mode wants it. */
    method LockOut(k: nat)
      requires k < teams.Length
      modifies teams
      ensures teams[..] == LockedOut(config.retryMode, old(teams[..]), k)
    {
      if config.retryMode == Alternating {
        UnlockAll();
      }
      teams[k] := teams[k].(canBuzz := false);
    }

    /** ENTER. */
    method OnEnter(ctrl: bool)
      requires Valid()
      modifies this
      ensures State() == EnterStep(config, old(State()), ctrl)
      ensures Valid()
    {
      match step
      case Idle =>
        StartTrack();
      case Playing =>
        if ctrl {
          ResetTurn();
        } else {
          RevealTrack();
        }
      case Answering =>
        ResumeTrack();
      case Revealed =>
        ResetTurn();
    }

    method StartTrack()
      requires Valid() && step == Idle
      modifies this
      ensures State() == Start(config, old(State()))
    {
      step := Playing;
      player := Some(Player(1.0, false, pitch));
    }

    method RevealTrack()
      requires Valid() && step == Playing
      modifies this
      ensures State() == Reveal(config, old(State()))
    {
      step := Revealed;
      artistRevealed := true;
      titleRevealed := true;
    }

    method ResumeTrack()
      requires Valid() && step == Answering
      modifies this
      ensures State() == Resume(config, old(State()))
    {
      step := Playing;
      player := Some(Resumed(config, player.value));
      if config.retryMode == Timed {
        restores := restores + [Restore(lastTeamToBuzz.value, clock + config.retryTimerDuration as real)];
      }
      ResetAnswerTimer();
    }

    /** T or A. */
    method Credit(f: Field)
      requires Valid()
      modifies this, teams
      ensures State() == CreditStep(config, old(State()), f)
      ensures Valid()
    {
      var revealed := if f == TitleField then titleRevealed else artistRevealed;
      if step == Answering && !revealed {
        var k := lastTeamToBuzz.value;
        teams[k] := teams[k].(score := teams[k].score + 1);
        if f == TitleField {
          titleRevealed := true;
          titleFoundBy := Some(k);
        } else {
          artistRevealed := true;
          artistFoundBy := Some(k);
        }
      }
    }

    /** A number key: the first team with that number gains or loses a point. */
    method Number(n: int, ctrl: bool)
      requires Valid()
      modifies teams
      ensures State() == NumberStep(config, old(State()), n, ctrl)
      ensures Valid()
    {
      if 1 <= n <= 9 {
        var k := TeamWithNumber(n);
        if k.Some? {
          var t := teams[k.value];
          teams[k.value] := t.(score := t.score + if ctrl then -1 else 1);
          assert teams[..] == AddPoints(old(teams[..]), k.value, if ctrl then -1 else 1);
        }
      }
    }

    /** `on_key_press`. */
    method OnKeyPress(key: Key)
      requires Valid()
      modifies this, teams
      ensures State() == KeyStep(config, old(State()), key)
      ensures Valid()
    {
      match key
      case Enter(ctrl) => OnEnter(ctrl);
      case TitleKey => Credit(TitleField);
      case ArtistKey => Credit(ArtistField);
      case LeaderboardKey => leaderboardVisible := !leaderboardVisible;
      case NumberKey(n, ctrl) => Number(n, ctrl);
      case OtherKey =>
    }

    /** `on_text`. */
    method OnText(text: string)
      requires Valid()
      modifies this
      ensures State() == TextStep(config, old(State()), text)
      ensures Valid()
    {
      if text == "." {
        pitch := pitch + 1;
      } else if text == "," {
        if pitch <= 1 {
          return;
        }
        pitch := pitch - 1;
      } else {
        return;
      }
      if player.Some? {
        player := Some(player.value.(pitch := pitch));
      }
    }

    /** `on_text_motion`. */
    method OnTextMotion(m: Motion)
      requires Valid()
      modifies this
      ensures State() == MoveStep(config, old(State()), m)
      ensures Valid()
    {
      if m == Up && step == Idle && trackNumber > 0 {
        trackNumber := trackNumber - 1;
      } else if m == Down && step == Idle && trackNumber < |config.tracks| - 1 {
        trackNumber := trackNumber + 1;
      }
    }

    /** The state changes of the control window's `on_draw`. */
    method OnDraw()
      requires Valid()
      modifies this
      ensures State() == DrawStep(config, old(State()))
      ensures Valid()
    {
      if step == Answering && !timerRunning {
        timerRunning := true;
        countdownJobs := countdownJobs + 1;
      }
      if titleRevealed && artistRevealed && step == Answering {
        step := Revealed;
        player := Some(Resumed(config, player.value));
      }
    }

    /** `make_quieter`, called by its scheduled job. */
    method MakeQuieter()
      requires Valid() && fadeJobs > 0
      modifies this, teams
      ensures State() == FadeStep(config, old(State()))
      ensures Valid()
    {
      var p := player.value;
      if p.volume > FadeThreshold {
        player := Some(p.(volume := p.volume * config.fadeoutFactor));
        assert player.value == Quieter(p, config.fadeoutFactor);
        return;
      }
      EndRound();
    }

    /** The second half of `make_quieter`: the round ends. */
    method EndRound()
      requires Valid()
      modifies this, teams
      ensures State() == EndOfRound(config, old(State()))
    {
      StopTrack();
      UnlockAll();
      ForgetAnswers();
      ResetAnswerTimer();
    }

    /** The track is stopped and its fade-out job unscheduled. */
    method StopTrack()
      modifies this
      ensures State() == old(State()).(player := None, step := Idle, fadeJobs := 0)
    {
      player := None;
      step := Idle;
      fadeJobs := 0;
    }

    /** Nothing is revealed or credited any more. */
    method ForgetAnswers()
      modifies this
      ensures State() == old(State()).(artistRevealed := false, titleRevealed := false,
                                       artistFoundBy := None, titleFoundBy := None)
    {
      artistRevealed := false;
      titleRevealed := false;
      artistFoundBy := None;
      titleFoundBy := None;
    }

    /** `reduce_answer_timer`, called by its scheduled job `dt` seconds after
        the previous call. */
    method ReduceAnswerTimer(dt: Seconds)
      requires Valid() && countdownJobs > 0
      modifies this
      ensures State() == CountdownStep(config, old(State()), dt)
      ensures Valid()
    {
      var unit := dt / config.answerTimerDuration as real;
      if timer > unit {
        timer := timer - unit;
        return;
      }
      timer := 0.0;
      countdownJobs := 0;
    }

    /** `restore_buzzer`: the pending restoration at `index` fires. */
    method RestoreBuzzer(index: nat)
      requires Valid() && index < |restores|
      modifies this, teams
      ensures State() == RestoreStep(config, old(State()), index)
      ensures Valid()
    {
      var k := restores[index].team;
      assert restores[index] in restores;
      teams[k] := teams[k].(canBuzz := true);
      restores := restores[..index] + restores[index + 1..];
    }

    /** The pyglet event loop delivering one event; a job that is not
        scheduled, or not yet due, is not called. */
    method Handle(e: Event)
      requires Valid()
      modifies this, teams
      ensures State() == Apply(config, old(State()), e)
      ensures Valid()
    {
      match e
      case Buzz(button) => OnJoybuttonPress(button);
      case KeyPress(key) => OnKeyPress(key);
      case Text(text) => OnText(text);
      case Move(m) => OnTextMotion(m);
      case Draw => OnDraw();
      case FadeCall =>
        if fadeJobs > 0 {
          MakeQuieter();
        }
      case CountdownCall(dt) =>
        if countdownJobs > 0 {
          ReduceAnswerTimer(dt);
        }
      case RestoreCall(i) =>
        if i < |restores| && restores[i].due <= clock {
          RestoreBuzzer(i);
        }
      case Elapse(dt) =>
        clock := clock + dt;
    }

    /** `pg.app.run()`: the events, delivered in order. */
    method HandleAll(es: seq<Event>)
      requires Valid()
      modifies this, teams
      ensures State() == Run(config, old(State()), es)
      ensures Valid()
    {
      ghost var s := State();
      var i := 0;
      while i < |es|
        invariant 0 <= i <= |es|
        invariant Valid() && State() == Run(config, s, es[..i])
      {
        RunSnoc(config, s, es[..i], es[i]);
        assert es[..i + 1] == es[..i] + [es[i]];
        Handle(es[i]);
        i := i + 1;
      }
      assert es[..i] == es;
    }
  }
}
