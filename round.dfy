/**
 * The round controller of blind.py as a pure state machine.
 *
 * `RoundState` holds what the source keeps in module-level globals (step,
 * track number, player, reveal flags, timer, pitch, ...) together with the
 * roster, and one function per callback computes the state after it. The
 * pyglet clock is made explicit: `fadeJobs` counts the scheduled instances of
 * the fade-out callback, `countdownJobs` those of the countdown callback,
 * `restores` the pending one-shot buzzer restorations with their deadlines on
 * `clock`. The class in controller.dfy implements these functions in place.
 */
module Round {
  import opened Game

  datatype Step = Idle | Playing | Answering | Revealed

  datatype RetryMode = Strict | Alternating | Timed

  /** A non-negative amount of time, in seconds. */
  type Seconds = r: real | 0.0 <= r

  /** The audio player: its volume, whether it is paused, its pitch in tenths. */
  datatype Player = Player(volume: real, paused: bool, pitch: int)

  /** A pending `restore_buzzer` for the team at index `team`, due at `due`. */
  datatype Restore = Restore(team: nat, due: real)

  /** What is fixed for the session: the playlist and the command-line options.
      Both durations are whole seconds, as the command line parses them. */
  datatype Config = Config(
    tracks: seq<Track>,
    retryMode: RetryMode,
    pauseDuringAnswers: bool,
    fadeoutFactor: real,
    answerTimerDuration: int,
    retryTimerDuration: int)

  datatype RoundState = RoundState(
    step: Step,
    trackNumber: int,
    player: Option<Player>,
    teams: seq<Team>,
    lastTeamToBuzz: Option<nat>,
    artistRevealed: bool,
    titleRevealed: bool,
    artistFoundBy: Option<nat>,
    titleFoundBy: Option<nat>,
    timer: real,
    timerRunning: bool,
    countdownJobs: nat,
    fadeJobs: nat,
    pitch: int,
    leaderboardVisible: bool,
    clock: real,
    restores: seq<Restore>)

  /** A key press; `ctrl` stands for the modifier mask being exactly Ctrl. */
  datatype Key =
    | Enter(ctrl: bool)
    | TitleKey
    | ArtistKey
    | LeaderboardKey
    | NumberKey(n: int, ctrl: bool)
    | OtherKey

  datatype Motion = Up | Down | Left | Right

  datatype Field = ArtistField | TitleField

  /** Every event the controller reacts to. The last four are the pyglet clock
      calling a scheduled callback, or the clock advancing. */
  datatype Event =
    | Buzz(button: int)
    | KeyPress(key: Key)
    | Text(text: string)
    | Move(motion: Motion)
    | Draw
    | FadeCall
    | CountdownCall(dt: Seconds)
    | RestoreCall(index: nat)
    | Elapse(dt: Seconds)

  /** Below this volume the fade-out stops the track. */
  const FadeThreshold: real := 0.01
  /** The volume a track is lowered to while a team answers. */
  const AnswerVolume: real := 0.1
  /** The initial pitch, 1.0, in tenths. */
  const InitialPitch: int := 10

  /** The states the controller can be in: what the callbacks rely on and keep. */
  ghost predicate Inv(c: Config, s: RoundState) {
    |c.tracks| > 0 && c.answerTimerDuration > 0 &&
    0 <= s.trackNumber < |c.tracks| &&
    UniqueIds(s.teams) &&
    (s.step == Idle <==> s.player.None?) &&
    (s.player.Some? ==> s.player.value.pitch == s.pitch) &&
    s.pitch >= 1 &&
    0.0 <= s.timer <= 1.0 &&
    (!s.timerRunning ==> s.timer == 1.0 && s.countdownJobs == 0) &&
    s.countdownJobs <= 1 &&
    (s.countdownJobs == 1 ==> s.timer > 0.0) &&
    (s.fadeJobs > 0 ==> s.step != Idle) &&
    (s.step == Idle ==> !s.timerRunning && !s.artistRevealed && !s.titleRevealed) &&
    (s.step == Idle ==> forall i :: 0 <= i < |s.teams| ==> s.teams[i].canBuzz) &&
    (s.step == Answering ==> s.lastTeamToBuzz.Some?) &&
    (s.lastTeamToBuzz.Some? ==> s.lastTeamToBuzz.value < |s.teams|) &&
    (s.artistFoundBy.Some? ==> s.artistRevealed && s.artistFoundBy.value < |s.teams|) &&
    (s.titleFoundBy.Some? ==> s.titleRevealed && s.titleFoundBy.value < |s.teams|) &&
    (c.retryMode != Timed ==> s.restores == []) &&
    (forall r :: r in s.restores ==> r.team < |s.teams|)
  }

  /** Only scores and buzzer eligibility ever change in the roster. */
  ghost predicate SameRoster(ts: seq<Team>, us: seq<Team>) {
    |us| == |ts| &&
    forall i :: 0 <= i < |ts| ==>
      us[i].name == ts[i].name && us[i].id == ts[i].id && us[i].number == ts[i].number
  }

  /** Replacing the roster by one that differs only in scores and, outside the
      idle step, in eligibility keeps the invariant. */
  lemma RosterChangeKeepsInv(c: Config, s: RoundState, ts: seq<Team>)
    requires Inv(c, s) && SameRoster(s.teams, ts)
    requires s.step == Idle ==> forall i :: 0 <= i < |ts| ==> ts[i].canBuzz
    ensures Inv(c, s.(teams := ts))
  {
    assert UniqueIds(ts) by {
      forall i, j | 0 <= i < j < |ts| ensures ts[i].id != ts[j].id {
        assert ts[i].id == s.teams[i].id && ts[j].id == s.teams[j].id;
      }
    }
  }

  /** The state set up before the windows open. */
  function Initial(c: Config, roster: seq<Team>): (s: RoundState)
    requires |c.tracks| > 0 && c.answerTimerDuration > 0
    requires UniqueIds(roster)
    requires forall i :: 0 <= i < |roster| ==> roster[i].canBuzz
    ensures Inv(c, s) && s.step == Idle && s.teams == roster
    ensures s.trackNumber == 0 && s.timer == 1.0 && s.pitch == InitialPitch
  {
    RoundState(Idle, 0, None, roster, None, false, false, None, None,
               1.0, false, 0, 0, InitialPitch, false, 0.0, [])
  }

  /** Every team may buzz again. */
  function Unlocked(ts: seq<Team>): (us: seq<Team>)
    ensures |us| == |ts|
    ensures forall i :: 0 <= i < |ts| ==> us[i] == ts[i].(canBuzz := true)
  {
    seq(|ts|, i requires 0 <= i < |ts| => ts[i].(canBuzz := true))
  }

  /** `reset_answer_timer`: the timer is full again and its job unscheduled. */
  function ResetAnswerTimer(s: RoundState): (r: RoundState)
    ensures r.timer == 1.0 && !r.timerRunning && r.countdownJobs == 0
    ensures r == s.(timer := r.timer, timerRunning := r.timerRunning, countdownJobs := r.countdownJobs)
  {
    s.(timer := 1.0, timerRunning := false, countdownJobs := 0)
  }

  /** Resetting the answer timer keeps the invariant, and a second reset
      changes nothing. */
  lemma ResetAnswerTimerKeepsInv(c: Config, s: RoundState)
    requires Inv(c, s)
    ensures Inv(c, ResetAnswerTimer(s))
    ensures ResetAnswerTimer(ResetAnswerTimer(s)) == ResetAnswerTimer(s)
  {
  }

  /** `reset_turn`: one more instance of the fade-out callback is scheduled. */
  function ResetTurn(s: RoundState): (r: RoundState)
    ensures r.fadeJobs == s.fadeJobs + 1
    ensures r == s.(fadeJobs := r.fadeJobs)
  {
    s.(fadeJobs := s.fadeJobs + 1)
  }

  /** A fade-out job may be scheduled while a track is loaded, never when
      idle: there the invariant forbids pending fade-out jobs. */
  lemma ResetTurnKeepsInv(c: Config, s: RoundState)
    requires Inv(c, s)
    ensures Inv(c, ResetTurn(s)) <==> s.step != Idle
  {
  }

  /** The player after playback is resumed: unpaused, or back to full volume. */
  function Resumed(c: Config, p: Player): (q: Player)
    ensures q.pitch == p.pitch
    ensures if c.pauseDuringAnswers then !q.paused && q.volume == p.volume
            else q.volume == 1.0 && q.paused == p.paused
  {
    if c.pauseDuringAnswers then p.(paused := false) else p.(volume := 1.0)
  }

  /** The team index whose buzz is taken, if any: only while playing, only from a
      known button, only if that team may buzz. */
  function Buzzer(s: RoundState, button: int): (k: Option<nat>)
    ensures k.Some? <==> s.step == Playing && FindTeam(s.teams, button).Some? &&
                         s.teams[FindTeam(s.teams, button).value].canBuzz
    ensures k.Some? ==> k.value < |s.teams| && s.teams[k.value].id == button
  {
    if s.step != Playing then None
    else match FindTeam(s.teams, button)
      case None => None
      case Some(k) => if s.teams[k].canBuzz then Some(k) else None
  }

  /** Eligibility after the team at `k` buzzed: in alternating mode every team
      may buzz again first; then the buzzing team is locked out. */
  function LockedOut(mode: RetryMode, ts: seq<Team>, k: nat): (us: seq<Team>)
    requires k < |ts|
    ensures |us| == |ts| && us[k] == ts[k].(canBuzz := false)
    ensures forall i :: 0 <= i < |ts| && i != k ==>
      us[i] == ts[i].(canBuzz := mode == Alternating || ts[i].canBuzz)
  {
    var eligible := if mode == Alternating then Unlocked(ts) else ts;
    eligible[k := eligible[k].(canBuzz := false)]
  }

  /** The buzz of the team at `k` is taken: that team answers, the track is
      paused or lowered, and eligibility follows the retry mode. */
  function Accept(c: Config, s: RoundState, k: nat): (r: RoundState)
    requires Inv(c, s) && s.step == Playing && k < |s.teams|
    ensures Inv(c, r) && SameRoster(s.teams, r.teams)
    ensures r.step == Answering && r.lastTeamToBuzz == Some(k)
    ensures r.teams == LockedOut(c.retryMode, s.teams, k)
    ensures r.player == Some(if c.pauseDuringAnswers then s.player.value.(paused := true)
                             else s.player.value.(volume := AnswerVolume))
    ensures r == s.(step := r.step, lastTeamToBuzz := r.lastTeamToBuzz, player := r.player, teams := r.teams)
  {
    var p := s.player.value;
    s.(step := Answering,
       lastTeamToBuzz := Some(k),
       player := Some(if c.pauseDuringAnswers then p.(paused := true) else p.(volume := AnswerVolume)),
       teams := LockedOut(c.retryMode, s.teams, k))
  }

  /** `on_joybutton_press`: a buzz that is not taken changes nothing. */
  function BuzzStep(c: Config, s: RoundState, button: int): (r: RoundState)
    requires Inv(c, s)
    ensures Inv(c, r) && SameRoster(s.teams, r.teams)
    ensures Buzzer(s, button).None? ==> r == s
    ensures Buzzer(s, button).Some? ==> r == Accept(c, s, Buzzer(s, button).value)
  {
    match Buzzer(s, button)
    case None => s
    case Some(k) => Accept(c, s, k)
  }

  /** ENTER while idle: the selected track starts at full volume and the
      current pitch. */
  function Start(c: Config, s: RoundState): (r: RoundState)
    requires Inv(c, s) && s.step == Idle
    ensures Inv(c, r)
    ensures r.step == Playing && r.player == Some(Player(1.0, false, s.pitch))
    ensures r == s.(step := r.step, player := r.player)
  {
    s.(step := Playing, player := Some(Player(1.0, false, s.pitch)))
  }

  /** ENTER while playing: both fields are revealed, nobody is credited. */
  function Reveal(c: Config, s: RoundState): (r: RoundState)
    requires Inv(c, s) && s.step == Playing
    ensures Inv(c, r)
    ensures r.step == Revealed && r.artistRevealed && r.titleRevealed
    ensures r.artistFoundBy == s.artistFoundBy && r.titleFoundBy == s.titleFoundBy
    ensures r == s.(step := r.step, artistRevealed := true, titleRevealed := true)
  {
    s.(step := Revealed, artistRevealed := true, titleRevealed := true)
  }

  /** ENTER during an answer: play resumes, the answer timer is reset and, in
      timer mode, the answering team's restoration is scheduled. */
  function Resume(c: Config, s: RoundState): (r: RoundState)
    requires Inv(c, s) && s.step == Answering
    ensures Inv(c, r)
    ensures r.step == Playing && r.player == Some(Resumed(c, s.player.value))
    ensures r.timer == 1.0 && !r.timerRunning && r.countdownJobs == 0
    ensures r.restores == s.restores +
      (if c.retryMode == Timed
       then [Restore(s.lastTeamToBuzz.value, s.clock + c.retryTimerDuration as real)]
       else [])
    ensures r == s.(step := r.step, player := r.player, restores := r.restores,
                    timer := 1.0, timerRunning := false, countdownJobs := 0)
  {
    var restores :=
      if c.retryMode == Timed
      then s.restores + [Restore(s.lastTeamToBuzz.value, s.clock + c.retryTimerDuration as real)]
      else s.restores;
    ResetAnswerTimer(s.(step := Playing, player := Some(Resumed(c, s.player.value)), restores := restores))
  }

  /** ENTER: start the track, reveal it, resume after an answer, or (with Ctrl
      while playing, or once revealed) schedule one more fade-out job. */
  function EnterStep(c: Config, s: RoundState, ctrl: bool): (r: RoundState)
    requires Inv(c, s)
    ensures Inv(c, r) && r.teams == s.teams && r.pitch == s.pitch
  {
    match s.step
    case Idle => Start(c, s)
    case Playing => if ctrl then ResetTurn(s) else Reveal(c, s)
    case Answering => Resume(c, s)
    case Revealed => ResetTurn(s)
  }

  /** T or A: the answering team is credited with the field, once. */
  function CreditStep(c: Config, s: RoundState, f: Field): (r: RoundState)
    requires Inv(c, s)
    ensures Inv(c, r) && SameRoster(s.teams, r.teams)
    ensures var revealed := if f == TitleField then s.titleRevealed else s.artistRevealed;
            !(s.step == Answering && !revealed) ==> r == s
    ensures var revealed := if f == TitleField then s.titleRevealed else s.artistRevealed;
            s.step == Answering && !revealed ==>
      var k := s.lastTeamToBuzz.value;
      r.teams == AddPoints(s.teams, k, 1) &&
      (if f == TitleField
       then r == s.(teams := r.teams, titleRevealed := true, titleFoundBy := Some(k))
       else r == s.(teams := r.teams, artistRevealed := true, artistFoundBy := Some(k)))
  {
    var revealed := if f == TitleField then s.titleRevealed else s.artistRevealed;
    if s.step == Answering && !revealed then
      var k := s.lastTeamToBuzz.value;
      var teams := AddPoints(s.teams, k, 1);
      if f == TitleField then s.(teams := teams, titleRevealed := true, titleFoundBy := Some(k))
      else s.(teams := teams, artistRevealed := true, artistFoundBy := Some(k))
    else s
  }

  /** A number key 1-9: manual +1 (or -1 with Ctrl) for the team with that number. */
  function NumberStep(c: Config, s: RoundState, n: int, ctrl: bool): (r: RoundState)
    requires Inv(c, s)
    ensures Inv(c, r) && SameRoster(s.teams, r.teams)
    ensures r == s.(teams := r.teams)
    ensures !(1 <= n <= 9 && FindByNumber(s.teams, n).Some?) ==> r.teams == s.teams
    ensures 1 <= n <= 9 && FindByNumber(s.teams, n).Some? ==>
      r.teams == AddPoints(s.teams, FindByNumber(s.teams, n).value, if ctrl then -1 else 1)
  {
    if 1 <= n <= 9 then
      match FindByNumber(s.teams, n)
      case None => s
      case Some(k) =>
        var teams := AddPoints(s.teams, k, if ctrl then -1 else 1);
        RosterChangeKeepsInv(c, s, teams);
        s.(teams := teams)
    else s
  }

  /** `on_key_press`. */
  function KeyStep(c: Config, s: RoundState, key: Key): (r: RoundState)
    requires Inv(c, s)
    ensures Inv(c, r) && SameRoster(s.teams, r.teams)
  {
    match key
    case Enter(ctrl) => EnterStep(c, s, ctrl)
    case TitleKey => CreditStep(c, s, TitleField)
    case ArtistKey => CreditStep(c, s, ArtistField)
    case LeaderboardKey => s.(leaderboardVisible := !s.leaderboardVisible)
    case NumberKey(n, ctrl) => NumberStep(c, s, n, ctrl)
    case OtherKey => s
  }

  /** `on_text`: "." raises the pitch by 0.1, "," lowers it by 0.1 unless it is
      0.1 already; an active player follows. */
  function TextStep(c: Config, s: RoundState, text: string): (r: RoundState)
    requires Inv(c, s)
    ensures Inv(c, r)
    ensures r == s.(pitch := r.pitch, player := r.player)
    ensures r.pitch == if text == "." then s.pitch + 1
                       else if text == "," && s.pitch > 1 then s.pitch - 1
                       else s.pitch
    ensures r.player.Some? <==> s.player.Some?
    ensures r.player.Some? ==> r.player.value == s.player.value.(pitch := r.pitch)
  {
    var pitch :=
      if text == "." then s.pitch + 1
      else if text == "," && s.pitch > 1 then s.pitch - 1
      else s.pitch;
    match s.player
    case None => s.(pitch := pitch)
    case Some(p) => s.(pitch := pitch, player := Some(p.(pitch := pitch)))
  }

  /** `on_text_motion`: up and down select a track while idle; left and right
      seek in the playing track, which is not modelled. */
  function MoveStep(c: Config, s: RoundState, m: Motion): (r: RoundState)
    requires Inv(c, s)
    ensures Inv(c, r)
    ensures r == s.(trackNumber := r.trackNumber)
    ensures r.trackNumber != s.trackNumber ==> s.step == Idle
    ensures r.trackNumber == s.trackNumber - 1 || r.trackNumber == s.trackNumber || r.trackNumber == s.trackNumber + 1
    ensures m == Up ==> r.trackNumber == if s.step == Idle && s.trackNumber > 0 then s.trackNumber - 1 else s.trackNumber
    ensures m == Down ==> r.trackNumber == if s.step == Idle && s.trackNumber < |c.tracks| - 1 then s.trackNumber + 1 else s.trackNumber
  {
    if m == Up && s.step == Idle && s.trackNumber > 0 then s.(trackNumber := s.trackNumber - 1)
    else if m == Down && s.step == Idle && s.trackNumber < |c.tracks| - 1 then s.(trackNumber := s.trackNumber + 1)
    else s
  }

  /** The two state changes of the control window's `on_draw`: start the
      countdown on entering an answer, and once both fields are revealed during
      an answer, show the cover and resume playback. */
  function DrawStep(c: Config, s: RoundState): (r: RoundState)
    requires Inv(c, s)
    ensures Inv(c, r) && r.teams == s.teams
    ensures s.step != Answering ==> r == s
    ensures s.step == Answering ==> r.timerRunning && r.timer == s.timer
    ensures r.countdownJobs == if s.step == Answering && !s.timerRunning then 1 else s.countdownJobs
    ensures r.step == (if s.step == Answering && s.artistRevealed && s.titleRevealed then Revealed else s.step)
    ensures r.player == (if s.step == Answering && s.artistRevealed && s.titleRevealed
                         then Some(Resumed(c, s.player.value)) else s.player)
    ensures r == s.(timerRunning := r.timerRunning, countdownJobs := r.countdownJobs,
                    step := r.step, player := r.player)
  {
    var s1 :=
      if s.step == Answering && !s.timerRunning
      then s.(timerRunning := true, countdownJobs := s.countdownJobs + 1)
      else s;
    if s1.titleRevealed && s1.artistRevealed && s1.step == Answering
    then s1.(step := Revealed, player := Some(Resumed(c, s1.player.value)))
    else s1
  }

  /** The player after one fade-out step. */
  function Quieter(p: Player, factor: real): (q: Player)
    ensures q.pitch == p.pitch && q.paused == p.paused
    ensures 0.0 <= factor <= 1.0 && 0.0 <= p.volume ==> 0.0 <= q.volume <= p.volume
    ensures 0.0 <= factor < 1.0 && 0.0 < p.volume ==> q.volume < p.volume
  {
    p.(volume := p.volume * factor)
  }

  /** The end of a round, once the fade-out has reached silence: the track is
      stopped, every team may buzz again, nothing is revealed or credited, the
      fade-out job is unscheduled and the answer timer is reset. */
  function EndOfRound(c: Config, s: RoundState): (r: RoundState)
    requires Inv(c, s)
    ensures Inv(c, r) && SameRoster(s.teams, r.teams)
    ensures r.step == Idle && r.player.None? && r.fadeJobs == 0
    ensures forall i :: 0 <= i < |r.teams| ==> r.teams[i] == s.teams[i].(canBuzz := true)
    ensures !r.artistRevealed && !r.titleRevealed && r.artistFoundBy.None? && r.titleFoundBy.None?
    ensures r.timer == 1.0 && !r.timerRunning && r.countdownJobs == 0
    ensures r == s.(step := Idle, player := None, fadeJobs := 0, teams := r.teams,
                    artistRevealed := false, titleRevealed := false,
                    artistFoundBy := None, titleFoundBy := None,
                    timer := 1.0, timerRunning := false, countdownJobs := 0)
  {
    ResetAnswerTimer(s.(player := None, step := Idle, fadeJobs := 0, teams := Unlocked(s.teams),
                        artistRevealed := false, titleRevealed := false,
                        artistFoundBy := None, titleFoundBy := None))
  }

  /** `make_quieter`: one call of a scheduled fade-out job. Above the threshold
      it only scales the volume; otherwise it ends the round. */
  function FadeStep(c: Config, s: RoundState): (r: RoundState)
    requires Inv(c, s) && s.fadeJobs > 0
    ensures Inv(c, r) && SameRoster(s.teams, r.teams)
    ensures s.player.value.volume > FadeThreshold ==>
      r == s.(player := Some(Quieter(s.player.value, c.fadeoutFactor)))
    ensures s.player.value.volume <= FadeThreshold ==> r == EndOfRound(c, s)
  {
    var p := s.player.value;
    if p.volume > FadeThreshold then s.(player := Some(Quieter(p, c.fadeoutFactor)))
    else EndOfRound(c, s)
  }

  /** The timer after one countdown call that saw `dt` seconds elapse. */
  function NextTimer(timer: real, dt: Seconds, duration: int): (t: real)
    requires duration > 0
    ensures 0.0 <= t <= timer || (timer < 0.0 && t == 0.0)
    ensures t == 0.0 || t == timer - dt / duration as real
    ensures t > 0.0 <==> timer > dt / duration as real
  {
    var unit := dt / duration as real;
    if timer > unit then timer - unit else 0.0
  }

  /** `reduce_answer_timer`: one call of the scheduled countdown job. */
  function CountdownStep(c: Config, s: RoundState, dt: Seconds): (r: RoundState)
    requires Inv(c, s) && s.countdownJobs > 0
    ensures Inv(c, r)
    ensures r == s.(timer := r.timer, countdownJobs := r.countdownJobs)
    ensures r.timer == NextTimer(s.timer, dt, c.answerTimerDuration)
    ensures 0.0 <= r.timer <= s.timer
    ensures r.countdownJobs == if r.timer == 0.0 then 0 else s.countdownJobs
  {
    var t := NextTimer(s.timer, dt, c.answerTimerDuration);
    if t > 0.0 then s.(timer := t) else s.(timer := 0.0, countdownJobs := 0)
  }

  /** `restore_buzzer`: the pending restoration at `index` fires. */
  function RestoreStep(c: Config, s: RoundState, index: nat): (r: RoundState)
    requires Inv(c, s) && index < |s.restores|
    ensures Inv(c, r) && SameRoster(s.teams, r.teams)
    ensures var k := s.restores[index].team;
      r.teams == s.teams[k := s.teams[k].(canBuzz := true)] &&
      r.restores == s.restores[..index] + s.restores[index + 1..] &&
      r == s.(teams := r.teams, restores := r.restores)
  {
    var k := s.restores[index].team;
    assert s.restores[index] in s.restores;
    s.(teams := s.teams[k := s.teams[k].(canBuzz := true)],
       restores := s.restores[..index] + s.restores[index + 1..])
  }

  /** Whether the pyglet clock would call anything for this event now. */
  predicate Enabled(s: RoundState, e: Event) {
    match e
    case FadeCall => s.fadeJobs > 0
    case CountdownCall(_) => s.countdownJobs > 0
    case RestoreCall(i) => i < |s.restores| && s.restores[i].due <= s.clock
    case _ => true
  }

  /** One event; a callback that is not scheduled (or not yet due) is not called. */
  function Apply(c: Config, s: RoundState, e: Event): (r: RoundState)
    requires Inv(c, s)
    ensures Inv(c, r) && SameRoster(s.teams, r.teams)
    ensures !Enabled(s, e) ==> r == s
  {
    match e
    case Buzz(button) => BuzzStep(c, s, button)
    case KeyPress(key) => KeyStep(c, s, key)
    case Text(text) => TextStep(c, s, text)
    case Move(m) => MoveStep(c, s, m)
    case Draw => DrawStep(c, s)
    case FadeCall => if s.fadeJobs > 0 then FadeStep(c, s) else s
    case CountdownCall(dt) => if s.countdownJobs > 0 then CountdownStep(c, s, dt) else s
    case RestoreCall(i) =>
      if i < |s.restores| && s.restores[i].due <= s.clock then RestoreStep(c, s, i) else s
    case Elapse(dt) => s.(clock := s.clock + dt)
  }

  /** A sequence of events, applied in arrival order. */
  function Run(c: Config, s: RoundState, es: seq<Event>): (r: RoundState)
    requires Inv(c, s)
    ensures Inv(c, r) && SameRoster(s.teams, r.teams)
    decreases |es|
  {
    if es == [] then s else Run(c, Apply(c, s, es[0]), es[1..])
  }

  /** Running one more event applies it to the state the others reach. */
  lemma {:induction false} RunSnoc(c: Config, s: RoundState, es: seq<Event>, e: Event)
    requires Inv(c, s)
    ensures Run(c, s, es + [e]) == Apply(c, Run(c, s, es), e)
    decreases |es|
  {
    if es == [] {
      assert [e][1..] == [];
    } else {
      assert (es + [e])[1..] == es[1..] + [e];
      RunSnoc(c, Apply(c, s, es[0]), es[1..], e);
    }
  }
}
