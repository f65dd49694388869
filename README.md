# Blind-test round controller

`blind.py` runs a music blind test. The operator plays tracks from a playlist, and teams buzz on a joystick to answer. The operator then credits the artist and/or the title with the T and A keys, and the track fades out before the next one. The state is held in module-level globals that pyglet callbacks update:

- the step: idle, playing, answering or revealed;
- the selected track, the player, and the reveal flags with the team each field was credited to;
- the answer timer and the pitch;
- for each team, its score and whether its buzzer is honoured.

The retry mode decides when a team that answered wrongly may buzz again:

- strict: never again in this round;
- alternating: as soon as another team has buzzed;
- timer: after a fixed delay.

This project models that controller and proves what it guarantees.

- `game.dfy` (module `Game`): teams and tracks, the two roster lookups (by buzzer button, by display number), and score totals.
- `round.dfy` (module `Round`): the controller as a pure state machine.
  - `RoundState` holds the globals and the roster.
  - `Inv` says which states the callbacks rely on and keep.
  - There is one function per callback: `BuzzStep`, `KeyStep` and its parts, `TextStep`, `MoveStep`, `DrawStep`, `FadeStep`, `CountdownStep`, `RestoreStep`.
  - `Apply` and `Run` feed these functions events in arrival order.
  - pyglet's scheduler is explicit. `fadeJobs` counts the scheduled `make_quieter` instances and `countdownJobs` the `reduce_answer_timer` ones. `restores` lists the pending `restore_buzzer` calls with their due times on an explicit `clock`.
- `controller.dfy` (module `Control`): the same controller as the source writes it, a class whose fields are the globals and whose `teams` is an array of teams updated in place.
  - There is one method per callback. Eligibility resets and the number lookup are loops over the team array.
  - Each method is proved to leave the object in the state its `Round` function computes, and to keep `Valid()`, which is `Inv`.
- `properties.dfy` (module `RoundProperties`): guarantees over event sequences.
  - Buzzes outside play are ignored.
  - A field is credited at most once, and scores move by one point at a time.
  - The three retry policies behave as documented.
  - The fade-out terminates, and the countdown reaches zero.
- `setup.dfy` (module `Setup`): parsing the `name:id[:score]` teams file and the `artist - title` playlist, with Python's `str.split` and `int()` modelled, and the two loading loops.

Teams are kept in a dictionary keyed by buzzer button, and the code holds `Team` objects in `last_team_to_buzz`, `*_found_by` and the scheduled restorations. Here the roster is a sequence in dictionary order with distinct `id`s, and those references are indices into it. Pitch is an integer number of tenths, which is exact for the `Decimal` steps of 0.1 the code takes. Volumes, the timer and the fade factor are `real`s.

Two behaviours of the code a reader may not expect:

- When both fields have been credited during an answer, the draw tick moves the step to revealed, not back to playing (`blind.py:338-344`). The answer timer keeps counting down until the round ends.
- A number key changes the score of the first team with that number, in any step, including idle.

## Model

| member | source | states |
|---|---|---|
| Game.FindTeam | blind.py:812-815 | `teams[button]`: the result is an index holding that button, the first such index, and the only one when buttons are distinct; it is None exactly when no team has the button |
| Game.FindByNumber | blind.py:429-430 | the first team in roster order with that display number, or None exactly when no team has it |
| Game.AddPoints | blind.py:431-434 | the team at `k` gets `d` more points and every other team is unchanged |
| Game.TotalScoreUpdate | blind.py:414-434 | replacing one team changes the total score by that team's change of score |
| Game.TotalScoreSameScores | blind.py:414-434 | rosters with equal scores team by team have equal totals |
| Round.RosterChangeKeepsInv | blind.py:71-72 | changing only scores and, outside idle, eligibility keeps the controller invariant |
| Round.Initial | blind.py:752-767 | the start state is idle on track 0 with no player, a full timer, pitch 1.0, and the invariant |
| Round.ResetAnswerTimer | blind.py:108-113 | the timer is full and stopped and its job unscheduled; no other field changes |
| Round.ResetAnswerTimerKeepsInv | blind.py:108-113 | resetting the answer timer keeps the invariant, and a second reset changes nothing |
| Round.ResetTurn | blind.py:115-116 | exactly one more fade-out job is scheduled; no other field changes |
| Round.ResetTurnKeepsInv | blind.py:115-116 | scheduling the fade-out keeps the invariant exactly when the step is not idle |
| Round.Unlocked | blind.py:71-72 | every team may buzz again and nothing else about a team changes |
| Round.Resumed | blind.py:404-407 | resuming unpauses the player when answers pause it, and otherwise sets its volume back to 1; the pitch is kept |
| Round.Buzzer | blind.py:811-820 | a buzz is taken iff the step is playing, the button belongs to a team, and that team may buzz; the taken index holds that button |
| Round.LockedOut | blind.py:827-830 | the buzzing team is locked out; in alternating mode every other team may buzz, otherwise every other team's eligibility is unchanged |
| Round.Accept | blind.py:816-830 | an accepted buzz makes the step answering, records the team, pauses or lowers the player to 0.1, applies `LockedOut`, changes nothing else and keeps the invariant |
| Round.BuzzStep | blind.py:807-830 | a buzz that is not taken leaves the whole state unchanged; a taken one is `Accept` of the buzzing team |
| Round.Start | blind.py:386-390 | ENTER while idle plays the selected track at full volume and the current pitch, and changes nothing else |
| Round.Reveal | blind.py:395-401 | ENTER while playing reveals both fields, credits nobody, and changes nothing else |
| Round.Resume | blind.py:402-410 | ENTER while answering resumes play and resets the timer; in timer mode, and only then, one restoration of the answering team is scheduled `retry_timer_duration` later; nothing else changes |
| Round.EnterStep | blind.py:385-412 | ENTER keeps the invariant, the roster and the pitch |
| Round.CreditStep | blind.py:414-423 | T or A while answering, with that field not yet revealed, gives the answering team exactly one point, reveals the field, and credits it to that team; in any other case the state is unchanged |
| Round.NumberStep | blind.py:427-436 | a number key 1-9 gives +1, or -1 with Ctrl, to the first team with that number; if no team has it, nothing changes; only the roster changes |
| Round.KeyStep | blind.py:374-436 | every key keeps the invariant and changes no team's name, button or number |
| Round.TextStep | blind.py:438-449 | "." raises the pitch by 0.1; "," lowers it by 0.1 unless it is 0.1 already; an active player follows the pitch; nothing else changes |
| Round.MoveStep | blind.py:451-456 | up and down move the track index by one, only while idle and within `[0, len(tracks) - 1]`; up at 0 and down at the last index do nothing; nothing else changes |
| Round.DrawStep | blind.py:320-344 | a draw tick while answering starts the countdown if it is not running, keeping the timer's value; one that sees both fields revealed while answering moves to revealed and resumes the player, otherwise step and player are kept; outside answering it changes nothing; no field other than the countdown's, the step and the player ever changes |
| Round.EndOfRound | blind.py:67-77 | the round end leaves the step idle and no player; every team may buzz; nothing is revealed or credited; the fade job is unscheduled; the timer is full and stopped; every other field (track, pitch, last team to buzz, leaderboard, clock, pending restorations) is kept |
| Round.Quieter | blind.py:64 | one fade step keeps pitch and pause; with a factor in [0, 1] the volume stays non-negative and does not grow, and with a factor below 1 a positive volume strictly drops |
| Round.FadeStep | blind.py:55-77 | a fade call above volume 0.01 only multiplies the volume by the fade factor; at or below 0.01 it is `EndOfRound` |
| Round.NextTimer | blind.py:79-88 | the timer never increases and never goes negative; it drops by `dt / answer_timer_duration` exactly when it exceeds that amount, and otherwise becomes 0 |
| Round.CountdownStep | blind.py:79-90 | a countdown call sets the timer to `NextTimer` of the old one, so `0 <= timer <= old timer`; it unschedules itself exactly when the timer reaches 0; nothing else changes |
| Round.RestoreStep | blind.py:92-94 | a restoration firing makes its team able to buzz and removes itself from the pending list; nothing else changes |
| Round.Apply | blind.py:55-94 | a callback that is not scheduled, or not yet due, changes nothing; every event keeps the invariant and every team's name, button and number |
| Round.Run | blind.py:832 | the event loop keeps the invariant and the roster's identities |
| Round.RunSnoc | blind.py:832 | running one more event applies it to the state the earlier events reached |
| RoundProperties.DisabledCallsInert | blind.py:86-90 | however often the clock would call an unscheduled callback, nothing changes |
| RoundProperties.BuzzesOutsidePlayingInert | blind.py:811 | any number of buzzes outside the playing step leave the whole state unchanged |
| RoundProperties.CreditOnce | blind.py:414-423 | a second T, or a second A, credits nothing more |
| RoundProperties.DrawOnce | blind.py:338-339 | two draw ticks do what one does: the countdown is scheduled once and playback is resumed once |
| RoundProperties.ScoreShape | blind.py:414-436 | an event either keeps every score, or is T/A crediting the answering team with one point and one more field, or is a number key moving one team by exactly one point |
| RoundProperties.ScoreStep | blind.py:414-436 | each event moves at most one team's score, by at most one point; a point is lost only by Ctrl+number; a point is gained only by a number key or by the team that is answering |
| RoundProperties.CreditEvent | blind.py:414-423 | within a round, apart from number keys, one event raises the total score by exactly the number of fields it newly credits |
| RoundProperties.ScoreFollowsCredits | blind.py:414-423 | within a round, apart from number keys, the total score grows by the number of credited fields, so by at most two per track |
| RoundProperties.StrictLockStep | blind.py:827-830 | in strict mode no event other than the round's end makes a locked-out team eligible again |
| RoundProperties.StrictLockPersists | blind.py:827-830 | in strict mode a team that buzzed stays locked out for the rest of the round |
| RoundProperties.Run3 | blind.py:832 | three events run one after the other |
| RoundProperties.BuzzTaken | blind.py:811-830 | while playing, the buzz of an eligible team is accepted for that team |
| RoundProperties.EnterResumes | blind.py:402-410 | ENTER during an answer is `Resume` |
| RoundProperties.AlternatingHandOver | blind.py:827-830 | alternating mode: after team a answers and play resumes, team b's buzz is taken, b is locked out, and every other team, a included, may buzz again |
| RoundProperties.RetryAfterResume | blind.py:92-94 | timer mode: after the answer, the team is eligible again at the restoration's call iff it already was or at least `retry_timer_duration` has elapsed |
| RoundProperties.BothFoundResumes | blind.py:338-344 | crediting title then artist, then one draw tick, gives the answering team two points, credits both fields to it, reveals the track and resumes the player |
| RoundProperties.Credits | blind.py:416-422 | the number of credited fields is at most two, and zero exactly when nobody is credited |
| RoundProperties.PowBounds | blind.py:63-64 | a fade factor in [0, 1] raised to any power stays in [0, 1] |
| RoundProperties.PowDecay | blind.py:63-64 | the powers of a factor in [0, 1] decay at least geometrically |
| RoundProperties.FadeBound | blind.py:63-64 | with a factor in [0, 1), some number of scalings takes any volume to 0.01 or below |
| RoundProperties.FadeRun | blind.py:55-77 | if n scalings bring the volume to 0.01, then n + 1 fade calls end the round |
| RoundProperties.FadeTerminates | blind.py:55-77 | with a factor in [0, 1), a scheduled fade-out reaches the end of the round after finitely many calls: idle, unscheduled, timer full, nothing revealed, every team eligible |
| RoundProperties.CountdownReachesZero | blind.py:79-90 | calls every `dt` seconds take the timer to exactly 0 and unschedule the countdown once they cover the time left, without changing the step |
| Control.Controller.constructor | blind.py:752-781 | the new controller is in `Initial` state over a fresh team array |
| Control.Controller.UnlockAll | blind.py:71-72 | the loop over the teams makes every team eligible and changes nothing else in them |
| Control.Controller.TeamWithNumber | blind.py:429-430 | the search loop returns `FindByNumber` of the team array |
| Control.Controller.ResetAnswerTimer | blind.py:108-113 | fills and stops the timer and unschedules the countdown |
| Control.Controller.ResetTurn | blind.py:115-116 | schedules one more fade-out instance |
| Control.Controller.OnJoybuttonPress | blind.py:807-830 | the object ends in `BuzzStep` of its old state, keeping `Valid()` |
| Control.Controller.TakeBuzz | blind.py:816-830 | the object ends in `Accept` of its old state |
| Control.Controller.LockOut | blind.py:827-830 | the team array becomes `LockedOut` of its old contents |
| Control.Controller.OnEnter | blind.py:385-412 | the object ends in `EnterStep` of its old state, keeping `Valid()` |
| Control.Controller.StartTrack | blind.py:386-390 | the object ends in `Start` of its old state |
| Control.Controller.RevealTrack | blind.py:395-401 | the object ends in `Reveal` of its old state |
| Control.Controller.ResumeTrack | blind.py:402-410 | the object ends in `Resume` of its old state |
| Control.Controller.Credit | blind.py:414-423 | the object ends in `CreditStep` of its old state, keeping `Valid()` |
| Control.Controller.Number | blind.py:427-436 | the team array ends in `NumberStep` of the old state, keeping `Valid()` |
| Control.Controller.OnKeyPress | blind.py:374-436 | the object ends in `KeyStep` of its old state, keeping `Valid()` |
| Control.Controller.OnText | blind.py:438-449 | the object ends in `TextStep` of its old state, keeping `Valid()` |
| Control.Controller.OnTextMotion | blind.py:451-456 | the object ends in `MoveStep` of its old state, keeping `Valid()` |
| Control.Controller.OnDraw | blind.py:320-344 | the object ends in `DrawStep` of its old state, keeping `Valid()` |
| Control.Controller.MakeQuieter | blind.py:55-77 | the object ends in `FadeStep` of its old state, keeping `Valid()` |
| Control.Controller.EndRound | blind.py:67-77 | the object ends in `EndOfRound` of its old state |
| Control.Controller.StopTrack | blind.py:67-70 | the player is dropped, the step is idle and the fade job unscheduled; nothing else changes |
| Control.Controller.ForgetAnswers | blind.py:73-76 | both reveal flags and both credits are cleared; nothing else changes |
| Control.Controller.ReduceAnswerTimer | blind.py:79-90 | the object ends in `CountdownStep` of its old state, keeping `Valid()` |
| Control.Controller.RestoreBuzzer | blind.py:92-94 | the object ends in `RestoreStep` of its old state, keeping `Valid()` |
| Control.Controller.Handle | blind.py:832 | one event delivered to the object has the effect `Apply` gives it |
| Control.Controller.HandleAll | blind.py:832 | a sequence of events delivered in order has the effect `Run` gives it |
| Setup.IndexFrom | blind.py:775 | the first occurrence of the separator at or after a position, or none |
| Setup.Split | blind.py:775 | `str.split` with a separator always gives at least one part |
| Setup.SplitFree | blind.py:775 | no part of a split contains the separator |
| Setup.PrefixFree | blind.py:775 | the text before the first occurrence of the separator does not contain it |
| Setup.SplitJoin | blind.py:775 | joining the parts of a split with the separator gives the original string |
| Setup.JoinSplit | blind.py:789 | splitting parts joined by a separator that occurs in none of them, nor across a boundary, gives those parts back |
| Setup.Strip | blind.py:776-778 | `int()`'s stripping removes exactly the leading and trailing whitespace |
| Setup.ParseInt | blind.py:776-778 | `int()` on a string: it rejects the empty string; `ParseIntLiteral` says exactly which strings it accepts, and `ParseShowInt` gives the round trip with `str` |
| Setup.ParseIntLiteral | blind.py:776-778 | `int()` accepts a string exactly when, once stripped, it is an optional sign followed by one or more digits; a negative result needs a minus sign |
| Setup.LiteralSign | blind.py:776-778 | a stripped literal is accepted exactly when it is a sign and digits, and is negative only after a minus sign |
| Setup.ParseShowInt | blind.py:776-778 | `int()` reads back every integer from its decimal text |
| Setup.ParseTeamLine | blind.py:775-780 | one teams line: the name it reads is the text before the first colon, so a colon follows it; `TeamLineFields` says when the line parses and what it reads, and `TeamLineRoundTrip` gives the round trip |
| Setup.TeamLineFields | blind.py:775-780 | a line parses exactly when it has at least two fields, its button field is an integer, and, with exactly three fields, its score field is one; the entry's name is the first field, its button is the second field's value, and its score is the third field's value with three fields and 0 otherwise |
| Setup.TeamLineRoundTrip | blind.py:775-780 | a team written as `name:id:score`, with no colon in its name, reads back as that team |
| Setup.AddTeam | blind.py:781 | `teams[id] = ...` adds at most one entry to the dictionary |
| Setup.AddTeamAssigns | blind.py:781 | after the assignment the button finds the new team, numbered `len(teams) + 1`; the dictionary grows by one exactly for a new button, and a known button keeps its place; every other button keeps its team; distinct buttons stay distinct |
| Setup.FindAppended | blind.py:781 | a team with a new button is found where it is appended, and buttons stay distinct |
| Setup.FindReplaced | blind.py:781 | a team put in the place of its button's team is found there, and buttons stay distinct |
| Setup.EntryAt | blind.py:774-776 | the parsed entries are the parses of the lines, index by index |
| Setup.FirstBad | blind.py:774-781 | the index of the first line that does not parse, or the line count: every line before it parses, and it does not |
| Setup.FirstBadAt | blind.py:774-781 | a line that does not parse, after lines that all do, is the first bad one |
| Setup.Assign | blind.py:774-781 | assigning the entries one by one adds at most one team per entry |
| Setup.AssignSnoc | blind.py:781 | assigning one more entry is one more dictionary assignment on the teams so far |
| Setup.Roster | blind.py:774-781 | the roster is Ok exactly when every line parses, with at most one team per line; an error names a line that does not parse, and every line before it parses |
| Setup.RosterStopsAt | blind.py:774-781 | the first line that does not parse is the error reported |
| Setup.RosterAllParse | blind.py:774-781 | when every line parses, the roster is the entries assigned in file order |
| Setup.LoadTeams | blind.py:774-781 | the loading loop returns `Roster` of the lines: the teams, or the index of the first line that would raise |
| Setup.AssignUsable | blind.py:781 | assigning entries to a roster with distinct buttons and eligible teams keeps it so, with numbers within bounds |
| Setup.RosterUsable | blind.py:774-781 | a loaded roster has distinct buttons, at most one team per line, every team eligible, and numbers between 1 and the line count |
| Setup.AssignNumbers | blind.py:781 | when each entry adds a team, the teams are numbered 1, 2, ... in order |
| Setup.RosterNumbers | blind.py:781 | when no button repeats, teams are numbered 1, 2, ... in file order |
| Setup.ParseTrackLine | blind.py:789 | a playlist line parses exactly when ` - ` splits it into two parts |
| Setup.TrackLineSound | blind.py:789 | a parsed line is its artist, ` - `, and its title |
| Setup.TrackLineComplete | blind.py:789 | an artist and a title free of the separator are read back from their line |
| Setup.Playlist | blind.py:786-790 | a playlist has one track per line, each the parse of its line; otherwise the error names the first line that does not parse |
| Setup.LoadTracks | blind.py:786-790 | the loading loop returns `Playlist` of the lines |

## Left out

- Downloading audio and covers, and the `download` command: network and subprocess work.
- Windows and rendering: labels, layout and the score text. Only the two state changes inside the control window's `on_draw` are modelled.
- Media primitives and sound effects: playing, loading and the buzzer and success sounds. The player is only a volume, a paused flag and a pitch.
- The random seek on Ctrl+ENTER while idle, and seeking with left and right: the player's position is not modelled, so these change nothing in the model.
- The display refresh when the leaderboard is toggled with L: only the flag is modelled.
- Printing: the restore message and the track list.
- The pyglet clock's real time. Scheduled callbacks are explicit events (`FadeCall`, `CountdownCall`, `RestoreCall`), and the passing of time is an `Elapse` event. The 0.1 s and 0.01 s intervals are not modelled.
- IEEE floating point: volumes, timer, fade factor and elapsed time are exact reals.
- Joystick opening, the button-check window, command-line parsing, and file reading. The parsers take the file's lines as given.
- Python's `int()` also accepts underscores between digits, Unicode digits, and whitespace beyond ASCII. `Setup.ParseInt` accepts ASCII whitespace, an optional sign and ASCII digits only.
- Setup.IsSpace: CPython's `int()` also strips the separators `\x1c` to `\x1f`. `splitlines` already breaks lines at `\x1c` to `\x1e`, so only `\x1f` can reach `int()`. The model rejects a number next to `\x1f`, where the code would accept it.
- An exception in the source (a malformed teams or playlist line) is the error result carrying that line's index.
- Loading media per track, and the abort of an empty playlist on `tracks[0]`: every controller state requires a non-empty playlist.
- The answer timer duration must be positive. `reduce_answer_timer` divides by it, and the model requires it of the configuration.
- Team identity is an index into the roster; the code uses the `Team` objects themselves.
- A restoration that is pending when the round ends is not unscheduled, as in the code, so it can unlock a team in a later round. The model keeps this behaviour and does not claim the opposite.
- Round.EnterStep: its contract states only that the invariant, the roster and the pitch are kept. The effect of each case is stated by `Start`, `Reveal`, `Resume` and `ResetTurn`, which the function calls per step.
