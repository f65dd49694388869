/**
 * Teams and tracks of a blind-test session, and the two lookups the round
 * controller performs on the roster: by buzzer button and by display number.
 *
 * The source keeps its teams in a dictionary keyed by buzzer button; here the
 * roster is a sequence in insertion order whose `id` fields are pairwise
 * distinct, so a team is referred to by its index in that sequence.
 */
module Game {

  datatype Option<T> = None | Some(value: T)

  datatype Result<T, E> = Ok(value: T) | Err(error: E)

  /** A team: its name, its buzzer button (`id`), its 1-based display number,
      its score and whether its buzzer is currently honoured. */
  datatype Team = Team(name: string, id: int, number: int, score: int, canBuzz: bool)

  /** A track of the playlist; the audio and the cover image are not modelled. */
  datatype Track = Track(artist: string, title: string)

  /** The dictionary property of the roster: no two teams share a button. */
  predicate UniqueIds(ts: seq<Team>) {
    forall i, j :: 0 <= i < j < |ts| ==> ts[i].id != ts[j].id
  }

  /** `teams[button]`: the index of the team whose buzzer is `id`, if any. */
  function FindTeam(ts: seq<Team>, id: int): (r: Option<nat>)
    ensures r.Some? ==> r.value < |ts| && ts[r.value].id == id
    ensures r.Some? ==> forall i :: 0 <= i < r.value ==> ts[i].id != id
    ensures r.None? <==> forall i :: 0 <= i < |ts| ==> ts[i].id != id
    ensures UniqueIds(ts) && r.Some? ==> forall i :: 0 <= i < |ts| && i != r.value ==> ts[i].id != id
  {
    if ts == [] then None
    else if ts[0].id == id then Some(0)
    else match FindTeam(ts[1..], id)
      case None => None
      case Some(k) => Some(k + 1)
  }

  /** The first team, in roster order, whose display number is `n`, if any. */
  function FindByNumber(ts: seq<Team>, n: int): (r: Option<nat>)
    ensures r.Some? ==> r.value < |ts| && ts[r.value].number == n
    ensures r.Some? ==> forall i :: 0 <= i < r.value ==> ts[i].number != n
    ensures r.None? <==> forall i :: 0 <= i < |ts| ==> ts[i].number != n
  {
    if ts == [] then None
    else if ts[0].number == n then Some(0)
    else match FindByNumber(ts[1..], n)
      case None => None
      case Some(k) => Some(k + 1)
  }

  /** The roster with `d` points added to the team at index `k`. */
  function AddPoints(ts: seq<Team>, k: nat, d: int): (us: seq<Team>)
    requires k < |ts|
    ensures |us| == |ts| && us[k] == ts[k].(score := ts[k].score + d)
    ensures forall i :: 0 <= i < |ts| && i != k ==> us[i] == ts[i]
  {
    ts[k := ts[k].(score := ts[k].score + d)]
  }

  /** The sum of all scores. */
  function TotalScore(ts: seq<Team>): int {
    if ts == [] then 0 else ts[0].score + TotalScore(ts[1..])
  }

  /** Replacing one team changes the total by the change of that team's score. */
  lemma {:induction false} TotalScoreUpdate(ts: seq<Team>, k: nat, t: Team)
    requires k < |ts|
    ensures TotalScore(ts[k := t]) == TotalScore(ts) - ts[k].score + t.score
  {
    if k > 0 {
      TotalScoreUpdate(ts[1..], k - 1, t);
      assert ts[k := t][1..] == ts[1..][k - 1 := t];
    }
  }

  /** Changing anything but the scores leaves the total unchanged. */
  lemma {:induction false} TotalScoreSameScores(ts: seq<Team>, us: seq<Team>)
    requires |ts| == |us|
    requires forall i :: 0 <= i < |ts| ==> ts[i].score == us[i].score
    ensures TotalScore(ts) == TotalScore(us)
  {
    if ts != [] {
      TotalScoreSameScores(ts[1..], us[1..]);
    }
  }
}
