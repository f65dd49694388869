/**
 * Reading the roster and the playlist, line by line, as `play` does before
 * the windows open: a teams line is `name:button[:score]`, a playlist line is
 * `artist - title`. Python's `str.split` with an explicit separator and `int`
 * on a decimal literal are modelled as the functions `Split` and `ParseInt`.
 * A line the source cannot parse raises an exception there and ends the
 * program; here the result is `Err` with the index of that line.
 */
module Setup {
  import opened Game

  /** `sep` occurs in `s` at position `j`. */
  predicate OccursAt(s: string, sep: string, j: nat) {
    j + |sep| <= |s| && s[j..j + |sep|] == sep
  }

  /** The first position at or after `from` where `sep` occurs in `s`. */
  function IndexFrom(s: string, sep: string, from: nat): (r: Option<nat>)
    requires |sep| > 0
    ensures r.Some? ==> from <= r.value && OccursAt(s, sep, r.value)
    ensures r.Some? ==> forall j: nat :: from <= j < r.value ==> !OccursAt(s, sep, j)
    ensures r.None? ==> forall j: nat :: from <= j ==> !OccursAt(s, sep, j)
    decreases |s| - from
  {
    if from + |sep| > |s| then None
    else if OccursAt(s, sep, from) then Some(from)
    else IndexFrom(s, sep, from + 1)
  }

  /** `s.split(sep)`: the pieces between the leftmost non-overlapping
      occurrences of `sep`. */
  function Split(s: string, sep: string): (parts: seq<string>)
    requires |sep| > 0
    ensures |parts| >= 1
    decreases |s|
  {
    match IndexFrom(s, sep, 0)
    case None => [s]
    case Some(i) => [s[..i]] + Split(s[i + |sep|..], sep)
  }

  /** No piece contains the separator. */
  lemma {:induction false} SplitFree(s: string, sep: string)
    requires |sep| > 0
    ensures forall k :: 0 <= k < |Split(s, sep)| ==> Free(Split(s, sep)[k], sep)
    decreases |s|
  {
    match IndexFrom(s, sep, 0)
    case None =>
      assert Split(s, sep) == [s];
    case Some(i) =>
      var rest := Split(s[i + |sep|..], sep);
      assert Split(s, sep) == [s[..i]] + rest;
      PrefixFree(s, sep, i);
      SplitFree(s[i + |sep|..], sep);
  }

  /** The part before the first occurrence of `sep` does not contain it. */
  lemma PrefixFree(s: string, sep: string, i: nat)
    requires |sep| > 0 && IndexFrom(s, sep, 0) == Some(i)
    ensures Free(s[..i], sep)
  {
    forall j: nat | j < i
      ensures !OccursAt(s[..i], sep, j)
    {
      if j + |sep| <= i {
        assert s == s[..i] + s[i..];
        OccursInPrefix(s[..i], s[i..], sep, j);
      }
    }
  }

  /** `sep.join(parts)`. */
  function Join(parts: seq<string>, sep: string): string
    requires |parts| >= 1
  {
    if |parts| == 1 then parts[0] else parts[0] + sep + Join(parts[1..], sep)
  }

  /** Joining the pieces of a split gives back the string. */
  lemma {:induction false} SplitJoin(s: string, sep: string)
    requires |sep| > 0
    ensures Join(Split(s, sep), sep) == s
    decreases |s|
  {
    match IndexFrom(s, sep, 0)
    case None =>
    case Some(i) =>
      var rest := Split(s[i + |sep|..], sep);
      SplitJoin(s[i + |sep|..], sep);
      assert Split(s, sep) == [s[..i]] + rest;
      assert ([s[..i]] + rest)[1..] == rest;
      assert s == s[..i] + s[i..i + |sep|] + s[i + |sep|..];
  }

  /** `sep` does not occur in `p`. */
  predicate Free(p: string, sep: string) {
    forall j: nat :: j < |p| ==> !OccursAt(p, sep, j)
  }

  /** In `p + sep`, the first occurrence of `sep` is the one appended. */
  predicate FreeBefore(p: string, sep: string) {
    forall j: nat :: j < |p| ==> !OccursAt(p + sep, sep, j)
  }

  /** An occurrence that ends within `a` is one in `a + b`, and conversely. */
  lemma OccursInPrefix(a: string, b: string, sep: string, j: nat)
    requires j + |sep| <= |a|
    ensures OccursAt(a + b, sep, j) <==> OccursAt(a, sep, j)
  {
    assert (a + b)[j..j + |sep|] == a[j..j + |sep|];
  }

  /** Splitting pieces joined by a separator that none of them contains, even
      across its end, gives back the pieces. */
  lemma {:induction false} JoinSplit(parts: seq<string>, sep: string)
    requires |sep| > 0 && |parts| >= 1
    requires forall i :: 0 <= i < |parts| - 1 ==> FreeBefore(parts[i], sep)
    requires Free(parts[|parts| - 1], sep)
    ensures Split(Join(parts, sep), sep) == parts
    decreases |parts|
  {
    var s := Join(parts, sep);
    if |parts| == 1 {
      assert IndexFrom(s, sep, 0).None?;
    } else {
      var p := parts[0];
      var rest := Join(parts[1..], sep);
      assert s == (p + sep) + rest;
      assert OccursAt(s, sep, |p|) by {
        assert s[|p|..|p| + |sep|] == sep;
      }
      forall j: nat | j < |p|
        ensures !OccursAt(s, sep, j)
      {
        OccursInPrefix(p + sep, rest, sep, j);
      }
      var i := IndexFrom(s, sep, 0).value;
      assert i == |p|;
      assert s[..i] == p && s[i + |sep|..] == rest;
      JoinSplit(parts[1..], sep);
    }
  }

  /** A one-character separator that a piece does not contain is free in it. */
  lemma FreeOfChar(p: string, ch: char)
    requires ch !in p
    ensures Free(p, [ch]) && FreeBefore(p, [ch])
  {
    forall j: nat | j < |p|
      ensures !OccursAt(p + [ch], [ch], j)
    {
      assert (p + [ch])[j..j + 1] == [p[j]];
    }
    forall j: nat | j < |p|
      ensures !OccursAt(p, [ch], j)
    {
      assert p[j..j + 1] == [p[j]];
    }
  }

  /** Space and `\t` to `\r`: the whitespace `int` skips around a literal,
      apart from the separators `\x1c` to `\x1f`. */
  predicate IsSpace(ch: char) {
    ch == ' ' || '\t' <= ch <= '\r'
  }

  predicate IsDigit(ch: char) {
    '0' <= ch <= '9'
  }

  function TrimStart(s: string): (r: string)
    ensures |r| <= |s| && r == s[|s| - |r|..]
    ensures forall i :: 0 <= i < |s| - |r| ==> IsSpace(s[i])
    ensures r == [] || !IsSpace(r[0])
  {
    if s != [] && IsSpace(s[0]) then TrimStart(s[1..]) else s
  }

  function TrimEnd(s: string): (r: string)
    ensures |r| <= |s| && r == s[..|r|]
    ensures forall i :: |r| <= i < |s| ==> IsSpace(s[i])
    ensures r == [] || !IsSpace(r[|r| - 1])
  {
    if s != [] && IsSpace(s[|s| - 1]) then TrimEnd(s[..|s| - 1]) else s
  }

  /** `s.strip()`: the longest middle part of `s` with no space at either end. */
  function Strip(s: string): (r: string)
    ensures |r| <= |s|
    ensures exists i, j ::
      (0 <= i <= j <= |s| && r == s[i..j] &&
       (forall k :: 0 <= k < i ==> IsSpace(s[k])) &&
       (forall k :: j <= k < |s| ==> IsSpace(s[k])))
    ensures r == [] || (!IsSpace(r[0]) && !IsSpace(r[|r| - 1]))
  {
    var t := TrimStart(s);
    var r := TrimEnd(t);
    assert r == s[|s| - |t|..|s| - |t| + |r|];
    r
  }

  /** The value of a string of decimal digits, most significant first. */
  function DigitsValue(ds: string): (v: nat)
    requires forall i :: 0 <= i < |ds| ==> IsDigit(ds[i])
  {
    if ds == [] then 0
    else
      assert IsDigit(ds[|ds| - 1]);
      DigitsValue(ds[..|ds| - 1]) * 10 + (ds[|ds| - 1] as int - '0' as int)
  }

  /** `int(s)` on a decimal literal: spaces around, an optional sign, at least
      one digit. */
  function ParseInt(s: string): (r: Option<int>)
    ensures r.Some? ==> |s| > 0
  {
    var t := Strip(s);
    assert Literal(t).Some? ==> Unsigned(t) != [];
    Literal(t)
  }

  /** `int` accepts exactly the strings that are a literal once stripped, and
      a negative value needs a minus sign. */
  lemma ParseIntLiteral(s: string)
    ensures ParseInt(s).Some? <==> IsLiteral(Strip(s))
    ensures ParseInt(s).Some? && ParseInt(s).value < 0 ==> Strip(s)[0] == '-'
  {
    LiteralSign(Strip(s));
  }

  /** A literal without its sign, if it has one. */
  function Unsigned(t: string): string {
    if t != [] && (t[0] == '-' || t[0] == '+') then t[1..] else t
  }

  /** An optional sign followed by at least one digit, and nothing else. */
  predicate IsLiteral(t: string) {
    Unsigned(t) != [] && forall i :: 0 <= i < |Unsigned(t)| ==> IsDigit(Unsigned(t)[i])
  }

  /** The value of a stripped literal: an optional sign, then digits only. */
  function Literal(t: string): Option<int> {
    if IsLiteral(t) then
      var v: int := DigitsValue(Unsigned(t));
      Some(if t[0] == '-' then -v else v)
    else None
  }

  lemma LiteralSign(t: string)
    ensures Literal(t).Some? <==> IsLiteral(t)
    ensures Literal(t).Some? && Literal(t).value < 0 ==> t[0] == '-'
  {
  }

  /** `str(n)` for a natural number. */
  function ShowNat(n: nat): (ds: string)
    ensures ds != [] && forall i :: 0 <= i < |ds| ==> IsDigit(ds[i])
  {
    (if n < 10 then "" else ShowNat(n / 10)) + [('0' as int + n % 10) as char]
  }

  /** `str(n)`. */
  function ShowInt(n: int): (s: string)
    ensures s != [] && IsDigit(s[|s| - 1]) && (IsDigit(s[0]) || s[0] == '-')
    ensures forall i :: 0 <= i < |s| ==> s[i] != ':'
  {
    if n < 0 then "-" + ShowNat(-n) else ShowNat(n)
  }

  lemma {:induction false} ShowNatValue(n: nat)
    ensures DigitsValue(ShowNat(n)) == n
  {
    var ds := ShowNat(n);
    assert ds[..|ds| - 1] == if n < 10 then "" else ShowNat(n / 10);
    if n >= 10 {
      ShowNatValue(n / 10);
    }
  }

  /** A string with no space at either end is its own strip. */
  lemma StripNoSpace(s: string)
    requires s != [] && !IsSpace(s[0]) && !IsSpace(s[|s| - 1])
    ensures Strip(s) == s
  {
    assert TrimStart(s) == s;
    assert TrimEnd(s) == s;
  }

  lemma LiteralNat(n: nat)
    ensures Literal(ShowNat(n)) == Some(n)
  {
    var ds := ShowNat(n);
    assert IsDigit(ds[0]);
    ShowNatValue(n);
  }

  lemma LiteralNegative(n: nat)
    ensures Literal("-" + ShowNat(n)) == Some(-(n as int))
  {
    var ds := ShowNat(n);
    assert ("-" + ds)[1..] == ds;
    ShowNatValue(n);
  }

  /** `int(str(n)) == n`. */
  lemma ParseShowInt(n: int)
    ensures ParseInt(ShowInt(n)) == Some(n)
  {
    StripNoSpace(ShowInt(n));
    if n < 0 {
      LiteralNegative(-n);
    } else {
      LiteralNat(n);
    }
  }

  /** The fields of a teams line. */
  datatype Entry = Entry(name: string, id: int, score: int)

  /** One line of the teams file: fewer than two fields, or a field that is
      not an integer, is an error; the score is read only when there are
      exactly three fields. */
  function ParseTeamLine(line: string): (r: Option<Entry>)
    ensures r.Some? ==> |r.value.name| < |line| && r.value.name == line[..|r.value.name|]
  {
    var fields := Split(line, ":");
    if |fields| < 2 then None
    else match ParseInt(fields[1])
      case None => None
      case Some(id) =>
        if |fields| == 3 then
          match ParseInt(fields[2])
          case None => None
          case Some(score) => Some(Entry(fields[0], id, score))
        else Some(Entry(fields[0], id, 0))
  }
  /** A teams line parses when it has a name, a button that is an integer,
      and, when there are exactly three fields, a score that is one; the
      entry holds those values, with score 0 when there is no third field. */
  lemma TeamLineFields(line: string)
    ensures var fields, r := Split(line, ":"), ParseTeamLine(line);
      (r.Some? <==> |fields| >= 2 && ParseInt(fields[1]).Some? &&
                    (|fields| == 3 ==> ParseInt(fields[2]).Some?)) &&
      (r.Some? ==> r.value.name == fields[0] && r.value.id == ParseInt(fields[1]).value &&
                   r.value.score == if |fields| == 3 then ParseInt(fields[2]).value else 0)
  {
  }


  /** A teams line as it would be written for a team. */
  function FormatTeamLine(e: Entry): string {
    e.name + ":" + ShowInt(e.id) + ":" + ShowInt(e.score)
  }

  /** A line written for a team whose name has no colon reads back as that team. */
  lemma TeamLineRoundTrip(e: Entry)
    requires ':' !in e.name
    ensures ParseTeamLine(FormatTeamLine(e)) == Some(e)
  {
    var parts := [e.name, ShowInt(e.id), ShowInt(e.score)];
    FreeOfChar(e.name, ':');
    FreeOfChar(ShowInt(e.id), ':');
    FreeOfChar(ShowInt(e.score), ':');
    assert parts[1..] == [ShowInt(e.id), ShowInt(e.score)];
    assert parts[1..][1..] == [ShowInt(e.score)];
    assert Join(parts[1..], ":") == ShowInt(e.id) + ":" + ShowInt(e.score);
    assert Join(parts, ":") == FormatTeamLine(e);
    JoinSplit(parts, ":");
    ParseShowInt(e.id);
    ParseShowInt(e.score);
  }

  /** `teams[id] = Team(name, score, number=len(teams) + 1)`: a new button is
      appended; a button already present keeps its place and gets the new team. */
  function AddTeam(ts: seq<Team>, e: Entry): (us: seq<Team>)
    ensures |ts| <= |us| <= |ts| + 1
  {
    var t := Team(e.name, e.id, |ts| + 1, e.score, true);
    match FindTeam(ts, e.id)
    case None => ts + [t]
    case Some(k) => ts[k := t]
  }

  /** Assigning a team to a button, as a dictionary assignment: the button
      then finds the new team, a new button is one more entry and a known one
      keeps its place, every other button keeps its team, and buttons stay
      distinct. */
  lemma AddTeamAssigns(ts: seq<Team>, e: Entry)
    ensures var us := AddTeam(ts, e);
            |us| == |ts| + (if FindTeam(ts, e.id).None? then 1 else 0) &&
            FindTeam(us, e.id).Some? &&
            us[FindTeam(us, e.id).value] == Team(e.name, e.id, |ts| + 1, e.score, true)
    ensures FindTeam(ts, e.id).Some? ==> FindTeam(AddTeam(ts, e), e.id) == FindTeam(ts, e.id)
    ensures forall i :: 0 <= i < |ts| && ts[i].id != e.id ==> AddTeam(ts, e)[i] == ts[i]
    ensures UniqueIds(ts) ==> UniqueIds(AddTeam(ts, e))
  {
    var t := Team(e.name, e.id, |ts| + 1, e.score, true);
    match FindTeam(ts, e.id)
    case None => FindAppended(ts, t);
    case Some(k) => FindReplaced(ts, k, t);
  }

  /** A team whose button is new is found where it is appended. */
  lemma FindAppended(ts: seq<Team>, t: Team)
    requires FindTeam(ts, t.id).None?
    ensures FindTeam(ts + [t], t.id) == Some(|ts|)
    ensures UniqueIds(ts) ==> UniqueIds(ts + [t])
  {
    var us := ts + [t];
    assert forall i :: 0 <= i < |ts| ==> us[i].id != t.id;
    assert us[|ts|].id == t.id;
  }

  /** A team put in the place of the one with its button is found there. */
  lemma FindReplaced(ts: seq<Team>, k: nat, t: Team)
    requires FindTeam(ts, t.id) == Some(k)
    ensures FindTeam(ts[k := t], t.id) == Some(k)
    ensures UniqueIds(ts) ==> UniqueIds(ts[k := t])
  {
    var us := ts[k := t];
    assert forall i :: 0 <= i < k ==> us[i].id != t.id;
    assert us[k].id == t.id;
    if UniqueIds(ts) {
      forall i, j | 0 <= i < j < |us| ensures us[i].id != us[j].id {
        assert us[i].id == ts[i].id && us[j].id == ts[j].id;
      }
    }
  }

  /** The parse of every line of a teams file, in file order. */
  function Entries(lines: seq<string>): (es: seq<Option<Entry>>)
    ensures |es| == |lines|
  {
    if lines == [] then [] else [ParseTeamLine(lines[0])] + Entries(lines[1..])
  }

  /** The entry at index `k` is the parse of line `k`. */
  lemma {:induction false} EntryAt(lines: seq<string>, k: nat)
    requires k < |lines|
    ensures Entries(lines)[k] == ParseTeamLine(lines[k])
  {
    if k > 0 {
      EntryAt(lines[1..], k - 1);
      assert lines[1..][k - 1] == lines[k];
    }
  }

  /** The index of the first line that does not parse, or `|es|` when every
      line does. */
  function FirstBad(es: seq<Option<Entry>>): (n: nat)
    ensures n <= |es|
    ensures n < |es| ==> es[n].None?
    ensures forall j :: 0 <= j < n ==> es[j].Some?
    decreases |es|
  {
    if es == [] || es[0].None? then 0 else FirstBad(es[1..]) + 1
  }

  /** The entries of lines that all parse. */
  function Values(es: seq<Option<Entry>>): (vs: seq<Entry>)
    requires forall k :: 0 <= k < |es| ==> es[k].Some?
    ensures |vs| == |es|
    ensures forall k :: 0 <= k < |es| ==> es[k] == Some(vs[k])
  {
    seq(|es|, k requires 0 <= k < |es| => es[k].value)
  }

  /** The teams dictionary after assigning each entry in turn, starting from
      `ts`. */
  function Assign(ts: seq<Team>, vs: seq<Entry>): (us: seq<Team>)
    ensures |ts| <= |us| <= |ts| + |vs|
    decreases |vs|
  {
    if vs == [] then ts else Assign(AddTeam(ts, vs[0]), vs[1..])
  }

  /** Assigning one more entry after the others. */
  lemma {:induction false} AssignSnoc(ts: seq<Team>, vs: seq<Entry>, v: Entry)
    ensures Assign(ts, vs + [v]) == AddTeam(Assign(ts, vs), v)
    decreases |vs|
  {
    if vs != [] {
      assert (vs + [v])[1..] == vs[1..] + [v];
      AssignSnoc(AddTeam(ts, vs[0]), vs[1..], v);
    }
  }

  /** The roster of a teams file, or the index of its first malformed line:
      the lines before it all parse and it does not. */
  function Roster(lines: seq<string>): (r: Result<seq<Team>, nat>)
    ensures r.Ok? <==> forall j :: 0 <= j < |lines| ==> ParseTeamLine(lines[j]).Some?
    ensures r.Ok? ==> |r.value| <= |lines|
    ensures r.Err? ==> r.error < |lines| && ParseTeamLine(lines[r.error]).None?
    ensures r.Err? ==> forall j :: 0 <= j < r.error ==> ParseTeamLine(lines[j]).Some?
  {
    var es := Entries(lines);
    var n := FirstBad(es);
    assert forall j :: 0 <= j < |lines| ==> es[j] == ParseTeamLine(lines[j]) by {
      forall j | 0 <= j < |lines|
        ensures es[j] == ParseTeamLine(lines[j])
      {
        EntryAt(lines, j);
      }
    }
    if n < |es| then Err(n) else Ok(Assign([], Values(es)))
  }

  /** The loop of `play` that fills the teams dictionary. */
  method LoadTeams(lines: seq<string>) returns (r: Result<seq<Team>, nat>)
    ensures r == Roster(lines)
  {
    var ts: seq<Team> := [];
    ghost var es := Entries(lines);
    ghost var vs: seq<Entry> := [];
    var i := 0;
    while i < |lines|
      invariant 0 <= i <= |lines| && |vs| == i
      invariant forall j :: 0 <= j < i ==> es[j] == Some(vs[j])
      invariant ts == Assign([], vs)
    {
      EntryAt(lines, i);
      match ParseTeamLine(lines[i]) {
        case None =>
          RosterStopsAt(lines, vs, i);
          return Err(i);
        case Some(e) =>
          AssignSnoc([], vs, e);
          ts := AddTeam(ts, e);
          vs := vs + [e];
      }
      i := i + 1;
    }
    RosterAllParse(lines, vs);
    return Ok(ts);
  }

  /** A line that does not parse after lines that all do is the one reported. */
  lemma RosterStopsAt(lines: seq<string>, vs: seq<Entry>, i: nat)
    requires i < |lines| && Entries(lines)[i].None? && |vs| == i
    requires forall j :: 0 <= j < i ==> Entries(lines)[j] == Some(vs[j])
    ensures Roster(lines) == Err(i)
  {
    FirstBadAt(Entries(lines), i);
  }

  /** The first bad entry is the one after entries that are all good. */
  lemma FirstBadAt(es: seq<Option<Entry>>, i: nat)
    requires i < |es| && es[i].None?
    requires forall j :: 0 <= j < i ==> es[j].Some?
    ensures FirstBad(es) == i
  {
  }

  /** When every line parses, the roster assigns the entries in file order. */
  lemma RosterAllParse(lines: seq<string>, vs: seq<Entry>)
    requires |vs| == |lines|
    requires forall j :: 0 <= j < |lines| ==> Entries(lines)[j] == Some(vs[j])
    ensures Roster(lines) == Ok(Assign([], vs))
  {
    assert Values(Entries(lines)) == vs;
  }

  /** What the controller needs of a roster: distinct buttons, every team
      allowed to buzz, numbers between 1 and the number of lines. */
  ghost predicate Usable(ts: seq<Team>, bound: nat) {
    UniqueIds(ts) &&
    (forall i :: 0 <= i < |ts| ==> ts[i].canBuzz && 1 <= ts[i].number <= bound)
  }

  lemma AddTeamUsable(ts: seq<Team>, e: Entry, bound: nat)
    requires Usable(ts, bound) && |ts| < bound
    ensures Usable(AddTeam(ts, e), bound) && |AddTeam(ts, e)| <= |ts| + 1
  {
    AddTeamAssigns(ts, e);
  }

  /** Assigning entries to a usable roster keeps it usable and adds at most
      one team per entry. */
  lemma {:induction false} AssignUsable(ts: seq<Team>, vs: seq<Entry>, bound: nat)
    requires |ts| + |vs| <= bound && Usable(ts, bound)
    ensures Usable(Assign(ts, vs), bound)
    decreases |vs|
  {
    if vs != [] {
      AddTeamUsable(ts, vs[0], bound);
      AssignUsable(AddTeam(ts, vs[0]), vs[1..], bound);
    }
  }

  /** A roster read from a teams file can start a session: distinct buttons,
      every team may buzz, at most one team per line, numbered from 1. */
  lemma RosterUsable(lines: seq<string>, ts: seq<Team>)
    requires Roster(lines) == Ok(ts)
    ensures UniqueIds(ts) && |ts| <= |lines|
    ensures forall i :: 0 <= i < |ts| ==> ts[i].canBuzz && 1 <= ts[i].number <= |lines|
  {
    AssignUsable([], Values(Entries(lines)), |lines|);
  }

  /** When no button repeats (one team per entry), teams keep the entries'
      order and are numbered 1, 2, ... in that order. */
  lemma {:induction false} AssignNumbers(ts: seq<Team>, vs: seq<Entry>)
    requires forall i :: 0 <= i < |ts| ==> ts[i].number == i + 1
    requires |Assign(ts, vs)| == |ts| + |vs|
    ensures forall i :: 0 <= i < |Assign(ts, vs)| ==> Assign(ts, vs)[i].number == i + 1
    decreases |vs|
  {
    if vs != [] {
      var e := vs[0];
      var us := AddTeam(ts, e);
      AddTeamAssigns(ts, e);
      if FindTeam(ts, e.id).Some? {
        assert false;
      }
      assert us == ts + [Team(e.name, e.id, |ts| + 1, e.score, true)];
      AssignNumbers(us, vs[1..]);
    }
  }

  lemma RosterNumbers(lines: seq<string>, ts: seq<Team>)
    requires Roster(lines) == Ok(ts) && |ts| == |lines|
    ensures forall i :: 0 <= i < |ts| ==> ts[i].number == i + 1
  {
    AssignNumbers([], Values(Entries(lines)));
  }

  /** One playlist line: exactly one ` - ` separates artist and title. */
  function ParseTrackLine(line: string): (r: Option<Track>)
    ensures r.Some? <==> |Split(line, " - ")| == 2
  {
    var parts := Split(line, " - ");
    if |parts| == 2 then Some(Track(parts[0], parts[1])) else None
  }

  /** A parsed line is its artist and title around the separator. */
  lemma TrackLineSound(line: string)
    requires ParseTrackLine(line).Some?
    ensures var t := ParseTrackLine(line).value;
      line == t.artist + " - " + t.title
  {
    var parts := Split(line, " - ");
    SplitJoin(line, " - ");
    assert parts[1..] == [parts[1]];
  }

  /** An artist and a title that the separator does not occur in (nor across
      the artist's end) are read back from their line. */
  lemma TrackLineComplete(t: Track)
    requires FreeBefore(t.artist, " - ") && Free(t.title, " - ")
    ensures ParseTrackLine(t.artist + " - " + t.title) == Some(t)
  {
    var parts := [t.artist, t.title];
    assert parts[1..] == [t.title];
    assert Join(parts, " - ") == t.artist + " - " + t.title;
    JoinSplit(parts, " - ");
  }

  /** The tracks of a playlist file, or the index of its first malformed line. */
  function Playlist(lines: seq<string>): (r: Result<seq<Track>, nat>)
    ensures r.Ok? ==> |r.value| == |lines|
    ensures r.Ok? ==> forall i :: 0 <= i < |lines| ==> ParseTrackLine(lines[i]) == Some(r.value[i])
    ensures r.Err? ==> r.error < |lines| && ParseTrackLine(lines[r.error]).None? &&
                       forall i :: 0 <= i < r.error ==> ParseTrackLine(lines[i]).Some?
    decreases |lines|
  {
    if lines == [] then Ok([])
    else match ParseTrackLine(lines[0])
      case None => Err(0)
      case Some(t) =>
        match Playlist(lines[1..])
        case Err(i) => Err(i + 1)
        case Ok(ts) => Ok([t] + ts)
  }

  /** The loop of `play` that fills the track list. */
  method LoadTracks(lines: seq<string>) returns (r: Result<seq<Track>, nat>)
    ensures r == Playlist(lines)
  {
    var tracks: seq<Track> := [];
    var i := 0;
    while i < |lines|
      invariant 0 <= i <= |lines|
      invariant |tracks| == i
      invariant forall j :: 0 <= j < i ==> ParseTrackLine(lines[j]) == Some(tracks[j])
    {
      match ParseTrackLine(lines[i]) {
        case None =>
          PlaylistStopsAt(lines, i);
          return Err(i);
        case Some(t) => tracks := tracks + [t];
      }
      i := i + 1;
    }
    PlaylistAllParse(lines, tracks);
    return Ok(tracks);
  }

  lemma PlaylistStopsAt(lines: seq<string>, i: nat)
    requires i < |lines| && ParseTrackLine(lines[i]).None?
    requires forall j :: 0 <= j < i ==> ParseTrackLine(lines[j]).Some?
    ensures Playlist(lines) == Err(i)
  {
  }

  lemma PlaylistAllParse(lines: seq<string>, tracks: seq<Track>)
    requires |tracks| == |lines|
    requires forall j :: 0 <= j < |lines| ==> ParseTrackLine(lines[j]) == Some(tracks[j])
    ensures Playlist(lines) == Ok(tracks)
  {
    assert Playlist(lines).value == tracks;
  }
}
