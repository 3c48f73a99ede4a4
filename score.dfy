/**
 * The `score` command: shows the group's ranking, or sets or shows one
 * member's score. The stored scores are read and written through the property
 * store; what the store answers is an input.
 */
module Score {
  import opened Wrappers
  import opened JsStrings
  import opened JsNumbers
  import opened Chat

  /** One member's stored score, as the store lists it. */
  datatype ScoreEntry = ScoreEntry(name: string, score: int)

  /** Greatest score first. */
  predicate SortedDesc(s: seq<ScoreEntry>) {
    forall i, j :: 0 <= i < j < |s| ==> s[i].score >= s[j].score
  }

  /** The entries with score v, in their order. */
  function WithScore(s: seq<ScoreEntry>, v: int): (r: seq<ScoreEntry>)
    ensures |r| <= |s|
  {
    if s == [] then []
    else (if s[0].score == v then [s[0]] else []) + WithScore(s[1..], v)
  }

  /** e placed in front of the first entry whose score it reaches. */
  function Insert(e: ScoreEntry, s: seq<ScoreEntry>): (r: seq<ScoreEntry>)
    requires SortedDesc(s)
    ensures SortedDesc(r)
    ensures multiset(r) == multiset(s) + multiset{e}
    ensures |r| == |s| + 1
    ensures r[0] == e || (s != [] && r[0] == s[0])
  {
    if s == [] || e.score >= s[0].score then [e] + s
    else
      var rest := Insert(e, s[1..]);
      assert s == [s[0]] + s[1..];
      assert s[0].score >= rest[0].score;
      [s[0]] + rest
  }

  /** `scores.sort((a, b) => b.score - a.score)`: a stable sort, greatest score first. */
  function SortByScore(s: seq<ScoreEntry>): (r: seq<ScoreEntry>)
    ensures SortedDesc(r)
    ensures multiset(r) == multiset(s)
    ensures |r| == |s|
  {
    if s == [] then []
    else
      assert s == [s[0]] + s[1..];
      Insert(s[0], SortByScore(s[1..]))
  }

  /** The entries with score v of x followed by s. */
  lemma WithScoreCons(x: ScoreEntry, s: seq<ScoreEntry>, v: int)
    ensures WithScore([x] + s, v) == (if x.score == v then [x] else []) + WithScore(s, v)
  {
    assert ([x] + s)[1..] == s;
  }

  /** Inserting keeps the order among equal scores: e goes before the entries with its own score. */
  lemma {:induction false} InsertStable(e: ScoreEntry, s: seq<ScoreEntry>, v: int)
    requires SortedDesc(s)
    ensures WithScore(Insert(e, s), v) == (if e.score == v then [e] else []) + WithScore(s, v)
  {
    if s == [] || e.score >= s[0].score {
      WithScoreCons(e, s, v);
    } else {
      var rest := Insert(e, s[1..]);
      var mine := if e.score == v then [e] else [];
      var first := if s[0].score == v then [s[0]] else [];
      InsertStable(e, s[1..], v);
      WithScoreCons(s[0], rest, v);
      WithScoreCons(s[0], s[1..], v);
      assert s == [s[0]] + s[1..];
      assert mine == [] || first == [];
      calc {
        WithScore(Insert(e, s), v);
        WithScore([s[0]] + rest, v);
        first + (mine + WithScore(s[1..], v));
        mine + (first + WithScore(s[1..], v));
        mine + WithScore(s, v);
      }
    }
  }

  /** The sort is stable: the entries of any one score stay in their original order. */
  lemma {:induction false} SortStable(s: seq<ScoreEntry>, v: int)
    ensures WithScore(SortByScore(s), v) == WithScore(s, v)
  {
    if s != [] {
      SortStable(s[1..], v);
      InsertStable(s[0], SortByScore(s[1..]), v);
    }
  }

  /** `\n${i + 1}. ${name}: ${score}` without its newline. */
  function RankLine(i: nat, e: ScoreEntry): string {
    IntToString(i + 1) + ". " + e.name + ": " + IntToString(e.score)
  }

  /** One ranking line per entry, numbered from 1. */
  function RankLines(s: seq<ScoreEntry>): (lines: seq<string>)
    ensures |lines| == |s|
    ensures forall i :: 0 <= i < |s| ==> lines[i] == RankLine(i, s[i])
  {
    seq(|s|, i requires 0 <= i < |s| => RankLine(i, s[i]))
  }

  function RankingHeader(groupName: string): string {
    "Rankings for " + groupName + ":"
  }

  /** The ranking message: the header, then one line per entry in the given order. */
  function Rankings(groupName: string, s: seq<ScoreEntry>): (m: string)
  {
    Join([RankingHeader(groupName)] + RankLines(s), "\n")
  }

  /** The loop that builds `message`. */
  method RankingMessage(groupName: string, scores: seq<ScoreEntry>) returns (message: string)
    ensures message == Rankings(groupName, scores)
  {
    message := RankingHeader(groupName);
    var i := 0;
    while i < |scores|
      invariant 0 <= i <= |scores|
      invariant message == Rankings(groupName, scores[..i])
    {
      RankingsSnoc(groupName, scores, i);
      message := message + "\n" + RankLine(i, scores[i]);
      i := i + 1;
    }
    assert scores[..i] == scores;
  }

  /** One more entry adds one more line. */
  lemma RankingsSnoc(groupName: string, scores: seq<ScoreEntry>, i: nat)
    requires i < |scores|
    ensures Rankings(groupName, scores[..i + 1]) == Rankings(groupName, scores[..i]) + "\n" + RankLine(i, scores[i])
  {
    var lines := [RankingHeader(groupName)] + RankLines(scores[..i]);
    JoinSnoc(lines, RankLine(i, scores[i]), "\n");
    RankLinesSnoc(scores, i);
    assert [RankingHeader(groupName)] + RankLines(scores[..i + 1]) == lines + [RankLine(i, scores[i])];
  }

  /** One more entry, one more numbered line. */
  lemma RankLinesSnoc(scores: seq<ScoreEntry>, i: nat)
    requires i < |scores|
    ensures RankLines(scores[..i + 1]) == RankLines(scores[..i]) + [RankLine(i, scores[i])]
  {
    var longer := RankLines(scores[..i + 1]);
    var shorter := RankLines(scores[..i]);
    assert |longer| == |shorter| + 1;
    forall k | 0 <= k < i ensures longer[k] == shorter[k] {
      assert scores[..i + 1][k] == scores[..i][k];
    }
  }

  /** Read line by line, the ranking message gives back the header and the numbered lines, when no name holds a line break. */
  lemma RankingsLines(groupName: string, s: seq<ScoreEntry>)
    requires '\n' !in groupName
    requires forall i :: 0 <= i < |s| ==> '\n' !in s[i].name
    ensures Split(Rankings(groupName, s), "\n") == [RankingHeader(groupName)] + RankLines(s)
  {
    var parts := [RankingHeader(groupName)] + RankLines(s);
    forall k | 0 <= k < |parts| ensures '\n' !in parts[k] {
      if k > 0 {
        var e := s[k - 1];
        assert parts[k] == IntToString(k) + ". " + e.name + ": " + IntToString(e.score);
        assert '\n' !in IntToString(k) && '\n' !in IntToString(e.score);
      }
    }
    SplitJoin(parts, '\n');
  }

  /** `user.substring(0, 1).toUpperCase() + user.substring(1)` of the lower-cased user name. */
  function UserCap(cmatch: Captures): string
    requires Cap(cmatch, 2).Some?
  {
    Capitalize(ToLower(Cap(cmatch, 2).value))
  }

  const RetrievalError := "Scores couldn't be retrieved for this group."

  /**
   * What `score` does. `scores` is what the store answers for the whole group
   * (`None`: it failed). A truthy third capture is the new score; the string
   * "0" is truthy, so it needs no special case.
   */
  function ScoreEffects(threadId: string, cmatch: Captures, groupName: string, members: Dict<string>,
                        scores: Option<seq<ScoreEntry>>): (r: seq<Effect>)
    ensures |r| <= 1
    ensures r == [] <==> !Truthy(Cap(cmatch, 1)) && !Truthy(Cap(cmatch, 2))
    ensures Truthy(Cap(cmatch, 1)) && scores.Some? ==> r == [Send(Rankings(groupName, SortByScore(scores.value)), threadId)]
    ensures Truthy(Cap(cmatch, 1)) && scores.None? ==> r == [SendError(RetrievalError, Some(threadId))]
    ensures r != [] && (r[0].SetScore? || r[0].ShowScore?) ==>
              && !Truthy(Cap(cmatch, 1)) && Truthy(Cap(cmatch, 2))
              && Truthy(Get(members, ToLower(Cap(cmatch, 2).value)))
              && r[0].userId == Get(members, ToLower(Cap(cmatch, 2).value)).value
              && r[0].userCap == UserCap(cmatch)
    ensures r != [] && r[0].SetScore? ==> Truthy(Cap(cmatch, 3)) && r[0].score == Cap(cmatch, 3).value
    ensures !Truthy(Cap(cmatch, 1)) && Truthy(Cap(cmatch, 2)) ==>
              var id := Get(members, ToLower(Cap(cmatch, 2).value));
              && (Truthy(id) && Truthy(Cap(cmatch, 3)) ==> r == [SetScore(id.value, Cap(cmatch, 3).value, UserCap(cmatch), threadId)])
              && (Truthy(id) && !Truthy(Cap(cmatch, 3)) ==> r == [ShowScore(id.value, UserCap(cmatch), threadId)])
              && (!Truthy(id) ==> r == [SendError("User " + UserCap(cmatch) + " not found", Some(threadId))])
  {
    if Truthy(Cap(cmatch, 1)) then
      match scores
      case Some(list) => [Send(Rankings(groupName, SortByScore(list)), threadId)]
      case None => [SendError(RetrievalError, Some(threadId))]
    else if Truthy(Cap(cmatch, 2)) then
      var user := ToLower(Cap(cmatch, 2).value);
      var userId := Get(members, user);
      var userCap := Capitalize(user);
      if Truthy(userId) then
        var newScore := Cap(cmatch, 3);
        if Truthy(newScore) || newScore == Some("0") then [SetScore(userId.value, newScore.value, userCap, threadId)]
        else [ShowScore(userId.value, userCap, threadId)]
      else
        [SendError("User " + userCap + " not found", Some(threadId))]
    else
      []
  }

  /** `score`: sorts the store's answer and builds the ranking with its loop. */
  method ScoreCommand(threadId: string, cmatch: Captures, g: GroupInfo, scores: Option<seq<ScoreEntry>>)
    returns (effects: seq<Effect>)
    ensures effects == ScoreEffects(threadId, cmatch, g.name, g.members, scores)
  {
    if Truthy(Cap(cmatch, 1)) {
      if scores.Some? {
        var message := RankingMessage(g.name, SortByScore(scores.value));
        effects := [Send(message, threadId)];
      } else {
        effects := [SendError(RetrievalError, Some(threadId))];
      }
    } else if Truthy(Cap(cmatch, 2)) {
      var user := ToLower(Cap(cmatch, 2).value);
      var userId := Get(g.members, user);
      var userCap := Capitalize(user);
      if Truthy(userId) {
        var newScore := Cap(cmatch, 3);
        if Truthy(newScore) || newScore == Some("0") {
          effects := [SetScore(userId.value, newScore.value, userCap, threadId)];
        } else {
          effects := [ShowScore(userId.value, userCap, threadId)];
        }
      } else {
        effects := [SendError("User " + userCap + " not found", Some(threadId))];
      }
    } else {
      effects := [];
    }
  }

  /** Naming a known member with a number sets that member's score to the number as written. */
  lemma ScoreSet(threadId: string, whole: string, name: string, n: int, groupName: string, members: Dict<string>,
                 scores: Option<seq<ScoreEntry>>)
    requires name != "" && Truthy(Get(members, ToLower(name)))
    ensures ScoreEffects(threadId, [Some(whole), None, Some(name), Some(IntToString(n))], groupName, members, scores)
         == [SetScore(Get(members, ToLower(name)).value, IntToString(n), Capitalize(ToLower(name)), threadId)]
  {
  }

  /** Naming an unknown member reports the capitalised name and changes nothing. */
  lemma ScoreUnknownUser(threadId: string, whole: string, name: string, value: Option<string>, groupName: string,
                         members: Dict<string>, scores: Option<seq<ScoreEntry>>)
    requires name != "" && !Truthy(Get(members, ToLower(name)))
    ensures ScoreEffects(threadId, [Some(whole), None, Some(name), value], groupName, members, scores)
         == [SendError("User " + Capitalize(ToLower(name)) + " not found", Some(threadId))]
  {
  }
}
