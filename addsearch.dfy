/**
 * The `addsearch` command: looks a user up by name on the chat platform, then
 * either shows the best matches or adds the best match to the group. The
 * platform's answer is an input.
 */
module AddSearch {
  import opened Wrappers
  import opened JsStrings
  import opened JsNumbers
  import opened Chat

  /**
   * What `api.getUserID` answers: the ids of the matching users, best first,
   * or an error whose `error` text may be missing.
   */
  type Lookup = Result<seq<string>, Option<string>>

  /** `data[i]`: undefined past the end of the answer. */
  function Match(data: seq<string>, i: nat): (r: Option<string>)
    ensures r.Some? <==> i < |data|
    ensures r.Some? ==> r.value == data[i]
  {
    if i < |data| then Some(data[i]) else None
  }

  /** `searchForUser(data[i], threadId, i)` for every i below n; none when n is not positive. */
  function SearchResults(data: seq<string>, n: int, threadId: string): (r: seq<Effect>)
    ensures |r| == if n > 0 then n else 0
    ensures forall i :: 0 <= i < |r| ==> r[i] == SearchUser(Match(data, i), threadId, i)
  {
    if n <= 0 then [] else seq(n, i requires 0 <= i < n => SearchUser(Match(data, i), threadId, i))
  }

  /** The loop that shows the results. */
  method ShowResults(data: seq<string>, numResults: int, threadId: string) returns (effects: seq<Effect>)
    ensures effects == SearchResults(data, numResults, threadId)
  {
    effects := [];
    var i := 0;
    while i < numResults
      invariant 0 <= i <= (if numResults > 0 then numResults else 0)
      invariant |effects| == i
      invariant forall k :: 0 <= k < i ==> effects[k] == SearchUser(Match(data, k), threadId, k)
    {
      effects := effects + [SearchUser(Match(data, i), threadId, i)];
      i := i + 1;
    }
  }

  /** `cmatch[1].split(" ")[0].toLowerCase()`: the command word. */
  function CommandWord(first: string): (w: string)
    ensures ' ' !in w
    ensures |w| <= |first| && w == ToLower(first[..|w|])
    ensures |w| == |first| || first[|w|] == ' '
  {
    SplitPiecesAvoidSeparator(first, ' ');
    SplitFirstPiece(first, ' ');
    ToLower(Split(first, " ")[0])
  }

  /** The platform's error text with its typo "Bes" corrected, at its first occurrence. */
  function FixTypo(error: string): (r: string)
  {
    ReplaceFirst(error, "Bes", "Best")
  }

  /**
   * What `addsearch` does once the platform answers: a search shows the first
   * `cmatch[2]` matches (one when that is absent, zero or not a number); an
   * add adds the best match, and an empty answer raises; an error with a
   * text is reported, one without is ignored.
   */
  function AddSearchEffects(threadId: string, cmatch: Captures, answer: Lookup): (r: seq<Effect>)
    ensures Cap(cmatch, 1).None? ==> r == [Raise(TypeError)]
    ensures Cap(cmatch, 1).Some? && answer.Ok? && CommandWord(Cap(cmatch, 1).value) == "search" ==>
              r == SearchResults(answer.value, ParseIntOr(Cap(cmatch, 2), 1), threadId)
    ensures Cap(cmatch, 1).Some? && answer.Ok? && CommandWord(Cap(cmatch, 1).value) != "search" ==>
              r == if answer.value == [] then [Raise(TypeError)] else [AddUser(answer.value[0])]
    ensures Cap(cmatch, 1).Some? && answer.Err? ==>
              r == if Truthy(answer.error) then [SendError(FixTypo(answer.error.value), Some(threadId))] else []
  {
    if Cap(cmatch, 1).None? then [Raise(TypeError)]
    else
      var command := CommandWord(Cap(cmatch, 1).value);
      match answer
      case Ok(data) =>
        if command == "search" then SearchResults(data, ParseIntOr(Cap(cmatch, 2), 1), threadId)
        else if data == [] then [Raise(TypeError)]
        else [AddUser(data[0])]
      case Err(error) =>
        if Truthy(error) then [SendError(FixTypo(error.value), Some(threadId))] else []
  }

  /** `addsearch`: the command word first (an absent one raises before the lookup), then the answer's branch. */
  method AddSearchCommand(threadId: string, cmatch: Captures, answer: Lookup) returns (effects: seq<Effect>)
    ensures effects == AddSearchEffects(threadId, cmatch, answer)
  {
    if Cap(cmatch, 1).None? {
      return [Raise(TypeError)];
    }
    var command := CommandWord(Cap(cmatch, 1).value);
    if answer.Err? {
      effects := if Truthy(answer.error) then [SendError(FixTypo(answer.error.value), Some(threadId))] else [];
      return;
    }
    var data := answer.value;
    var numResults := ParseIntOr(Cap(cmatch, 2), 1);
    if command == "search" {
      effects := ShowResults(data, numResults, threadId);
    } else if data == [] {
      effects := [Raise(TypeError)];
    } else {
      effects := [AddUser(data[0])];
    }
  }

  /** Without a count, a search shows the best match only. */
  lemma SearchShowsBestMatch(threadId: string, whole: string, words: string, name: string, data: seq<string>)
    requires data != [] && CommandWord(words) == "search"
    ensures AddSearchEffects(threadId, [Some(whole), Some(words), None, Some(name)], Ok(data))
         == [SearchUser(Some(data[0]), threadId, 0)]
  {
    var cmatch := [Some(whole), Some(words), None, Some(name)];
    ParseIntUndefined();
    assert ParseIntOr(Cap(cmatch, 2), 1) == 1;
    assert SearchResults(data, 1, threadId) == [SearchUser(Some(data[0]), threadId, 0)];
  }

  /** The word "search" on its own asks for a search. */
  lemma SearchWord()
    ensures CommandWord("search") == "search"
  {
    IndexOfAbsentChar("search", ' ');
    assert Split("search", " ") == ["search"];
    assert ToLower("search") == "search";
  }

  /** A positive count n shows n results ranked 0 to n - 1; ranks past the answer show nothing found. */
  lemma SearchShowsCount(threadId: string, whole: string, words: string, n: nat, name: string, data: seq<string>)
    requires n > 0 && CommandWord(words) == "search"
    ensures AddSearchEffects(threadId, [Some(whole), Some(words), Some(IntToString(n)), Some(name)], Ok(data))
         == seq(n, i requires 0 <= i < n => SearchUser(Match(data, i), threadId, i))
  {
    ParseIntOfNumeral(n);
  }

  /** The API's typo is corrected in the first place it occurs, and the rest of the text is kept. */
  lemma TypoFixed(before: string, after: string)
    requires 'B' !in before
    ensures FixTypo(before + "Bes" + after) == before + "Best" + after
  {
    var s := before + "Bes" + after;
    assert OccursAt(s, "Bes", |before|) by {
      assert s[|before|..|before| + 3] == "Bes";
    }
    forall i | 0 <= i < |before| ensures !OccursAt(s, "Bes", i) {
      assert s[i] == before[i];
      assert s[i..i + 3][0] == s[i];
    }
    assert IndexOf(s, "Bes") == |before|;
    assert s[..|before|] == before;
    assert s[|before| + 3..] == after;
  }
}
