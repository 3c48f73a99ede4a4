/**
 * The `xkcd` command's choice between a search, the newest comic, a given
 * comic and a random one. The requests themselves are effects.
 */
module Xkcd {
  import opened Wrappers
  import opened JsStrings
  import opened JsNumbers
  import opened Chat

  /** `cmatch[1].split(query).join("").trim()`: splitting by undefined leaves the first capture whole. */
  function XkcdParam(first: string, query: Option<string>): string
  {
    Trim(if query.Some? then RemoveAll(first, query.value) else first)
  }

  /**
   * `xkcd`: a search when the param is "search" and a query was given, else the
   * newest comic for "new", else the comic page named by a non-empty param;
   * with no first capture, a random comic.
   */
  function XkcdCommand(threadId: string, cmatch: Captures): (r: seq<Effect>)
    ensures |r| <= 1
    ensures !Truthy(Cap(cmatch, 1)) <==> r == [RandomComic(threadId)]
    ensures Truthy(Cap(cmatch, 1)) ==>
              var p := XkcdParam(Cap(cmatch, 1).value, Cap(cmatch, 2));
              && (r != [] && r[0].SearchComic? <==> Truthy(Cap(cmatch, 2)) && p == "search")
              && (r != [] && r[0].SearchComic? ==> r == [SearchComic(Cap(cmatch, 2).value, threadId)])
              && (!(Truthy(Cap(cmatch, 2)) && p == "search") ==>
                    && (r == [LatestComic(threadId)] <==> p == "new")
                    && (p != "new" && p != "" ==> r == [SendUrl("http://xkcd.com/" + p, threadId)])
                    && (r == [] <==> p == ""))
  {
    if Truthy(Cap(cmatch, 1)) then
      var query := Cap(cmatch, 2);
      var param := XkcdParam(Cap(cmatch, 1).value, query);
      if Truthy(query) && param == "search" then [SearchComic(query.value, threadId)]
      else if param == "new" then [LatestComic(threadId)]
      else if param != "" then [SendUrl("http://xkcd.com/" + param, threadId)]
      else []
    else
      [RandomComic(threadId)]
  }

  /** `xkcd <number>` links to that comic. */
  lemma XkcdNumber(threadId: string, whole: string, n: int)
    ensures XkcdCommand(threadId, [Some(whole), Some(IntToString(n))]) == [SendUrl("http://xkcd.com/" + IntToString(n), threadId)]
  {
    var s := IntToString(n);
    assert !IsSpace(s[0]) && !IsSpace(s[|s| - 1]);
    TrimUnpadded(s);
    assert XkcdParam(s, None) == s;
    assert s != "new" && s != "" by {
      assert "new"[0] == 'n';
    }
  }

  /** `xkcd search <query>` searches for the query, when the query cannot be found earlier inside "search ". */
  lemma XkcdSearch(threadId: string, whole: string, query: string)
    requires query != [] && query[0] !in "search "
    ensures XkcdCommand(threadId, [Some(whole), Some("search " + query), Some(query)]) == [SearchComic(query, threadId)]
  {
    var p := "search ";
    forall i | 0 <= i < |p| ensures !OccursAt(p + query, query, i) {
      assert (p + query)[i..i + |query|][0] == p[i];
    }
    assert OccursAt(p + query, query, |p|) by {
      assert (p + query)[|p|..|p| + |query|] == query;
    }
    assert IndexOf(p + query, query) == |p|;
    RemoveAppended(p, query);
    TrimTrailingSpace("search", " ");
    assert "search" + " " == p;
  }
}
