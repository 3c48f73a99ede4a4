/**
 * The `kick` command: removes one named member, for an optional number of
 * seconds. The handler declares only two parameters, the match and the group,
 * while the dispatcher passes the thread id first; so as dispatched it reads
 * the thread id as its match and the match as its group.
 */
module KickCmd {
  import opened Wrappers
  import opened JsStrings
  import opened JsNumbers
  import opened Chat

  /** `cmatch[2] ? parseInt(cmatch[2]) : undefined`; `None` is undefined or NaN. */
  function OptTime(cmatch: Captures): (t: Option<int>)
    ensures !Truthy(Cap(cmatch, 2)) ==> t.None?
    ensures Truthy(Cap(cmatch, 2)) ==> t == ParseInt(Cap(cmatch, 2))
  {
    if Truthy(Cap(cmatch, 2)) then ParseInt(Cap(cmatch, 2)) else None
  }

  /**
   * The handler as it is meant to be called, with the match and the group:
   * a known member is kicked, an unknown one reported. An absent name raises
   * before the try block.
   */
  function KickCommand(cmatch: Captures, members: Dict<string>): (r: seq<Effect>)
    ensures |r| == 1
    ensures r[0].Raise? <==> Cap(cmatch, 1).None?
    ensures Cap(cmatch, 1).None? ==> r == [Raise(TypeError)]
    ensures Cap(cmatch, 1).Some? ==>
              var user := ToLower(Cap(cmatch, 1).value);
              && (r[0].Kick? <==> Truthy(Get(members, user)))
              && (r[0].Kick? ==> r[0] == Kick(Get(members, user).value, OptTime(cmatch), None))
              && (!r[0].Kick? ==> r[0] == SendError("User " + user + " not recognized", None))
  {
    match Cap(cmatch, 1)
    case None => [Raise(TypeError)]
    case Some(name) =>
      var user := ToLower(name);
      if Truthy(Get(members, user)) then [Kick(Get(members, user).value, OptTime(cmatch), None)]
      else [SendError("User " + user + " not recognized", None)]
  }

  /** A one-character string of `s` at index i, or undefined past its end: `s[i]` on a JavaScript string. */
  function CharAt(s: string, i: nat): (r: Option<string>)
    ensures r.Some? <==> i < |s|
    ensures r.Some? ==> r.value == [s[i]]
  {
    if i < |s| then Some([s[i]]) else None
  }

  /**
   * The handler as the dispatcher calls it: its `cmatch` is the thread id, so
   * `cmatch[1]` is the id's second character (undefined for a shorter id, and
   * lower-casing it raises), and its `groupInfo` is the match array, which has
   * no `members`: reading a member of undefined raises a TypeError inside the
   * try block, which is reported.
   */
  function KickAsDispatched(threadId: string, cmatch: Captures): (r: seq<Effect>)
    ensures |r| == 1
    ensures r[0].Raise? <==> |threadId| < 2
    ensures !r[0].Raise? ==> r[0] == SendError(TypeError, None)
  {
    match CharAt(threadId, 1)
    case None => [Raise(TypeError)]
    case Some(_) => [SendError(TypeError, None)]
  }

  /** As dispatched, `kick` never kicks anyone, whatever the thread and the match. */
  lemma KickAsDispatchedNeverKicks(threadId: string, cmatch: Captures)
    ensures forall i :: 0 <= i < |KickAsDispatched(threadId, cmatch)| ==> !KickAsDispatched(threadId, cmatch)[i].Kick?
  {
  }

  /** A member the intended handler kicks is not kicked as dispatched: `kick alice` in a group where alice is user 100. */
  lemma KickMisdispatchExample()
    ensures KickCommand([Some("kick alice"), Some("alice"), None], [("alice", "100")]) == [Kick("100", None, None)]
    ensures KickAsDispatched("12345", [Some("kick alice"), Some("alice"), None]) == [SendError(TypeError, None)]
  {
    assert ToLower("alice") == "alice";
  }

  /** With the intended parameters, a known member named in any case is kicked for the given number of seconds. */
  lemma KickKnownMember(whole: string, name: string, seconds: nat, members: Dict<string>, id: string)
    requires Get(members, ToLower(name)) == Some(id) && id != ""
    ensures KickCommand([Some(whole), Some(name), Some(IntToString(seconds))], members) == [Kick(id, Some(seconds), None)]
  {
    ParseIntOfNumeral(seconds);
  }
}
