/**
 * What a command handler sees and what it does. A handler receives the
 * capture groups of its trigger, the group's snapshot and the bot's settings,
 * and its behaviour is the sequence of effects it asks the chat platform, the
 * property store and the image/search services for, in order.
 */
module Chat {
  import opened Wrappers

  /** A regular-expression match array: index 0 is the whole match, index i the i-th capture group, `None` where JavaScript has undefined. */
  type Captures = seq<Option<string>>

  /** `cmatch[i]`; reading past the end of the array gives undefined. */
  function Cap(cmatch: Captures, i: nat): (r: Option<string>)
    ensures r.Some? <==> i < |cmatch| && cmatch[i].Some?
    ensures r.Some? ==> r == cmatch[i]
  {
    if i < |cmatch| then cmatch[i] else None
  }

  /** JavaScript truthiness of a string-or-undefined value: undefined and the empty string are falsy. */
  predicate Truthy(v: Option<string>) {
    v.Some? && v.value != ""
  }

  /** How JavaScript renders a string-or-undefined value inside a template string, or converts it to a property key. */
  function Show(v: Option<string>): (r: string)
    ensures v.Some? ==> r == v.value
  {
    if v.Some? then v.value else "undefined"
  }

  /** A JavaScript object used as a dictionary: its properties in enumeration order. */
  type Dict<V> = seq<(string, V)>

  /** `d[k]`: the value stored under key k, or undefined. */
  function Get<V>(d: Dict<V>, k: string): (r: Option<V>)
    ensures r.None? <==> forall i :: 0 <= i < |d| ==> d[i].0 != k
    ensures r.Some? ==> exists i :: 0 <= i < |d| && d[i] == (k, r.value)
  {
    if d == [] then None
    else if d[0].0 == k then Some(d[0].1)
    else
      var r := Get(d[1..], k);
      assert r.Some? ==> d[1..][0..] == d[1..];
      r
  }

  /** An object's keys are distinct. */
  predicate DistinctKeys<V>(d: Dict<V>) {
    forall i, j :: 0 <= i < j < |d| ==> d[i].0 != d[j].0
  }

  /** On an object, `d[k]` is the value listed under k. */
  lemma {:induction false} GetListed<V>(d: Dict<V>, i: nat)
    requires DistinctKeys(d) && i < |d|
    ensures Get(d, d[i].0) == Some(d[i].1)
  {
    if i > 0 {
      assert d[1..][i - 1] == d[i];
      assert DistinctKeys(d[1..]) by {
        forall a, b | 0 <= a < b < |d| - 1 ensures d[1..][a].0 != d[1..][b].0 {
          assert d[1..][a] == d[a + 1] && d[1..][b] == d[b + 1];
        }
      }
      GetListed(d[1..], i - 1);
    }
  }

  /** The values of a dictionary in enumeration order: `for (m in d) ... d[m]`. */
  function Values<V>(d: Dict<V>): (vs: seq<V>)
    ensures |vs| == |d|
    ensures forall i :: 0 <= i < |d| ==> vs[i] == d[i].1
  {
    seq(|d|, i requires 0 <= i < |d| => d[i].1)
  }

  /**
   * The object that assigning the pairs of d in order builds (`obj[k] = v`
   * for each): it has exactly the keys of d, and under each the value of the
   * key's last assignment.
   */
  function Assign<V>(d: Dict<V>): (m: map<string, V>)
    ensures forall k :: k in m <==> exists i :: 0 <= i < |d| && d[i].0 == k
    ensures forall i :: 0 <= i < |d| && (forall j :: i < j < |d| ==> d[j].0 != d[i].0) ==> m[d[i].0] == d[i].1
  {
    if d == [] then map[]
    else
      var init := d[..|d| - 1];
      assert forall i :: 0 <= i < |init| ==> init[i] == d[i];
      Assign(init)[d[|d| - 1].0 := d[|d| - 1].1]
  }

  /** Every value of the built object was assigned under its key, by the last assignment to that key. */
  lemma {:induction false} AssignedFrom<V>(d: Dict<V>, k: string)
    requires k in Assign(d)
    ensures exists i :: 0 <= i < |d| && d[i] == (k, Assign(d)[k]) && forall j :: i < j < |d| ==> d[j].0 != k
  {
    var init := d[..|d| - 1];
    if d[|d| - 1].0 == k {
      assert d[|d| - 1] == (k, Assign(d)[k]);
    } else {
      AssignedFrom(init, k);
      var i :| 0 <= i < |init| && init[i] == (k, Assign(init)[k]) && forall j :: i < j < |init| ==> init[j].0 != k;
      assert d[i] == init[i];
      assert forall j :: i < j < |d| - 1 ==> d[j] == init[j];
    }
  }

  /** The settings from the bot's configuration that the modelled handlers read. */
  datatype Config = Config(
    trigger: string,     // word that precedes every command
    botId: string,       // the bot's own user id
    order66Time: int,    // how long order66 and snap kick members for
    rngLow: int,         // defaultRNGBounds[0]
    rngHigh: int         // defaultRNGBounds[1]
  )

  /**
   * One thing a handler does, in the order it does it. `onDone` is what the
   * handler's callback does once the platform or the store reports success;
   * `onError` what it does on failure.
   */
  datatype Effect =
    | Send(text: string, thread: string)
    | SendUrl(url: string, thread: string)
    | SendError(text: string, errorThread: Option<string>)  // sendError's thread argument may be left out
    | Raise(error: string)                          // an exception that escapes the handler
    | Kick(userId: string, duration: Option<int>, onDone: Option<Effect>)
    | Archive(thread: string)
    | SetProperty(name: string, value: map<string, string>, onDone: Option<Effect>)
    | ChangeColor(color: Option<string>, thread: string, onDone: Option<Effect>)  // None is JavaScript's null, the platform's default colour
    | CreatePoll(title: Option<string>, thread: string, options: map<string, bool>, onError: Effect)
    | SearchComic(query: string, thread: string)
    | LatestComic(thread: string)
    | RandomComic(thread: string)
    | ShowHelp(key: string, message: string, addenda: string, thread: string)
    | HelpOverview(thread: string)
    | SetScore(userId: string, score: string, userCap: string, thread: string)
    | ShowScore(userId: string, userCap: string, thread: string)
    | SearchUser(found: Option<string>, thread: string, rank: nat)
    | AddUser(userId: string)
    | Blur(image: Option<string>, pixels: int, gaussian: bool, thread: string)

  /** The text of the TypeError JavaScript raises when a property of undefined is read. */
  const TypeError := "TypeError"

  /**
   * The group snapshot handed to every handler. Only `aliases` is changed in
   * place by a modelled handler; the rest is read.
   */
  class GroupInfo {
    const threadId: string
    const name: string
    const isGroup: bool
    const color: Option<string>        // the chat's colour as a hex string, None (null) when none is set
    const members: Dict<string>        // lower-cased first name -> user id, in enumeration order
    const names: map<string, string>   // user id -> display name
    var aliases: map<string, string>   // lower-cased first name -> alias

    constructor (threadId: string, name: string, isGroup: bool, color: Option<string>, members: Dict<string>,
                 names: map<string, string>, aliases: map<string, string>)
      ensures this.threadId == threadId && this.name == name && this.isGroup == isGroup && this.color == color
      ensures this.members == members && this.names == names && this.aliases == aliases
    {
      this.threadId := threadId;
      this.name := name;
      this.isGroup := isGroup;
      this.color := color;
      this.members := members;
      this.names := names;
      this.aliases := aliases;
    }
  }

  /** `groupInfo.names[groupInfo.members[user]]`: an unknown user's id is undefined, which is looked up as the key "undefined". */
  function NameOf(g: GroupInfo, user: string): (r: Option<string>)
    ensures r.Some? ==> Show(Get(g.members, user)) in g.names && r.value == g.names[Show(Get(g.members, user))]
    ensures r.None? ==> Show(Get(g.members, user)) !in g.names
  {
    var key := Show(Get(g.members, user));
    if key in g.names then Some(g.names[key]) else None
  }
}
