/**
 * The `alias` command: clears, sets or shows the alias of one group member.
 * The group's alias table is changed in place and then saved to the property
 * store.
 */
module Alias {
  import opened Wrappers
  import opened JsStrings
  import opened Chat

  /** The request of one `alias` call. */
  datatype AliasAction = Clear | SetTo(input: string) | Display

  /** `cmatch[1]` asks to clear; otherwise a truthy `cmatch[3]` is the new alias; otherwise the alias is shown. */
  function ActionOf(cmatch: Captures): (a: AliasAction)
    ensures a.Clear? <==> Truthy(Cap(cmatch, 1))
    ensures a.SetTo? <==> !Truthy(Cap(cmatch, 1)) && Truthy(Cap(cmatch, 3))
    ensures a.SetTo? ==> a.input == Cap(cmatch, 3).value
  {
    if Truthy(Cap(cmatch, 1)) then Clear
    else if Truthy(Cap(cmatch, 3)) then SetTo(Cap(cmatch, 3).value)
    else Display
  }

  /** The alias table after the request for `user`: only that user's entry can change. */
  function AliasUpdate(aliases: map<string, string>, user: string, a: AliasAction): (r: map<string, string>)
    ensures forall k :: k != user ==> (k in r <==> k in aliases) && (k in aliases ==> r[k] == aliases[k])
    ensures a.Clear? ==> user !in r
    ensures a.SetTo? ==> user in r && r[user] == ToLower(a.input)
    ensures a.Display? ==> r == aliases
  {
    match a
    case Clear => aliases - {user}
    case SetTo(input) => aliases[user := ToLower(input)]
    case Display => aliases
  }

  /** What the call reports once the table is saved, or the alias it shows. */
  function AliasEffects(threadId: string, name: Option<string>, aliases: map<string, string>, user: string,
                        a: AliasAction): (r: seq<Effect>)
    ensures |r| == 1
    ensures r[0].SetProperty? <==> !a.Display?
    ensures r[0].SetProperty? ==> r[0].name == "aliases" && r[0].value == AliasUpdate(aliases, user, a)
    ensures a.Clear? ==> r[0].onDone == Some(Send("Alias cleared for " + Show(name) + ".", threadId))
    ensures a.SetTo? ==> r[0].onDone == Some(Send(Show(name) + " can now be called \"" + a.input + "\".", threadId))
    ensures a.Display? && user in aliases && aliases[user] != "" ==>
              r == [Send(Show(name) + " can also be called \"" + aliases[user] + "\".", threadId)]
    ensures a.Display? && (user !in aliases || aliases[user] == "") ==>
              r == [Send(Show(name) + " does not have an alias.", threadId)]
  {
    var newAliases := AliasUpdate(aliases, user, a);
    match a
    case Clear =>
      [SetProperty("aliases", newAliases, Some(Send("Alias cleared for " + Show(name) + ".", threadId)))]
    case SetTo(input) =>
      [SetProperty("aliases", newAliases, Some(Send(Show(name) + " can now be called \"" + input + "\".", threadId)))]
    case Display =>
      if user in aliases && aliases[user] != "" then
        [Send(Show(name) + " can also be called \"" + aliases[user] + "\".", threadId)]
      else
        [Send(Show(name) + " does not have an alias.", threadId)]
  }

  /**
   * `alias`: the member's lower-cased first name is `cmatch[2]` (an absent one
   * raises before anything changes); the table is updated in place.
   */
  method AliasCommand(threadId: string, cmatch: Captures, g: GroupInfo) returns (effects: seq<Effect>)
    modifies g
    ensures Cap(cmatch, 2).None? ==> effects == [Raise(TypeError)] && g.aliases == old(g.aliases)
    ensures Cap(cmatch, 2).Some? ==>
              var user := ToLower(Cap(cmatch, 2).value);
              && g.aliases == AliasUpdate(old(g.aliases), user, ActionOf(cmatch))
              && effects == AliasEffects(threadId, NameOf(g, user), old(g.aliases), user, ActionOf(cmatch))
  {
    if Cap(cmatch, 2).None? {
      return [Raise(TypeError)];
    }
    var user := ToLower(Cap(cmatch, 2).value);
    var aliasInput := Cap(cmatch, 3);
    var name := NameOf(g, user);
    if Truthy(Cap(cmatch, 1)) {
      g.aliases := g.aliases - {user};
      effects := [SetProperty("aliases", g.aliases, Some(Send("Alias cleared for " + Show(name) + ".", threadId)))];
    } else if Truthy(aliasInput) {
      var alias := ToLower(aliasInput.value);
      g.aliases := g.aliases[user := alias];
      effects := [SetProperty("aliases", g.aliases,
                              Some(Send(Show(name) + " can now be called \"" + aliasInput.value + "\".", threadId)))];
    } else if user in g.aliases && g.aliases[user] != "" {
      effects := [Send(Show(name) + " can also be called \"" + g.aliases[user] + "\".", threadId)];
    } else {
      effects := [Send(Show(name) + " does not have an alias.", threadId)];
    }
  }

  /** After an alias is set, showing it gives the alias in lower case. */
  lemma SetThenDisplay(threadId: string, name: Option<string>, aliases: map<string, string>, user: string, input: string)
    requires input != ""
    ensures AliasEffects(threadId, name, AliasUpdate(aliases, user, SetTo(input)), user, Display)
         == [Send(Show(name) + " can also be called \"" + ToLower(input) + "\".", threadId)]
  {
  }

  /** After an alias is cleared, the member has none. */
  lemma ClearThenDisplay(threadId: string, name: Option<string>, aliases: map<string, string>, user: string)
    ensures AliasEffects(threadId, name, AliasUpdate(aliases, user, Clear), user, Display)
         == [Send(Show(name) + " does not have an alias.", threadId)]
  {
  }

  /** Setting an alias twice is setting it once: the second call replaces the first. */
  lemma SetTwice(aliases: map<string, string>, user: string, first: string, second: string)
    ensures AliasUpdate(AliasUpdate(aliases, user, SetTo(first)), user, SetTo(second))
         == AliasUpdate(aliases, user, SetTo(second))
  {
  }
}
