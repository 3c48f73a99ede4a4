/**
 * The `color` command: shows the chat's colour, or changes it to a colour
 * named case-insensitively, given as one of the platform's hex values, or
 * drawn at random. The platform's colour table is an input, and so is the
 * random colour.
 */
module Color {
  import opened Wrappers
  import opened JsStrings
  import opened Chat

  /** The platform's colour table `api.threadColors`: colour name -> hex value, `None` for the default colour (null). */
  type ColorTable = Dict<Option<string>>

  /** A colour value used as an object key: null becomes "null". */
  function ValueKey(v: Option<string>): (k: string)
    ensures v.Some? ==> k == v.value
  {
    if v.Some? then v.value else "null"
  }

  /** The table flipped into (hex value, name) pairs, null values under "null". */
  function Flipped(api: ColorTable): (d: Dict<string>)
    ensures |d| == |api|
    ensures forall i :: 0 <= i < |api| ==> d[i] == (ValueKey(api[i].1), api[i].0)
  {
    seq(|api|, i requires 0 <= i < |api| => (ValueKey(api[i].1), api[i].0))
  }

  /** The table with lower-cased names. */
  function Lowered(api: ColorTable): (d: ColorTable)
    ensures |d| == |api|
    ensures forall i :: 0 <= i < |api| ==> d[i] == (ToLower(api[i].0), api[i].1)
  {
    seq(|api|, i requires 0 <= i < |api| => (ToLower(api[i].0), api[i].1))
  }

  /** `hexToName`: hex value -> name; of several names with one value the last wins. */
  function FlipColors(api: ColorTable): map<string, string> {
    Assign(Flipped(api))
  }

  /** `colors`: the table with lower-cased names; of several names that differ only in case the last wins. */
  function LowerColors(api: ColorTable): map<string, Option<string>> {
    Assign(Lowered(api))
  }

  /** The loop that fills `colors` from the platform's table. */
  method BuildLowerColors(api: ColorTable) returns (colors: map<string, Option<string>>)
    ensures colors == LowerColors(api)
  {
    colors := map[];
    var i := 0;
    while i < |api|
      invariant 0 <= i <= |api|
      invariant colors == LowerColors(api[..i])
    {
      assert Lowered(api[..i + 1]) == Lowered(api[..i]) + [(ToLower(api[i].0), api[i].1)];
      assert Lowered(api[..i + 1])[..i] == Lowered(api[..i]);
      colors := colors[ToLower(api[i].0) := api[i].1];
      i := i + 1;
    }
    assert api[..i] == api;
  }

  /** `/rand(om)?/i` matches: the input contains "rand" in any case. */
  predicate MentionsRand(s: string) {
    IndexOf(ToLower(s), "rand") >= 0
  }

  /**
   * `usableVal`: a colour that is one of the hex values is used as it is,
   * otherwise it is looked up by name; `None` is undefined (unknown colour),
   * `Some(None)` the default colour.
   */
  function Resolve(colors: map<string, Option<string>>, c: string): (r: Option<Option<string>>)
    ensures Some(c) in colors.Values ==> r == Some(Some(c))
    ensures Some(c) !in colors.Values ==> (r.Some? <==> c in colors)
    ensures Some(c) !in colors.Values && c in colors ==> r == Some(colors[c])
  {
    if Some(c) in colors.Values then Some(Some(c))
    else if c in colors then Some(colors[c])
    else None
  }

  /**
   * `ogColor`: the name of the chat's current colour, looked up by its
   * lower-cased hex value; of several names with that value, the last one.
   */
  function CurrentName(api: ColorTable, groupColor: Option<string>): (r: Option<string>)
    ensures r.Some? <==> exists i :: 0 <= i < |api| && ValueKey(api[i].1) == ValueKey(LowerHex(groupColor))
    ensures r.Some? ==> exists i :: 0 <= i < |api| && ValueKey(api[i].1) == ValueKey(LowerHex(groupColor))
                                   && api[i].0 == r.value
                                   && forall j :: i < j < |api| ==> ValueKey(api[j].1) != ValueKey(LowerHex(groupColor))
  {
    var key := ValueKey(LowerHex(groupColor));
    if key in FlipColors(api) then
      AssignedFrom(Flipped(api), key);
      Some(FlipColors(api)[key])
    else None
  }

  /** `groupInfo.color ? groupInfo.color.toLowerCase() : groupInfo.color` */
  function LowerHex(groupColor: Option<string>): (r: Option<string>)
    ensures r.None? <==> groupColor.None?
    ensures Truthy(groupColor) ==> r == Some(ToLower(groupColor.value))
  {
    if Truthy(groupColor) then Some(ToLower(groupColor.value)) else groupColor
  }

  const NotFound := "Couldn't find this color. See help for accepted values."

  /** What `color` does: change the colour (and then name the old one), report an unknown colour, or show the current one. */
  function ColorEffects(threadId: string, cmatch: Captures, api: ColorTable, groupColor: Option<string>,
                        randomColor: string): (r: seq<Effect>)
    ensures |r| == 1
    ensures !Truthy(Cap(cmatch, 1)) <==> r[0].Send?
    ensures Truthy(Cap(cmatch, 1)) ==> (r[0].Raise? <==> Cap(cmatch, 2).None?)
    ensures r[0].ChangeColor? ==>
              && Cap(cmatch, 2).Some? && r[0].thread == threadId
              && Resolve(LowerColors(api), if MentionsRand(Cap(cmatch, 2).value) then randomColor
                                           else ToLower(Cap(cmatch, 2).value)) == Some(r[0].color)
              && r[0].onDone == Some(Send("Last color was " + Show(CurrentName(api, groupColor)) + ".", threadId))
    ensures r[0].SendError? ==> r[0] == SendError(NotFound, Some(threadId))
    ensures Truthy(Cap(cmatch, 1)) && Cap(cmatch, 2).Some? ==>
              var wanted := if MentionsRand(Cap(cmatch, 2).value) then randomColor else ToLower(Cap(cmatch, 2).value);
              && (r[0].ChangeColor? <==> Resolve(LowerColors(api), wanted).Some?)
              && (r[0].SendError? <==> Resolve(LowerColors(api), wanted).None?)
    ensures !Truthy(Cap(cmatch, 1)) ==>
              r == [Send("The current chat color is " + Show(CurrentName(api, groupColor)) + " (hex value: "
                         + (if Truthy(groupColor) then groupColor.value else "empty") + ").", threadId)]
    ensures Truthy(Cap(cmatch, 1)) && Cap(cmatch, 2).None? ==> r == [Raise(TypeError)]
  {
    var ogColor := CurrentName(api, groupColor);
    if Truthy(Cap(cmatch, 1)) then
      match Cap(cmatch, 2)
      case None => [Raise(TypeError)]
      case Some(input) =>
        var colorToSet := if MentionsRand(input) then randomColor else ToLower(input);
        match Resolve(LowerColors(api), colorToSet)
        case None => [SendError(NotFound, Some(threadId))]
        case Some(v) => [ChangeColor(v, threadId, Some(Send("Last color was " + Show(ogColor) + ".", threadId)))]
    else
      [Send("The current chat color is " + Show(ogColor) + " (hex value: "
            + (if Truthy(groupColor) then groupColor.value else "empty") + ").", threadId)]
  }

  /** `color`: builds the lower-cased table with its loop and acts on it. */
  method ColorCommand(threadId: string, cmatch: Captures, g: GroupInfo, api: ColorTable, randomColor: string)
    returns (effects: seq<Effect>)
    ensures effects == ColorEffects(threadId, cmatch, api, g.color, randomColor)
  {
    var ogColor := CurrentName(api, g.color);
    if Truthy(Cap(cmatch, 1)) {
      var inputColor := Cap(cmatch, 2);
      if inputColor.None? {
        return [Raise(TypeError)];
      }
      var colorToSet := if MentionsRand(inputColor.value) then randomColor else ToLower(inputColor.value);
      var colors := BuildLowerColors(api);
      var usableVal := Resolve(colors, colorToSet);
      if usableVal.None? {
        effects := [SendError(NotFound, Some(threadId))];
      } else {
        effects := [ChangeColor(usableVal.value, threadId, Some(Send("Last color was " + Show(ogColor) + ".", threadId)))];
      }
    } else {
      effects := [Send("The current chat color is " + Show(ogColor) + " (hex value: "
                       + (if Truthy(g.color) then g.color.value else "empty") + ").", threadId)];
    }
  }

  /** A colour name is accepted in any letter case: inputs equal up to case act alike. */
  lemma ColorCaseInsensitive(threadId: string, whole: string, on: string, s: string, t: string,
                             api: ColorTable, groupColor: Option<string>, randomColor: string)
    requires on != "" && ToLower(s) == ToLower(t)
    ensures ColorEffects(threadId, [Some(whole), Some(on), Some(s)], api, groupColor, randomColor)
         == ColorEffects(threadId, [Some(whole), Some(on), Some(t)], api, groupColor, randomColor)
  {
  }

  /** Naming a colour of the table, in any case, switches to that colour's value. */
  lemma ColorByName(threadId: string, whole: string, on: string, s: string, i: nat,
                    api: ColorTable, groupColor: Option<string>, randomColor: string)
    requires on != "" && i < |api| && ToLower(s) == ToLower(api[i].0)
    requires forall j :: i < j < |api| ==> ToLower(api[j].0) != ToLower(api[i].0)
    requires Some(ToLower(s)) !in LowerColors(api).Values
    requires !MentionsRand(s)
    ensures ColorEffects(threadId, [Some(whole), Some(on), Some(s)], api, groupColor, randomColor)
         == [ChangeColor(api[i].1, threadId, Some(Send("Last color was " + Show(CurrentName(api, groupColor)) + ".", threadId)))]
  {
    assert ToLower(s) in LowerColors(api);
  }

  /** A hex value of the table, written in lower case, is used as it is. */
  lemma ColorByHex(threadId: string, whole: string, on: string, h: string, i: nat,
                   api: ColorTable, groupColor: Option<string>, randomColor: string)
    requires on != "" && i < |api| && api[i].1 == Some(h) && ToLower(h) == h
    requires forall j :: i < j < |api| ==> ToLower(api[j].0) != ToLower(api[i].0)
    requires !MentionsRand(h)
    ensures ColorEffects(threadId, [Some(whole), Some(on), Some(h)], api, groupColor, randomColor)
         == [ChangeColor(Some(h), threadId, Some(Send("Last color was " + Show(CurrentName(api, groupColor)) + ".", threadId)))]
  {
    var colors := LowerColors(api);
    assert colors[ToLower(api[i].0)] == Some(h);
    assert Some(h) in colors.Values;
  }

  /** A colour that is neither a name nor a value of the table is reported, and the colour is left alone. */
  lemma ColorNotFound(threadId: string, whole: string, on: string, s: string,
                      api: ColorTable, groupColor: Option<string>, randomColor: string)
    requires on != "" && !MentionsRand(s)
    requires forall i :: 0 <= i < |api| ==> ToLower(api[i].0) != ToLower(s) && api[i].1 != Some(ToLower(s))
    ensures ColorEffects(threadId, [Some(whole), Some(on), Some(s)], api, groupColor, randomColor)
         == [SendError(NotFound, Some(threadId))]
  {
    Unresolvable(api, ToLower(s));
  }

  /** Neither a name nor a value of the table resolves to nothing. */
  lemma Unresolvable(api: ColorTable, c: string)
    requires forall i :: 0 <= i < |api| ==> ToLower(api[i].0) != c && api[i].1 != Some(c)
    ensures Resolve(LowerColors(api), c).None?
  {
    var colors := LowerColors(api);
    if Some(c) in colors.Values {
      var k :| k in colors && colors[k] == Some(c);
      AssignedFrom(Lowered(api), k);
      assert false;
    }
  }

  /** An input that mentions "rand" switches to the random colour when that is one of the table's values. */
  lemma ColorRandom(threadId: string, whole: string, on: string, s: string, i: nat,
                    api: ColorTable, groupColor: Option<string>, randomColor: string)
    requires on != "" && MentionsRand(s)
    requires i < |api| && api[i].1 == Some(randomColor)
    requires forall j :: i < j < |api| ==> ToLower(api[j].0) != ToLower(api[i].0)
    ensures ColorEffects(threadId, [Some(whole), Some(on), Some(s)], api, groupColor, randomColor)
         == [ChangeColor(Some(randomColor), threadId, Some(Send("Last color was " + Show(CurrentName(api, groupColor)) + ".", threadId)))]
  {
    var colors := LowerColors(api);
    assert colors[ToLower(api[i].0)] == Some(randomColor);
    assert Some(randomColor) in colors.Values;
  }
}
