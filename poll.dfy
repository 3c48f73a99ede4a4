/** The `poll` command: a poll whose options are the comma-separated items of the second capture, none selected. */
module Poll {
  import opened Wrappers
  import opened JsStrings
  import opened Chat

  /** `optsObj`: every comma-separated item maps to false; an absent or empty options string gives no options. */
  function PollOptions(opts: Option<string>): (m: map<string, bool>)
    ensures forall k :: k in m ==> !m[k]
    ensures Truthy(opts) ==> forall k :: k in m <==> k in Split(opts.value, ",")
    ensures !Truthy(opts) ==> m == map[]
  {
    if Truthy(opts) then map k | k in Split(opts.value, ",") :: false else map[]
  }

  /** The loop that fills `optsObj`; a repeated item is stored once. */
  method BuildPollOptions(opts: Option<string>) returns (optsObj: map<string, bool>)
    ensures optsObj == PollOptions(opts)
  {
    optsObj := map[];
    if Truthy(opts) {
      var items := Split(opts.value, ",");
      var i := 0;
      while i < |items|
        invariant 0 <= i <= |items|
        invariant optsObj == map k | k in items[..i] :: false
      {
        assert items[..i + 1] == items[..i] + [items[i]];
        optsObj := optsObj[items[i] := false];
        i := i + 1;
      }
      assert items[..i] == items;
    }
  }

  /** `poll <title> <options>`: asks the platform for the poll and reports a failure. */
  method PollCommand(threadId: string, cmatch: Captures) returns (effects: seq<Effect>)
    ensures effects == [CreatePoll(Cap(cmatch, 1), threadId, PollOptions(Cap(cmatch, 2)),
                                   SendError("Cannot create a poll in a non-group chat.", Some(threadId)))]
  {
    var optsObj := BuildPollOptions(Cap(cmatch, 2));
    effects := [CreatePoll(Cap(cmatch, 1), threadId, optsObj,
                           SendError("Cannot create a poll in a non-group chat.", Some(threadId)))];
  }

  /** Options written as a comma-separated list become exactly the listed items, unselected. */
  lemma PollOptionsOfList(items: seq<string>)
    requires |items| > 1 || (|items| == 1 && items[0] != "")
    requires forall i :: 0 <= i < |items| ==> ',' !in items[i]
    ensures PollOptions(Some(Join(items, ","))) == map k | k in items :: false
  {
    SplitJoin(items, ',');
    if |items| > 1 {
      assert |Join(items, ",")| >= 1 by {
        assert Join(items, ",") == items[0] + "," + Join(items[1..], ",");
      }
    }
  }
}
