/**
 * `exports.run`: walks the matcher's result object and calls the handler of
 * every command whose trigger matched. The matcher itself is not part of this
 * model; its result is the input.
 */
module Dispatch {
  import opened Wrappers
  import opened Chat

  /** One enumerable property `c` of the matcher's result: whether it is an own property, and `matchInfo[c].m` (null when the trigger did not match). */
  datatype MatchEntry = MatchEntry(key: string, own: bool, m: Option<Captures>)

  /** One call `funcs[key](threadId, cmatch, groupInfo, api, fromUserId, attachments)`. */
  datatype Call = Call(key: string, threadId: string, cmatch: Captures)

  /** `matchInfo.hasOwnProperty(c) && matchInfo[c].m`: a match array is an object and always truthy. */
  predicate Fires(e: MatchEntry) {
    e.own && e.m.Some?
  }

  /** Object keys are unique. */
  predicate DistinctKeys(entries: seq<MatchEntry>) {
    forall i, j :: 0 <= i < j < |entries| ==> entries[i].key != entries[j].key
  }

  /** The call made for a firing entry. */
  function CallOf(e: MatchEntry, threadId: string): (c: Call)
    requires Fires(e)
    ensures c.key == e.key && c.threadId == threadId && c.cmatch == e.m.value
  {
    Call(e.key, threadId, e.m.value)
  }

  /** The last call made threw: the loop has no `try`, so the exception leaves `run` and no later handler is called. */
  predicate Halted(calls: seq<Call>, raises: Call -> bool) {
    calls != [] && raises(calls[|calls| - 1])
  }

  /**
   * The calls made for the entries, in enumeration order; `raises` says which
   * calls throw synchronously, while `run` is still on the stack. A handler's
   * `Raise` effect marks such a throw, but also one inside a platform
   * callback, which cannot stop this loop; `raises` holds only for the former.
   */
  function Invoked(entries: seq<MatchEntry>, threadId: string, raises: Call -> bool): (calls: seq<Call>)
    ensures |calls| <= |entries|
  {
    if entries == [] then []
    else
      var before := Invoked(entries[..|entries| - 1], threadId, raises);
      var last := entries[|entries| - 1];
      if Fires(last) && !Halted(before, raises) then before + [CallOf(last, threadId)] else before
  }

  /**
   * `exports.run`: one handler call per firing entry, each with the group's
   * thread id and that entry's own match, until a handler throws.
   */
  method Run(matchInfo: seq<MatchEntry>, g: GroupInfo, raises: Call -> bool) returns (calls: seq<Call>)
    ensures calls == Invoked(matchInfo, g.threadId, raises)
  {
    calls := [];
    var i := 0;
    while i < |matchInfo|
      invariant 0 <= i <= |matchInfo|
      invariant calls == Invoked(matchInfo[..i], g.threadId, raises)
      invariant !Halted(calls, raises)
    {
      var e := matchInfo[i];
      assert matchInfo[..i + 1][..i] == matchInfo[..i];
      if e.own && e.m.Some? {
        var call := Call(e.key, g.threadId, e.m.value);
        calls := calls + [call];
        if raises(call) {
          InvokedHalted(matchInfo, g.threadId, raises, i + 1);
          return;
        }
      }
      i := i + 1;
    }
    assert matchInfo[..i] == matchInfo;
  }

  /** Once a call has thrown, later entries add no call. */
  lemma {:induction false} InvokedHalted(entries: seq<MatchEntry>, threadId: string, raises: Call -> bool, i: nat)
    requires i <= |entries|
    requires Halted(Invoked(entries[..i], threadId, raises), raises)
    ensures Invoked(entries, threadId, raises) == Invoked(entries[..i], threadId, raises)
    decreases |entries|
  {
    if i < |entries| {
      var init := entries[..|entries| - 1];
      assert init[..i] == entries[..i];
      InvokedHalted(init, threadId, raises, i);
    } else {
      assert entries[..i] == entries;
    }
  }

  /** A call that throws is the last call made. */
  lemma {:induction false} InvokedStopsAtRaise(entries: seq<MatchEntry>, threadId: string, raises: Call -> bool, k: nat)
    requires k < |Invoked(entries, threadId, raises)|
    requires raises(Invoked(entries, threadId, raises)[k])
    ensures k == |Invoked(entries, threadId, raises)| - 1
  {
    var init := entries[..|entries| - 1];
    var before := Invoked(init, threadId, raises);
    var calls := Invoked(entries, threadId, raises);
    if k < |before| {
      assert calls[k] == before[k];
      InvokedStopsAtRaise(init, threadId, raises, k);
      assert Halted(before, raises);
    }
  }

  /** How many calls go to the handler of key c. */
  function CountKey(calls: seq<Call>, c: string): nat
  {
    if calls == [] then 0
    else CountKey(calls[..|calls| - 1], c) + (if calls[|calls| - 1].key == c then 1 else 0)
  }

  lemma CountKeySnoc(calls: seq<Call>, x: Call, c: string)
    ensures CountKey(calls + [x], c) == CountKey(calls, c) + (if x.key == c then 1 else 0)
  {
    assert (calls + [x])[..|calls|] == calls;
  }

  /** The entry under key c fires. */
  predicate FiresFor(entries: seq<MatchEntry>, c: string) {
    exists i :: 0 <= i < |entries| && entries[i].key == c && Fires(entries[i])
  }

  /** No firing entry enumerated before the one under key c throws. */
  predicate NoRaiseBefore(entries: seq<MatchEntry>, threadId: string, raises: Call -> bool, c: string) {
    forall i, j :: 0 <= i < j < |entries| && entries[j].key == c && Fires(entries[i]) ==> !raises(CallOf(entries[i], threadId))
  }

  lemma FiresForSnoc(entries: seq<MatchEntry>, c: string)
    requires entries != []
    ensures FiresFor(entries, c) <==> FiresFor(entries[..|entries| - 1], c) || (entries[|entries| - 1].key == c && Fires(entries[|entries| - 1]))
  {
    var init := entries[..|entries| - 1];
    var last := entries[|entries| - 1];
    if FiresFor(entries, c) && !(last.key == c && Fires(last)) {
      var i :| 0 <= i < |entries| && entries[i].key == c && Fires(entries[i]);
      assert init[i] == entries[i];
    }
    if FiresFor(init, c) {
      var i :| 0 <= i < |init| && init[i].key == c && Fires(init[i]);
      assert entries[i] == init[i];
    }
  }

  /**
   * The handler of c is called at most once, and never when the entry under c
   * does not fire; it is called exactly once when that entry fires and no
   * handler called before it throws.
   */
  lemma {:induction false} InvokedOncePerFiringKey(entries: seq<MatchEntry>, threadId: string, raises: Call -> bool, c: string)
    requires DistinctKeys(entries)
    ensures CountKey(Invoked(entries, threadId, raises), c) <= if FiresFor(entries, c) then 1 else 0
    ensures FiresFor(entries, c) && NoRaiseBefore(entries, threadId, raises, c) ==> CountKey(Invoked(entries, threadId, raises), c) == 1
  {
    if entries != [] {
      var init := entries[..|entries| - 1];
      var last := entries[|entries| - 1];
      var calls := Invoked(entries, threadId, raises);
      var before := Invoked(init, threadId, raises);
      var added := Fires(last) && !Halted(before, raises);
      InvokedOncePerFiringKey(init, threadId, raises, c);
      FiresForSnoc(entries, c);
      if added {
        CountKeySnoc(before, CallOf(last, threadId), c);
      } else {
        assert calls == before;
      }
      if last.key == c {
        assert !FiresFor(init, c);
        if Fires(last) && NoRaiseBefore(entries, threadId, raises, c) && Halted(before, raises) {
          // the last call made so far came from an earlier firing entry, which does not throw
          InvokedCallsCarryOwnMatch(init, threadId, raises, |before| - 1);
          assert false;
        }
      } else if NoRaiseBefore(entries, threadId, raises, c) {
        assert NoRaiseBefore(init, threadId, raises, c) by {
          forall i, j | 0 <= i < j < |init| && init[j].key == c && Fires(init[i])
            ensures !raises(CallOf(init[i], threadId))
          {
            assert entries[i] == init[i] && entries[j] == init[j];
          }
        }
      }
    }
  }

  /** Every call carries the group's thread id and the match of a firing entry under the same key. */
  lemma {:induction false} InvokedCallsCarryOwnMatch(entries: seq<MatchEntry>, threadId: string, raises: Call -> bool, k: nat)
    requires k < |Invoked(entries, threadId, raises)|
    ensures Invoked(entries, threadId, raises)[k].threadId == threadId
    ensures exists i :: 0 <= i < |entries| && entries[i].key == Invoked(entries, threadId, raises)[k].key
                        && Fires(entries[i]) && entries[i].m.value == Invoked(entries, threadId, raises)[k].cmatch
  {
    var init := entries[..|entries| - 1];
    var before := Invoked(init, threadId, raises);
    var calls := Invoked(entries, threadId, raises);
    if k < |before| {
      assert calls[k] == before[k];
      InvokedCallsCarryOwnMatch(init, threadId, raises, k);
      var i :| 0 <= i < |init| && init[i].key == before[k].key && Fires(init[i]) && init[i].m.value == before[k].cmatch;
      assert entries[i] == init[i];
    } else {
      assert calls[k] == CallOf(entries[|entries| - 1], threadId);
    }
  }
}
