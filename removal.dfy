/**
 * The commands that remove members from the group: `order66` (everyone, for a
 * while), `destroy` (everyone, for good, then the chat is archived) and `snap`
 * (a random half, for a while). All three walk a list of user ids, skip the
 * ones that must stay, and attach the closing message to the first kick only.
 */
module Removal {
  import opened Wrappers
  import opened JsStrings
  import opened Chat

  /** Some effect of r kicks x. */
  predicate Kicks(r: seq<Effect>, x: string) {
    exists i :: 0 <= i < |r| && r[i].Kick? && r[i].userId == x
  }

  /** The kicks for `ids` in order: ids in `exclude` are skipped, and only the first kick carries `notice`. */
  function KickPlan(ids: seq<string>, exclude: set<string>, duration: Option<int>, notice: Option<Effect>): (r: seq<Effect>)
    ensures |r| <= |ids|
    ensures forall i :: 0 <= i < |r| ==> r[i].Kick? && r[i].userId !in exclude && r[i].duration == duration
    ensures forall i :: 0 <= i < |r| ==> r[i].onDone == if i == 0 then notice else None
  {
    if ids == [] then []
    else
      var before := KickPlan(ids[..|ids| - 1], exclude, duration, notice);
      var last := ids[|ids| - 1];
      if last in exclude then before
      else before + [Kick(last, duration, if before == [] then notice else None)]
  }

  /** Exactly the ids that are not excluded are kicked. */
  lemma {:induction false} KickPlanTargets(ids: seq<string>, exclude: set<string>, duration: Option<int>,
                                           notice: Option<Effect>, x: string)
    ensures Kicks(KickPlan(ids, exclude, duration, notice), x) <==> x in ids && x !in exclude
  {
    if ids != [] {
      var init := ids[..|ids| - 1];
      var before := KickPlan(init, exclude, duration, notice);
      var r := KickPlan(ids, exclude, duration, notice);
      KickPlanTargets(init, exclude, duration, notice, x);
      var last := ids[|ids| - 1];
      assert ids == init + [last];
      assert x in ids <==> x in init || x == last;
      if last !in exclude {
        var k := Kick(last, duration, if before == [] then notice else None);
        assert r == before + [k];
        if Kicks(before, x) {
          var i :| 0 <= i < |before| && before[i].Kick? && before[i].userId == x;
          assert r[i] == before[i];
        }
        if x == last {
          assert r[|before|] == k;
        }
        if Kicks(r, x) {
          var i :| 0 <= i < |r| && r[i].Kick? && r[i].userId == x;
          if i < |before| {
            assert before[i] == r[i];
          }
        }
      }
    }
  }

  /** The loop shared by the three commands, with its `callbackset` flag. */
  method KickEach(ids: seq<string>, exclude: set<string>, duration: Option<int>, notice: Option<Effect>)
    returns (effects: seq<Effect>)
    ensures effects == KickPlan(ids, exclude, duration, notice)
  {
    effects := [];
    var callbackset := false;
    var i := 0;
    while i < |ids|
      invariant 0 <= i <= |ids|
      invariant effects == KickPlan(ids[..i], exclude, duration, notice)
      invariant callbackset <==> effects != []
    {
      assert ids[..i + 1][..i] == ids[..i];
      if ids[i] !in exclude {
        if !callbackset {
          effects := effects + [Kick(ids[i], duration, notice)];
          callbackset := true;
        } else {
          effects := effects + [Kick(ids[i], duration, None)];
        }
      }
      i := i + 1;
    }
    assert ids[..i] == ids;
  }

  const Order66Notice := "Balance is restored to the Force."
  const Order66Refusal := "Cannot execute Order 66 on a non-group chat. Safe for now, you are, Master Jedi."

  /** `order66`: in a group, a warning and then every member but the bot kicked for the configured time. */
  function Order66(threadId: string, isGroup: bool, members: Dict<string>, cfg: Config): (r: seq<Effect>)
    ensures |r| >= 1
    ensures !isGroup <==> r == [Send(Order66Refusal, threadId)]
    ensures isGroup ==> r[0] == Send("I hate you all.", threadId)
    ensures !Kicks(r, cfg.botId)
    ensures forall i :: 1 <= i < |r| ==> r[i].Kick? && r[i].duration == Some(cfg.order66Time)
    ensures forall i :: 1 <= i < |r| ==> r[i].onDone == if i == 1 then Some(Send(Order66Notice, threadId)) else None
  {
    if isGroup then
      var plan := KickPlan(Values(members), {cfg.botId}, Some(cfg.order66Time), Some(Send(Order66Notice, threadId)));
      var r := [Send("I hate you all.", threadId)] + plan;
      assert forall i :: 1 <= i < |r| ==> r[i] == plan[i - 1];
      r
    else
      [Send(Order66Refusal, threadId)]
  }

  method Order66Command(threadId: string, g: GroupInfo, cfg: Config) returns (effects: seq<Effect>)
    ensures effects == Order66(threadId, g.isGroup, g.members, cfg)
  {
    if g.isGroup {
      var kicks := KickEach(Values(g.members), {cfg.botId}, Some(cfg.order66Time), Some(Send(Order66Notice, threadId)));
      effects := [Send("I hate you all.", threadId)] + kicks;
    } else {
      effects := [Send(Order66Refusal, threadId)];
    }
  }

  /** In a group, `order66` kicks exactly the members other than the bot. */
  lemma Order66KicksEveryoneElse(threadId: string, members: Dict<string>, cfg: Config, x: string)
    ensures Kicks(Order66(threadId, true, members, cfg), x) <==> x in Values(members) && x != cfg.botId
  {
    var notice := Some(Send(Order66Notice, threadId));
    var plan := KickPlan(Values(members), {cfg.botId}, Some(cfg.order66Time), notice);
    var r := Order66(threadId, true, members, cfg);
    KickPlanTargets(Values(members), {cfg.botId}, Some(cfg.order66Time), notice, x);
    KicksBehind(Send("I hate you all.", threadId), plan, x);
  }

  /** An effect that is not a kick in front of a plan adds no kick. */
  lemma KicksBehind(e: Effect, plan: seq<Effect>, x: string)
    requires !e.Kick?
    ensures Kicks([e] + plan, x) <==> Kicks(plan, x)
  {
    var r := [e] + plan;
    if Kicks(plan, x) {
      var i :| 0 <= i < |plan| && plan[i].Kick? && plan[i].userId == x;
      assert r[i + 1] == plan[i];
    }
    if Kicks(r, x) {
      var i :| 0 <= i < |r| && r[i].Kick? && r[i].userId == x;
      assert plan[i - 1] == r[i];
    }
  }

  /** `destroy`: every member but the bot and the account the bot runs as is removed, then the chat is archived. */
  function Destroy(threadId: string, members: Dict<string>, cfg: Config, currentUser: string): (r: seq<Effect>)
    ensures |r| >= 1 && r[|r| - 1] == Archive(threadId)
    ensures !Kicks(r, cfg.botId) && !Kicks(r, currentUser)
    ensures forall i :: 0 <= i < |r| - 1 ==> r[i].Kick? && r[i].duration == None && r[i].onDone == None
  {
    KickPlan(Values(members), {cfg.botId, currentUser}, None, None) + [Archive(threadId)]
  }

  method DestroyCommand(threadId: string, g: GroupInfo, cfg: Config, currentUser: string) returns (effects: seq<Effect>)
    ensures effects == Destroy(threadId, g.members, cfg, currentUser)
  {
    var kicks := KickEach(Values(g.members), {cfg.botId, currentUser}, None, None);
    effects := kicks + [Archive(threadId)];
  }

  /** `destroy` removes exactly the members other than the bot and the current account. */
  lemma DestroyRemovesEveryoneElse(threadId: string, members: Dict<string>, cfg: Config, currentUser: string, x: string)
    ensures Kicks(Destroy(threadId, members, cfg, currentUser), x)
            <==> x in Values(members) && x != cfg.botId && x != currentUser
  {
    var plan := KickPlan(Values(members), {cfg.botId, currentUser}, None, None);
    var r := Destroy(threadId, members, cfg, currentUser);
    KickPlanTargets(Values(members), {cfg.botId, currentUser}, None, None, x);
    if Kicks(plan, x) {
      var i :| 0 <= i < |plan| && plan[i].Kick? && plan[i].userId == x;
      assert r[i] == plan[i];
    }
    if Kicks(r, x) {
      var i :| 0 <= i < |r| && r[i].Kick? && r[i].userId == x;
      assert plan[i] == r[i];
    }
  }

  const SnapNotice := "Perfectly balanced, as all things should be."
  const SnapRefusal := "Cannot perform The Snap on a non-group chat. The hardest choices require the strongest wills."

  /** The random draw of `snap`: half of the members' positions, rounded up, none twice. */
  predicate ValidPicks(picks: seq<nat>, n: nat) {
    && |picks| == (n + 1) / 2
    && (forall i :: 0 <= i < |picks| ==> picks[i] < n)
    && (forall i, j :: 0 <= i < j < |picks| ==> picks[i] != picks[j])
  }

  /** `snapped`: the ids of the picked members. */
  function Snapped(members: Dict<string>, picks: seq<nat>): (ids: seq<string>)
    requires forall i :: 0 <= i < |picks| ==> picks[i] < |members|
    ensures |ids| == |picks|
    ensures forall i :: 0 <= i < |picks| ==> ids[i] == members[picks[i]].1
  {
    seq(|picks|, i requires 0 <= i < |picks| => members[picks[i]].1)
  }

  /** The last word of the sender's name, as `name.split(" ")` gives it: what follows its last space. */
  function LastWord(name: string): (w: string)
    ensures ' ' !in w
    ensures EndsAfter(name, w, ' ')
  {
    var words := Split(name, " ");
    var w := words[|words| - 1];
    assert w == Split(name, " ")[|Split(name, " ")| - 1];
    LastWordHasNoSpace(name);
    SplitLastPiece(name, ' ');
    w
  }

  /** No piece of a split by a single space contains a space. */
  lemma LastWordHasNoSpace(name: string)
    ensures ' ' !in Split(name, " ")[|Split(name, " ")| - 1]
  {
    SplitPiecesAvoidSeparator(name, ' ');
  }

  /**
   * `snap`: in a group, once the sender's name is known (`None`: the lookup
   * failed and nothing happens), a salute and then the picked members but the
   * bot kicked for the configured time.
   */
  function Snap(threadId: string, isGroup: bool, members: Dict<string>, cfg: Config,
                senderName: Option<string>, picks: seq<nat>): (r: seq<Effect>)
    requires ValidPicks(picks, |members|)
    ensures !isGroup ==> r == [Send(SnapRefusal, threadId)]
    ensures isGroup && senderName.None? ==> r == []
    ensures isGroup && senderName.Some? ==>
              && |r| >= 1 && r[0] == Send("You have my respect, " + LastWord(senderName.value) + ". I hope they remember you.", threadId)
              && |r| - 1 <= (|members| + 1) / 2
              && (forall i :: 1 <= i < |r| ==> r[i].Kick? && r[i].duration == Some(cfg.order66Time))
              && (forall i :: 1 <= i < |r| ==> r[i].onDone == if i == 1 then Some(Send(SnapNotice, threadId)) else None)
    ensures !Kicks(r, cfg.botId)
  {
    if !isGroup then [Send(SnapRefusal, threadId)]
    else if senderName.None? then []
    else
      var plan := KickPlan(Snapped(members, picks), {cfg.botId}, Some(cfg.order66Time), Some(Send(SnapNotice, threadId)));
      var salute := "You have my respect, " + LastWord(senderName.value) + ". I hope they remember you.";
      var r := [Send(salute, threadId)] + plan;
      assert forall i :: 1 <= i < |r| ==> r[i] == plan[i - 1];
      r
  }

  method SnapCommand(threadId: string, g: GroupInfo, cfg: Config, senderName: Option<string>, picks: seq<nat>)
    returns (effects: seq<Effect>)
    requires ValidPicks(picks, |g.members|)
    ensures effects == Snap(threadId, g.isGroup, g.members, cfg, senderName, picks)
  {
    if !g.isGroup {
      return [Send(SnapRefusal, threadId)];
    }
    if senderName.None? {
      return [];
    }
    var snapped := Snapped(g.members, picks);
    var kicks := KickEach(snapped, {cfg.botId}, Some(cfg.order66Time), Some(Send(SnapNotice, threadId)));
    effects := [Send("You have my respect, " + LastWord(senderName.value) + ". I hope they remember you.", threadId)] + kicks;
  }

  /** `snap` kicks exactly the picked members other than the bot. */
  lemma SnapKicksThePicked(threadId: string, members: Dict<string>, cfg: Config, name: string, picks: seq<nat>, x: string)
    requires ValidPicks(picks, |members|)
    ensures Kicks(Snap(threadId, true, members, cfg, Some(name), picks), x)
            <==> x != cfg.botId && exists i :: 0 <= i < |picks| && members[picks[i]].1 == x
  {
    var ids := Snapped(members, picks);
    var notice := Some(Send(SnapNotice, threadId));
    var plan := KickPlan(ids, {cfg.botId}, Some(cfg.order66Time), notice);
    KickPlanTargets(ids, {cfg.botId}, Some(cfg.order66Time), notice, x);
    KicksBehind(Send("You have my respect, " + LastWord(name) + ". I hope they remember you.", threadId), plan, x);
    if exists i :: 0 <= i < |picks| && members[picks[i]].1 == x {
      var i :| 0 <= i < |picks| && members[picks[i]].1 == x;
      assert ids[i] == x;
    }
  }
}
