// The controller chord filter of controller_input_filter.hpp. The filter keeps four fields; what it
// answers is a function of all the polls since the device was last connected.
//
// A mask of buttons is the set of its bit numbers: `&` is intersection, `|` union, `& ~` difference.
module ViewChordFilter {
  type Buttons = set<nat>

  const View: nat := 6
  const Partners: Buttons := {0, 1, 2, 3, 7, 16}  // A, B, X, Y, Menu and the POV's down
  const Intercept: Buttons := {View} + Partners

  // ---- the answer, from the history of polls

  // b is down in every poll from s on.
  predicate HeldFrom(polls: seq<Buttons>, s: nat, b: nat) {
    forall k :: s <= k < |polls| ==> b in polls[k]
  }

  // b has been held without a gap since the first poll, or since some poll with View down.
  ghost predicate Hidden(polls: seq<Buttons>, b: nat) {
    exists s: nat :: s < |polls| && HeldFrom(polls, s, b) && (s == 0 || View in polls[s])
  }

  predicate NoPartner(raw: Buttons) { raw * Partners == {} }

  predicate NoPartnerFrom(polls: seq<Buttons>, s: nat) {
    forall k :: s <= k < |polls| ==> NoPartner(polls[k])
  }

  // The polls end in a run of View that began after the first poll and met no partner.
  ghost predicate EndsInLoneView(polls: seq<Buttons>) {
    exists s: nat :: 0 < s < |polls| && View !in polls[s - 1] && HeldFrom(polls, s, View) && NoPartnerFrom(polls, s)
  }

  // View was let go in the last poll after such a run.
  ghost predicate Tap(polls: seq<Buttons>) {
    |polls| > 0 && View !in polls[|polls| - 1] && EndsInLoneView(polls[..|polls| - 1])
  }

  // The answer to the last poll: the buttons the game sees, and whether View was tapped.
  ghost predicate Answers(polls: seq<Buttons>, buttons: Buttons, tap: bool) {
    && |polls| > 0
    && (tap <==> Tap(polls))
    && forall b :: b in buttons <==>
         if b == View then tap
         else b in polls[|polls| - 1] && !(b in Partners && Hidden(polls, b))
  }

  // ---- how the history's answer changes with one more poll

  lemma HiddenNext(polls: seq<Buttons>, raw: Buttons, b: nat)
    requires |polls| > 0
    ensures Hidden(polls + [raw], b) <==> b in raw && (Hidden(polls, b) || View in raw)
  {
    var all := polls + [raw];
    if Hidden(all, b) {
      var s: nat :| s < |all| && HeldFrom(all, s, b) && (s == 0 || View in all[s]);
      assert b in all[|polls|];
      if s < |polls| {
        assert forall k :: s <= k < |polls| ==> polls[k] == all[k];
        assert HeldFrom(polls, s, b);
      }
    }
    if b in raw && Hidden(polls, b) {
      var s: nat :| s < |polls| && HeldFrom(polls, s, b) && (s == 0 || View in polls[s]);
      assert HeldFrom(all, s, b);
    }
    if b in raw && View in raw {
      assert HeldFrom(all, |polls|, b);
    }
  }

  lemma LoneViewNext(polls: seq<Buttons>, raw: Buttons)
    requires |polls| > 0
    ensures EndsInLoneView(polls + [raw]) <==>
      View in raw && NoPartner(raw) && (View !in polls[|polls| - 1] || EndsInLoneView(polls))
  {
    var all := polls + [raw];
    if EndsInLoneView(all) {
      var s: nat :| 0 < s < |all| && View !in all[s - 1] && HeldFrom(all, s, View) && NoPartnerFrom(all, s);
      assert View in all[|polls|] && NoPartner(all[|polls|]);
      if s < |polls| {
        assert forall k :: s <= k < |polls| ==> polls[k] == all[k];
        assert HeldFrom(polls, s, View) && NoPartnerFrom(polls, s);
      }
    }
    if View in raw && NoPartner(raw) {
      if EndsInLoneView(polls) {
        var s: nat :| 0 < s < |polls| && View !in polls[s - 1] && HeldFrom(polls, s, View) && NoPartnerFrom(polls, s);
        assert HeldFrom(all, s, View) && NoPartnerFrom(all, s);
      } else if View !in polls[|polls| - 1] {
        assert HeldFrom(all, |polls|, View) && NoPartnerFrom(all, |polls|);
      }
    }
  }

  // What the fields stand for, after at least one poll.
  ghost predicate FieldsOk(polls: seq<Buttons>, blocked: Buttons, viewWasDown: bool, chordUsed: bool) {
    && |polls| > 0
    && (viewWasDown <==> View in polls[|polls| - 1])
    && (viewWasDown && !chordUsed <==> EndsInLoneView(polls))
    && blocked <= Intercept
    && forall b :: b in Partners ==> (b in blocked <==> Hidden(polls, b))
  }

  lemma FirstPoll(raw: Buttons)
    ensures FieldsOk([raw], raw * Intercept, View in raw, View in raw)
    ensures Answers([raw], raw - raw * Intercept, false)
  {
  }

  // The words that Apply computes on a later poll.
  function Blocked(was: Buttons, raw: Buttons): Buttons {
    if View in raw then was * raw + raw * Partners else was * raw
  }

  function Filtered(raw: Buttons, blocked: Buttons, tap: bool): Buttons {
    raw - (blocked + {View}) + if tap then {View} else {}
  }

  lemma LaterPoll(polls: seq<Buttons>, blocked: Buttons, viewWasDown: bool, chordUsed: bool, raw: Buttons, used: bool)
    requires FieldsOk(polls, blocked, viewWasDown, chordUsed)
    requires View in raw ==> (used <==> !NoPartner(raw) || (viewWasDown && chordUsed))
    ensures FieldsOk(polls + [raw], Blocked(blocked, raw), View in raw, used)
    ensures var tap := View !in raw && viewWasDown && !chordUsed;
            Answers(polls + [raw], Filtered(raw, Blocked(blocked, raw), tap), tap)
  {
    hide Hidden, EndsInLoneView, NoPartner;
    assert (polls + [raw])[..|polls|] == polls;
    LoneViewNext(polls, raw);
    forall b ensures Hidden(polls + [raw], b) <==> b in raw && (Hidden(polls, b) || View in raw) {
      HiddenNext(polls, raw, b);
    }
  }

  class ViewChordFilter {
    var blocked: Buttons
    var primed: bool
    var viewWasDown: bool
    var chordUsed: bool
    ghost var polls: seq<Buttons>  // since the last Disconnect

    ghost predicate Valid() reads this {
      if primed then FieldsOk(polls, blocked, viewWasDown, chordUsed) else polls == []
    }

    constructor ()
      ensures Valid() && polls == []
    {
      blocked, primed, viewWasDown, chordUsed := {}, false, false, false;
      polls := [];
    }

    method Disconnect()
      modifies this
      ensures Valid() && polls == []
    {
      blocked, primed, viewWasDown, chordUsed := {}, false, false, false;
      polls := [];
    }

    method Apply(raw: Buttons) returns (buttons: Buttons, tap: bool)
      requires Valid()
      modifies this
      ensures Valid() && polls == old(polls) + [raw] && Answers(polls, buttons, tap)
    {
      hide FieldsOk, Answers, Blocked, Filtered, NoPartner;
      if !primed {
        primed := true;
        blocked := raw * Intercept;
        viewWasDown := View in raw;
        chordUsed := viewWasDown;
        polls := [raw];
        FirstPoll(raw);
        return raw - blocked, false;
      }
      buttons, tap := FilterPoll(raw);
      LaterPoll(polls, old(blocked), old(viewWasDown), old(chordUsed), raw, chordUsed);
      polls := polls + [raw];
    }

    // Every poll but the first.
    method FilterPoll(raw: Buttons) returns (buttons: Buttons, tap: bool)
      modifies this`blocked, this`viewWasDown, this`chordUsed
      ensures blocked == Blocked(old(blocked), raw)
      ensures tap <==> View !in raw && old(viewWasDown) && !old(chordUsed)
      ensures buttons == Filtered(raw, blocked, tap)
      ensures viewWasDown <==> View in raw
      ensures View in raw ==> (chordUsed <==> !NoPartner(raw) || (old(viewWasDown) && old(chordUsed)))
    {
      tap := false;
      blocked := blocked * raw;
      var viewDown := View in raw;
      if viewDown {
        if !viewWasDown {
          chordUsed := false;
        }
        var partners := raw * Partners;
        if partners != {} {
          chordUsed := true;
          blocked := blocked + partners;
        }
      } else if viewWasDown && !chordUsed {
        tap := true;
      }
      viewWasDown := viewDown;
      buttons := raw - (blocked + {View});
      if tap {
        buttons := buttons + {View};
      }
    }
  }

  // ---- what the answers have in common

  // The buttons that are neither View nor a partner go through as they are.
  lemma OthersPass(polls: seq<Buttons>, buttons: Buttons, tap: bool, b: nat)
    requires Answers(polls, buttons, tap) && b !in {0, 1, 2, 3, 6, 7, 16}
    ensures b in buttons <==> b in polls[|polls| - 1]
  {
  }

  // A partner goes through too, as long as it was not down in the first poll or together with View
  // at some time in its press.
  lemma PartnerPassesIff(polls: seq<Buttons>, buttons: Buttons, tap: bool, b: nat)
    requires Answers(polls, buttons, tap) && b in {0, 1, 2, 3, 7, 16}
    ensures b in buttons <==>
      b in polls[|polls| - 1] && forall s: nat :: s < |polls| && HeldFrom(polls, s, b) ==> s > 0 && 6 !in polls[s]
  {
    if !Hidden(polls, b) {
      forall s: nat | s < |polls| && HeldFrom(polls, s, b) ensures s > 0 && 6 !in polls[s] {
      }
    }
  }

  // View alone, pressed after the first poll and let go, is a tap, and the game sees it then.
  lemma LonePressIsTap(polls: seq<Buttons>, press: seq<Buttons>, last: Buttons, buttons: Buttons, tap: bool)
    requires polls != [] && 6 !in polls[|polls| - 1] && press != [] && 6 !in last
    requires forall k :: 0 <= k < |press| ==> 6 in press[k] && press[k] !! {0, 1, 2, 3, 7, 16}
    requires Answers(polls + press + [last], buttons, tap)
    ensures tap && 6 in buttons
  {
    var all := polls + press;
    assert (all + [last])[..|all|] == all && (all + [last])[|all|] == last;
    assert forall k :: |polls| <= k < |all| ==> all[k] == press[k - |polls|];
    assert all[|polls| - 1] == polls[|polls| - 1];
    assert HeldFrom(all, |polls|, View) && NoPartnerFrom(all, |polls|);
    assert EndsInLoneView(all);
  }

  // View is never reported on two polls in a row.
  lemma TapsAreApart(polls: seq<Buttons>)
    requires |polls| > 1 && Tap(polls)
    ensures !Tap(polls[..|polls| - 1])
  {
  }

  // A hidden partner stays hidden until it is let go, whatever View does in the meantime.
  lemma {:induction false} HiddenUntilReleased(polls: seq<Buttons>, later: seq<Buttons>, b: nat)
    requires |polls| > 0 && Hidden(polls, b) && HeldFrom(later, 0, b)
    ensures Hidden(polls + later, b)
  {
    if later == [] {
      assert polls + later == polls;
    } else {
      var front, last := later[..|later| - 1], later[|later| - 1];
      HiddenUntilReleased(polls, front, b);
      HiddenNext(polls + front, last, b);
      assert polls + later == (polls + front) + [last];
    }
  }

  // A chord hides its partner at once, and the View press it belongs to ends without a tap.
  lemma ChordIsNotATap(polls: seq<Buttons>, chord: Buttons, held: seq<Buttons>, last: Buttons, b: nat)
    requires b in Partners && b in chord && View in chord && HeldFrom(held, 0, View)
    ensures Hidden(polls + [chord], b)
    ensures !Tap(polls + [chord] + held + [last])
  {
    assert HeldFrom(polls + [chord], |polls|, b);
    assert b in chord * Partners;
    var all := polls + [chord] + held;
    var whole := all + [last];
    assert whole[..|whole| - 1] == all;
    if EndsInLoneView(all) {
      var s: nat :| 0 < s < |all| && View !in all[s - 1] && HeldFrom(all, s, View) && NoPartnerFrom(all, s);
      ViewSince(polls, chord, held, s - 1);
    }
  }

  lemma ViewSince(polls: seq<Buttons>, chord: Buttons, held: seq<Buttons>, k: nat)
    requires View in chord && HeldFrom(held, 0, View) && k < |polls + [chord] + held|
    ensures (polls + [chord] + held)[|polls|] == chord
    ensures k >= |polls| ==> View in (polls + [chord] + held)[k]
  {
  }
}
