/** The jump-input gate of the newer plugin: one flag, `usedJumpInput`, that
    makes a held jump button count as a jump only until the jump it started has
    used it. The button hook clears the flag on a fresh press and reports held
    input only while the flag is clear; the jumping-state hook sets it again when
    the jump takes effect. */
module JumpInput {
  import opened Engine

  /** The two ways the engine asks about a control. */
  datatype ControlState = Held | Pressed

  /** WillJump: the jumping state sets the velocity unless the controller is
      about to go back to the ground or start climbing. */
  function WillJump(wantState: StateType): (r: bool)
    ensures r <==> wantState != OnGround && wantState != Climbing
  {
    match wantState
    case OnGround => false
    case Climbing => false
    case _ => true
  }

  /** One call of either hook, with the engine's answers it sees: the original
      button check's answers for a fresh press and for held input, or
      ShouldUsePhysics and the controller's wanted state. */
  datatype Event =
    | ButtonCheck(pressed: int, held: int)
    | JumpUpdate(usePhysics: bool, wantState: StateType)

  /** A call that clears the flag: a fresh press. */
  predicate IsPress(e: Event) {
    e.ButtonCheck? && e.pressed != 0
  }

  /** A call that sets the flag: a jump the plugin handles taking effect. */
  predicate IsConsume(e: Event) {
    e.JumpUpdate? && e.usePhysics && WillJump(e.wantState)
  }

  /** The flag after one call. */
  function Step(used: bool, e: Event): bool {
    match e
    case ButtonCheck(pressed, _) => if pressed != 0 then false else used
    case JumpUpdate(usePhysics, wantState) => if usePhysics && WillJump(wantState) then true else used
  }

  /** What the button hook returns, given the flag before the call. */
  function Answer(used: bool, pressed: int, held: int): int {
    if pressed != 0 then 1 else if used then 0 else held
  }

  /** The flag after a sequence of calls. */
  function Run(used: bool, events: seq<Event>): bool
    decreases |events|
  {
    if |events| == 0 then used else Run(Step(used, events[0]), events[1..])
  }

  /** The button hook's answers along a sequence of calls, in order. */
  function Answers(used: bool, events: seq<Event>): seq<int>
    decreases |events|
  {
    if |events| == 0 then []
    else
      var e := events[0];
      (if e.ButtonCheck? then [Answer(used, e.pressed, e.held)] else [])
        + Answers(Step(used, e), events[1..])
  }

  /** The number of button checks in a sequence of calls. */
  function ButtonChecks(events: seq<Event>): nat
    decreases |events|
  {
    if |events| == 0 then 0 else (if events[0].ButtonCheck? then 1 else 0) + ButtonChecks(events[1..])
  }

  /** The held answers of the button checks in a sequence of calls, in order. */
  function HeldAnswers(events: seq<Event>): seq<int>
    decreases |events|
  {
    if |events| == 0 then []
    else (if events[0].ButtonCheck? then [events[0].held] else []) + HeldAnswers(events[1..])
  }

  /** Running two sequences of calls one after the other. */
  lemma {:induction false} RunConcat(used: bool, a: seq<Event>, b: seq<Event>)
    ensures Run(used, a + b) == Run(Run(used, a), b)
    ensures Answers(used, a + b) == Answers(used, a) + Answers(Run(used, a), b)
    decreases |a|
  {
    if |a| == 0 {
      assert a + b == b;
    } else {
      assert (a + b)[0] == a[0];
      assert (a + b)[1..] == a[1..] + b;
      RunConcat(Step(used, a[0]), a[1..], b);
    }
  }

  /** The button hook answers once for every button check. */
  lemma {:induction false} AnswersLength(used: bool, events: seq<Event>)
    ensures |Answers(used, events)| == ButtonChecks(events)
    decreases |events|
  {
    if |events| != 0 {
      AnswersLength(Step(used, events[0]), events[1..]);
    }
  }

  /** Once the flag is set, it stays set until the next fresh press, whatever
      jumping-state calls come in between, and every button check answers 0
      whatever the held check would say. */
  lemma {:induction false} HeldIgnoredWhileUsed(events: seq<Event>)
    requires forall i :: 0 <= i < |events| ==> !IsPress(events[i])
    ensures Run(true, events)
    ensures |Answers(true, events)| == ButtonChecks(events)
    ensures forall i :: 0 <= i < |Answers(true, events)| ==> Answers(true, events)[i] == 0
    decreases |events|
  {
    if |events| != 0 {
      assert !IsPress(events[0]);
      HeldIgnoredWhileUsed(events[1..]);
    }
  }

  /** Once the flag is clear, it stays clear until a press or a jump the plugin
      handles, and held input passes through: the answers are the held check's. */
  lemma {:induction false} HeldPassesWhileFresh(events: seq<Event>)
    requires forall i :: 0 <= i < |events| ==> !IsConsume(events[i])
    requires forall i :: 0 <= i < |events| ==> events[i].ButtonCheck? ==> events[i].pressed == 0
    ensures !Run(false, events)
    ensures Answers(false, events) == HeldAnswers(events)
    decreases |events|
  {
    if |events| != 0 {
      assert !IsConsume(events[0]);
      HeldPassesWhileFresh(events[1..]);
    }
  }

  /** The flag is clear exactly when some fresh press has not been followed by
      a jump the plugin handles, or it started clear and no such jump came. */
  lemma {:induction false} RunCharacterization(used: bool, events: seq<Event>)
    ensures !Run(used, events) <==>
              (exists i :: 0 <= i < |events| && IsPress(events[i]) &&
                 forall j :: i < j < |events| ==> !IsConsume(events[j]))
              || (!used && forall j :: 0 <= j < |events| ==> !IsConsume(events[j]))
    decreases |events|
  {
    if |events| != 0 {
      var before := events[..|events| - 1];
      var last := events[|events| - 1];
      assert events == before + [last];
      RunConcat(used, before, [last]);
      RunCharacterization(used, before);
      assert Run(Run(used, before), [last]) == Step(Run(used, before), last);
      if IsPress(last) {
        assert !Run(used, events);
      } else if IsConsume(last) {
        assert Run(used, events);
        forall i | 0 <= i < |events| && IsPress(events[i])
          ensures exists j :: i < j < |events| && IsConsume(events[j])
        {
          assert IsConsume(events[|events| - 1]);
        }
      } else {
        assert Run(used, events) == Run(used, before);
        if exists i :: 0 <= i < |before| && IsPress(before[i]) &&
                         forall j :: i < j < |before| ==> !IsConsume(before[j]) {
          var i :| 0 <= i < |before| && IsPress(before[i]) &&
                   forall j :: i < j < |before| ==> !IsConsume(before[j]);
          assert IsPress(events[i]);
          assert forall j :: i < j < |events| ==> !IsConsume(events[j]) by {
            forall j | i < j < |events|
              ensures !IsConsume(events[j])
            {
              if j < |before| {
                assert events[j] == before[j];
              }
            }
          }
        }
        if exists i :: 0 <= i < |events| && IsPress(events[i]) &&
                         forall j :: i < j < |events| ==> !IsConsume(events[j]) {
          var i :| 0 <= i < |events| && IsPress(events[i]) &&
                   forall j :: i < j < |events| ==> !IsConsume(events[j]);
          assert i < |before|;
          assert IsPress(before[i]);
          assert forall j :: i < j < |before| ==> !IsConsume(before[j]) by {
            forall j | i < j < |before|
              ensures !IsConsume(before[j])
            {
              assert before[j] == events[j];
            }
          }
        }
        if forall j :: 0 <= j < |before| ==> !IsConsume(before[j]) {
          assert forall j :: 0 <= j < |events| ==> !IsConsume(events[j]) by {
            forall j | 0 <= j < |events|
              ensures !IsConsume(events[j])
            {
              if j < |before| {
                assert events[j] == before[j];
              }
            }
          }
        }
        if forall j :: 0 <= j < |events| ==> !IsConsume(events[j]) {
          assert forall j :: 0 <= j < |before| ==> !IsConsume(before[j]) by {
            forall j | 0 <= j < |before|
              ensures !IsConsume(before[j])
            {
              assert before[j] == events[j];
            }
          }
        }
      }
    }
  }

  /** The global player record: `usedJumpInput` starts out set. `history` is the
      calls of the two hooks so far, kept only for the proofs. */
  class PlayerJumpState {
    var usedJumpInput: bool
    ghost var history: seq<Event>

    ghost predicate Valid()
      reads this
    {
      usedJumpInput == Run(true, history)
    }

    constructor ()
      ensures Valid() && history == [] && usedJumpInput
    {
      usedJumpInput := true;
      history := [];
    }

    /** hook_CheckJumpButton: asks the original check for a fresh press, and for
        held input only when there was none and the flag is clear. `queried`
        lists the questions asked, in order. */
    method CheckJumpButton(original: ControlState -> int) returns (result: int, ghost queried: seq<ControlState>)
      requires Valid()
      modifies this
      ensures Valid()
      ensures history == old(history) + [ButtonCheck(original(Pressed), original(Held))]
      ensures result == Answer(old(usedJumpInput), original(Pressed), original(Held))
      ensures usedJumpInput == (if original(Pressed) != 0 then false else old(usedJumpInput))
      ensures queried == if original(Pressed) != 0 || old(usedJumpInput) then [Pressed] else [Pressed, Held]
    {
      RunConcat(true, history, [ButtonCheck(original(Pressed), original(Held))]);
      history := history + [ButtonCheck(original(Pressed), original(Held))];
      queried := [Pressed];
      if original(Pressed) != 0 {
        usedJumpInput := false;
        return 1, queried;
      } else if usedJumpInput {
        return 0, queried;
      }
      queried := queried + [Held];
      result := original(Held);
    }

    /** hook_bhkCharacterStateJumping_UpdateVelocity: sets the flag when the
        plugin handles this controller and the jump will take effect; the
        original routine it then calls is outside this model. */
    method JumpingUpdateVelocity(usePhysics: bool, wantState: StateType)
      requires Valid()
      modifies this
      ensures Valid()
      ensures history == old(history) + [JumpUpdate(usePhysics, wantState)]
      ensures usedJumpInput == (if usePhysics && WillJump(wantState) then true else old(usedJumpInput))
    {
      RunConcat(true, history, [JumpUpdate(usePhysics, wantState)]);
      history := history + [JumpUpdate(usePhysics, wantState)];
      if usePhysics && WillJump(wantState) {
        usedJumpInput := true;
      }
    }
  }

  /** A press starts a jump, the jump takes effect, and the button is still
      held: the held input no longer counts. Without the plugin's physics the
      jump does not use the input up and the held input still counts. */
  lemma JumpCycle(held: int)
    ensures Answers(true, [ButtonCheck(1, held), JumpUpdate(true, InAir), ButtonCheck(0, held)]) == [1, 0]
    ensures Answers(true, [ButtonCheck(1, held), JumpUpdate(false, InAir), ButtonCheck(0, held)]) == [1, held]
  {
    var tail := [ButtonCheck(0, held)];
    assert tail[1..] == [];
    assert Answers(true, tail) == [0];
    assert Answers(false, tail) == [held];
    var afterUsed := [JumpUpdate(true, InAir)] + tail;
    assert afterUsed[1..] == tail;
    assert Answers(false, afterUsed) == [0];
    var afterKept := [JumpUpdate(false, InAir)] + tail;
    assert afterKept[1..] == tail;
    assert Answers(false, afterKept) == [held];
    var used := [ButtonCheck(1, held)] + afterUsed;
    assert used[1..] == afterUsed;
    assert used == [ButtonCheck(1, held), JumpUpdate(true, InAir), ButtonCheck(0, held)];
    var kept := [ButtonCheck(1, held)] + afterKept;
    assert kept[1..] == afterKept;
    assert kept == [ButtonCheck(1, held), JumpUpdate(false, InAir), ButtonCheck(0, held)];
  }
}
