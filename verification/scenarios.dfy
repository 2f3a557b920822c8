/** Client code that drives a ComboNext widget through its public operations
    and relies only on their contracts, as a caller in the game would. */
module ComboNextScenarios {
  import opened ComboNextScript

  /** A step right and a step left bring the cursor back to where it started
      and announce both moves. */
  method StepRightThenLeftRestores(members: seq<ComboNextMember>, start: int)
    returns (afterRight: int, afterLeft: int, shown: string, ghost trace: seq<int>)
    requires 0 <= start < |members|
    ensures 0 <= afterRight < |members|
    ensures afterLeft == start
    ensures shown == members[start].text
    ensures trace == [start, afterRight, start]
  {
    var combo := new ComboNext(members, "");
    var outcome := combo.SetCurrentIndex(start);
    combo.ChangeMember(1);
    afterRight := combo.currentIndex;
    combo.ChangeMember(-1);
    StepRightThenLeft(start, |members|);
    afterLeft, shown := combo.currentIndex, combo.text;
    trace := combo.notified;
  }

  /** Stepping a widget that has no members changes nothing. */
  method StepWithoutMembers(index: int, initialText: string, direction: int)
    returns (indexAfter: int, textAfter: string)
    ensures indexAfter == index && textAfter == initialText
  {
    var combo := new ComboNext([], initialText);
    combo.currentIndex := index;
    combo.ChangeMember(direction);
    indexAfter, textAfter := combo.currentIndex, combo.text;
    assert combo.notified == [];
  }

  /** Selecting "X" in [A, X, B] moves the cursor to position 1 and shows
      "X"; selecting "Z" throws and leaves the cursor at 1. */
  method SelectByName() returns (found: Outcome, indexAfterFound: int, missing: Outcome, indexAfterMissing: int, shown: string)
    ensures found == Pass && indexAfterFound == 1
    ensures missing.Fail? && missing.error.ArgumentException?
    ensures indexAfterMissing == 1 && shown == "X"
  {
    var combo := new ComboNext([ComboNextMember("A"), ComboNextMember("X"), ComboNextMember("B")], "");
    assert combo.members[1].text == "X";
    found := combo.ChangeMemberByName("X");
    indexAfterFound := combo.currentIndex;
    missing := combo.ChangeMemberByName("Z");
    assert !HasMember(combo.members, "Z");
    indexAfterMissing, shown := combo.currentIndex, combo.text;
  }

  /** The first of several equal names is selected. */
  method SelectByNameTakesFirst() returns (index: int)
    ensures index == 1
  {
    var combo := new ComboNext([ComboNextMember("A"), ComboNextMember("X"), ComboNextMember("X")], "");
    var outcome := combo.ChangeMemberByName("X");
    assert combo.members[1].text == "X";
    index := combo.currentIndex;
  }

  /** Index 5 of a three-member list is out of range: the call throws and
      the cursor stays put. */
  method SelectByIndexOutOfRange() returns (outcome: Outcome, indexAfter: int)
    ensures outcome == Fail(ArgumentOutOfRangeException("index"))
    ensures indexAfter == 0
  {
    var combo := new ComboNext([ComboNextMember("A"), ComboNextMember("X"), ComboNextMember("B")], "");
    outcome := combo.SetCurrentIndex(5);
    indexAfter := combo.currentIndex;
  }

  /** Refreshing an empty widget clears its label. */
  method RefreshWithoutMembers(initialText: string) returns (shown: string)
    ensures shown == ""
  {
    var combo := new ComboNext([], initialText);
    combo.SetUI();
    shown := combo.text;
  }

  /** Validating an out-of-range index typed into the inspector (-1 for a
      three-member list) wraps it to the last member; validating again
      changes nothing. */
  method ValidateTwice() returns (first: int, second: int, shown: string)
    ensures first == 2 && second == 2 && shown == "B"
  {
    var combo := new ComboNext([ComboNextMember("A"), ComboNextMember("X"), ComboNextMember("B")], "");
    combo.currentIndex := -1;
    combo.OnValidate();
    MathModIsFloorMod(-1, 3);
    first := combo.currentIndex;
    combo.OnValidate();
    second, shown := combo.currentIndex, combo.text;
  }
}
