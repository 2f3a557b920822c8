/** The ComboNext widget: a cursor over an ordered list of named members that
    mirrors the selected member's text into a label and announces every
    selection change to its listeners. */
module ComboNextScript {
  import opened CSharpInt

  /** One entry of the list; only its text matters to the widget. */
  datatype ComboNextMember = ComboNextMember(text: string)

  /** The exceptions the widget throws. */
  datatype Error =
    | ArgumentException(message: string, paramName: string)
    | ArgumentOutOfRangeException(paramName: string)

  /** What a throwing operation did: returned normally, or threw. */
  datatype Outcome = Pass | Fail(error: Error)

  /** True when some member's text is `memberName`. */
  predicate HasMember(members: seq<ComboNextMember>, memberName: string) {
    exists i :: 0 <= i < |members| && members[i].text == memberName
  }

  /** `List<ComboNextMember>.FindIndex(x => x.Text == memberName)`: the first
      position whose text is `memberName`, or -1 when there is none. */
  method FindIndex(members: seq<ComboNextMember>, memberName: string) returns (index: int)
    ensures -1 <= index < |members|
    ensures index == -1 <==> !HasMember(members, memberName)
    ensures 0 <= index ==> members[index].text == memberName
    ensures 0 <= index ==> forall i :: 0 <= i < index ==> members[i].text != memberName
  {
    index := 0;
    while index < |members|
      invariant 0 <= index <= |members|
      invariant forall i :: 0 <= i < index ==> members[i].text != memberName
    {
      if members[index].text == memberName {
        return;
      }
      index := index + 1;
    }
    index := -1;
  }

  class ComboNext {
    /** The public, externally editable list of members. */
    var members: seq<ComboNextMember>
    /** The cursor; the public setter does not check it. */
    var currentIndex: int
    /** The text of the label the widget writes to. */
    var text: string
    /** Every index `OnMemberChange` has been invoked with, oldest first. */
    ghost var notified: seq<int>

    /** The cursor points at a member whenever there is one. */
    predicate Valid()
      reads this
    {
      |members| > 0 ==> 0 <= currentIndex < |members|
    }

    /** A widget configured with `members`, the serialized default index 0,
        a label showing `initialText` and no notifications yet. */
    constructor (members: seq<ComboNextMember>, initialText: string)
      ensures this.members == members && currentIndex == 0 && text == initialText
      ensures notified == []
      ensures Valid()
    {
      this.members := members;
      currentIndex := 0;
      text := initialText;
      notified := [];
    }

    /** Non-negative wrap-around of `a` into `[0, |b|)`. */
    static function MathMod(a: int, b: int): (r: int)
      requires b != 0
      ensures 0 <= r < Abs(b)
    {
      assert Abs(a) <= Abs(a * b) by {
        if a != 0 {
          MulAtLeastDivisor(Abs(b), Abs(a));
          assert Abs(a * b) == Abs(b) * Abs(a);
        }
      }
      Remainder(Abs(a * b) + a, b)
    }

    /** Copies the selected member's text into the label, or clears the
        label when there are no members. */
    method SetUI()
      requires Valid()
      modifies this`text
      ensures |members| == 0 ==> text == ""
      ensures |members| > 0 ==> text == members[currentIndex].text
    {
      if |members| <= 0 {
        text := "";
        return;
      }
      text := members[currentIndex].text;
    }

    /** Moves the cursor `direction` places, wrapping around at both ends;
        does nothing at all when there are no members. */
    method ChangeMember(direction: int)
      modifies this`currentIndex, this`text, this`notified
      ensures members == old(members)
      ensures |members| == 0 ==>
        currentIndex == old(currentIndex) && text == old(text) && notified == old(notified)
      ensures |members| > 0 ==>
        && Valid()
        && currentIndex == MathMod(old(currentIndex) + direction, |members|)
        && text == members[currentIndex].text
        && notified == old(notified) + [currentIndex]
    {
      if |members| <= 0 {
        return;
      }
      currentIndex := MathMod(currentIndex + direction, |members|);
      SetUI();
      notified := notified + [currentIndex];
    }

    /** Selects the first member whose text is `memberName`; throws an
        ArgumentException and changes nothing when there is none. */
    method ChangeMemberByName(memberName: string) returns (outcome: Outcome)
      modifies this`currentIndex, this`text, this`notified
      ensures members == old(members)
      ensures outcome.Fail? <==> !HasMember(members, memberName)
      ensures outcome.Fail? ==>
        && outcome.error == ArgumentException("Did not find a member with this name", "memberName")
        && currentIndex == old(currentIndex) && text == old(text) && notified == old(notified)
      ensures outcome.Pass? ==>
        && Valid()
        && members[currentIndex].text == memberName
        && (forall i :: 0 <= i < currentIndex ==> members[i].text != memberName)
        && text == memberName
        && notified == old(notified) + [currentIndex]
    {
      var index := FindIndex(members, memberName);
      if index == -1 {
        return Fail(ArgumentException("Did not find a member with this name", "memberName"));
      }
      currentIndex := index;
      SetUI();
      notified := notified + [currentIndex];
      outcome := Pass;
    }

    /** Selects position `index`; throws an ArgumentOutOfRangeException and
        changes nothing when `index` is not a position of the list. */
    method SetCurrentIndex(index: int) returns (outcome: Outcome)
      modifies this`currentIndex, this`text, this`notified
      ensures members == old(members)
      ensures outcome.Fail? <==> index < 0 || |members| <= index
      ensures outcome.Fail? ==>
        && outcome.error == ArgumentOutOfRangeException("index")
        && currentIndex == old(currentIndex) && text == old(text) && notified == old(notified)
      ensures outcome.Pass? ==>
        && Valid()
        && currentIndex == index
        && text == members[index].text
        && notified == old(notified) + [index]
    {
      if index < 0 || index >= |members| {
        return Fail(ArgumentOutOfRangeException("index"));
      }
      currentIndex := index;
      SetUI();
      notified := notified + [currentIndex];
      outcome := Pass;
    }

    /** Brings a cursor edited from outside back into range and refreshes
        the label; notifies nobody. */
    method OnValidate()
      modifies this`currentIndex, this`text
      ensures members == old(members) && notified == old(notified)
      ensures Valid()
      ensures |members| == 0 ==> currentIndex == old(currentIndex) && text == ""
      ensures |members| > 0 ==>
        && currentIndex == MathMod(old(currentIndex), |members|)
        && text == members[currentIndex].text
      ensures old(Valid()) ==> currentIndex == old(currentIndex)
    {
      if |members| > 0 {
        if 0 <= currentIndex < |members| {
          MathModFixesInRange(currentIndex, |members|);
        }
        currentIndex := MathMod(currentIndex, |members|);
      }
      SetUI();
    }
  }

  /** For a positive modulus, MathMod is the floored (here: Euclidean)
      remainder, whatever the sign of `a`. */
  lemma MathModIsFloorMod(a: int, b: int)
    requires 0 < b
    ensures ComboNext.MathMod(a, b) == a % b
  {
    var k := Abs(a);
    var x := Abs(a * b) + a;
    assert x == a + k * b by {
      if a < 0 {
        assert a * b < 0;
        assert Abs(a * b) == (-a) * b;
      }
    }
    assert 0 <= x by {
      if 0 < k {
        MulAtLeastDivisor(b, k);
      }
    }
    assert ComboNext.MathMod(a, b) == x % b;
    ModAddMultiple(a, k, b);
  }

  /** An index already in range is left where it is. */
  lemma MathModFixesInRange(a: int, b: int)
    requires 0 <= a < b
    ensures ComboNext.MathMod(a, b) == a
  {
    MathModIsFloorMod(a, b);
    DivModUnique(a, b, 0, a);
  }

  /** Wrapping twice is wrapping once. */
  lemma MathModIdempotent(a: int, b: int)
    requires 0 < b
    ensures ComboNext.MathMod(ComboNext.MathMod(a, b), b) == ComboNext.MathMod(a, b)
  {
    MathModFixesInRange(ComboNext.MathMod(a, b), b);
  }

  /** Two steps compose into one step by the sum of the directions. */
  lemma StepsCompose(i: int, d1: int, d2: int, n: int)
    requires 0 < n
    ensures ComboNext.MathMod(ComboNext.MathMod(i + d1, n) + d2, n) == ComboNext.MathMod(i + d1 + d2, n)
  {
    var x := i + d1;
    MathModIsFloorMod(x, n);
    MathModIsFloorMod(x % n + d2, n);
    MathModIsFloorMod(x + d2, n);
    ModOfShiftedRemainder(x, d2, n);
  }

  /** A step right followed by a step left returns to an in-range start. */
  lemma StepRightThenLeft(i: int, n: int)
    requires 0 <= i < n
    ensures ComboNext.MathMod(ComboNext.MathMod(i + 1, n) + -1, n) == i
  {
    StepsCompose(i, 1, -1, n);
    MathModFixesInRange(i, n);
  }
}
