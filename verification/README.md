# ComboNext in Dafny

ComboNext is a Unity UI component that steps through an ordered list of
named members, like the options of a combo box. It keeps a cursor
(`CurrentIndex`) into the public `Members` list. It writes the selected
member's `Text` into a TextMeshPro label and invokes the `OnMemberChange`
event with the new index after each selection. Three operations move the
cursor:

- `ChangeMember(int direction)` steps left or right and wraps around at both ends.
- `ChangeMember(string memberName)` selects the first member with that text.
- `SetCurrentIndex(int index)` selects a position and checks its bounds.

`SetUI` refreshes the label. `OnValidate` is the editor hook that brings an
index typed into the inspector back into range.

The model has four modules:

- `CSharpInt` (`csharp_int.dfy`): the parts of C# integer semantics the
  component uses. These are `Math.Abs`, the truncating `%`, and unchecked
  32-bit wrap-around. It also holds the Euclidean-remainder lemmas the
  proofs need.
- `ComboNextScript` (`combo_next.dfy`): the component itself.
  - `ComboNext` is a class with the fields `members`, `currentIndex` and
    `text`. The `text` field stands for `_textObject.text`.
  - A ghost `notified` field records every `OnMemberChange.Invoke` argument in order.
  - `MathMod` is a static function.
  - The C# overload `ChangeMember(string)` is named `ChangeMemberByName`.
  - The two operations that throw return an `Outcome`. `Fail` carries the
    exception, and the state is then left untouched.
  - `List.FindIndex` is a linear-search method.
  - Lemmas cover the wrap-around arithmetic.
- `Int32MathMod` (`math_mod_int32.dfy`): `MathMod` evaluated on 32-bit
  `int`s exactly as written (see Findings).
- `ComboNextScenarios` (`scenarios.dfy`): client methods that drive a
  component through its public operations and rely only on their contracts.

## Model

| member | source | states |
|---|---|---|
| `CSharpInt.Abs` | ComboNext/Scripts/ComboNext.cs:61 | `Math.Abs`: the result is non-negative and is `x` or `-x` |
| `CSharpInt.Remainder` | ComboNext/Scripts/ComboNext.cs:61 | C#'s `%` truncates toward zero. The result has the sign of the dividend, is smaller than the divisor in magnitude, and differs from the dividend by a multiple of the divisor; together these fix it uniquely |
| `CSharpInt.Wrap32` | ComboNext/Scripts/ComboNext.cs:61 | unchecked `int` arithmetic: the result is in the 32-bit range, equals `x` when `x` already is, and is congruent to `x` modulo 2^32 |
| `ComboNextScript.ComboNext.MathMod` | ComboNext/Scripts/ComboNext.cs:59-62 | for any non-zero `b`, the result is non-negative and below `abs(b)`, whatever the sign of `a` |
| `ComboNextScript.MathModIsFloorMod` | ComboNext/Scripts/ComboNext.cs:59-62 | for `b > 0`, `MathMod(a, b)` is the floored `a mod b` (for example, `MathMod(-1, 3) = 2`) |
| `ComboNextScript.MathModFixesInRange` | ComboNext/Scripts/ComboNext.cs:45-49 | an index already in `[0, b)` is returned unchanged |
| `ComboNextScript.MathModIdempotent` | ComboNext/Scripts/ComboNext.cs:48 | re-normalising a normalised index changes nothing |
| `ComboNextScript.StepsCompose` | ComboNext/Scripts/ComboNext.cs:74 | a step by `d1` and then a step by `d2` land where a single step by `d1 + d2` lands |
| `ComboNextScript.StepRightThenLeft` | ComboNext/Scripts/ComboNext.cs:65-74 | from an in-range index, stepping `+1` and then `-1` returns to it |
| `ComboNextScript.FindIndex` | ComboNext/Scripts/ComboNext.cs:88 | returns the smallest position whose text equals the name, or -1 exactly when no member has that text |
| `ComboNextScript.ComboNext.constructor` | ComboNext/Scripts/ComboNext.cs:15-22 | the configured member list, the serialized default index 0, which is in range, and no notifications yet |
| `ComboNextScript.ComboNext.SetUI` | ComboNext/Scripts/ComboNext.cs:124-136 | the label is cleared when the list is empty, and otherwise shows `members[currentIndex]`. Only the label changes, and no notification fires. It requires an in-range index, which the list indexer demands |
| `ComboNextScript.ComboNext.ChangeMember` | ComboNext/Scripts/ComboNext.cs:69-79 | on an empty list, the index, the label and the notification trace are all unchanged. Otherwise the index becomes `(old + direction) mod Count`, which is in range. The label shows that member, and exactly one notification with the new index is appended, even when the index did not move |
| `ComboNextScript.ComboNext.ChangeMemberByName` | ComboNext/Scripts/ComboNext.cs:86-100 | it fails with ArgumentException exactly when no member has the text, the empty list included, and then changes nothing. On success the index is the first match, the label is the name, and one notification with that index is appended |
| `ComboNextScript.ComboNext.SetCurrentIndex` | ComboNext/Scripts/ComboNext.cs:107-119 | it fails with ArgumentOutOfRangeException exactly when `index < 0` or `index >= Count`, and then changes nothing. Otherwise the index is exactly `index`, the label shows that member, and one notification with `index` is appended |
| `ComboNextScript.ComboNext.OnValidate` | ComboNext/Scripts/ComboNext.cs:42-53 | on a non-empty list the index is wrapped into range, and an index already in range is left alone. On an empty list the index is kept. The label is refreshed, and no notification fires |
| `Int32MathMod.MathModAsWritten` | ComboNext/Scripts/ComboNext.cs:59-62 | in 32-bit evaluation `Math.Abs` throws OverflowException exactly when the wrapped product `a * b` is `int.MinValue`. Otherwise the result is only known to lie strictly between `-b` and `b`, and it can be negative |
| `Int32MathMod.AsWrittenAgreesWithoutOverflow` | ComboNext/Scripts/ComboNext.cs:61 | while `a * b` and `abs(a * b) + a` stay in the `int` range and `a * b` is not `int.MinValue`, the 32-bit evaluation equals `MathMod` |
| `Int32MathMod.AsWrittenGoesNegative` | ComboNext/Scripts/ComboNext.cs:48 | in 32-bit evaluation `MathMod(1000000000, 3)` is `-2`, while the intended value is `1` |
| `Int32MathMod.AsWrittenThrows` | ComboNext/Scripts/ComboNext.cs:48 | in 32-bit evaluation `MathMod(-1073741824, 2)` throws OverflowException from `Math.Abs`, while the intended value is `0` |
| `ComboNextScenarios.StepRightThenLeftRestores` | ComboNext/Scripts/ComboNext.cs:69-79 | after `SetCurrentIndex(start)`, `ChangeMember(1)` and `ChangeMember(-1)`, the cursor and the label are back at `start`, and the notifications are exactly `start`, the index after the right step, and `start` |
| `ComboNextScenarios.StepWithoutMembers` | ComboNext/Scripts/ComboNext.cs:71-72 | stepping with no members keeps the index and the label |
| `ComboNextScenarios.SelectByName` | ComboNext/Scripts/ComboNext.cs:86-100 | in `[A, X, B]`, selecting `X` gives index 1 and label `X`. Selecting `Z` then throws ArgumentException and the index stays 1 |
| `ComboNextScenarios.SelectByNameTakesFirst` | ComboNext/Scripts/ComboNext.cs:88 | in `[A, X, X]`, selecting `X` gives index 1 |
| `ComboNextScenarios.SelectByIndexOutOfRange` | ComboNext/Scripts/ComboNext.cs:107-112 | `SetCurrentIndex(5)` on three members throws ArgumentOutOfRangeException, and the index stays 0 |
| `ComboNextScenarios.RefreshWithoutMembers` | ComboNext/Scripts/ComboNext.cs:127-132 | `SetUI` on an empty list leaves the label empty |
| `ComboNextScenarios.ValidateTwice` | ComboNext/Scripts/ComboNext.cs:42-53 | `OnValidate` turns an inspector index of -1 on three members into 2, showing `B`. A second `OnValidate` keeps 2 |

## Left out

- `Awake`'s null check of `_textObject` and its `Debug.LogError` are engine lifecycle and logging. The model assumes the label object is assigned, so no NullReferenceException is modelled.
- TextMeshPro rendering is left out. The label is a plain string field.
- `UnityEvent` dispatch is left out: subscribers, their order, exceptions thrown by handlers, and a null `OnMemberChange`. Each `Invoke` is only an append to the ghost `notified` trace.
- Serialization attributes, the inspector and the `#if UNITY_EDITOR` guard are left out. `OnValidate` is an ordinary method.
- The unchecked public `CurrentIndex` setter and the public `Members` list are plain fields that callers may assign. Their consistency appears only as `SetUI`'s precondition and in `OnValidate`'s re-normalisation.
- `ComboNextScript.ComboNext.SetUI`: it requires an in-range index instead of modelling the ArgumentOutOfRangeException that the list indexer would throw.
- `ComboNextScript.ComboNext.MathMod`: it uses mathematical integers. The 32-bit overflow of `Math.Abs(a * b) + a` is modelled separately under Findings. The same holds for `Math.Abs(int.MinValue)`.
- `ComboNextScript.ComboNext.ChangeMember`: it does not model 32-bit wrap-around of `CurrentIndex + direction`.
- `MathMod` with `b = 0` throws DivideByZeroException. It is excluded by a precondition, because every caller passes a positive member count.
- A `null` member or a `null` name are not modelled. Member texts and names are plain strings.

## Findings

| source | as written | input that shows it | evidently intended | confidence | as-written member | corrected member |
|---|---|---|---|---|---|---|
| ComboNext/Scripts/ComboNext.cs:61 | `(Math.Abs(a * b) + a) % b` is evaluated on 32-bit `int`s. Both the product and the sum wrap around, so the result can be negative | `OnValidate` with `CurrentIndex = 1000000000` typed into the inspector and 3 members. `a * b` wraps to -1294967296, and the sum wraps to -2000000000. `%` gives -2, and `SetUI` then indexes `Members[-2]` | the floored `a mod b` (here 1), always in `[0, b)` | medium, not executed | `Int32MathMod.AsWrittenGoesNegative` | `ComboNextScript.MathModIsFloorMod` |
| ComboNext/Scripts/ComboNext.cs:61 | `Math.Abs(a * b)` throws OverflowException when the 32-bit product `a * b` is exactly `int.MinValue` | `OnValidate` with `CurrentIndex = -1073741824` typed into the inspector and 2 members. `a * b` is -2147483648, and `Math.Abs` throws instead of normalising the index | the floored `a mod b` (here 0) | medium, not executed | `Int32MathMod.AsWrittenThrows` | `ComboNextScript.MathModIsFloorMod` |
