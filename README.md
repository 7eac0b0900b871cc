# CodeQuest: the user ledger and the validators, in Dafny

CodeQuest is a desktop quiz game. Players answer programming questions in
rounds, earn experience points (XP) and level up. This project models the two
parts of its C# code that hold logic of their own:

- **The `User` entity** (`user.dfy`, module `Users`). A mutable object with a
  username, an XP count and a level, each written through a guarded setter
  that throws `ArgumentException` and leaves the field unchanged when the new
  value is rejected. The Dafny class `Users.User` has the same three fields,
  and each setter is a method that returns `Pass` or `Fail(exception)`.
  `AddXp` adds XP and recomputes `level = 1 + xp / 100`. `GetXpForNextLevel`
  is a read-only function. C# `int` is modelled as the 32-bit `int32` with
  explicit wrap-around (`Runtime.Wrap32`). So an `AddXp` whose sum overflows
  wraps to a negative number. The `Xp` setter then refuses it, and nothing
  changes.
- **The validator family** (`validators.dfy`, module `Validators`). An abstract
  base validator has a name, a default error message and `ValidateAndThrow`.
  It has two subclasses: a username validator with configurable length bounds
  and the pattern `^[a-zA-Z0-9_]+$`, and a game validator for loosely typed
  values. The class hierarchy is modelled as a closed datatype `Kind`. The
  validated `object` is a `Value`: `Null`, `Str`, `Int`, or `Other`, which is
  any other object, known by what its `ToString()` returns or throws. An
  exception is a `Result` value.
- **The runtime pieces they rely on** (`runtime.dfy`, `text.dfy`). These are
  32-bit arithmetic, the exception kinds and `.NET` string behaviour. Three
  behaviours are modelled exactly:
  - `Char.IsWhiteSpace`, `String.IsNullOrWhiteSpace` and `String.Trim`. Trim
    is modelled as the index scan it performs.
  - `Int32.ToString`.
  - The regular expression's `$`, which in .NET also matches just before a
    final newline. This is proved irrelevant once the text is trimmed.

Main results:
- `AddXp` always leaves the level in step with the XP, whatever the level was
  before. Either public setter can break that: the `Level` setter
  (`LevelDriftScenario`) and the `Xp` setter (`XpDriftScenario`).
- `GetXpForNextLevel` is 1..100 whenever the level matches the XP. This holds
  even at the top of the XP range, where `Level * 100` wraps around.
- The `Username` setter checks lengths before trimming. So `"  ab  "` is
  accepted and stored as `"ab"`.
- A username validator's bounds can cross, for example with arguments
  (-5, 2), and then nothing is valid.
- Validity ignores surrounding white space.
- `GetErrorMessage` agrees exactly with `IsValid` for both validators.
- `ValidateAndThrow` throws, and only throws an argument error, exactly when
  `IsValid` is false.

## Model

| member | source | states |
|---|---|---|
| `Runtime.Wrap32` | Models/User.cs:117 | the unchecked 32-bit result equals the exact one when that fits; a sum of two non-negative ints that overflows comes out as the sum minus 2^32 (negative) |
| `Runtime.WrapThenSubtract` | Models/User.cs:104 | wrapping the product `Level*100` before subtracting the XP does not change the wrapped difference |
| `Text.Trim` | Validators/UsernameValidator.cs:38 | the trimmed text is no longer than the input, has no white space at either end, and is empty exactly when the input is all white space |
| `Text.TrimSplits` | Models/User.cs:36 | the input is the trimmed text with blank text before and after it |
| `Text.TrimOfTrimmed` | Validators/UsernameValidator.cs:38 | text with no white space at either end is left unchanged by `Trim` |
| `Text.TrimIdempotent` | Validators/UsernameValidator.cs:38 | trimming twice is the same as trimming once |
| `Text.TrimmedPatternIsWord` | Validators/UsernameValidator.cs:24 | on trimmed text, the .NET match of `^[a-zA-Z0-9_]+$` (whose `$` also matches before a final newline) holds exactly when the text is one or more of `[a-zA-Z0-9_]` |
| `Text.IntToString` | Validators/UsernameValidator.cs:38 | the text of a non-negative int is a run of digits that spells the number, with no leading zero except for 0 itself; the text of a negative int is a minus sign followed by digits that spell its absolute value, with no leading zero |
| `Text.DigitsRoundTrip` | Validators/UsernameValidator.cs:38 | reading back the decimal digits of any natural number gives that number |
| `Users.CheckUsername` | Models/User.cs:24-38 | the `Username` setter accepts exactly a non-null, non-blank value of length 3..50 before trimming, and stores its trimmed form: non-empty, at most 50 characters, no surrounding white space. Each rejection is an `ArgumentException`, checked in this order: the blank message exactly for null or all-white-space text, the too-short message exactly for other text under 3 characters, the too-long message exactly for other text over 50 |
| `Users.BlankReportedBeforeShort` | Models/User.cs:29-32 | the blank check runs before the length check: `"  "` is reported blank, `"ab"` too short |
| `Users.PaddedShortNameAccepted` | Models/User.cs:31-36 | `"  ab  "` passes the length checks and is stored as `"ab"`, shorter than the minimum |
| `Users.LevelFor` | Models/User.cs:94 | the level for `xp` is at least 1 and `xp` lies in `[(level-1)*100, level*100)` |
| `Users.LevelForMonotonic` | Models/User.cs:118 | more XP never gives a lower level |
| `Users.User.constructor` | Models/User.cs:77-83 | the parameterless constructor gives an empty name, 0 XP and level 1, with the level in step |
| `Users.User.Create` | Models/User.cs:90-96 | the `(username, xp)` constructor fails with the username setter's exception, else with the XP setter's when `xp < 0`; otherwise it stores the trimmed name and `xp`, and the level is `1 + xp/100` |
| `Users.User.SetUsername` | Models/User.cs:27-37 | stores the checked, trimmed name on acceptance; on rejection returns the setter's exception and leaves the name unchanged |
| `Users.User.SetXp` | Models/User.cs:47-52 | stores any non-negative value exactly, without touching the level; a negative value fails and changes nothing |
| `Users.User.SetLevel` | Models/User.cs:61-66 | stores any value of at least 1 exactly, whatever the XP; a smaller value fails and changes nothing |
| `Users.User.GetXpForNextLevel` | Models/User.cs:102-105 | the result is always the 32-bit wrap of the exact `Level*100 - Xp`, as if the product had not wrapped; so it is exactly that difference whenever the difference fits, and it lies in 1..100 whenever the level matches the XP |
| `Users.User.AddXp` | Models/User.cs:112-119 | fails with "negative XP to add" for a negative delta, and with the XP setter's exception when the 32-bit sum overflows, changing nothing in both cases; otherwise adds the delta exactly and sets the level to match the new XP, whatever it was before; from a level in step with the XP, a successful call never lowers the level |
| `Users.PaddedNameScenario` | Models/User.cs:90-119 | a user created as `"  ab  "` with 95 XP who gains 10 XP is at level 2 and needs 95 more |
| `Users.XpDriftScenario` | Models/User.cs:47-52 | after the `Xp` setter moves a new user to 500 XP the level stays 1, out of step, and the XP missing reads -400 |
| `Users.LevelDriftScenario` | Models/User.cs:58-67 | after the `Level` setter moves a 105-XP user to level 7 the XP missing reads 595; `AddXp(0)` restores level 2 and 95 |
| `Users.OverflowScenario` | Models/User.cs:117 | at the 32-bit XP maximum `AddXp(1)` fails with the XP setter's message, and the XP missing still reads 53 although `Level*100` wraps |
| `Validators.NewValidator` | Validators/BaseValidator.cs:19-22 | the base constructor fails with `ArgumentNullException("validatorName")` exactly on a null name and otherwise keeps the name given |
| `Validators.DefaultErrorMessage` | Validators/BaseValidator.cs:36-39 | the default message starts `El valor '`, embeds the value's text and ends with the validator name; it fails exactly when formatting the value throws |
| `Validators.Rethrow` | Validators/BaseValidator.cs:55-62 | an argument error is re-raised unchanged; any other exception becomes an `ArgumentException` whose message is "Error durante la validación: " followed by the original exception's message |
| `Validators.ValidateAndThrowWith` | Validators/BaseValidator.cs:46-63 | returns normally exactly when `IsValid` returned true; otherwise throws `ArgumentException(GetErrorMessage(v))`. When `IsValid` or `GetErrorMessage` itself throws, it re-raises that failure through `Rethrow`. Whatever it throws is an argument error |
| `Validators.ValidateAndThrow` | Validators/BaseValidator.cs:46-54 | on either concrete validator: throws exactly when `IsValid` is false, with an `ArgumentException` carrying `GetErrorMessage` |
| `Validators.NewUsernameValidator` | Validators/UsernameValidator.cs:20-25 | the name is "Username"; the minimum is the argument if positive, else 3; the maximum is the argument if it exceeds the raw minimum argument, else 50 |
| `Validators.CrossedBounds` | Validators/UsernameValidator.cs:22-23 | the clamped maximum is below the clamped minimum exactly when `min > 50 && max <= min`, or `min <= 0 && min < max < 3` |
| `Validators.UsernameIsValid` | Validators/UsernameValidator.cs:32-54 | valid exactly when the value is not null, its `ToString()` does not throw, and its trimmed text is within the bounds and is one or more of `[a-zA-Z0-9_]` |
| `Validators.LengthMessage` | Validators/UsernameValidator.cs:71-74 | a length message is "El nombre de usuario ", the complaint, the bound's text and " caracteres", each at its place, and nothing else |
| `Validators.UsernameShortMessage` | Validators/UsernameValidator.cs:71 | the too-short message names the minimum: after "El nombre de usuario " and the 20-character complaint comes the minimum's `Int32.ToString` text, then " caracteres"; the `d` of "debe" right after the prefix sets it apart from the other username messages |
| `Validators.UsernameLongMessage` | Validators/UsernameValidator.cs:74 | the too-long message names the maximum: after "El nombre de usuario " and the 17-character complaint comes the maximum's `Int32.ToString` text, then " caracteres"; the `n` of "no puede" and the `e` of "exceder" nine characters later set it apart from the other username messages |
| `Validators.UsernameRejection` | Validators/UsernameValidator.cs:70-77 | the checks on the trimmed text, in order: a text below the minimum gets the too-short message, then one above the maximum gets the too-long message, then a text that is not a word gets the bad-characters message; they find nothing exactly when the text is within the bounds and a word |
| `Validators.UsernameErrorMessage` | Validators/UsernameValidator.cs:61-85 | null gets the null message; a throwing `ToString()` gets "Error al generar mensaje de validación: " and the exception's message; otherwise the trimmed text gets the too-short, too-long or bad-characters message in that order. The message is the base message exactly when the value is valid |
| `Validators.UsernameMessagesDiffer` | Validators/UsernameValidator.cs:65-77 | the null, too-short, too-long and bad-characters messages are pairwise different, whatever the bounds |
| `Validators.UsernameFailureMessageDiffers` | Validators/UsernameValidator.cs:81-84 | the message for a throwing `ToString()` differs from all four check messages, whatever the exception |
| `Validators.NewGameValidator` | Validators/GameValidator.cs:14-16 | the game validator is named "Game Validator" |
| `Validators.GameIsValid` | Validators/GameValidator.cs:23-46 | a value is rejected exactly when it is null, a blank string or a negative int; anything else passes |
| `Validators.GameErrorMessage` | Validators/GameValidator.cs:53-73 | null gets the null message, a blank string the empty-text message, a negative int the negative-number message; any other value gets the base message, or "Error en validación: " and the exception's message when formatting it throws. A value is invalid exactly when its message is one of the three specific ones |
| `Validators.IsValid` | Validators/BaseValidator.cs:29 | neither validator accepts null or a blank string |
| `Validators.GetErrorMessage` | Validators/BaseValidator.cs:36-39 | neither validator reports null with the base message, which would read "El valor '' no es válido para ..." |
| `Validators.ValidityIgnoresSurroundingWhiteSpace` | Validators/UsernameValidator.cs:38 | for either validator, a string is valid exactly when its trimmed form is |
| `Validators.CrossedBoundsRejectEverything` | Validators/UsernameValidator.cs:41-42 | a username validator whose bounds cross accepts no value at all |
| `Validators.DefaultBoundsExamples` | Validators/UsernameValidator.cs:20-48 | with the default bounds `"ab"` is invalid and `"bob"` valid |
| `Validators.DefaultBoundsPaddedExample` | Validators/UsernameValidator.cs:38 | with the default bounds `" bob "` is valid |
| `Validators.DefaultBoundsInnerSpaceExample` | Validators/UsernameValidator.cs:45-46 | with the default bounds `"bo b"` is invalid |
| `Validators.IntUsernames` | Validators/UsernameValidator.cs:36-48 | with the default bounds a boxed `int` is a valid username exactly when it is at least 100 |
| `Validators.DefaultMessageNamesValidator` | Validators/BaseValidator.cs:38 | the game validator's message for the int 5 is "El valor '5' no es válido para Game Validator" |

## Left out

- `User.CreatedAt` and `User.UserID`: plain auto-properties with no rules. `CreatedAt` reads the clock.
- String lengths count Unicode scalar values. C# counts UTF-16 code units, so the two differ for characters outside the Basic Multilingual Plane.
- `Int32.ToString` is modelled with a `-` sign for negative numbers. The current culture's negative sign is not modelled.
- A `ToString()` that returns null is not a separate case, so one such object needs a different `Value` per validator. The username validator trims the null, which throws inside its `try`: that is `Other(Err(..))`. The game validator never trims; the base message's interpolation formats the null as the empty string: that is `Other(Ok(""))`.
- `Rethrow` keeps the original exception's message in the new one, but not the original exception itself, which the C# passes on as `InnerException`: `Runtime.Exception` has no inner exception.
- Only the two concrete validators exist. `ValidateAndThrowWith` covers a subclass whose `IsValid` or `GetErrorMessage` throws.
- Round scoring, XP awards and round closing are not part of this model. The C# delegates them to a stored procedure that is not part of this model.
- The following are not part of this model:
  - the Windows Forms screens;
  - the SQL repositories and their pre-insert username checks, which repeat the `Username` setter's rules;
  - the game service facade;
  - the service and connection factories;
  - the `Round` and `Question` property bags.
