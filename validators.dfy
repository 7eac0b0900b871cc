/**
 * The validator family: an abstract base with a name, a default error
 * message and `ValidateAndThrow`, and two concrete validators, one for
 * usernames and one for loosely typed game values. The class hierarchy
 * becomes a closed set of kinds; thrown exceptions become `Result`s.
 */
module Validators {
  import opened Runtime
  import opened Text

  /** The `object` handed to a validator. */
  datatype Value =
    | Null
    | Str(s: string)
    | Int(i: int32)
      /** Any other object, known only through what its `ToString()` returns or throws. */
    | Other(toString: Result<string>)

  /** `value.ToString()` on a non-null value. */
  function ToStringOf(x: Value): Result<string>
    requires !x.Null?
  {
    match x
    case Str(s) => Ok(s)
    case Int(i) => Ok(IntToString(i as int))
    case Other(t) => t
  }

  /** `$"{value}"`: a null value formats as the empty string. */
  function Format(x: Value): Result<string> {
    if x.Null? then Ok("") else ToStringOf(x)
  }

  /** The concrete validators, with the configuration each one fixes at construction. */
  datatype Kind =
    | UsernameRules(minLength: int32, maxLength: int32)
    | GameRules

  /** A constructed validator: its `ValidatorName` and its kind. */
  datatype Validator = Validator(name: string, kind: Kind)

  const UsernameValidatorName: string := "Username"
  const GameValidatorName: string := "Game Validator"
  const DefaultMinLength: int32 := 3
  const DefaultMaxLength: int32 := 50

  const DefaultMessagePrefix: string := "El valor '"
  const UsernamePrefix: string := "El nombre de usuario "
  const UsernameNullMessage: string := UsernamePrefix + "no puede ser nulo"
  const UsernameCharsMessage: string := UsernamePrefix + "solo puede " + "contener letras, números y guión bajo"
  const UsernameFailurePrefix: string := "Error al generar mensaje de validación: "
  const GameNullMessage: string := "El valor no puede ser nulo"
  const GameEmptyTextMessage: string := "El texto no puede estar vacío"
  const GameNegativeMessage: string := "Los números no pueden ser negativos"
  const GameFailurePrefix: string := "Error en validación: "
  const ValidationFailurePrefix: string := "Error durante la validación: "

  predicate StartsWith(s: string, prefix: string) {
    |prefix| <= |s| && s[..|prefix|] == prefix
  }

  /** Two strings whose prefixes disagree at some position are different. */
  lemma PrefixesDiffer(a: string, p: string, b: string, q: string, k: nat)
    requires StartsWith(a, p) && StartsWith(b, q)
    requires k < |p| && k < |q| && p[k] != q[k]
    ensures a != b
  {
    assert a[k] == p[k] by { assert a[..|p|][k] == a[k]; }
    assert b[k] == q[k] by { assert b[..|q|][k] == b[k]; }
  }

  lemma ConcatStartsWith(p: string, t: string)
    ensures StartsWith(p + t, p)
  {
    assert (p + t)[..|p|] == p;
  }

  // ---------------------------------------------------------------- base

  /** The base constructor: a null name throws `ArgumentNullException`, any other name is kept. */
  function NewValidator(name: Option<string>, kind: Kind): (r: Result<Validator>)
    ensures r.Ok? <==> name.Some?
    ensures r.Ok? ==> r.value.name == name.value && r.value.kind == kind
    ensures r.Err? ==> r.error == ArgumentNullException("validatorName") && r.error.IsArgumentError()
  {
    match name
    case None => Err(ArgumentNullException("validatorName"))
    case Some(n) => Ok(Validator(n, kind))
  }

  /**
   * The base `GetErrorMessage`: names the value and the validator. Formatting
   * the value calls its `ToString()`, whose exception propagates.
   */
  function DefaultErrorMessage(name: string, x: Value): (r: Result<string>)
    ensures r.Ok? <==> Format(x).Ok?
    ensures r.Ok? ==> StartsWith(r.value, DefaultMessagePrefix)
    ensures r.Ok? ==> var t := Format(x).value;
                      |r.value| >= |DefaultMessagePrefix| + |t| + |name|
                      && r.value[|DefaultMessagePrefix|..|DefaultMessagePrefix| + |t|] == t
                      && r.value[|r.value| - |name|..] == name
    ensures r.Err? ==> r.error == Format(x).error
  {
    match Format(x)
    case Err(e) => Err(e)
    case Ok(t) =>
      var m := DefaultMessagePrefix + t + "' no es válido para " + name;
      ConcatStartsWith(DefaultMessagePrefix, t + "' no es válido para " + name);
      assert m == DefaultMessagePrefix + (t + "' no es válido para " + name);
      Ok(m)
  }

  /** How `catch (ArgumentException) { throw; } catch (Exception ex) { ... }` leaves an exception. */
  function Rethrow(e: Exception): (r: Exception)
    ensures r.IsArgumentError()
    ensures e.IsArgumentError() ==> r == e
    ensures !e.IsArgumentError() ==> r.ArgumentException? && StartsWith(r.message, ValidationFailurePrefix)
    ensures !e.IsArgumentError() ==> r.message[|ValidationFailurePrefix|..] == e.Message()
  {
    if e.IsArgumentError() then e
    else
      ConcatStartsWith(ValidationFailurePrefix, e.Message());
      ArgumentException(ValidationFailurePrefix + e.Message())
  }

  /**
   * The base `ValidateAndThrow`, given what the `IsValid` call does and what
   * the `GetErrorMessage` call does when it is reached. It throws exactly
   * when the value is not valid or the check itself threw, and whatever it
   * throws is an argument error.
   */
  function ValidateAndThrowWith(isValid: Result<bool>, message: Result<string>): (r: Outcome)
    ensures r.Pass? <==> isValid == Ok(true)
    ensures r.Fail? ==> r.error.IsArgumentError()
    ensures isValid == Ok(false) && message.Ok? ==> r == Fail(ArgumentException(message.value))
    ensures isValid == Ok(false) && message.Err? ==> r == Fail(Rethrow(message.error))
    ensures isValid.Err? ==> r == Fail(Rethrow(isValid.error))
  {
    match isValid
    case Ok(true) => Pass
    case Ok(false) =>
      (match message
       case Ok(m) => Fail(ArgumentException(m))
       case Err(e) => Fail(Rethrow(e)))
    case Err(e) => Fail(Rethrow(e))
  }

  // ------------------------------------------------------------ username

  /**
   * The `UsernameValidator(minLength, maxLength)` constructor. A minimum that
   * is not positive becomes 3; a maximum that does not exceed the minimum as
   * given (not as clamped) becomes 50.
   */
  function NewUsernameValidator(minLength: int32, maxLength: int32): (v: Validator)
    ensures v.name == UsernameValidatorName && v.kind.UsernameRules?
    ensures v.kind.minLength >= 1
    ensures v.kind.minLength == (if minLength > 0 then minLength else DefaultMinLength)
    ensures v.kind.maxLength == (if maxLength > minLength then maxLength else DefaultMaxLength)
  {
    var r := NewValidator(Some(UsernameValidatorName),
                          UsernameRules(if minLength > 0 then minLength else DefaultMinLength,
                                        if maxLength > minLength then maxLength else DefaultMaxLength));
    r.value
  }

  /** The clamped bounds cross exactly for these arguments, e.g. (-5, 2) or (60, 10). */
  lemma CrossedBounds(minLength: int32, maxLength: int32)
    ensures var k := NewUsernameValidator(minLength, maxLength).kind;
            k.maxLength < k.minLength
            <==> (minLength > DefaultMaxLength && maxLength <= minLength)
                 || (minLength <= 0 && minLength < maxLength < DefaultMinLength)
  {
  }

  /**
   * `UsernameValidator.IsValid`: the value's text, trimmed, has a length
   * within the bounds and matches `^[a-zA-Z0-9_]+$`. Null and a throwing
   * `ToString()` are invalid.
   */
  function UsernameIsValid(minLength: int32, maxLength: int32, x: Value): (ok: bool)
    ensures ok <==> !x.Null? && ToStringOf(x).Ok?
                    && minLength as int <= |Trim(ToStringOf(x).value)| <= maxLength as int
                    && IsWord(Trim(ToStringOf(x).value))
  {
    if x.Null? then false
    else
      match ToStringOf(x)
      case Err(_) => false
      case Ok(s) =>
        var t := Trim(s);
        TrimmedPatternIsWord(t);
        if |t| < minLength as int || |t| > maxLength as int then false
        else if !MatchesUsernamePattern(t) then false
        else true
  }

  /** A length message: the username prefix, the complaint, the bound as text, " caracteres". */
  function LengthMessage(complaint: string, bound: string): (m: string)
    ensures StartsWith(m, UsernamePrefix) && |m| >= |UsernamePrefix| + |complaint|
    ensures m[1] == 'l'
    ensures forall k :: 0 <= k < |complaint| ==> m[|UsernamePrefix| + k] == complaint[k]
    ensures |m| == |UsernamePrefix| + |complaint| + |bound| + 11
    ensures m[|UsernamePrefix| + |complaint|..|UsernamePrefix| + |complaint| + |bound|] == bound
    ensures m[|m| - 11..] == " caracteres"
  {
    ConcatStartsWith(UsernamePrefix, complaint + bound + " caracteres");
    UsernamePrefix + (complaint + bound + " caracteres")
  }

  /** The message for a trimmed text shorter than `minLength`. */
  function UsernameShortMessage(minLength: int32): (m: string)
    ensures StartsWith(m, UsernamePrefix) && |m| > |UsernamePrefix|
    ensures m[1] == 'l' && m[|UsernamePrefix|] == 'd'
    ensures |m| >= |UsernamePrefix| + 20 + 11
    ensures m[|UsernamePrefix| + 20..|m| - 11] == IntToString(minLength as int)
    ensures m[|m| - 11..] == " caracteres"
  {
    assert |"debe tener al menos "| == 20;
    LengthMessage("debe tener al menos ", IntToString(minLength as int))
  }

  /** The message for a trimmed text longer than `maxLength`. */
  function UsernameLongMessage(maxLength: int32): (m: string)
    ensures StartsWith(m, UsernamePrefix) && |m| > |UsernamePrefix| + 9
    ensures m[1] == 'l' && m[|UsernamePrefix|] == 'n' && m[|UsernamePrefix| + 9] == 'e'
    ensures |m| >= |UsernamePrefix| + 17 + 11
    ensures m[|UsernamePrefix| + 17..|m| - 11] == IntToString(maxLength as int)
    ensures m[|m| - 11..] == " caracteres"
  {
    assert |"no puede exceder "| == 17;
    LengthMessage("no puede exceder ", IntToString(maxLength as int))
  }

  /**
   * The checks `UsernameValidator.GetErrorMessage` runs on the trimmed text,
   * in order: too short, too long, bad characters. `None` when all pass.
   */
  function UsernameRejection(minLength: int32, maxLength: int32, t: string): (r: Option<string>)
    requires IsTrimmed(t)
    ensures r.None? <==> minLength as int <= |t| <= maxLength as int && IsWord(t)
    ensures |t| < minLength as int ==> r == Some(UsernameShortMessage(minLength))
    ensures minLength as int <= |t| && |t| > maxLength as int ==> r == Some(UsernameLongMessage(maxLength))
    ensures minLength as int <= |t| <= maxLength as int && !IsWord(t) ==> r == Some(UsernameCharsMessage)
    ensures r.Some? ==> StartsWith(r.value, UsernamePrefix)
  {
    TrimmedPatternIsWord(t);
    if |t| < minLength as int then
      Some(UsernameShortMessage(minLength))
    else if |t| > maxLength as int then
      Some(UsernameLongMessage(maxLength))
    else if !MatchesUsernamePattern(t) then
      ConcatStartsWith(UsernamePrefix, "solo puede " + "contener letras, números y guión bajo");
      Some(UsernameCharsMessage)
    else
      None
  }

  /** A message that starts like the username messages is never the base message. */
  lemma NotDefaultMessage(name: string, x: Value, m: string)
    requires StartsWith(m, UsernamePrefix)
    ensures DefaultErrorMessage(name, x) != Ok(m)
  {
    var d := DefaultErrorMessage(name, x);
    if d.Ok? {
      PrefixesDiffer(d.value, DefaultMessagePrefix, m, UsernamePrefix, 3);
    }
  }

  /**
   * `UsernameValidator.GetErrorMessage`: the message of the first check that
   * fails on the value's trimmed text, else the base message; a throwing
   * `ToString()` is reported with its own prefix. The message is the base
   * message exactly when the value is valid.
   */
  function UsernameErrorMessage(name: string, minLength: int32, maxLength: int32, x: Value): (m: string)
    ensures x.Null? ==> m == UsernameNullMessage
    ensures !x.Null? && ToStringOf(x).Err? ==> m == UsernameFailurePrefix + ToStringOf(x).error.Message()
    ensures !x.Null? && ToStringOf(x).Ok? ==>
              var t := Trim(ToStringOf(x).value);
              && (|t| < minLength as int ==> m == UsernameShortMessage(minLength))
              && (minLength as int <= |t| && |t| > maxLength as int ==> m == UsernameLongMessage(maxLength))
              && (minLength as int <= |t| <= maxLength as int && !IsWord(t) ==> m == UsernameCharsMessage)
    ensures UsernameIsValid(minLength, maxLength, x) <==> DefaultErrorMessage(name, x) == Ok(m)
  {
    if x.Null? then
      ConcatStartsWith(UsernamePrefix, "no puede ser nulo");
      NotDefaultMessage(name, x, UsernameNullMessage);
      UsernameNullMessage
    else
      match ToStringOf(x)
      case Err(e) => UsernameFailurePrefix + e.Message()
      case Ok(s) =>
        match UsernameRejection(minLength, maxLength, Trim(s))
        case Some(m) =>
          NotDefaultMessage(name, x, m);
          m
        case None =>
          match DefaultErrorMessage(name, x)
          case Ok(m) => m
          case Err(e) => UsernameFailurePrefix + e.Message()
  }

  /**
   * The username messages tell the rejections apart: null, too short, too
   * long and bad characters never share a message, whatever the bounds.
   */
  lemma UsernameMessagesDiffer(minLength: int32, maxLength: int32)
    ensures var short, long := UsernameShortMessage(minLength), UsernameLongMessage(maxLength);
            && UsernameNullMessage != short && UsernameNullMessage != long
            && UsernameNullMessage != UsernameCharsMessage
            && short != long && short != UsernameCharsMessage && long != UsernameCharsMessage
  {
    assert UsernameCharsMessage[|UsernamePrefix|] == 's';
    assert UsernameNullMessage[|UsernamePrefix|] == 'n' && UsernameNullMessage[|UsernamePrefix| + 9] == 's';
  }

  /** A throwing `ToString()` is reported with a message none of the checks gives. */
  lemma UsernameFailureMessageDiffers(minLength: int32, maxLength: int32, e: Exception)
    ensures var failed := UsernameFailurePrefix + e.Message();
            && failed != UsernameNullMessage && failed != UsernameCharsMessage
            && failed != UsernameShortMessage(minLength) && failed != UsernameLongMessage(maxLength)
  {
    assert (UsernameFailurePrefix + e.Message())[1] == 'r';
    assert UsernameNullMessage[1] == 'l' && UsernameCharsMessage[1] == 'l';
  }

  // ---------------------------------------------------------------- game

  /** The `GameValidator` constructor. */
  function NewGameValidator(): (v: Validator)
    ensures v.name == GameValidatorName && v.kind == GameRules
  {
    NewValidator(Some(GameValidatorName), GameRules).value
  }

  /** `GameValidator.IsValid`: rejects null, blank strings and negative ints; anything else passes. */
  function GameIsValid(x: Value): (ok: bool)
    ensures !ok <==> x.Null? || (x.Str? && IsBlank(x.s)) || (x.Int? && x.i < 0)
  {
    if x.Null? then false
    else if x.Str? then !IsBlank(x.s)
    else if x.Int? then x.i >= 0
    else true
  }

  /** The base message and the formatting failure never read like one of the game's three rejections. */
  lemma NotGameRejection(m: string, p: string)
    requires p == DefaultMessagePrefix || p == GameFailurePrefix
    requires StartsWith(m, p)
    ensures m != GameNullMessage && m != GameEmptyTextMessage && m != GameNegativeMessage
  {
    var d := p == DefaultMessagePrefix;
    PrefixesDiffer(m, p, GameNullMessage, GameNullMessage, if d then 9 else 1);
    PrefixesDiffer(m, p, GameEmptyTextMessage, GameEmptyTextMessage, if d then 3 else 1);
    PrefixesDiffer(m, p, GameNegativeMessage, GameNegativeMessage, 1);
  }

  /**
   * `GameValidator.GetErrorMessage`: a specific message per rejected shape,
   * else the base message; a value is rejected exactly when its message is
   * one of the three specific ones.
   */
  function GameErrorMessage(name: string, x: Value): (m: string)
    ensures x.Null? ==> m == GameNullMessage
    ensures x.Str? && IsBlank(x.s) ==> m == GameEmptyTextMessage
    ensures x.Int? && x.i < 0 ==> m == GameNegativeMessage
    ensures GameIsValid(x) && Format(x).Ok? ==> Ok(m) == DefaultErrorMessage(name, x)
    ensures GameIsValid(x) && Format(x).Err? ==> m == GameFailurePrefix + Format(x).error.Message()
    ensures !GameIsValid(x) <==> m in {GameNullMessage, GameEmptyTextMessage, GameNegativeMessage}
  {
    if x.Null? then GameNullMessage
    else if x.Str? && IsBlank(ToStringOf(x).value) then GameEmptyTextMessage
    else if x.Int? && x.i < 0 then GameNegativeMessage
    else
      match DefaultErrorMessage(name, x)
      case Ok(m) =>
        NotGameRejection(m, DefaultMessagePrefix);
        m
      case Err(e) =>
        ConcatStartsWith(GameFailurePrefix, e.Message());
        NotGameRejection(GameFailurePrefix + e.Message(), GameFailurePrefix);
        GameFailurePrefix + e.Message()
  }

  // ------------------------------------------------------------ dispatch

  /** `IsValid`, dispatched on the validator's kind: neither validator accepts null or blank text. */
  function IsValid(v: Validator, x: Value): (ok: bool)
    ensures ok ==> !x.Null?
    ensures x.Str? && IsBlank(x.s) ==> !ok
  {
    match v.kind
    case UsernameRules(lo, hi) => UsernameIsValid(lo, hi, x)
    case GameRules => GameIsValid(x)
  }

  /**
   * `GetErrorMessage`, dispatched on the validator's kind. Both validators
   * replace the base message for null, which would read "El valor '' ...".
   */
  function GetErrorMessage(v: Validator, x: Value): (m: string)
    ensures x.Null? ==> Ok(m) != DefaultErrorMessage(v.name, x)
  {
    var base := DefaultErrorMessage(v.name, Null).value;
    assert base == DefaultMessagePrefix + "" + "' no es válido para " + v.name;
    assert base[3] == 'v' && base[9] == '\'';
    assert UsernameNullMessage[3] == 'n' && GameNullMessage[9] == 'n';
    match v.kind
    case UsernameRules(lo, hi) => UsernameErrorMessage(v.name, lo, hi, x)
    case GameRules => GameErrorMessage(v.name, x)
  }

  /**
   * `ValidateAndThrow` on a concrete validator: neither `IsValid` nor
   * `GetErrorMessage` throws there, so it throws an `ArgumentException`
   * carrying the error message exactly when the value is not valid.
   */
  function ValidateAndThrow(v: Validator, x: Value): (r: Outcome)
    ensures r.Pass? <==> IsValid(v, x)
    ensures r.Fail? ==> r.error == ArgumentException(GetErrorMessage(v, x))
  {
    ValidateAndThrowWith(Ok(IsValid(v, x)), Ok(GetErrorMessage(v, x)))
  }

  // ------------------------------------------------------------ properties

  /** Validity never depends on white space around a string, for either validator. */
  lemma ValidityIgnoresSurroundingWhiteSpace(v: Validator, s: string)
    ensures IsValid(v, Str(s)) == IsValid(v, Str(Trim(s)))
  {
    TrimIdempotent(s);
    if v.kind.GameRules? {
      assert IsBlank(Trim(s)) <==> Trim(s) == [];
    }
  }

  /** Crossed bounds leave nothing valid. */
  lemma CrossedBoundsRejectEverything(v: Validator, x: Value)
    requires v.kind.UsernameRules? && v.kind.maxLength < v.kind.minLength
    ensures !IsValid(v, x)
  {
  }

  /** With the default bounds, `"ab"` is too short and `"bob"` is accepted. */
  lemma DefaultBoundsExamples()
    ensures !IsValid(NewUsernameValidator(DefaultMinLength, DefaultMaxLength), Str("ab"))
    ensures IsValid(NewUsernameValidator(DefaultMinLength, DefaultMaxLength), Str("bob"))
  {
    TrimOfTrimmed("ab");
    TrimOfTrimmed("bob");
  }

  /** Padding does not change validity. */
  lemma DefaultBoundsPaddedExample()
    ensures IsValid(NewUsernameValidator(DefaultMinLength, DefaultMaxLength), Str(" bob "))
  {
    var s := " bob ";
    assert TrimStartIndex(s, 0) == 1 by { assert IsWhiteSpace(s[0]) && !IsWhiteSpace(s[1]); }
    assert TrimEndIndex(s, 1, 5) == 4 by { assert IsWhiteSpace(s[4]) && !IsWhiteSpace(s[3]); }
    assert Trim(s) == "bob" by { assert s[1..4] == "bob"; }
  }

  /** An inner space is a bad character. */
  lemma DefaultBoundsInnerSpaceExample()
    ensures !IsValid(NewUsernameValidator(DefaultMinLength, DefaultMaxLength), Str("bo b"))
  {
    TrimOfTrimmed("bo b");
    assert !IsWordChar("bo b"[2]);
  }

  /**
   * An `int` goes through `ToString()`: with the default bounds it is a valid
   * username exactly when it has at least three digits and no minus sign.
   */
  lemma IntUsernames(i: int32)
    ensures IsValid(NewUsernameValidator(DefaultMinLength, DefaultMaxLength), Int(i)) <==> i >= 100
  {
    var t := IntToString(i as int);
    if i >= 0 {
      WordIsTrimmed(t);
      TrimOfTrimmed(t);
      Int32DigitCount(i as int);
    } else {
      NegativeTextIsNoWord(i as int);
    }
  }

  /** The validator names appear in the base message, e.g. for a valid game value. */
  lemma DefaultMessageNamesValidator()
    ensures GetErrorMessage(NewGameValidator(), Int(5))
            == DefaultMessagePrefix + "5" + "' no es válido para " + GameValidatorName
  {
    assert IntToString(5) == "5" by { assert Digits(5) == [DigitChar(5)]; }
    assert Format(Int(5)) == Ok("5");
    assert DefaultErrorMessage(GameValidatorName, Int(5)) == Ok(DefaultMessagePrefix + "5" + "' no es válido para " + GameValidatorName);
  }
}
