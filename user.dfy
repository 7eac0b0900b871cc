/**
 * A player of the quiz game: a username, experience points (XP) and a level.
 * The object is mutable; every field is written through a guarded setter
 * that throws `ArgumentException` (here: returns `Fail`) and leaves the field
 * unchanged when the new value is rejected. `AddXp` is the only operation that
 * keeps the level in step with the XP.
 */
module Users {
  import opened Runtime
  import opened Text

  const MinUsernameLength: int := 3
  const MaxUsernameLength: int := 50
  const XpPerLevel: int := 100

  const BlankUsernameMessage: string := "El nombre de usuario no puede estar vacío"
  const ShortUsernameMessage: string := "El nombre de usuario debe tener al menos 3 caracteres"
  const LongUsernameMessage: string := "El nombre de usuario no puede exceder 50 caracteres"
  const NegativeXpMessage: string := "El XP no puede ser negativo"
  const LevelTooLowMessage: string := "El nivel debe ser mayor a 0"
  const NegativeXpToAddMessage: string := "No se puede añadir XP negativo"

  /**
   * What the `Username` setter does with `value` (`None` is a null string):
   * the trimmed name it stores, or the exception it throws. The length
   * guards look at the untrimmed value.
   */
  function CheckUsername(value: Option<string>): (r: Result<string>)
    ensures r.Ok? <==> value.Some? && !IsBlank(value.value)
                       && MinUsernameLength <= |value.value| <= MaxUsernameLength
    ensures r.Ok? ==> r.value == Trim(value.value) && IsTrimmed(r.value)
                      && 1 <= |r.value| <= MaxUsernameLength
    ensures r == Err(ArgumentException(BlankUsernameMessage)) <==> value.None? || IsBlank(value.value)
    ensures r == Err(ArgumentException(ShortUsernameMessage))
            <==> value.Some? && !IsBlank(value.value) && |value.value| < MinUsernameLength
    ensures r == Err(ArgumentException(LongUsernameMessage))
            <==> value.Some? && !IsBlank(value.value) && |value.value| > MaxUsernameLength
    ensures r.Err? ==> r.error.ArgumentException?
  {
    if value.None? || IsBlank(value.value) then
      Err(ArgumentException(BlankUsernameMessage))
    else if |value.value| < MinUsernameLength then
      Err(ArgumentException(ShortUsernameMessage))
    else if |value.value| > MaxUsernameLength then
      Err(ArgumentException(LongUsernameMessage))
    else
      Ok(Trim(value.value))
  }

  /** The guards run in order: a blank value is reported as blank even when it is also short. */
  lemma BlankReportedBeforeShort()
    ensures CheckUsername(Some("  ")) == Err(ArgumentException(BlankUsernameMessage))
    ensures CheckUsername(Some("ab")) == Err(ArgumentException(ShortUsernameMessage))
  {
    assert !IsBlank("ab") by { assert !IsWhiteSpace("ab"[0]); }
  }

  /** The length guards see the padding, so a padded two-letter name is stored as two letters. */
  lemma PaddedShortNameAccepted()
    ensures CheckUsername(Some("  ab  ")) == Ok("ab")
  {
    var s := "  ab  ";
    assert !IsBlank(s) by { assert !IsWhiteSpace(s[2]); }
    assert TrimStartIndex(s, 0) == 2 by {
      assert IsWhiteSpace(s[0]) && IsWhiteSpace(s[1]) && !IsWhiteSpace(s[2]);
    }
    assert TrimEndIndex(s, 2, 6) == 4 by {
      assert IsWhiteSpace(s[5]) && IsWhiteSpace(s[4]) && !IsWhiteSpace(s[3]);
    }
    assert s[2..4] == "ab";
  }

  /** The level that goes with `xp`: one level per full 100 XP, starting at 1. */
  function LevelFor(xp: int): (level: int)
    requires xp >= 0
    ensures level >= 1
    ensures (level - 1) * XpPerLevel <= xp < level * XpPerLevel
  {
    1 + xp / XpPerLevel
  }

  /** The level never goes down when XP goes up. */
  lemma LevelForMonotonic(xp: int, xp': int)
    requires 0 <= xp <= xp'
    ensures LevelFor(xp) <= LevelFor(xp')
  {
  }

  class User {
    var username: string
    var xp: int32
    var level: int32

    /** What the setters guarantee on their own. */
    ghost predicate Valid()
      reads this
    {
      && 0 <= xp
      && 1 <= level
      && |username| <= MaxUsernameLength
      && IsTrimmed(username)
    }

    /** The level matches the XP; the public `Xp` and `Level` setters can each break this. */
    ghost predicate Leveled()
      reads this
    {
      0 <= xp && level as int == LevelFor(xp as int)
    }

    /** The parameterless constructor: empty name, no XP, level 1. */
    constructor ()
      ensures Valid() && Leveled()
      ensures username == "" && xp == 0 && level == 1
    {
      username := "";
      xp := 0;
      level := 1;
    }

    /**
     * The `(username, xp)` constructor. It runs the `Username` and `Xp`
     * setters, so it throws what they throw, then sets the level from the XP.
     */
    static method Create(name: Option<string>, initialXp: int32) returns (r: Result<User>)
      ensures r.Err? <==> CheckUsername(name).Err? || initialXp < 0
      ensures CheckUsername(name).Err? ==> r == Err(CheckUsername(name).error)
      ensures CheckUsername(name).Ok? && initialXp < 0 ==> r == Err(ArgumentException(NegativeXpMessage))
      ensures r.Ok? ==> fresh(r.value) && r.value.Valid() && r.value.Leveled()
      ensures r.Ok? ==> r.value.username == CheckUsername(name).value && r.value.xp == initialXp
    {
      var u := new User();
      var step := u.SetUsername(name);
      if step.Fail? {
        return Err(step.error);
      }
      step := u.SetXp(initialXp);
      if step.Fail? {
        return Err(step.error);
      }
      step := u.SetLevel(Wrap32(1 + initialXp as int / XpPerLevel));
      return Ok(u);
    }

    /** The `Username` setter. */
    method SetUsername(value: Option<string>) returns (r: Outcome)
      requires Valid()
      modifies this`username
      ensures Valid()
      ensures r.Pass? <==> CheckUsername(value).Ok?
      ensures r.Pass? ==> username == CheckUsername(value).value
      ensures r.Fail? ==> r.error == CheckUsername(value).error && username == old(username)
    {
      if value.None? || IsBlank(value.value) {
        return Fail(ArgumentException(BlankUsernameMessage));
      }
      var s := value.value;
      if |s| < MinUsernameLength {
        return Fail(ArgumentException(ShortUsernameMessage));
      }
      if |s| > MaxUsernameLength {
        return Fail(ArgumentException(LongUsernameMessage));
      }
      username := Trim(s);
      return Pass;
    }

    /** The `Xp` setter: stores any non-negative value exactly, whatever the level. */
    method SetXp(value: int32) returns (r: Outcome)
      requires Valid()
      modifies this`xp
      ensures Valid()
      ensures r.Pass? <==> value >= 0
      ensures r.Pass? ==> xp == value
      ensures r.Fail? ==> r.error == ArgumentException(NegativeXpMessage) && xp == old(xp)
    {
      if value < 0 {
        return Fail(ArgumentException(NegativeXpMessage));
      }
      xp := value;
      return Pass;
    }

    /** The `Level` setter: stores any value of at least 1 exactly, whatever the XP. */
    method SetLevel(value: int32) returns (r: Outcome)
      requires Valid()
      modifies this`level
      ensures Valid()
      ensures r.Pass? <==> value >= 1
      ensures r.Pass? ==> level == value
      ensures r.Fail? ==> r.error == ArgumentException(LevelTooLowMessage) && level == old(level)
    {
      if value < 1 {
        return Fail(ArgumentException(LevelTooLowMessage));
      }
      level := value;
      return Pass;
    }

    /**
     * The XP still missing to reach the next level, `Level * 100 - Xp` in
     * 32-bit arithmetic. The product can wrap when the XP is close to the
     * 32-bit maximum, but the result is still the exact difference whenever
     * that difference fits; with a matching level it lies in 1..100.
     */
    function GetXpForNextLevel(): (r: int32)
      reads this
      ensures r == Wrap32(level as int * XpPerLevel - xp as int)
      ensures InInt32(level as int * XpPerLevel - xp as int) ==> r as int == level as int * XpPerLevel - xp as int
      ensures Leveled() ==> 1 <= r as int <= XpPerLevel
    {
      WrapThenSubtract(level as int * XpPerLevel, xp as int);
      Wrap32(Wrap32(level as int * XpPerLevel) as int - xp as int)
    }

    /**
     * Adds XP and recomputes the level from the new XP. `Xp += delta` wraps
     * in 32 bits, so an overflowing sum turns negative and is refused by the
     * `Xp` setter; nothing changes then.
     */
    method AddXp(delta: int32) returns (r: Outcome)
      requires Valid()
      modifies this`xp, this`level
      ensures Valid()
      ensures r.Pass? <==> delta >= 0 && old(xp) as int + delta as int <= MaxInt32
      ensures r.Pass? ==> xp as int == old(xp) as int + delta as int && Leveled()
      ensures r.Pass? && old(Leveled()) ==> level >= old(level)
      ensures r.Fail? ==> xp == old(xp) && level == old(level)
      ensures delta < 0 ==> r == Fail(ArgumentException(NegativeXpToAddMessage))
      ensures delta >= 0 && r.Fail? ==> r == Fail(ArgumentException(NegativeXpMessage))
    {
      if delta < 0 {
        return Fail(ArgumentException(NegativeXpToAddMessage));
      }
      r := SetXp(Wrap32(xp as int + delta as int));
      if r.Fail? {
        return;
      }
      r := SetLevel(Wrap32(1 + xp as int / XpPerLevel));
      if old(Leveled()) {
        LevelForMonotonic(old(xp) as int, xp as int);
      }
    }
  }

  /** A padded two-letter name is stored trimmed; 95 XP plus 10 reaches level 2. */
  method PaddedNameScenario() returns (level: int32, missing: int32)
    ensures level == 2 && missing == 95
  {
    PaddedShortNameAccepted();
    var created := User.Create(Some("  ab  "), 95);
    assert created.Ok?;
    var u := created.value;
    assert u.username == "ab" && u.level == 1;
    var r := u.AddXp(10);
    assert r.Pass? && u.xp == 105 && u.level == 2;
    level := u.level;
    missing := u.GetXpForNextLevel();
  }

  /** The `Xp` setter leaves the level alone, so it too puts the level out of step with the XP. */
  method XpDriftScenario() returns (level: int32, missing: int32)
    ensures level == 1 && missing == -400
  {
    var u := new User();
    var r := u.SetXp(500);
    assert r.Pass? && !u.Leveled();
    level := u.level;
    missing := u.GetXpForNextLevel();
  }

  /** The `Level` setter puts the level out of step with the XP; the next `AddXp` puts it back. */
  method LevelDriftScenario() returns (drifted: int32, restored: int32)
    ensures drifted == 595 && restored == 95
  {
    var u := new User();
    var r := u.SetXp(105);
    r := u.SetLevel(7);
    assert r.Pass? && !u.Leveled();
    drifted := u.GetXpForNextLevel();
    r := u.AddXp(0);
    assert r.Pass? && u.Leveled() && u.level == 2;
    restored := u.GetXpForNextLevel();
  }

  /**
   * At the top of the XP range an `AddXp` that overflows fails and changes
   * nothing, and `Level * 100` wraps while the XP still missing comes out right.
   */
  method OverflowScenario() returns (r: Outcome, missing: int32)
    ensures r == Fail(ArgumentException(NegativeXpMessage))
    ensures missing == 53
  {
    var u := new User();
    r := u.AddXp(0x7FFF_FFFF);
    assert r.Pass? && u.level == 21474837;
    r := u.AddXp(1);
    assert u.xp == 0x7FFF_FFFF && u.level == 21474837;
    missing := u.GetXpForNextLevel();
  }
}
