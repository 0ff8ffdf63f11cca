/**
 * The player entity: identity, position and ratings, validated on construction,
 * with an injury flag and description that `Injure` and `Heal` update in place.
 */
module Players {
  import opened Wrappers
  import opened Text
  import opened Positions
  import opened Stats

  /** A 128-bit identifier. Generating a fresh one is left to the caller. */
  newtype Uuid = x: int | 0 <= x < 0x1_0000_0000_0000_0000_0000_0000_0000_0000

  const MinAge: int := 16
  const MaxAge: int := 45

  datatype PlayerError =
    | AgeOutOfRange(age: int)
    | EmptyName
    | MissingInjuryDescription

  const AgePrefix: string := "Player age must be between 16 and 45, got "

  /** The message of each construction error; an age error ends with the age in decimal. */
  function ErrorMessage(e: PlayerError): (r: string)
    ensures e.AgeOutOfRange? ==> |r| > |AgePrefix| && r[..|AgePrefix|] == AgePrefix
    ensures e.AgeOutOfRange? && e.age >= 0 ==>
      IsDigits(r[|AgePrefix|..]) && DecimalValue(r[|AgePrefix|..]) == e.age
    ensures e.AgeOutOfRange? && e.age < 0 ==>
      r[|AgePrefix|] == '-' && IsDigits(r[|AgePrefix| + 1..]) && DecimalValue(r[|AgePrefix| + 1..]) == -e.age
    ensures e.AgeOutOfRange? ==> r[|AgePrefix|..] == IntToString(e.age)
    ensures e.EmptyName? ==> r == "Player name cannot be empty"
    ensures e.MissingInjuryDescription? ==> r == "Injured players must have an injury description"
  {
    match e
    case AgeOutOfRange(age) => AgePrefix + IntToString(age)
    case EmptyName => "Player name cannot be empty"
    case MissingInjuryDescription => "Injured players must have an injury description"
  }

  /** Different errors have different messages. */
  lemma ErrorMessageInjective(e: PlayerError, f: PlayerError)
    ensures ErrorMessage(e) == ErrorMessage(f) <==> e == f
  {
    if ErrorMessage(e) == ErrorMessage(f) {
      var m := ErrorMessage(e);
      if e.AgeOutOfRange? && f.AgeOutOfRange? {
        assert m[|AgePrefix|..] == IntToString(e.age) == IntToString(f.age);
        IntToStringInjective(e.age, f.age);
      }
    }
  }

  /** A description counts as given when it is present and not the empty string
      (it is not stripped here). */
  predicate HasDescription(description: Option<string>) {
    description.Some? && description.value != ""
  }

  /** The construction check: the age range first, then a blank name, then an injured
      player without a description; only the first failure is reported. */
  function CheckPlayer(name: string, age: int, isInjured: bool, description: Option<string>)
    : (r: Option<PlayerError>)
    ensures r.None? <==> MinAge <= age <= MaxAge && !AllSpace(name)
                         && (isInjured ==> HasDescription(description))
    ensures !(MinAge <= age <= MaxAge) ==> r == Some(AgeOutOfRange(age))
    ensures MinAge <= age <= MaxAge && AllSpace(name) ==> r == Some(EmptyName)
    ensures MinAge <= age <= MaxAge && !AllSpace(name) && isInjured && !HasDescription(description)
            ==> r == Some(MissingInjuryDescription)
  {
    StripEmptyIff(name);
    if age < MinAge || age > MaxAge then Some(AgeOutOfRange(age))
    else if Strip(name) == "" then Some(EmptyName)
    else if isInjured && !HasDescription(description) then Some(MissingInjuryDescription)
    else None
  }

  function StatusToken(isInjured: bool): string {
    if isInjured then "INJURED" else "AVAILABLE"
  }

  /** `r` is laid out as `<name> (<age>) - <code> <tail>`: each part stands at its
      own offset, and the parts fill the whole string. */
  predicate PartsAt(r: string, name: string, age: string, code: string, tail: string) {
    var a := |name| + 2;
    var b := a + |age|;
    var c := b + 4;
    var d := c + |code|;
    && |r| == d + 1 + |tail|
    && At(r, 0, name)
    && At(r, |name|, " (")
    && At(r, a, age)
    && At(r, b, ") - ")
    && At(r, c, code)
    && At(r, d, " ")
    && At(r, d + 1, tail)
  }

  /** `r` is laid out as `<name> (<age>) - <code> [<status>]`. */
  predicate IsLayout(r: string, name: string, age: string, code: string, isInjured: bool) {
    PartsAt(r, name, age, code, "[" + StatusToken(isInjured) + "]")
  }

  /** The layout determines the string: two strings laid out from the same parts are equal. */
  lemma LayoutUnique(r: string, t: string, name: string, age: string, code: string, isInjured: bool)
    requires IsLayout(r, name, age, code, isInjured) && IsLayout(t, name, age, code, isInjured)
    ensures r == t
  {
    LayoutJoin(r, name, age, code, isInjured);
    LayoutJoin(t, name, age, code, isInjured);
  }

  /** A string laid out from its parts is their concatenation. */
  lemma LayoutJoin(r: string, name: string, age: string, code: string, isInjured: bool)
    requires IsLayout(r, name, age, code, isInjured)
    ensures r == (name + " (" + age) + (") - " + code + " " + ("[" + StatusToken(isInjured) + "]"))
  {
    PartsJoin(r, name, age, code, "[" + StatusToken(isInjured) + "]");
  }

  /** The same, for any tail. */
  lemma PartsJoin(r: string, name: string, age: string, code: string, tail: string)
    requires PartsAt(r, name, age, code, tail)
    ensures r == (name + " (" + age) + (") - " + code + " " + tail)
  {
    var b := |name| + 2 + |age|;
    LeftJoin(r, name, age);
    RightJoin(r, b, code, tail);
    AtJoin(r, 0, name + " (" + age, ") - " + code + " " + tail);
    AtAll(r, (name + " (" + age) + (") - " + code + " " + tail));
  }

  /** The first three parts, joined. */
  lemma LeftJoin(r: string, name: string, age: string)
    requires At(r, 0, name) && At(r, |name|, " (") && At(r, |name| + 2, age)
    ensures At(r, 0, name + " (" + age)
  {
    AtJoin(r, 0, name, " (");
    AtJoin(r, 0, name + " (", age);
  }

  /** The last four parts, joined. */
  lemma RightJoin(r: string, b: int, code: string, tail: string)
    requires At(r, b, ") - ") && At(r, b + 4, code)
    requires At(r, b + 4 + |code|, " ") && At(r, b + 5 + |code|, tail)
    ensures At(r, b, ") - " + code + " " + tail)
  {
    AtJoin(r, b, ") - ", code);
    AtJoin(r, b, ") - " + code, " ");
    AtJoin(r, b, ") - " + code + " ", tail);
  }

  /** The first three parts keep their offsets when more text follows. */
  lemma LeftParts(name: string, age: string, right: string)
    ensures var r := (name + " (" + age) + right;
            At(r, 0, name) && At(r, |name|, " (") && At(r, |name| + 2, age)
  {
    var left := name + " (" + age;
    AtThree(name, " (", age);
    AtAppendLeft(left, right, 0, name);
    AtAppendLeft(left, right, |name|, " (");
    AtAppendLeft(left, right, |name| + 2, age);
  }

  /** The last four parts are shifted by the length of what precedes them. */
  lemma RightParts(left: string, code: string, tail: string)
    ensures var r := left + (") - " + code + " " + tail);
            && At(r, |left|, ") - ") && At(r, |left| + 4, code)
            && At(r, |left| + 4 + |code|, " ") && At(r, |left| + 5 + |code|, tail)
  {
    var right := ") - " + code + " " + tail;
    AtFour(") - ", code, " ", tail);
    AtShift(left, right, 0, ") - ");
    AtShift(left, right, 4, code);
    AtShift(left, right, 4 + |code|, " ");
    AtShift(left, right, 5 + |code|, tail);
  }

  /** The concatenation of the parts is laid out from them. */
  lemma PartsOfConcat(name: string, age: string, code: string, tail: string)
    ensures PartsAt((name + " (" + age) + (") - " + code + " " + tail), name, age, code, tail)
  {
    LeftParts(name, age, ") - " + code + " " + tail);
    RightParts(name + " (" + age, code, tail);
  }

  /** The layout of already rendered parts. */
  function Layout(name: string, age: string, code: string, isInjured: bool): (r: string)
    ensures IsLayout(r, name, age, code, isInjured)
  {
    var tail := "[" + StatusToken(isInjured) + "]";
    PartsOfConcat(name, age, code, tail);
    (name + " (" + age) + (") - " + code + " " + tail)
  }

  /** The display form: the name, the age in decimal, the position's code and the
      injury status, laid out as `<name> (<age>) - <code> [<status>]`. */
  function Render(name: string, age: int, position: Position, isInjured: bool): (r: string)
    ensures IsLayout(r, name, IntToString(age), Code(position), isInjured)
  {
    Layout(name, IntToString(age), Code(position), isInjured)
  }

  /** Reading a layout back: the characters after the name and " (" spell the age,
      the code after ") - " names the position, and the bracketed token is INJURED
      exactly for an injured player. */
  lemma LayoutReadBack(r: string, name: string, age: int, position: Position, isInjured: bool)
    requires IsLayout(r, name, IntToString(age), Code(position), isInjured)
    ensures var a := |name| + 2;
            var b := a + |IntToString(age)|;
            var c := b + 4;
            var d := c + |Code(position)|;
            && d + 1 < |r|
            && r[..|name|] == name
            && (age >= 0 ==> IsDigits(r[a..b]) && DecimalValue(r[a..b]) == age)
            && FromCode(r[c..d]) == Some(position)
            && (r[d + 1..] == "[INJURED]" <==> isInjured)
  {
    ReadParts(r, name, IntToString(age), Code(position), isInjured, age, position);
  }

  /** The same, with the rendered age and code passed in. */
  lemma ReadParts(r: string, name: string, ageText: string, code: string, isInjured: bool,
                  age: int, position: Position)
    requires IsLayout(r, name, ageText, code, isInjured)
    requires ageText == IntToString(age) && code == Code(position)
    ensures var a := |name| + 2;
            var b := a + |ageText|;
            var c := b + 4;
            var d := c + |code|;
            && d + 1 < |r|
            && r[..|name|] == name
            && (age >= 0 ==> IsDigits(r[a..b]) && DecimalValue(r[a..b]) == age)
            && FromCode(r[c..d]) == Some(position)
            && (r[d + 1..] == "[INJURED]" <==> isInjured)
  {
    ReadAge(r, name, ageText, code, isInjured, age);
    ReadCode(r, name, ageText, code, isInjured, position);
    ReadStatus(r, name, ageText, code, isInjured);
  }

  /** The age part of a layout, read back. */
  lemma ReadAge(r: string, name: string, ageText: string, code: string, isInjured: bool, age: int)
    requires IsLayout(r, name, ageText, code, isInjured) && ageText == IntToString(age)
    ensures var a := |name| + 2;
            var b := a + |ageText|;
            b <= |r| && (age >= 0 ==> IsDigits(r[a..b]) && DecimalValue(r[a..b]) == age)
  {
    AgeAt(r, |name| + 2, ageText, age);
  }

  /** The code part of a layout, read back. */
  lemma ReadCode(r: string, name: string, ageText: string, code: string, isInjured: bool,
                 position: Position)
    requires IsLayout(r, name, ageText, code, isInjured) && code == Code(position)
    ensures var c := |name| + 2 + |ageText| + 4;
            var d := c + |code|;
            d <= |r| && FromCode(r[c..d]) == Some(position)
  {
    var c := |name| + 2 + |ageText| + 4;
    CodePart(r, name, ageText, code, isInjured);
    CodeAt(r, c, position);
  }

  /** Where the code part of a layout stands. */
  lemma CodePart(r: string, name: string, ageText: string, code: string, isInjured: bool)
    requires IsLayout(r, name, ageText, code, isInjured)
    ensures At(r, |name| + 2 + |ageText| + 4, code)
  {
  }

  /** The status part of a layout, read back. */
  lemma ReadStatus(r: string, name: string, ageText: string, code: string, isInjured: bool)
    requires IsLayout(r, name, ageText, code, isInjured)
    ensures var d := |name| + 2 + |ageText| + 4 + |code|;
            d + 1 < |r| && (r[d + 1..] == "[INJURED]" <==> isInjured)
  {
    StatusAt(r, |name| + 2 + |ageText| + 4 + |code| + 1, isInjured);
  }

  /** The same reading of `Render`'s output. */
  lemma RenderReadBack(name: string, age: int, position: Position, isInjured: bool)
    ensures var r := Render(name, age, position, isInjured);
            var a := |name| + 2;
            var b := a + |IntToString(age)|;
            var c := b + 4;
            var d := c + |Code(position)|;
            && d + 1 < |r|
            && r[..|name|] == name
            && (age >= 0 ==> IsDigits(r[a..b]) && DecimalValue(r[a..b]) == age)
            && FromCode(r[c..d]) == Some(position)
            && (r[d + 1..] == "[INJURED]" <==> isInjured)
  {
    LayoutReadBack(Render(name, age, position, isInjured), name, age, position, isInjured);
  }

  /** The code part names the position. */
  lemma CodeAt(r: string, c: int, position: Position)
    requires At(r, c, Code(position))
    ensures FromCode(r[c..c + |Code(position)|]) == Some(position)
  {
    AtSlice(r, c, Code(position));
    FromCodeOfCode(position);
  }

  /** The bracketed status part says INJURED exactly for an injured player. */
  lemma StatusAt(r: string, i: int, isInjured: bool)
    requires At(r, i, "[" + StatusToken(isInjured) + "]") && |r| == i + |StatusToken(isInjured)| + 2
    ensures r[i..] == "[INJURED]" <==> isInjured
  {
    AtSlice(r, i, "[" + StatusToken(isInjured) + "]");
    assert r[i..] == r[i..i + |StatusToken(isInjured)| + 2];
  }

  /** The age part reads back as the age. */
  lemma AgeAt(r: string, a: int, s: string, age: int)
    requires s == IntToString(age) && At(r, a, s)
    ensures age >= 0 ==> IsDigits(r[a..a + |s|]) && DecimalValue(r[a..a + |s|]) == age
    ensures age < 0 ==> r[a] == '-' && IsDigits(r[a + 1..a + |s|]) && DecimalValue(r[a + 1..a + |s|]) == -age
  {
    AtSlice(r, a, s);
    if age < 0 {
      assert r[a + 1..a + |s|] == s[1..];
      assert r[a] == r[a..a + |s|][0];
    }
  }

  /** The rendering tells an injured player from an available one. */
  lemma RenderShowsStatus(name: string, age: int, position: Position)
    ensures Render(name, age, position, true) != Render(name, age, position, false)
  {
    var a := Render(name, age, position, true);
    var b := Render(name, age, position, false);
    assert |a| + 2 == |b|;
  }

  /** Injuring a player who passes the construction check, with description `d`,
      passes it again exactly when `d` is non-empty. */
  lemma InjuredCheck(name: string, age: int, isInjured: bool, description: Option<string>, d: string)
    ensures CheckPlayer(name, age, isInjured, description).None? ==>
              (CheckPlayer(name, age, true, Some(d)).None? <==> d != "")
  {
  }

  class Player {
    const id: Uuid
    var name: string
    var age: int
    var primaryPosition: Position
    var stats: ValidStats
    var isInjured: bool
    var injuryDescription: Option<string>

    /** The construction check passes on the current fields. */
    predicate Valid()
      reads this
      ensures Valid() <==> CheckPlayer(name, age, isInjured, injuryDescription).None?
    {
      MinAge <= age <= MaxAge && !AllSpace(name) && (isInjured ==> HasDescription(injuryDescription))
    }

    /** The stricter injury rule: a non-empty description is present exactly while the
        player is injured. */
    predicate InjuryConsistent()
      reads this
    {
      (isInjured ==> HasDescription(injuryDescription)) && (!isInjured ==> injuryDescription.None?)
    }

    /** Allocation with fields that pass the construction check. */
    constructor (id: Uuid, name: string, age: int, primaryPosition: Position, stats: ValidStats,
                 isInjured: bool, injuryDescription: Option<string>)
      requires CheckPlayer(name, age, isInjured, injuryDescription).None?
      ensures Valid()
      ensures this.id == id && this.name == name && this.age == age
      ensures this.primaryPosition == primaryPosition && this.stats == stats
      ensures this.isInjured == isInjured && this.injuryDescription == injuryDescription
    {
      this.id := id;
      this.name := name;
      this.age := age;
      this.primaryPosition := primaryPosition;
      this.stats := stats;
      this.isInjured := isInjured;
      this.injuryDescription := injuryDescription;
    }

    /** Direct construction: the fields are checked, and the first failure is returned
        instead of a player. */
    static method New(id: Uuid, name: string, age: int, primaryPosition: Position,
                      stats: ValidStats, isInjured: bool, injuryDescription: Option<string>)
      returns (r: Result<Player, PlayerError>)
      ensures r.Success? <==> CheckPlayer(name, age, isInjured, injuryDescription).None?
      ensures r.Failure? ==> CheckPlayer(name, age, isInjured, injuryDescription) == Some(r.error)
      ensures r.Success? ==> fresh(r.value) && r.value.Valid()
      ensures r.Success? ==> r.value.id == id && r.value.name == name && r.value.age == age
      ensures r.Success? ==> r.value.primaryPosition == primaryPosition && r.value.stats == stats
      ensures r.Success? ==>
        r.value.isInjured == isInjured && r.value.injuryDescription == injuryDescription
    {
      var check := CheckPlayer(name, age, isInjured, injuryDescription);
      if check.Some? {
        return Failure(check.value);
      }
      var p := new Player(id, name, age, primaryPosition, stats, isInjured, injuryDescription);
      return Success(p);
    }

    /** The factory: a healthy player without a description, with the supplied id; it
        fails, with the first failing check, on an age outside [16, 45] or a blank name. */
    static method Create(id: Uuid, name: string, age: int, primaryPosition: Position,
                         stats: ValidStats)
      returns (r: Result<Player, PlayerError>)
      ensures r.Success? <==> MinAge <= age <= MaxAge && !AllSpace(name)
      ensures !(MinAge <= age <= MaxAge) ==> r == Failure(AgeOutOfRange(age))
      ensures MinAge <= age <= MaxAge && AllSpace(name) ==> r == Failure(EmptyName)
      ensures r.Success? ==> fresh(r.value) && r.value.Valid() && r.value.InjuryConsistent()
      ensures r.Success? ==> r.value.id == id && r.value.name == name && r.value.age == age
      ensures r.Success? ==> r.value.primaryPosition == primaryPosition && r.value.stats == stats
      ensures r.Success? ==> !r.value.isInjured && r.value.injuryDescription.None?
      ensures r.Success? ==> r.value.IsAvailable()
    {
      r := New(id, name, age, primaryPosition, stats, false, None);
    }

    /** Marks the player injured with the stripped description. Nothing rejects a
        description that strips to "", so the construction check holds afterwards
        exactly when it held before and the stripped description is non-empty. */
    method Injure(description: string)
      modifies this
      ensures isInjured && injuryDescription == Some(Strip(description))
      ensures unchanged(`name, `age, `primaryPosition, `stats)
      ensures !IsAvailable()
      ensures old(Valid()) ==> (Valid() <==> Strip(description) != "")
      ensures InjuryConsistent() <==> Strip(description) != ""
    {
      var stripped := Strip(description);
      InjuredCheck(name, age, isInjured, injuryDescription, stripped);
      isInjured := true;
      injuryDescription := Some(stripped);
    }

    /** Clears the injury: always restores the injury rule, keeps the construction
        check, and changes nothing else. */
    method Heal()
      modifies this
      ensures !isInjured && injuryDescription.None?
      ensures unchanged(`name, `age, `primaryPosition, `stats)
      ensures IsAvailable() && InjuryConsistent()
      ensures old(Valid()) ==> Valid()
      ensures old(!isInjured && injuryDescription.None?) ==> unchanged(this)
    {
      isInjured := false;
      injuryDescription := None;
    }

    /** Available for selection iff not injured; under the injury rule, iff no
        description is recorded. */
    function IsAvailable(): (r: bool)
      reads this
      ensures r <==> !isInjured
      ensures InjuryConsistent() ==> (r <==> injuryDescription.None?)
    {
      !isInjured
    }

    /** The display form of the current fields. */
    function ToString(): (r: string)
      reads this
      ensures IsLayout(r, name, IntToString(age), Code(primaryPosition), isInjured)
    {
      Render(name, age, primaryPosition, isInjured)
    }
  }

  /** The factory rejects ages 15 and 46, naming them in the message, and accepts 16
      and 45. */
  lemma AgeBoundaries(name: string)
    requires !AllSpace(name)
    ensures CheckPlayer(name, 15, false, None) == Some(AgeOutOfRange(15))
    ensures CheckPlayer(name, 46, false, None) == Some(AgeOutOfRange(46))
    ensures CheckPlayer(name, 16, false, None).None? && CheckPlayer(name, 45, false, None).None?
  {
  }

  /** The age messages of the tests. */
  lemma AgeMessages()
    ensures ErrorMessage(AgeOutOfRange(15)) == "Player age must be between 16 and 45, got 15"
    ensures ErrorMessage(AgeOutOfRange(46)) == "Player age must be between 16 and 45, got 46"
  {
    assert NatToString(15) == "15";
    assert NatToString(46) == "46";
  }

  /** `Render` written out as the concatenation of its parts, read off its layout. */
  lemma RenderConcat(name: string, age: int, ageText: string, position: Position, isInjured: bool)
    requires IntToString(age) == ageText
    ensures Render(name, age, position, isInjured)
            == (name + " (" + ageText) + (") - " + Code(position) + " " + ("[" + StatusToken(isInjured) + "]"))
  {
    LayoutJoin(Render(name, age, position, isInjured), name, ageText, Code(position), isInjured);
  }

  /** The literal of the available example, assembled from its parts. */
  lemma AvailableText()
    ensures ("Cristiano Ronaldo" + " (" + "38") + (") - " + "ST" + " " + ("[" + "AVAILABLE" + "]"))
            == "Cristiano Ronaldo (38) - ST [AVAILABLE]"
  {
  }

  /** The literal of the injured example, assembled from its parts. */
  lemma InjuredText()
    ensures ("Neymar Jr" + " (" + "31") + (") - " + "LW" + " " + ("[" + "INJURED" + "]"))
            == "Neymar Jr (31) - LW [INJURED]"
  {
  }

  /** The display form of a healthy striker, as in the tests. */
  lemma RenderAvailableExample()
    ensures Render("Cristiano Ronaldo", 38, CenterForward, false) == "Cristiano Ronaldo (38) - ST [AVAILABLE]"
  {
    assert IntToString(38) == "38" by { assert NatToString(38) == NatToString(3) + [DigitChar(8)]; }
    RenderConcat("Cristiano Ronaldo", 38, "38", CenterForward, false);
    AvailableText();
  }

  /** The display form of an injured winger, as in the tests. */
  lemma RenderInjuredExample()
    ensures Render("Neymar Jr", 31, LeftWinger, true) == "Neymar Jr (31) - LW [INJURED]"
  {
    assert IntToString(31) == "31" by { assert NatToString(31) == NatToString(3) + [DigitChar(1)]; }
    RenderConcat("Neymar Jr", 31, "31", LeftWinger, true);
    InjuredText();
  }

  /** Injuring any valid player with a blank description leaves the player injured
      with an empty description: a state the construction check would refuse. */
  method BlankInjury(p: Player)
    requires p.Valid()
    modifies p
    ensures p.isInjured && p.injuryDescription == Some("")
    ensures !p.Valid() && !p.InjuryConsistent()
  {
    assert AllSpace("   ");
    StripEmptyIff("   ");
    p.Injure("   ");
  }

  /** The injury lifecycle of the tests: create, injure, heal, heal again. */
  method InjuryLifecycle(id: Uuid, stats: ValidStats) returns (p: Player)
    ensures !p.isInjured && p.injuryDescription.None? && p.IsAvailable() && p.Valid()
    ensures p.id == id && p.name == "Recovering Player" && p.age == 30
  {
    assert !AllSpace("Recovering Player") by { assert !IsSpace("Recovering Player"[0]); }
    var r := Player.Create(id, "Recovering Player", 30, CenterForward, stats);
    p := r.value;
    assert p.IsAvailable();
    p.Injure("Ankle Sprain");
    assert !p.IsAvailable() && p.isInjured;
    p.Heal();
    assert !p.isInjured && p.injuryDescription.None? && p.IsAvailable() && p.Valid();
    p.Heal();
    assert !p.isInjured && p.injuryDescription.None? && p.id == id && p.name == "Recovering Player";
  }
}
