# Football manager player model, verified in Dafny

This project models the domain core of a football-manager helper: the fourteen
on-field positions and their four tactical categories, the immutable record of ten
player ratings (range validation, derived averages, conversion to and from a flat
map), and the mutable player entity with its injury lifecycle. It proves properties
of the model with Dafny's verifier.

Files, one module each:

- `wrappers.dfy` (`Wrappers`): `Option` and `Result`, which stand for the
  exceptions the system raises.
- `text.dfy` (`Text`): `str.strip()` over a fixed whitespace set, and decimal
  rendering of integers as an f-string does it, with the parse-back that shows the
  digits are the number's.
- `position.dfy` (`Positions`): the `Position` and `PositionCategory`
  datatypes, the short codes, and the category table as an exhaustive `match`.
- `player_stats.dfy` (`Stats`): `PlayerStats`, its validation, the averages,
  `ToMap` and `FromMap`.
- `player.dfy` (`Players`): the construction check, the display form, and the
  `Player` class, whose `Injure` and `Heal` update fields in place.

Design points:

- A `PlayerStats` value is the raw argument list. `Validate` is the
  constructor's check, and `ValidStats` (the values `Valid` accepts) stands for a
  constructed, frozen stats object. `Player` holds a `ValidStats`.
- The ratings are scanned in declaration order. The fields are set in that order
  before the validation hook runs, so the attribute dictionary it walks has the same
  order. The first rating outside [1, 20] is reported.
- The averages are exact rational means (`real`), as `sum(xs) / len(xs)` gives
  them before floating-point rounding.
- `FromMap` follows keyword-argument binding: a key that names no rating is an
  error first, then a missing rating, then the range check of direct construction.
- The player's construction check fails only on an absent or empty injury
  description. It does not strip the description, so `"   "` passes it.
  `Injure` stores the stripped description and rejects nothing. So
  `Injure("   ")` leaves an injured player with description `""`, a state the
  check refuses. `Player.Injure` states exactly when the check still holds
  afterwards, and `BlankInjury` gives a concrete example of such a state.
- The construction check asks for a non-empty description only from an injured
  player, and accepts a healthy player who has one. `Valid` is that check.
  `InjuryConsistent` is the stricter rule that a description is present exactly
  while the player is injured; `Create` and `Heal` establish it.
- In `from_dict`, a missing or unexpected key fails at keyword binding with a
  `TypeError`, before the range check's `ValueError` can run. `FromMap` reports these
  as `MissingKeys` and `UnexpectedKeys`, separate from `OutOfRange`.
- The player id is a `const` field, so nothing can reassign it. `Create` takes
  the id as a parameter.

## Model

| member | source | states |
|---|---|---|
| Positions.AllPositionsComplete | src/football_manager/core/enums/position.py:3-25 | the declaration lists 14 positions, each exactly once, and every position is among them |
| Positions.Code | src/football_manager/core/enums/position.py:6-25 | every position's code is two or three capital letters |
| Positions.CategoryName | src/football_manager/core/enums/position.py:30-33 | each category's value is a capitalised word |
| Positions.CategoryNameInjective | src/football_manager/core/enums/position.py:30-33 | two categories have the same value iff they are the same category |
| Positions.Category | src/football_manager/core/enums/position.py:36-51 | the goalkeeper category holds exactly the first declared position, defenders the next five, midfielders the next five and forwards the last three |
| Positions.FromCodeOfCode | src/football_manager/core/enums/position.py:6-25 | looking up a position's short code gives back that position |
| Positions.CodeInjective | src/football_manager/core/enums/position.py:6-25 | two positions have the same code iff they are the same position, so the 14 codes are pairwise distinct |
| Positions.FromCode | src/football_manager/core/enums/position.py:6-25 | a position found for a code has that code; no position has a code that finds nothing |
| Positions.GoalkeeperCategoryIff | src/football_manager/core/enums/position.py:37 | the goalkeeper is the only position in the goalkeeper category |
| Positions.DefenderIff | src/football_manager/core/enums/position.py:38-42 | a position is a defender iff it is one of the five back positions |
| Positions.MidfielderIff | src/football_manager/core/enums/position.py:43-47 | a position is a midfielder iff it is one of the five midfield positions |
| Positions.ForwardIff | src/football_manager/core/enums/position.py:48-50 | a position is a forward iff it is the striker or one of the two wingers |
| Positions.PositionsInMembers | src/football_manager/core/enums/position.py:53-55 | filtering positions by category keeps exactly the positions whose category lookup gives that category |
| Positions.PositionsInConcat | src/football_manager/core/enums/position.py:36-51 | filtering by category distributes over concatenation, so the table can be read group by group |
| Positions.CategoryMembers | src/football_manager/core/enums/position.py:36-55 | the categories hold 1, 5, 5 and 3 positions, listed in declaration order, and together they hold all 14 positions |
| Text.Strip | src/football_manager/core/models/player.py:25 | `strip()` returns the middle slice of its input; what it cuts off on either side is whitespace; the result neither starts nor ends with whitespace |
| Text.StripEmptyIff | src/football_manager/core/models/player.py:25-26 | `strip()` returns the empty string iff the string is empty or all whitespace |
| Text.StripIdempotent | src/football_manager/core/models/player.py:52 | stripping an already stripped description changes nothing |
| Text.IntToString | src/football_manager/core/models/player.py:23 | the f-string rendering of an integer is a minus sign iff it is negative, then digits whose decimal value is its magnitude, with no leading zero; zero renders as "0" |
| Text.IntToStringInjective | src/football_manager/core/models/player.py:23 | distinct integers render differently |
| Text.NatToStringRoundTrip | src/football_manager/core/models/player.py:67 | reading back the decimal digits of a natural number gives the number |
| Stats.Valid | src/football_manager/core/value_objects/player_stats.py:32-36 | a rating record is valid iff each of its ten named ratings lies in [1, 20] |
| Stats.FieldsInRange | src/football_manager/core/value_objects/player_stats.py:34-35 | the scan over the ratings in declaration order accepts every value iff each named rating is in range |
| Stats.Message | src/football_manager/core/value_objects/player_stats.py:36 | the range message is the field name, then " must be between 1 and 20, got ", then the value rendered by `IntToString`: a minus sign for a negative value, then its digits with no leading zero |
| Stats.FirstInvalid | src/football_manager/core/value_objects/player_stats.py:34-36 | the scan returns the first index whose value is outside [1, 20], or reports that no such index exists |
| Stats.Validate | src/football_manager/core/value_objects/player_stats.py:32-36 | construction succeeds iff all ten ratings lie in [1, 20], and then the value is unchanged; otherwise the error names the first failing rating in declared order and its value |
| Stats.ValidateReportsFirst | src/football_manager/core/value_objects/player_stats.py:34-36 | when several ratings are invalid, the error names the first one in declared order, whatever the later ones are |
| Stats.SingleRatingBounds | src/football_manager/core/value_objects/player_stats.py:35 | for every rating, both bounds are inclusive: setting it to v is accepted iff 1 <= v <= 20, and a rejection names that rating and v |
| Stats.ZeroPassingRejected | tests/unit/core/value_objects/test_player_stats.py:14-22 | the fixture with passing 0 is rejected, naming passing |
| Stats.ZeroPassingMessage | src/football_manager/core/value_objects/player_stats.py:36 | that rejection's message is "passing must be between 1 and 20, got 0" |
| Stats.Mean | src/football_manager/core/value_objects/player_stats.py:47 | the mean times the count is the sum, with no rounding |
| Stats.MeanBounds | src/football_manager/core/value_objects/player_stats.py:38-83 | the mean of values in [lo, hi] lies in [lo, hi] |
| Stats.TechnicalAverage | src/football_manager/core/value_objects/player_stats.py:38-47 | the exact mean of passing, crossing, dribbling and first touch; in [1, 20] for valid ratings |
| Stats.DefensiveAverage | src/football_manager/core/value_objects/player_stats.py:49-56 | the exact mean of marking and tackling; in [1, 20] for valid ratings |
| Stats.PhysicalAverage | src/football_manager/core/value_objects/player_stats.py:58-66 | the exact mean of pace, acceleration and stamina; in [1, 20] for valid ratings |
| Stats.OverallAverage | src/football_manager/core/value_objects/player_stats.py:68-83 | the exact mean of all ten ratings; in [1, 20] for valid ratings |
| Stats.FixtureAverages | tests/unit/core/value_objects/test_player_stats.py:27-30 | the test fixture is valid and its technical average is exactly 12.75 |
| Stats.FieldNamesDistinct | src/football_manager/core/value_objects/player_stats.py:85-98 | the ten keys are pairwise distinct, and each is found at its own index |
| Stats.FieldSetSize | src/football_manager/core/value_objects/player_stats.py:85-98 | the key set of the map form has exactly ten members |
| Stats.ToMap | src/football_manager/core/value_objects/player_stats.py:85-98 | the map's keys are exactly the ten field names, each bound to that field's rating |
| Stats.FixtureMap | tests/unit/core/value_objects/test_player_stats.py:35-41 | the fixture's map binds passing to 15 and vision to 13, and has ten entries |
| Stats.Missing | src/football_manager/core/value_objects/player_stats.py:103 | the missing names are exactly the field names the map lacks |
| Stats.FromMap | src/football_manager/core/value_objects/player_stats.py:100-103 | extra keys are refused first, with the set of extra keys; then missing keys, with the set of missing names; a map with exactly the ten keys gets the range check of direct construction and succeeds iff every value is in range; on success, converting back gives the input map |
| Stats.FromMapAgrees | src/football_manager/core/value_objects/player_stats.py:85-103 | for a map with exactly the ten keys, the ratings read from it are valid iff its values are in range, and converting them back gives the map |
| Stats.FromMapToMap | src/football_manager/core/value_objects/player_stats.py:85-103 | round trip: converting to the map and back gives the same result as direct construction, so a valid record comes back equal |
| Players.CheckPlayer | src/football_manager/core/models/player.py:20-29 | the check passes iff 16 <= age <= 45, the name is not all whitespace, and an injured player has a non-empty description; failures are reported in that order, first one only |
| Players.ErrorMessage | src/football_manager/core/models/player.py:22-29 | the age message is "Player age must be between 16 and 45, got " followed by the age rendered by `IntToString`, in canonical decimal; the name and injury messages are their exact texts |
| Players.ErrorMessageInjective | src/football_manager/core/models/player.py:22-29 | two errors have the same message iff they are the same error, so the age message identifies the age |
| Players.Player.Valid | src/football_manager/core/models/player.py:20-29 | the current fields pass the construction check |
| Players.Player.constructor | src/football_manager/core/models/player.py:8-29 | allocation takes fields that pass the construction check, holds exactly those fields, and is valid |
| Players.AgeBoundaries | tests/unit/core/models/test_player.py:30-48 | for a non-blank name, ages 15 and 46 are rejected with an age error naming the age, and 16 and 45 are accepted |
| Players.AgeMessages | src/football_manager/core/models/player.py:23 | the age messages read "Player age must be between 16 and 45, got 15" and "... got 46" |
| Players.Player.New | src/football_manager/core/models/player.py:20-29 | direct construction succeeds iff the check passes, and then gives a fresh player holding exactly the given fields; otherwise it returns the check's first error |
| Players.Player.Create | src/football_manager/core/models/player.py:31-47 | the factory succeeds iff the age is in range and the name is not blank, with the age error first; the player is fresh, keeps the supplied id, name, age, position and stats, is not injured, has no description, and is available |
| Players.Player.Injure | src/football_manager/core/models/player.py:49-52 | sets injured and stores the stripped description; nothing else changes; the player is unavailable afterwards; a previously valid player stays valid iff the stripped description is non-empty |
| Players.Player.Heal | src/football_manager/core/models/player.py:54-57 | clears the injury and the description, changes nothing else, restores the injury rule and availability, keeps validity, and changes nothing when the player is already healed |
| Players.Player.IsAvailable | src/football_manager/core/models/player.py:59-62 | available iff not injured; under the injury rule, iff no description is recorded |
| Players.Layout | src/football_manager/core/models/player.py:67 | the result is laid out as the name, " (", the age text, ") - ", the code, " " and the status in brackets, each part at its own offset and nothing else in between or after |
| Players.LayoutJoin | src/football_manager/core/models/player.py:67 | a string laid out from these parts is exactly their concatenation, as the f-string builds it |
| Players.LayoutUnique | src/football_manager/core/models/player.py:67 | the layout determines the string: two strings laid out from the same parts are equal |
| Players.Render | src/football_manager/core/models/player.py:64-67 | the display form is laid out from the name, the age in decimal, the position's code, and INJURED for an injured player or AVAILABLE otherwise |
| Players.LayoutReadBack | src/football_manager/core/models/player.py:64-67 | reading a display form back: it starts with the name; the text after " (" is the digits of a non-negative age with that decimal value; the code after ") - " looks up to the position; the bracketed tail is "[INJURED]" iff the player is injured |
| Players.RenderReadBack | src/football_manager/core/models/player.py:64-67 | for every output of the display form: it starts with the name, a non-negative age reads back from its digits, the code looks up to the position, and the tail is "[INJURED]" iff the player is injured |
| Players.AgeAt | src/football_manager/core/models/player.py:67 | the age part reads back as the age: decimal digits of its value, after a minus sign for a negative age |
| Players.RenderShowsStatus | src/football_manager/core/models/player.py:66 | an injured and an available player with the same name, age and position display differently |
| Players.Player.ToString | src/football_manager/core/models/player.py:64-67 | the display form of the current fields, laid out from the name, the age in decimal, the primary position's code and the injury status |
| Players.RenderAvailableExample | tests/unit/core/models/test_player.py:95-105 | a healthy striker aged 38 named Cristiano Ronaldo is displayed as "Cristiano Ronaldo (38) - ST [AVAILABLE]" |
| Players.RenderInjuredExample | tests/unit/core/models/test_player.py:107-118 | an injured left winger aged 31 named Neymar Jr is displayed as "Neymar Jr (31) - LW [INJURED]" |
| Players.InjuryLifecycle | tests/unit/core/models/test_player.py:77-90 | a player created healthy, injured, healed and healed again ends healthy, available, valid, with no description and the same id, name and age |
| Players.BlankInjury | src/football_manager/core/models/player.py:49-52 | injuring any valid player with "   " leaves it injured with description "", a state that fails both the construction check and the injury rule |

## Left out

- Generating the id with `uuid4()` is random and uses a foreign library. `Create`
  takes the id as a parameter; the id is a constant field, so it is never reassigned.
- Floating point: the averages are exact `real` means, not IEEE doubles.
  The test value 12.75 is exact in both.
- Python whitespace beyond ASCII: `IsSpace` is the ASCII set `str.isspace()`
  accepts (tab, line feed, vertical tab, form feed, carriage return, codes 28 to 31,
  space). Non-ASCII whitespace such as U+00A0 is not modelled.
- Non-integer rating values, and non-string keys in the map: ratings are `int`,
  and the map is `map<string, int>`.
- Exception classes and the text of the argument-binding errors: errors are
  datatypes. Only the range message and the three player messages are modelled as
  text.
- Stats.FromMap: for unexpected keys, Python names only the first in the
  dictionary's iteration order; a Dafny map has no order, so the model reports the
  set of unexpected keys.
- Assigning a player's fields directly, which skips the construction check, is not
  modelled. Fields change only through `Injure` and `Heal`.
- Dataclass machinery (`frozen=True`, generated equality): a Dafny datatype is
  immutable and compared structurally.
- Players.LayoutReadBack: reads the age back only for a non-negative age. A valid
  player's age is at least 16. `AgeAt`, which the read-back uses, also states the
  reading of a negative age.
- Players.RenderReadBack: reads the age back only for a non-negative age, as
  `LayoutReadBack` does; `AgeAt` states the reading of a negative age.
- Stats.Message and Players.ErrorMessage render an integer of any size. Recent CPython
  releases refuse to convert an integer of more than 4300 digits to decimal, and then
  raise a `ValueError` about that limit instead of the range or age message.
- Concurrency: the core has none.
