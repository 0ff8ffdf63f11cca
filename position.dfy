/**
 * The fourteen on-field positions, their short codes, and the fixed table that
 * groups them into four tactical categories.
 */
module Positions {
  import opened Wrappers

  datatype Position =
    | Goalkeeper
    | CenterBack | LeftBack | RightBack | WingBackLeft | WingBackRight
    | DefensiveMidfielder | CentralMidfielder | AttackingMidfielder | LeftMidfielder | RightMidfielder
    | CenterForward | LeftWinger | RightWinger

  datatype PositionCategory = GoalkeeperCategory | Defender | Midfielder | Forward

  /** The positions of each group of the declaration, in declaration order. */
  const Goalkeepers: seq<Position> := [Goalkeeper]
  const Defenders: seq<Position> := [CenterBack, LeftBack, RightBack, WingBackLeft, WingBackRight]
  const Midfielders: seq<Position> :=
    [DefensiveMidfielder, CentralMidfielder, AttackingMidfielder, LeftMidfielder, RightMidfielder]
  const Forwards: seq<Position> := [CenterForward, LeftWinger, RightWinger]

  /** Every position, in declaration order. */
  const AllPositions: seq<Position> := Goalkeepers + Defenders + Midfielders + Forwards

  /** A position's index in the declaration. */
  function Ordinal(p: Position): nat {
    match p
    case Goalkeeper => 0
    case CenterBack => 1
    case LeftBack => 2
    case RightBack => 3
    case WingBackLeft => 4
    case WingBackRight => 5
    case DefensiveMidfielder => 6
    case CentralMidfielder => 7
    case AttackingMidfielder => 8
    case LeftMidfielder => 9
    case RightMidfielder => 10
    case CenterForward => 11
    case LeftWinger => 12
    case RightWinger => 13
  }

  /** The short code a position is identified by (the enum member's value). */
  function Code(p: Position): (r: string)
    ensures 2 <= |r| <= 3
    ensures forall i :: 0 <= i < |r| ==> 'A' <= r[i] <= 'Z'
  {
    match p
    case Goalkeeper => "GK"
    case CenterBack => "CB"
    case LeftBack => "LB"
    case RightBack => "RB"
    case WingBackLeft => "WBL"
    case WingBackRight => "WBR"
    case DefensiveMidfielder => "DM"
    case CentralMidfielder => "CM"
    case AttackingMidfielder => "AM"
    case LeftMidfielder => "LM"
    case RightMidfielder => "RM"
    case CenterForward => "ST"
    case LeftWinger => "LW"
    case RightWinger => "RW"
  }

  /** A category's display value: a capitalised word. */
  function CategoryName(c: PositionCategory): (r: string)
    ensures |r| >= 1 && 'A' <= r[0] <= 'Z'
    ensures forall i :: 1 <= i < |r| ==> 'a' <= r[i] <= 'z'
  {
    match c
    case GoalkeeperCategory => "Goalkeeper"
    case Defender => "Defender"
    case Midfielder => "Midfielder"
    case Forward => "Forward"
  }

  /** The category table; an exhaustive match, so every position has exactly one
      category. The categories are consecutive blocks of the declaration order. */
  function Category(p: Position): (r: PositionCategory)
    ensures r == GoalkeeperCategory <==> Ordinal(p) == 0
    ensures r == Defender <==> 1 <= Ordinal(p) <= 5
    ensures r == Midfielder <==> 6 <= Ordinal(p) <= 10
    ensures r == Forward <==> 11 <= Ordinal(p) <= 13
  {
    match p
    case Goalkeeper => GoalkeeperCategory
    case CenterBack | LeftBack | RightBack | WingBackLeft | WingBackRight => Defender
    case DefensiveMidfielder | CentralMidfielder | AttackingMidfielder | LeftMidfielder | RightMidfielder =>
      Midfielder
    case CenterForward | LeftWinger | RightWinger => Forward
  }

  /** The four categories have distinct display values. */
  lemma CategoryNameInjective(c: PositionCategory, d: PositionCategory)
    ensures CategoryName(c) == CategoryName(d) <==> c == d
  {
  }

  /** Looking a position up by its code, as `Position(code)` does; codes that name no
      position give `None`. */
  function FromCode(code: string): (r: Option<Position>)
    ensures r.Some? ==> Code(r.value) == code
    ensures r.None? ==> forall p :: Code(p) != code
  {
    if code == "GK" then Some(Goalkeeper)
    else if code == "CB" then Some(CenterBack)
    else if code == "LB" then Some(LeftBack)
    else if code == "RB" then Some(RightBack)
    else if code == "WBL" then Some(WingBackLeft)
    else if code == "WBR" then Some(WingBackRight)
    else if code == "DM" then Some(DefensiveMidfielder)
    else if code == "CM" then Some(CentralMidfielder)
    else if code == "AM" then Some(AttackingMidfielder)
    else if code == "LM" then Some(LeftMidfielder)
    else if code == "RM" then Some(RightMidfielder)
    else if code == "ST" then Some(CenterForward)
    else if code == "LW" then Some(LeftWinger)
    else if code == "RW" then Some(RightWinger)
    else None
  }

  /** A code identifies its position: looking up a position's code gives that position. */
  lemma FromCodeOfCode(p: Position)
    ensures FromCode(Code(p)) == Some(p)
  {
  }

  /** The fourteen codes are pairwise distinct. */
  lemma CodeInjective(p: Position, q: Position)
    ensures Code(p) == Code(q) <==> p == q
  {
    FromCodeOfCode(p);
    FromCodeOfCode(q);
  }

  /** `AllPositions` lists every position exactly once. */
  lemma AllPositionsComplete()
    ensures |AllPositions| == 14
    ensures forall p: Position :: p in AllPositions
    ensures forall i, j :: 0 <= i < j < |AllPositions| ==> AllPositions[i] != AllPositions[j]
  {
    forall p: Position ensures p in AllPositions {
      assert AllPositions[Ordinal(p)] == p;
    }
    forall i | 0 <= i < |AllPositions| ensures Ordinal(AllPositions[i]) == i {
    }
  }

  /** The positions of `ps` that belong to category `c`, in the order of `ps`. */
  function PositionsIn(c: PositionCategory, ps: seq<Position>): (r: seq<Position>)
    ensures |r| <= |ps|
  {
    if ps == [] then []
    else if Category(ps[0]) == c then [ps[0]] + PositionsIn(c, ps[1..])
    else PositionsIn(c, ps[1..])
  }

  /** The filtered sequence holds exactly the members of `ps` that belong to `c`. */
  lemma {:induction false} PositionsInMembers(c: PositionCategory, ps: seq<Position>, p: Position)
    ensures p in PositionsIn(c, ps) <==> p in ps && Category(p) == c
  {
    if ps != [] {
      PositionsInMembers(c, ps[1..], p);
      assert ps == [ps[0]] + ps[1..];
    }
  }

  /** The goalkeeper is the only position in the goalkeeper category. */
  lemma GoalkeeperCategoryIff(p: Position)
    ensures Category(p) == GoalkeeperCategory <==> p == Goalkeeper
  {
  }

  /** Exactly the five back positions are defenders. */
  lemma DefenderIff(p: Position)
    ensures Category(p) == Defender <==>
      p in {CenterBack, LeftBack, RightBack, WingBackLeft, WingBackRight}
  {
  }

  /** Exactly the five midfield positions are midfielders. */
  lemma MidfielderIff(p: Position)
    ensures Category(p) == Midfielder <==>
      p in {DefensiveMidfielder, CentralMidfielder, AttackingMidfielder, LeftMidfielder, RightMidfielder}
  {
  }

  /** Exactly the striker and the two wingers are forwards. */
  lemma ForwardIff(p: Position)
    ensures Category(p) == Forward <==> p in {CenterForward, LeftWinger, RightWinger}
  {
  }

  /** Filtering distributes over concatenation. */
  lemma {:induction false} PositionsInConcat(c: PositionCategory, a: seq<Position>, b: seq<Position>)
    ensures PositionsIn(c, a + b) == PositionsIn(c, a) + PositionsIn(c, b)
  {
    if a == [] {
      assert a + b == b;
    } else {
      assert (a + b)[0] == a[0];
      assert (a + b)[1..] == a[1..] + b;
      PositionsInConcat(c, a[1..], b);
    }
  }

  /** The positions of category `c`, taken group by group. */
  lemma CategoryByGroups(c: PositionCategory)
    ensures PositionsIn(c, AllPositions) ==
      PositionsIn(c, Goalkeepers) + PositionsIn(c, Defenders)
      + PositionsIn(c, Midfielders) + PositionsIn(c, Forwards)
  {
    PositionsInConcat(c, Goalkeepers + Defenders + Midfielders, Forwards);
    PositionsInConcat(c, Goalkeepers + Defenders, Midfielders);
    PositionsInConcat(c, Goalkeepers, Defenders);
  }

  /** The goalkeeper belongs to the goalkeeper category alone. */
  lemma GoalkeepersByCategory()
    ensures PositionsIn(GoalkeeperCategory, Goalkeepers) == Goalkeepers
    ensures PositionsIn(Defender, Goalkeepers) == []
    ensures PositionsIn(Midfielder, Goalkeepers) == []
    ensures PositionsIn(Forward, Goalkeepers) == []
  {
  }

  /** The five back positions belong to the defender category alone. */
  lemma DefendersByCategory()
    ensures PositionsIn(GoalkeeperCategory, Defenders) == []
    ensures PositionsIn(Defender, Defenders) == Defenders
    ensures PositionsIn(Midfielder, Defenders) == []
    ensures PositionsIn(Forward, Defenders) == []
  {
  }

  /** The five midfield positions belong to the midfielder category alone. */
  lemma MidfieldersByCategory()
    ensures PositionsIn(GoalkeeperCategory, Midfielders) == []
    ensures PositionsIn(Defender, Midfielders) == []
    ensures PositionsIn(Midfielder, Midfielders) == Midfielders
    ensures PositionsIn(Forward, Midfielders) == []
  {
  }

  /** The striker and the two wingers belong to the forward category alone. */
  lemma ForwardsByCategory()
    ensures PositionsIn(GoalkeeperCategory, Forwards) == []
    ensures PositionsIn(Defender, Forwards) == []
    ensures PositionsIn(Midfielder, Forwards) == []
    ensures PositionsIn(Forward, Forwards) == Forwards
  {
  }

  /** The members of each category, in declaration order: 1, 5, 5 and 3 positions,
      which together are all fourteen. */
  lemma CategoryMembers()
    ensures PositionsIn(GoalkeeperCategory, AllPositions) == [Goalkeeper]
    ensures PositionsIn(Defender, AllPositions) ==
      [CenterBack, LeftBack, RightBack, WingBackLeft, WingBackRight]
    ensures PositionsIn(Midfielder, AllPositions) ==
      [DefensiveMidfielder, CentralMidfielder, AttackingMidfielder, LeftMidfielder, RightMidfielder]
    ensures PositionsIn(Forward, AllPositions) == [CenterForward, LeftWinger, RightWinger]
    ensures |PositionsIn(GoalkeeperCategory, AllPositions)| + |PositionsIn(Defender, AllPositions)|
          + |PositionsIn(Midfielder, AllPositions)| + |PositionsIn(Forward, AllPositions)|
          == |AllPositions|
  {
    GoalkeepersByCategory();
    DefendersByCategory();
    MidfieldersByCategory();
    ForwardsByCategory();
    CategoryByGroups(GoalkeeperCategory);
    CategoryByGroups(Defender);
    CategoryByGroups(Midfielder);
    CategoryByGroups(Forward);
  }
}
