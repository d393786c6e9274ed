/** The profile screen's helpers: the label of the next green title to
    reach, a readable title name, the avatar's initials, short gender and
    role labels, and the list of badges a user has earned. Badge emoji are
    named by an enumeration. */
module Profile {
  import opened Common
  import opened Models

  // -------------------------------------------------------- next threshold

  /** The score at which each title begins, in title order. */
  const Thresholds: seq<(int, GreenTitle)> :=
    [(0, Beginner), (100, EcoConscious), (250, GreenWarrior), (500, SustainabilityHero), (1000, PlanetChampion)]

  /** The thresholds rise strictly, and each begins the title
      calculateGreenTitle gives its score. */
  lemma ThresholdsMatchTitles()
    ensures forall i, j :: 0 <= i < j < |Thresholds| ==> Thresholds[i].0 < Thresholds[j].0
    ensures forall i :: 0 <= i < |Thresholds| ==> CalculateGreenTitle(Thresholds[i].0) == Thresholds[i].1
    ensures forall i :: 0 <= i < |Thresholds| ==> TitleRank(Thresholds[i].1) == i
  {
  }

  /** Kotlin's indexOfLast { score >= it.first }: the last position whose
      threshold the score reaches, or -1 when there is none. */
  function IndexOfLastReached(ts: seq<(int, GreenTitle)>, score: int): (r: int)
    ensures -1 <= r < |ts|
    ensures r >= 0 ==> score >= ts[r].0
    ensures forall j :: r < j < |ts| ==> score < ts[j].0
  {
    if ts == [] then -1
    else if score >= ts[|ts| - 1].0 then |ts| - 1
    else IndexOfLastReached(ts[..|ts| - 1], score)
  }

  /** What the progress label reports: the top title is reached, or how many
      points are missing to which next title. */
  datatype Progress = MaxReached | PointsTo(points: int, next: GreenTitle)

  /** nextThreshold without its progress fraction. */
  function NextStep(score: int): (p: Progress)
    ensures p.MaxReached? <==> score >= 1000
  {
    var idx := IndexOfLastReached(Thresholds, score);
    var current := if idx < 0 then 0 else idx;
    if current + 1 >= |Thresholds| then MaxReached
    else
      var next := Thresholds[current + 1];
      PointsTo(next.0 - score, next.1)
  }

  /** Below the top, at least one point is always missing. For a score from 0
      on, the next title is the one after the score's own, and the points are
      those up to where it begins; a negative score counts from the beginner
      threshold. */
  lemma NextStepIsNextTitle(score: int)
    requires score < 1000
    ensures NextStep(score).points >= 1
    ensures score >= 0 ==> NextStep(score).next == NextTitle(CalculateGreenTitle(score)).value
    ensures score < 0 ==> NextStep(score) == PointsTo(100 - score, EcoConscious)
    ensures exists i :: 0 <= i < |Thresholds| && Thresholds[i] == (NextStep(score).points + score, NextStep(score).next)
  {
    var idx := IndexOfLastReached(Thresholds, score);
    var current := if idx < 0 then 0 else idx;
    assert Thresholds[current + 1] == (NextStep(score).points + score, NextStep(score).next);
  }

  /** The progress label under the bar: the top title once it is reached,
      otherwise the missing points and the readable name of the next title. */
  function ProgressLabel(score: int): (s: string)
    ensures score >= 1000 ==> s == "Max title reached: " + PrettyGreenTitle(PlanetChampion)
    ensures score < 1000 ==> s == IntToString(NextStep(score).points) + " points to " + PrettyGreenTitle(NextStep(score).next)
  {
    match NextStep(score)
    case MaxReached => "Max title reached: " + PrettyGreenTitle(PlanetChampion)
    case PointsTo(points, next) => IntToString(points) + " points to " + PrettyGreenTitle(next)
  }

  /** Below the top title the label names the title after the score's own,
      by its readable name, and the points up to it are positive: a score of
      120 reads "130 points to Green warrior". */
  lemma ProgressLabelNamesNextTitle(score: int)
    requires 0 <= score < 1000
    ensures NextStep(score).points >= 1
    ensures ProgressLabel(score) == IntToString(NextStep(score).points) + " points to "
      + PrettyTitleText(NextTitle(CalculateGreenTitle(score)).value)
  {
    NextStepIsNextTitle(score);
    PrettyGreenTitleValues(NextStep(score).next);
  }

  // ---------------------------------------------------------- title names

  /** Every occurrence of one character replaced by another. */
  function ReplaceChar(s: string, from: char, to: char): (r: string)
    ensures |r| == |s|
    ensures forall i :: 0 <= i < |s| ==> r[i] == if s[i] == from then to else s[i]
  {
    seq(|s|, i requires 0 <= i < |s| => if s[i] == from then to else s[i])
  }

  /** Kotlin's replaceFirstChar { it.uppercase() }, for ASCII letters. */
  function CapitalizeFirst(s: string): (r: string)
    ensures |r| == |s| && (s != [] ==> r[0] == UpperChar(s[0]) && r[1..] == s[1..])
  {
    if s == [] then [] else [UpperChar(s[0])] + s[1..]
  }

  /** prettyGreenTitle: the enum name lower-cased, with spaces for
      underscores and a capital first letter. */
  function PrettyGreenTitle(t: GreenTitle): (r: string)
    ensures |r| == |TitleName(t)|
    ensures r[0] == TitleName(t)[0]
    ensures forall i :: 0 < i < |r| ==> r[i] == if TitleName(t)[i] == '_' then ' ' else LowerChar(TitleName(t)[i])
  {
    CapitalizeFirst(ReplaceChar(Lowercase(TitleName(t)), '_', ' '))
  }

  /** The readable title a title is shown with. */
  function PrettyTitleText(t: GreenTitle): string {
    match t
    case Beginner => "Beginner"
    case EcoConscious => "Eco conscious"
    case GreenWarrior => "Green warrior"
    case SustainabilityHero => "Sustainability hero"
    case PlanetChampion => "Planet champion"
  }

  /** The enum name, lower-cased with spaces, in readable form. */
  lemma {:induction false} PrettyFromName(name: string, text: string)
    requires |name| == |text| && name != [] && 'A' <= name[0] <= 'Z' && text[0] == name[0]
    requires forall i :: 0 < i < |name| ==> text[i] == if name[i] == '_' then ' ' else LowerChar(name[i])
    ensures CapitalizeFirst(ReplaceChar(Lowercase(name), '_', ' ')) == text
  {
    var lowered := ReplaceChar(Lowercase(name), '_', ' ');
    var r := CapitalizeFirst(lowered);
    forall i | 0 <= i < |r|
      ensures r[i] == text[i]
    {
      if i > 0 {
        assert r[i] == lowered[i];
      }
    }
  }

  /** The five readable titles. */
  lemma PrettyGreenTitleValues(t: GreenTitle)
    ensures PrettyGreenTitle(t) == PrettyTitleText(t)
  {
    match t
    case Beginner => PrettyFromName("BEGINNER", "Beginner");
    case EcoConscious => PrettyFromName("ECO_CONSCIOUS", "Eco conscious");
    case GreenWarrior => PrettyFromName("GREEN_WARRIOR", "Green warrior");
    case SustainabilityHero => PrettyFromName("SUSTAINABILITY_HERO", "Sustainability hero");
    case PlanetChampion => PrettyFromName("PLANET_CHAMPION", "Planet champion");
  }

  // ------------------------------------------------------------- initials

  /** The name the avatar uses: the display name unless it is absent or
      blank, else the username. */
  function AvatarName(user: User): (name: string)
    ensures user.displayName.Some? && !IsBlank(user.displayName.value) ==> name == user.displayName.value
    ensures user.displayName.None? || IsBlank(user.displayName.value) ==> name == user.username
  {
    if user.displayName.Some? && !IsBlank(user.displayName.value) then user.displayName.value else user.username
  }

  /** The upper-cased first character of a piece, as a string of at most one. */
  function FirstUpper(piece: string): (r: string)
    ensures |r| <= 1 && (piece != [] ==> r == [UpperChar(piece[0])])
  {
    if piece == [] then [] else [UpperChar(piece[0])]
  }

  /** A string that does not start with whitespace does not start with a
      space, and its first character stays non-whitespace once upper-cased. */
  lemma HeadKeepsNonWhitespace(s: string)
    requires s != [] ==> !IsWhitespace(s[0])
    ensures s != [] ==> s[0] != ' ' && !IsWhitespace(UpperChar(s[0]))
  {
  }

  /** The first characters of the first two space-separated words of the
      trimmed name, upper-cased; a name that is not blank gives at least one,
      the upper-cased first non-whitespace character. */
  function WordInitials(name: string): (r: string)
    ensures |r| <= 2
    ensures !IsBlank(name) ==> r != [] && r[0] == UpperChar(Trim(name)[0]) && !IsWhitespace(r[0])
    ensures IsBlank(name) ==> r == []
  {
    var trimmed := Trim(name);
    var parts := Split(trimmed, ' ');
    HeadKeepsNonWhitespace(trimmed);
    assert trimmed == [] ==> parts == [[]];
    FirstUpper(parts[0]) + (if |parts| > 1 then FirstUpper(parts[1]) else [])
  }

  /** initialsFor: the word initials, unless they are blank (only when the
      name is blank); then the name's own first character upper-cased, or "U"
      for an empty name. */
  function InitialsFor(user: User): (r: string)
    ensures 1 <= |r| <= 2
    ensures !IsBlank(AvatarName(user)) ==> r == WordInitials(AvatarName(user)) && r[0] == UpperChar(Trim(AvatarName(user))[0])
    ensures IsBlank(AvatarName(user)) && AvatarName(user) != [] ==> r == [UpperChar(AvatarName(user)[0])]
    ensures AvatarName(user) == [] ==> r == "U"
  {
    var name := AvatarName(user);
    var built := WordInitials(name);
    assert built != [] && !IsWhitespace(built[0]) ==> !IsBlank(built);
    if !IsBlank(built) then built
    else if name != [] then [UpperChar(name[0])]
    else "U"
  }

  /** Two words separated by one space, with no whitespace at either end,
      give the upper-cased first letters of both. */
  lemma TwoWordInitials(first: string, last: string)
    requires first != [] && last != [] && ' ' !in first && ' ' !in last
    requires !IsWhitespace(first[0]) && !IsWhitespace(last[|last| - 1])
    ensures WordInitials(first + " " + last) == [UpperChar(first[0]), UpperChar(last[0])]
  {
    var name := first + " " + last;
    assert TrimStart(name) == name;
    assert TrimEnd(name) == name;
    SplitAfterPiece(first, ' ', last);
  }

  // ---------------------------------------------------------------- labels

  function GenderLabel(g: Gender): string {
    match g
    case Male => "M"
    case Female => "F"
    case NonBinary => "NB"
  }

  function RoleLabel(role: UserRole): string {
    match role
    case NewMuencher => "Newcomer"
    case OldMuencher => "Local"
  }

  /** No two genders share a label. */
  lemma GenderLabelInjective(a: Gender, b: Gender)
    ensures GenderLabel(a) == GenderLabel(b) ==> a == b
  {
  }

  /** The two roles read different labels. */
  lemma RoleLabelInjective(a: UserRole, b: UserRole)
    ensures RoleLabel(a) == RoleLabel(b) ==> a == b
  {
  }

  // ---------------------------------------------------------------- badges

  datatype BadgeIcon =
    | Seedling | Leaves | Herb | Tree | Globe
    | SportsMedal | GoldMedal | SilverMedal | BronzeMedal | Handshake
    | DogFace | CatFace | PawPrints
    | NewButton | Houses

  datatype Badge = Badge(icon: BadgeIcon, title: string, subtitle: Option<string>)

  function TitleIcon(t: GreenTitle): BadgeIcon {
    match t
    case Beginner => Seedling
    case EcoConscious => Leaves
    case GreenWarrior => Herb
    case SustainabilityHero => Tree
    case PlanetChampion => Globe
  }

  /** The green-title badge: the title calculateGreenTitle gives the score
      (not the stored one), with the score underneath. */
  function TitleBadge(score: int): Badge {
    var t := CalculateGreenTitle(score);
    Badge(TitleIcon(t), PrettyGreenTitle(t), Some("Eco score " + IntToString(score)))
  }

  /** The goodwill milestone badge: none below 10 points, else the highest
      tier of 500, 200, 100, 50 and 10 that is reached. */
  function GoodwillBadge(goodwill: int): (b: Option<Badge>)
    ensures b.Some? <==> goodwill >= 10
    ensures b.Some? ==> b.value.subtitle == Some(IntToString(goodwill) + " pts")
    ensures b.Some? && b.value.title == "Helper Champion" <==> goodwill >= 500
    ensures b.Some? && b.value.title == "Gold Helper" <==> 200 <= goodwill < 500
    ensures b.Some? && b.value.title == "Silver Helper" <==> 100 <= goodwill < 200
    ensures b.Some? && b.value.title == "Bronze Helper" <==> 50 <= goodwill < 100
    ensures b.Some? && b.value.title == "Helping Hand" <==> 10 <= goodwill < 50
  {
    var pts := Some(IntToString(goodwill) + " pts");
    if goodwill >= 500 then Some(Badge(SportsMedal, "Helper Champion", pts))
    else if goodwill >= 200 then Some(Badge(GoldMedal, "Gold Helper", pts))
    else if goodwill >= 100 then Some(Badge(SilverMedal, "Silver Helper", pts))
    else if goodwill >= 50 then Some(Badge(BronzeMedal, "Bronze Helper", pts))
    else if goodwill >= 10 then Some(Badge(Handshake, "Helping Hand", pts))
    else None
  }

  /** Some pet type mentions `word`, ignoring case. */
  predicate AnyPetMentions(petTypes: seq<string>, word: string) {
    exists i :: 0 <= i < |petTypes| && ContainsIgnoreCase(petTypes[i], word)
  }

  /** The pet badge's icon: a dog wins over a cat, and neither gives paw prints. */
  function PetIcon(petTypes: seq<string>): (icon: BadgeIcon)
    ensures icon == DogFace <==> AnyPetMentions(petTypes, "dog")
    ensures icon == CatFace <==> !AnyPetMentions(petTypes, "dog") && AnyPetMentions(petTypes, "cat")
    ensures icon == PawPrints <==> !AnyPetMentions(petTypes, "dog") && !AnyPetMentions(petTypes, "cat")
  {
    if AnyPetMentions(petTypes, "dog") then DogFace
    else if AnyPetMentions(petTypes, "cat") then CatFace
    else PawPrints
  }

  const PetLoverTitle: string := "Pet Lover"

  function RoleBadge(role: UserRole): Badge {
    match role
    case NewMuencher => Badge(NewButton, "New Muencher", None)
    case OldMuencher => Badge(Houses, "Local Guide", None)
  }

  /** No badge but the pet badge carries the pet-lover title. */
  lemma OnlyThePetBadgeIsPetLover(user: User)
    ensures TitleBadge(user.sustainabilityScore).title != PetLoverTitle
    ensures RoleBadge(user.role).title != PetLoverTitle
    ensures GoodwillBadge(user.goodwillPoints).Some? ==> GoodwillBadge(user.goodwillPoints).value.title != PetLoverTitle
  {
    PrettyGreenTitleValues(CalculateGreenTitle(user.sustainabilityScore));
  }

  /** badgesFor: the list is built in order, title first and role last, with
      the goodwill and pet badges in between when they are earned. */
  method BadgesFor(user: User) returns (badges: seq<Badge>)
    ensures |badges| == 2 + (if user.goodwillPoints >= 10 then 1 else 0) + (if user.hasPets then 1 else 0)
    ensures 2 <= |badges| <= 4
    ensures badges[0] == TitleBadge(user.sustainabilityScore)
    ensures badges[|badges| - 1] == RoleBadge(user.role)
    ensures user.goodwillPoints >= 10 ==> badges[1] == GoodwillBadge(user.goodwillPoints).value
    ensures user.hasPets ==> badges[|badges| - 2] == Badge(PetIcon(user.petTypes), PetLoverTitle, None)
    ensures (exists i :: 0 <= i < |badges| && badges[i].title == PetLoverTitle) <==> user.hasPets
    ensures TitleConsistent(user) ==> badges[0].title == PrettyGreenTitle(user.greenTitle)
  {
    var list: seq<Badge> := [];
    list := list + [TitleBadge(user.sustainabilityScore)];
    var goodwillBadge := GoodwillBadge(user.goodwillPoints);
    if goodwillBadge.Some? {
      list := list + [goodwillBadge.value];
    }
    if user.hasPets {
      list := list + [Badge(PetIcon(user.petTypes), PetLoverTitle, None)];
    }
    list := list + [RoleBadge(user.role)];
    OnlyThePetBadgeIsPetLover(user);
    PrettyGreenTitleValues(CalculateGreenTitle(user.sustainabilityScore));
    return list;
  }
}
