/**
 * The static catalogue: the thirty teams in display order, the favour levels,
 * the grid's column count and the legend's colour for each favour level.
 */
module Registry {
  import opened Words

  /** One team: full name, three-letter abbreviation and brand colour. */
  datatype Team = Team(name: string, abbr: string, color: string)

  /** The teams in the order that fixes their grid cells. */
  const Teams: seq<Team> := [
    Team("Atlanta Hawks", "ATL", "#C8102E"),
    Team("Boston Celtics", "BOS", "#007A33"),
    Team("Brooklyn Nets", "BKN", "#000000"),
    Team("Charlotte Hornets", "CHA", "#1D1160"),
    Team("Chicago Bulls", "CHI", "#CE1141"),
    Team("Cleveland Cavaliers", "CLE", "#6F263D"),
    Team("Dallas Mavericks", "DAL", "#00538C"),
    Team("Denver Nuggets", "DEN", "#0E2240"),
    Team("Detroit Pistons", "DET", "#C8102E"),
    Team("Golden State Warriors", "GSW", "#1D428A"),
    Team("Houston Rockets", "HOU", "#CE1141"),
    Team("Indiana Pacers", "IND", "#002D62"),
    Team("LA Clippers", "LAC", "#C8102E"),
    Team("Los Angeles Lakers", "LAL", "#552583"),
    Team("Memphis Grizzlies", "MEM", "#5D76A9"),
    Team("Miami Heat", "MIA", "#98002E"),
    Team("Milwaukee Bucks", "MIL", "#00471B"),
    Team("Minnesota Timberwolves", "MIN", "#0C2340"),
    Team("New Orleans Pelicans", "NOP", "#0C2340"),
    Team("New York Knicks", "NYK", "#006BB6"),
    Team("Oklahoma City Thunder", "OKC", "#007AC1"),
    Team("Orlando Magic", "ORL", "#0077C0"),
    Team("Philadelphia 76ers", "PHI", "#006BB6"),
    Team("Phoenix Suns", "PHX", "#1D1160"),
    Team("Portland Trail Blazers", "POR", "#E03A3E"),
    Team("Sacramento Kings", "SAC", "#5A2D81"),
    Team("San Antonio Spurs", "SAS", "#C4CED4"),
    Team("Toronto Raptors", "TOR", "#CE1141"),
    Team("Utah Jazz", "UTA", "#002B5C"),
    Team("Washington Wizards", "WAS", "#002B5C")
  ]

  const FavorLevels: seq<string> := ["Hometeam", "Like", "Neutral", "Dislike", "Hate"]

  const NumCols: nat := 6

  /** The legend, as (favour level, colour) pairs in the dictionary's insertion order. */
  const ColorMap: seq<(string, string)> := [
    ("Hometeam", "#1d4ed8"),
    ("Like", "#22c55e"),
    ("Neutral", "#808080"),
    ("Dislike", "#fdba74"),
    ("Hate", "#c91313")
  ]

  /** The keys of an ordered (key, value) list, in order. */
  function Keys<V>(m: seq<(string, V)>): (ks: seq<string>)
    ensures |ks| == |m| && forall i :: 0 <= i < |m| ==> ks[i] == m[i].0
  {
    if m == [] then [] else [m[0].0] + Keys(m[1..])
  }

  predicate IsHexDigit(c: char) {
    '0' <= c <= '9' || 'a' <= c <= 'f' || 'A' <= c <= 'F'
  }

  /** A `#RRGGBB` colour string. */
  predicate IsHexColor(s: string) {
    |s| == 7 && s[0] == '#' && forall i :: 1 <= i < 7 ==> IsHexDigit(s[i])
  }

  /** `s` consists of the capital letters A to Z only. */
  predicate IsCapitals(s: string) {
    forall k :: 0 <= k < |s| ==> 'A' <= s[k] <= 'Z'
  }

  /** Thirty teams in six columns fill five rows with no partial row. */
  lemma GridIsFull()
    ensures |Teams| == 30 && NumCols == 6
    ensures |Teams| % NumCols == 0 && |Teams| / NumCols == 5
  {
  }

  /** Every abbreviation is three capital letters. */
  lemma AbbreviationsAreCapitals()
    ensures forall i :: 0 <= i < |Teams| ==> |Teams[i].abbr| == 3 && IsCapitals(Teams[i].abbr)
  {
  }

  /** The abbreviations are pairwise distinct three-character strings. */
  lemma AbbreviationsDistinct()
    ensures forall i :: 0 <= i < |Teams| ==> |Teams[i].abbr| == 3
    ensures forall i, j :: 0 <= i < j < |Teams| ==> Teams[i].abbr != Teams[j].abbr
  {
  }

  lemma BrandColorsAreHex()
    ensures forall i :: 0 <= i < |Teams| ==> IsHexColor(Teams[i].color)
  {
  }

  lemma LegendColorsAreHex()
    ensures forall i :: 0 <= i < |ColorMap| ==> IsHexColor(ColorMap[i].1)
  {
  }

  /** Every brand colour and every legend colour is a `#RRGGBB` string. */
  lemma ColorsAreHex()
    ensures forall i :: 0 <= i < |Teams| ==> IsHexColor(Teams[i].color)
    ensures forall i :: 0 <= i < |ColorMap| ==> IsHexColor(ColorMap[i].1)
  {
    BrandColorsAreHex();
    LegendColorsAreHex();
  }

  /** The legend lists exactly the favour levels, in the same order, each once. */
  lemma ColorMapFollowsFavorLevels()
    ensures Keys(ColorMap) == FavorLevels
    ensures forall i, j :: 0 <= i < j < |ColorMap| ==> ColorMap[i].0 != ColorMap[j].0
  {
    var ks := Keys(ColorMap);
    assert ks == FavorLevels;
  }

  // Where the spaces of each catalogue name are: one or two single spaces,
  // never at either end.

  lemma TeamName0()
    ensures OneSpaceAt("Atlanta Hawks", 7)
  {
  }

  lemma TeamName1()
    ensures OneSpaceAt("Boston Celtics", 6)
  {
  }

  lemma TeamName2()
    ensures OneSpaceAt("Brooklyn Nets", 8)
  {
  }

  lemma TeamName3()
    ensures OneSpaceAt("Charlotte Hornets", 9)
  {
  }

  lemma TeamName4()
    ensures OneSpaceAt("Chicago Bulls", 7)
  {
  }

  lemma TeamName5()
    ensures OneSpaceAt("Cleveland Cavaliers", 9)
  {
  }

  lemma TeamName6()
    ensures OneSpaceAt("Dallas Mavericks", 6)
  {
  }

  lemma TeamName7()
    ensures OneSpaceAt("Denver Nuggets", 6)
  {
  }

  lemma TeamName8()
    ensures OneSpaceAt("Detroit Pistons", 7)
  {
  }

  lemma TeamName9()
    ensures TwoSpacesAt("Golden State Warriors", 6, 12)
  {
  }

  lemma TeamName10()
    ensures OneSpaceAt("Houston Rockets", 7)
  {
  }

  lemma TeamName11()
    ensures OneSpaceAt("Indiana Pacers", 7)
  {
  }

  lemma TeamName12()
    ensures OneSpaceAt("LA Clippers", 2)
  {
  }

  lemma TeamName13()
    ensures TwoSpacesAt("Los Angeles Lakers", 3, 11)
  {
  }

  lemma TeamName14()
    ensures OneSpaceAt("Memphis Grizzlies", 7)
  {
  }

  lemma TeamName15()
    ensures OneSpaceAt("Miami Heat", 5)
  {
  }

  lemma TeamName16()
    ensures OneSpaceAt("Milwaukee Bucks", 9)
  {
  }

  lemma TeamName17()
    ensures OneSpaceAt("Minnesota Timberwolves", 9)
  {
  }

  lemma TeamName18()
    ensures TwoSpacesAt("New Orleans Pelicans", 3, 11)
  {
  }

  lemma TeamName19()
    ensures TwoSpacesAt("New York Knicks", 3, 8)
  {
  }

  lemma TeamName20()
    ensures TwoSpacesAt("Oklahoma City Thunder", 8, 13)
  {
  }

  lemma TeamName21()
    ensures OneSpaceAt("Orlando Magic", 7)
  {
  }

  lemma TeamName22()
    ensures OneSpaceAt("Philadelphia 76ers", 12)
  {
  }

  lemma TeamName23()
    ensures OneSpaceAt("Phoenix Suns", 7)
  {
  }

  lemma TeamName24()
    ensures TwoSpacesAt("Portland Trail Blazers", 8, 14)
  {
  }

  lemma TeamName25()
    ensures OneSpaceAt("Sacramento Kings", 10)
  {
  }

  lemma TeamName26()
    ensures TwoSpacesAt("San Antonio Spurs", 3, 11)
  {
  }

  lemma TeamName27()
    ensures OneSpaceAt("Toronto Raptors", 7)
  {
  }

  lemma TeamName28()
    ensures OneSpaceAt("Utah Jazz", 4)
  {
  }

  lemma TeamName29()
    ensures OneSpaceAt("Washington Wizards", 10)
  {
  }

  lemma NamesHaveTwoOrThreeWords0()
    ensures forall i :: 0 <= i < 5 ==> 2 <= |Split(Teams[i].name)| <= 3
  {
    forall i | 0 <= i < 5
      ensures 2 <= |Split(Teams[i].name)| <= 3
    {
      if i == 0 { TeamName0(); SplitAtOneSpace(Teams[i].name, 7); }
      else if i == 1 { TeamName1(); SplitAtOneSpace(Teams[i].name, 6); }
      else if i == 2 { TeamName2(); SplitAtOneSpace(Teams[i].name, 8); }
      else if i == 3 { TeamName3(); SplitAtOneSpace(Teams[i].name, 9); }
      else if i == 4 { TeamName4(); SplitAtOneSpace(Teams[i].name, 7); }
    }
  }

  lemma NamesHaveTwoOrThreeWords1()
    ensures forall i :: 5 <= i < 10 ==> 2 <= |Split(Teams[i].name)| <= 3
  {
    forall i | 5 <= i < 10
      ensures 2 <= |Split(Teams[i].name)| <= 3
    {
      if i == 5 { TeamName5(); SplitAtOneSpace(Teams[i].name, 9); }
      else if i == 6 { TeamName6(); SplitAtOneSpace(Teams[i].name, 6); }
      else if i == 7 { TeamName7(); SplitAtOneSpace(Teams[i].name, 6); }
      else if i == 8 { TeamName8(); SplitAtOneSpace(Teams[i].name, 7); }
      else if i == 9 { TeamName9(); SplitAtTwoSpaces(Teams[i].name, 6, 12); }
    }
  }

  lemma NamesHaveTwoOrThreeWords2()
    ensures forall i :: 10 <= i < 15 ==> 2 <= |Split(Teams[i].name)| <= 3
  {
    forall i | 10 <= i < 15
      ensures 2 <= |Split(Teams[i].name)| <= 3
    {
      if i == 10 { TeamName10(); SplitAtOneSpace(Teams[i].name, 7); }
      else if i == 11 { TeamName11(); SplitAtOneSpace(Teams[i].name, 7); }
      else if i == 12 { TeamName12(); SplitAtOneSpace(Teams[i].name, 2); }
      else if i == 13 { TeamName13(); SplitAtTwoSpaces(Teams[i].name, 3, 11); }
      else if i == 14 { TeamName14(); SplitAtOneSpace(Teams[i].name, 7); }
    }
  }

  lemma NamesHaveTwoOrThreeWords3()
    ensures forall i :: 15 <= i < 20 ==> 2 <= |Split(Teams[i].name)| <= 3
  {
    forall i | 15 <= i < 20
      ensures 2 <= |Split(Teams[i].name)| <= 3
    {
      if i == 15 { TeamName15(); SplitAtOneSpace(Teams[i].name, 5); }
      else if i == 16 { TeamName16(); SplitAtOneSpace(Teams[i].name, 9); }
      else if i == 17 { TeamName17(); SplitAtOneSpace(Teams[i].name, 9); }
      else if i == 18 { TeamName18(); SplitAtTwoSpaces(Teams[i].name, 3, 11); }
      else if i == 19 { TeamName19(); SplitAtTwoSpaces(Teams[i].name, 3, 8); }
    }
  }

  lemma NamesHaveTwoOrThreeWords4()
    ensures forall i :: 20 <= i < 25 ==> 2 <= |Split(Teams[i].name)| <= 3
  {
    forall i | 20 <= i < 25
      ensures 2 <= |Split(Teams[i].name)| <= 3
    {
      if i == 20 { TeamName20(); SplitAtTwoSpaces(Teams[i].name, 8, 13); }
      else if i == 21 { TeamName21(); SplitAtOneSpace(Teams[i].name, 7); }
      else if i == 22 { TeamName22(); SplitAtOneSpace(Teams[i].name, 12); }
      else if i == 23 { TeamName23(); SplitAtOneSpace(Teams[i].name, 7); }
      else if i == 24 { TeamName24(); SplitAtTwoSpaces(Teams[i].name, 8, 14); }
    }
  }

  lemma NamesHaveTwoOrThreeWords5()
    ensures forall i :: 25 <= i < 30 ==> 2 <= |Split(Teams[i].name)| <= 3
  {
    forall i | 25 <= i < 30
      ensures 2 <= |Split(Teams[i].name)| <= 3
    {
      if i == 25 { TeamName25(); SplitAtOneSpace(Teams[i].name, 10); }
      else if i == 26 { TeamName26(); SplitAtTwoSpaces(Teams[i].name, 3, 11); }
      else if i == 27 { TeamName27(); SplitAtOneSpace(Teams[i].name, 7); }
      else if i == 28 { TeamName28(); SplitAtOneSpace(Teams[i].name, 4); }
      else if i == 29 { TeamName29(); SplitAtOneSpace(Teams[i].name, 10); }
    }
  }

  /** Every team name has two or three words, so no label is a single word. */
  lemma NamesHaveTwoOrThreeWords()
    ensures forall i :: 0 <= i < |Teams| ==> 2 <= |Split(Teams[i].name)| <= 3
  {
    NamesHaveTwoOrThreeWords0();
    NamesHaveTwoOrThreeWords1();
    NamesHaveTwoOrThreeWords2();
    NamesHaveTwoOrThreeWords3();
    NamesHaveTwoOrThreeWords4();
    NamesHaveTwoOrThreeWords5();
  }
}
