/**
 The `get_game_info` tool: a case-insensitive substring lookup of a keyword in
 a fixed, ordered table of game records, falling back to an error mapping.
 */
module GameInfo {
  import opened Text

  /** One entry of the game database. `genre` and `platform` are Python lists, kept in order. */
  datatype GameRecord = GameRecord(
    title: string,
    developer: string,
    year: int,
    genre: seq<string>,
    platform: seq<string>)

  /** What the tool returns: the matching record, or the mapping `{"error": message}`. */
  datatype LookupResult = Found(game: GameRecord) | Error(message: string)

  datatype Option<T> = None | Some(value: T)

  const Zelda := GameRecord(
    "The Legend of Zelda: Breath of the Wild", "Nintendo", 2017,
    ["Action", "Adventure"], ["Switch", "Wii U"])

  const EldenRing := GameRecord(
    "Elden Ring", "FromSoftware", 2022,
    ["Action RPG"], ["PC", "PS5", "Xbox"])

  /** The dictionary literal, in insertion order (the order `dict.items()` visits it). */
  const GameDatabase: seq<(string, GameRecord)> := [("zelda", Zelda), ("elden ring", EldenRing)]

  /** Entry `k` is the first whose key is a substring of `text`. */
  predicate IsFirstMatch(table: seq<(string, GameRecord)>, text: string, k: int) {
    0 <= k < |table| && Contains(text, table[k].0)
    && forall j :: 0 <= j < k ==> !Contains(text, table[j].0)
  }

  /** The `for key, game in ...items()` loop: the first game whose key is in `text`, if any. */
  function Search(table: seq<(string, GameRecord)>, text: string): Option<GameRecord> {
    if table == [] then None
    else if Contains(text, table[0].0) then Some(table[0].1)
    else Search(table[1..], text)
  }

  function NotFoundMessage(keyword: string): string {
    "No game found for '" + keyword + "'"
  }

  /** `get_game_info` over an arbitrary ordered table. */
  function LookupIn(table: seq<(string, GameRecord)>, keyword: string): LookupResult {
    match Search(table, Lower(keyword))
    case Some(game) => Found(game)
    case None => Error(NotFoundMessage(keyword))
  }

  /** `get_game_info(keyword)`. */
  function GetGameInfo(keyword: string): LookupResult {
    LookupIn(GameDatabase, keyword)
  }

  /** The search returns the game of the first matching entry, unchanged, and nothing when no key matches. */
  lemma {:induction false} SearchFindsFirst(table: seq<(string, GameRecord)>, text: string)
    ensures Search(table, text).None? <==> forall j :: 0 <= j < |table| ==> !Contains(text, table[j].0)
    ensures Search(table, text).Some? ==>
              exists k :: IsFirstMatch(table, text, k) && Search(table, text).value == table[k].1
  {
    if table == [] {
    } else if Contains(text, table[0].0) {
      assert IsFirstMatch(table, text, 0);
    } else {
      SearchFindsFirst(table[1..], text);
      if Search(table[1..], text).Some? {
        var k :| IsFirstMatch(table[1..], text, k) && Search(table[1..], text).value == table[1..][k].1;
        assert IsFirstMatch(table, text, k + 1);
      } else {
        forall j | 0 <= j < |table| ensures !Contains(text, table[j].0) {
          if j > 0 { assert table[j] == table[1..][j - 1]; }
        }
      }
    }
  }

  /** The lookup's whole contract: the first entry whose key is a substring of the lower-cased keyword wins;
      with no such entry the error message quotes the keyword as given. */
  lemma LookupSpec(table: seq<(string, GameRecord)>, keyword: string)
    ensures LookupIn(table, keyword).Found? <==>
              exists j :: 0 <= j < |table| && Contains(Lower(keyword), table[j].0)
    ensures LookupIn(table, keyword).Found? ==>
              exists k :: IsFirstMatch(table, Lower(keyword), k) && LookupIn(table, keyword).game == table[k].1
    ensures LookupIn(table, keyword).Error? ==>
              LookupIn(table, keyword).message == "No game found for '" + keyword + "'"
  {
    SearchFindsFirst(table, Lower(keyword));
  }

  /** Keywords with the same lower-case form find the same game, or both miss; a miss reports each keyword as given. */
  lemma CaseInsensitive(table: seq<(string, GameRecord)>, k1: string, k2: string)
    requires Lower(k1) == Lower(k2)
    ensures LookupIn(table, k1).Found? == LookupIn(table, k2).Found?
    ensures LookupIn(table, k1).Found? ==> LookupIn(table, k1) == LookupIn(table, k2)
    ensures LookupIn(table, k1).Error? ==> LookupIn(table, k1).message == NotFoundMessage(k1)
  {
  }

  /** Any keyword whose lower-case form contains "zelda" gets the Zelda record, whatever else it contains. */
  lemma ZeldaFirst(keyword: string)
    requires Contains(Lower(keyword), "zelda")
    ensures GetGameInfo(keyword) == Found(Zelda)
    ensures GetGameInfo(keyword).game.developer == "Nintendo" && GetGameInfo(keyword).game.year == 2017
  {
  }

  /** "elden ring" is found only when "zelda" is absent. */
  lemma EldenRingSecond(keyword: string)
    requires Contains(Lower(keyword), "elden ring") && !Contains(Lower(keyword), "zelda")
    ensures GetGameInfo(keyword) == Found(EldenRing)
  {
    assert GameDatabase[1..] == [("elden ring", EldenRing)];
    assert Search(GameDatabase, Lower(keyword)) == Search(GameDatabase[1..], Lower(keyword));
  }

  /** With neither key in the lower-cased keyword, the error quotes the original keyword. */
  lemma NoKeyNoGame(keyword: string)
    requires !Contains(Lower(keyword), "zelda") && !Contains(Lower(keyword), "elden ring")
    ensures GetGameInfo(keyword) == Error("No game found for '" + keyword + "'")
  {
    assert GameDatabase[1..] == [("elden ring", EldenRing)];
    assert GameDatabase[1..][1..] == [];
    assert Search(GameDatabase, Lower(keyword)) == Search(GameDatabase[1..], Lower(keyword));
    assert Search(GameDatabase[1..], Lower(keyword)) == Search(GameDatabase[1..][1..], Lower(keyword));
  }

  /** A keyword whose lower-case form starts with "zelda" gets the Zelda record. */
  lemma ZeldaPrefix(keyword: string)
    requires |keyword| >= 5 && forall i :: 0 <= i < 5 ==> LowerChar(keyword[i]) == "zelda"[i]
    ensures GetGameInfo(keyword) == Found(Zelda)
  {
    assert Lower(keyword)[..5] == "zelda";
    ZeldaFirst(keyword);
  }

  /** A keyword without the letters z and l, in either case, contains neither key and gets the error. */
  lemma NoKeyLetterNoGame(keyword: string)
    requires forall i :: 0 <= i < |keyword| ==> keyword[i] !in "zZlL"
    ensures GetGameInfo(keyword) == Error(NotFoundMessage(keyword))
  {
    var text := Lower(keyword);
    AbsentCharNotContained(text, "zelda", 'z');
    AbsentCharNotContained(text, "elden ring", 'l');
    NoKeyNoGame(keyword);
  }

  /** "zelda game info" gets the Zelda record. */
  lemma ZeldaQueryExample(s: string)
    requires s == "zelda game info"
    ensures GetGameInfo(s) == Found(Zelda)
  {
    ZeldaPrefix(s);
  }

  /** "Zelda and Elden Ring" names both games; the earlier table entry wins. */
  lemma BothGamesExample(s: string)
    requires s == "Zelda and Elden Ring"
    ensures GetGameInfo(s) == Found(Zelda)
  {
    ZeldaPrefix(s);
  }

  /** A key must occur whole: "eldenring" matches neither key. */
  lemma KeyMustBeWholeExample(s: string)
    requires s == "eldenring"
    ensures GetGameInfo(s) == Error("No game found for '" + s + "'")
  {
    LowerFixesLowerCase(s);
    AbsentCharNotContained(s, "zelda", 'z');
    ContainsBounds(s, "elden ring");
    NoKeyNoGame(s);
  }

  /** A keyword naming no known game gets the error mapping. */
  lemma MissExample(s: string)
    requires s == "no such game"
    ensures GetGameInfo(s) == Error("No game found for '" + s + "'")
  {
    NoKeyLetterNoGame(s);
  }
}
