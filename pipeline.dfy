/**
 * The two programs share levels.db: the crawler writes a row per level with
 * save_level (parser.py:79), and the bot reads it back and splits the columns
 * on commas (index.js:79-82). This module states what a user sees for a level
 * the crawler extracted from a page.
 */
module Pipeline {
  import opened Common
  import opened Text
  import opened Numerals
  import opened LevelPage
  import opened Stores
  import opened Crawler
  import opened Bot

  /**
   * A level extracted from a page and saved (with no later entry for the same
   * level) is found by the bot, whose message lists its main words one
   * "🔹 w" line each in page order, and shows a bonus section exactly when the
   * level has bonus words, one "▫️ <i>w</i>" line each in page order.
   */
  lemma ExtractedLevelRendersItsWords(page: Page, m: map<int, LevelRow>, k: nat)
    requires ExtractLevels(page).Success?
    requires k < |ExtractLevels(page).value|
    requires var es := ExtractLevels(page).value;
      forall j | k < j < |es| :: es[j].level != es[k].level
    requires ExtractLevels(page).value[k].mainWords != []
    ensures var es := ExtractLevels(page).value;
      var e := es[k];
      var row := StoredRow(e.mainWords, e.bonusWords);
      && LookupRow(SaveAll(m, es), Num(e.level)) == Some(row)
      && Respond(Num(e.level), SaveAll(m, es)) ==
           Reply(RenderLevel(IntToString(e.level), row), Some(NextButton(Num(e.level))))
      && Split(MainSection(row.mainWords), '\n') == Bullets(e.mainWords, MainBullet, "")
      && (BonusSection(row.bonusWords).Some? <==> e.bonusWords != [])
      && (e.bonusWords != [] ==>
            Split(BonusSection(row.bonusWords).value, '\n') == Bullets(e.bonusWords, BonusOpen, BonusClose))
  {
    var es := ExtractLevels(page).value;
    var e := es[k];
    SaveAllLastWriteWins(m, es, k);
    ExtractedWordsWellFormed(page);
    assert e in es;
    forall w | w in e.mainWords ensures ',' !in w && '\n' !in w {
      assert IsMainWord(w);
      assert forall i | 0 <= i < |w| :: w[i] != '\n';
    }
    forall w | w in e.bonusWords ensures w != [] && ',' !in w && '\n' !in w {
      assert IsBonusWord(w);
    }
    StoredRowRendersWords(e.mainWords, e.bonusWords);
  }

  /** A level the crawler found no main words for shows a single empty bullet. */
  lemma NoMainWordsShowsEmptyBullet(level: int, bonus: seq<string>, levels: map<int, LevelRow>)
    requires level in levels && levels[level] == StoredRow([], bonus)
    ensures Respond(Num(level), levels).text ==
      RenderLevel(IntToString(level), StoredRow([], bonus))
    ensures MainSection(levels[level].mainWords) == MainBullet
  {
    EmptyMainRendersOneBullet();
  }
}
