/**
 * The crawler's two tables (parser.py): `pages` in progress.db, a ledger of
 * url -> processed flag, and `levels` in levels.db, level -> word lists. Each
 * table is a map held by an object; the SQLite connection handling is not
 * modelled, and every statement is a single step on the map.
 */
module Stores {
  import opened Common
  import opened Text

  // ---------------------------------------------------------------------------
  // The pages ledger

  /** INSERT OR IGNORE of every url: new urls start unprocessed, existing rows are left alone. */
  function InsertAbsent(m: map<string, bool>, urls: seq<string>): map<string, bool>
  {
    map u | u in m.Keys + (set v | v in urls) :: if u in m then m[u] else false
  }

  /** `UPDATE pages SET processed = 1 WHERE url = ?`: touches only that row, and only if it exists. */
  function MarkedAt(m: map<string, bool>, url: string): map<string, bool>
  {
    if url in m then m[url := true] else m
  }

  /** The ledger only grows, and a processed flag never goes back to false. */
  ghost predicate Advances(before: map<string, bool>, after: map<string, bool>)
  {
    && before.Keys <= after.Keys
    && forall u | u in before && before[u] :: after[u]
  }

  /**
   * INSERT OR IGNORE adds exactly the new urls, unprocessed, never a second row,
   * and keeps every existing row's flag.
   */
  lemma InsertAbsentEffect(m: map<string, bool>, urls: seq<string>)
    ensures InsertAbsent(m, urls).Keys == m.Keys + (set u | u in urls)
    ensures forall u | u in m :: InsertAbsent(m, urls)[u] == m[u]
    ensures forall u | u in urls && u !in m :: !InsertAbsent(m, urls)[u]
    ensures Advances(m, InsertAbsent(m, urls))
  {
  }

  /** Saving the same links twice is the same as saving them once. */
  lemma InsertAbsentIdempotent(m: map<string, bool>, urls: seq<string>)
    ensures InsertAbsent(InsertAbsent(m, urls), urls) == InsertAbsent(m, urls)
  {
    var once := InsertAbsent(m, urls);
    var twice := InsertAbsent(once, urls);
    assert twice.Keys == once.Keys;
  }

  lemma InsertAbsentSnoc(m: map<string, bool>, urls: seq<string>, url: string)
    ensures InsertAbsent(m, urls + [url]) ==
      var p := InsertAbsent(m, urls); if url in p then p else p[url := false]
  {
    var p := InsertAbsent(m, urls);
    var q := InsertAbsent(m, urls + [url]);
    assert (set v | v in urls + [url]) == (set v | v in urls) + {url};
    if url in p {
      assert q.Keys == p.Keys;
    } else {
      assert q.Keys == p[url := false].Keys;
    }
  }

  /**
   * Marking sets the named url to processed when it is present, is a no-op when
   * it is absent, and changes no other row.
   */
  lemma MarkedAtEffect(m: map<string, bool>, url: string)
    ensures MarkedAt(m, url).Keys == m.Keys
    ensures url in m ==> MarkedAt(m, url)[url]
    ensures forall u | u in m && u != url :: MarkedAt(m, url)[u] == m[u]
    ensures Advances(m, MarkedAt(m, url))
  {
  }

  /** The pages table. */
  class PageStore {
    var pages: map<string, bool>

    /** init_progress_db on a fresh database. */
    constructor()
      ensures pages == map[]
    {
      pages := map[];
    }

    /** save_links: one INSERT OR IGNORE per url, in order. */
    method SaveLinks(urls: seq<string>)
      modifies this
      ensures pages == InsertAbsent(old(pages), urls)
      ensures Advances(old(pages), pages)
    {
      var i := 0;
      assert urls[..0] == [];
      assert InsertAbsent(pages, []) == pages;
      while i < |urls|
        invariant 0 <= i <= |urls|
        invariant pages == InsertAbsent(old(pages), urls[..i])
      {
        InsertAbsentSnoc(old(pages), urls[..i], urls[i]);
        assert urls[..i + 1] == urls[..i] + [urls[i]];
        if urls[i] !in pages {
          pages := pages[urls[i] := false];
        }
        i := i + 1;
      }
      assert urls[..i] == urls;
      InsertAbsentEffect(old(pages), urls);
    }

    /** get_unprocessed_links: every url whose flag is false, each once. */
    method UnprocessedLinks() returns (r: seq<string>)
      ensures forall u :: u in r <==> u in pages && !pages[u]
      ensures forall i, j | 0 <= i < j < |r| :: r[i] != r[j]
    {
      r := [];
      var rest := pages.Keys;
      while rest != {}
        invariant rest <= pages.Keys
        invariant forall u :: u in r <==> u in pages && u !in rest && !pages[u]
        invariant forall i, j | 0 <= i < j < |r| :: r[i] != r[j]
        decreases rest
      {
        var u :| u in rest;
        if !pages[u] {
          r := r + [u];
        }
        rest := rest - {u};
      }
    }

    /** mark_processed. */
    method MarkProcessed(url: string)
      modifies this
      ensures pages == MarkedAt(old(pages), url)
      ensures Advances(old(pages), pages)
    {
      if url in pages {
        pages := pages[url := true];
      }
    }

    /** `SELECT COUNT(*) FROM pages`. */
    method Count() returns (n: nat)
      ensures n == |pages|
      ensures n == 0 <==> pages == map[]
    {
      n := |pages|;
    }
  }

  // ---------------------------------------------------------------------------
  // The levels table

  /** A row of the levels table: the comma-joined main words, and the comma-joined bonus words or NULL. */
  datatype LevelRow = LevelRow(mainWords: string, bonusWords: Option<string>)

  /** The row save_level writes: main words joined with ",", bonus words joined with "," or NULL when there are none. */
  function StoredRow(main: seq<string>, bonus: seq<string>): LevelRow
  {
    LevelRow(Join(main, ','), if bonus == [] then None else Some(Join(bonus, ',')))
  }

  /**
   * A stored row gives back the saved lists when split on commas: bonus is NULL
   * exactly when the bonus list is empty, and otherwise both columns split back
   * into the lists that were saved (for comma-free words and a non-empty main list).
   */
  lemma StoredRowRoundTrip(main: seq<string>, bonus: seq<string>)
    requires main != [] && forall w | w in main :: ',' !in w
    requires forall w | w in bonus :: ',' !in w
    ensures StoredRow(main, bonus).bonusWords.None? <==> bonus == []
    ensures Split(StoredRow(main, bonus).mainWords, ',') == main
    ensures bonus != [] ==> Split(StoredRow(main, bonus).bonusWords.value, ',') == bonus
  {
    SplitJoin(main, ',');
    if bonus != [] {
      SplitJoin(bonus, ',');
    }
  }

  /** An empty main list is stored as the empty string, which splits into one empty field. */
  lemma EmptyMainStoredAsEmptyString(bonus: seq<string>)
    ensures StoredRow([], bonus).mainWords == ""
    ensures Split(StoredRow([], bonus).mainWords, ',') == [""]
  {
  }

  /** A Python int the sqlite3 module can bind as an INTEGER parameter: signed 64-bit. */
  predicate FitsSqliteInteger(n: int)
  {
    -0x8000_0000_0000_0000 <= n <= 0x7FFF_FFFF_FFFF_FFFF
  }

  /** The levels table. */
  class LevelStore {
    var levels: map<int, LevelRow>

    /** init_levels_db on a fresh database. */
    constructor()
      ensures levels == map[]
    {
      levels := map[];
    }

    /**
     * save_level: INSERT OR REPLACE, so the whole row for that level is
     * replaced and no other row changes. Binding a level outside SQLite's
     * INTEGER range raises OverflowError before anything is written.
     */
    method SaveLevel(level: int, main: seq<string>, bonus: seq<string>) returns (ok: bool)
      modifies this
      ensures ok == FitsSqliteInteger(level)
      ensures levels == if ok then old(levels)[level := StoredRow(main, bonus)] else old(levels)
    {
      if !FitsSqliteInteger(level) {
        return false;
      }
      levels := levels[level := StoredRow(main, bonus)];
      return true;
    }
  }
}
