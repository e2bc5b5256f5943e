/**
 * The crawler's control flow (parser.py): collecting the level-page links from
 * the start page, the worker that parses one page and saves its levels, the
 * loop that hands every unprocessed link to a worker, and main's seeding rule
 * and thread-count prompt.
 *
 * What the network, the database and the console do is an input here: the
 * start page arrives as a `Seed`, each level page as an `Attempt` that also
 * says which database write (if any) raises, and the typed thread count as an
 * optional line.
 */
module Crawler {
  import opened Common
  import opened Text
  import opened Numerals
  import opened LevelPage
  import opened Stores

  const BaseUrl := "https://bygame.ru"

  /** Only links whose href starts with this lead to a page of levels. */
  const LevelLinkPrefix := "/otvety/wow-"

  // ---------------------------------------------------------------------------
  // get_all_links

  /** `a.get("href", "")`: an anchor without an href reads as the empty string. */
  function HrefOf(anchor: Option<string>): string
  {
    match anchor
    case None => ""
    case Some(h) => h
  }

  /**
   * The level-page urls the start page yields: for every `li > a.uk-button`
   * anchor in document order whose href starts with the level prefix, the
   * site's base url followed by the href.
   */
  function LevelLinks(anchors: seq<Option<string>>): (links: seq<string>)
    ensures |links| <= |anchors|
    decreases |anchors|
  {
    if anchors == [] then []
    else
      var rest := LevelLinks(anchors[..|anchors| - 1]);
      var h := HrefOf(anchors[|anchors| - 1]);
      if StartsWith(h, LevelLinkPrefix) then rest + [BaseUrl + h] else rest
  }

  /** get_all_links' loop over the anchors of a start page that was fetched. */
  method GetAllLinks(anchors: seq<Option<string>>) returns (links: seq<string>)
    ensures links == LevelLinks(anchors)
  {
    links := [];
    var i := 0;
    while i < |anchors|
      invariant 0 <= i <= |anchors|
      invariant links == LevelLinks(anchors[..i])
    {
      assert anchors[..i + 1][..i] == anchors[..i];
      var href := HrefOf(anchors[i]);
      if StartsWith(href, LevelLinkPrefix) {
        links := links + [BaseUrl + href];
      }
      i := i + 1;
    }
    assert anchors[..i] == anchors;
  }

  /** The filter keeps document order: the links of two runs of anchors are the links of each, one after the other. */
  lemma {:induction false} LevelLinksConcat(a: seq<Option<string>>, b: seq<Option<string>>)
    ensures LevelLinks(a + b) == LevelLinks(a) + LevelLinks(b)
    decreases |b|
  {
    if b != [] {
      var init := b[..|b| - 1];
      assert (a + b)[..|a + b| - 1] == a + init;
      assert (a + b)[|a + b| - 1] == b[|b| - 1];
      LevelLinksConcat(a, init);
    } else {
      assert a + b == a;
    }
  }

  /** A href under the level prefix gives a link under the base url and the prefix. */
  lemma PrefixedLink(h: string)
    requires StartsWith(h, LevelLinkPrefix)
    ensures StartsWith(BaseUrl + h, BaseUrl + LevelLinkPrefix)
  {
    assert (BaseUrl + h)[..|BaseUrl + LevelLinkPrefix|] == BaseUrl + h[..|LevelLinkPrefix|];
  }

  /** Every collected link is the base url plus the href of some anchor and lies under the level prefix. */
  lemma {:induction false} LevelLinksSound(anchors: seq<Option<string>>)
    ensures forall l | l in LevelLinks(anchors) ::
      && StartsWith(l, BaseUrl + LevelLinkPrefix)
      && exists j | 0 <= j < |anchors| :: l == BaseUrl + HrefOf(anchors[j])
    decreases |anchors|
  {
    if anchors != [] {
      var n := |anchors| - 1;
      var init := anchors[..n];
      LevelLinksSound(init);
      var h := HrefOf(anchors[n]);
      if StartsWith(h, LevelLinkPrefix) {
        PrefixedLink(h);
      }
      forall l | l in LevelLinks(init)
        ensures exists j | 0 <= j < |anchors| :: l == BaseUrl + HrefOf(anchors[j])
      {
        var j :| 0 <= j < |init| && l == BaseUrl + HrefOf(init[j]);
        assert anchors[j] == init[j];
      }
    }
  }

  /** Every anchor whose href has the level prefix contributes its link. */
  lemma {:induction false} LevelLinksComplete(anchors: seq<Option<string>>)
    ensures forall j | 0 <= j < |anchors| && StartsWith(HrefOf(anchors[j]), LevelLinkPrefix) ::
      BaseUrl + HrefOf(anchors[j]) in LevelLinks(anchors)
    decreases |anchors|
  {
    if anchors != [] {
      var n := |anchors| - 1;
      var init := anchors[..n];
      LevelLinksComplete(init);
      forall j | 0 <= j < |anchors| && StartsWith(HrefOf(anchors[j]), LevelLinkPrefix)
        ensures BaseUrl + HrefOf(anchors[j]) in LevelLinks(anchors)
      {
        if j < n {
          assert anchors[j] == init[j];
        }
      }
    }
  }

  /**
   * Every collected link is the base url plus the href of some anchor and lies
   * under the level prefix, and every anchor whose href has the prefix
   * contributes its link.
   */
  lemma LevelLinksExactly(anchors: seq<Option<string>>)
    ensures forall l | l in LevelLinks(anchors) ::
      && StartsWith(l, BaseUrl + LevelLinkPrefix)
      && exists j | 0 <= j < |anchors| :: l == BaseUrl + HrefOf(anchors[j])
    ensures forall j | 0 <= j < |anchors| && StartsWith(HrefOf(anchors[j]), LevelLinkPrefix) ::
      BaseUrl + HrefOf(anchors[j]) in LevelLinks(anchors)
  {
    LevelLinksSound(anchors);
    LevelLinksComplete(anchors);
  }

  // ---------------------------------------------------------------------------
  // worker

  /** The response to `requests.get(url)`: a page of blocks, or a network or HTTP error. */
  datatype Fetch = FetchFailed | Fetched(page: Page)

  /**
   * Everything outside the program that decides how one worker call goes: the
   * fetched page, the index of the save_level call that raises (if any), and
   * whether mark_processed raises.
   */
  datatype Attempt = Attempt(fetch: Fetch, saveFailsAt: Option<nat>, markFails: bool)

  /**
   * The index of the first save_level call, at `i` or later, that raises:
   * the one the database fails, or the first level outside SQLite's INTEGER
   * range; `|es|` when every call goes through.
   */
  function SaveStop(es: seq<LevelEntry>, failsAt: Option<nat>, i: nat): (k: nat)
    requires i <= |es|
    ensures i <= k <= |es|
    ensures forall j | i <= j < k :: failsAt != Some(j) && FitsSqliteInteger(es[j].level)
    ensures k < |es| ==> failsAt == Some(k) || !FitsSqliteInteger(es[k].level)
    decreases |es| - i
  {
    if i == |es| || failsAt == Some(i) || !FitsSqliteInteger(es[i].level) then i
    else SaveStop(es, failsAt, i + 1)
  }

  /** The entries a worker gets to save_level before it stops: none when the fetch or the parse fails. */
  function SavedEntries(a: Attempt): seq<LevelEntry>
  {
    match a.fetch
    case FetchFailed => []
    case Fetched(page) =>
      match ExtractLevels(page)
      case Failure(_) => []
      case Success(es) => es[..SaveStop(es, a.saveFailsAt, 0)]
  }

  /** The worker returns True: the page was fetched and parsed, every level saved, and the url marked. */
  predicate Succeeds(a: Attempt)
  {
    && a.fetch.Fetched?
    && ExtractLevels(a.fetch.page).Success?
    && SaveStop(ExtractLevels(a.fetch.page).value, a.saveFailsAt, 0) == |ExtractLevels(a.fetch.page).value|
    && !a.markFails
  }

  /** For a page that was fetched and parsed, the saved entries are those before the first raising save_level. */
  lemma SavedEntriesOfParsed(a: Attempt, es: seq<LevelEntry>)
    requires a.fetch.Fetched? && ExtractLevels(a.fetch.page) == Success(es)
    ensures SavedEntries(a) == es[..SaveStop(es, a.saveFailsAt, 0)]
    ensures Succeeds(a) <==> SaveStop(es, a.saveFailsAt, 0) == |es| && !a.markFails
  {
  }

  /** The levels table after save_level on each entry in order. */
  function SaveAll(m: map<int, LevelRow>, es: seq<LevelEntry>): map<int, LevelRow>
    decreases |es|
  {
    if es == [] then m
    else
      var e := es[|es| - 1];
      SaveAll(m, es[..|es| - 1])[e.level := StoredRow(e.mainWords, e.bonusWords)]
  }

  ghost function LevelsOf(es: seq<LevelEntry>): set<int>
  {
    set e | e in es :: e.level
  }

  /** Two tables hold the same rows at every level outside `ls`. */
  ghost predicate AgreeOutside(a: map<int, LevelRow>, b: map<int, LevelRow>, ls: set<int>)
  {
    forall l | l !in ls :: (l in a <==> l in b) && (l in a ==> a[l] == b[l])
  }

  /** Saving adds exactly the saved levels as keys and leaves every other row alone. */
  lemma {:induction false} SaveAllTouchesOnlyItsLevels(m: map<int, LevelRow>, es: seq<LevelEntry>)
    ensures SaveAll(m, es).Keys == m.Keys + LevelsOf(es)
    ensures AgreeOutside(SaveAll(m, es), m, LevelsOf(es))
    decreases |es|
  {
    if es != [] {
      var init := es[..|es| - 1];
      SaveAllTouchesOnlyItsLevels(m, init);
      assert es == init + [es[|es| - 1]];
      assert LevelsOf(es) == LevelsOf(init) + {es[|es| - 1].level};
    }
  }

  /** The row a level ends up with is the one written by the last entry for that level. */
  lemma {:induction false} SaveAllLastWriteWins(m: map<int, LevelRow>, es: seq<LevelEntry>, k: nat)
    requires k < |es|
    requires forall j | k < j < |es| :: es[j].level != es[k].level
    ensures es[k].level in SaveAll(m, es)
    ensures SaveAll(m, es)[es[k].level] == StoredRow(es[k].mainWords, es[k].bonusWords)
    decreases |es|
  {
    if k < |es| - 1 {
      var init := es[..|es| - 1];
      assert init[k] == es[k];
      SaveAllLastWriteWins(m, init, k);
    }
  }

  /** Writing the same entries into two tables keeps them equal wherever they agreed, and makes them agree at every written level. */
  lemma {:induction false} SaveAllFrame(a: map<int, LevelRow>, b: map<int, LevelRow>, ls: set<int>, es: seq<LevelEntry>)
    requires AgreeOutside(a, b, ls)
    ensures AgreeOutside(SaveAll(a, es), SaveAll(b, es), ls - LevelsOf(es))
    decreases |es|
  {
    if es == [] {
      assert ls - LevelsOf(es) == ls;
    } else {
      var init := es[..|es| - 1];
      SaveAllFrame(a, b, ls, init);
      assert es == init + [es[|es| - 1]];
      assert LevelsOf(es) == LevelsOf(init) + {es[|es| - 1].level};
    }
  }

  /**
   * A worker that is retried after it saved some of a page's levels and then
   * failed leaves the levels table exactly as one complete run would.
   */
  lemma RetryAfterPartialSaveConverges(m: map<int, LevelRow>, es: seq<LevelEntry>, k: nat)
    requires k <= |es|
    ensures SaveAll(SaveAll(m, es[..k]), es) == SaveAll(m, es)
  {
    var partial := SaveAll(m, es[..k]);
    SaveAllTouchesOnlyItsLevels(m, es[..k]);
    assert LevelsOf(es[..k]) <= LevelsOf(es) by {
      forall l | l in LevelsOf(es[..k]) ensures l in LevelsOf(es) {
        var e :| e in es[..k] && e.level == l;
        assert e in es;
      }
    }
    SaveAllFrame(partial, m, LevelsOf(es), es);
    var x := SaveAll(partial, es);
    var y := SaveAll(m, es);
    assert AgreeOutside(x, y, {}) by {
      assert LevelsOf(es) - LevelsOf(es) == {};
    }
    forall l ensures (l in x <==> l in y) && (l in x ==> x[l] == y[l]) {
      assert l !in {};
    }
    assert x.Keys == y.Keys;
  }

  /** The crawler's two stores. */
  class Crawler {
    const progress: PageStore
    const results: LevelStore

    constructor(progress: PageStore, results: LevelStore)
      ensures this.progress == progress && this.results == results
    {
      this.progress := progress;
      this.results := results;
    }

    /**
     * worker(url): parse the page, save every level in page order, then mark
     * the url processed. Any raise ends the call with False; the levels saved
     * before it stay saved and the url stays unprocessed.
     */
    method Worker(url: string, attempt: Attempt) returns (ok: bool)
      modifies progress, results
      ensures ok == Succeeds(attempt)
      ensures results.levels == SaveAll(old(results.levels), SavedEntries(attempt))
      ensures progress.pages == if ok then MarkedAt(old(progress.pages), url) else old(progress.pages)
    {
      if attempt.fetch.FetchFailed? {
        return false;
      }
      var parsed := ParseLevelPage(attempt.fetch.page);
      if parsed.Failure? {
        return false;
      }
      var levels := parsed.value;
      ghost var stop := SaveStop(levels, attempt.saveFailsAt, 0);
      SavedEntriesOfParsed(attempt, levels);
      var i := 0;
      while i < |levels|
        invariant 0 <= i <= |levels|
        invariant i <= stop
        invariant results.levels == SaveAll(old(results.levels), levels[..i])
        invariant progress.pages == old(progress.pages)
      {
        if attempt.saveFailsAt == Some(i) {
          assert stop == i;
          return false;
        }
        assert levels[..i + 1][..i] == levels[..i];
        var saved := results.SaveLevel(levels[i].level, levels[i].mainWords, levels[i].bonusWords);
        if !saved {
          assert stop == i;
          return false;
        }
        i := i + 1;
      }
      assert levels[..i] == levels;
      if attempt.markFails {
        return false;
      }
      progress.MarkProcessed(url);
      return true;
    }

    /**
     * The executor loop: every unprocessed url goes to a worker once. The
     * model runs them one after another in the order the ledger returned them.
     */
    method Dispatch(world: string -> Attempt) returns (links: seq<string>, outcomes: seq<bool>)
      modifies progress, results
      ensures forall u :: u in links <==> u in old(progress.pages) && !old(progress.pages)[u]
      ensures forall i, j | 0 <= i < j < |links| :: links[i] != links[j]
      ensures |outcomes| == |links|
      ensures forall i | 0 <= i < |links| :: outcomes[i] == Succeeds(world(links[i]))
      ensures progress.pages.Keys == old(progress.pages).Keys
      ensures forall u | u in progress.pages :: progress.pages[u] == (old(progress.pages)[u] || Succeeds(world(u)))
      ensures forall u | u in links :: u in progress.pages && progress.pages[u] == Succeeds(world(u))
      ensures results.levels == SaveRuns(old(results.levels), links, world)
    {
      links := progress.UnprocessedLinks();
      outcomes := [];
      var i := 0;
      while i < |links|
        invariant 0 <= i <= |links|
        invariant |outcomes| == i
        invariant forall j | 0 <= j < i :: outcomes[j] == Succeeds(world(links[j]))
        invariant Progressed(old(progress.pages), progress.pages, links[..i], world)
        invariant results.levels == SaveRuns(old(results.levels), links[..i], world)
      {
        var url := links[i];
        ProgressedStep(old(progress.pages), progress.pages, links, i, world);
        SaveRunsStep(old(results.levels), links, i, world);
        var ok := Worker(url, world(url));
        OutcomesStep(outcomes, links, world, ok);
        outcomes := outcomes + [ok];
        i := i + 1;
      }
      ProgressedAll(old(progress.pages), progress.pages, links, world);
      SaveRunsAll(old(results.levels), links, world);
    }

    /**
     * main(): seed the ledger from the start page only when it is empty (a
     * failure to fetch the start page then ends the program), read the thread
     * count, and dispatch every unprocessed url.
     */
    method Crawl(seed: Seed, threadsLine: Option<string>, world: string -> Attempt) returns (run: Run)
      modifies progress, results
      ensures run.Aborted? <==> |old(progress.pages)| == 0 && seed.SeedFailed?
      ensures run.Aborted? ==> progress.pages == old(progress.pages) && results.levels == old(results.levels)
      ensures run.Ran? ==>
        var seeded := SeededPages(old(progress.pages), seed);
        && run.threads == ClampThreads(threadsLine)
        && (forall u :: u in run.links <==> u in seeded && !seeded[u])
        && (forall i, j | 0 <= i < j < |run.links| :: run.links[i] != run.links[j])
        && |run.outcomes| == |run.links|
        && (forall i | 0 <= i < |run.links| :: run.outcomes[i] == Succeeds(world(run.links[i])))
        && progress.pages.Keys == seeded.Keys
        && (forall u | u in progress.pages :: progress.pages[u] == (seeded[u] || Succeeds(world(u))))
        && (forall u | u in run.links :: u in progress.pages && progress.pages[u] == Succeeds(world(u)))
        && results.levels == SaveRuns(old(results.levels), run.links, world)
    {
      var count := progress.Count();
      if count == 0 {
        match seed
        case SeedFailed =>
          return Aborted;
        case SeedPage(anchors) =>
          var links := GetAllLinks(anchors);
          progress.SaveLinks(links);
      }
      var threads := ClampThreads(threadsLine);
      var links, outcomes := Dispatch(world);
      run := Ran(threads, links, outcomes);
    }
  }

  /** The levels table after one worker per url, in order. */
  function SaveRuns(m: map<int, LevelRow>, urls: seq<string>, world: string -> Attempt): map<int, LevelRow>
    decreases |urls|
  {
    if urls == [] then m
    else SaveAll(SaveRuns(m, urls[..|urls| - 1], world), SavedEntries(world(urls[|urls| - 1])))
  }

  /** The ledger after the workers for `done` ran: each of those urls is processed exactly when its worker succeeded. */
  ghost predicate Progressed(before: map<string, bool>, after: map<string, bool>, done: seq<string>, world: string -> Attempt)
  {
    && after.Keys == before.Keys
    && forall u | u in after :: after[u] == (before[u] || (u in done && Succeeds(world(u))))
  }

  lemma ProgressedStep(before: map<string, bool>, p: map<string, bool>, links: seq<string>, i: nat, world: string -> Attempt)
    requires i < |links|
    requires Progressed(before, p, links[..i], world)
    ensures var url := links[i];
      Progressed(before, if Succeeds(world(url)) then MarkedAt(p, url) else p, links[..i + 1], world)
  {
    var url := links[i];
    var next := if Succeeds(world(url)) then MarkedAt(p, url) else p;
    assert links[..i + 1] == links[..i] + [url];
    forall u | u in next
      ensures next[u] == (before[u] || (u in links[..i + 1] && Succeeds(world(u))))
    {
      assert u in links[..i + 1] <==> u in links[..i] || u == url;
    }
  }

  lemma SaveRunsStep(m: map<int, LevelRow>, links: seq<string>, i: nat, world: string -> Attempt)
    requires i < |links|
    ensures SaveRuns(m, links[..i + 1], world) == SaveAll(SaveRuns(m, links[..i], world), SavedEntries(world(links[i])))
  {
    assert links[..i + 1][..i] == links[..i];
  }

  lemma OutcomesStep(outcomes: seq<bool>, links: seq<string>, world: string -> Attempt, ok: bool)
    requires |outcomes| < |links|
    requires forall j | 0 <= j < |outcomes| :: outcomes[j] == Succeeds(world(links[j]))
    requires ok == Succeeds(world(links[|outcomes|]))
    ensures forall j | 0 <= j < |outcomes| + 1 :: (outcomes + [ok])[j] == Succeeds(world(links[j]))
  {
  }

  lemma SaveRunsAll(m: map<int, LevelRow>, links: seq<string>, world: string -> Attempt)
    ensures SaveRuns(m, links[..|links|], world) == SaveRuns(m, links, world)
  {
    assert links[..|links|] == links;
  }

  lemma ProgressedAll(before: map<string, bool>, after: map<string, bool>, links: seq<string>, world: string -> Attempt)
    requires Progressed(before, after, links[..|links|], world)
    requires forall u :: u in links <==> u in before && !before[u]
    ensures forall u | u in after :: after[u] == (before[u] || Succeeds(world(u)))
  {
    assert links[..|links|] == links;
  }

  // ---------------------------------------------------------------------------
  // main

  /** The start page: its `li > a.uk-button` anchors' hrefs, or a failed request. */
  datatype Seed = SeedFailed | SeedPage(anchors: seq<Option<string>>)

  /** How main ended: the start-page request raised, or the workers ran with this many threads. */
  datatype Run = Aborted | Ran(threads: int, links: seq<string>, outcomes: seq<bool>)

  /** The ledger after main's first step: seeded from the start page only when it held no row. */
  function SeededPages(m: map<string, bool>, seed: Seed): map<string, bool>
  {
    if |m| == 0 && seed.SeedPage? then InsertAbsent(m, LevelLinks(seed.anchors)) else m
  }

  /** A ledger that already holds rows is never re-seeded, whatever the start page says. */
  lemma NoReseeding(m: map<string, bool>, seed: Seed)
    requires m != map[]
    ensures SeededPages(m, seed) == m
  {
    assert m.Keys != {};
  }

  /** On a first run the ledger holds exactly the start page's level links, all unprocessed. */
  lemma FirstRunSeedsLevelLinks(anchors: seq<Option<string>>)
    ensures SeededPages(map[], SeedPage(anchors)).Keys == set l | l in LevelLinks(anchors)
    ensures forall u | u in SeededPages(map[], SeedPage(anchors)) :: !SeededPages(map[], SeedPage(anchors))[u]
  {
    InsertAbsentEffect(map[], LevelLinks(anchors));
  }

  /**
   * The thread count from the typed line: `int(line)` clamped to 1..10, and 5
   * when there is no line or it is not an integer.
   */
  function ClampThreads(line: Option<string>): (t: int)
    ensures 1 <= t <= 10
  {
    if line.None? then 5
    else
      var parsed := ParsePythonInt(line.value);
      if parsed.None? then 5 else ClampRange(parsed.value)
  }

  function ClampRange(n: int): int
  {
    if n < 1 then 1 else if n > 10 then 10 else n
  }

  /** Typing a number gives that number when it is from 1 to 10, and the nearer bound otherwise. */
  lemma ClampThreadsOfNumber(n: int)
    ensures 1 <= n <= 10 ==> ClampThreads(Some(IntToString(n))) == n
    ensures n < 1 ==> ClampThreads(Some(IntToString(n))) == 1
    ensures n > 10 ==> ClampThreads(Some(IntToString(n))) == 10
  {
    IntToStringParses(n);
    assert ClampThreads(Some(IntToString(n))) == ClampRange(n);
  }
}
