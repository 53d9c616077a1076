/**
 * The REST backstop (hobo/core/fill_reconciler.py): paging back through exchange history, attributing a
 * client order id to the book that minted it, and submitting what the WebSocket missed.
 */
module FillReconciliation {
  import opened Wrappers
  import opened RiskModel
  import opened Decimal
  import opened FillIngestion
  import B = Bus

  datatype AccountFill = AccountFill(
    tradeId: string, clientOrderId: string, instrumentId: string, side: Side,
    qty: real, price: real, fee: real, tsNs: int, cursor: string)

  const MIN_FILL_AGE_NS := 10_000_000_000
  const MAX_PAGES: nat := 10
  const BASELINE_SLACK_NS := 60_000_000_000

  /** A continuing engine starts a minute before the log's last exchange fill, a fresh one at now. */
  function Baseline(lastFillNs: int, nowNs: int): int {
    if lastFillNs != 0 then lastFillNs - BASELINE_SLACK_NS else nowNs
  }

  /**
   * After a restart every id-bearing exchange fill the log missed, from a minute before its newest one on,
   * is asked for; an engine whose log has none asks for nothing older than its start.
   */
  lemma RestartBackfillsGap(es: seq<Envelope>, f: AccountFill, nowNs: int)
    requires f.tradeId != ""
    ensures var last := LastFillNs(es);
            IsWanted(f, Baseline(last, nowNs), LoggedIds(es))
            <==> (if last != 0 then f.tsNs + 60_000_000_000 >= last else f.tsNs >= nowNs)
                 && forall i | 0 <= i < |es| && es[i].event.Fill? :: es[i].event.tradeId != f.tradeId
  {
    if f.tradeId in LoggedIds(es) {
      var i :| 0 <= i < |es| && es[i].event.Fill? && es[i].event.tradeId != "" && es[i].event.tradeId == f.tradeId;
      assert !(forall j | 0 <= j < |es| && es[j].event.Fill? :: es[j].event.tradeId != f.tradeId);
    } else {
      forall i | 0 <= i < |es| && es[i].event.Fill? ensures es[i].event.tradeId != f.tradeId {
        assert es[i].event.tradeId == "" || es[i].event.tradeId in LoggedIds(es);
      }
    }
  }

  // ---- paging ----

  type Pages = seq<seq<AccountFill>>

  /** The exchange's history endpoint: the first page, or the page after the one a cursor ends. */
  function FillsAfter(pages: Pages, after: Option<string>): seq<AccountFill> {
    match after
    case None => if pages == [] then [] else pages[0]
    case Some(cursor) =>
      if |pages| < 2 || pages[0] == [] then []
      else if pages[0][|pages[0]| - 1].cursor == cursor then pages[1]
      else FillsAfter(pages[1..], after)
  }

  function Flatten(pages: Pages): seq<AccountFill> {
    if pages == [] then [] else Flatten(pages[..|pages| - 1]) + pages[|pages| - 1]
  }

  /** Non-empty pages, each ending in its own cursor; only the last page's may be empty. */
  ghost predicate Chained(pages: Pages) {
    && (forall i | 0 <= i < |pages| :: pages[i] != [])
    && (forall i | 0 <= i < |pages| - 1 :: LastCursor(pages, i) != "")
    && (forall i, j | 0 <= i < j < |pages| :: LastCursor(pages, i) != LastCursor(pages, j))
  }

  function LastCursor(pages: Pages, i: nat): string
    requires i < |pages|
  {
    if pages[i] == [] then "" else pages[i][|pages[i]| - 1].cursor
  }

  ghost predicate NewestFirst(fills: seq<AccountFill>) {
    forall i, j | 0 <= i < j < |fills| :: fills[i].tsNs >= fills[j].tsNs
  }

  predicate IsWanted(f: AccountFill, baselineNs: int, seen: set<string>) {
    f.tsNs >= baselineNs && f.tradeId != "" && f.tradeId !in seen
  }

  /** The unseen id-bearing fills at or after the baseline, in order. */
  function Wanted(fills: seq<AccountFill>, baselineNs: int, seen: set<string>): seq<AccountFill> {
    if fills == [] then [] else
      var prior, f := Wanted(fills[..|fills| - 1], baselineNs, seen), fills[|fills| - 1];
      if IsWanted(f, baselineNs, seen) then prior + [f] else prior
  }

  predicate ReachesBaseline(page: seq<AccountFill>, baselineNs: int) {
    exists i :: 0 <= i < |page| && page[i].tsNs < baselineNs
  }

  lemma {:induction false} WantedConcat(a: seq<AccountFill>, b: seq<AccountFill>, baselineNs: int, seen: set<string>)
    ensures Wanted(a + b, baselineNs, seen) == Wanted(a, baselineNs, seen) + Wanted(b, baselineNs, seen)
    decreases |b|
  {
    if b == [] {
      assert a + b == a;
    } else {
      assert (a + b)[..|a + b| - 1] == a + b[..|b| - 1];
      WantedConcat(a, b[..|b| - 1], baselineNs, seen);
    }
  }

  lemma {:induction false} NothingWanted(fills: seq<AccountFill>, baselineNs: int, seen: set<string>)
    requires forall i | 0 <= i < |fills| :: fills[i].tsNs < baselineNs
    ensures Wanted(fills, baselineNs, seen) == []
  {
    if fills != [] {
      NothingWanted(fills[..|fills| - 1], baselineNs, seen);
    }
  }

  lemma {:induction false} FlattenSplit(pages: Pages, k: nat)
    requires k <= |pages|
    ensures Flatten(pages) == Flatten(pages[..k]) + Flatten(pages[k..])
    decreases |pages| - k
  {
    if k == |pages| {
      assert pages[..k] == pages;
    } else {
      FlattenSplit(pages, k + 1);
      var rest := pages[k..];
      assert pages[..k + 1][..k] == pages[..k];
      FlattenFirst(rest);
      assert rest[1..] == pages[k + 1..];
    }
  }

  lemma {:induction false} FlattenFirst(pages: Pages)
    requires pages != []
    ensures Flatten(pages) == pages[0] + Flatten(pages[1..])
  {
    if |pages| > 1 {
      var front := pages[..|pages| - 1];
      FlattenFirst(front);
      assert front[1..] == pages[1..][..|pages| - 2];
    } else {
      assert pages[..0] == [];
    }
  }

  /** Once a page reaches behind the baseline, no later page holds anything wanted. */
  lemma BeyondBaseline(pages: Pages, k: nat, baselineNs: int, seen: set<string>)
    requires k < |pages| && NewestFirst(Flatten(pages)) && ReachesBaseline(pages[k], baselineNs)
    ensures Wanted(Flatten(pages), baselineNs, seen) == Wanted(Flatten(pages[..k + 1]), baselineNs, seen)
  {
    var head, tail := Flatten(pages[..k + 1]), Flatten(pages[k + 1..]);
    FlattenSplit(pages, k + 1);
    assert pages[..k + 1][..k] == pages[..k];
    var i :| 0 <= i < |pages[k]| && pages[k][i].tsNs < baselineNs;
    var at := |Flatten(pages[..k])| + i;
    assert Flatten(pages)[at] == head[at] == pages[k][i];
    forall j | 0 <= j < |tail| ensures tail[j].tsNs < baselineNs {
      assert Flatten(pages)[|head| + j] == tail[j];
    }
    NothingWanted(tail, baselineNs, seen);
    WantedConcat(head, tail, baselineNs, seen);
  }

  lemma {:induction false} NextPage(pages: Pages, k: nat)
    requires Chained(pages) && k < |pages|
    ensures FillsAfter(pages, Some(LastCursor(pages, k))) == if k + 1 < |pages| then pages[k + 1] else []
    decreases k
  {
    hide Chained;
    ChainedRest(pages, k);
    if k > 0 {
      hide LastCursor;
      NextPage(pages[1..], k - 1);
    }
  }

  lemma ChainedRest(pages: Pages, k: nat)
    requires Chained(pages) && k < |pages|
    ensures Chained(pages[1..])
    ensures pages[0] != [] && LastCursor(pages, 0) == pages[0][|pages[0]| - 1].cursor
    ensures k > 0 ==> LastCursor(pages[1..], k - 1) == LastCursor(pages, k) != LastCursor(pages, 0)
  {
    var rest := pages[1..];
    assert forall i | 0 <= i < |rest| :: rest[i] == pages[i + 1] && LastCursor(rest, i) == LastCursor(pages, i + 1);
  }

  // ---- what the pages hold, fill by fill ----

  datatype Place = Place(page: nat, index: nat)

  predicate Earlier(a: Place, b: Place) { a.page < b.page || (a.page == b.page && a.index < b.index) }

  /**
   * `collected` is, in history order, exactly the fills before `end` that are no older than the baseline,
   * carry a trade id, and whose id has not been seen; `at` says where each stands.
   */
  ghost predicate Selects(at: seq<Place>, collected: seq<AccountFill>, pages: Pages, end: Place, baselineNs: int, seen: set<string>) {
    && |at| == |collected|
    && (forall j, k | 0 <= j < k < |at| :: Earlier(at[j], at[k]))
    && (forall k | 0 <= k < |at| ::
          && Earlier(at[k], end) && at[k].page < |pages| && at[k].index < |pages[at[k].page]|
          && collected[k] == pages[at[k].page][at[k].index])
    && (forall a: Place | Earlier(a, end) && a.page < |pages| && a.index < |pages[a.page]| ::
          a in at <==> var f := pages[a.page][a.index]; f.tsNs >= baselineNs && f.tradeId != "" && f.tradeId !in seen)
  }

  /** That for the first n pages. */
  ghost predicate IsUnseenOf(collected: seq<AccountFill>, pages: Pages, n: nat, baselineNs: int, seen: set<string>) {
    exists at :: Selects(at, collected, pages, Place(n, 0), baselineNs, seen)
  }

  /** One fill further. */
  lemma SelectsNext(at: seq<Place>, out: seq<AccountFill>, pages: Pages, n: nat, i: nat, baselineNs: int, seen: set<string>)
    requires n < |pages| && i < |pages[n]| && Selects(at, out, pages, Place(n, i), baselineNs, seen)
    ensures var f := pages[n][i];
            if IsWanted(f, baselineNs, seen)
            then Selects(at + [Place(n, i)], out + [f], pages, Place(n, i + 1), baselineNs, seen)
            else Selects(at, out, pages, Place(n, i + 1), baselineNs, seen)
  {
    var f, here := pages[n][i], Place(n, i);
    assert forall a :: Earlier(a, Place(n, i + 1)) <==> Earlier(a, here) || a == here;
    assert forall k | 0 <= k < |at| :: at[k] != here;
    var more := at + [here];
    assert forall a :: a in more <==> a in at || a == here;
  }

  /** A page's fills one by one. */
  lemma {:induction false} SelectsPage(at: seq<Place>, out: seq<AccountFill>, pages: Pages, n: nat, i: nat, baselineNs: int, seen: set<string>)
    returns (more: seq<Place>)
    requires n < |pages| && i <= |pages[n]| && Selects(at, out, pages, Place(n, 0), baselineNs, seen)
    ensures Selects(more, out + Wanted(pages[n][..i], baselineNs, seen), pages, Place(n, i), baselineNs, seen)
  {
    hide Selects, IsWanted;
    if i == 0 {
      assert out + [] == out;
      more := at;
    } else {
      var page, prior := pages[n][..i], Wanted(pages[n][..i - 1], baselineNs, seen);
      more := SelectsPage(at, out, pages, n, i - 1, baselineNs, seen);
      SelectsNext(more, out + prior, pages, n, i - 1, baselineNs, seen);
      assert page[..i - 1] == pages[n][..i - 1] && page[i - 1] == pages[n][i - 1];
      if IsWanted(page[i - 1], baselineNs, seen) {
        assert out + prior + [page[i - 1]] == out + (prior + [page[i - 1]]);
        more := more + [Place(n, i - 1)];
      }
    }
  }

  lemma PageDone(at: seq<Place>, out: seq<AccountFill>, pages: Pages, n: nat, baselineNs: int, seen: set<string>)
    requires n < |pages| && Selects(at, out, pages, Place(n, |pages[n]|), baselineNs, seen)
    ensures Selects(at, out, pages, Place(n + 1, 0), baselineNs, seen)
  {
  }

  lemma {:induction false} WantedIsUnseen(pages: Pages, n: nat, baselineNs: int, seen: set<string>)
    requires n <= |pages|
    ensures IsUnseenOf(Wanted(Flatten(pages[..n]), baselineNs, seen), pages, n, baselineNs, seen)
  {
    if n == 0 {
      assert Selects([], [], pages, Place(0, 0), baselineNs, seen);
    } else {
      hide Selects, Wanted, IsWanted;
      var prior := Wanted(Flatten(pages[..n - 1]), baselineNs, seen);
      WantedIsUnseen(pages, n - 1, baselineNs, seen);
      OneMorePage(pages, n - 1, baselineNs, seen);
      var at :| Selects(at, prior, pages, Place(n - 1, 0), baselineNs, seen);
      var more := SelectsPage(at, prior, pages, n - 1, |pages[n - 1]|, baselineNs, seen);
      assert pages[n - 1][..|pages[n - 1]|] == pages[n - 1];
      PageDone(more, Wanted(Flatten(pages[..n]), baselineNs, seen), pages, n - 1, baselineNs, seen);
    }
  }

  function PagesFetched(pages: Pages): nat { if |pages| < MAX_PAGES then |pages| else MAX_PAGES }

  /**
   * Pages back from the newest fill toward the baseline.  Always returns exactly the unseen id-bearing fills
   * no older than the baseline of the first ten pages, in history order; when the baseline or the end lies
   * within them, those are all there are.
   */
  method FetchNew(pages: Pages, baselineNs: int, seen: set<string>) returns (collected: seq<AccountFill>)
    requires Chained(pages) && NewestFirst(Flatten(pages))
    ensures IsUnseenOf(collected, pages, if |pages| < 10 then |pages| else 10, baselineNs, seen)
    ensures |pages| <= 10 || (exists k, i :: 0 <= k < 10 && 0 <= i < |pages[k]| && pages[k][i].tsNs < baselineNs)
            ==> IsUnseenOf(collected, pages, |pages|, baselineNs, seen)
    ensures collected == Wanted(Flatten(pages[..PagesFetched(pages)]), baselineNs, seen)
  {
    hide NewestFirst, FillsAfter, Flatten, Wanted, IsWanted, IsUnseenOf;
    NothingYet(pages, baselineNs, seen);
    FetchedIsUnseen(pages, baselineNs, seen);
    collected := [];
    var after: Option<string> := None;
    for n := 0 to MAX_PAGES
      invariant n <= |pages|
      invariant collected == Wanted(Flatten(pages[..n]), baselineNs, seen)
      invariant after == if n == 0 then None else Some(LastCursor(pages, n - 1))
    {
      PageAt(pages, n);
      var page := FillsAfter(pages, after);
      if page == [] {
        Covers(pages, n, baselineNs, seen);
        return;
      }
      OneMorePage(pages, n, baselineNs, seen);
      collected := collected + Wanted(page, baselineNs, seen);
      if ReachesBaseline(page, baselineNs) {
        Covers(pages, n + 1, baselineNs, seen);
        return;
      }
      after := Some(page[|page| - 1].cursor);
      if after == Some("") {
        assert LastCursor(pages, n) == "";
        Covers(pages, n + 1, baselineNs, seen);
        return;
      }
    }
    Covers(pages, MAX_PAGES, baselineNs, seen);
  }

  /** What the loop collects, said fill by fill. */
  lemma FetchedIsUnseen(pages: Pages, baselineNs: int, seen: set<string>)
    requires NewestFirst(Flatten(pages))
    ensures var fetched := Wanted(Flatten(pages[..PagesFetched(pages)]), baselineNs, seen);
            && IsUnseenOf(fetched, pages, if |pages| < 10 then |pages| else 10, baselineNs, seen)
            && (|pages| <= 10 || (exists k, i :: 0 <= k < 10 && 0 <= i < |pages[k]| && pages[k][i].tsNs < baselineNs)
                ==> IsUnseenOf(fetched, pages, |pages|, baselineNs, seen))
  {
    hide NewestFirst, Flatten, Wanted, IsWanted, IsUnseenOf;
    WantedIsUnseen(pages, PagesFetched(pages), baselineNs, seen);
    WantedIsUnseen(pages, |pages|, baselineNs, seen);
    Covers(pages, PagesFetched(pages), baselineNs, seen);
    assert pages[..|pages|] == pages;
    if k, i :| 0 <= k < 10 && k < |pages| && 0 <= i < |pages[k]| && pages[k][i].tsNs < baselineNs {
      assert ReachesBaseline(pages[k], baselineNs);
    }
  }

  lemma NothingYet(pages: Pages, baselineNs: int, seen: set<string>)
    ensures Wanted(Flatten(pages[..0]), baselineNs, seen) == []
  {
  }

  lemma PageAt(pages: Pages, n: nat)
    requires Chained(pages) && n <= |pages|
    ensures FillsAfter(pages, if n == 0 then None else Some(LastCursor(pages, n - 1)))
            == if n < |pages| then pages[n] else []
  {
    hide Chained, LastCursor;
    if n > 0 {
      hide FillsAfter;
      NextPage(pages, n - 1);
    }
  }

  lemma OneMorePage(pages: Pages, n: nat, baselineNs: int, seen: set<string>)
    requires n < |pages|
    ensures Wanted(Flatten(pages[..n + 1]), baselineNs, seen)
            == Wanted(Flatten(pages[..n]), baselineNs, seen) + Wanted(pages[n], baselineNs, seen)
  {
    hide Wanted;
    assert pages[..n + 1][..n] == pages[..n];
    WantedConcat(Flatten(pages[..n]), pages[n], baselineNs, seen);
  }

  /** Stopping early at the end or behind the baseline loses nothing of the pages not visited. */
  lemma Covers(pages: Pages, visited: nat, baselineNs: int, seen: set<string>)
    requires NewestFirst(Flatten(pages)) && visited <= PagesFetched(pages)
    requires visited == PagesFetched(pages) || (visited > 0 && ReachesBaseline(pages[visited - 1], baselineNs))
    ensures Wanted(Flatten(pages[..visited]), baselineNs, seen)
            == Wanted(Flatten(pages[..PagesFetched(pages)]), baselineNs, seen)
    ensures |pages| <= MAX_PAGES || (exists k :: 0 <= k < MAX_PAGES && ReachesBaseline(pages[k], baselineNs))
            ==> Wanted(Flatten(pages[..visited]), baselineNs, seen) == Wanted(Flatten(pages), baselineNs, seen)
  {
    var m := PagesFetched(pages);
    assert pages[..|pages|] == pages;
    FlattenSplit(pages, m);
    var first := pages[..m];
    assert forall i | 0 <= i < |Flatten(first)| :: Flatten(pages)[i] == Flatten(first)[i];
    if visited < m {
      assert first[visited - 1] == pages[visited - 1] && first[..visited] == pages[..visited];
      BeyondBaseline(first, visited - 1, baselineNs, seen);
    }
    if |pages| > MAX_PAGES && exists k :: 0 <= k < MAX_PAGES && ReachesBaseline(pages[k], baselineNs) {
      var k :| 0 <= k < MAX_PAGES && ReachesBaseline(pages[k], baselineNs);
      BeyondBaseline(pages, k, baselineNs, seen);
      assert first[k] == pages[k] && first[..k + 1] == pages[..k + 1];
      BeyondBaseline(first, k, baselineNs, seen);
    }
  }

  // ---- attribution ----

  /** The client order id a book's n-th exchange order carries. */
  function Mint(bookId: string, n: nat): string { bookId + Padded(n) }

  predicate Matches(clientOrderId: string, bookId: string) {
    bookId <= clientOrderId && |bookId| < |clientOrderId| && AllDigits(clientOrderId[|bookId|..])
  }

  /** The longest book id that the client order id extends by digits only, if any. */
  ghost predicate IsAttribution(clientOrderId: string, books: set<string>, r: Option<string>) {
    match r
    case None => forall b <- books :: !Matches(clientOrderId, b)
    case Some(best) =>
      best in books && Matches(clientOrderId, best)
      && forall b <- books :: Matches(clientOrderId, b) ==> |b| <= |best|
  }

  ghost predicate LongestFirst(l: seq<string>) { forall i, j | 0 <= i < j < |l| :: |l[i]| >= |l[j]| }

  function InsertByLength(l: seq<string>, b: string): seq<string> {
    if l == [] || |b| > |l[0]| then [b] + l else [l[0]] + InsertByLength(l[1..], b)
  }

  lemma {:induction false} InsertLongestFirst(l: seq<string>, b: string)
    requires LongestFirst(l)
    ensures LongestFirst(InsertByLength(l, b))
    ensures forall x :: x in InsertByLength(l, b) <==> x == b || x in l
  {
    if l != [] && |b| <= |l[0]| {
      InsertLongestFirst(l[1..], b);
      var rest := InsertByLength(l[1..], b);
      forall j | 0 <= j < |rest| ensures |l[0]| >= |rest[j]| {
        assert rest[j] in rest;
      }
      assert InsertByLength(l, b) == [l[0]] + rest;
      assert l == [l[0]] + l[1..];
    }
  }

  method SortedByLength(books: set<string>) returns (l: seq<string>)
    ensures LongestFirst(l) && forall b :: b in l <==> b in books
  {
    l := [];
    var todo := books;
    while todo != {}
      invariant todo <= books && LongestFirst(l)
      invariant forall b :: b in l <==> b in books && b !in todo
      decreases |todo|
    {
      var b :| b in todo;
      InsertLongestFirst(l, b);
      l := InsertByLength(l, b);
      todo := todo - {b};
    }
  }

  /** Written out: the book id itself, then one or more characters between 0 and 9. */
  predicate ExtendsByDigits(clientOrderId: string, bookId: string) {
    && |bookId| < |clientOrderId| && clientOrderId[..|bookId|] == bookId
    && forall i | |bookId| <= i < |clientOrderId| :: '0' <= clientOrderId[i] <= '9'
  }

  lemma MatchesIs(clientOrderId: string, bookId: string)
    ensures Matches(clientOrderId, bookId) <==> ExtendsByDigits(clientOrderId, bookId)
  {
    if bookId <= clientOrderId {
      var rest := clientOrderId[|bookId|..];
      assert forall i | |bookId| <= i < |clientOrderId| :: clientOrderId[i] == rest[i - |bookId|];
      assert forall i | 0 <= i < |rest| :: rest[i] == clientOrderId[|bookId| + i];
    }
  }

  method Attribute(clientOrderId: string, books: set<string>) returns (r: Option<string>)
    ensures IsAttribution(clientOrderId, books, r)
    ensures r.None? <==> forall b <- books :: !ExtendsByDigits(clientOrderId, b)
    ensures r.Some? ==> r.value in books && ExtendsByDigits(clientOrderId, r.value)
                        && forall b <- books | ExtendsByDigits(clientOrderId, b) :: |b| <= |r.value|
  {
    hide ExtendsByDigits;
    forall b { MatchesIs(clientOrderId, b); }
    var sorted := SortedByLength(books);
    for i := 0 to |sorted|
      invariant forall j | 0 <= j < i :: !Matches(clientOrderId, sorted[j])
    {
      var b := sorted[i];
      if b <= clientOrderId {
        var rest := clientOrderId[|b|..];
        if rest != "" && AllDigits(rest) {
          assert Matches(clientOrderId, b) && b in sorted;
          forall x | x in books && Matches(clientOrderId, x) ensures |x| <= |b| {
            assert x in sorted;
            var j :| 0 <= j < |sorted| && sorted[j] == x;
          }
          return Some(b);
        }
      }
    }
    forall b | b in books ensures !Matches(clientOrderId, b) {
      assert b in sorted;
      var j :| 0 <= j < |sorted| && sorted[j] == b;
    }
    return None;
  }

  /** Attribution undoes minting, for these books and every order number (numbers start at 1). */
  ghost predicate InvertsMinting(books: set<string>) {
    forall b, n: nat, r | b in books && n > 0 && IsAttribution(Mint(b, n), books, r) :: r == Some(b)
  }

  /** Longer reads as shorter's id followed by digits that can begin a minted number. */
  predicate Collides(shorter: string, longer: string) {
    && shorter <= longer && |shorter| < |longer| && AllDigits(longer[|shorter|..])
    && (|longer| - |shorter| < 10 || longer[|shorter|] != '0')
  }

  ghost predicate NoCollision(books: set<string>) {
    forall a, b | a in books && b in books :: !Collides(a, b)
  }

  /** A book that some attribution prefers to b for one of b's own ids must collide with it. */
  lemma OnlyCollisionsMislead(books: set<string>, b: string, n: nat, r: Option<string>)
    requires b in books && n > 0 && IsAttribution(Mint(b, n), books, r) && r != Some(b)
    ensures r.Some? && Collides(b, r.value)
  {
    var id, digits := Mint(b, n), Padded(n);
    assert id[|b|..] == digits;
    assert Matches(id, b);
    var other := r.value;
    assert other <= id && b <= id && |b| <= |other|;
    assert other == id[..|other|] && b == id[..|b|] == other[..|b|];
    var d := other[|b|..];
    assert d == digits[..|d|];
    PaddedShape(n);
  }

  /** A collision misattributes an order: the digits the longer id adds, continued to a full number. */
  lemma CollisionMisleads(books: set<string>, a: string, b: string, r: Option<string>) returns (n: nat)
    requires a in books && b in books && Collides(a, b)
    ensures n > 0 && Matches(Mint(a, n), b)
    ensures IsAttribution(Mint(a, n), books, r) ==> r.Some? && r != Some(a)
  {
    var d := b[|a|..];
    var tail := if |d| < 10 then seq(10 - |d|, _ => '1') else "1";
    var text := d + tail;
    n := Value(text);
    PaddedOfValue(text);
    NonzeroDigit(text, |d|);
    var id := Mint(a, n);
    assert b == a + d;
    assert id == b + tail;
    assert id[|b|..] == tail;
  }

  lemma {:induction false} NonzeroDigit(s: string, i: nat)
    requires AllDigits(s) && i < |s| && s[i] != '0'
    ensures Value(s) > 0
  {
    if i < |s| - 1 {
      NonzeroDigit(s[..|s| - 1], i);
    }
  }

  lemma {:induction false} AttributionExists(clientOrderId: string, books: set<string>)
    ensures exists r :: IsAttribution(clientOrderId, books, r)
    decreases |books|
  {
    if books == {} {
      assert IsAttribution(clientOrderId, books, None);
    } else {
      var b :| b in books;
      AttributionExists(clientOrderId, books - {b});
      var r :| IsAttribution(clientOrderId, books - {b}, r);
      assert books == (books - {b}) + {b};
      if Matches(clientOrderId, b) && (r.None? || |r.value| < |b|) {
        assert IsAttribution(clientOrderId, books, Some(b));
      } else {
        assert IsAttribution(clientOrderId, books, r);
      }
    }
  }

  /**
   * Exactly when attribution undoes minting: no book id is another followed by fewer than ten digits, or
   * by ten or more that do not begin with a zero.
   */
  lemma AttributionInvertsMinting(books: set<string>)
    ensures InvertsMinting(books) <==> NoCollision(books)
  {
    if NoCollision(books) {
      forall b, n: nat, r | b in books && n > 0 && IsAttribution(Mint(b, n), books, r) ensures r == Some(b) {
        if r != Some(b) { OnlyCollisionsMislead(books, b, n, r); }
      }
    } else {
      var a, b :| a in books && b in books && Collides(a, b);
      var n := CollisionMisleads(books, a, b, None);
      AttributionExists(Mint(a, n), books);
      var r :| IsAttribution(Mint(a, n), books, r);
      var _ := CollisionMisleads(books, a, b, r);
      assert |b| > |a| && (r.Some? ==> |b| <= |r.value|);
    }
  }

  // ---- submission ----

  function ToEvent(f: AccountFill, bookId: string): FillEvent {
    B.FillEvent(if f.clientOrderId != "" then f.clientOrderId else f.tradeId,
                bookId, f.instrumentId, f.side, f.qty, f.price, f.fee, f.tradeId)
  }

  /** Old enough for the WebSocket to have had its chance, and minted by one of our books. */
  ghost predicate IsAdoptable(f: AccountFill, nowNs: int, books: set<string>) {
    nowNs - f.tsNs >= MIN_FILL_AGE_NS && exists b <- books :: Matches(f.clientOrderId, b)
  }

  /** Event `e` is fill `f`, field by field, charged to the book its client order id names, ten seconds old at least. */
  ghost predicate IsEventOf(e: FillEvent, f: AccountFill, nowNs: int, books: set<string>) {
    && nowNs - f.tsNs >= 10_000_000_000
    && IsAttribution(f.clientOrderId, books, Some(e.bookId))
    && e.orderId == (if f.clientOrderId != "" then f.clientOrderId else f.tradeId)
    && e.instrumentId == f.instrumentId && e.side == f.side
    && e.qty == f.qty && e.fillPrice == f.price && e.fee == f.fee && e.tradeId == f.tradeId
  }

  /** What a submission pass has done once it has worked from the oldest fill down to index k. */
  datatype Adoption = Adoption(events: seq<FillEvent>, from: seq<nat>, seen: set<string>)

  ghost function Adopt(fills: seq<AccountFill>, k: nat, nowNs: int, books: set<string>, seen: set<string>): Adoption
    requires k <= |fills|
    decreases |fills| - k
  {
    if k == |fills| then Adoption([], [], seen) else
      var a, f := Adopt(fills, k + 1, nowNs, books, seen), fills[k];
      if IsAdoptable(f, nowNs, books) && f.tradeId !in a.seen then
        Adoption(a.events + [ToEvent(f, BookOf(f.clientOrderId, books))], a.from + [k], a.seen + {f.tradeId})
      else a
  }

  ghost function BookOf(clientOrderId: string, books: set<string>): (b: string)
    requires exists b <- books :: Matches(clientOrderId, b)
    ensures IsAttribution(clientOrderId, books, Some(b))
  {
    AttributionExists(clientOrderId, books);
    var r :| IsAttribution(clientOrderId, books, r);
    r.value
  }

  lemma AttributionUnique(clientOrderId: string, books: set<string>, q: Option<string>, r: Option<string>)
    requires IsAttribution(clientOrderId, books, q) && IsAttribution(clientOrderId, books, r)
    ensures q == r
  {
    if q.Some? && r.Some? {
      assert q.value == clientOrderId[..|q.value|] && r.value == clientOrderId[..|r.value|];
    }
  }

  /** An attribution is to the one book the id names, and there is one exactly when a book id matches. */
  lemma AttributedTo(clientOrderId: string, books: set<string>, r: Option<string>)
    requires IsAttribution(clientOrderId, books, r)
    ensures r.Some? <==> exists b <- books :: Matches(clientOrderId, b)
    ensures r.Some? ==> r.value == BookOf(clientOrderId, books)
  {
    if r.Some? {
      AttributionUnique(clientOrderId, books, r, Some(BookOf(clientOrderId, books)));
    }
  }

  /**
   * The bus receives, oldest first, exactly one event for each adoptable fill not seen before, charged to
   * the book that minted its order; ids already seen are left out and every adoptable fill ends up seen.
   */
  lemma {:induction false} AdoptsEachMissedFillOnce(fills: seq<AccountFill>, k: nat, nowNs: int, books: set<string>, seen: set<string>)
    requires k <= |fills|
    ensures var a := Adopt(fills, k, nowNs, books, seen);
            && |a.events| == |a.from|
            && (forall i | 0 <= i < |a.from| ::
                  && k <= a.from[i] < |fills|
                  && IsEventOf(a.events[i], fills[a.from[i]], nowNs, books)
                  && a.events[i].tradeId !in seen && a.events[i].tradeId in a.seen)
            && (forall i, j | 0 <= i < j < |a.from| ::
                  a.from[i] > a.from[j] && a.events[i].tradeId != a.events[j].tradeId)
            && seen <= a.seen
            && (forall n | k <= n < |fills| && nowNs - fills[n].tsNs >= 10_000_000_000
                           && (exists b <- books :: Matches(fills[n].clientOrderId, b)) :: fills[n].tradeId in a.seen)
    decreases |fills| - k
  {
    hide IsAttribution, Matches;
    if k < |fills| {
      AdoptsEachMissedFillOnce(fills, k + 1, nowNs, books, seen);
    }
  }

  lemma NothingAdopted(fills: seq<AccountFill>, nowNs: int, books: set<string>, seen: set<string>)
    ensures Adopt(fills, |fills|, nowNs, books, seen) == Adoption([], [], seen)
  {
  }

  lemma AdoptNext(fills: seq<AccountFill>, k: nat, nowNs: int, books: set<string>, seen: set<string>)
    requires k < |fills|
    ensures var a, f := Adopt(fills, k + 1, nowNs, books, seen), fills[k];
            Adopt(fills, k, nowNs, books, seen)
            == if nowNs - f.tsNs >= MIN_FILL_AGE_NS && (exists b <- books :: Matches(f.clientOrderId, b))
                  && f.tradeId !in a.seen
               then Adoption(a.events + [ToEvent(f, BookOf(f.clientOrderId, books))], a.from + [k], a.seen + {f.tradeId})
               else a
  {
  }

  ghost predicate AllIn(events: seq<FillEvent>, delivered: seq<B.Event>) {
    forall i | 0 <= i < |events| :: events[i] in delivered
  }

  lemma NoneMissing(delivered: seq<B.Event>)
    ensures AllIn([], delivered)
  {
  }

  lemma StillIn(events: seq<FillEvent>, earlier: seq<B.Event>, later: seq<B.Event>, more: seq<FillEvent>)
    requires AllIn(events, earlier) && earlier + more <= later
    ensures AllIn(events + more, later)
  {
    forall i | 0 <= i < |events| ensures events[i] in later {
      var k :| 0 <= k < |earlier| && earlier[k] == events[i];
      assert later[k] == events[i];
    }
    forall i | 0 <= i < |more| ensures more[i] in later {
      assert later[|earlier| + i] == more[i];
    }
  }

  /** Works from the oldest fill on; called between drains, so with room on the bus every adopted fill is delivered. */
  method SubmitAll(fills: seq<AccountFill>, nowNs: int, books: set<string>, ingestor: FillIngestor)
    returns (adopted: nat)
    requires forall i | 0 <= i < |fills| :: fills[i].tradeId != ""
    requires ingestor.bus.Valid() && !ingestor.bus.draining
    modifies ingestor, ingestor.bus
    ensures ingestor.bus.Valid() && !ingestor.bus.draining
    ensures var a := Adopt(fills, 0, nowNs, books, old(ingestor.seen));
            && adopted == |a.events|
            && ingestor.published == old(ingestor.published) + a.events
            && ingestor.seen == a.seen
            && (ingestor.bus.maxQueueSize > 0 ==> AllIn(a.events, ingestor.bus.taken))
  {
    hide IsAttribution, Matches, AllIn, B.Deliveries, Adopt, IsAdoptable, BookOf;
    NothingAdopted(fills, nowNs, books, ingestor.seen);
    NoneMissing(ingestor.bus.admitted);
    adopted := 0;
    var n := |fills|;
    ghost var seen, published := ingestor.seen, ingestor.published;
    while n > 0
      invariant 0 <= n <= |fills|
      invariant var a := Adopt(fills, n, nowNs, books, seen);
                && adopted == |a.events| && ingestor.published == published + a.events && ingestor.seen == a.seen
                && (ingestor.bus.maxQueueSize > 0 ==> AllIn(a.events, ingestor.bus.admitted))
      invariant ingestor.bus.Valid() && !ingestor.bus.draining
    {
      n := n - 1;
      var f := fills[n];
      AdoptNext(fills, n, nowNs, books, seen);
      if nowNs - f.tsNs >= MIN_FILL_AGE_NS {
        var book := Attribute(f.clientOrderId, books);
        AttributedTo(f.clientOrderId, books, book);
        if book.Some? {
          ghost var before, earlier := Adopt(fills, n + 1, nowNs, books, seen).events, ingestor.bus.admitted;
          var admitted := ingestor.Submit(ToEvent(f, book.value));
          if ingestor.bus.maxQueueSize > 0 {
            StillIn(before, earlier, ingestor.bus.admitted, if admitted then [ToEvent(f, book.value)] else []);
          }
          if admitted {
            adopted := adopted + 1;
          } else {
            assert ingestor.seen + {f.tradeId} == ingestor.seen;
          }
        }
      }
    }
    assert ingestor.bus.admitted == ingestor.bus.taken;
  }
}
