/** The breadth-first crawl of `BrainsService.bfs_crawl`: a queue, a visited set, a depth
    limit and a fetch budget over a web whose pages may be refused, fail or be blank. */
module Crawl {
  import opened Wrappers
  import opened Text

  datatype Page = Page(success: bool, markdown: string, links: seq<string>)

  /** What the crawler can ask of the outside world, together with the seed of this crawl. */
  datatype Web = Web(
    valid: string -> bool,                                  // URL validation does not raise
    crawl: string -> Page,
    raises: string -> bool,                                 // crawling raises instead, and ends the whole crawl
    normalize: (string, string, string) -> Option<string>,  // href, page URL, seed host
    seed: string,
    seedHost: string)

  datatype Settings = Settings(maxDepth: nat, maxPages: nat)

  /** One queue entry. */
  datatype Visit = Visit(url: string, depth: nat)

  predicate Usable(page: Page) {
    page.success && HasText(page.markdown)
  }

  // ---- The graph the crawl walks ----

  /** The page is fetched, succeeds and has text, so its links are followed. */
  predicate Expandable(web: Web, u: string) {
    web.valid(u) && Usable(web.crawl(u))
  }

  predicate Edge(web: Web, u: string, v: string) {
    exists i :: 0 <= i < |web.crawl(u).links| && web.normalize(web.crawl(u).links[i], u, web.seedHost) == Some(v)
  }

  /** `v` ends a walk of exactly `d` hops from the seed through expandable pages. */
  ghost predicate Hops(web: Web, v: string, d: nat)
    decreases d
  {
    if d == 0 then v == web.seed
    else exists u :: Hops(web, u, d - 1) && Expandable(web, u) && Edge(web, u, v)
  }

  ghost predicate ShortestHops(web: Web, v: string, d: nat) {
    Hops(web, v, d) && forall e: nat :: e < d ==> !Hops(web, v, e)
  }

  // ---- The crawl as a function ----

  function Urls(log: seq<Visit>): set<string> {
    set i | 0 <= i < |log| :: log[i].url
  }

  /** `log` lists every URL ever queued; entries before `head` have left the queue. */
  datatype State = State(log: seq<Visit>, head: nat, fetched: nat, pages: seq<(string, string)>)

  function Start(web: Web): State {
    State([Visit(web.seed, 0)], 0, 0, [])
  }

  function Enqueue(web: Web, u: string, depth: nat, hrefs: seq<string>, log: seq<Visit>): (r: seq<Visit>)
    ensures log <= r
  {
    if hrefs == [] then log
    else
      var target := web.normalize(hrefs[0], u, web.seedHost);
      if target.Some? && target.value !in Urls(log)
      then Enqueue(web, u, depth, hrefs[1..], log + [Visit(target.value, depth + 1)])
      else Enqueue(web, u, depth, hrefs[1..], log)
  }

  function Step(web: Web, limits: Settings, st: State): (r: State)
    requires st.head < |st.log|
  {
    var v := st.log[st.head];
    if !web.valid(v.url) then st.(head := st.head + 1)
    else
      var page := web.crawl(v.url);
      if !Usable(page) then st.(head := st.head + 1, fetched := st.fetched + 1)
      else State(
        if v.depth >= limits.maxDepth then st.log else Enqueue(web, v.url, v.depth, page.links, st.log),
        st.head + 1,
        st.fetched + 1,
        st.pages + [(v.url, page.markdown)])
  }

  function Run(web: Web, limits: Settings, st: State): State
    requires st.head <= |st.log|
    decreases limits.maxPages - st.fetched, |st.log| - st.head
  {
    if st.head < |st.log| && st.fetched < limits.maxPages then Run(web, limits, Step(web, limits, st)) else st
  }

  /** The URLs fetched while the queue entries `done` were handled, in order. */
  function Fetches(web: Web, done: seq<Visit>): seq<string> {
    if done == [] then []
    else
      var v := done[|done| - 1];
      Fetches(web, done[..|done| - 1]) + if web.valid(v.url) then [v.url] else []
  }

  /** The pages those fetches yielded, in order. */
  function Harvest(web: Web, done: seq<Visit>): seq<(string, string)> {
    if done == [] then []
    else
      var v := done[|done| - 1];
      Harvest(web, done[..|done| - 1])
      + if Expandable(web, v.url) then [(v.url, web.crawl(v.url).markdown)] else []
  }

  // ---- The crawl as the source runs it ----

  /** The queue and visited set that `enqueue_links` updates in place. */
  class Frontier {
    var visited: set<string>
    var queue: seq<Visit>

    constructor (seed: string)
      ensures visited == {seed} && queue == [Visit(seed, 0)]
    {
      visited, queue := {seed}, [Visit(seed, 0)];
    }

    method EnqueueLinks(page: Page, web: Web, pageUrl: string, depth: nat, limits: Settings, ghost done: seq<Visit>)
      requires visited == Urls(done + queue)
      modifies this
      ensures done + queue == if depth >= limits.maxDepth then done + old(queue)
                              else Enqueue(web, pageUrl, depth, page.links, done + old(queue))
      ensures visited == Urls(done + queue)
    {
      if depth >= limits.maxDepth {
        return;
      }
      for i := 0 to |page.links|
        invariant visited == Urls(done + queue)
        invariant Enqueue(web, pageUrl, depth, page.links, done + old(queue))
               == Enqueue(web, pageUrl, depth, page.links[i..], done + queue)
      {
        var nextUrl := web.normalize(page.links[i], pageUrl, web.seedHost);
        assert page.links[i..][1..] == page.links[i + 1..];
        if nextUrl.Some? && nextUrl.value !in visited {
          ghost var before := done + queue;
          visited := visited + {nextUrl.value};
          queue := queue + [Visit(nextUrl.value, depth + 1)];
          assert done + queue == before + [Visit(nextUrl.value, depth + 1)];
          UrlsAppend(before, Visit(nextUrl.value, depth + 1));
        }
      }
    }

    /** One trip of the crawl loop: take the next URL off the queue, fetch it and follow its links. */
    method VisitNext(web: Web, limits: Settings, fetched: nat, pages: seq<(string, string)>, ghost done: seq<Visit>,
                     ghost st: State)
      returns (pages': seq<(string, string)>, fetched': nat, ghost st': State, ghost called: seq<string>)
      requires queue != [] && visited == Urls(done + queue) && st == State(done + queue, |done|, fetched, pages)
      modifies this
      ensures st' == Step(web, limits, st) && st' == State(done + [old(queue)[0]] + queue, |done| + 1, fetched', pages')
      ensures visited == Urls(st'.log)
      ensures called == if web.valid(old(queue)[0].url) then [old(queue)[0].url] else []
      ensures fetched' == fetched + |called| && (called == [] ==> |queue| < |old(queue)|)
    {
      var v := queue[0];
      pages', fetched', called := pages, fetched, [];
      queue := queue[1..];
      ghost var handled := done + [v];
      assert handled + queue == st.log && st.log[st.head] == v;
      st' := Step(web, limits, st);
      if !web.valid(v.url) {
        return;
      }
      var page := web.crawl(v.url);
      called := [v.url];
      fetched' := fetched + 1;
      if !Usable(page) {
        return;
      }
      pages' := pages + [(v.url, page.markdown)];
      EnqueueLinks(page, web, v.url, v.depth, limits, handled);
    }
  }

  lemma UrlsAppend(log: seq<Visit>, v: Visit)
    ensures Urls(log + [v]) == Urls(log) + {v.url}
  {
    var all := log + [v];
    assert forall i :: 0 <= i < |log| ==> all[i] == log[i];
    assert all[|log|] == v;
    forall u | u in Urls(log) + {v.url} ensures u in Urls(all) {
      if u in Urls(log) {
        var i :| 0 <= i < |log| && log[i].url == u;
        assert all[i].url == u;
      }
    }
  }

  predicate NoneRaises(web: Web, urls: seq<string>) {
    forall u :: u in urls ==> !web.raises(u)
  }

  /** Running on only adds fetches. */
  lemma {:induction false} RunExtendsFetches(web: Web, limits: Settings, st: State)
    requires st.head <= |st.log|
    ensures var r := Run(web, limits, st);
      r.head <= |r.log| && Fetches(web, st.log[..st.head]) <= Fetches(web, r.log[..r.head])
    decreases limits.maxPages - st.fetched, |st.log| - st.head
  {
    if st.head < |st.log| && st.fetched < limits.maxPages {
      var next := Step(web, limits, st);
      RunExtendsFetches(web, limits, next);
      StepExtendsFetches(web, limits, st);
    }
  }

  lemma StepExtendsFetches(web: Web, limits: Settings, st: State)
    requires st.head < |st.log|
    ensures var next := Step(web, limits, st);
      var v := st.log[st.head];
      next.head <= |next.log|
      && Fetches(web, next.log[..next.head])
         == Fetches(web, st.log[..st.head]) + if web.valid(v.url) then [v.url] else []
  {
    var next := Step(web, limits, st);
    assert next.log[..next.head] == st.log[..st.head] + [st.log[st.head]];
    assert next.log[..next.head][..st.head] == st.log[..st.head];
  }

  /** The calls up to the first that raises. */
  predicate UpToRaise(web: Web, all: seq<string>, calls: seq<string>) {
    calls <= all && calls != [] && web.raises(calls[|calls| - 1]) && NoneRaises(web, calls[..|calls| - 1])
  }

  /** A crawl raises at the first URL it fetches that does. */
  ghost predicate EndsWell(web: Web, final: State, pages: Option<seq<(string, string)>>, calls: seq<string>) {
    && final.head <= |final.log|
    && var all := Fetches(web, final.log[..final.head]);
       if NoneRaises(web, all) then pages == Some(final.pages) && calls == all
       else pages == None && UpToRaise(web, all, calls)
  }

  /** `bfs_crawl`; `None` stands for the exception. The ghost results name the crawler calls made and the
      queue history of the crawl in which none raises. */
  method BfsCrawl(web: Web, limits: Settings)
    returns (pages: Option<seq<(string, string)>>, ghost calls: seq<string>, ghost final: State)
    ensures final == Run(web, limits, Start(web))
    ensures EndsWell(web, Run(web, limits, Start(web)), pages, calls)
  {
    var found: seq<(string, string)> := [];
    var fetched := 0;
    var frontier := new Frontier(web.seed);
    ghost var done: seq<Visit> := [];
    calls := [];
    final := Start(web);
    ghost var target := Run(web, limits, final);
    assert done + frontier.queue == final.log == [] + [Visit(web.seed, 0)];
    UrlsAppend([], Visit(web.seed, 0));
    while frontier.queue != [] && fetched < limits.maxPages
      invariant fresh(frontier)
      invariant frontier.visited == Urls(done + frontier.queue)
      invariant calls == Fetches(web, done) && NoneRaises(web, calls)
      invariant final == State(done + frontier.queue, |done|, fetched, found) && Run(web, limits, final) == target
      decreases limits.maxPages - fetched, |frontier.queue|
    {
      var v := frontier.queue[0];
      if web.valid(v.url) && web.raises(v.url) {
        assert final.log[..final.head] == done && final.log[final.head] == v;
        calls := RaisesAt(web, limits, final, calls);
        final := target;
        return None, calls, final;
      }
      ghost var called;
      found, fetched, final, called := frontier.VisitNext(web, limits, fetched, found, done, final);
      assert (done + [v])[..|done|] == done;
      done := done + [v];
      calls := calls + called;
    }
    assert final.log[..final.head] == done;
    pages := Some(found);
  }

  lemma RaisesAt(web: Web, limits: Settings, st: State, before: seq<string>) returns (calls: seq<string>)
    requires st.head < |st.log| && st.fetched < limits.maxPages
    requires before == Fetches(web, st.log[..st.head]) && NoneRaises(web, before)
    requires web.valid(st.log[st.head].url) && web.raises(st.log[st.head].url)
    ensures EndsWell(web, Run(web, limits, st), None, calls)
  {
    calls := before + [st.log[st.head].url];
    StepExtendsFetches(web, limits, st);
    RunExtendsFetches(web, limits, Step(web, limits, st));
    var r := Run(web, limits, st);
    assert calls <= Fetches(web, r.log[..r.head]);
    assert Fetches(web, r.log[..r.head])[|before|] == st.log[st.head].url;
    assert calls[..|calls| - 1] == before;
  }

  // ---- What the crawl keeps ----

  predicate SeenWithin(log: seq<Visit>, v: string, d: int) {
    exists i :: 0 <= i < |log| && log[i].url == v && log[i].depth <= d
  }

  predicate Distinct(log: seq<Visit>) {
    forall i, j :: 0 <= i < j < |log| ==> log[i].url != log[j].url
  }

  /** Depths never decrease along the queue history. */
  predicate Sorted(log: seq<Visit>) {
    forall i, j :: 0 <= i <= j < |log| ==> log[i].depth <= log[j].depth
  }

  /** The entries still queued lie at the front entry's depth or one hop deeper. */
  predicate TwoLevels(st: State) {
    forall i, j :: st.head <= i < |st.log| && 0 <= j < |st.log| ==> st.log[j].depth <= st.log[i].depth + 1
  }

  /** Entry `i` was queued by an expanded page one hop nearer the seed. */
  predicate Discovered(web: Web, st: State, i: nat)
    requires i < |st.log|
  {
    exists j :: 0 <= j < st.head && j < |st.log| && st.log[j].depth + 1 == st.log[i].depth
             && Expandable(web, st.log[j].url) && Edge(web, st.log[j].url, st.log[i].url)
  }

  /** Every link of the expanded entry `j` has been queued, at most one hop deeper. */
  ghost predicate Followed(web: Web, st: State, j: nat)
    requires j < |st.log|
  {
    forall v :: Edge(web, st.log[j].url, v) ==> SeenWithin(st.log, v, st.log[j].depth + 1)
  }

  ghost predicate Valid(web: Web, limits: Settings, st: State) {
    && 0 < |st.log| && st.head <= |st.log| && st.log[0] == Visit(web.seed, 0)
    && Distinct(st.log) && Sorted(st.log) && TwoLevels(st)
    && (forall i :: 0 <= i < |st.log| ==> st.log[i].depth <= limits.maxDepth)
    && (forall i :: 0 < i < |st.log| ==> Discovered(web, st, i))
    && (forall j :: 0 <= j < st.head && Expandable(web, st.log[j].url) && st.log[j].depth < limits.maxDepth
          ==> Followed(web, st, j))
  }

  ghost predicate Accounted(web: Web, limits: Settings, st: State) {
    && st.head <= |st.log|
    && st.fetched == |Fetches(web, st.log[..st.head])| <= limits.maxPages
    && st.pages == Harvest(web, st.log[..st.head])
  }

  lemma {:induction false} EnqueueKeeps(web: Web, u: string, depth: nat, hrefs: seq<string>, log: seq<Visit>)
    requires Distinct(log)
    requires forall i :: 0 <= i < |log| ==> log[i].depth <= depth + 1
    ensures var r := Enqueue(web, u, depth, hrefs, log);
      && Distinct(r)
      && (forall i :: |log| <= i < |r| ==> r[i].depth == depth + 1)
      && (forall i :: |log| <= i < |r| ==>
            exists k :: 0 <= k < |hrefs| && web.normalize(hrefs[k], u, web.seedHost) == Some(r[i].url))
      && (forall k :: 0 <= k < |hrefs| && web.normalize(hrefs[k], u, web.seedHost).Some?
            ==> SeenWithin(r, web.normalize(hrefs[k], u, web.seedHost).value, depth + 1))
    decreases |hrefs|
  {
    if hrefs != [] {
      var target := web.normalize(hrefs[0], u, web.seedHost);
      var r, next := Enqueue(web, u, depth, hrefs, log), Enqueue(web, u, depth, [hrefs[0]], log);
      EnqueueFirst(web, u, depth, hrefs, log);
      EnqueueKeeps(web, u, depth, hrefs[1..], next);
      forall i | |log| <= i < |r|
        ensures r[i].depth == depth + 1
        ensures exists k :: 0 <= k < |hrefs| && web.normalize(hrefs[k], u, web.seedHost) == Some(r[i].url)
      {
        if i < |next| {
          assert r[i] == next[i];
          assert web.normalize(hrefs[0], u, web.seedHost) == Some(r[i].url);
        } else {
          var k :| 0 <= k < |hrefs[1..]| && web.normalize(hrefs[1..][k], u, web.seedHost) == Some(r[i].url);
          assert hrefs[k + 1] == hrefs[1..][k];
        }
      }
      forall k | 0 <= k < |hrefs| && web.normalize(hrefs[k], u, web.seedHost).Some?
        ensures SeenWithin(r, web.normalize(hrefs[k], u, web.seedHost).value, depth + 1)
      {
        if k > 0 {
          assert hrefs[k] == hrefs[1..][k - 1];
        } else {
        }
      }
    }
  }

  /** The first link on its own. */
  lemma EnqueueFirst(web: Web, u: string, depth: nat, hrefs: seq<string>, log: seq<Visit>)
    requires hrefs != [] && Distinct(log) && forall i :: 0 <= i < |log| ==> log[i].depth <= depth + 1
    ensures var target, next := web.normalize(hrefs[0], u, web.seedHost), Enqueue(web, u, depth, [hrefs[0]], log);
      && Enqueue(web, u, depth, hrefs, log) == Enqueue(web, u, depth, hrefs[1..], next)
      && Distinct(next) && (forall i :: 0 <= i < |next| ==> next[i].depth <= depth + 1)
      && (next == log || (target.Some? && next == log + [Visit(target.value, depth + 1)]))
      && (target.Some? ==> SeenWithin(next, target.value, depth + 1))
  {
    var target, next := web.normalize(hrefs[0], u, web.seedHost), Enqueue(web, u, depth, [hrefs[0]], log);
    assert [hrefs[0]][1..] == [];
    if target.Some? && target.value !in Urls(log) {
      var added := log + [Visit(target.value, depth + 1)];
      assert Enqueue(web, u, depth, [], added) == added && [hrefs[0]][0] == hrefs[0];
      assert next == added;
      forall i | 0 <= i < |log| ensures log[i].url != target.value {
        assert log[i].url in Urls(log);
      }
      assert next[|log|] == Visit(target.value, depth + 1);
    } else if target.Some? {
      var i :| 0 <= i < |log| && log[i].url == target.value;
      assert next[i] == log[i];
    }
  }

  /** One trip round the loop keeps every structural fact about the queue history. */
  lemma StepKeepsValid(web: Web, limits: Settings, st: State)
    requires Valid(web, limits, st) && st.head < |st.log|
    ensures Valid(web, limits, Step(web, limits, st))
  {
    var next := Step(web, limits, st);
    StepKeepsOrder(web, limits, st);
    forall i | 0 < i < |next.log| ensures Discovered(web, next, i) {
      StepDiscovers(web, limits, st, i);
    }
    forall j | 0 <= j < next.head && Expandable(web, next.log[j].url) && next.log[j].depth < limits.maxDepth
      ensures Followed(web, next, j)
    {
      StepFollows(web, limits, st, j);
    }
  }

  lemma StepKeepsOrder(web: Web, limits: Settings, st: State)
    requires Valid(web, limits, st) && st.head < |st.log|
    ensures var next := Step(web, limits, st);
      && st.log <= next.log && Distinct(next.log) && Sorted(next.log) && TwoLevels(next)
      && forall i :: 0 <= i < |next.log| ==> next.log[i].depth <= limits.maxDepth
  {
    var v := st.log[st.head];
    var next := Step(web, limits, st);
    if next.log != st.log {
      EnqueueKeeps(web, v.url, v.depth, web.crawl(v.url).links, st.log);
    }
  }

  lemma StepDiscovers(web: Web, limits: Settings, st: State, i: nat)
    requires Valid(web, limits, st) && st.head < |st.log|
    requires 0 < i < |Step(web, limits, st).log|
    ensures Discovered(web, Step(web, limits, st), i)
  {
    var v := st.log[st.head];
    var next := Step(web, limits, st);
    assert st.log <= next.log;
    if i < |st.log| {
      assert Discovered(web, st, i);
      var j :| 0 <= j < st.head && j < |st.log| && st.log[j].depth + 1 == st.log[i].depth
            && Expandable(web, st.log[j].url) && Edge(web, st.log[j].url, st.log[i].url);
      assert next.log[j] == st.log[j] && next.log[i] == st.log[i];
    } else {
      EnqueueKeeps(web, v.url, v.depth, web.crawl(v.url).links, st.log);
      assert next.log[st.head] == v;
      assert Expandable(web, v.url) && Edge(web, v.url, next.log[i].url);
    }
  }

  lemma StepFollows(web: Web, limits: Settings, st: State, j: nat)
    requires Valid(web, limits, st) && st.head < |st.log| && j <= st.head
    requires Expandable(web, st.log[j].url) && st.log[j].depth < limits.maxDepth
    ensures Followed(web, Step(web, limits, st), j)
  {
    var next := Step(web, limits, st);
    assert next.log[j] == st.log[j];
    forall v | Edge(web, st.log[j].url, v) ensures SeenWithin(next.log, v, st.log[j].depth + 1) {
      if j < st.head {
        assert Followed(web, st, j);
        assert SeenWithin(st.log, v, st.log[j].depth + 1);
        var i :| 0 <= i < |st.log| && st.log[i].url == v && st.log[i].depth <= st.log[j].depth + 1;
        assert next.log[i] == st.log[i];
      } else {
        EnqueueKeeps(web, st.log[j].url, st.log[j].depth, web.crawl(st.log[j].url).links, st.log);
      }
    }
  }

  lemma StepKeepsAccount(web: Web, limits: Settings, st: State)
    requires Accounted(web, limits, st) && st.head < |st.log| && st.fetched < limits.maxPages
    ensures Accounted(web, limits, Step(web, limits, st))
  {
    var next := Step(web, limits, st);
    assert next.log[..next.head][..st.head] == st.log[..st.head];
    assert next.log[..next.head][st.head] == st.log[st.head];
  }

  lemma {:induction false} RunKeeps(web: Web, limits: Settings, st: State)
    requires Valid(web, limits, st) && Accounted(web, limits, st)
    ensures var r := Run(web, limits, st);
      && Valid(web, limits, r) && Accounted(web, limits, r)
      && (r.head == |r.log| || r.fetched == limits.maxPages)
    decreases limits.maxPages - st.fetched, |st.log| - st.head
  {
    if st.head < |st.log| && st.fetched < limits.maxPages {
      StepKeepsValid(web, limits, st);
      StepKeepsAccount(web, limits, st);
      RunKeeps(web, limits, Step(web, limits, st));
    }
  }

  // ---- Depths are shortest hop counts ----

  lemma {:induction false} LoggedIsReachable(web: Web, limits: Settings, st: State, i: nat)
    requires Valid(web, limits, st) && i < |st.log|
    ensures Hops(web, st.log[i].url, st.log[i].depth)
    decreases st.log[i].depth
  {
    if st.log[i].depth > 0 {
      assert Discovered(web, st, i);
      var j :| 0 <= j < st.head && j < |st.log| && st.log[j].depth + 1 == st.log[i].depth
            && Expandable(web, st.log[j].url) && Edge(web, st.log[j].url, st.log[i].url);
      LoggedIsReachable(web, limits, st, j);
    } else {
      OnlySeedAtDepthZero(web, limits, st, i);
    }
  }

  lemma OnlySeedAtDepthZero(web: Web, limits: Settings, st: State, i: nat)
    requires Valid(web, limits, st) && i < |st.log|
    ensures i > 0 ==> st.log[i].depth > 0
  {
    assert i > 0 ==> Discovered(web, st, i);
  }

  /** A walk of `e` hops ends in the queue history once everything nearer has left the queue. */
  lemma {:induction false} ReachableIsLogged(web: Web, limits: Settings, st: State, v: string, e: nat)
    requires Valid(web, limits, st) && Hops(web, v, e) && e <= limits.maxDepth
    requires forall i :: st.head <= i < |st.log| ==> e <= st.log[i].depth
    ensures SeenWithin(st.log, v, e)
    decreases e
  {
    if e > 0 {
      var u :| Hops(web, u, e - 1) && Expandable(web, u) && Edge(web, u, v);
      ReachableIsLogged(web, limits, st, u, e - 1);
      var j :| 0 <= j < |st.log| && st.log[j].url == u && st.log[j].depth <= e - 1;
      assert Followed(web, st, j);
      var i :| 0 <= i < |st.log| && st.log[i].url == v && st.log[i].depth <= st.log[j].depth + 1;
    } else {
      assert st.log[0].url == v;
    }
  }

  lemma LoggedAtShortestDepth(web: Web, limits: Settings, st: State, i: nat)
    requires Valid(web, limits, st) && i < |st.log|
    ensures ShortestHops(web, st.log[i].url, st.log[i].depth)
  {
    LoggedIsReachable(web, limits, st, i);
    forall e: nat | e < st.log[i].depth ensures !Hops(web, st.log[i].url, e) {
      if Hops(web, st.log[i].url, e) {
        ReachableIsLogged(web, limits, st, st.log[i].url, e);
      }
    }
  }

  lemma {:induction false} FetchesOf(web: Web, done: seq<Visit>, u: string)
    ensures u in Fetches(web, done) <==> u in Urls(done) && web.valid(u)
  {
    if done != [] {
      var rest, v := done[..|done| - 1], done[|done| - 1];
      FetchesOf(web, rest, u);
      UrlsAppend(rest, v);
      assert rest + [v] == done;
    }
  }

  lemma {:induction false} FetchesDistinct(web: Web, done: seq<Visit>)
    requires Distinct(done)
    ensures forall i, j :: 0 <= i < j < |Fetches(web, done)| ==> Fetches(web, done)[i] != Fetches(web, done)[j]
  {
    if done != [] {
      var rest, v := done[..|done| - 1], done[|done| - 1];
      FetchesDistinct(web, rest);
      forall i | 0 <= i < |Fetches(web, rest)| ensures Fetches(web, rest)[i] != v.url {
        FetchesOf(web, rest, Fetches(web, rest)[i]);
        assert v.url !in Urls(rest);
      }
    }
  }

  // ---- The main results ----

  /** Whatever the budget, a crawl fetches no URL twice, stays within its budget, queues every
      URL at its shortest hop count and returns exactly the usable pages it fetched. */
  lemma CrawlFindsShortestHops(web: Web, limits: Settings)
    ensures var r := Run(web, limits, Start(web));
      && r.head <= |r.log|
      && (forall i :: 0 <= i < |r.log| ==>
            ShortestHops(web, r.log[i].url, r.log[i].depth) && r.log[i].depth <= limits.maxDepth)
      && Sorted(r.log) && TwoLevels(r) && Distinct(r.log)
      && (var calls := Fetches(web, r.log[..r.head]);
          |calls| <= limits.maxPages && forall i, j :: 0 <= i < j < |calls| ==> calls[i] != calls[j])
      && r.pages == Harvest(web, r.log[..r.head])
  {
    RunKeeps(web, limits, Start(web));
    var r := Run(web, limits, Start(web));
    forall i | 0 <= i < |r.log| ensures ShortestHops(web, r.log[i].url, r.log[i].depth) {
      LoggedAtShortestDepth(web, limits, r, i);
    }
    FetchesDistinct(web, r.log[..r.head]);
  }

  /** The page was fetched successfully and has a character that is no white space. */
  predicate IsGood(web: Web, u: string) {
    && web.valid(u) && web.crawl(u).success
    && exists i :: 0 <= i < |web.crawl(u).markdown| && !IsSpace(web.crawl(u).markdown[i])
  }

  lemma {:induction false} HarvestHas(web: Web, done: seq<Visit>, page: (string, string))
    ensures page in Harvest(web, done) <==>
      page.0 in Fetches(web, done) && IsGood(web, page.0) && page.1 == web.crawl(page.0).markdown
  {
    if done != [] {
      HarvestHas(web, done[..|done| - 1], page);
    }
  }

  /** A crawl returns the text of exactly the pages it fetched that succeeded and have text, and follows the
      links of such pages only: everything queued but the seed is linked from one of them, a hop nearer. */
  lemma OnlyGoodPagesCount(web: Web, limits: Settings, page: (string, string), i: nat)
    ensures var r := Run(web, limits, Start(web));
      && r.head <= |r.log|
      && (page in r.pages <==>
            page.0 in Fetches(web, r.log[..r.head]) && IsGood(web, page.0) && page.1 == web.crawl(page.0).markdown)
      && (0 < i < |r.log| ==>
            exists j :: 0 <= j < r.head && r.log[j].depth + 1 == r.log[i].depth
                        && IsGood(web, r.log[j].url) && Edge(web, r.log[j].url, r.log[i].url))
  {
    RunKeeps(web, limits, Start(web));
    var r := Run(web, limits, Start(web));
    HarvestHas(web, r.log[..r.head], page);
    if 0 < i < |r.log| {
      assert Discovered(web, r, i);
      var j :| 0 <= j < r.head && j < |r.log| && r.log[j].depth + 1 == r.log[i].depth
            && Expandable(web, r.log[j].url) && Edge(web, r.log[j].url, r.log[i].url);
      assert IsGood(web, r.log[j].url);
    }
  }

  ghost predicate Near(web: Web, u: string, depth: nat) {
    exists d: nat :: d <= depth && Hops(web, u, d)
  }

  lemma FetchedIffNear(web: Web, limits: Settings, st: State, u: string)
    requires Valid(web, limits, st) && st.head == |st.log|
    ensures u in Fetches(web, st.log) <==> web.valid(u) && Near(web, u, limits.maxDepth)
  {
    FetchesOf(web, st.log, u);
    if u in Urls(st.log) {
      var i :| 0 <= i < |st.log| && st.log[i].url == u;
      LoggedIsReachable(web, limits, st, i);
    }
    if Near(web, u, limits.maxDepth) {
      var d: nat :| d <= limits.maxDepth && Hops(web, u, d);
      ReachableIsLogged(web, limits, st, u, d);
    }
  }

  /** When the budget does not stop it, a crawl fetches exactly the valid URLs within
      `maxDepth` hops of the seed; it stops early only after `maxPages` fetches. */
  lemma CrawlIsComplete(web: Web, limits: Settings)
    ensures var r := Run(web, limits, Start(web));
      && r.head <= |r.log|
      && (r.head < |r.log| ==> |Fetches(web, r.log[..r.head])| == limits.maxPages)
      && (r.head == |r.log| ==>
            forall u :: u in Fetches(web, r.log[..r.head]) <==> web.valid(u) && Near(web, u, limits.maxDepth))
  {
    RunKeeps(web, limits, Start(web));
    var r := Run(web, limits, Start(web));
    if r.head == |r.log| {
      assert r.log[..r.head] == r.log;
      forall u ensures u in Fetches(web, r.log) <==> web.valid(u) && Near(web, u, limits.maxDepth) {
        FetchedIffNear(web, limits, r, u);
      }
    }
  }

  lemma {:induction false} LargerBudgetResumes(web: Web, small: Settings, large: Settings, st: State)
    requires small.maxDepth == large.maxDepth && small.maxPages <= large.maxPages && st.head <= |st.log|
    ensures var r := Run(web, small, st);
      r.head <= |r.log| && Run(web, large, st) == Run(web, large, r)
    decreases small.maxPages - st.fetched, |st.log| - st.head
  {
    if st.head < |st.log| && st.fetched < small.maxPages {
      LargerBudgetResumes(web, small, large, Step(web, small, st));
    }
  }

  lemma {:induction false} RunExtendsPages(web: Web, limits: Settings, st: State)
    requires st.head <= |st.log|
    ensures st.pages <= Run(web, limits, st).pages
    decreases limits.maxPages - st.fetched, |st.log| - st.head
  {
    if st.head < |st.log| && st.fetched < limits.maxPages {
      RunExtendsPages(web, limits, Step(web, limits, st));
    }
  }

  lemma ShorterEndsIn(all: seq<string>, s: seq<string>, t: seq<string>)
    requires s <= all && t <= all && s != [] && t != []
    ensures |s| < |t| ==> s[|s| - 1] in t[..|t| - 1]
  {
    assert |s| < |t| ==> t[..|t| - 1][|s| - 1] == s[|s| - 1];
  }

  lemma FirstRaise(web: Web, all: seq<string>, calls: seq<string>, calls': seq<string>)
    requires UpToRaise(web, all, calls) && UpToRaise(web, all, calls')
    ensures calls == calls'
  {
    ShorterEndsIn(all, calls, calls');
    ShorterEndsIn(all, calls', calls);
  }

  /** Raising the page budget extends the fetches and the list of pages, but the added fetches can raise:
      a list of pages comes of the larger budget exactly if one comes of the smaller and none of the added
      fetches raises. A crawl that raises under the smaller budget makes the same calls under the larger. */
  lemma BudgetOnlyExtends(web: Web, small: Settings, large: Settings,
                          p: Option<seq<(string, string)>>, pCalls: seq<string>,
                          q: Option<seq<(string, string)>>, qCalls: seq<string>)
    requires small.maxDepth == large.maxDepth && small.maxPages <= large.maxPages
    requires EndsWell(web, Run(web, small, Start(web)), p, pCalls)
    requires EndsWell(web, Run(web, large, Start(web)), q, qCalls)
    ensures var r, t := Run(web, small, Start(web)), Run(web, large, Start(web));
      var ps, qs := Fetches(web, r.log[..r.head]), Fetches(web, t.log[..t.head]);
      && ps <= qs
      && (q.Some? <==> p.Some? && NoneRaises(web, qs[|ps|..]))
      && (q.Some? ==> p.value <= q.value)
      && (p.None? ==> qCalls == pCalls)
  {
    var r, t := Run(web, small, Start(web)), Run(web, large, Start(web));
    var ps, qs := Fetches(web, r.log[..r.head]), Fetches(web, t.log[..t.head]);
    LargerBudgetResumes(web, small, large, Start(web));
    RunExtendsPages(web, large, r);
    RunExtendsFetches(web, large, r);
    assert qs == ps + qs[|ps|..];
    if p.None? {
      FirstRaise(web, qs, pCalls, qCalls);
    }
  }
}
