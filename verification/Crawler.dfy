/** The crawler: executing a task looks its page up, fetches the page or its links from an earlier
    visit, and submits the links one level deeper.  Each execution is one step of the walk. */
module Crawler {
  import opened Crawl
  import opened Tasks
  import opened Wrappers

  datatype Link = Link(url: Url, sameDomain: bool)

  // What the world answers while one task is executed.
  datatype Page = Page(
    key: Option<Key>,              // the normalised URL, unless normalising fails
    isSitemap: bool,               // the site has a sitemap (or the context ended meanwhile)
    parsed: Option<seq<Link>>,     // the links of the page, unless fetching it fails
    indexed: bool,                 // the page was indexed, so it is no duplicate
    saved: bool,                   // new links could be kept in the store
    cached: bool,                  // the cache still has the links of an earlier visit, if it had them
    readable: bool,                // links in the store can be read
    canceledAt: nat)               // how many links are handled before the context ends

  // The labels, the links that the cache was given (when it forgets them is up to the world), and the
  // links in the store.
  datatype Memory = Memory(labels: map<Key, nat>, recent: map<Key, seq<Link>>, kept: map<Key, seq<Link>>)

  class Crawler {
    const web: Web
    const onlySameDomain: bool
    var visited: map<Key, nat>
    var queue: multiset<Job>
    var recent: map<Key, seq<Link>>
    var kept: map<Key, seq<Link>>
    ghost var processed: set<Lookup>
    ghost var expanded: map<Key, set<Url>>
    ghost var abandoned: set<Url>

    ghost function Now(): State
      reads this
    {
      State(visited, queue, processed, expanded, abandoned)
    }

    ghost function Memorized(): Memory
      reads this
    {
      Memory(visited, recent, kept)
    }

    ghost predicate Valid()
      reads this
    {
      Closed(web) && Correct(web, Now()) && ListsFollow(Memorized())
    }

    constructor (web: Web, onlySameDomain: bool, tasks: multiset<Job>)
      requires Closed(web)
      requires forall t :: t in tasks ==> t.depth == 0 && t.url in web.seeds
      requires forall u :: u in web.seeds ==> Job(u, 0) in tasks
      ensures this.web == web && this.onlySameDomain == onlySameDomain
      ensures Initial(web, Now()) && Valid() && recent == map[] && kept == map[]
    {
      this.web, this.onlySameDomain := web, onlySameDomain;
      visited, queue, recent, kept := map[], tasks, map[], map[];
      processed, expanded, abandoned := {}, map[], {};
      new;
      InitialIsCorrect(web, Now());
    }

    // ---------- Links ----------

    // The link, if it may be followed.
    function Followed(l: Link): seq<Url> {
      if onlySameDomain && !l.sameDomain then [] else [l.url]
    }

    // The links that may be followed.
    function Allowed(links: seq<Link>): seq<Url> {
      if links == [] then []
      else Allowed(links[..|links| - 1]) + Followed(links[|links| - 1])
    }

    ghost predicate Follows(k: Key, links: seq<Link>) {
      forall l :: l in links && (!onlySameDomain || l.sameDomain) ==> l.url in web.links(k)
    }

    // The links of a page without those that lead back to pages labelled lower.
    function NotDropped(labels: map<Key, nat>, depth: nat, links: seq<Link>): seq<Link> {
      if links == [] then []
      else
        var last := links[|links| - 1];
        NotDropped(labels, depth, links[..|links| - 1]) + if Dropped(web, labels, depth, last.url) then [] else [last]
    }

    function UpTo(links: seq<Link>, n: nat): seq<Link> {
      if n < |links| then links[..n] else links
    }

    // What an execution submits: the links that may be followed, up to the point where the context
    // ended.
    function Submitted(links: Option<seq<Link>>, canceledAt: nat): seq<Url> {
      if links == None then [] else Allowed(UpTo(links.value, canceledAt))
    }

    // The links of a page visited before.
    function Known(m: Memory, k: Key, page: Page): Option<seq<Link>> {
      if page.cached && k in m.recent then Some(m.recent[k])
      else if page.readable && k in m.kept then Some(m.kept[k])
      else None
    }

    // The links of a new page, as they are found.
    function Found(m: Memory, k: Key, depth: nat, page: Page): seq<Link> {
      if page.parsed == None then [] else NotDropped(m.labels[k := depth], depth, page.parsed.value)
    }

    // ... and as they are submitted: the page needs to be indexed, and its links kept if there are any.
    function Fresh(m: Memory, k: Key, depth: nat, page: Page): Option<seq<Link>> {
      var links := Found(m, k, depth, page);
      if page.parsed == None || !page.indexed || (links != [] && !page.saved) then None else Some(links)
    }

    // The links that an execution has to submit, or none if it fails.
    function LinksFor(m: Memory, k: Key, depth: nat, page: Page): Option<seq<Link>> {
      if k in m.labels then Known(m, k, page) else Fresh(m, k, depth, page)
    }

    function WithLinks(m: map<Key, seq<Link>>, k: Key, links: seq<Link>): map<Key, seq<Link>> {
      if links == [] then m else m[k := links]
    }

    function Given(links: Option<seq<Link>>): seq<Link> {
      if links == None then [] else links.value
    }

    // Labels, cache and store after it.
    function MemoryAfter(m: Memory, k: Key, depth: nat, page: Page): Memory {
      if k in m.labels then
        Memory(m.labels[k := depth], WithLinks(m.recent, k, Given(Known(m, k, page))), m.kept)
      else
        Memory(m.labels[k := depth], WithLinks(m.recent, k, Found(m, k, depth, page)),
               WithLinks(m.kept, k, Given(Fresh(m, k, depth, page))))
    }

    lemma {:induction false} NotDroppedFollow(k: Key, labels: map<Key, nat>, depth: nat, links: seq<Link>)
      requires Follows(k, links)
      ensures Follows(k, NotDropped(labels, depth, links))
    {
      if links != [] {
        NotDroppedFollow(k, labels, depth, links[..|links| - 1]);
      }
    }

    // Links that may be followed are links of the page.
    lemma {:induction false} AllowedFollows(k: Key, links: seq<Link>)
      requires Follows(k, links)
      ensures forall u :: u in Allowed(links) ==> u in web.links(k)
    {
      if links != [] {
        AllowedFollows(k, links[..|links| - 1]);
      }
    }

    // ---------- One task ----------

    // The answers fit the page: its key, and links that the graph has.
    ghost predicate Fits(t: Job, page: Page) {
      && (page.key.Some? ==> page.key.value == web.norm(t.url))
      && (page.key.Some? && page.parsed.Some? ==> Follows(page.key.value, page.parsed.value))
    }

    // ---------- What an expansion owes to the links ----------

    predicate MayFollow(l: Link) {
      !onlySameDomain || l.sameDomain
    }

    // Links that lead on: not back to a page with a smaller label.
    ghost predicate LeadsOn(labels: map<Key, nat>, depth: nat, l: Link) {
      web.norm(l.url) in labels ==> labels[web.norm(l.url)] >= depth
    }

    // Just those of the first `n` links that may be followed are submitted, and the task is canceled
    // if one is left behind them.
    ghost predicate SubmitsFrom(links: seq<Link>, n: nat, step: Step)
      requires step.Expand?
    {
      && (forall u :: u in step.out <==> exists i :: 0 <= i < |links| && i < n && links[i].url == u && MayFollow(links[i]))
      && (step.canceled <==> exists i :: n <= i < |links| && MayFollow(links[i]))
    }

    ghost predicate SubmitsNothing(step: Step)
      requires step.Expand?
    {
      step.out == [] && !step.canceled
    }

    ghost predicate NoneLeadsOn(labels: map<Key, nat>, depth: nat, page: Page) {
      page.parsed == None || forall l :: l in page.parsed.value ==> !LeadsOn(labels, depth, l)
    }

    // A new page that could not be fetched, was not indexed, or whose links could not be kept.
    ghost predicate FailsNew(m: Memory, k: Key, depth: nat, page: Page) {
      page.parsed == None || !page.indexed || (!page.saved && !NoneLeadsOn(m.labels[k := depth], depth, page))
    }

    ghost predicate NewPage(m: Memory, k: Key, depth: nat, page: Page, step: Step, m': Memory)
      requires step.Expand?
    {
      && m'.labels == m.labels[k := depth]
      && (if NoneLeadsOn(m'.labels, depth, page) then m'.recent == m.recent
          else k in m'.recent && forall l :: l in m'.recent[k] <==> l in page.parsed.value && LeadsOn(m'.labels, depth, l))
      && if FailsNew(m, k, depth, page) || NoneLeadsOn(m'.labels, depth, page) then
           SubmitsNothing(step) && m'.kept == m.kept
         else
           && k in m'.kept && SubmitsFrom(m'.kept[k], page.canceledAt, step)
           && forall l :: l in m'.kept[k] <==> l in page.parsed.value && LeadsOn(m'.labels, depth, l)
    }

    // The links of a known page are neither in the cache nor readable in the store.
    ghost predicate FailsKnown(m: Memory, k: Key, page: Page) {
      !(page.cached && k in m.recent) && !(page.readable && k in m.kept)
    }

    ghost predicate KnownPage(m: Memory, k: Key, depth: nat, page: Page, step: Step, m': Memory)
      requires step.Expand?
    {
      && m'.labels == m.labels[k := depth] && m'.kept == m.kept
      && if FailsKnown(m, k, page) then SubmitsNothing(step) && m'.recent == m.recent
         else if page.cached && k in m.recent then
           SubmitsFrom(m.recent[k], page.canceledAt, step) && m'.recent == m.recent
         else
           && SubmitsFrom(m.kept[k], page.canceledAt, step)
           && (m.kept[k] != [] ==> k in m'.recent && m'.recent[k] == m.kept[k])
    }

    predicate Untouched(k: Key, lists: map<Key, seq<Link>>, after: map<Key, seq<Link>>) {
      lists - {k} == after - {k}
    }

    ghost predicate ExpandsRightly(m: Memory, k: Key, depth: nat, page: Page, step: Step, m': Memory)
      requires step.Expand?
    {
      && Untouched(k, m.recent, m'.recent) && Untouched(k, m.kept, m'.kept)
      && if k in m.labels then KnownPage(m, k, depth, page, step, m') else NewPage(m, k, depth, page, step, m')
    }

    ghost predicate Fails(m: Memory, k: Key, depth: nat, page: Page) {
      if k in m.labels then FailsKnown(m, k, page) else FailsNew(m, k, depth, page)
    }

    lemma {:induction false} NotDroppedAre(labels: map<Key, nat>, depth: nat, links: seq<Link>, l: Link)
      ensures l in NotDropped(labels, depth, links) <==> l in links && LeadsOn(labels, depth, l)
    {
      if links != [] {
        var rest, last := links[..|links| - 1], links[|links| - 1];
        NotDroppedAre(labels, depth, rest, l);
        assert links == rest + [last];
      }
    }

    lemma {:induction false} AllowedAre(links: seq<Link>, u: Url)
      ensures u in Allowed(links) <==> exists i :: 0 <= i < |links| && links[i].url == u && MayFollow(links[i])
    {
      if links != [] {
        AllowedAre(links[..|links| - 1], u);
      }
    }

    lemma {:induction false} AllowedCut(links: seq<Link>, n: nat)
      requires n <= |links|
      ensures |Allowed(links[..n])| <= |Allowed(links)|
      ensures Allowed(links[..n]) != Allowed(links) <==> exists i :: n <= i < |links| && MayFollow(links[i])
      decreases |links|
    {
      if n == |links| {
        assert links[..n] == links;
      } else {
        var rest := links[..|links| - 1];
        AllowedCut(rest, n);
        assert rest[..n] == links[..n];
      }
    }

    lemma {:induction false} SubmitsAsStated(links: seq<Link>, n: nat, step: Step)
      requires ExpandedWith(Some(links), n, step)
      ensures SubmitsFrom(links, n, step)
    {
      var m := if n < |links| then n else |links|;
      assert UpTo(links, n) == links[..m];
      AllowedCut(links, m);
      forall u
        ensures u in step.out <==> exists i :: 0 <= i < |links| && i < n && links[i].url == u && MayFollow(links[i])
      {
        AllowedAre(links[..m], u);
      }
    }

    lemma {:induction false} KnownIsRight(m: Memory, k: Key, depth: nat, page: Page, step: Step)
      requires k in m.labels && ExpandedWith(Known(m, k, page), page.canceledAt, step)
      ensures KnownPage(m, k, depth, page, step, MemoryAfter(m, k, depth, page))
    {
      if Known(m, k, page).Some? {
        SubmitsAsStated(Known(m, k, page).value, page.canceledAt, step);
      }
    }

    lemma {:induction false} FreshAre(m: Memory, k: Key, depth: nat, page: Page)
      ensures Fresh(m, k, depth, page) == None <==> FailsNew(m, k, depth, page)
      ensures page.parsed.Some? ==> forall l ::
        l in Found(m, k, depth, page) <==> l in page.parsed.value && LeadsOn(m.labels[k := depth], depth, l)
      ensures Found(m, k, depth, page) == [] <==> NoneLeadsOn(m.labels[k := depth], depth, page)
    {
      var links := Found(m, k, depth, page);
      if page.parsed.Some? {
        forall l
          ensures l in links <==> l in page.parsed.value && LeadsOn(m.labels[k := depth], depth, l)
        {
          NotDroppedAre(m.labels[k := depth], depth, page.parsed.value, l);
        }
        assert links != [] ==> links[0] in links;
      }
    }

    lemma {:induction false} NewIsRight(m: Memory, k: Key, depth: nat, page: Page, step: Step)
      requires k !in m.labels && ExpandedWith(Fresh(m, k, depth, page), page.canceledAt, step)
      ensures NewPage(m, k, depth, page, step, MemoryAfter(m, k, depth, page))
    {
      FreshAre(m, k, depth, page);
      if Fresh(m, k, depth, page).Some? {
        SubmitsAsStated(Found(m, k, depth, page), page.canceledAt, step);
      }
    }

    lemma {:induction false} OnlyOne(lists: map<Key, seq<Link>>, k: Key, links: seq<Link>)
      ensures Untouched(k, lists, WithLinks(lists, k, links))
    {
    }

    lemma {:induction false} ExpansionIsRight(m: Memory, k: Key, depth: nat, page: Page, step: Step)
      requires ExpandedWith(LinksFor(m, k, depth, page), page.canceledAt, step)
      ensures ExpandsRightly(m, k, depth, page, step, MemoryAfter(m, k, depth, page))
      ensures LinksFor(m, k, depth, page) == None <==> Fails(m, k, depth, page)
    {
      if k in m.labels {
        KnownIsRight(m, k, depth, page, step);
        OnlyOne(m.recent, k, Given(Known(m, k, page)));
      } else {
        FreshAre(m, k, depth, page);
        NewIsRight(m, k, depth, page, step);
        OnlyOne(m.recent, k, Found(m, k, depth, page));
        OnlyOne(m.kept, k, Given(Fresh(m, k, depth, page)));
      }
    }

    // What became of a task: which step of the walk it was, and what it submitted.
    twostate predicate Executed(t: Job, page: Page, r: CompletionState, step: Step)
      reads this
    {
      var k, m := web.norm(t.url), old(Memorized());
      && step.t == t && Next(web, old(Now()), step, Now())
      && (step.Abandon? <==> page.key == None || page.isSitemap)
      && (r == Canceled <==> step.Expand? && step.canceled)
      && (step.Expand? ==> ExpandedWith(LinksFor(m, k, t.depth, page), page.canceledAt, step))
      && Memorized() == (if step.Expand? then MemoryAfter(m, k, t.depth, page) else m)
      && (step.Expand? ==> ExpandsRightly(m, k, t.depth, page, step, Memorized()))
      && (step.Expand? ==> Requeued(old(queue), t, step.out, r == Canceled, queue))
      && (r == Error <==> page.key == None || (step.Expand? && Fails(m, k, t.depth, page)))
    }

    ghost predicate ExpandedWith(links: Option<seq<Link>>, canceledAt: nat, step: Step) {
      && step.Expand? && step.out == Submitted(links, canceledAt)
      && (step.canceled <==> links.Some? && step.out != Allowed(links.value))
    }

    // Executes a queued task.  Its effect is one step of the walk; if the context ends between two
    // links, the task goes back to the queue.
    method Scrape(t: Job, page: Page) returns (r: CompletionState, ghost step: Step)
      requires Valid() && t in queue && Fits(t, page)
      modifies this
      ensures Valid() && Executed(t, page, r, step)
      ensures Below(Measure(web, Now()), Measure(web, old(Now())))
    {
      if page.key.Some? {
        ListsStayFollowed(Memorized(), t, page);
      }
      r, step := Execute(t, page);
      StepKeepsCorrect(web, old(Now()), step, Now());
      StepLowersMeasure(web, old(Now()), step, Now());
    }

    ghost predicate ListsFollow(m: Memory) {
      && (forall k :: k in m.recent ==> Follows(k, m.recent[k]))
      && (forall k :: k in m.kept ==> Follows(k, m.kept[k]))
    }

    lemma ListsStayFollowed(m: Memory, t: Job, page: Page)
      requires ListsFollow(m) && Fits(t, page) && page.key.Some?
      ensures var k := page.key.value;
        && ListsFollow(MemoryAfter(m, k, t.depth, page))
        && (LinksFor(m, k, t.depth, page).Some? ==> Follows(k, LinksFor(m, k, t.depth, page).value))
    {
      var k := page.key.value;
      if page.parsed.Some? {
        NotDroppedFollow(k, m.labels[k := t.depth], t.depth, page.parsed.value);
      }
    }

    method Execute(t: Job, page: Page) returns (r: CompletionState, ghost step: Step)
      requires Valid() && t in queue && Fits(t, page)
      modifies this
      ensures Executed(t, page, r, step)
    {
      if page.key == None || page.isSitemap {
        queue := queue - multiset{t};
        abandoned := abandoned + {t.url};
        step := Abandon(t);
        return if page.key == None then Error else Done, step;
      }
      var normalized := page.key.value;
      if normalized in visited && visited[normalized] <= t.depth {
        queue := queue - multiset{t};
        processed := processed + {Lookup(normalized, t.depth)};
        return Done, Seen(t);
      }
      r, step := ExecuteVisit(t, normalized, page);
    }

    method ExecuteVisit(t: Job, k: Key, page: Page) returns (r: CompletionState, ghost step: Step)
      requires Valid() && t in queue && Fits(t, page) && page.key == Some(k) && !page.isSitemap
      requires k in visited ==> t.depth < visited[k]
      modifies this
      ensures step.Expand? && Executed(t, page, r, step)
    {
      ListsStayFollowed(Memorized(), t, page);
      r, step := Visit(t, k, page);
      ExpansionIsRight(old(Memorized()), k, t.depth, page, step);
      FieldsAfterExpand(old(Now()), t, k, step.out, step.canceled, Now());
      ExpansionRequeues(old(Now()), t, k, step.out, step.canceled);
    }

    // Fields of `s'` that make up the state after expansion.
    lemma {:induction false} FieldsAfterExpand(s: State, t: Job, k: Key, out: seq<Url>, canceled: bool, s': State)
      requires s'.visited == s.visited[k := t.depth] && s'.processed == s.processed + {Lookup(k, t.depth)}
      requires s'.queue == s.queue - multiset{t} + Children(out, t.depth + 1) + Back(t, canceled)
      requires s'.expanded == s.expanded[k := Urls(out)] && s'.abandoned == s.abandoned
      ensures s' == AfterExpand(s, t, k, out, canceled)
    {
    }

    // The task of a page that is new, or reached on a shorter way than before.
    method Visit(t: Job, k: Key, page: Page) returns (r: CompletionState, ghost step: Step)
      requires LinksFor(Memorized(), k, t.depth, page).Some? ==> Follows(k, LinksFor(Memorized(), k, t.depth, page).value)
      modifies this
      ensures step.Expand? && step.t == t && (r == Canceled <==> step.canceled)
      ensures ExpandedWith(LinksFor(old(Memorized()), k, t.depth, page), page.canceledAt, step)
      ensures r == Error <==> LinksFor(old(Memorized()), k, t.depth, page) == None
      ensures Memorized() == MemoryAfter(old(Memorized()), k, t.depth, page)
      ensures forall u :: u in step.out ==> u in web.links(k)
      ensures processed == old(processed) + {Lookup(k, t.depth)}
      ensures queue == old(queue) - multiset{t} + Children(step.out, t.depth + 1) + Back(t, step.canceled)
      ensures expanded == old(expanded)[k := Urls(step.out)] && abandoned == old(abandoned)
    {
      Take(t, k);
      var links := LabelAndGetLinks(t, k, page);
      r, step := Settle(t, k, links, page.canceledAt);
    }

    // The links get into the queue, and the task gets back if it was canceled.
    method Settle(t: Job, k: Key, links: Option<seq<Link>>, canceledAt: nat) returns (r: CompletionState, ghost step: Step)
      requires links.Some? ==> Follows(k, links.value)
      modifies this`queue, this`expanded
      ensures step.Expand? && step.t == t && (r == Canceled <==> step.canceled)
      ensures r == Error <==> links == None
      ensures ExpandedWith(links, canceledAt, step)
      ensures forall u :: u in step.out ==> u in web.links(k)
      ensures queue == old(queue) + Children(step.out, t.depth + 1) + Back(t, step.canceled)
      ensures expanded == old(expanded)[k := Urls(step.out)]
    {
      r, step := Relabel(t, k, links, canceledAt);
      PutBack(t, r == Canceled);
    }

    method LabelAndGetLinks(t: Job, k: Key, page: Page) returns (links: Option<seq<Link>>)
      modifies this`visited, this`recent, this`kept
      ensures links == LinksFor(old(Memorized()), k, t.depth, page)
      ensures Memorized() == MemoryAfter(old(Memorized()), k, t.depth, page)
    {
      var loaded := k in visited;
      visited := visited[k := t.depth];
      if loaded {
        links := Load(k, page);
      } else {
        links := Fetch(k, t.depth, page);
        assert visited[k := t.depth] == visited;
      }
    }

    method Take(t: Job, k: Key)
      modifies this`processed, this`queue
      ensures processed == old(processed) + {Lookup(k, t.depth)}
      ensures queue == old(queue) - multiset{t}
    {
      queue := queue - multiset{t};
      processed := processed + {Lookup(k, t.depth)};
    }

    // The worker pushes back a task that was canceled.
    method PutBack(t: Job, canceled: bool)
      modifies this`queue
      ensures queue == old(queue) + Back(t, canceled)
    {
      if canceled {
        queue := queue + multiset{t};
      }
    }

    // The links of a page visited before, from the cache or from the store.
    method Load(k: Key, page: Page) returns (links: Option<seq<Link>>)
      modifies this`recent
      ensures links == Known(old(Memorized()), k, page)
      ensures recent == WithLinks(old(recent), k, Given(links))
    {
      if page.cached && k in recent {
        assert recent[k := recent[k]] == recent;
        return Some(recent[k]);
      }
      if !page.readable || k !in kept {
        return None;
      }
      if kept[k] != [] {
        recent := recent[k := kept[k]];
      }
      return Some(kept[k]);
    }

    // Links lead on to pages not yet visited, or labelled no lower.
    method Parse(depth: nat, parsed: seq<Link>) returns (links: seq<Link>)
      ensures links == NotDropped(visited, depth, parsed)
      ensures forall l :: l in links <==>
        l in parsed && (web.norm(l.url) !in visited || visited[web.norm(l.url)] >= depth)
    {
      forall l
        ensures l in NotDropped(visited, depth, parsed) <==> l in parsed && LeadsOn(visited, depth, l)
      {
        NotDroppedAre(visited, depth, parsed, l);
      }
      links := [];
      for i := 0 to |parsed|
        invariant links == NotDropped(visited, depth, parsed[..i])
      {
        assert parsed[..i + 1][..i] == parsed[..i];
        var normalized := web.norm(parsed[i].url);
        if normalized in visited && visited[normalized] < depth {
          continue;
        }
        links := links + [parsed[i]];
      }
      assert parsed[..|parsed|] == parsed;
    }

    // The links of a new page, which has its label by now.
    method Fetch(k: Key, depth: nat, page: Page) returns (links: Option<seq<Link>>)
      requires visited[k := depth] == visited
      modifies this`recent, this`kept
      ensures links == Fresh(old(Memorized()), k, depth, page)
      ensures links == None <==> FailsNew(old(Memorized()), k, depth, page)
      ensures links.Some? ==> forall l :: l in links.value <==> l in page.parsed.value && LeadsOn(visited, depth, l)
      ensures links == None ==> kept == old(kept)
      ensures recent == WithLinks(old(recent), k, Found(old(Memorized()), k, depth, page))
      ensures kept == WithLinks(old(kept), k, Given(links))
    {
      FreshAre(Memorized(), k, depth, page);
      if page.parsed == None {
        return None;
      }
      var found := Parse(depth, page.parsed.value);
      if found != [] {
        recent := recent[k := found];
      }
      if !page.indexed || (found != [] && !page.saved) {
        return None;
      }
      if found != [] {
        kept := kept[k := found];
      }
      return Some(found);
    }

    // From the links on.
    method Relabel(t: Job, k: Key, links: Option<seq<Link>>, canceledAt: nat)
      returns (r: CompletionState, ghost step: Step)
      requires links.Some? ==> Follows(k, links.value)
      modifies this`queue, this`expanded
      ensures step.Expand? && step.t == t && (r == Canceled <==> step.canceled)
      ensures r == Error <==> links == None
      ensures ExpandedWith(links, canceledAt, step)
      ensures forall u :: u in step.out ==> u in web.links(k)
      ensures queue == old(queue) + Children(step.out, t.depth + 1)
      ensures expanded == old(expanded)[k := Urls(step.out)]
    {
      if links == None || links.value == [] {
        r, step := if links == None then Error else Done, Expand(t, [], false);
      } else {
        ghost var out;
        r, out := SubmitLinks(links.value, t.depth + 1, canceledAt);
        AllowedFollows(k, UpTo(links.value, canceledAt));
        step := Expand(t, out, r == Canceled);
      }
      expanded := expanded[k := Urls(step.out)];
    }

    lemma LinkStep(links: seq<Link>, i: nat, n: nat)
      requires i < |links|
      ensures Allowed(links[..i + 1]) == Allowed(links[..i]) + Followed(links[i])
      ensures i < n ==> UpTo(links[..i], n) == links[..i] && UpTo(links[..i + 1], n) == links[..i + 1]
      ensures i >= n ==> UpTo(links[..i], n) == UpTo(links[..i + 1], n) == UpTo(links, n)
    {
      assert links[..i + 1][..i] == links[..i];
    }

    lemma {:induction false} AllowedGrows(links: seq<Link>, i: nat)
      requires i <= |links|
      ensures |Allowed(links[..i])| <= |Allowed(links)|
      decreases |links|
    {
      if i < |links| {
        var rest := links[..|links| - 1];
        AllowedGrows(rest, i);
        assert rest[..i] == links[..i];
      } else {
        assert links[..i] == links;
      }
    }

    // Where a link that may be followed is left, links are missing.
    lemma {:induction false} CutShort(links: seq<Link>, i: nat)
      requires i < |links| && Followed(links[i]) != []
      ensures Allowed(links[..i]) != Allowed(links)
    {
      LinkStep(links, i, i);
      AllowedGrows(links, i + 1);
    }

    // The loop over the links: those that may be followed are submitted one level deeper.
    method SubmitLinks(links: seq<Link>, depth: nat, canceledAt: nat) returns (r: CompletionState, ghost out: seq<Url>)
      modifies this`queue
      ensures r == if out != Allowed(links) then Canceled else Done
      ensures out == Allowed(UpTo(links, canceledAt))
      ensures queue == old(queue) + Children(out, depth)
    {
      out := [];
      for i := 0 to |links|
        invariant out == Allowed(links[..i]) == Allowed(UpTo(links[..i], canceledAt))
        invariant queue == old(queue) + Children(out, depth)
      {
        var link := links[i];
        LinkStep(links, i, canceledAt);
        if onlySameDomain && !link.sameDomain {
          continue;
        }
        if i >= canceledAt {
          CutShort(links, i);
          return Canceled, out;
        }
        OneMoreChild(old(queue), out, link.url, depth);
        Enqueue(Job(link.url, depth));
        out := out + [link.url];
      }
      assert links[..|links|] == links;
      r := Done;
    }

    method Enqueue(c: Job)
      modifies this`queue
      ensures queue == old(queue) + multiset{c}
    {
      queue := queue + multiset{c};
    }

    lemma {:induction false} OneMoreChild(q: multiset<Job>, out: seq<Url>, u: Url, depth: nat)
      ensures q + Children(out, depth) + multiset{Job(u, depth)} == q + Children(out + [u], depth)
    {
      assert (out + [u])[..|out|] == out;
    }

    // ---------- The whole walk ----------

    // Whatever task is taken next and whatever the world answers at each step, the walk ends, with
    // correct labels.
    method Crawl(answer: (nat, Job) -> Page) returns (count: nat)
      requires Valid()
      requires forall n, t :: Fits(t, answer(n, t))
      modifies this
      ensures Valid() && queue == multiset{}
    {
      count := 0;
      while queue != multiset{}
        invariant Valid()
        decreases Measure(web, Now()).0, Measure(web, Now()).1, Measure(web, Now()).2
      {
        var t :| t in queue;
        var r, step := Scrape(t, answer(count, t));
        count := count + 1;
      }
    }

    // ---------- A world without faults ----------

    // Every page has a key and no sitemap, shows the links `raw`, can be indexed, kept and read, and
    // the context never ends.  When the cache forgets does not matter.
    ghost predicate NoFault(t: Job, raw: Key -> seq<Link>, page: Page) {
      var k := web.norm(t.url);
      && page.key == Some(k) && !page.isSitemap && page.parsed == Some(raw(k))
      && page.indexed && page.saved && page.readable && page.canceledAt >= |raw(k)|
    }

    // The graph has just the links that pages show and that may be followed.
    ghost predicate Shows(raw: Key -> seq<Link>) {
      forall k, u :: u in web.links(k) <==> u in Allowed(raw(k))
    }

    // Cache and store have the links that a page was expanded with.
    ghost predicate MirrorsAt(raw: Key -> seq<Link>, m: Memory, expanded: map<Key, set<Url>>, k: Key) {
      && (k in m.labels <==> k in expanded)
      && (k in m.kept ==> k in expanded && |m.kept[k]| <= |raw(k)| && Urls(Allowed(m.kept[k])) == expanded[k])
      && (k in m.recent ==> k in m.kept && m.recent[k] == m.kept[k])
      && (k in expanded && k !in m.kept ==> expanded[k] == {})
    }

    ghost predicate Mirrors(raw: Key -> seq<Link>, m: Memory, expanded: map<Key, set<Url>>) {
      forall k {:trigger MirrorsAt(raw, m, expanded, k)} :: MirrorsAt(raw, m, expanded, k)
    }

    lemma {:induction false} AllowedOneMore(links: seq<Link>, l: Link)
      ensures Allowed(links + [l]) == Allowed(links) + Followed(l)
    {
      assert (links + [l])[..|links|] == links;
    }

    lemma {:induction false} AllowedNotDropped(labels: map<Key, nat>, depth: nat, links: seq<Link>, u: Url)
      ensures u in Allowed(NotDropped(labels, depth, links)) <==> u in Allowed(links) && !Dropped(web, labels, depth, u)
      ensures |NotDropped(labels, depth, links)| <= |links|
    {
      if links != [] {
        var rest, last := links[..|links| - 1], links[|links| - 1];
        AllowedNotDropped(labels, depth, rest, u);
        if Dropped(web, labels, depth, last.url) {
          assert NotDropped(labels, depth, links) == NotDropped(labels, depth, rest);
        } else {
          AllowedOneMore(NotDropped(labels, depth, rest), last);
        }
      }
    }

    lemma ShownFollow(raw: Key -> seq<Link>, k: Key)
      requires Shows(raw)
      ensures Follows(k, raw(k))
    {
      forall l | l in raw(k) && (!onlySameDomain || l.sameDomain)
        ensures l.url in web.links(k)
      {
        AllowedHas(raw(k), l);
      }
    }

    lemma {:induction false} AllowedHas(links: seq<Link>, l: Link)
      requires l in links && (!onlySameDomain || l.sameDomain)
      ensures l.url in Allowed(links)
    {
      if links[|links| - 1] != l {
        AllowedHas(links[..|links| - 1], l);
      }
    }

    lemma OfferedAre(m: Memory, t: Job, raw: Key -> seq<Link>)
      requires Shows(raw)
      ensures var k := web.norm(t.url);
        var links := NotDropped(m.labels[k := t.depth], t.depth, raw(k));
        Offers(web, m.labels[k := t.depth], k, t.depth, Urls(Allowed(links))) && |links| <= |raw(k)|
    {
      var k := web.norm(t.url);
      forall u
        ensures u in Allowed(NotDropped(m.labels[k := t.depth], t.depth, raw(k)))
           <==> u in web.links(k) && !Dropped(web, m.labels[k := t.depth], t.depth, u)
      {
        AllowedNotDropped(m.labels[k := t.depth], t.depth, raw(k), u);
      }
      AllowedNotDropped(m.labels[k := t.depth], t.depth, raw(k), "");
    }

    lemma {:induction false} FreshMirrors(raw: Key -> seq<Link>, m: Memory, expanded: map<Key, set<Url>>, k: Key, depth: nat, links: seq<Link>)
      requires Mirrors(raw, m, expanded) && k !in expanded && |links| <= |raw(k)|
      ensures Mirrors(raw, Memory(m.labels[k := depth], WithLinks(m.recent, k, links), WithLinks(m.kept, k, links)),
                      expanded[k := Urls(Allowed(links))])
    {
      var m' := Memory(m.labels[k := depth], WithLinks(m.recent, k, links), WithLinks(m.kept, k, links));
      var expanded' := expanded[k := Urls(Allowed(links))];
      assert Urls([]) == {};
      forall j
        ensures MirrorsAt(raw, m', expanded', j)
      {
        assert MirrorsAt(raw, m, expanded, j);
      }
    }

    lemma {:induction false} KnownMirrors(raw: Key -> seq<Link>, m: Memory, expanded: map<Key, set<Url>>, k: Key, depth: nat, links: seq<Link>)
      requires Mirrors(raw, m, expanded) && k in expanded && Urls(Allowed(links)) == expanded[k]
      requires if k in m.kept then links == m.kept[k] else links == []
      ensures Mirrors(raw, Memory(m.labels[k := depth], WithLinks(m.recent, k, links), m.kept),
                      expanded[k := Urls(Allowed(links))])
    {
      var m' := Memory(m.labels[k := depth], WithLinks(m.recent, k, links), m.kept);
      var expanded' := expanded[k := Urls(Allowed(links))];
      forall j
        ensures MirrorsAt(raw, m', expanded', j)
      {
        assert MirrorsAt(raw, m, expanded, j);
      }
    }

    lemma KnownAre(raw: Key -> seq<Link>, m: Memory, expanded: map<Key, set<Url>>, t: Job, page: Page)
      requires Mirrors(raw, m, expanded) && NoFault(t, raw, page) && web.norm(t.url) in expanded
      ensures var k := web.norm(t.url);
        var links := Given(Known(m, k, page));
        && (if k in m.kept then links == m.kept[k] else links == [])
        && |links| <= |raw(k)| && Urls(Allowed(links)) == expanded[k]
    {
      assert MirrorsAt(raw, m, expanded, web.norm(t.url));
      assert Urls([]) == {};
    }

    lemma SubmittedAll(links: Option<seq<Link>>, canceledAt: nat)
      requires |Given(links)| <= canceledAt
      ensures Submitted(links, canceledAt) == Allowed(Given(links))
    {
    }

    // The links to submit are those the graph offers, or those of the first expansion.
    lemma FaultlessLinks(m: Memory, expanded: map<Key, set<Url>>, t: Job, raw: Key -> seq<Link>, page: Page)
      requires Mirrors(raw, m, expanded) && Shows(raw) && NoFault(t, raw, page)
      ensures var k := web.norm(t.url);
        var links := LinksFor(m, k, t.depth, page);
        var out := Submitted(links, page.canceledAt);
        && out == Allowed(Given(links))
        && (k in expanded ==> Urls(out) == expanded[k])
        && (k !in expanded ==> Offers(web, m.labels[k := t.depth], k, t.depth, Urls(out)))
        && Mirrors(raw, MemoryAfter(m, k, t.depth, page), expanded[k := Urls(out)])
    {
      var k := web.norm(t.url);
      var links := LinksFor(m, k, t.depth, page);
      assert MirrorsAt(raw, m, expanded, k);
      if k in expanded {
        KnownAre(raw, m, expanded, t, page);
        KnownMirrors(raw, m, expanded, k, t.depth, Given(links));
      } else {
        OfferedAre(m, t, raw);
        FreshMirrors(raw, m, expanded, k, t.depth, Given(links));
      }
      SubmittedAll(links, page.canceledAt);
    }

    lemma FaultlessStep(s: State, m: Memory, t: Job, raw: Key -> seq<Link>, page: Page, step: Step, s': State)
      requires Mirrors(raw, m, s.expanded) && m.labels == s.visited && Shows(raw) && NoFault(t, raw, page)
      requires Next(web, s, step, s') && step.t == t && !step.Abandon?
      requires step.Expand? ==> ExpandedWith(LinksFor(m, web.norm(t.url), t.depth, page), page.canceledAt, step)
      ensures Faultless(web, s, step)
      ensures Mirrors(raw, if step.Expand? then MemoryAfter(m, web.norm(t.url), t.depth, page) else m, s'.expanded)
    {
      FaultlessLinks(m, s.expanded, t, raw, page);
    }

    method ScrapeFaultless(t: Job, raw: Key -> seq<Link>, page: Page) returns (ghost step: Step)
      requires Valid() && Mirrors(raw, Memorized(), expanded) && Shows(raw) && NoFault(t, raw, page) && t in queue
      modifies this
      ensures Valid() && Mirrors(raw, Memorized(), expanded)
      ensures Next(web, old(Now()), step, Now()) && Faultless(web, old(Now()), step)
      ensures Below(Measure(web, Now()), Measure(web, old(Now())))
    {
      ShownFollow(raw, web.norm(t.url));
      var r;
      r, step := Scrape(t, page);
      FaultlessStep(old(Now()), old(Memorized()), t, raw, page, step, Now());
    }

    // One more step of a faultless walk.
    method Extend(t: Job, raw: Key -> seq<Link>, page: Page, ghost states: seq<State>, ghost steps: seq<Step>)
      returns (ghost states': seq<State>, ghost steps': seq<Step>)
      requires Valid() && Mirrors(raw, Memorized(), expanded) && Shows(raw) && NoFault(t, raw, page) && t in queue
      requires IsFaultless(web, states, steps) && states[|steps|] == Now()
      modifies this
      ensures Valid() && Mirrors(raw, Memorized(), expanded)
      ensures IsFaultless(web, states', steps') && states'[|steps'|] == Now()
      ensures Below(Measure(web, Now()), Measure(web, old(Now())))
    {
      ghost var step := ScrapeFaultless(t, raw, page);
      ExtendFaultless(web, states, steps, step, Now());
      states', steps' := states + [Now()], steps + [step];
    }

    // Without faults, whatever task is taken next, the labels are distances in the graph of the links
    // that were followed, and in the whole graph exactly if each link closes.
    method CrawlFaultless(raw: Key -> seq<Link>, answer: (nat, Job) -> Page)
      returns (ghost states: seq<State>, ghost steps: seq<Step>)
      requires Valid() && Initial(web, Now()) && recent == map[] && kept == map[]
      requires Shows(raw) && forall n, t :: NoFault(t, raw, answer(n, t))
      modifies this
      ensures queue == multiset{} && IsFaultless(web, states, steps) && states[|steps|] == Now()
      ensures AreDistances(Shown(web, Now()), visited)
      ensures AreDistances(web, visited) <==> NoShortcut(web, Now())
      ensures AreDistances(web, visited) <==> IsClosing(web, visited)
    {
      states, steps := [Now()], [];
      var count := 0;
      while queue != multiset{}
        invariant Valid() && Mirrors(raw, Memorized(), expanded)
        invariant IsFaultless(web, states, steps) && states[|steps|] == Now()
        decreases Measure(web, Now()).0, Measure(web, Now()).1, Measure(web, Now()).2
      {
        var t :| t in queue;
        states, steps := Extend(t, raw, answer(count, t), states, steps);
        count := count + 1;
      }
      LabelsAreShownDistances(web, states, steps);
      LabelsAreDistances(web, states, steps);
    }
  }
}
