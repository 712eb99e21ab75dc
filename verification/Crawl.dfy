/** The crawl as a walk over the link graph that relabels pages with the depth at which they were
    reached: a page reached again on a shorter way is expanded again. */
module Crawl {
  import opened Wrappers

  type Url = string
  type Key = string  // a normalised URL

  // A task of the scheduler, as far as the walk is concerned.
  datatype Job = Job(url: Url, depth: nat)

  // A page looked up among the visited ones, at some depth.
  datatype Lookup = Lookup(key: Key, depth: nat)

  // The link graph: how URLs are normalised, which links a page may ever show (those the crawler
  // may follow), and a finite set of pages closed under them.
  datatype Web = Web(norm: Url -> Key, links: Key -> set<Url>, universe: set<Key>, seeds: set<Url>)

  ghost predicate Closed(web: Web) {
    && (forall u :: u in web.seeds ==> web.norm(u) in web.universe)
    && (forall k, u :: k in web.universe && u in web.links(k) ==> web.norm(u) in web.universe)
  }

  datatype State = State(
    visited: map<Key, nat>,
    queue: multiset<Job>,           // tasks submitted and not yet executed
    processed: set<Lookup>,          // history: pages and depths looked up in `visited`
    expanded: map<Key, set<Url>>,    // history: links submitted when the label was last lowered
    abandoned: set<Url>)             // history: tasks that ended before that lookup

  // One task, from the lookup in `visited` to the last submitted link.
  datatype Step =
    | Abandon(t: Job)                                  // no valid URL, a sitemap, or refused by the scheduler
    | Seen(t: Job)                                     // visited before at this depth or less
    | Expand(t: Job, out: seq<Url>, canceled: bool)    // label lowered, links submitted

  function Children(out: seq<Url>, depth: nat): multiset<Job> {
    if out == [] then multiset{} else Children(out[..|out| - 1], depth) + multiset{Job(out[|out| - 1], depth)}
  }

  function Urls(out: seq<Url>): set<Url> {
    set u | u in out
  }

  // What a canceled execution leaves to be done.
  function Back(t: Job, canceled: bool): multiset<Job> {
    if canceled then multiset{t} else multiset{}
  }

  function AfterExpand(s: State, t: Job, k: Key, out: seq<Url>, canceled: bool): State {
    State(
      s.visited[k := t.depth],
      s.queue - multiset{t} + Children(out, t.depth + 1) + Back(t, canceled),
      s.processed + {Lookup(k, t.depth)},
      s.expanded[k := Urls(out)],
      s.abandoned)
  }

  ghost predicate Next(web: Web, s: State, step: Step, s': State) {
    step.t in s.queue &&
    var t, k := step.t, web.norm(step.t.url);
    match step
    case Abandon(_) =>
      s' == s.(queue := s.queue - multiset{t}, abandoned := s.abandoned + {t.url})
    case Seen(_) =>
      k in s.visited && s.visited[k] <= t.depth &&
      s' == s.(queue := s.queue - multiset{t}, processed := s.processed + {Lookup(k, t.depth)})
    case Expand(_, out, canceled) =>
      (k in s.visited ==> t.depth < s.visited[k]) && (forall u :: u in out ==> u in web.links(k)) &&
      s' == AfterExpand(s, t, k, out, canceled)
  }

  ghost predicate Initial(web: Web, s: State) {
    && s.visited == map[] && s.processed == {} && s.expanded == map[] && s.abandoned == {}
    && (forall t :: t in s.queue ==> t.depth == 0 && t.url in web.seeds)
    && (forall u :: u in web.seeds ==> Job(u, 0) in s.queue)
  }

  lemma {:induction false} ChildrenAre(out: seq<Url>, depth: nat, t: Job)
    ensures t in Children(out, depth) <==> t.depth == depth && t.url in out
  {
    if out != [] {
      ChildrenAre(out[..|out| - 1], depth, t);
      assert out == out[..|out| - 1] + [out[|out| - 1]];
    }
  }

  lemma {:induction false} ChildrenCount(out: seq<Url>, depth: nat)
    ensures |Children(out, depth)| == |out|
  {
    if out != [] {
      ChildrenCount(out[..|out| - 1], depth);
    }
  }

  // Of the queue an expansion takes one task, each link gives one, and a canceled task comes back.
  ghost predicate Requeued(before: multiset<Job>, t: Job, out: seq<Url>, canceled: bool, after: multiset<Job>) {
    && before - multiset{t} <= after
    && |after| == |before| - 1 + |out| + (if canceled then 1 else 0)
    && (forall u :: u in out ==> Job(u, t.depth + 1) in after)
    && (canceled ==> t in after)
  }

  lemma {:induction false} ExpansionRequeues(s: State, t: Job, k: Key, out: seq<Url>, canceled: bool)
    requires t in s.queue
    ensures Requeued(s.queue, t, out, canceled, AfterExpand(s, t, k, out, canceled).queue)
  {
    AllRequeued(s.queue, t, out, Children(out, t.depth + 1), Back(t, canceled), canceled);
  }

  lemma {:induction false} AllRequeued(queue: multiset<Job>, t: Job, out: seq<Url>, children: multiset<Job>,
                                       back: multiset<Job>, canceled: bool)
    requires t in queue && children == Children(out, t.depth + 1) && back == Back(t, canceled)
    ensures Requeued(queue, t, out, canceled, queue - multiset{t} + children + back)
  {
    ChildrenCount(out, t.depth + 1);
    AllAreChildren(out, t.depth + 1);
    QueueParts(queue, t, children, back);
  }

  lemma {:induction false} AllAreChildren(out: seq<Url>, depth: nat)
    ensures forall u :: u in out ==> Job(u, depth) in Children(out, depth)
  {
    forall u | u in out
      ensures Job(u, depth) in Children(out, depth)
    {
      ChildrenAre(out, depth, Job(u, depth));
    }
  }

  lemma QueueParts(queue: multiset<Job>, t: Job, children: multiset<Job>, back: multiset<Job>)
    requires t in queue
    ensures var after := queue - multiset{t} + children + back;
      && queue - multiset{t} <= after && |after| == |queue| - 1 + |children| + |back|
      && (forall c :: c in children || c in back ==> c in after)
  {
    assert |queue - multiset{t}| == |queue| - 1;
  }

  // ---------- Termination ----------

  // The pages visited and those queued all lie in the universe.
  ghost predicate Inside(web: Web, s: State) {
    && s.visited.Keys <= web.universe
    && forall t :: t in s.queue ==> web.norm(t.url) in web.universe
  }

  ghost function Sum(m: map<Key, nat>): nat
    decreases |m|
  {
    if m == map[] then 0 else var k :| k in m; m[k] + Sum(m - {k})
  }

  lemma {:induction false} SumRemove(m: map<Key, nat>, k: Key)
    requires k in m
    ensures Sum(m) == m[k] + Sum(m - {k})
    decreases |m|
  {
    var j :| j in m && Sum(m) == m[j] + Sum(m - {j});
    if j != k {
      SumRemove(m - {j}, k);
      SumRemove(m - {k}, j);
      assert m - {j} - {k} == m - {k} - {j};
    }
  }

  // Unvisited pages, sum of the labels, queued tasks.
  ghost function Measure(web: Web, s: State): (nat, nat, nat) {
    (|web.universe - s.visited.Keys|, Sum(s.visited), |s.queue|)
  }

  ghost predicate Below(a: (nat, nat, nat), b: (nat, nat, nat)) {
    a.0 < b.0 || (a.0 == b.0 && (a.1 < b.1 || (a.1 == b.1 && a.2 < b.2)))
  }

  lemma StepKeepsInside(web: Web, s: State, step: Step, s': State)
    requires Closed(web) && Inside(web, s) && Next(web, s, step, s')
    ensures Inside(web, s')
  {
    if step.Expand? {
      forall t | t in s'.queue
        ensures web.norm(t.url) in web.universe
      {
        ChildrenAre(step.out, step.t.depth + 1, t);
      }
    }
  }

  lemma SumUpdate(m: map<Key, nat>, k: Key, d: nat)
    ensures k in m ==> Sum(m[k := d]) == Sum(m) - m[k] + d
  {
    if k in m {
      SumRemove(m, k);
      SumRemove(m[k := d], k);
      assert m[k := d] - {k} == m - {k};
    }
  }

  lemma UnvisitedAfter(universe: set<Key>, seen: set<Key>, k: Key)
    requires k in universe
    ensures k in seen ==> seen + {k} == seen
    ensures k !in seen ==> |universe - (seen + {k})| < |universe - seen|
  {
    if k !in seen {
      assert universe - (seen + {k}) == (universe - seen) - {k};
    }
  }

  lemma LabelLowersMeasure(universe: set<Key>, m: map<Key, nat>, k: Key, d: nat)
    requires k in universe && (k in m ==> d < m[k])
    ensures var m' := m[k := d];
      || |universe - m'.Keys| < |universe - m.Keys|
      || (universe - m'.Keys == universe - m.Keys && Sum(m') < Sum(m))
  {
    UnvisitedAfter(universe, m.Keys, k);
    assert m[k := d].Keys == m.Keys + {k};
    SumUpdate(m, k, d);
  }

  // Every step lowers the measure, in lexicographic order: no order of execution goes on for ever.
  lemma StepLowersMeasure(web: Web, s: State, step: Step, s': State)
    requires Inside(web, s) && Next(web, s, step, s')
    ensures Below(Measure(web, s'), Measure(web, s))
  {
    if step.Expand? {
      LabelLowersMeasure(web.universe, s.visited, web.norm(step.t.url), step.t.depth);
    }
  }

  // ---------- Labels ----------

  // There is a path of `n` links from a seed to `u`.
  ghost predicate Reaches(web: Web, u: Url, n: nat)
    decreases n
  {
    if n == 0 then u in web.seeds
    else exists v :: Reaches(web, v, n - 1) && u in web.links(web.norm(v))
  }

  // The label of a page is the least depth it was looked up with.
  ghost predicate Least(s: State) {
    && (forall k, d :: Lookup(k, d) in s.processed ==> k in s.visited && s.visited[k] <= d)
    && (forall k :: k in s.visited ==> Lookup(k, s.visited[k]) in s.processed)
  }

  // Depths are lengths of real paths.
  ghost predicate Real(web: Web, s: State) {
    && (forall t :: t in s.queue ==> Reaches(web, t.url, t.depth))
    && (forall k :: k in s.visited ==> IsLength(web, k, s.visited[k]))
  }

  ghost predicate IsLength(web: Web, k: Key, n: nat) {
    exists u :: web.norm(u) == k && Reaches(web, u, n)
  }

  // A task for `u` at depth `d` has been dealt with or will be.
  ghost predicate Settled(web: Web, s: State, u: Url, d: nat) {
    u in s.abandoned || Job(u, d) in s.queue || (web.norm(u) in s.visited && s.visited[web.norm(u)] <= d)
  }

  ghost predicate Relaxed(web: Web, s: State) {
    && s.expanded.Keys == s.visited.Keys
    && (forall k, u :: k in s.expanded && u in s.expanded[k] ==> Settled(web, s, u, s.visited[k] + 1))
    && (forall u :: u in web.seeds ==> Settled(web, s, u, 0))
  }

  ghost predicate Correct(web: Web, s: State) {
    Inside(web, s) && Least(s) && Real(web, s) && Relaxed(web, s)
  }

  lemma LabelsOnlyFall(web: Web, s: State, step: Step, s': State, k: Key)
    requires Next(web, s, step, s') && k in s.visited
    ensures k in s'.visited && s'.visited[k] <= s.visited[k]
  {
  }

  lemma StepKeepsLeast(web: Web, s: State, step: Step, s': State)
    requires Least(s) && Next(web, s, step, s')
    ensures Least(s')
  {
  }

  lemma ChildReaches(web: Web, u: Url, n: nat, v: Url)
    requires Reaches(web, v, n) && u in web.links(web.norm(v))
    ensures Reaches(web, u, n + 1)
  {
  }

  // A queued task was queued before, or is for a link just followed.
  lemma {:induction false} QueuedAfter(web: Web, s: State, step: Step, s': State, c: Job)
    requires Next(web, s, step, s') && c in s'.queue
    ensures c in s.queue || (
      step.Expand? && c.depth == step.t.depth + 1 && c.url in step.out && c.url in web.links(web.norm(step.t.url)))
  {
    if step.Expand? {
      ChildrenAre(step.out, step.t.depth + 1, c);
    }
  }

  lemma {:induction false} QueuedReaches(web: Web, s: State, step: Step, s': State, c: Job)
    requires Real(web, s) && Next(web, s, step, s') && c in s'.queue
    ensures Reaches(web, c.url, c.depth)
  {
    QueuedAfter(web, s, step, s', c);
    if c !in s.queue {
      assert Reaches(web, step.t.url, step.t.depth);
      ChildReaches(web, c.url, step.t.depth, step.t.url);
    }
  }

  lemma VisitedReaches(web: Web, s: State, step: Step, s': State, k: Key)
    requires Real(web, s) && Next(web, s, step, s') && k in s'.visited
    ensures IsLength(web, k, s'.visited[k])
  {
    if step.Expand? && k == web.norm(step.t.url) {
      assert Reaches(web, step.t.url, step.t.depth);
    } else {
      assert IsLength(web, k, s.visited[k]);
    }
  }

  lemma StepKeepsReal(web: Web, s: State, step: Step, s': State)
    requires Real(web, s) && Next(web, s, step, s')
    ensures Real(web, s')
  {
    forall c | c in s'.queue
      ensures Reaches(web, c.url, c.depth)
    {
      QueuedReaches(web, s, step, s', c);
    }
    forall k | k in s'.visited
      ensures IsLength(web, k, s'.visited[k])
    {
      VisitedReaches(web, s, step, s', k);
    }
  }

  lemma StepKeepsSettled(web: Web, s: State, step: Step, s': State, u: Url, d: nat)
    requires Settled(web, s, u, d) && Next(web, s, step, s')
    ensures Settled(web, s', u, d)
  {
    if step.Expand? && Job(u, d) in s.queue && step.t != Job(u, d) {
      assert Job(u, d) in s.queue - multiset{step.t};
    }
  }

  lemma ChildIsSettled(web: Web, s: State, step: Step, s': State, u: Url)
    requires Next(web, s, step, s') && step.Expand? && u in step.out
    ensures Settled(web, s', u, step.t.depth + 1)
  {
    ExpansionRequeues(s, step.t, web.norm(step.t.url), step.out, step.canceled);
  }

  // Another page keeps its label and its links.
  lemma OthersStay(web: Web, s: State, step: Step, s': State, k: Key)
    requires Next(web, s, step, s') && !(step.Expand? && k == web.norm(step.t.url))
    ensures k in s'.expanded <==> k in s.expanded
    ensures k in s.expanded ==> s'.expanded[k] == s.expanded[k]
    ensures k in s'.visited <==> k in s.visited
    ensures k in s.visited ==> s'.visited[k] == s.visited[k]
  {
  }

  lemma LinkStaysSettled(web: Web, s: State, step: Step, s': State, k: Key, u: Url)
    requires Relaxed(web, s) && Next(web, s, step, s') && k in s'.expanded && u in s'.expanded[k]
    ensures k in s'.visited && Settled(web, s', u, s'.visited[k] + 1)
  {
    if step.Expand? && k == web.norm(step.t.url) {
      ChildIsSettled(web, s, step, s', u);
    } else {
      OthersStay(web, s, step, s', k);
      assert k in s.expanded;
      StepKeepsSettled(web, s, step, s', u, s.visited[k] + 1);
    }
  }

  lemma StepKeepsRelaxed(web: Web, s: State, step: Step, s': State)
    requires Relaxed(web, s) && Next(web, s, step, s')
    ensures Relaxed(web, s')
  {
    forall k, u | k in s'.expanded && u in s'.expanded[k]
      ensures k in s'.visited && Settled(web, s', u, s'.visited[k] + 1)
    {
      LinkStaysSettled(web, s, step, s', k, u);
    }
    forall u | u in web.seeds
      ensures Settled(web, s', u, 0)
    {
      StepKeepsSettled(web, s, step, s', u, 0);
    }
  }

  lemma StepKeepsCorrect(web: Web, s: State, step: Step, s': State)
    requires Closed(web) && Correct(web, s) && Next(web, s, step, s')
    ensures Correct(web, s')
  {
    StepKeepsInside(web, s, step, s');
    StepKeepsLeast(web, s, step, s');
    StepKeepsReal(web, s, step, s');
    StepKeepsRelaxed(web, s, step, s');
  }

  lemma InitialIsCorrect(web: Web, s: State)
    requires Closed(web) && Initial(web, s)
    ensures Correct(web, s)
  {
  }

  // ---------- Whole walks ----------

  ghost predicate StepAt(web: Web, states: seq<State>, steps: seq<Step>, i: nat)
    requires i < |steps| && |states| == |steps| + 1
  {
    Next(web, states[i], steps[i], states[i + 1])
  }

  // Any order of execution.
  ghost predicate IsWalk(web: Web, states: seq<State>, steps: seq<Step>) {
    && |states| == |steps| + 1
    && Initial(web, states[0])
    && forall i: nat {:trigger StepAt(web, states, steps, i)} :: i < |steps| ==> StepAt(web, states, steps, i)
  }

  lemma ExtendWalk(web: Web, states: seq<State>, steps: seq<Step>, step: Step, s': State)
    requires IsWalk(web, states, steps) && Next(web, states[|steps|], step, s')
    ensures IsWalk(web, states + [s'], steps + [step])
  {
    forall i: nat | i < |steps| + 1
      ensures StepAt(web, states + [s'], steps + [step], i)
    {
      assert i < |steps| ==> StepAt(web, states, steps, i);
    }
  }

  lemma {:induction false} WalkIsCorrect(web: Web, states: seq<State>, steps: seq<Step>, n: nat)
    requires Closed(web) && IsWalk(web, states, steps) && n <= |steps|
    ensures Correct(web, states[n])
  {
    if n == 0 {
      InitialIsCorrect(web, states[0]);
    } else {
      WalkIsCorrect(web, states, steps, n - 1);
      assert StepAt(web, states, steps, n - 1);
      StepKeepsCorrect(web, states[n - 1], steps[n - 1], states[n]);
    }
  }

  // A page once visited stays so, and its label never rises.
  lemma {:induction false} LabelsFallAlong(web: Web, states: seq<State>, steps: seq<Step>, i: nat, j: nat, k: Key)
    requires IsWalk(web, states, steps) && i <= j <= |steps| && k in states[i].visited
    ensures k in states[j].visited && states[j].visited[k] <= states[i].visited[k]
    decreases j - i
  {
    if i < j {
      LabelsFallAlong(web, states, steps, i, j - 1, k);
      assert StepAt(web, states, steps, j - 1);
      LabelsOnlyFall(web, states[j - 1], steps[j - 1], states[j], k);
    }
  }

  // A page expanded once at some depth is never expanded again at that depth or below.  So the task of
  // a canceled expansion, which goes back to the queue, ends as seen when its turn comes again: the
  // links that were cut off are not followed on its account.
  lemma {:induction false} RetryIsSeen(web: Web, states: seq<State>, steps: seq<Step>, i: nat, j: nat)
    requires IsWalk(web, states, steps) && i < j < |steps| && steps[i].Expand?
    requires web.norm(steps[j].t.url) == web.norm(steps[i].t.url) && steps[j].t.depth >= steps[i].t.depth
    ensures !steps[j].Expand?
  {
    var next := i + 1;
    assert StepAt(web, states, steps, i) && StepAt(web, states, steps, j);
    LabelsFallAlong(web, states, steps, next, j, web.norm(steps[i].t.url));
  }

  // ---------- Distances ----------

  // Exactly the reachable pages are labelled, each with its distance from the seeds.
  ghost predicate AreDistances(web: Web, labels: map<Key, nat>) {
    && (forall k :: k in labels ==> IsLength(web, k, labels[k]))
    && (forall k, n :: IsLength(web, k, n) ==> k in labels && labels[k] <= n)
  }

  // Every link of a labelled page leads to a page labelled at most one higher.
  ghost predicate IsClosing(web: Web, labels: map<Key, nat>) {
    forall k, u :: k in labels && u in web.links(k) ==> web.norm(u) in labels && labels[web.norm(u)] <= labels[k] + 1
  }

  ghost predicate SeedsAreZero(web: Web, labels: map<Key, nat>) {
    forall u :: u in web.seeds ==> web.norm(u) in labels && labels[web.norm(u)] == 0
  }

  lemma {:induction false} NoPathIsShorter(web: Web, labels: map<Key, nat>, u: Url, n: nat)
    requires SeedsAreZero(web, labels) && IsClosing(web, labels) && Reaches(web, u, n)
    ensures web.norm(u) in labels && labels[web.norm(u)] <= n
    decreases n
  {
    if n > 0 {
      var v :| Reaches(web, v, n - 1) && u in web.links(web.norm(v));
      NoPathIsShorter(web, labels, v, n - 1);
    }
  }

  // Labels that are lengths of real paths are distances exactly if every link closes.
  lemma DistancesClose(web: Web, labels: map<Key, nat>)
    requires SeedsAreZero(web, labels) && forall k :: k in labels ==> IsLength(web, k, labels[k])
    ensures AreDistances(web, labels) <==> IsClosing(web, labels)
  {
    if IsClosing(web, labels) {
      forall k, n | IsLength(web, k, n)
        ensures k in labels && labels[k] <= n
      {
        var u :| web.norm(u) == k && Reaches(web, u, n);
        NoPathIsShorter(web, labels, u, n);
      }
    }
    if AreDistances(web, labels) {
      forall k, u | k in labels && u in web.links(k)
        ensures web.norm(u) in labels && labels[web.norm(u)] <= labels[k] + 1
      {
        var v :| web.norm(v) == k && Reaches(web, v, labels[k]);
        ChildReaches(web, u, labels[k], v);
        assert IsLength(web, web.norm(u), labels[k] + 1);
      }
    }
  }

  // ---------- Walks without faults ----------

  // What a page that is fetched at this depth offers: a link back to a page labelled lower is dropped.
  predicate Dropped(web: Web, labels: map<Key, nat>, depth: nat, u: Url) {
    web.norm(u) in labels && labels[web.norm(u)] < depth
  }

  ghost predicate Offers(web: Web, labels: map<Key, nat>, k: Key, depth: nat, offered: set<Url>) {
    forall u :: u in offered <==> u in web.links(k) && !Dropped(web, labels, depth, u)
  }

  // No task is given up or cut short.  A new page is expanded with what it offers then, and a page
  // reached again, on a shorter way, with the same links as the first time.
  ghost predicate Faultless(web: Web, s: State, step: Step) {
    match step
    case Abandon(_) => false
    case Seen(_) => true
    case Expand(t, out, canceled) =>
      var k := web.norm(t.url);
      && !canceled
      && (k in s.expanded ==> Urls(out) == s.expanded[k])
      && (k !in s.expanded ==> Offers(web, s.visited[k := t.depth], k, t.depth, Urls(out)))
  }

  ghost predicate FaultlessAt(web: Web, states: seq<State>, steps: seq<Step>, i: nat)
    requires i < |steps| && |states| == |steps| + 1
  {
    Faultless(web, states[i], steps[i])
  }

  ghost predicate IsFaultless(web: Web, states: seq<State>, steps: seq<Step>) {
    && IsWalk(web, states, steps)
    && forall i: nat {:trigger FaultlessAt(web, states, steps, i)} :: i < |steps| ==> FaultlessAt(web, states, steps, i)
  }

  lemma ExtendFaultless(web: Web, states: seq<State>, steps: seq<Step>, step: Step, s': State)
    requires IsFaultless(web, states, steps)
    requires Next(web, states[|steps|], step, s') && Faultless(web, states[|steps|], step)
    ensures IsFaultless(web, states + [s'], steps + [step])
  {
    ExtendWalk(web, states, steps, step, s');
    forall i: nat | i < |steps| + 1
      ensures FaultlessAt(web, states + [s'], steps + [step], i)
    {
      assert i < |steps| ==> FaultlessAt(web, states, steps, i);
    }
  }

  // What a page was expanded with stays, and nothing was given up.
  lemma {:induction false} ExpansionStays(web: Web, states: seq<State>, steps: seq<Step>, i: nat, j: nat, k: Key)
    requires IsFaultless(web, states, steps) && i <= j <= |steps|
    ensures k in states[i].expanded ==> k in states[j].expanded && states[j].expanded[k] == states[i].expanded[k]
    ensures states[j].abandoned == {}
    decreases j
  {
    if j > 0 {
      assert StepAt(web, states, steps, j - 1) && FaultlessAt(web, states, steps, j - 1);
      ExpansionStays(web, states, steps, if i < j then i else j - 1, j - 1, k);
    }
  }

  // The graph of the links that were followed.
  ghost function Shown(web: Web, end: State): Web {
    web.(links := k => if k in end.expanded then end.expanded[k] else {})
  }

  lemma {:induction false} ExpandedAreLinks(web: Web, states: seq<State>, steps: seq<Step>, j: nat)
    requires IsWalk(web, states, steps) && j <= |steps|
    ensures forall k :: k in states[j].expanded ==> states[j].expanded[k] <= web.links(k)
  {
    if j > 0 {
      assert StepAt(web, states, steps, j - 1);
      ExpandedAreLinks(web, states, steps, j - 1);
    }
  }

  // The walk is one of that graph.
  lemma {:induction false} ShownStep(web: Web, states: seq<State>, steps: seq<Step>, i: nat)
    requires IsFaultless(web, states, steps) && i < |steps|
    ensures Next(Shown(web, states[|steps|]), states[i], steps[i], states[i + 1])
  {
    var next := i + 1;
    assert StepAt(web, states, steps, i) && FaultlessAt(web, states, steps, i);
    ExpansionStays(web, states, steps, next, |steps|, web.norm(steps[i].t.url));
    if steps[i].Expand? {
      assert forall u :: u in steps[i].out ==> u in Urls(steps[i].out);
    }
  }

  lemma {:induction false} ShownWalk(web: Web, states: seq<State>, steps: seq<Step>)
    requires IsFaultless(web, states, steps)
    ensures IsWalk(Shown(web, states[|steps|]), states, steps)
  {
    var shown := Shown(web, states[|steps|]);
    forall i: nat | i < |steps|
      ensures StepAt(shown, states, steps, i)
    {
      ShownStep(web, states, steps, i);
    }
  }

  // At the end every link that was followed closes.
  lemma EndCloses(web: Web, end: State)
    requires Relaxed(web, end) && end.queue == multiset{} && end.abandoned == {}
    requires forall k :: k in end.expanded ==> end.expanded[k] == web.links(k)
    ensures SeedsAreZero(web, end.visited) && IsClosing(web, end.visited)
  {
    forall u | u in web.seeds
      ensures web.norm(u) in end.visited && end.visited[web.norm(u)] == 0
    {
      assert Settled(web, end, u, 0);
    }
    forall k, u | k in end.visited && u in web.links(k)
      ensures web.norm(u) in end.visited && end.visited[web.norm(u)] <= end.visited[k] + 1
    {
      assert Settled(web, end, u, end.visited[k] + 1);
    }
  }

  lemma ShownIsClosed(web: Web, end: State)
    requires Closed(web) && forall k :: k in end.expanded ==> end.expanded[k] <= web.links(k)
    ensures Closed(Shown(web, end))
  {
  }

  // Whatever the order, a faultless walk to the end labels pages with distances in the graph of the
  // links that were followed.
  lemma {:induction false} LabelsAreShownDistances(web: Web, states: seq<State>, steps: seq<Step>)
    requires Closed(web) && IsFaultless(web, states, steps) && states[|steps|].queue == multiset{}
    ensures var end := states[|steps|];
      && AreDistances(Shown(web, end), end.visited) && SeedsAreZero(web, end.visited)
      && forall k :: k in end.visited ==> IsLength(web, k, end.visited[k])
  {
    var end := states[|steps|];
    var shown := Shown(web, end);
    ExpandedAreLinks(web, states, steps, |steps|);
    ExpansionStays(web, states, steps, |steps|, |steps|, "");
    ShownIsClosed(web, end);
    ShownWalk(web, states, steps);
    WalkIsCorrect(shown, states, steps, |steps|);
    WalkIsCorrect(web, states, steps, |steps|);
    EndCloses(shown, end);
    DistancesClose(shown, end.visited);
  }

  // They are distances in the whole graph exactly if no link that was dropped would have helped: in
  // terms of the two graphs, each path has one no longer among the links followed; in terms of the
  // labels, each dropped link closes.
  lemma {:induction false} LabelsAreDistances(web: Web, states: seq<State>, steps: seq<Step>)
    requires Closed(web) && IsFaultless(web, states, steps) && states[|steps|].queue == multiset{}
    ensures var end := states[|steps|];
      && (AreDistances(web, end.visited) <==> NoShortcut(web, end))
      && (AreDistances(web, end.visited) <==> IsClosing(web, end.visited))
  {
    var end := states[|steps|];
    LabelsAreShownDistances(web, states, steps);
    DistancesClose(web, end.visited);
    NoShortcutMeansDistances(web, end);
  }

  ghost predicate NoShortcut(web: Web, end: State) {
    forall k, n :: IsLength(web, k, n) ==> exists m: nat :: m <= n && IsLength(Shown(web, end), k, m)
  }

  lemma NoShortcutMeansDistances(web: Web, end: State)
    requires AreDistances(Shown(web, end), end.visited)
    requires forall k :: k in end.visited ==> IsLength(web, k, end.visited[k])
    ensures AreDistances(web, end.visited) <==> NoShortcut(web, end)
  {
    if AreDistances(web, end.visited) {
      forall k, n | IsLength(web, k, n)
        ensures exists m: nat :: m <= n && IsLength(Shown(web, end), k, m)
      {
        assert end.visited[k] <= n && IsLength(Shown(web, end), k, end.visited[k]);
      }
    }
    if NoShortcut(web, end) {
      forall k, n | IsLength(web, k, n)
        ensures k in end.visited && end.visited[k] <= n
      {
        var m: nat :| m <= n && IsLength(Shown(web, end), k, m);
      }
    }
  }

  // ---------- Orders that give distances ----------

  // Every link of a labelled page is closed or will be.
  ghost predicate FullyRelaxed(web: Web, s: State) {
    forall k, u :: k in s.visited && u in web.links(k) ==> Settled(web, s, u, s.visited[k] + 1)
  }

  lemma FreshStepKeepsFullyRelaxed(web: Web, s: State, step: Step, s': State)
    requires FullyRelaxed(web, s) && Next(web, s, step, s') && Faultless(web, s, step)
    requires step.Expand? ==> web.norm(step.t.url) !in s.visited && web.norm(step.t.url) !in s.expanded
    ensures FullyRelaxed(web, s')
  {
    forall k, u | k in s'.visited && u in web.links(k)
      ensures Settled(web, s', u, s'.visited[k] + 1)
    {
      if step.Expand? && k == web.norm(step.t.url) {
        if !Dropped(web, s'.visited, step.t.depth, u) {
          assert u in Urls(step.out);
          ChildIsSettled(web, s, step, s', u);
        }
      } else {
        StepKeepsSettled(web, s, step, s', u, s.visited[k] + 1);
      }
    }
  }

  // No page is expanded twice.
  ghost predicate ExpandsOnce(web: Web, states: seq<State>, steps: seq<Step>) {
    forall i, j :: 0 <= i < j < |steps| && steps[i].Expand? && steps[j].Expand? ==>
      web.norm(steps[i].t.url) != web.norm(steps[j].t.url)
  }

  lemma {:induction false} VisitedWasExpanded(web: Web, states: seq<State>, steps: seq<Step>, j: nat, k: Key) returns (i: nat)
    requires IsWalk(web, states, steps) && j <= |steps| && k in states[j].visited
    ensures i < j && steps[i].Expand? && web.norm(steps[i].t.url) == k
  {
    var before := j - 1;
    if j == 0 {
      assert false;
    } else {
      assert StepAt(web, states, steps, before);
      if k in states[before].visited {
        i := VisitedWasExpanded(web, states, steps, before, k);
      } else {
        i := before;
      }
    }
  }

  lemma {:induction false} OnceKeepsFullyRelaxed(web: Web, states: seq<State>, steps: seq<Step>, j: nat)
    requires Closed(web) && IsFaultless(web, states, steps) && ExpandsOnce(web, states, steps) && j <= |steps|
    ensures FullyRelaxed(web, states[j])
  {
    if j > 0 {
      var i := j - 1;
      OnceKeepsFullyRelaxed(web, states, steps, i);
      WalkIsCorrect(web, states, steps, i);
      assert StepAt(web, states, steps, i) && FaultlessAt(web, states, steps, i);
      if steps[i].Expand? && web.norm(steps[i].t.url) in states[i].visited {
        var h := VisitedWasExpanded(web, states, steps, i, web.norm(steps[i].t.url));
      }
      FreshStepKeepsFullyRelaxed(web, states[i], steps[i], states[i + 1]);
      assert i + 1 == j;
    }
  }

  // If no page is expanded twice, then the links dropped do no harm.
  lemma {:induction false} OnceGivesDistances(web: Web, states: seq<State>, steps: seq<Step>)
    requires Closed(web) && IsFaultless(web, states, steps) && ExpandsOnce(web, states, steps)
    requires states[|steps|].queue == multiset{}
    ensures AreDistances(web, states[|steps|].visited)
  {
    var end := states[|steps|];
    LabelsAreDistances(web, states, steps);
    OnceKeepsFullyRelaxed(web, states, steps, |steps|);
    ExpansionStays(web, states, steps, |steps|, |steps|, "");
    forall k, u | k in end.visited && u in web.links(k)
      ensures web.norm(u) in end.visited && end.visited[web.norm(u)] <= end.visited[k] + 1
    {
      assert Settled(web, end, u, end.visited[k] + 1);
    }
  }

  // Each step takes a task of least depth.
  ghost predicate InDepthOrder(states: seq<State>, steps: seq<Step>)
    requires |states| == |steps| + 1
  {
    forall i, t :: 0 <= i < |steps| && t in states[i].queue ==> steps[i].t.depth <= t.depth
  }

  ghost predicate Layered(s: State) {
    forall k, t :: k in s.visited && t in s.queue ==> s.visited[k] <= t.depth
  }

  lemma {:induction false} OrderKeepsLayers(web: Web, states: seq<State>, steps: seq<Step>, j: nat)
    requires IsWalk(web, states, steps) && InDepthOrder(states, steps) && j <= |steps|
    ensures Layered(states[j])
  {
    if j > 0 {
      var i := j - 1;
      OrderKeepsLayers(web, states, steps, i);
      assert StepAt(web, states, steps, i);
      LayeredStep(web, states[i], steps[i], states[i + 1]);
      assert i + 1 == j;
    }
  }

  lemma {:induction false} LayeredStep(web: Web, s: State, step: Step, s': State)
    requires Next(web, s, step, s') && Layered(s) && forall t :: t in s.queue ==> step.t.depth <= t.depth
    ensures Layered(s')
  {
    forall k, t | k in s'.visited && t in s'.queue
      ensures s'.visited[k] <= t.depth
    {
      QueuedAfter(web, s, step, s', t);
      assert step.t.depth <= t.depth;
      assert k in s.visited ==> s.visited[k] <= step.t.depth;
      assert s'.visited[k] <= step.t.depth;
    }
  }

  lemma {:induction false} OrderExpandsOnce(web: Web, states: seq<State>, steps: seq<Step>, i: nat, j: nat)
    requires IsWalk(web, states, steps) && InDepthOrder(states, steps) && i < j < |steps|
    requires steps[i].Expand? && steps[j].Expand?
    ensures web.norm(steps[i].t.url) != web.norm(steps[j].t.url)
  {
    var k, next := web.norm(steps[i].t.url), i + 1;
    assert StepAt(web, states, steps, i) && StepAt(web, states, steps, j);
    LabelsFallAlong(web, states, steps, next, j, k);
    OrderKeepsLayers(web, states, steps, j);
  }

  // In order of depth no page is expanded twice, so then the labels are distances.
  lemma {:induction false} DepthOrderGivesDistances(web: Web, states: seq<State>, steps: seq<Step>)
    requires Closed(web) && IsFaultless(web, states, steps) && InDepthOrder(states, steps)
    requires states[|steps|].queue == multiset{}
    ensures AreDistances(web, states[|steps|].visited)
  {
    forall i, j | 0 <= i < j < |steps| && steps[i].Expand? && steps[j].Expand?
      ensures web.norm(steps[i].t.url) != web.norm(steps[j].t.url)
    {
      OrderExpandsOnce(web, states, steps, i, j);
    }
    OnceGivesDistances(web, states, steps);
  }

  // ---------- A walk whose labels are no distances ----------

  // Four pages, two of them seeds, and links s -> y -> q -> p -> q.
  datatype Four = Four(s: Url, y: Url, q: Url, p: Url)

  predicate AllDifferent(f: Four) {
    f.s != f.y && f.s != f.q && f.s != f.p && f.y != f.q && f.y != f.p && f.q != f.p
  }

  function LinksOf(f: Four, k: Key): set<Url> {
    if k == f.s then {f.y} else if k == f.y || k == f.p then {f.q} else if k == f.q then {f.p} else {}
  }

  function Example(f: Four): Web {
    Web(u => u, k => LinksOf(f, k), {f.s, f.y, f.q, f.p}, {f.s, f.p})
  }

  lemma ExampleIsClosed(f: Four)
    ensures Closed(Example(f))
  {
  }

  lemma {:induction false} ExampleIsShort(f: Four)
    requires AllDifferent(f)
    ensures IsLength(Example(f), f.q, 1)
  {
    assert Reaches(Example(f), f.p, 0) && f.q in LinksOf(f, f.p);
    ChildReaches(Example(f), f.q, 0, f.p);
  }

  lemma {:induction false} ChildrenOne(u: Url, depth: nat)
    ensures Children([u], depth) == multiset{Job(u, depth)}
  {
    assert [u][..0] == [];
  }

  // A page of the example is expanded.
  lemma {:induction false} ExampleStep(f: Four, s: State, t: Job, out: seq<Url>, rest: multiset<Job>)
    requires s.queue == rest + multiset{t}
    requires t.url in s.visited ==> t.depth < s.visited[t.url]
    requires forall u :: u in out ==> u in LinksOf(f, t.url)
    ensures var s' := AfterExpand(s, t, t.url, out, false);
      && Next(Example(f), s, Expand(t, out, false), s')
      && s'.queue == rest + Children(out, t.depth + 1)
  {
    var s' := AfterExpand(s, t, t.url, out, false);
    TakeOne(rest, t, Children(out, t.depth + 1));
  }

  lemma TakeOne(rest: multiset<Job>, t: Job, more: multiset<Job>)
    ensures rest + multiset{t} - multiset{t} + more + multiset{} == rest + more
  {
  }

  ghost predicate ExampleRun(f: Four, states: seq<State>, steps: seq<Step>,
                             visited: map<Key, nat>, expanded: map<Key, set<Url>>, queue: multiset<Job>) {
    IsFaultless(Example(f), states, steps) &&
    var end := states[|steps|];
    end.visited == visited && end.expanded == expanded && end.queue == queue
  }

  lemma ExampleMore(f: Four, states: seq<State>, steps: seq<Step>, visited: map<Key, nat>, expanded: map<Key, set<Url>>,
                    rest: multiset<Job>, t: Job, out: seq<Url>)
    returns (states': seq<State>, steps': seq<Step>)
    requires ExampleRun(f, states, steps, visited, expanded, rest + multiset{t})
    requires t.url in visited ==> t.depth < visited[t.url]
    requires forall u :: u in out ==> u in LinksOf(f, t.url)
    requires t.url in expanded ==> Urls(out) == expanded[t.url]
    requires t.url !in expanded ==> Offers(Example(f), visited[t.url := t.depth], t.url, t.depth, Urls(out))
    ensures ExampleRun(f, states', steps', visited[t.url := t.depth], expanded[t.url := Urls(out)],
                       rest + Children(out, t.depth + 1))
  {
    var s := states[|steps|];
    ExampleStep(f, s, t, out, rest);
    var s' := AfterExpand(s, t, t.url, out, false);
    ExtendFaultless(Example(f), states, steps, Expand(t, out, false), s');
    states', steps' := states + [s'], steps + [Expand(t, out, false)];
  }

  // A page whose one link is offered.
  lemma ExampleOne(f: Four, states: seq<State>, steps: seq<Step>, visited: map<Key, nat>, expanded: map<Key, set<Url>>,
                   rest: multiset<Job>, t: Job, u: Url)
    returns (states': seq<State>, steps': seq<Step>)
    requires ExampleRun(f, states, steps, visited, expanded, rest + multiset{t})
    requires t.url !in visited && t.url !in expanded && LinksOf(f, t.url) == {u} && u !in visited && u != t.url
    ensures ExampleRun(f, states', steps', visited[t.url := t.depth], expanded[t.url := {u}], rest + multiset{Job(u, t.depth + 1)})
  {
    assert Urls([u]) == {u};
    ChildrenOne(u, t.depth + 1);
    states', steps' := ExampleMore(f, states, steps, visited, expanded, rest, t, [u]);
  }

  // A page that comes away with no link.
  lemma ExampleNone(f: Four, states: seq<State>, steps: seq<Step>, visited: map<Key, nat>, expanded: map<Key, set<Url>>,
                    rest: multiset<Job>, t: Job, u: Url)
    returns (states': seq<State>, steps': seq<Step>)
    requires ExampleRun(f, states, steps, visited, expanded, rest + multiset{t})
    requires t.url in visited ==> t.depth < visited[t.url]
    requires if t.url in expanded then expanded[t.url] == {}
             else LinksOf(f, t.url) == {u} && u != t.url && u in visited && visited[u] < t.depth
    ensures ExampleRun(f, states', steps', visited[t.url := t.depth], expanded[t.url := {}], rest)
  {
    assert Urls([]) == {};
    assert rest + multiset{} == rest;
    states', steps' := ExampleMore(f, states, steps, visited, expanded, rest, t, []);
  }

  lemma ExampleStarts(f: Four) returns (states: seq<State>, steps: seq<Step>)
    requires AllDifferent(f)
    ensures ExampleRun(f, states, steps, map[f.s := 0, f.y := 1], map[f.s := {f.y}, f.y := {f.q}],
                       multiset{Job(f.p, 0)} + multiset{Job(f.q, 2)})
  {
    var rest := multiset{Job(f.p, 0)};
    states, steps := [State(map[], multiset{Job(f.s, 0), Job(f.p, 0)}, {}, map[], {})], [];
    assert states[0].queue == rest + multiset{Job(f.s, 0)};
    states, steps := ExampleOne(f, states, steps, map[], map[], rest, Job(f.s, 0), f.y);
    states, steps := ExampleOne(f, states, steps, map[f.s := 0], map[f.s := {f.y}], rest, Job(f.y, 1), f.q);
  }

  // Seed p is reached through q first, so its link back to q is dropped.
  lemma ExampleBegins(f: Four) returns (states: seq<State>, steps: seq<Step>)
    requires AllDifferent(f)
    ensures ExampleRun(f, states, steps, map[f.s := 0, f.y := 1, f.q := 2, f.p := 3],
                       map[f.s := {f.y}, f.y := {f.q}, f.q := {f.p}, f.p := {}], multiset{Job(f.p, 0)})
  {
    var rest := multiset{Job(f.p, 0)};
    var v, e := map[f.s := 0, f.y := 1], map[f.s := {f.y}, f.y := {f.q}];
    states, steps := ExampleStarts(f);
    states, steps := ExampleOne(f, states, steps, v, e, rest, Job(f.q, 2), f.p);
    states, steps := ExampleNone(f, states, steps, v[f.q := 2], e[f.q := {f.p}], rest, Job(f.p, 3), f.q);
  }

  // When p is expanded again, as the seed that it is, the link is gone, and q keeps the label 2 although
  // it is one link from a seed.
  lemma DroppedLinkIsMissed(f: Four) returns (states: seq<State>, steps: seq<Step>)
    requires AllDifferent(f)
    ensures Closed(Example(f)) && IsFaultless(Example(f), states, steps)
    ensures var end := states[|steps|];
      && end.queue == multiset{} && f.q in end.visited && end.visited[f.q] == 2
      && IsLength(Example(f), f.q, 1) && !AreDistances(Example(f), end.visited)
  {
    ExampleIsClosed(f);
    ExampleIsShort(f);
    states, steps := ExampleBegins(f);
    var v, e := map[f.s := 0, f.y := 1, f.q := 2, f.p := 3], map[f.s := {f.y}, f.y := {f.q}, f.q := {f.p}, f.p := {}];
    assert multiset{Job(f.p, 0)} == multiset{} + multiset{Job(f.p, 0)};
    states, steps := ExampleNone(f, states, steps, v, e, multiset{}, Job(f.p, 0), f.q);
  }
}
