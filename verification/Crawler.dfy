/** The crawler's work queue, src/crawler/mod.rs and src/crawler/resources.rs: fed by its own results, deduplicated,
    capped. */
module Crawler {
  import opened Wire

  const MAX_RESOURCES: nat := 1000

  /** A URL, by its path relative to the crawled base: None when it lies outside. */
  datatype Url = Url(id: nat, path: Option<string>)

  datatype Delay = CrawlDelay | PageDelay

  datatype Resource = Sitemap | Page | UnknownResource

  datatype Task = Task(url: Url, delay: Option<Delay>, resource: Resource)

  /** An entry of a sitemap; `inside` tells whether it lies under the sitemap's own URL. */
  datatype Entry = Entry(url: Url, inside: bool)

  /** A link found in a page; `asset` is its known or guessed resource type. */
  datatype Link = Link(url: Url, asset: bool)

  /** A sitemap document, with its lists in whatever order they are processed. */
  datatype SitemapDoc = Index(sitemaps: seq<Entry>) | UrlSet(pages: seq<Entry>)

  /** How the download of a response that is only to be thrown away goes. */
  datatype Download = Whole | TooBig | Interrupted

  /** What a response is to a page: HTML, read and searched for links or not read to its end; or something else, of a
      known content type or not. */
  datatype PageDoc = Html(links: seq<Link>) | UnreadHtml | Asset(typed: bool, download: Download)

  /** A response with status 200: as the sitemap parser takes it (None for an unexpected redirect, a broken or oversized
      download and an unparsable document), and as a page is. */
  datatype Response = Response(asSitemap: Option<SitemapDoc>, asPage: PageDoc)

  /** The world's part in one task: whether a new client could be built, its random capacity, and the response, unless
      the request failed or was answered with another status. */
  datatype Reply = Reply(clientOk: bool, randomCapacity: nat, response: Option<Response>)

  datatype LimitedClient = LimitedClient(capacity: Option<nat>, used: nat)

  // ---------------------------------------------------------------- the queue

  predicate UndelayedFirst(queue: seq<Task>) {
    forall i, j :: 0 <= i < j < |queue| && queue[j].delay.None? ==> queue[i].delay.None?
  }

  predicate DistinctPaths(queue: seq<Task>) {
    && (forall i :: 0 <= i < |queue| ==> queue[i].url.path.Some?)
    && (forall i, j :: 0 <= i < j < |queue| ==> queue[i].url.path != queue[j].url.path)
  }

  function PathOf(task: Task): set<string> {
    if task.url.path.Some? then {task.url.path.value} else {}
  }

  function Paths(queue: seq<Task>): set<string> {
    if queue == [] then {} else PathOf(queue[0]) + Paths(queue[1..])
  }

  lemma {:induction false} PathsOfAppend(a: seq<Task>, b: seq<Task>)
    ensures Paths(a + b) == Paths(a) + Paths(b)
  {
    if a == [] {
      assert a + b == b;
    } else {
      assert (a + b)[1..] == a[1..] + b;
      PathsOfAppend(a[1..], b);
    }
  }

  lemma {:induction false} PathQueued(queue: seq<Task>, p: string)
    ensures p in Paths(queue) <==> exists i :: 0 <= i < |queue| && queue[i].url.path == Some(p)
  {
    if queue == [] {
    } else {
      PathQueued(queue[1..], p);
      if p in Paths(queue[1..]) {
        var i :| 0 <= i < |queue[1..]| && queue[1..][i].url.path == Some(p);
        assert queue[i + 1].url.path == Some(p);
      }
      assert forall i :: 0 < i < |queue| ==> queue[i] == queue[1..][i - 1];
    }
  }

  /** A queue without duplicates has as many paths as tasks. */
  lemma {:induction false} CountPaths(queue: seq<Task>)
    requires DistinctPaths(queue)
    ensures |Paths(queue)| == |queue|
  {
    if queue == [] {
    } else {
      CountPaths(queue[1..]);
      PathQueued(queue[1..], queue[0].url.path.value);
    }
  }

  /** A queue in good order: undelayed tasks first, no path queued twice, and the dedup set is what was taken off the
      queue and what is on it. */
  ghost predicate Consistent(queue: seq<Task>, taken: set<string>, crawledResources: set<string>) {
    && UndelayedFirst(queue) && DistinctPaths(queue)
    && taken !! Paths(queue) && crawledResources == taken + Paths(queue)
  }

  /** Taking the first task moves its path from the queued ones to the taken ones. */
  lemma PopKeepsConsistent(queue: seq<Task>, taken: set<string>, crawledResources: set<string>)
    requires Consistent(queue, taken, crawledResources) && queue != []
    ensures queue[0].url.path.Some? && queue[0].url.path.value !in taken
    ensures Consistent(queue[1..], taken + {queue[0].url.path.value}, crawledResources)
  {
    PathQueued(queue[1..], queue[0].url.path.value);
  }

  function Insert(queue: seq<Task>, task: Task): seq<Task> {
    if task.delay.None? then [task] + queue else queue + [task]
  }

  lemma InsertKeepsConsistent(queue: seq<Task>, taken: set<string>, crawledResources: set<string>, task: Task)
    requires Consistent(queue, taken, crawledResources)
    requires task.url.path.Some? && task.url.path.value !in crawledResources
    ensures Consistent(Insert(queue, task), taken, crawledResources + {task.url.path.value})
  {
    PathQueued(queue, task.url.path.value);
    assert Paths([task]) == {task.url.path.value};
    PathsOfAppend([task], queue);
    PathsOfAppend(queue, [task]);
  }

  // ---------------------------------------------------------------- what a result adds

  /** The part of the crawler that results change. */
  datatype Work = Work(queue: seq<Task>, crawledResources: set<string>, errors: nat)

  /** A URL inside the base is queued once, unless the cap is reached. */
  function Added(work: Work, task: Task): Work {
    if task.url.path.None? || task.url.path.value in work.crawledResources then work
    else if |work.crawledResources| >= MAX_RESOURCES then work.(errors := work.errors + 1)
    else Work(Insert(work.queue, task), work.crawledResources + {task.url.path.value}, work.errors)
  }

  /** One step of processing a list: a task to add, or an error to count. */
  datatype Finding = Add(task: Task) | Bad

  function Take(work: Work, finding: Finding): Work {
    match finding
    case Add(task) => Added(work, task)
    case Bad => work.(errors := work.errors + 1)
  }

  function TakeAll(work: Work, findings: seq<Finding>): Work {
    if findings == [] then work
    else Take(TakeAll(work, findings[..|findings| - 1]), findings[|findings| - 1])
  }

  lemma TakeNext(work: Work, findings: seq<Finding>, i: nat)
    requires i < |findings|
    ensures TakeAll(work, findings[..i + 1]) == Take(TakeAll(work, findings[..i]), findings[i])
  {
    assert findings[..i + 1][..i] == findings[..i];
  }

  function EntryFinding(entry: Entry, delay: Option<Delay>, resource: Resource): Finding {
    if entry.inside then Add(Task(entry.url, delay, resource)) else Bad
  }

  function LinkFinding(link: Link): Finding {
    Add(Task(link.url, if link.asset then None else Some(PageDelay), UnknownResource))
  }

  function Entries(entries: seq<Entry>, delay: Option<Delay>, resource: Resource): seq<Finding> {
    seq(|entries|, i requires 0 <= i < |entries| => EntryFinding(entries[i], delay, resource))
  }

  /** A page's complaint about its content type, or an unknown resource's about a missing one; then one about the
      size. */
  function AssetFindings(resource: Resource, typed: bool, download: Download): seq<Finding> {
    (if resource.Page? || !typed then [Bad] else []) + (if download.TooBig? then [Bad] else [])
  }

  /** What a response is worth: sitemaps lead to sitemaps and pages, pages to anything, assets to nothing. */
  function Findings(resource: Resource, response: Response): seq<Finding> {
    if resource.Sitemap? then
      match response.asSitemap
      case Some(Index(sitemaps)) => Entries(sitemaps, None, Sitemap)
      case Some(UrlSet(pages)) => Entries(pages, Some(PageDelay), Page)
      case None => []
    else
      match response.asPage
      case Html(links) => seq(|links|, i requires 0 <= i < |links| => LinkFinding(links[i]))
      case UnreadHtml => []
      case Asset(typed, download) => AssetFindings(resource, typed, download)
  }

  /** The task fails in the end, which the crawling loop counts as one more error. */
  predicate Fails(resource: Resource, response: Response) {
    if resource.Sitemap? then response.asSitemap.None?
    else response.asPage.UnreadHtml? || (response.asPage.Asset? && response.asPage.download.Interrupted?)
  }

  /** The work after a task, given whether there was a client for its request. */
  function Processed(work: Work, resource: Resource, response: Option<Response>, hadClient: bool): Work {
    if !hadClient || response.None? then Take(work, Bad)
    else
      var after := TakeAll(work, Findings(resource, response.value));
      if Fails(resource, response.value) then Take(after, Bad) else after
  }

  lemma {:induction false} OnlyGrows(work: Work, findings: seq<Finding>)
    ensures work.crawledResources <= TakeAll(work, findings).crawledResources
    ensures work.errors <= TakeAll(work, findings).errors
  {
    if findings == [] {
    } else {
      OnlyGrows(work, findings[..|findings| - 1]);
    }
  }

  /** Nothing is dropped silently: every finding inside the base is crawled or queued afterwards, unless the cap was
      hit. */
  lemma {:induction false} NothingSkipped(work: Work, findings: seq<Finding>, i: nat)
    requires i < |findings| && findings[i].Add? && findings[i].task.url.path.Some?
    ensures var after := TakeAll(work, findings);
      findings[i].task.url.path.value in after.crawledResources || |after.crawledResources| >= MAX_RESOURCES
    ensures work.crawledResources <= TakeAll(work, findings).crawledResources
  {
    var n := |findings| - 1;
    var before := TakeAll(work, findings[..n]);
    OnlyGrows(work, findings);
    if i < n {
      NothingSkipped(work, findings[..n], i);
    }
  }

  /** Complaints count as errors and change nothing else. */
  lemma {:induction false} AllBad(work: Work, findings: seq<Finding>)
    requires forall i :: 0 <= i < |findings| ==> findings[i].Bad?
    ensures TakeAll(work, findings) == work.(errors := work.errors + |findings|)
  {
    if findings == [] {
    } else {
      AllBad(work, findings[..|findings| - 1]);
    }
  }

  predicate NoDuplicates<T(==)>(s: seq<T>) {
    forall i, j :: 0 <= i < j < |s| ==> s[i] != s[j]
  }

  /** A list of distinct paths, those of the set. */
  ghost predicate Lists(crawled: seq<string>, taken: set<string>) {
    |crawled| == |taken| && NoDuplicates(crawled) && forall p :: p in taken <==> p in crawled
  }

  lemma ListGrows(crawled: seq<string>, taken: set<string>, path: string)
    requires Lists(crawled, taken) && path !in taken
    ensures Lists(crawled + [path], taken + {path})
  {
  }

  class Crawler {
    const sitemap: Url
    const maxClientCapacity: Option<nat>

    var queue: seq<Task>
    var crawledResources: set<string>
    var client: Option<LimitedClient>
    var newConnections: nat
    var activeConnections: int
    var errors: nat

    /** The delayed requests the current client has been used for. */
    ghost var served: nat
    /** The paths of the tasks already taken off the queue in this iteration. */
    ghost var taken: set<string>

    ghost predicate QueueOk()
      reads this
    {
      Consistent(queue, taken, crawledResources) && |crawledResources| <= MAX_RESOURCES
    }

    ghost predicate ClientOk()
      reads this
    {
      && (maxClientCapacity.Some? ==> 1 <= maxClientCapacity.value)
      && activeConnections == (if client.Some? then 1 else 0)
      && (client.Some? && client.value.capacity.Some? ==> served == client.value.used <= client.value.capacity.value)
      && (client.Some? ==> client.value.capacity.Some? == maxClientCapacity.Some?)
    }

    ghost predicate Valid()
      reads this
    {
      sitemap.path.Some? && QueueOk() && ClientOk()
    }

    constructor (sitemap: Url, maxClientCapacity: Option<nat>)
      requires sitemap.path.Some? && (maxClientCapacity.Some? ==> 1 <= maxClientCapacity.value)
      ensures Valid() && queue == [] && crawledResources == {} && taken == {} && this.sitemap == sitemap
    {
      this.sitemap := sitemap;
      this.maxClientCapacity := maxClientCapacity;
      queue, crawledResources, client := [], {}, None;
      newConnections, activeConnections, errors := 0, 0, 0;
      served, taken := 0, {};
    }

    /** Processed and queued tasks together are as many as the dedup set has members. */
    lemma TakenPlusQueued()
      requires QueueOk()
      ensures |taken| + |queue| == |crawledResources|
    {
      CountPaths(queue);
    }

    function Now(): Work
      reads this
    {
      Work(queue, crawledResources, errors)
    }

    /** Queues a URL once: assets and inner sitemaps before everything else, pages last, and never beyond the cap. */
    method Add(url: Url, delay: Option<Delay>, resource: Resource)
      requires QueueOk()
      modifies this`queue, this`crawledResources, this`errors
      ensures QueueOk() && Now() == Added(old(Now()), Task(url, delay, resource))
      ensures var task := Task(url, delay, resource);
        queue ==
        if url.path.None? || url.path.value in old(crawledResources) || 1000 <= |old(crawledResources)| then old(queue)
        else if delay.None? then [task] + old(queue) else old(queue) + [task]
    {
      if url.path.None? {
        return;
      }
      var path := url.path.value;
      if path in crawledResources {
        return;
      }
      crawledResources := crawledResources + {path};
      if |crawledResources| > MAX_RESOURCES {
        crawledResources := crawledResources - {path};
        errors := errors + 1;
        assert crawledResources == old(crawledResources);
        return;
      }
      var task := Task(url, delay, resource);
      ghost var before := queue;
      if delay.None? {
        queue := [task] + queue;
      } else {
        queue := queue + [task];
      }
      InsertKeepsConsistent(before, taken, old(crawledResources), task);
      assert queue == Insert(before, task);
    }

    predicate HasRoom(cost: nat)
      reads this
    {
      client.Some? && (client.value.capacity.None? || client.value.used + cost <= client.value.capacity.value)
    }

    /** A client with room for the request: the current one, or a new one if that is used up. A client is used for at
        most its capacity of delayed requests, and undelayed ones never replace it. */
    method Client(cost: nat, reply: Reply) returns (ok: bool)
      requires ClientOk() && cost <= 1
      requires maxClientCapacity.Some? ==> 1 <= reply.randomCapacity <= maxClientCapacity.value
      modifies this`client, this`newConnections, this`activeConnections, this`served
      ensures ClientOk() && (ok <==> client.Some?)
      ensures !ok ==> !reply.clientOk
      ensures ok ==> served == (if newConnections == old(newConnections) then old(served) + cost else cost)
      ensures newConnections == old(newConnections) + (if ok && !old(HasRoom(cost)) then 1 else 0)
      ensures !ok ==> !old(HasRoom(cost))
      ensures ok && !old(HasRoom(cost)) ==>
                client.value.capacity == if maxClientCapacity.Some? then Some(reply.randomCapacity) else None
      ensures ok && old(HasRoom(cost)) ==> client.value.capacity == old(client).value.capacity
    {
      if client.Some? {
        if client.value.capacity.None? {
          served := served + cost;
          return true;
        }
        client := Some(client.value.(used := client.value.used + cost));
        if client.value.used <= client.value.capacity.value {
          served := served + cost;
          return true;
        }
        activeConnections := activeConnections - 1;
        client := None;
      }
      if !reply.clientOk {
        return false;
      }
      client := Some(LimitedClient(if maxClientCapacity.Some? then Some(reply.randomCapacity) else None, cost));
      newConnections := newConnections + 1;
      activeConnections := activeConnections + 1;
      served := cost;
      return true;
    }

    method AddEntries(entries: seq<Entry>, delay: Option<Delay>, resource: Resource, ghost findings: seq<Finding>)
      requires QueueOk()
      requires |findings| == |entries|
      requires forall i :: 0 <= i < |entries| ==> findings[i] == EntryFinding(entries[i], delay, resource)
      modifies this`queue, this`crawledResources, this`errors
      ensures QueueOk() && Now() == TakeAll(old(Now()), findings)
    {
      for i := 0 to |entries|
        invariant QueueOk() && Now() == TakeAll(old(Now()), findings[..i])
      {
        TakeNext(old(Now()), findings, i);
        if entries[i].inside {
          Add(entries[i].url, delay, resource);
        } else {
          errors := errors + 1;
        }
      }
      assert findings[..|entries|] == findings;
    }

    method AddLinks(links: seq<Link>, ghost findings: seq<Finding>)
      requires QueueOk()
      requires |findings| == |links|
      requires forall i :: 0 <= i < |links| ==> findings[i] == LinkFinding(links[i])
      modifies this`queue, this`crawledResources, this`errors
      ensures QueueOk() && Now() == TakeAll(old(Now()), findings)
    {
      for i := 0 to |links|
        invariant QueueOk() && Now() == TakeAll(old(Now()), findings[..i])
      {
        TakeNext(old(Now()), findings, i);
        Add(links[i].url, if links[i].asset then None else Some(PageDelay), UnknownResource);
      }
      assert findings[..|links|] == findings;
    }

    /** Counts the complaints about a response that is no HTML. */
    method ProcessAsset(resource: Resource, typed: bool, download: Download) returns (ok: bool)
      requires QueueOk() && !resource.Sitemap?
      modifies this`errors
      ensures QueueOk() && (ok <==> !download.Interrupted?)
      ensures Now() == TakeAll(old(Now()), AssetFindings(resource, typed, download))
    {
      ghost var before := Now();
      if resource.Page? || !typed {
        errors := errors + 1;
      }
      if download.TooBig? {
        errors := errors + 1;
      }
      AllBad(before, AssetFindings(resource, typed, download));
      ok := !download.Interrupted?;
    }

    /** The response to a task's request, processed as what the task takes it for. */
    method ProcessResponse(resource: Resource, response: Response) returns (ok: bool)
      requires QueueOk()
      modifies this`queue, this`crawledResources, this`errors
      ensures QueueOk() && (ok <==> !Fails(resource, response))
      ensures Now() == TakeAll(old(Now()), Findings(resource, response))
    {
      ghost var findings := Findings(resource, response);
      if resource.Sitemap? {
        match response.asSitemap {
          case Some(Index(sitemaps)) => AddEntries(sitemaps, None, Sitemap, findings);
          case Some(UrlSet(pages)) => AddEntries(pages, Some(PageDelay), Page, findings);
          case None => return false;
        }
      } else {
        match response.asPage {
          case Html(links) => AddLinks(links, findings);
          case UnreadHtml => return false;
          case Asset(typed, download) =>
            ok := ProcessAsset(resource, typed, download);
            return;
        }
      }
      ok := true;
    }

    /** One task: the request, and whatever its result adds; an error in the end is counted by the loop. */
    method Process(task: Task, reply: Reply) returns (ok: bool)
      requires Valid()
      requires maxClientCapacity.Some? ==> 1 <= reply.randomCapacity <= maxClientCapacity.value
      modifies this`queue, this`crawledResources, this`errors,
        this`client, this`newConnections, this`activeConnections, this`served
      ensures Valid()
      ensures task.url.path.None? ==> !ok && Now() == old(Now())
      ensures task.url.path.Some? ==>
        && (client.None? ==> !reply.clientOk)
        && Processed(old(Now()), task.resource, reply.response, client.Some?) == if ok then Now() else Take(Now(), Bad)
    {
      if task.url.path.None? {
        return false;
      }
      var hasClient := Client(if task.delay.Some? then 1 else 0, reply);
      if !hasClient {
        return false;
      }
      match reply.response
      case None =>
        ok := false;
      case Some(response) =>
        ok := ProcessResponse(task.resource, response);
    }

    /** A new iteration: everything forgotten but the sitemap, which is all there is to do. */
    method StartIteration()
      requires Valid() && queue == []
      modifies this
      ensures Valid() && taken == {} && queue == [Task(sitemap, Some(CrawlDelay), Sitemap)] && client.None?
    {
      crawledResources := {};
      taken := {};
      if client.Some? {
        client := None;
        activeConnections := activeConnections - 1;
      }
      crawledResources := crawledResources + {sitemap.path.value};
      queue := [Task(sitemap, Some(CrawlDelay), Sitemap)];
      assert Paths(queue) == {sitemap.path.value};
    }

    method PopFront() returns (task: Task)
      requires Valid() && queue != []
      modifies this`queue, this`taken
      ensures Valid() && task == old(queue)[0] && queue == old(queue)[1..]
      ensures task.url.path.Some? && task.url.path.value !in old(taken) && taken == old(taken) + {task.url.path.value}
    {
      task := queue[0];
      PopKeepsConsistent(queue, taken, crawledResources);
      queue := queue[1..];
      taken := taken + {task.url.path.value};
    }

    /** Before a delayed task a client that is used up is closed, so that there are times without a connection. */
    method CloseUsedUp(task: Task)
      requires Valid()
      modifies this`client, this`activeConnections
      ensures Valid()
      ensures client == if task.delay.Some? && old(client).Some? && old(!HasRoom(1)) then None else old(client)
    {
      if task.delay.Some? && client.Some? && client.value.capacity.Some?
        && client.value.used >= client.value.capacity.value {
        activeConnections := activeConnections - 1;
        client := None;
      }
    }

    method CountFailure(ok: bool)
      requires Valid()
      modifies this`errors
      ensures Valid() && Now() == if ok then old(Now()) else Take(old(Now()), Bad)
    {
      if !ok {
        errors := errors + 1;
      }
    }

    /** The first task, with a client that is fit for it or none. */
    method NextTask() returns (task: Task)
      requires Valid() && queue != []
      modifies this`queue, this`taken, this`client, this`activeConnections
      ensures Valid() && task == old(queue)[0] && Now() == old(Now()).(queue := old(queue)[1..])
      ensures task.url.path.Some? && task.url.path.value !in old(taken) && taken == old(taken) + {task.url.path.value}
      ensures |old(taken)| < MAX_RESOURCES
    {
      TakenPlusQueued();
      task := PopFront();
      CloseUsedUp(task);
    }

    method FetchAndCount(task: Task, reply: Reply)
      requires Valid() && task.url.path.Some?
      requires maxClientCapacity.Some? ==> 1 <= reply.randomCapacity <= maxClientCapacity.value
      modifies this`queue, this`crawledResources, this`errors,
        this`client, this`newConnections, this`activeConnections, this`served
      ensures Valid() && (client.None? ==> !reply.clientOk)
      ensures Now() == Processed(old(Now()), task.resource, reply.response, client.Some?)
    {
      var ok := Process(task, reply);
      CountFailure(ok);
    }

    /** One round of the crawling loop: a path that has not been crawled in this iteration is. */
    method CrawlNext(reply: Reply) returns (path: string)
      requires Valid() && queue != []
      requires maxClientCapacity.Some? ==> 1 <= reply.randomCapacity <= maxClientCapacity.value
      modifies this
      ensures Valid() && Some(path) == old(queue)[0].url.path
      ensures path !in old(taken) && taken == old(taken) + {path}
      ensures |old(taken)| < MAX_RESOURCES
      ensures client.None? ==> !reply.clientOk
      ensures Now()
        == Processed(old(Now()).(queue := old(queue)[1..]), old(queue)[0].resource, reply.response, client.Some?)
    {
      var task := NextTask();
      FetchAndCount(task, reply);
      path := task.url.path.value;
    }

    /** A whole crawling iteration, whatever pages and sitemaps the world returns: it ends, it crawls at most a thousand
        resources, none of them twice and all of them under the base, the sitemap first. */
    method RunIteration(replies: nat -> Reply) returns (crawled: seq<string>)
      requires Valid() && queue == []
      requires forall k :: maxClientCapacity.Some? ==> 1 <= replies(k).randomCapacity <= maxClientCapacity.value
      modifies this
      ensures Valid() && queue == []
      ensures 1 <= |crawled| <= 1000 && crawled[0] == sitemap.path.value
      ensures NoDuplicates(crawled) && Lists(crawled, crawledResources)
    {
      StartIteration();
      crawled := [];
      while queue != []
        invariant Valid()
        invariant Lists(crawled, taken) && |taken| <= MAX_RESOURCES
        invariant if crawled == [] then queue == [Task(sitemap, Some(CrawlDelay), Sitemap)]
                  else crawled[0] == sitemap.path.value
        decreases MAX_RESOURCES - |taken|
      {
        ghost var before := taken;
        var path := CrawlNext(replies(|crawled|));
        ListGrows(crawled, before, path);
        crawled := crawled + [path];
      }
    }
  }
}
