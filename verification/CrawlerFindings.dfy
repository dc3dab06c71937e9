/** What the documents that the crawler fetches lead to: which URLs are queued, as what, with what delay and in which
    order, and which complaints are counted. */
module CrawlerFindings {
  import opened Wire
  import opened Crawler

  // ---------------------------------------------------------------- the order of the queue

  /** The task is queued when it is found. */
  predicate IsNew(work: Work, task: Task) {
    task.url.path.Some? && task.url.path.value !in work.crawledResources && |work.crawledResources| < 1000
  }

  /** The tasks that a list of findings adds, in the order of the list. */
  function NewTasks(work: Work, findings: seq<Finding>): seq<Task> {
    if findings == [] then []
    else
      var n := |findings| - 1;
      var before, last := TakeAll(work, findings[..n]), findings[n];
      NewTasks(work, findings[..n]) + if last.Add? && IsNew(before, last.task) then [last.task] else []
  }

  /** The undelayed ones, the last one first. */
  function Stacked(tasks: seq<Task>): seq<Task> {
    if tasks == [] then []
    else (if tasks[|tasks| - 1].delay.None? then [tasks[|tasks| - 1]] else []) + Stacked(tasks[..|tasks| - 1])
  }

  /** The delayed ones, in order. */
  function Lined(tasks: seq<Task>): seq<Task> {
    if tasks == [] then []
    else Lined(tasks[..|tasks| - 1]) + if tasks[|tasks| - 1].delay.Some? then [tasks[|tasks| - 1]] else []
  }

  lemma OneMore(tasks: seq<Task>, task: Task)
    ensures Stacked(tasks + [task]) == (if task.delay.None? then [task] else []) + Stacked(tasks)
    ensures Lined(tasks + [task]) == Lined(tasks) + if task.delay.Some? then [task] else []
  {
    assert (tasks + [task])[..|tasks|] == tasks;
  }

  lemma ConcatEnds<T>(a: seq<T>, b: seq<T>, c: seq<T>, x: T)
    ensures [x] + (a + b + c) == [x] + a + b + c
    ensures a + b + c + [x] == a + b + (c + [x])
  {
  }

  lemma InsertOrder(tasks: seq<Task>, queue: seq<Task>, task: Task)
    ensures Insert(Stacked(tasks) + queue + Lined(tasks), task)
            == Stacked(tasks + [task]) + queue + Lined(tasks + [task])
  {
    var stacked, lined := Stacked(tasks), Lined(tasks);
    OneMore(tasks, task);
    ConcatEnds(stacked, queue, lined, task);
    assert [] + stacked == stacked && lined + [] == lined;
  }

  lemma NewIsInserted(work: Work, finding: Finding)
    ensures Take(work, finding).queue ==
            if finding.Add? && IsNew(work, finding.task) then Insert(work.queue, finding.task) else work.queue
  {
  }

  /** Assets and inner sitemaps are crawled before everything queued earlier, the last one found first; pages after it,
      in the order in which they were found. */
  lemma {:induction false} QueueOrder(work: Work, findings: seq<Finding>)
    ensures var tasks := NewTasks(work, findings);
      TakeAll(work, findings).queue == Stacked(tasks) + work.queue + Lined(tasks)
  {
    if findings == [] {
      assert Stacked([]) + work.queue + Lined([]) == work.queue;
    } else {
      var n := |findings| - 1;
      QueueOrder(work, findings[..n]);
      NewIsInserted(TakeAll(work, findings[..n]), findings[n]);
      if findings[n].Add? {
        InsertOrder(NewTasks(work, findings[..n]), work.queue, findings[n].task);
      }
      assert NewTasks(work, findings[..n]) + [] == NewTasks(work, findings[..n]);
    }
  }

  // ---------------------------------------------------------------- what is queued

  lemma InsertKeeps(queue: seq<Task>, task: Task, other: Task)
    ensures other in Insert(queue, task) <==> other in queue || other == task
  {
  }

  /** What is queued was queued before or has been found. */
  lemma {:induction false} OnlyFindingsAreQueued(work: Work, findings: seq<Finding>, task: Task)
    requires task in TakeAll(work, findings).queue
    ensures task in work.queue || Add(task) in findings
  {
    if findings == [] {
    } else {
      var n := |findings| - 1;
      var before := TakeAll(work, findings[..n]);
      if findings[n].Add? {
        InsertKeeps(before.queue, findings[n].task, task);
      }
      if task in before.queue {
        OnlyFindingsAreQueued(work, findings[..n], task);
      }
    }
  }

  /** A finding with that path is on the queue. */
  ghost predicate IsQueued(findings: seq<Finding>, after: Work, path: string) {
    exists j :: 0 <= j < |findings| && findings[j].Add? && findings[j].task.url.path == Some(path)
                && findings[j].task in after.queue
  }

  /** Every path that is found and was not known is queued as one of the findings that name it, unless the cap is
      reached. */
  lemma {:induction false} FoundIsQueued(work: Work, findings: seq<Finding>, path: string)
    requires path !in work.crawledResources
    ensures path in TakeAll(work, findings).crawledResources ==> IsQueued(findings, TakeAll(work, findings), path)
  {
    if findings == [] {
    } else {
      var n := |findings| - 1;
      var before, after := TakeAll(work, findings[..n]), TakeAll(work, findings);
      FoundIsQueued(work, findings[..n], path);
      if path in before.crawledResources {
        var j :| 0 <= j < n && findings[..n][j].Add? && findings[j].task.url.path == Some(path)
                 && findings[j].task in before.queue;
        if findings[n].Add? {
          InsertKeeps(before.queue, findings[n].task, findings[j].task);
        }
        assert findings[j].task in after.queue;
      } else if path in after.crawledResources {
        InsertKeeps(before.queue, findings[n].task, findings[n].task);
        assert findings[n].task in after.queue;
      }
    }
  }

  lemma FindingIsQueued(work: Work, findings: seq<Finding>, i: nat, path: string)
    requires i < |findings| && findings[i].Add? && findings[i].task.url.path == Some(path)
    requires path !in work.crawledResources
    ensures var after := TakeAll(work, findings);
      |after.crawledResources| >= 1000 || IsQueued(findings, after, path)
  {
    NothingSkipped(work, findings, i);
    FoundIsQueued(work, findings, path);
  }

  /** Every page under the base that a sitemap names and that is not known yet is queued as a page, after a delay. */
  lemma PagesAreQueued(work: Work, pages: seq<Entry>, asPage: PageDoc, k: nat, path: string)
    requires k < |pages| && pages[k].inside && pages[k].url.path == Some(path) && path !in work.crawledResources
    ensures var after := TakeAll(work, Findings(Sitemap, Response(Some(UrlSet(pages)), asPage)));
      || |after.crawledResources| >= 1000
      || exists j :: 0 <= j < |pages| && pages[j].url.path == Some(path)
                     && Task(pages[j].url, Some(PageDelay), Page) in after.queue
  {
    var findings := Findings(Sitemap, Response(Some(UrlSet(pages)), asPage));
    var after := TakeAll(work, findings);
    FindingIsQueued(work, findings, k, path);
    if |after.crawledResources| < 1000 {
      var j :| 0 <= j < |findings| && findings[j].Add? && findings[j].task.url.path == Some(path)
               && findings[j].task in after.queue;
      assert findings[j].task == Task(pages[j].url, Some(PageDelay), Page);
    }
  }

  /** Every inner sitemap is queued as a sitemap, without a delay. */
  lemma SitemapsAreQueued(work: Work, sitemaps: seq<Entry>, asPage: PageDoc, k: nat, path: string)
    requires k < |sitemaps| && sitemaps[k].inside && sitemaps[k].url.path == Some(path)
    requires path !in work.crawledResources
    ensures var after := TakeAll(work, Findings(Sitemap, Response(Some(Index(sitemaps)), asPage)));
      || |after.crawledResources| >= 1000
      || exists j :: 0 <= j < |sitemaps| && sitemaps[j].url.path == Some(path)
                     && Task(sitemaps[j].url, None, Sitemap) in after.queue
  {
    var findings := Findings(Sitemap, Response(Some(Index(sitemaps)), asPage));
    var after := TakeAll(work, findings);
    FindingIsQueued(work, findings, k, path);
    if |after.crawledResources| < 1000 {
      var j :| 0 <= j < |findings| && findings[j].Add? && findings[j].task.url.path == Some(path)
               && findings[j].task in after.queue;
      assert findings[j].task == Task(sitemaps[j].url, None, Sitemap);
    }
  }

  /** Every link of a page is queued, without a delay if it is taken for an asset and after one if for a page, and what
      it is turns out when it is fetched. */
  lemma LinksAreQueued(
    work: Work, resource: Resource, links: seq<Link>, asSitemap: Option<SitemapDoc>, k: nat, path: string)
    requires !resource.Sitemap?
    requires k < |links| && links[k].url.path == Some(path) && path !in work.crawledResources
    ensures var after := TakeAll(work, Findings(resource, Response(asSitemap, Html(links))));
      || |after.crawledResources| >= 1000
      || exists j :: 0 <= j < |links| && links[j].url.path == Some(path)
                     && Task(links[j].url, if links[j].asset then None else Some(PageDelay), UnknownResource)
                        in after.queue
  {
    var findings := Findings(resource, Response(asSitemap, Html(links)));
    var after := TakeAll(work, findings);
    FindingIsQueued(work, findings, k, path);
    if |after.crawledResources| < 1000 {
      var j :| 0 <= j < |findings| && findings[j].Add? && findings[j].task.url.path == Some(path)
               && findings[j].task in after.queue;
      assert findings[j].task ==
             Task(links[j].url, if links[j].asset then None else Some(PageDelay), UnknownResource);
    }
  }

  // ---------------------------------------------------------------- complaints

  function Complaints(findings: seq<Finding>): nat {
    if findings == [] then 0
    else Complaints(findings[..|findings| - 1]) + if findings[|findings| - 1].Bad? then 1 else 0
  }

  /** Short of the cap, every bad finding is counted, and nothing else is. */
  lemma {:induction false} ComplaintsAreCounted(work: Work, findings: seq<Finding>)
    requires |TakeAll(work, findings).crawledResources| < 1000
    ensures TakeAll(work, findings).errors == work.errors + Complaints(findings)
  {
    if findings == [] {
    } else {
      ComplaintsAreCounted(work, findings[..|findings| - 1]);
    }
  }

  /** The entries of a sitemap that lie outside its own directory. */
  function Outside(entries: seq<Entry>): nat {
    if entries == [] then 0
    else Outside(entries[..|entries| - 1]) + if entries[|entries| - 1].inside then 0 else 1
  }

  lemma {:induction false} OutsideComplaints(entries: seq<Entry>, delay: Option<Delay>, resource: Resource)
    ensures Complaints(Entries(entries, delay, resource)) == Outside(entries)
  {
    if entries == [] {
    } else {
      var n := |entries| - 1;
      OutsideComplaints(entries[..n], delay, resource);
      assert Entries(entries, delay, resource)[..n] == Entries(entries[..n], delay, resource);
    }
  }

  /** A sitemap costs one error for each entry that lies outside it. */
  lemma SitemapErrors(work: Work, doc: SitemapDoc, asPage: PageDoc)
    requires var after := Processed(work, Sitemap, Some(Response(Some(doc), asPage)), true);
      |after.crawledResources| < 1000
    ensures Processed(work, Sitemap, Some(Response(Some(doc), asPage)), true).errors ==
            work.errors + Outside(if doc.Index? then doc.sitemaps else doc.pages)
  {
    var findings := Findings(Sitemap, Response(Some(doc), asPage));
    ComplaintsAreCounted(work, findings);
    OutsideComplaints(
      if doc.Index? then doc.sitemaps else doc.pages, if doc.Index? then None else Some(PageDelay),
      if doc.Index? then Sitemap else Page);
  }

  /** What is no HTML adds nothing to the queue, and costs an error where a page was expected or no type is told, one if
      it is too big, and one if the download breaks off; a failed request or sitemap costs one. */
  lemma FailureErrors(work: Work, resource: Resource, response: Option<Response>, hadClient: bool)
    ensures !hadClient || response.None? ==>
              Processed(work, resource, response, hadClient) == work.(errors := work.errors + 1)
    ensures hadClient && response.Some? && resource.Sitemap? && response.value.asSitemap.None? ==>
              Processed(work, resource, response, hadClient) == work.(errors := work.errors + 1)
    ensures hadClient && response.Some? && !resource.Sitemap? && response.value.asPage.UnreadHtml? ==>
              Processed(work, resource, response, hadClient) == work.(errors := work.errors + 1)
    ensures hadClient && response.Some? && !resource.Sitemap? && response.value.asPage.Asset? ==>
              var asset := response.value.asPage;
              Processed(work, resource, response, hadClient) ==
              work.(errors := work.errors + (if resource.Page? || !asset.typed then 1 else 0)
                              + match asset.download case Whole => 0 case _ => 1)
  {
    if response.Some? && !resource.Sitemap? && response.value.asPage.Asset? {
      AllBad(work, Findings(resource, response.value));
    }
  }
}
