/** The Safari history parser (`History.db`): visits joined with the pages
    visited, the most visited pages, and a search over page addresses. */
module Safari {
  import opened Wrappers
  import opened PyDict
  import opened Records
  import opened Base

  const ParseSql := "SELECT hi.id, hi.url, hv.title, hv.visit_time, hi.visit_count FROM history_items hi LEFT JOIN history_visits hv ON hi.id = hv.history_item ORDER BY hv.visit_time DESC"

  /** A fetched page joined with one of its visits (the visit columns are
      NULL for a page the left join finds no visit for). */
  datatype VisitRow = VisitRow(id: Field, url: Field, title: Field, visitTime: Option<real>, visitCount: Field)

  /** The record `parse` and `search_url` make of a visit. */
  function VisitRecord(row: VisitRow): (r: Record)
    ensures Keys(r) == ["id", "url", "title", "visit_time", "visit_count"]
    ensures Values(r) == [row.id, row.url, row.title, CocoaText(row.visitTime), row.visitCount]
  {
    [("id", row.id), ("url", row.url), ("title", row.title),
     ("visit_time", CocoaText(row.visitTime)), ("visit_count", row.visitCount)]
  }

  /** `parse`: `_data` replaced by one record per fetched visit, in order. */
  method Parse(p: Parser, limit: Option<int>, rows: seq<VisitRow>) returns (sql: string, r: Result<seq<Record>, Error>)
    modifies p
    ensures sql == WithLimit(ParseSql, limit)
    ensures p.conn == old(p.conn) && p.cursor == old(p.cursor)
    ensures old(p.cursor).None? ==> r == Err(NotConnected) && p.data == old(p.data)
    ensures old(p.cursor).Some? ==> r == Ok(p.data) && |p.data| == |rows|
    ensures old(p.cursor).Some? ==> forall i :: 0 <= i < |rows| ==> p.data[i] == VisitRecord(rows[i])
  {
    sql := WithLimit(ParseSql, limit);
    r := p.Refill(rows, VisitRecord);
  }

  // ---------------------------------------------------------------------
  // top_sites

  const TopSitesSql := "SELECT url, visit_count, MAX(visit_time) AS last_visit FROM history_items hi LEFT JOIN history_visits hv ON hi.id = hv.history_item GROUP BY url ORDER BY visit_count DESC LIMIT ?"

  /** `top_sites`' default count. */
  const DefaultTopSites := 20

  datatype SiteGroup = SiteGroup(url: Field, visitCount: Field, lastVisit: Option<real>)

  function SiteRecord(g: SiteGroup): (r: Record)
    ensures Keys(r) == ["url", "visits", "last_visit"]
    ensures Values(r) == [g.url, g.visitCount, CocoaText(g.lastVisit)]
  {
    [("url", g.url), ("visits", g.visitCount), ("last_visit", CocoaText(g.lastVisit))]
  }

  /** `top_sites(n)`: `n` is bound to the query's `LIMIT ?`, whatever its
      value; one record per page returned. */
  method TopSites(p: Parser, n: int, groups: seq<SiteGroup>) returns (q: Query, r: Result<seq<Record>, Error>)
    ensures q == Query(TopSitesSql, [Int(n)])
    ensures r.Err? <==> p.cursor.None?
    ensures r.Ok? ==> |r.value| == |groups| && forall i :: 0 <= i < |groups| ==> r.value[i] == SiteRecord(groups[i])
  {
    q := Query(TopSitesSql, [Int(n)]);
    r := p.Collect(groups, SiteRecord);
  }

  // ---------------------------------------------------------------------
  // search_url

  const SearchUrlSql := "SELECT hi.id, hi.url, hv.title, hv.visit_time, hi.visit_count FROM history_items hi LEFT JOIN history_visits hv ON hi.id = hv.history_item WHERE hi.url LIKE ? ORDER BY hv.visit_time DESC"

  /** `search_url(keyword)`: the keyword between wildcards bound to the one
      `?`, and a record per matching visit shaped as `parse` shapes it; the
      records of the latest `parse` are left alone. */
  method SearchUrl(p: Parser, keyword: string, rows: seq<VisitRow>) returns (q: Query, r: Result<seq<Record>, Error>)
    ensures q == Query(SearchUrlSql, [Str(LikePattern(keyword))])
    ensures r.Err? <==> p.cursor.None?
    ensures r.Ok? ==> |r.value| == |rows| && forall i :: 0 <= i < |rows| ==> r.value[i] == VisitRecord(rows[i])
  {
    q := Query(SearchUrlSql, [Str(LikePattern(keyword))]);
    r := p.Collect(rows, VisitRecord);
  }
}
