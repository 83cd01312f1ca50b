/** `OcdImageScraper`: the search, the walk through the results pages by
    postback, and the CSV rows.  Each method runs the loops of the original
    and is proved to agree with the specification in `OcdExtract`. */
module OcdScraper {
  import opened Wrappers
  import opened Html
  import opened Http
  import opened FormState
  import opened Collect
  import opened OcdPostBack
  import opened OcdExtract

  /** The loop `for c in controls: if c.get('name'): data[c['name']] =
      c.get('value')`. */
  method HarvestNamed(data: Fields, cs: seq<Control>) returns (d: Fields)
    ensures d == Harvest(data, cs, false)
  {
    d := data;
    var i := 0;
    while i < |cs|
      invariant 0 <= i <= |cs|
      invariant Harvest(d, cs[i..], false) == Harvest(data, cs, false)
    {
      assert cs[i..][1..] == cs[i + 1..];
      if cs[i].name.Some? && cs[i].name.value != "" {
        d := d[cs[i].name.value := cs[i].value];
      }
      i := i + 1;
    }
  }

  class OcdImageScraper {
    const url := BaseUrl

    constructor ()
    {
    }

    /** `csv_save`: the header row, then for each record its case number,
        case type, applicant, filing date and URL, with `''` for a missing
        key.  The rows are returned instead of written to `records.csv`. */
    method CsvSave(data: seq<Dict>) returns (rows: seq<seq<string>>)
      ensures IsCsv(rows, data)
    {
      rows := [Header];
      for i := 0 to |data|
        invariant IsCsv(rows, data[..i])
      {
        var d := data[i];
        var row := [Lookup(d, "case-number"), Lookup(d, "case-type"), Lookup(d, "applicant"),
                    Lookup(d, "filing-date"), Lookup(d, "url")];
        assert row == Row(d);
        rows := rows + [row];
      }
      assert data[..|data|] == data;
    }

    /** `submit_search`: load the criteria page, harvest its form, set the
        criteria, drop the three other buttons, and POST the result. */
    method SubmitSearch(filingDate: string, server: OcdServer) returns (r: Result<HttpRequest>)
      ensures r == SearchRequest(server(Get(BaseUrl, map[])), filingDate)
    {
      var page := server(Get(url, map[]));
      if page.form.None? {
        return Err(NoForm);
      }
      var form := page.form.value;
      var data: Fields := map[EventTarget := None, EventArgument := None];
      data := HarvestNamed(data, form.inputs);
      data := HarvestNamed(data, form.selects);
      data := data[CaseTypeKey := Some("CP")];
      data := data[CriteriaKey := Some("GreaterThan")];
      data := data[DateKey := Some(filingDate)];
      if ClearKey !in data {
        return Err(KeyError(ClearKey));
      }
      data := data - {ClearKey};
      if GoBackKey !in data {
        return Err(KeyError(GoBackKey));
      }
      data := data - {GoBackKey};
      if CaseNoKey !in data {
        return Err(KeyError(CaseNoKey));
      }
      data := data - {CaseNoKey};
      assert data == SearchData(form, filingDate) - {ClearKey, GoBackKey, CaseNoKey};
      r := Ok(Post(url, data));
    }

    /** `goto_next_page`: harvest the inputs of the current page's form, drop
        `btnReturn`, and post back to the Next anchor's target; None on the
        last page. */
    method GotoNextPage(page: OcdPage) returns (r: Result<Option<HttpRequest>>)
      ensures r == NextRequest(page)
    {
      if page.form.None? {
        return Err(NoForm);
      }
      var data := HarvestNamed(map[], page.form.value.inputs);
      if ReturnKey !in data {
        return Err(KeyError(ReturnKey));
      }
      data := data - {ReturnKey};
      if page.next.None? {
        return Ok(None);
      }
      var next := page.next.value;
      if next.href.None? {
        return Err(KeyError("href"));
      }
      var m := PostBackTarget(next.href.value);
      if m.None? {
        return Err(AttributeError("'NoneType' object has no attribute 'group'"));
      }
      data := data[EventTarget := Some(m.value)];
      data := data[EventArgument := None];
      r := Ok(Some(Post(url, data)));
    }

    /** `get_records`: search, then read every results page in turn, one
        record per row link, following Next until there is none.  `fuel` is
        a bound, for the proof only, on the number of pages. */
    method GetRecords(filingDate: string, server: OcdServer, join: UrlJoin, ghost fuel: nat)
      returns (r: Result<seq<Dict>>)
      requires RecordsSpec(filingDate, server, join, fuel).Some?
      ensures RecordsSpec(filingDate, server, join, fuel) == Some(r)
    {
      ghost var spec := RecordsSpec(filingDate, server, join, fuel);
      var records: seq<Dict> := [];
      var first := SubmitSearch(filingDate, server);
      if first.Err? {
        return Err(first.error);
      }
      var resp: Option<HttpRequest> := Some(first.value);
      ghost var f := fuel;
      while resp.Some?
        invariant resp.Some? ==> Crawl(records, resp.value, server, join, f) == spec
        invariant resp.None? ==> spec == Some(Ok(records))
        decreases f
      {
        var page := server(resp.value);
        var anchors := page.listAnchors;
        ghost var before := records;
        var i := 0;
        while i < |anchors|
          invariant 0 <= i <= |anchors|
          invariant CollectAll(records, anchors[i..], RecordReader(join)) == CollectAll(before, anchors, RecordReader(join))
        {
          assert anchors[i..][1..] == anchors[i + 1..];
          var rec := RecordOf(anchors[i], join);
          if rec.Err? {
            return Err(rec.error);
          }
          records := records + [rec.value];
          i := i + 1;
        }
        var next := GotoNextPage(page);
        if next.Err? {
          return Err(next.error);
        }
        resp := next.value;
        f := f - 1;
      }
      r := Ok(records);
    }

    /** `scrape`: get the records, then the CSV rows for them. */
    method Scrape(filingDate: string, server: OcdServer, join: UrlJoin, ghost fuel: nat)
      returns (r: Result<seq<seq<string>>>)
      requires RecordsSpec(filingDate, server, join, fuel).Some?
      ensures match RecordsSpec(filingDate, server, join, fuel).value
        case Err(e) => r == Err(e)
        case Ok(data) => r.Ok? && IsCsv(r.value, data)
    {
      var records := GetRecords(filingDate, server, join, fuel);
      if records.Err? {
        return Err(records.error);
      }
      var rows := CsvSave(records.value);
      r := Ok(rows);
    }
  }
}
