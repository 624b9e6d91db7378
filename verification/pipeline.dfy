/**
 * The loop of `main`: every URL is fetched and extracted in turn; a success
 * appends one row to the table, a failure appends the URL to the failed
 * list, and processing moves on to the next URL.
 *
 * The page fetch, the completion service and the JSON parser are passed in
 * as functions that either answer or fail.
 */
module Pipeline {
  import opened Wrappers
  import Schema
  import Extraction
  import UrlList

  /** `fetch_page_content`: the page text, or `None` on any request error. */
  type Fetcher = string -> Option<string>

  /** The outside services one run talks to. */
  datatype Services = Services(
    fetch: Fetcher,
    complete: Extraction.Completion,
    parse: Extraction.JsonParser)

  /** The row one URL yields: present exactly when the fetch and the
      extraction both succeed, and then a full row that names the URL. */
  function ProcessUrl(url: string, s: Services): (row: Option<seq<string>>)
    ensures row.Some? <==>
      s.fetch(url).Some? && Extraction.ExtractProviderData(s.fetch(url).value, url, s.complete, s.parse).Success?
    ensures row.Some? ==> |row.value| == 17 && row.value[Schema.ProfileUrlColumn] == url
  {
    match s.fetch(url)
    case None => None
    case Some(content) =>
      match Extraction.ExtractProviderData(content, url, s.complete, s.parse)
      case Failure(_) => None
      case Success(data) => Some(Schema.BuildRow(data))
  }

  /** What happens to each URL, as the loop sees it: a row, or nothing. */
  type Outcome = string -> Option<seq<string>>

  /** The outcome of a run against the given services. */
  function UrlOutcome(s: Services): (outcome: Outcome)
    ensures WellFormed(outcome)
  {
    u => ProcessUrl(u, s)
  }

  /** Every row an outcome produces has the full width and names its URL. */
  ghost predicate WellFormed(outcome: Outcome) {
    forall u :: outcome(u).Some? ==>
      |outcome(u).value| == 17 && outcome(u).value[Schema.ProfileUrlColumn] == u
  }

  /** The running tally of the loop: the rows appended so far, the success
      counter and the failed URLs. */
  datatype RunState = RunState(rows: seq<seq<string>>, successful: nat, failedUrls: seq<string>)

  const Start: RunState := RunState([], 0, [])

  /** One iteration of the loop. */
  function Step(st: RunState, url: string, outcome: Outcome): RunState {
    match outcome(url)
    case Some(row) => RunState(st.rows + [row], st.successful + 1, st.failedUrls)
    case None => RunState(st.rows, st.successful, st.failedUrls + [url])
  }

  /** The loop over `urls`, as a fold from the first URL to the last. */
  function Fold(urls: seq<string>, outcome: Outcome): RunState
    decreases |urls|
  {
    if |urls| == 0 then Start
    else Step(Fold(urls[..|urls| - 1], outcome), urls[|urls| - 1], outcome)
  }

  /** The loop over `urls` against the given services. */
  function Run(urls: seq<string>, s: Services): RunState {
    Fold(urls, UrlOutcome(s))
  }

  /** The loop of `main`, statement by statement. */
  method ProcessUrls(urls: seq<string>, s: Services)
    returns (rows: seq<seq<string>>, successful: nat, failedUrls: seq<string>)
    ensures RunState(rows, successful, failedUrls) == Run(urls, s)
    ensures failedUrls == FailedUrls(urls, UrlOutcome(s))
    ensures rows == RowsFor(urls, UrlOutcome(s))
    ensures successful == |rows|
    ensures successful + |failedUrls| == |urls|
  {
    rows, successful, failedUrls := [], 0, [];
    var i := 0;
    while i < |urls|
      invariant 0 <= i <= |urls|
      invariant RunState(rows, successful, failedUrls) == Fold(urls[..i], UrlOutcome(s))
      decreases |urls| - i
    {
      var url := urls[i];
      assert urls[..i + 1][..i] == urls[..i];
      var content := s.fetch(url);
      if content.None? {
        failedUrls := failedUrls + [url];
      } else {
        var providerData := Extraction.ExtractProviderData(content.value, url, s.complete, s.parse);
        if providerData.Failure? {
          failedUrls := failedUrls + [url];
        } else {
          rows := rows + [Schema.BuildRow(providerData.value)];
          successful := successful + 1;
        }
      }
      i := i + 1;
    }
    assert urls[..i] == urls;
    FoldMatchesReference(urls, UrlOutcome(s));
    ReferenceSizes(urls, UrlOutcome(s));
  }

  // Reference definitions of the outcome, URL by URL, independent of the
  // loop's order of accumulation.

  /** The URLs that yield a row, in input order. */
  function SucceededUrls(urls: seq<string>, outcome: Outcome): seq<string>
    decreases |urls|
  {
    if |urls| == 0 then []
    else (if outcome(urls[0]).Some? then [urls[0]] else []) + SucceededUrls(urls[1..], outcome)
  }

  /** The URLs that do not, in input order. */
  function FailedUrls(urls: seq<string>, outcome: Outcome): seq<string>
    decreases |urls|
  {
    if |urls| == 0 then []
    else (if outcome(urls[0]).Some? then [] else [urls[0]]) + FailedUrls(urls[1..], outcome)
  }

  /** The rows the URLs yield, in input order. */
  function RowsFor(urls: seq<string>, outcome: Outcome): seq<seq<string>>
    decreases |urls|
  {
    if |urls| == 0 then []
    else (if outcome(urls[0]).Some? then [outcome(urls[0]).value] else []) + RowsFor(urls[1..], outcome)
  }

  lemma {:induction false} SucceededUrlsAreSuccesses(urls: seq<string>, outcome: Outcome)
    ensures forall u :: u in SucceededUrls(urls, outcome) <==> u in urls && outcome(u).Some?
    decreases |urls|
  {
    if |urls| > 0 {
      SucceededUrlsAreSuccesses(urls[1..], outcome);
      assert urls == [urls[0]] + urls[1..];
    }
  }

  lemma {:induction false} FailedUrlsAreFailures(urls: seq<string>, outcome: Outcome)
    ensures forall u :: u in FailedUrls(urls, outcome) <==> u in urls && outcome(u).None?
    decreases |urls|
  {
    if |urls| > 0 {
      FailedUrlsAreFailures(urls[1..], outcome);
      assert urls == [urls[0]] + urls[1..];
    }
  }

  /** Appending one URL to the input extends each reference list by that
      URL's own outcome. */
  lemma {:induction false} SucceededUrlsSnoc(urls: seq<string>, url: string, outcome: Outcome)
    ensures SucceededUrls(urls + [url], outcome)
      == SucceededUrls(urls, outcome) + (if outcome(url).Some? then [url] else [])
    decreases |urls|
  {
    if |urls| == 0 {
      assert [] + [url] == [url];
    } else {
      assert (urls + [url])[1..] == urls[1..] + [url];
      SucceededUrlsSnoc(urls[1..], url, outcome);
    }
  }

  lemma {:induction false} FailedUrlsSnoc(urls: seq<string>, url: string, outcome: Outcome)
    ensures FailedUrls(urls + [url], outcome)
      == FailedUrls(urls, outcome) + (if outcome(url).Some? then [] else [url])
    decreases |urls|
  {
    if |urls| == 0 {
      assert [] + [url] == [url];
    } else {
      assert (urls + [url])[1..] == urls[1..] + [url];
      FailedUrlsSnoc(urls[1..], url, outcome);
    }
  }

  lemma {:induction false} RowsForSnoc(urls: seq<string>, url: string, outcome: Outcome)
    ensures RowsFor(urls + [url], outcome)
      == RowsFor(urls, outcome) + (if outcome(url).Some? then [outcome(url).value] else [])
    decreases |urls|
  {
    if |urls| == 0 {
      assert [] + [url] == [url];
    } else {
      assert (urls + [url])[1..] == urls[1..] + [url];
      RowsForSnoc(urls[1..], url, outcome);
    }
  }

  /** The loop computes the reference outcome: the failed list is the
      failing URLs in input order, the rows are those of the succeeding URLs
      in input order, and the counter counts them. */
  lemma {:induction false} FoldMatchesReference(urls: seq<string>, outcome: Outcome)
    ensures Fold(urls, outcome).failedUrls == FailedUrls(urls, outcome)
    ensures Fold(urls, outcome).rows == RowsFor(urls, outcome)
    ensures Fold(urls, outcome).successful == |SucceededUrls(urls, outcome)|
    decreases |urls|
  {
    if |urls| > 0 {
      var init, last := urls[..|urls| - 1], urls[|urls| - 1];
      assert urls == init + [last];
      FoldMatchesReference(init, outcome);
      SucceededUrlsSnoc(init, last, outcome);
      FailedUrlsSnoc(init, last, outcome);
      RowsForSnoc(init, last, outcome);
    }
  }

  /** Each URL goes to exactly one of the two lists. */
  lemma {:induction false} ReferenceSizes(urls: seq<string>, outcome: Outcome)
    ensures |SucceededUrls(urls, outcome)| + |FailedUrls(urls, outcome)| == |urls|
    ensures |RowsFor(urls, outcome)| == |SucceededUrls(urls, outcome)|
    decreases |urls|
  {
    if |urls| > 0 {
      ReferenceSizes(urls[1..], outcome);
    }
  }

  /** The k-th row is the row of the k-th succeeding URL, and names it. */
  lemma {:induction false} RowsNameSucceededUrls(urls: seq<string>, outcome: Outcome)
    requires WellFormed(outcome)
    ensures |RowsFor(urls, outcome)| == |SucceededUrls(urls, outcome)|
    ensures forall k :: 0 <= k < |RowsFor(urls, outcome)| ==>
      |RowsFor(urls, outcome)[k]| == 17
      && RowsFor(urls, outcome)[k][Schema.ProfileUrlColumn] == SucceededUrls(urls, outcome)[k]
    decreases |urls|
  {
    if |urls| > 0 {
      RowsNameSucceededUrls(urls[1..], outcome);
      var head := if outcome(urls[0]).Some? then [outcome(urls[0]).value] else [];
      var rest := RowsFor(urls[1..], outcome);
      var names := SucceededUrls(urls[1..], outcome);
      forall k | |head| <= k < |head| + |rest|
        ensures (head + rest)[k] == rest[k - |head|]
      {
      }
    }
  }

  /** Every URL ends in exactly one place: a succeeding URL has a row naming
      it and is never in the failed list, a failing one is in the failed
      list and has no row; rows and failures together account for every
      input URL, each in input order. */
  lemma PartitionOfUrls(urls: seq<string>, s: Services)
    ensures var st := Run(urls, s);
      var ok := SucceededUrls(urls, UrlOutcome(s));
      && st.successful == |st.rows| == |ok|
      && st.successful + |st.failedUrls| == |urls|
      && st.failedUrls == FailedUrls(urls, UrlOutcome(s))
      && (forall u :: u in st.failedUrls <==> u in urls && !Succeeds(u, s))
      && (forall u :: u in ok <==> u in urls && Succeeds(u, s))
      && (forall k :: 0 <= k < |st.rows| ==>
            |st.rows[k]| == 17 && st.rows[k][Schema.ProfileUrlColumn] == ok[k])
  {
    var outcome := UrlOutcome(s);
    FoldMatchesReference(urls, outcome);
    ReferenceSizes(urls, outcome);
    FailedUrlsAreFailures(urls, outcome);
    SucceededUrlsAreSuccesses(urls, outcome);
    RowsNameSucceededUrls(urls, outcome);
  }

  /** A URL yields a row exactly when its page is fetched and the
      extraction on it succeeds. */
  predicate Succeeds(url: string, s: Services) {
    s.fetch(url).Some? && Extraction.ExtractProviderData(s.fetch(url).value, url, s.complete, s.parse).Success?
  }

  /** Stopping the run after any number of URLs leaves a prefix of the full
      run's rows and failures. */
  lemma {:induction false} FoldPrefix(urls: seq<string>, n: nat, outcome: Outcome)
    requires n <= |urls|
    ensures Fold(urls[..n], outcome).rows <= Fold(urls, outcome).rows
    ensures Fold(urls[..n], outcome).failedUrls <= Fold(urls, outcome).failedUrls
    ensures Fold(urls[..n], outcome).successful <= Fold(urls, outcome).successful
    decreases |urls| - n
  {
    if n < |urls| {
      var init := urls[..|urls| - 1];
      assert urls[..n] == init[..n];
      FoldPrefix(init, n, outcome);
    } else {
      assert urls[..n] == urls;
    }
  }

  /** What a whole run leaves behind: the CSV table, header first, the
      success counter and the failed URLs. */
  datatype Table = Table(rows: seq<seq<string>>, successful: nat, failedUrls: seq<string>)

  /** The whole run over a URL file: the header followed by the row of each
      successful URL in input order, the success count, and the failing
      URLs in input order. */
  function RunPipeline(lines: seq<string>, s: Services): (out: Table)
    ensures |out.rows| >= 1 && out.rows[0] == Schema.FieldNames()
    ensures forall k :: 0 <= k < |out.rows| ==> |out.rows[k]| == 17
    ensures (|out.rows| - 1) + |out.failedUrls| == |UrlList.LoadUrls(lines)|
    ensures out.successful == |out.rows| - 1
    ensures out.rows[1..] == RowsFor(UrlList.LoadUrls(lines), UrlOutcome(s))
    ensures out.failedUrls == FailedUrls(UrlList.LoadUrls(lines), UrlOutcome(s))
    ensures forall u :: u in out.failedUrls <==> u in UrlList.LoadUrls(lines) && !Succeeds(u, s)
    ensures var ok := SucceededUrls(UrlList.LoadUrls(lines), UrlOutcome(s));
            && |out.rows| - 1 == |ok|
            && forall k :: 1 <= k < |out.rows| ==> out.rows[k][Schema.ProfileUrlColumn] == ok[k - 1]
  {
    var urls := UrlList.LoadUrls(lines);
    var st := Run(urls, s);
    TableShape(urls, s);
    PartitionOfUrls(urls, s);
    FoldMatchesReference(urls, UrlOutcome(s));
    var rows := [Schema.FieldNames()] + st.rows;
    assert rows[1..] == st.rows;
    Table(rows, st.successful, st.failedUrls)
  }

  /** The counts and row widths `RunPipeline` relies on. */
  lemma TableShape(urls: seq<string>, s: Services)
    ensures Run(urls, s).successful == |Run(urls, s).rows|
    ensures |Run(urls, s).rows| + |Run(urls, s).failedUrls| == |urls|
    ensures forall k :: 0 <= k < |Run(urls, s).rows| ==> |Run(urls, s).rows[k]| == 17
  {
    PartitionOfUrls(urls, s);
  }

  /** Three URLs whose second page cannot be fetched: two rows, for the
      first and third URL in that order, and only the second URL failed. */
  lemma SecondFetchFails(u1: string, u2: string, u3: string, s: Services)
    requires Succeeds(u1, s) && s.fetch(u2).None? && Succeeds(u3, s)
    ensures Run([u1, u2, u3], s).rows == [ProcessUrl(u1, s).value, ProcessUrl(u3, s).value]
    ensures Run([u1, u2, u3], s).failedUrls == [u2]
    ensures Run([u1, u2, u3], s).successful == 2
  {
    var outcome := UrlOutcome(s);
    assert outcome(u1) == ProcessUrl(u1, s);
    assert outcome(u3) == ProcessUrl(u3, s);
    FoldSecondFails(u1, u2, u3, outcome);
  }

  lemma FoldSecondFails(u1: string, u2: string, u3: string, outcome: Outcome)
    requires outcome(u1).Some? && outcome(u2).None? && outcome(u3).Some?
    ensures Fold([u1, u2, u3], outcome) == RunState([outcome(u1).value, outcome(u3).value], 2, [u2])
  {
    assert [u1][..0] == [];
    assert Fold([u1], outcome) == RunState([outcome(u1).value], 1, []);
    assert [u1, u2][..1] == [u1];
    assert Fold([u1, u2], outcome) == RunState([outcome(u1).value], 1, [u2]);
    assert [u1, u2, u3][..2] == [u1, u2];
  }
}
