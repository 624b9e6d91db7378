# provider-list: a Dafny model of the profile-extraction pipeline

`provider-list.py` turns a file of clinician-profile URLs into a CSV
inventory. It reads the URL list, and for each URL in turn it fetches the
page and sends the first 10000 characters of it to an OpenAI-compatible
completion service inside a fixed extraction template. It then cuts the JSON
object out of the answer, stamps the input URL on it as `Profile URL`, and
appends one 17-column row to the CSV. A URL whose fetch or completion fails,
whose answer has no `{` … `}` span, or whose span does not parse as JSON goes
to a failed list, and the loop moves on.

This project models that pipeline with pure functions over immutable values.
Each module follows one stage:

- `Wrappers` (`wrappers.dfy`): `Option` (Python's `None`) and `Result`.
- `Text` (`text.dfy`): the Python string operations the script uses.
  These are `str.strip()` with Python's exact whitespace set, `str.find`,
  `str.rfind` and prefix slicing.
- `UrlList` (`url_list.dfy`): `load_urls`, a filter and map over the lines of
  the URL file.
- `Schema` (`schema.dfy`): the 17-name header of `write_csv_header` and the
  row `append_to_csv` builds (`data.get(field, "")` per header name).
- `Prompt` (`prompt.dfy`): the extraction template with the page excerpt in
  it, both as the script renders it (the request it sends) and as evidently
  intended (see "Findings").
- `Extraction` (`extraction.dfy`): `extract_provider_data`. It finds the span
  from the first `{` to the last `}`, parses it, and overwrites
  `Profile URL`.
- `Pipeline` (`pipeline.dfy`): the loop of `main`. It is written as a fold
  over the URLs, as a `while` loop that mirrors the script statement by
  statement, and as a URL-by-URL reference definition, with the proofs that
  all three agree.

Three services are passed in as function values that either answer or
fail: the page fetch (`requests.get`), the completion service
(`requests.post` plus reading `choices[0].message.content`), and
`json.loads`.

Three behaviours of the script are easy to misread, and the model keeps
them as the code has them:

- A leading byte-order mark stays part of the first URL. The file is opened
  as `utf-8`, not `utf-8-sig`, and U+FEFF is not whitespace to
  `str.strip()`. `UrlList.LoadUrls` keeps the mark too.
- The script has no HTML-section logic and computes no date of its own.
  `Last Modified` is one of the fields the language model is asked for
  (`provider-list.py:91`), and it is written as the language model returned
  it.
- `extract_provider_data` returns `None` for every failure. The model
  names three kinds in `Extraction.ExtractError`: `CompletionFailed`,
  `NoJsonSpan` and `InvalidJson`. A failed page fetch is not one of them;
  it is `s.fetch(url).None?` in `Pipeline.ProcessUrl`. The loop treats all
  of these as one failure, as the code does.

## Model

| member | source | states |
|---|---|---|
| Text.Strip | provider-list.py:50 | The stripped line has no whitespace at either end. It is empty exactly when the line is all whitespace. A line that is already stripped comes back unchanged. |
| Text.StripWindow | provider-list.py:50 | The stripped line is a contiguous window of the line, with only whitespace cut from either side. |
| Text.Find | provider-list.py:126 | `find` gives -1 exactly when the character is absent. Otherwise it gives an index holding the character with no earlier occurrence. |
| Text.RFind | provider-list.py:127 | `rfind` gives -1 exactly when the character is absent. Otherwise it gives an index holding the character with no later occurrence. |
| UrlList.LoadUrls | provider-list.py:50 | Every loaded URL is non-empty and has no leading or trailing whitespace. There are never more URLs than lines. |
| UrlList.LoadUrlsSelects | provider-list.py:50 | There is an increasing choice of line indices. It covers exactly the lines that are non-blank once stripped. The URLs are those lines stripped, in that order. |
| UrlList.LoadUrlsAppend | provider-list.py:50 | Loading two blocks of lines gives the URLs of the first block followed by those of the second, so input order is kept. |
| UrlList.LoadUrlsIdempotent | provider-list.py:50 | Loading an already-loaded list returns it unchanged. |
| Prompt.Excerpt | provider-list.py:97 | The excerpt is the prefix of the page text of length min(length, 10000). |
| Prompt.PromptCarriesExcerpt | provider-list.py:72-98 | The request as evidently intended, not the one the script sends, is the fixed instructions, then the excerpt, then a line end. Reading the page text back out of it gives the excerpt, which is the whole page when the page fits. |
| Prompt.PromptAsWritten | provider-list.py:72-98 | The request the script sends starts with the fixed instructions, and right after them carries a prefix of the page, the whole page when it fits in 10000 characters; the comment text follows it. |
| Prompt.PromptSeesOnlyExcerpt | provider-list.py:72-98 | Two pages whose `[:10000]` slices agree, of any length, produce the same request, both the one the script sends and the intended one. |
| Prompt.RequestedNamesFollowSchema | provider-list.py:75-92 | The template asks for every table column except `Profile URL`, in column order, with `Last Modified` last. `Profile URL` is never requested. |
| Prompt.PromptAsWrittenCarriesComment | provider-list.py:97 | As written, the request does not end with the excerpt: the text `  # Limit content to avoid token limits` follows it into the request. |
| Extraction.LocateSpan | provider-list.py:126-129 | A located span has length at least 2, starts with `{` and ends with `}`. |
| Extraction.LocateSpanSucceedsIff | provider-list.py:126-134 | A span is located exactly when some `{` comes before some `}` in the completion text. Otherwise the result is failure. |
| Extraction.LocateSpanIsOutermost | provider-list.py:126-129 | The span is a window of the text, with no `{` before it and no `}` after it. So it runs from the first `{` through the last `}`. |
| Extraction.StampUrl | provider-list.py:131 | After the overlay, `Profile URL` is the input URL. Every other parsed key keeps its parsed value, and no other key is added. |
| Extraction.Reconcile | provider-list.py:124-136 | A reconciled record names the input URL. Its failures are only a missing span or a parse error. |
| Extraction.ExtractProviderData | provider-list.py:116-141 | A successful extraction always carries the input URL as `Profile URL`. |
| Extraction.ExtractSucceedsIff | provider-list.py:116-141 | Extraction succeeds exactly when the service answers the request as the template renders it, the answer has a `{` before a `}`, and the outermost span parses. The record is then the parsed object with `Profile URL` replaced and all other keys as parsed. |
| Extraction.RowCarriesUrl | provider-list.py:131 | The row written for a successful extraction holds the input URL in the `Profile URL` column, whatever the language model put there. |
| Schema.FieldNames | provider-list.py:146-151 | The header has exactly 17 distinct names, with `Profile URL` at index 15 and `Last Modified` at index 16. |
| Schema.BuildRow | provider-list.py:165-166 | A written row has 17 cells in header order. Each cell is the record's value for that column, or `""` when the record lacks it. |
| Schema.BuildRowIgnoresOtherKeys | provider-list.py:165 | Keys outside the header never reach the row: records that agree on the header fields give the same row. |
| Schema.ReadBuildRow | provider-list.py:165-166 | Reading a written row back by header gives the record restricted to the header, with missing fields as `""`. |
| Schema.BuildReadRow | provider-list.py:165-166 | Any 17 cells, read by header and written again, come back unchanged. |
| Pipeline.ProcessUrl | provider-list.py:197-213 | A URL yields a row exactly when the fetch and the extraction both succeed. That row has 17 cells and names the URL. |
| Pipeline.ProcessUrls | provider-list.py:189-215 | The loop leaves the rows, the counter and the failed list that the fold defines. The failed list is the failing URLs in input order, and the rows are those of the succeeding URLs in input order. `successful` is the row count, and successes plus failures equal the number of URLs. |
| Pipeline.FoldMatchesReference | provider-list.py:195-215 | The fold's failed list, rows and counter equal the URL-by-URL reference definitions. |
| Pipeline.ReferenceSizes | provider-list.py:195-215 | Every URL is counted once, either as a success or as a failure, and there is one row per success. |
| Pipeline.RowsNameSucceededUrls | provider-list.py:213 | The k-th row has 17 cells and names the k-th succeeding URL. |
| Pipeline.PartitionOfUrls | provider-list.py:195-215 | Every URL ends in exactly one place. A succeeding URL has a row naming it and is not in the failed list. A failing URL is in the failed list. `successful` equals the row count, and `successful + len(failed_urls)` equals the number of URLs. |
| Pipeline.FoldPrefix | provider-list.py:195-215 | Stopping after any number of URLs leaves a prefix of the full run's rows and failed list. |
| Pipeline.RunPipeline | provider-list.py:181-215 | The table is the header followed by one 17-cell row per succeeding loaded URL, in input order, each naming its URL and equal to the URL-by-URL reference rows. The failed list is exactly the failing loaded URLs in input order. The success count is the row count, and rows plus failures equal the number of loaded URLs. |
| Pipeline.SecondFetchFails | provider-list.py:197-202 | With three URLs whose second fetch fails and the others succeed, the table holds the rows of the first and third URL in that order, and the failed list holds only the second. |

## Findings

| source | as written | input that shows it | evidently intended | confidence | as-written member | corrected member |
|---|---|---|---|---|---|---|
| provider-list.py:97 | The text `# Limit content to avoid token limits` stands inside the triple-quoted f-string, so it is part of the request sent to the language model, right after the page text. | Any page, for example the empty page `""`. The request then ends with `Provider profile content:\n  # Limit content to avoid token limits\n`. | A note for readers of the code: the request ends with the page excerpt and a line end. | not executed; high that the text reaches the language model, low impact on extraction | Prompt.PromptAsWrittenCarriesComment | Prompt.PromptCarriesExcerpt |

`Prompt.PromptAsWritten` renders the template as written, and
`Extraction.ExtractProviderData` sends that request, as the script does.
`Prompt.BuildPrompt` is the corrected request, proved to end with the excerpt
and a line end; nothing in the pipeline sends it.

## Left out

- Argument parsing and defaults (`provider-list.py:11-43`) are configuration plumbing. The endpoint, model name and API key only reach the completion service, which is a parameter here.
- Opening and reading the URL file, and the `sys.exit(1)` paths (`provider-list.py:46-57`), are file I/O. `UrlList.LoadUrls` takes the file's lines as given. Python's newline translation and line splitting are not modelled.
- The page fetch (`provider-list.py:60-67`) is network I/O. It is the `fetch` parameter, which answers with the page text or fails.
- The completion request (`provider-list.py:100-121`, `138-141`) is network I/O. It covers the headers, the payload, `raise_for_status`, `response.json()` and the `choices[0].message.content` lookup. It is the `complete` parameter, which maps a request text to a completion text or fails. Any exception in those steps is this failure.
- `json.loads` (`provider-list.py:130`) is a foreign library. It is the `parse` parameter, which maps the span to an object or fails. JSON values are modelled as strings: numbers, nulls, lists and nested objects are not.
- The services are modelled as functions, so a URL listed twice gets the same outcome both times. Real services may answer differently on a repeat. The per-position statements (`Pipeline.FoldMatchesReference`, `Pipeline.RowsNameSucceededUrls`) hold regardless; the membership statements of `Pipeline.PartitionOfUrls` rely on this.
- CSV quoting, line endings and encoding of `csv.DictWriter` (`provider-list.py:153-155`, `162-166`) are left out. Only the header, the field order and the defaulting are modelled.
- A failing append ends the run, and that is not modelled. `append_to_csv` (`provider-list.py:160-166`, called at `213`) sits outside any `try`. It raises on an I/O error on the output file. It also raises when a parsed value holds a lone surrogate (`{"Name": "\ud800"}`), since the file is opened as strict `utf-8`. Dafny's `char` has no surrogates, and the modelled append always succeeds. If the append for the k-th URL (counting from 0) raises, the file holds the header plus the rows of `Pipeline.Fold(urls[..k], …)`, the prefix `Pipeline.FoldPrefix` describes. That URL and every later one are in neither the rows nor `failed_urls`, and no summary is printed. The progress line is a second such path: `print_progress` (`provider-list.py:169-173`, called at `201`, `209` and `215`) prints `✓` or `✗` and the URL outside any `try`, so on a standard output that cannot encode them (cp1252 when output is redirected on Windows, say) `print` raises `UnicodeEncodeError` and the run ends the same way, with the rows of the URLs before it written. `Pipeline.PartitionOfUrls`, `Pipeline.ProcessUrls` and `Pipeline.RunPipeline` describe only runs that reach the end, without a failing append or a failing progress line.
- Progress lines and the final summary (`provider-list.py:169-173`, `221-233`) are console output with floating-point percentages. The summary's `successful/len(urls)` raises on an empty URL list, which is not modelled.
- The half-second pause after each success (`provider-list.py:218`) only paces the loop.
