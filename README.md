# Wazuh inventory fetcher — verified model of its core

`wazuh-inventory-automation-1.0.py` reads a file of agent identifiers, asks
the Wazuh API for each agent's installed packages on a thread pool, gathers
every agent's package records into one list, writes them to a spreadsheet
and prints how many packages each vendor accounts for.

Around the network, terminal and pandas glue, four pieces of sequential
logic make up the core, and this project models each in Dafny:

- `AgentIds` (`agent_ids.dfy`): the identifier list, each line stripped
  with Python's `str.strip` (its whitespace set written out) and blank
  lines dropped.
- `Fetch` (`fetch.dfy`): `fetch_data_for_agent` with the HTTP response as
  an input value. A transport error or a 4xx/5xx status gives `[]`.
  Otherwise `data.affected_items` is read, each level defaulting when
  absent, and every item is projected into a nine-field `PackageRecord`.
  The method walks the items in a loop, as the source does, and is proved
  equal to the function `FetchSpec`.
- `Drain` (`drain.dfy`): the loop in `main` that appends each finished
  agent's list to `all_data`. The completion order chosen by the worker
  pool is an input: any rearrangement of the agent indices.
- `Report` (`report.dfy`): the printable-character filter applied to the
  string form of every cell, the frame built from the records, and
  `value_counts()` of its `vendor` column. `str()` of a cell and
  `str.isprintable` are function parameters (`render`, `isPrintable`), so
  nothing is assumed about them; `render` sees the cell's whole column,
  because pandas picks a column's dtype from all of its values.

`Wrappers` (`wrappers.dfy`) holds `Option`. `JsonValues` (`json_values.dfy`)
holds the JSON tree and `dict.get` with a default.

Behaviours of the code worth knowing, each one proved or modelled as the
code has it:

- The 429 branch (lines 41-43) never runs: `raise_for_status()` at line 39
  has already raised for 429, and the `except` returns `[]`.
  `Fetch.FetchDataForAgent` keeps that branch as a proved-dead
  `assert false`.
- Only statuses 400 to 599 fail (the statuses `raise_for_status` raises
  for). Any other status goes on to read the body.
- An `affected_items` that is an empty dict or an empty string is walked
  zero times, so it yields `[]` like an empty list
  (`Fetch.EmptyItemsYieldNoRecords`).
- A null vendor becomes the string `"None"` in the cleaning step at
  line 105, before line 67 counts it. It therefore shares its bucket with a
  vendor literally named `"None"` (`Report.NullVendorCountedAsNone`).
- With no records, `pd.DataFrame([])` has no columns at all, so
  `df["vendor"]` at line 67 raises `KeyError` after the spreadsheet has
  been written (`Report.VendorAnalyticsOfRecords`).

## Model

| member | source | states |
|---|---|---|
| AgentIds.Strip | wazuh-inventory-automation-1.0.py:85 | `line.strip()` never lengthens the line, and a non-empty result neither starts nor ends with whitespace |
| AgentIds.TrimStart | wazuh-inventory-automation-1.0.py:85 | `lstrip` never lengthens its input |
| AgentIds.TrimEnd | wazuh-inventory-automation-1.0.py:85 | `rstrip` never lengthens its input |
| AgentIds.TrimStartRemovesLeadingSpace | wazuh-inventory-automation-1.0.py:85 | `lstrip` keeps a suffix; everything it removes is whitespace; what it keeps does not start with whitespace |
| AgentIds.TrimEndRemovesTrailingSpace | wazuh-inventory-automation-1.0.py:85 | `rstrip` keeps a prefix; everything it removes is whitespace; what it keeps does not end with whitespace |
| AgentIds.StripIsTrimmedInfix | wazuh-inventory-automation-1.0.py:85 | `strip` keeps a contiguous run of the line; the parts cut off on either side are whitespace; a non-empty result starts and ends with non-whitespace |
| AgentIds.StripEmptyIffBlank | wazuh-inventory-automation-1.0.py:85 | a stripped line is empty if and only if the line is whitespace only (the `if line.strip()` filter) |
| AgentIds.StripIdempotent | wazuh-inventory-automation-1.0.py:85 | stripping twice gives the same as stripping once |
| AgentIds.ParseAgentIds | wazuh-inventory-automation-1.0.py:85 | the comprehension gives at most one identifier per line, each non-empty and without whitespace at either end |
| AgentIds.AgentIdsAreStripped | wazuh-inventory-automation-1.0.py:85 | every parsed identifier is non-empty and equal to its own strip |
| AgentIds.ParseAgentIdsAppend | wazuh-inventory-automation-1.0.py:85 | parsing two runs of lines gives the first run's identifiers followed by the second's, so identifiers keep file order |
| AgentIds.ParseOneLine | wazuh-inventory-automation-1.0.py:85 | a blank line contributes nothing; any other line contributes exactly its strip |
| AgentIds.AgentIdPerNonBlankLine | wazuh-inventory-automation-1.0.py:85 | there are exactly as many identifiers as non-blank lines, never more than lines; an all-blank file gives none |
| Fetch.Project | wazuh-inventory-automation-1.0.py:49-59 | each of the nine keys holds the item's value when the item has that key, and otherwise `{}` for `scan` and null for the rest |
| Fetch.RecordKeysDistinct | wazuh-inventory-automation-1.0.py:49-59 | the nine record keys are pairwise distinct |
| Fetch.ProjectedCells | wazuh-inventory-automation-1.0.py:49-59 | a record has exactly the nine keys; each holds the item's value when the item has that key, an explicit null included, and otherwise `{}` for `scan` and null for the rest |
| Fetch.AffectedItems | wazuh-inventory-automation-1.0.py:45 | a missing `data` or `affected_items` gives no items; a list stored at `data.affected_items` is exactly the items found, and any non-empty items found are that list; nothing is found unless the body and `data` are dicts |
| Fetch.ProjectAll | wazuh-inventory-automation-1.0.py:47-60 | when the loop finishes, it has built one record per item, each item a dict and each record that item's projection |
| Fetch.ProjectAllOnePerItem | wazuh-inventory-automation-1.0.py:47-60 | projection succeeds if and only if every item is a dict, and then yields exactly one record per item, in item order |
| Fetch.FetchSpec | wazuh-inventory-automation-1.0.py:37-63 | a transport error or a 4xx/5xx status gives `[]`; a non-empty result comes from a success status with a JSON body, one record per affected item |
| Fetch.FetchDataForAgent | wazuh-inventory-automation-1.0.py:31-63 | the loop over the affected items returns exactly what `FetchSpec` prescribes for the response, and the 429 retry branch is unreachable |
| Fetch.FailedRequestYieldsNoRecords | wazuh-inventory-automation-1.0.py:38-63 | a transport error or a status from 400 to 599 gives the empty list; a 429 is such a status, so its retry never runs |
| Fetch.MissingItemsYieldNoRecords | wazuh-inventory-automation-1.0.py:45 | on a success status, a body without `data`, or whose `data` lacks `affected_items`, gives the empty list and no failure |
| Fetch.EmptyItemsYieldNoRecords | wazuh-inventory-automation-1.0.py:45-48 | on a success status, an `affected_items` that is an empty list, empty dict or empty string gives `[]` |
| Fetch.ListedItemsYieldOneRecordEach | wazuh-inventory-automation-1.0.py:45-60 | on a success status, a body `{"data": {"affected_items": items}}` with dict items gives one record per item, that item's projection, in order |
| Fetch.SuccessHasOneRecordPerItem | wazuh-inventory-automation-1.0.py:45-60 | on a success status with a list of item dicts, the result has one record per item, the projection of that item, in the same order |
| Fetch.UnmodelledOnlyOnUnhandledBody | wazuh-inventory-automation-1.0.py:37-63 | the outcome leaves the model if and only if the status is a success and the body is not JSON, or the chain at line 45 does not yield something the loop can walk, or an item is not a dict |
| Drain.Drained | wazuh-inventory-automation-1.0.py:89-97 | `all_data` after the drain has as many records as the completed lists together, and exactly their records as a multiset |
| Drain.DrainResults | wazuh-inventory-automation-1.0.py:89-97 | for any completion order, `all_data` is the lists laid end to end in that order; it holds every record of every agent as often as it occurs; its length is the sum of the lists' lengths; each agent's list is one contiguous block in its own order |
| Drain.CompletedBagIgnoresOrder | wazuh-inventory-automation-1.0.py:92-97 | any two rearrangements of the agents give the same multiset of records |
| Drain.DrainedHoldsEveryRecord | wazuh-inventory-automation-1.0.py:89-97 | whatever the completion order, the drained records are the multiset union of every agent's records, and their number is the sum of the lists' lengths |
| Drain.DrainedComesFromSomeAgent | wazuh-inventory-automation-1.0.py:89-97 | a record is in `all_data` if and only if some agent's list holds it |
| Drain.DrainedBlock | wazuh-inventory-automation-1.0.py:89-97 | the k-th agent to complete has its whole list, unchanged and in order, at the position just past the lists completed before it |
| Report.Clean | wazuh-inventory-automation-1.0.py:105 | the cleaned string is never longer than the original and holds only printable characters |
| Report.CleanIsSubsequence | wazuh-inventory-automation-1.0.py:105 | cleaning only deletes characters: the result is a subsequence of the input |
| Report.CleanKeepsExactlyThePrintable | wazuh-inventory-automation-1.0.py:105 | every printable character is kept as often as it occurs and every other character is dropped |
| Report.CleanFixesPrintable | wazuh-inventory-automation-1.0.py:105 | a string of printable characters comes out unchanged |
| Report.CleanIdempotent | wazuh-inventory-automation-1.0.py:105 | cleaning twice gives the same as cleaning once |
| Report.CleanedFrame | wazuh-inventory-automation-1.0.py:104-105 | no records give a frame with no columns and no rows; otherwise the columns are the record keys, with one row per record, nine cells per row, and no cell longer than its value's string form |
| Report.CleanedFrameShape | wazuh-inventory-automation-1.0.py:104-105 | with records present, the frame has the nine record keys as columns and one row per record; each cell is the cleaned string form of that record's value, a subsequence of it, and unchanged by cleaning again |
| Report.ColumnIndex | wazuh-inventory-automation-1.0.py:67 | a column lookup finds the first position labelled with the name, or reports that no column has it |
| Report.VendorColumnIsCleanedVendors | wazuh-inventory-automation-1.0.py:104-105 | the frame's `vendor` column is the records' cleaned vendor strings, in record order |
| Report.ValueCounts | wazuh-inventory-automation-1.0.py:67 | `value_counts()` has counts that never increase along the table, no vendor twice, exactly the column's values as vendors, and counts that add up to the number of rows |
| Report.VendorCounts | wazuh-inventory-automation-1.0.py:65-67 | `df["vendor"].value_counts()` succeeds exactly when the frame has a `vendor` column, and then its counts never increase and add up to the number of rows |
| Report.TallyCounts | wazuh-inventory-automation-1.0.py:67 | the tally has one entry per distinct value, each holding its number of occurrences, and the counts add up to the number of rows |
| Report.SortByCountKeeps | wazuh-inventory-automation-1.0.py:67 | sorting by count leaves the counts non-increasing and is a permutation of the entries, so vendors, counts and total are kept |
| Report.ValueCountsCorrect | wazuh-inventory-automation-1.0.py:67 | `value_counts()` lists each distinct value exactly once with its number of rows, every value of the column has an entry, counts never increase along the table, and they add up to the number of rows |
| Report.ValueCountsExample | wazuh-inventory-automation-1.0.py:67 | the vendors `Acme, Acme, None, Beta` give `Acme 2, None 1, Beta 1` |
| Report.VendorAnalyticsOfRecords | wazuh-inventory-automation-1.0.py:104-109 | the analytics fail (`KeyError`) if and only if there are no records; otherwise they are the value counts of the records' cleaned vendor strings |
| Report.NullVendorCountedAsNone | wazuh-inventory-automation-1.0.py:105 | when `str(None)` in the vendor column is `"None"`, a null vendor is counted under the key `"None"`, together with any vendor whose string form is `"None"` |

## Left out

- `authenticate`, the `input` and `getpass` prompts and every `requests.get` call (lines 18-29, 38, 43) are terminal and network I/O. The HTTP response is an input value instead.
- The three-second sleep and the resend (lines 42-43) are unreachable, so they are not modelled as live code. The branch stays in `Fetch.FetchDataForAgent` as a proved-dead branch.
- `ThreadPoolExecutor`, `as_completed` and `future.result()` (lines 92-97) are concurrency. Only the sequential drain over an arbitrary completion order is modelled. Each future's result is the list its fetch returned. A fetch that raises (the `Unmodelled` outcome of `Fetch.FetchSpec`) makes `future.result()` at line 97 re-raise in `main`, and the run ends before the spreadsheet is written. The drain model covers only runs where every fetch returned a list.
- Reading the file and splitting it into lines (lines 83-84) is I/O. The lines are the input of `AgentIds.ParseAgentIds`.
- The thread-count prompt (line 87) is left out because a positive worker count does not change what is gathered. A non-integer answer makes `int()` at line 87 raise, and a count of 0 or less makes `ThreadPoolExecutor` at line 92 raise `ValueError`; both end the run and are not modelled.
- The tqdm progress bar and colorama colours (lines 7-8, 13, 94-95) are console presentation.
- `to_excel`, the timestamped file name (lines 100-106) and the aligned printing of the vendor table (lines 69-74) are output formatting. `Report.VendorCounts` yields the table that is printed.
- `pd.DataFrame` is modelled only as far as the code relies on it: columns are the record keys, or none at all when there are no records.
- `str()` of a cell and `str.isprintable` are parameters, not reimplementations. Lemmas that need particular values, such as `str(None) == "None"`, take them as preconditions.
- JSON numbers are integers only (`JNumber(n: int)`), because floating point is out of scope. The fetch and the drain copy values without looking at them. The string a cell gets is left to `render`, which can turn a whole-number `size` into `"1234.0"` in a float column.
- Report.CleanedFrameShape: pandas picks a column's dtype from all of the column's values, so the same value can print differently in different columns. A null is `"nan"` in a number column and `"None"` in a column of strings. `render` is therefore given the column's values as well as the cell's, but the model does not say which dtype pandas picks. Report.NullVendorCountedAsNone takes `str(None) == "None"` in the vendor column as a premise; that holds for an object column (strings or booleans with nulls, or nulls only), not for numbers mixed with nulls, which become a float column where the null prints `nan`.
- Fetch.FetchDataForAgent: some bodies make the source raise an exception its `except` does not catch, or make it behave differently across `requests` versions. The result is then `Unmodelled`, and nothing is claimed about it. These bodies are: a body that is not JSON; a JSON body that is not a dict, such as a list, whose `.get` at line 45 raises `AttributeError`; a `data` that is present but not a dict, an explicit null included, since `dict.get` returns it rather than the default; an `affected_items` that cannot be iterated; a non-empty dict or string as `affected_items`, whose elements are strings without `get`; and an item that is not a dict.
- Report.ValueCountsCorrect: it fixes the order of counts but not the order of vendors with equal counts, because pandas does not document that order. The model keeps first-occurrence order for ties, and `Report.ValueCountsExample` relies on it.
