# Table component state machine

A model of the one piece of logic in the user table of `src/Components/Table/table.jsx`:
the React component `TableComponent` keeps a list of user records (`dataSource`), a loading
flag, a page number, the total count from the server, the selected filter key and a text box.
It loads a page of five records from the remote collection, narrows the loaded rows by a
case-insensitive substring match on the name or email field as the user types, reloads the
current page when a filter key is picked or the clear button is pressed, and reloads when the
pagination control moves to another page. Nested address and company fields are shown, or
`"N/A"` when missing.

Layout:

- `wrappers.dfy` (`Wrappers`): `Option`, for values that may be null or undefined.
- `text.dfy` (`Text`): `toLowerCase` as ASCII case folding and `includes` as substring search.
- `decimal.dfy` (`Decimal`): decimal text of numbers and JavaScript's `parseInt` (radix 10).
- `records.dfy` (`Records`): the user record, its nested address and company, and the three filter keys.
- `filter.dfy` (`Filter`): the filter predicate, the order-preserving filter, and its lemmas.
- `render.dfy` (`Render`): the `?. ... ?? "N/A"` cell callbacks.
- `table.dfy` (`Table`): the class `TableComponent` with one method per handler.

The state cells are the fields of `Table.TableComponent`. The `useState` defaults are its
constructor. The asynchronous `fetchData` is split in three. `FetchData` starts it: it raises
the loading flag and returns the request it issues. `LoadSucceeded(header, body)` receives the
response header and the parsed body. `LoadFailed` stands for the `catch` branch. The object
invariant `Valid()` says that the page is at least 1 and that the clear key is never selected. It
also says that the shown rows are always a subsequence of the last loaded page; the ghost field
`lastPage` records that page.

Two behaviours of the component are easy to miss:

- An unparseable total-count header gives `NaN` (`parseInt("abc")`), not 1. Only an absent header falls back to 1.
- An empty query does not restore the loaded page. Each input event filters the rows currently
  shown, so filtering is cumulative until the page is reloaded (`ErasedQueryDoesNotRestore`).

## Model

| member | source | states |
|---|---|---|
| Text.ToLower | src/Components/Table/table.jsx:61 | lower-casing keeps the length and folds each character on its own |
| Text.Contains | src/Components/Table/table.jsx:61 | `includes` can only hold when the query is no longer than the searched text |
| Text.ToLowerIdempotent | src/Components/Table/table.jsx:61 | lower-casing twice is lower-casing once |
| Text.ContainsIffOccurs | src/Components/Table/table.jsx:61 | the `includes` search holds exactly when the query occupies some run of positions of the field |
| Text.ContainsEmpty | src/Components/Table/table.jsx:61 | every string includes the empty string |
| Decimal.Show | src/Components/Table/table.jsx:28 | the number text in the URL is a non-empty run of digits with no leading zero |
| Decimal.ParseInt | src/Components/Table/table.jsx:34 | `parseInt` of the empty string is NaN, and text starting with a digit gives a non-negative integer |
| Decimal.ValueOfShow | src/Components/Table/table.jsx:28 | the decimal digits written for a number denote that number |
| Decimal.ParseShowFollowed | src/Components/Table/table.jsx:34 | `parseInt` reads back a written number when non-digit text follows it |
| Decimal.ParseShow | src/Components/Table/table.jsx:34 | `parseInt` of a number's decimal text is that number |
| Decimal.ParseNegative | src/Components/Table/table.jsx:34 | `parseInt` of a minus sign and a number's decimal text is the negated number |
| Decimal.ParseMinusDigits | src/Components/Table/table.jsx:34 | `parseInt` of a minus sign followed by digits only is the negated value of the digits |
| Decimal.ParseNoLeadingDigit | src/Components/Table/table.jsx:34 | text with no digit right after its white space and optional sign parses to NaN |
| Filter.Matches | src/Components/Table/table.jsx:59-68 | a record matches only a query no longer than its name or email field |
| Filter.ApplyQuery | src/Components/Table/table.jsx:59-69 | an input event never lengthens the rows, and with the name or email key every row left matches the query |
| Filter.FilterRows | src/Components/Table/table.jsx:60-62 | the filtered rows are no more than the input rows and every one matches the query |
| Filter.FilterRowsIsSubsequence | src/Components/Table/table.jsx:60-68 | filtering only removes rows and keeps the order of the rest |
| Filter.FilterRowsMembership | src/Components/Table/table.jsx:59-68 | a row is in the result if and only if it was in the input and its lower-cased field contains the lower-cased query |
| Filter.FilterRowsCount | src/Components/Table/table.jsx:59-68 | each matching row keeps all its occurrences, each other row has none |
| Filter.FilterRowsAppend | src/Components/Table/table.jsx:60-68 | filtering a concatenation is the concatenation of the filtered parts, so the kept rows stay in input order |
| Filter.FilterRowsAllMatch | src/Components/Table/table.jsx:60-68 | when every row matches, the filter returns the rows unchanged |
| Filter.EmptyQueryKeepsRows | src/Components/Table/table.jsx:60-61 | the empty query keeps the current rows unchanged |
| Filter.FilterRowsIdempotent | src/Components/Table/table.jsx:60-68 | the same query applied twice gives the result of applying it once |
| Filter.FilterRowsCommute | src/Components/Table/table.jsx:60-68 | two successive queries keep the same rows in either order |
| Filter.ErasedQueryDoesNotRestore | src/Components/Table/table.jsx:60-63 | a row removed by a query stays removed after the text is erased to the empty query |
| Filter.MatchesIgnoresQueryCase | src/Components/Table/table.jsx:61 | the match does not depend on the letter case of the query |
| Filter.MatchesOwnField | src/Components/Table/table.jsx:61 | a query equal to the field up to letter case matches |
| Filter.ApplyQueryClearKeepsRows | src/Components/Table/table.jsx:59-69 | with a key that is neither name nor email the rows are unchanged |
| Filter.ApplyQueryNarrows | src/Components/Table/table.jsx:59-69 | every input event yields a subsequence of the rows it started from |
| Filter.SubsequenceTransitive | src/Components/Table/table.jsx:60-68 | a filter of a filter is still a subsequence of the loaded page |
| Render.AddressCell | src/Components/Table/table.jsx:127-145 | the address cell is the nested field when record, address and field are all present, and "N/A" otherwise |
| Render.CompanyCell | src/Components/Table/table.jsx:163-175 | the company cell is the nested field when record, company and field are all present, and "N/A" otherwise |
| Render.MissingAddressAllNotAvailable | src/Components/Table/table.jsx:127-145 | a record without an address shows "N/A" in all four address columns |
| Render.MissingCompanyFieldOnlyThatColumn | src/Components/Table/table.jsx:163-175 | a missing company field shows "N/A" in its own column only |
| Table.RequestUrl | src/Components/Table/table.jsx:27-29 | the request URL starts with the endpoint and the page parameter |
| Table.TotalFromHeader | src/Components/Table/table.jsx:31-34 | an absent header gives a total of 1 and an empty one gives NaN |
| Table.UrlCarriesPage | src/Components/Table/table.jsx:27-29 | the request URL carries the requested page number, readable back as a number |
| Table.UrlCarriesLimit | src/Components/Table/table.jsx:21-29 | the request URL ends with the requested limit, readable back as a number |
| Table.TotalFromHeaderCases | src/Components/Table/table.jsx:31-34 | an absent total-count header gives 1 and a decimal header gives its number |
| Table.TotalFromHeaderNoLeadingDigit | src/Components/Table/table.jsx:31-34 | a present header with no digit right after its white space and optional sign gives NaN |
| Table.TableComponent.Valid | src/Components/Table/table.jsx:16-20 | under the invariant the shown rows are never more than the last loaded page and all come from it |
| Table.TableComponent.constructor | src/Components/Table/table.jsx:16-22 | the rows start empty, not loading, on page 1, with total 1, the name filter and an empty text box |
| Table.TableComponent.FetchData | src/Components/Table/table.jsx:24-29 | starting a load raises the loading flag and requests the current page with limit 5, whose number the URL carries |
| Table.TableComponent.LoadSucceeded | src/Components/Table/table.jsx:31-36 | a successful load replaces the rows by the body, sets the total from the header and ends not loading |
| Table.TableComponent.SetTotalPages | src/Components/Table/table.jsx:34 | storing the total sets it to the header read by `parseInt`, or 1 when absent, and changes nothing else |
| Table.TableComponent.SetDataSource | src/Components/Table/table.jsx:35 | storing a loaded body makes it both the shown rows and the last loaded page |
| Table.TableComponent.LoadFailed | src/Components/Table/table.jsx:24-40 | a failed load keeps rows, total, page and filter and ends not loading |
| Table.TableComponent.ClearInput | src/Components/Table/table.jsx:49-54 | the clear button empties the text box and reloads the current page without touching the selected filter |
| Table.TableComponent.FilterSelection | src/Components/Table/table.jsx:43-47 | the clear key keeps filter and text and reloads; another key becomes the filter, empties the text and reloads |
| Table.TableComponent.HandleFilter | src/Components/Table/table.jsx:56-70 | an input event stores the text and narrows the current rows by it on the selected field, keeping the invariant |
| Table.TableComponent.ChangePage | src/Components/Table/table.jsx:81-83 | a page change stores the page and reloads it only when it differs from the current one |
| Table.Mount | src/Components/Table/table.jsx:15-22 | mounting starts from the defaults and requests page 1 with limit 5 |
| Table.SelectThenLoad | src/Components/Table/table.jsx:43-53 | picking a key and then loading shows the fresh unfiltered page body |

## Left out

- The HTTP `fetch`, `response.json()` and the header lookup. The response is an argument of `LoadSucceeded`; a rejected fetch or body is a call of `LoadFailed`.
- HTTP error statuses. `fetch` resolves on them too, so an error response whose JSON body is an array of records takes the success branch (table.jsx:32-35) and is a call of `LoadSucceeded`, not of `LoadFailed`. Only a transport failure or an unreadable body is `LoadFailed`.
- React's scheduling and batching of state updates, stale closures over state, and `async`/`await` interleaving. The race where an older response overwrites a newer one is not modelled. Each handler runs to completion in sequence.
- The antd `Table`, `Dropdown` and `Menu` markup, the DOM input and ref mechanics, and `console.log`/`console.error`.
- Table.TableComponent.ClearInput: the guard on a null `filterRef.current` is not modelled, because the text box is always rendered once the component is mounted.
- Column sorting, which the table library performs with the locale-dependent `localeCompare`. The Email column's comparator compares `name`, not `email` (table.jsx:153). That is most likely a defect, but its effect on order is not modelled.
- Full Unicode `toLowerCase`. Only ASCII letters are case-folded.
- Decimal.ParseInt: the `0x` hexadecimal prefix, non-ASCII white space, and the loss of precision for very long digit strings are not modelled. Leading ASCII white space, a sign, and a digit run followed by anything are modelled.
- The bound on the page size: the server is trusted to send at most five records. The body of a successful load is taken as it is sent.
- A JSON body that is not an array of records is not modelled; the source stores it and the next `handleFilter` throws at table.jsx:60.
- `name` or `email` missing from a record: the source would throw in `toLowerCase`. The model assumes both fields are always present.
- The constants module `../../utils/constants` is not part of this model. Its three keys are the datatype `Records.FilterKey`.
