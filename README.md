# IP tracker: a verified model of its lookup core

The application records visitor IP lookups. On a visit to `/` it works out
the caller's address, decides with a purely textual test whether the address
is private, asks a geolocation provider about public addresses, stores the
answer in the `Search` collection unless that address is already stored, and
lists the ten newest stored lookups. `/track` looks up a submitted address,
`/test` looks up one of five fixed public addresses, and `/delete-history`
and `/clear-history` delete one or all stored lookups.

The model has five modules:

- `Base`: `Option` and `StartsWith` (JavaScript's `startsWith`).
- `PrivateIp`: `isPrivateIP` as written, with its regular expression for the
  172.16.0.0/12 block spelled out character by character. A reference
  definition of decimal text and dotted-quad addresses goes with it. The main
  lemma shows that on canonical dotted-quad text, the textual test matches
  exactly the three blocks of section 3 of RFC 1918 (10/8, 172.16/12,
  192.168/16) plus the address 127.0.0.1.
- `ClientIp`: how the home route picks its address. It takes the
  `x-forwarded-for` header if it is a non-empty string, else the socket
  address. A loopback address becomes `8.8.8.8`; otherwise the text is cut
  at its first comma.
- `SearchStore`: a record type shaped like the schema in models/Search.js,
  pure functions for what the handlers ask of the collection, and a class
  `Search` holding the records as a sequence. The class's methods
  (`Create`, `DeleteOne`, `DeleteMany`) update that sequence in place. The
  `searchedAt` stamp comes from a clock that ticks on every insert, so the
  stored sequence is oldest first with strictly increasing stamps
  (`Search.Valid`).
- `Routes`: the five handlers as methods with `modifies store`. The
  geolocation call is a parameter `geo: string -> Reply` that either answers
  or fails. `Math.random()` is a parameter `random` in [0, 1). Each handler's
  postcondition gives its whole effect on the store and the response it
  produces (`Render`, `Send` or `Redirect`).

The model follows what app.js actually does:

- The resolver does not strip an `::ffff:` prefix; `::ffff:198.51.100.7` is
  looked up as is.
- There is no default address when the request carries none. `ip.startsWith`
  then throws and `/` answers "Error fetching visitor IP info".
- The loopback test runs before the comma split, so `::1,…` resolves to
  `::1`, which is then classified private.
- A provider reply is stored whatever its `status`.
- `/track` and `/test` store every reply without checking for an existing
  record, so duplicates are possible there. Only `/` checks first.
- A failed lookup on `/track` or `/test` gives the handler's error text and
  no history.

## Model

| member | source | states |
|---|---|---|
| PrivateIp.DottedQuadClassification | app.js:21-29 | On the canonical text of any IPv4 address, isPrivateIP holds exactly when the address is in 10/8, 172.16/12 or 192.168/16 (RFC 1918 section 3) or is 127.0.0.1 |
| PrivateIp.TenBlock | app.js:23 | On dotted-quad text, the `10.` prefix test holds exactly when the first octet is 10 |
| PrivateIp.Block192 | app.js:24 | On dotted-quad text, the `192.168.` prefix test holds exactly when the first two octets are 192 and 168 |
| PrivateIp.Block172 | app.js:25 | On dotted-quad text, the regular expression holds exactly when the first octet is 172 and the second lies in 16..31 |
| PrivateIp.LoopbackLiteral | app.js:26-27 | Dotted-quad text equals `127.0.0.1` only for the address 127.0.0.1, and never equals `::1` |
| PrivateIp.IsPrivateIP | app.js:21-29 | True exactly for text starting with `10.` or `192.168.`, or with `172.` followed by the decimal text of 16 to 31 and a dot, or equal to `127.0.0.1` or `::1` |
| PrivateIp.Matches172Block | app.js:25 | On any text, the regular expression accepts exactly `172.`, then the decimal text of a number from 16 to 31, then a dot |
| PrivateIp.ColonFormPrivateOnlyLoopback | app.js:21-29 | Text with a colon before any dot (IPv6 form, IPv4-mapped included) is private exactly when it is `::1` |
| PrivateIp.PrivateExamples | app.js:21-29 | Private: `10.0.0.5`, `192.168.1.1`, `172.16.0.1`, `172.31.255.255`, `127.0.0.1`, `::1`, and also `10.not-an-address` |
| PrivateIp.PublicExamples | app.js:21-29 | Not private: `100.1.1.1`, `172.160.0.1`, `172.32.0.1`, `127.0.0.2` and the empty string |
| PrivateIp.MappedPrivateIsPublic | app.js:21-29 | `::ffff:10.0.0.1` is not private, although it maps a private IPv4 address |
| ClientIp.RawAddress | app.js:40 | No address exactly when there is no socket address and the header is absent or empty; a non-empty header always wins over the socket address; otherwise the address is the socket address, so an empty address can only come from the socket |
| ClientIp.IsLoopback | app.js:42 | Of the texts the loopback test accepts, the classifier would have called only `::1` private; IPv4-mapped loopback text is public to it |
| ClientIp.MappedLoopbackBlock | app.js:42 | On IPv4-mapped text `::ffff:a.b.c.d` the loopback test holds exactly when the first octet is 127 |
| ClientIp.FirstField | app.js:45 | `split(",")[0]` holds no comma; it is the whole text when the text has no comma, else the text starts with it followed by a comma |
| ClientIp.FirstFieldIsBeforeFirstComma | app.js:45 | Any comma-free text followed by a comma at the head of the input is what `split(",")[0]` returns |
| ClientIp.ResolveIp | app.js:42-46 | A loopback raw address resolves to `8.8.8.8`; otherwise the result has no comma and is either the raw text or the part before its first comma |
| ClientIp.ResolveIpUnique | app.js:42-46 | Off loopback, those two conditions determine the resolved address uniquely |
| ClientIp.LoopbackListIsNotSubstituted | app.js:42-46 | Because the loopback check comes before the split, `::1,` followed by anything resolves to `::1`, which is private; the bare `::1` becomes `8.8.8.8`, which is public |
| ClientIp.ResolveForwardedList | app.js:44-45 | `203.0.113.5, 10.0.0.1` resolves to `203.0.113.5` |
| ClientIp.ResolveMappedAddresses | app.js:42-43 | `::ffff:127.0.0.1` becomes `8.8.8.8`; `::ffff:198.51.100.7` is kept whole, prefix included |
| SearchStore.FirstIndexOf | app.js:61 | The position found is that of the first record with the address; it lies within the store exactly when such a record exists |
| SearchStore.InsertIfAbsent | app.js:61-69 | Check-then-create leaves a known address's store unchanged and appends exactly the new record `rec` (the reply's fields) for an unknown one, so a record with the address exists afterwards |
| SearchStore.InsertIfAbsentCounts | app.js:61-69 | After check-then-create there is exactly one record for a new address; the count for a known address and all records of other addresses are unchanged |
| SearchStore.RepeatedInsertStoresOnce | app.js:61-69 | A second lookup of the same address stores nothing more |
| SearchStore.InsertIfAbsentKeepsDistinct | app.js:61-69 | If no two records share an address, none do after check-then-create |
| SearchStore.DeleteFirst | app.js:136 | Deleting an absent address leaves the store as it was; deleting a present one removes exactly one record |
| SearchStore.DeleteOneRemovesOneMatch | app.js:136 | deleteOne lowers the count of matching records by one when there is one; records with other addresses stay in place and in order; nothing is added |
| SearchStore.DeleteFirstKeepsOrder | app.js:136 | Deletion keeps the store oldest first and only keeps records that were stored |
| SearchStore.Newest | app.js:72 | The listing has min(limit, store size) records, and its k-th record is the k-th from the end of the store |
| SearchStore.NewestListing | app.js:72 | On a store kept oldest first, the listing is newest first, holds only stored records, and every record left out is older than every record listed |
| SearchStore.Search.FindOne | app.js:61 | findOne finds a record exactly when one with the address is stored, and what it finds is a stored record with that address |
| SearchStore.Search.FindNewest | app.js:72 | The listing has min(limit, store size) records, newest first, all stored, each newer than every record left out |
| SearchStore.Search.Create | app.js:63-68 | create appends one record with the given fields, stamped with the current clock, which then advances; the store stays oldest first |
| SearchStore.Search.DeleteOne | app.js:136 | deleteOne replaces the records by DeleteFirst of them and reports 1 or 0 deletions |
| SearchStore.Search.DeleteMany | app.js:148 | deleteMany empties the store and reports how many records it removed |
| Routes.PickIndex | app.js:115 | `Math.floor(Math.random() * 5)` is a valid index into the five test addresses |
| Routes.PickIndexCoversTestIps | app.js:115 | Every one of the five test addresses is chosen by some draw |
| Routes.TestIpsArePublic | app.js:114 | None of the five test addresses is private |
| Routes.Home | app.js:38-78 | With no address, the store is untouched and the error text is sent. A private address renders the placeholder (country "Private IP Address", city and isp "Not Available") and the store is untouched. A failed lookup sends the error text and the store is untouched. Otherwise a record holding the reply's `query`, `country`, `city` and `isp`, stamped with the current clock, is stored only if no record has that `query` yet; a record with that address then exists; the reply and the 10 newest records are rendered |
| Routes.Track | app.js:81-109 | A private address renders the placeholder and the store is untouched. A failed lookup sends "Error fetching IP info" and the store is untouched. Otherwise exactly one record holding the reply's `query`, `country`, `city` and `isp`, stamped with the current clock, is appended and the reply is rendered |
| Routes.TestMode | app.js:112-130 | Looks up the test address at the drawn index. On failure it sends "Error running test mode" and the store is untouched; otherwise exactly one record holding the reply's `query`, `country`, `city` and `isp`, stamped with the current clock, is appended and the reply is rendered |
| Routes.DeleteHistory | app.js:133-143 | Removes the first record with the address and nothing else; an absent address leaves the store unchanged; always redirects to `/` |
| Routes.ClearHistory | app.js:146-155 | Empties the store and redirects to `/` |

## Left out

- Express setup, body parsing, routing, views and `listen` (app.js:1-12, 157-159). Handlers return a `Response` value instead of writing to the HTTP response.
- The MongoDB connection and the Mongoose driver (app.js:14-18). The collection is an in-memory sequence that never fails. So the handlers' catch paths for store errors are not modelled: on an error, `/` sends its error text and the delete routes still redirect.
- The HTTP request inside `getIPDetails` (app.js:32-35). It is the oracle `geo`. How the URL is built is not modelled, and the oracle is a fixed function of the address.
- Provider replies with missing fields. A reply lacking `country`, `city` or `isp` (as a failed-status reply does) is modelled with strings in those fields. A reply lacking `query`, which may make `findOne` match any record, is not modelled.
- `Date.now` (models/Search.js:8). The store's clock ticks on every insert, so stamps are distinct. Real timestamps can tie, and the order of tied records in the listing is then unspecified.
- The natural order MongoDB uses to pick the record `deleteOne` removes. It is taken to be insertion order.
- An absent or non-string `ip` form field on `/track` and `/delete-history`. The submitted address is always a string here. In the source, `/track` calls `isPrivateIP(ip)` (app.js:84) before its `try` opens (app.js:96). A missing field, or an array or object produced by the extended form parser (app.js:11), then throws out of the handler. The handler's own error text is not sent, and what the client receives depends on the Express version, which is not part of this model.
- Floating-point rounding in `Math.random() * 5`. The draw is a real number in [0, 1).
- Concurrent requests, including the race between the existence check and the insert on `/`. The model is sequential.
- Logging through `console` and the environment variables `MONGO_URI` and `PORT`.
