# VNDB metadata provider — Dafny model

This project models the translation core of the VNDB metadata-provider plugin for a game-library
host. The provider queries the VNDB (Visual Novel Database) API and turns each visual novel it
gets back into one of the host's records:

- a full game record (`mapGameMetadata`), for a lookup by id;
- a minimal search-hit record (`mapMinimalGameMetadata`), for every result of a search.

The full record has constant fields: age rating 18, one synthetic "Visual Novel" genre, no
publishers, and no trailers, gameplays or background. It also has derived fields. `early_access`
comes from `devstatus`. The VNDB page url is built from the id. Developers, tags, screenshot urls
and external-link urls are mapped in order. The release date is kept only when it is a valid date.
The cover is downloaded through the host's media service, and a failed download just leaves it out.

Files:

- `wrappers.dfy`: `Option`, the stand-in for `undefined`.
- `seqs.dfy`: `MapSeq`, the model of `Array.prototype.map`.
- `vndb_models.dfy`: the VNDB response shape (visual novel, image, producer, tag, external link,
  filter response).
- `metadata.dfy`: the host's record shapes (game, minimal game, developer, publisher, genre, tag),
  a JavaScript `Date` value and an opaque media handle.
- `vndb_service.dfy`: the mapping functions, the result loop of `search`, the record selection of
  `getByProviderDataIdOrFail`, and lemmas relating them.

There are two foreign calls, and both are parameters of the mapping functions:

- `parse: string -> JsDate` stands for JavaScript's `new Date(s)`. Its result `InvalidDate` is the
  date whose `getTime()` is NaN.
- `download: string -> Option<Media>` stands for the media service's `downloadByUrl`. `None` means
  the call threw, which the source catches.

The lookup `getByProviderDataIdOrFail` reads `results[0]` without a guard and has no not-found
error. The model follows that code: the lookup requires a non-empty result list. So a lookup that
matches nothing is outside the modelled behaviour, not a modelled `NotFound` error. For the same
reason the minimal mapping, and so `Search`, require every result to have an image: the source reads
`game.image.url` with no check.

## Model

| member | source | states |
|---|---|---|
| `Seqs.MapSeq` | vndb.metadata-provider.service.ts:109-135 | the mapped list has the input's length, and its i-th entry is the function applied to the i-th input entry (order kept, one to one) |
| `VndbService.DownloadImage` | vndb.metadata-provider.service.ts:154-162 | a missing or empty url gives no image; otherwise the result is the download's, where a throwing download gives no image |
| `VndbService.MapGameMetadata` | vndb.metadata-provider.service.ts:97-139 | age rating 18; slug "vndb"; the id, title, description, rating and playtime are copied; the page url is "https://vndb.org/" + id; the release date is absent exactly when the date string does not parse to a valid date, and is otherwise the parsed date; early access holds if and only if devstatus is 1; websites, screenshots, developers and tags are order-preserving one-to-one maps, with developers and tags getting slug "vndb" and the source's id and name; publishers are empty; genres are exactly the one "Visual Novel" entry; the cover is absent without a non-empty image url and is otherwise the download's result; trailers, gameplays and background are absent |
| `VndbService.MapMinimalGameMetadata` | vndb.metadata-provider.service.ts:141-152 | slug "vndb"; id, title and description are copied; the release date is the parsed date with no validity check; the cover url is the image's url, and the image must be present |
| `VndbService.Search` | vndb.metadata-provider.service.ts:61-71 | one minimal record per result, and the i-th record is the minimal mapping of the i-th result (order preserved) |
| `VndbService.GetByProviderDataIdOrFail` | vndb.metadata-provider.service.ts:94 | the result is the full mapping of the first hit; a hit is required, as the code has no not-found path |
| `VndbService.ConstantFieldsIgnoreInput` | vndb.metadata-provider.service.ts:98-138 | for any two inputs and any date parsers and downloaders, age rating (18), genres (the single "Visual Novel" entry), publishers (empty), trailers, gameplays and background (absent) are the same |
| `VndbService.ProviderDataUrlDeterminesId` | vndb.metadata-provider.service.ts:102 | the page url starts with "https://vndb.org/" and the rest is the id, so two records with the same page url come from the same id |
| `VndbService.DownloadFailureOnlyDropsCover` | vndb.metadata-provider.service.ts:158-161 | with a download that always fails, the record has no cover and is otherwise identical to the record under any other download |
| `VndbService.MinimalAgreesWithFull` | vndb.metadata-provider.service.ts:141-152 | the search record and the full record of one novel share slug, id, title and description; the search record's date is valid exactly when the full record keeps a date, and that date is the same; the search record's cover url is the url the full mapping downloads |
| `VndbService.LookupUsesFirstResultOnly` | vndb.metadata-provider.service.ts:94 | two responses with the same first hit give the same record: later hits and the pagination flag are ignored |
| `VndbService.Ever17Example` | vndb.metadata-provider.service.ts:97-139 | for the Ever17 example record (finished, one developer, tag, link and screenshot), the full record has the expected title, date, early-access flag, playtime, page url, developer, tag, website, screenshot and cover |

## Left out

- The HTTP requests (`fetch` POSTs to `https://api.vndb.org/kana/vn`), the request bodies, `response.json()` and the `response.ok` check of `search`: these are network I/O and JSON decoding. `Search` and `GetByProviderDataIdOrFail` start from an already-decoded filter response.
- JavaScript's date parsing and `isNaN(getTime())`: these are runtime behaviour, modelled only as the `parse` parameter and the `InvalidDate` case.
- `mediaService.downloadByUrl` and `logger.error`: these are external collaborators, modelled by the `download` parameter. The error log is not modelled.
- `async`/`await`: it only sequences the I/O.
- The `fieldsToInclude` list and the provider's `enabled`, `name` and `priority` fields: no mapping reads them. Only the slug "vndb" is used.
- The plugin module (`vndb.metadata-provider.plugin.module.ts`): it is only host registration.
- A not-found error for a lookup with no hits: the code has none (it reads `results[0]` unguarded), so the model has a precondition.
- JavaScript numbers: `rating` is a `real` and `length_minutes` an `int`. Both are only copied, so floating point plays no part.
- `id?.toString()` on a string id is taken as the id itself. A missing id is not modelled.
- VndbService.MapMinimalGameMetadata: requires the image to be present. The source reads `game.image.url` unguarded, so for a hit without an image it throws a TypeError and the whole `search` call rejects; that failure is not modelled, and `VndbService.Search` carries the same requirement.
- The fields of the visual-novel interface (`models/vndb-visual-novel.ts`) are taken as always present, whatever the request's field list selects: it asks for `developers.name` but not `developers.id`, and not for `extlinks.label`. Whether the API sends those fields anyway is not modelled.
