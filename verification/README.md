# Bible API lookup core, in Dafny

A model of the request handlers of a small Bible-text HTTP service
(sidney20/mana-diario). The service loads translations from JSON once at
start-up and then answers read-only queries. This model covers two servers:

- `index.js` serves one translation (ACF), held as an array of books
  `{name, abbrev, chapters}` where each chapter is an array of verse texts.
  It has three routes; this model covers two of them: `GET /books` lists every book with its chapter count.
  `GET /books/:abbrev/:chapter` finds the first book whose abbreviation
  equals the path segment exactly, picks chapter `chapter - 1` and numbers
  its verses from 1. The two kinds of failure are a missing book and a
  missing chapter.
- `test-api.js` loads two translations (NVI and ACF). Each one is present or
  absent. `GET /` lists the codes of the translations that loaded.
  `GET /biblia/nvi/livros` lists the NVI books. It reports the full count but
  returns only the first five entries.

Each handler is a pure function over an immutable corpus and returns a tagged
reply datatype (`ChapterOk | BookNotFound | ChapterNotFound`,
`Listing | Unavailable`) instead of an HTTP response. The modules are:

- `Wrappers` (`wrappers.dfy`): `Option`.
- `BooksApi` (`books_api.dfy`): the `index.js` routes.
- `BibliaApi` (`biblia_api.dfy`): the `test-api.js` routes.

Inputs that come from outside are parameters:

- The loaded documents are values. A translation that failed to load is `None`.
- The chapter path segment arrives as the integer it coerces to, as an
  `Option<int>`. `None` stands for a segment that coerces to no integer,
  such as `"abc"` or `"1.5"`.

Book matching is exact: index.js:26 compares `b.abbrev === abbrev`, so
`"GN"` does not find the book `"gn"` (`BooksApi.GenesisScenario`).

## Model

| member | source | states |
|---|---|---|
| `BooksApi.ListBooks` | index.js:13-20 | the book list has one entry per book, in corpus order; each entry keeps the book's name and abbreviation unchanged and its `chapters` is the number of chapters of that book |
| `BooksApi.ListBooksAppend` | index.js:14-18 | the listing of a concatenated corpus is the concatenation of the listings, so listing preserves order |
| `BooksApi.FindIndex` | index.js:26 | the scan yields nothing iff no book has exactly this abbreviation, and otherwise the position of the first such book in corpus order |
| `BooksApi.FirstMatchUnique` | index.js:26 | the first-match predicate names at most one position |
| `BooksApi.FindBook` | index.js:26-27 | the lookup returns the first book whose abbreviation equals the query (case-sensitive), and nothing iff no book has it |
| `BooksApi.SelectChapter` | index.js:29-30 | `chapters[chapter - 1]` is present iff the chapter is an integer c with 1 <= c <= number of chapters, and is then chapter c-1 (0-based); no wrap-around, no negative index, and an empty chapter still counts as present |
| `BooksApi.NumberFrom` | index.js:35-38 | the k-th verse carries number first+k and the k-th text unchanged; nothing is dropped or added |
| `BooksApi.NumberVerses` | index.js:35-38 | verses are numbered 1..n consecutively and the i-th verse carries the chapter's i-th text unchanged |
| `BooksApi.Texts` | index.js:35-38 | reading the texts back out of a verse list keeps their order and count (the inverse of the numbering) |
| `BooksApi.NumberVersesRoundTrip` | index.js:35-38 | numbering then reading back the texts gives the chapter unchanged, and the numbers run from 1 |
| `BooksApi.NumberVersesOfNumbered` | index.js:35-38 | a verse list numbered from 1 is exactly the numbering of its own texts (the other direction of the round trip) |
| `BooksApi.GetChapter` | index.js:23-40 | BookNotFound iff no book has the abbreviation; otherwise ChapterNotFound iff the chapter is out of range for the first matching book; otherwise the reply carries that book's name, the requested chapter number and the chapter's verses numbered from 1 |
| `BooksApi.UnknownBookIgnoresChapter` | index.js:26-30 | an unknown abbreviation gives BookNotFound whatever the chapter value: the book check comes first |
| `BooksApi.ChapterOkShape` | index.js:32-39 | a successful reply comes from an integer chapter, echoes that number, names the first matching book and numbers its verses from 1 |
| `BooksApi.ListedChaptersAreServed` | index.js:13-40 | for the first book with a given abbreviation, the chapter fetch succeeds exactly for chapters 1 through the count the book list reports, and it never says BookNotFound for a listed abbreviation |
| `BooksApi.EmptyChapterIsServed` | index.js:29-30 | a chapter that exists but has no verse is served with an empty verse list, not reported missing |
| `BooksApi.GenesisScenario` | index.js:23-40 | in a one-book corpus, chapter 1 comes back with verses 1 and 2; chapters 2, 0 and a non-integer chapter give ChapterNotFound; the upper-case abbreviation gives BookNotFound |
| `BooksApi.ChapterReply.Status` | index.js:27-32 | a chapter reply has status 200 iff it succeeded, and 404 for both failures |
| `BooksApi.ChapterReply.Error` | index.js:27-30 | each failure has its own error text, "Livro não encontrado" or "Capítulo não encontrado"; a success has none |
| `BibliaApi.Root` | test-api.js:37-46 | the version list contains "nvi" iff NVI loaded and "acf" iff ACF loaded, nothing else, NVI first and ACF last |
| `BibliaApi.RootListsEachOnce` | test-api.js:38-40 | no translation code is listed twice |
| `BibliaApi.ListNvi` | test-api.js:49-65 | Unavailable iff NVI did not load; otherwise the version is "NVI", the total is the number of NVI books, and the list holds min(5, n) entries; the k-th has the k-th book's id, name and abbreviation unchanged and `totalCapitulos` equal to its number of chapters |
| `BibliaApi.ProjectNvi` | test-api.js:54-59 | every NVI book, in order, becomes an entry with the same id, name and abbreviation and `totalCapitulos` equal to its number of chapters |
| `BibliaApi.Take` | test-api.js:63 | `slice(0, n)` returns min(n, length) elements, each equal to the element at the same position |
| `BibliaApi.TakeIsPrefix` | test-api.js:63 | the slice is a prefix of the sequence, and is the whole sequence iff it has at most n elements |
| `BibliaApi.ListNviCounts` | test-api.js:62-63 | the total is at least the number of returned entries, with equality iff there are at most five books |
| `BibliaApi.ListNviIsPrefix` | test-api.js:54-63 | the returned entries are the first min(5, n) entries of the full projection |
| `BibliaApi.RootAgreesWithListNvi` | test-api.js:39-52 | the root lists "nvi" exactly when the NVI book list answers with a listing rather than Unavailable |
| `BibliaApi.NviListing.Status` | test-api.js:50-60 | the NVI book list answers 404 iff NVI is unavailable, 200 otherwise |
| `BibliaApi.NviListing.Error` | test-api.js:50-52 | only the unavailable reply has an error text, "NVI não disponível" |

## Left out

- Express set-up, CORS, route registration and `app.listen` (index.js:1-6,
  42-44; test-api.js:1-7, 67-71). This is framework plumbing with no lookup
  logic.
- The `GET /` route of index.js (index.js:8-10). It returns a constant status
  text.
- Reading and parsing the JSON files, with their try/catch and console
  logging (index.js:3; test-api.js:9-34). The loaded data is a parameter. A
  parse that yields a falsy value is treated as absent by both test-api.js
  routes alike, so it is folded into `None`.
- JavaScript's string-to-number coercion of the chapter segment (`chapter -
  1`, `Number(chapter)`). It is abstracted as `Option<int>`. The model does
  not say which strings coerce to which integer. For example, `"01"` gives
  `Some(1)`, and `"abc"` or `"1.5"` give `None`.
- The crash when a loaded NVI value has no `livros` array (test-api.js:54).
  `NviDocument` always has one, so this is well-formedness by construction.
- `Book` and `NviBook` assume that every book has all of its fields, with the
  types given (`name`, `abbrev` and `chapters` of a list of verse lists;
  `id`, `nome`, `abreviatura` and `capitulos`). Malformed data takes these
  source paths, and none of them is modelled:
  - a book without `chapters` throws a TypeError in `/books` (index.js:17)
    and in the chapter route (index.js:29);
  - an NVI book without `capitulos` throws at test-api.js:58;
  - a `null` or other falsy chapter entry is reported as ChapterNotFound by
    `if (!verses)` (index.js:30), even though its index is in range;
  - a book missing `id`, `nome` or `abreviatura` gets an entry without that
    key, because `res.json` drops undefined fields.
- The type of the NVI `id` field is not fixed by the code. It is modelled as
  a string that is copied through unchanged.
- The NVI chapters are modelled as verse lists. The route only counts them.
- test-request.js is a one-off HTTP smoke test with no logic of its own.
- Case-insensitive or partial matching, name matching, dual-schema
  normalisation and single-verse lookup: neither index.js nor test-api.js
  does any of these.
