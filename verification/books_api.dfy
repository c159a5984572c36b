/** The two lookup routes of the single-translation server: the book list
    (`GET /books`) and the chapter fetch (`GET /books/:abbrev/:chapter`),
    over a corpus that was loaded once and is never changed. */
module BooksApi {
  import opened Wrappers

  /** A chapter is the ordered list of its verse texts. */
  type Chapter = seq<string>

  datatype Book = Book(name: string, abbrev: string, chapters: seq<Chapter>)

  /** The loaded document: the books in file order. */
  type Corpus = seq<Book>

  /** One entry of the book list. */
  datatype BookSummary = BookSummary(name: string, abbrev: string, chapters: nat)

  /** One numbered verse of a chapter reply. */
  datatype Verse = Verse(verse: nat, text: string)

  const BookNotFoundMessage := "Livro não encontrado"
  const ChapterNotFoundMessage := "Capítulo não encontrado"

  /** The outcome of a chapter request; both failures are answered with 404. */
  datatype ChapterReply =
    | ChapterOk(book: string, chapter: int, verses: seq<Verse>)
    | BookNotFound
    | ChapterNotFound
  {
    /** The HTTP status of the reply. */
    function Status(): (s: nat)
      ensures s == 200 || s == 404
      ensures s == 200 <==> ChapterOk?
    {
      if ChapterOk? then 200 else 404
    }

    /** The `error` field of a 404 body; a successful reply has none. */
    function Error(): (e: Option<string>)
      ensures e.None? <==> ChapterOk?
      ensures BookNotFound? ==> e == Some(BookNotFoundMessage)
      ensures ChapterNotFound? ==> e == Some(ChapterNotFoundMessage)
    {
      match this
      case ChapterOk(_, _, _) => None
      case BookNotFound => Some(BookNotFoundMessage)
      case ChapterNotFound => Some(ChapterNotFoundMessage)
    }
  }

  // ---------------------------------------------------------------------
  // Book list
  // ---------------------------------------------------------------------

  /** The list entry of one book. */
  function Summarize(b: Book): BookSummary {
    BookSummary(b.name, b.abbrev, |b.chapters|)
  }

  /** The reply of `GET /books`: every book of the corpus, in corpus order,
      with its name and abbreviation unchanged and its number of chapters. */
  function ListBooks(corpus: Corpus): (r: seq<BookSummary>)
    ensures |r| == |corpus|
    ensures forall i :: 0 <= i < |r| ==>
              && r[i].name == corpus[i].name
              && r[i].abbrev == corpus[i].abbrev
              && r[i].chapters == |corpus[i].chapters|
  {
    if corpus == [] then [] else [Summarize(corpus[0])] + ListBooks(corpus[1..])
  }

  /** Listing a corpus made of two parts lists the first part, then the
      second: the listing keeps corpus order. */
  lemma ListBooksAppend(a: Corpus, b: Corpus)
    ensures ListBooks(a + b) == ListBooks(a) + ListBooks(b)
  {
  }

  // ---------------------------------------------------------------------
  // Book lookup
  // ---------------------------------------------------------------------

  /** Book `i` is the first one, in corpus order, whose abbreviation is
      exactly `abbrev` (character for character, so case-sensitively). */
  ghost predicate IsFirstMatch(corpus: Corpus, abbrev: string, i: int) {
    && 0 <= i < |corpus|
    && corpus[i].abbrev == abbrev
    && forall j :: 0 <= j < i ==> corpus[j].abbrev != abbrev
  }

  /** No book of the corpus has abbreviation `abbrev`. */
  ghost predicate NoMatch(corpus: Corpus, abbrev: string) {
    forall j :: 0 <= j < |corpus| ==> corpus[j].abbrev != abbrev
  }

  /** The position of the first book whose abbreviation equals `abbrev`,
      the way `Array.prototype.find` scans the corpus. */
  function FindIndex(corpus: Corpus, abbrev: string): (r: Option<nat>)
    ensures r.None? <==> NoMatch(corpus, abbrev)
    ensures r.Some? ==> IsFirstMatch(corpus, abbrev, r.value)
  {
    if corpus == [] then None
    else if corpus[0].abbrev == abbrev then Some(0)
    else match FindIndex(corpus[1..], abbrev)
      case None => None
      case Some(i) => Some(i + 1)
  }

  /** At most one position is the first match. */
  lemma FirstMatchUnique(corpus: Corpus, abbrev: string, i: int, k: int)
    requires IsFirstMatch(corpus, abbrev, i)
    requires IsFirstMatch(corpus, abbrev, k)
    ensures i == k
  {
  }

  /** The book lookup: the first book whose abbreviation equals the query,
      or nothing when no book has it. */
  function FindBook(corpus: Corpus, abbrev: string): (r: Option<Book>)
    ensures r.None? <==> NoMatch(corpus, abbrev)
    ensures forall i :: IsFirstMatch(corpus, abbrev, i) ==> r == Some(corpus[i])
  {
    match FindIndex(corpus, abbrev)
    case None => None
    case Some(i) => Some(corpus[i])
  }

  // ---------------------------------------------------------------------
  // Chapter selection and verse numbering
  // ---------------------------------------------------------------------

  /** The chapter number `chapter` is an integer between 1 and `count`: it
      names an existing chapter of a book with `count` chapters, numbered
      from 1. */
  predicate ChapterInRange(chapter: Option<int>, count: nat) {
    chapter.Some? && 1 <= chapter.value <= count
  }

  /** `chapters[chapter - 1]`: defined only for an integer chapter number
      between 1 and the number of chapters; there is no wrap-around and no
      indexing from the end. A chapter that is present is returned even when
      it holds no verse, since an empty list is not a missing one. */
  function SelectChapter(chapters: seq<Chapter>, chapter: Option<int>): (r: Option<Chapter>)
    ensures r.Some? <==> ChapterInRange(chapter, |chapters|)
    ensures r.Some? ==> r.value == chapters[chapter.value - 1]
  {
    match chapter
    case None => None
    case Some(c) =>
      if 1 <= c <= |chapters| then Some(chapters[c - 1]) else None
  }

  /** Numbers the texts consecutively starting at `first`. */
  function NumberFrom(texts: seq<string>, first: nat): (r: seq<Verse>)
    ensures |r| == |texts|
    ensures forall k :: 0 <= k < |r| ==> r[k] == Verse(first + k, texts[k])
  {
    if texts == [] then [] else [Verse(first, texts[0])] + NumberFrom(texts[1..], first + 1)
  }

  /** The verse list of a chapter reply: the i-th text, unchanged, as verse i
      counted from 1. */
  function NumberVerses(texts: seq<string>): (r: seq<Verse>)
    ensures |r| == |texts|
    ensures forall k :: 0 <= k < |r| ==> r[k].verse == k + 1 && r[k].text == texts[k]
  {
    NumberFrom(texts, 1)
  }

  /** The verses of a list are numbered 1, 2, 3, ... in order. */
  ghost predicate NumberedFromOne(vs: seq<Verse>) {
    forall k :: 0 <= k < |vs| ==> vs[k].verse == k + 1
  }

  /** The texts of a verse list, in order. */
  function Texts(vs: seq<Verse>): (r: seq<string>)
    ensures |r| == |vs|
    ensures forall k :: 0 <= k < |r| ==> r[k] == vs[k].text
  {
    if vs == [] then [] else [vs[0].text] + Texts(vs[1..])
  }

  /** Numbering loses nothing: the texts come back unchanged and in order,
      and the numbers run from 1. */
  lemma NumberVersesRoundTrip(texts: seq<string>)
    ensures Texts(NumberVerses(texts)) == texts
    ensures NumberedFromOne(NumberVerses(texts))
  {
  }

  /** Conversely, a verse list numbered from 1 is exactly the numbering of
      its own texts. */
  lemma NumberVersesOfNumbered(vs: seq<Verse>)
    requires NumberedFromOne(vs)
    ensures NumberVerses(Texts(vs)) == vs
  {
  }

  // ---------------------------------------------------------------------
  // Chapter request
  // ---------------------------------------------------------------------

  /** The reply of `GET /books/:abbrev/:chapter`. `chapter` is the path
      segment after numeric coercion: `Some(c)` when it denotes the integer
      c, `None` when it denotes no integer. The book check comes first; the
      chapter check runs only once a book is found. */
  function GetChapter(corpus: Corpus, abbrev: string, chapter: Option<int>): (r: ChapterReply)
    ensures r.BookNotFound? <==> NoMatch(corpus, abbrev)
    ensures forall i :: IsFirstMatch(corpus, abbrev, i) ==>
              (r.ChapterNotFound? <==> !ChapterInRange(chapter, |corpus[i].chapters|))
    ensures forall i :: IsFirstMatch(corpus, abbrev, i) && ChapterInRange(chapter, |corpus[i].chapters|) ==>
              r == ChapterOk(corpus[i].name, chapter.value,
                             NumberVerses(corpus[i].chapters[chapter.value - 1]))
  {
    match FindBook(corpus, abbrev)
    case None => BookNotFound
    case Some(book) =>
      match SelectChapter(book.chapters, chapter)
      case None => ChapterNotFound
      case Some(verses) => ChapterOk(book.name, chapter.value, NumberVerses(verses))
  }

  /** An unknown abbreviation yields BookNotFound whatever the chapter. */
  lemma UnknownBookIgnoresChapter(corpus: Corpus, abbrev: string, c1: Option<int>, c2: Option<int>)
    requires GetChapter(corpus, abbrev, c1).BookNotFound?
    ensures GetChapter(corpus, abbrev, c2) == BookNotFound
  {
  }

  /** A successful reply carries some book's name, the requested chapter
      number, and that chapter's verses numbered from 1. */
  lemma ChapterOkShape(corpus: Corpus, abbrev: string, chapter: Option<int>)
    requires GetChapter(corpus, abbrev, chapter).ChapterOk?
    ensures chapter.Some?
    ensures GetChapter(corpus, abbrev, chapter).chapter == chapter.value
    ensures NumberedFromOne(GetChapter(corpus, abbrev, chapter).verses)
    ensures exists i :: IsFirstMatch(corpus, abbrev, i) && GetChapter(corpus, abbrev, chapter).book == corpus[i].name
  {
  }

  /** Every chapter the book list advertises is served, and nothing beyond:
      for the first book with a given abbreviation, chapters 1 through its
      listed count succeed and every other number fails with
      ChapterNotFound. */
  lemma ListedChaptersAreServed(corpus: Corpus, i: nat, c: int)
    requires i < |corpus|
    requires forall j :: 0 <= j < i ==> corpus[j].abbrev != corpus[i].abbrev
    ensures GetChapter(corpus, ListBooks(corpus)[i].abbrev, Some(c)).ChapterOk?
            <==> 1 <= c <= ListBooks(corpus)[i].chapters
    ensures GetChapter(corpus, ListBooks(corpus)[i].abbrev, Some(c)).ChapterOk? ==>
            GetChapter(corpus, ListBooks(corpus)[i].abbrev, Some(c)).book == ListBooks(corpus)[i].name
    ensures !GetChapter(corpus, ListBooks(corpus)[i].abbrev, Some(c)).BookNotFound?
  {
  }

  /** A chapter that exists but has no verse is served with an empty verse
      list rather than reported missing. */
  lemma EmptyChapterIsServed(corpus: Corpus, abbrev: string, i: nat, c: int)
    requires IsFirstMatch(corpus, abbrev, i)
    requires 1 <= c <= |corpus[i].chapters|
    requires corpus[i].chapters[c - 1] == []
    ensures GetChapter(corpus, abbrev, Some(c)) == ChapterOk(corpus[i].name, c, [])
  {
  }

  /** A one-book corpus: the first chapter comes back with its two verses
      numbered 1 and 2, a second chapter does not exist, and the upper-case
      abbreviation finds no book because matching is exact. */
  lemma GenesisScenario()
    ensures var gn := Book("Gênesis", "gn", [["No princípio...", "A terra..."]]);
            && GetChapter([gn], "gn", Some(1))
               == ChapterOk("Gênesis", 1, [Verse(1, "No princípio..."), Verse(2, "A terra...")])
            && GetChapter([gn], "gn", Some(2)) == ChapterNotFound
            && GetChapter([gn], "gn", Some(0)) == ChapterNotFound
            && GetChapter([gn], "gn", None) == ChapterNotFound
            && GetChapter([gn], "GN", Some(1)) == BookNotFound
  {
  }
}
