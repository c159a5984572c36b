/** The two-translation server: the root route that reports which
    translations loaded, and the NVI book list (`GET /biblia/nvi/livros`).
    Each translation is either a loaded document or absent, because reading
    or parsing its file failed at start-up. */
module BibliaApi {
  import opened Wrappers
  import BooksApi

  /** One book of the NVI document. The handler copies `id` through
      unchanged and only counts `capitulos`. */
  datatype NviBook = NviBook(id: string, nome: string, abreviatura: string, capitulos: seq<BooksApi.Chapter>)

  /** The NVI document: an object whose `livros` field lists the books. */
  datatype NviDocument = NviDocument(livros: seq<NviBook>)

  /** What start-up managed to load. */
  datatype Loaded = Loaded(nvi: Option<NviDocument>, acf: Option<BooksApi.Corpus>)

  const StatusMessage := "API da Bíblia Online 🙏"
  const NviCode := "nvi"
  const AcfCode := "acf"
  const NviName := "NVI"
  const NviUnavailableMessage := "NVI não disponível"

  /** The book list returns at most this many entries. */
  const PageSize: nat := 5

  // ---------------------------------------------------------------------
  // Root route
  // ---------------------------------------------------------------------

  datatype RootReply = RootReply(status: string, versoes: seq<string>)

  /** The number of translations that loaded. */
  function LoadedCount(data: Loaded): nat {
    (if data.nvi.Some? then 1 else 0) + (if data.acf.Some? then 1 else 0)
  }

  /** The reply of `GET /`: the codes of exactly the translations that
      loaded, each once, NVI before ACF. */
  function Root(data: Loaded): (r: RootReply)
    ensures r.status == StatusMessage
    ensures NviCode in r.versoes <==> data.nvi.Some?
    ensures AcfCode in r.versoes <==> data.acf.Some?
    ensures forall k :: 0 <= k < |r.versoes| ==> r.versoes[k] == NviCode || r.versoes[k] == AcfCode
    ensures |r.versoes| == LoadedCount(data)
    ensures data.nvi.Some? ==> r.versoes[0] == NviCode
    ensures data.acf.Some? ==> r.versoes[|r.versoes| - 1] == AcfCode
  {
    var withNvi := if data.nvi.Some? then [NviCode] else [];
    var versoes := if data.acf.Some? then withNvi + [AcfCode] else withNvi;
    RootReply(StatusMessage, versoes)
  }

  /** No code is listed twice. */
  lemma RootListsEachOnce(data: Loaded)
    ensures forall j, k :: 0 <= j < k < |Root(data).versoes| ==> Root(data).versoes[j] != Root(data).versoes[k]
  {
  }

  // ---------------------------------------------------------------------
  // NVI book list
  // ---------------------------------------------------------------------

  /** One entry of the NVI book list. */
  datatype NviSummary = NviSummary(id: string, nome: string, abreviatura: string, totalCapitulos: nat)

  datatype NviListing =
    | Unavailable
    | Listing(versao: string, totalLivros: nat, livros: seq<NviSummary>)
  {
    /** The HTTP status of the reply. */
    function Status(): (s: nat)
      ensures s == 200 || s == 404
      ensures s == 404 <==> Unavailable?
    {
      if Unavailable? then 404 else 200
    }

    /** The `erro` field of a 404 body; a listing has none. */
    function Error(): (e: Option<string>)
      ensures e.Some? <==> Unavailable?
      ensures Unavailable? ==> e == Some(NviUnavailableMessage)
    {
      if Unavailable? then Some(NviUnavailableMessage) else None
    }
  }

  /** The list entry of one NVI book. */
  function SummarizeNvi(b: NviBook): NviSummary {
    NviSummary(b.id, b.nome, b.abreviatura, |b.capitulos|)
  }

  /** Every NVI book, in document order, projected to its list entry. */
  function ProjectNvi(livros: seq<NviBook>): (r: seq<NviSummary>)
    ensures |r| == |livros|
    ensures forall k :: 0 <= k < |r| ==>
              && r[k].id == livros[k].id
              && r[k].nome == livros[k].nome
              && r[k].abreviatura == livros[k].abreviatura
              && r[k].totalCapitulos == |livros[k].capitulos|
  {
    if livros == [] then [] else [SummarizeNvi(livros[0])] + ProjectNvi(livros[1..])
  }

  /** The smaller of two naturals. */
  function Min(a: nat, b: nat): nat {
    if a <= b then a else b
  }

  /** `s.slice(0, n)`: the first `n` elements, or all of `s` when it is
      shorter. */
  function Take<T>(s: seq<T>, n: nat): (r: seq<T>)
    ensures |r| == Min(n, |s|)
    ensures forall k :: 0 <= k < |r| ==> r[k] == s[k]
  {
    if n == 0 || s == [] then [] else [s[0]] + Take(s[1..], n - 1)
  }

  /** A slice is a prefix of the sequence it is taken from, and it is the
      whole sequence exactly when the sequence is no longer than the bound. */
  lemma TakeIsPrefix<T>(s: seq<T>, n: nat)
    ensures Take(s, n) <= s
    ensures Take(s, n) == s <==> |s| <= n
  {
  }

  /** The reply of `GET /biblia/nvi/livros`: Unavailable when NVI did not
      load; otherwise the count of all its books and the list entries of
      the first five, in document order. */
  function ListNvi(nvi: Option<NviDocument>): (r: NviListing)
    ensures r.Unavailable? <==> nvi.None?
    ensures nvi.Some? ==>
              && r.versao == NviName
              && r.totalLivros == |nvi.value.livros|
              && |r.livros| == Min(PageSize, |nvi.value.livros|)
    ensures nvi.Some? ==> forall k :: 0 <= k < |r.livros| ==>
              && r.livros[k].id == nvi.value.livros[k].id
              && r.livros[k].nome == nvi.value.livros[k].nome
              && r.livros[k].abreviatura == nvi.value.livros[k].abreviatura
              && r.livros[k].totalCapitulos == |nvi.value.livros[k].capitulos|
  {
    match nvi
    case None => Unavailable
    case Some(doc) =>
      var livros := ProjectNvi(doc.livros);
      Listing(NviName, |livros|, Take(livros, PageSize))
  }

  /** The reported total is never smaller than the returned list, and the two
      agree exactly when the document has at most five books. */
  lemma ListNviCounts(nvi: Option<NviDocument>)
    requires ListNvi(nvi).Listing?
    ensures ListNvi(nvi).totalLivros >= |ListNvi(nvi).livros|
    ensures ListNvi(nvi).totalLivros == |ListNvi(nvi).livros| <==> ListNvi(nvi).totalLivros <= PageSize
  {
  }

  /** The returned entries are the first ones of the full projection. */
  lemma ListNviIsPrefix(doc: NviDocument)
    ensures ListNvi(Some(doc)).livros == ProjectNvi(doc.livros)[..Min(PageSize, |doc.livros|)]
  {
  }

  /** The two routes agree: the root lists "nvi" exactly when the book list
      answers with a listing rather than Unavailable. */
  lemma RootAgreesWithListNvi(data: Loaded)
    ensures NviCode in Root(data).versoes <==> ListNvi(data.nvi).Listing?
  {
  }
}
