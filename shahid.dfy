/** `ShahidSearcher::search` and `fetch_shahid_playlist` on decoded answers: the search
    maps each product to a tuple, and the playlist fetch walks pages 0, 1, 2, ... until
    one fails or comes back empty. */
module Shahid {
  import opened Wrappers
  import opened Seqs
  import opened Json
  import opened Http
  import opened Netflix

  // ---------------------------------------------------------------------------
  // Search

  /** One search result: title, playlist id, product type and classification. */
  datatype ProductEntry = ProductEntry(title: string, playlistId: string, productType: string,
                                       show: ShowResult)

  const NoPlaylistId: string := "No ID found"

  /** The `find` closure: a playlist whose `title` member is the string `Episodes`. */
  predicate IsEpisodes(playlist: Json) {
    match Get(playlist, "title")
    case None => false
    case Some(t) => AsStr(t) == Some("Episodes")
  }

  /** `Iterator::find` with `IsEpisodes`. */
  function FirstEpisodes(playlists: seq<Json>): (r: Option<Json>)
    ensures r.None? <==> forall i :: 0 <= i < |playlists| ==> !IsEpisodes(playlists[i])
    ensures r.Some? ==> exists i :: 0 <= i < |playlists| && playlists[i] == r.value
                                 && IsEpisodes(playlists[i])
                                 && forall j :: 0 <= j < i ==> !IsEpisodes(playlists[j])
  {
    if playlists == [] then None
    else if IsEpisodes(playlists[0]) then Some(playlists[0])
    else
      var r := FirstEpisodes(playlists[1..]);
      assert forall j :: 1 <= j < |playlists| ==> playlists[j] == playlists[1..][j - 1];
      r
  }

  /** The playlist id of a product: the string `id` of its first Episodes playlist. */
  function PlaylistId(product: Json): string {
    match AsArray(GetIn(Get(product, "season"), "playlists").GetOr(JNull))
    case None => NoPlaylistId
    case Some(playlists) =>
      match FirstEpisodes(playlists)
      case None => NoPlaylistId
      case Some(playlist) =>
        match Get(playlist, "id")
        case None => NoPlaylistId
        case Some(id) => AsStr(id).GetOr(NoPlaylistId)
  }

  function ProductType(product: Json): string {
    AsStr(Field(product, "type")).GetOr("")
  }

  /** The tuple pushed for one product. */
  function EntryOfProduct(product: Json): ProductEntry {
    ProductEntry(AsStr(Field(product, "title")).GetOr("Unknown"), PlaylistId(product),
                 ProductType(product), ShowResult(product, ProductType(product) == "show"))
  }

  /** `productList.products`, when it is an array. */
  function Products(response: Json): Option<seq<Json>> {
    AsArray(Field(Field(response, "productList"), "products"))
  }

  /** The loop over the products of a search answer. */
  method Search(response: Json) returns (r: Result<seq<ProductEntry>, string>)
    ensures Products(response).None? ==> r == Failure("No products found")
    ensures Products(response).Some? ==>
      r == Success(Map(Products(response).value, EntryOfProduct))
  {
    var products := Products(response);
    if products.None? {
      return Failure("No products found");
    }
    var results := [];
    var i := 0;
    while i < |products.value|
      invariant 0 <= i <= |products.value|
      invariant results == Map(products.value[..i], EntryOfProduct)
    {
      var product := products.value[i];
      assert products.value[..i + 1] == products.value[..i] + [product];
      MapSnoc(products.value[..i], product, EntryOfProduct);
      var productType := AsStr(Field(product, "type")).GetOr("");
      var entry := ProductEntry(AsStr(Field(product, "title")).GetOr("Unknown"),
                                PlaylistId(product), productType,
                                ShowResult(product, productType == "show"));
      results := results + [entry];
      i := i + 1;
    }
    assert products.value[..i] == products.value;
    return Success(results);
  }

  /** Each product gives one entry: the title or `Unknown`, the product kept whole, and
      the show flag set exactly for type `show`, a missing type reading as `""`. */
  lemma EntryFields(product: Json)
    ensures var e := EntryOfProduct(product);
      && (AsStr(Field(product, "title")).None? ==> e.title == "Unknown")
      && (AsStr(Field(product, "title")).Some? ==> e.title == AsStr(Field(product, "title")).value)
      && (Get(product, "type").None? ==> e.productType == "" && !e.show.isShow)
      && (e.show.isShow <==> Get(product, "type") == Some(JStr("show")))
      && e.show.showData == product
  {
  }

  /** The id comes from the first Episodes playlist only: when that one has no `id` or a
      non-string one, the product has no id, whatever later Episodes playlists hold. */
  lemma PlaylistIdStopsAtFirst(product: Json, playlists: seq<Json>, p: Json)
    requires GetIn(Get(product, "season"), "playlists") == Some(JArr(playlists))
    requires FirstEpisodes(playlists) == Some(p)
    requires Get(p, "id").None? || AsStr(Get(p, "id").value).None?
    ensures PlaylistId(product) == NoPlaylistId
  {
  }

  /** A product whose playlists include an Episodes playlist with a string id reports the
      id of the first such playlist, however many other playlists come before it. */
  lemma PlaylistIdOfEpisodes(product: Json, playlists: seq<Json>, k: nat, id: string)
    requires GetIn(Get(product, "season"), "playlists") == Some(JArr(playlists))
    requires k < |playlists| && IsEpisodes(playlists[k])
    requires forall j :: 0 <= j < k ==> !IsEpisodes(playlists[j])
    requires Get(playlists[k], "id") == Some(JStr(id))
    ensures PlaylistId(product) == id
  {
    var r := FirstEpisodes(playlists);
    var i :| 0 <= i < |playlists| && playlists[i] == r.value && IsEpisodes(playlists[i])
             && forall j :: 0 <= j < i ==> !IsEpisodes(playlists[j]);
    assert i == k;
  }

  // ---------------------------------------------------------------------------
  // Playlist pagination

  /** What the request for one playlist page gave: a send failure, or a status and the
      decoded body (`None` when the body is not JSON). */
  datatype PageFetch = PageSendFailed | PageResponse(status: nat, body: Option<Json>)

  /** `productList.products` of a page, when it is an array. */
  function PageProducts(data: Json): Option<seq<Json>> {
    match GetIn(Get(data, "productList"), "products")
    case None => None
    case Some(products) => AsArray(products)
  }

  /** The page has products, so the walk goes on to the next page. */
  predicate Continues(f: PageFetch) {
    && f.PageResponse? && IsSuccess(f.status) && f.body.Some?
    && PageProducts(f.body.value).Some? && PageProducts(f.body.value).value != []
  }

  /** The page aborts the whole fetch with an error. */
  predicate Fails(f: PageFetch) {
    f.PageSendFailed? || (IsSuccess(f.status) && f.body.None?)
  }

  /** `(productUrl.url or "", title or "")` for one product of a playlist page. */
  function EpisodeOf(product: Json): (string, string) {
    var url := GetIn(Get(product, "productUrl"), "url");
    var title := Get(product, "title");
    ((if url.Some? then AsStr(url.value) else None).GetOr(""),
     (if title.Some? then AsStr(title.value) else None).GetOr(""))
  }

  /** The products of a page that continues the walk; empty for any other page. */
  function ContinuingProducts(f: PageFetch): seq<Json> {
    if Continues(f) then PageProducts(f.body.value).value else []
  }

  /** The pairs of pages `0 .. n - 1`, in page order. */
  function Collected(fetch: nat -> PageFetch, n: nat): seq<(string, string)> {
    if n == 0 then [] else Collected(fetch, n - 1) + Map(ContinuingProducts(fetch(n - 1)), EpisodeOf)
  }

  /** Some page ends the walk. */
  ghost predicate Ends(fetch: nat -> PageFetch) {
    exists k: nat :: !Continues(fetch(k))
  }

  /** What the loop does with one page: abort with an error, stop, or append the page's
      products and go on. */
  datatype PageAction = Abort | Finish | Append(products: seq<Json>)

  /** The checks made on one page: status, then body, then `productList.products`. */
  method ReadPage(response: PageFetch) returns (action: PageAction)
    ensures action == Abort <==> Fails(response)
    ensures action == Finish <==> !Fails(response) && !Continues(response)
    ensures action.Append? ==>
      Continues(response) && action.products == ContinuingProducts(response)
  {
    if response.PageSendFailed? {
      return Abort;
    }
    if !IsSuccess(response.status) {
      return Finish;
    }
    if response.body.None? {
      return Abort;
    }
    var products := PageProducts(response.body.value);
    if products.None? || products.value == [] {
      return Finish;
    }
    return Append(products.value);
  }

  /** The walk. `fetch(k)` is the answer to the request for page `k`; `stop` is the page
      that ended it, the first that does not continue. Pages after `stop` are never
      requested. */
  method FetchPlaylist(fetch: nat -> PageFetch)
    returns (r: Result<seq<(string, string)>, FetchError>, ghost stop: nat)
    requires Ends(fetch)
    ensures ContinuedBefore(fetch, stop)
    ensures !Continues(fetch(stop))
    ensures Fails(fetch(stop)) ==> r == Failure(TransportError)
    ensures !Fails(fetch(stop)) ==> r == Success(Collected(fetch, stop))
  {
    ghost var bound: nat :| !Continues(fetch(bound));
    var pageNumber: nat := 0;
    var results: seq<(string, string)> := [];
    while true
      invariant pageNumber <= bound
      invariant ContinuedBefore(fetch, pageNumber)
      invariant results == Collected(fetch, pageNumber)
      decreases bound - pageNumber
    {
      var action := ReadPage(fetch(pageNumber));
      if action == Abort {
        r := Failure(TransportError);
        break;
      }
      if action == Finish {
        r := Success(results);
        break;
      }
      results := AppendEpisodes(results, action.products);
      assert pageNumber != bound;
      pageNumber := pageNumber + 1;
    }
    stop := pageNumber;
  }

  /** Every page before `n` continued the walk. */
  ghost predicate ContinuedBefore(fetch: nat -> PageFetch, n: nat) {
    n == 0 || (ContinuedBefore(fetch, n - 1) && Continues(fetch(n - 1)))
  }

  /** `ContinuedBefore` says what its name says, page by page. */
  lemma {:induction false} ContinuedBeforeMeans(fetch: nat -> PageFetch, n: nat)
    ensures ContinuedBefore(fetch, n) <==> forall k: nat :: k < n ==> Continues(fetch(k))
  {
    if n > 0 {
      ContinuedBeforeMeans(fetch, n - 1);
    }
  }

  /** The inner loop: one pair per product of a page, pushed in order. */
  method AppendEpisodes(acc: seq<(string, string)>, page: seq<Json>)
    returns (results: seq<(string, string)>)
    ensures results == acc + Map(page, EpisodeOf)
  {
    results := acc;
    var i := 0;
    while i < |page|
      invariant 0 <= i <= |page|
      invariant results == acc + Map(page[..i], EpisodeOf)
    {
      var product := page[i];
      assert page[..i + 1] == page[..i] + [product];
      MapSnoc(page[..i], product, EpisodeOf);
      results := results + [EpisodeOf(product)];
      i := i + 1;
    }
    assert page[..i] == page;
  }

  /** The collected pairs depend on the requested pages only. */
  lemma {:induction false} CollectedReadsOnlyEarlierPages(f: nat -> PageFetch,
                                                          g: nat -> PageFetch, n: nat)
    requires forall k: nat :: k < n ==> f(k) == g(k)
    ensures Collected(f, n) == Collected(g, n)
  {
    if n > 0 {
      CollectedReadsOnlyEarlierPages(f, g, n - 1);
    }
  }

  /** Pages are appended in order: what `m` pages collected is a prefix of what any
      later stop collects. */
  lemma {:induction false} CollectedGrows(fetch: nat -> PageFetch, m: nat, n: nat)
    requires m <= n
    ensures Collected(fetch, m) <= Collected(fetch, n)
    decreases n - m
  {
    if m < n {
      CollectedGrows(fetch, m, n - 1);
      var prev := Collected(fetch, n - 1);
      assert Collected(fetch, n) == prev + Map(ContinuingProducts(fetch(n - 1)), EpisodeOf);
      assert prev <= Collected(fetch, n);
    }
  }

}
