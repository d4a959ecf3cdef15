/** `fetch_product_data` (app.py:8-50): turn one product page into one
    record. The HTTP call and the HTML and regular-expression lookups are not
    modelled; what they yield is the input. The reference functions below
    describe the record stage by stage, and the method FetchProductData
    builds it the way the source does, one dict write at a time, leaving a
    try block at the first expression that raises. */
module Product {
  import opened PyJson
  import opened PyDict

  /** An embedded JSON document on the page: not found, found but
      `json.loads` (or the lookup that precedes it) raised, or parsed. */
  datatype Embedded = Missing | Unparsable | Parsed(value: Json)

  /** The outcome of the page request. `Page` carries what the JSON-LD
      `<script>` block and the `window.__PRELOADED_STATE__` blob yield;
      `Failed` carries `str(e)` of the request exception. */
  datatype Response = Failed(message: string) | Page(jsonLd: Embedded, state: Embedded)

  /** The eight keys a record can hold. */
  datatype Key = Tcin | Error | Title | RegularPrice | SalePrice | ImageUrls | ReviewCount | StarRating

  /** The string each key is written as. */
  function Column(k: Key): string {
    match k
    case Tcin => "tcin"
    case Error => "error"
    case Title => "title"
    case RegularPrice => "regular_price"
    case SalePrice => "sale_price"
    case ImageUrls => "image_urls"
    case ReviewCount => "review_count"
    case StarRating => "star_rating"
  }

  /** No two keys are written as the same string, so the keys stand for the
      eight distinct string keys of the source. */
  lemma ColumnInjective(k1: Key, k2: Key)
    ensures Column(k1) == Column(k2) ==> k1 == k2
  {
    if Column(k1) == Column(k2) {
      assert Column(k1)[..2] == Column(k2)[..2];
      assert |Column(k1)| == |Column(k2)|;
    }
  }

  /** A record of `fetch_product_data`. */
  type Record = Dict<Key>

  /** The keys the JSON-LD block writes, in the order it writes them. */
  const LdKeys: seq<Key> := [Title, RegularPrice, SalePrice, ImageUrls]

  /** The keys the state blob writes, in the order it writes them. */
  const RatingKeys: seq<Key> := [ReviewCount, StarRating]

  // ---------------------------------------------------------------------
  // Reference definition, stage by stage
  // ---------------------------------------------------------------------

  /** The image list of app.py:29, given `data.get('image')`: at most three
      entries, the leading ones of a list, or a single truthy value wrapped. */
  function ImageList(image: Json): (urls: seq<Json>)
    ensures |urls| <= 3
    ensures image.JArray? ==>
      |urls| == Min(3, |image.items|) && urls == image.items[..|urls|]
    ensures !image.JArray? && Truthy(image) ==> urls == [image]
    ensures !image.JArray? && !Truthy(image) ==> urls == []
  {
    if image.JArray? then Take(image.items, 3)
    else if Truthy(image) then [image]
    else []
  }

  /** `data.get('offers', {})` on the parsed JSON-LD object. */
  function Offers(data: map<string, Json>): Json {
    GetOr(data, "offers", JObject(map[]))
  }

  /** Whether `offers.get` raises on app.py:27: only a truthy non-dict does. */
  predicate OffersRaise(offers: Json) {
    Truthy(offers) && !offers.JObject?
  }

  /** How many of LdKeys the JSON-LD try block writes before it finishes or
      raises: `data.get` needs `data` to be a dict, and `offers.get` needs a
      truthy `offers` to be a dict; nothing else in the block can raise. */
  function LdProgress(ld: Embedded): nat {
    if !ld.Parsed? || !ld.value.JObject? then 0
    else if OffersRaise(Offers(ld.value.fields)) then 1
    else 4
  }

  /** The JSON-LD try block once `data` is known to be a dict. */
  function LdObjectFields(data: map<string, Json>): (d: Record)
    ensures d.order == if OffersRaise(Offers(data)) then [Title] else LdKeys
    ensures Title in d.entries && d.entries[Title] == Lookup(data, "name")
    ensures Tcin !in d.entries && Error !in d.entries
    ensures ReviewCount !in d.entries && StarRating !in d.entries
  {
    var titled := Empty().Set(Title, Lookup(data, "name"));
    var offers := Offers(data);
    if OffersRaise(offers) then titled
    else
      var price := if Truthy(offers) then Lookup(offers.fields, "price") else JNull;
      titled.Set(RegularPrice, price)
            .Set(SalePrice, price)
            .Set(ImageUrls, JArray(ImageList(Lookup(data, "image"))))
  }

  /** The values the JSON-LD block writes when `offers` does not raise: both
      prices are `offers.get('price')` for a truthy (dict) `offers` and None
      for a falsy one, and the images are the image list of app.py:29. */
  lemma LdObjectValues(data: map<string, Json>)
    requires !OffersRaise(Offers(data))
    ensures var d := LdObjectFields(data);
      var price := if Truthy(Offers(data)) then Lookup(Offers(data).fields, "price") else JNull;
      RegularPrice in d.entries && d.entries[RegularPrice] == price &&
      SalePrice in d.entries && d.entries[SalePrice] == price &&
      ImageUrls in d.entries && d.entries[ImageUrls] == JArray(ImageList(Lookup(data, "image")))
  {
  }

  /** The record after the JSON-LD try block (app.py:20-31): the first
      LdProgress(ld) keys of LdKeys, in that order. */
  function JsonLdFields(ld: Embedded): (d: Record)
    ensures d.order == LdKeys[..LdProgress(ld)]
    ensures Tcin !in d.entries && Error !in d.entries
    ensures ReviewCount !in d.entries && StarRating !in d.entries
  {
    if ld.Parsed? && ld.value.JObject? then LdObjectFields(ld.value.fields) else Empty()
  }

  /** `ratings` and `reviews` as app.py:37-40 compute them from the state
      blob; raises when the blob is missing or unparsable, or when the blob or
      its `product` entry is not a dict. */
  function RatingSources(state: Embedded): Raise<(Json, Json)> {
    match state
    case Parsed(JObject(root)) =>
      var info := GetOr(root, "product", JObject(map[]));
      if info.JObject? then
        Value((GetOr(info.fields, "ratings", JObject(map[])),
               GetOr(info.fields, "reviews", JObject(map[]))))
      else Raised
    case _ => Raised
  }

  /** The right-hand side of app.py:42. */
  function ReviewCountValue(ratings: Json, reviews: Json): Raise<Json> {
    Or(Get(ratings, "reviewsCount", JNull), Get(reviews, "totalReviewCount", JNull))
  }

  /** The right-hand side of app.py:43. */
  function StarRatingValue(ratings: Json, reviews: Json): Raise<Json> {
    Or(Get(ratings, "averageRating", JNull), Get(reviews, "averageRating", JNull))
  }

  /** The except branch of app.py:44-47. */
  function RatingDefaults(d: Record): (r: Record)
    ensures ReviewCount in r.entries && StarRating in r.entries
    ensures forall k :: k in d.entries ==> k in r.entries && r.entries[k] == d.entries[k]
    ensures forall k :: k in r.entries && k !in d.entries ==> k in RatingKeys && r.entries[k] == JNull
  {
    d.SetDefault(ReviewCount, JNull).SetDefault(StarRating, JNull)
  }

  /** The record after the state-blob try block (app.py:34-47). Only the two
      rating keys are touched, and both are present afterwards. */
  function RatingFields(d: Record, state: Embedded): (r: Record)
    ensures ReviewCount in r.entries && StarRating in r.entries
    ensures forall k :: k !in RatingKeys ==>
      (k in r.entries <==> k in d.entries) && (k in d.entries ==> r.entries[k] == d.entries[k])
    ensures ReviewCount !in d.entries && StarRating !in d.entries ==>
      r.order == d.order + RatingKeys
  {
    match RatingSources(state)
    case Raised => RatingDefaults(d)
    case Value(sources) =>
      match ReviewCountValue(sources.0, sources.1)
      case Raised => RatingDefaults(d)
      case Value(count) =>
        var counted := d.Set(ReviewCount, count);
        match StarRatingValue(sources.0, sources.1)
        case Raised => RatingDefaults(counted)
        case Value(rating) => counted.Set(StarRating, rating)
  }

  /** The values `review_count` and `star_rating` end up with, read straight
      off the state blob: the right-hand sides of app.py:42-43 as far as they
      get, None from the first one that raises on. */
  function Ratings(state: Embedded): (Json, Json) {
    match RatingSources(state)
    case Raised => (JNull, JNull)
    case Value(sources) =>
      match ReviewCountValue(sources.0, sources.1)
      case Raised => (JNull, JNull)
      case Value(count) =>
        match StarRatingValue(sources.0, sources.1)
        case Raised => (count, JNull)
        case Value(rating) => (count, rating)
  }

  /** The dict `fetch_product_data(tcin)` returns. A failed request gives the
      two-key error record. Otherwise the error key is absent, the JSON-LD
      keys that were written come first, then the two rating keys, and `tcin`
      is written last, always equal to the identifier. */
  function ProductRecord(tcin: string, response: Response): (r: Record)
    ensures Tcin in r.entries && r.entries[Tcin] == JString(tcin)
    ensures Error in r.entries <==> response.Failed?
    ensures response.Failed? ==>
      r.order == [Tcin, Error] &&
      r.entries == map[Tcin := JString(tcin), Error := JString(response.message)]
    ensures response.Page? ==>
      r.order == LdKeys[..LdProgress(response.jsonLd)] + RatingKeys + [Tcin]
  {
    match response
    case Failed(message) =>
      Empty().Set(Tcin, JString(tcin)).Set(Error, JString(message))
    case Page(ld, state) => PageRecord(tcin, ld, state)
  }

  /** ProductRecord for a page that was fetched. */
  function PageRecord(tcin: string, ld: Embedded, state: Embedded): (r: Record)
    ensures Tcin in r.entries && r.entries[Tcin] == JString(tcin)
    ensures Error !in r.entries
    ensures r.order == LdKeys[..LdProgress(ld)] + RatingKeys + [Tcin]
  {
    var d := JsonLdFields(ld);
    var rated := RatingFields(d, state);
    assert Tcin !in rated.entries;
    rated.Set(Tcin, JString(tcin))
  }

  // ---------------------------------------------------------------------
  // The source's own procedure
  // ---------------------------------------------------------------------

  /** app.py:8-50 after the request: each try block is a labelled block left
      with `break` at the first expression that raises; keys already written
      stay. */
  method FetchProductData(tcin: string, response: Response) returns (productData: Record)
    ensures productData == ProductRecord(tcin, response)
  {
    if response.Failed? {
      productData := Empty().Set(Tcin, JString(tcin)).Set(Error, JString(response.message));
      return;
    }

    productData := Empty();
    label jsonLd: {
      if response.jsonLd.Missing? { break jsonLd; }
      if response.jsonLd.Unparsable? { break jsonLd; }
      var data := response.jsonLd.value;
      var name := Get(data, "name", JNull);
      if name.Raised? { break jsonLd; }
      productData := productData.Set(Title, name.v);
      var offers := Get(data, "offers", JObject(map[]));
      if offers.Raised? { break jsonLd; }
      var regular := if Truthy(offers.v) then Get(offers.v, "price", JNull) else Value(JNull);
      if regular.Raised? { break jsonLd; }
      productData := productData.Set(RegularPrice, regular.v);
      var sale := if Truthy(offers.v) then Get(offers.v, "price", JNull) else Value(JNull);
      if sale.Raised? { break jsonLd; }
      productData := productData.Set(SalePrice, sale.v);
      var image := Get(data, "image", JNull);
      if image.Raised? { break jsonLd; }
      productData := productData.Set(ImageUrls, JArray(ImageList(image.v)));
    }
    assert productData == JsonLdFields(response.jsonLd);

    var completed := false;
    label preloadedState: {
      if !response.state.Parsed? { break preloadedState; }
      var dataJson := response.state.value;
      var productInfo := Get(dataJson, "product", JObject(map[]));
      if productInfo.Raised? { break preloadedState; }
      var ratings := Get(productInfo.v, "ratings", JObject(map[]));
      if ratings.Raised? { break preloadedState; }
      var reviews := Get(productInfo.v, "reviews", JObject(map[]));
      if reviews.Raised? { break preloadedState; }
      var reviewCount := ReviewCountValue(ratings.v, reviews.v);
      if reviewCount.Raised? { break preloadedState; }
      productData := productData.Set(ReviewCount, reviewCount.v);
      var starRating := StarRatingValue(ratings.v, reviews.v);
      if starRating.Raised? { break preloadedState; }
      productData := productData.Set(StarRating, starRating.v);
      completed := true;
    }
    if !completed {
      productData := productData.SetDefault(ReviewCount, JNull);
      productData := productData.SetDefault(StarRating, JNull);
    }
    assert productData == RatingFields(JsonLdFields(response.jsonLd), response.state);

    productData := productData.Set(Tcin, JString(tcin));
  }

  // ---------------------------------------------------------------------
  // Properties of the record
  // ---------------------------------------------------------------------

  /** The JSON-LD stage yields a well-formed dict. */
  lemma LdFieldsValid(ld: Embedded)
    ensures JsonLdFields(ld).Valid()
  {
    if ld.Parsed? && ld.value.JObject? {
      var data := ld.value.fields;
      var titled := Empty().Set(Title, Lookup(data, "name"));
      SetKeepsValid(Empty(), Title, Lookup(data, "name"));
      var offers := Offers(data);
      if !OffersRaise(offers) {
        var price := if Truthy(offers) then Lookup(offers.fields, "price") else JNull;
        SetKeepsValid(titled, RegularPrice, price);
        SetKeepsValid(titled.Set(RegularPrice, price), SalePrice, price);
        SetKeepsValid(titled.Set(RegularPrice, price).Set(SalePrice, price),
                      ImageUrls, JArray(ImageList(Lookup(data, "image"))));
      }
    }
  }

  /** The state-blob stage keeps a dict well formed. */
  lemma RatingFieldsValid(d: Record, state: Embedded)
    requires d.Valid()
    ensures RatingFields(d, state).Valid()
  {
    match RatingSources(state)
    case Raised =>
      SetDefaultKeepsValid(d, ReviewCount, JNull);
      SetDefaultKeepsValid(d.SetDefault(ReviewCount, JNull), StarRating, JNull);
    case Value(sources) =>
      match ReviewCountValue(sources.0, sources.1)
      case Raised =>
        SetDefaultKeepsValid(d, ReviewCount, JNull);
        SetDefaultKeepsValid(d.SetDefault(ReviewCount, JNull), StarRating, JNull);
      case Value(count) =>
        var counted := d.Set(ReviewCount, count);
        SetKeepsValid(d, ReviewCount, count);
        match StarRatingValue(sources.0, sources.1)
        case Raised =>
          SetDefaultKeepsValid(counted, ReviewCount, JNull);
          SetDefaultKeepsValid(counted.SetDefault(ReviewCount, JNull), StarRating, JNull);
        case Value(rating) =>
          SetKeepsValid(counted, StarRating, rating);
  }

  /** Every record is a well-formed dict: each key once in the key order,
      and the key order lists exactly the keys. */
  lemma RecordIsValid(tcin: string, response: Response)
    ensures ProductRecord(tcin, response).Valid()
  {
    match response
    case Failed(message) =>
      SetKeepsValid(Empty(), Tcin, JString(tcin));
      SetKeepsValid(Empty().Set(Tcin, JString(tcin)), Error, JString(message));
    case Page(ld, state) =>
      LdFieldsValid(ld);
      RatingFieldsValid(JsonLdFields(ld), state);
      SetKeepsValid(RatingFields(JsonLdFields(ld), state), Tcin, JString(tcin));
  }

  /** A fetched page's record is the state-blob stage applied to the
      JSON-LD stage, plus the identifier. */
  lemma PageEntries(tcin: string, ld: Embedded, state: Embedded)
    ensures ProductRecord(tcin, Page(ld, state)).entries ==
            RatingFields(JsonLdFields(ld), state).entries[Tcin := JString(tcin)]
  {
  }

  /** On a dict without the rating keys, the state-blob stage writes the
      values Ratings reads off the blob. */
  lemma RatingFieldsValues(d: Record, state: Embedded)
    requires ReviewCount !in d.entries && StarRating !in d.entries
    ensures RatingFields(d, state).entries[ReviewCount] == Ratings(state).0
    ensures RatingFields(d, state).entries[StarRating] == Ratings(state).1
  {
    match RatingSources(state)
    case Raised =>
    case Value(sources) =>
      match ReviewCountValue(sources.0, sources.1)
      case Raised =>
      case Value(count) =>
        var counted := d.Set(ReviewCount, count);
        match StarRatingValue(sources.0, sources.1)
        case Raised =>
          assert RatingFields(d, state) == RatingDefaults(counted);
        case Value(rating) =>
  }

  /** The two rating keys of a fetched page's record hold Ratings(state). */
  lemma RatingsOfPage(tcin: string, ld: Embedded, state: Embedded)
    ensures ProductRecord(tcin, Page(ld, state)).entries[ReviewCount] == Ratings(state).0
    ensures ProductRecord(tcin, Page(ld, state)).entries[StarRating] == Ratings(state).1
  {
    PageEntries(tcin, ld, state);
    RatingFieldsValues(JsonLdFields(ld), state);
  }

  /** `image_urls` is written exactly when the JSON-LD block runs to its end,
      and then holds the image list of app.py:29 (at most three entries). */
  lemma ImageUrlsField(tcin: string, response: Response)
    ensures ImageUrls in ProductRecord(tcin, response).entries <==>
      response.Page? && LdProgress(response.jsonLd) == 4
    ensures ImageUrls in ProductRecord(tcin, response).entries ==>
      var urls := ProductRecord(tcin, response).entries[ImageUrls];
      urls == JArray(ImageList(Lookup(response.jsonLd.value.fields, "image"))) &&
      |urls.items| <= 3
  {
    if response.Page? {
      LdFieldsUntouchedByState(tcin, response.jsonLd, response.state);
    }
  }

  /** `sale_price` is written exactly when `regular_price` is, and with the
      same value. */
  lemma SalePriceMirrorsRegular(tcin: string, response: Response)
    ensures SalePrice in ProductRecord(tcin, response).entries <==>
            RegularPrice in ProductRecord(tcin, response).entries
    ensures SalePrice in ProductRecord(tcin, response).entries ==>
      ProductRecord(tcin, response).entries[SalePrice] ==
      ProductRecord(tcin, response).entries[RegularPrice]
  {
    if response.Page? {
      LdFieldsUntouchedByState(tcin, response.jsonLd, response.state);
      var ld := response.jsonLd;
      if ld.Parsed? && ld.value.JObject? && !OffersRaise(Offers(ld.value.fields)) {
        LdObjectValues(ld.value.fields);
      }
    }
  }

  /** When the JSON-LD object's `offers` is falsy or a dict, both prices are
      written: None for a falsy `offers`, otherwise `offers.get('price')`. */
  lemma PriceFromOffers(tcin: string, data: map<string, Json>, state: Embedded)
    requires !OffersRaise(Offers(data))
    ensures RegularPrice in ProductRecord(tcin, Page(Parsed(JObject(data)), state)).entries
    ensures ProductRecord(tcin, Page(Parsed(JObject(data)), state)).entries[RegularPrice] ==
      if Truthy(Offers(data)) then Lookup(Offers(data).fields, "price") else JNull
  {
    LdFieldsUntouchedByState(tcin, Parsed(JObject(data)), state);
    LdObjectValues(data);
  }

  /** A truthy `offers` that is not a dict makes `offers.get` raise after the
      title is written: the title stays and the rest of the block is skipped. */
  lemma NonDictOffersKeepTitle(tcin: string, data: map<string, Json>, state: Embedded)
    requires OffersRaise(Offers(data))
    ensures Title in ProductRecord(tcin, Page(Parsed(JObject(data)), state)).entries
    ensures ProductRecord(tcin, Page(Parsed(JObject(data)), state)).entries[Title] == Lookup(data, "name")
    ensures RegularPrice !in ProductRecord(tcin, Page(Parsed(JObject(data)), state)).entries
    ensures SalePrice !in ProductRecord(tcin, Page(Parsed(JObject(data)), state)).entries
    ensures ImageUrls !in ProductRecord(tcin, Page(Parsed(JObject(data)), state)).entries
  {
    LdFieldsUntouchedByState(tcin, Parsed(JObject(data)), state);
  }

  /** Whenever the JSON-LD block parsed to a dict, `title` is `data.get('name')`,
      however the rest of the block ends. */
  lemma TitleIsName(tcin: string, data: map<string, Json>, state: Embedded)
    ensures Title in ProductRecord(tcin, Page(Parsed(JObject(data)), state)).entries
    ensures ProductRecord(tcin, Page(Parsed(JObject(data)), state)).entries[Title] == Lookup(data, "name")
  {
    LdFieldsUntouchedByState(tcin, Parsed(JObject(data)), state);
  }

  /** The title is written exactly when the JSON-LD block parsed to a dict;
      without one (no block, a parse failure, or a parsed list or scalar)
      none of the JSON-LD keys is present. */
  lemma TitleNeedsJsonLdObject(tcin: string, ld: Embedded, state: Embedded)
    ensures Title in ProductRecord(tcin, Page(ld, state)).entries <==> ld.Parsed? && ld.value.JObject?
    ensures !(ld.Parsed? && ld.value.JObject?) ==>
      forall k :: k in LdKeys ==> k !in ProductRecord(tcin, Page(ld, state)).entries
  {
    LdFieldsUntouchedByState(tcin, ld, state);
  }

  /** Whatever the state blob holds, and however its try block ends, the
      JSON-LD keys of the record are those the JSON-LD block wrote. */
  lemma LdFieldsUntouchedByState(tcin: string, ld: Embedded, state: Embedded)
    ensures forall k :: k in LdKeys ==>
      (k in ProductRecord(tcin, Page(ld, state)).entries <==> k in JsonLdFields(ld).entries) &&
      (k in JsonLdFields(ld).entries ==>
        ProductRecord(tcin, Page(ld, state)).entries[k] == JsonLdFields(ld).entries[k])
  {
    PageEntries(tcin, ld, state);
    var d := JsonLdFields(ld);
    var r := RatingFields(d, state);
    var record := ProductRecord(tcin, Page(ld, state));
    forall k | k in LdKeys
      ensures (k in record.entries <==> k in d.entries) &&
              (k in d.entries ==> record.entries[k] == d.entries[k])
    {
      assert k != Tcin && k !in RatingKeys;
      assert (k in r.entries <==> k in d.entries) && (k in d.entries ==> r.entries[k] == d.entries[k]);
    }
  }

  /** The rating keys depend on the state blob alone. */
  lemma RatingsIgnoreJsonLd(tcin: string, ld1: Embedded, ld2: Embedded, state: Embedded)
    ensures ProductRecord(tcin, Page(ld1, state)).entries[ReviewCount] ==
            ProductRecord(tcin, Page(ld2, state)).entries[ReviewCount]
    ensures ProductRecord(tcin, Page(ld1, state)).entries[StarRating] ==
            ProductRecord(tcin, Page(ld2, state)).entries[StarRating]
  {
    RatingsOfPage(tcin, ld1, state);
    RatingsOfPage(tcin, ld2, state);
  }

  /** With `ratings` a dict, each rating field is the `ratings` value when
      that is truthy; otherwise `reviews` is consulted, and a `reviews` that
      is not a dict raises there (app.py:42-43). When line 42 raises, both
      fields are None; when only line 43 raises, the star rating is None. */
  lemma RatingsFallBack(tcin: string, ld: Embedded, state: Embedded,
                        ratings: map<string, Json>, reviews: Json)
    requires RatingSources(state) == Value((JObject(ratings), reviews))
    ensures ProductRecord(tcin, Page(ld, state)).entries[ReviewCount] ==
      if Truthy(Lookup(ratings, "reviewsCount")) then Lookup(ratings, "reviewsCount")
      else if reviews.JObject? then Lookup(reviews.fields, "totalReviewCount")
      else JNull
    ensures ProductRecord(tcin, Page(ld, state)).entries[StarRating] ==
      if !Truthy(Lookup(ratings, "reviewsCount")) && !reviews.JObject? then JNull
      else if Truthy(Lookup(ratings, "averageRating")) then Lookup(ratings, "averageRating")
      else if reviews.JObject? then Lookup(reviews.fields, "averageRating")
      else JNull
  {
    RatingsOfPage(tcin, ld, state);
  }

  /** A review count of 0 under `ratings` is falsy, so the count comes from
      `reviews` instead. */
  lemma ZeroReviewCountFallsThrough(tcin: string, ld: Embedded, state: Embedded,
                                    ratings: map<string, Json>, reviews: map<string, Json>)
    requires RatingSources(state) == Value((JObject(ratings), JObject(reviews)))
    requires "reviewsCount" in ratings && ratings["reviewsCount"] == JInt(0)
    ensures ProductRecord(tcin, Page(ld, state)).entries[ReviewCount] == Lookup(reviews, "totalReviewCount")
  {
    RatingsFallBack(tcin, ld, state, ratings, JObject(reviews));
  }

  /** When the state try block raises before app.py:42 is written (no blob,
      an unparsable one, or a non-dict on the path to `ratings` and
      `reviews`), the except branch leaves both rating keys None. */
  lemma RatingsDefaultWhenStateFails(tcin: string, ld: Embedded, state: Embedded)
    requires RatingSources(state).Raised? ||
             ReviewCountValue(RatingSources(state).v.0, RatingSources(state).v.1).Raised?
    ensures ProductRecord(tcin, Page(ld, state)).entries[ReviewCount] == JNull
    ensures ProductRecord(tcin, Page(ld, state)).entries[StarRating] == JNull
  {
    RatingsOfPage(tcin, ld, state);
  }

  /** When only app.py:43 raises, the review count already written survives:
      `setdefault` does not overwrite it, and only the star rating is None. */
  lemma SetDefaultKeepsReviewCount(tcin: string, ld: Embedded, state: Embedded)
    requires RatingSources(state).Value?
    requires ReviewCountValue(RatingSources(state).v.0, RatingSources(state).v.1).Value?
    requires StarRatingValue(RatingSources(state).v.0, RatingSources(state).v.1).Raised?
    ensures ProductRecord(tcin, Page(ld, state)).entries[ReviewCount] ==
            ReviewCountValue(RatingSources(state).v.0, RatingSources(state).v.1).v
    ensures ProductRecord(tcin, Page(ld, state)).entries[StarRating] == JNull
  {
    RatingsOfPage(tcin, ld, state);
  }

  /** An instance of the above: a truthy `ratings.reviewsCount` makes
      app.py:42 succeed without touching `reviews`, which is None, so
      app.py:43 raises on `reviews.get`. */
  lemma ReviewsNullAfterCount(tcin: string, ld: Embedded)
    ensures
      var state := Parsed(JObject(map["product" := JObject(map[
                     "ratings" := JObject(map["reviewsCount" := JInt(5)]),
                     "reviews" := JNull])]));
      ProductRecord(tcin, Page(ld, state)).entries[ReviewCount] == JInt(5) &&
      ProductRecord(tcin, Page(ld, state)).entries[StarRating] == JNull
  {
    var ratings := JObject(map["reviewsCount" := JInt(5)]);
    var state := Parsed(JObject(map["product" := JObject(map["ratings" := ratings, "reviews" := JNull])]));
    assert RatingSources(state) == Value((ratings, JNull));
    RatingsOfPage(tcin, ld, state);
  }

  /** A page with neither embedded document gives the two None ratings and
      the identifier, and no error. */
  lemma EmptyPageRecord(tcin: string)
    ensures ProductRecord(tcin, Page(Missing, Missing)) ==
      Dict([ReviewCount, StarRating, Tcin],
           map[ReviewCount := JNull, StarRating := JNull, Tcin := JString(tcin)])
  {
  }
}
