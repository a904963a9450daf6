/**
 * `get_product` of realt.by.py: one detail page turned into a Product. The
 * page is given as what each HTML lookup of the source finds on it; which
 * lookups raise decides whether a Product comes out at all.
 */
module Extract {
  import opened Wrappers
  import opened Text
  import opened Listing
  import opened Fields

  /**
   * What one lookup found: nothing (the field keeps its default), a region
   * whose nested lookup raises, or the value read from it.
   */
  datatype Block<T> = Missing | Malformed | Found(value: T)

  /** The `position.` object of the map widget's `data-center` JSON: x is read as latitude, y as longitude. */
  datatype Coordinates = Coordinates(x: string, y: string)

  /** A fetched and parsed detail page, as the lookups of `get_product` see it. */
  datatype DetailPage = DetailPage(
    /** the first text node containing "Опубликовано" */
    published: Option<string>,
    /** the text of the `h1.h-giant` heading */
    title: Option<string>,
    /** the `price-block` region and the text of its `d-flex` child (Malformed: no such child) */
    price: Block<string>,
    /** the `agent-block` region and the text of its `strong` child (Malformed: no such child) */
    agentName: Block<string>,
    /** the `object-contacts` region and the hrefs of its anchors (Malformed: an anchor has no href) */
    contacts: Block<seq<string>>,
    /** the `map` element and its decoded position (Malformed: no child div, or the JSON does not decode) */
    mapCenter: Block<Coordinates>,
    /** the "Местоположение" heading and the cell texts of its table's rows (Malformed: no table) */
    location: Block<seq<seq<string>>>,
    /** the cells of the row holding the text "Вид объекта" */
    objectTypeCells: Option<seq<string>>)

  /** Why `get_product` raised. */
  datatype ExtractError =
    | FetchFailed
    | PriceWithoutAmount
    | AgentWithoutName
    | AnchorWithoutHref
    | UnreadableMap
    | LocationWithoutTable

  /** The error the agent and contacts lookups raise, if any: the agent block first. */
  function AgentError(page: DetailPage): Option<ExtractError> {
    if page.agentName.Malformed? then Some(AgentWithoutName)
    else if page.contacts.Malformed? then Some(AnchorWithoutHref)
    else None
  }

  /** The error the map and location-table lookups raise, if any: the map first. */
  function LocationError(page: DetailPage): Option<ExtractError> {
    if page.mapCenter.Malformed? then Some(UnreadableMap)
    else if page.location.Malformed? then Some(LocationWithoutTable)
    else None
  }

  /** The first lookup, in the order `get_product` runs them, that raises on this page. */
  function FirstError(page: DetailPage): Option<ExtractError> {
    if page.price.Malformed? then Some(PriceWithoutAmount)
    else if AgentError(page).Some? then AgentError(page)
    else LocationError(page)
  }

  /** The hrefs of the contacts block, none when there is no block. */
  function ContactHrefs(page: DetailPage): seq<string> {
    if page.contacts.Found? then page.contacts.value else []
  }

  /** The rows of the location table, none when there is no table. */
  function LocationRows(page: DetailPage): seq<seq<string>> {
    if page.location.Found? then page.location.value else []
  }

  /** The Agent of the page: the stripped name, then the contacts folded in. */
  function AgentOf(page: DetailPage): Agent {
    var name := if page.agentName.Found? then Strip(page.agentName.value) else "";
    Contacts(EmptyAgent.(name := name), ContactHrefs(page))
  }

  /** The coordinates the map gives, in an otherwise empty Location. */
  function MapLocation(page: DetailPage): Location {
    if page.mapCenter.Found? then EmptyLocation.(latitude := page.mapCenter.value.x, longitude := page.mapCenter.value.y)
    else EmptyLocation
  }

  /** The Location of the page: the map's coordinates, then the table rows folded in. */
  function LocationOf(page: DetailPage): Location {
    ApplyRows(MapLocation(page), LocationRows(page))
  }

  /**
   * What every field of the Product is, field by field, for a page on which
   * no lookup raises.
   */
  function ProductOf(url: string, page: DetailPage): Product {
    Product(
      id := ListingId(url),
      url := url,
      published := if page.published.Some? then Published(page.published.value) else "",
      title := if page.title.Some? then Strip(page.title.value) else "",
      price := if page.price.Found? then PriceText(Strip(page.price.value)) else DefaultPrice,
      agent := AgentOf(page),
      location := LocationOf(page),
      objectType :=
        if page.objectTypeCells.Some? && |page.objectTypeCells.value| == 2
        then Strip(page.objectTypeCells.value[1]) else "")
  }

  /**
   * `get_product(url)` where `fetched` is the parsed page, or None when
   * fetching or parsing it raised.
   */
  function Scrape(url: string, fetched: Option<DetailPage>): Result<Product, ExtractError> {
    match fetched
    case None => Failure(FetchFailed)
    case Some(page) =>
      match FirstError(page)
      case Some(e) => Failure(e)
      case None => Success(ProductOf(url, page))
  }

  /**
   * `get_product`: start from empty fields, apply the lookups in source order,
   * each overwriting the fields it reads, and stop at the first that raises.
   */
  method GetProduct(url: string, site: string -> Option<DetailPage>) returns (r: Result<Product, ExtractError>)
    ensures r == Scrape(url, site(url))
  {
    var fetched := site(url);
    if fetched.None? {
      return Failure(FetchFailed);
    }
    var page := fetched.value;
    var published, title := "", "";
    if page.published.Some? {
      published := Published(page.published.value);
    }
    if page.title.Some? {
      title := Strip(page.title.value);
    }
    var price := DefaultPrice;
    match page.price {
      case Missing =>
      case Malformed => return Failure(PriceWithoutAmount);
      case Found(text) => price := PriceText(Strip(text));
    }
    var agent := ReadAgent(page);
    if agent.Failure? {
      return Failure(agent.error);
    }
    var location := ReadLocation(page);
    if location.Failure? {
      return Failure(location.error);
    }
    var objectType := "";
    if page.objectTypeCells.Some? && |page.objectTypeCells.value| == 2 {
      objectType := Strip(page.objectTypeCells.value[1]);
    }
    return Success(Product(ListingId(url), url, published, title, price, agent.value, location.value, objectType));
  }

  /** The agent-block and contacts part of `get_product`. */
  method ReadAgent(page: DetailPage) returns (r: Result<Agent, ExtractError>)
    ensures AgentError(page).Some? ==> r == Failure(AgentError(page).value)
    ensures AgentError(page).None? ==> r == Success(AgentOf(page))
  {
    var agent := EmptyAgent;
    match page.agentName {
      case Missing =>
      case Malformed => return Failure(AgentWithoutName);
      case Found(text) => agent := agent.(name := Strip(text));
    }
    match page.contacts {
      case Missing =>
        assert TelNumbers([]) == [] && LastMailto([]) == None;
        assert agent.phoneNumbers + [] == agent.phoneNumbers;
      case Malformed => return Failure(AnchorWithoutHref);
      case Found(hrefs) => agent := FoldContacts(agent, hrefs);
    }
    return Success(agent);
  }

  /** The map and location-table part of `get_product`. */
  method ReadLocation(page: DetailPage) returns (r: Result<Location, ExtractError>)
    ensures LocationError(page).Some? ==> r == Failure(LocationError(page).value)
    ensures LocationError(page).None? ==> r == Success(LocationOf(page))
  {
    var location := EmptyLocation;
    match page.mapCenter {
      case Missing =>
      case Malformed => return Failure(UnreadableMap);
      case Found(center) => location := location.(latitude := center.x, longitude := center.y);
    }
    match page.location {
      case Missing =>
      case Malformed => return Failure(LocationWithoutTable);
      case Found(rows) => location := FoldLocation(location, rows);
    }
    return Success(location);
  }

  /** `get_product` returns a Product exactly when none of its nested lookups raises. */
  lemma ScrapeSucceeds(url: string, page: DetailPage)
    ensures Scrape(url, Some(page)).Success? <==>
      !page.price.Malformed? && !page.agentName.Malformed? && !page.contacts.Malformed?
      && !page.mapCenter.Malformed? && !page.location.Malformed?
  {
  }

  /**
   * On a page that yields a Product, no contacts block gives no phone numbers
   * and an empty email, and no map gives empty coordinates. That a missing
   * block never makes extraction fail is `ScrapeSucceeds`.
   */
  lemma ScrapeDefaults(url: string, page: DetailPage)
    requires Scrape(url, Some(page)).Success?
    ensures page.contacts.Missing? ==>
      Scrape(url, Some(page)).value.agent.phoneNumbers == [] && Scrape(url, Some(page)).value.agent.email == ""
    ensures page.mapCenter.Missing? ==>
      Scrape(url, Some(page)).value.location.latitude == "" && Scrape(url, Some(page)).value.location.longitude == ""
  {
    if page.mapCenter.Missing? {
      CoordinatesKept(EmptyLocation, LocationRows(page));
    }
  }

  /**
   * On a page whose location table's last row writing field `f` is row `j`,
   * the Product's field is that row's stripped second cell.
   */
  lemma ScrapeLocationLastWriter(url: string, page: DetailPage, f: LocationField, j: int)
    requires Scrape(url, Some(page)).Success?
    requires 0 <= j < |LocationRows(page)| && Writes(LocationRows(page)[j], f)
    requires forall k :: j < k < |LocationRows(page)| ==> !Writes(LocationRows(page)[k], f)
    ensures Get(Scrape(url, Some(page)).value.location, f) == Strip(LocationRows(page)[j][1])
  {
    assert Scrape(url, Some(page)).value.location == LocationOf(page);
    LastWriterWins(MapLocation(page), LocationRows(page), j, f);
  }

  /** On a page where no table row writes field `f`, the Product's field stays empty. */
  lemma ScrapeLocationUnwritten(url: string, page: DetailPage, f: LocationField)
    requires Scrape(url, Some(page)).Success?
    requires forall k :: 0 <= k < |LocationRows(page)| ==> !Writes(LocationRows(page)[k], f)
    ensures Get(Scrape(url, Some(page)).value.location, f) == ""
  {
    assert Scrape(url, Some(page)).value.location == LocationOf(page);
    UnwrittenKept(MapLocation(page), LocationRows(page), f);
    assert Get(MapLocation(page), f) == "";
  }

  /**
   * A two-cell row whose label is on no allow-list entry, or a row without
   * exactly two cells, can be added anywhere in the location table without
   * changing what `get_product` returns.
   */
  lemma ScrapeIgnoresRow(url: string, page: DetailPage, a: seq<seq<string>>, row: seq<string>, b: seq<seq<string>>)
    requires page.location == Found(a + b)
    requires |row| != 2 || Classify(row[0]) == None
    ensures Scrape(url, Some(page.(location := Found(a + [row] + b)))) == Scrape(url, Some(page))
  {
    var page' := page.(location := Found(a + [row] + b));
    hide Strip, Contacts, ListingId, Published, ApplyRows;
    assert LocationOf(page') == LocationOf(page) by {
      assert MapLocation(page') == MapLocation(page);
      IgnoredRow(MapLocation(page), a, row, b);
    }
    assert FirstError(page') == FirstError(page);
    assert ProductOf(url, page') == ProductOf(url, page);
  }

  /** The listing id is the same whether or not the URL ends in a slash. */
  lemma ScrapeIdIgnoresTrailingSlash(url: string, page: DetailPage)
    requires Scrape(url, Some(page)).Success?
    ensures Scrape(url + "/", Some(page)).Success?
    ensures Scrape(url + "/", Some(page)).value.id == Scrape(url, Some(page)).value.id
  {
    ScrapeSucceeds(url, page);
    ScrapeSucceeds(url + "/", page);
    assert Scrape(url, Some(page)).value.id == ListingId(url);
    assert Scrape(url + "/", Some(page)).value.id == ListingId(url + "/");
    ListingIdIgnoresTrailingSlashes(url, "/");
  }
}
