/**
 * `save_to_csv` of realt.by.py: the header row and one row of cells per
 * Product, as handed to the CSV writer. Writing the file is not modelled.
 */
module Csv {
  import opened Wrappers
  import opened Text
  import opened Listing

  /** A value handed to the CSV writer: a string, a list of strings, or the float 0.0. */
  datatype Cell = Str(value: string) | StrList(values: seq<string>) | ZeroFloat

  /** The column titles, in column order. */
  const Headers: seq<string> := [
    "ID объявления",
    "Дата публикации",
    "Название объявления",
    "Стоимость сдачи",
    "Имя владельца",
    "Контактные телефоны",
    "Контактный email",
    "GPS координаты",
    "Область",
    "Населенный пункт",
    "Район области",
    "Направление",
    "Адрес",
    "Вид объекта",
    "URL объявления"]

  /** The separator between latitude and longitude in the coordinates column. */
  const CoordinateSeparator: string := ", "

  function HeaderRow(): (r: seq<Cell>)
    ensures |r| == |Headers| == 15
    ensures forall i :: 0 <= i < |r| ==> r[i] == Str(Headers[i])
  {
    seq(|Headers|, i requires 0 <= i < |Headers| => Str(Headers[i]))
  }

  /** The price cell: the price text, or the float default when no price block was found. */
  function PriceCell(price: Price): Cell {
    match price
    case DefaultPrice => ZeroFloat
    case PriceText(text) => Str(text)
  }

  /** The row of one Product: one cell per header, opening with the id and closing with the URL. */
  function Row(p: Product): (r: seq<Cell>)
    ensures |r| == |Headers|
    ensures r[0] == Str(p.id) && r[|r| - 1] == Str(p.url)
  {
    [Str(p.id), Str(p.published), Str(p.title), PriceCell(p.price),
     Str(p.agent.name), StrList(p.agent.phoneNumbers), Str(p.agent.email),
     Str(p.location.latitude + CoordinateSeparator + p.location.longitude),
     Str(p.location.region), Str(p.location.locality), Str(p.location.regionDistrict),
     Str(p.location.direction), Str(p.location.address), Str(p.objectType), Str(p.url)]
  }

  /** Under their headers: the id opens the row, column 8 joins the coordinates, the URL closes it. */
  lemma RowShape(p: Product)
    ensures Headers[0] == "ID объявления" && Row(p)[0] == Str(p.id)
    ensures Headers[7] == "GPS координаты"
      && Row(p)[7] == Str(p.location.latitude + ", " + p.location.longitude)
    ensures Headers[14] == "URL объявления" && Row(p)[14] == Str(p.url)
  {
  }

  /**
   * `save_to_csv`: the header row, then one row per Product in list order.
   * The returned rows are what the writer receives.
   */
  method SaveToCsv(products: seq<Product>) returns (rows: seq<seq<Cell>>)
    ensures |rows| == |products| + 1
    ensures rows[0] == HeaderRow()
    ensures forall i :: 0 <= i < |products| ==> rows[i + 1] == Row(products[i])
  {
    rows := [HeaderRow()];
    for i := 0 to |products|
      invariant |rows| == i + 1 && rows[0] == HeaderRow()
      invariant forall k :: 0 <= k < i ==> rows[k + 1] == Row(products[k])
    {
      rows := rows + [Row(products[i])];
    }
  }

  /** The Product a row was made from, read back column by column; None when the row has the wrong shape. */
  function ReadRow(row: seq<Cell>): Option<Product> {
    if |row| != |Headers| then None
    else if !(row[0].Str? && row[1].Str? && row[2].Str? && !row[3].StrList? && row[4].Str?
              && row[5].StrList? && row[6].Str? && row[7].Str? && row[8].Str? && row[9].Str?
              && row[10].Str? && row[11].Str? && row[12].Str? && row[13].Str? && row[14].Str?) then None
    else
      match SplitAtFirst(row[7].value, CoordinateSeparator)
      case None => None
      case Some(coordinates) =>
        var price := if row[3].ZeroFloat? then DefaultPrice else PriceText(row[3].value);
        Some(Product(
          id := row[0].value, url := row[14].value, published := row[1].value, title := row[2].value,
          price := price,
          agent := Agent(name := row[4].value, email := row[6].value, phoneNumbers := row[5].values),
          location := Location(
            longitude := coordinates.1, latitude := coordinates.0,
            region := row[8].value, locality := row[9].value, regionDistrict := row[10].value,
            direction := row[11].value, address := row[12].value),
          objectType := row[13].value))
  }

  /**
   * Reading a row back gives the Product it was made from, as long as the
   * coordinates column can be split at its first ", ": the latitude must not
   * itself hold that separator.
   */
  lemma RowRoundTrip(p: Product)
    requires !Contains(p.location.latitude, CoordinateSeparator)
    ensures ReadRow(Row(p)) == Some(p)
  {
    var lat, long := p.location.latitude, p.location.longitude;
    assert CoordinateSeparator[..|CoordinateSeparator| - 1] == ",";
    TrailingCommaAddsNoSeparator(lat);
    SplitJoin(lat, CoordinateSeparator, long);
    assert Row(p)[7].value == lat + CoordinateSeparator + long;
  }

  /** A ',' after a string cannot complete a ", " in it, since the separator ends in a space. */
  lemma TrailingCommaAddsNoSeparator(s: string)
    ensures Contains(s + ",", CoordinateSeparator) <==> Contains(s, CoordinateSeparator)
  {
    var sep := CoordinateSeparator;
    if i :| OccursAt(s + ",", sep, i) {
      assert (s + ",")[i + 1] == (s + ",")[i..i + 2][1] == ' ';
      assert i + 2 <= |s|;
      assert (s + ",")[i..i + 2] == s[i..i + 2];
      assert OccursAt(s, sep, i);
    }
    if i :| OccursAt(s, sep, i) {
      assert (s + ",")[i..i + 2] == s[i..i + 2];
      assert OccursAt(s + ",", sep, i);
    }
  }

  /** A latitude holding ", " makes the longitude column absorb part of it: the round trip fails. */
  lemma RowRoundTripNeedsSeparatorFreeLatitude()
    ensures var p := Product("1", "u", "", "", DefaultPrice, Agent("", "", []),
                             Location("3", "1, 2", "", "", "", "", ""), "");
            ReadRow(Row(p)) != Some(p)
  {
    var p := Product("1", "u", "", "", DefaultPrice, Agent("", "", []),
                     Location("3", "1, 2", "", "", "", "", ""), "");
    assert Row(p)[7].value == "1, 2, 3";
    assert "1, 2, 3"[..2] != CoordinateSeparator && "1, 2, 3"[1..] == ", 2, 3";
    assert SplitAtFirst(", 2, 3", CoordinateSeparator) == Some(([], "2, 3"));
    assert "1, 2, 3"[0] == '1' && ['1'] + [] == "1";
    assert SplitAtFirst("1, 2, 3", CoordinateSeparator) == Some(("1", "2, 3"));
  }
}
