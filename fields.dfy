/**
 * The field rules of `get_product` in realt.by.py, over the strings and
 * sequences that the HTML lookups hand it: the listing id, the published
 * date, the contacts fold and the location-table fold.
 */
module Fields {
  import opened Wrappers
  import opened Text
  import opened Listing

  // ---------------------------------------------------------------------------
  // Listing id: `product_url.rstrip('/').split('/')[-1]`
  // ---------------------------------------------------------------------------

  /** The listing id: the last `/`-separated segment of the URL once trailing `/` are gone. */
  function ListingId(url: string): (id: string)
    ensures '/' !in id
    ensures var path := TrimEnd(url, {'/'});
      |id| <= |path| && id == path[|path| - |id|..] && (|id| == |path| || path[|path| - |id| - 1] == '/')
  {
    AfterLast(TrimEnd(url, {'/'}), '/')
  }

  /** Any number of trailing slashes leaves the id unchanged. */
  lemma ListingIdIgnoresTrailingSlashes(url: string, slashes: string)
    requires AllIn(slashes, {'/'})
    ensures ListingId(url + slashes) == ListingId(url)
  {
    TrimEndAppend(url, slashes, {'/'});
  }

  /** The part after the last separator is exactly the final segment appended after it. */
  lemma {:induction false} AfterLastSegment(path: string, sep: char, segment: string)
    requires sep !in segment
    ensures AfterLast(path + [sep] + segment, sep) == segment
    decreases |segment|
  {
    var s := path + [sep] + segment;
    if segment == [] {
      assert s[|s| - 1] == sep;
    } else {
      var init := segment[..|segment| - 1];
      assert s[..|s| - 1] == path + [sep] + init;
      assert s[|s| - 1] == segment[|segment| - 1];
      AfterLastSegment(path, sep, init);
      assert init + [segment[|segment| - 1]] == segment;
    }
  }

  /** A detail-page URL `<anything>/<id>/` yields `<id>`, with or without the final slash. */
  lemma ListingIdOfPath(base: string, id: string, slashes: string)
    requires id != [] && '/' !in id
    requires AllIn(slashes, {'/'})
    ensures ListingId(base + "/" + id + slashes) == id
  {
    var path := base + ['/'] + id;
    assert base + "/" + id + slashes == path + slashes;
    calc {
      ListingId(path + slashes);
      { ListingIdIgnoresTrailingSlashes(path, slashes); }
      ListingId(path);
      { TrimEndOfUnslashed(path); }
      AfterLast(path, '/');
      { AfterLastSegment(base, '/', id); }
      id;
    }
  }

  /** A path that does not end in '/' is left whole by `rstrip('/')`. */
  lemma TrimEndOfUnslashed(path: string)
    requires |path| > 0 && path[|path| - 1] != '/'
    ensures TrimEnd(path, {'/'}) == path
  {
  }

  // ---------------------------------------------------------------------------
  // Published date: `published_string[13:]`
  // ---------------------------------------------------------------------------

  /** The number of leading characters the source drops from the matched text. */
  const PublishedOffset: nat := 13

  /** The text node the published date is looked up by. */
  const PublishedLabel: string := "Опубликовано"

  /**
   * The published field from the first text node containing the label: that
   * text from index 13 on, empty when it is shorter (Python slicing never fails).
   */
  function Published(matched: string): (r: string)
    ensures |r| == if |matched| <= PublishedOffset then 0 else |matched| - PublishedOffset
    ensures r == matched[|matched| - |r|..]
  {
    if |matched| <= PublishedOffset then [] else matched[PublishedOffset..]
  }

  /**
   * The offset is the label plus one more character, so for a node reading
   * "Опубликовано: <date>" the result keeps the space after the colon: the
   * value is not trimmed.
   */
  lemma PublishedAfterLabel(date: string)
    ensures |PublishedLabel + ":"| == PublishedOffset
    ensures Published(PublishedLabel + ": " + date) == " " + date
  {
    var s := PublishedLabel + ": " + date;
    assert s[PublishedOffset..] == " " + date;
  }

  // ---------------------------------------------------------------------------
  // Contacts: the `object-contacts` anchors
  // ---------------------------------------------------------------------------

  const TelPrefix: string := "tel:"
  const MailtoPrefix: string := "mailto:"

  /** The phone number an href contributes: its text after `tel:`, or nothing. */
  function PhoneOf(href: string): seq<string> {
    if StartsWith(href, TelPrefix) then [RemovePrefix(href, TelPrefix)] else []
  }

  /** The `tel:` hrefs with the prefix removed, in document order. */
  function TelNumbers(hrefs: seq<string>): (r: seq<string>)
    ensures |r| <= |hrefs|
    decreases |hrefs|
  {
    if hrefs == [] then [] else PhoneOf(hrefs[0]) + TelNumbers(hrefs[1..])
  }

  /** href `h` sets the email: it starts with `mailto:` (and so not with `tel:`). */
  predicate IsMailto(h: string) {
    !StartsWith(h, TelPrefix) && StartsWith(h, MailtoPrefix)
  }

  /** The last `mailto:` href with the prefix removed, or None when there is none. */
  function LastMailto(hrefs: seq<string>): (r: Option<string>)
    decreases |hrefs|
  {
    if hrefs == [] then None
    else
      var h := hrefs[|hrefs| - 1];
      if IsMailto(h) then Some(RemovePrefix(h, MailtoPrefix))
      else LastMailto(hrefs[..|hrefs| - 1])
  }

  /**
   * The agent after the contacts loop: every `tel:` href appended to the phone
   * numbers, the email replaced by the last `mailto:` href, the name untouched.
   */
  function Contacts(agent: Agent, hrefs: seq<string>): Agent {
    agent.(phoneNumbers := agent.phoneNumbers + TelNumbers(hrefs),
           email := LastMailto(hrefs).GetOr(agent.email))
  }

  /** Two runs of hrefs give their phone numbers concatenated, in order. */
  lemma {:induction false} TelNumbersAppend(a: seq<string>, b: seq<string>)
    ensures TelNumbers(a + b) == TelNumbers(a) + TelNumbers(b)
    decreases |a|
  {
    if a == [] {
      assert a + b == b;
    } else {
      assert (a + b)[0] == a[0];
      assert (a + b)[1..] == a[1..] + b;
      TelNumbersAppend(a[1..], b);
    }
  }

  /** Prefixing each number with `tel:` and reading the hrefs back gives the numbers. */
  lemma {:induction false} TelNumbersOfTelHrefs(numbers: seq<string>)
    ensures TelNumbers(seq(|numbers|, i requires 0 <= i < |numbers| => TelPrefix + numbers[i])) == numbers
    decreases |numbers|
  {
    var hrefs := seq(|numbers|, i requires 0 <= i < |numbers| => TelPrefix + numbers[i]);
    if numbers != [] {
      var rest := seq(|numbers| - 1, i requires 0 <= i < |numbers| - 1 => TelPrefix + numbers[1..][i]);
      assert hrefs[1..] == rest;
      assert RemovePrefix(hrefs[0], TelPrefix) == numbers[0];
      TelNumbersOfTelHrefs(numbers[1..]);
      assert [numbers[0]] + numbers[1..] == numbers;
    }
  }

  /** Last writer wins: a later `mailto:` overrides everything before it. */
  lemma {:induction false} LastMailtoAppend(a: seq<string>, b: seq<string>)
    ensures LastMailto(a + b) == if LastMailto(b).Some? then LastMailto(b) else LastMailto(a)
    decreases |b|
  {
    if b == [] {
      assert a + b == a;
    } else {
      var b' := b[..|b| - 1];
      assert (a + b)[..|a + b| - 1] == a + b';
      assert (a + b)[|a + b| - 1] == b[|b| - 1];
      LastMailtoAppend(a, b');
    }
  }

  /** The email is the `mailto:` href at index `j` when no later href is a `mailto:`. */
  lemma {:induction false} LastMailtoAt(hrefs: seq<string>, j: int)
    requires 0 <= j < |hrefs| && IsMailto(hrefs[j])
    requires forall k :: j < k < |hrefs| ==> !IsMailto(hrefs[k])
    ensures LastMailto(hrefs) == Some(RemovePrefix(hrefs[j], MailtoPrefix))
    decreases |hrefs|
  {
    if j < |hrefs| - 1 {
      LastMailtoAt(hrefs[..|hrefs| - 1], j);
    }
  }

  /** Without any `mailto:` href the email keeps its previous value. */
  lemma {:induction false} LastMailtoNone(hrefs: seq<string>)
    ensures LastMailto(hrefs) == None <==> forall k :: 0 <= k < |hrefs| ==> !IsMailto(hrefs[k])
    decreases |hrefs|
  {
    if hrefs != [] {
      LastMailtoNone(hrefs[..|hrefs| - 1]);
    }
  }

  /** An href that is neither `tel:` nor `mailto:` changes nothing, wherever it stands. */
  lemma OtherHrefIgnored(agent: Agent, a: seq<string>, h: string, b: seq<string>)
    requires !StartsWith(h, TelPrefix) && !StartsWith(h, MailtoPrefix)
    ensures Contacts(agent, a + [h] + b) == Contacts(agent, a + b)
  {
    assert TelNumbers([h]) == [] by {
      assert [h][1..] == [];
    }
    assert LastMailto([h]) == None by {
      assert [h][..0] == [];
    }
    calc {
      TelNumbers(a + [h] + b);
      { TelNumbersAppend(a + [h], b); }
      TelNumbers(a + [h]) + TelNumbers(b);
      { TelNumbersAppend(a, [h]); }
      TelNumbers(a) + TelNumbers(b);
      { TelNumbersAppend(a, b); }
      TelNumbers(a + b);
    }
    calc {
      LastMailto(a + [h] + b);
      { LastMailtoAppend(a + [h], b); LastMailtoAppend(a, [h]); LastMailtoAppend(a, b); }
      LastMailto(a + b);
    }
  }

  /** The contacts loop of `get_product`, run over the anchors' hrefs in document order. */
  method FoldContacts(agent: Agent, hrefs: seq<string>) returns (r: Agent)
    ensures r == Contacts(agent, hrefs)
  {
    r := agent;
    for i := 0 to |hrefs|
      invariant r == Contacts(agent, hrefs[..i])
    {
      var href := hrefs[i];
      assert hrefs[..i + 1] == hrefs[..i] + [href];
      TelNumbersAppend(hrefs[..i], [href]);
      if StartsWith(href, TelPrefix) {
        r := r.(phoneNumbers := r.phoneNumbers + [RemovePrefix(href, TelPrefix)]);
      } else if StartsWith(href, MailtoPrefix) {
        r := r.(email := RemovePrefix(href, MailtoPrefix));
      }
    }
    assert hrefs[..|hrefs|] == hrefs;
  }

  // ---------------------------------------------------------------------------
  // Location table: two-cell rows classified by an ordered label allow-list
  // ---------------------------------------------------------------------------

  /** The Location fields a table row can set. */
  datatype LocationField = Region | Locality | Address | RegionDistrict | Direction

  /** The label text that selects each field. */
  function Label(f: LocationField): string {
    match f
    case Region => "Область"
    case Locality => "Населенный пункт"
    case Address => "Адрес"
    case RegionDistrict => "Район"
    case Direction => "Направление"
  }

  /** The position of a field's label in the order the labels are tried. */
  function Rank(f: LocationField): nat {
    match f
    case Region => 0
    case Locality => 1
    case Address => 2
    case RegionDistrict => 3
    case Direction => 4
  }

  /**
   * The field a row's first cell selects: the first label it contains, in rank
   * order. A selected field's label occurs in the text.
   */
  function Classify(caption: string): (r: Option<LocationField>)
    ensures r.Some? ==> Contains(caption, Label(r.value))
  {
    if Contains(caption, Label(Region)) then Some(Region)
    else if Contains(caption, Label(Locality)) then Some(Locality)
    else if Contains(caption, Label(Address)) then Some(Address)
    else if Contains(caption, Label(RegionDistrict)) then Some(RegionDistrict)
    else if Contains(caption, Label(Direction)) then Some(Direction)
    else None
  }

  /** Classify picks the lowest-ranked label the text contains, and nothing when it contains none. */
  lemma ClassifyFirstMatch(caption: string, f: LocationField)
    ensures Classify(caption) == Some(f) <==>
      Contains(caption, Label(f)) && forall g: LocationField :: Rank(g) < Rank(f) ==> !Contains(caption, Label(g))
    ensures Classify(caption) == None <==> forall g: LocationField :: !Contains(caption, Label(g))
  {
    hide Contains;
  }

  function Get(loc: Location, f: LocationField): string {
    match f
    case Region => loc.region
    case Locality => loc.locality
    case Address => loc.address
    case RegionDistrict => loc.regionDistrict
    case Direction => loc.direction
  }

  /** `loc` with field `f` set to `v` and every other field, coordinates included, kept. */
  function Set(loc: Location, f: LocationField, v: string): (r: Location)
    ensures Get(r, f) == v
    ensures forall g :: g != f ==> Get(r, g) == Get(loc, g)
    ensures r.latitude == loc.latitude && r.longitude == loc.longitude
  {
    match f
    case Region => loc.(region := v)
    case Locality => loc.(locality := v)
    case Address => loc.(address := v)
    case RegionDistrict => loc.(regionDistrict := v)
    case Direction => loc.(direction := v)
  }

  /** The row has exactly two cells and its first cell selects field `f`. */
  predicate Writes(row: seq<string>, f: LocationField) {
    |row| == 2 && Classify(row[0]) == Some(f)
  }

  /** One row's effect: a recognised two-cell row sets its field to the stripped second cell. */
  function ApplyRow(loc: Location, row: seq<string>): Location {
    if |row| == 2 then
      match Classify(row[0])
      case None => loc
      case Some(f) => Set(loc, f, Strip(row[1]))
    else loc
  }

  /** The rows applied in table order. */
  function ApplyRows(loc: Location, rows: seq<seq<string>>): Location
    decreases |rows|
  {
    if rows == [] then loc else ApplyRow(ApplyRows(loc, rows[..|rows| - 1]), rows[|rows| - 1])
  }

  /** Applying two runs of rows one after the other is applying their concatenation. */
  lemma {:induction false} ApplyRowsAppend(loc: Location, a: seq<seq<string>>, b: seq<seq<string>>)
    ensures ApplyRows(loc, a + b) == ApplyRows(ApplyRows(loc, a), b)
    decreases |b|
  {
    if b == [] {
      assert a + b == a;
    } else {
      var b' := b[..|b| - 1];
      assert (a + b)[..|a + b| - 1] == a + b';
      assert (a + b)[|a + b| - 1] == b[|b| - 1];
      ApplyRowsAppend(loc, a, b');
    }
  }

  /** A row without exactly two cells, or with an unrecognised label, changes nothing. */
  lemma IgnoredRow(loc: Location, a: seq<seq<string>>, row: seq<string>, b: seq<seq<string>>)
    requires |row| != 2 || Classify(row[0]) == None
    ensures ApplyRows(loc, a + [row] + b) == ApplyRows(loc, a + b)
  {
    ApplyRowsAppend(loc, a + [row], b);
    ApplyRowsAppend(loc, a, [row]);
    ApplyRowsAppend(loc, a, b);
    assert [row][..0] == [];
  }

  /** The coordinates come from the map alone: no table row overwrites them. */
  lemma {:induction false} CoordinatesKept(loc: Location, rows: seq<seq<string>>)
    ensures ApplyRows(loc, rows).latitude == loc.latitude
    ensures ApplyRows(loc, rows).longitude == loc.longitude
    decreases |rows|
  {
    if rows != [] {
      CoordinatesKept(loc, rows[..|rows| - 1]);
    }
  }

  /** A field no row writes keeps its value. */
  lemma {:induction false} UnwrittenKept(loc: Location, rows: seq<seq<string>>, f: LocationField)
    requires forall k :: 0 <= k < |rows| ==> !Writes(rows[k], f)
    ensures Get(ApplyRows(loc, rows), f) == Get(loc, f)
    decreases |rows|
  {
    if rows != [] {
      UnwrittenKept(loc, rows[..|rows| - 1], f);
      assert !Writes(rows[|rows| - 1], f);
    }
  }

  /** Last writer wins: the field holds the stripped value of the last row that writes it. */
  lemma {:induction false} LastWriterWins(loc: Location, rows: seq<seq<string>>, j: int, f: LocationField)
    requires 0 <= j < |rows| && Writes(rows[j], f)
    requires forall k :: j < k < |rows| ==> !Writes(rows[k], f)
    ensures Get(ApplyRows(loc, rows), f) == Strip(rows[j][1])
    decreases |rows|
  {
    if j < |rows| - 1 {
      LastWriterWins(loc, rows[..|rows| - 1], j, f);
      assert !Writes(rows[|rows| - 1], f);
    }
  }

  /** The location-table loop of `get_product`, row by row in table order. */
  method FoldLocation(loc: Location, rows: seq<seq<string>>) returns (r: Location)
    ensures r == ApplyRows(loc, rows)
  {
    r := loc;
    for i := 0 to |rows|
      invariant r == ApplyRows(loc, rows[..i])
    {
      var cells := rows[i];
      assert rows[..i + 1][..i] == rows[..i];
      if |cells| == 2 {
        match Classify(cells[0]) {
          case None =>
          case Some(Region) => r := r.(region := Strip(cells[1]));
          case Some(Locality) => r := r.(locality := Strip(cells[1]));
          case Some(Address) => r := r.(address := Strip(cells[1]));
          case Some(RegionDistrict) => r := r.(regionDistrict := Strip(cells[1]));
          case Some(Direction) => r := r.(direction := Strip(cells[1]));
        }
      }
    }
    assert rows[..|rows|] == rows;
  }
}
