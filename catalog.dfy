/** `get_movie_details`: find a catalog row by title (case-insensitive exact
    match first, then the first row whose title contains the query) and
    project nine of its fields through `safe_get` with per-field defaults. */
module MovieResolver {
  import opened Wrappers

  /** A catalog cell as `movie.get(key, default)` sees it: the column may be
      missing, the value may be `None`, a float NaN, a list (or tuple), a
      string or a number. */
  datatype Cell = Missing | NoneCell | NaN | List(items: seq<string>) | Text(s: string) | Number(x: real)

  /** One catalog row: column name to cell. */
  type Row = map<string, Cell>

  /** The catalog, in row order. */
  type Catalog = seq<Row>

  /** `movie.get(key)`: an absent column reads as `Missing`. */
  function Get(row: Row, key: string): Cell {
    if key in row then row[key] else Missing
  }

  function LowerChar(c: char): char {
    if 'A' <= c <= 'Z' then (c as int + 32) as char else c
  }

  /** `str.lower`, on ASCII letters. */
  function Lower(s: string): (r: string)
    ensures |r| == |s| && forall i :: 0 <= i < |s| ==> r[i] == LowerChar(s[i])
  {
    seq(|s|, i requires 0 <= i < |s| => LowerChar(s[i]))
  }

  ghost predicate OccursAt(s: string, sub: string, i: int) {
    0 <= i && i + |sub| <= |s| && s[i..i + |sub|] == sub
  }

  /** Past a non-matching first position, occurrences are those of the tail. */
  lemma OccursInTail(s: string, sub: string)
    requires |s| > 0 && !OccursAt(s, sub, 0)
    ensures (exists i :: OccursAt(s, sub, i)) <==> (exists i :: OccursAt(s[1..], sub, i))
  {
    if exists i :: OccursAt(s[1..], sub, i) {
      var i :| OccursAt(s[1..], sub, i);
      assert s[i + 1..i + 1 + |sub|] == s[1..][i..i + |sub|];
      assert OccursAt(s, sub, i + 1);
    }
    if exists i :: OccursAt(s, sub, i) {
      var i :| OccursAt(s, sub, i);
      assert s[1..][i - 1..i - 1 + |sub|] == s[i..i + |sub|];
      assert OccursAt(s[1..], sub, i - 1);
    }
  }

  /** Literal substring test. */
  function Contains(s: string, sub: string): (r: bool)
    ensures r <==> exists i :: OccursAt(s, sub, i)
  {
    if |sub| <= |s| && s[..|sub|] == sub then
      assert OccursAt(s, sub, 0);
      true
    else if |s| == 0 then
      false
    else
      OccursInTail(s, sub);
      Contains(s[1..], sub)
  }

  /** The two filters: `title.str.lower() == q` and
      `title.str.lower().str.contains(q, na=False)`. */
  datatype MatchKind = Exact | Substring

  /** Whether a row passes a filter for the lower-cased query `q`; a title
      that is not text (`None`, NaN, missing) never passes. */
  predicate Matches(row: Row, q: string, kind: MatchKind) {
    match Get(row, "title")
    case Text(t) => (match kind case Exact => Lower(t) == q case Substring => Contains(Lower(t), q))
    case _ => false
  }

  /** `match.iloc[0]` of a filter: the index of the first passing row. */
  function FirstMatch(catalog: Catalog, q: string, kind: MatchKind): (r: Option<nat>)
    ensures r.Some? ==> r.value < |catalog| && Matches(catalog[r.value], q, kind)
    ensures r.Some? ==> forall j :: 0 <= j < r.value ==> !Matches(catalog[j], q, kind)
    ensures r.None? ==> forall j :: 0 <= j < |catalog| ==> !Matches(catalog[j], q, kind)
  {
    if |catalog| == 0 then None
    else if Matches(catalog[0], q, kind) then Some(0)
    else
      match FirstMatch(catalog[1..], q, kind)
      case None => None
      case Some(i) => Some(i + 1)
  }

  /** The matched row, or `None` when neither filter finds one. */
  function Resolve(catalog: Catalog, movieTitle: string): Option<Row> {
    var q := Lower(movieTitle);
    match FirstMatch(catalog, q, Exact)
    case Some(i) => Some(catalog[i])
    case None =>
      match FirstMatch(catalog, q, Substring)
      case Some(i) => Some(catalog[i])
      case None => None
  }

  /** An exact match implies a substring match. */
  lemma ExactIsSubstring(row: Row, q: string)
    requires Matches(row, q, Exact)
    ensures Matches(row, q, Substring)
  {
    var t := Lower(Get(row, "title").s);
    assert OccursAt(t, q, 0);
  }

  /** The first row whose lower-cased title equals the query wins, even when an
      earlier row only contains it. */
  lemma ResolveExactFirst(catalog: Catalog, movieTitle: string, i: nat)
    requires i < |catalog| && Matches(catalog[i], Lower(movieTitle), Exact)
    requires forall j :: 0 <= j < i ==> !Matches(catalog[j], Lower(movieTitle), Exact)
    ensures Resolve(catalog, movieTitle) == Some(catalog[i])
  {
    var r := FirstMatch(catalog, Lower(movieTitle), Exact);
    assert r.Some? && r.value == i;
  }

  /** With no exact match anywhere, the first row whose title contains the
      query wins. */
  lemma ResolveSubstringFallback(catalog: Catalog, movieTitle: string, i: nat)
    requires forall j :: 0 <= j < |catalog| ==> !Matches(catalog[j], Lower(movieTitle), Exact)
    requires i < |catalog| && Matches(catalog[i], Lower(movieTitle), Substring)
    requires forall j :: 0 <= j < i ==> !Matches(catalog[j], Lower(movieTitle), Substring)
    ensures Resolve(catalog, movieTitle) == Some(catalog[i])
  {
    var r := FirstMatch(catalog, Lower(movieTitle), Substring);
    assert r.Some? && r.value == i;
  }

  /** Nothing is found exactly when no row's title contains the query; a found
      row is a catalog row with a text title. */
  lemma ResolveNotFound(catalog: Catalog, movieTitle: string)
    ensures Resolve(catalog, movieTitle).None? <==>
      forall j :: 0 <= j < |catalog| ==> !Matches(catalog[j], Lower(movieTitle), Substring)
    ensures Resolve(catalog, movieTitle).Some? ==>
      Resolve(catalog, movieTitle).value in catalog && Get(Resolve(catalog, movieTitle).value, "title").Text?
  {
    var q := Lower(movieTitle);
    var r := FirstMatch(catalog, q, Exact);
    if r.Some? {
      ExactIsSubstring(catalog[r.value], q);
    }
  }

  /** "Heat" is resolved to the "Heat" row, not to an earlier "Heat Wave". */
  lemma ResolveHeatExample(heatWave: Row, heat: Row)
    requires Get(heatWave, "title") == Text("Heat Wave") && Get(heat, "title") == Text("Heat")
    ensures Resolve([heatWave, heat], "Heat") == Some(heat)
  {
    var q := Lower("Heat");
    assert q == "heat";
    assert Lower("Heat Wave") == "heat wave";
    assert Lower("Heat Wave") != q by { assert |Lower("Heat Wave")| != |q|; }
    ResolveExactFirst([heatWave, heat], "Heat", 1);
  }

  /** `safe_get` treats these as missing: absent, `None`, an empty list or
      tuple, and a float NaN. */
  predicate Blank(c: Cell) {
    c.Missing? || c.NoneCell? || c.NaN? || (c.List? && |c.items| == 0)
  }

  /** `safe_get(key, default)`: the row's value unless it is blank. */
  function SafeGet(row: Row, key: string, default: Cell): (r: Cell)
    ensures !Blank(Get(row, key)) ==> r == Get(row, key)
    ensures Blank(Get(row, key)) ==> r == default
  {
    match Get(row, key)
    case Missing => default
    case NoneCell => default
    case NaN => default
    case List(items) => if |items| > 0 then List(items) else default
    case Text(s) => Text(s)
    case Number(x) => Number(x)
  }

  /** The nine projected fields. */
  datatype Details = Details(
    title: Cell, year: Cell, directors: Cell, cast: Cell, production_companies: Cell,
    overview: Cell, genres: Cell, runtime: Cell, vote_average: Cell)

  const NotAvailable: Cell := Text("N/A")
  const NoOverview: Cell := Text("No overview available.")
  const EmptyListCell: Cell := List([])

  /** The projection of one row, with the per-field defaults. */
  function Project(row: Row, movieTitle: string): Details {
    Details(
      SafeGet(row, "title", Text(movieTitle)),
      SafeGet(row, "year", NotAvailable),
      SafeGet(row, "directors", EmptyListCell),
      SafeGet(row, "cast", EmptyListCell),
      SafeGet(row, "production_companies", EmptyListCell),
      SafeGet(row, "overview", NoOverview),
      SafeGet(row, "genres", EmptyListCell),
      SafeGet(row, "runtime", NotAvailable),
      SafeGet(row, "vote_average", NotAvailable))
  }

  /** `get_movie_details`. */
  function GetMovieDetails(catalog: Catalog, movieTitle: string): Option<Details> {
    match Resolve(catalog, movieTitle)
    case None => None
    case Some(row) => Some(Project(row, movieTitle))
  }

  predicate IsNull(c: Cell) { c.Missing? || c.NoneCell? || c.NaN? }

  /** No projected field is ever missing, `None` or NaN; a blank field holds
      its default and any other value is passed through unchanged. */
  lemma ProjectFields(row: Row, movieTitle: string)
    ensures var d := Project(row, movieTitle);
      && !IsNull(d.title) && !IsNull(d.year) && !IsNull(d.directors) && !IsNull(d.cast)
      && !IsNull(d.production_companies) && !IsNull(d.overview) && !IsNull(d.genres)
      && !IsNull(d.runtime) && !IsNull(d.vote_average)
    ensures var d := Project(row, movieTitle);
      && d.year == (if Blank(Get(row, "year")) then Text("N/A") else Get(row, "year"))
      && d.runtime == (if Blank(Get(row, "runtime")) then Text("N/A") else Get(row, "runtime"))
      && d.vote_average == (if Blank(Get(row, "vote_average")) then Text("N/A") else Get(row, "vote_average"))
      && d.overview == (if Blank(Get(row, "overview")) then Text("No overview available.") else Get(row, "overview"))
      && d.directors == (if Blank(Get(row, "directors")) then List([]) else Get(row, "directors"))
      && d.cast == (if Blank(Get(row, "cast")) then List([]) else Get(row, "cast"))
      && d.production_companies ==
           (if Blank(Get(row, "production_companies")) then List([]) else Get(row, "production_companies"))
      && d.genres == (if Blank(Get(row, "genres")) then List([]) else Get(row, "genres"))
  {
  }

  /** Details exist exactly when the title resolves, and then the title field
      is the catalog's own title text: the queried-title default never applies,
      since only rows with a text title are matched. */
  lemma DetailsOfResolved(catalog: Catalog, movieTitle: string)
    ensures GetMovieDetails(catalog, movieTitle).Some? <==> Resolve(catalog, movieTitle).Some?
    ensures GetMovieDetails(catalog, movieTitle).Some? ==>
      GetMovieDetails(catalog, movieTitle).value.title == Get(Resolve(catalog, movieTitle).value, "title")
  {
    ResolveNotFound(catalog, movieTitle);
  }

  /** A resolved row with no `runtime` column shows `'N/A'` for it. */
  lemma MissingRuntimeExample(catalog: Catalog, movieTitle: string)
    requires Resolve(catalog, movieTitle).Some?
    requires "runtime" !in Resolve(catalog, movieTitle).value
    ensures GetMovieDetails(catalog, movieTitle).Some?
    ensures GetMovieDetails(catalog, movieTitle).value.runtime == Text("N/A")
  {
  }
}
