/** Small string helpers of the search page: the detail dropdown's
    `"{idx}. {title}"` labels and how a chosen label is parsed back, the
    overview truncation, and the greeting. */
module TextHelpers {
  import opened Wrappers
  import opened ResultComposer

  function DigitChar(d: nat): (c: char)
    requires d < 10
    ensures '0' <= c <= '9'
  {
    ('0' as int + d) as char
  }

  /** The decimal text of `n`, as `f"{n}"` writes it: digits only, with no
      leading zero. */
  function DecimalText(n: nat): (r: string)
    ensures |r| > 0 && forall i :: 0 <= i < |r| ==> '0' <= r[i] <= '9'
    ensures n > 0 ==> r[0] != '0'
  {
    if n < 10 then [DigitChar(n)] else DecimalText(n / 10) + [DigitChar(n % 10)]
  }

  /** The number a string of decimal digits denotes, as `int(s)` reads it. */
  function DigitsValue(s: string): nat
    requires forall i :: 0 <= i < |s| ==> '0' <= s[i] <= '9'
  {
    if s == [] then 0 else 10 * DigitsValue(s[..|s| - 1]) + (s[|s| - 1] as int - '0' as int)
  }

  /** The digits in a label read back as the rank they were written from. */
  lemma {:induction false} DecimalTextValue(n: nat)
    ensures DigitsValue(DecimalText(n)) == n
  {
    var r := DecimalText(n);
    if n >= 10 {
      DecimalTextValue(n / 10);
      assert r[..|r| - 1] == DecimalText(n / 10);
    }
  }

  const Separator: string := ". "

  /** The dropdown label of an entry. */
  function OptionLabel(idx: nat, title: string): string {
    DecimalText(idx) + Separator + title
  }

  /** The placeholder option at the top of the dropdown. */
  const Placeholder: string := "Select a movie..."

  /** The dropdown's options for the stored list. */
  function DropdownOptions(list: seq<Entry>): (options: seq<string>)
    ensures |options| == |list| + 1 && options[0] == Placeholder
    ensures forall k :: 0 <= k < |list| ==> options[k + 1] == OptionLabel(list[k].rank, list[k].title)
  {
    [Placeholder] + seq(|list|, k requires 0 <= k < |list| => OptionLabel(list[k].rank, list[k].title))
  }

  /** Index of the first `". "` in `s`. */
  function FindSeparator(s: string): (r: Option<nat>)
    ensures r.Some? ==> r.value + 1 < |s| && s[r.value] == '.' && s[r.value + 1] == ' '
    ensures r.Some? ==> forall j :: 0 <= j < r.value ==> !(s[j] == '.' && s[j + 1] == ' ')
    ensures r.None? ==> forall j :: 0 <= j < |s| - 1 ==> !(s[j] == '.' && s[j + 1] == ' ')
  {
    if |s| < 2 then None
    else if s[0] == '.' && s[1] == ' ' then Some(0)
    else
      match FindSeparator(s[1..])
      case None => None
      case Some(i) => Some(i + 1)
  }

  /** `selected.split(". ", 1)[1] if ". " in selected else selected`. */
  function SelectedTitle(selected: string): string {
    match FindSeparator(selected)
    case Some(i) => selected[i + 2..]
    case None => selected
  }

  /** A label is parsed back to its own title, whatever the title holds: the
      decimal index has no `". "`, so the first one is the label's own. */
  lemma LabelRoundTrip(idx: nat, title: string)
    ensures SelectedTitle(OptionLabel(idx, title)) == title
  {
    var d := DecimalText(idx);
    var s := OptionLabel(idx, title);
    assert s[|d|] == '.' && s[|d| + 1] == ' ';
    assert forall j :: 0 <= j < |d| ==> s[j] == d[j];
    assert FindSeparator(s) == Some(|d|);
    assert s[|d| + 2..] == title;
  }

  /** No label can be mistaken for the placeholder. */
  lemma LabelIsNotPlaceholder(idx: nat, title: string)
    ensures OptionLabel(idx, title) != Placeholder
  {
    assert OptionLabel(idx, title)[0] == DecimalText(idx)[0];
  }

  /** Choosing the option of the `k`-th stored entry looks up that entry's own
      title. */
  lemma SelectionRoundTrip(list: seq<Entry>, k: nat)
    requires k < |list|
    ensures DropdownOptions(list)[k + 1] != Placeholder
    ensures SelectedTitle(DropdownOptions(list)[k + 1]) == list[k].title
  {
    LabelRoundTrip(list[k].rank, list[k].title);
    LabelIsNotPlaceholder(list[k].rank, list[k].title);
  }

  /** `s[:limit] + "..."` when `s` is longer than `limit`. */
  function Truncate(s: string, limit: nat): (r: string)
    ensures |s| <= limit ==> r == s
    ensures |s| > limit ==> |r| == limit + 3 && r[..limit] == s[..limit] && r[limit..] == "..."
  {
    if |s| > limit then s[..limit] + "..." else s
  }

  /** The detail view shows at most 600 characters of the overview. */
  const DetailOverviewLimit: nat := 600

  /** A row caption shows at most 150 characters of the overview. */
  const RowOverviewLimit: nat := 150

  function DetailOverview(overview: string): (r: string)
    ensures |r| <= DetailOverviewLimit + 3
    ensures |overview| <= DetailOverviewLimit ==> r == overview
    ensures |overview| > DetailOverviewLimit ==> r == overview[..DetailOverviewLimit] + "..."
  {
    Truncate(overview, DetailOverviewLimit)
  }

  /** The caption under a result row: none for a missing or empty overview. */
  function RowCaption(overview: Option<string>): (r: Option<string>)
    ensures r.None? <==> overview.None? || overview.value == ""
    ensures r.Some? ==> |r.value| <= RowOverviewLimit + 3 && r.value != ""
    ensures r.Some? && |overview.value| <= RowOverviewLimit ==> r.value == overview.value
    ensures r.Some? && |overview.value| > RowOverviewLimit ==>
      r.value == overview.value[..RowOverviewLimit] + "..."
  {
    match overview
    case None => None
    case Some(text) => if text == "" then None else Some(Truncate(text, RowOverviewLimit))
  }

  /** The name in "Hi {first_name}!": the stored first name, or "there" when
      it is missing or empty. */
  function Greeting(userInfo: map<string, string>): (name: string)
    ensures name != ""
    ensures "first_name" in userInfo && userInfo["first_name"] != "" ==> name == userInfo["first_name"]
    ensures "first_name" !in userInfo || userInfo["first_name"] == "" ==> name == "there"
  {
    var first := if "first_name" in userInfo then userInfo["first_name"] else "there";
    if first == "" then "there" else first
  }
}
