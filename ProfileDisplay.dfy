/** What the profile finder shows: the decoded user record, the "Joined" line, the
    name and count fallbacks, and which of its four screens renders. */
module ProfileDisplay {
  import opened Nullable
  import opened JsText

  /** The fields of the API's user object that the profile view reads; a field the
      API may send as null is an Option. */
  datatype UserData = UserData(
    login: string,
    name: Option<string>,
    avatarUrl: string,
    bio: Option<string>,
    htmlUrl: string,
    createdAt: Option<string>,
    publicRepos: Option<int>,
    followers: Option<int>,
    following: Option<int>)

  /** The calendar fields of a valid JavaScript Date in local time: `getDate()`,
      `getMonth()` (a zero-based index) and `getFullYear()`. */
  datatype DateFields = DateFields(day: int, month: int, year: int)

  type CalendarDate = d: DateFields | 1 <= d.day <= 31 && 0 <= d.month < 12
    witness DateFields(1, 0, 1970)

  const Months: seq<string> :=
    ["Jan", "Feb", "Mar", "Apr", "May", "Jun", "Jul", "Aug", "Sep", "Oct", "Nov", "Dec"]

  const NotAvailable: string := "Not Available"

  /** What the template literal yields for an Invalid Date: getDate() and getFullYear()
      are NaN and the month table has no entry at index NaN. */
  const InvalidDateText: string := "NaN undefined NaN"
  const InvalidJoined: string := "Joined " + InvalidDateText

  /** The text of a valid date, as the template literal builds it after "Joined ". */
  function DateText(d: CalendarDate): string {
    Decimal(d.day) + " " + Months[d.month] + " " + Decimal(d.year)
  }

  /** `formatDate(dateString)`. The string is None when null or undefined; `date` is
      what `new Date(dateString)` yields, None for an Invalid Date. */
  function FormatDate(dateString: Option<string>, date: Option<CalendarDate>): (r: string)
    ensures r == NotAvailable <==> !Truthy(dateString)
    ensures Truthy(dateString) ==> |r| > 7 && r[..7] == "Joined "
    ensures Truthy(dateString) && date.None? ==> r == InvalidJoined
  {
    if !Truthy(dateString) then NotAvailable
    else
      var fields := match date
        case None => InvalidDateText
        case Some(d) => DateText(d);
      assert ("Joined " + fields)[0] != NotAvailable[0];
      "Joined " + fields
  }

  /** The index of abbr in the month table, searching from index i. */
  function MonthFrom(abbr: string, i: nat): (r: Option<nat>)
    requires i <= 12
    ensures r.Some? ==> i <= r.value < 12 && Months[r.value] == abbr
    decreases 12 - i
  {
    if i == 12 then None
    else if Months[i] == abbr then Some(i)
    else MonthFrom(abbr, i + 1)
  }

  lemma MonthsDistinct(i: nat, j: nat)
    requires i < j < 12
    ensures Months[i] != Months[j]
  {
  }

  lemma {:induction false} MonthFromFinds(m: nat, i: nat)
    requires i <= m < 12
    ensures MonthFrom(Months[m], i) == Some(m)
    decreases m - i
  {
    if i < m {
      MonthsDistinct(i, m);
      MonthFromFinds(m, i + 1);
    }
  }

  /** The position of the first space in s, or |s| when there is none. */
  function FieldEnd(s: string): (k: nat)
    ensures k <= |s|
    ensures forall i :: 0 <= i < k ==> s[i] != ' '
    ensures k < |s| ==> s[k] == ' '
  {
    if s == [] || s[0] == ' ' then 0 else 1 + FieldEnd(s[1..])
  }

  /** Reads a "Joined D Mon Y" line back into its date; None for any other text. */
  function ReadJoined(r: string): (d: Option<CalendarDate>)
    ensures d.Some? ==> |r| > 7 && r[..7] == "Joined "
  {
    if |r| < 7 || r[..7] != "Joined " then None
    else
      var t := r[7..];
      var k := FieldEnd(t);
      if |t| < k + 5 || t[k + 4] != ' ' then None
      else
        var day := ParseDecimal(t[..k]);
        var month := MonthFrom(t[k + 1..k + 4], 0);
        var year := ParseDecimal(t[k + 5..]);
        if day.Some? && month.Some? && year.Some? && 1 <= day.value <= 31 then
          Some(DateFields(day.value, month.value, year.value))
        else None
  }

  /** Where the fields of "D Mon Y" sit when D has no space and Mon has three letters. */
  lemma JoinedFieldsLayout(dayText: string, month: string, yearText: string)
    requires forall i :: 0 <= i < |dayText| ==> dayText[i] != ' '
    requires |month| == 3
    ensures var t := dayText + " " + month + " " + yearText; var k := |dayText|;
      && FieldEnd(t) == k && |t| >= k + 5 && t[k + 4] == ' '
      && t[..k] == dayText && t[k + 1..k + 4] == month && t[k + 5..] == yearText
  {
    var t := dayText + " " + month + " " + yearText;
    var k := |dayText|;
    assert t[k] == ' ';
    assert forall i :: 0 <= i < k ==> t[i] == dayText[i];
  }

  /** The "Joined" line of a valid date names that date and no other. */
  lemma FormatDateRoundTrip(dateString: string, d: CalendarDate)
    requires dateString != ""
    ensures ReadJoined(FormatDate(Some(dateString), Some(d))) == Some(d)
  {
    var dayText, yearText := Decimal(d.day), Decimal(d.year);
    var t := dayText + " " + Months[d.month] + " " + yearText;
    var r := FormatDate(Some(dateString), Some(d));
    assert DateText(d) == t;
    assert r == "Joined " + t;
    assert r[..7] == "Joined " && r[7..] == t;
    JoinedFieldsLayout(dayText, Months[d.month], yearText);
    DecimalRoundTrip(d.day);
    DecimalRoundTrip(d.year);
    MonthFromFinds(d.month, 0);
  }

  /** A text with spaces at k and k + 4 is its three fields joined by those spaces. */
  lemma JoinFields(t: string, k: nat)
    requires k + 5 <= |t| && t[k] == ' ' && t[k + 4] == ' '
    ensures t == t[..k] + " " + t[k + 1..k + 4] + " " + t[k + 5..]
  {
  }

  /** The only text that reads back as date d is the line FormatDate writes for d:
      the day and year carry no padding, and the fields are separated by one space. */
  lemma ReadJoinedExact(r: string, d: CalendarDate)
    requires ReadJoined(r) == Some(d)
    ensures r == "Joined " + DateText(d)
  {
    assert |r| >= 7 && r[..7] == "Joined ";
    var t := r[7..];
    var k := FieldEnd(t);
    assert k + 5 <= |t| && t[k] == ' ' && t[k + 4] == ' ';
    var dayText, monthText, yearText := t[..k], t[k + 1..k + 4], t[k + 5..];
    assert ParseDecimal(dayText) == Some(d.day);
    assert ParseDecimal(yearText) == Some(d.year);
    assert MonthFrom(monthText, 0) == Some(d.month);
    DecimalCanonical(dayText, d.day);
    DecimalCanonical(yearText, d.year);
    JoinFields(t, k);
    assert t == DateText(d);
    assert r == r[..7] + t;
  }

  /** Two valid dates that give the same "Joined" line are the same date. */
  lemma FormatDateInjective(s1: string, d1: CalendarDate, s2: string, d2: CalendarDate)
    requires s1 != "" && s2 != ""
    requires FormatDate(Some(s1), Some(d1)) == FormatDate(Some(s2), Some(d2))
    ensures d1 == d2
  {
    FormatDateRoundTrip(s1, d1);
    FormatDateRoundTrip(s2, d2);
  }

  /** A valid date never gives the line shown for an Invalid Date. */
  lemma ValidDateNotInvalidLine(dateString: string, d: CalendarDate)
    requires dateString != ""
    ensures FormatDate(Some(dateString), Some(d)) != InvalidJoined
  {
    var dayText := Decimal(d.day);
    var r := "Joined " + DateText(d);
    assert r[7] == DateText(d)[0] == dayText[0];
    assert InvalidJoined[7] == 'N';
  }

  /** `userData.name || userData.login`: the heading falls back to the login when the
      name is null or empty. */
  function DisplayName(u: UserData): (r: string)
    ensures Truthy(u.name) ==> r == u.name.value
    ensures !Truthy(u.name) ==> r == u.login
    ensures u.login != "" ==> r != ""
  {
    if Truthy(u.name) then u.name.value else u.login
  }

  /** `count || 0`: a missing count shows as 0. */
  function ShownCount(count: Option<int>): (r: int)
    ensures count.None? ==> r == 0
    ensures count.Some? ==> r == count.value
  {
    if count.Some? then count.value else 0
  }

  /** The four screens of the finder, in the order the page lists them. */
  datatype Screen = DefaultScreen | LoadingScreen | ErrorScreen | ProfileScreen

  /** The screens whose conditions hold, in page order, given `loading` and the
      truthiness of `userData` and `error`. */
  function RenderedScreens(loading: bool, hasUser: bool, hasError: bool): (r: seq<Screen>)
    ensures |r| == 1
    ensures r[0] == LoadingScreen <==> loading
    ensures r[0] == ErrorScreen <==> hasError && !loading
    ensures r[0] == ProfileScreen <==> hasUser && !hasError && !loading
    ensures r[0] == DefaultScreen <==> !hasUser && !hasError && !loading
  {
    (if !loading && !hasUser && !hasError then [DefaultScreen] else [])
    + (if loading then [LoadingScreen] else [])
    + (if hasError && !loading then [ErrorScreen] else [])
    + (if hasUser && !loading && !hasError then [ProfileScreen] else [])
  }
}
