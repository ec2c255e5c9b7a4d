/** The deterministic helpers of the page templates and the trending block: video ids of watch
    URLs, ISO 8601 durations in minutes, view counts in thousands, reading time from a word
    count, and the selection of the six most-read pages from an analytics report. */
module Utils {
  import opened Wrappers
  import opened Text
  import opened Seqs

  // ---------------------------------------------------------------------------------------
  // ytOfficialData: the `id` query parameter

  /** The `id` sent to the video API: `videoUrl.split("v=")[1]`, which becomes the text
      "undefined" when the URL has no `v=`. */
  function VideoIdParam(videoUrl: string): (id: string)
    ensures !Contains(id, "v=")
    ensures !Contains(videoUrl, "v=") ==> id == "undefined"
  {
    match Piece(videoUrl, "v=", 1)
    case Some(id) => id
    case None =>
      NoCharNoContains("undefined", "v=", 1);
      "undefined"
  }

  /** A watch URL `...v=<id>` (possibly followed by another `v=...`) yields exactly `<id>`. */
  lemma VideoIdOfWatchUrl(pre: string, id: string, post: string)
    requires !Contains(pre, "v=") && !Contains(id, "v=")
    requires post == [] || StartsWith(post, "v=")
    ensures VideoIdParam(pre + "v=" + id + post) == id
  {
    BorderFreePair("v=");
    SecondPiece(pre, "v=", id, post);
  }

  /** Without `v=` the split has a single piece, and the id sent is "undefined". */
  lemma VideoIdMissing(videoUrl: string)
    requires !Contains(videoUrl, "v=")
    ensures VideoIdParam(videoUrl) == "undefined"
  {
    assert Split(videoUrl, "v=") == [videoUrl];
  }

  // ---------------------------------------------------------------------------------------
  // parseISODuration, durationToMinutes

  datatype Duration = Duration(hours: nat, minutes: nat, seconds: nat)

  /** One optional group `(?:(\d+)X)?` of the pattern, tried at the start of `s`: the number and
      the text after the designator when the digits are followed by it, else 0 and `s` as is. */
  function Component(s: string, designator: char): (nat, string) {
    var n := DigitRun(s);
    if 0 < n < |s| && s[n] == designator then (DigitsValue(s[..n]), s[n + 1..]) else (0, s)
  }

  /** `parseISODuration`: the pattern `PT(?:(\d+)H)?(?:(\d+)M)?(?:(\d+)S)?` matched at the first
      `PT` of the input; a missing group counts as 0, and no `PT` at all gives three zeros. */
  function ParseISODuration(iso: string): (d: Duration)
    ensures !Contains(iso, "PT") ==> d == Duration(0, 0, 0)
  {
    match IndexOf(iso, "PT")
    case None => Duration(0, 0, 0)
    case Some(i) =>
      var (h, afterHours) := Component(iso[i + 2..], 'H');
      var (m, afterMinutes) := Component(afterHours, 'M');
      var (s, _) := Component(afterMinutes, 'S');
      Duration(h, m, s)
  }

  /** `durationToMinutes`: whole hours and minutes; seconds are dropped. */
  function DurationToMinutes(duration: string): (minutes: nat)
    ensures minutes == 60 * ParseISODuration(duration).hours + ParseISODuration(duration).minutes
    ensures !Contains(duration, "PT") ==> minutes == 0
  {
    var d := ParseISODuration(duration);
    d.hours * 60 + d.minutes
  }

  /** How a component is written: `<n><designator>`, or nothing when absent. */
  function Designated(n: Option<nat>, designator: char): string {
    match n
    case Some(v) => NatToString(v) + [designator]
    case None => ""
  }

  /** `s` does not start with a group for `designator`: no digits, only digits, or digits
      followed by some other character. */
  predicate NoGroup(s: string, designator: char) {
    var n := DigitRun(s);
    n == 0 || n == |s| || s[n] != designator
  }

  /** A written component is read back by its group, leaving the text after it. */
  lemma {:induction false} ComponentOf(n: Option<nat>, designator: char, next: string)
    requires !IsDigit(designator)
    requires n.Some? || NoGroup(next, designator)
    ensures Component(Designated(n, designator) + next, designator) == (n.GetOr(0), next)
  {
    if n.Some? {
      var digits := NatToString(n.value);
      var s := Designated(n, designator) + next;
      assert s == digits + ([designator] + next);
      DigitRunOf(digits, [designator] + next);
      assert s[..|digits|] == digits && s[|digits|] == designator;
      assert s[|digits| + 1..] == next;
    } else {
      assert Designated(n, designator) + next == next;
    }
  }

  /** A written component, or the text after it, is no group for a different designator. */
  lemma NoGroupOther(n: Option<nat>, designator: char, next: string, other: char)
    requires designator != other && !IsDigit(designator)
    requires n.Some? || NoGroup(next, other)
    ensures NoGroup(Designated(n, designator) + next, other)
  {
    if n.Some? {
      var digits := NatToString(n.value);
      assert Designated(n, designator) + next == digits + ([designator] + next);
      DigitRunOf(digits, [designator] + next);
    } else {
      assert Designated(n, designator) + next == next;
    }
  }

  /** "PT" occurs at the end of any text that has no "PT" of its own. */
  lemma FirstPT(pre: string, rest: string)
    requires !Contains(pre, "PT")
    ensures IndexOf(pre + "PT" + rest, "PT") == Some(|pre|)
  {
    BorderFreePair("PT");
    IndexOfAfter(pre, "PT", rest);
  }

  /** The three groups are read from the text right after the first "PT". */
  lemma ParseAfterFirstPT(text: string, pre: string, groups: string)
    requires !Contains(pre, "PT") && text == pre + "PT" + groups
    ensures ParseISODuration(text) ==
      Duration(Component(groups, 'H').0, Component(Component(groups, 'H').1, 'M').0,
               Component(Component(Component(groups, 'H').1, 'M').1, 'S').0)
  {
    FirstPT(pre, groups);
    assert text[|pre| + 2..] == groups;
  }

  /** The three groups, each written or left out, are read back in turn. */
  lemma {:induction false} GroupsRoundTrip(h: Option<nat>, m: Option<nat>, s: Option<nat>, post: string)
    requires post == [] || !IsDigit(post[0])
    ensures var afterMinutes := Designated(s, 'S') + post;
      var afterHours := Designated(m, 'M') + afterMinutes;
      && Component(Designated(h, 'H') + afterHours, 'H') == (h.GetOr(0), afterHours)
      && Component(afterHours, 'M') == (m.GetOr(0), afterMinutes)
      && Component(afterMinutes, 'S') == (s.GetOr(0), post)
  {
    var afterMinutes := Designated(s, 'S') + post;
    var afterHours := Designated(m, 'M') + afterMinutes;
    assert NoGroup(post, 'S') && NoGroup(post, 'M') && NoGroup(post, 'H');
    NoGroupOther(s, 'S', post, 'M');
    NoGroupOther(s, 'S', post, 'H');
    NoGroupOther(m, 'M', afterMinutes, 'H');
    ComponentOf(h, 'H', afterHours);
    ComponentOf(m, 'M', afterMinutes);
    ComponentOf(s, 'S', post);
  }

  /** `PT{h}H{m}M{s}S`, with any of the three groups left out and after any text without "PT":
      the absent groups read as 0, and the minutes are h * 60 + m whatever the seconds. */
  lemma DurationRoundTrip(pre: string, h: Option<nat>, m: Option<nat>, s: Option<nat>, post: string)
    requires !Contains(pre, "PT")
    requires post == [] || !IsDigit(post[0])
    ensures var groups := Designated(h, 'H') + (Designated(m, 'M') + (Designated(s, 'S') + post));
      && ParseISODuration(pre + "PT" + groups) == Duration(h.GetOr(0), m.GetOr(0), s.GetOr(0))
      && DurationToMinutes(pre + "PT" + groups) == h.GetOr(0) * 60 + m.GetOr(0)
  {
    var groups := Designated(h, 'H') + (Designated(m, 'M') + (Designated(s, 'S') + post));
    ParseAfterFirstPT(pre + "PT" + groups, pre, groups);
    GroupsRoundTrip(h, m, s, post);
  }

  /** A duration with a day part, `P{d}DT...`, has no "PT" and so reads as zero minutes. */
  lemma DayDurationIsZero(days: nat, h: Option<nat>, m: Option<nat>, s: Option<nat>)
    ensures DurationToMinutes("P" + (NatToString(days) + ("DT" + (Designated(h, 'H') + (Designated(m, 'M') + Designated(s, 'S')))))) == 0
  {
    var digits := NatToString(days);
    var groups := Designated(h, 'H') + (Designated(m, 'M') + Designated(s, 'S'));
    var rest := digits + ("DT" + groups);
    assert 'P' !in rest by {
      NoPInDesignated(Some(days), 'D');
      assert Designated(Some(days), 'D') == digits + "D";
      NoPInDesignated(h, 'H');
      NoPInDesignated(m, 'M');
      NoPInDesignated(s, 'S');
    }
    assert rest[0] == digits[0];
    NoPTAfterP(rest);
  }

  lemma NoPInDesignated(n: Option<nat>, designator: char)
    requires designator != 'P'
    ensures 'P' !in Designated(n, designator)
  {
    if n.Some? {
      var digits := NatToString(n.value);
      forall i | 0 <= i < |digits| ensures digits[i] != 'P' {
        assert IsDigit(digits[i]);
      }
    }
  }

  /** "P" followed by text without any 'P' that does not start with 'T' has no "PT". */
  lemma NoPTAfterP(rest: string)
    requires 'P' !in rest && (rest == [] || rest[0] != 'T')
    ensures !Contains("P" + rest, "PT")
  {
    var text := "P" + rest;
    forall j | 0 <= j && j + 2 <= |text| ensures !OccursAt(text, "PT", j) {
      if j == 0 {
        assert text[1] == rest[0];
      } else {
        assert text[j] == rest[j - 1];
      }
    }
  }

  // ---------------------------------------------------------------------------------------
  // viewsInK

  /** What `viewsInK` shows: the text it was given, or the count in thousands (written with one
      decimal and a "K"; the decimal formatting is not modelled). */
  datatype ViewsLabel = AsGiven(text: string) | InThousands(views: int)

  /** `viewsInK`: thousands only when `parseInt(views) > 1000`; NaN and small counts come back
      unchanged. */
  function ViewsInK(views: string): (shown: ViewsLabel)
    ensures shown.AsGiven? ==> shown.text == views
    ensures shown.InThousands? <==> ParseInt(views).Some? && ParseInt(views).value > 1000
    ensures shown.InThousands? ==> shown.views == ParseInt(views).value
  {
    match ParseInt(views)
    case Some(n) => if n > 1000 then InThousands(n) else AsGiven(views)
    case None => AsGiven(views)
  }

  /** A view count written in decimal: at most 1000 is shown unchanged, above that in thousands. */
  lemma ViewsInKOfCount(n: nat)
    ensures ViewsInK(NatToString(n)) == if n > 1000 then InThousands(n) else AsGiven(NatToString(n))
  {
    ParseIntOfNat(n, "");
    assert NatToString(n) + "" == NatToString(n);
  }

  // ---------------------------------------------------------------------------------------
  // readDurationInMinsFromWords

  /** The length of the run of non-white-space at the start of `s`. */
  function WordRun(s: string): (n: nat)
    ensures n <= |s| && forall i :: 0 <= i < n ==> !IsSpace(s[i])
    ensures n == |s| || IsSpace(s[n])
  {
    if s != [] && !IsSpace(s[0]) then 1 + WordRun(s[1..]) else 0
  }

  /** `s.split(/\s+/)`: the pieces between maximal runs of white space. */
  function SplitOnSpace(s: string): (pieces: seq<string>)
    ensures |pieces| >= 1
    decreases |s|
  {
    var i := WordRun(s);
    if i == |s| then [s]
    else
      var j := i + SpaceRun(s[i..]);
      [s[..i]] + SplitOnSpace(s[j..])
  }

  /** The number of words of `s`, counted as maximal runs of non-white-space. */
  function WordCount(s: string): nat
    decreases |s|
  {
    var t := s[SpaceRun(s)..];
    if t == [] then 0 else 1 + WordCount(t[WordRun(t)..])
  }

  /** `paragraph.trim().split(/\s+/).length`. */
  function TokenCount(paragraph: string): (tokens: nat)
    ensures tokens >= 1
  {
    |SplitOnSpace(Trim(paragraph))|
  }

  const DefaultWordsPerMinute := 200

  /** `readDurationInMinsFromWords(paragraph, wordsPerMinute)`: `Math.ceil` of tokens per
      minute rate; `None` stands for the Infinity that a rate of 0 gives. */
  function ReadDurationInMinsFromWords(paragraph: string, wordsPerMinute: int): (minutes: Option<int>)
    ensures wordsPerMinute == 0 <==> minutes.None?
    ensures wordsPerMinute > 0 ==>
      (minutes.value - 1) * wordsPerMinute < TokenCount(paragraph) <= minutes.value * wordsPerMinute
    ensures wordsPerMinute < 0 ==>
      minutes.value * wordsPerMinute <= TokenCount(paragraph) < (minutes.value - 1) * wordsPerMinute
  {
    var tokens := TokenCount(paragraph);
    if wordsPerMinute == 0 then None
    else if wordsPerMinute > 0 then
      var m := (tokens + wordsPerMinute - 1) / wordsPerMinute;
      CeilingDivision(tokens, wordsPerMinute, m);
      Some(m)
    else
      var m := -(tokens / -wordsPerMinute);
      NegativeDivision(tokens, wordsPerMinute, m);
      Some(m)
  }

  lemma CeilingDivision(c: nat, w: int, m: int)
    requires w > 0 && m == (c + w - 1) / w
    ensures (m - 1) * w < c <= m * w
  {
    var r := (c + w - 1) % w;
    assert m * w + r == c + w - 1;
    assert (m - 1) * w == m * w - w;
  }

  lemma NegativeDivision(c: nat, w: int, m: int)
    requires w < 0 && m == -(c / -w)
    ensures m * w <= c < (m - 1) * w
  {
    var v := -w;
    var q := c / v;
    assert q * v + c % v == c;
    assert m * w == q * v;
    assert (m - 1) * w == q * v + v;
  }

  // Token counts are word counts, except that a blank paragraph still has one (empty) token.

  /** White space after the text adds no words. */
  lemma {:induction false} WordCountSpacesAfter(s: string, spaces: string)
    requires Blank(spaces)
    ensures WordCount(s + spaces) == WordCount(s)
    decreases |s|
  {
    var n := SpaceRun(s);
    var t := s[n..];
    var u := s + spaces;
    if t == [] {
      assert Blank(u);
      assert SpaceRun(u) == |u| by { SpaceRunOfBlank(u); }
    } else {
      assert SpaceRun(u) == n by {
        assert u[..n] == s[..n];
        SpaceRunUnique(u, n);
      }
      assert u[n..] == t + spaces;
      var k := WordRun(t);
      assert WordRun(t + spaces) == k by { WordRunUnique(t + spaces, k); }
      assert (t + spaces)[k..] == t[k..] + spaces;
      WordCountSpacesAfter(t[k..], spaces);
      assert WordCount(u) == 1 + WordCount(t[k..] + spaces);
    }
  }

  lemma SpaceRunOfBlank(s: string)
    requires Blank(s)
    ensures SpaceRun(s) == |s|
  {
  }

  lemma {:induction false} SpaceRunUnique(s: string, n: nat)
    requires n <= |s| && Blank(s[..n]) && (n == |s| || !IsSpace(s[n]))
    ensures SpaceRun(s) == n
    decreases n
  {
    if n > 0 {
      assert IsSpace(s[..n][0]);
      assert s[1..][..n - 1] == s[..n][1..];
      SpaceRunUnique(s[1..], n - 1);
    }
  }

  lemma WordRunUnique(s: string, n: nat)
    requires n <= |s| && (forall i :: 0 <= i < n ==> !IsSpace(s[i])) && (n == |s| || IsSpace(s[n]))
    ensures WordRun(s) == n
  {
  }

  /** Trimming does not change the number of words. */
  lemma WordCountOfTrim(s: string)
    ensures WordCount(Trim(s)) == WordCount(s)
  {
    var t := TrimStart(s);
    WordCountSpacesBefore(s);
    var e := TrimEnd(t);
    TrailingBlank(t);
    WordCountSpacesAfter(e, t[|e|..]);
  }

  /** `TrimEnd` removes a blank tail. */
  lemma TrailingBlank(t: string)
    ensures t == TrimEnd(t) + t[|TrimEnd(t)|..] && Blank(t[|TrimEnd(t)|..])
  {
    var e := TrimEnd(t);
    var spaces := t[|e|..];
    forall i | 0 <= i < |spaces| ensures IsSpace(spaces[i]) {
      assert spaces[i] == t[|e| + i];
    }
  }

  /** White space before the text adds no words. */
  lemma WordCountSpacesBefore(s: string)
    ensures WordCount(TrimStart(s)) == WordCount(s)
  {
    var t := TrimStart(s);
    SpaceRunUnique(s, |s| - |t|);
    assert SpaceRun(t) == 0;
    assert t[0..] == t;
  }

  /** Leading white space adds no words. */
  lemma WordCountSkipSpaces(x: string)
    ensures WordCount(x) == WordCount(x[SpaceRun(x)..])
  {
    var u := x[SpaceRun(x)..];
    assert SpaceRun(u) == 0;
    assert u[0..] == u;
  }

  /** Text that starts with a word has that word plus the words after it. */
  lemma WordCountAfterWord(t: string)
    requires t != [] && !IsSpace(t[0])
    ensures WordCount(t) == 1 + WordCount(t[WordRun(t)..])
  {
    assert SpaceRun(t) == 0;
    assert t[0..] == t;
  }

  /** After a word that does not reach the end, the pieces are that word and the pieces after the
      white space that follows it. */
  lemma SplitStep(t: string)
    requires WordRun(t) < |t|
    ensures |SplitOnSpace(t)| == 1 + |SplitOnSpace(t[WordRun(t)..][SpaceRun(t[WordRun(t)..])..])|
  {
    var i := WordRun(t);
    assert t[i..][SpaceRun(t[i..])..] == t[i + SpaceRun(t[i..])..];
  }

  /** White space that is followed by a non-space character stops before it. */
  lemma SpaceRunBeforeEnd(x: string)
    requires x != [] && !IsSpace(x[|x| - 1])
    ensures SpaceRun(x) < |x|
  {
    assert x[..|x|] == x;
  }

  /** For text that starts and ends with a non-space character, the pieces are the words. */
  lemma {:induction false} SplitCountsWords(t: string)
    requires t != [] && !IsSpace(t[0]) && !IsSpace(t[|t| - 1])
    ensures |SplitOnSpace(t)| == WordCount(t)
    decreases |t|
  {
    var i := WordRun(t);
    WordCountAfterWord(t);
    if i < |t| {
      var x := t[i..];
      assert x[|x| - 1] == t[|t| - 1];
      SpaceRunBeforeEnd(x);
      var u := x[SpaceRun(x)..];
      WordCountSkipSpaces(x);
      SplitStep(t);
      assert u[|u| - 1] == t[|t| - 1];
      SplitCountsWords(u);
    } else {
      assert t[i..] == [];
    }
  }

  /** `paragraph.trim().split(/\s+/).length` is the number of words, or 1 when there are none. */
  lemma TokenCountIsWordCount(paragraph: string)
    ensures TokenCount(paragraph) == if WordCount(paragraph) == 0 then 1 else WordCount(paragraph)
  {
    var t := Trim(paragraph);
    WordCountOfTrim(paragraph);
    if t != [] {
      SplitCountsWords(t);
    } else {
      assert WordCount(t) == 0;
    }
  }

  /** `readDurationInMinsFromWords(paragraph)` with the default rate of 200 words a minute:
      always a whole number of minutes, at least one, and enough to read every token. */
  function ReadingMinutes(paragraph: string): (minutes: nat)
    ensures minutes >= 1
    ensures (minutes - 1) * DefaultWordsPerMinute < TokenCount(paragraph) <= minutes * DefaultWordsPerMinute
  {
    ReadingTimeAtLeastOne(paragraph, DefaultWordsPerMinute);
    ReadDurationInMinsFromWords(paragraph, DefaultWordsPerMinute).value
  }

  /** With a positive rate the reading time is at least one minute, even for an empty text. */
  lemma ReadingTimeAtLeastOne(paragraph: string, wordsPerMinute: int)
    requires wordsPerMinute >= 1
    ensures ReadDurationInMinsFromWords(paragraph, wordsPerMinute).value >= 1
  {
    TokenCountIsWordCount(paragraph);
  }

  // ---------------------------------------------------------------------------------------
  // getTopArticles: the rows of the analytics report

  /** One report row: the `pagePath` and `pageTitle` dimensions and the `screenPageViews`
      metric, each possibly missing. */
  datatype ReportRow = ReportRow(pagePath: Option<string>, pageTitle: Option<string>, pageViews: Option<string>)

  /** `TopArticle`; `views` is `parseInt(pageViews)`, `None` standing for NaN. */
  datatype TopArticle = TopArticle(title: string, views: Option<int>, link: string)

  const SiteOrigin := "https://therapytips.org"
  const AllowedFolders := ["/articles/", "/interviews/", "/advice/", "/personality-tests/"]
  const MaxTopArticles := 6
  const NoTitle := "No title found"

  /** `isValidPage`: the path contains one of the allowed folders anywhere, not only at its
      start. */
  predicate IsValidPage(pagePath: string) {
    exists k :: 0 <= k < |AllowedFolders| && Contains(pagePath, AllowedFolders[k])
  }

  /** A row the loop keeps: it has a path and a view count, and the path is an allowed one. */
  predicate Qualifies(row: ReportRow) {
    Truthy(row.pagePath) && Truthy(row.pageViews) && IsValidPage(row.pagePath.value)
  }

  /** The item the loop pushes for a row, if it keeps the row. */
  function RowItem(row: ReportRow): (item: Option<TopArticle>)
    ensures item.Some? <==> Qualifies(row)
  {
    if Qualifies(row) then
      Some(TopArticle(if Truthy(row.pageTitle) then row.pageTitle.value else NoTitle,
                      ParseInt(row.pageViews.value),
                      SiteOrigin + row.pagePath.value))
    else None
  }

  /** The result of the row-processing part of `getTopArticles`: the first six items, where an
      absent `rows` field is an empty report. */
  function TopArticles(rows: Option<seq<ReportRow>>): seq<TopArticle> {
    var all := FilterMap(RowItem, rows.GetOr([]));
    if |all| <= MaxTopArticles then all else all[..MaxTopArticles]
  }

  /** The loop of `getTopArticles`: stop once six items are collected, skip rows without a path
      or view count or outside the allowed folders, push the others. */
  method SelectTopArticles(rows: Option<seq<ReportRow>>) returns (mostRead: seq<TopArticle>)
    ensures mostRead == TopArticles(rows)
  {
    mostRead := [];
    var all := rows.GetOr([]);
    var i := 0;
    while i < |all|
      invariant 0 <= i <= |all|
      invariant mostRead == FilterMap(RowItem, all[..i])
      invariant |mostRead| <= MaxTopArticles
    {
      if |mostRead| >= MaxTopArticles {
        break;
      }
      var row := all[i];
      FilterMapStep(RowItem, all, i);
      if !Truthy(row.pagePath) || !Truthy(row.pageViews) || !IsValidPage(row.pagePath.value) {
        assert RowItem(row).None?;
        i := i + 1;
        continue;
      }
      var fullUrl := SiteOrigin + row.pagePath.value;
      var title := if Truthy(row.pageTitle) then row.pageTitle.value else NoTitle;
      var article := TopArticle(title, ParseInt(row.pageViews.value), fullUrl);
      assert RowItem(row) == Some(article);
      mostRead := mostRead + [article];
      i := i + 1;
    }
    FilterMapPrefix(RowItem, all, i);
    if i == |all| {
      assert all[..i] == all;
    }
  }

  /** What `getTopArticles` returns: at most six items; the k-th comes from the k-th qualifying
      row, taken in report order, every qualifying row is considered, its link is the site
      origin followed by the row's path, and a missing title reads "No title found". */
  lemma TopArticlesFromRows(rows: seq<ReportRow>)
    ensures var top := TopArticles(Some(rows)); var idx := Kept(RowItem, rows);
      && |top| <= MaxTopArticles
      && |top| == (if |idx| <= MaxTopArticles then |idx| else MaxTopArticles)
      && (forall k :: 0 <= k < |top| ==>
            && Qualifies(rows[idx[k]])
            && top[k].link == SiteOrigin + rows[idx[k]].pagePath.value
            && top[k].title == (if Truthy(rows[idx[k]].pageTitle) then rows[idx[k]].pageTitle.value else NoTitle)
            && top[k].views == ParseInt(rows[idx[k]].pageViews.value))
      && (forall k, l :: 0 <= k < l < |idx| ==> idx[k] < idx[l])
      && (forall i :: 0 <= i < |rows| && Qualifies(rows[i]) ==> i in idx)
  {
    FilterMapOrigins(RowItem, rows);
  }
}
