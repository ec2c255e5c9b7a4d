/** The deterministic part of the API client (api.ts): unwrapping the `{success, data, message}`
    envelope that every endpoint returns, the query string `getArticles` builds from its search
    parameters, and the legacy trending parser that turns paragraphs of an HTML page into
    items. The fetches themselves and the HTML parsing are outside the model: the decoded
    envelope and the list of paragraphs are inputs. */
module Api {
  import opened Wrappers
  import opened Text
  import opened Seqs

  // ---------------------------------------------------------------------------------------
  // The response envelope

  /** `ApiResponse<T>` as decoded from JSON; an absent or false `success` is `false`. */
  datatype Envelope<T> = Envelope(success: bool, data: Option<T>, message: Option<string>)

  /** The five endpoints whose envelope is unwrapped. */
  datatype Endpoint = Articles | ArticleBySlug | AuthorById | TestQuestionsOfArticle | AllTestQuestions

  /** The message an endpoint throws when the server gives none. */
  function DefaultError(endpoint: Endpoint): (message: string)
    ensures StartsWith(message, "Failed to fetch ")
  {
    match endpoint
    case Articles => "Failed to fetch articles"
    case ArticleBySlug => "Failed to fetch article"
    case AuthorById => "Failed to fetch author"
    case TestQuestionsOfArticle => "Failed to fetch personality test questions"
    case AllTestQuestions => "Failed to fetch all personality test questions"
  }

  /** Each endpoint has a default message of its own. */
  lemma DefaultErrorsDistinct(e1: Endpoint, e2: Endpoint)
    requires e1 != e2
    ensures DefaultError(e1) != DefaultError(e2)
  {
  }

  /** What an endpoint returns or throws for an envelope: the `data` field when `success` holds,
      otherwise an error carrying the server's message, or the endpoint's default message when
      the server's message is absent or empty. */
  function Unwrap<T>(endpoint: Endpoint, response: Envelope<T>): (r: Result<Option<T>>)
    ensures r.Ok? <==> response.success
    ensures r.Ok? ==> r.value == response.data
    ensures r.Err? && Truthy(response.message) ==> r.message == response.message.value
    ensures r.Err? && !Truthy(response.message) ==> r.message == DefaultError(endpoint)
  {
    if !response.success then
      Err(if Truthy(response.message) then response.message.value else DefaultError(endpoint))
    else Ok(response.data)
  }

  /** A thrown error always has a non-empty message, and a failure of one endpoint with no
      server message can be told apart from a failure of any other. */
  lemma UnwrapErrorMessage<T>(endpoint: Endpoint, other: Endpoint, response: Envelope<T>)
    requires !response.success && !Truthy(response.message) && other != endpoint
    ensures Unwrap(endpoint, response).message != ""
    ensures Unwrap(endpoint, response).message != DefaultError(other)
  {
    DefaultErrorsDistinct(endpoint, other);
  }

  // ---------------------------------------------------------------------------------------
  // Query parameters of getArticles

  /** A query-string entry, name then value. */
  type Param = (string, string)

  /** The values stored under `name`, in order (`URLSearchParams.getAll`). */
  function ValuesOf(query: seq<Param>, name: string): seq<string> {
    if query == [] then []
    else (if query[0].0 == name then [query[0].1] else []) + ValuesOf(query[1..], name)
  }

  /** `query` without the entries named `name`. */
  function Without(query: seq<Param>, name: string): (r: seq<Param>)
    ensures ValuesOf(r, name) == []
    ensures forall other :: other != name ==> ValuesOf(r, other) == ValuesOf(query, other)
  {
    if query == [] then []
    else if query[0].0 == name then Without(query[1..], name)
    else [query[0]] + Without(query[1..], name)
  }

  /** `URLSearchParams.set`: the first entry with that name takes the value and the other
      entries with that name go; with none, the entry is appended. */
  function SetParam(query: seq<Param>, name: string, value: string): (r: seq<Param>)
    ensures (name, value) in r
  {
    if query == [] then [(name, value)]
    else if query[0].0 == name then [(name, value)] + Without(query[1..], name)
    else [query[0]] + SetParam(query[1..], name, value)
  }

  /** After a `set`, the name has exactly the value set, and no other name changes. */
  lemma {:induction false} SetParamValues(query: seq<Param>, name: string, value: string, other: string)
    ensures ValuesOf(SetParam(query, name, value), name) == [value]
    ensures other != name ==> ValuesOf(SetParam(query, name, value), other) == ValuesOf(query, other)
  {
    if query != [] && query[0].0 != name {
      SetParamValues(query[1..], name, value, other);
    }
  }

  /** The entries set in turn, starting from `query`. */
  function SetAll(query: seq<Param>, entries: seq<Param>): seq<Param>
    decreases |entries|
  {
    if entries == [] then query
    else SetAll(SetParam(query, entries[0].0, entries[0].1), entries[1..])
  }

  /** The value the last entry named `name` carries, if any. */
  function LastValue(entries: seq<Param>, name: string): (v: Option<string>)
    ensures v.Some? <==> exists i :: 0 <= i < |entries| && entries[i].0 == name
    ensures v.Some? ==> exists i :: 0 <= i < |entries| && entries[i] == (name, v.value)
                                    && forall j :: i < j < |entries| ==> entries[j].0 != name
  {
    if entries == [] then None
    else match LastValue(entries[1..], name)
      case Some(v) =>
        LastEntryOfTail(entries, name, v);
        Some(v)
      case None =>
        assert forall i :: 1 <= i < |entries| ==> entries[i] == entries[1..][i - 1];
        if entries[0].0 == name then Some(entries[0].1) else None
  }

  /** The last entry for a name after the first entry is still the last one with it in front. */
  lemma LastEntryOfTail(entries: seq<Param>, name: string, value: string)
    requires entries != []
    requires exists i :: 0 <= i < |entries[1..]| && entries[1..][i] == (name, value)
                         && forall j :: i < j < |entries[1..]| ==> entries[1..][j].0 != name
    ensures exists i :: 0 <= i < |entries| && entries[i] == (name, value)
                        && forall j :: i < j < |entries| ==> entries[j].0 != name
  {
    var i :| 0 <= i < |entries[1..]| && entries[1..][i] == (name, value)
             && forall j :: i < j < |entries[1..]| ==> entries[1..][j].0 != name;
    assert entries[i + 1] == (name, value);
    forall j | i + 1 < j < |entries|
      ensures entries[j].0 != name
    {
      assert entries[j] == entries[1..][j - 1];
    }
  }

  /** The loop of `getArticles` over `Object.entries(params)`, on a URL whose query is empty;
      absent params leave it empty. */
  method BuildQuery(params: Option<seq<Param>>) returns (query: seq<Param>)
    ensures query == SetAll([], params.GetOr([]))
  {
    query := [];
    if params.Some? {
      var entries := params.value;
      var i := 0;
      while i < |entries|
        invariant 0 <= i <= |entries|
        invariant SetAll(query, entries[i..]) == SetAll([], entries)
      {
        var (key, value) := entries[i];
        assert entries[i..][1..] == entries[i + 1..];
        query := SetParam(query, key, value);
        i := i + 1;
      }
    }
  }

  /** Every name the parameters mention ends up with exactly one value, the one its last entry
      sets; every other name keeps what it had. */
  lemma {:induction false} SetAllValues(query: seq<Param>, entries: seq<Param>, name: string)
    ensures ValuesOf(SetAll(query, entries), name) ==
      match LastValue(entries, name) case Some(v) => [v] case None => ValuesOf(query, name)
    decreases |entries|
  {
    if entries != [] {
      var q := SetParam(query, entries[0].0, entries[0].1);
      SetAllValues(q, entries[1..], name);
      SetParamValues(query, entries[0].0, entries[0].1, name);
    }
  }

  /** With the distinct names `Object.entries` yields, the query lists the entries as given. */
  lemma {:induction false} SetAllDistinct(query: seq<Param>, entries: seq<Param>)
    requires forall i, j :: 0 <= i < j < |entries| ==> entries[i].0 != entries[j].0
    requires forall i :: 0 <= i < |entries| ==> ValuesOf(query, entries[i].0) == []
    ensures SetAll(query, entries) == query + entries
    decreases |entries|
  {
    if entries != [] {
      var (name, value) := entries[0];
      AppendFresh(query, name, value);
      var q := query + [(name, value)];
      var rest := entries[1..];
      StillFresh(query, entries);
      assert forall i, j :: 0 <= i < j < |rest| ==> rest[i].0 != rest[j].0 by {
        assert forall i :: 0 <= i < |rest| ==> rest[i] == entries[i + 1];
      }
      SetAllDistinct(q, rest);
      AppendFirst(query, entries);
    }
  }

  /** After the first entry is appended, the later entries' names are still absent. */
  lemma StillFresh(query: seq<Param>, entries: seq<Param>)
    requires entries != []
    requires forall i, j :: 0 <= i < j < |entries| ==> entries[i].0 != entries[j].0
    requires forall i :: 0 <= i < |entries| ==> ValuesOf(query, entries[i].0) == []
    ensures forall i :: 0 <= i < |entries[1..]| ==> ValuesOf(query + [entries[0]], entries[1..][i].0) == []
  {
    forall i | 0 <= i < |entries[1..]| ensures ValuesOf(query + [entries[0]], entries[1..][i].0) == [] {
      assert entries[1..][i] == entries[i + 1];
      ValuesOfAppend(query, [entries[0]], entries[i + 1].0);
    }
  }

  lemma {:induction false} AppendFresh(query: seq<Param>, name: string, value: string)
    requires ValuesOf(query, name) == []
    ensures SetParam(query, name, value) == query + [(name, value)]
  {
    if query != [] {
      assert query[0].0 != name;
      AppendFresh(query[1..], name, value);
      assert query == [query[0]] + query[1..];
    }
  }

  lemma {:induction false} ValuesOfAppend(a: seq<Param>, b: seq<Param>, name: string)
    ensures ValuesOf(a + b, name) == ValuesOf(a, name) + ValuesOf(b, name)
  {
    if a == [] {
      assert a + b == b;
    } else {
      assert (a + b)[0] == a[0];
      assert (a + b)[1..] == a[1..] + b;
      ValuesOfAppend(a[1..], b, name);
    }
  }

  // ---------------------------------------------------------------------------------------
  // The legacy trending parser

  /** An `<a>` element: its text and its `href` attribute, which may be missing. */
  datatype Anchor = Anchor(text: string, href: Option<string>)

  /** A `<p>` element, reduced to its first `<a>` and the text of its first `small em`. */
  datatype Paragraph = Paragraph(anchor: Option<Anchor>, caption: Option<string>)

  /** `TrendingItem`. */
  datatype TrendingItem = TrendingItem(title: string, views: nat, link: string)

  /** The regular expression `(\d+)\s+views` matches at `i`: a run of digits, then white space,
      then `views`. Backtracking cannot shorten either run, since a digit is not white space and
      `v` is neither. */
  predicate ViewsAt(s: string, i: nat) {
    && i < |s| && IsDigit(s[i])
    && var d := i + DigitRun(s[i..]);
    && d < |s| && IsSpace(s[d])
    && OccursAt(s, "views", d + SpaceRun(s[d..]))
  }

  /** The leftmost match at or after `from`. */
  function FirstViewsMatch(s: string, from: nat): (r: Option<nat>)
    ensures r.Some? ==> from <= r.value && ViewsAt(s, r.value)
    ensures r.Some? ==> forall j :: from <= j < r.value ==> !ViewsAt(s, j)
    ensures r.None? ==> forall j :: from <= j ==> !ViewsAt(s, j)
    decreases |s| - from
  {
    if from >= |s| then None
    else if ViewsAt(s, from) then Some(from)
    else FirstViewsMatch(s, from + 1)
  }

  /** The views count of a caption: the number in the first match, or 0. */
  function CaptionViews(caption: string): (views: nat)
    ensures FirstViewsMatch(caption, 0).None? ==> views == 0
  {
    match FirstViewsMatch(caption, 0)
    case Some(i) =>
      var n := DigitRun(caption[i..]);
      assert caption[i..][..n] == caption[i..i + n];
      DigitsValue(caption[i..i + n])
    case None => 0
  }

  /** The caption the legacy page writes, "<n> views this month", yields `n`. */
  lemma CaptionViewsOfCount(n: nat, rest: string)
    ensures CaptionViews(NatToString(n) + " views" + rest) == n
  {
    var d := NatToString(n);
    var t := " views" + rest;
    var s := d + t;
    AppendAssoc(d, " views", rest);
    DigitRunOf(d, t);
    ViewsAfterDigits(d, rest);
    CaptionViewsAtStart(s);
    PrefixOfAppend(d, t);
  }

  /** Digits followed by " views" match at the start. */
  lemma ViewsAfterDigits(d: string, rest: string)
    requires |d| >= 1 && AllDigits(d)
    requires DigitRun(d + (" views" + rest)) == |d|
    ensures ViewsAt(d + (" views" + rest), 0)
  {
    var t := " views" + rest;
    var s := d + t;
    var k := |d|;
    assert s[0] == d[0];
    assert s[k] == ' ';
    assert s[k..] == t;
    assert s[k + 1..k + 6] == t[1..6];
    assert t[..6] == " views";
    assert t[1..6] == " views"[1..];
    assert " views"[1..] == "views";
    ViewsAtStart(s, k);
  }

  /** The match at the start of a caption, stated through its parts: digits up to `k`, one
      space, then "views". */
  lemma ViewsAtStart(s: string, k: nat)
    requires 0 < k && k + 6 <= |s| && IsDigit(s[0]) && DigitRun(s) == k
    requires s[k] == ' ' && s[k + 1..k + 6] == "views"
    ensures ViewsAt(s, 0)
  {
    assert s[0..] == s;
    assert s[k + 1] == s[k + 1..k + 6][0] == 'v';
    var u := s[k..];
    assert u[0] == ' ' && u[1] == 'v';
    assert SpaceRun(u[1..]) == 0;
    assert SpaceRun(u) == 1;
    assert k + SpaceRun(s[k..]) == k + 1;
  }

  /** A caption matching at its start shows the value of its leading digits. */
  lemma CaptionViewsAtStart(caption: string)
    requires ViewsAt(caption, 0)
    ensures CaptionViews(caption) == DigitsValue(caption[..DigitRun(caption)])
  {
    assert FirstViewsMatch(caption, 0) == Some(0);
    assert caption[0..] == caption;
  }

  /** A caption without a digit gives 0 views. */
  lemma CaptionWithoutDigits(caption: string)
    requires forall i :: 0 <= i < |caption| ==> !IsDigit(caption[i])
    ensures CaptionViews(caption) == 0
  {
  }

  /** The item a paragraph contributes: it needs an anchor and a caption, and a non-empty
      trimmed anchor text and `href`. */
  function ParagraphItem(p: Paragraph): (item: Option<TrendingItem>)
    ensures item.Some? <==>
      p.anchor.Some? && p.caption.Some? && Trim(p.anchor.value.text) != "" && Truthy(p.anchor.value.href)
    ensures item.Some? ==>
      && item.value.title == Trim(p.anchor.value.text)
      && item.value.link == p.anchor.value.href.value
      && item.value.views == CaptionViews(p.caption.value)
  {
    if p.anchor.Some? && p.caption.Some? then
      var title := Trim(p.anchor.value.text);
      var link := p.anchor.value.href.GetOr("");
      var views := CaptionViews(p.caption.value);
      if title != "" && link != "" then Some(TrendingItem(title, views, link)) else None
    else None
  }

  /** `parseTopArticlesHtml` after the document is parsed: the `forEach` over the paragraphs
      that pushes an item for each accepted one. */
  method ParseTopArticlesHtml(paragraphs: seq<Paragraph>) returns (items: seq<TrendingItem>)
    ensures items == FilterMap(ParagraphItem, paragraphs)
  {
    items := [];
    var i := 0;
    while i < |paragraphs|
      invariant 0 <= i <= |paragraphs|
      invariant items == FilterMap(ParagraphItem, paragraphs[..i])
    {
      var p := paragraphs[i];
      ParagraphStep(paragraphs, i);
      if p.anchor.Some? && p.caption.Some? {
        var title := Trim(p.anchor.value.text);
        var link := p.anchor.value.href.GetOr("");
        var views := CaptionViews(p.caption.value);
        if title != "" && link != "" {
          items := items + [TrendingItem(title, views, link)];
        }
      }
      i := i + 1;
    }
    assert paragraphs[..i] == paragraphs;
  }

  /** One more paragraph: its item, if any, is pushed at the end. */
  lemma ParagraphStep(paragraphs: seq<Paragraph>, i: nat)
    requires i < |paragraphs|
    ensures var p := paragraphs[i];
      FilterMap(ParagraphItem, paragraphs[..i + 1]) ==
        if p.anchor.Some? && p.caption.Some? && Trim(p.anchor.value.text) != "" && p.anchor.value.href.GetOr("") != ""
        then FilterMap(ParagraphItem, paragraphs[..i])
             + [TrendingItem(Trim(p.anchor.value.text), CaptionViews(p.caption.value), p.anchor.value.href.GetOr(""))]
        else FilterMap(ParagraphItem, paragraphs[..i])
  {
    FilterMapStep(ParagraphItem, paragraphs, i);
  }

  /** The parsed items: no more than the paragraphs, each from an accepted paragraph, in
      paragraph order, and no accepted paragraph skipped. */
  lemma ParsedItemsFromParagraphs(paragraphs: seq<Paragraph>)
    ensures var items := FilterMap(ParagraphItem, paragraphs); var idx := Kept(ParagraphItem, paragraphs);
      && |items| <= |paragraphs|
      && |items| == |idx|
      && (forall k :: 0 <= k < |items| ==>
            && ParagraphItem(paragraphs[idx[k]]) == Some(items[k])
            && items[k].title == Trim(paragraphs[idx[k]].anchor.value.text)
            && items[k].link == paragraphs[idx[k]].anchor.value.href.value)
      && (forall k, l :: 0 <= k < l < |idx| ==> idx[k] < idx[l])
      && (forall i :: 0 <= i < |paragraphs| && ParagraphItem(paragraphs[i]).Some? ==> i in idx)
  {
    FilterMapOrigins(ParagraphItem, paragraphs);
  }
}
