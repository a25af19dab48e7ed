/**
 * The paginator of the bot's embeds: it cuts a sequence into pages of a
 * fixed size, renders a page as text or as embed fields, and writes a
 * "Page x of y" footer.
 *
 * Integers are unbounded here; the 32-bit overflow of `pageSize * index` and
 * `index + 1` is not modelled. `pageSize > 0` is required throughout:
 * with a page size of zero the source's floating-point division yields no
 * meaningful page count.
 */
module Paginator {
  import opened Wrappers
  import opened Text
  import opened Embeds

  /** When a page footer is written: only for a set that spans several pages, always, or never. */
  datatype FooterHandling = Auto | On | Off

  /** What a footer text says: the footer text it extends (if any), the page number and the page count. */
  datatype FooterInfo = FooterInfo(preFooter: Option<string>, page: int, pageCount: int)

  /** The message of the argument error for a field page that cannot fit in one embed. */
  const TooManyFieldsMessage: string := "The specified field count is larger than 25."

  function Min(a: int, b: int): int {
    if a <= b then a else b
  }

  function Dist(a: int, b: int): nat {
    if a <= b then b - a else a - b
  }

  /** `count` copies of `x`. */
  function Repeat<T>(x: T, count: nat): (r: seq<T>)
    ensures |r| == count && forall k :: 0 <= k < count ==> r[k] == x
  {
    seq(count, _ => x)
  }

  // ---------------------------------------------------------------------------
  // Page arithmetic
  // ---------------------------------------------------------------------------

  lemma CeilingDivision(n: nat, pageSize: nat)
    requires pageSize > 0
    ensures var c := (n + pageSize - 1) / pageSize;
      c >= 0 && n <= c * pageSize < n + pageSize
  {
    var c := (n + pageSize - 1) / pageSize;
    var r := (n + pageSize - 1) % pageSize;
    assert n + pageSize - 1 == c * pageSize + r && 0 <= r < pageSize;
  }

  /** The sign and size of a multiple of a positive number. */
  lemma MultipleBounds(k: int, pageSize: nat)
    requires pageSize > 0
    ensures k < 0 ==> k * pageSize < 0
    ensures k >= 1 ==> k * pageSize >= pageSize
    ensures k >= 2 ==> k * pageSize >= 2 * pageSize
  {
  }

  lemma Distribute(a: int, b: int, pageSize: nat)
    ensures (a - b) * pageSize == a * pageSize - b * pageSize
  {
  }

  /** A multiple of `pageSize` in [n, n + pageSize) pins down its factor. */
  lemma MultipleInWindow(n: nat, pageSize: nat, c: int)
    requires pageSize > 0 && n <= c * pageSize < n + pageSize
    ensures c >= 0
    ensures c == 0 <==> n == 0
    ensures c > 1 <==> n > pageSize
    ensures n % pageSize == 0 <==> n == c * pageSize
  {
    MultipleBounds(c, pageSize);
    var q := n / pageSize;
    var r := n % pageSize;
    assert n == q * pageSize + r;
    Distribute(c, q, pageSize);
    MultipleBounds(c - q, pageSize);
  }

  /** Number of pages of `pageSize` items that `n` items fill: the ceiling of n / pageSize. */
  function PageCount(n: nat, pageSize: nat): (c: nat)
    requires pageSize > 0
    ensures n <= c * pageSize < n + pageSize
    ensures c == 0 <==> n == 0
    ensures c > 1 <==> n > pageSize
    ensures n % pageSize == 0 <==> n == c * pageSize
  {
    CeilingDivision(n, pageSize);
    MultipleInWindow(n, pageSize, (n + pageSize - 1) / pageSize);
    (n + pageSize - 1) / pageSize
  }

  /** The first item of an in-range page exists; every page but the last is full. */
  lemma StartInRange(n: nat, pageSize: nat, index: int)
    requires pageSize > 0 && 0 <= index < PageCount(n, pageSize)
    ensures 0 <= pageSize * index < n
    ensures index < PageCount(n, pageSize) - 1 ==> pageSize * index + pageSize < n
  {
    var c := PageCount(n, pageSize);
    Distribute(c, index, pageSize);
    MultipleBounds(c - index, pageSize);
    MultipleBounds(index, pageSize);
    assert pageSize * index == index * pageSize;
  }

  /**
   * Bounds `value` to [min, max]. The test against `min` comes first, so when
   * max < min every value that is not below `min` yields `max`.
   */
  function Clamp(min: int, max: int, value: int): (r: int)
    ensures min <= max ==> min <= r <= max
    ensures min <= max ==> forall y :: min <= y <= max ==> Dist(r, value) <= Dist(y, value)
    ensures max < min ==> r == (if value < min then min else max)
  {
    if value < min then min else if value > max then max else value
  }

  /** The number of items on the page at `index`, after moving `index` into the page range. */
  function ValueCountAtPage(n: nat, pageSize: nat, index: int): int
    requires pageSize > 0
  {
    var page := Clamp(0, PageCount(n, pageSize) - 1, index);
    Clamp(0, pageSize, n - pageSize * page)
  }

  /**
   * For an empty set the page range is empty, and the count comes out as 0
   * for a negative index and as a whole page otherwise. For any other set it
   * is short of a page exactly when the page reached is the last one and
   * `pageSize` does not divide the set's size.
   */
  lemma ValueCountAtPageIs(n: nat, pageSize: nat, index: int)
    requires pageSize > 0
    ensures n == 0 ==> ValueCountAtPage(n, pageSize, index) == (if index < 0 then 0 else pageSize)
    ensures n > 0 ==> 1 <= ValueCountAtPage(n, pageSize, index) <= pageSize
    ensures n > 0 ==>
      (ValueCountAtPage(n, pageSize, index) < pageSize <==>
       n % pageSize != 0 && (n < pageSize || index >= PageCount(n, pageSize) - 1))
  {
    var c := PageCount(n, pageSize);
    if n > 0 {
      var page := Clamp(0, c - 1, index);
      StartInRange(n, pageSize, page);
      if page == c - 1 {
        assert n - pageSize * page == n - c * pageSize + pageSize;
      }
    }
  }

  // ---------------------------------------------------------------------------
  // Windowing
  // ---------------------------------------------------------------------------

  /**
   * The page at `index` of `s`: the items from `pageSize * index` on, at most
   * `pageSize` of them, made up to `pageSize` with the fill value when one is
   * given. An index outside the page range passes `s` through unchanged.
   */
  function Group<T>(s: seq<T>, index: int, pageSize: nat, fill: Option<T>): (r: seq<T>)
    requires pageSize > 0
    ensures (index < 0 || index >= PageCount(|s|, pageSize)) ==> r == s
    ensures 0 <= index < PageCount(|s|, pageSize) ==> 0 <= pageSize * index < |s|
    ensures 0 <= index < PageCount(|s|, pageSize) && fill.None? ==>
      r == s[pageSize * index .. Min(pageSize * index + pageSize, |s|)]
    ensures 0 <= index < PageCount(|s|, pageSize) && fill.Some? ==>
      |r| == pageSize &&
      forall k :: 0 <= k < pageSize ==>
        r[k] == if pageSize * index + k < |s| then s[pageSize * index + k] else fill.value
  {
    if index < 0 || index >= PageCount(|s|, pageSize) then s
    else
      StartInRange(|s|, pageSize, index);
      var start := pageSize * index;
      var taken := s[start..Min(start + pageSize, |s|)];
      match fill
      case None => taken
      case Some(d) =>
        PaddedWindow(s, start, pageSize, d);
        taken + Repeat(d, pageSize - |taken|)
  }

  lemma PaddedWindow<T>(s: seq<T>, start: nat, pageSize: nat, d: T)
    requires start <= |s|
    ensures var taken := s[start..Min(start + pageSize, |s|)];
      var r := taken + Repeat(d, pageSize - |taken|);
      |r| == pageSize &&
      forall k :: 0 <= k < pageSize ==> r[k] == if start + k < |s| then s[start + k] else d
  {
  }

  /** Builds the page at `index` item by item. */
  method GroupAt<T>(s: seq<T>, index: int, pageSize: nat, fill: Option<T>) returns (group: seq<T>)
    requires pageSize > 0
    ensures group == Group(s, index, pageSize, fill)
  {
    var maxPages := PageCount(|s|, pageSize);
    if index < 0 || index >= maxPages {
      return s;
    }
    StartInRange(|s|, pageSize, index);
    var remainder := s[pageSize * index..];
    group := [];
    var i := 0;
    while i < pageSize
      invariant 0 <= i <= pageSize
      invariant fill.None? ==> group == remainder[..Min(i, |remainder|)]
      invariant fill.Some? ==> |group| == i
      invariant fill.Some? ==> forall k :: 0 <= k < i ==>
        group[k] == if k < |remainder| then remainder[k] else fill.value
    {
      match fill {
        case Some(d) =>
          group := group + [if i < |remainder| then remainder[i] else d];
        case None =>
          if i <= |remainder| - 1 {
            group := group + [remainder[i]];
          }
      }
      i := i + 1;
    }
    assert fill.None? ==>
      remainder[..Min(pageSize, |remainder|)] == s[pageSize * index .. Min(pageSize * index + pageSize, |s|)];
  }

  /** An in-range page holds 1 to `pageSize` items; only the last may hold fewer, and it holds what is left. */
  lemma GroupSize<T>(s: seq<T>, index: int, pageSize: nat)
    requires pageSize > 0 && 0 <= index < PageCount(|s|, pageSize)
    ensures 1 <= |Group(s, index, pageSize, None)| <= pageSize
    ensures index < PageCount(|s|, pageSize) - 1 ==> |Group(s, index, pageSize, None)| == pageSize
    ensures index == PageCount(|s|, pageSize) - 1 ==> |Group(s, index, pageSize, None)| == |s| - pageSize * index
  {
    StartInRange(|s|, pageSize, index);
    if index == PageCount(|s|, pageSize) - 1 {
      var c := PageCount(|s|, pageSize);
      assert pageSize * index + pageSize == c * pageSize;
    }
  }

  /** Pages 0 .. count - 1 of `s`, in order. */
  function Pages<T>(s: seq<T>, pageSize: nat, count: nat): seq<seq<T>>
    requires pageSize > 0 && count <= PageCount(|s|, pageSize)
  {
    if count == 0 then [] else Pages(s, pageSize, count - 1) + [Group(s, count - 1, pageSize, None)]
  }

  function Flatten<T>(ss: seq<seq<T>>): seq<T> {
    if ss == [] then [] else Flatten(ss[..|ss| - 1]) + ss[|ss| - 1]
  }

  lemma FlattenSnoc<T>(ss: seq<seq<T>>, x: seq<T>)
    ensures Flatten(ss + [x]) == Flatten(ss) + x
  {
    assert (ss + [x])[..|ss|] == ss;
  }

  lemma SliceJoin<T>(s: seq<T>, i: nat, j: nat)
    requires i <= j <= |s|
    ensures s[..i] + s[i..j] == s[..j]
  {
  }

  lemma {:induction false} PagesPrefix<T>(s: seq<T>, pageSize: nat, count: nat)
    requires pageSize > 0 && count <= PageCount(|s|, pageSize)
    ensures Flatten(Pages(s, pageSize, count)) == s[..Min(pageSize * count, |s|)]
  {
    if count > 0 {
      var start := pageSize * (count - 1);
      assert start + pageSize == pageSize * count by {
        Distribute(count, 1, pageSize);
      }
      var end := Min(start + pageSize, |s|);
      assert 0 <= start < |s| by {
        StartInRange(|s|, pageSize, count - 1);
      }
      var ps := Pages(s, pageSize, count);
      assert ps == Pages(s, pageSize, count - 1) + [s[start..end]];
      assert Flatten(ps) == Flatten(Pages(s, pageSize, count - 1)) + s[start..end] by {
        FlattenSnoc(Pages(s, pageSize, count - 1), s[start..end]);
      }
      PagesPrefix(s, pageSize, count - 1);
      assert end == Min(pageSize * count, |s|);
      assert Flatten(ps) == s[..end] by {
        SliceJoin(s, start, end);
      }
    }
  }

  /** Concatenating every page in order gives back the whole set: nothing is lost, repeated or reordered. */
  lemma PagesReassemble<T>(s: seq<T>, pageSize: nat)
    requires pageSize > 0
    ensures Flatten(Pages(s, pageSize, PageCount(|s|, pageSize))) == s
  {
    var c := PageCount(|s|, pageSize);
    PagesPrefix(s, pageSize, c);
    assert pageSize * c >= |s|;
    assert s[..|s|] == s;
  }

  // ---------------------------------------------------------------------------
  // Rendering a page as text
  // ---------------------------------------------------------------------------

  /** Each item rendered to its text, in order. */
  function Rendered<T>(s: seq<T>, writer: T -> string): (r: seq<string>)
    ensures |r| == |s| && forall k :: 0 <= k < |s| ==> r[k] == writer(s[k])
  {
    seq(|s|, k requires 0 <= k < |s| => writer(s[k]))
  }

  /** `strings` made up to `pageSize` entries with `fill`; unchanged when it is already that long. */
  function PadTo(strings: seq<string>, pageSize: nat, fill: string): seq<string> {
    if |strings| < pageSize then strings + Repeat(fill, pageSize - |strings|) else strings
  }

  /**
   * The strings shown for page `index`: the items are rendered, the whole list
   * is padded to `pageSize` with the default when the page reached is short,
   * and the page is cut from the padded list without a fill value.
   */
  function Values<T>(s: seq<T>, index: int, pageSize: nat, writer: T -> string,
                     defaultOnUnderflow: Option<string>): seq<string>
    requires pageSize > 0
  {
    var strings := Rendered(s, writer);
    var padded :=
      if defaultOnUnderflow.Some? && ValueCountAtPage(|s|, pageSize, index) != pageSize
      then PadTo(strings, pageSize, defaultOnUnderflow.value)
      else strings;
    Group(padded, index, pageSize, None)
  }

  /** Renders the items, pads the list when the page is short, and cuts out the page. */
  method GetValues<T>(s: seq<T>, index: int, pageSize: nat, writer: T -> string,
                      defaultOnUnderflow: Option<string>) returns (page: seq<string>)
    requires pageSize > 0
    ensures page == Values(s, index, pageSize, writer, defaultOnUnderflow)
  {
    var strings := Rendered(s, writer);
    if defaultOnUnderflow.Some? && ValueCountAtPage(|s|, pageSize, index) != pageSize {
      var i := |strings|;
      while i < pageSize
        invariant |s| <= i && (i <= pageSize || i == |s|)
        invariant strings == Rendered(s, writer) + Repeat(defaultOnUnderflow.value, i - |s|)
      {
        strings := strings + [defaultOnUnderflow.value];
        i := i + 1;
      }
      assert strings == PadTo(Rendered(s, writer), pageSize, defaultOnUnderflow.value);
    }
    page := GroupAt(strings, index, pageSize, None);
  }

  /** Without a default, or for a set of at least a page, the strings are exactly the page of the rendered items. */
  lemma ValuesUnpadded<T>(s: seq<T>, index: int, pageSize: nat, writer: T -> string, defaultOnUnderflow: Option<string>)
    requires pageSize > 0
    requires defaultOnUnderflow.None? || |s| >= pageSize
    ensures Values(s, index, pageSize, writer, defaultOnUnderflow) == Group(Rendered(s, writer), index, pageSize, None)
  {
  }

  /** A non-empty set shorter than a page, given a default, shows exactly `pageSize` strings whatever the index. */
  lemma ValuesShortSet<T>(s: seq<T>, index: int, pageSize: nat, writer: T -> string, fill: string)
    requires pageSize > 0 && 0 < |s| < pageSize
    ensures Values(s, index, pageSize, writer, Some(fill)) ==
      Rendered(s, writer) + Repeat(fill, pageSize - |s|)
  {
    ValueCountAtPageIs(|s|, pageSize, index);
    var padded := PadTo(Rendered(s, writer), pageSize, fill);
    assert PageCount(|padded|, pageSize) == 1;
    assert padded[0..Min(pageSize, |padded|)] == padded;
  }

  /**
   * An empty set shows nothing, except that with a default and a negative
   * index the padded list of `pageSize` defaults passes through whole.
   */
  lemma ValuesEmptySet<T>(s: seq<T>, index: int, pageSize: nat, writer: T -> string, defaultOnUnderflow: Option<string>)
    requires pageSize > 0 && |s| == 0
    ensures Values(s, index, pageSize, writer, defaultOnUnderflow) ==
      if index < 0 && defaultOnUnderflow.Some? then Repeat(defaultOnUnderflow.value, pageSize) else []
  {
    ValueCountAtPageIs(|s|, pageSize, index);
    assert Rendered(s, writer) == [];
  }

  /**
   * The last page of a set of several pages is not padded: with or without a
   * default it shows only the items left over.
   */
  lemma ValuesLastPageShort<T>(s: seq<T>, pageSize: nat, writer: T -> string, defaultOnUnderflow: Option<string>)
    requires pageSize > 0 && |s| > pageSize
    ensures var last := PageCount(|s|, pageSize) - 1;
      |Values(s, last, pageSize, writer, defaultOnUnderflow)| == |s| - pageSize * last
  {
    var last := PageCount(|s|, pageSize) - 1;
    ValuesUnpadded(s, last, pageSize, writer, defaultOnUnderflow);
    GroupSize(Rendered(s, writer), last, pageSize);
  }

  /** Seven items in pages of five, with a default: the second page still shows only two strings. */
  lemma SevenItemsInPagesOfFive<T>(s: seq<T>, writer: T -> string, fill: string)
    requires |s| == 7
    ensures |Values(s, 1, 5, writer, Some(fill))| == 2
  {
    ValuesLastPageShort(s, 5, writer, Some(fill));
  }

  /** Every string shown is the rendering of an item of the set or the default. */
  lemma ValuesFrom<T>(s: seq<T>, index: int, pageSize: nat, writer: T -> string, defaultOnUnderflow: Option<string>, k: nat)
    requires pageSize > 0 && k < |Values(s, index, pageSize, writer, defaultOnUnderflow)|
    ensures var v := Values(s, index, pageSize, writer, defaultOnUnderflow)[k];
      (exists j :: 0 <= j < |s| && v == writer(s[j])) || (defaultOnUnderflow.Some? && v == defaultOnUnderflow.value)
  {
    var strings := Rendered(s, writer);
    var padded :=
      if defaultOnUnderflow.Some? && ValueCountAtPage(|s|, pageSize, index) != pageSize
      then PadTo(strings, pageSize, defaultOnUnderflow.value)
      else strings;
    var page := Group(padded, index, pageSize, None);
    var j: nat;
    if index < 0 || index >= PageCount(|padded|, pageSize) {
      j := k;
    } else {
      StartInRange(|padded|, pageSize, index);
      j := pageSize * index + k;
    }
    assert page[k] == padded[j];
    if j < |s| {
      assert padded[j] == writer(s[j]);
    }
  }

  /** The text of a page: each of its strings on a line of its own. */
  method Paginate<T>(s: seq<T>, index: int, pageSize: nat, writer: T -> string,
                     defaultOnUnderflow: Option<string>) returns (text: string)
    requires pageSize > 0
    ensures text == Lines(Values(s, index, pageSize, writer, defaultOnUnderflow))
  {
    var group := GetValues(s, index, pageSize, writer, defaultOnUnderflow);
    text := "";
    for i := 0 to |group|
      invariant text == Lines(group[..i])
    {
      assert group[..i + 1] == group[..i] + [group[i]];
      LinesSnoc(group[..i], group[i]);
      text := text + group[i] + [LineEnd];
    }
    assert group[..|group|] == group;
  }

  /**
   * When no rendered item and no default holds a line terminator, the page
   * text cuts back into exactly the strings of the page, in order.
   */
  lemma PageTextLines<T>(s: seq<T>, index: int, pageSize: nat, writer: T -> string, defaultOnUnderflow: Option<string>)
    requires pageSize > 0
    requires forall j :: 0 <= j < |s| ==> LineEnd !in writer(s[j])
    requires defaultOnUnderflow.Some? ==> LineEnd !in defaultOnUnderflow.value
    ensures SplitLines(Lines(Values(s, index, pageSize, writer, defaultOnUnderflow))) ==
      Values(s, index, pageSize, writer, defaultOnUnderflow)
  {
    var page := Values(s, index, pageSize, writer, defaultOnUnderflow);
    forall k | 0 <= k < |page|
      ensures LineEnd !in page[k]
    {
      ValuesFrom(s, index, pageSize, writer, defaultOnUnderflow, k);
    }
    SplitLinesOfLines(page);
  }

  // ---------------------------------------------------------------------------
  // Footers
  // ---------------------------------------------------------------------------

  /** Whether a footer is written: `On` always, `Off` never, `Auto` when the set spans more than one page. */
  function CanCreateFooter(n: nat, pageSize: nat, handling: FooterHandling): (r: bool)
    requires pageSize > 0
    ensures handling == On ==> r
    ensures handling == Off ==> !r
    ensures handling == Auto ==> (r <==> n > pageSize)
  {
    match handling
    case On => true
    case Off => false
    case Auto => PageCount(n, pageSize) > 1
  }

  /** `string.IsNullOrWhiteSpace`. */
  predicate IsNullOrWhiteSpace(s: Option<string>) {
    s.None? || IsWhiteSpaceOnly(s.value)
  }

  function PageLabel(page: int, count: int): string {
    "Page " + IntString(page) + " of " + IntString(count)
  }

  predicate EndsWith(t: string, suffix: string) {
    |suffix| <= |t| && t[|t| - |suffix|..] == suffix
  }

  /** Reads a footer text back into the text it extends, the page number and the page count. */
  function ParseFooter(t: string): Option<FooterInfo> {
    match ParseIntSuffix(t)
    case None => None
    case Some((beforeCount, count)) =>
      if !EndsWith(beforeCount, " of ") then None
      else
        match ParseIntSuffix(beforeCount[..|beforeCount| - 4])
        case None => None
        case Some((beforePage, page)) => ParseFooterStart(beforePage, page, count)
  }

  /** Reads the "Page " word and the optional earlier text with its " | " separator before the page number. */
  function ParseFooterStart(beforePage: string, page: int, count: int): Option<FooterInfo> {
    if !EndsWith(beforePage, "Page ") then None
    else
      var pre := beforePage[..|beforePage| - 5];
      if pre == [] then Some(FooterInfo(None, page, count))
      else if EndsWith(pre, " | ") then Some(FooterInfo(Some(pre[..|pre| - 3]), page, count))
      else None
  }

  lemma EndsWithConcat(x: string, y: string)
    ensures EndsWith(x + y, y) && (x + y)[..|x + y| - |y|] == x
  {
    assert (x + y)[|x + y| - |y|..] == y;
  }

  lemma ParseFooterStartOf(prefix: string, page: int, count: int)
    requires prefix == [] || EndsWith(prefix, " | ")
    ensures ParseFooterStart(prefix + "Page ", page, count) ==
      Some(FooterInfo(if prefix == [] then None else Some(prefix[..|prefix| - 3]), page, count))
  {
    EndsWithConcat(prefix, "Page ");
  }

  /** Re-associates the footer's five pieces, so that the text can be read as the text before the count followed by the count. */
  lemma Regroup(p: string, a: string, b: string, c: string, d: string)
    ensures p + (a + b + c + d) == p + a + b + c + d
  {
  }

  lemma ParseFooterOf(prefix: string, page: int, count: int)
    requires prefix == [] || EndsWith(prefix, " | ")
    ensures ParseFooter(prefix + PageLabel(page, count)) ==
      Some(FooterInfo(if prefix == [] then None else Some(prefix[..|prefix| - 3]), page, count))
  {
    var pageText, countText := IntString(page), IntString(count);
    var beforePage := prefix + "Page ";
    var beforeCount := beforePage + pageText + " of ";
    assert prefix + PageLabel(page, count) == beforeCount + countText by {
      Regroup(prefix, "Page ", pageText, " of ", countText);
    }
    ParseIntSuffixOf(beforeCount, count);
    ParseIntSuffixOf(beforePage, page);
    ParseFooterOfTexts(prefix, pageText, countText, page, count);
  }

  /** `ParseFooterOf` with the two numbers' texts taken as given, together with what reading them back yields. */
  lemma ParseFooterOfTexts(prefix: string, pageText: string, countText: string, page: int, count: int)
    requires prefix == [] || EndsWith(prefix, " | ")
    requires ParseIntSuffix(prefix + "Page " + pageText) == Some((prefix + "Page ", page))
    requires ParseIntSuffix(prefix + "Page " + pageText + " of " + countText) ==
      Some((prefix + "Page " + pageText + " of ", count))
    ensures ParseFooter(prefix + "Page " + pageText + " of " + countText) ==
      Some(FooterInfo(if prefix == [] then None else Some(prefix[..|prefix| - 3]), page, count))
  {
    EndsWithConcat(prefix + "Page " + pageText, " of ");
    ParseFooterStartOf(prefix, page, count);
  }

  /**
   * The footer for page `index`: "Page {index + 1} of {page count}", after
   * the existing footer text and " | " when that text is not blank. The page
   * number is the index as given, not clamped into the page range.
   */
  function PageFooter(index: int, n: nat, pageSize: nat, preFooter: Option<string>): (r: string)
    requires pageSize > 0
    ensures EndsWith(r, PageLabel(index + 1, PageCount(n, pageSize)))
    ensures ParseFooter(r) ==
      Some(FooterInfo(if IsNullOrWhiteSpace(preFooter) then None else preFooter, index + 1, PageCount(n, pageSize)))
  {
    var prefix := FooterPrefix(preFooter);
    var caption := PageLabel(index + 1, PageCount(n, pageSize));
    ParseFooterOf(prefix, index + 1, PageCount(n, pageSize));
    EndsWithConcat(prefix, caption);
    prefix + caption
  }

  /** The existing footer text and " | " when that text is not blank, and nothing otherwise. */
  function FooterPrefix(preFooter: Option<string>): (r: string)
    ensures r == [] || (preFooter.Some? && EndsWith(r, " | ") && r[..|r| - 3] == preFooter.value)
    ensures r == [] <==> IsNullOrWhiteSpace(preFooter)
  {
    if IsNullOrWhiteSpace(preFooter) then ""
    else
      EndsWithConcat(preFooter.value, " | ");
      preFooter.value + " | "
  }

  lemma PageLabelTwoOfThree()
    ensures PageLabel(2, 3) == "Page 2 of 3"
  {
    assert DigitChar(2) == '2' && DigitChar(3) == '3';
    assert IntString(2) == "2" && IntString(3) == "3";
  }

  /** Twelve items in pages of five, index 1, no earlier footer: `Auto` writes "Page 2 of 3". */
  lemma FooterTwelveByFive()
    ensures CanCreateFooter(12, 5, Auto)
    ensures PageFooter(1, 12, 5, None) == "Page 2 of 3"
  {
    assert PageCount(12, 5) == 3;
    PageLabelTwoOfThree();
  }

  /** The same footer after an earlier footer text "Ranking". */
  lemma FooterAfterEarlierText()
    ensures PageFooter(1, 12, 5, Some("Ranking")) == "Ranking | Page 2 of 3"
  {
    assert PageCount(12, 5) == 3;
    assert PageFooter(1, 12, 5, Some("Ranking")) == FooterPrefix(Some("Ranking")) + PageLabel(2, 3);
    assert FooterPrefix(Some("Ranking")) == "Ranking | " by {
      RankingPrefix();
    }
    assert PageLabel(2, 3) == "Page 2 of 3" by {
      PageLabelTwoOfThree();
    }
    RankingFooterText();
  }

  /** The literal concatenation, kept apart so that it is proved without the footer definitions in view. */
  lemma RankingFooterText()
    ensures "Ranking | " + "Page 2 of 3" == "Ranking | Page 2 of 3"
  {
  }

  lemma RankingPrefix()
    ensures FooterPrefix(Some("Ranking")) == "Ranking | "
  {
    var earlier := "Ranking";
    assert earlier[0] == 'R' && !IsWhiteSpace('R');
    assert !IsWhiteSpaceOnly(earlier);
  }

  /** Three items fit on one page of five: `Auto` writes no footer. */
  lemma NoFooterForOnePage()
    ensures !CanCreateFooter(3, 5, Auto)
  {
  }

  // ---------------------------------------------------------------------------
  // Writing a page into an embed
  // ---------------------------------------------------------------------------

  /** Writes the footer (when the footer rule allows one) and then the page text as the description. */
  method PaginateEmbed<T>(s: seq<T>, embed: EmbedBuilder, index: int, pageSize: nat, writer: T -> string,
                          footerHandling: FooterHandling, defaultOnUnderflow: Option<string>)
    requires pageSize > 0 && embed.Valid()
    modifies embed
    ensures embed.Valid()
    ensures embed.footer ==
      if CanCreateFooter(|s|, pageSize, footerHandling)
      then Some(PageFooter(index, |s|, pageSize, old(embed.footer)))
      else old(embed.footer)
    ensures embed.description == Lines(Values(s, index, pageSize, writer, defaultOnUnderflow))
    ensures embed.fields == old(embed.fields)
  {
    if CanCreateFooter(|s|, pageSize, footerHandling) {
      embed.WithFooter(PageFooter(index, |s|, pageSize, embed.footer));
    }
    var text := Paginate(s, index, pageSize, writer, defaultOnUnderflow);
    embed.WithDescription(text);
  }

  /** A (name, value) pair as the field the paginator adds: not inline. */
  function AsField(row: (string, string)): (f: Field)
    ensures !f.isInline
  {
    Field(row.0, row.1, false)
  }

  /** The field for slot `k` of a page: its `k`-th item, or `zero` where it has none. */
  function FieldAt<T>(group: seq<T>, k: nat, writer: T -> (string, string), zero: T): (f: Field)
    ensures !f.isInline
  {
    AsField(writer(if k < |group| then group[k] else zero))
  }

  /**
   * The fields of page `index`: one per slot of the page, slot `k` showing
   * the page's `k`-th item, or `zero` (the type's default value) where the
   * page has no item.
   */
  function FieldRows<T>(s: seq<T>, index: int, pageSize: nat, writer: T -> (string, string), zero: T): (rows: seq<Field>)
    requires pageSize > 0
    ensures |rows| == pageSize
    ensures forall k :: 0 <= k < pageSize ==> !rows[k].isInline
  {
    var group := Group(s, index, pageSize, None);
    seq(pageSize, k requires 0 <= k < pageSize => FieldAt(group, k, writer, zero))
  }

  /** For an in-range page, slot `k` shows item `pageSize * index + k`, or `zero` past the end of the set. */
  lemma FieldRowsInRange<T>(s: seq<T>, index: int, pageSize: nat, writer: T -> (string, string), zero: T)
    requires pageSize > 0 && 0 <= index < PageCount(|s|, pageSize)
    ensures forall k :: 0 <= k < pageSize ==>
      FieldRows(s, index, pageSize, writer, zero)[k] ==
        AsField(writer(if pageSize * index + k < |s| then s[pageSize * index + k] else zero))
  {
    StartInRange(|s|, pageSize, index);
  }

  /** An out-of-range index shows the first `pageSize` items of the whole set, with `zero` past its end. */
  lemma FieldRowsOutOfRange<T>(s: seq<T>, index: int, pageSize: nat, writer: T -> (string, string), zero: T)
    requires pageSize > 0 && (index < 0 || index >= PageCount(|s|, pageSize))
    ensures forall k :: 0 <= k < pageSize ==>
      FieldRows(s, index, pageSize, writer, zero)[k] == AsField(writer(if k < |s| then s[k] else zero))
  {
  }

  /**
   * Writes page `index` as fields. A page of more than `MaxFieldCount` fields
   * fails before the embed is touched; otherwise the footer is written when
   * the footer rule allows one, the field list is replaced by the page's
   * `pageSize` fields, and the description is left as it was.
   */
  method PaginateEmbedWithFields<T>(s: seq<T>, embed: EmbedBuilder, index: int, pageSize: nat,
                                    writer: T -> (string, string), footerHandling: FooterHandling, zero: T)
    returns (outcome: Outcome)
    requires pageSize > 0 && embed.Valid()
    modifies embed
    ensures embed.Valid()
    ensures pageSize > MaxFieldCount ==> outcome == Fail(TooManyFieldsMessage) && unchanged(embed)
    ensures pageSize <= MaxFieldCount ==>
      outcome == Pass &&
      embed.fields == FieldRows(s, index, pageSize, writer, zero) &&
      embed.footer == (if CanCreateFooter(|s|, pageSize, footerHandling)
                       then Some(PageFooter(index, |s|, pageSize, old(embed.footer)))
                       else old(embed.footer)) &&
      embed.description == old(embed.description)
  {
    if pageSize > MaxFieldCount {
      return Fail(TooManyFieldsMessage);
    }
    var group := GroupAt(s, index, pageSize, None);
    var fields: seq<Field> := [];
    for i := 0 to pageSize
      invariant fields == FieldRows(s, index, pageSize, writer, zero)[..i]
    {
      var value := if i < |group| then group[i] else zero;
      var (name, content) := writer(value);
      assert Field(name, content, false) == FieldAt(group, i, writer, zero);
      fields := fields + [Field(name, content, false)];
    }
    if CanCreateFooter(|s|, pageSize, footerHandling) {
      embed.WithFooter(PageFooter(index, |s|, pageSize, embed.footer));
    }
    embed.SetFields(fields);
    outcome := Pass;
  }
}
