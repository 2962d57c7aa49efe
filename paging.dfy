/** The offline lesson catalogue and history pages (src/lib/api.ts): lesson
    filters, page windows with `Array.prototype.slice` semantics, and the
    query string the connected mode sends instead. */
module Paging {
  import opened Js
  import opened JsText
  import Simulator

  // ------------------------------------------------------------ slicing

  /** A relative index of `slice`: negative counts from the end, and the
      result is clamped to `0..len`. */
  function SliceIndex(rel: int, len: nat): (r: nat)
    ensures r <= len
    ensures 0 <= rel <= len ==> r == rel
    ensures rel > len ==> r == len
    ensures rel < 0 ==> r == if len + rel < 0 then 0 else len + rel
  {
    if rel < 0 then (if len + rel < 0 then 0 else len + rel)
    else if rel > len then len else rel
  }

  /** `s.slice(start, end)`. */
  function Slice<T>(s: seq<T>, start: int, end: int): seq<T> {
    var from := SliceIndex(start, |s|);
    var to := SliceIndex(end, |s|);
    if from < to then s[from..to] else []
  }

  /** Negative offsets count back from the end: `slice(-k)` is the last `k`
      entries, and two negative offsets pick the same window as the
      offsets they stand for. */
  lemma SliceFromEnd<T>(s: seq<T>, a: int, b: int)
    requires -|s| <= a < 0 && -|s| <= b < 0
    ensures Slice(s, a, b) == Slice(s, |s| + a, |s| + b)
    ensures Slice(s, a, |s|) == s[|s| + a..]
  {
  }

  // -------------------------------------------------------------- pages

  const LessonPageSize := 6
  const HistoryPageSize := 20
  const LessonPagePath := "/api/lessons?page="
  const HistoryPagePath := "/api/history?page="

  /** The `{results, count, next, previous}` object a page is served as. */
  datatype Page = Page(results: JVal, count: nat, next: Option<string>, previous: Option<string>)

  function Link(l: Option<string>): JVal {
    match l
    case Some(s) => JStr(s)
    case None => JNull
  }

  function PageJson(p: Page): JVal {
    JObj(map["results" := p.results, "count" := JNum(p.count), "next" := Link(p.next), "previous" := Link(p.previous)])
  }

  /** Page `page` of `size` entries of a stored collection: `slice` and
      `length` of the value, and a link to the neighbouring pages. An array
      is sliced by entries and a string by characters; any other value has
      no `slice` and raises. */
  function Paginate(v: JVal, page: int, size: nat, path: string): (r: Result<Page>)
    ensures r.Ok? <==> v.JArr? || v.JStr?
  {
    var start := (page - 1) * size;
    var end := start + size;
    var previous := if page > 1 then Some(path + IntText(page - 1)) else None;
    match v
    case JArr(items) =>
      Ok(Page(JArr(Slice(items, start, end)), |items|,
              if end < |items| then Some(path + IntText(page + 1)) else None, previous))
    case JStr(s) =>
      Ok(Page(JStr(Slice(s, start, end)), |s|,
              if end < |s| then Some(path + IntText(page + 1)) else None, previous))
    case _ => Throw(TypeError)
  }

  function Min(a: int, b: int): int {
    if a < b then a else b
  }

  /** For a page number from 1 on, a page of an array holds exactly the
      entries from `(page-1)*size` to `page*size` that exist, counts every
      entry, links to a next page exactly when entries remain after it and
      to a previous one exactly when it is not the first. */
  lemma PageWindow(items: seq<JVal>, page: int, size: nat, path: string)
    requires page >= 1 && size >= 1
    ensures var r := Paginate(JArr(items), page, size, path);
      var start := (page - 1) * size;
      && r.Ok?
      && start >= 0
      && r.value.results == JArr(items[Min(start, |items|)..Min(start + size, |items|)])
      && r.value.count == |items|
      && (r.value.next.Some? <==> start + size < |items|)
      && (r.value.next.Some? ==> r.value.next.value == path + IntText(page + 1))
      && (r.value.previous.Some? <==> page > 1)
      && (r.value.previous.Some? ==> r.value.previous.value == path + IntText(page - 1))
  {
    var start := (page - 1) * size;
    OffsetNonNegative(page - 1, size);
    PageAt(items, page, size, path, start);
    SliceWithin(items, start, start + size);
  }

  lemma OffsetNonNegative(k: nat, size: nat)
    ensures k * size >= 0
  {
  }

  /** The page object for an offset computed once. */
  lemma PageAt(items: seq<JVal>, page: int, size: nat, path: string, start: int)
    requires start == (page - 1) * size
    ensures Paginate(JArr(items), page, size, path)
      == Ok(Page(JArr(Slice(items, start, start + size)), |items|,
                 if start + size < |items| then Some(path + IntText(page + 1)) else None,
                 if page > 1 then Some(path + IntText(page - 1)) else None))
  {
  }

  /** On non-negative bounds `slice` is the clamped sub-sequence. */
  lemma SliceWithin<T>(s: seq<T>, a: int, b: int)
    requires 0 <= a <= b
    ensures Slice(s, a, b) == s[Min(a, |s|)..Min(b, |s|)]
  {
  }

  /** A page past the end is empty and has no next page, but still links
      back to the page before it. */
  lemma PastTheEnd(items: seq<JVal>, page: int, size: nat, path: string)
    requires page >= 1 && size >= 1 && (page - 1) * size >= |items|
    ensures var r := Paginate(JArr(items), page, size, path);
      r.Ok? && r.value.results == JArr([]) && r.value.next.None? && (r.value.previous.Some? <==> page > 1)
  {
    PageWindow(items, page, size, path);
  }

  /** Page 0 is always empty, and page -1 is the second-to-last window
      counted from the end, because `slice` reads negative offsets from the
      end of the collection. */
  lemma NonPositivePages(items: seq<JVal>, size: nat, path: string)
    requires size >= 1
    ensures Paginate(JArr(items), 0, size, path).value.results == JArr([])
    ensures 2 * size <= |items| ==>
      Paginate(JArr(items), -1, size, path).value.results == JArr(items[|items| - 2 * size..|items| - size])
  {
  }

  function PagesUpTo(items: seq<JVal>, size: nat, k: nat): seq<JVal>
    requires size >= 1
  {
    if k == 0 then [] else PagesUpTo(items, size, k - 1) + Paginate(JArr(items), k, size, "").value.results.items
  }

  /** Reading pages 1, 2, ..., k in turn yields the collection's first
      `k*size` entries in order, without gaps or repeats. */
  lemma {:induction false} PagesCover(items: seq<JVal>, size: nat, k: nat)
    requires size >= 1
    ensures PagesUpTo(items, size, k) == items[..Min(k * size, |items|)]
  {
    if k > 0 {
      PagesCover(items, size, k - 1);
      PageWindow(items, k, size, "");
      var a := Min((k - 1) * size, |items|);
      var b := Min(k * size, |items|);
      assert k * size == (k - 1) * size + size;
      assert items[..a] + items[a..b] == items[..b];
    }
  }

  /** `ceil(n/size)` pages of `size` reach the end of `n` entries, one
      fewer do not. */
  lemma CeilingPages(n: nat, size: nat)
    requires size >= 1 && n > 0
    ensures var last := (n + size - 1) / size;
      && last >= 1 && last * size >= n
      && (last - 1) * size + size >= n
      && (last > 1 ==> (last - 2) * size + size < n)
  {
    var last := (n + size - 1) / size;
    assert last * size <= n + size - 1 < (last + 1) * size;
    assert (last - 1) * size + size == last * size;
    assert (last - 2) * size + size == (last - 1) * size == last * size - size;
  }

  /** The pages up to the last one, `ceil(n/size)`, hold the whole
      collection. */
  lemma LastPageCovers(items: seq<JVal>, size: nat)
    requires size >= 1 && |items| > 0
    ensures PagesUpTo(items, size, (|items| + size - 1) / size) == items
  {
    var last := (|items| + size - 1) / size;
    CeilingPages(|items|, size);
    PagesCover(items, size, last);
  }

  /** The last page is the first with no next link. */
  lemma LastPage(items: seq<JVal>, size: nat)
    requires size >= 1 && |items| > 0
    ensures var last := (|items| + size - 1) / size;
      && last >= 1
      && Paginate(JArr(items), last, size, "").value.next.None?
      && (last > 1 ==> Paginate(JArr(items), last - 1, size, "").value.next.Some?)
  {
    var last := (|items| + size - 1) / size;
    CeilingPages(|items|, size);
    PageWindow(items, last, size, "");
    if last > 1 {
      PageWindow(items, last - 1, size, "");
    }
  }

  // ------------------------------------------------------------ filters

  /** One of the three offline lesson filters. */
  datatype Filter = ByLanguage(language: string) | ByCategory(category: string) | BySearch(needle: string)

  /** The filter's callback on one stored lesson. Reading a property of a
      `null` entry raises; the search lowers the title and, only when the
      title does not match, the body, so either raises when it is not text. */
  function Test(f: Filter, lesson: JVal): (r: Result<bool>)
    ensures lesson == JNull ==> r == Throw(TypeError)
    ensures f.ByLanguage? && lesson != JNull ==> r == Ok(Prop(lesson, "language") == Some(JStr(f.language)))
    ensures f.ByCategory? && lesson != JNull ==> r == Ok(Prop(lesson, "category") == Some(JStr(f.category)))
  {
    if lesson == JNull then Throw(TypeError)
    else match f
      case ByLanguage(l) => Ok(Prop(lesson, "language") == Some(JStr(l)))
      case ByCategory(c) => Ok(Prop(lesson, "category") == Some(JStr(c)))
      case BySearch(q) =>
        match Prop(lesson, "title")
        case Some(JStr(t)) =>
          if Contains(Lower(t), Lower(q)) then Ok(true)
          else (match Prop(lesson, "body")
                case Some(JStr(b)) => Ok(Contains(Lower(b), Lower(q)))
                case _ => Throw(TypeError))
        case _ => Throw(TypeError)
  }

  /** The search matches a lesson whose title and body are text exactly when
      either contains the needle, ignoring ASCII case. */
  lemma SearchMeaning(q: string, lesson: JVal, title: string, body: string)
    requires lesson != JNull && Prop(lesson, "title") == Some(JStr(title)) && Prop(lesson, "body") == Some(JStr(body))
    ensures Test(BySearch(q), lesson) == Ok(Contains(Lower(title), Lower(q)) || Contains(Lower(body), Lower(q)))
  {
  }

  /** A title match short-circuits: the body is not read and may be
      anything. */
  lemma TitleMatchIgnoresBody(q: string, lesson: JVal, title: string)
    requires lesson != JNull && Prop(lesson, "title") == Some(JStr(title)) && Contains(Lower(title), Lower(q))
    ensures Test(BySearch(q), lesson) == Ok(true)
  {
  }

  /** `items.filter(callback)`: the items the callback accepts, in order;
      the first raising callback aborts the whole call. */
  function Kept(items: seq<JVal>, f: Filter): Result<seq<JVal>>
    decreases |items|
  {
    if items == [] then Ok([])
    else match Test(f, items[0])
      case Throw(e) => Throw(e)
      case Ok(b) =>
        match Kept(items[1..], f)
        case Throw(e) => Throw(e)
        case Ok(rest) => Ok(if b then [items[0]] + rest else rest)
  }

  /** `a` is `b` with some entries left out, the rest in their order. */
  predicate Subseq(a: seq<JVal>, b: seq<JVal>)
    decreases |b|
  {
    if b == [] then a == []
    else (a != [] && a[0] == b[0] && Subseq(a[1..], b[1..])) || Subseq(a, b[1..])
  }

  /** Filtering raises exactly when the callback raises on some item, and
      otherwise keeps exactly the accepted items, each as often as it is
      stored, in their stored order. */
  lemma {:induction false} KeptMeaning(items: seq<JVal>, f: Filter)
    ensures Kept(items, f).Throw? <==> exists i :: 0 <= i < |items| && Test(f, items[i]).Throw?
    ensures Kept(items, f).Ok? ==> forall x :: x in Kept(items, f).value <==> x in items && Test(f, x) == Ok(true)
    ensures Kept(items, f).Ok? ==>
      forall x :: multiset(Kept(items, f).value)[x] == if Test(f, x) == Ok(true) then multiset(items)[x] else 0
    ensures Kept(items, f).Ok? ==> Subseq(Kept(items, f).value, items)
    decreases |items|
  {
    KeptCounts(items, f);
    if items != [] {
      KeptMeaning(items[1..], f);
      assert forall x :: x in items <==> x == items[0] || x in items[1..];
      if Test(f, items[0]).Throw? {
        assert Test(f, items[0]).Throw?;
      } else {
        forall i | 0 < i < |items| ensures items[i] == items[1..][i - 1] {}
        if exists i :: 0 <= i < |items| && Test(f, items[i]).Throw? {
          var i :| 0 <= i < |items| && Test(f, items[i]).Throw?;
          assert i > 0 && Test(f, items[1..][i - 1]).Throw?;
        }
        if Kept(items[1..], f).Throw? {
          var i :| 0 <= i < |items[1..]| && Test(f, items[1..][i]).Throw?;
          assert Test(f, items[i + 1]).Throw?;
        }
      }
    }
  }

  /** Filtering keeps each accepted item as often as it is stored. */
  lemma {:induction false} KeptCounts(items: seq<JVal>, f: Filter)
    ensures Kept(items, f).Ok? ==>
      forall x :: multiset(Kept(items, f).value)[x] == if Test(f, x) == Ok(true) then multiset(items)[x] else 0
    decreases |items|
  {
    if items != [] && Kept(items, f).Ok? {
      KeptCounts(items[1..], f);
      assert items == [items[0]] + items[1..];
      assert multiset(items) == multiset{items[0]} + multiset(items[1..]);
    }
  }

  lemma {:induction false} SubseqRefl(a: seq<JVal>)
    ensures Subseq(a, a)
    decreases |a|
  {
    if a != [] {
      SubseqRefl(a[1..]);
    }
  }

  lemma {:induction false} SubseqTrans(a: seq<JVal>, b: seq<JVal>, c: seq<JVal>)
    requires Subseq(a, b) && Subseq(b, c)
    ensures Subseq(a, c)
    decreases |c|
  {
    if c == [] {
    } else if b != [] && b[0] == c[0] && Subseq(b[1..], c[1..]) {
      if a != [] && a[0] == b[0] && Subseq(a[1..], b[1..]) {
        SubseqTrans(a[1..], b[1..], c[1..]);
      } else {
        SubseqTrans(a, b[1..], c[1..]);
      }
    } else {
      SubseqTrans(a, b, c[1..]);
    }
  }

  /** The filters applied one after another, as the three `if`s do. */
  function Chain(items: seq<JVal>, fs: seq<Filter>): Result<seq<JVal>>
    decreases |fs|
  {
    if fs == [] then Ok(items)
    else match Kept(items, fs[0])
      case Throw(e) => Throw(e)
      case Ok(out) => Chain(out, fs[1..])
  }

  /** Every filter of `fs` accepts `x`. */
  predicate AcceptedBy(fs: seq<Filter>, x: JVal) {
    forall f :: f in fs ==> Test(f, x) == Ok(true)
  }

  /** Filters in sequence keep an item exactly when every filter accepts it,
      as often as it is stored, and keep the stored order. */
  lemma {:induction false} ChainMeaning(items: seq<JVal>, fs: seq<Filter>)
    ensures Chain(items, fs).Ok? ==>
      forall x :: x in Chain(items, fs).value <==> x in items && AcceptedBy(fs, x)
    ensures Chain(items, fs).Ok? ==>
      forall x :: multiset(Chain(items, fs).value)[x] == if AcceptedBy(fs, x) then multiset(items)[x] else 0
    ensures Chain(items, fs).Ok? ==> Subseq(Chain(items, fs).value, items)
    decreases |fs|
  {
    if fs == [] {
      SubseqRefl(items);
    } else {
      KeptMeaning(items, fs[0]);
      if Kept(items, fs[0]).Ok? {
        var out := Kept(items, fs[0]).value;
        ChainMeaning(out, fs[1..]);
        if Chain(items, fs).Ok? {
          SubseqTrans(Chain(items, fs).value, out, items);
          assert forall f :: f in fs <==> f == fs[0] || f in fs[1..];
          forall x
            ensures AcceptedBy(fs, x) <==> Test(fs[0], x) == Ok(true) && AcceptedBy(fs[1..], x)
          {
          }
        }
      }
    }
  }

  /** One when `b` holds, else none. */
  function Count(b: bool): nat {
    if b then 1 else 0
  }

  /** `language && language !== 'all'`, likewise for the category. */
  predicate Chosen(o: Option<string>) {
    o.Some? && o.value != "" && o.value != "all"
  }

  /** The filters a catalogue request applies, in the order it applies them. */
  function ActiveFilters(language: Option<string>, category: Option<string>, search: Option<string>): (fs: seq<Filter>)
    ensures ByLanguage(if language.Some? then language.value else "") in fs <==> Chosen(language)
    ensures ByCategory(if category.Some? then category.value else "") in fs <==> Chosen(category)
    ensures BySearch(if search.Some? then search.value else "") in fs <==> search.Some? && search.value != ""
    ensures forall f :: f in fs ==>
      || (Chosen(language) && f == ByLanguage(language.value))
      || (Chosen(category) && f == ByCategory(category.value))
      || (search.Some? && search.value != "" && f == BySearch(search.value))
    ensures |fs| == Count(Chosen(language)) + Count(Chosen(category)) + Count(search.Some? && search.value != "")
  {
    (if Chosen(language) then [ByLanguage(language.value)] else [])
    + (if Chosen(category) then [ByCategory(category.value)] else [])
    + (if search.Some? && search.value != "" then [BySearch(search.value)] else [])
  }

  /** The offline catalogue page: the stored lessons (the seeded ones when
      none or a falsy value is stored), filtered, then page `page` of 6. A
      stored value that is not an array raises when a filter applies. */
  function LessonsPage(stored: JVal, language: Option<string>, category: Option<string>, search: Option<string>, page: int): Result<Page>
  {
    var lessons := Or(Some(stored), JArr(Simulator.MockLessons));
    var fs := ActiveFilters(language, category, search);
    if fs == [] then Paginate(lessons, page, LessonPageSize, LessonPagePath)
    else if !lessons.JArr? then Throw(TypeError)
    else match Chain(lessons.items, fs)
      case Throw(e) => Throw(e)
      case Ok(out) => Paginate(JArr(out), page, LessonPageSize, LessonPagePath)
  }

  /** On a stored array, a catalogue page lists, in stored order, exactly
      the lessons every chosen filter accepts, windowed as any page is. */
  lemma LessonsPageMeaning(stored: seq<JVal>, language: Option<string>, category: Option<string>, search: Option<string>, page: int)
    requires Chain(stored, ActiveFilters(language, category, search)).Ok?
    ensures var out := Chain(stored, ActiveFilters(language, category, search)).value;
      && LessonsPage(JArr(stored), language, category, search, page) == Paginate(JArr(out), page, LessonPageSize, LessonPagePath)
      && Subseq(out, stored)
      && (forall x :: x in out <==> x in stored && AcceptedBy(ActiveFilters(language, category, search), x))
      && forall x :: multiset(out)[x] == if AcceptedBy(ActiveFilters(language, category, search), x) then multiset(stored)[x] else 0
  {
    ChainMeaning(stored, ActiveFilters(language, category, search));
  }

  /** The offline history page: the stored log (empty when none), page
      `page` of 20. */
  function HistoryPage(stored: JVal, page: int): Result<Page> {
    Paginate(Or(Some(stored), JArr([])), page, HistoryPageSize, HistoryPagePath)
  }

  /** A history page exists exactly when the stored log is falsy (read as
      empty), an array or a string; on a stored array, page n >= 1 holds
      entries (n-1)*20 to n*20 and counts the whole log. */
  lemma HistoryPageMeaning(stored: JVal, page: int)
    ensures HistoryPage(stored, page).Ok? <==> !Truthy(stored) || stored.JArr? || stored.JStr?
    ensures page >= 1 && stored.JArr? ==>
      var r := HistoryPage(stored, page).value;
      var start := (page - 1) * HistoryPageSize;
      && r.results == JArr(stored.items[Min(start, |stored.items|)..Min(start + HistoryPageSize, |stored.items|)])
      && r.count == |stored.items|
  {
    if page >= 1 && stored.JArr? {
      PageWindow(stored.items, page, HistoryPageSize, HistoryPagePath);
    }
  }

  /** With nothing stored the history has one empty page with no links. */
  lemma EmptyHistory()
    ensures HistoryPage(JNull, 1) == Ok(Page(JArr([]), 0, None, None))
  {
  }

  // ------------------------------------------------ connected-mode query

  /** Whether `c` passes unescaped through the
      application/x-www-form-urlencoded serializer of the URL Standard. */
  predicate Unreserved(c: char) {
    ('a' <= c <= 'z') || ('A' <= c <= 'Z') || ('0' <= c <= '9') || c == '*' || c == '-' || c == '.' || c == '_'
  }

  /** The number of bytes a UTF-8 sequence starting with `b` has, or 0 when
      `b` cannot start one (RFC 3629, section 3). */
  function LeadLength(b: nat): nat {
    if b < 0x80 then 1
    else if 0xC0 <= b < 0xE0 then 2
    else if 0xE0 <= b < 0xF0 then 3
    else if 0xF0 <= b < 0xF8 then 4
    else 0
  }

  /** Whether `b` is a UTF-8 continuation byte, `10xxxxxx`. */
  predicate Continuation(b: nat) {
    0x80 <= b < 0xC0
  }

  /** The code point a UTF-8 sequence carries: the payload bits of the lead
      byte, then six bits from each continuation byte. */
  function Utf8Value(bs: seq<nat>): int
    requires 1 <= |bs| <= 4
  {
    if |bs| == 1 then bs[0]
    else if |bs| == 2 then (bs[0] as int - 0xC0) * 64 + (bs[1] as int - 0x80)
    else if |bs| == 3 then ((bs[0] as int - 0xE0) * 64 + (bs[1] as int - 0x80)) * 64 + (bs[2] as int - 0x80)
    else (((bs[0] as int - 0xF0) * 64 + (bs[1] as int - 0x80)) * 64 + (bs[2] as int - 0x80)) * 64 + (bs[3] as int - 0x80)
  }

  /** The UTF-8 bytes of a Unicode scalar value (RFC 3629, section 3). */
  function Utf8(c: char): (r: seq<nat>)
    ensures 1 <= |r| <= 4 && forall i :: 0 <= i < |r| ==> r[i] < 256
  {
    var n := c as int;
    if n < 0x80 then [n]
    else if n < 0x800 then [0xC0 + n / 64, 0x80 + n % 64]
    else if n < 0x10000 then [0xE0 + n / 4096, 0x80 + (n / 64) % 64, 0x80 + n % 64]
    else [0xF0 + n / 262144, 0x80 + (n / 4096) % 64, 0x80 + (n / 64) % 64, 0x80 + n % 64]
  }

  /** The encoding is the shortest sequence whose lead byte announces its
      length, whose other bytes are continuation bytes, and which carries
      the character's code point. */
  lemma Utf8Meaning(c: char)
    ensures var r := Utf8(c);
      && LeadLength(r[0]) == |r|
      && (forall i :: 1 <= i < |r| ==> Continuation(r[i]))
      && Utf8Value(r) == c as int
      && (|r| == 1 <==> c as int < 0x80)
      && (|r| == 2 <==> 0x80 <= c as int < 0x800)
      && (|r| == 3 <==> 0x800 <= c as int < 0x10000)
  {
    var n := c as int;
    Split64(n);
    if n >= 0x800 {
      Split64(n / 64);
    }
    if n >= 0x10000 {
      Split64(n / 4096);
    }
  }

  /** Six bits off the bottom of `m`. */
  lemma Split64(m: nat)
    ensures m == (m / 64) * 64 + m % 64 && 0 <= m % 64 < 64
    ensures m / 64 / 64 == m / 4096 && m / 4096 / 64 == m / 262144
  {
  }

  /** An upper-case hexadecimal digit. */
  predicate IsHex(ch: char) {
    '0' <= ch <= '9' || 'A' <= ch <= 'F'
  }

  function HexDigit(d: nat): (ch: char)
    requires d < 16
    ensures IsHex(ch)
  {
    "0123456789ABCDEF"[d]
  }

  /** Each byte as `%` and two upper-case hexadecimal digits, high nibble
      first. */
  function PercentBytes(bytes: seq<nat>): (r: string)
    requires forall i :: 0 <= i < |bytes| ==> bytes[i] < 256
    ensures |r| == 3 * |bytes|
    ensures forall i :: 0 <= i < |r| ==> r[i] == '%' || IsHex(r[i])
    decreases |bytes|
  {
    if bytes == [] then ""
    else ['%', HexDigit(bytes[0] / 16), HexDigit(bytes[0] % 16)] + PercentBytes(bytes[1..])
  }

  /** Byte `i` is written at `3*i` as `%` and two upper-case hexadecimal
      digits, high nibble first. */
  lemma {:induction false} PercentBytesMeaning(bytes: seq<nat>)
    requires forall i :: 0 <= i < |bytes| ==> bytes[i] < 256
    ensures var r := PercentBytes(bytes);
      forall i :: 0 <= i < |bytes| ==>
        r[3 * i] == '%' && r[3 * i + 1] == HexDigit(bytes[i] / 16) && r[3 * i + 2] == HexDigit(bytes[i] % 16)
    decreases |bytes|
  {
    if bytes != [] {
      PercentBytesMeaning(bytes[1..]);
      PercentShift(bytes, ['%', HexDigit(bytes[0] / 16), HexDigit(bytes[0] % 16)], PercentBytes(bytes[1..]));
    }
  }

  /** The groups of `head + rest` are the first byte's, then those of `rest`
      for the remaining bytes. */
  lemma PercentShift(bytes: seq<nat>, head: string, rest: string)
    requires |bytes| >= 1 && forall i :: 0 <= i < |bytes| ==> bytes[i] < 256
    requires head == ['%', HexDigit(bytes[0] / 16), HexDigit(bytes[0] % 16)]
    requires |rest| == 3 * (|bytes| - 1)
    requires forall i :: 0 <= i < |bytes| - 1 ==>
      rest[3 * i] == '%' && rest[3 * i + 1] == HexDigit(bytes[1..][i] / 16) && rest[3 * i + 2] == HexDigit(bytes[1..][i] % 16)
    ensures forall i :: 0 <= i < |bytes| ==>
      var r := head + rest;
      r[3 * i] == '%' && r[3 * i + 1] == HexDigit(bytes[i] / 16) && r[3 * i + 2] == HexDigit(bytes[i] % 16)
  {
    var r := head + rest;
    forall i | 0 <= i < |bytes|
      ensures r[3 * i] == '%' && r[3 * i + 1] == HexDigit(bytes[i] / 16) && r[3 * i + 2] == HexDigit(bytes[i] % 16)
    {
      if i > 0 {
        var j := i - 1;
        assert bytes[i] == bytes[1..][j];
        assert r[3 * i] == rest[3 * j] && r[3 * i + 1] == rest[3 * j + 1] && r[3 * i + 2] == rest[3 * j + 2];
      }
    }
  }

  /** One character as `URLSearchParams` serializes it: a space becomes
      `+`, an unreserved character stays, everything else is percent-encoded
      UTF-8. */
  function Escape(c: char): (r: string)
    ensures r != []
    ensures forall i :: 0 <= i < |r| ==> r[i] != '&' && r[i] != '=' && r[i] != ' '
    ensures Unreserved(c) ==> r == [c]
  {
    if c == ' ' then "+"
    else if Unreserved(c) then [c]
    else
      var e := PercentBytes(Utf8(c));
      e
  }

  /** One parameter name or value, escaped character by character. */
  function FormEncode(s: string): (r: string)
    ensures forall i :: 0 <= i < |r| ==> r[i] != '&' && r[i] != '=' && r[i] != ' '
    ensures (forall i :: 0 <= i < |s| ==> Unreserved(s[i])) ==> r == s
    decreases |s|
  {
    if s == [] then ""
    else Escape(s[0]) + FormEncode(s[1..])
  }

  // A decoder for the escaping above, as the URL Standard's
  // application/x-www-form-urlencoded parser reads it back.

  /** The value of a hexadecimal digit. */
  function HexValue(ch: char): (d: nat)
    requires IsHex(ch)
    ensures d < 16
  {
    if '0' <= ch <= '9' then ch as int - '0' as int else ch as int - 'A' as int + 10
  }

  lemma HexRoundTrip(d: nat)
    requires d < 16
    ensures HexValue(HexDigit(d)) == d
  {
  }

  /** Whether `r` starts with a `%` and two hexadecimal digits. */
  predicate PercentGroup(r: string) {
    |r| >= 3 && r[0] == '%' && IsHex(r[1]) && IsHex(r[2])
  }

  /** The byte a leading `%XX` group stands for. */
  function GroupByte(r: string): (b: nat)
    requires PercentGroup(r)
    ensures b < 256
  {
    HexValue(r[1]) * 16 + HexValue(r[2])
  }

  /** The bytes of the first `n` groups of `r`, if it starts with that many. */
  function GroupBytes(r: string, n: nat): (bs: Option<seq<nat>>)
    ensures bs.Some? ==> |bs.value| == n && 3 * n <= |r|
  {
    if n == 0 then Some([])
    else if !PercentGroup(r) then None
    else match GroupBytes(r[3..], n - 1)
      case None => None
      case Some(more) => Some([GroupByte(r)] + more)
  }

  /** The first escaped character of `r` and how many characters it takes,
      or None when `r` does not start with one. */
  function DecodeOne(r: string): (d: Option<(char, nat)>)
    ensures d.Some? ==> 1 <= d.value.1 <= |r|
  {
    if r == [] then None
    else if r[0] == '+' then Some((' ', 1))
    else if Unreserved(r[0]) then Some((r[0], 1))
    else if !PercentGroup(r) then None
    else
      var len := LeadLength(GroupByte(r));
      if len == 0 then None
      else match GroupBytes(r, len)
        case None => None
        case Some(bs) =>
          if exists i :: 1 <= i < len && !Continuation(bs[i]) then None
          else
            var v := Utf8Value(bs);
            if 0 <= v < 0xD800 || 0xE000 <= v < 0x11_0000 then Some((v as char, 3 * len)) else None
  }

  /** The text an escaped name or value stands for, or None when it is not
      well-formed. */
  function FormDecode(r: string): (s: Option<string>)
    decreases |r|
  {
    if r == [] then Some([])
    else match DecodeOne(r)
      case None => None
      case Some((c, k)) =>
        match FormDecode(r[k..])
        case None => None
        case Some(more) => Some([c] + more)
  }

  /** The groups `PercentBytes` writes read back as the bytes. */
  lemma {:induction false} GroupBytesOfPercent(bytes: seq<nat>, rest: string)
    requires forall i :: 0 <= i < |bytes| ==> bytes[i] < 256
    ensures GroupBytes(PercentBytes(bytes) + rest, |bytes|) == Some(bytes)
    decreases |bytes|
  {
    if bytes != [] {
      var r := PercentBytes(bytes) + rest;
      PercentHead(bytes, rest);
      GroupBytesOfPercent(bytes[1..], rest);
      assert bytes == [bytes[0]] + bytes[1..];
    }
  }

  /** The first group `PercentBytes` writes reads back as the first byte,
      and the other groups follow it. */
  lemma PercentHead(bytes: seq<nat>, rest: string)
    requires bytes != [] && forall i :: 0 <= i < |bytes| ==> bytes[i] < 256
    ensures var r := PercentBytes(bytes) + rest;
      PercentGroup(r) && GroupByte(r) == bytes[0] && r[3..] == PercentBytes(bytes[1..]) + rest
  {
    var b := bytes[0];
    var hi, lo := HexDigit(b / 16), HexDigit(b % 16);
    var tail := PercentBytes(bytes[1..]);
    assert PercentBytes(bytes) == ['%', hi, lo] + tail;
    Regrouped(['%', hi, lo], tail, rest);
    var r := PercentBytes(bytes) + rest;
    assert r[0] == '%' && r[1] == hi && r[2] == lo;
    HexRoundTrip(b / 16);
    HexRoundTrip(b % 16);
    assert GroupByte(r) == (b / 16) * 16 + b % 16;
  }

  /** A three-character head, then `t`, then `rest`. */
  lemma Regrouped(head: string, t: string, rest: string)
    requires |head| == 3
    ensures var r := head + t + rest;
      r[0] == head[0] && r[1] == head[1] && r[2] == head[2] && r[3..] == t + rest
  {
  }

  lemma DropPrefix(e: string, t: string)
    ensures (e + t)[|e|..] == t
  {
  }

  /** Decoding the escape of `c`, whatever follows it, gives back `c`. */
  lemma DecodeEscape(c: char, rest: string)
    ensures DecodeOne(Escape(c) + rest) == Some((c, |Escape(c)|))
  {
    var r := Escape(c) + rest;
    if c != ' ' && !Unreserved(c) {
      var bytes := Utf8(c);
      Utf8Meaning(c);
      PercentBytesMeaning(bytes);
      assert Escape(c) == PercentBytes(bytes);
      assert r[0] == '%' && IsHex(r[1]) && IsHex(r[2]);
      HexRoundTrip(bytes[0] / 16);
      HexRoundTrip(bytes[0] % 16);
      assert GroupByte(r) == bytes[0];
      GroupBytesOfPercent(bytes, rest);
    }
  }

  /** Decoding an escaped name or value gives back the text. */
  lemma {:induction false} FormRoundTrip(s: string)
    ensures FormDecode(FormEncode(s)) == Some(s)
    decreases |s|
  {
    if s != [] {
      var e := Escape(s[0]);
      var t := FormEncode(s[1..]);
      assert FormEncode(s) == e + t;
      DropPrefix(e, t);
      DecodeEscape(s[0], t);
      FormRoundTrip(s[1..]);
      assert s == [s[0]] + s[1..];
    }
  }

  /** The parameters of a connected catalogue request, in append order. */
  function LessonParams(language: Option<string>, category: Option<string>, search: Option<string>, page: int): (ps: seq<(string, string)>)
    ensures |ps| >= 1 && ps[|ps| - 1] == ("page", IntText(page))
    ensures ("language", if language.Some? then language.value else "") in ps <==> Chosen(language)
    ensures ("category", if category.Some? then category.value else "") in ps <==> Chosen(category)
    ensures ("search", if search.Some? then search.value else "") in ps <==> search.Some? && search.value != ""
    ensures forall p :: p in ps ==>
      || (Chosen(language) && p == ("language", language.value))
      || (Chosen(category) && p == ("category", category.value))
      || (search.Some? && search.value != "" && p == ("search", search.value))
      || p == ("page", IntText(page))
    ensures |ps| == 1 + Count(Chosen(language)) + Count(Chosen(category)) + Count(search.Some? && search.value != "")
  {
    (if Chosen(language) then [("language", language.value)] else [])
    + (if Chosen(category) then [("category", category.value)] else [])
    + (if search.Some? && search.value != "" then [("search", search.value)] else [])
    + [("page", IntText(page))]
  }

  /** One `name=value` pair, both escaped. */
  function PairText(p: (string, string)): string {
    FormEncode(p.0) + "=" + FormEncode(p.1)
  }

  /** The texts of the pairs, in order. */
  function PairTexts(ps: seq<(string, string)>): (ts: seq<string>)
    ensures |ts| == |ps| && (ps != [] ==> ts[|ts| - 1] == PairText(ps[|ps| - 1]))
  {
    if ps == [] then [] else PairTexts(ps[..|ps| - 1]) + [PairText(ps[|ps| - 1])]
  }

  /** Texts separated by `&`. */
  function Joined(ts: seq<string>): string {
    if |ts| == 0 then ""
    else if |ts| == 1 then ts[0]
    else Joined(ts[..|ts| - 1]) + "&" + ts[|ts| - 1]
  }

  /** `params.toString()`: the pairs in order, separated by `&`. */
  function QueryText(ps: seq<(string, string)>): string {
    Joined(PairTexts(ps))
  }

  const LessonsQueryPath := "/api/assistant/topic-lessons?"

  /** The endpoint of a connected catalogue request. */
  function LessonsEndpoint(language: Option<string>, category: Option<string>, search: Option<string>, page: int): string {
    LessonsQueryPath + QueryText(LessonParams(language, category, search, page))
  }

  /** The endpoint of a connected history request. */
  function HistoryEndpoint(page: int): string {
    "/api/logs/query-history?page=" + IntText(page)
  }

  /** A catalogue request that chooses nothing (no language or category
      other than "all", no search text) asks only for the page. */
  lemma PlainLessonsEndpoint(language: Option<string>, category: Option<string>, search: Option<string>, page: int)
    requires !Chosen(language) && !Chosen(category) && !(search.Some? && search.value != "")
    ensures LessonsEndpoint(language, category, search, page) == LessonsQueryPath + "page=" + IntText(page)
  {
    LessonsEndpointShape(language, category, search, page);
  }

  /** Whatever is chosen, the catalogue request is the lessons path followed
      by the parameters, ending with `page=<n>`; any chosen filter comes
      before it, separated by `&`. */
  lemma LessonsEndpointShape(language: Option<string>, category: Option<string>, search: Option<string>, page: int)
    ensures var e := LessonsEndpoint(language, category, search, page);
      var tail := "page=" + IntText(page);
      && |e| >= |LessonsQueryPath| + |tail|
      && e[..|LessonsQueryPath|] == LessonsQueryPath
      && e[|e| - |tail|..] == tail
      && (|LessonParams(language, category, search, page)| == 1 <==> e == LessonsQueryPath + tail)
      && (|LessonParams(language, category, search, page)| > 1 ==> e[|e| - |tail| - 1] == '&')
  {
    var ps := LessonParams(language, category, search, page);
    var ts := PairTexts(ps);
    var tail := "page=" + IntText(page);
    PageParamUnencoded(page);
    assert ts[|ts| - 1] == tail;
    JoinedShape(ts, tail);
    PrefixedShape(LessonsQueryPath, Joined(ts), tail, LessonsEndpoint(language, category, search, page));
  }

  /** A join ends with its last text, preceded by `&` exactly when there are
      earlier texts. */
  lemma JoinedShape(ts: seq<string>, tail: string)
    requires |ts| >= 1 && ts[|ts| - 1] == tail
    ensures var q := Joined(ts);
      && |q| >= |tail|
      && q[|q| - |tail|..] == tail
      && (|ts| == 1 <==> q == tail)
      && (|ts| > 1 ==> |q| > |tail| && q[|q| - |tail| - 1] == '&')
  {
    if |ts| > 1 {
      var front := Joined(ts[..|ts| - 1]) + "&";
      assert Joined(ts) == front + tail;
      EndsWith(front, tail, Joined(ts));
    }
  }

  /** `front + tail` ends with `tail`, right after the last of `front`. */
  lemma EndsWith(front: string, tail: string, q: string)
    requires front != [] && q == front + tail
    ensures |q| > |tail| && q[|q| - |tail|..] == tail && q != tail
    ensures q[|q| - |tail| - 1] == front[|front| - 1]
  {
  }

  /** Putting `path` before a text that ends with `tail` keeps it ending so. */
  lemma PrefixedShape(path: string, q: string, tail: string, e: string)
    requires |q| >= |tail| && q[|q| - |tail|..] == tail
    requires e == path + q
    ensures |e| >= |path| + |tail|
    ensures e[..|path|] == path
    ensures e[|e| - |tail|..] == tail
    ensures q == tail <==> e == path + tail
    ensures |q| > |tail| ==> e[|e| - |tail| - 1] == q[|q| - |tail| - 1]
  {
    if q != tail {
      assert e[|path|..] == q;
    }
  }

  /** The page parameter is sent as `page=<n>`, nothing escaped. */
  lemma PageParamUnencoded(page: int)
    ensures PairText(("page", IntText(page))) == "page=" + IntText(page)
  {
    IntTextUnreserved(page);
    var name := "page";
    assert forall i :: 0 <= i < |name| ==> Unreserved(name[i]);
  }

  lemma IntTextUnreserved(n: int)
    ensures forall i :: 0 <= i < |IntText(n)| ==> Unreserved(IntText(n)[i])
  {
    var t := IntText(n);
    if n < 0 {
      var d := Digits(-n);
      DigitsUnreserved(-n);
      assert t == "-" + d;
      forall i | 0 <= i < |t|
        ensures Unreserved(t[i])
      {
        if i > 0 {
          assert t[i] == d[i - 1];
        }
      }
    } else {
      DigitsUnreserved(n);
    }
  }

  lemma {:induction false} DigitsUnreserved(n: nat)
    ensures forall i :: 0 <= i < |Digits(n)| ==> '0' <= Digits(n)[i] <= '9'
    decreases n
  {
    if n >= 10 {
      DigitsUnreserved(n / 10);
    }
  }
}
