/** The search paginator: page-number validation, the window of objects a page holds, the page's
    object cache and the count taken from the loaded page while searching. */
module Paginator {
  import opened Wrappers
  import opened Text

  /** What a caller may pass as a page number: an integer, a string (from the query string), or
      something `int()` refuses with a `TypeError`, such as `None`. */
  datatype PageNumber = IntNumber(i: int) | TextNumber(s: string) | OtherNumber

  datatype PageError =
    | PageNotAnInteger      // `int(number)` raised
    | EmptyPage             // the number is below 1
    | OrphansNotSupported   // the assertion on `orphans`

  /** `int(number)`, or `None` where it raises `TypeError` or `ValueError`. */
  function AsInt(number: PageNumber): Option<int> {
    match number
    case IntNumber(i) => Some(i)
    case TextNumber(s) => ParseInt(s)
    case OtherNumber => None
  }

  /** `validate_number`: an integer page number of at least 1; there is no upper bound. */
  function ValidateNumber(number: PageNumber): (r: Result<int, PageError>)
    ensures r.Success? <==> AsInt(number).Some? && AsInt(number).value >= 1
    ensures r.Success? ==> r.value == AsInt(number).value
    ensures r == Failure(PageNotAnInteger) <==> AsInt(number).None?
    ensures r == Failure(EmptyPage) <==> AsInt(number).Some? && AsInt(number).value < 1
  {
    match AsInt(number)
    case None => Failure(PageNotAnInteger)
    case Some(n) => if n < 1 then Failure(EmptyPage) else Success(n)
  }

  /** A page number printed as the query string carries it validates to itself when positive. */
  lemma ValidateNumberOfText(n: int)
    ensures ValidateNumber(TextNumber(IntToString(n))) == if n >= 1 then Success(n) else Failure(EmptyPage)
  {
    ParseIntOfIntToString(n);
  }

  /** A sign and a space before a digit still parse: `u'+ 2'` validates to 2 and `u'- 1'` is an
      `EmptyPage`, not a `PageNotAnInteger`. */
  lemma ValidateNumberSpaceAfterSign(d: char)
    requires '1' <= d <= '9'
    ensures ValidateNumber(TextNumber(['+', ' ', d])) == Success(d as int - '0' as int)
    ensures ValidateNumber(TextNumber(['-', ' ', d])) == Failure(EmptyPage)
  {
    ParseIntSpaceAfterSign('+', d);
    ParseIntSpaceAfterSign('-', d);
  }

  /** The slice bounds `[bottom, top)` of page `number`, a validated page number. */
  function Window(number: int, perPage: nat): (nat, nat)
    requires number >= 1
  {
    var before: nat := number - 1;
    NatProduct(before, perPage);
    var bottom: nat := before * perPage;
    (bottom, bottom + perPage)
  }

  lemma NatProduct(a: nat, b: nat)
    ensures a * b >= 0
  {
  }

  /** Every window is `perPage` wide, and page `n`'s top is page `n + 1`'s bottom. */
  lemma WindowsAdjacent(n: int, perPage: nat)
    requires n >= 1
    ensures Window(n, perPage).1 - Window(n, perPage).0 == perPage
    ensures Window(n, perPage).1 == Window(n + 1, perPage).0
  {
  }

  /** Windows of distinct pages do not overlap. */
  lemma {:induction false} WindowsDisjoint(n: int, m: int, perPage: nat)
    requires 1 <= n < m
    ensures Window(n, perPage).1 <= Window(m, perPage).0
  {
    var d: nat := m - 1 - n;
    assert (m - 1) * perPage == n * perPage + d * perPage;
  }

  /** The page that holds index `i` of the object list (for a positive page size). */
  function PageOf(i: nat, perPage: nat): (n: int)
    requires perPage > 0
    ensures n >= 1
  {
    i / perPage + 1
  }

  /** Every index lies in the window of exactly one page, the one `PageOf` names. */
  lemma PageOfIndex(i: nat, perPage: nat, n: int)
    requires perPage > 0
    ensures Window(PageOf(i, perPage), perPage).0 <= i < Window(PageOf(i, perPage), perPage).1
    ensures n >= 1 && Window(n, perPage).0 <= i < Window(n, perPage).1 ==> n == PageOf(i, perPage)
  {
    var p := PageOf(i, perPage);
    IndexInOwnWindow(i, perPage);
    if n >= 1 && Window(n, perPage).0 <= i < Window(n, perPage).1 && n != p {
      if n < p {
        WindowsDisjoint(n, p, perPage);
      } else {
        WindowsDisjoint(p, n, perPage);
      }
    }
  }

  lemma IndexInOwnWindow(i: nat, perPage: nat)
    requires perPage > 0
    ensures Window(PageOf(i, perPage), perPage).0 <= i < Window(PageOf(i, perPage), perPage).1
  {
    var q := i / perPage;
    var r := i % perPage;
    assert i == q * perPage + r && 0 <= r < perPage;
    assert Window(q + 1, perPage).0 == q * perPage;
  }

  /** Python's `s[bottom:top]` for `0 <= bottom <= top`: the bounds are clamped to the list. */
  function Slice<T>(s: seq<T>, bottom: nat, top: nat): (r: seq<T>)
    requires bottom <= top
    ensures |r| <= top - bottom
    ensures forall i :: 0 <= i < |r| ==> bottom + i < |s| && r[i] == s[bottom + i]
    ensures |r| == if bottom >= |s| then 0 else if top >= |s| then |s| - bottom else top - bottom
  {
    if bottom >= |s| then [] else if top >= |s| then s[bottom..] else s[bottom..top]
  }

  /** The `_objects` cache of a page: nothing yet, a lazy iterable, or a list. */
  datatype Objects<T> = Unloaded | Iterable(items: seq<T>) | Listed(items: seq<T>)

  /** `load_objects(lazy)` on a cache: compute it when empty (from `source`), then, when not lazy,
      turn an iterable into a list of the same items. */
  function Load<T>(cache: Objects<T>, lazy: bool, source: seq<T>): Objects<T> {
    var loaded := if cache.Unloaded? then Iterable(source) else cache;
    if !lazy && !loaded.Listed? then Listed(loaded.items) else loaded
  }

  /** A loaded cache keeps its items on every later load, a non-lazy load always leaves a list, and
      loading twice is loading once. */
  lemma LoadFacts<T>(cache: Objects<T>, lazy: bool, source: seq<T>)
    ensures !Load(cache, lazy, source).Unloaded?
    ensures Load(cache, lazy, source).items == if cache.Unloaded? then source else cache.items
    ensures !lazy ==> Load(cache, lazy, source).Listed?
    ensures cache.Listed? ==> Load(cache, lazy, source) == cache
    ensures Load(Load(cache, lazy, source), lazy, source) == Load(cache, lazy, source)
  {
  }

  /** A later load never undoes an earlier non-lazy one. */
  lemma LoadAfterList<T>(cache: Objects<T>, lazy: bool, source: seq<T>)
    ensures Load(Load(cache, false, source), lazy, source) == Load(cache, false, source)
  {
  }

  class SearchPage<T> {
    /** The page's slice of the paginator's object list. */
    const objectList: seq<T>
    const number: int
    /** Whether the slice is a search-query adapter. */
    const searching: bool
    /** What the adapter's `as_model_objects()` yields for this slice. */
    const modelObjects: seq<T>
    /** What the adapter's `count()` answers for this slice. */
    const hits: nat
    var objects: Objects<T>

    /** The items `load_objects` caches: the model objects while searching, else the slice itself. */
    function Source(): seq<T> {
      if searching then modelObjects else objectList
    }

    ghost predicate Valid()
      reads this
    {
      objects.Unloaded? || objects.items == Source()
    }

    constructor(objectList: seq<T>, number: int, searching: bool, modelObjects: seq<T>, hits: nat)
      ensures this.objectList == objectList && this.number == number && this.searching == searching
      ensures this.modelObjects == modelObjects && this.hits == hits
      ensures objects == Unloaded && Valid()
    {
      this.objectList := objectList;
      this.number := number;
      this.searching := searching;
      this.modelObjects := modelObjects;
      this.hits := hits;
      objects := Unloaded;
    }

    /** `load_objects(lazy=True)`. */
    method LoadObjects(lazy: bool)
      requires Valid()
      modifies this`objects
      ensures Valid() && !objects.Unloaded?
      ensures objects == Load(old(objects), lazy, Source())
    {
      if objects.Unloaded? {
        objects := Iterable(Source());
      }
      if !lazy && !objects.Listed? {
        objects := Listed(objects.items);
      }
    }

    /** `__iter__`: load lazily, then iterate the cached items. */
    method Iter() returns (items: seq<T>)
      requires Valid()
      modifies this`objects
      ensures Valid() && objects == Load(old(objects), true, Source())
      ensures items == Source()
    {
      LoadObjects(true);
      items := objects.items;
    }
  }

  class SearchPaginator<T> {
    const objectList: seq<T>
    const perPage: nat
    const orphans: nat
    /** Whether the object list is a search-query adapter. */
    const searching: bool
    var page: SearchPage?<T>

    constructor(objectList: seq<T>, perPage: nat, orphans: nat, searching: bool)
      ensures this.objectList == objectList && this.perPage == perPage && this.orphans == orphans
      ensures this.searching == searching && page == null
    {
      this.objectList := objectList;
      this.perPage := perPage;
      this.orphans := orphans;
      this.searching := searching;
      page := null;
    }

    /** `page(number)`: refuse orphans, validate the number, make the page of the window's slice,
        remember it, and load its objects eagerly.  `modelObjects` and `hits` are what the search
        adapter answers for that slice. */
    method Page(number: PageNumber, modelObjects: seq<T>, hits: nat) returns (r: Result<SearchPage<T>, PageError>)
      modifies this`page
      ensures orphans != 0 ==> r == Failure(OrphansNotSupported) && page == old(page)
      ensures orphans == 0 && ValidateNumber(number).Failure? ==>
                r == Failure(ValidateNumber(number).error) && page == old(page)
      ensures orphans == 0 && ValidateNumber(number).Success? ==>
                var n := ValidateNumber(number).value;
                && r.Success? && fresh(r.value) && page == r.value
                && r.value.number == n && r.value.searching == searching
                && r.value.objectList == Slice(objectList, Window(n, perPage).0, Window(n, perPage).1)
                && r.value.objects == Listed(r.value.Source()) && r.value.Valid()
                && r.value.hits == hits
                && Count() == if searching then hits else |objectList|
    {
      if orphans != 0 {
        return Failure(OrphansNotSupported);
      }
      var validated := ValidateNumber(number);
      if validated.Failure? {
        return Failure(validated.error);
      }
      var n := validated.value;
      var (bottom, top) := Window(n, perPage);
      var p := new SearchPage(Slice(objectList, bottom, top), n, searching, modelObjects, hits);
      page := p;
      p.LoadObjects(false);
      return Success(p);
    }

    /** `count`: the remembered page's hit count while searching, else the parent's count of the
        whole object list. */
    function Count(): nat
      reads this
    {
      if searching && page != null then page.hits else |objectList|
    }
  }
}
