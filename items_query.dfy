/** get_items (functions/api/__init__.py): the `filters` and `order_by` arguments become
    a query, the query's documents are projected item by item, and a page of the items
    that survive the projection is returned. Running the query is the database's
    business: it is an input function from the parsed query to its stream. */
module ItemsQuery {
  import opened Values
  import opened Privilege

  // ---------------------------------------------------------------------------
  // `filters.split("|")`

  /** `s.split(sep)` for a one-character separator. */
  function SplitOn(s: string, sep: char): (parts: seq<string>)
    ensures |parts| >= 1
    ensures forall i :: 0 <= i < |parts| ==> sep !in parts[i]
    decreases |s|
  {
    if s == [] then [[]]
    else
      var rest := SplitOn(s[1..], sep);
      if s[0] == sep then [[]] + rest else [[s[0]] + rest[0]] + rest[1..]
  }

  /** `last` ends `s`, and when `s` splits into several parts a separator precedes it. */
  predicate EndsGroup(s: string, last: string, many: bool, sep: char)
  {
    && |last| <= |s| && s[|s| - |last|..] == last
    && (many ==> |last| < |s| && s[|s| - |last| - 1] == sep)
  }

  lemma EndsGroupCons(s: string, last: string, many: bool, sep: char)
    requires s != [] && EndsGroup(s[1..], last, many, sep)
    ensures EndsGroup(s, last, many, sep)
  {
    assert s[|s| - |last|..] == s[1..][|s| - 1 - |last|..];
  }

  lemma EndsGroupAfterSep(s: string, sep: char)
    requires s != [] && s[0] == sep
    ensures EndsGroup(s, s[1..], true, sep)
  {
  }

  /** The last part of `s.split(sep)` is the suffix after the last separator, or all
      of `s` when there is none. */
  predicate LastPartIsSuffix(s: string, sep: char)
  {
    var parts := SplitOn(s, sep);
    && (|parts| == 1 ==> parts[0] == s)
    && EndsGroup(s, parts[|parts| - 1], |parts| >= 2, sep)
  }

  lemma {:induction false} SplitOnLast(s: string, sep: char)
    ensures LastPartIsSuffix(s, sep)
    decreases |s|
  {
    if s != [] {
      SplitOnLast(s[1..], sep);
      if s[0] == sep {
        LastPartAfterSep(s, sep);
      } else {
        LastPartAfterOther(s, sep);
      }
    }
  }

  lemma LastPartAfterSep(s: string, sep: char)
    requires s != [] && s[0] == sep && LastPartIsSuffix(s[1..], sep)
    ensures LastPartIsSuffix(s, sep)
  {
    var rest := SplitOn(s[1..], sep);
    assert SplitOn(s, sep) == [[]] + rest;
    if |rest| == 1 {
      EndsGroupAfterSep(s, sep);
    } else {
      EndsGroupCons(s, rest[|rest| - 1], true, sep);
    }
  }

  lemma LastPartAfterOther(s: string, sep: char)
    requires s != [] && s[0] != sep && LastPartIsSuffix(s[1..], sep)
    ensures LastPartIsSuffix(s, sep)
  {
    var rest := SplitOn(s[1..], sep);
    var parts := [[s[0]] + rest[0]] + rest[1..];
    assert SplitOn(s, sep) == parts;
    if |rest| == 1 {
      assert parts[0] == s;
      assert EndsGroup(s, s, false, sep);
    } else {
      assert parts[|parts| - 1] == rest[|rest| - 1];
      EndsGroupCons(s, rest[|rest| - 1], true, sep);
    }
  }

  /** `sep.join(parts)`. */
  function Join(parts: seq<string>, sep: char): string
    requires |parts| >= 1
    decreases |parts|
  {
    if |parts| == 1 then parts[0] else parts[0] + [sep] + Join(parts[1..], sep)
  }

  /** Joining the parts gives back the string that was split. */
  lemma {:induction false} JoinSplitOn(s: string, sep: char)
    ensures Join(SplitOn(s, sep), sep) == s
    decreases |s|
  {
    if s != [] {
      var rest := SplitOn(s[1..], sep);
      JoinSplitOn(s[1..], sep);
      if s[0] == sep {
        assert SplitOn(s, sep) == [[]] + rest;
        assert ([[]] + rest)[1..] == rest;
      } else {
        var parts := [[s[0]] + rest[0]] + rest[1..];
        assert SplitOn(s, sep) == parts;
        if |rest| == 1 {
          assert Join(parts, sep) == [s[0]] + rest[0];
        } else {
          assert parts[1..] == rest[1..];
          assert Join(rest, sep) == rest[0] + [sep] + Join(rest[1..], sep);
          assert Join(parts, sep) == [s[0]] + rest[0] + [sep] + Join(rest[1..], sep);
        }
      }
    }
  }

  lemma {:induction false} SplitOnPrefix(p: string, t: string, sep: char)
    requires sep !in p
    ensures SplitOn(p + t, sep) == [p + SplitOn(t, sep)[0]] + SplitOn(t, sep)[1..]
    decreases |p|
  {
    if p == [] {
      assert p + t == t;
      assert [] + SplitOn(t, sep)[0] == SplitOn(t, sep)[0];
      assert [SplitOn(t, sep)[0]] + SplitOn(t, sep)[1..] == SplitOn(t, sep);
    } else {
      var st := SplitOn(t, sep);
      assert (p + t)[0] == p[0] && (p + t)[1..] == p[1..] + t;
      SplitOnPrefix(p[1..], t, sep);
      var rest := SplitOn(p[1..] + t, sep);
      assert rest == [p[1..] + st[0]] + st[1..];
      assert rest[0] == p[1..] + st[0] && rest[1..] == st[1..];
      assert [p[0]] + (p[1..] + st[0]) == p + st[0];
    }
  }

  /** Splitting a join of separator-free parts gives back the parts. */
  lemma {:induction false} SplitOnJoin(parts: seq<string>, sep: char)
    requires |parts| >= 1
    requires forall i :: 0 <= i < |parts| ==> sep !in parts[i]
    ensures SplitOn(Join(parts, sep), sep) == parts
    decreases |parts|
  {
    if |parts| == 1 {
      SplitOnPrefix(parts[0], [], sep);
      assert parts[0] + [] == parts[0];
    } else {
      var tail := Join(parts[1..], sep);
      SplitOnJoin(parts[1..], sep);
      assert parts[0] + [sep] + tail == parts[0] + ([sep] + tail);
      SplitOnPrefix(parts[0], [sep] + tail, sep);
      assert ([sep] + tail)[1..] == tail;
      assert SplitOn([sep] + tail, sep) == [[]] + parts[1..];
      assert parts[0] + [] == parts[0];
    }
  }

  // ---------------------------------------------------------------------------
  // `filter.split(None, 2)`

  /** `c.isspace()`. */
  predicate IsSpace(c: char)
  {
    || c == ' ' || ('\t' <= c <= '\r') || ('\U{1C}' <= c <= '\U{1F}')
    || c == '\U{85}' || c == '\U{A0}' || c == '\U{1680}' || ('\U{2000}' <= c <= '\U{200A}')
    || c == '\U{2028}' || c == '\U{2029}' || c == '\U{202F}' || c == '\U{205F}' || c == '\U{3000}'
  }

  predicate NoSpace(s: string)
  {
    forall i :: 0 <= i < |s| ==> !IsSpace(s[i])
  }

  /** `s` without its leading whitespace. */
  function SkipSpace(s: string): (r: string)
    ensures |r| <= |s|
    ensures r == [] || !IsSpace(r[0])
    ensures s != [] && !IsSpace(s[0]) ==> r == s
    decreases |s|
  {
    if s != [] && IsSpace(s[0]) then SkipSpace(s[1..]) else s
  }

  /** The longest whitespace-free prefix of `s`. */
  function Token(s: string): (r: string)
    ensures |r| <= |s|
    ensures NoSpace(r)
    ensures s != [] && !IsSpace(s[0]) ==> r != []
    decreases |s|
  {
    if s == [] || IsSpace(s[0]) then [] else [s[0]] + Token(s[1..])
  }

  /** `s.split(None, 2)`: at most two splits at runs of whitespace; the third part
      is the rest of the string with its leading whitespace removed. */
  function SplitFields(s: string): (parts: seq<string>)
    ensures |parts| <= 3
    ensures forall i :: 0 <= i < |parts| ==> parts[i] != []
    ensures forall i :: 0 <= i < |parts| && i < 2 ==> NoSpace(parts[i])
    ensures |parts| == 3 ==> !IsSpace(parts[2][0])
  {
    var a := SkipSpace(s);
    if a == [] then []
    else
      var t1 := Token(a);
      var b := SkipSpace(a[|t1|..]);
      if b == [] then [t1]
      else
        var t2 := Token(b);
        var c := SkipSpace(b[|t2|..]);
        if c == [] then [t1, t2] else [t1, t2, c]
  }

  lemma {:induction false} TokenOfConcat(t: string, s: string)
    requires NoSpace(t)
    requires s == [] || IsSpace(s[0])
    ensures Token(t + s) == t
    decreases |t|
  {
    if t == [] {
      assert t + s == s;
    } else {
      assert (t + s)[1..] == t[1..] + s;
      TokenOfConcat(t[1..], s);
      assert [t[0]] + t[1..] == t;
    }
  }

  /** A filter written as `field op value` with single spaces splits back into its
      three parts. */
  lemma SplitFieldsRoundTrip(field: string, op: string, value: string)
    requires field != [] && op != [] && value != []
    requires NoSpace(field) && NoSpace(op) && !IsSpace(value[0])
    ensures SplitFields(field + " " + op + " " + value) == [field, op, value]
  {
    var s := field + " " + op + " " + value;
    var rest1 := " " + op + " " + value;
    var rest2 := " " + value;
    assert s == field + rest1;
    assert SkipSpace(s) == s;
    TokenOfConcat(field, rest1);
    assert s[|field|..] == rest1;
    assert rest1[1..] == op + rest2;
    assert SkipSpace(rest1) == op + rest2;
    TokenOfConcat(op, rest2);
    assert (op + rest2)[|op|..] == rest2;
    assert rest2[1..] == value;
    assert SkipSpace(rest2) == value;
  }

  // ---------------------------------------------------------------------------
  // Filters and ordering

  datatype Filter = Filter(field: string, op: string, value: Json)
  datatype Direction = Ascending | Descending
  datatype Ordering = Ordering(field: string, direction: Direction)
  datatype Query = Query(filters: seq<Filter>, order: Option<Ordering>)

  /** `json.loads(value)` when it succeeds, the raw string when it raises. The JSON
      decoder is a library call and is an input here. */
  function FilterValue(raw: string, decode: string -> Option<Json>): (v: Json)
    ensures decode(raw).Some? ==> v == decode(raw).value
    ensures decode(raw).None? ==> v == JStr(raw)
  {
    match decode(raw)
    case Some(j) => j
    case None => JStr(raw)
  }

  /** `key, op, value = filter.split(None, 2)`: fewer than three parts fail to unpack. */
  function ParseFilter(part: string, decode: string -> Option<Json>): (r: Outcome<Filter>)
    ensures r.Ok? <==> |SplitFields(part)| == 3
    ensures !r.Ok? ==> r == Error
    ensures r.Ok? ==>
              var p := SplitFields(part);
              r.value == Filter(p[0], p[1], FilterValue(p[2], decode))
  {
    var p := SplitFields(part);
    if |p| == 3 then Ok(Filter(p[0], p[1], FilterValue(p[2], decode))) else Error
  }

  /** The values of a sequence of outcomes, in order, or the failure when any fails. */
  function Collect<T>(rs: seq<Outcome<T>>): (r: Outcome<seq<T>>)
    ensures r.Ok? <==> forall i :: 0 <= i < |rs| ==> rs[i].Ok?
    ensures !r.Ok? ==> r == Error
    ensures r.Ok? ==> |r.value| == |rs| && forall i :: 0 <= i < |rs| ==> Ok(r.value[i]) == rs[i]
    decreases |rs|
  {
    if rs == [] then Ok([])
    else
      var init := Collect(rs[..|rs| - 1]);
      var last := rs[|rs| - 1];
      if init.Ok? && last.Ok? then Ok(init.value + [last.value]) else Error
  }

  function ParseEach(parts: seq<string>, decode: string -> Option<Json>): (rs: seq<Outcome<Filter>>)
    ensures |rs| == |parts| && forall i :: 0 <= i < |parts| ==> rs[i] == ParseFilter(parts[i], decode)
  {
    seq(|parts|, i requires 0 <= i < |parts| => ParseFilter(parts[i], decode))
  }

  /** Every part parsed, in order; one bad part fails the whole request. */
  function ParseAll(parts: seq<string>, decode: string -> Option<Json>): (r: Outcome<seq<Filter>>)
    ensures r.Ok? <==> forall i :: 0 <= i < |parts| ==> ParseFilter(parts[i], decode).Ok?
    ensures !r.Ok? ==> r == Error
    ensures r.Ok? ==>
              && |r.value| == |parts|
              && forall i :: 0 <= i < |parts| ==> Ok(r.value[i]) == ParseFilter(parts[i], decode)
  {
    Collect(ParseEach(parts, decode))
  }

  lemma CollectSnoc<T>(rs: seq<Outcome<T>>, i: nat, acc: seq<T>)
    requires i < |rs| && Ok(acc) == Collect(rs[..i]) && rs[i].Ok?
    ensures Ok(acc + [rs[i].value]) == Collect(rs[..i + 1])
  {
    assert rs[..i + 1][..i] == rs[..i];
  }

  lemma CollectFails<T>(rs: seq<Outcome<T>>, i: nat)
    requires i < |rs| && !rs[i].Ok?
    ensures Collect(rs) == Error
  {
  }

  /** The loop of get_items over the `|`-separated filters, one `where` per part. */
  method BuildFilters(filters: string, decode: string -> Option<Json>) returns (r: Outcome<seq<Filter>>)
    ensures r == ParseAll(SplitOn(filters, '|'), decode)
  {
    var parts := SplitOn(filters, '|');
    ghost var results := ParseEach(parts, decode);
    var acc: seq<Filter> := [];
    for i := 0 to |parts|
      invariant Ok(acc) == Collect(results[..i])
    {
      var f := ParseFilter(parts[i], decode);
      if !f.Ok? {
        CollectFails(results, i);
        return Error;
      }
      CollectSnoc(results, i, acc);
      acc := acc + [f.value];
    }
    assert results[..|parts|] == results;
    return Ok(acc);
  }

  /** `order_by`: a leading `-` is removed once and selects descending order. */
  function ParseOrder(orderBy: Option<string>): (r: Option<Ordering>)
    ensures r.None? <==> orderBy.None? || orderBy.value == ""
    ensures r.Some? && r.value.direction == Descending ==> orderBy.value == "-" + r.value.field
    ensures r.Some? && r.value.direction == Ascending ==>
              orderBy.value == r.value.field && orderBy.value[0] != '-'
  {
    if orderBy.None? || orderBy.value == "" then None
    else if orderBy.value[0] == '-' then Some(Ordering(orderBy.value[1..], Descending))
    else Some(Ordering(orderBy.value, Ascending))
  }

  /** The query get_items hands to the database. */
  function BuildQuery(filters: Option<string>, orderBy: Option<string>, decode: string -> Option<Json>): (r: Outcome<Query>)
    ensures r.Ok? ==> r.value.order == ParseOrder(orderBy)
    ensures (filters.None? || filters.value == "") ==> r == Ok(Query([], ParseOrder(orderBy)))
    ensures filters.Some? && filters.value != "" ==>
              var parsed := ParseAll(SplitOn(filters.value, '|'), decode);
              (r.Ok? <==> parsed.Ok?) && (r.Ok? ==> r.value.filters == parsed.value)
    ensures !r.Ok? ==> r == Error
  {
    if filters.None? || filters.value == "" then Ok(Query([], ParseOrder(orderBy)))
    else
      match ParseAll(SplitOn(filters.value, '|'), decode)
      case Ok(fs) => Ok(Query(fs, ParseOrder(orderBy)))
      case _ => Error
  }

  // ---------------------------------------------------------------------------
  // Projection and the page window

  /** What iterating the query's stream yields: `(doc.id, doc.to_dict())` pairs, or the
      exception the database raises (for instance a missing composite index). */
  datatype Stream = Rows(docs: seq<(string, Doc)>) | QueryFailed(message: string)

  /** `dict(**doc.to_dict(), id=doc.id)` for every document; a document that already has
      an `id` field makes the keyword argument repeat and raises. */
  function WithIds(rows: seq<(string, Doc)>): (r: Outcome<seq<Doc>>)
    ensures r.Ok? <==> forall i :: 0 <= i < |rows| ==> "id" !in rows[i].1
    ensures !r.Ok? ==> r == Error
    ensures r.Ok? ==>
              && |r.value| == |rows|
              && forall i :: 0 <= i < |rows| ==> r.value[i] == rows[i].1["id" := JStr(rows[i].0)]
  {
    if forall i :: 0 <= i < |rows| ==> "id" !in rows[i].1 then
      Ok(seq(|rows|, i requires 0 <= i < |rows| => rows[i].1["id" := JStr(rows[i].0)]))
    else
      Error
  }

  /** Below ADMIN tier a view shows no private admin key, and below PRIVATE_KEY tier no
      private user key. */
  predicate HidesPrivate(v: Doc, privilege: int)
  {
    && "admin" in v && v["admin"].JObj?
    && (forall k :: k in v["admin"].fields ==> !IsPrivate(k))
    && (privilege < PRIVILEGE_PRIVATE_KEY ==>
          "user" in v && v["user"].JObj? && forall k :: k in v["user"].fields ==> !IsPrivate(k))
  }

  /** The views of the items process_item does not hide, in stream order. */
  function Views(items: seq<Doc>, privilege: int): (r: seq<Doc>)
    ensures |r| <= |items|
    ensures forall j :: 0 <= j < |r| ==> "_p" in r[j] && r[j]["_p"] == JNum(privilege)
    ensures privilege < PRIVILEGE_ADMIN ==> forall j :: 0 <= j < |r| ==> HidesPrivate(r[j], privilege)
    decreases |items|
  {
    if items == [] then []
    else
      match ProcessItem(items[0], privilege)
      case Ok(View(v)) => [v] + Views(items[1..], privilege)
      case _ => Views(items[1..], privilege)
  }

  /** Every item of the stream can be projected at this tier without raising. */
  predicate Projectable(items: seq<Doc>, privilege: int)
  {
    forall i :: 0 <= i < |items| ==> ProcessItem(items[i], privilege).Ok?
  }

  /** The lazy generator pipeline: items are projected one at a time, in order, and
      pulling stops as soon as `need` visible items have been produced, so an item
      that would raise only matters when it is reached. */
  function Pull(items: seq<Doc>, privilege: int, need: nat): (r: Outcome<seq<Doc>>)
    ensures !r.Ok? ==> r == Error
    ensures Projectable(items, privilege) ==> r.Ok?
    ensures r.Ok? ==> r.value == Views(items, privilege)[..Min(need, |Views(items, privilege)|)]
    decreases |items|
  {
    if need == 0 || items == [] then Ok([])
    else
      match ProcessItem(items[0], privilege)
      case Ok(Hidden) => Pull(items[1..], privilege, need)
      case Ok(View(v)) =>
        (match Pull(items[1..], privilege, need - 1)
         case Ok(rest) => Ok([v] + rest)
         case _ => Error)
      case _ => Error
  }

  /** `sys.maxsize` of a 64-bit CPython, the largest index islice accepts. */
  const MAXSIZE: int := 0x7fff_ffff_ffff_ffff

  /** `list(islice(views, start, stop))`. CPython's islice rejects a negative or
      oversized bound, and pulls `max(start, stop)` items before it stops. */
  function Islice(items: seq<Doc>, privilege: int, start: int, stop: int): (r: Outcome<seq<Doc>>)
    ensures !r.Ok? ==> r == Error
    ensures r.Ok? ==> |r.value| <= Max(stop - start, 0)
    ensures 0 <= start <= MAXSIZE && 0 <= stop <= MAXSIZE && Projectable(items, privilege) ==> r.Ok?
  {
    if !(0 <= start <= MAXSIZE && 0 <= stop <= MAXSIZE) then Error
    else
      match Pull(items, privilege, Max(start, stop))
      case Ok(pulled) => Ok(if start < stop && start < |pulled| then pulled[start..] else [])
      case _ => Error
  }

  /** `list(islice(items_metadata, page * page_size, (page + 1) * page_size))`. */
  function Page(items: seq<Doc>, privilege: int, page: int, pageSize: int): (r: Outcome<seq<Doc>>)
    ensures !r.Ok? ==> r == Error
    ensures r.Ok? ==> |r.value| <= Max(pageSize, 0)
  {
    assert (page + 1) * pageSize - page * pageSize == pageSize;
    Islice(items, privilege, page * pageSize, (page + 1) * pageSize)
  }

  /** islice over projectable items is the window `[start, stop)` of the visible ones. */
  lemma IsliceIsWindow(items: seq<Doc>, privilege: int, start: int, stop: int)
    requires Projectable(items, privilege)
    requires 0 <= start <= stop <= MAXSIZE
    ensures var visible := Views(items, privilege);
            Islice(items, privilege, start, stop) == Ok(visible[Min(start, |visible|)..Min(stop, |visible|)])
  {
    var visible := Views(items, privilege);
    var pulled := Pull(items, privilege, stop).value;
    assert pulled == visible[..Min(stop, |visible|)];
    assert Max(start, stop) == stop;
    if start < stop && start < |pulled| {
      assert pulled[start..] == visible[start..Min(stop, |visible|)];
    } else {
      assert Min(start, |visible|) == Min(stop, |visible|);
      assert visible[Min(start, |visible|)..Min(stop, |visible|)] == [];
      assert Islice(items, privilege, start, stop) == Ok([]);
    }
  }

  /** Every item islice yields is one of the visible items. */
  lemma IsliceYieldsViews(items: seq<Doc>, privilege: int, start: int, stop: int, j: int)
    requires Islice(items, privilege, start, stop).Ok?
    requires 0 <= j < |Islice(items, privilege, start, stop).value|
    ensures var visible := Views(items, privilege);
            0 <= start + j < |visible| && Islice(items, privilege, start, stop).value[j] == visible[start + j]
  {
    var visible := Views(items, privilege);
    var pulled := Pull(items, privilege, Max(start, stop)).value;
    assert pulled == visible[..Min(Max(start, stop), |visible|)];
  }

  lemma PageBounds(page: int, pageSize: int)
    requires page >= 0 && pageSize >= 0
    ensures 0 <= page * pageSize
    ensures (page + 1) * pageSize == page * pageSize + pageSize
  {
  }

  /** The page is the window `[page * page_size, (page + 1) * page_size)` of the visible
      items: hidden items never take a slot and at most `page_size` items come back. */
  lemma PageIsWindow(items: seq<Doc>, privilege: int, page: int, pageSize: int)
    requires Projectable(items, privilege)
    requires page >= 0 && pageSize >= 0 && (page + 1) * pageSize <= MAXSIZE
    ensures var visible := Views(items, privilege);
            var start := page * pageSize;
            var stop := (page + 1) * pageSize;
            Page(items, privilege, page, pageSize) == Ok(visible[Min(start, |visible|)..Min(stop, |visible|)])
    ensures |Page(items, privilege, page, pageSize).value| <= pageSize
  {
    PageBounds(page, pageSize);
    IsliceIsWindow(items, privilege, page * pageSize, (page + 1) * pageSize);
  }

  /** Every item on a page is shown at the caller's tier, and a caller below ADMIN tier
      sees no private admin key (and below PRIVATE_KEY no private user key). */
  lemma PageViewsAtTier(items: seq<Doc>, privilege: int, page: int, pageSize: int)
    requires Page(items, privilege, page, pageSize).Ok?
    ensures var p := Page(items, privilege, page, pageSize).value;
            && (forall j :: 0 <= j < |p| ==> "_p" in p[j] && p[j]["_p"] == JNum(privilege))
            && (privilege < PRIVILEGE_ADMIN ==> forall j :: 0 <= j < |p| ==> HidesPrivate(p[j], privilege))
  {
    var p := Page(items, privilege, page, pageSize).value;
    forall j | 0 <= j < |p|
      ensures "_p" in p[j] && p[j]["_p"] == JNum(privilege)
      ensures privilege < PRIVILEGE_ADMIN ==> HidesPrivate(p[j], privilege)
    {
      IsliceYieldsViews(items, privilege, page * pageSize, (page + 1) * pageSize, j);
    }
  }

  // ---------------------------------------------------------------------------
  // The handler

  /** After the query: ids are added, then the projection and the window run inside
      the `try`. As written the stream is consumed by `list(items)` before the `try`,
      so a failing query is an uncaught exception. */
  function ListStream(privilege: int, page: int, pageSize: int, stream: Stream): (r: Outcome<seq<Doc>>)
    ensures !r.Ok? ==> r == Error
    ensures stream.QueryFailed? ==> r == Error
    ensures stream.Rows? && !WithIds(stream.docs).Ok? ==> r == Error
    ensures stream.Rows? && WithIds(stream.docs).Ok? ==> r == Page(WithIds(stream.docs).value, privilege, page, pageSize)
  {
    match stream
    case QueryFailed(_) => Error
    case Rows(rows) =>
      match WithIds(rows)
      case Ok(items) => Page(items, privilege, page, pageSize)
      case _ => Error
  }

  /** get_items as written. */
  function GetItems(
    config: Option<Doc>, key: Option<string>, page: int, pageSize: int,
    orderBy: Option<string>, filters: Option<string>,
    decode: string -> Option<Json>, run: Query -> Stream): (r: Outcome<seq<Doc>>)
    ensures !WorkspaceFound(config) ==> r == NotFound
    ensures !r.IndexRequired?
    ensures r.Ok? ==>
              && Authenticate(config, key, {AdminRole, ViewRole}).Ok?
              && BuildQuery(filters, orderBy, decode).Ok?
              && run(BuildQuery(filters, orderBy, decode).value).Rows?
    ensures var q := BuildQuery(filters, orderBy, decode);
            Authenticate(config, key, {AdminRole, ViewRole}).Ok? && q.Ok? && run(q.value).QueryFailed? ==> r == Error
    ensures var auth := Authenticate(config, key, {AdminRole, ViewRole});
            var q := BuildQuery(filters, orderBy, decode);
            auth.Ok? && q.Ok? && run(q.value).Rows? && WithIds(run(q.value).docs).Ok? ==>
              r == Page(WithIds(run(q.value).docs).value, auth.value, page, pageSize)
  {
    var auth := Authenticate(config, key, {AdminRole, ViewRole});
    if !auth.Ok? then auth.Propagate()
    else
      match BuildQuery(filters, orderBy, decode)
      case Ok(q) => ListStream(auth.value, page, pageSize, run(q))
      case _ => Error
  }

  /** A page of get_items as written: at most `page_size` items, each projected at the
      tier the caller's key resolves to; a caller without the admin key gets PUBLIC
      views. */
  lemma GetItemsPageBound(
    config: Option<Doc>, key: Option<string>, page: int, pageSize: int,
    orderBy: Option<string>, filters: Option<string>,
    decode: string -> Option<Json>, run: Query -> Stream)
    requires GetItems(config, key, page, pageSize, orderBy, filters, decode, run).Ok?
    ensures var p := GetItems(config, key, page, pageSize, orderBy, filters, decode, run).value;
            var tier := Authenticate(config, key, {AdminRole, ViewRole}).value;
            && |p| <= Max(pageSize, 0)
            && (forall j :: 0 <= j < |p| ==> "_p" in p[j] && p[j]["_p"] == JNum(tier))
            && (tier == PRIVILEGE_PUBLIC ==> forall j :: 0 <= j < |p| ==> HidesPrivate(p[j], tier))
  {
    var tier := Authenticate(config, key, {AdminRole, ViewRole}).value;
    var q := BuildQuery(filters, orderBy, decode).value;
    var items := WithIds(run(q).docs).value;
    PageViewsAtTier(items, tier, page, pageSize);
  }

  /** A valid request over a readable stream whose items all project returns the window
      `[start, stop)`, `start = page * page_size` and `stop = (page + 1) * page_size`, of
      the items visible at the caller's tier. */
  lemma GetItemsIsWindow(
    config: Option<Doc>, key: Option<string>, page: int, pageSize: int,
    orderBy: Option<string>, filters: Option<string>,
    decode: string -> Option<Json>, run: Query -> Stream,
    tier: int, q: Query, items: seq<Doc>, start: int, stop: int)
    requires Authenticate(config, key, {AdminRole, ViewRole}) == Ok(tier)
    requires BuildQuery(filters, orderBy, decode) == Ok(q)
    requires run(q).Rows? && WithIds(run(q).docs) == Ok(items)
    requires Projectable(items, tier)
    requires page >= 0 && pageSize >= 0 && start == page * pageSize && 0 <= start
    requires stop == start + pageSize && stop <= MAXSIZE
    ensures var visible := Views(items, tier);
            GetItems(config, key, page, pageSize, orderBy, filters, decode, run) ==
              Ok(visible[Min(start, |visible|)..Min(stop, |visible|)])
  {
    PageBounds(page, pageSize);
    PageIsWindow(items, tier, page, pageSize);
  }

  // ---------------------------------------------------------------------------
  // The index-required reply, as it was evidently meant to work

  const INDEX_PHRASE: string := "The query requires an index"
  const URL_SCHEME: string := "https://"

  predicate OccursAt(s: string, sub: string, i: int)
  {
    0 <= i && i + |sub| <= |s| && s[i..i + |sub|] == sub
  }

  lemma OccursAtTail(s: string, sub: string, k: int)
    requires s != [] && 0 < k
    ensures OccursAt(s, sub, k) == OccursAt(s[1..], sub, k - 1)
  {
    if k + |sub| <= |s| {
      assert s[k..k + |sub|] == s[1..][k - 1..k - 1 + |sub|];
    }
  }

  /** The first occurrence of `sub` in `s`. */
  function IndexOf(s: string, sub: string): (r: Option<nat>)
    ensures r.Some? ==> OccursAt(s, sub, r.value)
    ensures r.Some? ==> forall i :: 0 <= i < r.value ==> !OccursAt(s, sub, i)
    ensures r.None? ==> forall i :: !OccursAt(s, sub, i)
    decreases |s|
  {
    if |sub| > |s| then None
    else if s[..|sub|] == sub then Some(0)
    else
      assert !OccursAt(s, sub, 0);
      assert forall k :: 0 < k ==> OccursAt(s, sub, k) == OccursAt(s[1..], sub, k - 1) by {
        forall k | 0 < k { OccursAtTail(s, sub, k); }
      }
      match IndexOf(s[1..], sub)
      case Some(i) => Some(i + 1)
      case None => None
  }

  /** `s.split(c)[0]`: the text before the first `c`. */
  function BeforeChar(s: string, c: char): (r: string)
    ensures |r| <= |s| && r == s[..|r|]
    ensures c !in r
    ensures |r| < |s| ==> s[|r|] == c
    decreases |s|
  {
    if s == [] || s[0] == c then [] else [s[0]] + BeforeChar(s[1..], c)
  }

  /** `'https://' + msg.split('https://')[1].split(' ')[0]`; the `[1]` raises when the
      message holds no URL. */
  function ExtractIndexUrl(msg: string): (r: Outcome<string>)
    ensures (r.Ok? <==> IndexOf(msg, URL_SCHEME).Some?) && (!r.Ok? ==> r == Error)
    ensures r.Ok? ==> StartsWith(r.value, URL_SCHEME) && ' ' !in r.value[|URL_SCHEME|..]
  {
    match IndexOf(msg, URL_SCHEME)
    case None => Error
    case Some(i) =>
      var after := msg[i + |URL_SCHEME|..];
      var segment := match IndexOf(after, URL_SCHEME) case Some(j) => after[..j] case None => after;
      var url := URL_SCHEME + BeforeChar(segment, ' ');
      assert url[|URL_SCHEME|..] == BeforeChar(segment, ' ');
      Ok(url)
  }

  /** The `except` branch: the index phrase gives the 412 reply with the URL, anything
      else the generic error. */
  function ClassifyFailure(msg: string): (r: Outcome<seq<Doc>>)
    ensures IndexOf(msg, INDEX_PHRASE).Some? && ExtractIndexUrl(msg).Ok? ==> r == IndexRequired(ExtractIndexUrl(msg).value)
    ensures IndexOf(msg, INDEX_PHRASE).None? ==> r == Error
    ensures r.IndexRequired? ==> StartsWith(r.url, URL_SCHEME)
    ensures !r.IndexRequired? ==> r == Error
  {
    if IndexOf(msg, INDEX_PHRASE).Some? then
      match ExtractIndexUrl(msg)
      case Ok(url) => IndexRequired(url)
      case _ => Error
    else Error
  }

  /** get_items with the query's stream consumed inside the `try`, so that a missing
      composite index reaches the 412 branch written for it. */
  function GetItemsIndexAware(
    config: Option<Doc>, key: Option<string>, page: int, pageSize: int,
    orderBy: Option<string>, filters: Option<string>,
    decode: string -> Option<Json>, run: Query -> Stream): (r: Outcome<seq<Doc>>)
    ensures !WorkspaceFound(config) ==> r == NotFound
    ensures var q := BuildQuery(filters, orderBy, decode);
            Authenticate(config, key, {AdminRole, ViewRole}).Ok? && q.Ok? && run(q.value).QueryFailed? ==>
              r == ClassifyFailure(run(q.value).message)
    ensures var q := BuildQuery(filters, orderBy, decode);
            Authenticate(config, key, {AdminRole, ViewRole}).Ok? && q.Ok? && run(q.value).Rows? ==>
              r == GetItems(config, key, page, pageSize, orderBy, filters, decode, run)
    ensures r.IndexRequired? ==> StartsWith(r.url, URL_SCHEME)
  {
    var auth := Authenticate(config, key, {AdminRole, ViewRole});
    if !auth.Ok? then auth.Propagate()
    else
      match BuildQuery(filters, orderBy, decode)
      case Ok(q) =>
        (match run(q)
         case QueryFailed(msg) => ClassifyFailure(msg)
         case Rows(_) => ListStream(auth.value, page, pageSize, run(q)))
      case _ => Error
  }

  /** A page of the corrected handler keeps every guarantee of a page of get_items. */
  lemma GetItemsIndexAwarePageBound(
    config: Option<Doc>, key: Option<string>, page: int, pageSize: int,
    orderBy: Option<string>, filters: Option<string>,
    decode: string -> Option<Json>, run: Query -> Stream)
    requires GetItemsIndexAware(config, key, page, pageSize, orderBy, filters, decode, run).Ok?
    ensures var p := GetItemsIndexAware(config, key, page, pageSize, orderBy, filters, decode, run).value;
            var tier := Authenticate(config, key, {AdminRole, ViewRole}).value;
            && |p| <= Max(pageSize, 0)
            && (forall j :: 0 <= j < |p| ==> "_p" in p[j] && p[j]["_p"] == JNum(tier))
            && (tier == PRIVILEGE_PUBLIC ==> forall j :: 0 <= j < |p| ==> HidesPrivate(p[j], tier))
  {
    var q := BuildQuery(filters, orderBy, decode);
    assert run(q.value).Rows?;
    GetItemsPageBound(config, key, page, pageSize, orderBy, filters, decode, run);
  }

  /** The discrepancy: a query that fails for want of an index is reported as a generic
      error by get_items as written, and as index-required once the stream is read
      inside the `try`. */
  lemma MissingIndexIsNotReported(
    config: Option<Doc>, key: Option<string>, page: int, pageSize: int,
    orderBy: Option<string>, filters: Option<string>,
    decode: string -> Option<Json>, run: Query -> Stream)
    requires Authenticate(config, key, {AdminRole, ViewRole}).Ok?
    requires BuildQuery(filters, orderBy, decode).Ok?
    requires var msg := run(BuildQuery(filters, orderBy, decode).value);
             msg.QueryFailed? && IndexOf(msg.message, INDEX_PHRASE).Some? && IndexOf(msg.message, URL_SCHEME).Some?
    ensures GetItems(config, key, page, pageSize, orderBy, filters, decode, run) == Error
    ensures GetItemsIndexAware(config, key, page, pageSize, orderBy, filters, decode, run).IndexRequired?
  {
  }
}
