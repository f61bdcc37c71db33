/**
  Listing and exporting scraped data (src/api/v1/data/router.py): both filter the same joined rows,
  the one page by page, the other at once as NDJSON.

  `table` is the join of result items with their jobs in the order of the queries, newest first with
  some fixed order among equal times; `like` is the database's ILIKE.
*/
module DataApi {
  import opened Wrappers
  import opened Json
  import opened JsonReader
  import opened Numerals

  datatype Row = Row(
    id: string, jobId: string, userId: string, targetUrl: string, url: string, title: string, wordCount: int,
    format: string, extractedAt: int, preview: string, content: Value)

  datatype Filters = Filters(jobId: Option<string>, format: Option<string>, q: Option<string>)

  datatype Error = Unprocessable | NotFound

  type Like = (string, string) -> bool

  // ---------------------------------------------------------------- selection

  predicate Selected(user: string, f: Filters, like: Like, row: Row)
  {
    && row.userId == user
    && (Truthy(f.jobId) ==> row.jobId == f.jobId.value)
    && (Truthy(f.format) ==> row.format == f.format.value)
    && (Truthy(f.q) ==> Found(like, f.q.value, row))
  }

  predicate Found(like: Like, q: string, row: Row)
  {
    var pattern := "%" + q + "%";
    like(pattern, row.title) || like(pattern, row.url) || like(pattern, row.preview)
  }

  function Where(table: seq<Row>, query: Row -> bool): (rows: seq<Row>)
    ensures |rows| <= |table|
    ensures forall row :: row in rows <==> row in table && query(row)
  {
    if table == [] then [] else (if query(table[0]) then [table[0]] else []) + Where(table[1..], query)
  }

  lemma {:induction false} WhereConcat(a: seq<Row>, b: seq<Row>, query: Row -> bool)
    ensures Where(a + b, query) == Where(a, query) + Where(b, query)
  {
    if a == [] {
      assert a + b == b;
    } else {
      var rest := a[1..];
      assert (a + b)[0] == a[0] && (a + b)[1..] == rest + b;
      WhereConcat(rest, b, query);
      Assoc(if query(a[0]) then [a[0]] else [], Where(rest, query), Where(b, query));
    }
  }

  lemma Assoc(a: seq<Row>, b: seq<Row>, c: seq<Row>)
    ensures a + (b + c) == a + b + c
  {
  }

  /** A query keeps order and multiplicity: a row stands between what is selected before and after it, or falls out. */
  lemma WhereKeepsOrder(before: seq<Row>, row: Row, after: seq<Row>, query: Row -> bool)
    ensures Where(before + [row] + after, query) ==
      Where(before, query) + (if query(row) then [row] else []) + Where(after, query)
  {
    WhereConcat(before + [row], after, query);
    WhereConcat(before, [row], query);
    assert [row][1..] == [];
    assert Where([row], query) == if query(row) then [row] else [];
  }

  /** A filter that is given narrows the selection, a search looks at title, URL and preview; nothing else does. */
  lemma MatchesAre(table: seq<Row>, user: string, f: Filters, like: Like, row: Row)
    ensures row in Matches(table, user, f, like) <==>
      && row in table && row.userId == user
      && (f.jobId == None || f.jobId == Some("") || f.jobId == Some(row.jobId))
      && (f.format == None || f.format == Some("") || f.format == Some(row.format))
      && (|| f.q == None || f.q == Some("")
          || like("%" + f.q.value + "%", row.title)
          || like("%" + f.q.value + "%", row.url)
          || like("%" + f.q.value + "%", row.preview))
  {
  }

  /** The rows a user's filters select. */
  function Matches(table: seq<Row>, user: string, f: Filters, like: Like): seq<Row>
  {
    Where(table, row => Selected(user, f, like, row))
  }

  /** The rows of a user with one of the given ids. */
  function WithIds(table: seq<Row>, user: string, ids: seq<string>): seq<Row>
  {
    Where(table, (row: Row) => row.userId == user && row.id in ids)
  }

  lemma {:induction false} WhereSame(table: seq<Row>, p: Row -> bool, q: Row -> bool)
    requires forall row :: p(row) == q(row)
    ensures Where(table, p) == Where(table, q)
  {
    if table != [] { WhereSame(table[1..], p, q); }
  }

  /** LIMIT and OFFSET. */
  function Page(rows: seq<Row>, limit: nat, offset: nat): seq<Row>
  {
    var from := if offset <= |rows| then offset else |rows|;
    var to := if offset + limit <= |rows| then offset + limit else |rows|;
    rows[from..to]
  }

  lemma PageIs(rows: seq<Row>, limit: nat, offset: nat)
    ensures var items := Page(rows, limit, offset);
      && |items| == (if offset >= |rows| then 0 else if |rows| - offset < limit then |rows| - offset else limit)
      && forall k :: 0 <= k < |items| ==> items[k] == rows[offset + k]
  {
  }

  /** The number of rows a query counts, and the page it returns. */
  method ListData(table: seq<Row>, user: string, f: Filters, like: Like, limit: nat, offset: nat)
    returns (items: seq<Row>, total: nat)
    ensures items == Page(Matches(table, user, f, like), limit, offset)
    ensures total == |Matches(table, user, f, like)|
    ensures |items| == if offset >= total then 0 else if total - offset < limit then total - offset else limit
    ensures forall k :: 0 <= k < |items| ==> items[k] == Matches(table, user, f, like)[offset + k]
  {
    var countQuery := (row: Row) => row.userId == user;
    var query := (row: Row) => row.userId == user;
    if Truthy(f.jobId) {
      var c, p := countQuery, query;
      countQuery := row => c(row) && row.jobId == f.jobId.value;
      query := row => p(row) && row.jobId == f.jobId.value;
    }
    if Truthy(f.format) {
      var c, p := countQuery, query;
      countQuery := row => c(row) && row.format == f.format.value;
      query := row => p(row) && row.format == f.format.value;
    }
    if Truthy(f.q) {
      var c, p := countQuery, query;
      countQuery := row => c(row) && Found(like, f.q.value, row);
      query := row => p(row) && Found(like, f.q.value, row);
    }
    var selected := (row: Row) => Selected(user, f, like, row);
    WhereSame(table, countQuery, selected);
    WhereSame(table, query, selected);
    assert Where(table, selected) == Matches(table, user, f, like);
    total := |Where(table, countQuery)|;
    items := Page(Where(table, query), limit, offset);
    PageIs(Matches(table, user, f, like), limit, offset);
  }

  // ---------------------------------------------------------------- export

  /** The rows an export is asked for. */
  function Wanted(table: seq<Row>, user: string, ids: seq<string>, f: Filters, like: Like): seq<Row>
  {
    if ids == [] then Matches(table, user, f, like) else WithIds(table, user, ids)
  }

  predicate AnyFilter(f: Filters) { Truthy(f.jobId) || Truthy(f.format) || Truthy(f.q) }

  /** The rows export_data selects: by ids or by filters, never both and never neither. */
  method SelectForExport(table: seq<Row>, user: string, ids: seq<string>, f: Filters, like: Like)
    returns (r: Result<seq<Row>, Error>)
    ensures var rows := Wanted(table, user, ids, f, like);
      r == if ids != [] <==> AnyFilter(f) then Failure(Unprocessable)
           else if rows == [] then Failure(NotFound) else Success(rows)
    ensures r == Failure(Unprocessable) <==>
      (ids == [] <==>
         && (f.jobId == None || f.jobId == Some("")) && (f.format == None || f.format == Some(""))
         && (f.q == None || f.q == Some("")))
    ensures r.Success? && ids != [] ==>
      forall row :: row in r.value <==> row in table && row.userId == user && row.id in ids
  {
    if (ids != []) == AnyFilter(f) {
      return Failure(Unprocessable);
    }
    var query := (row: Row) => row.userId == user;
    if ids != [] {
      var p := query;
      query := row => p(row) && row.id in ids;
      var wanted := (row: Row) => row.userId == user && row.id in ids;
      WhereSame(table, query, wanted);
      assert Where(table, wanted) == WithIds(table, user, ids);
    } else {
      if Truthy(f.jobId) {
        var p := query;
        query := row => p(row) && row.jobId == f.jobId.value;
      }
      if Truthy(f.format) {
        var p := query;
        query := row => p(row) && row.format == f.format.value;
      }
      if Truthy(f.q) {
        var p := query;
        query := row => p(row) && Found(like, f.q.value, row);
      }
      var selected := (row: Row) => Selected(user, f, like, row);
      WhereSame(table, query, selected);
      assert Where(table, selected) == Matches(table, user, f, like);
    }
    var results := Where(table, query);
    r := if results == [] then Failure(NotFound) else Success(results);
  }

  // ---------------------------------------------------------------- pages and export agree

  /** Reads page after page, as a client does, and exports with the same filters: both give the same rows. */
  method ReadAllAndExport(table: seq<Row>, user: string, f: Filters, like: Like, limit: nat)
    returns (pages: seq<Row>, total: nat, exported: Result<seq<Row>, Error>)
    requires limit >= 1
    ensures pages == Matches(table, user, f, like) && total == |pages|
    ensures AnyFilter(f) && pages != [] ==> exported == Success(pages)
    ensures AnyFilter(f) && pages == [] ==> exported == Failure(NotFound)
    ensures !AnyFilter(f) ==> exported == Failure(Unprocessable)
  {
    ghost var rows := Matches(table, user, f, like);
    pages, total := ListData(table, user, f, like, limit, 0);
    var offset := limit;
    while offset < total
      invariant total == |rows|
      invariant pages == rows[..if offset <= |rows| then offset else |rows|]
      invariant offset >= 1
    {
      var items, _ := ListData(table, user, f, like, limit, offset);
      pages := pages + items;
      offset := offset + limit;
    }
    assert pages == rows;
    exported := SelectForExport(table, user, [], f, like);
  }

  // ---------------------------------------------------------------- NDJSON

  const LF: CodePoint := 10

  /** `"\n".join(lines)`. */
  function Join(lines: seq<Text>): Text
  {
    if lines == [] then []
    else if |lines| == 1 then lines[0]
    else lines[0] + [LF] + Join(lines[1..])
  }

  /** `body.split("\n")`. */
  function Split(body: Text): (lines: seq<Text>)
    ensures lines != []
  {
    if body == [] then [[]]
    else
      var rest := Split(body[1..]);
      if body[0] == LF then [[]] + rest else [[body[0]] + rest[0]] + rest[1..]
  }

  lemma {:induction false} SplitOne(line: Text)
    requires NoControls(line)
    ensures Split(line) == [line]
  {
    if line != [] {
      SplitOne(line[1..]);
      assert line == [line[0]] + line[1..];
    }
  }

  lemma {:induction false} SplitFirst(line: Text, body: Text)
    requires NoControls(line)
    ensures Split(line + [LF] + body) == [line] + Split(body)
  {
    var t := line + [LF] + body;
    if line == [] {
      assert t == [LF] + body && t[1..] == body;
    } else {
      assert t[1..] == line[1..] + [LF] + body;
      SplitFirst(line[1..], body);
      assert [line[0]] + line[1..] == line;
    }
  }

  lemma {:induction false} SplitJoined(lines: seq<Text>)
    requires lines != [] && forall i :: 0 <= i < |lines| ==> NoControls(lines[i])
    ensures Split(Join(lines)) == lines
    decreases lines
  {
    if |lines| == 1 {
      SplitOne(lines[0]);
    } else {
      SplitJoined(lines[1..]);
      SplitFirst(lines[0], Join(lines[1..]));
    }
  }

  /** Splitting undoes joining exactly if there is a line: the body of no lines splits into one empty line. */
  lemma SplitInvertsJoin(lines: seq<Text>)
    requires forall i :: 0 <= i < |lines| ==> NoControls(lines[i])
    ensures Split(Join(lines)) == lines <==> lines != []
  {
    if lines != [] {
      SplitJoined(lines);
    }
  }

  /** Digits that do not start with a zero make a number, with or without a sign. */
  lemma {:induction false} DigitsScan(t: Text)
    requires t != [] && Leading(t[0]) == Whole && forall i :: 0 <= i < |t| ==> IsDigit(t[i])
    ensures ScanAll(t) == Whole && ScanAll([MINUS] + t) == Whole
    decreases |t|
  {
    var front := t[..|t| - 1];
    assert ([MINUS] + t)[..|t|] == [MINUS] + front;
    if front != [] {
      DigitsScan(front);
    } else {
      assert [MINUS] + front == [MINUS];
      assert [MINUS][..0] == [];
      assert ScanAll([MINUS]) == Minus;
    }
  }

  lemma ZeroIsNumber()
    ensures IsNumber([ZERO])
  {
    var t: Text := [ZERO];
    assert t[..|t| - 1] == [];
    assert ScanAll(t) == Next(Start, ZERO);
  }

  lemma NumeralIsNumber(n: nat)
    ensures IsNumber(Ascii(Numeral(n)))
    ensures n > 0 ==> IsNumber([MINUS] + Ascii(Numeral(n)))
  {
    var s := Numeral(n);
    if n == 0 {
      ZeroIsNumber();
      assert Ascii(s) == [ZERO];
    } else {
      assert IsNumeral(s[0]);
      assert forall i :: 0 <= i < |s| ==> IsNumeral(s[i]) && IsDigit(Ascii(s)[i]);
      DigitsScan(Ascii(s));
    }
  }

  lemma DecimalIsNumber(n: int)
    ensures IsNumber(Ascii(Decimal(n)))
  {
    NumeralIsNumber(if n < 0 then -n else n);
    assert n < 0 ==> Ascii("-" + Numeral(-n)) == [MINUS] + Ascii(Numeral(-n));
  }

  function NumberOf(n: int): Value { DecimalIsNumber(n); Number(Ascii(Decimal(n))) }

  function TextOf(s: string): Value { Str(Ascii(s)) }

  const COLUMNS :=
    ["id", "jobId", "targetUrl", "url", "title", "wordCount", "format", "extractedAt", "preview", "content"]

  function Columns(row: Row): (values: seq<Value>)
    ensures |values| == 10
  {
    [TextOf(row.id), TextOf(row.jobId), TextOf(row.targetUrl), TextOf(row.url), TextOf(row.title),
     NumberOf(row.wordCount), TextOf(row.format), NumberOf(row.extractedAt), TextOf(row.preview), row.content]
  }

  function Zip(names: seq<string>, values: seq<Value>): (members: seq<Member>)
    requires |names| == |values|
    ensures Named(members, names)
    ensures forall i :: 0 <= i < |values| ==> members[i].value == values[i]
  {
    seq(|names|, i requires 0 <= i < |names| => Member(Ascii(names[i]), values[i]))
  }

  /** DataItemDetailOut by its aliases. */
  function ItemValue(row: Row): Value
  {
    Obj(Zip(COLUMNS, Columns(row)))
  }

  function Lines(rows: seq<Row>): seq<Text>
  {
    seq(|rows|, i requires 0 <= i < |rows| => Dumps(ItemValue(rows[i]), false))
  }

  ghost predicate Plain(v: Value)
  {
    Finite(v) && Unsplit(v)
  }

  lemma TextIsPlain(s: string)
    ensures Plain(TextOf(s))
  {
    AsciiIsUnsplit(s);
  }

  /** All columns but the content are strings and whole numbers. */
  lemma ColumnsArePlain(row: Row)
    ensures forall i :: 0 <= i < 9 ==> Plain(Columns(row)[i])
  {
    TextIsPlain(row.id);
    TextIsPlain(row.jobId);
    TextIsPlain(row.targetUrl);
    TextIsPlain(row.url);
    TextIsPlain(row.title);
    TextIsPlain(row.format);
    TextIsPlain(row.preview);
    NumberIsPlain(row.wordCount);
    NumberIsPlain(row.extractedAt);
    NineArePlain(
      TextOf(row.id), TextOf(row.jobId), TextOf(row.targetUrl), TextOf(row.url), TextOf(row.title),
      NumberOf(row.wordCount), TextOf(row.format), NumberOf(row.extractedAt), TextOf(row.preview), row.content);
  }

  lemma NumberIsPlain(n: int)
    ensures Plain(NumberOf(n))
  {
  }

  lemma NineArePlain(a: Value, b: Value, c: Value, d: Value, e: Value, f: Value, g: Value, h: Value, i: Value,
                     last: Value)
    requires Plain(a) && Plain(b) && Plain(c) && Plain(d) && Plain(e) && Plain(f) && Plain(g) && Plain(h) && Plain(i)
    ensures var values := [a, b, c, d, e, f, g, h, i, last]; forall k :: 0 <= k < 9 ==> Plain(values[k])
  {
  }

  lemma ItemIsFaithful(row: Row)
    ensures Plain(ItemValue(row)) <==> Plain(row.content)
  {
    ColumnsArePlain(row);
    AllButLastArePlain(COLUMNS, Columns(row));
  }

  lemma AllButLastArePlain(names: seq<string>, values: seq<Value>)
    requires |names| == |values| == 10 && forall i :: 0 <= i < 9 ==> Plain(values[i])
    ensures Plain(Obj(Zip(names, values))) <==> Plain(values[9])
  {
    var members := Zip(names, values);
    MembersAre(members);
    forall i | 0 <= i < 10
      ensures !HasSplitPair(members[i].name)
    {
      AsciiIsUnsplit(names[i]);
    }
    assert forall i :: 0 <= i < 9 ==> Plain(members[i].value);
    assert members[9].value == values[9];
  }

  // ---------------------------------------------------------------- reading an export back

  function StringIn(v: Option<Value>): Option<string>
  {
    if v.Some? && v.value.Str? then StringOf(v.value.text) else None
  }

  function IntegerIn(v: Option<Value>): Option<int>
  {
    if v.None? || !v.value.Number? then None else
      var s := StringOf(v.value.lexeme);
      if s.Some? then IntegerOf(s.value) else None
  }

  /** The row that a record describes by its members' names. A record does not name its user. */
  function RowOf(user: string, v: Value): Option<Row>
  {
    var id, jobId := StringIn(Lookup(v, "id")), StringIn(Lookup(v, "jobId"));
    var targetUrl, url := StringIn(Lookup(v, "targetUrl")), StringIn(Lookup(v, "url"));
    var title, format := StringIn(Lookup(v, "title")), StringIn(Lookup(v, "format"));
    var wordCount, extractedAt := IntegerIn(Lookup(v, "wordCount")), IntegerIn(Lookup(v, "extractedAt"));
    var preview, content := StringIn(Lookup(v, "preview")), Lookup(v, "content");
    if id.Some? && jobId.Some? && targetUrl.Some? && url.Some? && title.Some? && wordCount.Some? && format.Some?
       && extractedAt.Some? && preview.Some? && content.Some?
    then Some(Row(id.value, jobId.value, user, targetUrl.value, url.value, title.value, wordCount.value,
                  format.value, extractedAt.value, preview.value, content.value))
    else None
  }

  lemma ColumnsDiffer(i: nat, j: nat)
    requires i < j < 10
    ensures COLUMNS[i] != COLUMNS[j]
  {
    var lengths := [2, 5, 9, 3, 5, 9, 6, 11, 7, 7];
    var heads := ['i', 'j', 't', 'u', 't', 'w', 'f', 'e', 'p', 'c'];
    assert forall k :: 0 <= k < 10 ==> |COLUMNS[k]| == lengths[k] && COLUMNS[k][0] == heads[k];
    assert lengths[i] != lengths[j] || heads[i] != heads[j];
  }

  lemma ColumnIs(members: seq<Member>, i: nat)
    requires Named(members, COLUMNS) && i < 10
    ensures Lookup(Obj(members), COLUMNS[i]) == Some(members[i].value)
  {
    forall j | 0 <= j < i
      ensures COLUMNS[j] != COLUMNS[i]
    {
      ColumnsDiffer(j, i);
    }
    FieldIs(members, COLUMNS, i);
  }

  /** The members of a record, by name. */
  lemma RecordMembers(row: Row)
    ensures var v := ItemValue(row);
      && Named(v.members, COLUMNS)
      && Lookup(v, "id") == Some(TextOf(row.id)) && Lookup(v, "jobId") == Some(TextOf(row.jobId))
      && Lookup(v, "targetUrl") == Some(TextOf(row.targetUrl)) && Lookup(v, "url") == Some(TextOf(row.url))
      && Lookup(v, "title") == Some(TextOf(row.title)) && Lookup(v, "wordCount") == Some(NumberOf(row.wordCount))
      && Lookup(v, "format") == Some(TextOf(row.format)) && Lookup(v, "preview") == Some(TextOf(row.preview))
      && Lookup(v, "extractedAt") == Some(NumberOf(row.extractedAt)) && Lookup(v, "content") == Some(row.content)
  {
    TenColumns(ItemValue(row).members);
  }

  lemma TenColumns(m: seq<Member>)
    requires Named(m, COLUMNS)
    ensures Lookup(Obj(m), "id") == Some(m[0].value) && Lookup(Obj(m), "jobId") == Some(m[1].value)
    ensures Lookup(Obj(m), "targetUrl") == Some(m[2].value) && Lookup(Obj(m), "url") == Some(m[3].value)
    ensures Lookup(Obj(m), "title") == Some(m[4].value) && Lookup(Obj(m), "wordCount") == Some(m[5].value)
    ensures Lookup(Obj(m), "format") == Some(m[6].value) && Lookup(Obj(m), "extractedAt") == Some(m[7].value)
    ensures Lookup(Obj(m), "preview") == Some(m[8].value) && Lookup(Obj(m), "content") == Some(m[9].value)
  {
    ColumnNamed(m, 0, "id");
    ColumnNamed(m, 1, "jobId");
    ColumnNamed(m, 2, "targetUrl");
    ColumnNamed(m, 3, "url");
    ColumnNamed(m, 4, "title");
    ColumnNamed(m, 5, "wordCount");
    ColumnNamed(m, 6, "format");
    ColumnNamed(m, 7, "extractedAt");
    ColumnNamed(m, 8, "preview");
    ColumnNamed(m, 9, "content");
  }

  lemma ColumnNamed(m: seq<Member>, i: nat, name: string)
    requires Named(m, COLUMNS) && i < 10 && COLUMNS[i] == name
    ensures |m| == 10 && Lookup(Obj(m), name) == Some(m[i].value)
  {
    ColumnIs(m, i);
  }

  lemma StringComesBack(s: string)
    ensures StringIn(Some(TextOf(s))) == Some(s)
  {
    StringOfAscii(s);
  }

  lemma IntegerComesBack(n: int)
    ensures IntegerIn(Some(NumberOf(n))) == Some(n)
  {
    StringOfAscii(Decimal(n));
  }

  /** A record determines its row. */
  lemma RowOfItem(row: Row)
    ensures RowOf(row.userId, ItemValue(row)) == Some(row)
  {
    RecordMembers(row);
    StringComesBack(row.id);
    StringComesBack(row.jobId);
    StringComesBack(row.targetUrl);
    StringComesBack(row.url);
    StringComesBack(row.title);
    IntegerComesBack(row.wordCount);
    StringComesBack(row.format);
    IntegerComesBack(row.extractedAt);
    StringComesBack(row.preview);
  }

  /** No two rows of a user have the same record. */
  lemma ItemsDiffer(a: Row, b: Row)
    requires a.userId == b.userId
    ensures ItemValue(a) == ItemValue(b) <==> a == b
  {
    RowOfItem(a);
    RowOfItem(b);
  }

  function ReadRow(user: string, line: Text): Option<Row>
  {
    var v := Parse(line);
    if v.Some? then RowOf(user, v.value) else None
  }

  /** Reading a line of an export gives the row again, exactly if its content is finite and unsplit. */
  lemma RecordComesBack(row: Row)
    ensures var line := Dumps(ItemValue(row), false);
      && (Parse(line) == Some(ItemValue(row)) <==> Finite(row.content) && Unsplit(row.content))
      && (ReadRow(row.userId, line) == Some(row) <==> Finite(row.content) && Unsplit(row.content))
  {
    ItemIsFaithful(row);
    RowOfItem(row);
    RecordMembers(row);
    LineComesBack(ItemValue(row), row);
  }

  lemma LineComesBack(v: Value, row: Row)
    requires RowOf(row.userId, v) == Some(row)
    requires v.Obj? && Named(v.members, COLUMNS)
    requires Finite(v) && Unsplit(v) <==> Finite(row.content) && Unsplit(row.content)
    ensures Parse(Dumps(v, false)) == Some(v) <==> Finite(row.content) && Unsplit(row.content)
    ensures ReadRow(row.userId, Dumps(v, false)) == Some(row) <==> Finite(row.content) && Unsplit(row.content)
  {
    ParseInvertsDumps(v, false);
    ParseDumps(v, false);
    if Finite(v) {
      FieldAfterJourney(v.members, COLUMNS, "content");
      PairedValueIs(row.content);
      ContentIsFinite(v, row.content);
    }
  }

  lemma ContentIsFinite(v: Value, content: Value)
    requires v.Obj? && Finite(v) && Lookup(v, "content") == Some(content)
    ensures Finite(content)
  {
    MembersAre(v.members);
    FoundIsMember(v.members, "content");
  }

  lemma {:induction false} FoundIsMember(members: seq<Member>, name: string)
    ensures FieldIn(members, name).Some? ==>
      exists i :: 0 <= i < |members| && members[i].value == FieldIn(members, name).value
  {
    if members != [] {
      FoundIsMember(members[1..], name);
      assert members[0].value == members[0].value;
      if FieldIn(members[1..], name).Some? {
        var i :| 0 <= i < |members[1..]| && members[1..][i].value == FieldIn(members[1..], name).value;
        assert members[i + 1].value == members[1..][i].value;
      }
    }
  }

  /**
    The NDJSON body of an export: splitting it gives one line for each wanted row, in order, and
    reading the line gives that row.
  */
  method ExportNdjson(table: seq<Row>, user: string, ids: seq<string>, f: Filters, like: Like)
    returns (r: Result<Text, Error>)
    ensures var rows := Wanted(table, user, ids, f, like);
      && (r.Success? <==> (ids == [] <==> AnyFilter(f)) && rows != [])
      && (r.Success? ==>
            && |Split(r.value)| == |rows|
            && forall i :: 0 <= i < |rows| ==>
                 (ReadRow(user, Split(r.value)[i]) == Some(rows[i]) <==>
                    Finite(rows[i].content) && Unsplit(rows[i].content)))
  {
    var selected := SelectForExport(table, user, ids, f, like);
    if selected.Failure? {
      return Failure(selected.error);
    }
    var lines := Lines(selected.value);
    forall i | 0 <= i < |lines|
      ensures NoControls(lines[i])
      ensures ReadRow(user, lines[i]) == Some(selected.value[i]) <==>
        Finite(selected.value[i].content) && Unsplit(selected.value[i].content)
    {
      assert selected.value[i] in selected.value;
      DumpsNoControls(ItemValue(selected.value[i]), false);
      RecordComesBack(selected.value[i]);
    }
    SplitInvertsJoin(lines);
    r := Success(Join(lines));
  }
}
