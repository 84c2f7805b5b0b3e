/** Loading all feature vectors of a type into memory, in pages or all at once, and grouping
    them by collection. */
module Loading {
  import opened Arithmetic
  import opened Wrappers
  import opened Ordering

  /** The key of a feature vector; whole tracks have segment -1. */
  datatype Key = Key(track: int, segment: int)

  function KeyLeq(x: Key, y: Key): bool {
    x.track < y.track || (x.track == y.track && x.segment <= y.segment)
  }

  lemma RearrangedKeys(keys: seq<Key>, rows: seq<Key>)
    requires Distinct(keys) && multiset(rows) == multiset(keys)
    ensures |rows| == |keys| && Distinct(rows)
  {
    assert |multiset(rows)| == |multiset(keys)|;
    forall i, j | 0 <= i < j < |rows| ensures rows[i] != rows[j] {
      if rows[i] == rows[j] {
        TwiceInMultiset(rows, i, j);
        OnceInMultiset(keys, rows[i]);
      }
    }
  }

  /** Ordering the rows loses and doubles none, and gives the same list whatever order they came in. */
  lemma SortedKeys(keys: seq<Key>, rows: seq<Key>)
    requires Distinct(keys) && multiset(rows) == multiset(keys)
    ensures var s := Sort(KeyLeq, rows);
      s == Sort(KeyLeq, keys) && |s| == |keys| && Distinct(s) && multiset(s) == multiset(keys)
  {
    SortSorts(KeyLeq, rows);
    SortPermutation(KeyLeq, rows, keys);
    RearrangedKeys(keys, Sort(KeyLeq, rows));
  }

  /** OFFSET and LIMIT; a limit that is not positive leaves the clause out. */
  function Page(keys: seq<Key>, limit: int, offset: nat): seq<Key> {
    var rest := if offset <= |keys| then keys[offset..] else [];
    if 0 < limit < |rest| then rest[..limit] else rest
  }

  function SetOf(keys: seq<Key>): set<Key> {
    set k | k in keys
  }

  lemma {:induction false} SetSize(keys: seq<Key>)
    requires Distinct(keys)
    ensures |SetOf(keys)| == |keys|
  {
    if keys != [] {
      var init, last := keys[..|keys| - 1], keys[|keys| - 1];
      SetSize(init);
      assert last !in init;
      assert SetOf(keys) == SetOf(init) + {last};
    }
  }

  /** The vectors of the given keys that can be decrypted and deserialized. */
  function Decoded<V>(data: map<Key, string>, keys: set<Key>, decode: string -> Option<V>): map<Key, V> {
    map k | k in keys && k in data && decode(data[k]).Some? :: decode(data[k]).value
  }

  predicate AllDecode<V>(data: map<Key, string>, keys: set<Key>, decode: string -> Option<V>) {
    forall k :: k in keys && k in data ==> decode(data[k]).Some?
  }

  class FeatureTable {
    const keys: seq<Key>
    const data: map<Key, string>

    constructor (keys: seq<Key>, data: map<Key, string>)
      requires Distinct(keys) && SetOf(keys) == data.Keys
      ensures Valid() && this.keys == keys && this.data == data
    {
      this.keys, this.data := keys, data;
    }

    ghost predicate Valid() {
      Distinct(keys) && SetOf(keys) == data.Keys
    }

    /** The rows of a query; without ORDER BY they come in any order, another one each time. */
    method Select(ordered: bool) returns (rows: seq<Key>)
      requires Valid()
      ensures multiset(rows) == multiset(keys) && (ordered ==> rows == Sort(KeyLeq, keys))
    {
      rows := [];
      var i := 0;
      while i < |keys|
        invariant 0 <= i <= |keys| && multiset(rows) == multiset(keys[..i])
      {
        var at: int := *;
        if at < 0 || |rows| < at {
          at := |rows|;
        }
        assert rows == rows[..at] + rows[at..] && keys[..i + 1] == keys[..i] + [keys[i]];
        rows := rows[..at] + [keys[i]] + rows[at..];
        i := i + 1;
      }
      assert keys[..i] == keys;
      if ordered {
        SortedKeys(keys, rows);
        rows := Sort(KeyLeq, rows);
      }
    }

    /** One page of raw records; tells whether a row came back.  The rows are ordered only when a clause
        needs it. */
    method ReadRecords(limit: int, offset: nat) returns (ret: bool, raw: map<Key, string>, ghost rows: seq<Key>)
      requires Valid()
      ensures multiset(rows) == multiset(keys) && (limit > 0 || offset > 0 ==> rows == Sort(KeyLeq, keys))
      ensures var page := Page(rows, limit, offset);
        && (ret <==> page != [])
        && raw.Keys == SetOf(page) && |raw| == |page|
      ensures forall k :: k in raw ==> k in data && raw[k] == data[k]
    {
      hide Page, KeyLeq, SetOf;
      var selected := Select(limit > 0 || offset > 0);
      rows := selected;
      RearrangedKeys(keys, rows);
      var page := Page(selected, limit, offset);
      InData(rows);
      PageIsPart(rows, limit, offset);
      ret := page != [];
      raw := Collect(page);
    }

    /** Stores the rows of a page under their keys. */
    method Collect(page: seq<Key>) returns (raw: map<Key, string>)
      requires Distinct(page) && forall k :: k in page ==> k in data
      ensures raw.Keys == SetOf(page) && |raw| == |page|
      ensures forall k :: k in raw ==> k in data && raw[k] == data[k]
    {
      raw := map[];
      var i := 0;
      while i < |page|
        invariant 0 <= i <= |page|
        invariant raw.Keys == SetOf(page[..i])
        invariant forall k :: k in raw ==> k in data && raw[k] == data[k]
      {
        assert page[..i + 1] == page[..i] + [page[i]];
        assert page[i] in page;
        raw := raw[page[i] := data[page[i]]];
        i := i + 1;
      }
      assert page[..i] == page;
      SetSize(page);
      assert |raw| == |raw.Keys|;
    }

    lemma InData(rows: seq<Key>)
      requires Valid() && multiset(rows) == multiset(keys)
      ensures forall k :: k in rows ==> k in data
    {
      forall k | k in rows ensures k in data {
        assert k in multiset(rows);
        assert k in keys;
        assert k in SetOf(keys);
      }
    }

    lemma PageIsPart(rows: seq<Key>, limit: int, offset: nat)
      requires Distinct(rows)
      ensures Distinct(Page(rows, limit, offset))
      ensures forall k :: k in Page(rows, limit, offset) ==> k in rows
    {
    }
  }

  /** One more key is decoded. */
  lemma DecodedOne<V>(raw: map<Key, string>, keys: set<Key>, k: Key, decode: string -> Option<V>)
    requires k in raw
    ensures var value := decode(raw[k]);
      && Decoded(raw, keys + {k}, decode)
         == (if value.Some? then Decoded(raw, keys, decode)[k := value.value] else Decoded(raw, keys - {k}, decode))
      && (AllDecode(raw, keys + {k}, decode) <==> AllDecode(raw, keys, decode) && value.Some?)
  {
  }

  /** Decodes one page into the buffer, in whatever order its entries are visited. */
  method DecodePage<V(==)>(raw: map<Key, string>, decode: string -> Option<V>, buffer: map<Key, V>, onErrorSilent: bool)
    returns (buffer': map<Key, V>, ok: bool)
    ensures buffer' == buffer + Decoded(raw, raw.Keys, decode)
    ensures ok <==> !onErrorSilent || AllDecode(raw, raw.Keys, decode)
  {
    buffer', ok := buffer, true;
    var todo := raw.Keys;
    assert AllDecode(raw, {}, decode) && Decoded(raw, {}, decode) == map[];
    hide Decoded, AllDecode;
    ghost var seen := {};
    while exists k :: k in todo
      invariant todo == raw.Keys - seen && seen <= raw.Keys
      invariant buffer' == buffer + Decoded(raw, seen, decode)
      invariant ok <==> !onErrorSilent || AllDecode(raw, seen, decode)
      decreases todo
    {
      var k :| k in todo;
      var value := decode(raw[k]);
      DecodedOne(raw, seen, k, decode);
      if value.Some? {
        buffer' := buffer'[k := value.value];
      } else if onErrorSilent {
        ok := false;
      }
      assert seen - {k} == seen;
      todo := todo - {k};
      seen := seen + {k};
    }
    assert todo == {} && seen == raw.Keys;
  }

  /** A page continues the rows before it, and a short page is the last. */
  lemma PagesJoin(rows: seq<Key>, limit: int, offset: nat)
    requires offset <= |rows|
    ensures var page := Page(rows, limit, offset);
      && offset + |page| <= |rows|
      && rows[..offset + |page|] == rows[..offset] + page
      && (limit > 0 ==> |page| <= limit)
      && (limit <= 0 || |page| < limit ==> offset + |page| == |rows|)
  {
  }

  /** The buffer holds what it held at first and the vectors of the given keys. */
  ghost predicate Holds<V>(buffer: map<Key, V>, base: map<Key, V>, data: map<Key, string>, keys: seq<Key>,
                           decode: string -> Option<V>) {
    buffer == base + Decoded(data, SetOf(keys), decode)
  }

  /** Decoding a prefix and then the page after it is decoding the longer prefix. */
  lemma DecodedJoin<V>(data: map<Key, string>, prefix: seq<Key>, page: seq<Key>, decode: string -> Option<V>,
                       base: map<Key, V>, buffer: map<Key, V>, after: map<Key, V>)
    requires Holds(buffer, base, data, prefix, decode) && Holds(after, buffer, data, page, decode)
    ensures Holds(after, base, data, prefix + page, decode)
    ensures AllDecode(data, SetOf(prefix + page), decode) <==>
      AllDecode(data, SetOf(prefix), decode) && AllDecode(data, SetOf(page), decode)
  {
    assert SetOf(prefix + page) == SetOf(prefix) + SetOf(page);
    assert Decoded(data, SetOf(prefix + page), decode)
        == Decoded(data, SetOf(prefix), decode) + Decoded(data, SetOf(page), decode);
  }

  /** The number of queries that fetching n rows takes. */
  function Queries(n: nat, limit: int): nat {
    if limit <= 0 then 1 else n / limit + 1
  }

  lemma QueriesStep(n: nat, limit: int)
    ensures limit <= 0 || n < limit ==> Queries(n, limit) == 1
    ensures 0 < limit <= n ==> Queries(n, limit) == 1 + Queries(n - limit, limit)
  {
    if 0 < limit <= n {
      var p := (n - limit) / limit;
      assert limit * p <= n - limit < limit * p + limit;
      assert limit * (p + 1) == limit * p + limit;
      Quotient(n, limit, p + 1);
    } else if limit > 0 {
      Quotient(n, limit, 0);
    }
  }

  /** How far loading has come: the vectors of the first rows are held, and the queries made
      and those to come add up. */
  ghost predicate Progress<V>(data: map<Key, string>, rows: seq<Key>, limit: int, decode: string -> Option<V>,
                              onErrorSilent: bool, base: map<Key, V>, seen: nat, ret: bool, buffer: map<Key, V>,
                              ok: bool, queries: nat)
  {
    && seen <= |rows|
    && Holds(buffer, base, data, rows[..seen], decode)
    && (ok <==> !onErrorSilent || AllDecode(data, SetOf(rows[..seen]), decode))
    && (ret ==> queries + Queries(|rows| - seen, limit) == Queries(|rows|, limit))
    && (!ret ==> seen == |rows| && queries == Queries(|rows|, limit))
  }

  lemma Started<V>(data: map<Key, string>, rows: seq<Key>, limit: int, decode: string -> Option<V>,
                   onErrorSilent: bool, base: map<Key, V>)
    ensures Progress(data, rows, limit, decode, onErrorSilent, base, 0, true, base, true, 0)
  {
    assert SetOf(rows[..0]) == {};
  }

  lemma Advanced<V>(data: map<Key, string>, rows: seq<Key>, limit: int, decode: string -> Option<V>,
                    onErrorSilent: bool, base: map<Key, V>, seen: nat, buffer: map<Key, V>, ok: bool, queries: nat,
                    n: nat, after: map<Key, V>, fine: bool)
    requires Progress(data, rows, limit, decode, onErrorSilent, base, seen, true, buffer, ok, queries)
    requires n == |Page(rows, limit, seen)| && Holds(after, buffer, data, Page(rows, limit, seen), decode)
    requires fine <==> !onErrorSilent || AllDecode(data, SetOf(Page(rows, limit, seen)), decode)
    ensures var ret := !(n == 0 || limit <= 0 || n < limit);
      && Progress(data, rows, limit, decode, onErrorSilent, base, seen + n, ret, after, ok && fine, queries + 1)
      && (ret ==> n == limit)
  {
    hide Page, Holds, AllDecode, SetOf, Queries;
    PagesJoin(rows, limit, seen);
    DecodedJoin(data, rows[..seen], Page(rows, limit, seen), decode, base, buffer, after);
    QueriesStep(|rows| - seen, limit);
  }

  lemma Finished<V>(table: FeatureTable, rows: seq<Key>, limit: int, decode: string -> Option<V>, onErrorSilent: bool,
                    base: map<Key, V>, seen: nat, buffer: map<Key, V>, ok: bool, queries: nat)
    requires SetOf(rows) == table.data.Keys && |rows| == |table.keys|
    requires Progress(table.data, rows, limit, decode, onErrorSilent, base, seen, false, buffer, ok, queries)
    ensures buffer == base + Decoded(table.data, table.data.Keys, decode)
    ensures ok <==> !onErrorSilent || AllDecode(table.data, table.data.Keys, decode)
    ensures queries == Queries(|table.keys|, limit)
  {
    assert rows[..seen] == rows;
  }

  /** Fetches one page and decodes it; gives the number of rows that came back. */
  method FetchPage<V(==)>(table: FeatureTable, decode: string -> Option<V>, buffer: map<Key, V>, limit: int,
                          offset: nat, onErrorSilent: bool)
    returns (n: nat, buffer': map<Key, V>, ok: bool, ghost rows: seq<Key>)
    requires table.Valid()
    ensures multiset(rows) == multiset(table.keys) && (limit > 0 || offset > 0 ==> rows == Sort(KeyLeq, table.keys))
    ensures var page := Page(rows, limit, offset);
      && n == |page|
      && Holds(buffer', buffer, table.data, page, decode)
      && (ok <==> !onErrorSilent || AllDecode(table.data, SetOf(page), decode))
  {
    hide Page, Sort, FeatureTable.Valid;
    var ret, raw;
    ret, raw, rows := table.ReadRecords(limit, offset);
    n, buffer', ok := |raw|, buffer, true;
    if ret {
      buffer', ok := DecodePage(raw, decode, buffer, onErrorSilent);
      assert Decoded(raw, raw.Keys, decode) == Decoded(table.data, raw.Keys, decode);
    }
  }

  /** Loads every vector, whatever the page size: a size that is not positive fetches all rows
      at once, and one that divides the number of rows needs one more, empty, page. */
  method ReadAllFeatureVectors<V(==)>(table: FeatureTable, decode: string -> Option<V>, buffer: map<Key, V>,
                                      limit: int, onErrorSilent: bool)
    returns (buffer': map<Key, V>, ok: bool, queries: nat)
    requires table.Valid()
    ensures buffer' == buffer + Decoded(table.data, table.data.Keys, decode)
    ensures ok <==> !onErrorSilent || AllDecode(table.data, table.data.Keys, decode)
    ensures queries == Queries(|table.keys|, limit)
  {
    hide Progress, Page, Holds, AllDecode, Decoded, SetOf, KeyLeq, Queries;
    buffer', ok, queries := buffer, true, 0;
    ghost var rows := Sort(KeyLeq, table.keys);
    SortedKeys(table.keys, table.keys);
    RowsAreKeys(table, rows);
    Started(table.data, rows, limit, decode, onErrorSilent, buffer);
    var offset: nat := 0;
    var ret := true;
    ghost var seen: nat := 0;
    while ret
      invariant Progress(table.data, rows, limit, decode, onErrorSilent, buffer, seen, ret, buffer', ok, queries)
      invariant (ret ==> seen == offset) && seen <= |rows| && (limit <= 0 ==> offset == 0)
      invariant multiset(rows) == multiset(table.keys) && (limit > 0 ==> rows == Sort(KeyLeq, table.keys))
      decreases ret, |rows| - seen
    {
      ghost var before, known := buffer', rows;
      var n, fine;
      n, buffer', fine, rows := FetchPage(table, decode, buffer', limit, offset, onErrorSilent);
      SameProgress(table, known, rows, limit, decode, onErrorSilent, buffer, seen, before, ok, queries);
      Advanced(table.data, rows, limit, decode, onErrorSilent, buffer, seen, before, ok, queries, n, buffer', fine);
      PagesJoin(rows, limit, offset);
      ok := ok && fine;
      queries := queries + 1;
      seen := seen + n;
      if n == 0 || limit <= 0 || n < limit {
        ret := false;
      }
      offset := if limit > 0 then offset + limit else offset;
    }
    RowsAreKeys(table, rows);
    Finished(table, rows, limit, decode, onErrorSilent, buffer, seen, buffer', ok, queries);
  }

  /** The order of the rows does not matter before the first page. */
  lemma SameProgress<V>(table: FeatureTable, rows: seq<Key>, rows': seq<Key>, limit: int, decode: string -> Option<V>,
                        onErrorSilent: bool, base: map<Key, V>, seen: nat, buffer: map<Key, V>, ok: bool, queries: nat)
    requires Progress(table.data, rows, limit, decode, onErrorSilent, base, seen, true, buffer, ok, queries)
    requires multiset(rows) == multiset(rows') && (rows == rows' || seen == 0)
    ensures Progress(table.data, rows', limit, decode, onErrorSilent, base, seen, true, buffer, ok, queries)
  {
    assert |rows| == |multiset(rows)| == |multiset(rows')| == |rows'|;
    assert seen == 0 ==> rows[..seen] == rows'[..seen];
  }

  lemma RowsAreKeys(table: FeatureTable, rows: seq<Key>)
    requires table.Valid() && multiset(rows) == multiset(table.keys)
    ensures |rows| == |table.keys| && SetOf(rows) == table.data.Keys
  {
    RearrangedKeys(table.keys, rows);
    assert forall k :: k in rows <==> k in multiset(rows);
    assert forall k :: k in table.keys <==> k in multiset(table.keys);
  }

  datatype Reference<V> = Reference(key: Key, fv: V)

  /** The vectors of one collection: one entry for each of its keys that has a vector. */
  ghost predicate ReferencesOk<V(!new)>(list: seq<Reference<V>>, keys: set<Key>, buffer: map<Key, V>) {
    && Distinct(list)
    && (forall r :: r in list <==> r.key in keys && r.key in buffer && r.fv == buffer[r.key])
  }

  method CollectionReferences<V(==,!new)>(collections: seq<set<Key>>, buffer: map<Key, V>)
    returns (references: map<nat, seq<Reference<V>>>)
    ensures forall c: nat :: c in references <==> c < |collections| && collections[c] != {}
    ensures forall c :: c in references ==> ReferencesOk(references[c], collections[c], buffer)
  {
    references := map[];
    var c := 0;
    while c < |collections|
      invariant 0 <= c <= |collections|
      invariant forall d: nat :: d in references <==> d < c && collections[d] != {}
      invariant forall d :: d in references ==> ReferencesOk(references[d], collections[d], buffer)
    {
      if collections[c] != {} {
        var list := ReferencesOf(collections[c], buffer);
        references := references[c := list];
      }
      c := c + 1;
    }
  }

  method ReferencesOf<V(==,!new)>(keys: set<Key>, buffer: map<Key, V>) returns (list: seq<Reference<V>>)
    ensures ReferencesOk(list, keys, buffer)
  {
    list := [];
    var todo := keys;
    while exists k :: k in todo
      invariant todo <= keys
      invariant ReferencesOk(list, keys - todo, buffer)
      decreases todo
    {
      var k :| k in todo;
      if k in buffer {
        assert Reference(k, buffer[k]) !in list;
        list := list + [Reference(k, buffer[k])];
      }
      todo := todo - {k};
    }
    assert keys - todo == keys;
  }
}
