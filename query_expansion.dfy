/** Query expansion of src/lib/rag/supabaseRAG.ts (`expandQuery`): the
    search query is kept, and at most one variant is added in which the
    first occurrence of a known keyword is replaced by a related word. */
module QueryExpansion {
  import opened Wrappers
  import opened Strings

  /** The `expansions` record as `Object.entries` lists it: keys in
      insertion order, each with its related words. */
  type Expansions = seq<(string, seq<string>)>

  function DefaultExpansions(): Expansions {
    [ ("연봉", ["실수령", "급여", "월급", "세금", "소득"]),
      ("엑셀", ["Excel", "spreadsheet", "스프레드시트", "표", "데이터"]),
      ("자동화", ["automation", "자동", "RPA", "효율화"]),
      ("블로그", ["blog", "포스팅", "글쓰기", "콘텐츠"]),
      ("이메일", ["메일", "email", "Outlook", "메시지"]),
      ("마케팅", ["광고", "홍보", "SNS", "캠페인"]),
      ("이직", ["전직", "이동", "커리어"]),
      ("크레딧", ["포인트", "결제", "충전"]),
      ("베타", ["테스터", "무료체험", "베타테스트"]),
      ("이미지", ["사진", "그림", "포토"]),
      ("뉴스", ["기사", "언론", "뉴스레터"]) ]
  }

  /** Entry `e` can supply a variant: its key occurs in the query and it
      has at least one related word. */
  predicate Supplies(query: string, e: (string, seq<string>)) {
    Contains(query, e.0) && e.1 != []
  }

  /** Index of the first entry that supplies a variant. */
  function FirstSupplier(query: string, table: Expansions): (r: Option<nat>)
    ensures r.Some? ==> r.value < |table| && Supplies(query, table[r.value])
    ensures r.Some? ==> forall j :: 0 <= j < r.value ==> !Supplies(query, table[j])
    ensures r.None? <==> forall j :: 0 <= j < |table| ==> !Supplies(query, table[j])
  {
    if table == [] then None
    else
      match FirstSupplier(query, table[..|table| - 1])
      case Some(i) => Some(i)
      case None =>
        if Supplies(query, table[|table| - 1]) then Some(|table| - 1) else None
  }

  /** What `expandQuery` returns: the query, followed by the query with the
      first supplying key replaced by that key's first related word. */
  function Expanded(query: string, table: Expansions): seq<string> {
    match FirstSupplier(query, table)
    case None => [query]
    case Some(i) => [query, ReplaceFirst(query, table[i].0, table[i].1[0])]
  }

  /** Lines 60-74: the `added` flag lets only the first related word of the
      first matching key through; the final `slice(0, 2)` keeps at most
      two queries. */
  method ExpandQuery(query: string, table: Expansions) returns (queries: seq<string>)
    ensures queries == Expanded(query, table)
  {
    queries := [query];
    var added := false;
    for e := 0 to |table|
      invariant queries == Expanded(query, table[..e])
      invariant added <==> FirstSupplier(query, table[..e]).Some?
    {
      assert table[..e + 1][..e] == table[..e];
      var (key, values) := table[e];
      if Contains(query, key) {
        ghost var before := queries;
        ghost var wasAdded := added;
        for v := 0 to |values|
          invariant added == (wasAdded || v > 0)
          invariant queries == if wasAdded || v == 0 then before
                               else before + [ReplaceFirst(query, key, values[0])]
        {
          if !added {
            queries := queries + [ReplaceFirst(query, key, values[v])];
            added := true;
          }
        }
      }
    }
    assert table[..|table|] == table;
    queries := queries[..if |queries| < 2 then |queries| else 2];
  }

  /** The result starts with the query and holds at most two queries. */
  lemma ExpandedShape(query: string, table: Expansions)
    ensures var r := Expanded(query, table); 1 <= |r| <= 2 && r[0] == query
  {
  }

  lemma DefaultValuesNonEmpty()
    ensures forall j :: 0 <= j < |DefaultExpansions()| ==> DefaultExpansions()[j].1 != []
  {
  }

  /** When every key has a related word, as in the built-in record, a
      second query exists exactly when the query contains one of the keys;
      it comes from the first such key, in record order, and its first
      related word. */
  lemma SecondQueryIff(query: string, table: Expansions)
    requires forall j :: 0 <= j < |table| ==> table[j].1 != []
    ensures var r := Expanded(query, table);
            |r| == 2 <==> exists j :: 0 <= j < |table| && Contains(query, table[j].0)
    ensures var r := Expanded(query, table);
            |r| == 2 ==>
              exists j :: 0 <= j < |table| && Contains(query, table[j].0) &&
                (forall k :: 0 <= k < j ==> !Contains(query, table[k].0)) &&
                r[1] == ReplaceFirst(query, table[j].0, table[j].1[0])
  {
    match FirstSupplier(query, table)
    case None =>
      forall j | 0 <= j < |table| ensures !Contains(query, table[j].0) {
        assert !Supplies(query, table[j]);
      }
    case Some(i) =>
      assert Contains(query, table[i].0);
      forall k | 0 <= k < i ensures !Contains(query, table[k].0) {
        assert !Supplies(query, table[k]);
      }
  }

  /** The variant is the query with the key's first occurrence swapped for
      the related word; a query without any key comes back alone. */
  lemma VariantReplacesFirstOccurrence(query: string, table: Expansions)
    ensures var r := Expanded(query, table);
            |r| == 2 ==>
              exists i, k :: 0 <= i < |table| && table[i].1 != [] && IndexOf(query, table[i].0) == Some(k) &&
                r[1] == query[..k] + table[i].1[0] + query[k + |table[i].0|..]
    ensures (forall j :: 0 <= j < |table| ==> !Contains(query, table[j].0)) ==> Expanded(query, table) == [query]
  {
    var r := Expanded(query, table);
    if |r| == 2 {
      var i := FirstSupplier(query, table).value;
      var k := IndexOf(query, table[i].0).value;
      assert r[1] == query[..k] + table[i].1[0] + query[k + |table[i].0|..];
    }
  }
}
