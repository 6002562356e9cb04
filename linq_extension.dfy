/** The collection and string helpers of `LinqExtension`: a key/value
    parser, dictionary builders, a left fold, a generator, guards that throw,
    and small filters. Loops of the original are methods with invariants,
    each proved against a specification function; single-expression helpers
    are functions. */
module LinqExtension {
  import opened Common
  import opened Seqs

  // ---------------------------------------------------------------------
  // String.Split(char) and its inverse

  /** `s.Split(c)`: the pieces between occurrences of `c`; there is always one
      more piece than there are separators, and pieces may be empty. */
  function Split(s: string, c: char): (r: seq<string>)
    ensures |r| >= 1
  {
    if s == [] then [[]]
    else
      var p := Split(s[..|s| - 1], c);
      var ch := s[|s| - 1];
      if ch == c then p + [[]] else p[..|p| - 1] + [p[|p| - 1] + [ch]]
  }

  /** `string.Join(c, parts)`. */
  function Join(parts: seq<string>, c: char): string
    requires |parts| >= 1
  {
    if |parts| == 1 then parts[0] else Join(parts[..|parts| - 1], c) + [c] + parts[|parts| - 1]
  }

  /** Splitting loses nothing: joining the pieces back gives the input. */
  lemma {:induction false} JoinSplit(s: string, c: char)
    ensures Join(Split(s, c), c) == s
  {
    if s != [] {
      var s' := s[..|s| - 1];
      JoinSplit(s', c);
      var p := Split(s', c);
      var ch := s[|s| - 1];
      assert s == s' + [ch];
      if ch == c {
        assert Split(s, c) == p + [[]];
        assert (p + [[]])[..|p|] == p;
        assert Join(p + [[]], c) == Join(p, c) + [c] + [];
      } else {
        var q := p[..|p| - 1] + [p[|p| - 1] + [ch]];
        assert Split(s, c) == q;
        if |p| > 1 {
          assert q[..|q| - 1] == p[..|p| - 1];
          assert Join(q, c) == Join(p[..|p| - 1], c) + [c] + (p[|p| - 1] + [ch]);
        } else {
          assert Join(q, c) == p[0] + [ch];
        }
      }
    }
  }

  /** No piece contains the separator. */
  lemma {:induction false} SplitPiecesFree(s: string, c: char)
    ensures forall piece :: piece in Split(s, c) ==> c !in piece
  {
    if s != [] {
      SplitPiecesFree(s[..|s| - 1], c);
      var p := Split(s[..|s| - 1], c);
      assert p[|p| - 1] in p;
      assert forall piece :: piece in p[..|p| - 1] ==> piece in p;
    }
  }

  lemma {:induction false} SplitFree(t: string, c: char)
    requires c !in t
    ensures Split(t, c) == [t]
  {
    if t != [] {
      assert forall ch :: ch in t[..|t| - 1] ==> ch in t;
      SplitFree(t[..|t| - 1], c);
      assert t[..|t| - 1] + [t[|t| - 1]] == t;
    }
  }

  /** Splitting one more character: a separator opens a new piece, anything else extends the last. */
  lemma SplitSnoc(t: string, ch: char, c: char)
    ensures ch == c ==> Split(t + [ch], c) == Split(t, c) + [[]]
    ensures ch != c ==> var p := Split(t, c); Split(t + [ch], c) == p[..|p| - 1] + [p[|p| - 1] + [ch]]
  {
    assert (t + [ch])[..|t|] == t;
  }

  /** A separator splits the input into the pieces of what precedes it and the pieces of what follows it. */
  lemma {:induction false} SplitAtSeparator(a: string, b: string, c: char)
    ensures Split(a + [c] + b, c) == Split(a, c) + Split(b, c)
    decreases |b|
  {
    if b == [] {
      assert a + [c] + b == a + [c];
      SplitSnoc(a, c, c);
    } else {
      var b' := b[..|b| - 1];
      var ch := b[|b| - 1];
      assert a + [c] + b == (a + [c] + b') + [ch];
      assert b == b' + [ch];
      SplitAtSeparator(a, b', c);
      SplitAtSeparatorStep(a, b', ch, c);
    }
  }

  /** The inductive step of `SplitAtSeparator`: one more character after the separator. */
  lemma SplitAtSeparatorStep(a: string, b: string, ch: char, c: char)
    requires Split(a + [c] + b, c) == Split(a, c) + Split(b, c)
    ensures Split((a + [c] + b) + [ch], c) == Split(a, c) + Split(b + [ch], c)
  {
    var t := a + [c] + b;
    SplitSnoc(t, ch, c);
    SplitSnoc(b, ch, c);
    if ch == c {
      SeparatorStep(Split(a, c), Split(b, c));
    } else {
      ExtendStep(Split(a, c), Split(b, c), ch);
    }
  }

  lemma SeparatorStep(pa: seq<string>, pb: seq<string>)
    ensures (pa + pb) + [[]] == pa + (pb + [[]])
  {
  }

  lemma ExtendStep(pa: seq<string>, pb: seq<string>, ch: char)
    requires |pb| >= 1
    ensures var p := pa + pb;
      p[..|p| - 1] + [p[|p| - 1] + [ch]] == pa + (pb[..|pb| - 1] + [pb[|pb| - 1] + [ch]])
  {
    var p := pa + pb;
    assert p[..|p| - 1] == pa + pb[..|pb| - 1];
  }

  /** Splitting a join of separator-free pieces gives the pieces back. */
  lemma {:induction false} SplitJoin(parts: seq<string>, c: char)
    requires |parts| >= 1
    requires forall k :: 0 <= k < |parts| ==> c !in parts[k]
    ensures Split(Join(parts, c), c) == parts
  {
    if |parts| == 1 {
      SplitFree(parts[0], c);
    } else {
      var ps := parts[..|parts| - 1];
      var last := parts[|parts| - 1];
      assert forall k :: 0 <= k < |ps| ==> ps[k] == parts[k];
      SplitJoin(ps, c);
      SplitAtSeparator(Join(ps, c), last, c);
      SplitFree(last, c);
      assert Join(parts, c) == Join(ps, c) + [c] + last;
      assert ps + [last] == parts;
    }
  }

  // ---------------------------------------------------------------------
  // ParseKeyPairs

  const BadPairs: string := "Bad error to parse of pairs separator token"

  /** What the loop of `ParseKeyPairs` computes over the segments seen so far:
      each segment must split on `pairs` into exactly two chunks, and a key
      may not repeat (`Dictionary.Add`). */
  function ParsePairs(segs: seq<string>, pairs: char): (r: Result<map<string, string>>)
  {
    if segs == [] then Ok(map[])
    else
      match ParsePairs(segs[..|segs| - 1], pairs)
      case Err(e) => Err(e)
      case Ok(m) =>
        var chunks := Split(segs[|segs| - 1], pairs);
        if |chunks| != 2 then Err(Exception(BadPairs))
        else if chunks[0] in m then Err(ArgumentException(DuplicateKey))
        else Ok(m[chunks[0] := chunks[1]])
  }

  /** The first exception ends the parse: later segments are never looked at. */
  lemma {:induction false} ParsePairsErrorSticks(a: seq<string>, b: seq<string>, pairs: char)
    requires ParsePairs(a, pairs).Err?
    ensures ParsePairs(a + b, pairs) == ParsePairs(a, pairs)
    decreases |b|
  {
    if b == [] {
      assert a + b == a;
    } else {
      assert (a + b)[..|a + b| - 1] == a + b[..|b| - 1];
      ParsePairsErrorSticks(a, b[..|b| - 1], pairs);
    }
  }

  /** A segment is well formed when it has exactly one `pairs` separator. */
  predicate WellFormed(segment: string, pairs: char)
  {
    |Split(segment, pairs)| == 2
  }

  function KeyOf(segment: string, pairs: char): string
    requires WellFormed(segment, pairs)
  {
    Split(segment, pairs)[0]
  }

  function ValueOf(segment: string, pairs: char): string
    requires WellFormed(segment, pairs)
  {
    Split(segment, pairs)[1]
  }

  predicate AllWellFormed(segs: seq<string>, pairs: char)
  {
    forall k :: 0 <= k < |segs| ==> WellFormed(segs[k], pairs)
  }

  predicate DistinctKeys(segs: seq<string>, pairs: char)
    requires AllWellFormed(segs, pairs)
  {
    forall k, l :: 0 <= k < l < |segs| ==> KeyOf(segs[k], pairs) != KeyOf(segs[l], pairs)
  }

  /** The parse fails exactly when a segment is malformed or a key repeats; on
      success every segment's key maps to its value, and the map has one entry
      per segment, so it holds nothing else. */
  lemma ParsePairsOutcome(segs: seq<string>, pairs: char)
    ensures ParsePairs(segs, pairs).Ok? <==> AllWellFormed(segs, pairs) && DistinctKeys(segs, pairs)
    ensures ParsePairs(segs, pairs).Ok? ==>
      var m := ParsePairs(segs, pairs).value;
      && |m| == |segs|
      && forall k :: 0 <= k < |segs| ==> KeyOf(segs[k], pairs) in m && m[KeyOf(segs[k], pairs)] == ValueOf(segs[k], pairs)
  {
    if ParsePairs(segs, pairs).Ok? {
      ParseOkIsValid(segs, pairs);
    } else if AllWellFormed(segs, pairs) && DistinctKeys(segs, pairs) {
      ValidParsesOk(segs, pairs);
    }
  }

  lemma {:induction false} ParseOkIsValid(segs: seq<string>, pairs: char)
    requires ParsePairs(segs, pairs).Ok?
    ensures AllWellFormed(segs, pairs) && DistinctKeys(segs, pairs)
    ensures var m := ParsePairs(segs, pairs).value;
      && |m| == |segs|
      && forall k :: 0 <= k < |segs| ==> KeyOf(segs[k], pairs) in m && m[KeyOf(segs[k], pairs)] == ValueOf(segs[k], pairs)
  {
    if segs != [] {
      var segs' := segs[..|segs| - 1];
      var last := segs[|segs| - 1];
      ParseOkIsValid(segs', pairs);
      assert forall k :: 0 <= k < |segs'| ==> segs'[k] == segs[k];
      var m' := ParsePairs(segs', pairs).value;
      var key := KeyOf(last, pairs);
      assert key !in m';
      assert ParsePairs(segs, pairs).value == m'[key := ValueOf(last, pairs)];
      forall k | 0 <= k < |segs'| ensures KeyOf(segs[k], pairs) != key {
        assert KeyOf(segs'[k], pairs) in m';
      }
    }
  }

  lemma {:induction false} ValidParsesOk(segs: seq<string>, pairs: char)
    requires AllWellFormed(segs, pairs) && DistinctKeys(segs, pairs)
    ensures ParsePairs(segs, pairs).Ok?
  {
    if segs != [] {
      var segs' := segs[..|segs| - 1];
      var last := segs[|segs| - 1];
      assert forall k :: 0 <= k < |segs'| ==> segs'[k] == segs[k];
      assert AllWellFormed(segs', pairs);
      ValidParsesOk(segs', pairs);
      forall k | 0 <= k < |segs'| ensures KeyOf(segs'[k], pairs) != KeyOf(last, pairs) {
        assert KeyOf(segs[k], pairs) != KeyOf(segs[|segs| - 1], pairs);
      }
      KeyNotInParse(segs', pairs, KeyOf(last, pairs));
    }
  }

  lemma {:induction false} KeyNotInParse(segs: seq<string>, pairs: char, key: string)
    requires ParsePairs(segs, pairs).Ok?
    requires forall k :: 0 <= k < |segs| && WellFormed(segs[k], pairs) ==> KeyOf(segs[k], pairs) != key
    ensures key !in ParsePairs(segs, pairs).value
  {
    if segs != [] {
      var segs' := segs[..|segs| - 1];
      assert forall k :: 0 <= k < |segs'| ==> segs'[k] == segs[k];
      KeyNotInParse(segs', pairs, key);
      assert KeyOf(segs[|segs| - 1], pairs) != key;
    }
  }

  /** `ParseKeyPairs(str, seg, pairs)`. */
  method ParseKeyPairs(str: string, seg: char, pairs: char) returns (r: Result<map<string, string>>)
    ensures r == ParsePairs(Split(str, seg), pairs)
  {
    var segs := Split(str, seg);
    var result: map<string, string> := map[];
    var i := 0;
    while i < |segs|
      invariant 0 <= i <= |segs|
      invariant ParsePairs(segs[..i], pairs) == Ok(result)
    {
      var item := segs[i];
      var chunks := Split(item, pairs);
      assert segs[..i + 1][..i] == segs[..i];
      if |chunks| != 2 {
        ParsePairsErrorSticks(segs[..i + 1], segs[i + 1..], pairs);
        assert segs[..i + 1] + segs[i + 1..] == segs;
        return Err(Exception(BadPairs));
      }
      if chunks[0] in result {
        ParsePairsErrorSticks(segs[..i + 1], segs[i + 1..], pairs);
        assert segs[..i + 1] + segs[i + 1..] == segs;
        return Err(ArgumentException(DuplicateKey));
      }
      result := result[chunks[0] := chunks[1]];
      i := i + 1;
    }
    assert segs[..i] == segs;
    r := Ok(result);
  }

  /** An empty input, or one that ends in the segment separator, ends in an empty segment, which has no pair separator. */
  lemma EmptySegmentFails(str: string, seg: char, pairs: char)
    requires str == [] || str[|str| - 1] == seg
    ensures ParsePairs(Split(str, seg), pairs).Err?
  {
    var segs := Split(str, seg);
    assert segs[|segs| - 1] == [];
    assert !WellFormed(segs[|segs| - 1], pairs);
    ParsePairsOutcome(segs, pairs);
  }

  /** The text `k1 pairs v1 seg k2 pairs v2 ...` for the given entries. */
  function Segments(entries: seq<(string, string)>, pairs: char): (r: seq<string>)
    ensures |r| == |entries|
    ensures forall k :: 0 <= k < |entries| ==> r[k] == entries[k].0 + [pairs] + entries[k].1
  {
    if entries == [] then []
    else Segments(entries[..|entries| - 1], pairs) + [entries[|entries| - 1].0 + [pairs] + entries[|entries| - 1].1]
  }

  function Encode(entries: seq<(string, string)>, seg: char, pairs: char): string
    requires |entries| >= 1
  {
    Join(Segments(entries, pairs), seg)
  }

  /** The map the entries denote. */
  function MapOf(entries: seq<(string, string)>): map<string, string>
  {
    if entries == [] then map[]
    else MapOf(entries[..|entries| - 1])[entries[|entries| - 1].0 := entries[|entries| - 1].1]
  }

  predicate Free(s: string, seg: char, pairs: char)
  {
    seg !in s && pairs !in s
  }

  /** Round trip: parsing the encoding of distinct, separator-free entries gives their map. */
  lemma ParseEncodeRoundTrip(entries: seq<(string, string)>, seg: char, pairs: char)
    requires |entries| >= 1 && seg != pairs
    requires forall k :: 0 <= k < |entries| ==> Free(entries[k].0, seg, pairs) && Free(entries[k].1, seg, pairs)
    requires forall k, l :: 0 <= k < l < |entries| ==> entries[k].0 != entries[l].0
    ensures ParsePairs(Split(Encode(entries, seg, pairs), seg), pairs) == Ok(MapOf(entries))
  {
    var segs := Segments(entries, pairs);
    forall k | 0 <= k < |segs| ensures seg !in segs[k] {
      assert segs[k] == entries[k].0 + [pairs] + entries[k].1;
    }
    SplitJoin(segs, seg);
    ParseSegments(entries, pairs);
  }

  lemma {:induction false} ParseSegments(entries: seq<(string, string)>, pairs: char)
    requires forall k :: 0 <= k < |entries| ==> pairs !in entries[k].0 && pairs !in entries[k].1
    requires forall k, l :: 0 <= k < l < |entries| ==> entries[k].0 != entries[l].0
    ensures ParsePairs(Segments(entries, pairs), pairs) == Ok(MapOf(entries))
  {
    if entries != [] {
      var es := entries[..|entries| - 1];
      var (key, val) := entries[|entries| - 1];
      ParseSegments(es, pairs);
      var segs := Segments(entries, pairs);
      assert segs[..|segs| - 1] == Segments(es, pairs);
      SplitAtSeparator(key, val, pairs);
      SplitFree(key, pairs);
      SplitFree(val, pairs);
      forall k | 0 <= k < |es| ensures es[k].0 != key {
        assert es[k] == entries[k];
      }
      MapOfKeyAbsent(es, key);
    }
  }

  lemma {:induction false} MapOfKeyAbsent(entries: seq<(string, string)>, key: string)
    requires forall k :: 0 <= k < |entries| ==> entries[k].0 != key
    ensures key !in MapOf(entries)
  {
    if entries != [] {
      var es := entries[..|entries| - 1];
      assert forall k :: 0 <= k < |es| ==> es[k] == entries[k];
      MapOfKeyAbsent(es, key);
    }
  }

  // ---------------------------------------------------------------------
  // ToDictionary

  /** `ToDictionary(query, predicate)`: every item stored under its key;
      `Dictionary.Add` throws on the first repeated key. */
  method ToDictionary<T, X(==)>(items: seq<T>, key: T -> X) returns (r: Result<map<X, T>>)
    ensures r.Ok? <==> forall a, b :: 0 <= a < b < |items| ==> key(items[a]) != key(items[b])
    ensures r.Err? ==> r.error == ArgumentException(DuplicateKey)
    ensures r.Ok? ==> |r.value| == |items|
    ensures r.Ok? ==> forall a :: 0 <= a < |items| ==> key(items[a]) in r.value && r.value[key(items[a])] == items[a]
  {
    var result: map<X, T> := map[];
    for i := 0 to |items|
      invariant forall a, b :: 0 <= a < b < i ==> key(items[a]) != key(items[b])
      invariant |result| == i
      invariant forall a :: 0 <= a < i ==> key(items[a]) in result && result[key(items[a])] == items[a]
      invariant forall k :: k in result ==> exists a :: 0 <= a < i && key(items[a]) == k
    {
      var k := key(items[i]);
      if k in result {
        var a :| 0 <= a < i && key(items[a]) == k;
        assert key(items[a]) == key(items[i]);
        return Err(ArgumentException(DuplicateKey));
      }
      result := result[k := items[i]];
    }
    r := Ok(result);
  }

  // ---------------------------------------------------------------------
  // AddToList and ToDictionaryOfLists

  /** `AddToList` on an `IDictionary<X, IList<T>>`, as written: the guard is
      inverted, so a present key goes to `Add` (duplicate key) and an absent
      key to the indexer (key not found). It never returns normally. */
  function AddToList<X(==), T>(dict: map<X, seq<T>>, key: X, value: T): (r: Result<map<X, seq<T>>>)
    ensures r.Err?
    ensures r.error == if key in dict then ArgumentException(DuplicateKey) else KeyNotFoundException
  {
    if key in dict then Err(ArgumentException(DuplicateKey))
    else Err(KeyNotFoundException)
  }

  /** `AddToList` as evidently intended: append to the key's list, creating it when absent. */
  function AddToListIntended<X(==), T>(dict: map<X, seq<T>>, key: X, value: T): (r: map<X, seq<T>>)
    ensures r.Keys == dict.Keys + {key}
    ensures r[key] == (if key in dict then dict[key] else []) + [value]
    ensures forall k :: k in dict && k != key ==> r[k] == dict[k]
  {
    if key in dict then dict[key := dict[key] + [value]] else dict[key := [value]]
  }

  /** The discrepancy: on an empty dictionary the intended call adds a one-element list; the written one throws. */
  lemma AddToListNeverAdds<X, T>(key: X, value: T)
    ensures AddToList(map[], key, value) == Err(KeyNotFoundException)
    ensures AddToListIntended(map[], key, value) == map[key := [value]]
  {
  }

  /** The grouping `ToDictionaryOfLists` computes: each item appended to its key's list in input order. */
  function Group<T, X(==)>(items: seq<T>, key: T -> X): map<X, seq<T>>
  {
    if items == [] then map[]
    else AddToListIntended(Group(items[..|items| - 1], key), key(items[|items| - 1]), items[|items| - 1])
  }

  /** The items whose key is `k`. */
  function HasKey<T, X(==)>(key: T -> X, k: X): T -> bool
  {
    x => key(x) == k
  }

  /** `ToDictionaryOfLists(query, predicate)`: never throws on repeated keys. */
  method ToDictionaryOfLists<T, X(==)>(items: seq<T>, key: T -> X) returns (r: map<X, seq<T>>)
    ensures r == Group(items, key)
  {
    var result: map<X, seq<T>> := map[];
    for i := 0 to |items|
      invariant result == Group(items[..i], key)
    {
      assert items[..i + 1][..i] == items[..i];
      var k := key(items[i]);
      if k in result {
        result := result[k := result[k] + [items[i]]];
      } else {
        result := result[key(items[i]) := [items[i]]];
      }
    }
    assert items[..|items|] == items;
    r := result;
  }

  /** The keys are exactly the items' keys. */
  lemma {:induction false} GroupKeys<T, X>(items: seq<T>, key: T -> X)
    ensures forall a :: 0 <= a < |items| ==> key(items[a]) in Group(items, key)
    ensures forall k :: k in Group(items, key) ==> exists a :: 0 <= a < |items| && key(items[a]) == k
  {
    if items != [] {
      var items' := items[..|items| - 1];
      GroupKeys(items', key);
      assert forall a :: 0 <= a < |items'| ==> items'[a] == items[a];
      forall k | k in Group(items, key) ensures exists a :: 0 <= a < |items| && key(items[a]) == k {
        if k != key(items[|items| - 1]) {
          var a :| 0 <= a < |items'| && key(items'[a]) == k;
          assert key(items[a]) == k;
        }
      }
    }
  }

  /** Each key's list is exactly the items with that key, in input order. */
  lemma {:induction false} GroupLists<T, X>(items: seq<T>, key: T -> X)
    ensures forall k :: k in Group(items, key) ==> Group(items, key)[k] == Filter(HasKey(key, k), items)
  {
    if items != [] {
      var items' := items[..|items| - 1];
      var x := items[|items| - 1];
      GroupLists(items', key);
      GroupKeys(items', key);
      var g := Group(items', key);
      forall k | k in Group(items, key) ensures Group(items, key)[k] == Filter(HasKey(key, k), items) {
        if k == key(x) && k !in g {
          forall a | 0 <= a < |items'| ensures !HasKey(key, k)(items'[a]) {
            assert key(items'[a]) in g;
          }
          FilterNone(HasKey(key, k), items');
        }
      }
    }
  }

  /** The sum of the lengths of the lists of a dictionary. */
  ghost function TotalLength<X, T>(m: map<X, seq<T>>): nat
    decreases |m|
  {
    if m == map[] then 0
    else
      var k := Pick(m);
      assert (m - {k}).Keys == m.Keys - {k};
      |m[k]| + TotalLength(m - {k})
  }

  ghost function Pick<X, T>(m: map<X, seq<T>>): (k: X)
    requires m != map[]
    ensures k in m
  {
    assert m.Keys != {};
    var k :| k in m; k
  }

  /** The sum does not depend on the order in which keys are taken. */
  lemma TotalLengthAt<X, T>(m: map<X, seq<T>>, k: X)
    requires k in m
    ensures TotalLength(m) == |m[k]| + TotalLength(m - {k})
    decreases |m|
  {
    var j := Pick(m);
    if j != k {
      assert (m - {j}).Keys == m.Keys - {j};
      assert (m - {k}).Keys == m.Keys - {k};
      TotalLengthAt(m - {j}, k);
      TotalLengthAt(m - {k}, j);
      assert m - {j} - {k} == m - {k} - {j};
    }
  }

  /** Every item lands in exactly one list: the lengths add up to the number of items. */
  lemma {:induction false} GroupTotalLength<T, X>(items: seq<T>, key: T -> X)
    ensures TotalLength(Group(items, key)) == |items|
  {
    if items != [] {
      var items' := items[..|items| - 1];
      var x := items[|items| - 1];
      GroupTotalLength(items', key);
      var g := Group(items', key);
      var g2 := Group(items, key);
      var k := key(x);
      TotalLengthAt(g2, k);
      if k in g {
        TotalLengthAt(g, k);
        assert g2 - {k} == g - {k};
      } else {
        assert g2 - {k} == g;
      }
    }
  }

  // ---------------------------------------------------------------------
  // Reduce and Generate

  /** The left fold `Reduce` performs: each element is combined with the result
      so far; the first exception the reducer throws ends the fold. */
  function Fold<A, R>(reducer: (A, R) -> Result<R>, initial: R, xs: seq<A>): Result<R>
  {
    if xs == [] then Ok(initial)
    else match Fold(reducer, initial, xs[..|xs| - 1])
      case Err(e) => Err(e)
      case Ok(acc) => reducer(xs[|xs| - 1], acc)
  }

  /** Folding a concatenation folds the second part starting from the fold of
      the first; an exception in the first part ends the whole fold. */
  lemma {:induction false} FoldAppend<A, R>(reducer: (A, R) -> Result<R>, initial: R, a: seq<A>, b: seq<A>)
    ensures Fold(reducer, initial, a).Err? ==> Fold(reducer, initial, a + b) == Fold(reducer, initial, a)
    ensures Fold(reducer, initial, a).Ok? ==>
      Fold(reducer, initial, a + b) == Fold(reducer, Fold(reducer, initial, a).value, b)
    decreases |b|
  {
    if b == [] {
      assert a + b == a;
    } else {
      assert (a + b)[..|a + b| - 1] == a + b[..|b| - 1];
      FoldAppend(reducer, initial, a, b[..|b| - 1]);
    }
  }

  /** A fold that throws threw at one element, every reducer call before it
      having succeeded. */
  lemma {:induction false} FoldFirstError<A, R>(reducer: (A, R) -> Result<R>, initial: R, xs: seq<A>) returns (k: nat)
    requires Fold(reducer, initial, xs).Err?
    ensures k < |xs| && Fold(reducer, initial, xs[..k]).Ok?
    ensures reducer(xs[k], Fold(reducer, initial, xs[..k]).value) == Fold(reducer, initial, xs)
  {
    var p := Fold(reducer, initial, xs[..|xs| - 1]);
    if p.Err? {
      k := FoldFirstError(reducer, initial, xs[..|xs| - 1]);
      assert xs[..|xs| - 1][..k] == xs[..k];
      assert xs[..|xs| - 1][k] == xs[k];
    } else {
      k := |xs| - 1;
    }
  }

  /** `Reduce(enumerable, reducer, initial)`. */
  method Reduce<A, R>(xs: seq<A>, reducer: (A, R) -> Result<R>, initial: R) returns (r: Result<R>)
    ensures r == Fold(reducer, initial, xs)
  {
    var acc := initial;
    for i := 0 to |xs|
      invariant Fold(reducer, initial, xs[..i]) == Ok(acc)
    {
      assert xs[..i + 1][..i] == xs[..i];
      var next := reducer(xs[i], acc);
      if next.Err? {
        FoldAppend(reducer, initial, xs[..i + 1], xs[i + 1..]);
        assert xs[..i + 1] + xs[i + 1..] == xs;
        return next;
      }
      acc := next.value;
    }
    assert xs[..|xs|] == xs;
    r := Ok(acc);
  }

  /** `Generate(count, seeder)`: `seeder(i)` is what the seeder yields, or throws,
      on its i-th call. A negative count makes the array allocation throw; the
      first exception of the seeder escapes. */
  method Generate<T(0)>(count: int, seeder: nat -> Result<T>) returns (r: Result<array<T>>)
    ensures count < 0 ==> r == Err(OverflowException)
    ensures r.Ok? <==> count >= 0 && forall i :: 0 <= i < count ==> seeder(i).Ok?
    ensures r.Ok? ==> fresh(r.value) && r.value.Length == count
    ensures r.Ok? ==> forall i :: 0 <= i < count ==> seeder(i) == Ok(r.value[i])
    ensures r.Err? && count >= 0 ==>
      exists k :: 0 <= k < count && seeder(k) == Err(r.error) &&
        forall j :: 0 <= j < k ==> seeder(j).Ok?
  {
    if count < 0 {
      return Err(OverflowException);
    }
    var currents := new T[count];
    for i := 0 to count
      invariant forall j :: 0 <= j < i ==> seeder(j) == Ok(currents[j])
    {
      var v := seeder(i);
      if v.Err? {
        return Err(v.error);
      }
      currents[i] := v.value;
    }
    r := Ok(currents);
  }

  // ---------------------------------------------------------------------
  // ThrowIf, In, IsHere, TakeUntil

  /** The position of the first element satisfying `criteria`. */
  function FirstMatch<T>(xs: seq<T>, criteria: T -> bool): (i: nat)
    requires exists k :: 0 <= k < |xs| && criteria(xs[k])
    ensures i < |xs| && criteria(xs[i])
    ensures forall k :: 0 <= k < i ==> !criteria(xs[k])
  {
    if criteria(xs[0]) then 0
    else
      var k :| 0 <= k < |xs| && criteria(xs[k]);
      assert xs[1..][k - 1] == xs[k];
      1 + FirstMatch(xs[1..], criteria)
  }

  /** `ThrowIf<T, TErr>(criteria)`: `err` is the `new TErr()` it throws. */
  function ThrowIf<T>(xs: seq<T>, criteria: T -> bool, err: Exception): (r: Result<seq<T>>)
    ensures r.Err? <==> exists k :: 0 <= k < |xs| && criteria(xs[k])
    ensures r.Err? ==> r.error == err
    ensures r.Ok? ==> r.value == xs
  {
    FilterNonEmpty(criteria, xs);
    if |Filter(criteria, xs)| > 0 then
      Err(err)
    else
      Ok(xs)
  }

  /** `ThrowIf(criteria, Action)`: the action runs once when some element
      matches; what it throws propagates. Returns whether it ran and the outcome. */
  function ThrowIfAction<T>(xs: seq<T>, criteria: T -> bool, action: () -> Option<Exception>): (r: (bool, Result<seq<T>>))
    ensures r.0 <==> exists k :: 0 <= k < |xs| && criteria(xs[k])
    ensures r.1.Err? <==> r.0 && action().Some?
    ensures r.1.Err? ==> r.1.error == action().value
    ensures r.1.Ok? ==> r.1.value == xs
  {
    FilterNonEmpty(criteria, xs);
    if |Filter(criteria, xs)| > 0 then
      match action()
      case Some(e) => (true, Err(e))
      case None => (true, Ok(xs))
    else
      (false, Ok(xs))
  }

  /** `ThrowIf(criteria, Action<T>)`: the action runs once, with the first matching element, when one exists. */
  function ThrowIfFirst<T>(xs: seq<T>, criteria: T -> bool, action: T -> Option<Exception>): (r: (Option<T>, Result<seq<T>>))
    ensures r.0.None? <==> forall k :: 0 <= k < |xs| ==> !criteria(xs[k])
    ensures r.0.Some? ==>
      exists i :: 0 <= i < |xs| && r.0.value == xs[i] && criteria(xs[i]) && (forall k :: 0 <= k < i ==> !criteria(xs[k]))
    ensures r.1.Err? <==> r.0.Some? && action(r.0.value).Some?
    ensures r.1.Err? ==> r.1.error == action(r.0.value).value
    ensures r.1.Ok? ==> r.1.value == xs
  {
    FilterNonEmpty(criteria, xs);
    if |Filter(criteria, xs)| > 0 then
      var first := xs[FirstMatch(xs, criteria)];
      match action(first)
      case Some(e) => (Some(first), Err(e))
      case None => (Some(first), Ok(xs))
    else
      (None, Ok(xs))
  }

  /** `In(func, criteria)`: the elements whose projection satisfies `criteria`, in order. */
  function In<T, X>(xs: seq<T>, func: T -> X, criteria: X -> bool): (r: seq<T>)
    ensures forall k | 0 <= k < |r| :: r[k] in xs && criteria(func(r[k]))
    ensures forall k | 0 <= k < |xs| :: criteria(func(xs[k])) ==> xs[k] in r
    ensures IsSubsequence(r, xs)
    ensures forall k | 0 <= k < |xs| :: multiset(r)[xs[k]] == if criteria(func(xs[k])) then multiset(xs)[xs[k]] else 0
  {
    var keep := (x: T) => criteria(func(x));
    FilterCounts(keep, xs);
    FilterMembersAt(keep, xs);
    FilterIsSubsequence(keep, xs);
    Filter(keep, xs)
  }

  /** `IsHere(values)`: whether the element equals one of the values. */
  function IsHere<T(==)>(element: T, values: seq<T>): (r: bool)
    ensures r <==> exists k :: 0 <= k < |values| && values[k] == element
  {
    element in values
  }

  /** `TakeUntil(limit, offset)`: a null or empty string comes back unchanged;
      otherwise `Substring(offset, limit)`, which throws when the range leaves the string. */
  function TakeUntil(str: Option<string>, limit: int, offset: int): (r: Result<Option<string>>)
    ensures str.None? ==> r == Ok(None)
    ensures str == Some([]) ==> r == Ok(Some([]))
    ensures str.Some? && str.value != [] ==>
      (r.Ok? <==> 0 <= offset && 0 <= limit && offset + limit <= |str.value|)
    ensures r.Err? ==> r.error == ArgumentOutOfRangeException
    ensures str.Some? && str.value != [] && r.Ok? ==>
      r.value.Some? && |r.value.value| == limit &&
      forall k :: 0 <= k < limit ==> r.value.value[k] == str.value[offset + k]
  {
    match str
    case None => Ok(None)
    case Some(s) =>
      if s == [] then Ok(Some(s))
      else if offset < 0 || limit < 0 || offset > |s| - limit then Err(ArgumentOutOfRangeException)
      else Ok(Some(s[offset..offset + limit]))
  }

  // ---------------------------------------------------------------------
  // Execute and ForEach

  /** `Execute(action)`: calls the action on each element in order; the first
      exception stops the loop and propagates. `called` lists the elements the
      action was given. */
  method Execute<T>(xs: seq<T>, action: T -> Option<Exception>) returns (r: Result<seq<T>>, called: seq<T>)
    ensures |called| <= |xs| && called == xs[..|called|]
    ensures r.Ok? <==> forall k :: 0 <= k < |xs| ==> action(xs[k]).None?
    ensures r.Ok? ==> r.value == xs && called == xs
    ensures r.Err? ==> called != [] && action(called[|called| - 1]) == Some(r.error)
    ensures forall k :: 0 <= k < |called| - 1 ==> action(called[k]).None?
  {
    called := [];
    for i := 0 to |xs|
      invariant called == xs[..i]
      invariant forall k :: 0 <= k < i ==> action(xs[k]).None?
    {
      called := called + [xs[i]];
      match action(xs[i])
      case Some(e) =>
        return Err(e), called;
      case None =>
    }
    r := Ok(xs);
  }

  /** `ForEach(key, action)` on a dictionary of lists: the indexer throws for an absent key. */
  method ForEach<X(==), T>(dict: map<X, seq<T>>, key: X, action: T -> Option<Exception>)
    returns (r: Result<map<X, seq<T>>>, called: seq<T>)
    ensures key !in dict ==> r == Err(KeyNotFoundException) && called == []
    ensures key in dict ==> |called| <= |dict[key]| && called == dict[key][..|called|]
    ensures key in dict ==> (r.Ok? <==> forall k :: 0 <= k < |dict[key]| ==> action(dict[key][k]).None?)
    ensures r.Ok? ==> r.value == dict && called == dict[key]
    ensures key in dict && r.Err? ==> called != [] && action(called[|called| - 1]) == Some(r.error)
    ensures key in dict ==> forall k :: 0 <= k < |called| - 1 ==> action(called[k]).None?
  {
    if key !in dict {
      return Err(KeyNotFoundException), [];
    }
    var done;
    done, called := Execute(dict[key], action);
    if done.Err? {
      return Err(done.error), called;
    }
    r := Ok(dict);
  }
}
